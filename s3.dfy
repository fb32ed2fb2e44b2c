/** BFS::Bucket::S3: option resolution at construction, the request options `create` builds,
    and ls / info / open / rm / cp over the object store, translating the store's NoSuchKey
    into FileNotFound (or into nothing, for rm). */
module S3 {
  import opened Common
  import KeyOrder
  import Glob
  import Paths
  import S3Client

  /** A Ruby hash key as the driver meets one: a Symbol or a String. */
  datatype Key = Sym(name: string) | Str(name: string)

  /** An option value: nil, a boolean, a String, a Symbol, or any other object (kept as its `to_s`). */
  datatype Value = Nil | Flag(b: bool) | Text(s: string) | Symbol(s: string) | Other(desc: string)

  type Options = map<Key, Value>

  /** Ruby truthiness: everything but nil and false. */
  predicate Truthy(v: Value) {
    v != Nil && v != Flag(false)
  }

  /** `opts[k]`: nil for a missing key. */
  function Lookup(opts: Options, k: Key): Value {
    if k in opts then opts[k] else Nil
  }

  /** `a || b`. */
  function Either(a: Value, b: Value): Value {
    if Truthy(a) then a else b
  }

  function ToS(v: Value): string {
    match v
    case Nil => ""
    case Flag(b) => if b then "true" else "false"
    case Text(s) => s
    case Symbol(s) => s
    case Other(d) => d
  }

  /** `v.to_sym`: defined on Strings and Symbols only; nil and the rest raise NoMethodError. */
  function ToSym(v: Value): (r: Result<string>)
    ensures r.Ok? <==> v.Text? || v.Symbol?
    ensures r.Err? ==> r.error == NoMethod("to_sym")
    ensures r.Ok? ==> r.value == v.s
  {
    match v
    case Text(s) => Ok(s)
    case Symbol(s) => Ok(s)
    case _ => Err(NoMethod("to_sym"))
  }

  // ---------------------------------------------------------------------------------------
  // Construction

  /** What `opts[key.to_s] = opts.delete(key)` for every key leaves in `r`: only String keys,
      a name present when either spelling was given, and the Symbol's value winning over the
      String's whatever order the keys came in. */
  ghost predicate IsNormalised(opts: Options, r: Options) {
    && (forall k :: k in r ==> k.Str?)
    && (forall s :: Str(s) in r <==> Sym(s) in opts || Str(s) in opts)
    && (forall s :: Str(s) in r ==> r[Str(s)] == if Sym(s) in opts then opts[Sym(s)] else opts[Str(s)])
  }

  /** The normalised options are determined by the given ones. */
  lemma NormalisedUnique(opts: Options, r1: Options, r2: Options)
    requires IsNormalised(opts, r1) && IsNormalised(opts, r2)
    ensures r1 == r2
  {
    forall k | k in r1 ensures k in r2 && r1[k] == r2[k] {
      assert k == Str(k.name);
    }
    forall k | k in r2 ensures k in r1 {
      assert k == Str(k.name);
    }
  }

  function NormalisedKeys(opts: Options): (r: Options)
    ensures IsNormalised(opts, r)
  {
    map k | k in opts :: Str(k.name) := if Sym(k.name) in opts then opts[Sym(k.name)] else opts[k]
  }

  /** The key-by-key rewrite loop of `initialize`, taking the keys in any order. */
  method NormaliseKeys(opts: Options) returns (r: Options)
    ensures r == NormalisedKeys(opts)
  {
    r := opts;
    var todo := opts.Keys;
    while todo != {}
      invariant todo <= opts.Keys
      invariant forall s :: Sym(s) in r <==> Sym(s) in todo
      invariant forall s :: Str(s) in r <==> Str(s) in opts || (Sym(s) in opts && Sym(s) !in todo)
      invariant forall s :: Sym(s) in r ==> r[Sym(s)] == opts[Sym(s)]
      invariant forall s :: Str(s) in r ==>
                  r[Str(s)] == if Sym(s) in opts && Sym(s) !in todo then opts[Sym(s)] else opts[Str(s)]
      decreases todo
    {
      var k :| k in todo;
      assert k == Sym(k.name) || k == Str(k.name);
      var v := r[k];
      r := (r - {k})[Str(k.name) := v];
      todo := todo - {k};
    }
    assert forall k :: k in r ==> k.Str? by {
      forall k | k in r ensures k.Str? {
        assert k == Sym(k.name) || k == Str(k.name);
      }
    }
    NormalisedUnique(opts, r, NormalisedKeys(opts));
  }

  datatype Credentials = Given(value: Value) | Static(accessKeyId: string, secretAccessKey: string)

  datatype Client = Supplied(value: Value) | Default(region: Value)

  /** The fields `initialize` sets. */
  datatype Config = Config(name: string, sse: Value, credentials: Credentials, acl: Option<string>,
                           storageClass: Value, client: Client)

  /** Every field but @acl, from String-keyed options. */
  function Fields(name: string, opts: Options, acl: Option<string>): Config {
    var creds := Lookup(opts, Str("credentials"));
    var keyId := Lookup(opts, Str("access_key_id"));
    var client := Lookup(opts, Str("client"));
    Config(
      name,
      Either(Lookup(opts, Str("sse")), Lookup(opts, Str("server_side_encryption"))),
      if !Truthy(creds) && Truthy(keyId)
      then Static(ToS(keyId), ToS(Lookup(opts, Str("secret_access_key"))))
      else Given(creds),
      acl,
      Lookup(opts, Str("storage_class")),
      if Truthy(client) then Supplied(client) else Default(Lookup(opts, Str("region"))))
  }

  /** The rest of `initialize`, over String-keyed options: `@acl = opts['acl'].to_sym if
      opts.key?('acl')` converts whenever the key is present, whatever its value. */
  function Configure(name: string, opts: Options): (r: Result<Config>)
    ensures r.Err? <==> Str("acl") in opts && !(opts[Str("acl")].Text? || opts[Str("acl")].Symbol?)
    ensures r.Err? ==> r.error == NoMethod("to_sym")
    ensures r.Ok? ==> r.value.name == name
    ensures r.Ok? ==> (r.value.acl.Some? <==> Str("acl") in opts)
    ensures r.Ok? && Truthy(Lookup(opts, Str("sse"))) ==> r.value.sse == opts[Str("sse")]
    ensures r.Ok? && !Truthy(Lookup(opts, Str("sse"))) ==> r.value.sse == Lookup(opts, Str("server_side_encryption"))
    ensures r.Ok? ==> (r.value.credentials.Static? <==>
                        !Truthy(Lookup(opts, Str("credentials"))) && Truthy(Lookup(opts, Str("access_key_id"))))
    ensures r.Ok? && r.value.credentials.Given? ==> r.value.credentials.value == Lookup(opts, Str("credentials"))
    ensures r.Ok? && r.value.credentials.Static? ==>
              r.value.credentials.accessKeyId == ToS(Lookup(opts, Str("access_key_id")))
              && r.value.credentials.secretAccessKey == ToS(Lookup(opts, Str("secret_access_key")))
    ensures r.Ok? && Str("acl") in opts ==> r.value.acl == Some(opts[Str("acl")].s)
    ensures r.Ok? ==> r.value.storageClass == Lookup(opts, Str("storage_class"))
    ensures r.Ok? && Truthy(Lookup(opts, Str("client"))) ==> r.value.client == Supplied(opts[Str("client")])
    ensures r.Ok? && !Truthy(Lookup(opts, Str("client"))) ==> r.value.client == Default(Lookup(opts, Str("region")))
  {
    if Str("acl") in opts then
      match ToSym(opts[Str("acl")])
      case Ok(acl) => Ok(Fields(name, opts, Some(acl)))
      case Err(e) => Err(e)
    else Ok(Fields(name, opts, None))
  }

  /** `S3.new(name, opts)`. */
  method New(name: string, opts: Options) returns (r: Result<Config>)
    ensures r == Configure(name, NormalisedKeys(opts))
  {
    var normalised := NormaliseKeys(opts);
    r := Configure(name, normalised);
  }

  /** Configure as evidently intended: the acl is taken only when it is given (truthy). */
  function ConfigureCorrected(name: string, opts: Options): (r: Result<Config>)
    ensures r.Err? <==> Truthy(Lookup(opts, Str("acl"))) && !(opts[Str("acl")].Text? || opts[Str("acl")].Symbol?)
    ensures r.Ok? ==> (r.value.acl.Some? <==> Truthy(Lookup(opts, Str("acl"))))
    ensures !Truthy(Lookup(opts, Str("acl"))) ==> r == Ok(Fields(name, opts, None))
    ensures Truthy(Lookup(opts, Str("acl"))) ==> r == Configure(name, opts)
  {
    if Truthy(Lookup(opts, Str("acl"))) then Configure(name, opts) else Ok(Fields(name, opts, None))
  }

  // ---------------------------------------------------------------------------------------
  // The `s3` URL constructor

  /** `params.key?(name) ? params[name].first : nil` over the output of CGI.parse. */
  function Param(params: map<string, seq<string>>, name: string): Value {
    if name in params && |params[name]| > 0 then Text(params[name][0]) else Nil
  }

  /** The query parameters the URL constructor recognises. */
  const UrlParams: seq<string> := ["region", "sse", "access_key_id", "secret_access_key", "acl", "storage_class"]

  /** The options the URL constructor passes: every recognised key, nil when absent. */
  function UrlOptions(params: map<string, seq<string>>): (u: Options)
    ensures forall s :: Sym(s) in u <==> s in UrlParams
    ensures forall s :: Str(s) !in u
    ensures forall s :: Sym(s) in u ==> u[Sym(s)] == Param(params, s)
  {
    map s | s in UrlParams :: Sym(s) := Param(params, s)
  }

  /** `BFS.resolve("s3://host?query")`: the host names the bucket. */
  function FromUrl(host: string, params: map<string, seq<string>>): Result<Config> {
    Configure(host, NormalisedKeys(UrlOptions(params)))
  }

  function FromUrlCorrected(host: string, params: map<string, seq<string>>): Result<Config> {
    ConfigureCorrected(host, NormalisedKeys(UrlOptions(params)))
  }

  /** The String-keyed options every `s3` URL produces. */
  function UrlNormalised(params: map<string, seq<string>>): map<Key, Value> {
    map s | s in UrlParams :: Str(s) := Param(params, s)
  }

  lemma UrlOptionsNormalised(params: map<string, seq<string>>, n: Options)
    requires IsNormalised(UrlOptions(params), n)
    ensures n == UrlNormalised(params)
  {
    var u := UrlOptions(params);
    var want := UrlNormalised(params);
    assert forall k :: k in want ==> k.Str?;
    NormalisedUnique(u, n, want);
  }

  /** Each recognised parameter is read from the URL; everything else is nil. */
  lemma UrlLookup(params: map<string, seq<string>>, s: string)
    ensures Lookup(NormalisedKeys(UrlOptions(params)), Str(s)) == if s in UrlParams then Param(params, s) else Nil
  {
    UrlOptionsNormalised(params, NormalisedKeys(UrlOptions(params)));
  }

  /** The settings a URL's options give when they carry an acl parameter, stated for any
      options that agree with the URL's on every String key. */
  lemma ConfigureUrlOptions(host: string, params: map<string, seq<string>>, n: Options)
    requires "acl" in params && |params["acl"]| > 0
    requires forall s :: Lookup(n, Str(s)) == if s in UrlParams then Param(params, s) else Nil
    ensures Configure(host, n) == Ok(Config(
              host,
              Param(params, "sse"),
              if Truthy(Param(params, "access_key_id"))
              then Static(params["access_key_id"][0], ToS(Param(params, "secret_access_key")))
              else Given(Nil),
              Some(params["acl"][0]),
              Param(params, "storage_class"),
              Default(Param(params, "region"))))
  {
    assert "acl" in UrlParams && "region" in UrlParams && "sse" in UrlParams;
    assert "access_key_id" in UrlParams && "secret_access_key" in UrlParams && "storage_class" in UrlParams;
    assert Lookup(n, Str("acl")) == Text(params["acl"][0]);
    assert Lookup(n, Str("credentials")) == Nil && Lookup(n, Str("client")) == Nil;
    assert Lookup(n, Str("server_side_encryption")) == Nil;
  }

  /** A URL with an acl parameter resolves to the settings its parameters spell out; the
      client is always built from the region, since `client` is not a recognised parameter. */
  lemma FromUrlWithAcl(host: string, params: map<string, seq<string>>)
    requires "acl" in params && |params["acl"]| > 0
    ensures FromUrl(host, params) == Ok(Config(
              host,
              Param(params, "sse"),
              if Truthy(Param(params, "access_key_id"))
              then Static(params["access_key_id"][0], ToS(Param(params, "secret_access_key")))
              else Given(Nil),
              Some(params["acl"][0]),
              Param(params, "storage_class"),
              Default(Param(params, "region"))))
  {
    var n := NormalisedKeys(UrlOptions(params));
    forall s ensures Lookup(n, Str(s)) == if s in UrlParams then Param(params, s) else Nil {
      UrlLookup(params, s);
    }
    ConfigureUrlOptions(host, params, n);
  }

  /** `s3://mock-bucket?acl=private&region=eu-west-2` names the bucket and sets acl :private. */
  lemma ResolveMockBucket()
    ensures FromUrl("mock-bucket", map["acl" := ["private"], "region" := ["eu-west-2"]])
         == Ok(Config("mock-bucket", Nil, Given(Nil), Some("private"), Nil, Default(Text("eu-west-2"))))
  {
    var params := map["acl" := ["private"], "region" := ["eu-west-2"]];
    FromUrlWithAcl("mock-bucket", params);
    assert "sse" !in params && "access_key_id" !in params && "storage_class" !in params;
  }

  /** As written, a URL without an acl parameter passes `acl: nil`, and `nil.to_sym` raises. */
  lemma ResolveWithoutAclFails(host: string, params: map<string, seq<string>>)
    requires "acl" !in params
    ensures FromUrl(host, params) == Err(NoMethod("to_sym"))
  {
    UrlLookup(params, "acl");
  }

  /** Corrected, every URL resolves, and the acl is the first acl parameter when there is one. */
  lemma ResolveCorrected(host: string, params: map<string, seq<string>>)
    ensures FromUrlCorrected(host, params).Ok?
    ensures FromUrlCorrected(host, params).value.name == host
    ensures FromUrlCorrected(host, params).value.acl ==
              if "acl" in params && |params["acl"]| > 0 then Some(params["acl"][0]) else None
  {
    UrlLookup(params, "acl");
  }

  // ---------------------------------------------------------------------------------------
  // Operations over the store

  /** A driver: its configuration and norm_path (from BFS::Bucket::Abstract, a parameter here). */
  datatype Bucket = Bucket(config: Config, normPath: string -> string)

  /** What `k ||= d if d` leaves at `k`: the caller's value when truthy or when there is no
      default; the default otherwise. */
  predicate FilledIn(opts: Options, r: Options, k: Key, default: Value) {
    if Truthy(default) && !Truthy(Lookup(opts, k)) then k in r && r[k] == default
    else (k in r <==> k in opts) && Lookup(r, k) == Lookup(opts, k)
  }

  function AclDefault(c: Config): Value {
    if c.acl.Some? then Symbol(c.acl.value) else Nil
  }

  /** The request options of `create`: bucket and key are always the driver's; acl, encryption
      and storage class fall back to the bucket's defaults; every other option passes through. */
  method CreateOptions(b: Bucket, path: string, opts: Options) returns (r: Options)
    ensures Sym("bucket") in r && r[Sym("bucket")] == Text(b.config.name)
    ensures Sym("key") in r && r[Sym("key")] == Text(b.normPath(path))
    ensures FilledIn(opts, r, Sym("acl"), AclDefault(b.config))
    ensures FilledIn(opts, r, Sym("server_side_encryption"), b.config.sse)
    ensures FilledIn(opts, r, Sym("storage_class"), b.config.storageClass)
    ensures forall k :: k !in {Sym("bucket"), Sym("key"), Sym("acl"), Sym("server_side_encryption"), Sym("storage_class")} ==>
              (k in r <==> k in opts) && (k in r ==> r[k] == opts[k])
  {
    r := opts[Sym("bucket") := Text(b.config.name)][Sym("key") := Text(b.normPath(path))];
    var acl := AclDefault(b.config);
    if Truthy(acl) && !Truthy(Lookup(r, Sym("acl"))) {
      r := r[Sym("acl") := acl];
    }
    if Truthy(b.config.sse) && !Truthy(Lookup(r, Sym("server_side_encryption"))) {
      r := r[Sym("server_side_encryption") := b.config.sse];
    }
    if Truthy(b.config.storageClass) && !Truthy(Lookup(r, Sym("storage_class"))) {
      r := r[Sym("storage_class") := b.config.storageClass];
    }
  }

  /** `create` and its writer's commit: one put of the whole staged body under the request's key. */
  method Create(b: Bucket, store: S3Client.Store, path: string, opts: Options, body: seq<byte>, now: int)
    returns (request: Options, r: S3Client.Store)
    requires S3Client.Valid(store)
    ensures S3Client.Valid(r)
    ensures Sym("key") in request && request[Sym("key")] == Text(b.normPath(path))
    ensures r == S3Client.Put(store, b.normPath(path), body, now)
  {
    request := CreateOptions(b, path, opts);
    r := S3Client.Put(store, request[Sym("key")].s, body, now);
  }

  /** `ls`: the listed keys that match, in listing order, each once. */
  function Ls(b: Bucket, store: S3Client.Store, pattern: string, fnmatch: (string, string) -> bool): (r: seq<string>)
    requires S3Client.Valid(store)
    ensures r == Glob.Select(store.order, pattern, fnmatch)
    ensures forall k :: k in r <==> k in store.objects && fnmatch(pattern, k)
    ensures KeyOrder.Distinct(r)
  {
    Glob.SelectMembers(store.order, pattern, fnmatch);
    Glob.SelectDistinct(store.order, pattern, fnmatch);
    Glob.Select(store.order, pattern, fnmatch)
  }

  /** The key `info` asks about: the caller's `prefix` option joined in front, when given. */
  function InfoKey(b: Bucket, path: string, prefix: Option<string>): string {
    if prefix.Some? then Paths.JoinTwo(prefix.value, b.normPath(path)) else b.normPath(path)
  }

  /** `info` as written: the one object a `prefix` listing with `max_keys: 1` returns, which is the
      least stored key that STARTS WITH the looked-up key. */
  function Info(b: Bucket, store: S3Client.Store, path: string, prefix: Option<string>): (r: Result<FileInfo>)
    requires S3Client.Valid(store)
    ensures r.Err? <==> forall k :: k in store.objects ==> !Paths.StartsWith(k, InfoKey(b, path, prefix))
    ensures r.Err? ==> r.error == FileNotFound(b.normPath(path))
    ensures r.Ok? ==> exists k :: k in store.objects && Paths.StartsWith(k, InfoKey(b, path, prefix))
                          && (forall k' :: k' in store.objects && Paths.StartsWith(k', InfoKey(b, path, prefix)) ==> Paths.Below(k, k'))
                          && r.value == FileInfo(b.normPath(path), |store.objects[k].body|, store.objects[k].lastModified, None, map[])
  {
    match S3Client.LeastWithPrefix(store.order, InfoKey(b, path, prefix))
    case None => Err(FileNotFound(b.normPath(path)))
    case Some(k) =>
      var o := store.objects[k];
      Ok(FileInfo(b.normPath(path), |o.body|, o.lastModified, None, map[]))
  }

  /** `info` as evidently intended: the object stored under exactly the looked-up key. */
  function InfoCorrected(b: Bucket, store: S3Client.Store, path: string, prefix: Option<string>): (r: Result<FileInfo>)
    ensures r.Err? <==> InfoKey(b, path, prefix) !in store.objects
    ensures r.Err? ==> r.error == FileNotFound(b.normPath(path))
    ensures r.Ok? ==> var o := store.objects[InfoKey(b, path, prefix)];
              r.value.path == b.normPath(path) && r.value.size == |o.body| && r.value.mtime == o.lastModified
  {
    var key := InfoKey(b, path, prefix);
    if key !in store.objects then Err(FileNotFound(b.normPath(path)))
    else Ok(FileInfo(b.normPath(path), |store.objects[key].body|, store.objects[key].lastModified, None, map[]))
  }

  /** As written, `info("a")` succeeds on a store that holds only "ab". */
  lemma InfoOfMissingKeySucceeds(store: S3Client.Store)
    requires store == S3Client.Put(S3Client.Empty(), "ab", [7], 0)
    ensures Info(Bucket(Config("b", Nil, Given(Nil), None, Nil, Default(Nil)), p => p), store, "a", None)
         == Ok(FileInfo("a", 1, 0, None, map[]))
    ensures InfoCorrected(Bucket(Config("b", Nil, Given(Nil), None, Nil, Default(Nil)), p => p), store, "a", None)
         == Err(FileNotFound("a"))
  {
    var keys: seq<string> := ["ab"];
    assert store.order == keys && store.objects == map["ab" := S3Client.Object([7], 0)];
    assert Paths.StartsWith("ab", "a");
    assert keys[1..] == [] && S3Client.LeastWithPrefix([], "a") == None;
    assert S3Client.LeastWithPrefix(keys, "a") == Some("ab");
  }

  /** When an object is stored at the looked-up key, `info` as written reports that object. */
  lemma InfoExactWhenStored(b: Bucket, store: S3Client.Store, path: string, prefix: Option<string>)
    requires S3Client.Valid(store)
    requires InfoKey(b, path, prefix) in store.objects
    ensures Info(b, store, path, prefix) == InfoCorrected(b, store, path, prefix)
  {
    S3Client.LeastWithPrefixOfStoredKey(store.order, InfoKey(b, path, prefix));
  }

  /** `open`: the object's body; a missing key (NoSuchKey) becomes FileNotFound. */
  function Open(b: Bucket, store: S3Client.Store, path: string): (r: Result<seq<byte>>)
    ensures r.Err? <==> b.normPath(path) !in store.objects
    ensures r.Err? ==> r.error == FileNotFound(b.normPath(path))
    ensures r.Ok? ==> r.value == store.objects[b.normPath(path)].body
  {
    match S3Client.Get(store, b.normPath(path))
    case Ok(body) => Ok(body)
    case Err(_) => Err(FileNotFound(b.normPath(path)))
  }

  /** `rm`: the store's NoSuchKey is swallowed, so removing never fails. */
  function Rm(b: Bucket, store: S3Client.Store, path: string): (r: S3Client.Store)
    requires S3Client.Valid(store)
    ensures S3Client.Valid(r)
    ensures r.objects == store.objects - {b.normPath(path)}
  {
    S3Client.Delete(store, b.normPath(path)).1
  }

  /** Removing twice leaves the store as removing once. */
  lemma RmIdempotent(b: Bucket, store: S3Client.Store, path: string)
    requires S3Client.Valid(store)
    ensures Rm(b, Rm(b, store, path), path) == Rm(b, store, path)
  {
    var once := Rm(b, store, path);
    assert b.normPath(path) !in once.objects;
  }

  /** The copy_source `cp` sends. */
  function CopySource(name: string, src: string): string {
    "/" + name + "/" + src
  }

  /** `cp`: FileNotFound naming the source when it is missing; else the destination gets the
      source's body, and every other key, the source included, keeps its object. */
  function Cp(b: Bucket, store: S3Client.Store, src: string, dst: string, now: int): (r: (Outcome, S3Client.Store))
    requires S3Client.Valid(store)
    ensures S3Client.Valid(r.1)
    ensures r.0.Fail? <==> b.normPath(src) !in store.objects
    ensures r.0.Fail? ==> r.0.error == FileNotFound(b.normPath(src)) && r.1 == store
    ensures r.0.Pass? ==> var s, d := b.normPath(src), b.normPath(dst);
              d in r.1.objects && r.1.objects[d].body == store.objects[s].body
              && s in r.1.objects
              && forall k :: k != d ==> (k in r.1.objects <==> k in store.objects)
                                        && (k in r.1.objects ==> r.1.objects[k] == store.objects[k])
  {
    var s, d := b.normPath(src), b.normPath(dst);
    var name := b.config.name;
    S3Client.SubFirstOfPrefixed("/" + name + "/", s);
    assert CopySource(name, s) == ("/" + name + "/") + s;
    var copied := S3Client.Copy(store, name, CopySource(name, s), d, now);
    if copied.0.Fail? then (Fail(FileNotFound(s)), copied.1) else (Pass, copied.1)
  }

  /** Round trip: after `create` commits a body, `open` reads it back and `info` (as intended)
      reports its length. */
  lemma PutThenRead(b: Bucket, store: S3Client.Store, path: string, body: seq<byte>, now: int)
    requires S3Client.Valid(store)
    ensures var after := S3Client.Put(store, b.normPath(path), body, now);
      && Open(b, after, path) == Ok(body)
      && InfoCorrected(b, after, path, None) == Ok(FileInfo(b.normPath(path), |body|, now, None, map[]))
  {
  }
}
