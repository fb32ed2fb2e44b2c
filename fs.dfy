/** BFS::Bucket::FS: the filesystem driver's own bookkeeping. The root prefix it strips from
    globbed paths, and the error contract of rm / cp / mv over an abstract map from normalised
    path to file content (the filesystem calls themselves are not modelled). */
module FS {
  import opened Common
  import Paths

  /** A driver: its root, the prefix computed from it at construction, and norm_path. */
  datatype Bucket = Bucket(root: string, prefix: string, normPath: string -> string)

  /** The files below the root, by normalised path. */
  type Files = map<string, seq<byte>>

  /** `"#{root.chomp('/')}/"`: ends in '/', and is the root itself when that already did. */
  function RootPrefix(root: string): (p: string)
    ensures |p| > 0 && p[|p| - 1] == '/'
    ensures Paths.EndsWithSlash(root) ==> p == root
    ensures !Paths.EndsWithSlash(root) ==> p == root + "/"
  {
    Paths.Chomp(root) + "/"
  }

  /** `FS.new(root)`. */
  function New(root: string, normPath: string -> string): (b: Bucket)
    ensures b.root == root && b.prefix == RootPrefix(root) && b.normPath == normPath
  {
    Bucket(root, RootPrefix(root), normPath)
  }

  /** What `trim_prefix` leaves of `s`: the prefix cut off when `s` starts with it, else `s`. */
  function Trimmed(prefix: string, s: string): (r: string)
    ensures Paths.StartsWith(s, prefix) ==> prefix + r == s
    ensures !Paths.StartsWith(s, prefix) ==> r == s
    ensures |r| <= |s|
  {
    if Paths.Head(s, |prefix|) == prefix then s[|prefix|..] else s
  }

  /** A path below the root comes back as the relative key it was joined from. */
  lemma TrimmedUnderRoot(root: string, key: string)
    ensures Trimmed(RootPrefix(root), RootPrefix(root) + key) == key
  {
    var p := RootPrefix(root);
    assert Paths.StartsWith(p + key, p) by {
      assert (p + key)[..|p|] == p;
    }
  }

  /** A Ruby String: a mutable object, so that `slice!` can change it in place. */
  class RString {
    var value: string

    constructor (value: string)
      ensures this.value == value
    {
      this.value := value;
    }
  }

  /** `trim_prefix(path)`: `slice!` edits the argument and the same object is returned. */
  method TrimPrefix(b: Bucket, path: RString) returns (r: RString)
    modifies path
    ensures r == path
    ensures path.value == Trimmed(b.prefix, old(path.value))
  {
    var n := |b.prefix|;
    if Paths.Head(path.value, n) == b.prefix {
      path.value := path.value[n..];
    }
    r := path;
  }

  /** `rm`: `FileUtils.rm_f`, so a missing file is no error; only that path goes. */
  function Rm(b: Bucket, files: Files, path: string): (r: Files)
    ensures b.normPath(path) !in r
    ensures forall k :: k != b.normPath(path) ==> (k in r <==> k in files)
    ensures forall k :: k in r ==> r[k] == files[k]
  {
    files - {b.normPath(path)}
  }

  /** `cp`: FileNotFound naming the normalised source when it is missing (Errno::ENOENT);
      FileUtils refuses a copy onto the same file; otherwise the destination gets the
      source's content and everything else, the source included, stays. */
  function Cp(b: Bucket, files: Files, src: string, dst: string): (r: Result<Files>)
    ensures b.normPath(src) !in files <==> r == Err(FileNotFound(b.normPath(src)))
    ensures b.normPath(src) in files && b.normPath(src) == b.normPath(dst) ==>
              r == Err(SameFile(b.normPath(src), b.normPath(dst)))
    ensures b.normPath(src) in files && b.normPath(src) != b.normPath(dst) ==> r.Ok?
    ensures r.Ok? ==> var s, d := b.normPath(src), b.normPath(dst);
              s in r.value && r.value[s] == files[s] && d in r.value && r.value[d] == files[s]
              && forall k :: k != d ==> (k in r.value <==> k in files) && (k in r.value ==> r.value[k] == files[k])
  {
    var s, d := b.normPath(src), b.normPath(dst);
    if s !in files then Err(FileNotFound(s))
    else if s == d then Err(SameFile(s, d))
    else Ok(files[d := files[s]])
  }

  /** `mv`: the same errors as `cp`; on success the destination holds the source's former
      content and the source is gone. */
  function Mv(b: Bucket, files: Files, src: string, dst: string): (r: Result<Files>)
    ensures b.normPath(src) !in files <==> r == Err(FileNotFound(b.normPath(src)))
    ensures b.normPath(src) in files && b.normPath(src) == b.normPath(dst) ==>
              r == Err(SameFile(b.normPath(src), b.normPath(dst)))
    ensures b.normPath(src) in files && b.normPath(src) != b.normPath(dst) ==> r.Ok?
    ensures r.Ok? ==> var s, d := b.normPath(src), b.normPath(dst);
              s !in r.value && d in r.value && r.value[d] == files[s]
              && forall k :: k != s && k != d ==> (k in r.value <==> k in files) && (k in r.value ==> r.value[k] == files[k])
  {
    var s, d := b.normPath(src), b.normPath(dst);
    if s !in files then Err(FileNotFound(s))
    else if s == d then Err(SameFile(s, d))
    else Ok((files - {s})[d := files[s]])
  }

  /** A move is a copy followed by removing the source. */
  lemma MoveIsCopyThenRemove(b: Bucket, files: Files, src: string, dst: string)
    ensures Mv(b, files, src, dst) == match Cp(b, files, src, dst)
      case Ok(copied) => Ok(Rm(b, copied, src))
      case Err(e) => Err(e)
  {
    var s, d := b.normPath(src), b.normPath(dst);
    if s in files && s != d {
      assert (files - {s})[d := files[s]] == files[d := files[s]] - {s};
    }
  }

  /** Removing twice is the same as removing once, and neither can fail. */
  lemma RmIdempotent(b: Bucket, files: Files, path: string)
    ensures Rm(b, Rm(b, files, path), path) == Rm(b, files, path)
  {
    assert Rm(b, files, path) - {b.normPath(path)} == Rm(b, files, path);
  }

  /** The `file` URL constructor's root: host and path joined, nil parts dropped. */
  function UrlRoot(host: Option<string>, path: Option<string>): string {
    Paths.Join((if host.Some? then [host.value] else []) + (if path.Some? then [path.value] else []))
  }

  /** `file://host/dir` and `file:///dir` give the root the URL spells out. */
  lemma UrlRootSpelledOut(host: string, path: string)
    requires !Paths.EndsWithSlash(host) && Paths.StartsWithSlash(path)
    ensures UrlRoot(Some(host), Some(path)) == host + path
    ensures UrlRoot(None, Some(path)) == path
  {
    var parts := [host] + [path];
    assert |parts| == 2 && parts[..1] == [host] && parts[1] == path;
    assert Paths.Join(parts) == Paths.JoinTwo(host, path);
    assert host[..|host|] == host;
  }
}
