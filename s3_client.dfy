/** The object store behind the S3 driver, with the semantics of the client double in the
    driver's tests: a Ruby hash from key to object, listed in insertion order; reading,
    deleting or copying a missing key fails with NoSuchKey. */
module S3Client {
  import opened Common
  import KeyOrder
  import Paths

  datatype Object = Object(body: seq<byte>, lastModified: int)

  datatype Store = Store(order: seq<string>, objects: map<string, Object>)

  ghost predicate Valid(s: Store) {
    KeyOrder.Distinct(s.order) && forall k :: k in s.order <==> k in s.objects
  }

  function Empty(): (s: Store)
    ensures Valid(s) && s.objects == map[]
  {
    Store([], map[])
  }

  /** put_object: the whole body is stored under the key, replacing what was there. */
  function Put(s: Store, key: string, body: seq<byte>, now: int): (r: Store)
    requires Valid(s)
    ensures Valid(r)
    ensures key in r.objects && r.objects[key] == Object(body, now)
    ensures forall k :: k != key ==> (k in r.objects <==> k in s.objects) && (k in r.objects ==> r.objects[k] == s.objects[k])
    ensures r.order == KeyOrder.Assigned(s.order, key)
  {
    Store(KeyOrder.Assigned(s.order, key), s.objects[key := Object(body, now)])
  }

  /** get_object: the stored body, or NoSuchKey. */
  function Get(s: Store, key: string): Result<seq<byte>> {
    if key in s.objects then Ok(s.objects[key].body) else Err(NoSuchKey)
  }

  /** delete_object: NoSuchKey when the key is missing, else the key is gone. */
  function Delete(s: Store, key: string): (r: (Outcome, Store))
    requires Valid(s)
    ensures Valid(r.1)
    ensures r.0.Fail? <==> key !in s.objects
    ensures r.0.Fail? ==> r.0.error == NoSuchKey && r.1 == s
    ensures r.1.objects == s.objects - {key}
    ensures r.1.order == KeyOrder.Without(s.order, key)
  {
    if key !in s.objects then (Fail(NoSuchKey), s)
    else (Pass, Store(KeyOrder.Without(s.order, key), s.objects - {key}))
  }

  /** `pattern` occurs in `s` at offset `i`. */
  predicate OccursAt(s: string, pattern: string, i: int) {
    0 <= i && i + |pattern| <= |s| && s[i..i + |pattern|] == pattern
  }

  /** `i` is the first offset at which `pattern` occurs in `s`. */
  predicate FirstAt(s: string, pattern: string, i: int) {
    OccursAt(s, pattern, i) && forall j :: 0 <= j < i ==> !OccursAt(s, pattern, j)
  }

  /** `s.sub(pattern, '')`: the first occurrence of `pattern` cut out; `s` itself when there is none. */
  function SubFirst(s: string, pattern: string): (r: string)
    ensures |r| <= |s|
    ensures (forall i :: !OccursAt(s, pattern, i)) ==> r == s
    ensures forall i :: FirstAt(s, pattern, i) ==> r == s[..i] + s[i + |pattern|..]
    decreases |s|
  {
    if |s| < |pattern| then s
    else if s[..|pattern|] == pattern then
      assert OccursAt(s, pattern, 0);
      s[|pattern|..]
    else
      var rest := SubFirst(s[1..], pattern);
      SubFirstStep(s, pattern, rest);
      [s[0]] + rest
  }

  /** The step of `SubFirst` past a head that does not start an occurrence. */
  lemma SubFirstStep(s: string, pattern: string, rest: string)
    requires |s| >= |pattern| && s[..|pattern|] != pattern
    requires (forall i :: !OccursAt(s[1..], pattern, i)) ==> rest == s[1..]
    requires forall i :: FirstAt(s[1..], pattern, i) ==> rest == s[1..][..i] + s[1..][i + |pattern|..]
    ensures (forall i :: !OccursAt(s, pattern, i)) ==> [s[0]] + rest == s
    ensures forall i :: FirstAt(s, pattern, i) ==> [s[0]] + rest == s[..i] + s[i + |pattern|..]
  {
    assert |s| > 0;
    assert !OccursAt(s, pattern, 0);
    forall i | 0 <= i ensures OccursAt(s[1..], pattern, i) <==> OccursAt(s, pattern, i + 1) {
      if i + 1 + |pattern| <= |s| {
        assert s[1..][i..i + |pattern|] == s[i + 1..i + 1 + |pattern|];
      }
    }
    if forall i :: !OccursAt(s, pattern, i) {
      assert forall i :: !OccursAt(s[1..], pattern, i) by {
        forall i ensures !OccursAt(s[1..], pattern, i) {
          if 0 <= i { assert !OccursAt(s, pattern, i + 1); }
        }
      }
      assert [s[0]] + s[1..] == s;
    }
    forall i | FirstAt(s, pattern, i) ensures [s[0]] + rest == s[..i] + s[i + |pattern|..] {
      assert i > 0;
      assert FirstAt(s[1..], pattern, i - 1) by {
        forall j | 0 <= j < i - 1 ensures !OccursAt(s[1..], pattern, j) {
          assert !OccursAt(s, pattern, j + 1);
        }
      }
      assert s[..i] == [s[0]] + s[1..][..i - 1];
      assert s[i + |pattern|..] == s[1..][i - 1 + |pattern|..];
    }
  }

  /** The double recovers the source key from a copy_source that starts with "/bucket/". */
  lemma SubFirstOfPrefixed(pattern: string, rest: string)
    ensures SubFirst(pattern + rest, pattern) == rest
  {
    assert (pattern + rest)[..|pattern|] == pattern;
  }

  /** copy_object: the source is `copySource` with "/bucket/" cut out; NoSuchKey when it is
      missing, else the destination key gets the source's body. */
  function Copy(s: Store, bucket: string, copySource: string, key: string, now: int): (r: (Outcome, Store))
    requires Valid(s)
    ensures Valid(r.1)
    ensures var src := SubFirst(copySource, "/" + bucket + "/");
      && (r.0.Fail? <==> src !in s.objects)
      && (r.0.Fail? ==> r.0.error == NoSuchKey && r.1 == s)
      && (r.0.Pass? ==> r.1 == Put(s, key, s.objects[src].body, now))
  {
    var src := SubFirst(copySource, "/" + bucket + "/");
    if src !in s.objects then (Fail(NoSuchKey), s)
    else (Pass, Put(s, key, s.objects[src].body, now))
  }

  /** list_objects_v2 with `prefix` and `max_keys: 1`: S3 lists keys in sorted order, so the one
      key listed is the least key with that prefix. */
  function LeastWithPrefix(keys: seq<string>, prefix: string): (r: Option<string>)
    ensures r.None? <==> forall k :: k in keys ==> !Paths.StartsWith(k, prefix)
    ensures r.Some? ==> r.value in keys && Paths.StartsWith(r.value, prefix)
    ensures r.Some? ==> forall k :: k in keys && Paths.StartsWith(k, prefix) ==> Paths.Below(r.value, k)
  {
    if keys == [] then None
    else
      var rest := LeastWithPrefix(keys[1..], prefix);
      assert forall k :: k in keys <==> k == keys[0] || k in keys[1..];
      if !Paths.StartsWith(keys[0], prefix) then rest
      else if rest.None? then
        Paths.BelowTotal(keys[0], keys[0]);
        Some(keys[0])
      else if Paths.Below(keys[0], rest.value) then
        assert forall k :: k in keys[1..] && Paths.StartsWith(k, prefix) ==> Paths.Below(keys[0], k) by {
          forall k | k in keys[1..] && Paths.StartsWith(k, prefix) ensures Paths.Below(keys[0], k) {
            Paths.BelowTransitive(keys[0], rest.value, k);
          }
        }
        Paths.BelowTotal(keys[0], keys[0]);
        Some(keys[0])
      else
        Paths.BelowTotal(keys[0], rest.value);
        rest
  }

  /** When the looked-up key itself is stored, it is the least key that starts with it. */
  lemma LeastWithPrefixOfStoredKey(keys: seq<string>, key: string)
    requires key in keys
    ensures LeastWithPrefix(keys, key) == Some(key)
  {
    var r := LeastWithPrefix(keys, key);
    assert Paths.StartsWith(key, key);
    Paths.BelowPrefix(key, r.value);
    Paths.BelowAntisymmetric(key, r.value);
  }
}
