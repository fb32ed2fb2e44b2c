/** Values shared by every bucket driver: bytes, results, the errors a bucket raises, file info. */
module Common {

  newtype byte = x: int | 0 <= x < 256

  datatype Option<T> = None | Some(value: T)

  /** The exceptions a bucket operation can raise, as values. */
  datatype Error =
    | FileNotFound(path: string)           // BFS::FileNotFound, naming the normalised path
    | NotOpened                            // IOError: the StringIO is closed
    | BlockRaised                          // the caller's block raised; propagated unchanged
    | NoMethod(name: string)               // NoMethodError, e.g. nil.to_sym
    | SameFile(src: string, dst: string)   // ArgumentError from FileUtils.cp / FileUtils.mv
    | NoSuchKey                            // Aws::S3::Errors::NoSuchKey from the object store

  datatype Result<T> = Ok(value: T) | Err(error: Error)

  datatype Outcome = Pass | Fail(error: Error)

  type Metadata = map<string, string>

  /** BFS::FileInfo: a read-only snapshot of one blob's metadata. */
  datatype FileInfo = FileInfo(path: string, size: nat, mtime: int, contentType: Option<string>, metadata: Metadata)
}

/** The insertion order of a Ruby Hash, kept as a sequence of distinct keys beside the map. */
module KeyOrder {

  predicate Distinct(s: seq<string>) {
    forall i, j :: 0 <= i < j < |s| ==> s[i] != s[j]
  }

  lemma DistinctTail(s: seq<string>)
    requires s != []
    ensures Distinct(s) ==> Distinct(s[1..]) && s[0] !in s[1..]
  {
    if Distinct(s) {
      forall i | 0 <= i < |s[1..]| ensures s[1..][i] != s[0] {
        assert s[1..][i] == s[i + 1];
      }
    }
  }

  lemma DistinctCons(x: string, r: seq<string>)
    ensures x !in r && Distinct(r) ==> Distinct([x] + r)
  {
    if x !in r && Distinct(r) {
      forall i, j | 0 <= i < j < |[x] + r| ensures ([x] + r)[i] != ([x] + r)[j] {
        assert ([x] + r)[j] == r[j - 1];
      }
    }
  }

  /** The key order after `h.delete(k)`: `k` leaves, the rest keep their order. */
  function Without(s: seq<string>, k: string): (r: seq<string>)
    ensures forall x :: x in r <==> x in s && x != k
    ensures Distinct(s) ==> Distinct(r)
    ensures |r| <= |s|
    ensures k !in s ==> r == s
    ensures Distinct(s) ==> forall i :: 0 <= i < |s| && s[i] == k ==> r == s[..i] + s[i + 1..]
  {
    if s == [] then []
    else
      DistinctTail(s);
      var rest := Without(s[1..], k);
      if s[0] == k then
        DropFirst(s, k, rest);
        rest
      else
        DistinctCons(s[0], rest);
        KeepFirst(s, k, rest);
        [s[0]] + rest
  }

  /** The step of `Without` where the head is the key: what remains is the tail. */
  lemma DropFirst(s: seq<string>, k: string, rest: seq<string>)
    requires s != [] && s[0] == k
    requires k !in s[1..] ==> rest == s[1..]
    ensures Distinct(s) ==> forall i :: 0 <= i < |s| && s[i] == k ==> rest == s[..i] + s[i + 1..]
  {
    if Distinct(s) {
      DistinctTail(s);
      forall i | 0 <= i < |s| && s[i] == k ensures rest == s[..i] + s[i + 1..] {
        assert i == 0;
      }
    }
  }

  /** The step of `Without` where the head stays: the key's position shifts by one. */
  lemma KeepFirst(s: seq<string>, k: string, rest: seq<string>)
    requires s != [] && s[0] != k
    requires Distinct(s[1..]) ==> forall i :: 0 <= i < |s[1..]| && s[1..][i] == k ==> rest == s[1..][..i] + s[1..][i + 1..]
    requires k !in s[1..] ==> rest == s[1..]
    ensures k !in s ==> [s[0]] + rest == s
    ensures Distinct(s) ==> forall i :: 0 <= i < |s| && s[i] == k ==> [s[0]] + rest == s[..i] + s[i + 1..]
  {
    if k !in s {
      assert k !in s[1..];
      assert [s[0]] + s[1..] == s;
    }
    if Distinct(s) {
      DistinctTail(s);
      forall i | 0 <= i < |s| && s[i] == k ensures [s[0]] + rest == s[..i] + s[i + 1..] {
        assert s[1..][i - 1] == k;
        assert rest == s[1..][..i - 1] + s[1..][i..];
        assert s[..i] == [s[0]] + s[1..][..i - 1];
        assert s[i + 1..] == s[1..][i..];
      }
    }
  }

  /** The key order after `h[k] = v`: a new key goes last, an existing key keeps its place. */
  function Assigned(s: seq<string>, k: string): (r: seq<string>)
    ensures forall x :: x in r <==> x in s || x == k
    ensures Distinct(s) ==> Distinct(r)
    ensures k in s ==> r == s
    ensures k !in s ==> r == s + [k]
  {
    if k in s then s else s + [k]
  }
}

/** Filtering listed keys by `File.fnmatch?(pattern, key, File::FNM_PATHNAME)`.
    The matcher is a library routine; it is a parameter here, never interpreted. */
module Glob {
  import KeyOrder

  /** The keys of `keys` that match `pattern`, in listing order. */
  function Select(keys: seq<string>, pattern: string, fnmatch: (string, string) -> bool): (r: seq<string>)
    ensures |r| <= |keys|
    ensures forall k :: k in r ==> k in keys && fnmatch(pattern, k)
  {
    if keys == [] then []
    else
      var rest := Select(keys[1..], pattern, fnmatch);
      if fnmatch(pattern, keys[0]) then [keys[0]] + rest else rest
  }

  /** Listing order is kept: selecting from a concatenation concatenates the selections. */
  lemma {:induction false} SelectConcat(a: seq<string>, b: seq<string>, pattern: string, fnmatch: (string, string) -> bool)
    ensures Select(a + b, pattern, fnmatch) == Select(a, pattern, fnmatch) + Select(b, pattern, fnmatch)
  {
    if a != [] {
      var ab := a + b;
      assert ab != [] && ab[0] == a[0] && ab[1..] == a[1..] + b;
      SelectConcat(a[1..], b, pattern, fnmatch);
      var sa, sb := Select(a[1..], pattern, fnmatch), Select(b, pattern, fnmatch);
      if fnmatch(pattern, a[0]) {
        calc {
          Select(ab, pattern, fnmatch);
          [a[0]] + Select(a[1..] + b, pattern, fnmatch);
          [a[0]] + (sa + sb);
          ([a[0]] + sa) + sb;
          Select(a, pattern, fnmatch) + sb;
        }
      } else {
        assert Select(ab, pattern, fnmatch) == sa + sb;
        assert Select(a, pattern, fnmatch) == sa;
      }
    } else {
      assert a + b == b;
    }
  }

  /** Every listed key that matches is selected, and only those. */
  lemma {:induction false} SelectMembers(keys: seq<string>, pattern: string, fnmatch: (string, string) -> bool)
    ensures forall k :: k in Select(keys, pattern, fnmatch) <==> k in keys && fnmatch(pattern, k)
  {
    if keys != [] {
      SelectMembers(keys[1..], pattern, fnmatch);
      assert forall k :: k in keys <==> k == keys[0] || k in keys[1..];
    }
  }

  /** Each key is yielded once when the listing holds each key once. */
  lemma {:induction false} SelectDistinct(keys: seq<string>, pattern: string, fnmatch: (string, string) -> bool)
    requires KeyOrder.Distinct(keys)
    ensures KeyOrder.Distinct(Select(keys, pattern, fnmatch))
  {
    if keys != [] {
      KeyOrder.DistinctTail(keys);
      SelectDistinct(keys[1..], pattern, fnmatch);
      KeyOrder.DistinctCons(keys[0], Select(keys[1..], pattern, fnmatch));
    }
  }
}
