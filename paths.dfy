/** The Ruby string and path routines the drivers lean on: String#slice, String#chomp('/')
    and File.join, as the Ruby runtime defines them for '/'-separated paths. */
module Paths {

  predicate EndsWithSlash(s: string) {
    |s| > 0 && s[|s| - 1] == '/'
  }

  predicate StartsWithSlash(s: string) {
    |s| > 0 && s[0] == '/'
  }

  predicate StartsWith(s: string, prefix: string) {
    |prefix| <= |s| && s[..|prefix|] == prefix
  }

  /** `s.slice(0, n)`: the first `n` characters, or all of `s` when it is shorter. */
  function Head(s: string, n: nat): (r: string)
    ensures |r| <= n && StartsWith(s, r)
    ensures |r| == n <==> n <= |s|
    ensures n >= |s| ==> r == s
  {
    if n <= |s| then s[..n] else s
  }

  /** `s.chomp('/')`: one trailing '/' removed, if there is one. */
  function Chomp(s: string): (r: string)
    ensures EndsWithSlash(s) ==> r + "/" == s
    ensures !EndsWithSlash(s) ==> r == s
  {
    if EndsWithSlash(s) then s[..|s| - 1] else s
  }

  /** Where the run of '/' that ends `s` starts (|s| when `s` does not end in '/'). */
  function TrailingSlashes(s: string): (i: nat)
    ensures i <= |s|
    ensures forall j :: i <= j < |s| ==> s[j] == '/'
    ensures i > 0 ==> s[i - 1] != '/'
  {
    if EndsWithSlash(s) then TrailingSlashes(s[..|s| - 1]) else |s|
  }

  /** `File.join(a, b)`: when `b` starts with '/', the separators ending `a` are dropped;
      otherwise one '/' is inserted unless `a` already ends with one. */
  function JoinTwo(a: string, b: string): (r: string)
    ensures StartsWithSlash(b) ==> r == a[..TrailingSlashes(a)] + b
    ensures !StartsWithSlash(b) && EndsWithSlash(a) ==> r == a + b
    ensures !StartsWithSlash(b) && !EndsWithSlash(a) ==> r == a + "/" + b
  {
    if StartsWithSlash(b) then a[..TrailingSlashes(a)] + b
    else if TrailingSlashes(a) == |a| then a + "/" + b
    else a + b
  }

  /** `File.join(*parts)`: the empty string for no parts, the part itself for one. */
  function Join(parts: seq<string>): string {
    if |parts| == 0 then ""
    else if |parts| == 1 then parts[0]
    else JoinTwo(Join(parts[..|parts| - 1]), parts[|parts| - 1])
  }

  /** The order S3 lists keys in: `a` sorts at or before `b` when it is a prefix of `b` or is
      smaller at the first character where they differ (code points, which order as UTF-8 bytes do). */
  predicate Below(a: string, b: string) {
    |a| == 0 || (|b| > 0 && (a[0] < b[0] || (a[0] == b[0] && Below(a[1..], b[1..]))))
  }

  /** Any two keys are ordered one way or the other. */
  lemma {:induction false} BelowTotal(a: string, b: string)
    ensures Below(a, b) || Below(b, a)
  {
    if |a| > 0 && |b| > 0 && a[0] == b[0] {
      BelowTotal(a[1..], b[1..]);
    }
  }

  /** Keys ordered both ways are the same key. */
  lemma {:induction false} BelowAntisymmetric(a: string, b: string)
    requires Below(a, b) && Below(b, a)
    ensures a == b
  {
    if |a| > 0 && |b| > 0 {
      BelowAntisymmetric(a[1..], b[1..]);
      assert a == [a[0]] + a[1..] && b == [b[0]] + b[1..];
    }
  }

  lemma {:induction false} BelowTransitive(a: string, b: string, c: string)
    requires Below(a, b) && Below(b, c)
    ensures Below(a, c)
  {
    if |a| > 0 && a[0] == b[0] && b[0] == c[0] {
      BelowTransitive(a[1..], b[1..], c[1..]);
    }
  }

  /** A key sorts at or before every key that starts with it. */
  lemma {:induction false} BelowPrefix(a: string, t: string)
    requires StartsWith(t, a)
    ensures Below(a, t)
  {
    if |a| > 0 {
      assert t[0] == t[..|a|][0] == a[0];
      assert t[1..][..|a| - 1] == t[..|a|][1..];
      BelowPrefix(a[1..], t[1..]);
    }
  }
}
