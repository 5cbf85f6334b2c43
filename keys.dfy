/** Group keys. pandas' groupby sorts the distinct keys of a text column
    in Python's string order (code point by code point, a proper prefix
    first); this module defines that order and the sorted list of distinct
    keys. */
module Keys {

  /** Python's `a < b` on strings. */
  predicate Less(a: string, b: string)
    decreases |a|
  {
    if |a| == 0 then |b| > 0
    else if |b| == 0 then false
    else if a[0] != b[0] then a[0] < b[0]
    else Less(a[1..], b[1..])
  }

  lemma {:induction false} LessIrreflexive(a: string)
    ensures !Less(a, a)
    decreases |a|
  {
    if |a| > 0 {
      LessIrreflexive(a[1..]);
    }
  }

  lemma {:induction false} LessTransitive(a: string, b: string, c: string)
    requires Less(a, b) && Less(b, c)
    ensures Less(a, c)
    decreases |a|
  {
    if |a| > 0 && a[0] == b[0] && b[0] == c[0] {
      LessTransitive(a[1..], b[1..], c[1..]);
    }
  }

  /** Any two different strings are ordered one way and not the other. */
  lemma {:induction false} LessTotal(a: string, b: string)
    ensures a != b ==> Less(a, b) || Less(b, a)
    ensures !(Less(a, b) && Less(b, a))
    decreases |a|
  {
    if |a| > 0 && |b| > 0 && a[0] == b[0] {
      LessTotal(a[1..], b[1..]);
      assert a == [a[0]] + a[1..] && b == [b[0]] + b[1..];
    }
  }

  predicate StrictlySorted(s: seq<string>) {
    forall i, j :: 0 <= i < j < |s| ==> Less(s[i], s[j])
  }

  /** A strictly sorted list holds no key twice. */
  lemma StrictlySortedDistinct(s: seq<string>, i: int, j: int)
    requires StrictlySorted(s) && 0 <= i < |s| && 0 <= j < |s| && i != j
    ensures s[i] != s[j]
  {
    if i < j { LessIrreflexive(s[i]); } else { LessIrreflexive(s[j]); }
  }

  /** Adds `x` to a sorted key list, keeping it sorted and duplicate-free. */
  function Insert(x: string, s: seq<string>): (r: seq<string>)
    requires StrictlySorted(s)
    ensures StrictlySorted(r)
    ensures forall k :: k in r <==> k == x || k in s
    ensures x in s ==> r == s
    ensures x !in s ==> |r| == |s| + 1
  {
    if s == [] then [x]
    else if x == s[0] then s
    else if Less(x, s[0]) then
      assert forall j :: 0 < j < |s| ==> Less(x, s[j]) by {
        forall j | 0 < j < |s| ensures Less(x, s[j]) { LessTransitive(x, s[0], s[j]); }
      }
      assert x !in s by {
        forall j | 0 <= j < |s| ensures x != s[j] { LessTotal(x, s[j]); }
      }
      [x] + s
    else
      LessTotal(x, s[0]);
      var t := Insert(x, s[1..]);
      assert forall k :: k in t ==> Less(s[0], k);
      var r := [s[0]] + t;
      assert forall i, j :: 0 <= i < j < |r| ==> Less(r[i], r[j]) by {
        forall i, j | 0 <= i < j < |r| ensures Less(r[i], r[j]) {
          if i == 0 { assert r[j] in t; } else { assert r[i] == t[i - 1] && r[j] == t[j - 1]; }
        }
      }
      r
  }

  /** The distinct values of `xs`, sorted: the index of a groupby result. */
  function SortedDistinct(xs: seq<string>): (r: seq<string>)
    ensures StrictlySorted(r)
    ensures forall k :: k in r <==> k in xs
    ensures |r| <= |xs|
  {
    if xs == [] then [] else Insert(xs[0], SortedDistinct(xs[1..]))
  }

  /** The number of sorted distinct keys is the number of distinct values
      (what pandas' `nunique` counts). */
  lemma {:induction false} SortedDistinctCount(xs: seq<string>)
    ensures |SortedDistinct(xs)| == |set k | k in xs|
  {
    if xs != [] {
      SortedDistinctCount(xs[1..]);
      var rest := SortedDistinct(xs[1..]);
      assert (set k | k in xs) == (set k | k in xs[1..]) + {xs[0]} by {
        forall k ensures k in xs <==> k in xs[1..] || k == xs[0] {
          if k in xs {
            var i :| 0 <= i < |xs| && xs[i] == k;
            if i > 0 { assert xs[1..][i - 1] == k; }
          }
        }
      }
      if xs[0] in rest {
        assert xs[0] in xs[1..];
        assert (set k | k in xs) == (set k | k in xs[1..]);
      } else {
        assert xs[0] !in (set k | k in xs[1..]);
      }
    }
  }
}
