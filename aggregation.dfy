/** The pandas operations the engine is built from, on a sequence of
    records: groupby on a text column (missing keys dropped, groups in
    sorted key order), counting, sums and means that skip missing values,
    percentages, first-occurrence idxmax/idxmin, and descending sort. */
module Aggregation {
  import opened Wrappers
  import opened Records
  import opened Keys

  /** Some record has key `k` in column `c`. */
  predicate HasKey(rows: seq<Record>, c: TextColumn, k: string) {
    exists i :: 0 <= i < |rows| && Text(rows[i], c) == Some(k)
  }

  /** The non-missing keys of column `c`, in row order. */
  function KeyValues(rows: seq<Record>, c: TextColumn): (ks: seq<string>)
    ensures forall k :: k in ks <==> HasKey(rows, c, k)
  {
    if rows == [] then []
    else
      var rest := KeyValues(rows[1..], c);
      assert forall k :: HasKey(rows, c, k) <==> Text(rows[0], c) == Some(k) || HasKey(rows[1..], c, k) by {
        forall k ensures HasKey(rows, c, k) <==> Text(rows[0], c) == Some(k) || HasKey(rows[1..], c, k) {
          if HasKey(rows, c, k) {
            var i :| 0 <= i < |rows| && Text(rows[i], c) == Some(k);
            if i > 0 { assert Text(rows[1..][i - 1], c) == Some(k); }
          }
          if HasKey(rows[1..], c, k) {
            var i :| 0 <= i < |rows[1..]| && Text(rows[1..][i], c) == Some(k);
            assert Text(rows[i + 1], c) == Some(k);
          }
        }
      }
      match Text(rows[0], c)
      case Some(k) => [k] + rest
      case None => rest
  }

  /** The index of `df.groupby(c)`: each non-missing key once, sorted. */
  function GroupKeys(rows: seq<Record>, c: TextColumn): (ks: seq<string>)
    ensures StrictlySorted(ks)
    ensures forall k :: k in ks <==> HasKey(rows, c, k)
  {
    SortedDistinct(KeyValues(rows, c))
  }

  /** `df[c].nunique()`: the number of groupby keys. */
  function NUnique(rows: seq<Record>, c: TextColumn): nat {
    |GroupKeys(rows, c)|
  }

  /** `nunique` counts the distinct non-missing values. */
  lemma NUniqueIsDistinctCount(rows: seq<Record>, c: TextColumn)
    ensures NUnique(rows, c) == |set i | 0 <= i < |rows| && Text(rows[i], c).Some? :: Text(rows[i], c).value|
  {
    var ks := KeyValues(rows, c);
    SortedDistinctCount(ks);
    assert (set k | k in ks) == (set i | 0 <= i < |rows| && Text(rows[i], c).Some? :: Text(rows[i], c).value) by {
      forall k ensures k in ks <==> k in (set i | 0 <= i < |rows| && Text(rows[i], c).Some? :: Text(rows[i], c).value) {
        if k in ks {
          assert HasKey(rows, c, k);
          var i :| 0 <= i < |rows| && Text(rows[i], c) == Some(k);
        }
      }
    }
  }

  /** The rows of group `k`, in their original order. */
  function Group(rows: seq<Record>, c: TextColumn, k: string): (g: seq<Record>)
    ensures |g| <= |rows|
    ensures forall r :: r in g <==> r in rows && Text(r, c) == Some(k)
    ensures HasKey(rows, c, k) ==> |g| > 0
  {
    if rows == [] then []
    else if Text(rows[0], c) == Some(k) then [rows[0]] + Group(rows[1..], c, k)
    else
      assert HasKey(rows, c, k) ==> HasKey(rows[1..], c, k) by {
        if HasKey(rows, c, k) {
          var i :| 0 <= i < |rows| && Text(rows[i], c) == Some(k);
          assert i > 0 && Text(rows[1..][i - 1], c) == Some(k);
        }
      }
      Group(rows[1..], c, k)
  }

  /** The rows whose key in column `c` is not missing (the rows groupby keeps). */
  function Keyed(rows: seq<Record>, c: TextColumn): (g: seq<Record>)
    ensures |g| <= |rows|
    ensures forall r :: r in g <==> r in rows && Text(r, c).Some?
  {
    if rows == [] then []
    else if Text(rows[0], c).Some? then [rows[0]] + Keyed(rows[1..], c)
    else Keyed(rows[1..], c)
  }

  /** `(x == st).sum()`: the rows whose status is `st`. */
  function CountStatus(rows: seq<Record>, st: Status): (n: nat)
    ensures n <= |rows|
    ensures n == 0 <==> forall i :: 0 <= i < |rows| ==> rows[i].status != Some(st)
  {
    if rows == [] then 0
    else (if rows[0].status == Some(st) then 1 else 0) + CountStatus(rows[1..], st)
  }

  /** `x.count()` on the status column: the rows whose status is not missing. */
  function CountPresentStatus(rows: seq<Record>): (n: nat)
    ensures n <= |rows|
    ensures n == |rows| <==> forall i :: 0 <= i < |rows| ==> rows[i].status.Some?
  {
    if rows == [] then 0
    else (if rows[0].status.Some? then 1 else 0) + CountPresentStatus(rows[1..])
  }

  /** `x.count()` on the status column minus the four known statuses: the
      rows with some other status text. */
  function CountOtherStatus(rows: seq<Record>): (n: nat)
    ensures n <= |rows|
  {
    if rows == [] then 0
    else (if rows[0].status.Some? && rows[0].status.value.Other? then 1 else 0) + CountOtherStatus(rows[1..])
  }

  /** Every present status is one of the four known ones or another text,
      so the four known counts and the other count make up the present
      count. */
  lemma {:induction false} StatusCountsPartition(rows: seq<Record>)
    ensures CountStatus(rows, Status.Delivered) + CountStatus(rows, Status.Delayed)
            + CountStatus(rows, InTransit) + CountStatus(rows, Pending) + CountOtherStatus(rows)
            == CountPresentStatus(rows)
  {
    if rows != [] {
      StatusCountsPartition(rows[1..]);
    }
  }

  /** `df[df['Delivery Status'] == name]` compares texts; since different
      statuses have different texts, it selects exactly the rows with that
      status. */
  lemma {:induction false} StatusGroupIsStatusCount(rows: seq<Record>, st: Status)
    ensures |Group(rows, DeliveryStatusCol, StatusName(st))| == CountStatus(rows, st)
  {
    if rows != [] {
      StatusGroupIsStatusCount(rows[1..], st);
      if rows[0].status.Some? {
        StatusNameInjective(rows[0].status.value, st);
      }
    }
  }

  // ----- numeric columns: skip-missing sum, count and mean -----

  /** The numeric columns of a record; None where the cell is NaN. */
  function Cost(r: Record): Option<real> { r.totalCost }
  function Quantity(r: Record): Option<real> { r.quantity }
  function UnitPrice(r: Record): Option<real> { r.unitPrice }

  /** `Series.sum()`: missing values are skipped; 0 when there are none. */
  function SumOf(rows: seq<Record>, f: Record -> Option<real>): real {
    if rows == [] then 0.0 else f(rows[0]).GetOr(0.0) + SumOf(rows[1..], f)
  }

  /** `Series.count()`: the rows where the value is present. */
  function CountOf(rows: seq<Record>, f: Record -> Option<real>): (n: nat)
    ensures n <= |rows|
    ensures n == 0 ==> SumOf(rows, f) == 0.0
  {
    if rows == [] then 0
    else (if f(rows[0]).Some? then 1 else 0) + CountOf(rows[1..], f)
  }

  /** `Series.mean()`: NaN (None) when no value is present. */
  function MeanOf(rows: seq<Record>, f: Record -> Option<real>): (m: Option<real>)
    ensures m.None? <==> CountOf(rows, f) == 0
    ensures m.Some? ==> m.value * (CountOf(rows, f) as real) == SumOf(rows, f)
  {
    if CountOf(rows, f) == 0 then None
    else Some(SumOf(rows, f) / (CountOf(rows, f) as real))
  }

  /** Every present value lies between `lo` and `hi`. */
  predicate ValuesBetween(rows: seq<Record>, f: Record -> Option<real>, lo: real, hi: real) {
    forall i :: 0 <= i < |rows| && f(rows[i]).Some? ==> lo <= f(rows[i]).value <= hi
  }

  /** Every present value is at least 0. */
  predicate NonNegative(rows: seq<Record>, f: Record -> Option<real>) {
    forall i :: 0 <= i < |rows| && f(rows[i]).Some? ==> 0.0 <= f(rows[i]).value
  }

  lemma {:induction false} SumNonNegative(rows: seq<Record>, f: Record -> Option<real>)
    requires NonNegative(rows, f)
    ensures 0.0 <= SumOf(rows, f)
  {
    if rows != [] {
      assert forall i :: 0 <= i < |rows[1..]| ==> rows[1..][i] == rows[i + 1];
      SumNonNegative(rows[1..], f);
    }
  }

  /** `x` added up `n` times. */
  function Times(x: real, n: nat): real {
    if n == 0 then 0.0 else x + Times(x, n - 1)
  }

  lemma {:induction false} TimesIsProduct(x: real, n: nat)
    ensures Times(x, n) == x * (n as real)
  {
    if n > 0 {
      TimesIsProduct(x, n - 1);
      assert x * (n as real) == x * ((n - 1) as real) + x;
    }
  }

  /** A sum of present values between `lo` and `hi` lies between `lo` and
      `hi` added up once per present value. */
  lemma {:induction false} SumBetween(rows: seq<Record>, f: Record -> Option<real>, lo: real, hi: real)
    requires ValuesBetween(rows, f, lo, hi)
    ensures Times(lo, CountOf(rows, f)) <= SumOf(rows, f) <= Times(hi, CountOf(rows, f))
  {
    if rows != [] {
      ValuesBetweenTail(rows, f, lo, hi);
      SumBetween(rows[1..], f, lo, hi);
    }
  }

  lemma ValuesBetweenTail(rows: seq<Record>, f: Record -> Option<real>, lo: real, hi: real)
    requires rows != [] && ValuesBetween(rows, f, lo, hi)
    ensures ValuesBetween(rows[1..], f, lo, hi)
    ensures f(rows[0]).Some? ==> lo <= f(rows[0]).value <= hi
  {
    var tail := rows[1..];
    forall i | 0 <= i < |tail| && f(tail[i]).Some? ensures lo <= f(tail[i]).value <= hi {
      assert tail[i] == rows[i + 1];
    }
  }

  /** A quotient of a sum of `n` values between `lo` and `hi` by `n`. */
  lemma QuotientBetween(sum: real, n: real, lo: real, hi: real)
    requires n > 0.0 && lo * n <= sum <= hi * n
    ensures lo <= sum / n <= hi
  {
  }

  /** With non-negative values the mean is non-negative. */
  lemma MeanNonNegative(rows: seq<Record>, f: Record -> Option<real>)
    requires NonNegative(rows, f)
    ensures MeanOf(rows, f).Some? ==> 0.0 <= MeanOf(rows, f).value
  {
    if CountOf(rows, f) > 0 {
      SumNonNegative(rows, f);
      QuotientBetween(SumOf(rows, f), CountOf(rows, f) as real, 0.0, SumOf(rows, f));
    }
  }

  /** A group of non-negative values is non-negative. */
  lemma GroupNonNegative(rows: seq<Record>, c: TextColumn, k: string, f: Record -> Option<real>)
    requires NonNegative(rows, f)
    ensures NonNegative(Group(rows, c, k), f)
  {
    var g := Group(rows, c, k);
    forall i | 0 <= i < |g| && f(g[i]).Some? ensures 0.0 <= f(g[i]).value {
      assert g[i] in rows;
    }
  }

  /** With non-negative values a group's sum lies between 0 and the sum of
      all the rows. */
  lemma {:induction false} GroupSumAtMost(rows: seq<Record>, c: TextColumn, k: string, f: Record -> Option<real>)
    requires NonNegative(rows, f)
    ensures 0.0 <= SumOf(Group(rows, c, k), f) <= SumOf(rows, f)
  {
    if rows != [] {
      assert NonNegative(rows[1..], f) by {
        forall i | 0 <= i < |rows[1..]| && f(rows[1..][i]).Some? ensures 0.0 <= f(rows[1..][i]).value {
          assert rows[1..][i] == rows[i + 1];
        }
      }
      GroupSumAtMost(rows[1..], c, k, f);
      var g := Group(rows[1..], c, k);
      if Text(rows[0], c) == Some(k) {
        assert ([rows[0]] + g)[0] == rows[0] && ([rows[0]] + g)[1..] == g;
      }
    }
  }

  /** The mean of values between `lo` and `hi` is between them too. */
  lemma MeanBetween(rows: seq<Record>, f: Record -> Option<real>, lo: real, hi: real)
    requires ValuesBetween(rows, f, lo, hi) && CountOf(rows, f) > 0
    ensures lo <= MeanOf(rows, f).value <= hi
  {
    SumBetween(rows, f, lo, hi);
    TimesIsProduct(lo, CountOf(rows, f));
    TimesIsProduct(hi, CountOf(rows, f));
    QuotientBetween(SumOf(rows, f), CountOf(rows, f) as real, lo, hi);
  }

  /** `n / d * 100` for a count out of a non-empty total. */
  function Percent(n: nat, d: nat): (p: real)
    requires d > 0
    ensures p * (d as real) == (n as real) * 100.0
    ensures 0.0 <= p
    ensures n <= d ==> p <= 100.0
    ensures p == 100.0 <==> n == d
    ensures p == 0.0 <==> n == 0
  {
    var q := (n as real) / (d as real);
    assert q * (d as real) == n as real;
    assert n == d ==> q == 1.0;
    q * 100.0
  }

  /** Percentages of one total add like their counts. */
  lemma PercentAdd(a: nat, b: nat, d: nat)
    requires d > 0
    ensures Percent(a + b, d) == Percent(a, d) + Percent(b, d)
  {
    var x := d as real;
    var pa, pb := Percent(a, d), Percent(b, d);
    assert (pa + pb) * x == pa * x + pb * x;
    Cancel(Percent(a + b, d), pa + pb, x);
  }

  lemma Cancel(p: real, q: real, x: real)
    requires x > 0.0 && p * x == q * x
    ensures p == q
  {
  }

  /** `n / d * 100` in float arithmetic: NaN (None) when `d` is 0. */
  function Ratio(n: nat, d: nat): (p: Option<real>)
    ensures p.None? <==> d == 0
    ensures p.Some? ==> p.value == Percent(n, d)
  {
    if d == 0 then None else Some(Percent(n, d))
  }

  /** `(x == st).mean() * 100` over a non-empty group. */
  function StatusShare(rows: seq<Record>, st: Status): (p: real)
    requires |rows| > 0
    ensures 0.0 <= p <= 100.0
  {
    Percent(CountStatus(rows, st), |rows|)
  }

  // ----- groupby + sum partitions the keyed rows -----

  predicate Distinct(ks: seq<string>) {
    forall i, j :: 0 <= i < j < |ks| ==> ks[i] != ks[j]
  }

  /** The sum of a measure over each group of `ks`, added up. */
  function SumGroups(rows: seq<Record>, c: TextColumn, ks: seq<string>, f: Record -> Option<real>): real {
    if ks == [] then 0.0 else SumOf(Group(rows, c, ks[0]), f) + SumGroups(rows, c, ks[1..], f)
  }

  lemma {:induction false} SumGroupsEmpty(c: TextColumn, ks: seq<string>, f: Record -> Option<real>)
    ensures SumGroups([], c, ks, f) == 0.0
  {
    if ks != [] { SumGroupsEmpty(c, ks[1..], f); }
  }

  /** Adding one row in front adds its measure to exactly the group of its key. */
  lemma {:induction false} SumGroupsCons(rows: seq<Record>, c: TextColumn, ks: seq<string>, f: Record -> Option<real>)
    requires rows != [] && Distinct(ks)
    ensures SumGroups(rows, c, ks, f)
         == SumGroups(rows[1..], c, ks, f)
            + (if Text(rows[0], c).Some? && Text(rows[0], c).value in ks then f(rows[0]).GetOr(0.0) else 0.0)
  {
    if ks != [] {
      assert Distinct(ks[1..]) by {
        forall i, j | 0 <= i < j < |ks[1..]| ensures ks[1..][i] != ks[1..][j] {
          assert ks[1..][i] == ks[i + 1] && ks[1..][j] == ks[j + 1];
        }
      }
      SumGroupsCons(rows, c, ks[1..], f);
      if Text(rows[0], c) == Some(ks[0]) {
        assert ks[0] !in ks[1..] by {
          forall j | 0 <= j < |ks[1..]| ensures ks[1..][j] != ks[0] { assert ks[1..][j] == ks[j + 1]; }
        }
      }
      assert ks == [ks[0]] + ks[1..];
    }
  }

  lemma {:induction false} SumGroupsCovers(rows: seq<Record>, c: TextColumn, ks: seq<string>, f: Record -> Option<real>)
    requires Distinct(ks)
    requires forall i :: 0 <= i < |rows| && Text(rows[i], c).Some? ==> Text(rows[i], c).value in ks
    ensures SumGroups(rows, c, ks, f) == SumOf(Keyed(rows, c), f)
  {
    if rows == [] {
      SumGroupsEmpty(c, ks, f);
    } else {
      SumGroupsCons(rows, c, ks, f);
      assert forall i :: 0 <= i < |rows[1..]| ==> rows[1..][i] == rows[i + 1];
      SumGroupsCovers(rows[1..], c, ks, f);
    }
  }

  /** The per-key sums of a groupby add up to the sum over the rows whose key
      is not missing. */
  lemma GroupSumsPartition(rows: seq<Record>, c: TextColumn, f: Record -> Option<real>)
    ensures SumGroups(rows, c, GroupKeys(rows, c), f) == SumOf(Keyed(rows, c), f)
  {
    var ks := GroupKeys(rows, c);
    forall i, j | 0 <= i < j < |ks| ensures ks[i] != ks[j] { StrictlySortedDistinct(ks, i, j); }
    forall i | 0 <= i < |rows| && Text(rows[i], c).Some? ensures Text(rows[i], c).value in ks {
      assert HasKey(rows, c, Text(rows[i], c).value);
    }
    SumGroupsCovers(rows, c, ks, f);
  }

  // ----- first-occurrence idxmax / idxmin -----

  /** `Series.idxmax()` by position: the first position holding the maximum. */
  function ArgMax(xs: seq<real>): (i: nat)
    requires |xs| > 0
    ensures i < |xs|
    ensures forall j :: 0 <= j < |xs| ==> xs[j] <= xs[i]
    ensures forall j :: 0 <= j < i ==> xs[j] < xs[i]
  {
    if |xs| == 1 then 0
    else
      var k := ArgMax(xs[1..]);
      if xs[0] >= xs[1..][k] then 0 else k + 1
  }

  /** `Series.idxmin()` by position: the first position holding the minimum. */
  function ArgMin(xs: seq<real>): (i: nat)
    requires |xs| > 0
    ensures i < |xs|
    ensures forall j :: 0 <= j < |xs| ==> xs[i] <= xs[j]
    ensures forall j :: 0 <= j < i ==> xs[i] < xs[j]
  {
    if |xs| == 1 then 0
    else
      var k := ArgMin(xs[1..]);
      if xs[0] <= xs[1..][k] then 0 else k + 1
  }

  /** The number of occurrences of each key, in key order. */
  function KeyCounts(rows: seq<Record>, c: TextColumn): (counts: seq<real>)
    ensures |counts| == |GroupKeys(rows, c)|
  {
    var ks := GroupKeys(rows, c);
    seq(|ks|, j requires 0 <= j < |ks| => |Group(rows, c, ks[j])| as real)
  }

  /** `x.mode().iloc[0]`: the most frequent non-missing value of column `c`,
      the smallest one when several are equally frequent (`mode` returns
      its values sorted); None when the column has no value here. */
  function Mode(rows: seq<Record>, c: TextColumn): Option<string> {
    var ks := GroupKeys(rows, c);
    if ks == [] then None else Some(ks[ArgMax(KeyCounts(rows, c))])
  }

  lemma ModeSpec(rows: seq<Record>, c: TextColumn)
    ensures var m := Mode(rows, c);
      (m.None? <==> forall i :: 0 <= i < |rows| ==> Text(rows[i], c).None?)
      && (m.Some? ==> HasKey(rows, c, m.value))
      && (m.Some? ==> forall k :: HasKey(rows, c, k) ==> |Group(rows, c, k)| <= |Group(rows, c, m.value)|)
      && (m.Some? ==> forall k :: HasKey(rows, c, k) && |Group(rows, c, k)| == |Group(rows, c, m.value)| ==> !Less(k, m.value))
  {
    var ks := GroupKeys(rows, c);
    if ks == [] {
      forall i | 0 <= i < |rows| ensures Text(rows[i], c).None? {
        if Text(rows[i], c).Some? { assert HasKey(rows, c, Text(rows[i], c).value); }
      }
    } else {
      var counts := KeyCounts(rows, c);
      var i := ArgMax(counts);
      assert HasKey(rows, c, ks[0]);
      forall k | HasKey(rows, c, k)
        ensures |Group(rows, c, k)| <= |Group(rows, c, ks[i])|
        ensures |Group(rows, c, k)| == |Group(rows, c, ks[i])| ==> !Less(k, ks[i])
      {
        var j :| 0 <= j < |ks| && ks[j] == k;
        assert counts[j] <= counts[i];
        if |Group(rows, c, k)| == |Group(rows, c, ks[i])| {
          if j > i { LessTotal(ks[i], ks[j]); }
          if j == i { LessIrreflexive(k); }
        }
      }
    }
  }

  // ----- sort_values(ascending=False), NaN last -----

  /** `a` may stand before `b` in a descending sort that puts NaN last. */
  predicate Precedes(a: Option<real>, b: Option<real>) {
    b.None? || (a.Some? && a.value >= b.value)
  }

  predicate SortedDesc<T>(s: seq<T>, key: T -> Option<real>) {
    forall i, j :: 0 <= i < j < |s| ==> Precedes(key(s[i]), key(s[j]))
  }

  function InsertDesc<T(!new)>(x: T, s: seq<T>, key: T -> Option<real>): (r: seq<T>)
    requires SortedDesc(s, key)
    ensures SortedDesc(r, key)
    ensures forall y :: y in r <==> y == x || y in s
    ensures multiset(r) == multiset(s) + multiset{x}
  {
    if s == [] then [x]
    else if Precedes(key(x), key(s[0])) then
      [x] + s
    else
      var t := InsertDesc(x, s[1..], key);
      assert Precedes(key(s[0]), key(x));
      ConsSorted(s[0], t, key);
      assert s == [s[0]] + s[1..];
      [s[0]] + t
  }

  /** A key that may precede every element of a sorted list may stand in
      front of it. */
  lemma ConsSorted<T>(x: T, t: seq<T>, key: T -> Option<real>)
    requires SortedDesc(t, key) && forall y :: y in t ==> Precedes(key(x), key(y))
    ensures SortedDesc([x] + t, key)
  {
    var r := [x] + t;
    forall i, j | 0 <= i < j < |r| ensures Precedes(key(r[i]), key(r[j])) {
      if i == 0 { assert r[j] in t; } else { assert r[i] == t[i - 1] && r[j] == t[j - 1]; }
    }
  }

  /** A descending sort with NaN last. The order among equal keys is the
      model's choice; pandas' default sort does not fix it either. */
  function SortDesc<T(!new)>(s: seq<T>, key: T -> Option<real>): (r: seq<T>)
    ensures SortedDesc(r, key)
    ensures multiset(r) == multiset(s)
    ensures |r| == |s|
    ensures forall x :: x in r <==> x in s
  {
    if s == [] then []
    else
      assert s == [s[0]] + s[1..];
      InsertDesc(s[0], SortDesc(s[1..], key), key)
  }

  /** Sorting rows named by the keys of a sorted key list, one row per
      key, keeps one row per key: no name appears twice and every key still
      names a row. */
  lemma SortDescKeyed<T(!new)>(rows: seq<T>, ks: seq<string>, name: T -> string, key: T -> Option<real>)
    requires |rows| == |ks| && StrictlySorted(ks)
    requires forall i :: 0 <= i < |rows| ==> name(rows[i]) == ks[i]
    ensures var r := SortDesc(rows, key);
      (forall i, j :: 0 <= i < j < |r| ==> name(r[i]) != name(r[j]))
      && (forall j :: 0 <= j < |ks| ==> exists i :: 0 <= i < |r| && name(r[i]) == ks[j])
  {
    var r := SortDesc(rows, key);
    SortDescNoDuplicatesKeyed(rows, ks, name, key);
    forall i, j | 0 <= i < j < |r| ensures name(r[i]) != name(r[j]) {
      assert r[i] in rows && r[j] in rows;
      var a :| 0 <= a < |rows| && rows[a] == r[i];
      var b :| 0 <= b < |rows| && rows[b] == r[j];
      StrictlySortedDistinct(ks, a, b);
    }
    forall j | 0 <= j < |ks| ensures exists i :: 0 <= i < |r| && name(r[i]) == ks[j] {
      assert rows[j] in r;
    }
  }

  lemma SortDescNoDuplicatesKeyed<T(!new)>(rows: seq<T>, ks: seq<string>, name: T -> string, key: T -> Option<real>)
    requires |rows| == |ks| && StrictlySorted(ks)
    requires forall i :: 0 <= i < |rows| ==> name(rows[i]) == ks[i]
    ensures NoDuplicates(SortDesc(rows, key))
  {
    forall i, j | 0 <= i < j < |rows| ensures rows[i] != rows[j] {
      StrictlySortedDistinct(ks, i, j);
    }
    SortDescNoDuplicates(rows, key);
  }

  predicate NoDuplicates<T(==)>(s: seq<T>) {
    forall i, j :: 0 <= i < j < |s| ==> s[i] != s[j]
  }

  lemma {:induction false} InsertDescNoDuplicates<T(!new)>(x: T, s: seq<T>, key: T -> Option<real>)
    requires SortedDesc(s, key) && NoDuplicates(s) && x !in s
    ensures NoDuplicates(InsertDesc(x, s, key))
  {
    if s != [] && !Precedes(key(x), key(s[0])) {
      TailNoDuplicates(s);
      InsertDescNoDuplicates(x, s[1..], key);
      var t := InsertDesc(x, s[1..], key);
      assert s[0] !in t;
      ConsNoDuplicates(s[0], t);
    } else {
      ConsNoDuplicates(x, s);
    }
  }

  lemma TailNoDuplicates<T>(s: seq<T>)
    requires s != [] && NoDuplicates(s)
    ensures NoDuplicates(s[1..]) && s[0] !in s[1..]
  {
    forall i, j | 0 <= i < j < |s[1..]| ensures s[1..][i] != s[1..][j] {
      assert s[1..][i] == s[i + 1] && s[1..][j] == s[j + 1];
    }
  }

  lemma ConsNoDuplicates<T>(x: T, t: seq<T>)
    requires NoDuplicates(t) && x !in t
    ensures NoDuplicates([x] + t)
  {
    var r := [x] + t;
    forall i, j | 0 <= i < j < |r| ensures r[i] != r[j] {
      if i == 0 { assert r[j] in t; } else { assert r[i] == t[i - 1] && r[j] == t[j - 1]; }
    }
  }

  /** Sorting keeps a list free of duplicates. */
  lemma {:induction false} SortDescNoDuplicates<T(!new)>(s: seq<T>, key: T -> Option<real>)
    requires NoDuplicates(s)
    ensures NoDuplicates(SortDesc(s, key))
  {
    if s != [] {
      TailNoDuplicates(s);
      SortDescNoDuplicates(s[1..], key);
      var t := SortDesc(s[1..], key);
      assert s[0] !in t;
      InsertDescNoDuplicates(s[0], t, key);
    }
  }
}
