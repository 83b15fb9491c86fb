/**
 * Feature aggregation: for one user and one target date, the current value
 * and the windowed statistics of every measured signal.
 * Source: backend/rules_engine/features.py, lines 167-237.
 */
module Features {
  import opened Wrappers

  /** variable -> aggregator -> value; an absent value is `None`, never NaN. */
  type FeatureSet = map<string, map<string, Option<real>>>

  /** `features.get(variable, {}).get(agg)`. */
  function Lookup(f: FeatureSet, variable: string, agg: string): (v: Option<real>)
    ensures v.Some? ==> variable in f && agg in f[variable] && f[variable][agg] == v
    ensures variable in f && agg in f[variable] ==> v == f[variable][agg]
  {
    if variable in f && agg in f[variable] then f[variable][agg] else None
  }

  /** One measurement row: a user, a day number, and the signals recorded (NaN as `None`). */
  datatype Row = Row(userId: string, date: int, values: map<string, Option<real>>)

  /** A signal's cell in a row; a column the row lacks reads as NaN. */
  function Value(r: Row, key: string): Option<real> {
    if key in r.values then r.values[key] else None
  }

  // ---------------------------------------------------------------------------
  // Selecting and ordering the user's rows

  /** The mask `(df.user_id == user) & (df.date <= target)` for one row. */
  predicate Qualifies(x: Row, user: string, target: int) {
    x.userId == user && x.date <= target
  }

  /** The boolean-mask selection: the qualifying rows, in the history's order. */
  function Qualifying(history: seq<Row>, user: string, target: int): (r: seq<Row>)
    ensures forall x :: x in r ==> x in history && Qualifies(x, user, target)
    ensures forall x :: x in history && Qualifies(x, user, target) ==> x in r
  {
    if history == [] then []
    else
      var rest := Qualifying(history[1..], user, target);
      assert history == [history[0]] + history[1..];
      if Qualifies(history[0], user, target) then [history[0]] + rest else rest
  }

  /** Every qualifying row is kept as often as the history holds it, so duplicate rows count twice. */
  lemma {:induction false} QualifyingCounts(history: seq<Row>, user: string, target: int)
    ensures forall x :: multiset(Qualifying(history, user, target))[x]
                        == if Qualifies(x, user, target) then multiset(history)[x] else 0
  {
    if history != [] {
      QualifyingCounts(history[1..], user, target);
      assert history == [history[0]] + history[1..];
    }
  }

  /** The mask keeps the history's order: selecting from two stretches is selecting from each in turn. */
  lemma {:induction false} QualifyingAppend(a: seq<Row>, b: seq<Row>, user: string, target: int)
    ensures Qualifying(a + b, user, target) == Qualifying(a, user, target) + Qualifying(b, user, target)
  {
    if a == [] {
      assert a + b == b;
    } else {
      var ab := a + b;
      assert ab[0] == a[0] && ab[1..] == a[1..] + b;
      QualifyingAppend(a[1..], b, user, target);
    }
  }

  predicate SortedByDate(rows: seq<Row>) {
    forall i, j :: 0 <= i < j < |rows| ==> rows[i].date <= rows[j].date
  }

  /** Inserts a row after every row dated on or before it. */
  function InsertByDate(x: Row, rows: seq<Row>): (r: seq<Row>)
    ensures |r| == |rows| + 1
    ensures r[0] == x || (rows != [] && r[0] == rows[0])
  {
    if rows == [] then [x]
    else if rows[0].date <= x.date then [rows[0]] + InsertByDate(x, rows[1..])
    else [x] + rows
  }

  lemma {:induction false} InsertByDateSorted(x: Row, rows: seq<Row>)
    requires SortedByDate(rows)
    ensures SortedByDate(InsertByDate(x, rows))
  {
    if rows != [] && rows[0].date <= x.date {
      InsertByDateSorted(x, rows[1..]);
      var rest := InsertByDate(x, rows[1..]);
      assert rows[0].date <= rest[0].date;
    }
  }

  lemma {:induction false} InsertByDatePermutes(x: Row, rows: seq<Row>)
    ensures multiset(InsertByDate(x, rows)) == multiset(rows) + multiset{x}
  {
    if rows != [] && rows[0].date <= x.date {
      InsertByDatePermutes(x, rows[1..]);
      assert rows == [rows[0]] + rows[1..];
    }
  }

  /** Sorting by date (insertion sort; rows sharing a date keep their order). */
  function SortByDate(rows: seq<Row>): (r: seq<Row>)
    ensures SortedByDate(r)
    ensures multiset(r) == multiset(rows)
  {
    if rows == [] then []
    else
      var init := rows[..|rows| - 1];
      var sorted := SortByDate(init);
      InsertByDateStep(rows[|rows| - 1], init, sorted);
      assert rows == init + [rows[|rows| - 1]];
      InsertByDate(rows[|rows| - 1], sorted)
  }

  lemma InsertByDateStep(x: Row, init: seq<Row>, sorted: seq<Row>)
    requires SortedByDate(sorted) && multiset(sorted) == multiset(init)
    ensures SortedByDate(InsertByDate(x, sorted))
    ensures multiset(InsertByDate(x, sorted)) == multiset(init + [x])
  {
    InsertByDateSorted(x, sorted);
    InsertByDatePermutes(x, sorted);
  }

  /** Sorting keeps exactly the rows it is given. */
  lemma SortByDateMembers(rows: seq<Row>)
    ensures forall y :: y in SortByDate(rows) <==> y in rows
  {
    var r := SortByDate(rows);
    forall y ensures y in r <==> y in rows {
      assert y in r <==> y in multiset(r);
      assert y in rows <==> y in multiset(rows);
    }
  }

  /** `df[(df.user_id == user) & (df.date <= target)].sort_values("date")`. */
  function UserRows(history: seq<Row>, user: string, target: int): (r: seq<Row>)
    ensures SortedByDate(r)
    ensures forall x :: x in r <==> x in history && Qualifies(x, user, target)
    ensures multiset(r) == multiset(Qualifying(history, user, target))
  {
    var q := Qualifying(history, user, target);
    var r := SortByDate(q);
    SortByDateMembers(q);
    forall x ensures x in r <==> x in history && Qualifies(x, user, target) {
      assert x in r <==> x in q;
    }
    r
  }

  /** The column `key` of the user's rows, in date order. */
  function Series(rows: seq<Row>, key: string): (s: seq<Option<real>>)
    ensures |s| == |rows|
    ensures forall i :: 0 <= i < |rows| ==> s[i] == Value(rows[i], key)
  {
    if rows == [] then [] else [Value(rows[0], key)] + Series(rows[1..], key)
  }

  // ---------------------------------------------------------------------------
  // Windowed statistics

  /** `series.tail(n)`: the last n rows (all of them when there are fewer). */
  function Tail<T>(s: seq<T>, n: nat): (r: seq<T>)
    ensures |r| == if |s| <= n then |s| else n
  {
    if |s| <= n then s else s[|s| - n..]
  }

  /** The present values of a window, in order (pandas' NaN skipping). */
  function Present(s: seq<Option<real>>): (r: seq<real>)
    ensures |r| <= |s|
  {
    if s == [] then []
    else if s[0].Some? then [s[0].value] + Present(s[1..])
    else Present(s[1..])
  }

  /** The present values are exactly the values of the `Some` entries. */
  lemma {:induction false} PresentMembers(s: seq<Option<real>>)
    ensures forall x :: x in Present(s) <==> Some(x) in s
  {
    if s != [] {
      PresentMembers(s[1..]);
      assert s == [s[0]] + s[1..];
    }
  }

  /** No value is present exactly when every entry is missing. */
  lemma {:induction false} PresentEmpty(s: seq<Option<real>>)
    ensures Present(s) == [] <==> forall i :: 0 <= i < |s| ==> s[i].None?
  {
    if s != [] {
      PresentEmpty(s[1..]);
      assert forall i :: 1 <= i < |s| ==> s[i] == s[1..][i - 1];
    }
  }

  function Sum(xs: seq<real>): real {
    if xs == [] then 0.0 else xs[0] + Sum(xs[1..])
  }

  /** The mean of the present values, `None` when there are none. */
  function Mean(s: seq<Option<real>>): Option<real> {
    var p := Present(s);
    if |p| == 0 then None else Some(Sum(p) / (|p| as real))
  }

  /** `rolling_mean(series, n)`: the mean of the last n rows, missing values skipped. */
  function RollingMean(s: seq<Option<real>>, n: nat): Option<real> {
    Mean(Tail(s, n))
  }

  predicate SortedReals(xs: seq<real>) {
    forall i, j :: 0 <= i < j < |xs| ==> xs[i] <= xs[j]
  }

  function InsertReal(x: real, xs: seq<real>): (r: seq<real>)
    ensures |r| == |xs| + 1
    ensures r[0] == x || (xs != [] && r[0] == xs[0])
  {
    if xs == [] then [x]
    else if xs[0] <= x then [xs[0]] + InsertReal(x, xs[1..])
    else [x] + xs
  }

  lemma {:induction false} InsertRealSorted(x: real, xs: seq<real>)
    requires SortedReals(xs)
    ensures SortedReals(InsertReal(x, xs))
  {
    if xs != [] && xs[0] <= x {
      InsertRealSorted(x, xs[1..]);
      var rest := InsertReal(x, xs[1..]);
      assert xs[0] <= rest[0];
    }
  }

  lemma {:induction false} InsertRealPermutes(x: real, xs: seq<real>)
    ensures multiset(InsertReal(x, xs)) == multiset(xs) + multiset{x}
  {
    if xs != [] && xs[0] <= x {
      InsertRealPermutes(x, xs[1..]);
      assert xs == [xs[0]] + xs[1..];
      assert InsertReal(x, xs) == [xs[0]] + InsertReal(x, xs[1..]);
      assert multiset(xs) == multiset{xs[0]} + multiset(xs[1..]);
    }
  }

  function SortReals(xs: seq<real>): (r: seq<real>)
    ensures SortedReals(r)
    ensures multiset(r) == multiset(xs)
    ensures |r| == |xs|
  {
    if xs == [] then []
    else
      var init := xs[..|xs| - 1];
      var sorted := SortReals(init);
      InsertRealSorted(xs[|xs| - 1], sorted);
      InsertRealPermutes(xs[|xs| - 1], sorted);
      assert xs == init + [xs[|xs| - 1]];
      InsertReal(xs[|xs| - 1], sorted)
  }

  /** The median of the present values: the middle one, or the mean of the two middle ones. */
  function Median(s: seq<Option<real>>): Option<real> {
    Middle(SortReals(Present(s)))
  }

  /** The middle value of a sorted sequence, or the mean of the two middle ones. */
  function Middle(p: seq<real>): Option<real> {
    if |p| == 0 then None
    else
      var n := |p|;
      if n % 2 == 1 then Some(p[n / 2]) else Some((p[n / 2 - 1] + p[n / 2]) / 2.0)
  }

  /** The mean and the median are absent exactly when every entry of the window is missing. */
  lemma MeanMedianAbsent(s: seq<Option<real>>)
    ensures Mean(s).None? <==> forall i :: 0 <= i < |s| ==> s[i].None?
    ensures Median(s).None? <==> forall i :: 0 <= i < |s| ==> s[i].None?
  {
    PresentEmpty(s);
  }

  /** `rolling_median(series, n)`. */
  function RollingMedian(s: seq<Option<real>>, n: nat): Option<real> {
    Median(Tail(s, n))
  }

  predicate AllPresent(s: seq<Option<real>>) {
    forall i :: 0 <= i < |s| ==> s[i].Some?
  }

  function Unwrap(s: seq<Option<real>>): (xs: seq<real>)
    requires AllPresent(s)
    ensures |xs| == |s|
    ensures forall i :: 0 <= i < |s| ==> xs[i] == s[i].value
  {
    if s == [] then [] else [s[0].value] + Unwrap(s[1..])
  }

  /** The sum of squared deviations from `mu`. */
  function SumSquares(xs: seq<real>, mu: real): real {
    if xs == [] then 0.0 else (xs[0] - mu) * (xs[0] - mu) + SumSquares(xs[1..], mu)
  }

  /**
   * `zscore(series, n)` over the last n rows. NumPy's mean and standard
   * deviation do not skip NaN, so one missing value in the window makes the
   * result NaN, stored as `None`. `sqrt` is the square root, left abstract.
   */
  function ZScore(s: seq<Option<real>>, n: nat, sqrt: real -> real): Option<real> {
    var w := Tail(s, n);
    if |w| == 0 then None
    else if !AllPresent(w) then None
    else
      var xs := Unwrap(w);
      var mu := Sum(xs) / (|xs| as real);
      var sd := sqrt(SumSquares(xs, mu) / (|xs| as real));
      if sd == 0.0 then Some(0.0) else Some((xs[|xs| - 1] - mu) / sd)
  }

  /** `mean_3d / mean_14d - 1`, absent when `mean_3d` is absent or `mean_14d` is absent or zero. */
  function DeltaPct(m3: Option<real>, m14: Option<real>): Option<real> {
    if m3.Some? && m14.Some? && m14.value != 0.0 then Some(m3.value / m14.value - 1.0) else None
  }

  /** The delta is present exactly when both means are and the long one is not zero; it is their relative change. */
  lemma DeltaPctMeaning(m3: Option<real>, m14: Option<real>)
    ensures DeltaPct(m3, m14).Some? <==> m3.Some? && m14.Some? && m14.value != 0.0
    ensures DeltaPct(m3, m14).Some? ==> DeltaPct(m3, m14).value * m14.value == m3.value - m14.value
  {
    if DeltaPct(m3, m14).Some? {
      var d := DeltaPct(m3, m14).value;
      calc {
        d * m14.value;
        (m3.value / m14.value - 1.0) * m14.value;
        m3.value / m14.value * m14.value - m14.value;
        m3.value - m14.value;
      }
    }
  }

  /** The aggregator map of one signal, from its current value and its window statistics. */
  function AggregatorMap(current: Option<real>, m3: Option<real>, m7: Option<real>, m14: Option<real>,
                         med14: Option<real>, z28: Option<real>): map<string, Option<real>>
  {
    map["current" := current]
      ["mean_3d" := m3]
      ["mean_7d" := m7]
      ["mean_14d" := m14]
      ["median_14d" := med14]
      ["delta_pct_3v14" := DeltaPct(m3, m14)]
      ["zscore_28d" := z28]
  }

  /** The aggregator map holds exactly the seven aggregators, each with its value. */
  lemma AggregatorMapEntries(current: Option<real>, m3: Option<real>, m7: Option<real>, m14: Option<real>,
                             med14: Option<real>, z28: Option<real>)
    ensures var m := AggregatorMap(current, m3, m7, m14, med14, z28);
            && m.Keys == {"current", "mean_3d", "mean_7d", "mean_14d", "median_14d", "delta_pct_3v14", "zscore_28d"}
            && m["current"] == current && m["mean_3d"] == m3 && m["mean_7d"] == m7 && m["mean_14d"] == m14
            && m["median_14d"] == med14 && m["delta_pct_3v14"] == DeltaPct(m3, m14) && m["zscore_28d"] == z28
  {
  }

  /** A map holding `current`, and possibly the windows already, is overwritten by the full aggregator map. */
  lemma CurrentAbsorbed(m: map<string, Option<real>>, current: Option<real>, m3: Option<real>, m7: Option<real>,
                        m14: Option<real>, med14: Option<real>, z28: Option<real>)
    requires m == map["current" := current] || m == AggregatorMap(current, m3, m7, m14, med14, z28)
    ensures "current" in m && m["current"] == current
    ensures m + AggregatorMap(current, m3, m7, m14, med14, z28) == AggregatorMap(current, m3, m7, m14, med14, z28)
  {
  }

  /** The aggregator map of one signal, given the user's rows in date order. */
  function ColumnFeatures(rows: seq<Row>, key: string, sqrt: real -> real): map<string, Option<real>>
    requires rows != []
  {
    var s := Series(rows, key);
    AggregatorMap(Value(rows[|rows| - 1], key), RollingMean(s, 3), RollingMean(s, 7), RollingMean(s, 14),
                  RollingMedian(s, 14), ZScore(s, 28, sqrt))
  }

  predicate IsSignal(key: string) {
    key != "date" && key != "user_id"
  }

  /** `features.setdefault(key, {})[agg] = value`. */
  function Add(f: FeatureSet, key: string, agg: string, v: Option<real>): (r: FeatureSet)
    ensures r.Keys == f.Keys + {key}
    ensures r[key] == (if key in f then f[key] else map[])[agg := v]
    ensures forall k :: k in f && k != key ==> r[k] == f[k]
  {
    f[key := (if key in f then f[key] else map[])[agg := v]]
  }

  /** The derived `max_hr_pct_user_max.current`, added only when its operands allow. */
  function WithDerived(f: FeatureSet): FeatureSet {
    var maxHr := Lookup(f, "max_heart_rate_bpm", "current");
    var userMax := Lookup(f, "user_max_heart_rate_bpm", "current");
    if maxHr.Some? && userMax.Some? && userMax.value != 0.0 then
      Add(f, "max_hr_pct_user_max", "current", Some(maxHr.value / userMax.value))
    else f
  }

  /** What `build_features` returns, stated as one value. */
  function FeaturesOf(history: seq<Row>, columns: seq<string>, target: int, user: string, sqrt: real -> real)
    : FeatureSet
  {
    var rows := UserRows(history, user, target);
    if rows == [] then map[]
    else WithDerived(WindowFeatures(rows, columns, sqrt))
  }

  /** One entry `f(key)` per signal column, the later of two equal labels winning. */
  function PerSignal<V>(columns: seq<string>, f: string -> V): map<string, V> {
    if columns == [] then map[]
    else
      var key := columns[|columns| - 1];
      var m := PerSignal(columns[..|columns| - 1], f);
      if IsSignal(key) then m[key := f(key)] else m
  }

  /** `PerSignal` holds exactly the signal columns, each with its entry. */
  lemma {:induction false} PerSignalAt<V>(columns: seq<string>, f: string -> V, key: string)
    ensures key in PerSignal(columns, f) <==> key in columns && IsSignal(key)
    ensures key in PerSignal(columns, f) ==> PerSignal(columns, f)[key] == f(key)
  {
    if columns != [] {
      var init := columns[..|columns| - 1];
      PerSignalAt(init, f, key);
      assert columns == init + [columns[|columns| - 1]];
    }
  }

  /** A signal's map after the first pass: its `current` only. */
  function CurrentEntries(last: Row): string -> map<string, Option<real>> {
    key => map["current" := Value(last, key)]
  }

  /** The feature map after the first pass over `columns`: each signal's `current`, from `last`. */
  function CurrentFeatures(last: Row, columns: seq<string>): FeatureSet {
    PerSignal(columns, CurrentEntries(last))
  }

  /** A signal's map after the second pass. */
  function WindowEntries(rows: seq<Row>, sqrt: real -> real): string -> map<string, Option<real>>
    requires rows != []
  {
    key => ColumnFeatures(rows, key, sqrt)
  }

  /** The feature map of non-empty, date-ordered rows over `columns`, before the derived ratio. */
  function WindowFeatures(rows: seq<Row>, columns: seq<string>, sqrt: real -> real): FeatureSet
    requires rows != []
  {
    PerSignal(columns, WindowEntries(rows, sqrt))
  }

  lemma UnionCovered<K, V>(a: map<K, V>, b: map<K, V>)
    requires a.Keys <= b.Keys
    ensures a + b == b
  {
  }

  lemma UnionUpdate<K, V>(a: map<K, V>, b: map<K, V>, k: K, v: V)
    ensures (a + b)[k := v] == a + b[k := v]
  {
  }

  /** The first pass of `build_features`: each signal column's `current`, from the last row. */
  method AddCurrents(rows: seq<Row>, columns: seq<string>) returns (features: FeatureSet)
    requires rows != []
    ensures features == CurrentFeatures(rows[|rows| - 1], columns)
  {
    features := map[];
    var last := rows[|rows| - 1];
    var i := 0;
    while i < |columns|
      invariant 0 <= i <= |columns|
      invariant features == CurrentFeatures(last, columns[..i])
    {
      var key := columns[i];
      assert columns[..i + 1][..i] == columns[..i];
      if IsSignal(key) {
        PerSignalAt(columns[..i], CurrentEntries(last), key);
        var entry := map["current" := Value(last, key)];
        assert CurrentEntries(last)(key) == entry;
        assert (if key in features then features[key] else map[])["current" := Value(last, key)] == entry;
        features := Add(features, key, "current", Value(last, key));
        assert features == CurrentFeatures(last, columns[..i])[key := entry];
      }
      i := i + 1;
    }
    assert columns[..|columns|] == columns;
  }

  /**
   * The second pass's updates of one signal's map, in the source's order:
   * the windows, then the delta read back from the map, then the z-score.
   */
  method AddWindows(m: map<string, Option<real>>, m3: Option<real>, m7: Option<real>, m14: Option<real>,
                    med14: Option<real>, z28: Option<real>) returns (r: map<string, Option<real>>)
    requires "current" in m
    ensures r == m + AggregatorMap(m["current"], m3, m7, m14, med14, z28)
  {
    AggregatorKeysDistinct();
    r := m["mean_3d" := m3];
    r := r["mean_7d" := m7];
    r := r["mean_14d" := m14];
    r := r["median_14d" := med14];
    ghost var means := r;
    var a := r["mean_3d"];
    var b := r["mean_14d"];
    if a.Some? && b.Some? && b.value != 0.0 {
      r := r["delta_pct_3v14" := Some(a.value / b.value - 1.0)];
    } else {
      r := r["delta_pct_3v14" := None];
    }
    assert r == means["delta_pct_3v14" := DeltaPct(m3, m14)];
    r := r["zscore_28d" := z28];
    MergeAggregators(m, m3, m7, m14, med14, z28);
  }

  lemma MergeUpdate<K, V>(a: map<K, V>, b: map<K, V>, k: K, v: V)
    ensures a + b[k := v] == (a + b)[k := v]
  {
  }

  /** Merging an aggregator map into a map holding the same `current` is the chain of its updates. */
  lemma MergeAggregators(m: map<string, Option<real>>, m3: Option<real>, m7: Option<real>, m14: Option<real>,
                         med14: Option<real>, z28: Option<real>)
    requires "current" in m
    ensures m + AggregatorMap(m["current"], m3, m7, m14, med14, z28)
            == m["mean_3d" := m3]["mean_7d" := m7]["mean_14d" := m14]["median_14d" := med14]
                ["delta_pct_3v14" := DeltaPct(m3, m14)]["zscore_28d" := z28]
  {
    var c := map["current" := m["current"]];
    assert m + c == m;
    var c1 := c["mean_3d" := m3];
    var c2 := c1["mean_7d" := m7];
    var c3 := c2["mean_14d" := m14];
    var c4 := c3["median_14d" := med14];
    var c5 := c4["delta_pct_3v14" := DeltaPct(m3, m14)];
    MergeUpdate(m, c, "mean_3d", m3);
    MergeUpdate(m, c1, "mean_7d", m7);
    MergeUpdate(m, c2, "mean_14d", m14);
    MergeUpdate(m, c3, "median_14d", med14);
    MergeUpdate(m, c4, "delta_pct_3v14", DeltaPct(m3, m14));
    MergeUpdate(m, c5, "zscore_28d", z28);
  }

  lemma AggregatorKeysDistinct()
    ensures "mean_3d" != "mean_7d" && "mean_3d" != "mean_14d" && "mean_3d" != "median_14d"
    ensures "mean_14d" != "median_14d" && "mean_14d" != "mean_7d"
    ensures "current" !in {"mean_3d", "mean_7d", "mean_14d", "median_14d", "delta_pct_3v14", "zscore_28d"}
  {
    assert "mean_3d"[5] == '3' && "mean_7d"[5] == '7' && "mean_14d"[5] == '1' && "median_14d"[2] == 'd';
    assert |"current"| == 7 && |"mean_3d"| == 7 && |"mean_7d"| == 7;
    assert "current"[0] == 'c';
  }

  /** The second pass's work on one signal's map, which holds its `current` and possibly its windows already. */
  method ColumnWindows(m: map<string, Option<real>>, rows: seq<Row>, key: string, sqrt: real -> real)
    returns (r: map<string, Option<real>>)
    requires rows != []
    requires m == CurrentEntries(rows[|rows| - 1])(key) || m == ColumnFeatures(rows, key, sqrt)
    ensures r == ColumnFeatures(rows, key, sqrt)
  {
    var current := Value(rows[|rows| - 1], key);
    var s := Series(rows, key);
    var m3, m7, m14 := RollingMean(s, 3), RollingMean(s, 7), RollingMean(s, 14);
    var med14, z28 := RollingMedian(s, 14), ZScore(s, 28, sqrt);
    ghost var full := AggregatorMap(current, m3, m7, m14, med14, z28);
    assert ColumnFeatures(rows, key, sqrt) == full;
    assert m == map["current" := current] || m == full;
    CurrentAbsorbed(m, current, m3, m7, m14, med14, z28);
    r := AddWindows(m, m3, m7, m14, med14, z28);
  }

  /** The second pass of `build_features`: the window aggregators of each signal column. */
  method AddAllWindows(features: FeatureSet, rows: seq<Row>, columns: seq<string>, sqrt: real -> real)
    returns (r: FeatureSet)
    requires rows != []
    requires features == CurrentFeatures(rows[|rows| - 1], columns)
    ensures r == WindowFeatures(rows, columns, sqrt)
  {
    r := features;
    var last := rows[|rows| - 1];
    var j := 0;
    while j < |columns|
      invariant 0 <= j <= |columns|
      invariant r == features + WindowFeatures(rows, columns[..j], sqrt)
    {
      var key := columns[j];
      ghost var done := WindowFeatures(rows, columns[..j], sqrt);
      assert columns[..j + 1][..j] == columns[..j];
      if IsSignal(key) {
        PerSignalAt(columns, CurrentEntries(last), key);
        PerSignalAt(columns[..j], WindowEntries(rows, sqrt), key);
        assert WindowEntries(rows, sqrt)(key) == ColumnFeatures(rows, key, sqrt);
        var m := ColumnWindows(r[key], rows, key, sqrt);
        UnionUpdate(features, done, key, m);
        r := r[key := m];
        assert WindowFeatures(rows, columns[..j + 1], sqrt) == done[key := m];
      }
      j := j + 1;
    }
    assert columns[..|columns|] == columns;
    forall k | k in features ensures k in WindowFeatures(rows, columns, sqrt) {
      PerSignalAt(columns, CurrentEntries(last), k);
      PerSignalAt(columns, WindowEntries(rows, sqrt), k);
    }
    UnionCovered(features, WindowFeatures(rows, columns, sqrt));
  }

  /** The two passes of `build_features` over the columns. */
  method FillFeatures(rows: seq<Row>, columns: seq<string>, sqrt: real -> real) returns (features: FeatureSet)
    requires rows != []
    ensures features == WindowFeatures(rows, columns, sqrt)
  {
    features := AddCurrents(rows, columns);
    features := AddAllWindows(features, rows, columns, sqrt);
  }

  /**
   * `build_features`: the user's rows up to the target date, then one pass
   * over the columns for `current` and one for the windows, then the derived
   * heart-rate ratio.
   */
  method BuildFeatures(history: seq<Row>, columns: seq<string>, target: int, user: string, sqrt: real -> real)
    returns (features: FeatureSet)
    ensures features == FeaturesOf(history, columns, target, user, sqrt)
  {
    var rows := UserRows(history, user, target);
    features := map[];
    if rows == [] {
      return;
    }
    features := FillFeatures(rows, columns, sqrt);
    features := WithDerived(features);
  }
}
