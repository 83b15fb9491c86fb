/**
 * What `build_features` promises about the feature map it returns, proved
 * about the specification functions of module Features.
 */
module FeatureFacts {
  import opened Wrappers
  import opened Features

  // ---------------------------------------------------------------------------
  // Windows

  lemma {:induction false} TailIgnoresOlder<T>(older: seq<T>, s: seq<T>, n: nat)
    requires n <= |s|
    ensures Tail(older + s, n) == Tail(s, n)
  {
    var whole := older + s;
    assert whole[|whole| - n..] == s[|s| - n..];
  }

  /**
   * The windows are row counts, not calendar spans: rows before the last n
   * do not change any n-row statistic.
   */
  lemma WindowsAreRowCounts(older: seq<Option<real>>, s: seq<Option<real>>, n: nat, sqrt: real -> real)
    requires n <= |s|
    ensures RollingMean(older + s, n) == RollingMean(s, n)
    ensures RollingMedian(older + s, n) == RollingMedian(s, n)
    ensures ZScore(older + s, n, sqrt) == ZScore(s, n, sqrt)
  {
    TailIgnoresOlder(older, s, n);
    SameWindow(older + s, s, n, sqrt);
  }

  /** Every n-row statistic depends only on the last n rows. */
  lemma SameWindow(a: seq<Option<real>>, b: seq<Option<real>>, n: nat, sqrt: real -> real)
    requires Tail(a, n) == Tail(b, n)
    ensures RollingMean(a, n) == RollingMean(b, n)
    ensures RollingMedian(a, n) == RollingMedian(b, n)
    ensures ZScore(a, n, sqrt) == ZScore(b, n, sqrt)
  {
  }

  lemma {:induction false} PresentConcat(a: seq<Option<real>>, b: seq<Option<real>>)
    ensures Present(a + b) == Present(a) + Present(b)
  {
    if a != [] {
      PresentConcat(a[1..], b);
      assert (a + b)[1..] == a[1..] + b;
      assert (a + b)[0] == a[0];
      if a[0].Some? {
        calc {
          Present(a + b);
          [a[0].value] + Present(a[1..] + b);
          [a[0].value] + (Present(a[1..]) + Present(b));
          ([a[0].value] + Present(a[1..])) + Present(b);
        }
      } else {
        calc {
          Present(a + b);
          Present(a[1..] + b);
          Present(a[1..]) + Present(b);
        }
      }
    } else {
      assert a + b == b;
    }
  }

  /** A missing value inside a window is skipped by the mean and the median. */
  lemma MissingIsSkipped(a: seq<Option<real>>, b: seq<Option<real>>)
    ensures Mean(a + [None] + b) == Mean(a + b)
    ensures Median(a + [None] + b) == Median(a + b)
  {
    PresentSkipsNone(a, b);
    SamePresent(a + [None] + b, a + b);
  }

  /** The mean and the median depend only on the present values, in order. */
  lemma SamePresent(s: seq<Option<real>>, t: seq<Option<real>>)
    requires Present(s) == Present(t)
    ensures Mean(s) == Mean(t) && Median(s) == Median(t)
  {
  }

  lemma PresentSkipsNone(a: seq<Option<real>>, b: seq<Option<real>>)
    ensures Present(a + [None] + b) == Present(a + b)
  {
    PresentConcat(a + [None], b);
    PresentConcat(a, [None]);
    PresentConcat(a, b);
    assert Present([None]) == [];
    assert Present(a + [None]) == Present(a);
  }

  lemma {:induction false} SumBounds(xs: seq<real>, lo: real, hi: real)
    requires forall i :: 0 <= i < |xs| ==> lo <= xs[i] <= hi
    ensures (|xs| as real) * lo <= Sum(xs) <= (|xs| as real) * hi
  {
    if xs != [] {
      SumBounds(xs[1..], lo, hi);
      assert (|xs| as real) * lo == lo + (|xs[1..]| as real) * lo;
      assert (|xs| as real) * hi == hi + (|xs[1..]| as real) * hi;
    }
  }

  lemma QuotientBounds(sum: real, n: real, lo: real, hi: real)
    requires n > 0.0 && n * lo <= sum <= n * hi
    ensures lo <= sum / n <= hi
  {
    var q := sum / n;
    assert q * n == sum;
  }

  /** Every present value of a window lies in [lo, hi]. */
  ghost predicate Within(s: seq<Option<real>>, lo: real, hi: real) {
    forall i :: 0 <= i < |s| && s[i].Some? ==> lo <= s[i].value <= hi
  }

  lemma PresentWithin(s: seq<Option<real>>, lo: real, hi: real)
    requires Within(s, lo, hi)
    ensures forall i :: 0 <= i < |Present(s)| ==> lo <= Present(s)[i] <= hi
  {
    PresentMembers(s);
    forall i | 0 <= i < |Present(s)| ensures lo <= Present(s)[i] <= hi {
      var x := Present(s)[i];
      assert x in Present(s);
      var j :| 0 <= j < |s| && s[j] == Some(x);
    }
  }

  /** The mean lies between the smallest and the largest present value. */
  lemma MeanWithin(s: seq<Option<real>>, lo: real, hi: real)
    requires Within(s, lo, hi)
    ensures Mean(s).Some? ==> lo <= Mean(s).value <= hi
  {
    var p := Present(s);
    if |p| > 0 {
      PresentWithin(s, lo, hi);
      SumBounds(p, lo, hi);
      QuotientBounds(Sum(p), |p| as real, lo, hi);
    }
  }

  /** The median lies between the smallest and the largest present value. */
  lemma MedianWithin(s: seq<Option<real>>, lo: real, hi: real)
    requires Within(s, lo, hi)
    ensures Median(s).Some? ==> lo <= Median(s).value <= hi
  {
    var present := Present(s);
    var p := SortReals(present);
    PresentWithin(s, lo, hi);
    forall k | 0 <= k < |p| ensures lo <= p[k] <= hi {
      assert p[k] in multiset(p);
      assert p[k] in multiset(present);
      var i :| 0 <= i < |present| && present[i] == p[k];
    }
  }

  // ---------------------------------------------------------------------------
  // z-score

  lemma {:induction false} ConstantSum(xs: seq<real>, c: real)
    requires forall i :: 0 <= i < |xs| ==> xs[i] == c
    ensures Sum(xs) == (|xs| as real) * c
    ensures SumSquares(xs, c) == 0.0
  {
    if xs != [] {
      ConstantSum(xs[1..], c);
      assert (|xs| as real) * c == c + (|xs[1..]| as real) * c;
    }
  }

  /** The z-score of the last n rows is absent for an empty window or one with a missing value. */
  lemma ZScoreAbsent(s: seq<Option<real>>, n: nat, sqrt: real -> real)
    ensures Tail(s, n) == [] ==> ZScore(s, n, sqrt) == None
    ensures (exists i :: 0 <= i < |Tail(s, n)| && Tail(s, n)[i].None?) ==> ZScore(s, n, sqrt) == None
  {
  }

  /**
   * A window of one repeated value has z-score 0.0: its standard deviation
   * is the square root of 0.
   */
  lemma ZScoreConstant(s: seq<Option<real>>, n: nat, sqrt: real -> real, c: real)
    requires Tail(s, n) != [] && forall i :: 0 <= i < |Tail(s, n)| ==> Tail(s, n)[i] == Some(c)
    requires sqrt(0.0) == 0.0
    ensures ZScore(s, n, sqrt) == Some(0.0)
  {
    var w := Tail(s, n);
    var xs := Unwrap(w);
    ConstantSum(xs, c);
    var len := |xs| as real;
    assert len > 0.0;
    assert Sum(xs) == len * c;
    ScaleCancels(len, c);
    assert Sum(xs) / len == c;
    assert SumSquares(xs, Sum(xs) / len) / len == 0.0;
  }

  lemma ScaleCancels(len: real, c: real)
    requires len > 0.0
    ensures (len * c) / len == c
  {
    var q := (len * c) / len;
    assert q * len == len * c;
    assert (q - c) * len == 0.0;
  }

  // ---------------------------------------------------------------------------
  // The feature map

  const DerivedKey: string := "max_hr_pct_user_max"

  /** The derived ratio is added exactly when its operands allow, and nothing else changes. */
  lemma DerivedRatio(f: FeatureSet)
    ensures var maxHr := Lookup(f, "max_heart_rate_bpm", "current");
            var userMax := Lookup(f, "user_max_heart_rate_bpm", "current");
            if maxHr.Some? && userMax.Some? && userMax.value != 0.0 then
              Lookup(WithDerived(f), DerivedKey, "current") == Some(maxHr.value / userMax.value)
            else WithDerived(f) == f
    ensures WithDerived(f).Keys == f.Keys || WithDerived(f).Keys == f.Keys + {DerivedKey}
    ensures forall k :: k in f && k != DerivedKey ==> WithDerived(f)[k] == f[k]
  {
  }

  /** With no row of the user on or before the target date, the feature map is empty. */
  lemma NoRowsNoFeatures(history: seq<Row>, columns: seq<string>, target: int, user: string, sqrt: real -> real)
    requires forall x :: x in history ==> x.userId != user || x.date > target
    ensures FeaturesOf(history, columns, target, user, sqrt) == map[]
  {
    var rows := UserRows(history, user, target);
    QualifyingCounts(history, user, target);
    assert multiset(rows) == multiset{};
  }

  /** The last of the user's rows is the latest one on or before the target date. */
  lemma LastRowIsLatest(history: seq<Row>, user: string, target: int)
    requires UserRows(history, user, target) != []
    ensures var rows := UserRows(history, user, target);
            forall x :: x in history && x.userId == user && x.date <= target ==> x.date <= rows[|rows| - 1].date
  {
    var rows := UserRows(history, user, target);
    forall x | x in history && x.userId == user && x.date <= target
      ensures x.date <= rows[|rows| - 1].date
    {
      var i :| 0 <= i < |rows| && rows[i] == x;
    }
  }

  /**
   * For a signal column other than the derived one, the entry is the column's
   * aggregator map over the user's rows, whose `current` is the column's value
   * in the last row.
   */
  lemma SignalFeatures(history: seq<Row>, columns: seq<string>, target: int, user: string, sqrt: real -> real,
                       key: string)
    requires UserRows(history, user, target) != []
    requires key in columns && IsSignal(key) && key != DerivedKey
    ensures var rows := UserRows(history, user, target);
            var f := FeaturesOf(history, columns, target, user, sqrt);
            && key in f
            && f[key] == ColumnFeatures(rows, key, sqrt)
            && Lookup(f, key, "current") == Value(rows[|rows| - 1], key)
  {
    var rows := UserRows(history, user, target);
    var w := WindowFeatures(rows, columns, sqrt);
    PerSignalAt(columns, WindowEntries(rows, sqrt), key);
    DerivedRatio(w);
    ColumnFeaturesMeaning(rows, key, sqrt);
  }

  /**
   * A signal's aggregator map: `current` is its value in the last row, the
   * means and the median are over its last 3, 7, 14 and 14 rows, the delta
   * compares the 3- and 14-row means, and the z-score is over its last 28 rows.
   */
  lemma ColumnFeaturesMeaning(rows: seq<Row>, key: string, sqrt: real -> real)
    requires rows != []
    ensures var m := ColumnFeatures(rows, key, sqrt);
            var s := Series(rows, key);
            && m.Keys == {"current", "mean_3d", "mean_7d", "mean_14d", "median_14d", "delta_pct_3v14", "zscore_28d"}
            && m["current"] == Value(rows[|rows| - 1], key)
            && m["mean_3d"] == RollingMean(s, 3) && m["mean_7d"] == RollingMean(s, 7)
            && m["mean_14d"] == RollingMean(s, 14) && m["median_14d"] == RollingMedian(s, 14)
            && m["delta_pct_3v14"] == DeltaPct(RollingMean(s, 3), RollingMean(s, 14))
            && m["zscore_28d"] == ZScore(s, 28, sqrt)
  {
    var s := Series(rows, key);
    AggregatorMapEntries(Value(rows[|rows| - 1], key), RollingMean(s, 3), RollingMean(s, 7), RollingMean(s, 14),
                         RollingMedian(s, 14), ZScore(s, 28, sqrt));
  }

  /** The keys of the feature map: the signal columns, and the derived ratio when it applies. */
  lemma FeatureKeys(history: seq<Row>, columns: seq<string>, target: int, user: string, sqrt: real -> real,
                    key: string)
    requires UserRows(history, user, target) != []
    ensures var rows := UserRows(history, user, target);
            var w := WindowFeatures(rows, columns, sqrt);
            key in FeaturesOf(history, columns, target, user, sqrt)
            <==> (key in columns && IsSignal(key)) || (key == DerivedKey && WithDerived(w) != w)
  {
    var rows := UserRows(history, user, target);
    var w := WindowFeatures(rows, columns, sqrt);
    PerSignalAt(columns, WindowEntries(rows, sqrt), key);
    DerivedRatio(w);
  }
}
