/** OLSResult._compute_summary: the order statistics of each specification's
    bootstrap draws — median, maximum, minimum and the 97.5% / 2.5% quantiles
    with interpolation='nearest'. */
module Summary {

  predicate Sorted(s: seq<real>)
  {
    forall i, j :: 0 <= i < j < |s| ==> s[i] <= s[j]
  }

  function Insert(x: real, s: seq<real>): (r: seq<real>)
    requires Sorted(s)
    ensures Sorted(r) && |r| == |s| + 1 && multiset(r) == multiset(s) + multiset{x}
  {
    if s == [] then [x]
    else if x <= s[0] then [x] + s
    else
      var r' := Insert(x, s[1..]);
      assert s == [s[0]] + s[1..];
      SortedCons(s[0], x, s[1..], r');
      [s[0]] + r'
  }

  /** A lower bound of a sorted row and of the inserted value stays sorted
      in front of the row with the value inserted. */
  lemma SortedCons(a: real, x: real, s: seq<real>, r: seq<real>)
    requires Sorted([a] + s) && a <= x
    requires Sorted(r) && multiset(r) == multiset(s) + multiset{x}
    ensures Sorted([a] + r)
  {
    forall i | 0 <= i < |r| ensures a <= r[i] {
      assert r[i] in multiset(r);
      if r[i] != x {
        assert r[i] in multiset(s);
        var k :| 0 <= k < |s| && s[k] == r[i];
        assert ([a] + s)[0] == a && ([a] + s)[k + 1] == r[i];
      }
    }
  }

  /** The row in ascending order: a sorted permutation of it. */
  function SortedCopy(s: seq<real>): (r: seq<real>)
    ensures Sorted(r) && multiset(r) == multiset(s) && |r| == |s|
  {
    if s == [] then []
    else
      assert s == [s[0]] + s[1..];
      Insert(s[0], SortedCopy(s[1..]))
  }

  /** numpy's 'nearest' quantile position for q = num/den over n sorted
      values: the virtual index q*(n-1) rounded half to even. */
  function NearestRank(n: nat, num: nat, den: nat): nat
    requires n > 0 && den > 0
  {
    var v: nat := num * (n - 1);
    var whole := v / den;
    var rest := v % den;
    if 2 * rest > den || (2 * rest == den && whole % 2 == 1) then whole + 1 else whole
  }

  /** The 2.5% position lies at or below the lower middle position and the
      97.5% position at or above the upper middle one, inside the row. */
  lemma QuantileRanksBracketMiddle(n: nat)
    requires n > 0
    ensures NearestRank(n, 1, 40) <= (n - 1) / 2
    ensures n / 2 <= NearestRank(n, 39, 40) <= n - 1
  {
    var k := n - 1;
    if k >= 3 {
      assert (k / 40) * 40 <= k;
      assert (39 * k / 40) * 40 <= 39 * k < (39 * k / 40) * 40 + 40;
    }
  }

  /** The median of a sorted, non-empty row: the middle value, or the mean of
      the two middle values when the count is even. */
  function Median(sorted: seq<real>): real
    requires |sorted| > 0
  {
    var n := |sorted|;
    if n % 2 == 1 then sorted[n / 2] else (sorted[n / 2 - 1] + sorted[n / 2]) / 2.0
  }

  datatype RowStats =
    | Stats(median: real, max: real, min: real, ciUp: real, ciDown: real)
    | Undefined   // every statistic is NaN for a row without draws

  /** In a sorted row the five statistics come in the order
      min <= ci_down <= median <= ci_up <= max. */
  lemma SortedStatsOrdered(s: seq<real>)
    requires Sorted(s) && |s| > 0
    ensures s[0] <= s[NearestRank(|s|, 1, 40)] <= Median(s)
    ensures Median(s) <= s[NearestRank(|s|, 39, 40)] <= s[|s| - 1]
  {
    QuantileRanksBracketMiddle(|s|);
  }

  /** A sorted copy holds the same values, so its ends bound the row. */
  lemma SortedCopyBounds(row: seq<real>, s: seq<real>)
    requires Sorted(s) && multiset(s) == multiset(row) && |s| > 0
    ensures forall i :: 0 <= i < |s| ==> s[i] in row
    ensures forall x :: x in row ==> s[0] <= x <= s[|s| - 1]
  {
    forall i | 0 <= i < |s| ensures s[i] in row {
      assert s[i] in multiset(s);
    }
    forall x | x in row ensures s[0] <= x <= s[|s| - 1] {
      assert x in multiset(s);
      var i :| 0 <= i < |s| && s[i] == x;
    }
  }

  /** Summary of one specification's draws. */
  function RowSummary(row: seq<real>): (st: RowStats)
    ensures st.Undefined? <==> |row| == 0
    ensures st.Stats? ==> st.min <= st.ciDown <= st.median <= st.ciUp <= st.max
    ensures st.Stats? ==> st.min in row && st.max in row && st.ciDown in row && st.ciUp in row
    ensures st.Stats? ==> forall x :: x in row ==> st.min <= x <= st.max
  {
    if |row| == 0 then Undefined
    else
      var s := SortedCopy(row);
      var n := |s|;
      var up := NearestRank(n, 39, 40);
      var down := NearestRank(n, 1, 40);
      QuantileRanksBracketMiddle(n);
      SortedStatsOrdered(s);
      SortedCopyBounds(row, s);
      Stats(Median(s), s[n - 1], s[0], s[up], s[down])
  }

  /** The summary table: one row of statistics per specification, ordered
      min <= ci_down <= median <= ci_up <= max, with every statistic except
      the median an observed draw. */
  function ComputeSummary(estimates: seq<seq<real>>): (table: seq<RowStats>)
    ensures |table| == |estimates|
    ensures forall i :: 0 <= i < |estimates| ==> (table[i].Stats? <==> |estimates[i]| > 0)
    ensures forall i :: 0 <= i < |estimates| && table[i].Stats? ==>
              table[i].min <= table[i].ciDown <= table[i].median <= table[i].ciUp <= table[i].max
    ensures forall i :: 0 <= i < |estimates| && table[i].Stats? ==>
              table[i].ciDown in estimates[i] && table[i].ciUp in estimates[i]
  {
    seq(|estimates|, i requires 0 <= i < |estimates| => RowSummary(estimates[i]))
  }
}
