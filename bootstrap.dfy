/** OLSRobust._strap_OLS: one bootstrap draw.  The table of a specification
    is optionally shuffled in its outcome column, resampled by rows or by
    groups, and refitted; the draw reports the first coefficient and its
    p-value.  The random choices are inputs (a DrawChoice). */
module Bootstrap {
  import opened Common
  import opened Frames
  import opened Collaborators
  import opened FullSample

  /** What one draw takes from the random source: the permutation of the
      index labels (np.random.permutation), the sampled row positions
      (DataFrame.sample) and the drawn group keys (np.random.choice). */
  datatype DrawChoice = DrawChoice(perm: seq<int>, rows: seq<nat>, keys: seq<Cell>)

  /** The elements of s at positions ps, in that order. */
  function Gather<T>(s: seq<T>, ps: seq<int>): (r: seq<T>)
    requires forall k :: 0 <= k < |ps| ==> 0 <= ps[k] < |s|
    ensures |r| == |ps| && forall k :: 0 <= k < |ps| ==> r[k] == s[ps[k]]
  {
    seq(|ps|, k requires 0 <= k < |ps| => s[ps[k]])
  }

  /** Taking out the element at position j removes one occurrence of it. */
  lemma RemoveAt<T>(q: seq<T>, j: nat)
    requires j < |q|
    ensures multiset(q) == multiset(q[..j] + q[j + 1..]) + multiset{q[j]}
  {
    assert q == q[..j] + [q[j]] + q[j + 1..];
  }

  lemma CancelOne<T>(a: multiset<T>, b: multiset<T>, x: T)
    requires a + multiset{x} == b + multiset{x}
    ensures a == b
  {
    forall y ensures a[y] == b[y] {
      assert (a + multiset{x})[y] == (b + multiset{x})[y];
    }
  }

  /** Leaving position j out of the gather leaves its value out. */
  lemma GatherRemoveAt<T>(s: seq<T>, qs: seq<int>, j: nat, rest: seq<int>)
    requires forall k :: 0 <= k < |qs| ==> 0 <= qs[k] < |s|
    requires j < |qs| && rest == qs[..j] + qs[j + 1..]
    ensures forall k :: 0 <= k < |rest| ==> 0 <= rest[k] < |s|
    ensures multiset(qs) == multiset(rest) + multiset{qs[j]}
    ensures multiset(Gather(s, qs)) == multiset(Gather(s, rest)) + multiset{s[qs[j]]}
  {
    RemoveAt(qs, j);
    var g := Gather(s, qs);
    assert Gather(s, rest) == g[..j] + g[j + 1..];
    RemoveAt(g, j);
  }

  /** Gathering along two rearrangements of the same positions yields
      rearrangements of the same values. */
  lemma {:induction false} GatherPermutation<T>(s: seq<T>, ps: seq<int>, qs: seq<int>)
    requires forall k :: 0 <= k < |ps| ==> 0 <= ps[k] < |s|
    requires forall k :: 0 <= k < |qs| ==> 0 <= qs[k] < |s|
    requires multiset(ps) == multiset(qs)
    ensures multiset(Gather(s, ps)) == multiset(Gather(s, qs))
  {
    if ps == [] {
      assert |multiset(qs)| == 0;
    } else {
      var last := |ps| - 1;
      var p := ps[last];
      var ps' := ps[..last];
      assert ps' == ps[..last] + ps[last + 1..];
      GatherRemoveAt(s, ps, last, ps');
      assert p in multiset(qs);
      var j :| 0 <= j < |qs| && qs[j] == p;
      var qs' := qs[..j] + qs[j + 1..];
      GatherRemoveAt(s, qs, j, qs');
      CancelOne(multiset(ps'), multiset(qs'), p);
      GatherPermutation(s, ps', qs');
    }
  }

  /** The labels of a freshly numbered table: 0, 1, ..., n-1. */
  predicate DefaultIndex(labels: seq<int>)
  {
    forall i :: 0 <= i < |labels| ==> labels[i] == i
  }

  /** A rearrangement of the labels 0..n-1 holds n positions, each in range. */
  lemma RearrangedPositions(labels: seq<int>, perm: seq<int>)
    requires DefaultIndex(labels) && multiset(perm) == multiset(labels)
    ensures |perm| == |labels| && forall k :: 0 <= k < |perm| ==> 0 <= perm[k] < |labels|
  {
    assert |multiset(perm)| == |multiset(labels)|;
    forall k | 0 <= k < |perm| ensures 0 <= perm[k] < |labels| {
      assert perm[k] in multiset(labels);
    }
  }

  /** The shuffled table: row k takes its outcome from row perm[k] and keeps
      its own predictors. */
  function ShuffledTable(t: Frame, perm: seq<int>): (g: Frame)
    requires WellFormed(t) && |t.names| > 0
    requires DefaultIndex(t.labels) && multiset(perm) == multiset(t.labels)
    ensures |perm| == |t.rows| && forall k :: 0 <= k < |perm| ==> 0 <= perm[k] < |t.rows|
    ensures WellFormed(g) && g.labels == t.labels && g.names == [t.names[0]] + SplitXY(t).1.names
    ensures multiset(Column(g, 0)) == multiset(Column(t, 0))
    ensures forall k :: 0 <= k < |t.rows| ==>
              g.rows[k][0] == t.rows[perm[k]][0] && g.rows[k][1..] == SplitXY(t).1.rows[k]
  {
    RearrangedPositions(t.labels, perm);
    var n := |t.rows|;
    var x := SplitXY(t).1;
    var y := Column(t, 0);
    var shuffled := Gather(y, perm);
    GatherPermutation(y, perm, t.labels);
    assert Gather(y, t.labels) == y;
    var g := Frame([t.names[0]] + x.names, t.labels,
                   seq(n, k requires 0 <= k < n => [shuffled[k]] + x.rows[k]));
    assert Column(g, 0) == shuffled;
    g
  }

  /** Shuffle mode: the outcome column is rearranged by the permuted labels,
      which y.iloc reads as positions, then put back beside the unchanged
      predictors.  A permutation that is not a rearrangement of the labels
      cannot be drawn; labels other than 0..n-1 break the positional read. */
  function Shuffle(t: Frame, perm: seq<int>): (r: Result<Frame>)
    requires WellFormed(t)
    ensures |t.names| == 0 ==> r == Err(NoColumns)
    ensures r.Ok? <==> |t.names| > 0 && multiset(perm) == multiset(t.labels) && DefaultIndex(t.labels)
    ensures r.Err? && |t.names| > 0 && multiset(perm) != multiset(t.labels) ==> r.error == BadDraw
    ensures r.Ok? ==> && WellFormed(r.value) && r.value.labels == t.labels
                      && r.value.names == [t.names[0]] + SplitXY(t).1.names
    ensures r.Ok? ==> multiset(Column(r.value, 0)) == multiset(Column(t, 0))
    ensures r.Ok? ==> |perm| == |t.rows| && forall k :: 0 <= k < |perm| ==> 0 <= perm[k] < |t.rows|
    ensures r.Ok? ==> forall k :: 0 <= k < |t.rows| ==>
                        r.value.rows[k][0] == t.rows[perm[k]][0] && r.value.rows[k][1..] == SplitXY(t).1.rows[k]
  {
    if |t.names| == 0 then Err(NoColumns)
    else if multiset(perm) != multiset(t.labels) then Err(BadDraw)
    else if !DefaultIndex(t.labels) then Err(IndexMisaligned)
    else Ok(ShuffledTable(t, perm))
  }

  /** No position occurs twice. */
  predicate Distinct(ks: seq<nat>)
  {
    forall i, j :: 0 <= i < j < |ks| ==> ks[i] != ks[j]
  }

  /** DataFrame.sample(n=sampleSize, replace=replace): sampleSize rows at
      the drawn positions; without replacement no row is taken twice and the
      sample cannot be larger than the table, and nothing can be drawn from
      an empty table. */
  function RowSample(t: Frame, rows: seq<nat>, sampleSize: nat, replace: bool): (r: Result<Frame>)
    requires WellFormed(t)
    ensures sampleSize > |t.rows| && (!replace || |t.rows| == 0) ==> r == Err(SampleLargerThanPopulation)
    ensures r.Ok? <==> && !(sampleSize > |t.rows| && (!replace || |t.rows| == 0))
                       && |rows| == sampleSize && (forall j :: 0 <= j < |rows| ==> rows[j] < |t.rows|)
                       && (!replace ==> Distinct(rows))
    ensures r.Ok? ==> && WellFormed(r.value) && r.value.names == t.names && |r.value.rows| == sampleSize
                      && forall j :: 0 <= j < sampleSize ==>
                           r.value.rows[j] == t.rows[rows[j]] && r.value.labels[j] == t.labels[rows[j]]
  {
    if sampleSize > |t.rows| && (!replace || |t.rows| == 0) then Err(SampleLargerThanPopulation)
    else if |rows| != sampleSize || (exists j :: 0 <= j < |rows| && rows[j] >= |t.rows|)
            || (!replace && !Distinct(rows)) then Err(BadDraw)
    else Ok(TakeRows(t, rows))
  }

  /** Number of rows whose group value is c. */
  function KeyCount(col: seq<Cell>, c: Cell): nat
  {
    multiset(col)[c]
  }

  /** The rows a group draw keeps: the group value was drawn, is not missing
      (groupby leaves NaN groups out) and occurs in at least two rows.  Every
      row of a drawn group is selected, so the count is over the table. */
  function KeptRows(col: seq<Cell>, keys: seq<Cell>): (ks: seq<nat>)
    ensures forall j :: 0 <= j < |ks| ==> ks[j] < |col|
    ensures forall i :: 0 <= i < |col| ==>
              (i in ks <==> col[i] in keys && col[i].Value? && KeyCount(col, col[i]) > 1)
    ensures Increasing(ks)
  {
    Where(|col|, (i: nat) => i < |col| && col[i] in keys && col[i].Value? && KeyCount(col, col[i]) > 1)
  }

  /** A value occurring at least twice occurs at a second position. */
  lemma SecondOccurrence(col: seq<Cell>, i: nat) returns (i': nat)
    requires i < |col| && KeyCount(col, col[i]) > 1
    ensures i' < |col| && i' != i && col[i'] == col[i]
  {
    var c := col[i];
    var rest := col[..i] + col[i + 1..];
    assert col == col[..i] + [c] + col[i + 1..];
    assert c in multiset(rest);
    var k :| 0 <= k < |rest| && rest[k] == c;
    i' := if k < i then k else k + 1;
  }

  /** No singleton group survives: every kept row has another kept row of
      the same group. */
  lemma NoSingletonSurvives(col: seq<Cell>, keys: seq<Cell>, i: nat)
    requires i in KeptRows(col, keys)
    ensures exists i' :: i' in KeptRows(col, keys) && i' != i && col[i'] == col[i]
  {
    var ks := KeptRows(col, keys);
    var j :| 0 <= j < |ks| && ks[j] == i;
    var i' := SecondOccurrence(col, i);
    assert i' in ks;
  }

  /** Drawing a group several times keeps its rows once: the kept rows are
      distinct positions and depend only on which keys were drawn. */
  lemma RepeatedKeysDoNotDuplicate(col: seq<Cell>, keys: seq<Cell>, keys': seq<Cell>)
    requires forall c :: c in keys <==> c in keys'
    ensures KeptRows(col, keys) == KeptRows(col, keys')
    ensures Distinct(KeptRows(col, keys))
  {
    var ks, ks' := KeptRows(col, keys), KeptRows(col, keys');
    assert forall i :: i in ks <==> i in ks';
    IncreasingSameMembers(ks, ks');
  }

  /** The group branch: np.random.choice over the distinct group values
      (with replacement), the rows of the drawn groups, singleton groups
      removed, then the group column dropped. */
  function GroupSample(t: Frame, group: Name, keys: seq<Cell>, sampleSize: nat): (r: Result<Frame>)
    requires WellFormed(t)
    ensures group !in t.names ==> r == Err(MissingColumn(group))
    ensures group in t.names && |t.rows| == 0 && sampleSize > 0 ==> r == Err(EmptyGroupPool)
    ensures r.Ok? <==> && group in t.names && !(|t.rows| == 0 && sampleSize > 0) && |keys| == sampleSize
                       && forall k :: k in keys ==> k in Column(t, IndexOf(t.names, group))
    ensures r.Ok? ==> var kept := KeptRows(Column(t, IndexOf(t.names, group)), keys);
              && WellFormed(r.value) && group !in r.value.names
              && (forall c :: c in t.names && c != group ==> c in r.value.names)
              && |r.value.rows| == |kept|
              && forall j :: 0 <= j < |kept| ==> r.value.labels[j] == t.labels[kept[j]]
  {
    if group !in t.names then Err(MissingColumn(group))
    else
      var col := Column(t, IndexOf(t.names, group));
      if |t.rows| == 0 && sampleSize > 0 then Err(EmptyGroupPool)
      else if |keys| != sampleSize || (exists k :: k in keys && k !in col) then Err(BadDraw)
      else
        var selected := TakeRows(t, KeptRows(col, keys));
        DropNamed(selected, group)
  }

  /** The cells of a group sample: row j is kept row kept[j] of the table,
      with the group column cut out and the other columns in their order. */
  lemma GroupSampleCells(t: Frame, group: Name, keys: seq<Cell>, sampleSize: nat)
    requires WellFormed(t)
    ensures var r := GroupSample(t, group, keys, sampleSize);
            r.Ok? ==> var kept := KeptRows(Column(t, IndexOf(t.names, group)), keys);
              var ks := OtherColumns(t.names, group);
              && |r.value.names| == |ks|
              && (forall m :: 0 <= m < |ks| ==> r.value.names[m] == t.names[ks[m]])
              && forall j, m :: 0 <= j < |kept| && 0 <= m < |ks| ==> r.value.rows[j][m] == t.rows[kept[j]][ks[m]]
  {
    var r := GroupSample(t, group, keys, sampleSize);
    if r.Ok? {
      var kept := KeptRows(Column(t, IndexOf(t.names, group)), keys);
      var selected := TakeRows(t, kept);
      assert r == DropNamed(selected, group);
    }
  }

  /** The table one draw fits: shuffled when asked, then sampled by rows
      when no group is given (`group is None`) and by groups otherwise. */
  function Resample(t: Frame, group: Option<Name>, sampleSize: nat, replace: bool, shuffle: bool,
                    draw: DrawChoice): (r: Result<Frame>)
    requires WellFormed(t)
    ensures r.Ok? ==> WellFormed(r.value)
    ensures r.Ok? && group.Some? ==> group.value !in r.value.names
    ensures r.Ok? && group.None? ==> |r.value.rows| == sampleSize
    ensures r.Ok? && !shuffle && group.None? ==>
              forall j :: 0 <= j < sampleSize ==> r.value.rows[j] in t.rows
    ensures shuffle && |t.names| == 0 ==> r == Err(NoColumns)
  {
    var data :- if shuffle then Shuffle(t, draw.perm) else Ok(t);
    if group.None? then RowSample(data, draw.rows, sampleSize, replace)
    else GroupSample(data, group.value, draw.keys, sampleSize)
  }

  /** The draw's estimate: the first coefficient and its p-value of
      stripped_ols on the resampled table. */
  function StrapOls(t: Frame, group: Option<Name>, sampleSize: nat, replace: bool, shuffle: bool,
                    draw: DrawChoice, coll: Collaborators): (r: Result<(real, real)>)
    requires WellFormed(t)
    ensures Resample(t, group, sampleSize, replace, shuffle, draw).Err? ==>
              r == Err(Resample(t, group, sampleSize, replace, shuffle, draw).error)
    ensures r.Ok? ==> var s := Resample(t, group, sampleSize, replace, shuffle, draw);
              && s.Ok? && |s.value.names| > 0
              && var out := coll.strippedOls(SplitXY(s.value).0, SplitXY(s.value).1);
              && out.StrippedOls? && |out.b| > 0 && |out.p| > 0
              && r.value == (out.b[0], out.p[0])
    ensures var s := Resample(t, group, sampleSize, replace, shuffle, draw);
            s.Ok? && |s.value.names| > 0 ==>
              var out := coll.strippedOls(SplitXY(s.value).0, SplitXY(s.value).1);
              && (out.StrippedOls? && |out.b| > 0 && |out.p| > 0 ==> r.Ok?)
              && (out.StrippedSingular? ==> r == Err(UnfitModel))
              && (out.StrippedOls? && (|out.b| == 0 || |out.p| == 0) ==> r == Err(NoCoefficients))
    ensures var s := Resample(t, group, sampleSize, replace, shuffle, draw);
            s.Ok? && |s.value.names| == 0 ==> r == Err(NoColumns)
  {
    var s :- Resample(t, group, sampleSize, replace, shuffle, draw);
    if |s.names| == 0 then Err(NoColumns)
    else
      var (y, x) := SplitXY(s);
      match coll.strippedOls(y, x)
      case StrippedSingular => Err(UnfitModel)
      case StrippedOls(b, p) =>
        if |b| == 0 || |p| == 0 then Err(NoCoefficients) else Ok((b[0], p[0]))
  }
}
