/** The work OLSRobust.fit does for one specification: the table it builds
    from the data (column selection, listwise deletion, optional group
    demeaning), the full-sample fit and the bootstrap draws. */
module Specs {
  import opened Common
  import opened Frames
  import opened Collaborators
  import opened FullSample
  import opened Bootstrap

  /** The random source of a whole fit: the choices of draw d for
      specification i of outcome o. */
  type Rng = (nat, nat, nat) -> DrawChoice

  /** fit's keyword arguments, with sample_size already defaulted. */
  datatype FitOptions = FitOptions(group: Option<Name>, draws: nat, sampleSize: nat, replace: bool,
                                   kfold: Option<nat>, shuffle: bool)

  /** `if group:` — None and the empty name both mean that there is no
      group (whereas _strap_OLS asks `group is None`). */
  predicate GroupOn(group: Option<Name>)
  {
    group.Some? && group.value != ""
  }

  /** The columns a specification selects: the outcome, the predictors, the
      group column when a group is given, then the specification's
      controls. */
  function ModelColumns(y: seq<Name>, x: seq<Name>, group: Option<Name>, spec: seq<Name>): seq<Name>
  {
    var cols := if |spec| == 0 then y + x else y + x + spec;
    if GroupOn(group) then y + x + [group.value] + spec else cols
  }

  lemma ModelColumnsLayout(y: seq<Name>, x: seq<Name>, group: Option<Name>, spec: seq<Name>)
    ensures !GroupOn(group) ==> ModelColumns(y, x, group, spec) == y + x + spec
    ensures GroupOn(group) ==> ModelColumns(y, x, group, spec) == y + x + [group.value] + spec
  {
    if |spec| == 0 {
      assert y + x + spec == y + x;
    }
  }

  /** The name pandas gives the unnamed composite outcome when it is put in
      front of the selected columns. */
  const CompositeName: Name := "0"

  /** The columns selected from the data: with a composite outcome the
      outcome names are not among them. */
  function SpecColumns(y: seq<Name>, x: seq<Name>, composite: Option<seq<Cell>>, group: Option<Name>,
                       spec: seq<Name>): seq<Name>
  {
    if composite.None? then ModelColumns(y, x, group, spec) else ModelColumns([], x, group, spec)
  }

  /** Row i has a value in every selected column (and in the composite
      outcome, when there is one). */
  predicate RowKept(data: Frame, cols: seq<Name>, composite: Option<seq<Cell>>, i: nat)
    requires WellFormed(data) && i < |data.rows|
    requires forall c :: c in cols ==> c in data.names
    requires composite.Some? ==> |composite.value| == |data.rows|
  {
    && (composite.Some? ==> composite.value[i].Value?)
    && forall j :: 0 <= j < |cols| ==> data.rows[i][IndexOf(data.names, cols[j])].Value?
  }

  /** The positions of the rows a specification keeps, in order. */
  function KeptPositions(data: Frame, cols: seq<Name>, composite: Option<seq<Cell>>): (ks: seq<nat>)
    requires WellFormed(data)
    requires forall c :: c in cols ==> c in data.names
    requires composite.Some? ==> |composite.value| == |data.rows|
    ensures forall j :: 0 <= j < |ks| ==> ks[j] < |data.rows|
    ensures forall i :: 0 <= i < |data.rows| ==> (i in ks <==> RowKept(data, cols, composite, i))
    ensures Increasing(ks)
  {
    Where(|data.rows|, (i: nat) => i < |data.rows| && RowKept(data, cols, composite, i))
  }

  /** data[cols], with the composite outcome put in front (pd.concat). */
  function Selected(data: Frame, cols: seq<Name>, composite: Option<seq<Cell>>): (r: Result<Frame>)
    requires WellFormed(data)
    requires composite.Some? ==> |composite.value| == |data.rows|
    ensures r.Ok? <==> forall c :: c in cols ==> c in data.names
    ensures r.Err? ==> r.error.MissingColumn? && r.error.name in cols
    ensures r.Ok? ==> WellFormed(r.value) && r.value.labels == data.labels && |r.value.rows| == |data.rows|
    ensures r.Ok? ==> r.value.names == (if composite.Some? then [CompositeName] else []) + cols
    ensures r.Ok? ==> forall i :: 0 <= i < |data.rows| ==>
                        (Complete(r.value.rows[i]) <==> RowKept(data, cols, composite, i))
  {
    var sel :- Select(data, cols);
    assert forall i :: 0 <= i < |data.rows| ==> (Complete(sel.rows[i]) <==> RowKept(data, cols, None, i)) by {
      forall i | 0 <= i < |data.rows| ensures Complete(sel.rows[i]) <==> RowKept(data, cols, None, i) {
        assert forall j :: 0 <= j < |cols| ==> sel.rows[i][j] == data.rows[i][IndexOf(data.names, cols[j])];
        if !Complete(sel.rows[i]) {
          var j :| 0 <= j < |cols| && sel.rows[i][j] == Missing;
          assert !data.rows[i][IndexOf(data.names, cols[j])].Value?;
        }
      }
    }
    if composite.None? then Ok(sel)
    else
      var g := PrependColumn(CompositeName, composite.value, sel);
      assert forall i :: 0 <= i < |data.rows| ==> (Complete(g.rows[i]) <==> RowKept(data, cols, composite, i)) by {
        forall i | 0 <= i < |data.rows| ensures Complete(g.rows[i]) <==> RowKept(data, cols, composite, i) {
          assert g.rows[i] == [composite.value[i]] + sel.rows[i];
          assert RowKept(data, cols, composite, i) <==> composite.value[i].Value? && RowKept(data, cols, None, i);
        }
      }
      Ok(g)
  }

  /** The cells of data[cols]: column m holds the data's column cols[m],
      shifted one place right when the composite outcome is put in front. */
  lemma SelectedCells(data: Frame, cols: seq<Name>, composite: Option<seq<Cell>>)
    requires WellFormed(data)
    requires composite.Some? ==> |composite.value| == |data.rows|
    ensures var r := Selected(data, cols, composite);
            r.Ok? && composite.None? ==>
              forall i, m :: 0 <= i < |data.rows| && 0 <= m < |cols| ==>
                r.value.rows[i][m] == data.rows[i][IndexOf(data.names, cols[m])]
    ensures var r := Selected(data, cols, composite);
            r.Ok? && composite.Some? ==>
              forall i :: 0 <= i < |data.rows| ==>
                && r.value.rows[i][0] == composite.value[i]
                && forall m :: 0 <= m < |cols| ==> r.value.rows[i][1 + m] == data.rows[i][IndexOf(data.names, cols[m])]
  {
    var r := Selected(data, cols, composite);
    var s := Select(data, cols);
    if s.Ok? {
      var sel := s.value;
      if composite.None? {
        assert r == s;
      } else {
        var g := PrependColumn(CompositeName, composite.value, sel);
        assert r == Ok(g);
        forall i | 0 <= i < |data.rows|
          ensures && g.rows[i][0] == composite.value[i]
                  && forall m :: 0 <= m < |cols| ==> g.rows[i][1 + m] == data.rows[i][IndexOf(data.names, cols[m])]
        {
          var row := g.rows[i];
          assert row == [composite.value[i]] + sel.rows[i];
          forall m | 0 <= m < |cols| ensures row[1 + m] == data.rows[i][IndexOf(data.names, cols[m])] {
            assert row[1 + m] == sel.rows[i][m];
          }
        }
      }
    }
  }

  /** Listwise deletion over the selected columns keeps exactly the rows
      that have every one of them, in their original order: a value missing
      in a column the specification does not use removes nothing. */
  lemma DeletionIsPerSpecification(data: Frame, cols: seq<Name>, composite: Option<seq<Cell>>)
    requires WellFormed(data)
    requires composite.Some? ==> |composite.value| == |data.rows|
    requires forall c :: c in cols ==> c in data.names
    ensures var kept := DropNa(Selected(data, cols, composite).value);
            var ks := KeptPositions(data, cols, composite);
            && |kept.rows| == |ks|
            && forall j :: 0 <= j < |ks| ==>
                 && kept.labels[j] == data.labels[ks[j]]
                 && kept.rows[j] == Selected(data, cols, composite).value.rows[ks[j]]
  {
    var sel := Selected(data, cols, composite).value;
    var ks := KeptPositions(data, cols, composite);
    var ks' := CompleteRows(sel);
    assert forall i :: i in ks <==> i in ks' by {
      forall i ensures i in ks <==> i in ks' {
        if i in ks' {
          var j :| 0 <= j < |ks'| && ks'[j] == i;
        }
        if i in ks {
          var j :| 0 <= j < |ks| && ks[j] == i;
        }
      }
    }
    IncreasingSameMembers(ks, ks');
  }

  /** The table of one specification: selected, listwise deleted, and
      demeaned within groups when a group is given. */
  function SpecTable(data: Frame, y: seq<Name>, x: seq<Name>, composite: Option<seq<Cell>>, group: Option<Name>,
                     spec: seq<Name>, coll: Collaborators): (r: Result<Frame>)
    requires WellFormed(data)
    requires composite.Some? ==> |composite.value| == |data.rows|
    ensures r.Ok? <==> forall c :: c in SpecColumns(y, x, composite, group, spec) ==> c in data.names
    ensures r.Ok? ==> WellFormed(r.value)
    ensures r.Ok? && !GroupOn(group) ==>
              var ks := KeptPositions(data, SpecColumns(y, x, composite, group, spec), composite);
              && r.value.names == (if composite.Some? then [CompositeName] else []) + SpecColumns(y, x, composite, group, spec)
              && |r.value.rows| == |ks|
              && (forall j :: 0 <= j < |ks| ==>
                    && r.value.labels[j] == data.labels[ks[j]]
                    && r.value.rows[j] == Selected(data, SpecColumns(y, x, composite, group, spec), composite).value.rows[ks[j]])
              && forall j :: 0 <= j < |r.value.rows| ==> Complete(r.value.rows[j])
  {
    var cols := SpecColumns(y, x, composite, group, spec);
    var sel :- Selected(data, cols, composite);
    var kept := DropNa(sel);
    DeletionIsPerSpecification(data, cols, composite);
    if GroupOn(group) then Ok(coll.groupDemean(kept, group.value)) else Ok(kept)
  }

  /** Draw d of specification i of outcome o: one _strap_OLS call. */
  function DrawAt(t: Frame, opts: FitOptions, coll: Collaborators, rng: Rng, o: nat, i: nat): nat -> Result<(real, real)>
    requires WellFormed(t)
  {
    (d: nat) => StrapOls(t, opts.group, opts.sampleSize, opts.replace, opts.shuffle, rng(o, i, d), coll)
  }

  /** The first n draws of one specification: the (b, p) pair of each, or
      the first failing draw's error. */
  function DrawSeries(t: Frame, opts: FitOptions, coll: Collaborators, rng: Rng, o: nat, i: nat, n: nat)
    : (r: Result<seq<(real, real)>>)
    requires WellFormed(t)
    ensures r.Ok? ==> |r.value| == n
  {
    AllOkLength(n, DrawAt(t, opts, coll, rng, o, i));
    AllOk(n, DrawAt(t, opts, coll, rng, o, i))
  }

  /** The draws of a specification succeed exactly when every
      _strap_OLS call does, and then hold their estimates in draw order. */
  lemma DrawSeriesMeaning(t: Frame, opts: FitOptions, coll: Collaborators, rng: Rng, o: nat, i: nat, n: nat)
    requires WellFormed(t)
    ensures var r := DrawSeries(t, opts, coll, rng, o, i, n);
            && (r.Ok? ==> forall d :: 0 <= d < n ==>
                  StrapOls(t, opts.group, opts.sampleSize, opts.replace, opts.shuffle, rng(o, i, d), coll) == Ok(r.value[d]))
            && (r.Err? <==>
                  exists d :: 0 <= d < n &&
                    StrapOls(t, opts.group, opts.sampleSize, opts.replace, opts.shuffle, rng(o, i, d), coll).Err?)
  {
    var step := DrawAt(t, opts, coll, rng, o, i);
    AllOkMeaning(n, step);
    assert forall d :: 0 <= d < n ==>
             step(d) == StrapOls(t, opts.group, opts.sampleSize, opts.replace, opts.shuffle, rng(o, i, d), coll);
  }

  /** zip(*pairs): the first components and the second components. */
  function Unzip(pairs: seq<(real, real)>): (seq<real>, seq<real>)
  {
    (seq(|pairs|, k requires 0 <= k < |pairs| => pairs[k].0), seq(|pairs|, k requires 0 <= k < |pairs| => pairs[k].1))
  }

  /** The estimates of one specification. */
  datatype SpecFit = SpecFit(full: FullFit, b: seq<real>, p: seq<real>)

  /** Everything fit computes for specification i of outcome o.  Without
      draws, unpacking the empty list of draws fails. */
  function FitSpec(data: Frame, y: seq<Name>, x: seq<Name>, composite: Option<seq<Cell>>, opts: FitOptions,
                   spec: seq<Name>, coll: Collaborators, rng: Rng, o: nat, i: nat): (r: Result<SpecFit>)
    requires WellFormed(data)
    requires composite.Some? ==> |composite.value| == |data.rows|
    ensures r.Ok? ==> |r.value.b| == opts.draws && |r.value.p| == opts.draws
  {
    var t :- SpecTable(data, y, x, composite, opts.group, spec, coll);
    if |t.names| == 0 then Err(NoColumns)
    else
      var full :- FullSampleFit(t, opts.kfold, coll);
      var draws :- DrawSeries(t, opts, coll, rng, o, i, opts.draws);
      if opts.draws == 0 then Err(NoDraws) else Ok(SpecFit(full, Unzip(draws).0, Unzip(draws).1))
  }

  /** A specification's estimates are the full-sample fit of its table and
      its draws, one per bootstrap draw; there must be at least one draw. */
  lemma FitSpecMeaning(data: Frame, y: seq<Name>, x: seq<Name>, composite: Option<seq<Cell>>, opts: FitOptions,
                       spec: seq<Name>, coll: Collaborators, rng: Rng, o: nat, i: nat)
    requires WellFormed(data)
    requires composite.Some? ==> |composite.value| == |data.rows|
    ensures var r := FitSpec(data, y, x, composite, opts, spec, coll, rng, o, i);
            && (opts.draws == 0 ==> r.Err?)
            && var t := SpecTable(data, y, x, composite, opts.group, spec, coll);
            && (r.Ok? <==> && t.Ok? && |t.value.names| > 0 && opts.draws > 0
                           && FullSampleFit(t.value, opts.kfold, coll).Ok?
                           && DrawSeries(t.value, opts, coll, rng, o, i, opts.draws).Ok?)
            && (r.Ok? ==>
                  && FullSampleFit(t.value, opts.kfold, coll) == Ok(r.value.full)
                  && (r.value.b, r.value.p) == Unzip(DrawSeries(t.value, opts, coll, rng, o, i, opts.draws).value))
  {
    var t := SpecTable(data, y, x, composite, opts.group, spec, coll);
    if t.Ok? && |t.value.names| > 0 {
      var full := FullSampleFit(t.value, opts.kfold, coll);
      var draws := DrawSeries(t.value, opts, coll, rng, o, i, opts.draws);
      assert full.Ok? && draws.Ok? ==>
               FitSpec(data, y, x, composite, opts, spec, coll, rng, o, i)
                 == (if opts.draws == 0 then Err(NoDraws) else Ok(SpecFit(full.value, Unzip(draws.value).0, Unzip(draws.value).1)));
    }
  }

  /** Step i of the specification loop of outcome o. */
  function FitAt(data: Frame, y: seq<Name>, x: seq<Name>, composite: Option<seq<Cell>>, opts: FitOptions,
                 subsets: seq<seq<Name>>, coll: Collaborators, rng: Rng, o: nat): nat -> Result<SpecFit>
    requires WellFormed(data)
    requires composite.Some? ==> |composite.value| == |data.rows|
  {
    (i: nat) => if i < |subsets| then FitSpec(data, y, x, composite, opts, subsets[i], coll, rng, o, i) else Err(NoColumns)
  }

  /** The fits of the enumerated specifications of outcome o, in order, or
      an error when one of them fails. */
  function SpecFits(data: Frame, y: seq<Name>, x: seq<Name>, composite: Option<seq<Cell>>, opts: FitOptions,
                    subsets: seq<seq<Name>>, coll: Collaborators, rng: Rng, o: nat): (r: Result<seq<SpecFit>>)
    requires WellFormed(data)
    requires composite.Some? ==> |composite.value| == |data.rows|
    ensures r.Ok? ==> |r.value| == |subsets|
  {
    AllOkLength(|subsets|, FitAt(data, y, x, composite, opts, subsets, coll, rng, o));
    AllOk(|subsets|, FitAt(data, y, x, composite, opts, subsets, coll, rng, o))
  }

  /** The specification loop succeeds exactly when every specification
      does, and then holds their fits in enumeration order. */
  lemma SpecFitsMeaning(data: Frame, y: seq<Name>, x: seq<Name>, composite: Option<seq<Cell>>, opts: FitOptions,
                        subsets: seq<seq<Name>>, coll: Collaborators, rng: Rng, o: nat)
    requires WellFormed(data)
    requires composite.Some? ==> |composite.value| == |data.rows|
    ensures var r := SpecFits(data, y, x, composite, opts, subsets, coll, rng, o);
            && (r.Ok? ==> forall i :: 0 <= i < |subsets| ==>
                  FitSpec(data, y, x, composite, opts, subsets[i], coll, rng, o, i) == Ok(r.value[i]))
            && (r.Err? <==>
                  exists i :: 0 <= i < |subsets| &&
                    FitSpec(data, y, x, composite, opts, subsets[i], coll, rng, o, i).Err?)
  {
    var step := FitAt(data, y, x, composite, opts, subsets, coll, rng, o);
    AllOkMeaning(|subsets|, step);
    assert forall i :: 0 <= i < |subsets| ==> step(i) == FitSpec(data, y, x, composite, opts, subsets[i], coll, rng, o, i);
  }

  /** The draws of one specification: step(d) is draw d (one _strap_OLS
      call), and the parallel fan-out is taken in draw order. */
  method RunDraws(n: nat, step: nat -> Result<(real, real)>) returns (r: Result<seq<(real, real)>>)
    ensures r == AllOk(n, step)
  {
    var pairs: seq<(real, real)> := [];
    var d := 0;
    while d < n
      invariant d <= n
      invariant AllOk(d, step) == Ok(pairs)
    {
      var s := step(d);
      if s.Err? {
        AllOkFirstError(d + 1, n, step);
        return Err(s.error);
      }
      pairs := pairs + [s.value];
      d := d + 1;
    }
    return Ok(pairs);
  }

  /** One pass of the specification loop: build the table, fit it on the
      full sample, then run the draws. */
  method FitOneSpec(data: Frame, y: seq<Name>, x: seq<Name>, composite: Option<seq<Cell>>, opts: FitOptions,
                    spec: seq<Name>, coll: Collaborators, rng: Rng, o: nat, i: nat) returns (r: Result<SpecFit>)
    requires WellFormed(data)
    requires composite.Some? ==> |composite.value| == |data.rows|
    ensures r == FitSpec(data, y, x, composite, opts, spec, coll, rng, o, i)
  {
    var t :- SpecTable(data, y, x, composite, opts.group, spec, coll);
    if |t.names| == 0 {
      return Err(NoColumns);
    }
    var full :- FullSampleOls(t, opts.kfold, coll);
    var draws :- RunDraws(opts.draws, DrawAt(t, opts, coll, rng, o, i));
    if opts.draws == 0 {
      return Err(NoDraws);
    }
    var (bs, ps) := Unzip(draws);
    return Ok(SpecFit(full, bs, ps));
  }

  /** Rows 0 .. |fits|-1 of the arrays hold the fits, in order. */
  predicate Written(fits: seq<SpecFit>, b: array2<real>, p: array2<real>, ll: array<real>, aic: array<real>,
                    bic: array<real>, hqic: array<real>, avK: array<Option<real>>)
    reads b, p, ll, aic, bic, hqic, avK
  {
    && |fits| <= b.Length0 && |fits| <= p.Length0 && |fits| <= ll.Length && |fits| <= aic.Length
    && |fits| <= bic.Length && |fits| <= hqic.Length && |fits| <= avK.Length
    && (forall k :: 0 <= k < |fits| ==> |fits[k].b| == b.Length1 && |fits[k].p| == p.Length1)
    && (forall k, d :: 0 <= k < |fits| && 0 <= d < b.Length1 ==> b[k, d] == fits[k].b[d])
    && (forall k, d :: 0 <= k < |fits| && 0 <= d < p.Length1 ==> p[k, d] == fits[k].p[d])
    && forall k :: 0 <= k < |fits| ==>
         && ll[k] == fits[k].full.ll && aic[k] == fits[k].full.aic && bic[k] == fits[k].full.bic
         && hqic[k] == fits[k].full.hqic && avK[k] == fits[k].full.avK
  }

  /** b_array[index, :] = b_list, p_array[index, :] = p_list and the
      information criteria at index, for index == |fits|: the rows already
      written keep their values. */
  method StoreFit(row: SpecFit, i: nat, ghost fits: seq<SpecFit>, b: array2<real>, p: array2<real>, ll: array<real>,
                  aic: array<real>, bic: array<real>, hqic: array<real>, avK: array<Option<real>>)
    requires Written(fits, b, p, ll, aic, bic, hqic, avK) && i == |fits|
    requires |fits| < b.Length0 && |fits| < p.Length0 && |fits| < ll.Length && |fits| < aic.Length
    requires |fits| < bic.Length && |fits| < hqic.Length && |fits| < avK.Length
    requires |row.b| == b.Length1 && |row.p| == p.Length1
    requires b != p && ll != aic && ll != bic && ll != hqic && aic != bic && aic != hqic && bic != hqic
    modifies b, p, ll, aic, bic, hqic, avK
    ensures Written(fits + [row], b, p, ll, aic, bic, hqic, avK)
  {
    forall d | 0 <= d < b.Length1 {
      b[i, d] := row.b[d];
    }
    forall d | 0 <= d < p.Length1 {
      p[i, d] := row.p[d];
    }
    ll[i] := row.full.ll;
    aic[i] := row.full.aic;
    bic[i] := row.full.bic;
    hqic[i] := row.full.hqic;
    avK[i] := row.full.avK;
  }

  /** One pass of the specification loop for the i-th enumerated
      specification: fit it and, when it succeeds, write row i. */
  method FillRow(data: Frame, y: seq<Name>, x: seq<Name>, composite: Option<seq<Cell>>, opts: FitOptions,
                 subsets: seq<seq<Name>>, coll: Collaborators, rng: Rng, o: nat, i: nat, ghost fits: seq<SpecFit>,
                 b: array2<real>, p: array2<real>, ll: array<real>, aic: array<real>,
                 bic: array<real>, hqic: array<real>, avK: array<Option<real>>)
    returns (fit: Result<SpecFit>)
    requires WellFormed(data)
    requires composite.Some? ==> |composite.value| == |data.rows|
    requires i < |subsets| && i == |fits| && Written(fits, b, p, ll, aic, bic, hqic, avK)
    requires |subsets| <= b.Length0 && |subsets| <= p.Length0 && |subsets| <= ll.Length && |subsets| <= aic.Length
    requires |subsets| <= bic.Length && |subsets| <= hqic.Length && |subsets| <= avK.Length
    requires b.Length1 == opts.draws && p.Length1 == opts.draws
    requires b != p && ll != aic && ll != bic && ll != hqic && aic != bic && aic != hqic && bic != hqic
    modifies b, p, ll, aic, bic, hqic, avK
    ensures fit == FitAt(data, y, x, composite, opts, subsets, coll, rng, o)(i)
    ensures fit.Ok? ==> Written(fits + [fit.value], b, p, ll, aic, bic, hqic, avK)
  {
    fit := FitOneSpec(data, y, x, composite, opts, subsets[i], coll, rng, o, i);
    if fit.Ok? {
      StoreFit(fit.value, i, fits, b, p, ll, aic, bic, hqic, avK);
    }
  }

  /** The specification loop of one outcome: writes row i of the arrays
      for the i-th enumerated specification, and stops at the first
      specification that fails. */
  method FillRows(data: Frame, y: seq<Name>, x: seq<Name>, composite: Option<seq<Cell>>, opts: FitOptions,
                  subsets: seq<seq<Name>>, coll: Collaborators, rng: Rng, o: nat,
                  b: array2<real>, p: array2<real>, ll: array<real>, aic: array<real>,
                  bic: array<real>, hqic: array<real>, avK: array<Option<real>>)
    returns (r: Result<seq<SpecFit>>)
    requires WellFormed(data)
    requires composite.Some? ==> |composite.value| == |data.rows|
    requires |subsets| <= b.Length0 && |subsets| <= p.Length0 && |subsets| <= ll.Length && |subsets| <= aic.Length
    requires |subsets| <= bic.Length && |subsets| <= hqic.Length && |subsets| <= avK.Length
    requires b.Length1 == opts.draws && p.Length1 == opts.draws
    requires b != p && ll != aic && ll != bic && ll != hqic && aic != bic && aic != hqic && bic != hqic
    modifies b, p, ll, aic, bic, hqic, avK
    ensures r == AllOk(|subsets|, FitAt(data, y, x, composite, opts, subsets, coll, rng, o))
    ensures r.Ok? ==> Written(r.value, b, p, ll, aic, bic, hqic, avK)
  {
    ghost var step := FitAt(data, y, x, composite, opts, subsets, coll, rng, o);
    var fits: seq<SpecFit> := [];
    var i := 0;
    while i < |subsets|
      invariant i <= |subsets| && i == |fits|
      invariant AllOk(i, step) == Ok(fits)
      invariant Written(fits, b, p, ll, aic, bic, hqic, avK)
    {
      var fit := FillRow(data, y, x, composite, opts, subsets, coll, rng, o, i, fits, b, p, ll, aic, bic, hqic, avK);
      if fit.Err? {
        AllOkFirstError(i + 1, |subsets|, step);
        return Err(fit.error);
      }
      fits := fits + [fit.value];
      i := i + 1;
    }
    return Ok(fits);
  }

  /** One outcome's pass of fit: preallocates the space_n x draws arrays
      (np.empty) and fills them.  Rows past the enumerated specifications are
      never written and stay unspecified. */
  method SpecLoop(data: Frame, y: seq<Name>, x: seq<Name>, composite: Option<seq<Cell>>, opts: FitOptions,
                  subsets: seq<seq<Name>>, spaceN: nat, coll: Collaborators, rng: Rng, o: nat)
    returns (r: Result<seq<SpecFit>>, b: array2<real>, p: array2<real>, ll: array<real>, aic: array<real>,
             bic: array<real>, hqic: array<real>, avK: array<Option<real>>)
    requires WellFormed(data)
    requires composite.Some? ==> |composite.value| == |data.rows|
    requires |subsets| <= spaceN
    ensures r == SpecFits(data, y, x, composite, opts, subsets, coll, rng, o)
    ensures fresh(b) && fresh(p) && fresh(ll) && fresh(aic) && fresh(bic) && fresh(hqic) && fresh(avK)
    ensures b.Length0 == spaceN && p.Length0 == spaceN && b.Length1 == opts.draws && p.Length1 == opts.draws
    ensures ll.Length == spaceN && aic.Length == spaceN && bic.Length == spaceN && hqic.Length == spaceN
    ensures avK.Length == spaceN
    ensures r.Ok? ==> Written(r.value, b, p, ll, aic, bic, hqic, avK)
  {
    b := new real[spaceN, opts.draws];
    p := new real[spaceN, opts.draws];
    ll := new real[spaceN];
    aic := new real[spaceN];
    bic := new real[spaceN];
    hqic := new real[spaceN];
    avK := new Option<real>[spaceN];
    r := FillRows(data, y, x, composite, opts, subsets, coll, rng, o, b, p, ll, aic, bic, hqic, avK);
  }
}
