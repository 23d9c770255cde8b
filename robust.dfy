/** OLSRobust and OLSResult: the composite outcomes of multiple_y, the two
    paths of fit that run the specification loop once per outcome, and the
    result object whose summary and model averaging are computed from what
    fit stored. */
module Robust {
  import opened Common
  import opened Frames
  import opened Collaborators
  import opened Summary
  import opened Bma
  import opened Specs

  function Min(a: nat, b: nat): nat
  {
    if a <= b then a else b
  }

  /** zip(all_subsets(names), range(space_size(names))): the enumerated
      subsets, cut off at space_size. */
  function Enumerated(coll: Collaborators, names: seq<Name>): seq<seq<Name>>
  {
    var all := coll.allSubsets(names);
    all[..Min(|all|, coll.spaceSize(names))]
  }

  /** frozenset(spec). */
  function Members(spec: seq<Name>): set<Name>
  {
    set c | c in spec
  }

  /** The outcome subsets multiple_y keeps: those naming more than one
      outcome, in enumeration order. */
  function LongSpecs(specs: seq<seq<Name>>): (kept: seq<seq<Name>>)
    ensures |kept| <= |specs|
  {
    if specs == [] then []
    else
      var last := |specs| - 1;
      var kept := LongSpecs(specs[..last]) + (if |specs[last]| > 1 then [specs[last]] else []);
      assert specs == specs[..last] + [specs[last]];
      kept
  }

  /** multiple_y keeps exactly the enumerated subsets naming more than one
      outcome. */
  lemma {:induction false} LongSpecsMembers(specs: seq<seq<Name>>)
    ensures forall s :: s in LongSpecs(specs) <==> s in specs && |s| > 1
  {
    if specs != [] {
      var last := |specs| - 1;
      LongSpecsMembers(specs[..last]);
      assert specs == specs[..last] + [specs[last]];
    }
  }

  /** Filtering keeps the order: the kept subsets of a concatenation are
      those of the first part followed by those of the second. */
  lemma {:induction false} LongSpecsAppend(a: seq<seq<Name>>, b: seq<seq<Name>>)
    ensures LongSpecs(a + b) == LongSpecs(a) + LongSpecs(b)
  {
    if b != [] {
      var last := |b| - 1;
      assert (a + b)[..|a + b| - 1] == a + b[..last];
      LongSpecsAppend(a, b[..last]);
    } else {
      assert a + b == a;
    }
  }

  /** One more enumerated subset extends the kept prefix by at most that
      subset, and every kept prefix is a prefix of the whole kept list. */
  lemma LongSpecsNext(subsets: seq<seq<Name>>, k: nat)
    requires k < |subsets|
    ensures LongSpecs(subsets[..k + 1]) == LongSpecs(subsets[..k]) + (if |subsets[k]| > 1 then [subsets[k]] else [])
    ensures LongSpecs(subsets[..k]) <= LongSpecs(subsets)
    ensures |subsets[k]| > 1 ==>
              var n := |LongSpecs(subsets[..k])|;
              n < |LongSpecs(subsets)| && LongSpecs(subsets)[n] == subsets[k]
  {
    assert subsets[..k + 1][..k] == subsets[..k];
    assert subsets == subsets[..k + 1] + subsets[k + 1..];
    LongSpecsAppend(subsets[..k + 1], subsets[k + 1..]);
  }

  /** Step k of the composite loop: the z-scored mean of the k-th kept
      outcome subset, or the KeyError of a subset naming a missing
      column. */
  function CompositeAt(data: Frame, specs: seq<seq<Name>>, coll: Collaborators): nat -> Result<seq<Cell>>
    requires WellFormed(data)
  {
    (k: nat) =>
      if k < |specs| then
        match Select(data, specs[k])
        case Ok(sub) => Ok(coll.composite(sub))
        case Err(e) => Err(e)
      else Ok([])
  }

  /** One step of the composite loop fails exactly when its subset names a
      missing column, and then with that KeyError. */
  lemma CompositeStep(data: Frame, specs: seq<seq<Name>>, coll: Collaborators, k: nat)
    requires WellFormed(data) && k < |specs|
    ensures var s := CompositeAt(data, specs, coll)(k);
            && (s.Ok? ==> Select(data, specs[k]).Ok? && s.value == coll.composite(Select(data, specs[k]).value))
            && (s.Err? <==> exists c :: c in specs[k] && c !in data.names)
            && (s.Err? ==> s.error.MissingColumn?)
  {
    var sel := Select(data, specs[k]);
    assert CompositeAt(data, specs, coll)(k) == if sel.Ok? then Ok(coll.composite(sel.value)) else Err(sel.error);
  }

  /** The composite outcomes of the kept subsets: one value per row each,
      or the error of the first subset naming a column that is not in the
      data. */
  function Composites(data: Frame, specs: seq<seq<Name>>, coll: Collaborators): (r: Result<seq<seq<Cell>>>)
    requires WellFormed(data)
    ensures r.Ok? ==> |r.value| == |specs|
    ensures r.Ok? ==> forall k :: 0 <= k < |specs| ==>
              && Select(data, specs[k]).Ok?
              && r.value[k] == coll.composite(Select(data, specs[k]).value)
              && |r.value[k]| == |data.rows|
    ensures r.Err? <==> (exists k, c :: 0 <= k < |specs| && c in specs[k] && c !in data.names)
    ensures r.Err? ==> r.error.MissingColumn?
  {
    var step := CompositeAt(data, specs, coll);
    var r := AllOk(|specs|, step);
    AllOkMeaning(|specs|, step);
    assert forall k :: 0 <= k < |specs| ==>
             && (step(k).Ok? ==> Select(data, specs[k]).Ok? && step(k).value == coll.composite(Select(data, specs[k]).value))
             && (step(k).Err? <==> exists c :: c in specs[k] && c !in data.names) by {
      forall k | 0 <= k < |specs|
        ensures && (step(k).Ok? ==> Select(data, specs[k]).Ok? && step(k).value == coll.composite(Select(data, specs[k]).value))
                && (step(k).Err? <==> exists c :: c in specs[k] && c !in data.names)
      {
        CompositeStep(data, specs, coll, k);
      }
    }
    assert r.Err? ==> r.error.MissingColumn? by {
      if r.Err? {
        AllOkFirstFailure(|specs|, step);
        var k :| 0 <= k < |specs| && AllOk(k, step).Ok? && step(k) == Err(r.error);
        CompositeStep(data, specs, coll, k);
      }
    }
    r
  }

  /** y_name: the single outcome's name, or one outcome subset per row. */
  datatype OutcomeName = OneOutcome(name: Name) | OutcomePerRow(names: seq<seq<Name>>)

  /** all_predictors: one list per specification, or one such list of lists
      per composite outcome. */
  datatype Predictors = PredictorsOf(lists: seq<seq<Name>>) | PredictorsPerOutcome(perOutcome: seq<seq<seq<Name>>>)

  /** The fields of an OLSResult.  avK holds None where av_k_metric is NaN. */
  datatype OLSResult = OLSResult(
    yName: OutcomeName,
    specsNames: seq<set<Name>>,
    allPredictors: Predictors,
    controls: seq<Name>,
    draws: nat,
    allB: StoredCoefficients,
    allP: StoredCoefficients,
    estimates: seq<seq<real>>,
    pValues: seq<seq<real>>,
    ll: seq<real>,
    aic: seq<real>,
    bic: seq<real>,
    hqic: seq<real>,
    avK: seq<Option<real>>)
  {
    /** summary_df's statistics columns: _compute_summary over the
        estimates, one row per specification row. */
    function SummaryTable(): seq<RowStats>
    {
      ComputeSummary(estimates)
    }

    /** compute_bma, with the weights taken from summary_df.bic. */
    function BmaSummary(exp: Exp): Result<seq<BmaRow>>
    {
      var predictors := if allPredictors.PredictorsOf? then allPredictors.lists else [];
      BmaTable(bic, specsNames, allB, predictors, controls, exp)
    }
  }

  /** The predictor names of a specification: x, its controls, then the
      intercept. */
  function PredictorNames(x: seq<Name>, spec: seq<Name>): seq<Name>
  {
    x + spec + ["const"]
  }

  /** What the single-outcome path of fit stores: per enumerated
      specification i, its name set, predictors, full-sample coefficients,
      its row of draws and its information criteria, with space_n rows of
      draws in all. */
  predicate SingleOutcomeResult(res: OLSResult, outcome: Name, x: seq<Name>, controls: seq<Name>, draws: nat,
                                subsets: seq<seq<Name>>, spaceN: nat, fits: seq<SpecFit>)
  {
    && |fits| == |subsets| <= spaceN
    && res.yName == OneOutcome(outcome) && res.controls == controls && res.draws == draws
    && |res.specsNames| == |subsets| && res.allPredictors.PredictorsOf? && |res.allPredictors.lists| == |subsets|
    && res.allB.PerSpecification? && |res.allB.bs| == |fits| && res.allP.PerSpecification? && |res.allP.bs| == |fits|
    && (forall i :: 0 <= i < |subsets| ==>
          && res.specsNames[i] == Members(subsets[i])
          && res.allPredictors.lists[i] == PredictorNames(x, subsets[i])
          && res.allB.bs[i] == fits[i].full.b && res.allP.bs[i] == fits[i].full.p)
    && |res.estimates| == spaceN && |res.pValues| == spaceN
    && (forall i :: 0 <= i < spaceN ==> |res.estimates[i]| == draws && |res.pValues[i]| == draws)
    && |res.ll| == spaceN && |res.aic| == spaceN && |res.bic| == spaceN && |res.hqic| == spaceN && |res.avK| == spaceN
    && forall i :: 0 <= i < |fits| ==>
         && res.estimates[i] == fits[i].b && res.pValues[i] == fits[i].p
         && res.ll[i] == fits[i].full.ll && res.aic[i] == fits[i].full.aic && res.bic[i] == fits[i].full.bic
         && res.hqic[i] == fits[i].full.hqic && res.avK[i] == fits[i].full.avK
  }

  /** pd.DataFrame(array): the rows of a two-dimensional array. */
  function RowsOf(a: array2<real>): (rows: seq<seq<real>>)
    reads a
    ensures |rows| == a.Length0
    ensures forall i :: 0 <= i < a.Length0 ==> |rows[i]| == a.Length1
    ensures forall i, d :: 0 <= i < a.Length0 && 0 <= d < a.Length1 ==> rows[i][d] == a[i, d]
  {
    seq(a.Length0, i requires 0 <= i < a.Length0 reads a =>
      seq(a.Length1, d requires 0 <= d < a.Length1 reads a => a[i, d]))
  }

  /** The OLSResult of the single-outcome path, from the filled arrays. */
  method SingleResult(outcome: Name, x: seq<Name>, controls: seq<Name>, draws: nat, subsets: seq<seq<Name>>,
                      fits: seq<SpecFit>, b: array2<real>, p: array2<real>, ll: array<real>, aic: array<real>,
                      bic: array<real>, hqic: array<real>, avK: array<Option<real>>) returns (res: OLSResult)
    requires |fits| == |subsets| && Written(fits, b, p, ll, aic, bic, hqic, avK)
    requires b.Length1 == draws && p.Length1 == draws
    requires p.Length0 == b.Length0 && ll.Length == b.Length0 && aic.Length == b.Length0
    requires bic.Length == b.Length0 && hqic.Length == b.Length0 && avK.Length == b.Length0
    ensures SingleOutcomeResult(res, outcome, x, controls, draws, subsets, b.Length0, fits)
  {
    var specs := seq(|subsets|, i requires 0 <= i < |subsets| => Members(subsets[i]));
    var predictors := seq(|subsets|, i requires 0 <= i < |subsets| => PredictorNames(x, subsets[i]));
    var bAll := seq(|fits|, i requires 0 <= i < |fits| => fits[i].full.b);
    var pAll := seq(|fits|, i requires 0 <= i < |fits| => fits[i].full.p);
    var estimates := RowsOf(b);
    var pValues := RowsOf(p);
    assert forall i :: 0 <= i < |fits| ==> estimates[i] == fits[i].b && pValues[i] == fits[i].p;
    res := OLSResult(OneOutcome(outcome), specs, PredictorsOf(predictors), controls, draws,
                     PerSpecification(bAll), PerSpecification(pAll), estimates, pValues,
                     ll[..], aic[..], bic[..], hqic[..], avK[..]);
  }

  /** fit with a single outcome: one pass of the specification loop, then
      the result object; y[0] fails on an empty list of outcomes. */
  method FitSingleOutcome(data: Frame, y: seq<Name>, x: seq<Name>, controls: seq<Name>, opts: FitOptions,
                          coll: Collaborators, rng: Rng) returns (r: Result<OLSResult>)
    requires WellFormed(data)
    ensures var subsets := Enumerated(coll, controls);
            var fits := SpecFits(data, y, x, None, opts, subsets, coll, rng, 0);
            && (r.Ok? <==> fits.Ok? && |y| > 0)
            && (fits.Err? ==> r == Err(fits.error))
            && (fits.Ok? && |y| == 0 ==> r == Err(NoOutcome))
            && (r.Ok? ==> SingleOutcomeResult(r.value, y[0], x, controls, opts.draws, subsets,
                                              coll.spaceSize(controls), fits.value))
  {
    var subsets := Enumerated(coll, controls);
    var spaceN := coll.spaceSize(controls);
    var fitsR, b, p, ll, aic, bic, hqic, avK := SpecLoop(data, y, x, None, opts, subsets, spaceN, coll, rng, 0);
    if fitsR.Err? {
      return Err(fitsR.error);
    }
    if |y| == 0 {
      return Err(NoOutcome);
    }
    var res := SingleResult(y[0], x, controls, opts.draws, subsets, fitsR.value, b, p, ll, aic, bic, hqic, avK);
    return Ok(res);
  }

  /** Step o of the outcome loop: the specification loop run with the o-th
      composite outcome. */
  function OutcomeAt(data: Frame, y: seq<Name>, x: seq<Name>, opts: FitOptions, subsets: seq<seq<Name>>,
                     composites: seq<seq<Cell>>, coll: Collaborators, rng: Rng): nat -> Result<seq<SpecFit>>
    requires WellFormed(data)
    requires forall o :: 0 <= o < |composites| ==> |composites[o]| == |data.rows|
  {
    (o: nat) => if o < |composites| then SpecFits(data, y, x, Some(composites[o]), opts, subsets, coll, rng, o) else Ok([])
  }

  /** The fits of every composite outcome, or the first failure. */
  function OutcomeFits(data: Frame, y: seq<Name>, x: seq<Name>, opts: FitOptions, subsets: seq<seq<Name>>,
                       composites: seq<seq<Cell>>, coll: Collaborators, rng: Rng): (r: Result<seq<seq<SpecFit>>>)
    requires WellFormed(data)
    requires forall o :: 0 <= o < |composites| ==> |composites[o]| == |data.rows|
    ensures r.Ok? ==> |r.value| == |composites|
  {
    var step := OutcomeAt(data, y, x, opts, subsets, composites, coll, rng);
    AllOkLength(|composites|, step);
    AllOk(|composites|, step)
  }

  /** The outcome loop succeeds exactly when every composite outcome's
      specification loop does, and then holds their fits in order. */
  lemma OutcomeFitsMeaning(data: Frame, y: seq<Name>, x: seq<Name>, opts: FitOptions, subsets: seq<seq<Name>>,
                           composites: seq<seq<Cell>>, coll: Collaborators, rng: Rng)
    requires WellFormed(data)
    requires forall o :: 0 <= o < |composites| ==> |composites[o]| == |data.rows|
    ensures var r := OutcomeFits(data, y, x, opts, subsets, composites, coll, rng);
            && (r.Ok? ==> forall o :: 0 <= o < |composites| ==>
                  SpecFits(data, y, x, Some(composites[o]), opts, subsets, coll, rng, o) == Ok(r.value[o]))
            && (r.Err? <==>
                  exists o :: 0 <= o < |composites| &&
                    SpecFits(data, y, x, Some(composites[o]), opts, subsets, coll, rng, o).Err?)
  {
    var step := OutcomeAt(data, y, x, opts, subsets, composites, coll, rng);
    AllOkMeaning(|composites|, step);
    assert forall o :: 0 <= o < |composites| ==>
             step(o) == SpecFits(data, y, x, Some(composites[o]), opts, subsets, coll, rng, o);
  }

  /** What the multi-outcome path of fit stores, with m enumerated
      specifications per outcome: row Flat(o, i, m) of the labels belongs to
      outcome subset o and specification i, row Flat(o, i, space_n) of the
      stacked arrays holds their estimates, and all_b / all_p are the
      full-sample estimates of the last specification fitted. */
  predicate MultiOutcomeResult(res: OLSResult, x: seq<Name>, controls: seq<Name>, draws: nat,
                               ySpecs: seq<seq<Name>>, subsets: seq<seq<Name>>, spaceN: nat,
                               fits: seq<seq<SpecFit>>)
  {
    && 0 < |ySpecs| && 0 < |subsets| <= spaceN && |fits| == |ySpecs|
    && (forall o :: 0 <= o < |ySpecs| ==> |fits[o]| == |subsets|)
    && res.controls == controls && res.draws == draws
    && res.allB == LastSpecification(fits[|ySpecs| - 1][|subsets| - 1].full.b)
    && res.allP == LastSpecification(fits[|ySpecs| - 1][|subsets| - 1].full.p)
    && res.yName.OutcomePerRow? && res.allPredictors.PredictorsPerOutcome?
    && StackedLabels(res.yName.names, res.specsNames, res.allPredictors.perOutcome, x, ySpecs, subsets)
    && StackedDraws(res.estimates, res.pValues, draws, |ySpecs|, spaceN, fits)
    && StackedCriteria(res.ll, res.aic, res.bic, res.hqic, res.avK, |ySpecs|, spaceN, fits)
  }

  /** y_names, specs and all_predictors of the multi-outcome path. */
  predicate StackedLabels(yNames: seq<seq<Name>>, specs: seq<set<Name>>, predictors: seq<seq<seq<Name>>>,
                          x: seq<Name>, ySpecs: seq<seq<Name>>, subsets: seq<seq<Name>>)
  {
    var n := |ySpecs|;
    var m := |subsets|;
    && |yNames| == n * m && |specs| == n * m
    && (forall o, i :: 0 <= o < n && 0 <= i < m ==>
          && Flat(o, i, m) < n * m
          && yNames[Flat(o, i, m)] == ySpecs[o]
          && specs[Flat(o, i, m)] == Members(ySpecs[o] + subsets[i]))
    && |predictors| == n
    && (forall o :: 0 <= o < n ==> |predictors[o]| == m)
    && (forall o, i :: 0 <= o < n && 0 <= i < m ==> predictors[o][i] == PredictorNames(x, subsets[i]))
  }

  /** The stacked estimates and p-values: space_n rows per outcome, row i of
      outcome o holding specification i's draws. */
  predicate StackedDraws(estimates: seq<seq<real>>, pValues: seq<seq<real>>, draws: nat, n: nat, spaceN: nat,
                         fits: seq<seq<SpecFit>>)
  {
    && |fits| == n
    && |estimates| == n * spaceN && |pValues| == n * spaceN
    && (forall j :: 0 <= j < n * spaceN ==> |estimates[j]| == draws && |pValues[j]| == draws)
    && forall o, i :: 0 <= o < n && 0 <= i < |fits[o]| && i < spaceN ==>
         && Flat(o, i, spaceN) < n * spaceN
         && estimates[Flat(o, i, spaceN)] == fits[o][i].b
         && pValues[Flat(o, i, spaceN)] == fits[o][i].p
  }

  /** The stacked information criteria, laid out like the estimates. */
  predicate StackedCriteria(ll: seq<real>, aic: seq<real>, bic: seq<real>, hqic: seq<real>, avK: seq<Option<real>>,
                            n: nat, spaceN: nat, fits: seq<seq<SpecFit>>)
  {
    && |fits| == n
    && |ll| == n * spaceN && |aic| == n * spaceN && |bic| == n * spaceN
    && |hqic| == n * spaceN && |avK| == n * spaceN
    && forall o, i :: 0 <= o < n && 0 <= i < |fits[o]| && i < spaceN ==>
         && Flat(o, i, spaceN) < n * spaceN
         && ll[Flat(o, i, spaceN)] == fits[o][i].full.ll
         && aic[Flat(o, i, spaceN)] == fits[o][i].full.aic
         && bic[Flat(o, i, spaceN)] == fits[o][i].full.bic
         && hqic[Flat(o, i, spaceN)] == fits[o][i].full.hqic
         && avK[Flat(o, i, spaceN)] == fits[o][i].full.avK
  }

  /** The lists the outcome loop appends to, one block per outcome, before
      they are stacked: y_names and specs (flat lists in the loop, here in
      per-outcome blocks), list_all_predictors, list_b_array, list_p_array
      and the lists of information criteria. */
  datatype Stacks = Stacks(yNames: seq<seq<seq<Name>>>, specs: seq<seq<set<Name>>>,
                           predictors: seq<seq<seq<Name>>>, b: seq<seq<seq<real>>>, p: seq<seq<seq<real>>>,
                           ll: seq<seq<real>>, aic: seq<seq<real>>, bic: seq<seq<real>>, hqic: seq<seq<real>>,
                           avK: seq<seq<Option<real>>>)

  /** Block o of every list holds the specifications of outcome subset
      ySpec, in enumeration order, with their fits. */
  predicate BlockHolds(st: Stacks, o: nat, x: seq<Name>, draws: nat, ySpec: seq<Name>, subsets: seq<seq<Name>>,
                       spaceN: nat, fits: seq<SpecFit>)
  {
    var m := |subsets|;
    && m <= spaceN
    && o < |st.yNames| && o < |st.specs| && o < |st.predictors| && o < |st.b| && o < |st.p|
    && o < |st.ll| && o < |st.aic| && o < |st.bic| && o < |st.hqic| && o < |st.avK|
    && |fits| == m && |st.yNames[o]| == m && |st.specs[o]| == m && |st.predictors[o]| == m
    && |st.b[o]| == spaceN && |st.p[o]| == spaceN
    && (forall j :: 0 <= j < spaceN ==> |st.b[o][j]| == draws && |st.p[o][j]| == draws)
    && |st.ll[o]| == spaceN && |st.aic[o]| == spaceN && |st.bic[o]| == spaceN
    && |st.hqic[o]| == spaceN && |st.avK[o]| == spaceN
    && forall i :: 0 <= i < m ==>
         && st.yNames[o][i] == ySpec && st.specs[o][i] == Members(ySpec + subsets[i])
         && st.predictors[o][i] == PredictorNames(x, subsets[i])
         && st.b[o][i] == fits[i].b && st.p[o][i] == fits[i].p
         && st.ll[o][i] == fits[i].full.ll && st.aic[o][i] == fits[i].full.aic
         && st.bic[o][i] == fits[i].full.bic && st.hqic[o][i] == fits[i].full.hqic
         && st.avK[o][i] == fits[i].full.avK
  }

  /** The blocks of the outcomes fitted so far. */
  predicate StacksHold(st: Stacks, x: seq<Name>, draws: nat, ySpecs: seq<seq<Name>>, subsets: seq<seq<Name>>,
                       spaceN: nat, fits: seq<seq<SpecFit>>)
  {
    var n := |fits|;
    && n <= |ySpecs| && |subsets| <= spaceN
    && |st.yNames| == n && |st.specs| == n && |st.predictors| == n && |st.b| == n && |st.p| == n
    && |st.ll| == n && |st.aic| == n && |st.bic| == n && |st.hqic| == n && |st.avK| == n
    && forall o :: 0 <= o < n ==> BlockHolds(st, o, x, draws, ySpecs[o], subsets, spaceN, fits[o])
  }

  /** Appends outcome o's block to every list. */
  method PushOutcome(st: Stacks, ghost done: seq<seq<SpecFit>>, x: seq<Name>, draws: nat, ySpecs: seq<seq<Name>>,
                     subsets: seq<seq<Name>>, o: nat, fits: seq<SpecFit>,
                     b: array2<real>, p: array2<real>, ll: array<real>, aic: array<real>,
                     bic: array<real>, hqic: array<real>, avK: array<Option<real>>) returns (st': Stacks)
    requires StacksHold(st, x, draws, ySpecs, subsets, b.Length0, done) && o == |done| < |ySpecs|
    requires |fits| == |subsets| && Written(fits, b, p, ll, aic, bic, hqic, avK)
    requires b.Length1 == draws && p.Length1 == draws
    requires p.Length0 == b.Length0 && ll.Length == b.Length0 && aic.Length == b.Length0
    requires bic.Length == b.Length0 && hqic.Length == b.Length0 && avK.Length == b.Length0
    ensures StacksHold(st', x, draws, ySpecs, subsets, b.Length0, done + [fits])
  {
    var m := |subsets|;
    var names := seq(m, i requires 0 <= i < m => ySpecs[o]);
    var specs := seq(m, i requires 0 <= i < m => Members(ySpecs[o] + subsets[i]));
    var predictors := seq(m, i requires 0 <= i < m => PredictorNames(x, subsets[i]));
    var bRows := RowsOf(b);
    var pRows := RowsOf(p);
    assert forall i :: 0 <= i < m ==> bRows[i] == fits[i].b && pRows[i] == fits[i].p;
    st' := Stacks(st.yNames + [names], st.specs + [specs], st.predictors + [predictors],
                  st.b + [bRows], st.p + [pRows], st.ll + [ll[..]], st.aic + [aic[..]], st.bic + [bic[..]],
                  st.hqic + [hqic[..]], st.avK + [avK[..]]);
    forall k | 0 <= k < o
      ensures BlockHolds(st', k, x, draws, ySpecs[k], subsets, b.Length0, (done + [fits])[k])
    {
      assert BlockHolds(st, k, x, draws, ySpecs[k], subsets, b.Length0, done[k]);
      assert (done + [fits])[k] == done[k];
    }
    assert BlockHolds(st', o, x, draws, ySpecs[o], subsets, b.Length0, fits);
  }



  /** Every stacked row of draws has one value per draw. */
  lemma StackedRowWidths(blocks: seq<seq<seq<real>>>, width: nat, draws: nat)
    requires forall o :: 0 <= o < |blocks| ==> |blocks[o]| == width
    requires forall o, j :: 0 <= o < |blocks| && 0 <= j < width ==> |blocks[o][j]| == draws
    ensures forall j :: 0 <= j < |Concat(blocks)| ==> |Concat(blocks)[j]| == draws
  {
    forall j | 0 <= j < |Concat(blocks)|
      ensures |Concat(blocks)[j]| == draws
    {
      var row := Concat(blocks)[j];
      ConcatMember(blocks, row);
      var o :| 0 <= o < |blocks| && row in blocks[o];
      var k :| 0 <= k < |blocks[o]| && blocks[o][k] == row;
    }
  }

  lemma StacksLabels(st: Stacks, x: seq<Name>, draws: nat, ySpecs: seq<seq<Name>>, subsets: seq<seq<Name>>,
                     spaceN: nat, fits: seq<seq<SpecFit>>)
    requires StacksHold(st, x, draws, ySpecs, subsets, spaceN, fits) && |fits| == |ySpecs|
    ensures StackedLabels(Concat(st.yNames), Concat(st.specs), st.predictors, x, ySpecs, subsets)
  {
    forall o | 0 <= o < |fits|
      ensures |st.yNames[o]| == |subsets| && |st.specs[o]| == |subsets| && |st.predictors[o]| == |subsets|
      ensures forall i :: 0 <= i < |subsets| ==>
                && st.yNames[o][i] == ySpecs[o] && st.specs[o][i] == Members(ySpecs[o] + subsets[i])
                && st.predictors[o][i] == PredictorNames(x, subsets[i])
    {
      assert BlockHolds(st, o, x, draws, ySpecs[o], subsets, spaceN, fits[o]);
    }
    ConcatBlocks(st.yNames, |subsets|);
    ConcatBlocks(st.specs, |subsets|);
  }

  lemma StacksDraws(st: Stacks, x: seq<Name>, draws: nat, ySpecs: seq<seq<Name>>, subsets: seq<seq<Name>>,
                    spaceN: nat, fits: seq<seq<SpecFit>>)
    requires StacksHold(st, x, draws, ySpecs, subsets, spaceN, fits)
    ensures StackedDraws(Concat(st.b), Concat(st.p), draws, |fits|, spaceN, fits)
  {
    forall o | 0 <= o < |fits|
      ensures |st.b[o]| == spaceN && |st.p[o]| == spaceN
      ensures forall j :: 0 <= j < spaceN ==> |st.b[o][j]| == draws && |st.p[o][j]| == draws
      ensures forall i :: 0 <= i < |fits[o]| && i < spaceN ==> st.b[o][i] == fits[o][i].b && st.p[o][i] == fits[o][i].p
    {
      assert BlockHolds(st, o, x, draws, ySpecs[o], subsets, spaceN, fits[o]);
    }
    ConcatBlocks(st.b, spaceN);
    ConcatBlocks(st.p, spaceN);
    StackedRowWidths(st.b, spaceN, draws);
    StackedRowWidths(st.p, spaceN, draws);
  }

  lemma StacksCriteria(st: Stacks, x: seq<Name>, draws: nat, ySpecs: seq<seq<Name>>, subsets: seq<seq<Name>>,
                       spaceN: nat, fits: seq<seq<SpecFit>>)
    requires StacksHold(st, x, draws, ySpecs, subsets, spaceN, fits)
    ensures StackedCriteria(Concat(st.ll), Concat(st.aic), Concat(st.bic), Concat(st.hqic), Concat(st.avK),
                            |fits|, spaceN, fits)
  {
    forall o | 0 <= o < |fits|
      ensures |st.ll[o]| == spaceN && |st.aic[o]| == spaceN && |st.bic[o]| == spaceN
      ensures |st.hqic[o]| == spaceN && |st.avK[o]| == spaceN
      ensures forall i :: 0 <= i < |fits[o]| && i < spaceN ==>
                && st.ll[o][i] == fits[o][i].full.ll && st.aic[o][i] == fits[o][i].full.aic
                && st.bic[o][i] == fits[o][i].full.bic && st.hqic[o][i] == fits[o][i].full.hqic
                && st.avK[o][i] == fits[o][i].full.avK
    {
      assert BlockHolds(st, o, x, draws, ySpecs[o], subsets, spaceN, fits[o]);
    }
    ConcatBlocks(st.ll, spaceN);
    ConcatBlocks(st.aic, spaceN);
    ConcatBlocks(st.bic, spaceN);
    ConcatBlocks(st.hqic, spaceN);
    ConcatBlocks(st.avK, spaceN);
  }

  /** The OLSResult of the multi-outcome path: np.vstack of the arrays of
      draws, np.hstack of the information criteria, and the full-sample
      estimates of the last specification fitted. */
  method MultiResult(st: Stacks, x: seq<Name>, controls: seq<Name>, draws: nat, ySpecs: seq<seq<Name>>,
                     subsets: seq<seq<Name>>, spaceN: nat, ghost fits: seq<seq<SpecFit>>, last: SpecFit)
    returns (res: OLSResult)
    requires StacksHold(st, x, draws, ySpecs, subsets, spaceN, fits)
    requires |fits| == |ySpecs| > 0 && |subsets| > 0 && last == fits[|ySpecs| - 1][|subsets| - 1]
    ensures MultiOutcomeResult(res, x, controls, draws, ySpecs, subsets, spaceN, fits)
  {
    StacksLabels(st, x, draws, ySpecs, subsets, spaceN, fits);
    StacksDraws(st, x, draws, ySpecs, subsets, spaceN, fits);
    StacksCriteria(st, x, draws, ySpecs, subsets, spaceN, fits);
    res := OLSResult(OutcomePerRow(Concat(st.yNames)), Concat(st.specs), PredictorsPerOutcome(st.predictors),
                     controls, draws, LastSpecification(last.full.b), LastSpecification(last.full.p),
                     Concat(st.b), Concat(st.p), Concat(st.ll), Concat(st.aic), Concat(st.bic), Concat(st.hqic),
                     Concat(st.avK));
  }

  /** step fits composite outcome o as the outcome loop does. */
  predicate FitsOutcome(step: nat -> Result<seq<SpecFit>>, data: Frame, y: seq<Name>, x: seq<Name>, opts: FitOptions,
                        subsets: seq<seq<Name>>, composites: seq<seq<Cell>>, coll: Collaborators, rng: Rng, o: nat)
    requires WellFormed(data) && o < |composites| && |composites[o]| == |data.rows|
  {
    step(o) == SpecFits(data, y, x, Some(composites[o]), opts, subsets, coll, rng, o)
  }

  /** One pass of the outcome loop: the specification loop for composite
      outcome o and, when it succeeds, the appends of its block. */
  method PushNextOutcome(data: Frame, y: seq<Name>, x: seq<Name>, opts: FitOptions, subsets: seq<seq<Name>>,
                         spaceN: nat, ySpecs: seq<seq<Name>>, composites: seq<seq<Cell>>, coll: Collaborators,
                         rng: Rng, o: nat, st: Stacks, ghost done: seq<seq<SpecFit>>, ghost step: nat -> Result<seq<SpecFit>>)
    returns (fits: Result<seq<SpecFit>>, st': Stacks, last: Option<SpecFit>)
    requires WellFormed(data) && |ySpecs| == |composites| && |subsets| <= spaceN
    requires forall k :: 0 <= k < |composites| ==> |composites[k]| == |data.rows|
    requires o < |composites| && FitsOutcome(step, data, y, x, opts, subsets, composites, coll, rng, o)
    requires o == |done| < |composites| && StacksHold(st, x, opts.draws, ySpecs, subsets, spaceN, done)
    ensures fits == step(o)
    ensures fits.Ok? ==> StacksHold(st', x, opts.draws, ySpecs, subsets, spaceN, done + [fits.value])
    ensures fits.Ok? ==> last == LastFit(done + [fits.value], |subsets|)
  {
    var b, p, ll, aic, bic, hqic, avK;
    fits, b, p, ll, aic, bic, hqic, avK := SpecLoop(data, y, x, Some(composites[o]), opts, subsets, spaceN, coll, rng, o);
    st' := st;
    last := None;
    if fits.Ok? {
      st' := PushOutcome(st, done, x, opts.draws, ySpecs, subsets, o, fits.value, b, p, ll, aic, bic, hqic, avK);
      if |subsets| > 0 {
        last := Some(fits.value[|subsets| - 1]);
      }
    }
  }

  /** The last specification of the last outcome, if any was fitted. */
  function LastFit(done: seq<seq<SpecFit>>, m: nat): Option<SpecFit>
  {
    if |done| == 0 || m == 0 || |done[|done| - 1]| < m then None else Some(done[|done| - 1][m - 1])
  }

  /** The outcome loop of fit: for each composite outcome, the
      specification loop and the appends to the per-outcome lists; last is
      the last specification fitted. */
  method OutcomeLoop(data: Frame, y: seq<Name>, x: seq<Name>, opts: FitOptions, subsets: seq<seq<Name>>, spaceN: nat,
                     ySpecs: seq<seq<Name>>, composites: seq<seq<Cell>>, coll: Collaborators, rng: Rng, ghost step: nat -> Result<seq<SpecFit>>)
    returns (r: Result<Stacks>, last: Option<SpecFit>, ghost done: seq<seq<SpecFit>>)
    requires WellFormed(data) && |ySpecs| == |composites| && |subsets| <= spaceN
    requires forall o :: 0 <= o < |composites| ==> |composites[o]| == |data.rows|
    requires forall o :: 0 <= o < |composites| ==> FitsOutcome(step, data, y, x, opts, subsets, composites, coll, rng, o)
    ensures r.Err? ==> AllOk(|composites|, step) == Err(r.error)
    ensures r.Ok? ==> AllOk(|composites|, step) == Ok(done) && |done| == |composites|
    ensures r.Ok? ==> && StacksHold(r.value, x, opts.draws, ySpecs, subsets, spaceN, done)
                      && last == LastFit(done, |subsets|)
  {
    var st := Stacks([], [], [], [], [], [], [], [], [], []);
    done := [];
    last := None;
    var o := 0;
    while o < |composites|
      invariant o <= |composites| && |done| == o
      invariant AllOk(o, step) == Ok(done)
      invariant StacksHold(st, x, opts.draws, ySpecs, subsets, spaceN, done)
      invariant last == LastFit(done, |subsets|)
    {
      var fits;
      fits, st, last := PushNextOutcome(data, y, x, opts, subsets, spaceN, ySpecs, composites, coll, rng, o, st, done, step);
      if fits.Err? {
        AllOkFirstError(o + 1, |composites|, step);
        r := Err(fits.error);
        return;
      }
      done := done + [fits.value];
      o := o + 1;
    }
    r := Ok(st);
  }

  /** fit with several outcomes: the outcome loop, then the stacked result.
      b_all is only bound once some specification has been fitted, and the
      result's summary takes one outcome name per fitted specification, so
      fewer enumerated subsets than space_size rows leave the list of names
      shorter than the table (a ValueError). */
  method FitMultiOutcome(data: Frame, y: seq<Name>, x: seq<Name>, controls: seq<Name>, opts: FitOptions,
                         ySpecs: seq<seq<Name>>, composites: seq<seq<Cell>>, coll: Collaborators, rng: Rng)
    returns (r: Result<OLSResult>)
    requires WellFormed(data) && |ySpecs| == |composites|
    requires forall o :: 0 <= o < |composites| ==> |composites[o]| == |data.rows|
    ensures var subsets := Enumerated(coll, controls);
            var all := OutcomeFits(data, y, x, opts, subsets, composites, coll, rng);
            && (r.Ok? <==> all.Ok? && |composites| > 0 && |subsets| > 0 && |subsets| == coll.spaceSize(controls))
            && (all.Err? ==> r == Err(all.error))
            && (all.Ok? && (|composites| == 0 || |subsets| == 0) ==> r == Err(UnboundName))
            && (all.Ok? && |composites| > 0 && 0 < |subsets| < coll.spaceSize(controls) ==> r == Err(ShapeMismatch))
            && (r.Ok? ==> MultiOutcomeResult(r.value, x, controls, opts.draws, ySpecs, subsets,
                                             coll.spaceSize(controls), all.value))
  {
    var subsets := Enumerated(coll, controls);
    var spaceN := coll.spaceSize(controls);
    ghost var step := OutcomeAt(data, y, x, opts, subsets, composites, coll, rng);
    assert OutcomeFits(data, y, x, opts, subsets, composites, coll, rng) == AllOk(|composites|, step);
    var stacks, last, done := OutcomeLoop(data, y, x, opts, subsets, spaceN, ySpecs, composites, coll, rng, step);
    if stacks.Err? {
      r := Err(stacks.error);
    } else if last.None? {
      r := Err(UnboundName);
    } else if |subsets| < spaceN {
      r := Err(ShapeMismatch);
    } else {
      var res := MultiResult(stacks.value, x, controls, opts.draws, ySpecs, subsets, spaceN, done, last.value);
      r := Ok(res);
    }
  }

  /** fit's keyword arguments; sample_size defaults to the number of rows. */
  function Options(data: Frame, group: Option<Name>, draws: nat, sampleSize: Option<nat>, replace: bool,
                   kfold: Option<nat>, shuffle: bool): (opts: FitOptions)
    ensures sampleSize.None? ==> opts.sampleSize == |data.rows|
    ensures sampleSize.Some? ==> opts.sampleSize == sampleSize.value
    ensures opts.group == group && opts.draws == draws && opts.replace == replace
    ensures opts.kfold == kfold && opts.shuffle == shuffle
  {
    FitOptions(group, draws, if sampleSize.None? then |data.rows| else sampleSize.value, replace, kfold, shuffle)
  }

  /** The step the composite loop runs at position k of the kept subsets. */
  predicate ComposesAt(step: nat -> Result<seq<Cell>>, data: Frame, kept: seq<seq<Name>>, coll: Collaborators, k: nat)
    requires WellFormed(data)
  {
    step(k) == CompositeAt(data, kept, coll)(k)
  }

  /** The composite outcome of one kept subset: the z-scored row mean of
      its columns, or the KeyError of a column the data lacks. */
  method CompositeOf(data: Frame, spec: seq<Name>, coll: Collaborators,
                     ghost kept: seq<seq<Name>>, ghost n: nat, ghost step: nat -> Result<seq<Cell>>)
    returns (r: Result<seq<Cell>>)
    requires WellFormed(data) && n < |kept| && kept[n] == spec && ComposesAt(step, data, kept, coll, n)
    ensures r == step(n)
    ensures r.Ok? ==> |r.value| == |data.rows|
    ensures r.Err? <==> exists c :: c in spec && c !in data.names
  {
    CompositeStep(data, kept, coll, n);
    var sel := Select(data, spec);
    if sel.Err? {
      return Err(sel.error);
    }
    return Ok(coll.composite(sel.value));
  }

  /** The loop of multiple_y over the enumerated subsets: the kept subsets
      and their composites, as far as the loop gets, and the KeyError that
      stopped it, if any. */
  method CompositeLoop(data: Frame, subsets: seq<seq<Name>>, coll: Collaborators, ghost step: nat -> Result<seq<Cell>>)
    returns (specs: seq<seq<Name>>, comps: seq<seq<Cell>>, err: Option<Error>)
    requires WellFormed(data)
    requires forall k :: 0 <= k < |LongSpecs(subsets)| ==> ComposesAt(step, data, LongSpecs(subsets), coll, k)
    ensures |specs| == |comps| && forall k :: 0 <= k < |comps| ==> |comps[k]| == |data.rows|
    ensures var kept := LongSpecs(subsets);
            && (err.None? <==> AllOk(|kept|, step).Ok?)
            && (err.None? ==> specs == kept && AllOk(|kept|, step) == Ok(comps))
            && (err.Some? ==> AllOk(|kept|, step) == Err(err.value) && specs <= kept)
  {
    ghost var kept := LongSpecs(subsets);
    specs := [];
    comps := [];
    assert subsets[..0] == [];
    var k := 0;
    while k < |subsets|
      invariant k <= |subsets|
      invariant specs == LongSpecs(subsets[..k]) && AllOk(|specs|, step) == Ok(comps)
      invariant |specs| == |comps| && forall i :: 0 <= i < |comps| ==> |comps[i]| == |data.rows|
    {
      var spec := subsets[k];
      LongSpecsNext(subsets, k);
      if |spec| > 1 {
        var c := CompositeOf(data, spec, coll, kept, |specs|, step);
        if c.Err? {
          AllOkFirstError(|specs| + 1, |kept|, step);
          return specs, comps, Some(c.error);
        }
        assert AllOk(|specs| + 1, step) == Ok(comps + [c.value]);
        specs := specs + [spec];
        comps := comps + [c.value];
      }
      k := k + 1;
    }
    assert subsets[..k] == subsets;
    err := None;
  }

  /** The estimator: the outcome names y, the predictors x and the data,
      the composite outcomes multiple_y leaves behind, and the results of
      the last successful fit. */
  class OLSRobust {
    const y: seq<Name>
    const x: seq<Name>
    const data: Frame
    var results: Option<OLSResult>
    var ySpecs: seq<seq<Name>>
    var yComposites: seq<seq<Cell>>

    /** One composite per kept outcome subset, one value per row each. */
    predicate Valid()
      reads this
    {
      && WellFormed(data)
      && |ySpecs| == |yComposites|
      && forall k :: 0 <= k < |yComposites| ==> |yComposites[k]| == |data.rows|
    }

    constructor(y: seq<Name>, x: seq<Name>, data: Frame)
      requires WellFormed(data)
      ensures this.y == y && this.x == x && this.data == data
      ensures results.None? && ySpecs == [] && yComposites == []
      ensures Valid()
    {
      this.y := y;
      this.x := x;
      this.data := data;
      results := None;
      ySpecs := [];
      yComposites := [];
    }

    /** multiple_y: for every enumerated subset of the outcomes naming more
        than one of them, the subset and its composite outcome, in
        enumeration order; a subset naming a column the data lacks stops
        the loop with that KeyError, leaving what was appended so far. */
    method MultipleY(coll: Collaborators) returns (err: Option<Error>)
      requires Valid()
      modifies this
      ensures Valid() && results == old(results)
      ensures var kept := LongSpecs(Enumerated(coll, y));
              var all := Composites(data, kept, coll);
              && (err.None? <==> all.Ok?)
              && (all.Ok? ==> ySpecs == kept && yComposites == all.value)
              && (all.Err? ==> err == Some(all.error) && ySpecs <= kept)
    {
      var subsets := Enumerated(coll, y);
      ghost var kept := LongSpecs(subsets);
      var specs, comps, e := CompositeLoop(data, subsets, coll, CompositeAt(data, kept, coll));
      ySpecs := specs;
      yComposites := comps;
      err := e;
    }

    /** fit with one outcome: the specification loop over the control
        subsets; the results are replaced only when the loop succeeds. */
    method FitSingle(controls: seq<Name>, opts: FitOptions, coll: Collaborators, rng: Rng) returns (err: Option<Error>)
      requires Valid()
      modifies this
      ensures Valid() && ySpecs == old(ySpecs) && yComposites == old(yComposites)
      ensures var subsets := Enumerated(coll, controls);
              var fits := SpecFits(data, y, x, None, opts, subsets, coll, rng, 0);
              && (err.None? <==> fits.Ok? && |y| > 0)
              && (fits.Err? ==> err == Some(fits.error))
              && (fits.Ok? && |y| == 0 ==> err == Some(NoOutcome))
              && (err.Some? ==> results == old(results))
              && (err.None? ==>
                  && results.Some?
                  && SingleOutcomeResult(results.value, y[0], x, controls, opts.draws, subsets,
                                          coll.spaceSize(controls), fits.value))
    {
      var r := FitSingleOutcome(data, y, x, controls, opts, coll, rng);
      if r.Err? {
        return Some(r.error);
      }
      results := Some(r.value);
      return None;
    }

    /** fit with several outcomes: multiple_y, then the outcome loop over
        the composites it left; the results are replaced only when both
        succeed. */
    method FitMulti(controls: seq<Name>, opts: FitOptions, coll: Collaborators, rng: Rng) returns (err: Option<Error>)
      requires Valid()
      modifies this
      ensures Valid()
      ensures var kept := LongSpecs(Enumerated(coll, y));
              var comps := Composites(data, kept, coll);
              && (comps.Err? ==> err == Some(comps.error) && results == old(results) && ySpecs <= kept)
              && (comps.Ok? ==> ySpecs == kept && yComposites == comps.value)
      ensures Composites(data, LongSpecs(Enumerated(coll, y)), coll).Ok? ==>
                var subsets := Enumerated(coll, controls);
                var all := OutcomeFits(data, y, x, opts, subsets, yComposites, coll, rng);
                && (err.None? <==> all.Ok? && |ySpecs| > 0 && |subsets| > 0 && |subsets| == coll.spaceSize(controls))
                && (all.Err? ==> err == Some(all.error))
                && (all.Ok? && (|ySpecs| == 0 || |subsets| == 0) ==> err == Some(UnboundName))
                && (all.Ok? && |ySpecs| > 0 && 0 < |subsets| < coll.spaceSize(controls) ==> err == Some(ShapeMismatch))
                && (err.Some? ==> results == old(results))
                && (err.None? ==>
                  && results.Some?
                  && MultiOutcomeResult(results.value, x, controls, opts.draws, ySpecs, subsets,
                                        coll.spaceSize(controls), all.value))
    {
      err := MultipleY(coll);
      if err.None? {
        var r := FitMultiOutcome(data, y, x, controls, opts, ySpecs, yComposites, coll, rng);
        if r.Ok? {
          results := Some(r.value);
        } else {
          err := Some(r.error);
        }
      }
    }

    /** fit: sample_size defaults to the number of rows; more than one
        outcome name takes the multi-outcome path. */
    method Fit(controls: seq<Name>, group: Option<Name>, draws: nat, sampleSize: Option<nat>, replace: bool,
               kfold: Option<nat>, shuffle: bool, coll: Collaborators, rng: Rng) returns (err: Option<Error>)
      requires Valid()
      modifies this
      ensures Valid()
      ensures var opts := Options(data, group, draws, sampleSize, replace, kfold, shuffle);
              var subsets := Enumerated(coll, controls);
              var fits := SpecFits(data, y, x, None, opts, subsets, coll, rng, 0);
              |y| <= 1 ==>
                && ySpecs == old(ySpecs) && yComposites == old(yComposites)
                && (err.None? <==> fits.Ok? && |y| > 0)
                && (err.Some? ==> results == old(results))
                && (err.None? ==>
                    && results.Some?
                    && SingleOutcomeResult(results.value, y[0], x, controls, draws, subsets,
                                            coll.spaceSize(controls), fits.value))
      ensures var opts := Options(data, group, draws, sampleSize, replace, kfold, shuffle);
              var kept := LongSpecs(Enumerated(coll, y));
              var comps := Composites(data, kept, coll);
              var subsets := Enumerated(coll, controls);
              |y| > 1 && comps.Ok? ==>
                var all := OutcomeFits(data, y, x, opts, subsets, comps.value, coll, rng);
                && ySpecs == kept && yComposites == comps.value
                && (err.None? <==> all.Ok? && |kept| > 0 && |subsets| > 0 && |subsets| == coll.spaceSize(controls))
                && (err.Some? ==> results == old(results))
                && (err.None? ==>
                    && results.Some?
                    && MultiOutcomeResult(results.value, x, controls, draws, kept, subsets,
                                           coll.spaceSize(controls), all.value))
      ensures var comps := Composites(data, LongSpecs(Enumerated(coll, y)), coll);
              |y| > 1 && comps.Err? ==> err == Some(comps.error) && results == old(results)
    {
      var opts := Options(data, group, draws, sampleSize, replace, kfold, shuffle);
      if |y| > 1 {
        err := FitMulti(controls, opts, coll, rng);
      } else {
        err := FitSingle(controls, opts, coll, rng);
      }
    }
  }
}
