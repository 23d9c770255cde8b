/** OLSResult.compute_bma: Bayesian model averaging with BIC-implied
    weights.  Each specification gets the weight exp(-bic/2 - max(-bic/2));
    a control's inclusion probability is the share of the total weight held
    by the specifications that contain it, and its averaged coefficient is
    its coefficients weighted the same way. */
module Bma {
  import opened Common
  import opened Frames

  /** np.exp, only as far as the weights need it: exp(0) = 1 and
      0 < exp(t) <= 1 for t <= 0. */
  type Exp = f: real -> real | f(0.0) == 1.0 && forall t :: t <= 0.0 ==> 0.0 < f(t) <= 1.0
    witness (t: real) => if t <= 0.0 then 1.0 / (1.0 - t) else 1.0 + t

  /** np.max over a non-empty sequence. */
  function MaxOf(s: seq<real>): (m: real)
    requires |s| > 0
    ensures m in s && forall i :: 0 <= i < |s| ==> s[i] <= m
  {
    if |s| == 1 then s[0]
    else
      var m' := MaxOf(s[..|s| - 1]);
      assert forall i :: 0 <= i < |s| - 1 ==> s[..|s| - 1][i] == s[i];
      if s[|s| - 1] > m' then s[|s| - 1] else m'
  }

  /** models_likelihood: one weight per model, each in (0, 1]; the model
      with the smallest BIC gets weight 1.  Without models there are no
      weights (np.max of an empty Series is NaN and nothing uses it). */
  function Weights(bic: seq<real>, exp: Exp): (w: seq<real>)
    ensures |w| == |bic|
    ensures forall i :: 0 <= i < |w| ==> 0.0 < w[i] <= 1.0
    ensures forall i :: 0 <= i < |bic| && (forall j :: 0 <= j < |bic| ==> bic[i] <= bic[j]) ==> w[i] == 1.0
  {
    if bic == [] then []
    else
      var ll := seq(|bic|, i requires 0 <= i < |bic| => -bic[i] / 2.0);
      var maxLl := MaxOf(ll);
      assert forall i :: 0 <= i < |bic| ==> ll[i] - maxLl <= 0.0;
      assert forall i :: 0 <= i < |bic| && (forall j :: 0 <= j < |bic| ==> bic[i] <= bic[j]) ==>
               ll[i] - maxLl == 0.0 by {
        forall i | 0 <= i < |bic| && (forall j :: 0 <= j < |bic| ==> bic[i] <= bic[j])
          ensures ll[i] - maxLl == 0.0
        {
          var j :| 0 <= j < |ll| && ll[j] == maxLl;
          assert bic[i] <= bic[j];
        }
      }
      seq(|bic|, i requires 0 <= i < |bic| => exp(ll[i] - maxLl))
  }

  /** The list comprehension [i for sl in ss for i in sl]. */
  function Flatten<T>(ss: seq<seq<T>>): seq<T>
  {
    if ss == [] then [] else Flatten(ss[..|ss| - 1]) + ss[|ss| - 1]
  }

  /** The sum of the elementwise products of two equally long arrays. */
  function PairSum(a: seq<real>, b: seq<real>): real
    requires |a| == |b|
  {
    if a == [] then 0.0 else PairSum(a[..|a| - 1], b[..|b| - 1]) + a[|a| - 1] * b[|b| - 1]
  }

  /** idx: which models contain the control. */
  function InSpec(specs: seq<set<Name>>, ele: Name): (mask: seq<bool>)
    ensures |mask| == |specs| && forall i :: 0 <= i < |specs| ==> (mask[i] <==> ele in specs[i])
  {
    seq(|specs|, i requires 0 <= i < |specs| => ele in specs[i])
  }

  /** coefs_df.var_name == ele. */
  function Named(names: seq<Name>, ele: Name): (mask: seq<bool>)
    ensures |mask| == |names| && forall k :: 0 <= k < |names| ==> (mask[k] <==> names[k] == ele)
  {
    seq(|names|, k requires 0 <= k < |names| => names[k] == ele)
  }

  /** One control's two sums: the weight of the models containing it, and
      its coefficients times those weights.  The boolean mask must match the
      weights in length; the product aligns the coefficients with the
      weights, a single coefficient being broadcast over them. */
  function ControlSums(w: seq<real>, specs: seq<set<Name>>, coefs: seq<real>, names: seq<Name>, ele: Name)
    : (r: Result<(real, real)>)
    requires |coefs| == |names|
    ensures |specs| != |w| ==> r == Err(ShapeMismatch)
    ensures r.Ok? ==> |specs| == |w| && r.value.0 == Sum(Compress(w, InSpec(specs, ele)))
    ensures r.Err? ==> r.error == ShapeMismatch
  {
    if |specs| != |w| then Err(ShapeMismatch)
    else
      var lik := Compress(w, InSpec(specs, ele));
      var cs := Compress(coefs, Named(names, ele));
      if |cs| == |lik| then Ok((Sum(lik), PairSum(cs, lik)))
      else if |cs| == 1 then Ok((Sum(lik), Sum(seq(|lik|, k requires 0 <= k < |lik| => cs[0] * lik[k]))))
      else Err(ShapeMismatch)
  }

  /** A control names at most one entry of a specification's predictor list. */
  predicate AtMostOnce(names: seq<Name>, ele: Name)
  {
    forall a, b :: 0 <= a < b < |names| && names[a] == ele ==> names[b] != ele
  }

  /** The control is named at most once in each specification's predictor
      list, and named there exactly when the specification contains it. */
  predicate HeldOnce(specs: seq<set<Name>>, predictors: seq<seq<Name>>, ele: Name)
    requires |specs| == |predictors|
  {
    forall i :: 0 <= i < |predictors| ==> AtMostOnce(predictors[i], ele) && (ele in specs[i] <==> ele in predictors[i])
  }

  /** The control's own coefficient in each of the first n specifications
      whose predictors name it, in specification order. */
  function OwnCoefficients(bs: seq<seq<real>>, predictors: seq<seq<Name>>, ele: Name, n: nat): (cs: seq<real>)
    requires n <= |bs| && n <= |predictors|
    requires forall i :: 0 <= i < n ==> |bs[i]| == |predictors[i]|
    ensures |cs| <= n
  {
    if n == 0 then []
    else
      var rest := OwnCoefficients(bs, predictors, ele, n - 1);
      if ele in predictors[n - 1] then rest + [bs[n - 1][IndexOf(predictors[n - 1], ele)]] else rest
  }

  lemma NamedAppend(a: seq<Name>, b: seq<Name>, ele: Name)
    ensures Named(a + b, ele) == Named(a, ele) + Named(b, ele)
  {
  }

  /** The entries a control names in one specification's coefficients: its
      own coefficient when the specification has it, none otherwise. */
  lemma {:induction false} CompressOne(b: seq<real>, names: seq<Name>, ele: Name)
    requires |b| == |names| && AtMostOnce(names, ele)
    ensures Compress(b, Named(names, ele)) == if ele in names then [b[IndexOf(names, ele)]] else []
  {
    if names != [] {
      var last := |names| - 1;
      var pre := names[..last];
      assert Named(names, ele)[..last] == Named(pre, ele);
      CompressOne(b[..last], pre, ele);
      if names[last] == ele {
        assert ele !in pre;
        CompressNone(b[..last], Named(pre, ele));
        assert IndexOf(names, ele) == last;
      } else if ele in pre {
        var k, k' := IndexOf(names, ele), IndexOf(pre, ele);
        assert names[k'] == ele && ele !in names[..k'] by {
          assert names[..k'] == pre[..k'];
        }
      }
    }
  }

  lemma FlattenLast<T>(ss: seq<seq<T>>, m: nat)
    requires m < |ss|
    ensures Flatten(ss[..m + 1]) == Flatten(ss[..m]) + ss[m]
  {
    assert ss[..m + 1][..m] == ss[..m];
  }

  lemma WeightsLast(w: seq<real>, specs: seq<set<Name>>, ele: Name, m: nat)
    requires |w| == |specs| && m < |w|
    ensures Compress(w[..m + 1], InSpec(specs[..m + 1], ele))
              == Compress(w[..m], InSpec(specs[..m], ele)) + (if ele in specs[m] then [w[m]] else [])
  {
    assert w[..m + 1][..m] == w[..m];
    assert InSpec(specs[..m + 1], ele)[..m] == InSpec(specs[..m], ele);
  }

  /** Every specification's predictor list names the control at most once. */
  predicate OnceEach(predictors: seq<seq<Name>>, ele: Name)
  {
    forall i :: 0 <= i < |predictors| ==> AtMostOnce(predictors[i], ele)
  }

  /** Over the first n specifications, the coefficients named after the
      control are its own coefficients, one per specification whose
      predictors name it, in specification order. */
  lemma {:induction false} OwnCoefficientsUpTo(bs: seq<seq<real>>, predictors: seq<seq<Name>>, ele: Name, n: nat)
    requires |bs| == |predictors| && n <= |bs|
    requires forall i :: 0 <= i < |bs| ==> |bs[i]| == |predictors[i]|
    requires OnceEach(predictors, ele)
    ensures |Flatten(bs[..n])| == |Flatten(predictors[..n])|
    ensures Compress(Flatten(bs[..n]), Named(Flatten(predictors[..n]), ele)) == OwnCoefficients(bs, predictors, ele, n)
  {
    if n > 0 {
      var m := n - 1;
      OwnCoefficientsUpTo(bs, predictors, ele, m);
      assert |bs[m]| == |predictors[m]| && AtMostOnce(predictors[m], ele);
      var fb, fp := Flatten(bs[..m]), Flatten(predictors[..m]);
      FlattenLast(bs, m);
      FlattenLast(predictors, m);
      NamedAppend(fp, predictors[m], ele);
      CompressAppend(fb, Named(fp, ele), bs[m], Named(predictors[m], ele));
      CompressOne(bs[m], predictors[m], ele);
    }
  }

  /** When a specification's predictors name the control exactly when the
      specification contains it, the control's own coefficients line up one
      to one with the weights of the specifications holding it. */
  lemma {:induction false} HeldCountUpTo(w: seq<real>, specs: seq<set<Name>>, bs: seq<seq<real>>,
                                         predictors: seq<seq<Name>>, ele: Name, n: nat)
    requires |w| == |specs| == |bs| == |predictors| && n <= |w|
    requires forall i :: 0 <= i < |bs| ==> |bs[i]| == |predictors[i]|
    requires forall i :: 0 <= i < |specs| ==> (ele in specs[i] <==> ele in predictors[i])
    ensures |OwnCoefficients(bs, predictors, ele, n)| == |Compress(w[..n], InSpec(specs[..n], ele))|
  {
    if n > 0 {
      HeldCountUpTo(w, specs, bs, predictors, ele, n - 1);
      WeightsLast(w, specs, ele, n - 1);
    }
  }

  /** A control in every predictor list has one own coefficient per
      specification. */
  lemma {:induction false} OwnEverywhere(bs: seq<seq<real>>, predictors: seq<seq<Name>>, ele: Name, n: nat)
    requires n <= |bs| && n <= |predictors|
    requires forall i :: 0 <= i < n ==> |bs[i]| == |predictors[i]|
    requires forall i :: 0 <= i < n ==> ele in predictors[i]
    ensures |OwnCoefficients(bs, predictors, ele, n)| == n
  {
    if n > 0 {
      OwnEverywhere(bs, predictors, ele, n - 1);
    }
  }

  /** With every specification's coefficients stored beside its predictor
      names, and a control named at most once per specification exactly when
      the specification contains it, ControlSums pairs the control's own
      coefficient in each specification that holds it with that
      specification's weight: the second sum is sum_i b_i(ele) * w_i over
      those specifications. */
  lemma ControlSumsWeighs(w: seq<real>, specs: seq<set<Name>>, bs: seq<seq<real>>, predictors: seq<seq<Name>>, ele: Name)
    requires |w| == |specs| == |bs| == |predictors|
    requires forall i :: 0 <= i < |bs| ==> |bs[i]| == |predictors[i]|
    requires HeldOnce(specs, predictors, ele)
    ensures |Flatten(bs)| == |Flatten(predictors)|
    ensures |OwnCoefficients(bs, predictors, ele, |bs|)| == |Compress(w, InSpec(specs, ele))|
    ensures ControlSums(w, specs, Flatten(bs), Flatten(predictors), ele)
              == Ok((Sum(Compress(w, InSpec(specs, ele))),
                     PairSum(OwnCoefficients(bs, predictors, ele, |bs|), Compress(w, InSpec(specs, ele)))))
  {
    assert OnceEach(predictors, ele);
    OwnCoefficientsUpTo(bs, predictors, ele, |w|);
    HeldCountUpTo(w, specs, bs, predictors, ele, |w|);
    assert bs[..|w|] == bs && predictors[..|w|] == predictors && w[..|w|] == w && specs[..|w|] == specs;
  }

  /** A control that is also a regressor of interest is in every
      specification's predictor list, but only the specifications whose
      control set holds it count towards its weights.  With two or more
      specifications, one of them (the empty one, for instance) without it,
      the coefficients outnumber the weights and the product cannot be
      formed. */
  lemma ControlSumsInX(w: seq<real>, specs: seq<set<Name>>, bs: seq<seq<real>>, predictors: seq<seq<Name>>, ele: Name)
    requires |w| == |specs| == |bs| == |predictors| >= 2
    requires forall i :: 0 <= i < |bs| ==> |bs[i]| == |predictors[i]|
    requires OnceEach(predictors, ele)
    requires forall i :: 0 <= i < |predictors| ==> ele in predictors[i]
    requires exists i :: 0 <= i < |specs| && ele !in specs[i]
    ensures |Flatten(bs)| == |Flatten(predictors)|
    ensures ControlSums(w, specs, Flatten(bs), Flatten(predictors), ele) == Err(ShapeMismatch)
  {
    OwnCoefficientsUpTo(bs, predictors, ele, |w|);
    OwnEverywhere(bs, predictors, ele, |w|);
    assert bs[..|w|] == bs && predictors[..|w|] == predictors;
    var mask := InSpec(specs, ele);
    assert exists i :: 0 <= i < |mask| && !mask[i];
    CompressDrops(w, mask);
  }

  /** likelihood_per_var and weigthed_coefs after the loop over controls,
      or the first control's error. */
  function ControlTable(w: seq<real>, specs: seq<set<Name>>, coefs: seq<real>, names: seq<Name>,
                        controls: seq<Name>): (r: Result<(seq<real>, seq<real>)>)
    requires |coefs| == |names|
    ensures r.Ok? ==> |r.value.0| == |r.value.1| == |controls|
    ensures r.Ok? ==> forall c :: 0 <= c < |controls| ==>
              ControlSums(w, specs, coefs, names, controls[c]) == Ok((r.value.0[c], r.value.1[c]))
    ensures r.Err? <==> exists c :: 0 <= c < |controls| && ControlSums(w, specs, coefs, names, controls[c]).Err?
    ensures r.Err? ==> r.error == ShapeMismatch
  {
    if controls == [] then Ok(([], []))
    else
      var last := |controls| - 1;
      var (likelihoods, weighted) :- ControlTable(w, specs, coefs, names, controls[..last]);
      var s :- ControlSums(w, specs, coefs, names, controls[last]);
      Ok((likelihoods + [s.0], weighted + [s.1]))
  }

  /** all_b / all_p as the fit stores them: one vector per specification,
      or, on the several-outcome path, the last specification's vector only
      (compute_bma cannot index its entries again). */
  datatype StoredCoefficients = PerSpecification(bs: seq<seq<real>>) | LastSpecification(b: seq<real>)

  /** One output row: the control, its inclusion probability and its
      averaged coefficient; both are NaN (Missing) when there is no model. */
  datatype BmaRow = BmaRow(control: Name, probs: Cell, averageCoefs: Cell)

  function Ratio(a: real, total: real): Cell
  {
    if total == 0.0 then Missing else Value(a / total)
  }

  /** The summary_bma table: probs = likelihood_per_var / sum_likelihoods and
      average_coefs = weigthed_coefs / sum_likelihoods, one row per control. */
  function Rows(controls: seq<Name>, likelihoodPerVar: seq<real>, weightedCoefs: seq<real>, total: real)
    : (rows: seq<BmaRow>)
    requires |likelihoodPerVar| == |weightedCoefs| == |controls|
    ensures |rows| == |controls|
  {
    seq(|controls|, k requires 0 <= k < |controls| =>
      BmaRow(controls[k], Ratio(likelihoodPerVar[k], total), Ratio(weightedCoefs[k], total)))
  }

  /** compute_bma as a function of the stored results. */
  function BmaTable(bic: seq<real>, specs: seq<set<Name>>, basis: StoredCoefficients, predictors: seq<seq<Name>>,
                    controls: seq<Name>, exp: Exp): (r: Result<seq<BmaRow>>)
    ensures basis.LastSpecification? ==> r == Err(NotPerSpecification)
    ensures r.Ok? ==> |r.value| == |controls| && forall c :: 0 <= c < |controls| ==> r.value[c].control == controls[c]
    ensures r.Ok? <==> && basis.PerSpecification? && |Flatten(basis.bs)| == |Flatten(predictors)|
                       && forall c :: 0 <= c < |controls| ==>
                            ControlSums(Weights(bic, exp), specs, Flatten(basis.bs), Flatten(predictors), controls[c]).Ok?
    ensures r.Ok? ==> forall c :: 0 <= c < |controls| ==> (r.value[c].probs.Missing? <==> |bic| == 0)
    ensures r.Ok? ==> forall c :: 0 <= c < |controls| ==>
              r.value[c].probs == Ratio(Sum(Compress(Weights(bic, exp), InSpec(specs, controls[c]))), Sum(Weights(bic, exp)))
    ensures r.Ok? ==> forall c :: 0 <= c < |controls| ==>
              r.value[c].averageCoefs ==
                Ratio(ControlSums(Weights(bic, exp), specs, Flatten(basis.bs), Flatten(predictors), controls[c]).value.1,
                      Sum(Weights(bic, exp)))
  {
    var w := Weights(bic, exp);
    var total := Sum(w);
    SumPositive(w);
    match basis
    case LastSpecification(_) => Err(NotPerSpecification)
    case PerSpecification(bs) =>
      var coefs := Flatten(bs);
      var names := Flatten(predictors);
      if |coefs| != |names| then Err(ShapeMismatch)
      else
        var (likelihoods, weighted) :- ControlTable(w, specs, coefs, names, controls);
        Ok(Rows(controls, likelihoods, weighted, total))
  }

  /** Positive weights have a positive sum, and only no weights sum to 0. */
  lemma {:induction false} SumPositive(w: seq<real>)
    requires forall i :: 0 <= i < |w| ==> w[i] > 0.0
    ensures Sum(w) >= 0.0 && (Sum(w) == 0.0 <==> w == [])
  {
    if w != [] {
      SumPositive(w[..|w| - 1]);
    }
  }

  lemma RatioInUnitInterval(a: real, total: real)
    requires 0.0 <= a <= total && total > 0.0
    ensures Ratio(a, total).Value? && 0.0 <= Ratio(a, total).v <= 1.0
  {
    var q := a / total;
    assert q * total == a;
    assert q > 1.0 ==> q * total > 1.0 * total;
  }

  lemma RatioOfWhole(total: real)
    requires total > 0.0
    ensures Ratio(total, total) == Value(1.0)
  {
  }

  /** Every inclusion probability lies in [0, 1]. */
  lemma ProbsInUnitInterval(bic: seq<real>, specs: seq<set<Name>>, basis: StoredCoefficients, predictors: seq<seq<Name>>,
                            controls: seq<Name>, exp: Exp, c: nat)
    ensures BmaTable(bic, specs, basis, predictors, controls, exp).Ok? && c < |controls| && |bic| > 0 ==>
              var p := BmaTable(bic, specs, basis, predictors, controls, exp).value[c].probs;
              p.Value? && 0.0 <= p.v <= 1.0
  {
    if BmaTable(bic, specs, basis, predictors, controls, exp).Ok? && c < |controls| && |bic| > 0 {
      var w := Weights(bic, exp);
      var inSpec := Sum(Compress(w, InSpec(specs, controls[c])));
      CompressSumBounded(w, InSpec(specs, controls[c]));
      SumPositive(w);
      RatioInUnitInterval(inSpec, Sum(w));
    }
  }

  /** A control that no specification contains has probability 0. */
  lemma ProbsZeroOutsideSpecs(bic: seq<real>, specs: seq<set<Name>>, basis: StoredCoefficients,
                              predictors: seq<seq<Name>>, controls: seq<Name>, exp: Exp, c: nat)
    ensures BmaTable(bic, specs, basis, predictors, controls, exp).Ok? && c < |controls| && |bic| > 0
            && (forall i :: 0 <= i < |specs| ==> controls[c] !in specs[i]) ==>
              BmaTable(bic, specs, basis, predictors, controls, exp).value[c].probs == Value(0.0)
  {
    if && BmaTable(bic, specs, basis, predictors, controls, exp).Ok? && c < |controls| && |bic| > 0
       && (forall i :: 0 <= i < |specs| ==> controls[c] !in specs[i])
    {
      var w := Weights(bic, exp);
      CompressNone(w, InSpec(specs, controls[c]));
      SumPositive(w);
      assert Ratio(0.0, Sum(w)) == Value(0.0);
    }
  }

  /** A control that every specification contains has probability 1. */
  lemma ProbsOneInEverySpec(bic: seq<real>, specs: seq<set<Name>>, basis: StoredCoefficients,
                            predictors: seq<seq<Name>>, controls: seq<Name>, exp: Exp, c: nat)
    ensures BmaTable(bic, specs, basis, predictors, controls, exp).Ok? && c < |controls| && |bic| > 0
            && (forall i :: 0 <= i < |specs| ==> controls[c] in specs[i]) ==>
              BmaTable(bic, specs, basis, predictors, controls, exp).value[c].probs == Value(1.0)
  {
    if && BmaTable(bic, specs, basis, predictors, controls, exp).Ok? && c < |controls| && |bic| > 0
       && (forall i :: 0 <= i < |specs| ==> controls[c] in specs[i])
    {
      var w := Weights(bic, exp);
      CompressAll(w, InSpec(specs, controls[c]));
      SumPositive(w);
      RatioOfWhole(Sum(w));
    }
  }

  /** When every specification's coefficients are stored beside its
      predictor names and each control is named at most once, exactly in the
      specifications that contain it, compute_bma succeeds and each control's
      average_coefs is the weighted sum of its own coefficients, weighted by
      the specifications holding it, over the total weight. */
  lemma BmaAveragesCoefficients(bic: seq<real>, specs: seq<set<Name>>, bs: seq<seq<real>>,
                                predictors: seq<seq<Name>>, controls: seq<Name>, exp: Exp)
    requires |bic| == |specs| == |bs| == |predictors|
    requires forall i :: 0 <= i < |bs| ==> |bs[i]| == |predictors[i]|
    requires forall c :: 0 <= c < |controls| ==> HeldOnce(specs, predictors, controls[c])
    ensures var r := BmaTable(bic, specs, PerSpecification(bs), predictors, controls, exp);
            && r.Ok?
            && forall c :: 0 <= c < |controls| ==>
                 var own, held := OwnCoefficients(bs, predictors, controls[c], |bs|),
                                  Compress(Weights(bic, exp), InSpec(specs, controls[c]));
                 |own| == |held| && r.value[c].averageCoefs == Ratio(PairSum(own, held), Sum(Weights(bic, exp)))
  {
    var w := Weights(bic, exp);
    FlattenLengths(bs, predictors);
    WeighsEveryControl(w, specs, bs, predictors, controls);
    var r := BmaTable(bic, specs, PerSpecification(bs), predictors, controls, exp);
    assert r.Ok?;
    forall c | 0 <= c < |controls|
      ensures var own, held := OwnCoefficients(bs, predictors, controls[c], |bs|), Compress(w, InSpec(specs, controls[c]));
              |own| == |held| && r.value[c].averageCoefs == Ratio(PairSum(own, held), Sum(w))
    {
      ControlSumsWeighs(w, specs, bs, predictors, controls[c]);
      BmaAverageAt(bic, specs, PerSpecification(bs), predictors, controls, exp, c);
    }
  }

  lemma WeighsEveryControl(w: seq<real>, specs: seq<set<Name>>, bs: seq<seq<real>>,
                           predictors: seq<seq<Name>>, controls: seq<Name>)
    requires |w| == |specs| == |bs| == |predictors|
    requires forall i :: 0 <= i < |bs| ==> |bs[i]| == |predictors[i]|
    requires forall c :: 0 <= c < |controls| ==> HeldOnce(specs, predictors, controls[c])
    requires |Flatten(bs)| == |Flatten(predictors)|
    ensures forall c :: 0 <= c < |controls| ==>
              var sums := ControlSums(w, specs, Flatten(bs), Flatten(predictors), controls[c]);
              var own, held := OwnCoefficients(bs, predictors, controls[c], |bs|), Compress(w, InSpec(specs, controls[c]));
              sums.Ok? && |own| == |held| && sums.value.1 == PairSum(own, held)
  {
    forall c | 0 <= c < |controls|
      ensures var sums := ControlSums(w, specs, Flatten(bs), Flatten(predictors), controls[c]);
              var own, held := OwnCoefficients(bs, predictors, controls[c], |bs|), Compress(w, InSpec(specs, controls[c]));
              sums.Ok? && |own| == |held| && sums.value.1 == PairSum(own, held)
    {
      ControlSumsWeighs(w, specs, bs, predictors, controls[c]);
    }
  }

  lemma BmaAverageAt(bic: seq<real>, specs: seq<set<Name>>, basis: StoredCoefficients, predictors: seq<seq<Name>>,
                     controls: seq<Name>, exp: Exp, c: nat)
    requires BmaTable(bic, specs, basis, predictors, controls, exp).Ok? && c < |controls|
    ensures basis.PerSpecification? && |Flatten(basis.bs)| == |Flatten(predictors)|
    ensures BmaTable(bic, specs, basis, predictors, controls, exp).value[c].averageCoefs
              == Ratio(ControlSums(Weights(bic, exp), specs, Flatten(basis.bs), Flatten(predictors), controls[c]).value.1,
                       Sum(Weights(bic, exp)))
  {
  }

  lemma {:induction false} FlattenLengths<T, U>(ss: seq<seq<T>>, tt: seq<seq<U>>)
    requires |ss| == |tt| && forall i :: 0 <= i < |ss| ==> |ss[i]| == |tt[i]|
    ensures |Flatten(ss)| == |Flatten(tt)|
  {
    if ss != [] {
      FlattenLengths(ss[..|ss| - 1], tt[..|tt| - 1]);
    }
  }

  lemma ControlTableExtend(w: seq<real>, specs: seq<set<Name>>, coefs: seq<real>, names: seq<Name>,
                           controls: seq<Name>, c: nat, a: seq<real>, b: seq<real>, s: (real, real))
    requires |coefs| == |names| && c < |controls|
    requires ControlTable(w, specs, coefs, names, controls[..c]) == Ok((a, b))
    requires ControlSums(w, specs, coefs, names, controls[c]) == Ok(s)
    ensures ControlTable(w, specs, coefs, names, controls[..c + 1]) == Ok((a + [s.0], b + [s.1]))
  {
    assert controls[..c + 1][..c] == controls[..c] && controls[..c + 1][c] == controls[c];
  }

  /** The loop of compute_bma: for each control, in order, append the weight
      of the models that contain it to likelihood_per_var and its weighted
      coefficients to weigthed_coefs. */
  method ControlLoop(w: seq<real>, specs: seq<set<Name>>, coefs: seq<real>, names: seq<Name>, controls: seq<Name>)
    returns (r: Result<(seq<real>, seq<real>)>)
    requires |coefs| == |names|
    ensures r == ControlTable(w, specs, coefs, names, controls)
  {
    var likelihoodPerVar: seq<real> := [];
    var weightedCoefs: seq<real> := [];
    var c := 0;
    while c < |controls|
      invariant 0 <= c <= |controls|
      invariant ControlTable(w, specs, coefs, names, controls[..c]) == Ok((likelihoodPerVar, weightedCoefs))
    {
      var s := ControlSums(w, specs, coefs, names, controls[c]);
      if s.Err? {
        assert ControlTable(w, specs, coefs, names, controls).Err?;
        return Err(ShapeMismatch);
      }
      ControlTableExtend(w, specs, coefs, names, controls, c, likelihoodPerVar, weightedCoefs, s.value);
      likelihoodPerVar := likelihoodPerVar + [s.value.0];
      weightedCoefs := weightedCoefs + [s.value.1];
      c := c + 1;
    }
    assert controls[..c] == controls;
    r := Ok((likelihoodPerVar, weightedCoefs));
  }

  /** compute_bma: the sums of the loop divided by the total weight. */
  method ComputeBma(bic: seq<real>, specs: seq<set<Name>>, basis: StoredCoefficients, predictors: seq<seq<Name>>,
                    controls: seq<Name>, exp: Exp) returns (r: Result<seq<BmaRow>>)
    ensures r == BmaTable(bic, specs, basis, predictors, controls, exp)
  {
    var w := Weights(bic, exp);
    var total := Sum(w);
    if basis.LastSpecification? {
      return Err(NotPerSpecification);
    }
    var coefs := Flatten(basis.bs);
    var names := Flatten(predictors);
    if |coefs| != |names| {
      return Err(ShapeMismatch);
    }
    var sums := ControlLoop(w, specs, coefs, names, controls);
    if sums.Err? {
      return Err(ShapeMismatch);
    }
    var (likelihoodPerVar, weightedCoefs) := sums.value;
    r := Ok(Rows(controls, likelihoodPerVar, weightedCoefs, total));
  }
}
