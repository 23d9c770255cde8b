/** Shared vocabulary of the model: optional values, results with the error
    conditions the Python code raises, sums over reals, and the two ways the
    source filters a sequence (a boolean mask and a list of kept positions). */
module Common {

  datatype Option<+T> = None | Some(value: T)

  /** The exceptions the modelled code can raise, one constructor per cause. */
  datatype Error =
    | MissingColumn(name: string)   // KeyError when a column is selected by name
    | LabelNotFound(key: int)       // KeyError when rows are selected by label (.loc)
    | UnfitModel                    // the OLS routine cannot fit the design
    | NoCoefficients                // b[0][0] on an empty coefficient vector
    | NoColumns                     // iloc[:, [0]] on a table without columns
    | ShapeMismatch                 // np.dot, a DataFrame or a column set from lists of different lengths
    | BadFoldCount                  // KFold with fewer than two folds or more folds than rows
    | SampleLargerThanPopulation    // DataFrame.sample without replacement, n larger than the table
    | EmptyGroupPool                // np.random.choice over no group keys
    | IndexMisaligned               // shuffle on a table whose labels are not 0..n-1
    | BadDraw                       // a random input that the random source cannot produce
    | NoDraws                       // unpacking zip(*[]) when no bootstrap draw was made
    | EmptyMax                      // np.max over no models
    | UnboundName                   // b_all read before any specification was fitted
    | NotPerSpecification           // model averaging on a result that keeps one coefficient vector
    | NoOutcome                     // self.y[0] on an empty list of outcomes

  datatype Result<+T> = Ok(value: T) | Err(error: Error) {
    predicate IsFailure() { Err? }

    function PropagateFailure<U>(): Result<U>
      requires Err?
    {
      Err(error)
    }

    function Extract(): T
      requires Ok?
    {
      value
    }
  }

  /** f(0), ..., f(n-1) when every one of them succeeds, otherwise the first
      error: a loop that stops at the first failing step. */
  function AllOk<T>(n: nat, f: nat -> Result<T>): Result<seq<T>>
  {
    if n == 0 then Ok([])
    else
      var vs :- AllOk(n - 1, f);
      var v :- f(n - 1);
      Ok(vs + [v])
  }

  /** AllOk succeeds exactly when every step does, and then holds their
      values in order. */
  lemma {:induction false} AllOkLength<T>(n: nat, f: nat -> Result<T>)
    ensures AllOk(n, f).Ok? ==> |AllOk(n, f).value| == n
  {
    if n > 0 { AllOkLength(n - 1, f); }
  }

  lemma {:induction false} AllOkMeaning<T>(n: nat, f: nat -> Result<T>)
    ensures AllOk(n, f).Ok? ==> |AllOk(n, f).value| == n && forall i :: 0 <= i < n ==> f(i) == Ok(AllOk(n, f).value[i])
    ensures AllOk(n, f).Err? <==> (exists i :: 0 <= i < n && f(i).Err?)
  {
    if n > 0 {
      AllOkMeaning(n - 1, f);
    }
  }

  /** Once a prefix of the steps has failed, the later steps change
      nothing: the loop has already stopped with that error. */
  lemma {:induction false} AllOkFirstError<T>(m: nat, n: nat, f: nat -> Result<T>)
    requires m <= n && AllOk(m, f).Err?
    ensures AllOk(n, f) == AllOk(m, f)
  {
    if m < n {
      AllOkFirstError(m, n - 1, f);
    }
  }

  /** The error AllOk reports is that of the first failing step. */
  lemma {:induction false} AllOkFirstFailure<T>(n: nat, f: nat -> Result<T>)
    requires AllOk(n, f).Err?
    ensures exists i :: 0 <= i < n && AllOk(i, f).Ok? && f(i) == Err(AllOk(n, f).error)
  {
    if AllOk(n - 1, f).Err? {
      AllOkFirstFailure(n - 1, f);
    } else {
      assert AllOk(n - 1, f).Ok? && f(n - 1) == Err(AllOk(n, f).error);
    }
  }

  /** The blocks one after another (np.vstack / np.hstack). */
  function Concat<T>(blocks: seq<seq<T>>): seq<T>
  {
    if blocks == [] then [] else Concat(blocks[..|blocks| - 1]) + blocks[|blocks| - 1]
  }

  /** Where element i of block o lands when blocks of the given width are
      stacked. */
  function Flat(o: nat, i: nat, width: nat): nat
  {
    o * width + i
  }

  /** A position inside one of the first n blocks lies before their end. */
  lemma FlatBelow(o: nat, i: nat, n: nat, width: nat)
    requires o < n && i < width
    ensures Flat(o, i, width) < n * width
  {
    assert (o + 1) * width <= n * width;
  }

  /** Stacking blocks of equal width gives the product of the lengths. */
  lemma {:induction false} ConcatLength<T>(blocks: seq<seq<T>>, width: nat)
    requires forall o :: 0 <= o < |blocks| ==> |blocks[o]| == width
    ensures |Concat(blocks)| == |blocks| * width
  {
    if blocks != [] {
      var n := |blocks| - 1;
      ConcatLength(blocks[..n], width);
      assert |Concat(blocks)| == n * width + width;
      assert (n + 1) * width == n * width + width;
    }
  }

  /** Stacking blocks of equal width: the length is the product, and
      element i of block o sits at Flat(o, i, width). */
  lemma {:induction false} ConcatBlocks<T>(blocks: seq<seq<T>>, width: nat)
    requires forall o :: 0 <= o < |blocks| ==> |blocks[o]| == width
    ensures |Concat(blocks)| == |blocks| * width
    ensures forall o, i :: 0 <= o < |blocks| && 0 <= i < width ==>
              Flat(o, i, width) < |Concat(blocks)| && Concat(blocks)[Flat(o, i, width)] == blocks[o][i]
  {
    ConcatLength(blocks, width);
    if blocks != [] {
      var n := |blocks| - 1;
      var pre := blocks[..n];
      ConcatBlocks(pre, width);
      var c := Concat(pre);
      assert Concat(blocks) == c + blocks[n];
      forall o, i | 0 <= o < |blocks| && 0 <= i < width
        ensures Flat(o, i, width) < |Concat(blocks)| && Concat(blocks)[Flat(o, i, width)] == blocks[o][i]
      {
        if o < n {
          FlatBelow(o, i, n, width);
          assert pre[o] == blocks[o];
        }
      }
    }
  }

  /** Every element of the stacked sequence comes from one of the blocks. */
  lemma {:induction false} ConcatMember<T>(blocks: seq<seq<T>>, v: T)
    ensures v in Concat(blocks) <==> exists o :: 0 <= o < |blocks| && v in blocks[o]
  {
    if blocks != [] {
      var n := |blocks| - 1;
      ConcatMember(blocks[..n], v);
      assert Concat(blocks) == Concat(blocks[..n]) + blocks[n];
      assert forall o :: 0 <= o < n ==> blocks[..n][o] == blocks[o];
    }
  }

  function Sum(s: seq<real>): real
  {
    if s == [] then 0.0 else Sum(s[..|s| - 1]) + s[|s| - 1]
  }

  /** The sequence 0, 1, ..., n-1 (a default pandas index). */
  function Range(n: nat): (r: seq<nat>)
    ensures |r| == n && forall i :: 0 <= i < n ==> r[i] == i
  {
    seq(n, i => i)
  }

  predicate Increasing(ks: seq<nat>)
  {
    forall j, j' :: 0 <= j < j' < |ks| ==> ks[j] < ks[j']
  }

  /** The positions below n that satisfy p, in increasing order: the rows a
      pandas boolean mask keeps. */
  function Where(n: nat, p: nat -> bool): (ks: seq<nat>)
    ensures forall j :: 0 <= j < |ks| ==> ks[j] < n && p(ks[j])
    ensures forall i :: 0 <= i < n && p(i) ==> i in ks
    ensures Increasing(ks)
  {
    if n == 0 then []
    else
      var ks' := Where(n - 1, p);
      if p(n - 1) then ks' + [n - 1] else ks'
  }

  /** numpy boolean indexing s[mask] on equally long arrays. */
  function Compress<T>(s: seq<T>, mask: seq<bool>): (r: seq<T>)
    requires |s| == |mask|
    ensures |r| <= |s|
    ensures forall x :: x in r ==> x in s
  {
    if s == [] then []
    else
      var r' := Compress(s[..|s| - 1], mask[..|s| - 1]);
      if mask[|s| - 1] then r' + [s[|s| - 1]] else r'
  }

  lemma {:induction false} SumAppend(a: seq<real>, b: seq<real>)
    ensures Sum(a + b) == Sum(a) + Sum(b)
  {
    if b == [] {
      assert a + b == a;
    } else {
      assert (a + b)[..|a + b| - 1] == a + b[..|b| - 1];
      SumAppend(a, b[..|b| - 1]);
    }
  }

  lemma {:induction false} SumNonNegative(s: seq<real>)
    requires forall i :: 0 <= i < |s| ==> s[i] >= 0.0
    ensures Sum(s) >= 0.0
  {
    if s != [] {
      SumNonNegative(s[..|s| - 1]);
    }
  }

  /** Masking away non-negative terms never increases a sum. */
  lemma {:induction false} CompressSumBounded(s: seq<real>, mask: seq<bool>)
    requires |s| == |mask|
    requires forall i :: 0 <= i < |s| ==> s[i] >= 0.0
    ensures 0.0 <= Sum(Compress(s, mask)) <= Sum(s)
  {
    if s != [] {
      CompressSumBounded(s[..|s| - 1], mask[..|s| - 1]);
      var r' := Compress(s[..|s| - 1], mask[..|s| - 1]);
      if mask[|s| - 1] {
        SumAppend(r', [s[|s| - 1]]);
        assert Sum([s[|s| - 1]]) == s[|s| - 1] by {
          assert [s[|s| - 1]][..0] == [];
        }
      }
    }
  }

  /** A mask that keeps everything keeps the sum. */
  lemma {:induction false} CompressAll<T>(s: seq<T>, mask: seq<bool>)
    requires |s| == |mask|
    requires forall i :: 0 <= i < |mask| ==> mask[i]
    ensures Compress(s, mask) == s
  {
    if s != [] {
      CompressAll(s[..|s| - 1], mask[..|s| - 1]);
    }
  }

  /** A mask that keeps nothing gives the empty array. */
  lemma {:induction false} CompressNone<T>(s: seq<T>, mask: seq<bool>)
    requires |s| == |mask|
    requires forall i :: 0 <= i < |mask| ==> !mask[i]
    ensures Compress(s, mask) == []
  {
    if s != [] {
      CompressNone(s[..|s| - 1], mask[..|s| - 1]);
    }
  }

  /** A mask that drops at least one entry gives a strictly shorter array. */
  lemma {:induction false} CompressDrops<T>(s: seq<T>, mask: seq<bool>)
    requires |s| == |mask|
    requires exists i :: 0 <= i < |mask| && !mask[i]
    ensures |Compress(s, mask)| < |s|
  {
    var i :| 0 <= i < |mask| && !mask[i];
    if i < |s| - 1 {
      assert !mask[..|s| - 1][i];
      CompressDrops(s[..|s| - 1], mask[..|s| - 1]);
    }
  }

  lemma {:induction false} CompressAppend<T>(s: seq<T>, m: seq<bool>, t: seq<T>, n: seq<bool>)
    requires |s| == |m| && |t| == |n|
    ensures Compress(s + t, m + n) == Compress(s, m) + Compress(t, n)
  {
    if t == [] {
      assert s + t == s && m + n == m;
    } else {
      assert (s + t)[..|s + t| - 1] == s + t[..|t| - 1];
      assert (m + n)[..|m + n| - 1] == m + n[..|n| - 1];
      CompressAppend(s, m, t[..|t| - 1], n[..|n| - 1]);
    }
  }

  /** The last element of an increasing sequence is its largest, and every
      other member lies before it. */
  lemma IncreasingLast(a: seq<nat>)
    requires Increasing(a) && a != []
    ensures a[|a| - 1] in a
    ensures forall i :: i in a ==> i <= a[|a| - 1]
    ensures forall i :: i in a[..|a| - 1] ==> i in a && i < a[|a| - 1]
    ensures forall i :: i in a && i != a[|a| - 1] ==> i in a[..|a| - 1]
  {
    forall i | i in a[..|a| - 1] ensures i in a && i < a[|a| - 1] {
      var j :| 0 <= j < |a| - 1 && a[..|a| - 1][j] == i;
      assert a[j] == i;
    }
    forall i | i in a && i != a[|a| - 1] ensures i in a[..|a| - 1] {
      var j :| 0 <= j < |a| && a[j] == i;
      assert a[..|a| - 1][j] == i;
    }
  }

  /** Two increasing sequences with the same members are equal. */
  lemma {:induction false} IncreasingSameMembers(a: seq<nat>, b: seq<nat>)
    requires Increasing(a) && Increasing(b)
    requires forall i :: i in a <==> i in b
    ensures a == b
    decreases |a| + |b|
  {
    assert a != [] ==> a[0] in b;
    assert b != [] ==> b[0] in a;
    if a != [] && b != [] {
      IncreasingLast(a);
      IncreasingLast(b);
      var la, lb := a[|a| - 1], b[|b| - 1];
      assert la == lb;
      var a', b' := a[..|a| - 1], b[..|b| - 1];
      assert la !in a' && lb !in b';
      forall i ensures i in a' <==> i in b' {
        if i in a' { assert i in b && i != lb; }
        if i in b' { assert i in a && i != la; }
      }
      IncreasingSameMembers(a', b');
      assert a == a' + [la] && b == b' + [lb];
    }
  }
}
