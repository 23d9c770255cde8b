/** The pandas DataFrame operations the specification loop relies on: column
    selection by name, listwise deletion, column removal, positional and
    label-based row selection.  A table is held row by row; every cell is a
    real number or missing (NaN). */
module Frames {
  import opened Common

  type Name = string

  datatype Cell = Value(v: real) | Missing

  /** A DataFrame: column names, one index label per row, and the rows. */
  datatype Frame = Frame(names: seq<Name>, labels: seq<int>, rows: seq<seq<Cell>>)

  predicate WellFormed(f: Frame)
  {
    && |f.labels| == |f.rows|
    && forall i :: 0 <= i < |f.rows| ==> |f.rows[i]| == |f.names|
  }

  /** A row with no missing value. */
  predicate Complete(row: seq<Cell>)
  {
    Missing !in row
  }

  /** The numeric value of a cell; a missing cell never reaches arithmetic in
      the model (see README, "Left out"). */
  function CellValue(c: Cell): real
  {
    if c.Value? then c.v else 0.0
  }

  /** Position of the first column called c. */
  function IndexOf(names: seq<Name>, c: Name): (k: nat)
    requires c in names
    ensures k < |names| && names[k] == c && c !in names[..k]
  {
    if names[0] == c then 0
    else
      var k' := IndexOf(names[1..], c);
      assert names[1..][..k'] == names[1..k' + 1];
      k' + 1
  }

  /** The columns at positions ks, in that order (iloc on columns). */
  function Project(f: Frame, ks: seq<nat>): (g: Frame)
    requires WellFormed(f)
    requires forall j :: 0 <= j < |ks| ==> ks[j] < |f.names|
    ensures WellFormed(g) && g.labels == f.labels && |g.rows| == |f.rows| && |g.names| == |ks|
    ensures forall j :: 0 <= j < |ks| ==> g.names[j] == f.names[ks[j]]
    ensures forall i, j :: 0 <= i < |f.rows| && 0 <= j < |ks| ==> g.rows[i][j] == f.rows[i][ks[j]]
  {
    Frame(seq(|ks|, j requires 0 <= j < |ks| => f.names[ks[j]]),
          f.labels,
          seq(|f.rows|, i requires 0 <= i < |f.rows| =>
            seq(|ks|, j requires 0 <= j < |ks| => f.rows[i][ks[j]])))
  }

  /** df[cols]: the named columns in the order given; a KeyError when one of
      them is not a column of the table. */
  function Select(f: Frame, cols: seq<Name>): (r: Result<Frame>)
    requires WellFormed(f)
    ensures r.Ok? <==> forall c :: c in cols ==> c in f.names
    ensures r.Err? ==> r.error.MissingColumn? && r.error.name in cols && r.error.name !in f.names
    ensures r.Ok? ==> && WellFormed(r.value) && r.value.names == cols
                      && r.value.labels == f.labels && |r.value.rows| == |f.rows|
    ensures r.Ok? ==> forall i, j :: 0 <= i < |f.rows| && 0 <= j < |cols| ==>
                        r.value.rows[i][j] == f.rows[i][IndexOf(f.names, cols[j])]
  {
    var absent := Where(|cols|, (j: nat) => j < |cols| && cols[j] !in f.names);
    if absent != [] then
      Err(MissingColumn(cols[absent[0]]))
    else
      assert forall j :: 0 <= j < |cols| ==> cols[j] in f.names by {
        forall j | 0 <= j < |cols| ensures cols[j] in f.names {
          assert cols[j] !in f.names ==> j in absent;
        }
      }
      var ks: seq<nat> := seq(|cols|, j requires 0 <= j < |cols| => IndexOf(f.names, cols[j]));
      var g := Project(f, ks);
      assert g.names == cols;
      Ok(g)
  }

  /** The rows at positions ks, in that order (iloc on rows). */
  function TakeRows(f: Frame, ks: seq<nat>): (g: Frame)
    requires WellFormed(f)
    requires forall j :: 0 <= j < |ks| ==> ks[j] < |f.rows|
    ensures WellFormed(g) && g.names == f.names && |g.rows| == |ks|
    ensures forall j :: 0 <= j < |ks| ==> g.rows[j] == f.rows[ks[j]] && g.labels[j] == f.labels[ks[j]]
  {
    Frame(f.names,
          seq(|ks|, j requires 0 <= j < |ks| => f.labels[ks[j]]),
          seq(|ks|, j requires 0 <= j < |ks| => f.rows[ks[j]]))
  }

  /** Positions of the rows without a missing value. */
  function CompleteRows(f: Frame): (ks: seq<nat>)
    ensures forall i :: 0 <= i < |f.rows| ==> (i in ks <==> Complete(f.rows[i]))
    ensures forall j :: 0 <= j < |ks| ==> ks[j] < |f.rows|
    ensures Increasing(ks)
  {
    Where(|f.rows|, (i: nat) => i < |f.rows| && Complete(f.rows[i]))
  }

  /** df.dropna(): listwise deletion.  The survivors are exactly the complete
      rows, each once, in their original order and with their labels. */
  function DropNa(f: Frame): (g: Frame)
    requires WellFormed(f)
    ensures WellFormed(g) && g.names == f.names
    ensures forall j :: 0 <= j < |g.rows| ==> Complete(g.rows[j])
    ensures |g.rows| == |CompleteRows(f)|
    ensures forall j :: 0 <= j < |g.rows| ==>
              g.rows[j] == f.rows[CompleteRows(f)[j]] && g.labels[j] == f.labels[CompleteRows(f)[j]]
    ensures forall i :: 0 <= i < |f.rows| && Complete(f.rows[i]) ==> f.rows[i] in g.rows
  {
    var ks := CompleteRows(f);
    var g := TakeRows(f, ks);
    assert forall i :: 0 <= i < |f.rows| && Complete(f.rows[i]) ==> f.rows[i] in g.rows by {
      forall i | 0 <= i < |f.rows| && Complete(f.rows[i])
        ensures f.rows[i] in g.rows
      {
        var j :| 0 <= j < |ks| && ks[j] == i;
        assert g.rows[j] == f.rows[i];
      }
    }
    g
  }

  /** The positions of the columns not called name, left to right. */
  function OtherColumns(names: seq<Name>, name: Name): (ks: seq<nat>)
    ensures forall j :: 0 <= j < |ks| ==> ks[j] < |names|
    ensures forall k :: 0 <= k < |names| ==> (k in ks <==> names[k] != name)
    ensures Increasing(ks)
  {
    Where(|names|, (k: nat) => k < |names| && names[k] != name)
  }

  /** df.drop(columns=[name]): every column called name is removed and the
      others keep their order and cells; a KeyError when there is none. */
  function DropNamed(f: Frame, name: Name): (r: Result<Frame>)
    requires WellFormed(f)
    ensures r.Ok? <==> name in f.names
    ensures r.Ok? ==> && WellFormed(r.value) && name !in r.value.names
                      && r.value.labels == f.labels && |r.value.rows| == |f.rows|
    ensures r.Ok? ==> forall c :: c in f.names && c != name ==> c in r.value.names
    ensures r.Ok? ==> var ks := OtherColumns(f.names, name);
              && |r.value.names| == |ks|
              && (forall j :: 0 <= j < |ks| ==> r.value.names[j] == f.names[ks[j]])
              && forall i, j :: 0 <= i < |f.rows| && 0 <= j < |ks| ==> r.value.rows[i][j] == f.rows[i][ks[j]]
  {
    if name !in f.names then Err(MissingColumn(name))
    else
      var ks := OtherColumns(f.names, name);
      var g := Project(f, ks);
      assert name !in g.names;
      assert forall c :: c in f.names && c != name ==> c in g.names by {
        forall c | c in f.names && c != name
          ensures c in g.names
        {
          var k :| 0 <= k < |f.names| && f.names[k] == c;
          assert k in ks;
          var j :| 0 <= j < |ks| && ks[j] == k;
          assert g.names[j] == c;
        }
      }
      Ok(g)
  }

  /** The values of column k, top to bottom. */
  function Column(f: Frame, k: nat): (col: seq<Cell>)
    requires WellFormed(f) && k < |f.names|
    ensures |col| == |f.rows| && forall i :: 0 <= i < |f.rows| ==> col[i] == f.rows[i][k]
  {
    seq(|f.rows|, i requires 0 <= i < |f.rows| => f.rows[i][k])
  }

  /** pd.concat([col, f], axis=1) for a column indexed like f. */
  function PrependColumn(name: Name, col: seq<Cell>, f: Frame): (g: Frame)
    requires WellFormed(f) && |col| == |f.rows|
    ensures WellFormed(g) && g.names == [name] + f.names && g.labels == f.labels
    ensures |g.rows| == |f.rows| && forall i :: 0 <= i < |f.rows| ==> g.rows[i] == [col[i]] + f.rows[i]
  {
    Frame([name] + f.names, f.labels,
          seq(|f.rows|, i requires 0 <= i < |f.rows| => [col[i]] + f.rows[i]))
  }

  /** Position of the first row labelled l. */
  function RowOfLabel(labels: seq<int>, l: int): (i: nat)
    requires l in labels
    ensures i < |labels| && labels[i] == l
  {
    if labels[0] == l then 0 else RowOfLabel(labels[1..], l) + 1
  }

  /** df.loc[wanted]: the rows labelled wanted[0], wanted[1], ..., and a
      KeyError when one of the labels is not in the index. */
  function LocRows(f: Frame, wanted: seq<int>): (r: Result<Frame>)
    requires WellFormed(f)
    ensures r.Ok? <==> forall l :: l in wanted ==> l in f.labels
    ensures r.Ok? ==> WellFormed(r.value) && r.value.names == f.names && r.value.labels == wanted
    ensures r.Err? ==> r.error.LabelNotFound? && r.error.key in wanted && r.error.key !in f.labels
  {
    var absent := Where(|wanted|, (j: nat) => j < |wanted| && wanted[j] !in f.labels);
    if absent != [] then Err(LabelNotFound(wanted[absent[0]]))
    else
      assert forall j :: 0 <= j < |wanted| ==> wanted[j] in f.labels by {
        forall j | 0 <= j < |wanted| ensures wanted[j] in f.labels {
          assert wanted[j] !in f.labels ==> j in absent;
        }
      }
      var ks: seq<nat> := seq(|wanted|, j requires 0 <= j < |wanted| => RowOfLabel(f.labels, wanted[j]));
      var g := TakeRows(f, ks);
      assert g.labels == wanted;
      Ok(g)
  }
}
