/** Two-dimensional numeric tables, row-major as numpy stores them, and the
    reshape, slice and concatenate operations the stepping engine performs on
    them. A table is a sequence of rows; its width is stated separately,
    because numpy keeps the column count of a table with no rows. */
module Tables {
  import opened Wrappers

  type Row = seq<real>
  type Table = seq<Row>

  /** Every row of t has exactly w entries. */
  predicate IsTable(t: Table, w: nat)
  {
    forall r :: 0 <= r < |t| ==> |t[r]| == w
  }

  /** numpy's reshape(-1): the rows of t one after another. */
  function Flatten(t: Table): seq<real>
  {
    if t == [] then [] else t[0] + Flatten(t[1..])
  }

  lemma {:induction false} FlattenLength(t: Table, w: nat)
    requires IsTable(t, w)
    ensures |Flatten(t)| == |t| * w
  {
    if t != [] {
      FlattenLength(t[1..], w);
    }
  }

  lemma {:induction false} FlattenAt(t: Table, w: nat, r: nat, c: nat)
    requires IsTable(t, w) && r < |t| && c < w
    ensures r * w + c < |Flatten(t)| && Flatten(t)[r * w + c] == t[r][c]
  {
    FlattenLength(t, w);
    if r > 0 {
      FlattenAt(t[1..], w, r - 1, c);
      assert r * w + c == w + ((r - 1) * w + c);
    }
  }

  lemma {:induction false} FlattenAppend(a: Table, b: Table)
    ensures Flatten(a + b) == Flatten(a) + Flatten(b)
  {
    if a != [] {
      assert (a + b)[1..] == a[1..] + b;
      FlattenAppend(a[1..], b);
    } else {
      assert a + b == b;
    }
  }

  /** numpy's reshape(rows, cols) of a flat vector: a ValueError unless the
      sizes agree. */
  function Reshape(v: seq<real>, rows: nat, cols: nat): (r: Result<Table>)
    ensures r.Ok? <==> |v| == rows * cols
    ensures r.Ok? ==> |r.value| == rows && IsTable(r.value, cols)
  {
    if |v| != rows * cols then Raise(ValueError)
    else Ok(ReshapeRows(v, rows, cols))
  }

  function ReshapeRows(v: seq<real>, rows: nat, cols: nat): (t: Table)
    requires |v| == rows * cols
    ensures |t| == rows && IsTable(t, cols)
    decreases rows
  {
    if rows == 0 then []
    else
      assert |v[cols..]| == (rows - 1) * cols;
      [v[..cols]] + ReshapeRows(v[cols..], rows - 1, cols)
  }

  /** Reshaping and flattening are inverse to each other. */
  lemma {:induction false} FlattenReshape(v: seq<real>, rows: nat, cols: nat)
    requires |v| == rows * cols
    ensures Flatten(ReshapeRows(v, rows, cols)) == v
    decreases rows
  {
    if rows > 0 {
      assert |v[cols..]| == (rows - 1) * cols;
      FlattenReshape(v[cols..], rows - 1, cols);
    }
  }

  lemma {:induction false} ReshapeFlatten(t: Table, cols: nat)
    requires IsTable(t, cols)
    ensures |Flatten(t)| == |t| * cols
    ensures ReshapeRows(Flatten(t), |t|, cols) == t
  {
    FlattenLength(t, cols);
    if t != [] {
      ReshapeFlatten(t[1..], cols);
      FlattenLength(t[1..], cols);
      assert Flatten(t)[..cols] == t[0];
      assert Flatten(t)[cols..] == Flatten(t[1..]);
    }
  }

  /** numpy's t[:, lo:hi]. */
  function Columns(t: Table, lo: nat, hi: nat): (s: Table)
    requires lo <= hi
    requires forall r :: 0 <= r < |t| ==> hi <= |t[r]|
    ensures |s| == |t| && IsTable(s, hi - lo)
    ensures forall r, c :: 0 <= r < |t| && 0 <= c < hi - lo ==> s[r][c] == t[r][lo + c]
  {
    seq(|t|, r requires 0 <= r < |t| => t[r][lo..hi])
  }

  /** numpy's t[:, j]. */
  function Column(t: Table, j: nat): (c: seq<real>)
    requires forall r :: 0 <= r < |t| ==> j < |t[r]|
    ensures |c| == |t| && forall r :: 0 <= r < |t| ==> c[r] == t[r][j]
  {
    seq(|t|, r requires 0 <= r < |t| => t[r][j])
  }

  /** A table of the given shape holding only zeros (numpy.zeros). */
  function Zeros(rows: nat, cols: nat): (t: Table)
    ensures |t| == rows && IsTable(t, cols)
    ensures forall r, c :: 0 <= r < rows && 0 <= c < cols ==> t[r][c] == 0.0
  {
    seq(rows, _ => seq(cols, _ => 0.0))
  }

  /** Tables a and b side by side: numpy.concatenate((a, b), 1). */
  function Beside(a: Table, b: Table): (t: Table)
    requires |a| == |b|
    ensures |t| == |a| && forall r :: 0 <= r < |a| ==> t[r] == a[r] + b[r]
  {
    seq(|a|, r requires 0 <= r < |a| => a[r] + b[r])
  }

  /** numpy.concatenate(ts, 1): the tables side by side, in order. numpy
      refuses an empty list, and tables whose row counts differ. */
  function ConcatColumns(ts: seq<Table>): (r: Result<Table>)
    ensures r.Ok? <==> ts != [] && forall k :: 0 <= k < |ts| ==> |ts[k]| == |ts[0]|
    ensures r.Ok? ==> |r.value| == |ts[0]|
  {
    if ts == [] then Raise(ValueError)
    else if exists k :: 0 <= k < |ts| && |ts[k]| != |ts[0]| then Raise(ValueError)
    else Ok(SideBySide(ts, |ts[0]|))
  }

  function SideBySide(ts: seq<Table>, rows: nat): (t: Table)
    requires forall k :: 0 <= k < |ts| ==> |ts[k]| == rows
    ensures |t| == rows
  {
    if ts == [] then Zeros(rows, 0)
    else Beside(SideBySide(ts[..|ts| - 1], rows), ts[|ts| - 1])
  }

  /** The widths of the tables, which side by side give the total width. */
  lemma {:induction false} SideBySideWidth(ts: seq<Table>, rows: nat, widths: seq<nat>)
    requires |widths| == |ts|
    requires forall k :: 0 <= k < |ts| ==> |ts[k]| == rows && IsTable(ts[k], widths[k])
    ensures IsTable(SideBySide(ts, rows), SumNat(widths))
  {
    if ts != [] {
      SideBySideWidth(ts[..|ts| - 1], rows, widths[..|widths| - 1]);
    }
  }

  /** Column j of table k sits, side by side, after the columns of the tables
      before it. */
  lemma {:induction false} SideBySideAt(ts: seq<Table>, rows: nat, widths: seq<nat>, k: nat, r: nat, c: nat)
    requires |widths| == |ts|
    requires forall i :: 0 <= i < |ts| ==> |ts[i]| == rows && IsTable(ts[i], widths[i])
    requires k < |ts| && r < rows && c < widths[k]
    ensures SumNat(widths[..k]) + c < SumNat(widths) == |SideBySide(ts, rows)[r]|
    ensures IsTable(ts[k], widths[k]) && SideBySide(ts, rows)[r][SumNat(widths[..k]) + c] == ts[k][r][c]
  {
    SideBySideWidth(ts, rows, widths);
    var n := |ts| - 1;
    SideBySideWidth(ts[..n], rows, widths[..n]);
    if k == n {
      assert widths[..n] == widths[..k];
    } else {
      SideBySideAt(ts[..n], rows, widths[..n], k, r, c);
      assert widths[..n][..k] == widths[..k];
      SumNatPrefix(widths, n);
    }
  }

  lemma SumNatPrefix(s: seq<nat>, n: nat)
    requires n < |s|
    ensures SumNat(s[..n]) + s[n] == SumNat(s[..n + 1])
  {
    assert s[..n + 1][..n] == s[..n];
  }

  /** numpy's a.dot(b). */
  function MatMul(a: Table, b: Table, cols: nat): (m: Table)
    requires forall r :: 0 <= r < |a| ==> |a[r]| == |b|
    requires IsTable(b, cols)
    ensures |m| == |a| && IsTable(m, cols)
  {
    seq(|a|, r requires 0 <= r < |a| =>
      seq(cols, c requires 0 <= c < cols => Dot(a[r], Column(b, c))))
  }

  function Dot(u: seq<real>, v: seq<real>): real
    requires |u| == |v|
  {
    if u == [] then 0.0 else Dot(u[..|u| - 1], v[..|v| - 1]) + u[|u| - 1] * v[|v| - 1]
  }

  /** Entry-wise c * a + b - d, for tables of one shape. */
  function Combine(c: real, a: Table, b: Table, d: Table, cols: nat): (t: Table)
    requires |a| == |b| == |d| && IsTable(a, cols) && IsTable(b, cols) && IsTable(d, cols)
    ensures |t| == |a| && IsTable(t, cols)
    ensures forall r, j :: 0 <= r < |a| && 0 <= j < cols ==> t[r][j] == c * a[r][j] + b[r][j] - d[r][j]
  {
    seq(|a|, r requires 0 <= r < |a| =>
      seq(cols, j requires 0 <= j < cols => c * a[r][j] + b[r][j] - d[r][j]))
  }
}
