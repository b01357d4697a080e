/** The values a block attribute holds: a Python float (a scalar) or a
    one-dimensional numpy array (a column with one entry per collocation
    node), with numpy's broadcasting rules for combining them. */
module Values {
  import opened Wrappers
  import opened Tables

  datatype Value = Scalar(x: real) | Column(c: seq<real>)

  /** Applies f to every entry. */
  function Map(v: Value, f: real -> real): (r: Value)
    ensures r.Scalar? == v.Scalar?
    ensures v.Scalar? ==> r.x == f(v.x)
    ensures v.Column? ==> |r.c| == |v.c| && forall i :: 0 <= i < |v.c| ==> r.c[i] == f(v.c[i])
  {
    match v
    case Scalar(x) => Scalar(f(x))
    case Column(c) => Column(seq(|c|, i requires 0 <= i < |c| => f(c[i])))
  }

  /** Two columns can be combined when their lengths agree or one has length 1. */
  predicate Broadcastable(a: Value, b: Value)
  {
    a.Scalar? || b.Scalar? || |a.c| == |b.c| || |a.c| == 1 || |b.c| == 1
  }

  /** numpy's element-wise f(a, b) with broadcasting; a ValueError when the
      lengths are neither equal nor 1. */
  function Zip(a: Value, b: Value, f: (real, real) -> real): (r: Result<Value>)
    ensures r.Ok? <==> Broadcastable(a, b)
    ensures r.Ok? && a.Column? && b.Column? && |a.c| == |b.c| ==>
      r.value.Column? && |r.value.c| == |a.c| &&
      forall i :: 0 <= i < |a.c| ==> r.value.c[i] == f(a.c[i], b.c[i])
    ensures r.Ok? && a.Scalar? && b.Scalar? ==> r.value == Scalar(f(a.x, b.x))
  {
    match (a, b)
    case (Scalar(x), Scalar(y)) => Ok(Scalar(f(x, y)))
    case (Scalar(x), Column(c)) => Ok(Column(seq(|c|, i requires 0 <= i < |c| => f(x, c[i]))))
    case (Column(c), Scalar(y)) => Ok(Column(seq(|c|, i requires 0 <= i < |c| => f(c[i], y))))
    case (Column(c), Column(d)) =>
      if |c| == |d| then Ok(Column(seq(|c|, i requires 0 <= i < |c| => f(c[i], d[i]))))
      else if |c| == 1 then Ok(Column(seq(|d|, i requires 0 <= i < |d| => f(c[0], d[i]))))
      else if |d| == 1 then Ok(Column(seq(|c|, i requires 0 <= i < |c| => f(c[i], d[0]))))
      else Raise(ValueError)
  }

  function Minus(a: Value, b: Value): Result<Value>
  {
    Zip(a, b, (x, y) => x - y)
  }

  /** The n entries v takes when assigned into an n-row column (numpy's
      t[:, j] = v): a scalar or a one-entry column is repeated, a column of
      length n is taken as is, anything else raises ValueError. */
  function Fit(v: Value, n: nat): (r: Result<seq<real>>)
    ensures r.Ok? <==> v.Scalar? || |v.c| == n || |v.c| == 1
    ensures r.Ok? ==> |r.value| == n
    ensures r.Ok? && v.Column? && |v.c| == n ==> r.value == v.c
    ensures r.Ok? && v.Scalar? ==> r.value == Repeat(v.x, n)
  {
    match v
    case Scalar(x) => Ok(Repeat(x, n))
    case Column(c) =>
      if |c| == n then Ok(c)
      else if |c| == 1 then Ok(Repeat(c[0], n))
      else Raise(ValueError)
  }

  /** numpy's t[:, j] = v on a table of the given width: an IndexError when
      column j does not exist. Every other column is left as it was. */
  function SetColumn(t: Table, width: nat, j: nat, v: Value): (r: Result<Table>)
    requires IsTable(t, width)
    ensures r.Ok? <==> j < width && Fit(v, |t|).Ok?
    ensures r.Ok? ==> |r.value| == |t| && IsTable(r.value, width)
    ensures r.Ok? ==> forall row, col :: 0 <= row < |t| && 0 <= col < width ==>
      r.value[row][col] == if col == j then Fit(v, |t|).value[row] else t[row][col]
  {
    if j >= width then Raise(IndexError)
    else
      var col :- Fit(v, |t|);
      Ok(seq(|t|, row requires 0 <= row < |t| => t[row][j := col[row]]))
  }

  /** acc += v for a numpy array acc: v must broadcast to acc's length, which
      does not change. */
  function AddInto(acc: seq<real>, v: Value): (r: Result<seq<real>>)
    ensures r.Ok? <==> Fit(v, |acc|).Ok?
    ensures r.Ok? ==> |r.value| == |acc|
    ensures r.Ok? ==> forall i :: 0 <= i < |acc| ==> r.value[i] == acc[i] + Fit(v, |acc|).value[i]
  {
    var col :- Fit(v, |acc|);
    Ok(seq(|acc|, i requires 0 <= i < |acc| => acc[i] + col[i]))
  }
}
