/** The fixed orthogonal-collocation tables: for n collocation nodes (2 to 6),
    the (n-1) x (n-1) coefficient matrix relating interior derivatives to
    interior states, and the n Lobatto node positions on [0, 1]. */
module Collocation {
  import opened Wrappers
  import opened Tables

  /** The square root the node positions are written with. The numeric
      library's routine is not part of this model; every property below that
      needs it assumes only that it is a square root. */
  ghost predicate IsSqrt(sqrt: real -> real)
  {
    forall x :: 0.0 <= x ==> 0.0 <= sqrt(x) && sqrt(x) * sqrt(x) == x
  }

  /** The collocation matrix for n nodes. Outside 2..6 no branch binds the
      result, so the call raises. */
  function Colloc(n: int): (r: Result<Table>)
    ensures r.Ok? <==> 2 <= n <= 6
    ensures r.Ok? ==> |r.value| == n - 1 && IsTable(r.value, n - 1)
  {
    if n == 2 then Ok([[1.0]])
    else if n == 3 then Ok([[0.75, -0.25],
                            [1.00, 0.00]])
    else if n == 4 then Ok([[0.436, -0.281, 0.121],
                            [0.614, 0.064, 0.0461],
                            [0.603, 0.230, 0.167]])
    else if n == 5 then Ok([[0.278, -0.202, 0.169, -0.071],
                            [0.398, 0.069, 0.064, -0.031],
                            [0.387, 0.234, 0.278, -0.071],
                            [0.389, 0.222, 0.389, 0.000]])
    else if n == 6 then Ok([[0.191, -0.147, 0.139, -0.113, 0.047],
                            [0.276, 0.059, 0.051, -0.050, 0.022],
                            [0.267, 0.193, 0.252, -0.114, 0.045],
                            [0.269, 0.178, 0.384, 0.032, 0.019],
                            [0.269, 0.181, 0.374, 0.110, 0.067]])
    else Raise(UnboundLocalError)
  }

  /** The Lobatto node positions for n nodes, first 0 and last 1. Outside
      2..6 the call raises. */
  function Tc(n: int, sqrt: real -> real): (r: Result<seq<real>>)
    ensures r.Ok? <==> 2 <= n <= 6
    ensures r.Ok? ==> |r.value| == n && r.value[0] == 0.0 && r.value[n - 1] == 1.0
  {
    if n == 2 then Ok([0.0, 1.0])
    else if n == 3 then Ok([0.0, 0.5, 1.0])
    else if n == 4 then Ok([0.0, 0.5 - sqrt(5.0) / 10.0, 0.5 + sqrt(5.0) / 10.0, 1.0])
    else if n == 5 then Ok([0.0, 0.5 - sqrt(21.0) / 14.0, 0.5, 0.5 + sqrt(21.0) / 14.0, 1.0])
    else if n == 6 then
      var a := sqrt((7.0 + 2.0 * sqrt(7.0)) / 21.0) / 2.0;
      var b := sqrt((7.0 - 2.0 * sqrt(7.0)) / 21.0) / 2.0;
      Ok([0.0, 0.5 - a, 0.5 - b, 0.5 + b, 0.5 + a, 1.0])
    else Raise(UnboundLocalError)
  }

  /** The node positions are symmetric about 1/2, whatever the square roots
      evaluate to. */
  lemma TcSymmetric(n: int, sqrt: real -> real)
    requires 2 <= n <= 6
    ensures forall i :: 0 <= i < n ==> Tc(n, sqrt).value[i] + Tc(n, sqrt).value[n - 1 - i] == 1.0
  {
  }

  lemma PositiveFactor(x: real, y: real)
    requires 0.0 < x * y && 0.0 <= y
    ensures 0.0 < x
  {
  }

  lemma ZeroFactor(x: real, y: real)
    requires x * y == 0.0
    ensures x == 0.0 || y == 0.0
  {
  }

  /** Between non-negative reals, squaring preserves strict order. */
  lemma SquaresOrdered(s: real, b: real)
    requires 0.0 <= s && 0.0 <= b && s * s < b * b
    ensures s < b
  {
    assert (b - s) * (b + s) == b * b - s * s;
    PositiveFactor(b - s, b + s);
  }

  /** Between non-negative reals, equal squares mean equal bases. */
  lemma SquaresEqual(s: real, b: real)
    requires 0.0 <= s && 0.0 <= b && s * s == b * b
    ensures s == b
  {
    assert (b - s) * (b + s) == b * b - s * s;
    ZeroFactor(b - s, b + s);
  }

  lemma SqrtPositive(sqrt: real -> real, x: real)
    requires IsSqrt(sqrt) && 0.0 < x
    ensures 0.0 < sqrt(x)
  {
    assert 0.0 <= sqrt(x) && sqrt(x) * sqrt(x) == x;
  }

  /** The square root is strictly increasing. */
  lemma SqrtMonotone(sqrt: real -> real, x: real, y: real)
    requires IsSqrt(sqrt) && 0.0 <= x < y
    ensures sqrt(x) < sqrt(y)
  {
    assert 0.0 <= sqrt(x) && sqrt(x) * sqrt(x) == x;
    assert 0.0 <= sqrt(y) && sqrt(y) * sqrt(y) == y;
    SquaresOrdered(sqrt(x), sqrt(y));
  }

  /** For every supported order the node positions are strictly increasing. */
  lemma TcIncreasing(n: int, sqrt: real -> real)
    requires IsSqrt(sqrt) && 2 <= n <= 6
    ensures forall i, j :: 0 <= i < j < n ==> Tc(n, sqrt).value[i] < Tc(n, sqrt).value[j]
  {
    if n == 4 {
      SqrtPositive(sqrt, 5.0);
      SqrtMonotone(sqrt, 5.0, 25.0);
      assert sqrt(25.0) == 5.0 by { SquareRootOf(sqrt, 5.0); }
    } else if n == 5 {
      SqrtPositive(sqrt, 21.0);
      SqrtMonotone(sqrt, 21.0, 49.0);
      assert sqrt(49.0) == 7.0 by { SquareRootOf(sqrt, 7.0); }
    } else if n == 6 {
      var r7 := sqrt(7.0);
      SqrtPositive(sqrt, 7.0);
      SqrtMonotone(sqrt, 7.0, 12.25);
      assert sqrt(12.25) == 3.5 by { SquareRootOf(sqrt, 3.5); }
      var p, q := (7.0 - 2.0 * r7) / 21.0, (7.0 + 2.0 * r7) / 21.0;
      assert 0.0 < p < q < 1.0;
      SqrtPositive(sqrt, p);
      SqrtMonotone(sqrt, p, q);
      SqrtMonotone(sqrt, q, 1.0);
      assert sqrt(1.0) == 1.0 by { SquareRootOf(sqrt, 1.0); }
    }
  }

  /** The root of a square is the non-negative base. */
  lemma SquareRootOf(sqrt: real -> real, b: real)
    requires IsSqrt(sqrt) && 0.0 <= b
    ensures sqrt(b * b) == b
  {
    var s := sqrt(b * b);
    assert 0.0 <= s && s * s == b * b;
    SquaresEqual(s, b);
  }

  function RowSum(r: seq<real>): real
  {
    if r == [] then 0.0 else r[0] + RowSum(r[1..])
  }

  /** For two and three nodes the coefficients are exact: row i sums to the
      interior node position i + 1, so a constant derivative c gives the
      interior values x0 + c * dt * t[i + 1]. */
  lemma ExactRowSums(n: int, sqrt: real -> real)
    requires n == 2 || n == 3
    ensures forall i :: 0 <= i < n - 1 ==> RowSum(Colloc(n).value[i]) == Tc(n, sqrt).value[i + 1]
  {
    if n == 3 {
      assert RowSum([0.75, -0.25]) == 0.5 by {
        assert [0.75, -0.25][1..] == [-0.25];
        assert [-0.25][1..] == [];
      }
      assert RowSum([1.00, 0.00]) == 1.0 by {
        assert [1.00, 0.00][1..] == [0.00];
        assert [0.00][1..] == [];
      }
    } else {
      assert [1.0][1..] == [];
    }
  }

  /** The last row gives the element's end value. It sums to 1 for two to five
      nodes; the rounded table for six nodes sums to 1.001, so a constant
      derivative c advances the state by 1.001 * c * dt per element. */
  lemma LastRowSums(n: int)
    requires 2 <= n <= 6
    ensures RowSum(Colloc(n).value[n - 2]) == if n == 6 then 1.001 else 1.0
  {
    var row := Colloc(n).value[n - 2];
    if n == 6 {
      assert row[1..] == [0.181, 0.374, 0.110, 0.067];
      assert row[2..] == [0.374, 0.110, 0.067];
      assert row[3..] == [0.110, 0.067];
      assert row[4..] == [0.067];
    } else if n == 5 {
      assert row[1..] == [0.222, 0.389, 0.000];
      assert row[2..] == [0.389, 0.000];
      assert row[3..] == [0.000];
    } else if n == 4 {
      assert row[1..] == [0.230, 0.167];
      assert row[2..] == [0.167];
    } else if n == 3 {
      assert row[1..] == [0.00];
    }
    assert row[|row|..] == [];
  }
}
