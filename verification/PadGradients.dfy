/** The hand-written backward passes against the definition of an adjoint, over rows of reals. */
module PadGradients {
  import opened Orders
  import opened PadUnpad

  type Row = seq<real>

  ghost predicate IsMatrix(x: seq<Row>, n: nat, width: nat) {
    |x| == n && forall i :: 0 <= i < n ==> |x[i]| == width
  }

  function RowDot(a: Row, b: Row): real
    requires |a| == |b|
  {
    if a == [] then 0.0 else a[0] * b[0] + RowDot(a[1..], b[1..])
  }

  function Dot(x: seq<Row>, y: seq<Row>): real
    requires |x| == |y| && forall i :: 0 <= i < |x| ==> |x[i]| == |y[i]|
  {
    if x == [] then 0.0
    else
      var m := |x| - 1;
      Dot(x[..m], y[..m]) + RowDot(x[m], y[m])
  }

  function ZeroRow(width: nat): (r: Row)
    ensures |r| == width
  {
    seq(width, _ => 0.0)
  }

  lemma {:induction false} RowDotZero(a: Row)
    ensures RowDot(a, ZeroRow(|a|)) == 0.0
  {
    if a != [] {
      assert ZeroRow(|a|)[1..] == ZeroRow(|a| - 1);
      RowDotZero(a[1..]);
    }
  }

  lemma {:induction false} DotZero(x: seq<Row>, n: nat, width: nat)
    requires IsMatrix(x, n, width)
    ensures Dot(x, seq(n, _ => ZeroRow(width))) == 0.0
  {
    if n > 0 {
      DotZero(x[..n - 1], n - 1, width);
      RowDotZero(x[n - 1]);
      assert seq(n, _ => ZeroRow(width))[..n - 1] == seq(n - 1, _ => ZeroRow(width));
    }
  }

  lemma {:induction false} DotUpdate(x: seq<Row>, y: seq<Row>, n: nat, width: nat, j: nat, r: Row)
    requires IsMatrix(x, n, width) && IsMatrix(y, n, width) && j < n && |r| == width
    ensures Dot(x, y[j := r]) == Dot(x, y) - RowDot(x[j], y[j]) + RowDot(x[j], r)
  {
    var m := n - 1;
    if j == m {
      assert y[j := r][..m] == y[..m];
    } else {
      DotUpdate(x[..m], y[..m], m, width, j, r);
      assert y[j := r][..m] == y[..m][j := r];
    }
  }

  lemma {:induction false} ScatterIsMatrix(g: seq<Row>, indices: seq<nat>, n: nat, width: nat)
    requires IsMatrix(g, |indices|, width) && InRange(indices, n)
    ensures IsMatrix(Scatter(g, indices, n, ZeroRow(width)), n, width)
    decreases |indices|
  {
    if indices != [] {
      var m := |indices| - 1;
      ScatterIsMatrix(g[..m], indices[..m], n, width);
    }
  }

  /** <input[indices], g> == <input, scatter of g>, when no index repeats. */
  lemma {:induction false} GatherAgainstScatter(x: seq<Row>, g: seq<Row>, indices: seq<nat>, width: nat)
    requires IsMatrix(x, |x|, width) && IsMatrix(g, |indices|, width) && InRange(indices, |x|) && Distinct(indices)
    ensures IsMatrix(Scatter(g, indices, |x|, ZeroRow(width)), |x|, width)
    ensures Dot(Gather(x, indices), g) == Dot(x, Scatter(g, indices, |x|, ZeroRow(width)))
    decreases |indices|
  {
    var n := |x|;
    ScatterIsMatrix(g, indices, n, width);
    if indices == [] {
      DotZero(x, n, width);
    } else {
      var m := |indices| - 1;
      var j, before := indices[m], Scatter(g[..m], indices[..m], n, ZeroRow(width));
      ScatterIsMatrix(g[..m], indices[..m], n, width);
      GatherAgainstScatter(x, g[..m], indices[..m], width);
      ScatterIsWritten(g[..m], indices[..m], n, ZeroRow(width));
      assert j !in indices[..m];
      assert IsWrittenAt(before[j], g[..m], indices[..m], j, ZeroRow(width));
      DotUpdate(x, before, n, width, j, g[m]);
      RowDotZero(x[j]);
      assert Gather(x, indices)[..m] == Gather(x, indices[..m]);
    }
  }

  /** Every result that an overwriting scatter may leave is the gradient of the gather. */
  ghost predicate BackwardIsAdjoint(indices: seq<nat>, n: nat, width: nat)
    requires InRange(indices, n)
  {
    forall x: seq<Row>, g: seq<Row>, grad: seq<Row> ::
      && IsMatrix(x, n, width) && IsMatrix(g, |indices|, width) && IsMatrix(grad, n, width)
      && IsWritten(grad, g, indices, n, ZeroRow(width))
      ==> Dot(Gather(x, indices), g) == Dot(x, grad)
  }

  /** The backward pass of IndexFirstAxis is right exactly because unpad_input never repeats an index. */
  lemma ScatterBackwardIff(indices: seq<nat>, n: nat, width: nat)
    requires InRange(indices, n) && width > 0
    ensures BackwardIsAdjoint(indices, n, width) <==> Distinct(indices)
  {
    if Distinct(indices) {
      forall x: seq<Row>, g: seq<Row>, grad: seq<Row> |
        IsMatrix(x, n, width) && IsMatrix(g, |indices|, width) && IsMatrix(grad, n, width)
        && IsWritten(grad, g, indices, n, ZeroRow(width))
        ensures Dot(Gather(x, indices), g) == Dot(x, grad)
      {
        WrittenOnce(grad, g, indices, n, ZeroRow(width));
        GatherAgainstScatter(x, g, indices, width);
      }
    } else {
      var a, b :| 0 <= a < b < |indices| && indices[a] == indices[b];
      RepeatedIndexIsWrong(indices, n, width, a, b);
    }
  }

  // A gradient that is wrong for a repeated index.

  function UnitRow(width: nat): (r: Row)
    requires width > 0
    ensures |r| == width
  {
    [1.0] + ZeroRow(width - 1)
  }

  function UnitAt(j: nat, n: nat, width: nat): (x: seq<Row>)
    requires width > 0 && j < n
    ensures IsMatrix(x, n, width)
  {
    seq(j, _ => ZeroRow(width)) + [UnitRow(width)] + seq(n - j - 1, _ => ZeroRow(width))
  }

  function Units(n: nat, width: nat): (x: seq<Row>)
    requires width > 0
    ensures IsMatrix(x, n, width)
  {
    seq(n, _ => UnitRow(width))
  }

  function Count(indices: seq<nat>, j: nat): nat {
    if indices == [] then 0
    else Count(indices[..|indices| - 1], j) + if indices[|indices| - 1] == j then 1 else 0
  }

  lemma UnitDots(width: nat)
    requires width > 0
    ensures RowDot(UnitRow(width), UnitRow(width)) == 1.0 && RowDot(ZeroRow(width), UnitRow(width)) == 0.0
  {
    assert UnitRow(width)[1..] == ZeroRow(width - 1) && ZeroRow(width)[1..] == ZeroRow(width - 1);
    RowDotZero(ZeroRow(width - 1));
  }

  lemma {:induction false} GatherUnit(indices: seq<nat>, j: nat, n: nat, width: nat)
    requires InRange(indices, n) && width > 0 && j < n
    ensures Dot(Gather(UnitAt(j, n, width), indices), Units(|indices|, width)) == Count(indices, j) as real
    decreases |indices|
  {
    if indices != [] {
      var m := |indices| - 1;
      GatherUnit(indices[..m], j, n, width);
      UnitDots(width);
      assert Gather(UnitAt(j, n, width), indices)[..m] == Gather(UnitAt(j, n, width), indices[..m]);
      assert Units(|indices|, width)[..m] == Units(m, width);
    }
  }

  lemma {:induction false} CountRepeated(indices: seq<nat>, a: nat, b: nat)
    requires a < b < |indices| && indices[a] == indices[b]
    ensures Count(indices, indices[a]) >= 2
  {
    var m := |indices| - 1;
    if b < m {
      CountRepeated(indices[..m], a, b);
    } else {
      CountPresent(indices[..m], a);
    }
  }

  lemma {:induction false} CountPresent(indices: seq<nat>, a: nat)
    requires a < |indices|
    ensures Count(indices, indices[a]) >= 1
  {
    if a < |indices| - 1 { CountPresent(indices[..|indices| - 1], a); }
  }

  /** <unit row at j, grad> is the dot product with row j alone. */
  lemma UnitAgainst(j: nat, grad: seq<Row>, n: nat, width: nat)
    requires width > 0 && j < n && IsMatrix(grad, n, width) && grad[j] == UnitRow(width)
    ensures Dot(grad, UnitAt(j, n, width)) == 1.0
  {
    var zeros := seq(n, _ => ZeroRow(width));
    assert UnitAt(j, n, width) == zeros[j := UnitRow(width)];
    DotZero(grad, n, width);
    DotUpdate(grad, zeros, n, width, j, UnitRow(width));
    RowDotZero(grad[j]);
    UnitDots(width);
  }

  lemma {:induction false} RowDotCommutes(a: Row, b: Row)
    requires |a| == |b|
    ensures RowDot(a, b) == RowDot(b, a)
  {
    if a != [] { RowDotCommutes(a[1..], b[1..]); }
  }

  lemma {:induction false} DotCommutes(x: seq<Row>, y: seq<Row>)
    requires |x| == |y| && forall i :: 0 <= i < |x| ==> |x[i]| == |y[i]|
    ensures Dot(x, y) == Dot(y, x)
  {
    if x != [] {
      var m := |x| - 1;
      DotCommutes(x[..m], y[..m]);
      RowDotCommutes(x[m], y[m]);
    }
  }

  lemma RepeatedIndexIsWrong(indices: seq<nat>, n: nat, width: nat, a: nat, b: nat)
    requires InRange(indices, n) && width > 0 && a < b < |indices| && indices[a] == indices[b]
    ensures !BackwardIsAdjoint(indices, n, width)
  {
    var j, zero, ones := indices[a], ZeroRow(width), Units(|indices|, width);
    var x, grad := UnitAt(j, n, width), Scatter(ones, indices, n, zero);
    ScatterIsMatrix(ones, indices, n, width);
    ScatterIsWritten(ones, indices, n, zero);
    assert IsWrittenAt(grad[j], ones, indices, j, zero);
    GatherUnit(indices, j, n, width);
    CountRepeated(indices, a, b);
    UnitAgainst(j, grad, n, width);
    DotCommutes(x, grad);
    assert IsMatrix(x, n, width) && Dot(Gather(x, indices), ones) != Dot(x, grad);
  }

  /** The backward pass of IndexPutFirstAxis, a gather, is the adjoint of writing rows to distinct places. */
  lemma PutBackwardIsAdjoint(values: seq<Row>, indices: seq<nat>, g: seq<Row>, width: nat)
    requires IsMatrix(values, |indices|, width) && IsMatrix(g, |g|, width) && InRange(indices, |g|) && Distinct(indices)
    ensures IsMatrix(Scatter(values, indices, |g|, ZeroRow(width)), |g|, width)
    ensures Dot(Scatter(values, indices, |g|, ZeroRow(width)), g) == Dot(values, Gather(g, indices))
  {
    GatherAgainstScatter(g, values, indices, width);
    DotCommutes(g, Scatter(values, indices, |g|, ZeroRow(width)));
    DotCommutes(values, Gather(g, indices));
  }
}
