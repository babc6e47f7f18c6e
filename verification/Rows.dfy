/** Shapes, tensors as rows along the first axis, and the reshapes that only regroup rows. */
module Rows {
  function Numel(shape: seq<nat>): nat {
    if shape == [] then 1 else shape[0] * Numel(shape[1..])
  }

  function Concat<T>(blocks: seq<seq<T>>): seq<T> {
    if blocks == [] then [] else blocks[0] + Concat(blocks[1..])
  }

  /** `x.view([n, size, -1])` */
  function Blocks<T>(rows: seq<T>, size: nat, n: nat): seq<seq<T>>
    requires |rows| == n * size
    decreases n
  {
    if n == 0 then []
    else
      BlockFits(n, size);
      [rows[..size]] + Blocks(rows[size..], size, n - 1)
  }

  lemma BlockFits(n: nat, size: nat)
    requires n > 0
    ensures size <= n * size && n * size - size == (n - 1) * size
  {
    assert n * size == (n - 1) * size + size;
    assert (n - 1) * size >= 0;
  }

  lemma {:induction false} BlocksConcat<T>(rows: seq<T>, size: nat, n: nat)
    requires |rows| == n * size
    ensures |Blocks(rows, size, n)| == n && Concat(Blocks(rows, size, n)) == rows
    ensures forall i :: 0 <= i < n ==> |Blocks(rows, size, n)[i]| == size
    decreases n
  {
    if n > 0 {
      BlockFits(n, size);
      BlocksConcat(rows[size..], size, n - 1);
      assert Blocks(rows, size, n)[1..] == Blocks(rows[size..], size, n - 1);
    }
  }

  ghost predicate SameSize<T>(blocks: seq<seq<T>>, size: nat) {
    forall i :: 0 <= i < |blocks| ==> |blocks[i]| == size
  }

  lemma {:induction false} ConcatLength<T>(blocks: seq<seq<T>>, size: nat)
    requires SameSize(blocks, size)
    ensures |Concat(blocks)| == |blocks| * size
  {
    if blocks != [] {
      ConcatLength(blocks[1..], size);
      BlockFits(|blocks|, size);
    }
  }

  lemma {:induction false} ConcatAppend<T>(a: seq<seq<T>>, b: seq<seq<T>>)
    ensures Concat(a + b) == Concat(a) + Concat(b)
  {
    if a == [] {
      assert a + b == b;
    } else {
      assert (a + b)[1..] == a[1..] + b;
      ConcatAppend(a[1..], b);
    }
  }

  lemma MulAssoc(x: nat, y: nat, z: nat)
    ensures (x * y) * z == x * (y * z)
  {
  }

  lemma FirstBlock<T>(rows: seq<T>, first: seq<T>, rest: seq<T>, size: nat, n: nat)
    requires n > 0 && rows == first + rest && |first| == size && |rest| == (n - 1) * size
    ensures |rows| == n * size && Blocks(rows, size, n) == [first] + Blocks(rest, size, n - 1)
  {
    BlockFits(n, size);
    assert rows[..size] == first && rows[size..] == rest;
  }

  /** tensor.max() of a nonempty tensor */
  function MaxOf(s: seq<nat>): (m: nat)
    requires s != []
    ensures m in s && forall i :: 0 <= i < |s| ==> s[i] <= m
  {
    if |s| == 1 then s[0]
    else
      var rest := MaxOf(s[1..]);
      assert forall i :: 1 <= i < |s| ==> s[i] == s[1..][i - 1];
      if s[0] < rest then rest else s[0]
  }
}
