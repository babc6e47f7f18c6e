/**
 verl/utils/npu_flash_attn_utils.py: packing the tokens that a mask selects, unpacking them, and the gather
 and scatter that do it. Rows are generic; gradients are over the reals in PadGradients.
 */
module PadUnpad {
  import opened Orders
  import opened Rows
  import opened Wrappers

  // ---------------------------------------------------------------- gather and scatter

  ghost predicate InRange(indices: seq<nat>, n: nat) {
    forall k :: 0 <= k < |indices| ==> indices[k] < n
  }

  /** IndexFirstAxis.forward, and IndexPutFirstAxis.backward: `input[indices]`. */
  function Gather<T>(input: seq<T>, indices: seq<nat>): (output: seq<T>)
    requires InRange(indices, |input|)
  {
    seq(|indices|, k requires 0 <= k < |indices| => input[indices[k]])
  }

  /** `output = zeros(n); output[indices] = values`, one write after the other. */
  function Scatter<T>(values: seq<T>, indices: seq<nat>, n: nat, zero: T): (output: seq<T>)
    requires |values| == |indices| && InRange(indices, n)
    ensures |output| == n
    decreases |indices|
  {
    if indices == [] then seq(n, _ => zero)
    else
      var m := |indices| - 1;
      Scatter(values[..m], indices[..m], n, zero)[indices[m] := values[m]]
  }

  /** What a scatter may produce when nothing is said about the order of its writes. */
  ghost predicate IsWritten<T>(output: seq<T>, values: seq<T>, indices: seq<nat>, n: nat, zero: T)
    requires |values| == |indices|
  {
    && |output| == n
    && forall j: nat :: j < n ==> IsWrittenAt(output[j], values, indices, j, zero)
  }

  ghost predicate IsWrittenAt<T>(row: T, values: seq<T>, indices: seq<nat>, j: nat, zero: T)
    requires |values| == |indices|
  {
    if j in indices then exists k :: 0 <= k < |indices| && indices[k] == j && row == values[k] else row == zero
  }

  lemma {:induction false} ScatterIsWritten<T>(values: seq<T>, indices: seq<nat>, n: nat, zero: T)
    requires |values| == |indices| && InRange(indices, n)
    ensures IsWritten(Scatter(values, indices, n, zero), values, indices, n, zero)
    decreases |indices|
  {
    if indices != [] {
      var m := |indices| - 1;
      var before := Scatter(values[..m], indices[..m], n, zero);
      ScatterIsWritten(values[..m], indices[..m], n, zero);
      assert indices == indices[..m] + [indices[m]];
      var output := before[indices[m] := values[m]];
      forall j: nat | j < n
        ensures IsWrittenAt(output[j], values, indices, j, zero)
      {
        assert IsWrittenAt(before[j], values[..m], indices[..m], j, zero);
        if j != indices[m] && j in indices[..m] {
          var k :| 0 <= k < m && indices[..m][k] == j && before[j] == values[..m][k];
          assert indices[k] == j && before[j] == values[k];
        }
      }
    }
  }

  /** Without repeated indices the order of the writes does not matter. */
  lemma WrittenOnce<T>(output: seq<T>, values: seq<T>, indices: seq<nat>, n: nat, zero: T)
    requires |values| == |indices| && InRange(indices, n) && Distinct(indices)
    requires IsWritten(output, values, indices, n, zero)
    ensures output == Scatter(values, indices, n, zero)
    ensures forall k :: 0 <= k < |indices| ==> output[indices[k]] == values[k]
  {
    var s := Scatter(values, indices, n, zero);
    ScatterIsWritten(values, indices, n, zero);
    forall j: nat | j < n
      ensures output[j] == s[j]
    {
      assert IsWrittenAt(output[j], values, indices, j, zero) && IsWrittenAt(s[j], values, indices, j, zero);
    }
    forall k | 0 <= k < |indices|
      ensures output[indices[k]] == values[k]
    {
      assert IsWrittenAt(output[indices[k]], values, indices, indices[k], zero);
    }
  }

  /** IndexPutFirstAxis.forward, and IndexFirstAxis.backward: a zeroed output, written row by row. */
  method PutFirstAxis<T>(values: seq<T>, indices: seq<nat>, n: nat, zero: T) returns (output: array<T>)
    requires |values| == |indices| && InRange(indices, n)
    ensures fresh(output) && output[..] == Scatter(values, indices, n, zero)
  {
    output := new T[n](_ => zero);
    assert output[..] == seq(n, _ => zero);
    for k := 0 to |indices|
      invariant output[..] == Scatter(values[..k], indices[..k], n, zero)
    {
      assert values[..k + 1][..k] == values[..k] && indices[..k + 1][..k] == indices[..k];
      output[indices[k]] := values[k];
    }
    assert values[..|indices|] == values && indices[..|indices|] == indices;
  }

  // ---------------------------------------------------------------- unpad_input

  /** torch.nonzero of a flat mask */
  function NonZero(mask: seq<nat>): seq<nat> {
    if mask == [] then []
    else
      var m := |mask| - 1;
      NonZero(mask[..m]) + if mask[m] > 0 then [m] else []
  }

  function Total(s: seq<nat>): nat {
    if s == [] then 0 else s[0] + Total(s[1..])
  }

  /** `F.pad(torch.cumsum(lens), (1, 0))` */
  function CuSeqlens(lens: seq<nat>): (cu: seq<nat>)
    ensures |cu| == |lens| + 1
  {
    if lens == [] then [0]
    else
      var cu := CuSeqlens(lens[..|lens| - 1]);
      cu + [cu[|cu| - 1] + lens[|lens| - 1]]
  }

  function RowTotals(masks: seq<seq<nat>>): seq<nat> {
    seq(|masks|, b requires 0 <= b < |masks| => Total(masks[b]))
  }

  /** `attention_mask + unused_mask` for integer masks. */
  function AllMasks(attention: seq<seq<nat>>, unused: Option<seq<seq<nat>>>): seq<seq<nat>>
    requires unused.Some? ==> SameShape(attention, unused.value)
  {
    if unused.None? then attention
    else
      seq(|attention|, b requires 0 <= b < |attention| =>
        seq(|attention[b]|, i requires 0 <= i < |attention[b]| => attention[b][i] + unused.value[b][i]))
  }

  predicate SameShape<A, B>(a: seq<seq<A>>, b: seq<seq<B>>) {
    |a| == |b| && forall i :: 0 <= i < |a| ==> |a[i]| == |b[i]|
  }

  datatype Unpadded<T> =
    Unpadded(rows: seq<T>, indices: seq<nat>, cuSeqlens: seq<nat>, maxSeqlen: nat, usedSeqlens: seq<nat>)

  /** None where torch refuses the maximum of an empty batch. */
  function UnpadInput<T>(hidden: seq<seq<T>>, attention: seq<seq<nat>>,
                         unused: Option<seq<seq<nat>>>): Option<Unpadded<T>>
    requires SameShape(hidden, attention) && (unused.Some? ==> SameShape(attention, unused.value))
  {
    if hidden == [] then None
    else
      var all := AllMasks(attention, unused);
      SameShapeFlat(hidden, all);
      var indices := NonZero(Concat(all));
      NonZeroMeaning(Concat(all));
      Some(Unpadded(Gather(Concat(hidden), indices), indices, CuSeqlens(RowTotals(all)), MaxOf(RowTotals(all)),
                    RowTotals(attention)))
  }

  lemma {:induction false} SameShapeFlat<A, B>(a: seq<seq<A>>, b: seq<seq<B>>)
    requires SameShape(a, b)
    ensures |Concat(a)| == |Concat(b)|
  {
    if a != [] { SameShapeFlat(a[1..], b[1..]); }
  }

  /** The selected positions, each once and in order. */
  lemma {:induction false} NonZeroMeaning(mask: seq<nat>)
    ensures forall k, l :: 0 <= k < l < |NonZero(mask)| ==> NonZero(mask)[k] < NonZero(mask)[l]
    ensures Distinct(NonZero(mask)) && InRange(NonZero(mask), |mask|)
    ensures forall j: nat :: j in NonZero(mask) <==> j < |mask| && mask[j] > 0
  {
    if mask != [] {
      var m := |mask| - 1;
      NonZeroMeaning(mask[..m]);
      assert forall j: nat :: j < m ==> mask[..m][j] == mask[j];
    }
  }

  // ---------------------------------------------------------------- pad_input

  function PadInput<T>(rows: seq<T>, indices: seq<nat>, batch: nat, seqlen: nat, zero: T): seq<seq<T>>
    requires |rows| == |indices| && InRange(indices, batch * seqlen)
  {
    Blocks(Scatter(rows, indices, batch * seqlen, zero), seqlen, batch)
  }

  method Pad<T>(rows: seq<T>, indices: seq<nat>, batch: nat, seqlen: nat, zero: T) returns (padded: seq<seq<T>>)
    requires |rows| == |indices| && InRange(indices, batch * seqlen)
    ensures padded == PadInput(rows, indices, batch, seqlen, zero)
  {
    var output := PutFirstAxis(rows, indices, batch * seqlen, zero);
    padded := Blocks(output[..], seqlen, batch);
  }

  // ---------------------------------------------------------------- round trips

  function MaskFlat<T>(rows: seq<T>, mask: seq<nat>, zero: T): seq<T>
    requires |rows| == |mask|
  {
    seq(|rows|, j requires 0 <= j < |rows| => if mask[j] > 0 then rows[j] else zero)
  }

  function Masked<T>(hidden: seq<seq<T>>, masks: seq<seq<nat>>, zero: T): seq<seq<T>>
    requires SameShape(hidden, masks)
  {
    seq(|hidden|, b requires 0 <= b < |hidden| => MaskFlat(hidden[b], masks[b], zero))
  }

  lemma ScatterOfGather<T>(rows: seq<T>, mask: seq<nat>, zero: T)
    requires |rows| == |mask|
    ensures InRange(NonZero(mask), |rows|)
    ensures Scatter(Gather(rows, NonZero(mask)), NonZero(mask), |rows|, zero) == MaskFlat(rows, mask, zero)
  {
    var indices := NonZero(mask);
    NonZeroMeaning(mask);
    var values := Gather(rows, indices);
    var output := Scatter(values, indices, |rows|, zero);
    ScatterIsWritten(values, indices, |rows|, zero);
    forall j: nat | j < |rows|
      ensures output[j] == MaskFlat(rows, mask, zero)[j]
    {
      assert IsWrittenAt(output[j], values, indices, j, zero);
    }
  }

  lemma {:induction false} MaskedBlocks<T>(hidden: seq<seq<T>>, masks: seq<seq<nat>>, seqlen: nat, zero: T)
    requires SameShape(hidden, masks) && SameSize(hidden, seqlen)
    ensures |Concat(hidden)| == |Concat(masks)| == |hidden| * seqlen
    ensures Blocks(MaskFlat(Concat(hidden), Concat(masks), zero), seqlen, |hidden|) == Masked(hidden, masks, zero)
    decreases |hidden|
  {
    SameShapeFlat(hidden, masks);
    ConcatLength(hidden, seqlen);
    if hidden != [] {
      BlockFits(|hidden|, seqlen);
      SameShapeFlat(hidden[1..], masks[1..]);
      ConcatLength(hidden[1..], seqlen);
      MaskedBlocks(hidden[1..], masks[1..], seqlen, zero);
      var flat := MaskFlat(Concat(hidden), Concat(masks), zero);
      var first, rest := MaskFlat(hidden[0], masks[0], zero), MaskFlat(Concat(hidden[1..]), Concat(masks[1..]), zero);
      assert flat == first + rest;
      FirstBlock(flat, first, rest, seqlen, |hidden|);
      assert Masked(hidden, masks, zero) == [first] + Masked(hidden[1..], masks[1..], zero);
    }
  }

  /** Unpacking what was packed zeroes exactly the positions the masks leave out. */
  lemma PadAfterUnpad<T>(hidden: seq<seq<T>>, attention: seq<seq<nat>>, unused: Option<seq<seq<nat>>>, seqlen: nat,
                         zero: T)
    requires SameShape(hidden, attention) && (unused.Some? ==> SameShape(attention, unused.value))
    requires hidden != [] && SameSize(hidden, seqlen)
    ensures var u := UnpadInput(hidden, attention, unused).value;
            && |u.rows| == |u.indices| && InRange(u.indices, |hidden| * seqlen)
            && PadInput(u.rows, u.indices, |hidden|, seqlen, zero) == Masked(hidden, AllMasks(attention, unused), zero)
  {
    var all := AllMasks(attention, unused);
    MaskedBlocks(hidden, all, seqlen, zero);
    ScatterOfGather(Concat(hidden), Concat(all), zero);
  }

  /** Packing what was unpacked, with the mask that gave the indices, changes nothing. */
  lemma UnpadAfterPad<T>(rows: seq<T>, masks: seq<seq<nat>>, seqlen: nat, zero: T)
    requires masks != [] && SameSize(masks, seqlen) && |rows| == |NonZero(Concat(masks))|
    ensures var indices := NonZero(Concat(masks));
            && InRange(indices, |masks| * seqlen)
            && var padded := PadInput(rows, indices, |masks|, seqlen, zero);
               && SameShape(padded, masks)
               && UnpadInput(padded, masks, None).value.rows == rows
               && UnpadInput(padded, masks, None).value.indices == indices
  {
    var indices := NonZero(Concat(masks));
    ConcatLength(masks, seqlen);
    NonZeroMeaning(Concat(masks));
    GatherOfScatter(rows, Concat(masks), zero);
    var output := Scatter(rows, indices, |masks| * seqlen, zero);
    var padded := PadInput(rows, indices, |masks|, seqlen, zero);
    BlocksConcat(output, seqlen, |masks|);
    assert SameShape(padded, masks) && Concat(padded) == output;
  }

  lemma GatherOfScatter<T>(rows: seq<T>, mask: seq<nat>, zero: T)
    requires |rows| == |NonZero(mask)|
    ensures InRange(NonZero(mask), |mask|)
    ensures Gather(Scatter(rows, NonZero(mask), |mask|, zero), NonZero(mask)) == rows
  {
    var indices := NonZero(mask);
    NonZeroMeaning(mask);
    ScatterIsWritten(rows, indices, |mask|, zero);
    WrittenOnce(Scatter(rows, indices, |mask|, zero), rows, indices, |mask|, zero);
  }

  // ---------------------------------------------------------------- cu_seqlens

  function Shift(s: seq<nat>, offset: nat): seq<nat> {
    seq(|s|, k requires 0 <= k < |s| => s[k] + offset)
  }

  /** Entries cu[b] and cu[b + 1] delimit exactly the tokens of row b. */
  ghost predicate Delimits(cu: seq<nat>, indices: seq<nat>, masks: seq<seq<nat>>, seqlen: nat) {
    && |cu| == |masks| + 1 && cu[0] == 0 && cu[|masks|] == |indices|
    && forall b: nat :: b < |masks| ==> DelimitsRow(cu, indices, masks, seqlen, b)
  }

  ghost predicate DelimitsRow(cu: seq<nat>, indices: seq<nat>, masks: seq<seq<nat>>, seqlen: nat, b: nat)
    requires |cu| == |masks| + 1 && b < |masks|
  {
    cu[b] <= cu[b + 1] <= |indices| && indices[cu[b]..cu[b + 1]] == Shift(NonZero(masks[b]), b * seqlen)
  }

  ghost predicate ZeroOne(mask: seq<nat>) {
    forall i :: 0 <= i < |mask| ==> mask[i] <= 1
  }

  lemma {:induction false} TotalAppend(a: seq<nat>, b: seq<nat>)
    ensures Total(a + b) == Total(a) + Total(b)
  {
    if a == [] {
      assert a + b == b;
    } else {
      assert (a + b)[1..] == a[1..] + b;
      TotalAppend(a[1..], b);
    }
  }

  /** The sum of a mask counts its tokens only if no entry exceeds one. */
  lemma {:induction false} TotalCounts(mask: seq<nat>)
    ensures Total(mask) >= |NonZero(mask)|
    ensures Total(mask) == |NonZero(mask)| <==> ZeroOne(mask)
  {
    if mask != [] {
      var m := |mask| - 1;
      TotalCounts(mask[..m]);
      assert mask == mask[..m] + [mask[m]];
      TotalAppend(mask[..m], [mask[m]]);
      assert Total([mask[m]]) == mask[m] + Total([mask[m]][1..]);
      assert ZeroOne(mask) <==> ZeroOne(mask[..m]) && mask[m] <= 1;
    }
  }

  lemma {:induction false} NonZeroAppend(a: seq<nat>, b: seq<nat>)
    ensures NonZero(a + b) == NonZero(a) + Shift(NonZero(b), |a|)
    decreases |b|
  {
    if b == [] {
      assert a + b == a;
    } else {
      var m := |b| - 1;
      NonZeroAppend(a, b[..m]);
      assert (a + b)[..|a| + m] == a + b[..m];
    }
  }

  lemma {:induction false} CuSeqlensStep(lens: seq<nat>, b: nat)
    requires b < |lens|
    ensures CuSeqlens(lens)[0] == 0 && CuSeqlens(lens)[b + 1] == CuSeqlens(lens)[b] + lens[b]
  {
    var init := lens[..|lens| - 1];
    if b < |init| {
      CuSeqlensStep(init, b);
    } else if init != [] {
      CuSeqlensStep(init, 0);
    }
  }

  /** Up to row b the tokens are those of the first b rows, when all the masks count correctly. */
  lemma {:induction false} CuSeqlensCounts(masks: seq<seq<nat>>, b: nat)
    requires b <= |masks| && forall i :: 0 <= i < |masks| ==> ZeroOne(masks[i])
    ensures CuSeqlens(RowTotals(masks))[b] == |Before(masks, b)|
  {
    var lens := RowTotals(masks);
    if b > 0 {
      CuSeqlensCounts(masks, b - 1);
      CuSeqlensStep(lens, b - 1);
      TotalCounts(masks[b - 1]);
      PrefixRows(masks, b - 1);
    } else if masks != [] {
      CuSeqlensStep(lens, 0);
    }
  }

  /** The tokens of the first b + 1 rows: those of the first b, then those of row b, shifted. */
  lemma PrefixRows(masks: seq<seq<nat>>, b: nat)
    requires b < |masks|
    ensures NonZero(Concat(masks[..b + 1])) ==
            NonZero(Concat(masks[..b])) + Shift(NonZero(masks[b]), |Concat(masks[..b])|)
  {
    assert masks[..b + 1] == masks[..b] + [masks[b]];
    ConcatAppend(masks[..b], [masks[b]]);
    assert Concat([masks[b]]) == masks[b] + Concat([masks[b]][1..]) == masks[b];
    NonZeroAppend(Concat(masks[..b]), masks[b]);
  }

  lemma RowDelimited(masks: seq<seq<nat>>, seqlen: nat, b: nat)
    requires b < |masks| && SameSize(masks, seqlen) && forall i :: 0 <= i < |masks| ==> ZeroOne(masks[i])
    ensures DelimitsRow(CuSeqlens(RowTotals(masks)), NonZero(Concat(masks)), masks, seqlen, b)
  {
    RowEnds(masks, b);
    TokensBefore(masks, seqlen, b);
    var cu, indices := CuSeqlens(RowTotals(masks)), NonZero(Concat(masks));
    CutRow(cu, indices, masks, seqlen, b, Before(masks, b), Before(masks, b + 1));
  }

  lemma RowEnds(masks: seq<seq<nat>>, b: nat)
    requires b < |masks| && forall i :: 0 <= i < |masks| ==> ZeroOne(masks[i])
    ensures CuSeqlens(RowTotals(masks))[b] == |Before(masks, b)|
    ensures CuSeqlens(RowTotals(masks))[b + 1] == |Before(masks, b + 1)|
  {
    CuSeqlensCounts(masks, b);
    CuSeqlensCounts(masks, b + 1);
  }

  lemma CutRow(cu: seq<nat>, indices: seq<nat>, masks: seq<seq<nat>>, seqlen: nat, b: nat,
               before: seq<nat>, after: seq<nat>)
    requires |cu| == |masks| + 1 && b < |masks|
    requires after == before + Shift(NonZero(masks[b]), b * seqlen) && after <= indices
    requires cu[b] == |before| && cu[b + 1] == |after|
    ensures DelimitsRow(cu, indices, masks, seqlen, b)
  {
    MiddlePart(before, Shift(NonZero(masks[b]), b * seqlen), indices);
  }

  /** The tokens of the first b rows. */
  function Before(masks: seq<seq<nat>>, b: nat): seq<nat>
    requires b <= |masks|
  {
    NonZero(Concat(masks[..b]))
  }

  lemma TokensBefore(masks: seq<seq<nat>>, seqlen: nat, b: nat)
    requires b < |masks| && SameSize(masks, seqlen)
    ensures Before(masks, b + 1) == Before(masks, b) + Shift(NonZero(masks[b]), b * seqlen)
    ensures Before(masks, b + 1) <= NonZero(Concat(masks))
  {
    ConcatLength(masks[..b], seqlen);
    PrefixRows(masks, b);
    FirstRows(masks, b + 1);
  }

  lemma MiddlePart(a: seq<nat>, b: seq<nat>, whole: seq<nat>)
    requires a + b <= whole
    ensures |a| + |b| <= |whole| && whole[|a|..|a| + |b|] == b
  {
    assert whole[|a|..|a| + |b|] == (a + b)[|a|..];
  }

  lemma FirstRows(masks: seq<seq<nat>>, b: nat)
    requires b <= |masks|
    ensures NonZero(Concat(masks[..b])) <= NonZero(Concat(masks))
  {
    var first, rest := Concat(masks[..b]), Concat(masks[b..]);
    assert masks == masks[..b] + masks[b..];
    ConcatAppend(masks[..b], masks[b..]);
    NonZeroAppend(first, rest);
  }

  /** cu_seqlens cuts the packed tokens at the row ends exactly when every entry of the (summed) masks is at
      most one: with an entry of two a row counts longer than it is packed. */
  lemma CuSeqlensDelimitIff(masks: seq<seq<nat>>, seqlen: nat)
    requires SameSize(masks, seqlen)
    ensures Delimits(CuSeqlens(RowTotals(masks)), NonZero(Concat(masks)), masks, seqlen)
       <==> forall b :: 0 <= b < |masks| ==> ZeroOne(masks[b])
  {
    if forall b :: 0 <= b < |masks| ==> ZeroOne(masks[b]) {
      AllDelimited(masks, seqlen);
    }
    forall b: nat | b < |masks|
      ensures Delimits(CuSeqlens(RowTotals(masks)), NonZero(Concat(masks)), masks, seqlen) ==> ZeroOne(masks[b])
    {
      DelimitedCounts(CuSeqlens(RowTotals(masks)), NonZero(Concat(masks)), masks, seqlen, b);
    }
  }

  /** No position is set in both masks. */
  ghost predicate Disjoint(attention: seq<seq<nat>>, unused: seq<seq<nat>>)
    requires SameShape(attention, unused)
  {
    forall b, i :: 0 <= b < |attention| && 0 <= i < |attention[b]| ==> attention[b][i] == 0 || unused[b][i] == 0
  }

  ghost predicate ZeroOnes(masks: seq<seq<nat>>) {
    forall b :: 0 <= b < |masks| ==> ZeroOne(masks[b])
  }

  /** With masks of zeros and ones, what unpad_input returns delimits every row's tokens exactly when no position
      is set in both masks. */
  lemma UnpadDelimitsIff<T>(hidden: seq<seq<T>>, attention: seq<seq<nat>>, unused: Option<seq<seq<nat>>>, seqlen: nat)
    requires SameShape(hidden, attention) && (unused.Some? ==> SameShape(attention, unused.value))
    requires hidden != [] && SameSize(hidden, seqlen)
    requires ZeroOnes(attention) && (unused.Some? ==> ZeroOnes(unused.value))
    ensures var u := UnpadInput(hidden, attention, unused).value;
            Delimits(u.cuSeqlens, u.indices, AllMasks(attention, unused), seqlen)
            <==> (unused.Some? ==> Disjoint(attention, unused.value))
  {
    CuSeqlensDelimitIff(AllMasks(attention, unused), seqlen);
    if unused.Some? { SumIsZeroOneIff(attention, unused.value); }
  }

  lemma SumIsZeroOneIff(attention: seq<seq<nat>>, unused: seq<seq<nat>>)
    requires SameShape(attention, unused) && ZeroOnes(attention) && ZeroOnes(unused)
    ensures ZeroOnes(AllMasks(attention, Some(unused))) <==> Disjoint(attention, unused)
  {
    var all := AllMasks(attention, Some(unused));
    forall b, i | 0 <= b < |attention| && 0 <= i < |attention[b]|
      ensures all[b][i] <= 1 <==> attention[b][i] == 0 || unused[b][i] == 0
    {
      assert ZeroOne(attention[b]) && ZeroOne(unused[b]);
    }
    forall b | 0 <= b < |attention| && Disjoint(attention, unused) ensures ZeroOne(all[b]) {
    }
    if ZeroOnes(all) {
      forall b, i | 0 <= b < |attention| && 0 <= i < |attention[b]| ensures attention[b][i] == 0 || unused[b][i] == 0 {
        assert ZeroOne(all[b]);
      }
    }
  }

  /** One token that is set in both masks: one token is packed, and cu_seqlens counts two. */
  lemma OverlapCountsTwice<T>(x: T)
    ensures var u := UnpadInput([[x]], [[1]], Some([[1]])).value;
            && u.indices == [0] && u.rows == [x] && u.cuSeqlens == [0, 2]
            && !Delimits(u.cuSeqlens, u.indices, AllMasks([[1]], Some([[1]])), 1)
  {
    var all := AllMasks([[1]], Some([[1]]));
    assert all[0] == [2] && all == [[2]];
    assert Concat(all) == [2] + Concat(all[1..]) == [2];
    assert [2][..0] == [] && NonZero([2][..0]) == [];
    assert Total([2]) == 2 + Total([2][1..]) == 2;
    assert RowTotals(all) == [2];
    assert Concat([[x]]) == [x] + Concat([[x]][1..]) == [x];
    assert CuSeqlens([2]) == [0] + [2] by { assert [2][..0] == []; }
  }

  /** How many tokens cu_seqlens gives row b. */
  function LengthOf(cu: seq<nat>, b: nat): int
    requires b + 1 < |cu|
  {
    var from: int, to: int := cu[b], cu[b + 1];
    to - from
  }

  lemma LongestRow(lens: seq<nat>)
    requires lens != []
    ensures forall b :: 0 <= b < |lens| ==> LengthOf(CuSeqlens(lens), b) <= MaxOf(lens)
    ensures exists b :: 0 <= b < |lens| && LengthOf(CuSeqlens(lens), b) == MaxOf(lens)
  {
    forall b | 0 <= b < |lens| ensures LengthOf(CuSeqlens(lens), b) == lens[b] {
      CuSeqlensStep(lens, b);
    }
    var b :| 0 <= b < |lens| && lens[b] == MaxOf(lens);
    assert LengthOf(CuSeqlens(lens), b) == MaxOf(lens);
  }

  /** max_seqlen_in_batch is the longest of the lengths that cu_seqlens delimits, and seqused counts a row's attended
      tokens exactly when no entry of its mask exceeds one. */
  lemma UnpadLengths<T>(hidden: seq<seq<T>>, attention: seq<seq<nat>>, unused: Option<seq<seq<nat>>>)
    requires SameShape(hidden, attention) && (unused.Some? ==> SameShape(attention, unused.value)) && hidden != []
    ensures var u := UnpadInput(hidden, attention, unused).value;
            && |u.cuSeqlens| == |hidden| + 1 && |u.usedSeqlens| == |hidden|
            && (forall b :: 0 <= b < |hidden| ==> LengthOf(u.cuSeqlens, b) <= u.maxSeqlen)
            && (exists b :: 0 <= b < |hidden| && LengthOf(u.cuSeqlens, b) == u.maxSeqlen)
            && (forall b :: 0 <= b < |hidden| ==>
                  (u.usedSeqlens[b] == |NonZero(attention[b])| <==> ZeroOne(attention[b])))
  {
    LongestRow(RowTotals(AllMasks(attention, unused)));
    forall b | 0 <= b < |hidden| ensures Total(attention[b]) == |NonZero(attention[b])| <==> ZeroOne(attention[b]) {
      TotalCounts(attention[b]);
    }
  }

  lemma {:induction false} TotalAdds(a: seq<nat>, b: seq<nat>, sum: seq<nat>)
    requires |a| == |b| == |sum| && forall i :: 0 <= i < |a| ==> sum[i] == a[i] + b[i]
    ensures Total(sum) == Total(a) + Total(b)
  {
    if a != [] { TotalAdds(a[1..], b[1..], sum[1..]); }
  }

  lemma {:induction false} TotalZeroIff(mask: seq<nat>)
    ensures Total(mask) == 0 <==> forall i :: 0 <= i < |mask| ==> mask[i] == 0
  {
    if mask != [] {
      TotalZeroIff(mask[1..]);
      assert forall i :: 1 <= i < |mask| ==> mask[i] == mask[1..][i - 1];
    }
  }

  /** seqused, documented to count the tokens of both masks, is the length of a row exactly when its unused mask
      selects nothing. */
  lemma SeqUsedIff<T>(hidden: seq<seq<T>>, attention: seq<seq<nat>>, unused: seq<seq<nat>>, b: nat)
    requires SameShape(hidden, attention) && SameShape(attention, unused) && b < |hidden|
    ensures var u := UnpadInput(hidden, attention, Some(unused)).value;
            LengthOf(u.cuSeqlens, b) == u.usedSeqlens[b] <==>
            forall i :: 0 <= i < |unused[b]| ==> unused[b][i] == 0
  {
    var all := AllMasks(attention, Some(unused));
    CuSeqlensStep(RowTotals(all), b);
    TotalAdds(attention[b], unused[b], all[b]);
    TotalZeroIff(unused[b]);
  }

  lemma AllDelimited(masks: seq<seq<nat>>, seqlen: nat)
    requires SameSize(masks, seqlen) && forall b :: 0 <= b < |masks| ==> ZeroOne(masks[b])
    ensures Delimits(CuSeqlens(RowTotals(masks)), NonZero(Concat(masks)), masks, seqlen)
  {
    CuSeqlensCounts(masks, 0);
    CuSeqlensCounts(masks, |masks|);
    assert masks[..|masks|] == masks && masks[..0] == [];
    forall b: nat | b < |masks|
      ensures DelimitsRow(CuSeqlens(RowTotals(masks)), NonZero(Concat(masks)), masks, seqlen, b)
    {
      RowDelimited(masks, seqlen, b);
    }
  }

  lemma DelimitedCounts(cu: seq<nat>, indices: seq<nat>, masks: seq<seq<nat>>, seqlen: nat, b: nat)
    requires cu == CuSeqlens(RowTotals(masks)) && b < |masks|
    ensures DelimitsRow(cu, indices, masks, seqlen, b) ==> ZeroOne(masks[b])
  {
    CuSeqlensStep(RowTotals(masks), b);
    TotalCounts(masks[b]);
    assert |Shift(NonZero(masks[b]), b * seqlen)| == |NonZero(masks[b])|;
  }
}
