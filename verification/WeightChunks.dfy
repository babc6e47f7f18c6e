/**
 verl/checkpoint_engine/base.py: cutting weights into chunks of at most one bucket and
 putting the chunks back together on the other side.
 */
module WeightChunks {
  import opened Arithmetic
  import opened Rows
  import opened Wrappers

  type Byte = x: int | 0 <= x < 256

  datatype Dtype = Dtype(name: string, itemsize: nat)

  /** A tensor with the bytes of its contiguous storage. */
  datatype Weight = Weight(name: string, shape: seq<nat>, dtype: Dtype, data: seq<Byte>)

  /** TensorMeta without the offset in the bucket, which the packer assigns later. */
  datatype Meta = Meta(name: string, shape: seq<nat>, dtype: Dtype, chunkOffset: nat, chunkSize: nat)

  datatype Chunk = Chunk(meta: Meta, data: seq<Byte>)

  function Nbytes(shape: seq<nat>, dtype: Dtype): nat {
    Numel(shape) * dtype.itemsize
  }

  predicate ValidWeight(w: Weight) {
    |w.data| == Nbytes(w.shape, w.dtype)
  }

  ghost predicate ValidWeights(ws: seq<Weight>) {
    forall i :: 0 <= i < |ws| ==> ValidWeight(ws[i])
  }

  ghost predicate DistinctNames(ws: seq<Weight>) {
    forall i, j :: 0 <= i < j < |ws| ==> ws[i].name != ws[j].name
  }

  // ---------------------------------------------------------------- split

  function ChunkAt(w: Weight, bucketSize: nat, offset: nat): Chunk
    requires offset <= |w.data|
  {
    var size := Min(bucketSize, |w.data| - offset);
    Chunk(Meta(w.name, w.shape, w.dtype, offset, size), w.data[offset..offset + size])
  }

  function SplitFrom(w: Weight, bucketSize: nat, offset: nat): seq<Chunk>
    requires 0 < bucketSize && offset <= |w.data|
    decreases |w.data| - offset
  {
    if offset == |w.data| then []
    else
      var c := ChunkAt(w, bucketSize, offset);
      [c] + SplitFrom(w, bucketSize, offset + c.meta.chunkSize)
  }

  function SplitAll(ws: seq<Weight>, bucketSize: nat): seq<Chunk>
    requires 0 < bucketSize
  {
    if ws == [] then [] else SplitFrom(ws[0], bucketSize, 0) + SplitAll(ws[1..], bucketSize)
  }

  lemma {:induction false} SplitAllAppend(a: seq<Weight>, b: seq<Weight>, bucketSize: nat)
    requires 0 < bucketSize
    ensures SplitAll(a + b, bucketSize) == SplitAll(a, bucketSize) + SplitAll(b, bucketSize)
  {
    if a == [] {
      assert a + b == b;
    } else {
      assert (a + b)[1..] == a[1..] + b;
      SplitAllAppend(a[1..], b, bucketSize);
    }
  }

  method SplitWeightChunks(weights: seq<Weight>, bucketSize: nat) returns (chunks: seq<Chunk>)
    requires 0 < bucketSize
    ensures chunks == SplitAll(weights, bucketSize)
  {
    chunks := [];
    for i := 0 to |weights|
      invariant chunks == SplitAll(weights[..i], bucketSize)
    {
      var w := weights[i];
      var chunkOffset := 0;
      ghost var before := chunks;
      while chunkOffset < |w.data|
        invariant chunkOffset <= |w.data|
        invariant chunks + SplitFrom(w, bucketSize, chunkOffset) == before + SplitFrom(w, bucketSize, 0)
      {
        var chunkSize := Min(bucketSize, |w.data| - chunkOffset);
        var meta := Meta(w.name, w.shape, w.dtype, chunkOffset, chunkSize);
        chunks := chunks + [Chunk(meta, w.data[chunkOffset..chunkOffset + chunkSize])];
        chunkOffset := chunkOffset + chunkSize;
      }
      assert weights[..i + 1] == weights[..i] + [w];
      SplitAllAppend(weights[..i], [w], bucketSize);
      assert SplitFrom(w, bucketSize, 0) + SplitAll([w][1..], bucketSize) == SplitFrom(w, bucketSize, 0);
    }
    assert weights[..|weights|] == weights;
  }

  // ---------------------------------------------------------------- merge

  /** The loop variables merge_name, merge_weight, merge_buffer and merge_offset; `written` is the
      filled prefix of merge_buffer, so merge_offset is its length. */
  datatype Merging = Idle | Busy(name: string, shape: seq<nat>, dtype: Dtype, written: seq<Byte>)

  datatype MergeError = WeightInProgress | BadView | FirstOffsetNotZero | NameMismatch | OffsetMismatch
                      | Overrun | TailNotWritten

  datatype Progress = Progress(state: Merging, yielded: seq<Weight>)

  function MergeStep(st: Merging, c: Chunk, bucketSize: nat): Result<Progress, MergeError> {
    var m := c.meta;
    var nbytes := Nbytes(m.shape, m.dtype);
    if nbytes <= bucketSize then
      if st.Busy? then Err(WeightInProgress)
      else if |c.data| != nbytes then Err(BadView)
      else Ok(Progress(Idle, [Weight(m.name, m.shape, m.dtype, c.data)]))
    else if st.Idle? && m.chunkOffset != 0 then Err(FirstOffsetNotZero)
    else
      var b := if st.Idle? then Busy(m.name, m.shape, m.dtype, []) else st;
      if m.name != b.name then Err(NameMismatch)
      else if m.chunkOffset != |b.written| then Err(OffsetMismatch)
      else if m.chunkOffset + m.chunkSize > Nbytes(b.shape, b.dtype) then Err(Overrun)
      else
        var written := b.written + c.data;
        if m.chunkOffset + m.chunkSize == nbytes then
          if |written| < Nbytes(b.shape, b.dtype) then Err(TailNotWritten)
          else Ok(Progress(Idle, [Weight(b.name, b.shape, b.dtype, written)]))
        else
          Ok(Progress(Busy(b.name, b.shape, b.dtype, written), []))
  }

  function After(yielded: seq<Weight>, r: Result<Progress, MergeError>): Result<Progress, MergeError> {
    if r.Ok? then Ok(Progress(r.value.state, yielded + r.value.yielded)) else r
  }

  function MergeRun(st: Merging, chunks: seq<Chunk>, bucketSize: nat): Result<Progress, MergeError>
    decreases |chunks|
  {
    if chunks == [] then Ok(Progress(st, []))
    else
      var step := MergeStep(st, chunks[0], bucketSize);
      if step.Err? then step
      else After(step.value.yielded, MergeRun(step.value.state, chunks[1..], bucketSize))
  }

  /** What a consumer of merge_weight_chunks sees: the yielded weights, or the failed assert. */
  function MergeAll(chunks: seq<Chunk>, bucketSize: nat): Result<seq<Weight>, MergeError> {
    match MergeRun(Idle, chunks, bucketSize)
    case Err(e) => Err(e)
    case Ok(p) => Ok(p.yielded)
  }

  lemma AfterAfter(a: seq<Weight>, b: seq<Weight>, r: Result<Progress, MergeError>)
    ensures After(a, After(b, r)) == After(a + b, r)
  {
    if r.Ok? {
      assert a + (b + r.value.yielded) == (a + b) + r.value.yielded;
    }
  }

  lemma {:induction false} MergeRunAppend(st: Merging, a: seq<Chunk>, b: seq<Chunk>, bucketSize: nat)
    requires MergeRun(st, a, bucketSize).Ok?
    ensures var p := MergeRun(st, a, bucketSize).value;
            MergeRun(st, a + b, bucketSize) == After(p.yielded, MergeRun(p.state, b, bucketSize))
    decreases |a|
  {
    if a == [] {
      assert a + b == b;
      AfterNothing(MergeRun(st, b, bucketSize));
    } else {
      assert (a + b)[1..] == a[1..] + b;
      var first := MergeStep(st, a[0], bucketSize).value;
      MergeRunAppend(first.state, a[1..], b, bucketSize);
      var mid := MergeRun(first.state, a[1..], bucketSize).value;
      AfterAfter(first.yielded, mid.yielded, MergeRun(mid.state, b, bucketSize));
    }
  }

  lemma AfterNothing(r: Result<Progress, MergeError>)
    ensures After([], r) == r
  {
    if r.Ok? {
      assert [] + r.value.yielded == r.value.yielded;
    }
  }

  lemma MergeRunOne(st: Merging, c: Chunk, bucketSize: nat)
    ensures MergeRun(st, [c], bucketSize) == MergeStep(st, c, bucketSize)
  {
    var step := MergeStep(st, c, bucketSize);
    if step.Ok? {
      assert step.value.yielded + [] == step.value.yielded;
      assert MergeRun(step.value.state, [c][1..], bucketSize) == Ok(Progress(step.value.state, []));
    }
  }

  lemma {:induction false} MergeRunFails(st: Merging, a: seq<Chunk>, b: seq<Chunk>, bucketSize: nat)
    requires MergeRun(st, a, bucketSize).Err?
    ensures MergeRun(st, a + b, bucketSize) == MergeRun(st, a, bucketSize)
    decreases |a|
  {
    assert (a + b)[1..] == a[1..] + b;
    if MergeStep(st, a[0], bucketSize).Ok? {
      MergeRunFails(MergeStep(st, a[0], bucketSize).value.state, a[1..], b, bucketSize);
    }
  }

  function Overwrite(buffer: seq<Byte>, offset: nat, bytes: seq<Byte>): seq<Byte>
    requires offset + |bytes| <= |buffer|
  {
    buffer[..offset] + bytes + buffer[offset + |bytes|..]
  }

  /** buffer[offset : offset + chunk_size] = chunk */
  method CopyChunk(buffer: array<Byte>, offset: nat, bytes: seq<Byte>)
    requires offset + |bytes| <= buffer.Length
    modifies buffer
    ensures buffer[..] == Overwrite(old(buffer[..]), offset, bytes)
  {
    forall k | 0 <= k < |bytes| { buffer[offset + k] := bytes[k]; }
  }

  /** The state of the merge_weight_chunks generator between two chunks. */
  class Merger {
    var weight: Option<Meta>
    var buffer: array<Byte>
    var offset: nat

    constructor ()
      ensures Valid() && Abstract() == Idle && fresh(buffer)
    {
      weight, offset := None, 0;
      buffer := new Byte[0];
    }

    ghost predicate Valid()
      reads this, buffer
    {
      weight.Some? ==> offset <= buffer.Length == Nbytes(weight.value.shape, weight.value.dtype)
    }

    ghost function Abstract(): Merging
      reads this, buffer
      requires Valid()
    {
      if weight.None? then Idle
      else Busy(weight.value.name, weight.value.shape, weight.value.dtype, buffer[..offset])
    }

    /** One iteration of the loop; a weight is yielded when its last chunk arrives. */
    method Accept(c: Chunk, bucketSize: nat) returns (r: Result<seq<Weight>, MergeError>)
      requires Valid() && |c.data| == c.meta.chunkSize
      modifies this, buffer
      ensures Valid() && (buffer == old(buffer) || fresh(buffer))
      ensures match MergeStep(old(Abstract()), c, bucketSize)
              case Err(e) => r == Err(e)
              case Ok(p) => r == Ok(p.yielded) && Abstract() == p.state
    {
      var m := c.meta;
      var nbytes := Nbytes(m.shape, m.dtype);
      if nbytes <= bucketSize {
        if weight.Some? { return Err(WeightInProgress); }
        if |c.data| != nbytes { return Err(BadView); }
        return Ok([Weight(m.name, m.shape, m.dtype, c.data)]);
      }
      if weight.None? {
        if m.chunkOffset != 0 { return Err(FirstOffsetNotZero); }
        weight, offset := Some(m), 0;
        buffer := new Byte[nbytes];
      }
      if m.name != weight.value.name { return Err(NameMismatch); }
      if m.chunkOffset != offset { return Err(OffsetMismatch); }
      if m.chunkOffset + m.chunkSize > buffer.Length { return Err(Overrun); }
      ghost var written := buffer[..offset];
      CopyChunk(buffer, offset, c.data);
      offset := offset + m.chunkSize;
      assert buffer[..offset] == written + c.data;
      if m.chunkOffset + m.chunkSize == nbytes {
        if offset < buffer.Length { return Err(TailNotWritten); }
        assert buffer[..] == buffer[..offset];
        r := Ok([Weight(weight.value.name, weight.value.shape, weight.value.dtype, buffer[..])]);
        weight := None;
      } else {
        r := Ok([]);
      }
    }
  }

  /** The generator driven to the end of its input: chunks with as many bytes as they say. */
  method MergeWeightChunks(chunks: seq<Chunk>, bucketSize: nat) returns (r: Result<seq<Weight>, MergeError>)
    requires forall i :: 0 <= i < |chunks| ==> |chunks[i].data| == chunks[i].meta.chunkSize
    ensures r == MergeAll(chunks, bucketSize)
  {
    var out: seq<Weight> := [];
    var merger := new Merger();
    for i := 0 to |chunks|
      invariant fresh(merger) && fresh(merger.buffer) && merger.Valid()
      invariant MergeRun(Idle, chunks[..i], bucketSize) == Ok(Progress(merger.Abstract(), out))
    {
      RunSnoc(chunks, i, merger.Abstract(), out, bucketSize);
      var step := merger.Accept(chunks[i], bucketSize);
      if step.Err? { return Err(step.error); }
      out := out + step.value;
    }
    assert chunks[..|chunks|] == chunks;
    return Ok(out);
  }

  /** One loop iteration extends the run by one step; a failing step is the result of the whole run. */
  lemma RunSnoc(chunks: seq<Chunk>, i: nat, st: Merging, out: seq<Weight>, bucketSize: nat)
    requires i < |chunks|
    requires MergeRun(Idle, chunks[..i], bucketSize) == Ok(Progress(st, out))
    ensures match MergeStep(st, chunks[i], bucketSize)
            case Err(e) => MergeAll(chunks, bucketSize) == Err(e)
            case Ok(p) => MergeRun(Idle, chunks[..i + 1], bucketSize) == Ok(Progress(p.state, out + p.yielded))
  {
    var c := chunks[i];
    assert chunks[..i + 1] == chunks[..i] + [c];
    MergeRunOne(st, c, bucketSize);
    MergeRunAppend(Idle, chunks[..i], [c], bucketSize);
    match MergeStep(st, c, bucketSize)
    case Err(e) =>
      assert chunks == chunks[..i + 1] + chunks[i + 1..];
      MergeRunFails(Idle, chunks[..i + 1], chunks[i + 1..], bucketSize);
    case Ok(p) =>
  }

  // ---------------------------------------------------------------- round trip

  function NonEmpty(ws: seq<Weight>): seq<Weight> {
    if ws == [] then []
    else (if ws[0].data == [] then [] else [ws[0]]) + NonEmpty(ws[1..])
  }

  function DataOf(cs: seq<Chunk>): seq<Byte> {
    if cs == [] then [] else DataOf(cs[..|cs| - 1]) + cs[|cs| - 1].data
  }

  /** Chunks of one name whose offsets count the bytes before them. */
  ghost predicate InSequence(cs: seq<Chunk>, name: string) {
    forall i :: 0 <= i < |cs| ==> cs[i].meta.name == name && cs[i].meta.chunkOffset == |DataOf(cs[..i])|
  }

  /** A weight in one piece, or one that is too large for a bucket in chunks that follow each other. */
  ghost predicate CutOf(cs: seq<Chunk>, w: Weight, bucketSize: nat) {
    && cs != [] && w == Weight(cs[0].meta.name, cs[0].meta.shape, cs[0].meta.dtype, DataOf(cs)) && ValidWeight(w)
    && if |w.data| <= bucketSize then |cs| == 1 else InSequence(cs, w.name)
  }

  ghost predicate CutsOf(pieces: seq<seq<Chunk>>, ws: seq<Weight>, bucketSize: nat) {
    |pieces| == |ws| && forall i :: 0 <= i < |ws| ==> CutOf(pieces[i], ws[i], bucketSize)
  }

  /** The chunks of the weight that merge_buffer is being filled for. */
  ghost predicate Begun(rest: seq<Chunk>, st: Merging, bucketSize: nat) {
    if st.Idle? then rest == []
    else
      && rest != [] && InSequence(rest, st.name)
      && st == Busy(st.name, rest[0].meta.shape, rest[0].meta.dtype, DataOf(rest))
      && |st.written| <= Nbytes(st.shape, st.dtype) && bucketSize < Nbytes(st.shape, st.dtype)
  }

  ghost predicate Explained(chunks: seq<Chunk>, pieces: seq<seq<Chunk>>, rest: seq<Chunk>, p: Progress,
                            bucketSize: nat)
  {
    chunks == Concat(pieces) + rest && CutsOf(pieces, p.yielded, bucketSize) && Begun(rest, p.state, bucketSize)
  }

  ghost predicate HasExplanation(chunks: seq<Chunk>, p: Progress, bucketSize: nat) {
    exists pieces, rest :: Explained(chunks, pieces, rest, p, bucketSize)
  }

  lemma DataOfNext(cs: seq<Chunk>, c: Chunk)
    ensures DataOf(cs + [c]) == DataOf(cs) + c.data
  {
    assert (cs + [c])[..|cs|] == cs;
  }

  lemma SequenceNext(cs: seq<Chunk>, c: Chunk, name: string)
    requires InSequence(cs, name) && c.meta.name == name && c.meta.chunkOffset == |DataOf(cs)|
    ensures InSequence(cs + [c], name)
  {
    forall i | 0 <= i <= |cs| ensures (cs + [c])[i].meta.chunkOffset == |DataOf((cs + [c])[..i])| {
      assert (cs + [c])[..i] == cs[..i];
      assert cs[..|cs|] == cs;
    }
  }

  /** One step of the loop, told in chunks: the weight in progress goes on, or a cut is complete. */
  lemma StepExplained(rest: seq<Chunk>, st: Merging, c: Chunk, bucketSize: nat)
    requires Begun(rest, st, bucketSize) && |c.data| == c.meta.chunkSize && MergeStep(st, c, bucketSize).Ok?
    ensures var p := MergeStep(st, c, bucketSize).value;
            || (p.yielded == [] && Begun(rest + [c], p.state, bucketSize))
            || (p.state.Idle? && |p.yielded| == 1 && CutOf(rest + [c], p.yielded[0], bucketSize))
  {
    DataOfNext(rest, c);
    if Nbytes(c.meta.shape, c.meta.dtype) > bucketSize {
      SequenceNext(rest, c, c.meta.name);
    }
  }

  lemma CutExplained(chunks: seq<Chunk>, pieces: seq<seq<Chunk>>, cut: seq<Chunk>, ws: seq<Weight>, w: Weight,
                     bucketSize: nat)
    requires chunks == Concat(pieces) + cut && CutsOf(pieces, ws, bucketSize) && CutOf(cut, w, bucketSize)
    ensures HasExplanation(chunks, Progress(Idle, ws + [w]), bucketSize)
  {
    ConcatAppend(pieces, [cut]);
    assert Concat([cut]) == cut + Concat([cut][1..]) == cut;
    assert Concat(pieces + [cut]) + [] == chunks;
    assert Explained(chunks, pieces + [cut], [], Progress(Idle, ws + [w]), bucketSize);
  }

  lemma RunExplained(chunks: seq<Chunk>, pieces: seq<seq<Chunk>>, rest: seq<Chunk>, p: Progress, c: Chunk,
                     bucketSize: nat)
    requires Explained(chunks, pieces, rest, p, bucketSize) && |c.data| == c.meta.chunkSize
    requires MergeStep(p.state, c, bucketSize).Ok?
    ensures var q := MergeStep(p.state, c, bucketSize).value;
            HasExplanation(chunks + [c], Progress(q.state, p.yielded + q.yielded), bucketSize)
  {
    var q := MergeStep(p.state, c, bucketSize).value;
    var cut := rest + [c];
    StepExplained(rest, p.state, c, bucketSize);
    assert chunks + [c] == Concat(pieces) + cut;
    if q.yielded == [] {
      assert p.yielded + [] == p.yielded;
      assert Explained(chunks + [c], pieces, cut, Progress(q.state, p.yielded), bucketSize);
    } else {
      assert q.yielded == [q.yielded[0]];
      CutExplained(chunks + [c], pieces, cut, p.yielded, q.yielded[0], bucketSize);
    }
  }

  /** Whatever merges was cut that way: for any chunks, those that pass every assert are the yielded weights' cuts
      one after the other, and after them the chunks of the weight in progress. */
  lemma {:induction false} MergeIsSound(chunks: seq<Chunk>, bucketSize: nat)
    requires forall i :: 0 <= i < |chunks| ==> |chunks[i].data| == chunks[i].meta.chunkSize
    ensures var r := MergeRun(Idle, chunks, bucketSize);
            r.Ok? ==> HasExplanation(chunks, r.value, bucketSize)
    decreases |chunks|
  {
    var r := MergeRun(Idle, chunks, bucketSize);
    if chunks == [] {
      assert Explained([], [], [], Progress(Idle, []), bucketSize);
    } else if r.Ok? {
      var init, c := chunks[..|chunks| - 1], chunks[|chunks| - 1];
      assert chunks == init + [c];
      if MergeRun(Idle, init, bucketSize).Err? { MergeRunFails(Idle, init, [c], bucketSize); }
      MergeIsSound(init, bucketSize);
      var p := MergeRun(Idle, init, bucketSize).value;
      MergeRunAppend(Idle, init, [c], bucketSize);
      MergeRunOne(p.state, c, bucketSize);
      var pieces, rest :| Explained(init, pieces, rest, p, bucketSize);
      RunExplained(init, pieces, rest, p, c, bucketSize);
    }
  }

  /** Chunks that agree on shape and dtype, none of them empty. */
  ghost predicate OneWeight(cs: seq<Chunk>, w: Weight) {
    forall i :: 0 <= i < |cs| ==>
                  cs[i].meta.shape == w.shape && cs[i].meta.dtype == w.dtype && 0 < |cs[i].data| == cs[i].meta.chunkSize
  }

  lemma {:induction false} CutMergesUpTo(cs: seq<Chunk>, w: Weight, bucketSize: nat, i: nat)
    requires CutOf(cs, w, bucketSize) && OneWeight(cs, w) && bucketSize < |w.data| && 0 < i <= |cs|
    ensures |DataOf(cs[..i])| <= |w.data| && (|DataOf(cs[..i])| == |w.data| <==> i == |cs|)
    ensures MergeRun(Idle, cs[..i], bucketSize) ==
            if i == |cs| then Ok(Progress(Idle, [w]))
            else Ok(Progress(Busy(w.name, w.shape, w.dtype, DataOf(cs[..i])), []))
  {
    var init, c := cs[..i - 1], cs[i - 1];
    assert cs[..i] == init + [c];
    DataOfNext(init, c);
    DataGrows(cs, w, i);
    assert cs[..|cs|] == cs;
    if i == 1 {
      assert init == [] && [c] == cs[..i];
      MergeRunOne(Idle, c, bucketSize);
    } else {
      CutMergesUpTo(cs, w, bucketSize, i - 1);
      var st := Busy(w.name, w.shape, w.dtype, DataOf(init));
      MergeRunAppend(Idle, init, [c], bucketSize);
      MergeRunOne(st, c, bucketSize);
      AfterNothing(MergeStep(st, c, bucketSize));
    }
  }

  lemma {:induction false} DataGrows(cs: seq<Chunk>, w: Weight, i: nat)
    requires OneWeight(cs, w) && i <= |cs|
    ensures |DataOf(cs[..i])| <= |DataOf(cs)| && (|DataOf(cs[..i])| == |DataOf(cs)| <==> i == |cs|)
    decreases |cs| - i
  {
    if i == |cs| {
      assert cs[..i] == cs;
    } else {
      DataGrows(cs, w, i + 1);
      assert cs[..i + 1] == cs[..i] + [cs[i]];
      DataOfNext(cs[..i], cs[i]);
    }
  }

  /** Conversely, any cut of a weight into nonempty chunks merges, not only the one that split makes. */
  lemma CutMerges(cs: seq<Chunk>, w: Weight, bucketSize: nat)
    requires CutOf(cs, w, bucketSize) && OneWeight(cs, w)
    ensures MergeRun(Idle, cs, bucketSize) == Ok(Progress(Idle, [w]))
  {
    assert cs[..|cs|] == cs;
    if |w.data| <= bucketSize {
      assert cs == [cs[0]] == [] + [cs[0]];
      DataOfNext([], cs[0]);
      assert DataOf([]) + cs[0].data == cs[0].data;
      MergeRunOne(Idle, cs[0], bucketSize);
    } else {
      CutMergesUpTo(cs, w, bucketSize, |cs|);
    }
  }

  lemma ChunkFollows(w: Weight, bucketSize: nat, before: seq<Chunk>, offset: nat)
    requires 0 < bucketSize && offset < |w.data|
    requires InSequence(before, w.name) && OneWeight(before, w) && DataOf(before) == w.data[..offset]
    ensures var c := ChunkAt(w, bucketSize, offset);
            && InSequence(before + [c], w.name) && OneWeight(before + [c], w)
            && DataOf(before + [c]) == w.data[..offset + c.meta.chunkSize]
  {
    var c := ChunkAt(w, bucketSize, offset);
    DataOfNext(before, c);
    SequenceNext(before, c, w.name);
    assert w.data[..offset] + c.data == w.data[..offset + c.meta.chunkSize];
  }

  lemma {:induction false} SplitFollows(w: Weight, bucketSize: nat, all: seq<Chunk>, before: seq<Chunk>, offset: nat)
    requires 0 < bucketSize && offset <= |w.data| && all == before + SplitFrom(w, bucketSize, offset)
    requires InSequence(before, w.name) && OneWeight(before, w) && DataOf(before) == w.data[..offset]
    ensures InSequence(all, w.name) && OneWeight(all, w) && DataOf(all) == w.data
    decreases |w.data| - offset
  {
    if offset == |w.data| {
      assert all == before;
      assert w.data[..offset] == w.data;
    } else {
      var c := ChunkAt(w, bucketSize, offset);
      var rest := SplitFrom(w, bucketSize, offset + c.meta.chunkSize);
      assert all == before + ([c] + rest) == before + [c] + rest;
      ChunkFollows(w, bucketSize, before, offset);
      SplitFollows(w, bucketSize, all, before + [c], offset + c.meta.chunkSize);
    }
  }

  /** split cuts. */
  lemma SplitIsCut(w: Weight, bucketSize: nat)
    requires 0 < bucketSize && ValidWeight(w) && w.data != []
    ensures CutOf(SplitFrom(w, bucketSize, 0), w, bucketSize) && OneWeight(SplitFrom(w, bucketSize, 0), w)
  {
    var cs := SplitFrom(w, bucketSize, 0);
    SplitFollows(w, bucketSize, cs, [], 0);
    if |w.data| <= bucketSize { assert SplitFrom(w, bucketSize, |w.data|) == []; }
  }

  lemma MergeUndoesSplitOne(w: Weight, bucketSize: nat)
    requires 0 < bucketSize && ValidWeight(w)
    ensures MergeRun(Idle, SplitFrom(w, bucketSize, 0), bucketSize) ==
            Ok(Progress(Idle, if w.data == [] then [] else [w]))
  {
    if w.data != [] {
      SplitIsCut(w, bucketSize);
      CutMerges(SplitFrom(w, bucketSize, 0), w, bucketSize);
    }
  }

  /** Merging what was split gives back every weight that has bytes, in order, with no failed assert. */
  lemma {:induction false} MergeUndoesSplit(ws: seq<Weight>, bucketSize: nat)
    requires 0 < bucketSize && ValidWeights(ws)
    ensures MergeRun(Idle, SplitAll(ws, bucketSize), bucketSize) == Ok(Progress(Idle, NonEmpty(ws)))
  {
    if ws != [] {
      MergeUndoesSplitOne(ws[0], bucketSize);
      MergeUndoesSplit(ws[1..], bucketSize);
      MergeRunAppend(Idle, SplitFrom(ws[0], bucketSize, 0), SplitAll(ws[1..], bucketSize), bucketSize);
    }
  }

  lemma {:induction false} NonEmptyIsIdentity(ws: seq<Weight>)
    ensures |NonEmpty(ws)| <= |ws|
    ensures NonEmpty(ws) == ws <==> forall i :: 0 <= i < |ws| ==> ws[i].data != []
  {
    if ws != [] {
      NonEmptyIsIdentity(ws[1..]);
      if ws[0].data != [] {
        assert NonEmpty(ws)[1..] == NonEmpty(ws[1..]);
        if NonEmpty(ws[1..]) == ws[1..] {
          assert ws == [ws[0]] + ws[1..];
          forall i | 0 <= i < |ws| ensures ws[i].data != [] { if i > 0 { assert ws[i] == ws[1..][i - 1]; } }
        } else {
          var k :| 0 <= k < |ws[1..]| && ws[1..][k].data == [];
          assert ws[k + 1].data == [];
        }
      }
    }
  }

  /** The transfer is the identity exactly on the weight lists without zero-byte tensors. */
  lemma RoundTripExactly(ws: seq<Weight>, bucketSize: nat)
    requires 0 < bucketSize && ValidWeights(ws)
    ensures MergeAll(SplitAll(ws, bucketSize), bucketSize) == Ok(ws)
            <==> forall i :: 0 <= i < |ws| ==> ws[i].data != []
  {
    MergeUndoesSplit(ws, bucketSize);
    NonEmptyIsIdentity(ws);
  }
}
