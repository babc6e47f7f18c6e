/**
 The bucket loop shared by the NCCL and NIXL send_weights: chunks are copied one after the other
 into send_buf; a chunk that does not fit makes the bucket go out and swaps the two buffers.
 */
module BucketPacking {
  import opened WeightChunks
  import opened Wrappers

  /** A TensorMeta after `tensor_meta.offset = offset`; bucket_meta is the list of them, in insertion order. */
  datatype Entry = Entry(meta: Meta, offset: nat)

  /** A bucket at the moment it is handed to the transport: its metadata and the whole buffer. */
  datatype Bucket = Bucket(entries: seq<Entry>, content: seq<Byte>)

  datatype Packer = Packer(posted: seq<Bucket>, send: seq<Byte>, recv: seq<Byte>, entries: seq<Entry>, offset: nat)

  ghost predicate Ready(p: Packer, bucketSize: nat) {
    |p.send| == bucketSize && |p.recv| == bucketSize && p.offset <= bucketSize
  }

  ghost predicate Packable(chunks: seq<Chunk>, bucketSize: nat) {
    forall i :: 0 <= i < |chunks| ==> 0 < chunks[i].meta.chunkSize == |chunks[i].data| <= bucketSize
  }

  function Flush(p: Packer): Packer {
    Packer(p.posted + [Bucket(p.entries, p.send)], p.recv, p.send, [], 0)
  }

  function Place(p: Packer, c: Chunk): Packer
    requires p.offset + |c.data| <= |p.send|
  {
    Packer(p.posted, Overwrite(p.send, p.offset, c.data), p.recv,
           p.entries + [Entry(c.meta, p.offset)], p.offset + |c.data|)
  }

  /** Room is made, if need be, before a chunk is placed. */
  function MakeRoom(p: Packer, c: Chunk, bucketSize: nat): Packer {
    if p.offset + c.meta.chunkSize > bucketSize then Flush(p) else p
  }

  function Pack(p: Packer, chunks: seq<Chunk>, bucketSize: nat): (r: Packer)
    requires Ready(p, bucketSize) && Packable(chunks, bucketSize)
    ensures Ready(r, bucketSize)
    decreases |chunks|
  {
    if chunks == [] then p
    else
      var c := chunks[|chunks| - 1];
      Place(MakeRoom(Pack(p, chunks[..|chunks| - 1], bucketSize), c, bucketSize), c)
  }

  function Start(send: seq<Byte>, recv: seq<Byte>): Packer {
    Packer([], send, recv, [], 0)
  }

  /** All buckets of one transfer: those flushed on the way and the last one. */
  function PackAll(chunks: seq<Chunk>, send: seq<Byte>, recv: seq<Byte>): seq<Bucket>
    requires |send| == |recv| && Packable(chunks, |send|)
  {
    Flush(Pack(Start(send, recv), chunks, |send|)).posted
  }

  // ---------------------------------------------------------------- what the chunks of a transfer look like

  /** A chunk that is not the last of its weight fills a bucket on its own. */
  ghost predicate OnlyLastChunksAreShort(chunks: seq<Chunk>, bucketSize: nat) {
    forall i, j :: 0 <= i < j < |chunks| && chunks[i].meta.name == chunks[j].meta.name ==>
                     chunks[i].meta.chunkSize == bucketSize
  }

  lemma {:induction false} SplitFromShape(w: Weight, bucketSize: nat, offset: nat)
    requires 0 < bucketSize && offset <= |w.data|
    ensures var cs := SplitFrom(w, bucketSize, offset);
            && Packable(cs, bucketSize)
            && OnlyLastChunksAreShort(cs, bucketSize)
            && forall i :: 0 <= i < |cs| ==> cs[i].meta.name == w.name
    decreases |w.data| - offset
  {
    if offset < |w.data| {
      var c := ChunkAt(w, bucketSize, offset);
      SplitFromShape(w, bucketSize, offset + c.meta.chunkSize);
    }
  }

  lemma {:induction false} SplitAllShape(ws: seq<Weight>, bucketSize: nat)
    requires 0 < bucketSize && DistinctNames(ws)
    ensures var cs := SplitAll(ws, bucketSize);
            && Packable(cs, bucketSize)
            && OnlyLastChunksAreShort(cs, bucketSize)
            && forall i :: 0 <= i < |cs| ==> exists k :: 0 <= k < |ws| && cs[i].meta.name == ws[k].name
  {
    if ws != [] {
      SplitFromShape(ws[0], bucketSize, 0);
      SplitAllShape(ws[1..], bucketSize);
      var a, b := SplitFrom(ws[0], bucketSize, 0), SplitAll(ws[1..], bucketSize);
      var all: seq<Chunk> := a + b;
      forall i | 0 <= i < |all|
        ensures exists k :: 0 <= k < |ws| && all[i].meta.name == ws[k].name
        ensures i >= |a| ==> all[i].meta.name != ws[0].name
      {
        if i < |a| {
          assert all[i].meta.name == ws[0].name;
        } else {
          var k :| 0 <= k < |ws[1..]| && b[i - |a|].meta.name == ws[1..][k].name;
          assert all[i].meta.name == ws[k + 1].name;
        }
      }
    }
  }

  // ---------------------------------------------------------------- invariants of packing

  /** Entries lie side by side from offset 0 and end at `end`. */
  ghost predicate SideBySide(entries: seq<Entry>, end: nat) {
    && (entries == [] ==> end == 0)
    && (entries != [] ==>
          && entries[0].offset == 0
          && entries[|entries| - 1].offset + entries[|entries| - 1].meta.chunkSize == end)
    && (forall i :: 0 < i < |entries| ==> entries[i].offset == entries[i - 1].offset + entries[i - 1].meta.chunkSize)
    && (forall i :: 0 <= i < |entries| ==> entries[i].offset + entries[i].meta.chunkSize <= end)
  }

  ghost predicate UniqueNames(entries: seq<Entry>) {
    forall i, j :: 0 <= i < j < |entries| ==> entries[i].meta.name != entries[j].meta.name
  }

  /** bucket_meta can be a dict, its chunks do not overlap and none crosses the end of the buffer. */
  ghost predicate SoundBucket(b: Bucket, bucketSize: nat) {
    && |b.content| == bucketSize
    && UniqueNames(b.entries)
    && exists end: nat :: SideBySide(b.entries, end) && end <= bucketSize
  }

  function PySlice(s: seq<Byte>, from: nat, to: nat): seq<Byte> {
    if from <= to <= |s| then s[from..to] else if from < |s| && from <= to then s[from..] else []
  }

  function ReadEntry(e: Entry, content: seq<Byte>): Chunk {
    Chunk(e.meta, PySlice(content, e.offset, e.offset + e.meta.chunkSize))
  }

  /** The chunks a receiver yields from one buffer. */
  function Unpack(b: Bucket): seq<Chunk> {
    seq(|b.entries|, i requires 0 <= i < |b.entries| => ReadEntry(b.entries[i], b.content))
  }

  function UnpackAll(bs: seq<Bucket>): seq<Chunk> {
    if bs == [] then [] else UnpackAll(bs[..|bs| - 1]) + Unpack(bs[|bs| - 1])
  }

  ghost predicate PackInv(p: Packer, chunks: seq<Chunk>, bucketSize: nat) {
    && Ready(p, bucketSize)
    && SideBySide(p.entries, p.offset)
    && UniqueNames(p.entries)
    && (forall i :: 0 <= i < |p.posted| ==> SoundBucket(p.posted[i], bucketSize))
    && UnpackAll(p.posted) + Unpack(Bucket(p.entries, p.send)) == chunks
  }

  /** `assert tensor_meta.name not in bucket_meta`: a short chunk never meets its own weight in a bucket. */
  lemma NoNameTwice(p: Packer, chunks: seq<Chunk>, c: Chunk, bucketSize: nat)
    requires PackInv(p, chunks, bucketSize) && OnlyLastChunksAreShort(chunks + [c], bucketSize)
    requires 0 < c.meta.chunkSize && p.offset + c.meta.chunkSize <= bucketSize
    ensures forall i :: 0 <= i < |p.entries| ==> p.entries[i].meta.name != c.meta.name
  {
    forall i | 0 <= i < |p.entries|
      ensures p.entries[i].meta.name != c.meta.name
    {
      var k := |UnpackAll(p.posted)| + i;
      assert Unpack(Bucket(p.entries, p.send))[i].meta == p.entries[i].meta;
      assert chunks[k].meta == p.entries[i].meta;
      assert (chunks + [c])[k] == chunks[k] && (chunks + [c])[|chunks|] == c;
    }
  }

  lemma PlaceUnpacks(p: Packer, c: Chunk)
    requires SideBySide(p.entries, p.offset) && p.offset + |c.data| <= |p.send| && c.meta.chunkSize == |c.data|
    ensures Unpack(Bucket(Place(p, c).entries, Place(p, c).send)) == Unpack(Bucket(p.entries, p.send)) + [c]
  {
    var q := Place(p, c);
    assert q.send[p.offset..p.offset + |c.data|] == c.data;
    forall i | 0 <= i < |p.entries|
      ensures ReadEntry(q.entries[i], q.send) == ReadEntry(p.entries[i], p.send)
    {
      var e := p.entries[i];
      assert q.entries[i] == e;
      assert q.send[e.offset..e.offset + e.meta.chunkSize] == p.send[e.offset..e.offset + e.meta.chunkSize];
    }
  }

  lemma FlushKeeps(p: Packer, chunks: seq<Chunk>, bucketSize: nat)
    requires PackInv(p, chunks, bucketSize)
    ensures PackInv(Flush(p), chunks, bucketSize)
  {
    var q := Flush(p);
    assert q.posted[..|q.posted| - 1] == p.posted;
    assert Unpack(Bucket([], q.send)) == [];
    assert SoundBucket(Bucket(p.entries, p.send), bucketSize);
  }

  lemma PlaceKeeps(p: Packer, chunks: seq<Chunk>, c: Chunk, bucketSize: nat)
    requires PackInv(p, chunks, bucketSize) && OnlyLastChunksAreShort(chunks + [c], bucketSize)
    requires 0 < c.meta.chunkSize == |c.data| && p.offset + |c.data| <= bucketSize
    ensures PackInv(Place(p, c), chunks + [c], bucketSize)
  {
    NoNameTwice(p, chunks, c, bucketSize);
    PlaceUnpacks(p, c);
    var u, v := UnpackAll(p.posted), Unpack(Bucket(p.entries, p.send));
    assert u + (v + [c]) == (u + v) + [c];
  }

  lemma {:induction false} PackKeeps(chunks: seq<Chunk>, send: seq<Byte>, recv: seq<Byte>)
    requires |send| == |recv| && Packable(chunks, |send|) && OnlyLastChunksAreShort(chunks, |send|)
    ensures PackInv(Pack(Start(send, recv), chunks, |send|), chunks, |send|)
    decreases |chunks|
  {
    if chunks == [] {
      assert Unpack(Bucket([], send)) == [];
    } else {
      var n, bucketSize := |chunks| - 1, |send|;
      var init, c := chunks[..n], chunks[n];
      assert init + [c] == chunks;
      PackKeeps(init, send, recv);
      var p := Pack(Start(send, recv), init, bucketSize);
      FlushKeeps(p, init, bucketSize);
      PlaceKeeps(MakeRoom(p, c, bucketSize), init, c, bucketSize);
    }
  }

  /** Packing loses, repeats and reorders nothing, and every bucket that goes out is sound. */
  lemma UnpackUndoesPack(chunks: seq<Chunk>, send: seq<Byte>, recv: seq<Byte>)
    requires |send| == |recv| && Packable(chunks, |send|) && OnlyLastChunksAreShort(chunks, |send|)
    ensures var bs := PackAll(chunks, send, recv);
            && UnpackAll(bs) == chunks
            && forall i :: 0 <= i < |bs| ==> SoundBucket(bs[i], |send|)
  {
    PackKeeps(chunks, send, recv);
    FlushKeeps(Pack(Start(send, recv), chunks, |send|), chunks, |send|);
    assert Unpack(Bucket([], recv)) == [];
    var q := Flush(Pack(Start(send, recv), chunks, |send|));
    assert Unpack(Bucket(q.entries, q.send)) == [];
    assert UnpackAll(q.posted) + [] == UnpackAll(q.posted);
  }

  // ---------------------------------------------------------------- when a bucket goes out, and from which buffer

  function Filled(entries: seq<Entry>): nat {
    if entries == [] then 0 else entries[|entries| - 1].offset + entries[|entries| - 1].meta.chunkSize
  }

  /** The bucket before k had no room for the first chunk of bucket k. */
  ghost predicate HadNoRoom(bs: seq<Bucket>, k: nat, bucketSize: nat)
    requires 0 < k < |bs|
  {
    bs[k].entries != [] && Filled(bs[k - 1].entries) + bs[k].entries[0].meta.chunkSize > bucketSize
  }

  /** What a buffer held before bucket k was written into it: the two buffers take turns. */
  function HeldBefore(bs: seq<Bucket>, k: nat, send: seq<Byte>, recv: seq<Byte>): seq<Byte>
    requires k <= |bs| + 1
  {
    if k == 0 then send else if k == 1 then recv else bs[k - 2].content
  }

  /** From the end of its last chunk on, a bucket is what its buffer held before. */
  ghost predicate RestIs(b: Bucket, before: seq<Byte>) {
    && Filled(b.entries) <= |b.content| == |before|
    && forall j :: Filled(b.entries) <= j < |before| ==> b.content[j] == before[j]
  }

  ghost predicate TookTurns(bs: seq<Bucket>, send: seq<Byte>, recv: seq<Byte>) {
    forall k :: 0 <= k < |bs| ==> RestIs(bs[k], HeldBefore(bs, k, send, recv))
  }

  /** Between two chunks of the loop: the buckets posted and the one being filled have taken turns. */
  ghost predicate InTurns(p: Packer, send: seq<Byte>, recv: seq<Byte>) {
    && p.offset == Filled(p.entries)
    && p.recv == HeldBefore(p.posted, |p.posted| + 1, send, recv)
    && RestIs(Bucket(p.entries, p.send), HeldBefore(p.posted, |p.posted|, send, recv))
    && TookTurns(p.posted, send, recv)
  }

  /** Every bucket posted went out for lack of room, and so did the last one before the one being filled. */
  ghost predicate OnlyWhenFull(p: Packer, bucketSize: nat) {
    && p.offset == Filled(p.entries)
    && (p.entries == [] ==> p.posted == [])
    && forall k :: 0 < k <= |p.posted| ==> HadNoRoom(Flush(p).posted, k, bucketSize)
  }

  lemma HeldStays(bs: seq<Bucket>, b: Bucket, k: nat, send: seq<Byte>, recv: seq<Byte>)
    requires k <= |bs| + 1
    ensures HeldBefore(bs + [b], k, send, recv) == HeldBefore(bs, k, send, recv)
  {
    if k >= 2 { assert (bs + [b])[k - 2] == bs[k - 2]; }
  }

  lemma FlushTakesTurns(p: Packer, send: seq<Byte>, recv: seq<Byte>)
    requires InTurns(p, send, recv)
    ensures InTurns(Flush(p), send, recv)
  {
    var n, b := |p.posted|, Bucket(p.entries, p.send);
    var bs := p.posted + [b];
    forall k | 0 <= k <= n
      ensures RestIs(bs[k], HeldBefore(bs, k, send, recv))
    {
      HeldStays(p.posted, b, k, send, recv);
      assert bs[k] == if k < n then p.posted[k] else b;
    }
    assert TookTurns(bs, send, recv);
    HeldStays(p.posted, b, n + 1, send, recv);
    assert RestIs(Bucket([], p.recv), HeldBefore(bs, |bs|, send, recv));
    assert bs[n] == b && HeldBefore(bs, |bs| + 1, send, recv) == p.send;
  }

  lemma OverwriteAfter(buffer: seq<Byte>, offset: nat, bytes: seq<Byte>)
    requires offset + |bytes| <= |buffer|
    ensures var r := Overwrite(buffer, offset, bytes);
            |r| == |buffer| && forall j :: offset + |bytes| <= j < |r| ==> r[j] == buffer[j]
  {
    var r, from := Overwrite(buffer, offset, bytes), offset + |bytes|;
    forall j | from <= j < |r| ensures r[j] == buffer[j] {
      assert buffer[from..][j - from] == buffer[j];
    }
  }

  lemma RestStays(b: Bucket, e: Entry, content: seq<Byte>, before: seq<Byte>)
    requires RestIs(b, before) && e.offset == Filled(b.entries) && |content| == |b.content|
    requires var end := e.offset + e.meta.chunkSize;
             end <= |content| && forall j :: end <= j < |content| ==> content[j] == b.content[j]
    ensures RestIs(Bucket(b.entries + [e], content), before)
  {}

  lemma PlaceTakesTurns(p: Packer, c: Chunk, send: seq<Byte>, recv: seq<Byte>)
    requires InTurns(p, send, recv) && c.meta.chunkSize == |c.data| && p.offset + |c.data| <= |p.send|
    ensures InTurns(Place(p, c), send, recv)
  {
    var content := Overwrite(p.send, p.offset, c.data);
    OverwriteAfter(p.send, p.offset, c.data);
    RestStays(Bucket(p.entries, p.send), Entry(c.meta, p.offset), content,
              HeldBefore(p.posted, |p.posted|, send, recv));
  }

  lemma PlaceWhenFull(p: Packer, c: Chunk, bucketSize: nat)
    requires OnlyWhenFull(p, bucketSize) && 0 < c.meta.chunkSize == |c.data| <= bucketSize
    requires |p.send| == |p.recv| == bucketSize && p.offset <= bucketSize
    ensures OnlyWhenFull(Place(MakeRoom(p, c, bucketSize), c), bucketSize)
  {
    var q := Place(MakeRoom(p, c, bucketSize), c);
    forall k | 0 < k <= |q.posted| ensures HadNoRoom(Flush(q).posted, k, bucketSize) {
      if k <= |p.posted| { assert HadNoRoom(Flush(p).posted, k, bucketSize); }
    }
  }

  lemma {:induction false} PackTakesTurns(chunks: seq<Chunk>, send: seq<Byte>, recv: seq<Byte>)
    requires |send| == |recv| && Packable(chunks, |send|)
    ensures var p := Pack(Start(send, recv), chunks, |send|);
            InTurns(p, send, recv) && OnlyWhenFull(p, |send|) && (p.entries == [] <==> chunks == [])
    decreases |chunks|
  {
    if chunks != [] {
      var init, c := chunks[..|chunks| - 1], chunks[|chunks| - 1];
      PackTakesTurns(init, send, recv);
      var p := Pack(Start(send, recv), init, |send|);
      FlushTakesTurns(p, send, recv);
      PlaceTakesTurns(MakeRoom(p, c, |send|), c, send, recv);
      PlaceWhenFull(p, c, |send|);
    }
  }

  /** A bucket goes out only when the next chunk does not fit into it, the two buffers go out in turn, and only the
      chunks of a bucket are written into its buffer. */
  lemma BucketsTakeTurns(chunks: seq<Chunk>, send: seq<Byte>, recv: seq<Byte>)
    requires |send| == |recv| && Packable(chunks, |send|)
    ensures var bs := PackAll(chunks, send, recv);
            && bs != [] && (bs[|bs| - 1].entries == [] <==> chunks == [])
            && (forall k :: 0 < k < |bs| ==> HadNoRoom(bs, k, |send|))
            && TookTurns(bs, send, recv)
  {
    PackTakesTurns(chunks, send, recv);
    FlushTakesTurns(Pack(Start(send, recv), chunks, |send|), send, recv);
  }

  /** split, pack, unpack and merge: every weight with bytes arrives, in order, whatever the buffers held before. */
  lemma TransferRoundTrip(ws: seq<Weight>, send: seq<Byte>, recv: seq<Byte>)
    requires 0 < |send| == |recv| && ValidWeights(ws) && DistinctNames(ws)
    ensures Packable(SplitAll(ws, |send|), |send|)
    ensures MergeAll(UnpackAll(PackAll(SplitAll(ws, |send|), send, recv)), |send|) == Ok(NonEmpty(ws))
  {
    SplitAllShape(ws, |send|);
    UnpackUndoesPack(SplitAll(ws, |send|), send, recv);
    MergeUndoesSplit(ws, |send|);
  }

  // ---------------------------------------------------------------- the loop itself

  lemma RoomForChunk(p: Packer, chunks: seq<Chunk>, c: Chunk, bucketSize: nat)
    requires PackInv(p, chunks, bucketSize) && OnlyLastChunksAreShort(chunks + [c], bucketSize)
    requires 0 < c.meta.chunkSize == |c.data| <= bucketSize
    ensures var q := MakeRoom(p, c, bucketSize);
            && q.offset + |c.data| <= bucketSize == |q.send|
            && forall e :: e in q.entries ==> e.meta.name != c.meta.name
  {
    FlushKeeps(p, chunks, bucketSize);
    NoNameTwice(MakeRoom(p, c, bucketSize), chunks, c, bucketSize);
  }

  lemma PackedNext(chunks: seq<Chunk>, i: nat, start: Packer)
    requires i < |chunks| && Packable(chunks, |start.send|) && |start.send| == |start.recv|
    requires start == Start(start.send, start.recv)
    ensures var p := MakeRoom(Pack(start, chunks[..i], |start.send|), chunks[i], |start.send|);
            && p.offset + |chunks[i].data| <= |start.send| == |p.send|
            && Pack(start, chunks[..i + 1], |start.send|) == Place(p, chunks[i])
  {
    assert chunks[..i + 1][..i] == chunks[..i];
  }

  lemma NextChunk(chunks: seq<Chunk>, i: nat, start: Packer)
    requires i < |chunks| && Packable(chunks, |start.send|) && OnlyLastChunksAreShort(chunks, |start.send|)
    requires |start.send| == |start.recv| && start == Start(start.send, start.recv)
    ensures var p := MakeRoom(Pack(start, chunks[..i], |start.send|), chunks[i], |start.send|);
            && p.offset + |chunks[i].data| <= |start.send| == |p.send|
            && (forall e :: e in p.entries ==> e.meta.name != chunks[i].meta.name)
            && Pack(start, chunks[..i + 1], |start.send|) == Place(p, chunks[i])
  {
    var init, c := chunks[..i], chunks[i];
    assert init + [c] == chunks[..i + 1];
    PackKeeps(init, start.send, start.recv);
    RoomForChunk(Pack(start, init, |start.send|), init, c, |start.send|);
    PackedNext(chunks, i, start);
  }

  /** send_weights between its first chunk and its last bucket: the buffers are filled in place and swapped. */
  method PackBuckets(ghost weights: seq<Weight>, chunks: seq<Chunk>, bucketSize: nat,
                     sendBuf: array<Byte>, recvBuf: array<Byte>)
    returns (posted: seq<Bucket>)
    requires 0 < bucketSize == sendBuf.Length == recvBuf.Length && sendBuf != recvBuf
    requires DistinctNames(weights) && chunks == SplitAll(weights, bucketSize)
    modifies sendBuf, recvBuf
    ensures Packable(chunks, bucketSize) && posted == PackAll(chunks, old(sendBuf[..]), old(recvBuf[..]))
  {
    SplitAllShape(weights, bucketSize);
    posted := PackChunks(chunks, bucketSize, sendBuf, recvBuf);
  }

  /** The loop. */
  method PackChunks(chunks: seq<Chunk>, bucketSize: nat, sendBuf: array<Byte>, recvBuf: array<Byte>)
    returns (posted: seq<Bucket>)
    requires 0 < bucketSize == sendBuf.Length == recvBuf.Length && sendBuf != recvBuf
    requires Packable(chunks, bucketSize) && OnlyLastChunksAreShort(chunks, bucketSize)
    modifies sendBuf, recvBuf
    ensures posted == PackAll(chunks, old(sendBuf[..]), old(recvBuf[..]))
  {
    ghost var start := Start(sendBuf[..], recvBuf[..]);
    posted := [];
    var send, recv := sendBuf, recvBuf;
    var bucketMeta: seq<Entry> := [];
    var offset: nat := 0;
    for i := 0 to |chunks|
      invariant send != recv && send in {sendBuf, recvBuf} && recv in {sendBuf, recvBuf}
      invariant Packer(posted, send[..], recv[..], bucketMeta, offset) == Pack(start, chunks[..i], bucketSize)
    {
      var c := chunks[i];
      NextChunk(chunks, i, start);
      if offset + c.meta.chunkSize > bucketSize {
        posted := posted + [Bucket(bucketMeta, send[..])];
        send, recv := recv, send;
        bucketMeta, offset := [], 0;
      }
      assert offset + c.meta.chunkSize <= bucketSize;
      assert forall e :: e in bucketMeta ==> e.meta.name != c.meta.name;
      bucketMeta := bucketMeta + [Entry(c.meta, offset)];
      CopyChunk(send, offset, c.data);
      offset := offset + c.meta.chunkSize;
    }
    assert chunks[..|chunks|] == chunks;
    posted := posted + [Bucket(bucketMeta, send[..])];
  }

  // ---------------------------------------------------------------- how many buckets

  function TotalBytes(chunks: seq<Chunk>): nat {
    if chunks == [] then 0 else TotalBytes(chunks[..|chunks| - 1]) + |chunks[|chunks| - 1].data|
  }

  /** n flushed buckets cost at most twice the bytes seen, counting those still in the buffer once. */
  ghost predicate PaidFor(n: nat, size: nat, total: nat, offset: nat) {
    && offset <= total
    && n * size <= 2 * total - offset
    && (n > 0 ==> n * size < 2 * total - offset)
  }

  lemma FlushIsPaidFor(n: nat, size: nat, total: nat, offset: nat, bytes: nat)
    requires PaidFor(n, size, total, offset) && offset + bytes > size
    ensures PaidFor(n + 1, size, total + bytes, bytes)
  {
    assert (n + 1) * size == n * size + size;
  }

  lemma {:induction false} FlushesArePaidFor(chunks: seq<Chunk>, send: seq<Byte>, recv: seq<Byte>)
    requires |send| == |recv| && Packable(chunks, |send|)
    ensures var p := Pack(Start(send, recv), chunks, |send|);
            PaidFor(|p.posted|, |send|, TotalBytes(chunks), p.offset)
    decreases |chunks|
  {
    if chunks != [] {
      var init, c := chunks[..|chunks| - 1], chunks[|chunks| - 1];
      FlushesArePaidFor(init, send, recv);
      var p := Pack(Start(send, recv), init, |send|);
      if p.offset + |c.data| > |send| { FlushIsPaidFor(|p.posted|, |send|, TotalBytes(init), p.offset, |c.data|); }
    }
  }

  /** The n buckets of a transfer carry more than (n-1)/2 buckets of bytes. */
  lemma BucketCountBound(chunks: seq<Chunk>, send: seq<Byte>, recv: seq<Byte>)
    requires |send| == |recv| && Packable(chunks, |send|) && chunks != []
    ensures (|PackAll(chunks, send, recv)| - 1) * |send| < 2 * TotalBytes(chunks)
  {
    FlushesArePaidFor(chunks, send, recv);
    assert TotalBytes(chunks) > 0;
  }
}
