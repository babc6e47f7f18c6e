/**
 verl/checkpoint_engine/nccl_checkpoint_engine.py: every bucket is broadcast from rank 0 to all other ranks.

 The protocol is a transition system. A rank's program runs from await to await; each BroadcastOperation is a
 second thread that passes the metadata on and then joins a collective broadcast. Collective calls match by
 their number on each rank. The bytes of a broadcast leave the sender's buffer one at a time, in any order, with
 the value they have at that moment, and arrive at each receiver at any later moment. The call returns on rank 0
 as soon as all bytes have left, and on a receiver when all have arrived.
 */
module NcclBroadcast {
  import opened Arithmetic
  import opened BucketPacking
  import opened BucketTransfer
  import opened WeightChunks
  import opened Wrappers

  datatype Stage = Metadata | Data | Finished

  /** A BroadcastOperation: the number of its collective call, the buffer it was given, the metadata it
      sends or has received, and the bytes that have arrived in its buffer. */
  datatype Op = Op(number: nat, buffer: nat, stage: Stage, wire: Wire, copied: set<nat>)

  datatype PC =
    | Filling | AwaitPrevious | Posting | AwaitLast
    | Start | AwaitFirst | LoopHead | Yielding | AwaitNext
    | Done

  /** send_buf is buffers[send] and recv_buf is buffers[1 - send]. `op` is the operation that has not been waited
      for; `overlapped` records that one was launched while another was still in flight. `queue` is the
      subscriber socket. */
  datatype Rank = Rank(pc: PC, buffers: seq<seq<Byte>>, send: nat, bucket: nat, pos: nat, wire: Wire,
                       op: Option<Op>, launched: nat, overlapped: bool, queue: seq<Wire>, yielded: seq<Chunk>)

  /** transit[k] has the bytes that have left rank 0 in its k-th collective call. */
  datatype State = State(root: Rank, receivers: seq<Rank>, transit: seq<map<nat, Byte>>)

  /** Fill: rank 0 copies the next byte of the current bucket. Run: a rank's next program step.
      Publish: rank 0's operation sends the metadata and joins the call. Send: a byte leaves. Complete: the call
      returns on rank 0. Take: receiver i's operation gets the metadata and joins. Copy, Arrive: receiver i gets a
      byte, or has them all. */
  datatype Action =
    | Fill | RunRoot | Publish | Send(at: nat) | Complete
    | Run(i: nat) | Take(i: nat) | Copy(i: nat, at: nat) | Arrive(i: nat)

  ghost predicate Shaped(c: Config, s: State) {
    && ValidConfig(c)
    && |s.receivers| == c.world - 1
    && ShapedRoot(c, s.root)
    && forall i :: 0 <= i < |s.receivers| ==> ShapedReceiver(c, s.receivers[i])
  }

  ghost predicate ShapedBuffers(c: Config, r: Rank) {
    && |r.buffers| == 2 && |r.buffers[0]| == |r.buffers[1]| == c.bucketSize
    && r.send < 2 && r.bucket < |c.buckets|
    && (r.op.Some? ==> r.op.value.buffer < 2)
  }

  ghost predicate ShapedRoot(c: Config, r: Rank) {
    ShapedBuffers(c, r) && r.pc in {Filling, AwaitPrevious, Posting, AwaitLast, Done}
  }

  ghost predicate ShapedReceiver(c: Config, r: Rank) {
    ShapedBuffers(c, r) && r.pc in {Start, AwaitFirst, LoopHead, Yielding, AwaitNext, Done}
  }

  // ---------------------------------------------------------------- program steps

  /** BroadcastOperation(...) on buffer b; rank 0 gives the metadata along, the others get it. */
  function Launch(r: Rank, b: nat, wire: Wire): Rank {
    r.(op := Some(Op(r.launched, b, Metadata, wire, {})), launched := r.launched + 1,
       overlapped := r.overlapped || (r.op.Some? && r.op.value.stage != Finished))
  }

  predicate OpReturned(r: Rank) {
    r.op.Some? && r.op.value.stage == Finished
  }

  predicate RootCanRun(c: Config, r: Rank) {
    match r.pc
    case Filling => r.pos == c.bucketSize
    case AwaitPrevious => r.op.None? || OpReturned(r)
    case Posting => true
    case AwaitLast => OpReturned(r)
    case _ => false
  }

  function RootStep(c: Config, r: Rank): Rank
    requires ValidConfig(c) && ShapedRoot(c, r) && RootCanRun(c, r)
  {
    match r.pc
    case Filling => r.(pc := AwaitPrevious)
    case AwaitPrevious => r.(pc := Posting, op := None)
    case Posting =>
      var p := Launch(r, r.send, WireOf(c, r.bucket));
      if r.bucket + 1 == |c.buckets| then p.(pc := AwaitLast)
      else p.(pc := Filling, send := 1 - r.send, bucket := r.bucket + 1, pos := 0)
    case AwaitLast => r.(pc := Done, op := None)
  }

  predicate ReceiverCanRun(r: Rank) {
    match r.pc
    case Start => true
    case AwaitFirst => OpReturned(r)
    case LoopHead => true
    case Yielding => true
    case AwaitNext => OpReturned(r)
    case _ => false
  }

  const NO_WIRE := Wire([], false)

  function ReceiverStep(c: Config, r: Rank): Rank
    requires ValidConfig(c) && ShapedReceiver(c, r) && ReceiverCanRun(r)
  {
    match r.pc
    case Start => Launch(r, 1 - r.send, NO_WIRE).(pc := AwaitFirst)
    case AwaitFirst => SwapIn(r, r.bucket)
    case LoopHead =>
      if r.wire.isLast then r.(pc := Yielding) else Launch(r, 1 - r.send, NO_WIRE).(pc := Yielding)
    case Yielding =>
      if r.pos < |r.wire.entries| then
        r.(yielded := r.yielded + [ReadEntry(r.wire.entries[r.pos], r.buffers[r.send])], pos := r.pos + 1)
      else
        r.(pc := if r.wire.isLast then Done else AwaitNext)
    case AwaitNext => SwapIn(r, r.bucket + 1)
  }

  /** The broadcast has returned: its metadata becomes current and the buffers are swapped. */
  function SwapIn(r: Rank, bucket: nat): Rank
    requires OpReturned(r) && r.send < 2
  {
    r.(pc := LoopHead, op := None, wire := r.op.value.wire, send := 1 - r.send, bucket := bucket, pos := 0)
  }

  // ---------------------------------------------------------------- steps of the operations

  function FillByte(c: Config, r: Rank): Rank
    requires ValidConfig(c) && ShapedRoot(c, r) && r.pos < c.bucketSize
  {
    r.(buffers := SetByte(r.buffers, r.send, r.pos, c.buckets[r.bucket].content[r.pos]), pos := r.pos + 1)
  }

  function SetStage(r: Rank, stage: Stage): Rank
    requires r.op.Some?
  {
    r.(op := Some(r.op.value.(stage := stage)))
  }

  function Enqueue(r: Rank, wire: Wire): Rank {
    r.(queue := r.queue + [wire])
  }

  function TakeMeta(r: Rank): Rank
    requires r.op.Some? && r.queue != []
  {
    r.(op := Some(r.op.value.(stage := Data, wire := r.queue[0])), queue := r.queue[1..])
  }

  function Receive(c: Config, r: Rank, at: nat, x: Byte): Rank
    requires ShapedReceiver(c, r) && r.op.Some? && at < c.bucketSize
  {
    var op := r.op.value;
    r.(buffers := SetByte(r.buffers, op.buffer, at, x), op := Some(op.(copied := op.copied + {at})))
  }

  ghost predicate HasAllBytes(c: Config, op: Op) {
    forall at :: 0 <= at < c.bucketSize ==> at in op.copied
  }

  ghost predicate AllSent(c: Config, bytes: map<nat, Byte>) {
    forall at :: 0 <= at < c.bucketSize ==> at in bytes
  }

  predicate InStage(r: Rank, stage: Stage) {
    r.op.Some? && r.op.value.stage == stage
  }

  /** The rank is inside a collective call that rank 0 has joined. */
  predicate InCall(r: Rank, transit: seq<map<nat, Byte>>) {
    InStage(r, Data) && r.op.value.number < |transit|
  }

  ghost predicate Enabled(c: Config, s: State, a: Action)
    requires Shaped(c, s)
  {
    match a
    case Fill => s.root.pc == Filling && s.root.pos < c.bucketSize
    case RunRoot => RootCanRun(c, s.root)
    case Publish => InStage(s.root, Metadata)
    case Send(at) => at < c.bucketSize && InCall(s.root, s.transit) && at !in s.transit[s.root.op.value.number]
    case Complete => InCall(s.root, s.transit) && AllSent(c, s.transit[s.root.op.value.number])
    case Run(i) => i < |s.receivers| && ReceiverCanRun(s.receivers[i])
    case Take(i) => i < |s.receivers| && InStage(s.receivers[i], Metadata) && s.receivers[i].queue != []
    case Copy(i, at) =>
      && i < |s.receivers| && at < c.bucketSize && InCall(s.receivers[i], s.transit)
      && at in s.transit[s.receivers[i].op.value.number] && at !in s.receivers[i].op.value.copied
    case Arrive(i) => i < |s.receivers| && InStage(s.receivers[i], Data) && HasAllBytes(c, s.receivers[i].op.value)
  }

  function SetRoot(s: State, r: Rank): State {
    s.(root := r)
  }

  function SetReceiver(s: State, i: nat, r: Rank): State
    requires i < |s.receivers|
  {
    s.(receivers := s.receivers[i := r])
  }

  /** The byte at `at` of the sender's buffer, as it is now, goes out. */
  function SendByte(c: Config, root: Rank, transit: seq<map<nat, Byte>>, at: nat): seq<map<nat, Byte>>
    requires ShapedRoot(c, root) && InCall(root, transit) && at < c.bucketSize
  {
    var k := root.op.value.number;
    var bytes: map<nat, Byte> := transit[k][at := root.buffers[root.op.value.buffer][at]];
    transit[k := bytes]
  }

  function EnqueueAll(rs: seq<Rank>, wire: Wire): seq<Rank> {
    seq(|rs|, i requires 0 <= i < |rs| => Enqueue(rs[i], wire))
  }

  ghost function Step(c: Config, s: State, a: Action): State
    requires Shaped(c, s) && Enabled(c, s, a)
  {
    match a
    case Fill => SetRoot(s, FillByte(c, s.root))
    case RunRoot => SetRoot(s, RootStep(c, s.root))
    case Publish => State(SetStage(s.root, Data), EnqueueAll(s.receivers, s.root.op.value.wire), s.transit + [map[]])
    case Send(at) => s.(transit := SendByte(c, s.root, s.transit, at))
    case Complete => SetRoot(s, SetStage(s.root, Finished))
    case Run(i) => SetReceiver(s, i, ReceiverStep(c, s.receivers[i]))
    case Take(i) => SetReceiver(s, i, TakeMeta(s.receivers[i]))
    case Copy(i, at) => SetReceiver(s, i, Receive(c, s.receivers[i], at, s.transit[s.receivers[i].op.value.number][at]))
    case Arrive(i) => SetReceiver(s, i, SetStage(s.receivers[i], Finished))
  }

  ghost predicate Init(c: Config, s: State) {
    && Shaped(c, s)
    && InitialRank(s.root, Filling) && s.transit == []
    && forall i :: 0 <= i < |s.receivers| ==> InitialRank(s.receivers[i], Start)
  }

  predicate InitialRank(r: Rank, pc: PC) {
    && r.pc == pc && r.send == 0 && r.bucket == 0 && r.pos == 0 && r.op == None && r.launched == 0
    && !r.overlapped && r.queue == [] && r.yielded == []
  }

  // ---------------------------------------------------------------- invariant

  /** The buffer in which a rank has bucket k: rank 0 fills send_buf first, the others receive into recv_buf first. */
  function RootHome(k: nat): nat {
    k % 2
  }

  function ReceiverHome(k: nat): nat {
    (k + 1) % 2
  }

  ghost predicate RootOpInv(c: Config, r: Rank)
    requires ShapedBuffers(c, r)
  {
    r.op.Some? ==>
      var k := r.launched - 1;
      && 0 <= k < |c.buckets| && r.op.value.number == k && r.op.value.buffer == RootHome(k)
      && r.op.value.wire == WireOf(c, k) && r.buffers[RootHome(k)] == c.buckets[k].content
  }

  ghost predicate RootInv(c: Config, r: Rank) {
    && ShapedRoot(c, r)
    && !r.overlapped
    && r.send == RootHome(r.bucket)
    && r.launched == (if r.pc in {AwaitLast, Done} then r.bucket + 1 else r.bucket)
    && (r.pc == Filling ==> r.pos <= c.bucketSize && FilledTo(c, r, r.pos))
    && (r.pc in {AwaitPrevious, Posting, AwaitLast} ==> FilledTo(c, r, c.bucketSize))
    && (r.pc in {Filling, AwaitPrevious} ==> (r.op.Some? <==> r.bucket > 0))
    && (r.pc in {Posting, Done} ==> r.op.None?)
    && (r.pc == AwaitLast ==> r.op.Some?)
    && (r.pc in {AwaitLast, Done} ==> r.bucket + 1 == |c.buckets|)
    && RootOpInv(c, r)
  }

  ghost predicate FilledTo(c: Config, r: Rank, n: nat)
    requires ShapedBuffers(c, r)
  {
    && |c.buckets[r.bucket].content| == c.bucketSize
    && forall j :: 0 <= j < n && j < c.bucketSize ==> r.buffers[r.send][j] == c.buckets[r.bucket].content[j]
  }

  ghost predicate ReceiverOpInv(c: Config, r: Rank)
    requires ShapedBuffers(c, r)
  {
    r.op.Some? ==>
      var op, k := r.op.value, r.launched - 1;
      && 0 <= k < |c.buckets| && op.number == k && op.buffer == 1 - r.send
      && |c.buckets[k].content| == c.bucketSize
      && (op.stage == Metadata ==> op.copied == {})
      && (op.stage != Metadata ==> op.wire == WireOf(c, k))
      && (forall j :: j in op.copied ==> j < c.bucketSize && r.buffers[op.buffer][j] == c.buckets[k].content[j])
      && (op.stage == Finished ==> HasAllBytes(c, op))
  }

  /** How many operations the program has created. */
  function Launched(c: Config, r: Rank): nat {
    match r.pc
    case Start => 0
    case AwaitFirst => 1
    case Yielding => if r.bucket + 1 == |c.buckets| then r.bucket + 1 else r.bucket + 2
    case AwaitNext => r.bucket + 2
    case _ => r.bucket + 1
  }

  /** How many chunks of its current bucket a receiver has yielded. */
  function YieldedNow(c: Config, r: Rank): (n: nat)
    requires r.bucket < |c.buckets|
    ensures n <= |c.buckets[r.bucket].entries|
  {
    var n := |c.buckets[r.bucket].entries|;
    if r.pc == Yielding then Min(r.pos, n) else if r.pc in {AwaitNext, Done} then n else 0
  }

  ghost predicate ReceiverInv(c: Config, r: Rank) {
    && ShapedReceiver(c, r)
    && !r.overlapped
    && r.launched == Launched(c, r)
    && (r.op.Some? <==> r.pc in {AwaitFirst, AwaitNext} || (r.pc == Yielding && r.bucket + 1 < |c.buckets|))
    && (r.pc in {Start, AwaitFirst} ==> r.send == 0 && r.bucket == 0)
    && (r.pc !in {Start, AwaitFirst} ==>
          && r.send == ReceiverHome(r.bucket)
          && r.wire == WireOf(c, r.bucket)
          && r.buffers[r.send] == c.buckets[r.bucket].content)
    && (r.pc == LoopHead ==> r.pos == 0)
    && (r.pc == Yielding ==> r.pos <= |r.wire.entries|)
    && (r.pc == AwaitNext ==> r.bucket + 1 < |c.buckets|)
    && (r.pc == Done ==> r.bucket + 1 == |c.buckets|)
    && r.yielded == YieldedUpTo(c, r.bucket, YieldedNow(c, r))
    && ReceiverOpInv(c, r)
  }

  /** How many metadata messages rank 0 has sent, and how many of them a receiver has taken. */
  function Published(r: Rank): int {
    r.launched - if InStage(r, Metadata) then 1 else 0
  }

  /** How many broadcasts have returned on rank 0. */
  function Returned(r: Rank): int {
    r.launched - if r.op.Some? && r.op.value.stage != Finished then 1 else 0
  }

  /** What waits in a receiver's queue is exactly the metadata it has yet to take, in order. */
  ghost predicate PairInv(c: Config, published: int, r: Rank) {
    && 0 <= Published(r) <= published <= |c.buckets|
    && |r.queue| == published - Published(r)
    && forall q :: 0 <= q < |r.queue| ==> r.queue[q] == WireOf(c, Published(r) + q)
  }

  /** Bytes in transit are those of the bucket with the number of their call, and a call that has returned on
      rank 0 has sent them all. */
  ghost predicate TransitInv(c: Config, published: int, returned: int, transit: seq<map<nat, Byte>>) {
    && |transit| == published <= |c.buckets|
    && (forall k :: 0 <= k < |transit| ==> CallInv(c, k, transit[k]))
    && (forall k :: 0 <= k < returned && k < |transit| ==> AllSent(c, transit[k]))
  }

  ghost predicate CallInv(c: Config, k: nat, bytes: map<nat, Byte>) {
    && k < |c.buckets| && |c.buckets[k].content| == c.bucketSize
    && forall at :: at in bytes ==> at < c.bucketSize && bytes[at] == c.buckets[k].content[at]
  }

  ghost predicate PeerInv(c: Config, published: int, r: Rank) {
    ReceiverInv(c, r) && PairInv(c, published, r)
  }

  ghost predicate Inv(c: Config, s: State) {
    && ValidConfig(c)
    && |s.receivers| == c.world - 1
    && RootInv(c, s.root)
    && TransitInv(c, Published(s.root), Returned(s.root), s.transit)
    && forall i :: 0 <= i < |s.receivers| ==> PeerInv(c, Published(s.root), s.receivers[i])
  }

  lemma InvShaped(c: Config, s: State)
    requires Inv(c, s)
    ensures Shaped(c, s)
  {
    forall i | 0 <= i < |s.receivers| ensures ShapedReceiver(c, s.receivers[i]) {
      assert PeerInv(c, Published(s.root), s.receivers[i]);
    }
  }

  lemma InitInv(c: Config, s: State)
    requires Init(c, s)
    ensures Inv(c, s)
  {
    assert c.buckets[..0] == [];
    forall i | 0 <= i < |s.receivers| ensures PeerInv(c, Published(s.root), s.receivers[i]) {
      assert ShapedReceiver(c, s.receivers[i]) && InitialRank(s.receivers[i], Start);
      InitialReceiver(c, s.receivers[i]);
    }
  }

  lemma InitialReceiver(c: Config, r: Rank)
    requires ValidConfig(c) && ShapedReceiver(c, r) && InitialRank(r, Start)
    ensures ReceiverInv(c, r)
  {
    assert c.buckets[..0] == [];
    assert YieldedUpTo(c, 0, 0) == [];
  }
}
