/** Every step keeps the invariant of the broadcast protocol; what that means for buffers and deliveries. */
module NcclSafety {
  import opened BucketPacking
  import opened BucketTransfer
  import opened NcclBroadcast
  import opened WeightChunks
  import opened Wrappers

  // ---------------------------------------------------------------- rank 0

  lemma RootStepKeeps(c: Config, r: Rank)
    requires ValidConfig(c) && RootInv(c, r) && RootCanRun(c, r)
    ensures RootInv(c, RootStep(c, r))
    ensures Published(RootStep(c, r)) == Published(r) && Returned(RootStep(c, r)) == Returned(r)
  {
    if r.pc == Posting { assert r.buffers[r.send] == c.buckets[r.bucket].content; }
  }

  lemma FillKeeps(c: Config, r: Rank)
    requires ValidConfig(c) && RootInv(c, r) && r.pc == Filling && r.pos < c.bucketSize
    ensures RootInv(c, FillByte(c, r))
    ensures Published(FillByte(c, r)) == Published(r) && Returned(FillByte(c, r)) == Returned(r)
  {
  }

  lemma RootOpKeeps(c: Config, r: Rank, stage: Stage)
    requires RootInv(c, r) && r.op.Some?
    ensures RootInv(c, SetStage(r, stage))
  {
  }

  lemma PublishKeepsPeer(c: Config, root: Rank, r: Rank)
    requires RootInv(c, root) && InStage(root, Metadata) && PeerInv(c, Published(root), r)
    ensures PeerInv(c, Published(SetStage(root, Data)), Enqueue(r, root.op.value.wire))
  {
    EnqueueKeeps(c, r, root.op.value.wire);
    EnqueueKeepsPair(c, Published(root), r, root.op.value.wire);
  }

  lemma EnqueueKeepsPair(c: Config, published: nat, r: Rank, wire: Wire)
    requires PairInv(c, published, r) && published < |c.buckets| && wire == WireOf(c, published)
    ensures PairInv(c, published + 1, Enqueue(r, wire))
  {
    assert Published(Enqueue(r, wire)) == Published(r);
  }

  lemma EnqueueKeeps(c: Config, r: Rank, wire: Wire)
    requires ReceiverInv(c, r)
    ensures ReceiverInv(c, Enqueue(r, wire))
  {
  }

  lemma PublishKeepsTransit(c: Config, root: Rank, transit: seq<map<nat, Byte>>)
    requires ValidConfig(c) && RootInv(c, root) && InStage(root, Metadata)
    requires TransitInv(c, Published(root), Returned(root), transit)
    ensures TransitInv(c, Published(SetStage(root, Data)), Returned(SetStage(root, Data)), transit + [map[]])
  {
  }

  /** While a call is in progress on rank 0, the buffer it sends still holds the bucket of that number. */
  lemma SourceIsIntact(c: Config, root: Rank)
    requires RootInv(c, root) && root.op.Some?
    ensures root.op.value.number < |c.buckets| && root.op.value.buffer < 2
    ensures root.buffers[root.op.value.buffer] == c.buckets[root.op.value.number].content
  {
  }

  lemma SendKeepsTransit(c: Config, root: Rank, transit: seq<map<nat, Byte>>, at: nat)
    requires RootInv(c, root) && InCall(root, transit) && at < c.bucketSize
    requires TransitInv(c, Published(root), Returned(root), transit)
    ensures TransitInv(c, Published(root), Returned(root), SendByte(c, root, transit, at))
  {
    SourceIsIntact(c, root);
    assert CallInv(c, root.op.value.number, transit[root.op.value.number]);
  }

  lemma CompleteKeepsTransit(c: Config, root: Rank, transit: seq<map<nat, Byte>>)
    requires RootInv(c, root) && InCall(root, transit) && AllSent(c, transit[root.op.value.number])
    requires TransitInv(c, Published(root), Returned(root), transit)
    ensures TransitInv(c, Published(SetStage(root, Finished)), Returned(SetStage(root, Finished)), transit)
    ensures Published(SetStage(root, Finished)) == Published(root)
  {
  }

  // ---------------------------------------------------------------- receivers

  lemma WaitKeeps(c: Config, r: Rank)
    requires ValidConfig(c) && ReceiverInv(c, r) && ReceiverCanRun(r) && r.pc in {AwaitFirst, AwaitNext}
    ensures ReceiverInv(c, ReceiverStep(c, r))
  {
    assert r.buffers[r.op.value.buffer] == c.buckets[r.launched - 1].content;
    if r.pc == AwaitNext { YieldNextBucket(c, r.bucket); }
  }

  lemma LaunchKeeps(c: Config, r: Rank)
    requires ValidConfig(c) && ReceiverInv(c, r) && r.pc in {Start, LoopHead}
    ensures ReceiverInv(c, ReceiverStep(c, r))
  {
  }

  lemma YieldKeeps(c: Config, r: Rank)
    requires ValidConfig(c) && ReceiverInv(c, r) && r.pc == Yielding
    ensures ReceiverInv(c, ReceiverStep(c, r))
  {
    if r.pos < |r.wire.entries| { YieldNext(c, r.bucket, r.pos); }
  }

  lemma ReceiverStepKeeps(c: Config, r: Rank)
    requires ValidConfig(c) && ReceiverInv(c, r) && ReceiverCanRun(r)
    ensures ReceiverInv(c, ReceiverStep(c, r))
  {
    if r.pc in {AwaitFirst, AwaitNext} { WaitKeeps(c, r); }
    if r.pc in {Start, LoopHead} { LaunchKeeps(c, r); }
    if r.pc == Yielding { YieldKeeps(c, r); }
  }

  /** A program step neither takes metadata nor moves bytes. */
  lemma ReceiverStepCounts(c: Config, r: Rank)
    requires ValidConfig(c) && ReceiverInv(c, r) && ReceiverCanRun(r)
    ensures Published(ReceiverStep(c, r)) == Published(r) && ReceiverStep(c, r).queue == r.queue
  {
  }

  lemma TakeKeeps(c: Config, published: int, r: Rank)
    requires PeerInv(c, published, r) && InStage(r, Metadata) && r.queue != []
    ensures PeerInv(c, published, TakeMeta(r))
  {
    assert r.queue[0] == WireOf(c, Published(r) + 0);
    TakeKeepsReceiver(c, r);
  }

  lemma TakeKeepsReceiver(c: Config, r: Rank)
    requires ReceiverInv(c, r) && InStage(r, Metadata) && r.queue != [] && r.queue[0] == WireOf(c, r.launched - 1)
    ensures ReceiverInv(c, TakeMeta(r))
  {
  }

  /** A byte that arrives is that of the bucket with the number of the receiver's own call. */
  lemma CopyKeeps(c: Config, published: int, r: Rank, transit: seq<map<nat, Byte>>, at: nat)
    requires PeerInv(c, published, r) && InCall(r, transit) && at < c.bucketSize
    requires CallInv(c, r.op.value.number, transit[r.op.value.number]) && at in transit[r.op.value.number]
    ensures PeerInv(c, published, Receive(c, r, at, transit[r.op.value.number][at]))
  {
    ReceiveKeeps(c, r, at);
  }

  lemma ReceiveKeeps(c: Config, r: Rank, at: nat)
    requires ReceiverInv(c, r) && InStage(r, Data) && at < c.bucketSize
    ensures ReceiverInv(c, Receive(c, r, at, c.buckets[r.op.value.number].content[at]))
  {
  }

  lemma ArriveKeeps(c: Config, published: int, r: Rank)
    requires PeerInv(c, published, r) && InStage(r, Data) && HasAllBytes(c, r.op.value)
    ensures PeerInv(c, published, SetStage(r, Finished))
  {
  }

  // ---------------------------------------------------------------- the whole system

  lemma RootMoves(c: Config, s: State, r: Rank)
    requires Inv(c, s) && RootInv(c, r) && Published(r) == Published(s.root)
    requires TransitInv(c, Published(r), Returned(r), s.transit)
    ensures Inv(c, SetRoot(s, r))
  {
  }

  lemma ReceiverMoves(c: Config, s: State, i: nat, r: Rank)
    requires Inv(c, s) && i < |s.receivers| && PeerInv(c, Published(s.root), r)
    ensures Inv(c, SetReceiver(s, i, r))
  {
  }

  lemma PublishStepKeeps(c: Config, s: State)
    requires Inv(c, s) && InStage(s.root, Metadata)
    ensures Inv(c, State(SetStage(s.root, Data), EnqueueAll(s.receivers, s.root.op.value.wire), s.transit + [map[]]))
  {
    RootOpKeeps(c, s.root, Data);
    PublishKeepsTransit(c, s.root, s.transit);
    var root, wire := SetStage(s.root, Data), s.root.op.value.wire;
    forall i | 0 <= i < |s.receivers| ensures PeerInv(c, Published(root), Enqueue(s.receivers[i], wire)) {
      PublishKeepsPeer(c, s.root, s.receivers[i]);
    }
  }

  lemma CompleteStepKeeps(c: Config, s: State)
    requires Inv(c, s) && InCall(s.root, s.transit) && AllSent(c, s.transit[s.root.op.value.number])
    ensures Inv(c, SetRoot(s, SetStage(s.root, Finished)))
  {
    RootOpKeeps(c, s.root, Finished);
    CompleteKeepsTransit(c, s.root, s.transit);
    RootMoves(c, s, SetStage(s.root, Finished));
  }

  lemma RunStepKeeps(c: Config, published: int, r: Rank)
    requires ValidConfig(c) && PeerInv(c, published, r) && ReceiverCanRun(r)
    ensures PeerInv(c, published, ReceiverStep(c, r))
  {
    ReceiverStepKeeps(c, r);
    ReceiverStepCounts(c, r);
  }

  lemma CopyStepKeeps(c: Config, s: State, i: nat, at: nat)
    requires Inv(c, s) && Shaped(c, s) && Enabled(c, s, Copy(i, at))
    ensures Inv(c, Step(c, s, Copy(i, at)))
  {
    var r := s.receivers[i];
    assert PeerInv(c, Published(s.root), r) && CallInv(c, r.op.value.number, s.transit[r.op.value.number]);
    CopyKeeps(c, Published(s.root), r, s.transit, at);
    ReceiverMoves(c, s, i, Receive(c, r, at, s.transit[r.op.value.number][at]));
  }

  lemma RootActionKeeps(c: Config, s: State, a: Action)
    requires Inv(c, s) && Shaped(c, s) && Enabled(c, s, a) && (a in {Fill, RunRoot, Publish, Complete} || a.Send?)
    ensures Inv(c, Step(c, s, a))
  {
    match a
    case Fill => FillKeeps(c, s.root); RootMoves(c, s, FillByte(c, s.root));
    case RunRoot => RootStepKeeps(c, s.root); RootMoves(c, s, RootStep(c, s.root));
    case Publish => PublishStepKeeps(c, s);
    case Send(at) => SendKeepsTransit(c, s.root, s.transit, at);
    case Complete => CompleteStepKeeps(c, s);
    case _ =>
  }

  lemma ReceiverActionKeeps(c: Config, s: State, a: Action)
    requires Inv(c, s) && Shaped(c, s) && Enabled(c, s, a) && (a.Run? || a.Take? || a.Copy? || a.Arrive?)
    ensures Inv(c, Step(c, s, a))
  {
    var published := Published(s.root);
    match a
    case Run(i) => RunStepKeeps(c, published, s.receivers[i]); ReceiverMoves(c, s, i, ReceiverStep(c, s.receivers[i]));
    case Take(i) => TakeKeeps(c, published, s.receivers[i]); ReceiverMoves(c, s, i, TakeMeta(s.receivers[i]));
    case Copy(i, at) => CopyStepKeeps(c, s, i, at);
    case Arrive(i) =>
      ArriveKeeps(c, published, s.receivers[i]);
      ReceiverMoves(c, s, i, SetStage(s.receivers[i], Finished));
    case _ =>
  }

  /** The invariant survives every step of every program, operation and transfer. */
  lemma StepKeeps(c: Config, s: State, a: Action)
    requires Inv(c, s) && Shaped(c, s) && Enabled(c, s, a)
    ensures Inv(c, Step(c, s, a)) && Shaped(c, Step(c, s, a))
  {
    if a.Run? || a.Take? || a.Copy? || a.Arrive? {
      ReceiverActionKeeps(c, s, a);
    } else {
      RootActionKeeps(c, s, a);
    }
    InvShaped(c, Step(c, s, a));
  }

  // ---------------------------------------------------------------- runs

  ghost predicate StepsTo(c: Config, s: State, s': State) {
    Shaped(c, s) && exists a :: Enabled(c, s, a) && s' == Step(c, s, a)
  }

  ghost predicate IsRun(c: Config, trace: seq<State>) {
    && trace != []
    && Init(c, trace[0])
    && forall k :: 0 <= k < |trace| - 1 ==> StepsTo(c, trace[k], trace[k + 1])
  }

  lemma {:induction false} RunInv(c: Config, trace: seq<State>, k: nat)
    requires IsRun(c, trace) && k < |trace|
    ensures Inv(c, trace[k]) && Shaped(c, trace[k])
  {
    if k == 0 {
      InitInv(c, trace[0]);
    } else {
      RunInv(c, trace, k - 1);
      assert StepsTo(c, trace[k - 1], trace[k - 1 + 1]);
      var a :| Enabled(c, trace[k - 1], a) && trace[k] == Step(c, trace[k - 1], a);
      StepKeeps(c, trace[k - 1], a);
    }
  }

  /** No rank ever launches a broadcast while another of its own is in flight. */
  lemma OneBroadcastInFlight(c: Config, trace: seq<State>, k: nat)
    requires IsRun(c, trace) && k < |trace|
    ensures !trace[k].root.overlapped
    ensures forall i :: 0 <= i < |trace[k].receivers| ==> !trace[k].receivers[i].overlapped
  {
    RunInv(c, trace, k);
    forall i | 0 <= i < |trace[k].receivers| ensures !trace[k].receivers[i].overlapped {
      assert PeerInv(c, Published(trace[k].root), trace[k].receivers[i]);
    }
  }

  /** A broadcast never has the buffer that rank 0 is filling, nor the one a receiver is yielding from. */
  lemma BuffersAreApart(c: Config, trace: seq<State>, k: nat, i: nat)
    requires IsRun(c, trace) && k < |trace| && i < |trace[k].receivers|
    ensures var root, r := trace[k].root, trace[k].receivers[i];
            && (root.pc == Filling && root.op.Some? ==> root.op.value.buffer != root.send)
            && (r.pc in {LoopHead, Yielding} && r.op.Some? ==> r.op.value.buffer != r.send)
  {
    RunInv(c, trace, k);
    assert PeerInv(c, Published(trace[k].root), trace[k].receivers[i]);
  }

  /** Rank 0's buffer, from the launch of a broadcast until it returns. */
  ghost predicate BeingSent(root: Rank, b: nat) {
    root.op.Some? && root.op.value.stage != Finished && root.op.value.buffer == b
  }

  /** No step writes the buffer that is being broadcast. */
  lemma SentBufferIsStable(c: Config, s: State, a: Action, b: nat)
    requires Inv(c, s) && Shaped(c, s) && Enabled(c, s, a) && b < 2 && BeingSent(s.root, b)
    ensures var s' := Step(c, s, a);
            |s'.root.buffers| == 2 && s'.root.buffers[b] == s.root.buffers[b]
  {
  }

  /** No step writes the buffer that a receiver still has to yield tensors from. */
  lemma YieldedBufferIsStable(c: Config, s: State, a: Action, i: nat)
    requires Inv(c, s) && Shaped(c, s) && Enabled(c, s, a) && i < |s.receivers|
    requires s.receivers[i].pc in {LoopHead, Yielding}
    ensures var s', b := Step(c, s, a), s.receivers[i].send;
            |s'.receivers| == |s.receivers| && |s'.receivers[i].buffers| == 2
            && s'.receivers[i].buffers[b] == s.receivers[i].buffers[b]
  {
    assert PeerInv(c, Published(s.root), s.receivers[i]);
    OneReceiverMoves(c, s, a, i);
  }

  lemma OneReceiverMoves(c: Config, s: State, a: Action, i: nat)
    requires Shaped(c, s) && Enabled(c, s, a) && i < |s.receivers|
    ensures var s', r := Step(c, s, a), s.receivers[i];
            && |s'.receivers| == |s.receivers|
            && s'.receivers[i].buffers ==
               if a.Copy? && a.i == i
               then SetByte(r.buffers, r.op.value.buffer, a.at, s.transit[r.op.value.number][a.at])
               else r.buffers
  {
  }

  /** The k-th broadcast that returns on a receiver carries the metadata and the bytes of the k-th flushed bucket. */
  lemma BroadcastsMatchBuckets(c: Config, trace: seq<State>, t: nat, i: nat)
    requires IsRun(c, trace) && t < |trace| && i < |trace[t].receivers| && OpReturned(trace[t].receivers[i])
    ensures var r := trace[t].receivers[i];
            var op := r.op.value;
            && op.number < |c.buckets| && op.number == r.launched - 1
            && op.wire == WireOf(c, op.number) && op.buffer < |r.buffers|
            && r.buffers[op.buffer] == c.buckets[op.number].content
  {
    RunInv(c, trace, t);
    assert PeerInv(c, Published(trace[t].root), trace[t].receivers[i]);
  }

  /** At every moment a receiver has yielded a prefix of the sender's chunks, and all of them when it is done. */
  lemma ReceiversYieldWhatWasPacked(c: Config, trace: seq<State>, t: nat, i: nat)
    requires IsRun(c, trace) && t < |trace| && i < |trace[t].receivers|
    ensures trace[t].receivers[i].yielded <= UnpackAll(c.buckets)
    ensures trace[t].receivers[i].pc == Done ==> trace[t].receivers[i].yielded == UnpackAll(c.buckets)
  {
    RunInv(c, trace, t);
    assert PeerInv(c, Published(trace[t].root), trace[t].receivers[i]);
    YieldedIsPrefix(c, trace[t].receivers[i].bucket, YieldedNow(c, trace[t].receivers[i]));
  }

  /** When rank 0 returns, it has made one call for every bucket and all their bytes have left its buffers. */
  lemma ReturnedMeansSent(c: Config, trace: seq<State>, t: nat)
    requires IsRun(c, trace) && t < |trace|
    ensures trace[t].root.pc == Done ==>
              && trace[t].root.op.None? && |trace[t].transit| == |c.buckets|
              && forall k :: 0 <= k < |c.buckets| ==> AllSent(c, trace[t].transit[k])
  {
    RunInv(c, trace, t);
  }

  /** Buckets travel on while they are yielded: once a chunk of bucket b has been yielded, the receiver has joined the
      broadcast of bucket b + 1, if there is one. */
  lemma JoinsBeforeYielding(c: Config, trace: seq<State>, t: nat, i: nat, b: nat)
    requires IsRun(c, trace) && t < |trace| && i < |trace[t].receivers| && b + 1 < |c.buckets|
    ensures Reaches(c, trace[t].receivers[i].yielded, b) ==> b + 1 < trace[t].receivers[i].launched
  {
    RunInv(c, trace, t);
    var r := trace[t].receivers[i];
    assert PeerInv(c, Published(trace[t].root), r);
    if Reaches(c, r.yielded, b) { ReachesFrom(c, r.bucket, YieldedNow(c, r), b); }
  }

  /** End to end: a receiver that has finished has merged exactly the weights (those with bytes) given to rank 0. */
  lemma BroadcastDeliversWeights(c: Config, ws: seq<Weight>, send: seq<Byte>, recv: seq<Byte>,
                                 trace: seq<State>, t: nat, i: nat)
    requires 0 < c.bucketSize == |send| == |recv| && ValidWeights(ws) && DistinctNames(ws)
    requires Packable(SplitAll(ws, c.bucketSize), c.bucketSize)
    requires c.buckets == PackAll(SplitAll(ws, c.bucketSize), send, recv)
    requires IsRun(c, trace) && t < |trace| && i < |trace[t].receivers| && trace[t].receivers[i].pc == Done
    ensures MergeAll(trace[t].receivers[i].yielded, c.bucketSize) == Ok(NonEmpty(ws))
  {
    ReceiversYieldWhatWasPacked(c, trace, t, i);
    TransferRoundTrip(ws, send, recv);
  }
}
