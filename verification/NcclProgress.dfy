/** The broadcast protocol never gets stuck, and every run of it ends. */
module NcclProgress {
  import opened Arithmetic
  import opened BucketPacking
  import opened BucketTransfer
  import opened NcclBroadcast
  import opened NcclSafety
  import opened WeightChunks

  ghost predicate AllDone(s: State) {
    s.root.pc == Done && forall i :: 0 <= i < |s.receivers| ==> s.receivers[i].pc == Done
  }

  // ---------------------------------------------------------------- somebody can move

  /** How many broadcasts have fully arrived at a receiver. */
  ghost function Arrived(c: Config, r: Rank): int {
    r.launched - if r.op.Some? && (r.op.value.stage == Metadata || !HasAllBytes(c, r.op.value)) then 1 else 0
  }

  /** A call that returns on rank 0 only when every receiver has all its bytes. */
  ghost predicate Patient(c: Config, s: State, a: Action) {
    a.Complete? ==>
      && s.root.op.Some?
      && forall i :: 0 <= i < |s.receivers| ==> Arrived(c, s.receivers[i]) > s.root.op.value.number
  }

  /** A receiver whose call has all its bytes on the way can move. */
  lemma ReceiverMoves(c: Config, s: State, i: nat) returns (a: Action)
    requires Shaped(c, s) && i < |s.receivers| && PeerInv(c, |s.transit|, s.receivers[i]) && s.receivers[i].pc != Done
    requires s.receivers[i].op.Some? ==>
               s.receivers[i].op.value.number < |s.transit| && AllSent(c, s.transit[s.receivers[i].op.value.number])
    ensures Enabled(c, s, a) && !a.Complete?
  {
    var r := s.receivers[i];
    if ReceiverCanRun(r) {
      a := Run(i);
    } else if InStage(r, Metadata) {
      a := Take(i);
    } else if HasAllBytes(c, r.op.value) {
      a := Arrive(i);
    } else {
      var at :| 0 <= at < c.bucketSize && at !in r.op.value.copied;
      a := Copy(i, at);
    }
  }

  lemma CallsOnTheWay(c: Config, s: State, k: nat)
    requires ValidConfig(c) && RootInv(c, s.root) && TransitInv(c, Published(s.root), Returned(s.root), s.transit)
    requires s.root.pc == Done || (InCall(s.root, s.transit) && AllSent(c, s.transit[s.root.op.value.number]))
    requires k < (if s.root.pc == Done then |c.buckets| else s.root.op.value.number + 1)
    ensures k < |s.transit| && AllSent(c, s.transit[k])
  {
  }

  lemma RootMoves(c: Config, s: State) returns (a: Action)
    requires Inv(c, s) && Shaped(c, s) && s.root.pc != Done
    ensures Enabled(c, s, a) && Patient(c, s, a)
  {
    if RootCanRun(c, s.root) {
      a := RunRoot;
    } else if s.root.pc == Filling {
      a := Fill;
    } else if InStage(s.root, Metadata) {
      a := Publish;
    } else if !AllSent(c, s.transit[s.root.op.value.number]) {
      var at :| 0 <= at < c.bucketSize && at !in s.transit[s.root.op.value.number];
      a := Send(at);
    } else if forall i :: 0 <= i < |s.receivers| ==> Arrived(c, s.receivers[i]) > s.root.op.value.number {
      a := Complete;
    } else {
      a := LackingReceiverMoves(c, s);
    }
  }

  lemma LackingReceiverMoves(c: Config, s: State) returns (a: Action)
    requires Inv(c, s) && Shaped(c, s) && InCall(s.root, s.transit) && AllSent(c, s.transit[s.root.op.value.number])
    requires exists i :: 0 <= i < |s.receivers| && Arrived(c, s.receivers[i]) <= s.root.op.value.number
    ensures Enabled(c, s, a) && !a.Complete?
  {
    var i: nat :| i < |s.receivers| && Arrived(c, s.receivers[i]) <= s.root.op.value.number;
    assert PeerInv(c, Published(s.root), s.receivers[i]);
    var r := s.receivers[i];
    LackingIsNotDone(c, s.root, r);
    if r.op.Some? { CallsOnTheWay(c, s, r.op.value.number); }
    a := ReceiverMoves(c, s, i);
  }

  lemma LackingIsNotDone(c: Config, root: Rank, r: Rank)
    requires RootInv(c, root) && root.op.Some? && ReceiverInv(c, r) && Arrived(c, r) <= root.op.value.number
    ensures r.pc != Done && (r.op.Some? ==> r.op.value.number <= root.op.value.number)
  {
  }

  /** Deadlock freedom: in every run, a state in which some rank has not finished has a next step; and that does
      not depend on calls returning early on rank 0. */
  lemma NeverStuck(c: Config, trace: seq<State>, k: nat)
    requires IsRun(c, trace) && k < |trace| && !AllDone(trace[k])
    ensures Shaped(c, trace[k]) && exists a :: Enabled(c, trace[k], a) && Patient(c, trace[k], a)
  {
    RunInv(c, trace, k);
    var s := trace[k];
    if s.root.pc != Done {
      var a := RootMoves(c, s);
    } else {
      var i: nat :| i < |s.receivers| && s.receivers[i].pc != Done;
      assert PeerInv(c, Published(s.root), s.receivers[i]);
      if s.receivers[i].op.Some? { CallsOnTheWay(c, s, s.receivers[i].op.value.number); }
      var a := ReceiverMoves(c, s, i);
    }
  }

  // ---------------------------------------------------------------- work left

  function RootWork(c: Config, r: Rank, transit: seq<map<nat, Byte>>): int {
    RootPhases(c, r) + BytesToSend(c, r, transit)
  }

  function RootPhases(c: Config, r: Rank): int {
    var rounds := (|c.buckets| - r.bucket) * (2 * c.bucketSize + 8);
    match r.pc
    case Filling => rounds - r.pos
    case AwaitPrevious => rounds - c.bucketSize - 1
    case Posting => rounds - c.bucketSize - 2
    case AwaitLast => 1
    case _ => 0
  }

  function BytesToSend(c: Config, r: Rank, transit: seq<map<nat, Byte>>): int {
    match r.op
    case None => 0
    case Some(op) =>
      if op.stage == Metadata then c.bucketSize + 2
      else if op.stage == Data && op.number < |transit| then c.bucketSize + 1 - |transit[op.number]|
      else 0
  }

  function PhasesLeft(c: Config, r: Rank): int {
    var rounds := 4 * (|c.buckets| - r.bucket);
    match r.pc
    case Start => rounds + 2
    case AwaitFirst => rounds + 1
    case LoopHead => rounds
    case Yielding => rounds - 1
    case AwaitNext => rounds - 2
    case _ => 0
  }

  function BytesLeft(c: Config, r: Rank): int {
    (|c.buckets| - r.launched) * (c.bucketSize + 3)
    + match r.op
      case None => 0
      case Some(op) =>
        if op.stage == Metadata then c.bucketSize + 2
        else if op.stage == Data then c.bucketSize + 1 - |op.copied| else 0
  }

  function ReceiverWork(c: Config, r: Rank): int {
    PhasesLeft(c, r) + (|UnpackAll(c.buckets)| - |r.yielded|) + BytesLeft(c, r)
  }

  lemma RootStepWorks(c: Config, r: Rank, transit: seq<map<nat, Byte>>)
    requires ValidConfig(c) && RootInv(c, r) && RootCanRun(c, r)
    ensures RootWork(c, RootStep(c, r), transit) < RootWork(c, r, transit)
  {
    OneRoundLess(|c.buckets| - r.bucket, 2 * c.bucketSize + 8);
  }

  lemma PublishWorks(c: Config, r: Rank, transit: seq<map<nat, Byte>>)
    requires RootInv(c, r) && InStage(r, Metadata) && |transit| == Published(r)
    ensures RootWork(c, SetStage(r, Data), transit + [map[]]) < RootWork(c, r, transit)
  {
  }

  lemma SendWorks(c: Config, r: Rank, transit: seq<map<nat, Byte>>, at: nat)
    requires ShapedRoot(c, r) && InCall(r, transit) && at < c.bucketSize && at !in transit[r.op.value.number]
    ensures RootWork(c, r, SendByte(c, r, transit, at)) < RootWork(c, r, transit)
  {
    var bytes := transit[r.op.value.number];
    var x := r.buffers[r.op.value.buffer][at];
    assert |bytes[at := x]| == |bytes| + 1;
  }

  lemma CompleteWorks(c: Config, r: Rank, transit: seq<map<nat, Byte>>)
    requires InCall(r, transit) && CallInv(c, r.op.value.number, transit[r.op.value.number])
    ensures RootWork(c, SetStage(r, Finished), transit) < RootWork(c, r, transit)
  {
    FewBytes(c, r.op.value.number, transit[r.op.value.number]);
  }

  lemma FewBytes(c: Config, k: nat, bytes: map<nat, Byte>)
    requires CallInv(c, k, bytes)
    ensures |bytes| <= c.bucketSize
  {
    BelowCardinality(bytes.Keys, c.bucketSize);
  }

  lemma RootWorkIsNatural(c: Config, r: Rank, transit: seq<map<nat, Byte>>)
    requires RootInv(c, r) && forall k :: 0 <= k < |transit| ==> CallInv(c, k, transit[k])
    ensures RootWork(c, r, transit) >= 0
  {
    RoundsAtLeast(|c.buckets| - r.bucket, 2 * c.bucketSize + 8);
    if InCall(r, transit) { FewBytes(c, r.op.value.number, transit[r.op.value.number]); }
  }

  lemma ReceiverStepWorks(c: Config, r: Rank)
    requires ValidConfig(c) && ReceiverInv(c, r) && ReceiverCanRun(r)
    ensures ReceiverWork(c, ReceiverStep(c, r)) < ReceiverWork(c, r)
  {
    OneRoundLess(|c.buckets| - r.launched, c.bucketSize + 3);
  }

  lemma TakeWorks(c: Config, r: Rank)
    requires InStage(r, Metadata) && r.queue != []
    ensures ReceiverWork(c, TakeMeta(r)) < ReceiverWork(c, r)
  {
  }

  lemma ReceiveWorks(c: Config, r: Rank, at: nat, x: Byte)
    requires ShapedReceiver(c, r) && InStage(r, Data) && at < c.bucketSize && at !in r.op.value.copied
    ensures ReceiverWork(c, Receive(c, r, at, x)) < ReceiverWork(c, r)
  {
  }

  lemma ArriveWorks(c: Config, r: Rank)
    requires ReceiverInv(c, r) && InStage(r, Data)
    ensures ReceiverWork(c, SetStage(r, Finished)) < ReceiverWork(c, r)
  {
    BelowCardinality(r.op.value.copied, c.bucketSize);
  }

  lemma ReceiverWorkIsNatural(c: Config, r: Rank)
    requires ValidConfig(c) && ReceiverInv(c, r)
    ensures ReceiverWork(c, r) >= 0
  {
    assert PhasesLeft(c, r) >= 0;
    YieldedIsPrefix(c, r.bucket, YieldedNow(c, r));
    assert |r.yielded| <= |UnpackAll(c.buckets)|;
    BytesLeftIsNatural(c, r);
  }

  lemma BytesLeftIsNatural(c: Config, r: Rank)
    requires ReceiverInv(c, r)
    ensures BytesLeft(c, r) >= 0
  {
    RoundsAtLeast(|c.buckets| - r.launched, c.bucketSize + 3);
    if r.op.Some? { BelowCardinality(r.op.value.copied, c.bucketSize); }
  }

  function ReceiversWork(c: Config, rs: seq<Rank>): int {
    if rs == [] then 0 else ReceiversWork(c, rs[..|rs| - 1]) + ReceiverWork(c, rs[|rs| - 1])
  }

  function TotalWork(c: Config, s: State): int {
    RootWork(c, s.root, s.transit) + ReceiversWork(c, s.receivers)
  }

  lemma {:induction false} OneReceiverWorks(c: Config, rs: seq<Rank>, i: nat, r: Rank)
    requires i < |rs| && ReceiverWork(c, r) < ReceiverWork(c, rs[i])
    ensures ReceiversWork(c, rs[i := r]) < ReceiversWork(c, rs)
  {
    var n := |rs| - 1;
    if i < n {
      OneReceiverWorks(c, rs[..n], i, r);
      assert rs[i := r][..n] == rs[..n][i := r];
    } else {
      assert rs[i := r][..n] == rs[..n];
    }
  }

  /** Messages that wait in a queue are nobody's work yet. */
  lemma {:induction false} QueuesAreFree(c: Config, rs: seq<Rank>, wire: Wire)
    ensures ReceiversWork(c, EnqueueAll(rs, wire)) == ReceiversWork(c, rs)
  {
    if rs != [] {
      var n := |rs| - 1;
      QueuesAreFree(c, rs[..n], wire);
      assert EnqueueAll(rs, wire)[..n] == EnqueueAll(rs[..n], wire);
      assert ReceiverWork(c, Enqueue(rs[n], wire)) == ReceiverWork(c, rs[n]);
    }
  }

  lemma {:induction false} ReceiversWorkIsNatural(c: Config, rs: seq<Rank>)
    requires ValidConfig(c) && forall i :: 0 <= i < |rs| ==> ReceiverInv(c, rs[i])
    ensures ReceiversWork(c, rs) >= 0
  {
    if rs != [] {
      ReceiversWorkIsNatural(c, rs[..|rs| - 1]);
      ReceiverWorkIsNatural(c, rs[|rs| - 1]);
    }
  }

  /** Every step uses up work. */
  lemma StepWorks(c: Config, s: State, a: Action)
    requires Inv(c, s) && Shaped(c, s) && Enabled(c, s, a)
    ensures TotalWork(c, Step(c, s, a)) < TotalWork(c, s)
  {
    if a.Run? || a.Take? || a.Copy? || a.Arrive? {
      ReceiverActionWorks(c, s, a);
    } else {
      RootActionWorks(c, s, a);
    }
  }

  lemma RootActionWorks(c: Config, s: State, a: Action)
    requires ValidConfig(c) && RootInv(c, s.root) && TransitInv(c, Published(s.root), Returned(s.root), s.transit)
    requires Shaped(c, s) && Enabled(c, s, a) && (a in {Fill, RunRoot, Publish, Complete} || a.Send?)
    ensures TotalWork(c, Step(c, s, a)) < TotalWork(c, s)
  {
    match a
    case Fill =>
    case RunRoot => RootStepWorks(c, s.root, s.transit);
    case Publish => PublishWorks(c, s.root, s.transit); QueuesAreFree(c, s.receivers, s.root.op.value.wire);
    case Send(at) => SendWorks(c, s.root, s.transit, at);
    case Complete => CompleteWorks(c, s.root, s.transit);
    case _ =>
  }

  lemma ReceiverActionWorks(c: Config, s: State, a: Action)
    requires Inv(c, s) && Shaped(c, s) && Enabled(c, s, a) && (a.Run? || a.Take? || a.Copy? || a.Arrive?)
    ensures TotalWork(c, Step(c, s, a)) < TotalWork(c, s)
  {
    assert PeerInv(c, Published(s.root), s.receivers[a.i]);
    var r := s.receivers[a.i];
    match a
    case Run(i) => ReceiverStepWorks(c, r); OneReceiverWorks(c, s.receivers, i, ReceiverStep(c, r));
    case Take(i) => TakeWorks(c, r); OneReceiverWorks(c, s.receivers, i, TakeMeta(r));
    case Copy(i, at) =>
      var x := s.transit[r.op.value.number][at];
      ReceiveWorks(c, r, at, x);
      OneReceiverWorks(c, s.receivers, i, Receive(c, r, at, x));
    case Arrive(i) => ArriveWorks(c, r); OneReceiverWorks(c, s.receivers, i, SetStage(r, Finished));
    case _ =>
  }

  lemma {:induction false} RunsGetShorter(c: Config, trace: seq<State>, k: nat)
    requires IsRun(c, trace) && k < |trace|
    ensures TotalWork(c, trace[k]) + k <= TotalWork(c, trace[0])
  {
    if k > 0 {
      RunsGetShorter(c, trace, k - 1);
      assert StepsTo(c, trace[k - 1], trace[k - 1 + 1]);
      RunInv(c, trace, k - 1);
      SuccessorHasLess(c, trace[k - 1], trace[k]);
    }
  }

  lemma SuccessorHasLess(c: Config, s: State, s': State)
    requires Inv(c, s) && StepsTo(c, s, s')
    ensures TotalWork(c, s') < TotalWork(c, s)
  {
    var a :| Enabled(c, s, a) && s' == Step(c, s, a);
    StepWorks(c, s, a);
  }

  ghost predicate Stuck(c: Config, s: State) {
    Shaped(c, s) && forall a :: !Enabled(c, s, a)
  }

  /** Termination: no run takes more steps than the initial work; one that cannot be extended is all done. */
  lemma RunsEnd(c: Config, trace: seq<State>)
    requires IsRun(c, trace)
    ensures |trace| - 1 <= TotalWork(c, trace[0])
    ensures Stuck(c, trace[|trace| - 1]) ==> AllDone(trace[|trace| - 1])
  {
    var last := |trace| - 1;
    RunInv(c, trace, last);
    RunsGetShorter(c, trace, last);
    WorkIsNatural(c, trace[last]);
    if !AllDone(trace[last]) {
      NeverStuck(c, trace, last);
    }
  }

  lemma WorkIsNatural(c: Config, s: State)
    requires Inv(c, s)
    ensures TotalWork(c, s) >= 0
  {
    RootWorkIsNatural(c, s.root, s.transit);
    forall i | 0 <= i < |s.receivers| ensures ReceiverInv(c, s.receivers[i]) {
      assert PeerInv(c, Published(s.root), s.receivers[i]);
    }
    ReceiversWorkIsNatural(c, s.receivers);
  }
}
