/** The NIXL chain never gets stuck, and no run of it is longer than the work there is to do. */
module NixlProgress {
  import opened Arithmetic
  import opened BucketPacking
  import opened BucketTransfer
  import opened NixlChain
  import opened NixlSafety

  ghost predicate AllDone(c: Config, s: State) {
    forall i :: 0 <= i < |s.ranks| ==> s.ranks[i].pc == Done
  }

  // ---------------------------------------------------------------- somebody can always move

  lemma TransferMoves(c: Config, s: State, l: nat) returns (a: Action)
    requires Shaped(c, s) && l < c.world - 1 && s.links[l].transfer.Some? && !s.links[l].transfer.value.finished
    ensures Enabled(c, s, a)
  {
    if at: nat :| at < c.bucketSize && at !in s.links[l].transfer.value.copied {
      a := Copy(l, at);
    } else {
      a := Finish(l);
    }
  }

  ghost predicate WaitsForAck(r: Rank, k: Link) {
    r.pc in {AwaitPrevious, AwaitLast, AwaitAck} && r.readable.Some? && k.notifs == []
  }

  /** If nobody is reading the bucket that rank l waits for, its message is still in the next rank's inbox. */
  lemma UnreadMessageWaits(c: Config, l: nat, sender: Rank, receiver: Rank, k: Link)
    requires RankInv(c, l, sender) && RankInv(c, l + 1, receiver) && LinkInv(c, l, sender, receiver, k)
    requires WaitsForAck(sender, k)
    requires k.transfer.Some? ==> k.transfer.value.finished
    ensures k.inbox != [] && receiver.pc !in {Done, Failed}
    ensures receiver.pc in {FirstRead, AwaitRead} ==> k.transfer.Some?
  {
  }

  lemma NextCanRunOrWaits(c: Config, l: nat, sender: Rank, v: View)
    requires ValidConfig(c) && l + 1 < c.world && RankInv(c, l, sender) && RankInv(c, l + 1, v.rank)
    requires LinkInv(c, l, sender, v.rank, v.inward)
    requires WaitsForAck(sender, v.inward) && (v.inward.transfer.Some? ==> v.inward.transfer.value.finished)
    ensures CanRun(c, v) || (l + 2 < c.world && WaitsForAck(v.rank, v.outward))
  {
    UnreadMessageWaits(c, l, sender, v.rank, v.inward);
    if !CanRun(c, v) { TailNeverWaits(c, l + 1, v.rank); }
  }

  lemma NextReader(c: Config, s: State, i: nat)
    requires Inv(c, s) && i < c.world - 1 && WaitsForAck(s.ranks[i], s.links[i])
    requires s.links[i].transfer.Some? ==> s.links[i].transfer.value.finished
    ensures CanRun(c, ViewOf(s, i + 1)) || (i + 1 < c.world - 1 && WaitsForAck(s.ranks[i + 1], s.links[i + 1]))
  {
    Around(c, s, i);
    NextCanRunOrWaits(c, i, s.ranks[i], ViewOf(s, i + 1));
  }

  lemma TailNeverWaits(c: Config, i: nat, r: Rank)
    requires 0 < i < c.world && RankInv(c, i, r) && r.readable.Some?
    ensures i < c.world - 1
  {
  }

  /** A reader without a message is ahead of everything its predecessor has posted. */
  lemma StarvedMeansPredecessorBusy(c: Config, l: nat, sender: Rank, receiver: Rank, k: Link)
    requires RankInv(c, l, sender) && RankInv(c, l + 1, receiver) && LinkInv(c, l, sender, receiver, k)
    requires receiver.pc in {FirstMeta, NextMeta} && k.inbox == []
    ensures sender.pc != Done
  {
  }

  lemma RankWaits(c: Config, s: State, i: nat)
    requires Inv(c, s) && Shaped(c, s) && i < c.world && s.ranks[i].pc != Done
    ensures Waiting(c, s, i)
  {
    Around(c, s, i);
    var v := ViewOf(s, i);
    if i == 0 {
      FirstRankWaits(c, v);
    } else if v.rank.pc in {FirstMeta, NextMeta} {
      ReaderWaits(c, i, s.ranks[i - 1], v);
    } else {
      LaterRankWaits(c, i, s.ranks[i - 1], v);
    }
  }

  lemma FirstRankWaits(c: Config, v: View)
    requires ValidConfig(c) && RankInv(c, 0, v.rank) && v.rank.pc != Done
    ensures CanRun(c, v) || (v.rank.pc == Filling && v.rank.pos < c.bucketSize) || WaitsForAck(v.rank, v.outward)
  {
  }

  lemma ReaderWaits(c: Config, i: nat, prev: Rank, v: View)
    requires ValidConfig(c) && 0 < i < c.world && RankInv(c, i - 1, prev) && RankInv(c, i, v.rank)
    requires LinkInv(c, i - 1, prev, v.rank, v.inward) && v.rank.pc in {FirstMeta, NextMeta}
    ensures CanRun(c, v) || prev.pc != Done
  {
    if v.inward.inbox == [] { StarvedMeansPredecessorBusy(c, i - 1, prev, v.rank, v.inward); }
  }

  lemma LaterRankWaits(c: Config, i: nat, prev: Rank, v: View)
    requires ValidConfig(c) && 0 < i < c.world && RankInv(c, i, v.rank) && v.rank.pc !in {FirstMeta, NextMeta, Done}
    requires LinkInv(c, i - 1, prev, v.rank, v.inward)
    ensures || CanRun(c, v)
            || (i + 1 < c.world && WaitsForAck(v.rank, v.outward))
            || (v.inward.transfer.Some? && !v.inward.transfer.value.finished)
  {
  }

  /** Everybody's reason to wait, without the invariant it follows from. */
  ghost predicate Explained(c: Config, s: State)
    requires Shaped(c, s)
  {
    && (forall i: nat :: i < c.world && s.ranks[i].pc != Done ==> Waiting(c, s, i))
    && (forall i: nat :: i < c.world - 1 && WaitsForAck(s.ranks[i], s.links[i]) ==> AckIsComing(c, s, i))
  }

  ghost predicate Waiting(c: Config, s: State, i: nat)
    requires Shaped(c, s) && i < c.world
  {
    || CanRun(c, ViewOf(s, i))
    || (i == 0 && s.ranks[0].pc == Filling && s.ranks[0].pos < c.bucketSize)
    || (i + 1 < c.world && WaitsForAck(s.ranks[i], s.links[i]))
    || (i > 0 && s.links[i - 1].transfer.Some? && !s.links[i - 1].transfer.value.finished)
    || (i > 0 && s.ranks[i - 1].pc != Done)
  }

  ghost predicate AckIsComing(c: Config, s: State, i: nat)
    requires Shaped(c, s) && i < c.world - 1
  {
    || (s.links[i].transfer.Some? && !s.links[i].transfer.value.finished)
    || CanRun(c, ViewOf(s, i + 1))
    || (i + 1 < c.world - 1 && WaitsForAck(s.ranks[i + 1], s.links[i + 1]))
  }

  lemma InvExplains(c: Config, s: State)
    requires Inv(c, s) && Shaped(c, s)
    ensures Explained(c, s)
  {
    forall i: nat | i < c.world && s.ranks[i].pc != Done ensures Waiting(c, s, i) { RankWaits(c, s, i); }
    forall i: nat | i < c.world - 1 && WaitsForAck(s.ranks[i], s.links[i]) ensures AckIsComing(c, s, i) {
      if s.links[i].transfer.Some? ==> s.links[i].transfer.value.finished { NextReader(c, s, i); }
    }
  }

  /** Towards the tail, which waits for nobody. */
  lemma {:induction false} AckerMoves(c: Config, s: State, i: nat) returns (a: Action)
    requires Shaped(c, s) && Explained(c, s) && i < c.world - 1 && WaitsForAck(s.ranks[i], s.links[i])
    ensures Enabled(c, s, a)
    decreases c.world - i
  {
    assert AckIsComing(c, s, i);
    if s.links[i].transfer.Some? && !s.links[i].transfer.value.finished {
      a := TransferMoves(c, s, i);
    } else if CanRun(c, ViewOf(s, i + 1)) {
      a := Run(i + 1);
    } else {
      a := AckerMoves(c, s, i + 1);
    }
  }

  /** Whatever rank i is waiting for, some rank or transfer engine can move. */
  lemma {:induction false} RankMoves(c: Config, s: State, i: nat) returns (a: Action)
    requires Shaped(c, s) && Explained(c, s) && i < c.world && s.ranks[i].pc != Done
    ensures Enabled(c, s, a)
    decreases i
  {
    assert Waiting(c, s, i);
    if CanRun(c, ViewOf(s, i)) {
      a := Run(i);
    } else if i == 0 && s.ranks[0].pc == Filling && s.ranks[0].pos < c.bucketSize {
      a := Fill;
    } else if i + 1 < c.world && WaitsForAck(s.ranks[i], s.links[i]) {
      a := AckerMoves(c, s, i);
    } else if s.links[i - 1].transfer.Some? && !s.links[i - 1].transfer.value.finished {
      a := TransferMoves(c, s, i - 1);
    } else {
      a := RankMoves(c, s, i - 1);
    }
  }

  /** Deadlock freedom: in every run, a state in which some rank has not finished has a next step. */
  lemma NeverStuck(c: Config, trace: seq<State>, k: nat)
    requires IsRun(c, trace) && k < |trace| && !AllDone(c, trace[k])
    ensures Shaped(c, trace[k]) && exists a :: Enabled(c, trace[k], a)
  {
    RunInv(c, trace, k);
    var i :| 0 <= i < c.world && trace[k].ranks[i].pc != Done;
    InvExplains(c, trace[k]);
    var a := RankMoves(c, trace[k], i);
  }

  // ---------------------------------------------------------------- work left

  function SenderWork(c: Config, r: Rank): int {
    var rounds := (|c.buckets| - r.bucket) * (c.bucketSize + 3);
    match r.pc
    case Filling => rounds - r.pos + 1
    case AwaitPrevious => rounds - c.bucketSize
    case Posting => rounds - c.bucketSize - 1
    case AwaitLast => 1
    case _ => 0
  }

  function PhasesLeft(c: Config, r: Rank): int {
    var rounds := 5 * (|c.buckets| - r.bucket);
    match r.pc
    case FirstMeta => rounds + 2
    case FirstRead => rounds + 1
    case Forwarding => rounds
    case NextMeta => rounds - 1
    case Yielding => rounds - 2
    case AwaitAck => rounds - 3
    case AwaitRead => rounds - 4
    case _ => 0
  }

  ghost function BytesLeft(c: Config, r: Rank, inward: Link): int {
    (|c.buckets| - Taken(c, r)) * (c.bucketSize + 1)
    + if inward.transfer.Some? && !inward.transfer.value.finished
      then c.bucketSize + 1 - |inward.transfer.value.copied| else 0
  }

  ghost function Work(c: Config, i: nat, r: Rank, inward: Link): int {
    if i == 0 then SenderWork(c, r)
    else PhasesLeft(c, r) + (|UnpackAll(c.buckets)| - |r.yielded|) + BytesLeft(c, r, inward)
  }

  lemma SenderWorks(c: Config, v: View)
    requires ValidConfig(c) && RankInv(c, 0, v.rank) && CanRun(c, v)
    ensures SenderWork(c, Advance(c, 0, v).rank) < SenderWork(c, v.rank)
  {
    OneRoundLess(|c.buckets| - v.rank.bucket, c.bucketSize + 3);
  }

  lemma ReceiverWorks(c: Config, i: nat, v: View, prev: Rank)
    requires ReceiveSide(c, i, v, prev) && Advance(c, i, v).rank.pc != Failed
    ensures Work(c, i, Advance(c, i, v).rank, Advance(c, i, v).inward) < Work(c, i, v.rank, v.inward)
  {
    if v.rank.pc in {FirstMeta, NextMeta} {
      BeginReadWorks(c, i, v, prev);
    } else {
      if v.rank.pc in {FirstRead, AwaitRead} { ReadPhasePasses(c, i, v, prev); }
      if v.rank.pc == Forwarding { ForwardPhasePasses(c, i, v, prev); }
      if v.rank.pc == Yielding { YieldPhasePasses(c, i, v, prev); }
      if v.rank.pc == AwaitAck { AckPhasePasses(c, i, v, prev); }
      PassedWorks(c, i, v, Advance(c, i, v));
    }
  }

  /** A step that begins a read: one more message is taken, and all its bytes are still to come. */
  ghost predicate Begun(c: Config, v: View, v': View) {
    && Taken(c, v'.rank) == Taken(c, v.rank) + 1
    && v.inward.transfer.None? && v'.inward.transfer.Some?
    && v'.inward.transfer.value.copied == {} && !v'.inward.transfer.value.finished
    && PhasesLeft(c, v'.rank) < PhasesLeft(c, v.rank) && v'.rank.yielded == v.rank.yielded
  }

  lemma ReadIsBegun(c: Config, i: nat, v: View, prev: Rank)
    requires ReceiveSide(c, i, v, prev) && v.rank.pc in {FirstMeta, NextMeta}
    ensures Begun(c, v, Advance(c, i, v))
  {
  }

  lemma BegunWorks(c: Config, i: nat, v: View, v': View)
    requires i > 0 && Begun(c, v, v')
    ensures Work(c, i, v'.rank, v'.inward) < Work(c, i, v.rank, v.inward)
  {
    OneRoundLess(|c.buckets| - Taken(c, v.rank), c.bucketSize + 1);
  }

  lemma BeginReadWorks(c: Config, i: nat, v: View, prev: Rank)
    requires ReceiveSide(c, i, v, prev) && v.rank.pc in {FirstMeta, NextMeta}
    ensures Work(c, i, Advance(c, i, v).rank, Advance(c, i, v).inward) < Work(c, i, v.rank, v.inward)
  {
    ReadIsBegun(c, i, v, prev);
    BegunWorks(c, i, v, Advance(c, i, v));
  }

  lemma PassedWorks(c: Config, i: nat, v: View, v': View)
    requires i > 0 && Passed(c, v, v')
    ensures Work(c, i, v'.rank, v'.inward) < Work(c, i, v.rank, v.inward)
  {
  }

  /** A step that begins no read: the same bytes are left, but fewer phases or chunks. */
  ghost predicate Passed(c: Config, v: View, v': View) {
    && Taken(c, v'.rank) == Taken(c, v.rank)
    && (v'.inward.transfer.Some? ==> v'.inward.transfer == v.inward.transfer)
    && (v.inward.transfer.Some? && !v.inward.transfer.value.finished ==> v'.inward.transfer == v.inward.transfer)
    && PhasesLeft(c, v'.rank) - |v'.rank.yielded| < PhasesLeft(c, v.rank) - |v.rank.yielded|
  }

  lemma ReadPhasePasses(c: Config, i: nat, v: View, prev: Rank)
    requires ReceiveSide(c, i, v, prev) && Advance(c, i, v).rank.pc != Failed && v.rank.pc in {FirstRead, AwaitRead}
    ensures Passed(c, v, Advance(c, i, v))
  {
  }

  lemma ForwardPhasePasses(c: Config, i: nat, v: View, prev: Rank)
    requires ReceiveSide(c, i, v, prev) && Advance(c, i, v).rank.pc != Failed && v.rank.pc == Forwarding
    ensures Passed(c, v, Advance(c, i, v))
  {
  }

  lemma YieldPhasePasses(c: Config, i: nat, v: View, prev: Rank)
    requires ReceiveSide(c, i, v, prev) && Advance(c, i, v).rank.pc != Failed && v.rank.pc == Yielding
    ensures Passed(c, v, Advance(c, i, v))
  {
  }

  lemma AckPhasePasses(c: Config, i: nat, v: View, prev: Rank)
    requires ReceiveSide(c, i, v, prev) && Advance(c, i, v).rank.pc != Failed && v.rank.pc == AwaitAck
    ensures Passed(c, v, Advance(c, i, v))
  {
  }

  lemma SenderWorkIsNatural(c: Config, r: Rank)
    requires ValidConfig(c) && RankInv(c, 0, r)
    ensures SenderWork(c, r) >= 0
  {
    RoundsAtLeast(|c.buckets| - r.bucket, c.bucketSize + 3);
  }

  lemma BytesLeftIsNatural(c: Config, i: nat, r: Rank, inward: Link, prev: Rank)
    requires 0 < i && LinkInv(c, i - 1, prev, r, inward)
    ensures BytesLeft(c, r, inward) >= 0
  {
    RoundsAtLeast(|c.buckets| - Taken(c, r), c.bucketSize + 1);
    if inward.transfer.Some? { BelowCardinality(inward.transfer.value.copied, c.bucketSize); }
  }

  lemma WorkIsNatural(c: Config, i: nat, r: Rank, inward: Link, prev: Rank)
    requires ValidConfig(c) && i < c.world && RankInv(c, i, r) && (i > 0 ==> LinkInv(c, i - 1, prev, r, inward))
    ensures Work(c, i, r, inward) >= 0
  {
    if i > 0 {
      BytesLeftIsNatural(c, i, r, inward, prev);
      YieldedIsPrefix(c, r.bucket, YieldedNow(c, r));
      assert |r.yielded| <= |UnpackAll(c.buckets)|;
      assert PhasesLeft(c, r) >= 0;
    } else {
      SenderWorkIsNatural(c, r);
    }
  }

  function InwardOf(s: State, i: nat): Link
    requires i < |s.ranks| <= |s.links| + 1
  {
    if i > 0 then s.links[i - 1] else NO_LINK
  }

  ghost function TotalWork(c: Config, s: State, n: nat): int
    requires n <= |s.ranks| == |s.links| + 1
  {
    if n == 0 then 0 else TotalWork(c, s, n - 1) + Work(c, n - 1, s.ranks[n - 1], InwardOf(s, n - 1))
  }

  /** Same rank, same read in flight: same work. */
  ghost predicate SameJob(s: State, s': State, j: nat)
    requires j < |s.ranks| == |s'.ranks| == |s.links| + 1 == |s'.links| + 1
  {
    s'.ranks[j] == s.ranks[j] && InwardOf(s', j).transfer == InwardOf(s, j).transfer
  }

  lemma {:induction false} OnlyOneWorks(c: Config, s: State, s': State, i: nat, n: nat)
    requires n <= |s.ranks| == |s'.ranks| == |s.links| + 1 == |s'.links| + 1 && i < |s.ranks|
    requires forall j :: 0 <= j < |s.ranks| && j != i ==> SameJob(s, s', j)
    requires Work(c, i, s'.ranks[i], InwardOf(s', i)) < Work(c, i, s.ranks[i], InwardOf(s, i))
    ensures n <= i ==> TotalWork(c, s', n) == TotalWork(c, s, n)
    ensures n > i ==> TotalWork(c, s', n) < TotalWork(c, s, n)
  {
    if n > 0 {
      OnlyOneWorks(c, s, s', i, n - 1);
      if n - 1 != i {
        assert SameJob(s, s', n - 1);
        WorkIgnoresMessages(c, n - 1, s.ranks[n - 1], InwardOf(s, n - 1), InwardOf(s', n - 1));
      }
    }
  }

  lemma WorkOfRankIsNatural(c: Config, s: State, i: nat)
    requires Inv(c, s) && i < c.world
    ensures HasWork(c, s, i)
  {
    Around(c, s, i);
    WorkIsNatural(c, i, s.ranks[i], InwardOf(s, i), s.ranks[if i > 0 then i - 1 else 0]);
  }

  ghost predicate HasWork(c: Config, s: State, i: nat)
    requires i < |s.ranks| <= |s.links| + 1
  {
    Work(c, i, s.ranks[i], InwardOf(s, i)) >= 0
  }

  lemma {:induction false} TotalWorkIsNatural(c: Config, s: State, n: nat)
    requires n <= |s.ranks| == |s.links| + 1 && forall i: nat :: i < n ==> HasWork(c, s, i)
    ensures TotalWork(c, s, n) >= 0
  {
    if n > 0 {
      TotalWorkIsNatural(c, s, n - 1);
      assert HasWork(c, s, n - 1);
    }
  }

  /** Rank i's own steps leave the transfers of all other ranks alone. */
  lemma AdvanceKeepsOutTransfer(c: Config, i: nat, v: View)
    requires ValidConfig(c) && ShapedRank(c, i, v.rank) && CanRun(c, v)
    ensures Advance(c, i, v).outward.transfer == v.outward.transfer
  {
  }

  lemma WorkIgnoresMessages(c: Config, i: nat, r: Rank, k: Link, k': Link)
    requires k.transfer == k'.transfer
    ensures Work(c, i, r, k) == Work(c, i, r, k')
  {
  }

  lemma RunWorks(c: Config, s: State, i: nat)
    requires Inv(c, s) && Shaped(c, s) && Enabled(c, s, Run(i))
    ensures TotalWork(c, Step(c, s, Run(i)), c.world) < TotalWork(c, s, c.world)
  {
    var v := ViewOf(s, i);
    var v' := Advance(c, i, v);
    AroundView(c, s, i);
    ViewKeeps(c, i, v, PrevOf(s, i), NextOf(s, i));
    if i == 0 { SenderWorks(c, v); } else { ReceiverWorks(c, i, v, PrevOf(s, i)); }
    AdvanceKeepsOutTransfer(c, i, v);
    InstallWorks(c, s, i, v');
  }

  lemma InstallWorks(c: Config, s: State, i: nat, v: View)
    requires |s.ranks| == c.world == |s.links| + 1 && i < c.world
    requires i + 1 < c.world ==> v.outward.transfer == s.links[i].transfer
    requires Work(c, i, v.rank, v.inward) < Work(c, i, s.ranks[i], InwardOf(s, i))
    ensures TotalWork(c, Install(s, i, v), c.world) < TotalWork(c, s, c.world)
  {
    InstallIsNearby(c, s, i, v);
    OnlyOneWorks(c, s, Install(s, i, v), i, c.world);
  }

  lemma FillWorks(c: Config, s: State)
    requires Shaped(c, s) && Enabled(c, s, Fill)
    ensures TotalWork(c, Step(c, s, Fill), c.world) < TotalWork(c, s, c.world)
  {
    OnlyOneWorks(c, s, Step(c, s, Fill), 0, c.world);
  }

  lemma CopyWorks(c: Config, s: State, l: nat, at: nat)
    requires Shaped(c, s) && Enabled(c, s, Copy(l, at))
    ensures TotalWork(c, Step(c, s, Copy(l, at)), c.world) < TotalWork(c, s, c.world)
  {
    CopyIsNearby(c, s, l, at);
    ReceiveWorks(c, l + 1, s.ranks[l + 1], Step(c, s, Copy(l, at)).ranks[l + 1], s.links[l], at);
    OnlyOneWorks(c, s, Step(c, s, Copy(l, at)), l + 1, c.world);
  }

  lemma ReceiveWorks(c: Config, i: nat, r: Rank, r': Rank, k: Link, at: nat)
    requires i > 0 && r' == r.(buffers := r'.buffers)
    requires k.transfer.Some? && !k.transfer.value.finished && at !in k.transfer.value.copied
    ensures Work(c, i, r', CopyLink(k, at)) < Work(c, i, r, k)
  {
    assert Taken(c, r') == Taken(c, r);
  }

  lemma FinishWorks(c: Config, s: State, l: nat)
    requires Shaped(c, s) && Enabled(c, s, Finish(l)) && LinkInv(c, l, s.ranks[l], s.ranks[l + 1], s.links[l])
    ensures TotalWork(c, Step(c, s, Finish(l)), c.world) < TotalWork(c, s, c.world)
  {
    FinishedWorks(c, l + 1, s.ranks[l], s.ranks[l + 1], s.links[l]);
    OnlyOneWorks(c, s, Step(c, s, Finish(l)), l + 1, c.world);
  }

  lemma FinishedWorks(c: Config, i: nat, prev: Rank, r: Rank, k: Link)
    requires i > 0 && LinkInv(c, i - 1, prev, r, k) && k.transfer.Some? && !k.transfer.value.finished
    ensures Work(c, i, r, FinishTransfer(k)) < Work(c, i, r, k)
  {
    BelowCardinality(k.transfer.value.copied, c.bucketSize);
  }

  /** Every step uses up work. */
  lemma StepWorks(c: Config, s: State, a: Action)
    requires Inv(c, s) && Shaped(c, s) && Enabled(c, s, a)
    ensures TotalWork(c, Step(c, s, a), c.world) < TotalWork(c, s, c.world)
  {
    match a
    case Fill => FillWorks(c, s);
    case Run(i) => RunWorks(c, s, i);
    case Copy(l, at) => CopyWorks(c, s, l, at);
    case Finish(l) => Around(c, s, l); FinishWorks(c, s, l);
  }

  lemma {:induction false} RunsGetShorter(c: Config, trace: seq<State>, k: nat)
    requires IsRun(c, trace) && k < |trace| && Inv(c, trace[0])
    ensures Inv(c, trace[k]) && TotalWork(c, trace[k], c.world) + k <= TotalWork(c, trace[0], c.world)
  {
    RunInv(c, trace, k);
    if k > 0 {
      RunsGetShorter(c, trace, k - 1);
      RunInv(c, trace, k - 1);
      assert StepsTo(c, trace[k - 1], trace[k - 1 + 1]);
      var a :| Enabled(c, trace[k - 1], a) && trace[k] == Step(c, trace[k - 1], a);
      StepWorks(c, trace[k - 1], a);
    }
  }

  ghost predicate Stuck(c: Config, s: State) {
    Shaped(c, s) && forall a :: !Enabled(c, s, a)
  }

  /** Termination: no run takes more steps than the initial work; one that cannot be extended is all done. */
  lemma RunsEnd(c: Config, trace: seq<State>)
    requires IsRun(c, trace)
    ensures Inv(c, trace[0]) && |trace| - 1 <= TotalWork(c, trace[0], c.world)
    ensures Stuck(c, trace[|trace| - 1]) ==> AllDone(c, trace[|trace| - 1])
  {
    var last := |trace| - 1;
    InitInv(c, trace[0]);
    RunsGetShorter(c, trace, last);
    forall i: nat | i < c.world ensures HasWork(c, trace[last], i) { WorkOfRankIsNatural(c, trace[last], i); }
    TotalWorkIsNatural(c, trace[last], c.world);
    if !AllDone(c, trace[last]) {
      NeverStuck(c, trace, last);
    }
  }
}
