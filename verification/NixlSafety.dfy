/** Every step of the NIXL chain keeps the invariant; what that means for buffers, keys and yielded chunks. */
module NixlSafety {
  import opened BucketPacking
  import opened BucketTransfer
  import opened NixlChain
  import opened WeightChunks
  import opened Wrappers

  // ---------------------------------------------------------------- one rank and the link it sends on

  ghost predicate SendSide(c: Config, i: nat, v: View, next: Rank) {
    && ValidConfig(c) && CanRun(c, v) && RankInv(c, i, v.rank)
    && (i + 1 < c.world ==> RankInv(c, i + 1, next) && LinkInv(c, i, v.rank, next, v.outward))
  }

  lemma SenderWaits(c: Config, v: View, next: Rank)
    requires SendSide(c, 0, v, next) && v.rank.pc in {AwaitPrevious, AwaitLast}
    ensures RankInv(c, 0, Advance(c, 0, v).rank)
    ensures LinkInv(c, 0, Advance(c, 0, v).rank, next, Advance(c, 0, v).outward)
  {
    if v.rank.readable.Some? { KeyMatches(c, v, next); }
  }

  /** The oldest notification carries the key that is waited for. */
  lemma KeyMatches(c: Config, v: View, next: Rank)
    requires SendSide(c, 0, v, next) && v.rank.pc in {AwaitPrevious, AwaitLast} && v.rank.readable.Some?
    ensures v.outward.notifs[0] == v.rank.readable.value
  {
  }

  lemma FullRank(c: Config, r: Rank)
    requires ValidConfig(c) && RankInv(c, 0, r) && r.pc == Filling && r.pos == c.bucketSize
    ensures RankInv(c, 0, r.(pc := AwaitPrevious)) && Posted(0, r.(pc := AwaitPrevious)) == Posted(0, r)
  {
    assert r.buffers[r.send] == c.buckets[r.bucket].content;
  }

  lemma SenderIsFull(c: Config, v: View, next: Rank)
    requires SendSide(c, 0, v, next) && v.rank.pc == Filling
    ensures RankInv(c, 0, Advance(c, 0, v).rank)
    ensures LinkInv(c, 0, Advance(c, 0, v).rank, next, Advance(c, 0, v).outward)
  {
    var r := v.rank.(pc := AwaitPrevious);
    assert Advance(c, 0, v) == v.(rank := r);
    FullRank(c, v.rank);
    SameSender(c, 0, v.rank, r, next, v.outward);
  }

  lemma SenderPosts(c: Config, v: View)
    requires ValidConfig(c) && RankInv(c, 0, v.rank) && v.rank.pc == Posting
    ensures RankInv(c, 0, Advance(c, 0, v).rank)
  {
  }

  lemma PostKeepsLink(c: Config, v: View, next: Rank)
    requires SendSide(c, 0, v, next) && v.rank.pc == Posting
    ensures LinkInv(c, 0, Advance(c, 0, v).rank, next, Advance(c, 0, v).outward)
  {
  }

  lemma ReceiverForwards(c: Config, i: nat, v: View)
    requires ValidConfig(c) && 0 < i < c.world && RankInv(c, i, v.rank) && v.rank.pc == Forwarding
    ensures RankInv(c, i, Advance(c, i, v).rank)
  {
  }

  lemma ForwardKeepsLink(c: Config, i: nat, v: View, next: Rank)
    requires 0 < i < c.world - 1 && SendSide(c, i, v, next) && v.rank.pc == Forwarding
    ensures LinkInv(c, i, Advance(c, i, v).rank, next, Advance(c, i, v).outward)
  {
  }

  lemma ReceiverIsAcked(c: Config, i: nat, v: View, next: Rank)
    requires 0 < i < c.world && SendSide(c, i, v, next) && v.rank.pc == AwaitAck
    ensures RankInv(c, i, Advance(c, i, v).rank)
    ensures i + 1 < c.world ==> LinkInv(c, i, Advance(c, i, v).rank, next, Advance(c, i, v).outward)
  {
  }

  lemma ReceiverYields(c: Config, i: nat, v: View)
    requires ValidConfig(c) && 0 < i < c.world && RankInv(c, i, v.rank) && v.rank.pc == Yielding
    ensures RankInv(c, i, Advance(c, i, v).rank)
  {
    if v.rank.pos < |v.rank.wire.entries| {
      YieldsOne(c, i, v);
    } else {
      YieldedAll(c, i, v);
    }
  }

  lemma YieldsOne(c: Config, i: nat, v: View)
    requires ValidConfig(c) && 0 < i < c.world && RankInv(c, i, v.rank) && v.rank.pc == Yielding
    requires v.rank.pos < |v.rank.wire.entries|
    ensures RankInv(c, i, Advance(c, i, v).rank)
  {
    YieldNext(c, v.rank.bucket, v.rank.pos);
  }

  lemma YieldedAll(c: Config, i: nat, v: View)
    requires ValidConfig(c) && 0 < i < c.world && RankInv(c, i, v.rank) && v.rank.pc == Yielding
    requires v.rank.pos == |v.rank.wire.entries|
    ensures RankInv(c, i, Advance(c, i, v).rank)
  {
  }

  lemma YieldKeepsOut(c: Config, i: nat, v: View, next: Rank)
    requires 0 < i && i + 1 < c.world && SendSide(c, i, v, next) && v.rank.pc == Yielding
    ensures LinkInv(c, i, Advance(c, i, v).rank, next, Advance(c, i, v).outward)
  {
    SameSender(c, i, v.rank, Advance(c, i, v).rank, next, v.outward);
  }

  ghost predicate ReceiveSide(c: Config, i: nat, v: View, prev: Rank) {
    && ValidConfig(c) && CanRun(c, v) && 0 < i < c.world
    && RankInv(c, i - 1, prev) && RankInv(c, i, v.rank) && LinkInv(c, i - 1, prev, v.rank, v.inward)
  }

  lemma ReceiverBeginsRead(c: Config, i: nat, v: View, prev: Rank)
    requires ReceiveSide(c, i, v, prev) && v.rank.pc in {FirstMeta, NextMeta}
    ensures RankInv(c, i, Advance(c, i, v).rank)
    ensures LinkInv(c, i - 1, prev, Advance(c, i, v).rank, Advance(c, i, v).inward)
  {
    BeginKeepsRank(c, i, v, if v.rank.pc == FirstMeta then FirstRead else Yielding);
    BeginKeepsLink(c, i, v, prev);
  }

  lemma BeginKeepsRank(c: Config, i: nat, v: View, next: PC)
    requires 0 < i && RankInv(c, i, v.rank) && v.inward.inbox != []
    requires v.rank.pc in {FirstMeta, NextMeta} && Taken(c, v.rank) < |c.buckets|
    requires v.inward.inbox[0].wire == WireOf(c, Taken(c, v.rank))
    requires next == if v.rank.pc == FirstMeta then FirstRead else Yielding
    ensures RankInv(c, i, BeginRead(v, next).rank)
  {
  }

  lemma BeginKeepsLink(c: Config, i: nat, v: View, prev: Rank)
    requires ReceiveSide(c, i, v, prev) && v.rank.pc in {FirstMeta, NextMeta}
    requires ShapedRank(c, i, Advance(c, i, v).rank)
    ensures LinkInv(c, i - 1, prev, Advance(c, i, v).rank, Advance(c, i, v).inward)
  {
  }

  lemma ReadArrived(c: Config, i: nat, v: View, prev: Rank)
    requires ReceiveSide(c, i, v, prev) && v.rank.pc in {FirstRead, AwaitRead}
    ensures var t := v.inward.transfer.value;
            && t.dst == 1 - v.rank.send
            && t.key == (if v.rank.pc == FirstRead then 0 else v.rank.bucket + 1) < |c.buckets|
            && v.rank.buffers[t.dst] == c.buckets[t.key].content
  {
    TransferArrived(c, i, v.rank, v.inward.transfer.value);
  }

  lemma TransferArrived(c: Config, i: nat, r: Rank, t: Transfer)
    requires 0 < i && RankInv(c, i, r) && r.pc in {FirstRead, AwaitRead}
    requires TransferInv(c, i - 1, r, Taken(c, r), t) && t.finished
    ensures t.dst == 1 - r.send && t.key == (if r.pc == FirstRead then 0 else r.bucket + 1) < |c.buckets|
    ensures r.buffers[t.dst] == c.buckets[t.key].content
  {
  }

  lemma FirstReadEnds(c: Config, i: nat, v: View, prev: Rank)
    requires ReceiveSide(c, i, v, prev) && v.rank.pc == FirstRead
    ensures RankInv(c, i, Advance(c, i, v).rank)
  {
    ReadArrived(c, i, v, prev);
    var r := Advance(c, i, v).rank;
    assert r.yielded == YieldedSoFar(c, r);
  }

  lemma NextReadEnds(c: Config, i: nat, v: View, prev: Rank)
    requires ReceiveSide(c, i, v, prev) && v.rank.pc == AwaitRead
    ensures RankInv(c, i, Advance(c, i, v).rank)
  {
    ReadArrived(c, i, v, prev);
    SwapKeeps(c, i, v);
  }

  /** The rank at the head of the loop, with the bucket that it has just read. */
  function Swapped(r: Rank): Rank
    requires r.send < 2
  {
    r.(pc := Forwarding, send := 1 - r.send, bucket := r.bucket + 1, pos := 0, wire := r.nextWire)
  }

  lemma SwapKeepsYielded(c: Config, i: nat, r: Rank)
    requires 0 < i && RankInv(c, i, r) && r.pc == AwaitRead && r.bucket + 1 < |c.buckets|
    ensures Swapped(r).yielded == YieldedSoFar(c, Swapped(r))
  {
    YieldNextBucket(c, r.bucket);
  }

  lemma SwappedInv(c: Config, i: nat, r: Rank)
    requires 0 < i && RankInv(c, i, r) && r.pc == AwaitRead && r.bucket + 1 < |c.buckets|
    requires r.buffers[1 - r.send] == c.buckets[r.bucket + 1].content
    requires Swapped(r).yielded == YieldedSoFar(c, Swapped(r))
    ensures RankInv(c, i, Swapped(r))
  {
  }

  lemma SwapKeeps(c: Config, i: nat, v: View)
    requires 0 < i && RankInv(c, i, v.rank) && v.rank.pc == AwaitRead && v.rank.bucket + 1 < |c.buckets|
    requires v.rank.buffers[1 - v.rank.send] == c.buckets[v.rank.bucket + 1].content
    ensures RankInv(c, i, EndRead(v, v.rank.bucket + 1).rank)
  {
    SwapKeepsYielded(c, i, v.rank);
    SwappedInv(c, i, v.rank);
  }

  lemma EndReadKeepsLink(c: Config, i: nat, v: View, prev: Rank)
    requires ReceiveSide(c, i, v, prev) && v.rank.pc in {FirstRead, AwaitRead}
    ensures ShapedRank(c, i, Advance(c, i, v).rank)
    ensures LinkInv(c, i - 1, prev, Advance(c, i, v).rank, Advance(c, i, v).inward)
  {
  }

  /** Reading does not change what a rank has posted, and posting, yielding and waiting for an
      acknowledgement do not change what it has read. */
  lemma ReadKeepsOut(c: Config, i: nat, v: View, prev: Rank, next: Rank)
    requires ReceiveSide(c, i, v, prev) && SendSide(c, i, v, next)
    requires v.rank.pc in {FirstMeta, NextMeta, FirstRead, AwaitRead}
    ensures i + 1 < c.world ==> LinkInv(c, i, Advance(c, i, v).rank, next, Advance(c, i, v).outward)
  {
    if i + 1 < c.world { SameSender(c, i, v.rank, Advance(c, i, v).rank, next, v.outward); }
  }

  /** The incoming link sees of a receiver how far it has read, and its buffers. */
  lemma SameReader(c: Config, l: nat, sender: Rank, receiver: Rank, receiver': Rank, k: Link)
    requires ShapedRank(c, l + 1, receiver') && LinkInv(c, l, sender, receiver, k)
    requires Taken(c, receiver') == Taken(c, receiver) && (ReadPending(c, receiver') <==> ReadPending(c, receiver))
    requires receiver'.send == receiver.send && receiver'.buffers == receiver.buffers
    ensures LinkInv(c, l, sender, receiver', k)
  {
  }

  lemma ForwardKeepsIn(c: Config, i: nat, v: View, prev: Rank)
    requires ReceiveSide(c, i, v, prev) && v.rank.pc == Forwarding
    ensures ShapedRank(c, i, Advance(c, i, v).rank)
    ensures LinkInv(c, i - 1, prev, Advance(c, i, v).rank, Advance(c, i, v).inward)
  {
    SameReader(c, i - 1, prev, v.rank, Advance(c, i, v).rank, v.inward);
  }

  lemma YieldKeepsIn(c: Config, i: nat, v: View, prev: Rank)
    requires ReceiveSide(c, i, v, prev) && v.rank.pc == Yielding
    ensures ShapedRank(c, i, Advance(c, i, v).rank)
    ensures LinkInv(c, i - 1, prev, Advance(c, i, v).rank, Advance(c, i, v).inward)
  {
    SameReader(c, i - 1, prev, v.rank, Advance(c, i, v).rank, v.inward);
  }

  lemma AckKeepsIn(c: Config, i: nat, v: View, prev: Rank)
    requires ReceiveSide(c, i, v, prev) && v.rank.pc == AwaitAck
    requires Advance(c, i, v).rank.pc != Failed
    ensures ShapedRank(c, i, Advance(c, i, v).rank)
    ensures LinkInv(c, i - 1, prev, Advance(c, i, v).rank, Advance(c, i, v).inward)
  {
    SameReader(c, i - 1, prev, v.rank, Advance(c, i, v).rank, v.inward);
  }

  lemma ViewKeeps(c: Config, i: nat, v: View, prev: Rank, next: Rank)
    requires i < c.world && SendSide(c, i, v, next) && (i > 0 ==> ReceiveSide(c, i, v, prev))
    ensures var v' := Advance(c, i, v);
            && RankInv(c, i, v'.rank)
            && (i > 0 ==> LinkInv(c, i - 1, prev, v'.rank, v'.inward))
            && (i + 1 < c.world ==> LinkInv(c, i, v'.rank, next, v'.outward))
  {
    match v.rank.pc
    case Filling => SenderIsFull(c, v, next);
    case AwaitPrevious => SenderWaits(c, v, next);
    case AwaitLast => SenderWaits(c, v, next);
    case Posting => SenderPosts(c, v); PostKeepsLink(c, v, next);
    case FirstMeta => ReceiverBeginsRead(c, i, v, prev); ReadKeepsOut(c, i, v, prev, next);
    case NextMeta => ReceiverBeginsRead(c, i, v, prev); ReadKeepsOut(c, i, v, prev, next);
    case FirstRead => FirstReadEnds(c, i, v, prev); EndReadKeepsLink(c, i, v, prev); ReadKeepsOut(c, i, v, prev, next);
    case AwaitRead => NextReadEnds(c, i, v, prev); EndReadKeepsLink(c, i, v, prev); ReadKeepsOut(c, i, v, prev, next);
    case Forwarding =>
      ReceiverForwards(c, i, v);
      if i + 1 < c.world { ForwardKeepsLink(c, i, v, next); }
      ForwardKeepsIn(c, i, v, prev);
    case Yielding =>
      ReceiverYields(c, i, v);
      if i + 1 < c.world { YieldKeepsOut(c, i, v, next); }
      YieldKeepsIn(c, i, v, prev);
    case AwaitAck => ReceiverIsAcked(c, i, v, next); AckKeepsIn(c, i, v, prev);
    case Done =>
    case Failed =>
  }

  // ---------------------------------------------------------------- bytes in flight

  lemma FillKeeps(c: Config, r: Rank)
    requires ValidConfig(c) && RankInv(c, 0, r) && r.pc == Filling && r.pos < c.bucketSize
    ensures RankInv(c, 0, FillByte(c, r))
    ensures Posted(0, FillByte(c, r)) == Posted(0, r) && FillByte(c, r).readable == r.readable
  {
  }

  /** While a read is unfinished its source still holds the bucket the reader was promised. */
  lemma SourceIsIntact(c: Config, l: nat, sender: Rank, receiver: Rank, k: Link)
    requires RankInv(c, l, sender) && ShapedRank(c, l + 1, receiver) && LinkInv(c, l, sender, receiver, k)
    requires k.transfer.Some? && !k.transfer.value.finished
    ensures var t := k.transfer.value;
            && sender.readable == Some(t.key) && t.key < |c.buckets| && t.src < 2
            && sender.buffers[t.src] == c.buckets[t.key].content
  {
  }

  function CopyLink(k: Link, at: nat): Link
    requires k.transfer.Some?
  {
    k.(transfer := Some(k.transfer.value.(copied := k.transfer.value.copied + {at})))
  }

  /** A byte arriving in recv_buf disturbs neither the yielding nor the forwarding of send_buf. */
  lemma CopiedRank(c: Config, i: nat, r: Rank, t: Transfer, at: nat, x: Byte)
    requires 0 < i && RankInv(c, i, r) && ReadPending(c, r) && at < c.bucketSize
    requires TransferInv(c, i - 1, r, Taken(c, r), t) && t.dst < 2
    ensures var r' := Receive(c, i, r, t.dst, at, x);
            && RankInv(c, i, r') && Posted(i, r') == Posted(i, r) && r'.readable == r.readable
            && Taken(c, r') == Taken(c, r) && ReadPending(c, r')
  {
  }

  lemma CopiedTransfer(c: Config, l: nat, r: Rank, taken: nat, t: Transfer, at: nat, x: Byte)
    requires ShapedRank(c, l + 1, r) && TransferInv(c, l, r, taken, t) && !t.finished && at < c.bucketSize && t.dst < 2
    requires x == c.buckets[t.key].content[at]
    ensures var r' := Receive(c, l + 1, r, t.dst, at, x);
            ShapedRank(c, l + 1, r') && TransferInv(c, l, r', taken, t.(copied := t.copied + {at}))
  {
  }

  /** The link sees of a transfer only whether it is there and finished. */
  lemma SameLink(c: Config, l: nat, sender: Rank, receiver: Rank, k: Link, receiver': Rank, t: Transfer)
    requires LinkInv(c, l, sender, receiver, k) && ShapedRank(c, l + 1, receiver')
    requires Taken(c, receiver') == Taken(c, receiver) && ReadPending(c, receiver')
    requires k.transfer.Some? && t.finished == k.transfer.value.finished
    requires TransferInv(c, l, receiver', Taken(c, receiver), t)
    ensures LinkInv(c, l, sender, receiver', k.(transfer := Some(t)))
  {
  }

  lemma InFlight(c: Config, l: nat, sender: Rank, receiver: Rank, k: Link)
    requires LinkInv(c, l, sender, receiver, k) && k.transfer.Some?
    ensures ReadPending(c, receiver) && TransferInv(c, l, receiver, Taken(c, receiver), k.transfer.value)
  {
  }

  /** A byte on its way from a sender's buffer to a receiver's. */
  ghost predicate Copying(c: Config, l: nat, sender: Rank, receiver: Rank, k: Link, at: nat, x: Byte) {
    && ValidConfig(c) && RankInv(c, l, sender) && RankInv(c, l + 1, receiver) && LinkInv(c, l, sender, receiver, k)
    && k.transfer.Some? && !k.transfer.value.finished && k.transfer.value.src < 2 && k.transfer.value.dst < 2
    && at < c.bucketSize && x == sender.buffers[k.transfer.value.src][at]
  }

  lemma CopyKeepsRank(c: Config, l: nat, sender: Rank, receiver: Rank, k: Link, at: nat, x: Byte)
    requires Copying(c, l, sender, receiver, k, at, x)
    ensures var r := Receive(c, l + 1, receiver, k.transfer.value.dst, at, x);
            && RankInv(c, l + 1, r) && Posted(l + 1, r) == Posted(l + 1, receiver) && r.readable == receiver.readable
            && Taken(c, r) == Taken(c, receiver) && ReadPending(c, r)
  {
    InFlight(c, l, sender, receiver, k);
    CopiedRank(c, l + 1, receiver, k.transfer.value, at, x);
  }

  lemma CopyKeepsLink(c: Config, l: nat, sender: Rank, receiver: Rank, k: Link, at: nat, x: Byte, r: Rank)
    requires Copying(c, l, sender, receiver, k, at, x)
    requires r == Receive(c, l + 1, receiver, k.transfer.value.dst, at, x)
    requires Taken(c, r) == Taken(c, receiver) && ReadPending(c, r)
    ensures LinkInv(c, l, sender, r, CopyLink(k, at))
  {
    SourceIsIntact(c, l, sender, receiver, k);
    InFlight(c, l, sender, receiver, k);
    CopiedTransfer(c, l, receiver, Taken(c, receiver), k.transfer.value, at, x);
    CopiedLink(c, l, sender, receiver, k, at, r);
  }

  lemma CopiedLink(c: Config, l: nat, sender: Rank, receiver: Rank, k: Link, at: nat, receiver': Rank)
    requires LinkInv(c, l, sender, receiver, k) && k.transfer.Some? && ShapedRank(c, l + 1, receiver')
    requires Taken(c, receiver') == Taken(c, receiver) && ReadPending(c, receiver')
    requires TransferInv(c, l, receiver', Taken(c, receiver), CopyLink(k, at).transfer.value)
    ensures LinkInv(c, l, sender, receiver', CopyLink(k, at))
  {
    SameLink(c, l, sender, receiver, k, receiver', CopyLink(k, at).transfer.value);
  }

  lemma FinishKeeps(c: Config, l: nat, sender: Rank, receiver: Rank, k: Link)
    requires RankInv(c, l, sender) && ShapedRank(c, l + 1, receiver) && LinkInv(c, l, sender, receiver, k)
    requires k.transfer.Some? && !k.transfer.value.finished
    requires forall at :: 0 <= at < c.bucketSize ==> at in k.transfer.value.copied
    ensures LinkInv(c, l, sender, receiver, FinishTransfer(k))
  {
    SourceIsIntact(c, l, sender, receiver, k);
  }

  // ---------------------------------------------------------------- the whole chain

  /** Only rank i and its two links may differ between s and s'. */
  ghost predicate Nearby(c: Config, s: State, s': State, i: nat)
    requires |s.ranks| == c.world && |s.links| == c.world - 1
  {
    && |s'.ranks| == c.world && |s'.links| == c.world - 1
    && (forall j :: 0 <= j < c.world && j != i ==> s'.ranks[j] == s.ranks[j])
    && (forall l :: 0 <= l < c.world - 1 && l != i && l + 1 != i ==> s'.links[l] == s.links[l])
  }

  lemma RanksNearby(c: Config, s: State, s': State, i: nat)
    requires Inv(c, s) && i < c.world && Nearby(c, s, s', i) && RankInv(c, i, s'.ranks[i])
    ensures forall j :: 0 <= j < c.world ==> RankInv(c, j, s'.ranks[j])
  {
    forall j | 0 <= j < c.world ensures RankInv(c, j, s'.ranks[j]) {
      assert RankInv(c, j, s.ranks[j]);
    }
  }

  lemma LinksNearby(c: Config, s: State, s': State, i: nat)
    requires 2 <= c.world && |s.ranks| == c.world && |s.links| == c.world - 1
    requires LinksInv(c, s) && i < c.world && Nearby(c, s, s', i)
    requires i > 0 ==> LinkInv(c, i - 1, s.ranks[i - 1], s'.ranks[i], s'.links[i - 1])
    requires i + 1 < c.world ==> LinkInv(c, i, s'.ranks[i], s.ranks[i + 1], s'.links[i])
    ensures LinksInv(c, s')
  {
    forall l | 0 <= l < c.world - 1 ensures LinkInv(c, l, s'.ranks[l], s'.ranks[l + 1], s'.links[l]) {
      assert LinkInv(c, l, s.ranks[l], s.ranks[l + 1], s.links[l]);
    }
  }

  lemma InvNearby(c: Config, s: State, s': State, i: nat)
    requires Inv(c, s) && i < c.world && Nearby(c, s, s', i) && RankInv(c, i, s'.ranks[i])
    requires i > 0 ==> LinkInv(c, i - 1, s.ranks[i - 1], s'.ranks[i], s'.links[i - 1])
    requires i + 1 < c.world ==> LinkInv(c, i, s'.ranks[i], s.ranks[i + 1], s'.links[i])
    ensures Inv(c, s') && Shaped(c, s')
  {
    RanksNearby(c, s, s', i);
    LinksNearby(c, s, s', i);
    InvShaped(c, s');
  }

  lemma Around(c: Config, s: State, i: nat)
    requires Inv(c, s) && i < c.world
    ensures RankInv(c, i, s.ranks[i])
    ensures i > 0 ==> RankInv(c, i - 1, s.ranks[i - 1]) && LinkInv(c, i - 1, s.ranks[i - 1], s.ranks[i], s.links[i - 1])
    ensures i + 1 < c.world ==>
              RankInv(c, i + 1, s.ranks[i + 1]) && LinkInv(c, i, s.ranks[i], s.ranks[i + 1], s.links[i])
  {
  }

  lemma InstallIsNearby(c: Config, s: State, i: nat, v: View)
    requires |s.ranks| == c.world && |s.links| == c.world - 1 && i < c.world
    ensures var s' := Install(s, i, v);
            && Nearby(c, s, s', i) && s'.ranks[i] == v.rank
            && (i > 0 ==> s'.links[i - 1] == v.inward) && (i + 1 < c.world ==> s'.links[i] == v.outward)
  {
  }

  /** The neighbours of rank i; at an end of the chain the rank itself stands in. */
  function PrevOf(s: State, i: nat): Rank
    requires i < |s.ranks|
  {
    if i > 0 then s.ranks[i - 1] else s.ranks[i]
  }

  function NextOf(s: State, i: nat): Rank
    requires i < |s.ranks|
  {
    if i + 1 < |s.ranks| then s.ranks[i + 1] else s.ranks[i]
  }

  lemma AroundView(c: Config, s: State, i: nat)
    requires Inv(c, s) && i < c.world && CanRun(c, ViewOf(s, i))
    ensures SendSide(c, i, ViewOf(s, i), NextOf(s, i))
    ensures i > 0 ==> ReceiveSide(c, i, ViewOf(s, i), PrevOf(s, i))
  {
    Around(c, s, i);
  }

  lemma RunKeeps(c: Config, s: State, i: nat)
    requires Inv(c, s) && Shaped(c, s) && i < c.world && CanRun(c, ViewOf(s, i))
    ensures Inv(c, Step(c, s, Run(i))) && Shaped(c, Step(c, s, Run(i)))
  {
    var v := ViewOf(s, i);
    AroundView(c, s, i);
    ViewKeeps(c, i, v, PrevOf(s, i), NextOf(s, i));
    InstallKeeps(c, s, i, Advance(c, i, v));
  }

  /** The view fits between rank i's neighbours. */
  ghost predicate Fits(c: Config, s: State, i: nat, v: View)
    requires i < |s.ranks|
  {
    && RankInv(c, i, v.rank)
    && (i > 0 ==> LinkInv(c, i - 1, PrevOf(s, i), v.rank, v.inward))
    && (i + 1 < c.world ==> LinkInv(c, i, v.rank, NextOf(s, i), v.outward))
  }

  lemma InstallKeeps(c: Config, s: State, i: nat, v: View)
    requires Inv(c, s) && i < c.world && Fits(c, s, i, v)
    ensures Inv(c, Install(s, i, v)) && Shaped(c, Install(s, i, v))
  {
    InstallIsNearby(c, s, i, v);
    InvNearby(c, s, Install(s, i, v), i);
  }

  lemma FillStepKeeps(c: Config, s: State)
    requires Inv(c, s) && Shaped(c, s) && Enabled(c, s, Fill)
    ensures Inv(c, Step(c, s, Fill)) && Shaped(c, Step(c, s, Fill))
  {
    Around(c, s, 0);
    FillKeeps(c, s.ranks[0]);
    InvNearby(c, s, Step(c, s, Fill), 0);
  }

  lemma CopyIsNearby(c: Config, s: State, l: nat, at: nat)
    requires Shaped(c, s) && Enabled(c, s, Copy(l, at))
    ensures var t := s.links[l].transfer.value;
            var s' := Step(c, s, Copy(l, at));
            && Nearby(c, s, s', l + 1)
            && s'.ranks[l + 1] == Receive(c, l + 1, s.ranks[l + 1], t.dst, at, s.ranks[l].buffers[t.src][at])
            && s'.links[l] == CopyLink(s.links[l], at)
            && (l + 2 < c.world ==> s'.links[l + 1] == s.links[l + 1])
  {
  }

  lemma CopyStepKeeps(c: Config, s: State, l: nat, at: nat)
    requires Inv(c, s) && Shaped(c, s) && Enabled(c, s, Copy(l, at))
    ensures Inv(c, Step(c, s, Copy(l, at))) && Shaped(c, Step(c, s, Copy(l, at)))
  {
    CopyIsInstall(c, s, l, at);
    CopiedView(c, s, l, at);
    InstallKeeps(c, s, l + 1, CopyView(c, s, l, at));
  }

  function CopyView(c: Config, s: State, l: nat, at: nat): View
    requires Shaped(c, s) && l + 1 < c.world && at < c.bucketSize && s.links[l].transfer.Some?
  {
    var t := s.links[l].transfer.value;
    var r := Receive(c, l + 1, s.ranks[l + 1], t.dst, at, s.ranks[l].buffers[t.src][at]);
    View(r, CopyLink(s.links[l], at), ViewOf(s, l + 1).outward)
  }

  lemma CopyIsInstall(c: Config, s: State, l: nat, at: nat)
    requires Shaped(c, s) && Enabled(c, s, Copy(l, at))
    ensures Step(c, s, Copy(l, at)) == Install(s, l + 1, CopyView(c, s, l, at))
  {
    CopyIsNearby(c, s, l, at);
    InstallIsNearby(c, s, l + 1, CopyView(c, s, l, at));
    var s', t := Step(c, s, Copy(l, at)), Install(s, l + 1, CopyView(c, s, l, at));
    assert s'.ranks == t.ranks && s'.links == t.links;
  }

  lemma CopiedIn(c: Config, s: State, l: nat, at: nat, v: View)
    requires Inv(c, s) && Shaped(c, s) && Enabled(c, s, Copy(l, at)) && v == CopyView(c, s, l, at)
    ensures RankInv(c, l + 1, v.rank) && LinkInv(c, l, s.ranks[l], v.rank, v.inward)
    ensures Posted(l + 1, v.rank) == Posted(l + 1, s.ranks[l + 1]) && v.rank.readable == s.ranks[l + 1].readable
  {
    var x := s.ranks[l].buffers[s.links[l].transfer.value.src][at];
    Around(c, s, l);
    CopyKeepsRank(c, l, s.ranks[l], s.ranks[l + 1], s.links[l], at, x);
    CopyKeepsLink(c, l, s.ranks[l], s.ranks[l + 1], s.links[l], at, x, v.rank);
  }

  lemma CopiedOut(c: Config, s: State, i: nat, r: Rank)
    requires Inv(c, s) && i + 1 < c.world && Posted(i, r) == Posted(i, s.ranks[i]) && r.readable == s.ranks[i].readable
    ensures LinkInv(c, i, r, s.ranks[i + 1], s.links[i])
  {
    Around(c, s, i);
    SameSender(c, i, s.ranks[i], r, s.ranks[i + 1], s.links[i]);
  }

  lemma CopiedView(c: Config, s: State, l: nat, at: nat)
    requires Inv(c, s) && Shaped(c, s) && Enabled(c, s, Copy(l, at))
    ensures Fits(c, s, l + 1, CopyView(c, s, l, at))
  {
    var v := CopyView(c, s, l, at);
    CopiedIn(c, s, l, at, v);
    if l + 2 < c.world { CopiedOut(c, s, l + 1, v.rank); }
  }

  lemma SameSender(c: Config, l: nat, sender: Rank, sender': Rank, receiver: Rank, k: Link)
    requires ShapedRank(c, l + 1, receiver) && LinkInv(c, l, sender, receiver, k)
    requires Posted(l, sender) == Posted(l, sender') && sender.readable == sender'.readable
    ensures LinkInv(c, l, sender', receiver, k)
  {
  }

  lemma FinishStepKeeps(c: Config, s: State, l: nat)
    requires Inv(c, s) && Shaped(c, s) && Enabled(c, s, Finish(l))
    ensures Inv(c, Step(c, s, Finish(l))) && Shaped(c, Step(c, s, Finish(l)))
  {
    FinishIsInstall(c, s, l);
    FinishedView(c, s, l);
    InstallKeeps(c, s, l + 1, ViewOf(s, l + 1).(inward := FinishTransfer(s.links[l])));
  }

  lemma FinishedView(c: Config, s: State, l: nat)
    requires Inv(c, s) && Shaped(c, s) && Enabled(c, s, Finish(l))
    ensures Fits(c, s, l + 1, ViewOf(s, l + 1).(inward := FinishTransfer(s.links[l])))
  {
    Around(c, s, l + 1);
    FinishKeeps(c, l, s.ranks[l], s.ranks[l + 1], s.links[l]);
  }

  lemma FinishIsInstall(c: Config, s: State, l: nat)
    requires Shaped(c, s) && Enabled(c, s, Finish(l))
    ensures Step(c, s, Finish(l)) == Install(s, l + 1, ViewOf(s, l + 1).(inward := FinishTransfer(s.links[l])))
  {
    var s' := Step(c, s, Finish(l));
    var t := Install(s, l + 1, ViewOf(s, l + 1).(inward := FinishTransfer(s.links[l])));
    assert s'.ranks == t.ranks && s'.links == t.links;
  }

  /** The invariant is inductive: it survives every step of every rank and of every transfer engine. */
  lemma StepKeeps(c: Config, s: State, a: Action)
    requires Inv(c, s) && Shaped(c, s) && Enabled(c, s, a)
    ensures Inv(c, Step(c, s, a)) && Shaped(c, Step(c, s, a))
  {
    match a
    case Fill => FillStepKeeps(c, s);
    case Run(i) => RunKeeps(c, s, i);
    case Copy(l, at) => CopyStepKeeps(c, s, l, at);
    case Finish(l) => FinishStepKeeps(c, s, l);
  }

  // ---------------------------------------------------------------- runs

  ghost predicate StepsTo(c: Config, s: State, s': State) {
    Shaped(c, s) && exists a :: Enabled(c, s, a) && s' == Step(c, s, a)
  }

  ghost predicate IsRun(c: Config, trace: seq<State>) {
    && trace != []
    && Init(c, trace[0])
    && forall k :: 0 <= k < |trace| - 1 ==> StepsTo(c, trace[k], trace[k + 1])
  }

  lemma {:induction false} RunInv(c: Config, trace: seq<State>, k: nat)
    requires IsRun(c, trace) && k < |trace|
    ensures Inv(c, trace[k]) && Shaped(c, trace[k])
  {
    if k == 0 {
      InitInv(c, trace[0]);
    } else {
      RunInv(c, trace, k - 1);
      assert StepsTo(c, trace[k - 1], trace[k - 1 + 1]);
      var a :| Enabled(c, trace[k - 1], a) && trace[k] == Step(c, trace[k - 1], a);
      StepKeeps(c, trace[k - 1], a);
    }
  }

  /** Buffer b of rank i was announced to the next rank, which has yet to finish reading it. */
  ghost predicate BeingRead(c: Config, s: State, i: nat, b: nat)
    requires Shaped(c, s)
  {
    && i < c.world - 1
    && var k := s.links[i];
       || (exists m :: m in k.inbox && m.buffer == b)
       || (k.transfer.Some? && !k.transfer.value.finished && k.transfer.value.src == b)
  }

  /** Rank i still has tensors to yield out of its buffer b. */
  ghost predicate BeingYielded(c: Config, s: State, i: nat, b: nat)
    requires Shaped(c, s)
  {
    0 < i < c.world && s.ranks[i].pc in {Forwarding, NextMeta, Yielding} && b == s.ranks[i].send
  }

  lemma ReadMeansAdvertised(c: Config, s: State, i: nat, b: nat)
    requires Shaped(c, s) && BeingRead(c, s, i, b)
    requires RankInv(c, i, s.ranks[i]) && LinkInv(c, i, s.ranks[i], s.ranks[i + 1], s.links[i])
    ensures s.ranks[i].readable.Some? && Posted(i, s.ranks[i]) > 0 && b == Home(i, Posted(i, s.ranks[i]) - 1)
  {
  }

  /** A rank's program step never writes a buffer: bytes change by Fill and Copy only. */
  lemma RunWritesNothing(c: Config, s: State, i: nat, j: nat)
    requires Inv(c, s) && Shaped(c, s) && i < c.world && j < c.world && Enabled(c, s, Run(j))
    ensures |Step(c, s, Run(j)).ranks| == c.world
    ensures Step(c, s, Run(j)).ranks[i].buffers == s.ranks[i].buffers
  {
    InstallIsNearby(c, s, j, Advance(c, j, ViewOf(s, j)));
  }

  /** The next byte of the sender goes to a buffer that nobody reads. */
  lemma FillAvoids(c: Config, s: State, b: nat)
    requires Inv(c, s) && Shaped(c, s) && Enabled(c, s, Fill) && BeingRead(c, s, 0, b)
    ensures b != s.ranks[0].send
  {
    Around(c, s, 0);
    ReadMeansAdvertised(c, s, 0, b);
    FilledIsNotAdvertised(c, s.ranks[0]);
  }

  lemma FilledIsNotAdvertised(c: Config, r: Rank)
    requires RankInv(c, 0, r) && r.pc == Filling && Posted(0, r) > 0
    ensures Home(0, Posted(0, r) - 1) != r.send
  {
  }

  /** recv_buf, where bytes arrive, is neither announced to the next rank nor yielded from. */
  lemma TargetIsFree(c: Config, l: nat, prev: Rank, r: Rank, k: Link)
    requires RankInv(c, l + 1, r) && LinkInv(c, l, prev, r, k) && k.transfer.Some?
    ensures k.transfer.value.dst == 1 - r.send
    ensures r.readable.Some? ==> Posted(l + 1, r) > 0 && Home(l + 1, Posted(l + 1, r) - 1) == r.send
  {
  }

  lemma CopyAvoidsNear(c: Config, s: State, l: nat, b: nat)
    requires Shaped(c, s) && l + 1 < c.world && s.links[l].transfer.Some?
    requires RankInv(c, l + 1, s.ranks[l + 1]) && LinkInv(c, l, s.ranks[l], s.ranks[l + 1], s.links[l])
    requires l + 2 < c.world ==> LinkInv(c, l + 1, s.ranks[l + 1], s.ranks[l + 2], s.links[l + 1])
    requires BeingRead(c, s, l + 1, b) || BeingYielded(c, s, l + 1, b)
    ensures b != s.links[l].transfer.value.dst
  {
    TargetIsFree(c, l, s.ranks[l], s.ranks[l + 1], s.links[l]);
    if BeingRead(c, s, l + 1, b) { ReadMeansAdvertised(c, s, l + 1, b); }
  }

  lemma CopyAvoids(c: Config, s: State, l: nat, b: nat)
    requires Inv(c, s) && Shaped(c, s) && l + 1 < c.world && s.links[l].transfer.Some?
    requires BeingRead(c, s, l + 1, b) || BeingYielded(c, s, l + 1, b)
    ensures b != s.links[l].transfer.value.dst
  {
    Around(c, s, l + 1);
    CopyAvoidsNear(c, s, l, b);
  }

  /** What a step that moves one byte may change. */
  lemma OneByteMoves(c: Config, s: State, a: Action, i: nat, b: nat)
    requires Shaped(c, s) && !a.Run? && Enabled(c, s, a) && i < c.world && b < 2
    requires a.Fill? && i == 0 ==> b != s.ranks[0].send
    requires a.Copy? && i == a.link + 1 ==> b != s.links[a.link].transfer.value.dst
    ensures var s' := Step(c, s, a);
            |s'.ranks| == c.world && |s'.ranks[i].buffers| == 2 && s'.ranks[i].buffers[b] == s.ranks[i].buffers[b]
  {
  }

  lemma BytesAvoidBuffersInUse(c: Config, s: State, a: Action, i: nat, b: nat)
    requires Inv(c, s) && Shaped(c, s) && Enabled(c, s, a) && !a.Run? && i < c.world && b < 2
    requires BeingRead(c, s, i, b) || BeingYielded(c, s, i, b)
    ensures a.Fill? && i == 0 ==> b != s.ranks[0].send
    ensures a.Copy? && i == a.link + 1 ==> b != s.links[a.link].transfer.value.dst
  {
    if a.Fill? && i == 0 { FillAvoids(c, s, b); }
    if a.Copy? && i == a.link + 1 { CopyAvoids(c, s, a.link, b); }
  }

  /** No step, of anybody, writes a buffer that is being read by the next rank or yielded from. */
  lemma BuffersInUseAreStable(c: Config, s: State, a: Action, i: nat, b: nat)
    requires Inv(c, s) && Shaped(c, s) && Enabled(c, s, a) && i < c.world && b < 2
    requires BeingRead(c, s, i, b) || BeingYielded(c, s, i, b)
    ensures var s' := Step(c, s, a);
            |s'.ranks| == c.world && |s'.ranks[i].buffers| == 2 && s'.ranks[i].buffers[b] == s.ranks[i].buffers[b]
  {
    if a.Run? {
      RunWritesNothing(c, s, i, a.rank);
    } else {
      BytesAvoidBuffersInUse(c, s, a, i, b);
      OneByteMoves(c, s, a, i, b);
    }
  }

  /** `assert self.notify_key == notification` never fails, on any rank, in any run. */
  lemma NotifyKeysMatch(c: Config, trace: seq<State>, k: nat, i: nat)
    requires IsRun(c, trace) && k < |trace| && i < c.world
    ensures |trace[k].ranks| == c.world && trace[k].ranks[i].pc != Failed
  {
    RunInv(c, trace, k);
    assert RankInv(c, i, trace[k].ranks[i]);
  }

  /** At every moment a receiver has yielded a prefix of the sender's chunks, and all of them when it is done. */
  lemma ReceiversYieldWhatWasPacked(c: Config, trace: seq<State>, k: nat, i: nat)
    requires IsRun(c, trace) && k < |trace| && 0 < i < c.world
    ensures |trace[k].ranks| == c.world
    ensures trace[k].ranks[i].yielded <= UnpackAll(c.buckets)
    ensures trace[k].ranks[i].pc == Done ==> trace[k].ranks[i].yielded == UnpackAll(c.buckets)
  {
    RunInv(c, trace, k);
    assert RankInv(c, i, trace[k].ranks[i]);
    YieldedIsPrefix(c, trace[k].ranks[i].bucket, YieldedNow(c, trace[k].ranks[i]));
  }

  /** A rank that has returned is done with its link: it has posted every bucket, and the next rank has read all of
      them, so that nothing reads its buffers any more. */
  lemma ReturnedMeansRead(c: Config, trace: seq<State>, k: nat, i: nat)
    requires IsRun(c, trace) && k < |trace| && i + 1 < c.world
    ensures |trace[k].ranks| == c.world && |trace[k].links| == c.world - 1
    ensures trace[k].ranks[i].pc == Done ==>
              var link := trace[k].links[i];
              && trace[k].ranks[i].nextKey == |c.buckets| && link.inbox == [] && link.notifs == []
              && (link.transfer.Some? ==> link.transfer.value.finished)
  {
    RunInv(c, trace, k);
    var s := trace[k];
    assert RankInv(c, i, s.ranks[i]) && RankInv(c, i + 1, s.ranks[i + 1]);
    assert LinkInv(c, i, s.ranks[i], s.ranks[i + 1], s.links[i]);
  }

  /** Buckets travel on while they are yielded: once a chunk of bucket b has been yielded, b has been posted to the
      next rank, if there is one, and the read of bucket b + 1, if there is one, has begun. */
  lemma RelaysBeforeYielding(c: Config, trace: seq<State>, k: nat, i: nat, b: nat)
    requires IsRun(c, trace) && k < |trace| && 0 < i < c.world && b < |c.buckets|
    ensures |trace[k].ranks| == c.world && |trace[k].links| == c.world - 1
    ensures Reaches(c, trace[k].ranks[i].yielded, b) ==>
              var r := trace[k].ranks[i];
              && (i + 1 < c.world ==> b < r.nextKey)
              && (b + 1 < |c.buckets| && r.bucket == b ==> trace[k].links[i - 1].transfer.Some?)
  {
    RunInv(c, trace, k);
    var s := trace[k];
    var r := s.ranks[i];
    assert RankInv(c, i, r) && LinkInv(c, i - 1, s.ranks[i - 1], r, s.links[i - 1]);
    if Reaches(c, r.yielded, b) { ReachesFrom(c, r.bucket, YieldedNow(c, r), b); }
  }

  /** End to end: whatever the interleaving, a receiver that has finished has merged exactly the weights
      (those with bytes) that rank 0 was given, in order. */
  lemma ChainDeliversWeights(c: Config, ws: seq<Weight>, send: seq<Byte>, recv: seq<Byte>,
                             trace: seq<State>, k: nat, i: nat)
    requires 0 < c.bucketSize == |send| == |recv| && ValidWeights(ws) && DistinctNames(ws)
    requires Packable(SplitAll(ws, c.bucketSize), c.bucketSize)
    requires c.buckets == PackAll(SplitAll(ws, c.bucketSize), send, recv)
    requires IsRun(c, trace) && k < |trace| && 0 < i < c.world
    requires |trace[k].ranks| == c.world && trace[k].ranks[i].pc == Done
    ensures MergeAll(trace[k].ranks[i].yielded, c.bucketSize) == Ok(NonEmpty(ws))
  {
    ReceiversYieldWhatWasPacked(c, trace, k, i);
    TransferRoundTrip(ws, send, recv);
  }
}
