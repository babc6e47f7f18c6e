/**
 verl/checkpoint_engine/nixl_checkpoint_engine.py: buckets relayed along a chain of ranks 0 -> 1 -> ... -> N.

 The protocol is a transition system. Each rank runs the program of send_weights (rank 0) or of
 _receive_weight_chunks (the others), one await-to-await segment at a time; between any two of its steps
 the other ranks and the transfer engines may move. A remote read copies one byte at a time, in any order,
 out of whatever the remote buffer holds at that moment.
 */
module NixlChain {
  import opened Arithmetic
  import opened BucketPacking
  import opened BucketTransfer
  import opened WeightChunks
  import opened Wrappers

  /** What ReadableOperation sends; `buffer` says which of the sender's two buffers remote_descs describes. */
  datatype Message = Message(key: nat, buffer: nat, wire: Wire)

  /** A ReadOperation between begin_read and the end of its wait_for_complete. */
  datatype Transfer = Transfer(key: nat, src: nat, dst: nat, copied: set<nat>, finished: bool)

  /** From rank l to rank l + 1: the latter's messages, the former's notifications, the read in flight. */
  datatype Link = Link(inbox: seq<Message>, notifs: seq<nat>, transfer: Option<Transfer>)

  datatype PC =
    | Filling | AwaitPrevious | Posting | AwaitLast
    | FirstMeta | FirstRead | Forwarding | NextMeta | Yielding | AwaitAck | AwaitRead
    | Done | Failed

  /** send_buf is buffers[send] and recv_buf is buffers[1 - send]; `bucket` counts the swaps, and `readable`
      is the notify_key of the ReadableOperation that has not been waited for. */
  datatype Rank = Rank(pc: PC, buffers: seq<seq<Byte>>, send: nat, bucket: nat, pos: nat,
                       wire: Wire, nextWire: Wire, readable: Option<nat>, nextKey: nat, yielded: seq<Chunk>)

  datatype State = State(ranks: seq<Rank>, links: seq<Link>)

  /** Fill: rank 0 copies the next byte of the current bucket. Run: a rank's next program step.
      Copy, Finish: the transfer engine of a link moves a byte, or completes and notifies. */
  datatype Action = Fill | Run(rank: nat) | Copy(link: nat, at: nat) | Finish(link: nat)

  ghost predicate Shaped(c: Config, s: State) {
    && ValidConfig(c)
    && |s.ranks| == c.world && |s.links| == c.world - 1
    && (forall i :: 0 <= i < c.world ==> ShapedRank(c, i, s.ranks[i]))
    && (forall l :: 0 <= l < c.world - 1 ==>
          s.links[l].transfer.Some? ==> s.links[l].transfer.value.src < 2 && s.links[l].transfer.value.dst < 2)
  }

  ghost predicate ShapedRank(c: Config, i: nat, r: Rank) {
    && |r.buffers| == 2 && |r.buffers[0]| == |r.buffers[1]| == c.bucketSize
    && r.send < 2 && r.bucket < |c.buckets|
    && (i == 0 ==> r.pc in {Filling, AwaitPrevious, Posting, AwaitLast, Done, Failed})
    && (i > 0 ==> r.pc in {FirstMeta, FirstRead, Forwarding, NextMeta, Yielding, AwaitAck, AwaitRead, Done, Failed})
  }

  // ---------------------------------------------------------------- steps

  /** What a rank's program can see and change: itself, the link it receives on, the link it sends on.
      Rank 0 has no incoming link and the tail no outgoing one; NO_LINK stands there. */
  datatype View = View(rank: Rank, inward: Link, outward: Link)

  const NO_LINK := Link([], [], None)

  function ViewOf(s: State, i: nat): View
    requires i < |s.ranks| <= |s.links| + 1
  {
    View(s.ranks[i], if i > 0 then s.links[i - 1] else NO_LINK, if i + 1 < |s.ranks| then s.links[i] else NO_LINK)
  }

  function Install(s: State, i: nat, v: View): State
    requires i < |s.ranks| == |s.links| + 1
  {
    var inwards := if i > 0 then s.links[i - 1 := v.inward] else s.links;
    State(s.ranks[i := v.rank], if i + 1 < |s.ranks| then inwards[i := v.outward] else inwards)
  }

  predicate CanRun(c: Config, v: View) {
    var r := v.rank;
    match r.pc
    case Filling => r.pos == c.bucketSize
    case AwaitPrevious => r.readable.None? || v.outward.notifs != []
    case Posting => true
    case AwaitLast => r.readable.None? || v.outward.notifs != []
    case FirstMeta => v.inward.inbox != []
    case NextMeta => v.inward.inbox != []
    case FirstRead => v.inward.transfer.Some? && v.inward.transfer.value.finished
    case AwaitRead => v.inward.transfer.Some? && v.inward.transfer.value.finished
    case Forwarding => true
    case Yielding => true
    case AwaitAck => r.readable.None? || v.outward.notifs != []
    case Done => false
    case Failed => false
  }

  function Advance(c: Config, i: nat, v: View): View
    requires ValidConfig(c) && ShapedRank(c, i, v.rank) && CanRun(c, v)
  {
    var r := v.rank;
    match r.pc
    case Filling => v.(rank := r.(pc := AwaitPrevious))
    case AwaitPrevious => WaitForAck(v, Posting)
    case Posting =>
      var last := r.bucket + 1 == |c.buckets|;
      var q := Post(v, Wire(c.buckets[r.bucket].entries, last));
      if last then q.(rank := q.rank.(pc := AwaitLast))
      else q.(rank := q.rank.(pc := Filling, bucket := r.bucket + 1, send := 1 - r.send, pos := 0))
    case AwaitLast => WaitForAck(v, Done)
    case FirstMeta => BeginRead(v, FirstRead)
    case FirstRead => EndRead(v, r.bucket)
    case Forwarding =>
      var q := if i + 1 < c.world then Post(v, r.wire) else v;
      q.(rank := q.rank.(pc := if r.wire.isLast then Yielding else NextMeta))
    case NextMeta => BeginRead(v, Yielding)
    case Yielding =>
      if r.pos < |r.wire.entries| then
        var chunk := ReadEntry(r.wire.entries[r.pos], r.buffers[r.send]);
        v.(rank := r.(yielded := r.yielded + [chunk], pos := r.pos + 1))
      else
        v.(rank := r.(pc := AwaitAck))
    case AwaitAck => WaitForAck(v, if r.wire.isLast then Done else AwaitRead)
    case AwaitRead => EndRead(v, r.bucket + 1)
  }

  /** ReadableOperation(agent, next_agent, send_descs, metadata) with a fresh notify_key. */
  function Post(v: View, wire: Wire): View {
    var r := v.rank;
    v.(rank := r.(readable := Some(r.nextKey), nextKey := r.nextKey + 1),
       outward := v.outward.(inbox := v.outward.inbox + [Message(r.nextKey, r.send, wire)]))
  }

  /** `if readable_op is not None: await readable_op.wait_for_complete()`, with its assert on the key. */
  function WaitForAck(v: View, next: PC): View
    requires v.rank.readable.None? || v.outward.notifs != []
  {
    var r := v.rank;
    if r.readable.None? then v.(rank := r.(pc := next))
    else
      v.(rank := r.(pc := if v.outward.notifs[0] == r.readable.value then next else Failed, readable := None),
         outward := v.outward.(notifs := v.outward.notifs[1..]))
  }

  /** read_metadata and begin_read into recv_buf. */
  function BeginRead(v: View, next: PC): View
    requires v.inward.inbox != [] && v.rank.send < 2
  {
    var m := v.inward.inbox[0];
    v.(rank := v.rank.(pc := next, nextWire := m.wire),
       inward := v.inward.(inbox := v.inward.inbox[1..],
                           transfer := Some(Transfer(m.key, m.buffer, 1 - v.rank.send, {}, false))))
  }

  /** The read is complete: swap the buffers and go to the head of the loop. */
  function EndRead(v: View, bucket: nat): View
    requires v.rank.send < 2
  {
    v.(rank := v.rank.(pc := Forwarding, send := 1 - v.rank.send, bucket := bucket, pos := 0, wire := v.rank.nextWire),
       inward := v.inward.(transfer := None))
  }

  function FillByte(c: Config, r: Rank): Rank
    requires ValidConfig(c) && ShapedRank(c, 0, r) && r.pos < c.bucketSize
  {
    r.(buffers := SetByte(r.buffers, r.send, r.pos, c.buckets[r.bucket].content[r.pos]), pos := r.pos + 1)
  }

  function Receive(c: Config, i: nat, r: Rank, b: nat, at: nat, x: Byte): Rank
    requires ShapedRank(c, i, r) && b < 2 && at < c.bucketSize
  {
    r.(buffers := SetByte(r.buffers, b, at, x))
  }

  ghost predicate Enabled(c: Config, s: State, a: Action)
    requires Shaped(c, s)
  {
    match a
    case Fill => s.ranks[0].pc == Filling && s.ranks[0].pos < c.bucketSize
    case Run(i) => i < c.world && CanRun(c, ViewOf(s, i))
    case Copy(l, at) =>
      && l < c.world - 1 && at < c.bucketSize && s.links[l].transfer.Some?
      && !s.links[l].transfer.value.finished && at !in s.links[l].transfer.value.copied
    case Finish(l) =>
      && l < c.world - 1 && s.links[l].transfer.Some? && !s.links[l].transfer.value.finished
      && forall at :: 0 <= at < c.bucketSize ==> at in s.links[l].transfer.value.copied
  }

  ghost function Step(c: Config, s: State, a: Action): State
    requires Shaped(c, s) && Enabled(c, s, a)
  {
    match a
    case Fill => s.(ranks := s.ranks[0 := FillByte(c, s.ranks[0])])
    case Run(i) => Install(s, i, Advance(c, i, ViewOf(s, i)))
    case Copy(l, at) =>
      var t := s.links[l].transfer.value;
      var x := s.ranks[l].buffers[t.src][at];
      State(s.ranks[l + 1 := Receive(c, l + 1, s.ranks[l + 1], t.dst, at, x)],
            s.links[l := s.links[l].(transfer := Some(t.(copied := t.copied + {at})))])
    case Finish(l) => s.(links := s.links[l := FinishTransfer(s.links[l])])
  }

  function FinishTransfer(k: Link): Link
    requires k.transfer.Some?
  {
    k.(transfer := Some(k.transfer.value.(finished := true)), notifs := k.notifs + [k.transfer.value.key])
  }

  ghost predicate Init(c: Config, s: State) {
    && Shaped(c, s)
    && (forall i :: 0 <= i < c.world ==>
          && s.ranks[i].pc == (if i == 0 then Filling else FirstMeta)
          && s.ranks[i].send == 0 && s.ranks[i].bucket == 0 && s.ranks[i].pos == 0
          && s.ranks[i].readable == None && s.ranks[i].nextKey == 0 && s.ranks[i].yielded == [])
    && (forall l :: 0 <= l < c.world - 1 ==> s.links[l] == Link([], [], None))
  }

  // ---------------------------------------------------------------- invariant

  /** Where rank i keeps bucket k: rank 0 fills send_buf first, the others read into recv_buf first. */
  function Home(i: nat, k: nat): nat {
    if i == 0 then k % 2 else (k + 1) % 2
  }

  /** How many buckets rank i has posted to its next rank, and how many of them are acknowledged. */
  function Posted(i: nat, r: Rank): nat {
    if i == 0 then (if r.pc in {AwaitLast, Done} then r.bucket + 1 else r.bucket)
    else if r.pc in {FirstMeta, FirstRead} then 0
    else if r.pc == Forwarding then r.bucket
    else r.bucket + 1
  }

  function Acked(i: nat, r: Rank): int {
    Posted(i, r) - (if r.readable.Some? then 1 else 0)
  }

  ghost predicate ReadPending(c: Config, r: Rank) {
    r.pc in {FirstRead, AwaitRead} || (r.pc in {Yielding, AwaitAck} && r.bucket + 1 < |c.buckets|)
  }

  /** How many messages a receiver has taken from its inbox. */
  ghost function Taken(c: Config, r: Rank): nat {
    if r.pc == FirstMeta then 0
    else if r.pc == FirstRead then 1
    else if ReadPending(c, r) then r.bucket + 2
    else r.bucket + 1
  }

  ghost function Completed(c: Config, r: Rank, k: Link): int {
    Taken(c, r) - (if k.transfer.Some? && !k.transfer.value.finished then 1 else 0)
  }

  /** How many chunks of its current bucket a receiver has yielded. */
  function YieldedNow(c: Config, r: Rank): (n: nat)
    requires r.bucket < |c.buckets|
    ensures n <= |c.buckets[r.bucket].entries|
  {
    var n := |c.buckets[r.bucket].entries|;
    if r.pc == Yielding then Min(r.pos, n) else if r.pc in {AwaitAck, AwaitRead, Done} then n else 0
  }

  ghost function YieldedSoFar(c: Config, r: Rank): seq<Chunk>
    requires r.bucket < |c.buckets|
  {
    YieldedUpTo(c, r.bucket, YieldedNow(c, r))
  }

  ghost predicate SenderInv(c: Config, r: Rank)
    requires ShapedRank(c, 0, r)
  {
    var content := c.buckets[r.bucket].content;
    && r.pc != Failed
    && r.send == r.bucket % 2
    && r.nextKey == Posted(0, r)
    && (r.pc == Filling ==>
          r.pos <= |content| == c.bucketSize && forall j :: 0 <= j < r.pos ==> r.buffers[r.send][j] == content[j])
    && (r.pc in {AwaitPrevious, Posting, AwaitLast} ==> r.buffers[r.send] == content)
    && (r.pc in {Filling, AwaitPrevious} ==> (r.readable.Some? <==> r.bucket > 0))
    && (r.pc in {Posting, Done} ==> r.readable.None?)
    && (r.pc in {AwaitLast, Done} ==> r.bucket + 1 == |c.buckets|)
    && (r.pc == AwaitLast ==> r.readable.Some?)
    && Advertised(c, 0, r)
  }

  /** The bucket that waits for its acknowledgement is still in its buffer. */
  ghost predicate Advertised(c: Config, i: nat, r: Rank)
    requires ShapedRank(c, i, r)
  {
    r.readable.Some? ==>
      var k := Posted(i, r) - 1;
      && r.readable.value == k < |c.buckets|
      && r.buffers[Home(i, k)] == c.buckets[k].content
  }

  ghost predicate ReceiverInv(c: Config, i: nat, r: Rank)
    requires i > 0 && ShapedRank(c, i, r)
  {
    && r.pc != Failed
    && (r.pc in {FirstMeta, FirstRead} ==> r.send == 0 && r.bucket == 0)
    && (r.pc == FirstRead ==> r.nextWire == WireOf(c, 0))
    && (r.pc !in {FirstMeta, FirstRead} ==>
          && r.send == (r.bucket + 1) % 2
          && r.wire == WireOf(c, r.bucket)
          && r.buffers[r.send] == c.buckets[r.bucket].content)
    && (r.pc in {Forwarding, NextMeta} ==> r.pos == 0)
    && (r.pc == Yielding ==> r.pos <= |r.wire.entries|)
    && (r.pc in {NextMeta, AwaitRead} ==> r.bucket + 1 < |c.buckets|)
    && (r.pc == Done ==> r.bucket + 1 == |c.buckets|)
    && (r.pc in {Yielding, AwaitAck, AwaitRead} && r.bucket + 1 < |c.buckets| ==> r.nextWire == WireOf(c, r.bucket + 1))
    && (r.readable.Some? <==> i < c.world - 1 && r.pc in {NextMeta, Yielding, AwaitAck})
    && (i < c.world - 1 ==> r.nextKey == Posted(i, r))
    && r.yielded == YieldedSoFar(c, r)
    && Advertised(c, i, r)
  }

  ghost predicate RankInv(c: Config, i: nat, r: Rank) {
    && ShapedRank(c, i, r)
    && (i == 0 ==> SenderInv(c, r))
    && (i > 0 ==> ReceiverInv(c, i, r))
  }

  ghost predicate LinkInv(c: Config, l: nat, sender: Rank, receiver: Rank, k: Link) {
    var taken, completed := Taken(c, receiver), Completed(c, receiver, k);
    var posted, acked := Posted(l, sender), Acked(l, sender);
    && ShapedRank(c, l + 1, receiver)
    && taken <= posted <= |c.buckets|
    && |k.inbox| == posted - taken
    && (k.inbox != [] ==> taken < |c.buckets| && k.inbox == [Message(taken, Home(l, taken), WireOf(c, taken))])
    && acked <= completed
    && |k.notifs| == completed - acked
    && (k.notifs != [] ==> k.notifs[0] == acked)
    && (k.transfer.Some? <==> ReadPending(c, receiver))
    && (k.transfer.Some? ==> TransferInv(c, l, receiver, taken, k.transfer.value))
  }

  ghost predicate TransferInv(c: Config, l: nat, receiver: Rank, taken: nat, t: Transfer)
    requires ShapedRank(c, l + 1, receiver)
  {
    && t.key == taken - 1 && t.key < |c.buckets|
    && t.src == Home(l, t.key) && t.dst == 1 - receiver.send
    && |c.buckets[t.key].content| == c.bucketSize
    && (forall j :: j in t.copied ==> j < c.bucketSize && receiver.buffers[t.dst][j] == c.buckets[t.key].content[j])
    && (t.finished ==> forall j :: 0 <= j < c.bucketSize ==> j in t.copied)
  }

  ghost predicate Inv(c: Config, s: State) {
    && ValidConfig(c)
    && |s.ranks| == c.world && |s.links| == c.world - 1
    && (forall i :: 0 <= i < c.world ==> RankInv(c, i, s.ranks[i]))
    && LinksInv(c, s)
  }

  ghost predicate LinksInv(c: Config, s: State)
    requires |s.ranks| == c.world && |s.links| == c.world - 1
  {
    forall l :: 0 <= l < c.world - 1 ==> LinkInv(c, l, s.ranks[l], s.ranks[l + 1], s.links[l])
  }

  lemma InvShaped(c: Config, s: State)
    requires Inv(c, s)
    ensures Shaped(c, s)
  {
    forall l | 0 <= l < c.world - 1 && s.links[l].transfer.Some?
      ensures s.links[l].transfer.value.src < 2 && s.links[l].transfer.value.dst < 2
    {
      assert LinkInv(c, l, s.ranks[l], s.ranks[l + 1], s.links[l]);
      assert RankInv(c, l + 1, s.ranks[l + 1]);
    }
  }

  lemma InitInv(c: Config, s: State)
    requires Init(c, s)
    ensures Inv(c, s)
  {
    forall i | 0 <= i < c.world ensures RankInv(c, i, s.ranks[i]) {
      assert ShapedRank(c, i, s.ranks[i]);
      assert c.buckets[..0] == [];
    }
    forall l | 0 <= l < c.world - 1 ensures LinkInv(c, l, s.ranks[l], s.ranks[l + 1], s.links[l]) {
      assert s.links[l] == Link([], [], None);
    }
  }
}
