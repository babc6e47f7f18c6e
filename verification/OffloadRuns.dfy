/** Whole runs of the activation offload handler, over any number of training iterations. */
module OffloadRuns {
  import opened OffloadInvariant
  import opened OffloadSpec
  import opened Orders
  import opened Rows
  import opened Wrappers

  /** A run: every event is one that autograd may cause, and in the groups that go to the host the one copy kept
      for a key can be viewed as each of its tensors. */
  ghost predicate Playable(hosted: nat, s: Script, events: seq<Event>)
    decreases |events|
  {
    events != [] ==>
      && Allowed(s, events[0])
      && (events[0].PushTensor? && s.group < hosted ==> GoodTensors(s.pushed[s.group] + [events[0].tensor]))
      && Playable(hosted, After(s, events[0]), events[1..])
  }

  ghost function ScriptAfter(hosted: nat, s: Script, events: seq<Event>): Script
    requires Playable(hosted, s, events)
    decreases |events|
  {
    if events == [] then s else ScriptAfter(hosted, After(s, events[0]), events[1..])
  }

  function Play(h: Handler, events: seq<Event>): Result<Handler, Fault>
    decreases |events|
  {
    if events == [] then Ok(h)
    else
      match React(h, events[0])
      case Err(e) => Err(e)
      case Ok(g) => Play(g, events[1..])
  }

  lemma ReactKeepsSizes(h: Handler, e: Event)
    requires React(h, e).Ok?
    ensures React(h, e).value.numOffload == h.numOffload && React(h, e).value.numLayers == h.numLayers
  {
  }

  lemma {:induction false} RunInv(h: Handler, s: Script, done: nat, events: seq<Event>) returns (closed: nat)
    requires Inv(h, s, done) && Playable(HostGroups(h), s, events)
    ensures Play(h, events).Ok? && Inv(Play(h, events).value, ScriptAfter(HostGroups(h), s, events), closed)
    ensures Play(h, events).value.numOffload == h.numOffload && Play(h, events).value.numLayers == h.numLayers
    decreases |events|
  {
    if events == [] {
      closed := done;
    } else {
      EventStep(h, s, done, events[0]);
      ReactKeepsSizes(h, events[0]);
      var d: nat :| Inv(React(h, events[0]).value, After(s, events[0]), d);
      closed := RunInv(React(h, events[0]).value, After(s, events[0]), d, events[1..]);
    }
  }

  /** A run from the creation of the handler; `hosted` is the number of groups that go to the host. */
  ghost predicate IsRun(numOffload: nat, numLayers: nat, events: seq<Event>) {
    0 < numOffload <= numLayers && Playable(Hosted(numOffload, numLayers), Blank(numLayers), events)
  }

  ghost function ScriptOf(numOffload: nat, numLayers: nat, events: seq<Event>): Script
    requires IsRun(numOffload, numLayers, events)
  {
    ScriptAfter(Hosted(numOffload, numLayers), Blank(numLayers), events)
  }

  /** No run of any length, over any number of iterations, fails an assert or misses a dictionary key. */
  lemma RunsSucceed(numOffload: nat, numLayers: nat, events: seq<Event>) returns (closed: nat)
    requires IsRun(numOffload, numLayers, events)
    ensures Play(Empty(numOffload, numLayers), events).Ok?
    ensures var h := Play(Empty(numOffload, numLayers), events).value;
            && h.numOffload == numOffload && h.numLayers == numLayers
            && Inv(h, ScriptOf(numOffload, numLayers, events), closed)
  {
    StartInv(numOffload, numLayers);
    closed := RunInv(Empty(numOffload, numLayers), Blank(numLayers), 0, events);
  }

  // ---------------------------------------------------------------- what pops return

  ghost predicate SameContents(a: Tensor, b: Tensor) {
    a.dtype == b.dtype && a.shape == b.shape && a.data == b.data
  }

  /** Tensors with the same storage have the same row-major contents. */
  ghost predicate StorageDeterminesContents(ts: seq<Tensor>) {
    forall i, j :: 0 <= i < j < |ts| && SameStorage(ts[i], ts[j]) ==> ts[i].data == ts[j].data
  }

  /** Deduplication gives every tensor of a group its own contents back exactly when tensors of the group with the
      same storage have the same contents, element for element. */
  lemma DeduplicationIsExactIff(ts: seq<Tensor>)
    ensures (forall i :: 0 <= i < |ts| ==> SameContents(Returned(ts, i), ts[i])) <==> StorageDeterminesContents(ts)
  {
    forall i | 0 <= i < |ts|
      ensures KeyOf(ts[i]) in BackupsOf(ts)
      ensures SameContents(Returned(ts, i), ts[i]) <==> BackupsOf(ts)[KeyOf(ts[i])] == ts[i].data
    {
      BackupsOfFirst(ts, i);
    }
    if StorageDeterminesContents(ts) {
      forall i | 0 <= i < |ts| ensures BackupsOf(ts)[KeyOf(ts[i])] == ts[i].data {
        BackupsOfFirst(ts, i);
      }
    } else {
      var i, j :| 0 <= i < j < |ts| && SameStorage(ts[i], ts[j]) && ts[i].data != ts[j].data;
      SameCopy(ts, i, j);
      assert !(SameContents(Returned(ts, i), ts[i]) && SameContents(Returned(ts, j), ts[j]));
    }
  }

  /** Every pop succeeds. It returns the tensor pushed under its tag, or, for a group that was moved to the host,
      that tensor's shape over the copy kept for its key; and a copy back to the device has been waited for. */
  lemma PopsReturn(numOffload: nat, numLayers: nat, events: seq<Event>, tag: Tag)
    requires IsRun(numOffload, numLayers, events)
    requires Allowed(ScriptOf(numOffload, numLayers, events), PopTensor(tag))
    ensures Play(Empty(numOffload, numLayers), events).Ok?
    ensures var h, hosted := Play(Empty(numOffload, numLayers), events).value, Hosted(numOffload, numLayers);
            && Pop(h, tag).Ok?
            && Pop(h, tag).value.1 == Expected(hosted, ScriptOf(numOffload, numLayers, events), tag)
            && (tag.group < hosted ==> tag.group !in h.h2dPending)
  {
    var d := RunsSucceed(numOffload, numLayers, events);
    var h, s := Play(Empty(numOffload, numLayers), events).value, ScriptOf(numOffload, numLayers, events);
    PopStep(h, s, d, tag);
    PoppedGroupIsReady(h, s, d);
  }

  /** What a pop would return at this point of a run. */
  ghost predicate PopIsRight(numOffload: nat, numLayers: nat, events: seq<Event>, tag: Tag)
    requires IsRun(numOffload, numLayers, events)
    requires Allowed(ScriptOf(numOffload, numLayers, events), PopTensor(tag))
  {
    PopsReturn(numOffload, numLayers, events, tag);
    SameContents(Pop(Play(Empty(numOffload, numLayers), events).value, tag).value.1,
                 ScriptOf(numOffload, numLayers, events).pushed[tag.group][tag.index])
  }

  /** Pops return what was pushed, whenever storage determines contents in the groups that go to the host. */
  lemma PopsReturnWhatWasPushed(numOffload: nat, numLayers: nat, events: seq<Event>, tag: Tag)
    requires IsRun(numOffload, numLayers, events)
    requires Allowed(ScriptOf(numOffload, numLayers, events), PopTensor(tag))
    requires tag.group < Hosted(numOffload, numLayers) ==>
               StorageDeterminesContents(ScriptOf(numOffload, numLayers, events).pushed[tag.group])
    ensures PopIsRight(numOffload, numLayers, events, tag)
  {
    PopsReturn(numOffload, numLayers, events, tag);
    DeduplicationIsExactIff(ScriptOf(numOffload, numLayers, events).pushed[tag.group]);
  }

  /** Before a group's first pop: all its pops return what was pushed exactly when the group never left the
      device or its storage determines contents. */
  lemma PopsAreRightIff(numOffload: nat, numLayers: nat, events: seq<Event>)
    requires IsRun(numOffload, numLayers, events)
    requires var s := ScriptOf(numOffload, numLayers, events);
             !s.forward && s.group < |s.pushed| && forall tag :: tag in s.popped ==> tag.group != s.group
    ensures var s := ScriptOf(numOffload, numLayers, events);
            (forall i: nat :: i < |s.pushed[s.group]| ==>
               && Allowed(s, PopTensor(Tag(s.group, i)))
               && PopIsRight(numOffload, numLayers, events, Tag(s.group, i)))
            <==> (s.group < Hosted(numOffload, numLayers) ==> StorageDeterminesContents(s.pushed[s.group]))
  {
    var s := ScriptOf(numOffload, numLayers, events);
    var ts, hosted := s.pushed[s.group], Hosted(numOffload, numLayers);
    forall i: nat | i < |ts|
      ensures Allowed(s, PopTensor(Tag(s.group, i)))
      ensures PopIsRight(numOffload, numLayers, events, Tag(s.group, i)) <==>
                (s.group < hosted ==> SameContents(Returned(ts, i), ts[i]))
    {
      PopsReturn(numOffload, numLayers, events, Tag(s.group, i));
    }
    DeduplicationIsExactIff(ts);
  }

  /** Between iterations the handler is as it was created: all maps empty, both counters at 0. */
  lemma IterationsLeaveNothing(numOffload: nat, numLayers: nat, events: seq<Event>)
    requires IsRun(numOffload, numLayers, events)
    requires Allowed(ScriptOf(numOffload, numLayers, events), NextIteration)
    ensures Play(Empty(numOffload, numLayers), events) == Ok(Empty(numOffload, numLayers))
  {
    var d := RunsSucceed(numOffload, numLayers, events);
    var h, s := Play(Empty(numOffload, numLayers), events).value, ScriptOf(numOffload, numLayers, events);
    IterationLeavesNothing(h, s, d);
  }

  // ---------------------------------------------------------------- what leaves the device

  /** A group that has been moved to the host has one copy for every storage of its tensors, that of the first of
      them; and no others are kept. */
  lemma CopiesOnHost(numOffload: nat, numLayers: nat, events: seq<Event>, group: nat)
    requires IsRun(numOffload, numLayers, events) && group < Hosted(numOffload, numLayers)
    ensures Play(Empty(numOffload, numLayers), events).Ok?
    ensures var mapping := Play(Empty(numOffload, numLayers), events).value.mapping;
            var s := ScriptOf(numOffload, numLayers, events);
            group in mapping ==> group < |s.pushed| && OneCopyPerStorage(mapping[group], s.pushed[group])
  {
    var d := RunsSucceed(numOffload, numLayers, events);
    var h, s := Play(Empty(numOffload, numLayers), events).value, ScriptOf(numOffload, numLayers, events);
    if group in h.mapping { CopiesOfGroup(h, s, d, group); }
  }

  lemma CopiesOfGroup(h: Handler, s: Script, done: nat, group: nat)
    requires MapsInv(h, s, done) && group in h.mapping && group < HostGroups(h)
    ensures group < |s.pushed| && OneCopyPerStorage(h.mapping[group], s.pushed[group])
  {
    BackupsAreCopies(s.pushed[group]);
  }

  /** Until the compute stream has waited for the copy of a group to the host, the handler keeps the group's tensors
      on the device. */
  lemma PendingCopiesAreKept(numOffload: nat, numLayers: nat, events: seq<Event>, tag: Tag)
    requires IsRun(numOffload, numLayers, events)
    ensures Play(Empty(numOffload, numLayers), events).Ok?
    ensures var h, s := Play(Empty(numOffload, numLayers), events).value, ScriptOf(numOffload, numLayers, events);
            tag.group in h.d2hPending && tag.group < |s.pushed| && tag.index < |s.pushed[tag.group]| ==>
              tag in h.buf && h.buf[tag] == Some(s.pushed[tag.group][tag.index])
  {
    var d := RunsSucceed(numOffload, numLayers, events);
    var h, s := Play(Empty(numOffload, numLayers), events).value, ScriptOf(numOffload, numLayers, events);
    if tag.group in h.d2hPending && tag.group < |s.pushed| && tag.index < |s.pushed[tag.group]| {
      assert Live(s, tag);
    }
  }

  /** Popping what was just pushed gives the tensor and leaves the maps as they were before; a second pop fails. */
  lemma PopUndoesPush(h: Handler, t: Tensor)
    requires Push(h, t).Ok? && forall tag :: (tag in h.order || tag in h.buf) ==> tag in h.state
    ensures var tag := Tag(h.currentGroup, h.tensorCount);
            && Pop(Push(h, t).value, tag) == Ok((h.(tensorCount := h.tensorCount + 1), t))
            && Pop(h.(tensorCount := h.tensorCount + 1), tag) == Err(UnknownTag)
  {
    var tag := Tag(h.currentGroup, h.tensorCount);
    WithoutLast(h.order, tag);
    assert h.state[tag := OnDevice(t)] - {tag} == h.state;
    assert h.buf[tag := Some(t)] - {tag} == h.buf == h.buf - {tag};
  }

  /** A group on the host is not moved there again, nor popped from, and one moved back is not moved back again. The
      copy is outstanding from then on. */
  lemma MovesOnce(h: Handler, group: nat, tag: Tag)
    requires tag in h.order && tag.group == group
    ensures OffloadGroup(h, group).Ok? ==>
              && OffloadGroup(OffloadGroup(h, group).value, group) == Err(NotATensor)
              && Pop(OffloadGroup(h, group).value, tag) == Err(StillOffloaded)
              && OffloadGroup(h, group).value.d2hPending == h.d2hPending + {group}
    ensures ReloadGroup(h, group).Ok? ==>
              && ReloadGroup(ReloadGroup(h, group).value, group) == Err(GroupKeyError)
              && ReloadGroup(h, group).value.h2dPending == h.h2dPending + {group}
  {
    if OffloadGroup(h, group).Ok? { assert OffloadGroup(h, group).value.state[tag].Offloaded?; }
  }

  /** When the backward pass begins, exactly the first Hosted groups are on the host. */
  lemma OnHostAtTheTurn(numOffload: nat, numLayers: nat, events: seq<Event>, tag: Tag)
    requires IsRun(numOffload, numLayers, events)
    requires var s := ScriptOf(numOffload, numLayers, events); s.forward && s.group == numLayers
    requires var s := ScriptOf(numOffload, numLayers, events);
             tag.group < |s.pushed| && tag.index < |s.pushed[tag.group]|
    ensures Play(Empty(numOffload, numLayers), events).Ok?
    ensures var h := Play(Empty(numOffload, numLayers), events).value;
            tag in h.state && (h.state[tag].Offloaded? <==> tag.group < Hosted(numOffload, numLayers))
  {
    var d := RunsSucceed(numOffload, numLayers, events);
    var h, s := Play(Empty(numOffload, numLayers), events).value, ScriptOf(numOffload, numLayers, events);
    AllClosed(h, s, d);
    assert Live(s, tag) && SlotInv(HostGroups(h), h.state[tag], s, d, tag);
  }

  /** A group after the first, of those to be offloaded, reaches the host before the backward pass exactly when
      fewer groups are offloaded than there are. */
  lemma LaterGroupsLeaveIff(numOffload: nat, numLayers: nat, events: seq<Event>, tag: Tag)
    requires IsRun(numOffload, numLayers, events)
    requires var s := ScriptOf(numOffload, numLayers, events); s.forward && s.group == numLayers
    requires var s := ScriptOf(numOffload, numLayers, events);
             0 < tag.group < numOffload && tag.group < |s.pushed| && tag.index < |s.pushed[tag.group]|
    ensures Play(Empty(numOffload, numLayers), events).Ok?
    ensures var h := Play(Empty(numOffload, numLayers), events).value;
            tag in h.state && (h.state[tag].Offloaded? <==> numOffload < numLayers)
  {
    OnHostAtTheTurn(numOffload, numLayers, events, tag);
  }

  /** Groups with a tensor on the device that the handler keeps alive. */
  ghost predicate HoldsOnDevice(h: Handler, group: nat) {
    exists index: nat ::
      || (Tag(group, index) in h.state && h.state[Tag(group, index)].OnDevice?)
      || (Tag(group, index) in h.buf && h.buf[Tag(group, index)].Some?)
  }

  /** Set up with one offload group fewer than layers, the handler never keeps tensors of more than two groups,
      the current one and the one before it, on the device. */
  lemma AtMostTwoGroupsOnDevice(numLayers: nat, events: seq<Event>, group: nat)
    requires 1 < numLayers && IsRun(numLayers - 1, numLayers, events)
    ensures Play(Empty(numLayers - 1, numLayers), events).Ok?
    ensures HoldsOnDevice(Play(Empty(numLayers - 1, numLayers), events).value, group) ==>
              var current := ScriptOf(numLayers - 1, numLayers, events).group;
              group == current || group + 1 == current
  {
    var d := RunsSucceed(numLayers - 1, numLayers, events);
    var h, s := Play(Empty(numLayers - 1, numLayers), events).value, ScriptOf(numLayers - 1, numLayers, events);
    if HoldsOnDevice(h, group) { HeldIsNear(h, s, d, group); }
  }

  lemma HeldIsNear(h: Handler, s: Script, done: nat, group: nat)
    requires Inv(h, s, done) && h.numOffload == h.numLayers - 1 && HoldsOnDevice(h, group)
    ensures group == s.group || group + 1 == s.group
  {
    TightWindows(h, s, done);
    if index: nat :| Tag(group, index) in h.state && h.state[Tag(group, index)].OnDevice? {
      var tag := Tag(group, index);
      assert Live(s, tag) && SlotInv(HostGroups(h), h.state[tag], s, done, tag);
      NotYetPushedOrPopped(s, h.numLayers, HostGroups(h), group, index);
    } else {
      var index: nat :| Tag(group, index) in h.buf && h.buf[Tag(group, index)].Some?;
      assert Live(s, Tag(group, index));
      NotYetPushedOrPopped(s, h.numLayers, HostGroups(h), group, index);
    }
  }

  lemma TightWindows(h: Handler, s: Script, done: nat)
    requires GroupsInv(h, s, done) && h.numOffload == h.numLayers - 1
    ensures done == if s.group > 0 then s.group - 1 else 0
  {
    if done > 0 { TightWindowMap(h.numLayers, done - 1); }
    if done < h.numOffload { TightWindowMap(h.numLayers, done); }
  }

  lemma NotYetPushedOrPopped(s: Script, numLayers: nat, hosted: nat, group: nat, index: nat)
    requires ScriptInv(s, numLayers, hosted) && Live(s, Tag(group, index))
    ensures group <= s.group
  {
    forall g | !s.forward && s.group < g < numLayers ensures !Live(s, Tag(g, index)) {
      if index < |s.pushed[g]| { assert GroupPopped(s, g); }
    }
  }

  // ---------------------------------------------------------------- views of one storage

  const MATRIX := Tensor(64, 0, "float32", [2, 2], [1, 2, 3, 4])

  /** The same storage seen transposed: same key, other row-major contents. */
  const TRANSPOSED := Tensor(64, 0, "float32", [2, 2], [1, 3, 2, 4])

  /** Two slices of one storage: other offsets, other keys. */
  const FIRST_HALF := Tensor(64, 0, "float32", [2], [1, 2])

  const SECOND_HALF := Tensor(64, 2, "float32", [2], [3, 4])

  function PushBoth(a: Tensor, b: Tensor): seq<Event> {
    [PushTensor(a), PushTensor(b), Forward, Forward, Backward, Backward]
  }

  /** Both tensors in group 0, nothing in group 1. */
  function TwoGroups(ts: seq<Tensor>, forward: bool, group: nat): Script {
    Script([ts, []], forward, group, {})
  }

  lemma MatricesAreGood()
    ensures GoodTensors([MATRIX]) && GoodTensors([MATRIX, TRANSPOSED])
  {
    assert [2, 2][1..] == [2] && [2][1..] == [];
    assert Numel([2, 2]) == 4;
  }

  lemma HalvesAreGood()
    ensures GoodTensors([FIRST_HALF]) && GoodTensors([FIRST_HALF, SECOND_HALF])
    ensures StorageDeterminesContents([FIRST_HALF, SECOND_HALF])
  {
    assert [2][1..] == [] && Numel([2]) == 2;
    assert !SameStorage(FIRST_HALF, SECOND_HALF);
  }

  lemma Commits(ts: seq<Tensor>)
    ensures var e := [Forward, Forward, Backward, Backward];
            && Playable(1, TwoGroups(ts, true, 0), e)
            && ScriptAfter(1, TwoGroups(ts, true, 0), e) == TwoGroups(ts, false, 0)
  {
    var last := TwoGroups(ts, false, 0);
    assert GroupPopped(TwoGroups(ts, false, 1), 1);
    OneMore(1, TwoGroups(ts, false, 1), [Backward], last);
    assert [Backward, Backward][1..] == [Backward];
    OneMore(1, TwoGroups(ts, true, 2), [Backward, Backward], last);
    assert [Forward, Backward, Backward][1..] == [Backward, Backward];
    OneMore(1, TwoGroups(ts, true, 1), [Forward, Backward, Backward], last);
    assert [Forward, Forward, Backward, Backward][1..] == [Forward, Backward, Backward];
    OneMore(1, TwoGroups(ts, true, 0), [Forward, Forward, Backward, Backward], last);
  }

  /** Two tensors in an offloaded group, up to the pops of that group. */
  lemma BothPushedRuns(a: Tensor, b: Tensor)
    requires GoodTensors([a]) && GoodTensors([a, b])
    ensures IsRun(1, 2, PushBoth(a, b)) && ScriptOf(1, 2, PushBoth(a, b)) == TwoGroups([a, b], false, 0)
  {
    var events, last := PushBoth(a, b), TwoGroups([a, b], false, 0);
    Commits([a, b]);
    var s0, s1 := Blank(2), TwoGroups([a], true, 0);
    assert s0.pushed == [[], []];
    assert [] + [a] == [a];
    assert s0.pushed[0 := [a]] == s1.pushed;
    assert [a] + [b] == [a, b];
    assert s1.pushed[0 := [a, b]] == [[a, b], []];
    assert events[1..][1..] == [Forward, Forward, Backward, Backward];
    OneMore(1, s1, events[1..], last);
    OneMore(1, s0, events, last);
  }

  lemma OneMore(hosted: nat, s: Script, events: seq<Event>, last: Script)
    requires events != [] && Allowed(s, events[0])
    requires events[0].PushTensor? && s.group < hosted ==> GoodTensors(s.pushed[s.group] + [events[0].tensor])
    requires Playable(hosted, After(s, events[0]), events[1..])
    requires ScriptAfter(hosted, After(s, events[0]), events[1..]) == last
    ensures Playable(hosted, s, events) && ScriptAfter(hosted, s, events) == last
  {
  }

  /** A matrix and its transpose, saved in one offloaded group: the run succeeds, and the transpose comes back as
      the matrix. */
  lemma TransposedViewComesBackWrong()
    ensures var events := PushBoth(MATRIX, TRANSPOSED);
            && IsRun(1, 2, events)
            && ScriptOf(1, 2, events).pushed == [[MATRIX, TRANSPOSED], []]
            && Allowed(ScriptOf(1, 2, events), PopTensor(Tag(0, 1)))
            && var run := Play(Empty(1, 2), events);
               && run.Ok? && Pop(run.value, Tag(0, 1)).Ok?
               && Pop(run.value, Tag(0, 1)).value.1.data == MATRIX.data != TRANSPOSED.data
  {
    MatricesAreGood();
    BothPushedRuns(MATRIX, TRANSPOSED);
    PopsReturn(1, 2, PushBoth(MATRIX, TRANSPOSED), Tag(0, 1));
    BackupsOfMatrix();
  }

  lemma BackupsOfMatrix()
    ensures Returned([MATRIX, TRANSPOSED], 1).data == MATRIX.data
    ensures MATRIX.data != TRANSPOSED.data
  {
    var ts := [MATRIX, TRANSPOSED];
    BackupsOfFirst(ts, 1);
    assert MATRIX.data[1] != TRANSPOSED.data[1];
  }

  /** The two halves of one storage, saved in one offloaded group, come back each as itself. */
  lemma SlicesComeBackRight()
    ensures var events := PushBoth(FIRST_HALF, SECOND_HALF);
            && IsRun(1, 2, events)
            && ScriptOf(1, 2, events).pushed == [[FIRST_HALF, SECOND_HALF], []]
            && forall i: nat :: i < 2 ==>
                 && Allowed(ScriptOf(1, 2, events), PopTensor(Tag(0, i)))
                 && PopIsRight(1, 2, events, Tag(0, i))
  {
    HalvesAreGood();
    BothPushedRuns(FIRST_HALF, SECOND_HALF);
    PopsAreRightIff(1, 2, PushBoth(FIRST_HALF, SECOND_HALF));
  }
}
