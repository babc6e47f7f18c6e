/** The handler object itself: its methods update the fields that OffloadSpec describes. */
module OffloadHandler {
  import opened OffloadSpec
  import opened Orders
  import opened Rows
  import opened Wrappers

  /** What tensor_push hands to autograd: a tag, or the tensor itself when it is not to be offloaded. */
  datatype Saved = ByTag(tag: Tag) | Itself(tensor: Tensor)

  class AsyncDoubleBufferGroupOffloadHandler {
    const numOffloadGroup: nat
    const numLayers: nat
    const layerWindowMap: seq<int>
    var currentGroup: int
    var tensorCountCurrentGroup: nat
    var tensorTagToState: map<Tag, Slot>
    var insertionOrder: seq<Tag>
    var tensorTagToBuf: map<Tag, Option<Tensor>>
    var groupOffloadMapping: map<nat, map<Key, seq<int>>>
    var offloadedGroupCount: int
    ghost var d2hPending: set<nat>
    ghost var h2dPending: set<nat>

    ghost function Snapshot(): Handler
      reads this
    {
      Handler(numOffloadGroup, numLayers, layerWindowMap, currentGroup, tensorCountCurrentGroup,
              tensorTagToState, insertionOrder, tensorTagToBuf, groupOffloadMapping, offloadedGroupCount,
              d2hPending, h2dPending)
    }

    /** The insertion order lists the dictionary's keys, each once. */
    ghost predicate Valid()
      reads this
    {
      && Elements(insertionOrder, tensorTagToState.Keys)
      && Distinct(insertionOrder)
    }

    constructor (numOffloadGroup: nat, numModelGroup: nat)
      ensures Valid() && Snapshot() == Empty(numOffloadGroup, numModelGroup)
    {
      this.numOffloadGroup, numLayers := numOffloadGroup, numModelGroup;
      var window := BuildWindowMap(numOffloadGroup, numModelGroup);
      layerWindowMap := window;
      currentGroup, tensorCountCurrentGroup, offloadedGroupCount := 0, 0, 0;
      tensorTagToState, insertionOrder, tensorTagToBuf, groupOffloadMapping := map[], [], map[], map[];
      d2hPending, h2dPending := {}, {};
    }

    method TensorPush(tensor: Tensor, needOffload: bool) returns (r: Result<Saved, Fault>)
      requires Valid()
      modifies this
      ensures Valid()
      ensures !needOffload ==> r == Ok(Itself(tensor)) && Snapshot() == old(Snapshot())
      ensures needOffload ==>
                match Push(old(Snapshot()), tensor)
                case Err(e) => r == Err(e)
                case Ok(h) => Snapshot() == h && r == Ok(ByTag(Tag(old(currentGroup), old(tensorCountCurrentGroup))))
    {
      if !needOffload { return Ok(Itself(tensor)); }
      if currentGroup < 0 { return Err(NegativeGroup); }
      var tag := Tag(currentGroup, tensorCountCurrentGroup);
      if tag in tensorTagToState { return Err(TagInUse); }
      tensorCountCurrentGroup := tensorCountCurrentGroup + 1;
      tensorTagToState := tensorTagToState[tag := OnDevice(tensor)];
      assert tag !in insertionOrder;
      insertionOrder := insertionOrder + [tag];
      if currentGroup < numOffloadGroup {
        tensorTagToBuf := tensorTagToBuf[tag := Some(tensor)];
      }
      return Ok(ByTag(tag));
    }

    method TensorPop(saved: Saved) returns (r: Result<Tensor, Fault>)
      requires Valid()
      modifies this
      ensures Valid()
      ensures saved.Itself? ==> r == Ok(saved.tensor) && Snapshot() == old(Snapshot())
      ensures saved.ByTag? ==>
                match Pop(old(Snapshot()), saved.tag)
                case Err(e) => r == Err(e)
                case Ok(p) => Snapshot() == p.0 && r == Ok(p.1)
    {
      if saved.Itself? { return Ok(saved.tensor); }
      if saved.tag !in tensorTagToState { return Err(UnknownTag); }
      var slot := tensorTagToState[saved.tag];
      if slot.Offloaded? { return Err(StillOffloaded); }
      WithoutElements(insertionOrder, saved.tag);
      WithoutDistinct(insertionOrder, saved.tag);
      tensorTagToState := tensorTagToState - {saved.tag};
      insertionOrder := Without(insertionOrder, saved.tag);
      tensorTagToBuf := tensorTagToBuf - {saved.tag};
      return Ok(slot.tensor);
    }

    method BulkOffloadGroup(groupToOffload: nat) returns (r: Result<(), Fault>)
      requires Valid()
      modifies this
      ensures match OffloadGroup(old(Snapshot()), groupToOffload)
              case Err(e) => r == Err(e)
              case Ok(h) => r == Ok(()) && Snapshot() == h && Valid()
    {
      var offloadMapping := OffloadTensors(groupToOffload);
      if offloadMapping.Err? { return Err(offloadMapping.error); }
      groupOffloadMapping := groupOffloadMapping[groupToOffload := offloadMapping.value];
      d2hPending := d2hPending + {groupToOffload};
      return Ok(());
    }

    /** The loop over all tags: each tensor of the group is swapped for its key and shape. */
    method OffloadTensors(groupToOffload: nat) returns (r: Result<map<Key, seq<int>>, Fault>)
      requires Valid()
      modifies this`tensorTagToState
      ensures !AllOnDevice(old(Snapshot()), groupToOffload) ==> r == Err(NotATensor)
      ensures AllOnDevice(old(Snapshot()), groupToOffload) ==>
                && r == Ok(Backups(old(tensorTagToState), insertionOrder, groupToOffload, |insertionOrder|))
                && tensorTagToState == SwappedOut(old(tensorTagToState), groupToOffload)
    {
      var offloadMapping: map<Key, seq<int>> := map[];
      ghost var was := tensorTagToState;
      for n := 0 to |insertionOrder|
        invariant tensorTagToState.Keys == was.Keys
        invariant Visited(was, tensorTagToState, insertionOrder, groupToOffload, n)
        invariant offloadMapping == Backups(was, insertionOrder, groupToOffload, n)
      {
        var tag := insertionOrder[n];
        VisitNext(was, tensorTagToState, insertionOrder, groupToOffload, n);
        if tag.group == groupToOffload {
          var slot := tensorTagToState[tag];
          if slot.Offloaded? { return Err(NotATensor); }
          BackupNext(was, insertionOrder, groupToOffload, n);
          var key := KeyOf(slot.tensor);
          if key !in offloadMapping { offloadMapping := offloadMapping[key := slot.tensor.data]; }
          assert Offloaded(key, slot.tensor.shape) == Swapped(slot);
          tensorTagToState := tensorTagToState[tag := Offloaded(key, slot.tensor.shape)];
        }
      }
      AllVisited(was, tensorTagToState, insertionOrder, groupToOffload);
      return Ok(offloadMapping);
    }

    method SynchronizeOnGroupCommitForward() returns (r: Result<(), Fault>)
      requires Valid()
      modifies this
      ensures match Synchronized(old(Snapshot()))
              case Err(e) => r == Err(e)
              case Ok(h) => r == Ok(()) && Snapshot() == h && Valid()
    {
      if currentGroup == 0 {
        var kicked := BulkOffloadGroup(0);
        if kicked.Err? { return kicked; }
      }
      if !(0 <= offloadedGroupCount < |layerWindowMap|) { return Err(WindowKeyError); }
      if layerWindowMap[offloadedGroupCount] == currentGroup {
        r := FreeAndOffloadNext();
      } else {
        r := Ok(());
      }
    }

    /** The window test has succeeded: the streams are synchronized, one group is freed, the next offloaded. */
    method FreeAndOffloadNext() returns (r: Result<(), Fault>)
      requires Valid() && 0 <= offloadedGroupCount
      modifies this
      ensures match CloseWindow(old(Snapshot()))
              case Err(e) => r == Err(e)
              case Ok(h) => r == Ok(()) && Snapshot() == h && Valid()
    {
      d2hPending := {};
      tensorTagToBuf := Release(tensorTagToBuf, offloadedGroupCount);
      if offloadedGroupCount < numOffloadGroup - 1 {
        var next := BulkOffloadGroup(offloadedGroupCount + 1);
        if next.Err? { return next; }
      }
      offloadedGroupCount := offloadedGroupCount + 1;
      return Ok(());
    }

    method OnGroupCommitForward() returns (r: Result<(), Fault>)
      requires Valid()
      modifies this
      ensures match CommitForward(old(Snapshot()))
              case Err(e) => r == Err(e)
              case Ok(h) => r == Ok(()) && Snapshot() == h && Valid()
    {
      r := SynchronizeOnGroupCommitForward();
      if r.Ok? {
        currentGroup := currentGroup + 1;
        tensorCountCurrentGroup := 0;
      }
    }

    method BulkReloadGroup(groupToReload: nat) returns (r: Result<(), Fault>)
      requires Valid()
      modifies this
      ensures match ReloadGroup(old(Snapshot()), groupToReload)
              case Err(e) => r == Err(e)
              case Ok(h) => r == Ok(()) && Snapshot() == h && Valid()
    {
      if groupToReload >= numOffloadGroup || groupToReload !in groupOffloadMapping { return Err(GroupKeyError); }
      var offloadMapping := groupOffloadMapping[groupToReload];
      ghost var was := tensorTagToState;
      for n := 0 to |insertionOrder|
        modifies this`tensorTagToState
        invariant tensorTagToState.Keys == was.Keys
        invariant Restored(was, tensorTagToState, insertionOrder, groupToReload, offloadMapping, n)
      {
        var tag := insertionOrder[n];
        RestoreNext(was, tensorTagToState, insertionOrder, groupToReload, offloadMapping, n);
        if tag.group == groupToReload && tensorTagToState[tag].Offloaded? {
          var slot := tensorTagToState[tag];
          if slot.key !in offloadMapping || |offloadMapping[slot.key]| != Numel(slot.shape) { return Err(BadView); }
          var recovered := View(slot.key.dtype, slot.shape, offloadMapping[slot.key]);
          tensorTagToState := tensorTagToState[tag := OnDevice(recovered)];
        }
      }
      AllRestored(was, tensorTagToState, insertionOrder, groupToReload, offloadMapping);
      groupOffloadMapping := groupOffloadMapping - {groupToReload};
      h2dPending := h2dPending + {groupToReload};
      return Ok(());
    }

    method OnGroupCommitBackward() returns (r: Result<(), Fault>)
      requires Valid()
      modifies this
      ensures match CommitBackward(old(Snapshot()))
              case Err(e) => r == Err(e)
              case Ok(h) => r == Ok(()) && Snapshot() == h && Valid()
    {
      currentGroup := currentGroup - 1;
      if currentGroup < 0 { return Err(NegativeGroup); }
      if !(0 <= offloadedGroupCount - 1 < |layerWindowMap|) { return Err(WindowKeyError); }
      if layerWindowMap[offloadedGroupCount - 1] == currentGroup {
        h2dPending := {};
        var reloaded := BulkReloadGroup(offloadedGroupCount - 1);
        if reloaded.Err? { return reloaded; }
        offloadedGroupCount := offloadedGroupCount - (if offloadedGroupCount > 1 then 1 else 0);
      }
      if currentGroup == 0 {
        h2dPending := {};
        offloadedGroupCount := 0;
      }
      return Ok(());
    }
  }

  /** The dictionary when the offload loop has visited n entries: those of the group are swapped out. */
  ghost predicate Visited(was: map<Tag, Slot>, now: map<Tag, Slot>, order: seq<Tag>, group: nat, n: nat)
    requires n <= |order| && was.Keys == now.Keys
  {
    && (forall a :: 0 <= a < |order| && order[a] in was ==>
          now[order[a]] == if a < n && order[a].group == group then Swapped(was[order[a]]) else was[order[a]])
    && (forall a :: 0 <= a < n && order[a].group == group ==> order[a] in was && was[order[a]].OnDevice?)
  }

  lemma VisitNext(was: map<Tag, Slot>, now: map<Tag, Slot>, order: seq<Tag>, group: nat, n: nat)
    requires n < |order| && was.Keys == now.Keys && Elements(order, was.Keys) && Distinct(order)
    requires Visited(was, now, order, group, n)
    ensures var tag := order[n];
            && tag in order && tag in now && now[tag] == was[tag]
            && (tag.group != group ==> Visited(was, now, order, group, n + 1))
            && (tag.group == group && now[tag].OnDevice? ==>
                  now[tag := Swapped(now[tag])].Keys == was.Keys
                  && Visited(was, now[tag := Swapped(now[tag])], order, group, n + 1))
  {
    assert order[n] in order;
  }

  lemma BackupNext(was: map<Tag, Slot>, order: seq<Tag>, group: nat, n: nat)
    requires n < |order| && order[n] in was && order[n].group == group && was[order[n]].OnDevice?
    ensures var t, before := was[order[n]].tensor, Backups(was, order, group, n);
            Backups(was, order, group, n + 1) == if KeyOf(t) in before then before else before[KeyOf(t) := t.data]
  {
  }

  lemma AllVisited(was: map<Tag, Slot>, now: map<Tag, Slot>, order: seq<Tag>, group: nat)
    requires was.Keys == now.Keys && Elements(order, was.Keys) && Visited(was, now, order, group, |order|)
    ensures now == SwappedOut(was, group)
    ensures forall tag :: tag in order && tag.group == group ==> tag in was && was[tag].OnDevice?
  {
    forall tag | tag in was ensures now[tag] == SwappedOut(was, group)[tag] {
      assert tag in order;
      var a :| 0 <= a < |order| && order[a] == tag;
    }
  }

  /** The dictionary when the reload loop has visited n entries: those of the group are tensors again. */
  ghost predicate Restored(was: map<Tag, Slot>, now: map<Tag, Slot>, order: seq<Tag>, group: nat,
                           backups: map<Key, seq<int>>, n: nat)
    requires n <= |order| && was.Keys == now.Keys
  {
    forall a :: 0 <= a < |order| && order[a] in was ==>
      if a < n && order[a].group == group
      then CanView(was[order[a]], backups) && now[order[a]] == Recovered(was[order[a]], backups)
      else now[order[a]] == was[order[a]]
  }

  lemma RestoreNext(was: map<Tag, Slot>, now: map<Tag, Slot>, order: seq<Tag>, group: nat,
                    backups: map<Key, seq<int>>, n: nat)
    requires n < |order| && was.Keys == now.Keys && Elements(order, was.Keys) && Distinct(order)
    requires Restored(was, now, order, group, backups, n)
    ensures var tag := order[n];
            && tag in was && tag in now && now[tag] == was[tag]
            && (tag.group != group || now[tag].OnDevice? ==> Restored(was, now, order, group, backups, n + 1))
            && (tag.group == group && CanView(now[tag], backups) ==>
                  now[tag := Recovered(now[tag], backups)].Keys == was.Keys
                  && Restored(was, now[tag := Recovered(now[tag], backups)], order, group, backups, n + 1))
  {
    assert order[n] in order;
  }

  lemma AllRestored(was: map<Tag, Slot>, now: map<Tag, Slot>, order: seq<Tag>, group: nat, backups: map<Key, seq<int>>)
    requires was.Keys == now.Keys && Elements(order, was.Keys) && Restored(was, now, order, group, backups, |order|)
    ensures CanViewAll(was, group, backups) && now == SwappedIn(was, group, backups)
  {
    forall tag | tag in was
      ensures tag.group == group ==> CanView(was[tag], backups) && now[tag] == Recovered(was[tag], backups)
      ensures tag.group != group ==> now[tag] == was[tag]
    {
      assert tag in order;
      var a :| 0 <= a < |order| && order[a] == tag;
    }
  }
}
