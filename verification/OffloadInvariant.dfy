/**
 The activation offload handler against what autograd does with it: forward, every group pushes its tensors and
 commits; backward, every group commits and then pops its tensors in any order; and again. The invariant that
 every such event keeps.
 */
module OffloadInvariant {
  import opened OffloadSpec
  import opened Orders
  import opened Wrappers

  datatype Event = PushTensor(tensor: Tensor) | Forward | Backward | PopTensor(tag: Tag) | NextIteration

  /** What autograd has done in the current iteration: the tensors it pushed, group by group, and those it popped. */
  datatype Script = Script(pushed: seq<seq<Tensor>>, forward: bool, group: nat, popped: set<Tag>)

  function Blank(numLayers: nat): Script {
    Script(seq(numLayers, _ => []), true, 0, {})
  }

  ghost predicate GroupPopped(s: Script, group: nat)
    requires group < |s.pushed|
  {
    forall i :: 0 <= i < |s.pushed[group]| ==> Tag(group, i) in s.popped
  }

  ghost predicate Allowed(s: Script, e: Event) {
    match e
    case PushTensor(t) => s.forward && s.group < |s.pushed|
    case Forward => s.forward && s.group < |s.pushed|
    case Backward =>
      if s.forward then s.group == |s.pushed| && s.group > 0
      else 0 < s.group < |s.pushed| && GroupPopped(s, s.group)
    case PopTensor(tag) =>
      !s.forward && tag.group == s.group < |s.pushed| && tag.index < |s.pushed[s.group]| && tag !in s.popped
    case NextIteration => !s.forward && s.group == 0 < |s.pushed| && GroupPopped(s, 0)
  }

  ghost function After(s: Script, e: Event): Script
    requires Allowed(s, e)
  {
    match e
    case PushTensor(t) => s.(pushed := s.pushed[s.group := s.pushed[s.group] + [t]])
    case Forward => s.(group := s.group + 1)
    case Backward => s.(forward := false, group := s.group - 1)
    case PopTensor(tag) => s.(popped := s.popped + {tag})
    case NextIteration => Blank(|s.pushed|)
  }

  /** The handler's side of an event. */
  function React(h: Handler, e: Event): Result<Handler, Fault> {
    match e
    case PushTensor(t) => Push(h, t)
    case Forward => CommitForward(h)
    case Backward => CommitBackward(h)
    case PopTensor(tag) => (match Pop(h, tag) case Ok(p) => Ok(p.0) case Err(x) => Err(x))
    case NextIteration => Ok(h)
  }

  // ---------------------------------------------------------------- the window map

  /** Windows close in order, the last of them with the last layer. */
  ghost predicate Windows(w: seq<int>, numOffload: nat, numLayers: nat) {
    && 0 < numOffload <= numLayers && |w| == numOffload
    && w[numOffload - 1] == numLayers - 1
    && (forall i :: 0 <= i < numOffload ==> i <= w[i])
    && (forall i, j :: 0 <= i < j < numOffload ==> w[i] < w[j])
    && (numOffload < numLayers ==> RunsAhead(w))
    && (numOffload == numLayers ==> forall i :: 0 <= i < numOffload ==> w[i] == i)
  }

  /** Every group is freed at the commit of a later one. */
  ghost predicate RunsAhead(w: seq<int>) {
    forall i :: 0 <= i < |w| ==> i < w[i]
  }

  /** The groups that are moved to the host: with as many offload groups as layers only the first is. */
  function Hosted(numOffload: nat, numLayers: nat): nat {
    if numOffload < numLayers then numOffload else 1
  }

  lemma WindowGrows(numOffload: nat, numLayers: nat, i: nat, j: nat)
    requires 0 < numOffload <= numLayers && i < j
    ensures Window(numOffload, numLayers, i) < Window(numOffload, numLayers, j)
  {
    var q := numLayers / numOffload;
    assert q >= 1;
    assert q * (j + 1) - q * (i + 1) == q * (j - i) >= j - i;
  }

  lemma StrictMapRunsAhead(numOffload: nat, numLayers: nat, i: nat)
    requires 0 < numOffload < numLayers && i < numOffload
    ensures i < Window(numOffload, numLayers, i)
  {
    var q, r := numLayers / numOffload, numLayers % numOffload;
    assert numLayers == q * numOffload + r;
    assert q >= 1;
    if q == 1 {
      assert r >= 1;
    } else {
      assert q * (i + 1) >= 2 * (i + 1);
    }
  }

  /** For all sizes the map is strictly increasing and ends at the last layer. */
  lemma WindowMapFits(numOffload: nat, numLayers: nat)
    requires 0 < numOffload <= numLayers
    ensures Windows(WindowMap(numOffload, numLayers), numOffload, numLayers)
  {
    var w := WindowMap(numOffload, numLayers);
    assert numLayers == numLayers / numOffload * numOffload + numLayers % numOffload;
    forall i, j | 0 <= i < j < numOffload ensures w[i] < w[j] { WindowGrows(numOffload, numLayers, i, j); }
    if numOffload < numLayers {
      forall i | 0 <= i < numOffload ensures i < w[i] { StrictMapRunsAhead(numOffload, numLayers, i); }
    } else {
      assert numLayers / numOffload == 1 && numLayers % numOffload == 0;
    }
  }

  /** How many commits lie between the closing of one window and that of the next: the layers are divided as evenly as
      they can be, and the longer shares come first. */
  lemma WindowsAreEven(numOffload: nat, numLayers: nat, i: nat)
    requires i < numOffload
    ensures var before := if i == 0 then -1 else WindowMap(numOffload, numLayers)[i - 1];
            WindowMap(numOffload, numLayers)[i] - before ==
              numLayers / numOffload + if i < numLayers % numOffload then 1 else 0
  {
    var q := numLayers / numOffload;
    assert q * (i + 1) == q * i + q;
  }

  /** The windows run ahead of the groups they free exactly when one group is not offloaded. */
  lemma WindowsFitIff(numOffload: nat, numLayers: nat)
    requires 0 < numOffload <= numLayers
    ensures RunsAhead(WindowMap(numOffload, numLayers)) <==> numOffload < numLayers
  {
    WindowMapFits(numOffload, numLayers);
    assert numOffload == numLayers ==> WindowMap(numOffload, numLayers)[0] == 0;
  }

  /** Without offload groups the window map is empty and the first commit fails on it. */
  lemma NoOffloadGroupsFail(h: Handler, numLayers: nat)
    requires h.window == WindowMap(0, numLayers) && AllOnDevice(h, 0)
    ensures CommitForward(h) == Err(WindowKeyError)
  {
  }

  /** As enable_activation_offloading sets it up, with one group fewer than layers, the map is i -> i + 1. */
  lemma TightWindowMap(numLayers: nat, i: nat)
    requires 1 < numLayers && i < numLayers - 1
    ensures Window(numLayers - 1, numLayers, i) == i + 1
  {
    if numLayers == 2 {
    } else {
      assert numLayers / (numLayers - 1) == 1 && numLayers % (numLayers - 1) == 1;
    }
  }

  // ---------------------------------------------------------------- invariant

  /** `done` windows close before group `group` commits. */
  ghost predicate ClosedBefore(w: seq<int>, group: int, done: nat) {
    done <= |w| && (done > 0 ==> w[done - 1] < group) && (done < |w| ==> group <= w[done])
  }

  ghost predicate Live(s: Script, tag: Tag) {
    tag.group < |s.pushed| && tag.index < |s.pushed[tag.group]| && tag !in s.popped
  }

  /** Whether group `group`, of the first n, has been moved to the host and not come back. */
  ghost predicate OnHost(n: nat, s: Script, done: nat, group: nat) {
    group < n && if s.forward then s.group >= 1 && group <= done else group < done
  }

  /** offload_mapping of a group, from the tensors it pushed. */
  function BackupsOf(ts: seq<Tensor>): map<Key, seq<int>> {
    if ts == [] then map[]
    else
      var before, t := BackupsOf(ts[..|ts| - 1]), ts[|ts| - 1];
      if KeyOf(t) in before then before else before[KeyOf(t) := t.data]
  }

  ghost predicate FirstOfKey(ts: seq<Tensor>, k: nat, key: Key) {
    k < |ts| && KeyOf(ts[k]) == key && forall j :: 0 <= j < k ==> KeyOf(ts[j]) != key
  }

  /** The copy kept for a key is that of the first tensor of the group with this key. */
  lemma {:induction false} BackupsOfFirst(ts: seq<Tensor>, i: nat)
    requires i < |ts|
    ensures KeyOf(ts[i]) in BackupsOf(ts)
    ensures exists k :: 0 <= k <= i && FirstOfKey(ts, k, KeyOf(ts[i])) && BackupsOf(ts)[KeyOf(ts[i])] == ts[k].data
  {
    var init := ts[..|ts| - 1];
    if i < |init| {
      BackupsOfFirst(init, i);
      var k :| 0 <= k <= i && FirstOfKey(init, k, KeyOf(init[i])) && BackupsOf(init)[KeyOf(init[i])] == init[k].data;
      assert FirstOfKey(ts, k, KeyOf(ts[i]));
    } else if k: nat :| k < |init| && KeyOf(init[k]) == KeyOf(ts[i]) {
      BackupsOfFirst(init, k);
      var m :| 0 <= m <= k && FirstOfKey(init, m, KeyOf(init[k])) && BackupsOf(init)[KeyOf(init[k])] == init[m].data;
      assert FirstOfKey(ts, m, KeyOf(ts[i]));
    } else {
      NoBackup(init, KeyOf(ts[i]));
      assert FirstOfKey(ts, i, KeyOf(ts[i]));
    }
  }

  lemma {:induction false} NoBackup(ts: seq<Tensor>, key: Key)
    requires forall i :: 0 <= i < |ts| ==> KeyOf(ts[i]) != key
    ensures key !in BackupsOf(ts)
  {
    if ts != [] { NoBackup(ts[..|ts| - 1], key); }
  }

  /** What comes back from the host for tensor i: its own shape over the copy kept for its key. */
  ghost function Returned(ts: seq<Tensor>, i: nat): Tensor
    requires i < |ts|
  {
    BackupsOfFirst(ts, i);
    View(ts[i].dtype, ts[i].shape, BackupsOf(ts)[KeyOf(ts[i])])
  }

  /** What the handler takes for the same storage. */
  ghost predicate SameStorage(a: Tensor, b: Tensor) {
    a.address + a.offset == b.address + b.offset && a.dtype == b.dtype
  }

  /** Tensors with the same storage have equally many elements, so that the one copy can be viewed as any of them. */
  ghost predicate StorageDeterminesSizes(ts: seq<Tensor>) {
    forall i, j :: 0 <= i < j < |ts| && SameStorage(ts[i], ts[j]) ==> |ts[i].data| == |ts[j].data|
  }

  /** `copies` has one copy for every storage among the tensors, that of the first with this storage, and no others. */
  ghost predicate OneCopyPerStorage(copies: map<Key, seq<int>>, ts: seq<Tensor>) {
    && (forall key :: key in copies ==>
          exists i :: 0 <= i < |ts| && key == Key(ts[i].address + ts[i].offset, ts[i].dtype))
    && (forall i :: 0 <= i < |ts| ==> Key(ts[i].address + ts[i].offset, ts[i].dtype) in copies)
    && (forall i :: 0 <= i < |ts| && FirstOfStorage(ts, i) ==>
          copies[Key(ts[i].address + ts[i].offset, ts[i].dtype)] == ts[i].data)
  }

  ghost predicate FirstOfStorage(ts: seq<Tensor>, i: nat)
    requires i < |ts|
  {
    forall j :: 0 <= j < i ==> !SameStorage(ts[j], ts[i])
  }

  lemma FirstIsBackedUp(ts: seq<Tensor>, i: nat)
    requires i < |ts|
    ensures KeyOf(ts[i]) in BackupsOf(ts) && (FirstOfStorage(ts, i) ==> BackupsOf(ts)[KeyOf(ts[i])] == ts[i].data)
  {
    BackupsOfFirst(ts, i);
    var k :| 0 <= k <= i && FirstOfKey(ts, k, KeyOf(ts[i])) && BackupsOf(ts)[KeyOf(ts[i])] == ts[k].data;
    assert SameStorage(ts[k], ts[i]);
  }

  lemma OnlyTheseAreBackedUp(ts: seq<Tensor>, key: Key)
    requires key in BackupsOf(ts)
    ensures exists i :: 0 <= i < |ts| && key == Key(ts[i].address + ts[i].offset, ts[i].dtype)
  {
    if forall i :: 0 <= i < |ts| ==> KeyOf(ts[i]) != key { NoBackup(ts, key); }
    var i :| 0 <= i < |ts| && KeyOf(ts[i]) == key;
  }

  lemma BackupsAreCopies(ts: seq<Tensor>)
    ensures OneCopyPerStorage(BackupsOf(ts), ts)
  {
    forall i | 0 <= i < |ts|
      ensures Key(ts[i].address + ts[i].offset, ts[i].dtype) in BackupsOf(ts)
      ensures FirstOfStorage(ts, i) ==> BackupsOf(ts)[Key(ts[i].address + ts[i].offset, ts[i].dtype)] == ts[i].data
    {
      FirstIsBackedUp(ts, i);
    }
    forall key | key in BackupsOf(ts)
      ensures exists i :: 0 <= i < |ts| && key == Key(ts[i].address + ts[i].offset, ts[i].dtype)
    {
      OnlyTheseAreBackedUp(ts, key);
    }
  }

  ghost predicate ValidTensors(ts: seq<Tensor>) {
    forall i :: 0 <= i < |ts| ==> ValidTensor(ts[i])
  }

  ghost predicate GoodTensors(ts: seq<Tensor>) {
    ValidTensors(ts) && StorageDeterminesSizes(ts)
  }

  lemma SameCopy(ts: seq<Tensor>, i: nat, j: nat)
    requires i < |ts| && j < |ts| && SameStorage(ts[i], ts[j])
    ensures Returned(ts, i).data == Returned(ts, j).data
  {
  }

  /** The copies can be viewed with every tensor's shape exactly when the storage determines the size. */
  lemma ViewsFitIff(ts: seq<Tensor>)
    requires ValidTensors(ts)
    ensures (forall i :: 0 <= i < |ts| ==> ValidTensor(Returned(ts, i))) <==> StorageDeterminesSizes(ts)
  {
    forall i | 0 <= i < |ts|
      ensures KeyOf(ts[i]) in BackupsOf(ts)
      ensures ValidTensor(Returned(ts, i)) <==> |BackupsOf(ts)[KeyOf(ts[i])]| == |ts[i].data|
    {
      BackupsOfFirst(ts, i);
    }
    if StorageDeterminesSizes(ts) {
      forall i | 0 <= i < |ts| ensures |BackupsOf(ts)[KeyOf(ts[i])]| == |ts[i].data| { BackupsOfFirst(ts, i); }
    } else {
      var i, j :| 0 <= i < j < |ts| && SameStorage(ts[i], ts[j]) && |ts[i].data| != |ts[j].data|;
      SameCopy(ts, i, j);
      assert !(ValidTensor(Returned(ts, i)) && ValidTensor(Returned(ts, j)));
    }
  }

  /** How many of the first n dictionary entries belong to a group. */
  function Count(order: seq<Tag>, n: nat, group: nat): nat
    requires n <= |order|
  {
    if n == 0 then 0 else Count(order, n - 1, group) + if order[n - 1].group == group then 1 else 0
  }

  /** Dictionary order visits the tags of a group by increasing index. */
  ghost predicate InOrder(order: seq<Tag>) {
    forall a :: 0 <= a < |order| ==> order[a].index == Count(order, a, order[a].group)
  }

  ghost predicate SlotsInv(hosted: nat, state: map<Tag, Slot>, s: Script, done: nat) {
    && (forall tag :: tag in state <==> Live(s, tag))
    && (forall tag :: tag in state ==> Live(s, tag) && SlotInv(hosted, state[tag], s, done, tag))
  }

  ghost predicate SlotInv(hosted: nat, slot: Slot, s: Script, done: nat, tag: Tag)
    requires Live(s, tag)
  {
    var t := s.pushed[tag.group][tag.index];
    if OnHost(hosted, s, done, tag.group) then slot == Offloaded(KeyOf(t), t.shape)
    else if s.forward || tag.group >= hosted then slot == OnDevice(t)
    else slot == OnDevice(Returned(s.pushed[tag.group], tag.index))
  }

  ghost predicate BufInv(n: nat, buf: map<Tag, Option<Tensor>>, s: Script, done: nat) {
    && (forall tag :: tag in buf <==> Live(s, tag) && tag.group < n)
    && (forall tag :: tag in buf ==>
          if s.forward && tag.group >= done then Live(s, tag) && buf[tag] == Some(s.pushed[tag.group][tag.index])
          else buf[tag] == None)
  }

  ghost predicate MappingInv(n: nat, hosted: nat, mapping: map<nat, map<Key, seq<int>>>, s: Script, done: nat) {
    && (forall g: nat :: g in mapping <==> g < |s.pushed| && OnHost(n, s, done, g))
    && (forall g: nat :: g in mapping ==>
          g < |s.pushed| && mapping[g] == if g < hosted then BackupsOf(s.pushed[g]) else map[])
  }

  ghost predicate OrderInv(order: seq<Tag>, tags: set<Tag>, s: Script) {
    && Elements(order, tags)
    && (s.forward ==>
          InOrder(order) && forall g :: 0 <= g < |s.pushed| ==> Count(order, |order|, g) == |s.pushed[g]|)
  }

  /** Copies that the compute stream has not waited for: forward, of the group to be freed next; backward,
      of the group reloaded last. */
  ghost predicate StreamInv(n: nat, h: Handler, s: Script, done: nat) {
    && (forall g :: g in h.d2hPending ==> s.forward && g == done && s.group >= 1 && g < n)
    && (forall g :: g in h.h2dPending ==> !s.forward && g == done && s.group > 0)
  }

  ghost predicate ScriptInv(s: Script, numLayers: nat, hosted: nat) {
    && |s.pushed| == numLayers
    && s.group <= numLayers
    && (forall g :: 0 <= g < numLayers && g < hosted ==> GoodTensors(s.pushed[g]))
    && (s.forward ==> s.popped == {} && forall g :: s.group < g < numLayers ==> s.pushed[g] == [])
    && (!s.forward ==>
          && s.group < numLayers
          && (forall g :: s.group < g < numLayers ==> GroupPopped(s, g))
          && (forall tag :: tag in s.popped ==> s.group <= tag.group))
  }

  ghost predicate Counters(h: Handler, s: Script, done: nat) {
    && h.currentGroup == s.group
    && h.tensorCount == (if s.forward && s.group < |s.pushed| then |s.pushed[s.group]| else 0)
    && h.offloaded == (if s.forward then done else if s.group == 0 then 0 else if done > 1 then done else 1)
  }

  function HostGroups(h: Handler): nat {
    Hosted(h.numOffload, h.numLayers)
  }

  /** The part of the invariant that is about the maps. */
  ghost predicate MapsInv(h: Handler, s: Script, done: nat) {
    && SlotsInv(HostGroups(h), h.state, s, done)
    && BufInv(h.numOffload, h.buf, s, done)
    && MappingInv(h.numOffload, HostGroups(h), h.mapping, s, done)
    && OrderInv(h.order, h.state.Keys, s)
  }

  /** The part that is about groups and windows. */
  ghost predicate GroupsInv(h: Handler, s: Script, done: nat) {
    && Windows(h.window, h.numOffload, h.numLayers)
    && h.window == WindowMap(h.numOffload, h.numLayers)
    && ScriptInv(s, h.numLayers, HostGroups(h))
    && ClosedBefore(h.window, s.group, done)
    && Counters(h, s, done)
    && StreamInv(h.numOffload, h, s, done)
  }

  ghost predicate Inv(h: Handler, s: Script, done: nat) {
    GroupsInv(h, s, done) && MapsInv(h, s, done)
  }

  lemma StartInv(numOffload: nat, numLayers: nat)
    requires 0 < numOffload <= numLayers
    ensures Inv(Empty(numOffload, numLayers), Blank(numLayers), 0)
  {
    WindowMapFits(numOffload, numLayers);
  }

  // ---------------------------------------------------------------- pushes and pops

  lemma {:induction false} CountAppend(order: seq<Tag>, tag: Tag, n: nat, group: nat)
    requires n <= |order|
    ensures Count(order + [tag], n, group) == Count(order, n, group)
  {
    if n > 0 { CountAppend(order, tag, n - 1, group); }
  }

  lemma OrderPush(order: seq<Tag>, tag: Tag)
    requires InOrder(order) && tag.index == Count(order, |order|, tag.group)
    ensures InOrder(order + [tag])
    ensures forall g :: Count(order + [tag], |order| + 1, g) ==
                        Count(order, |order|, g) + if g == tag.group then 1 else 0
  {
    forall n, g | 0 <= n <= |order| ensures Count(order + [tag], n, g) == Count(order, n, g) {
      CountAppend(order, tag, n, g);
    }
  }

  /** The current group is never on the host. */
  lemma CurrentIsNotHosted(h: Handler, s: Script, done: nat)
    requires GroupsInv(h, s, done)
    ensures done <= s.group && !OnHost(HostGroups(h), s, done, s.group)
  {
  }

  /** One more tensor of the current group. */
  ghost predicate Pushed(s: Script, s': Script, t: Tensor) {
    && s.forward && s.group < |s.pushed| && s.popped == {}
    && s' == s.(pushed := s.pushed[s.group := s.pushed[s.group] + [t]])
  }

  lemma LiveAfterPush(s: Script, s': Script, t: Tensor)
    requires Pushed(s, s', t)
    ensures forall x :: Live(s', x) <==> Live(s, x) || x == Tag(s.group, |s.pushed[s.group]|)
    ensures forall x :: Live(s, x) ==> Live(s', x) && s'.pushed[x.group][x.index] == s.pushed[x.group][x.index]
    ensures s'.pushed[s.group][|s.pushed[s.group]|] == t
  {
  }

  lemma PushSlots(hosted: nat, state: map<Tag, Slot>, s: Script, done: nat, t: Tensor, s': Script)
    requires SlotsInv(hosted, state, s, done) && Pushed(s, s', t) && !OnHost(hosted, s, done, s.group)
    ensures SlotsInv(hosted, state[Tag(s.group, |s.pushed[s.group]|) := OnDevice(t)], s', done)
  {
    LiveAfterPush(s, s', t);
  }

  lemma PushBuf(n: nat, buf: map<Tag, Option<Tensor>>, s: Script, done: nat, t: Tensor, s': Script)
    requires BufInv(n, buf, s, done) && Pushed(s, s', t) && done <= s.group
    ensures BufInv(n, if s.group < n then buf[Tag(s.group, |s.pushed[s.group]|) := Some(t)] else buf, s', done)
  {
    LiveAfterPush(s, s', t);
  }

  lemma PushMapping(n: nat, hosted: nat, mapping: map<nat, map<Key, seq<int>>>, s: Script, done: nat, t: Tensor,
                    s': Script)
    requires MappingInv(n, hosted, mapping, s, done) && Pushed(s, s', t) && !OnHost(hosted, s, done, s.group)
    ensures MappingInv(n, hosted, mapping, s', done)
  {
  }

  lemma PushOrder(order: seq<Tag>, tags: set<Tag>, s: Script, t: Tensor, s': Script)
    requires OrderInv(order, tags, s) && Pushed(s, s', t)
    ensures var tag := Tag(s.group, |s.pushed[s.group]|);
            OrderInv(order + [tag], tags + {tag}, s')
  {
    OrderPush(order, Tag(s.group, |s.pushed[s.group]|));
  }

  lemma PushGroups(h: Handler, s: Script, done: nat, t: Tensor, s': Script, h': Handler)
    requires GroupsInv(h, s, done) && Pushed(s, s', t)
    requires s.group < HostGroups(h) ==> GoodTensors(s.pushed[s.group] + [t])
    requires h' == h.(tensorCount := h.tensorCount + 1, state := h'.state, order := h'.order, buf := h'.buf)
    ensures GroupsInv(h', s', done)
  {
  }

  lemma PushStep(h: Handler, s: Script, done: nat, t: Tensor)
    requires Inv(h, s, done) && Allowed(s, PushTensor(t))
    requires s.group < HostGroups(h) ==> GoodTensors(s.pushed[s.group] + [t])
    ensures Push(h, t).Ok? && Inv(Push(h, t).value, After(s, PushTensor(t)), done)
  {
    var s', tag := After(s, PushTensor(t)), Tag(s.group, |s.pushed[s.group]|);
    CurrentIsNotHosted(h, s, done);
    assert !Live(s, tag);
    var h' := Push(h, t).value;
    PushGroups(h, s, done, t, s', h');
    PushMaps(h, s, done, t, s', h');
  }

  /** The maps after a push under `tag`. */
  ghost predicate PushedMaps(h: Handler, tag: Tag, t: Tensor, h': Handler) {
    h' == h.(tensorCount := h.tensorCount + 1, state := h.state[tag := OnDevice(t)], order := h.order + [tag],
             buf := if tag.group < h.numOffload then h.buf[tag := Some(t)] else h.buf)
  }

  lemma PushMaps(h: Handler, s: Script, done: nat, t: Tensor, s': Script, h': Handler)
    requires MapsInv(h, s, done) && Pushed(s, s', t) && done <= s.group && !OnHost(HostGroups(h), s, done, s.group)
    requires PushedMaps(h, Tag(s.group, |s.pushed[s.group]|), t, h')
    ensures MapsInv(h', s', done)
  {
    PushSlotsAndOrder(h, s, done, t, s', h');
    PushBufAndMapping(h, s, done, t, s', h');
  }

  lemma PushSlotsAndOrder(h: Handler, s: Script, done: nat, t: Tensor, s': Script, h': Handler)
    requires SlotsInv(HostGroups(h), h.state, s, done) && OrderInv(h.order, h.state.Keys, s)
    requires Pushed(s, s', t) && !OnHost(HostGroups(h), s, done, s.group)
    requires PushedMaps(h, Tag(s.group, |s.pushed[s.group]|), t, h')
    ensures SlotsInv(HostGroups(h), h'.state, s', done) && OrderInv(h'.order, h'.state.Keys, s')
  {
    PushOrder(h.order, h.state.Keys, s, t, s');
    assert h'.state.Keys == h.state.Keys + {Tag(s.group, |s.pushed[s.group]|)};
    PushSlots(HostGroups(h), h.state, s, done, t, s');
  }

  lemma PushBufAndMapping(h: Handler, s: Script, done: nat, t: Tensor, s': Script, h': Handler)
    requires BufInv(h.numOffload, h.buf, s, done) && MappingInv(h.numOffload, HostGroups(h), h.mapping, s, done)
    requires Pushed(s, s', t) && done <= s.group && !OnHost(HostGroups(h), s, done, s.group)
    requires PushedMaps(h, Tag(s.group, |s.pushed[s.group]|), t, h')
    ensures BufInv(h.numOffload, h'.buf, s', done) && MappingInv(h.numOffload, HostGroups(h), h'.mapping, s', done)
  {
    PushBuf(h.numOffload, h.buf, s, done, t, s');
    PushMapping(h.numOffload, HostGroups(h), h.mapping, s, done, t, s');
  }

  /** A copy that the compute stream has not waited for is not that of the group being popped; with as many
      offload groups as layers such a "copy" may be pending for it, but then the group never left the device. */
  lemma PoppedGroupIsReady(h: Handler, s: Script, done: nat)
    requires GroupsInv(h, s, done) && !s.forward
    ensures !OnHost(HostGroups(h), s, done, s.group)
    ensures s.group in h.h2dPending ==> s.group >= HostGroups(h)
  {
    CurrentIsNotHosted(h, s, done);
  }

  lemma PopSlots(hosted: nat, state: map<Tag, Slot>, s: Script, done: nat, tag: Tag)
    requires SlotsInv(hosted, state, s, done) && !s.forward
    ensures SlotsInv(hosted, state - {tag}, s.(popped := s.popped + {tag}), done)
  {
    var s' := s.(popped := s.popped + {tag});
    assert forall x :: Live(s', x) <==> Live(s, x) && x != tag;
    forall x | x in state - {tag} ensures SlotInv(hosted, state[x], s', done, x) {
      assert SlotInv(hosted, state[x], s, done, x);
    }
  }

  lemma PopScript(s: Script, tag: Tag, numLayers: nat, hosted: nat)
    requires ScriptInv(s, numLayers, hosted) && Allowed(s, PopTensor(tag))
    ensures ScriptInv(After(s, PopTensor(tag)), numLayers, hosted)
  {
    var s' := After(s, PopTensor(tag));
    forall g | s'.group < g < numLayers ensures GroupPopped(s', g) {
      assert GroupPopped(s, g);
    }
  }

  /** What autograd gets for a tag: the pushed tensor, or what came back from the host for it. */
  ghost function Expected(hosted: nat, s: Script, tag: Tag): Tensor
    requires tag.group < |s.pushed| && tag.index < |s.pushed[tag.group]|
  {
    if tag.group < hosted then Returned(s.pushed[tag.group], tag.index) else s.pushed[tag.group][tag.index]
  }

  lemma PopGives(h: Handler, s: Script, done: nat, tag: Tag)
    requires Inv(h, s, done) && Allowed(s, PopTensor(tag))
    ensures tag in h.state && h.state[tag] == OnDevice(Expected(HostGroups(h), s, tag))
  {
    PoppedGroupIsReady(h, s, done);
    assert Live(s, tag) && SlotInv(HostGroups(h), h.state[tag], s, done, tag);
  }

  lemma PopMaps(h: Handler, s: Script, done: nat, tag: Tag, h': Handler)
    requires MapsInv(h, s, done) && Allowed(s, PopTensor(tag))
    requires h' == h.(state := h.state - {tag}, order := Without(h.order, tag), buf := h.buf - {tag})
    ensures MapsInv(h', s.(popped := s.popped + {tag}), done)
  {
    WithoutElements(h.order, tag);
    PopSlots(HostGroups(h), h.state, s, done, tag);
  }

  lemma PopStep(h: Handler, s: Script, done: nat, tag: Tag)
    requires Inv(h, s, done) && Allowed(s, PopTensor(tag))
    ensures Pop(h, tag).Ok? && Inv(Pop(h, tag).value.0, After(s, PopTensor(tag)), done)
    ensures Pop(h, tag).value.1 == Expected(HostGroups(h), s, tag)
  {
    PopGives(h, s, done, tag);
    PopMaps(h, s, done, tag, Pop(h, tag).value.0);
    PopScript(s, tag, h.numLayers, HostGroups(h));
  }

  // ---------------------------------------------------------------- forward commits

  /** The dictionary walk of bulk_offload_group backs up a group's tensors in the order they were pushed. */
  lemma {:induction false} BackupsFollowPushes(state: map<Tag, Slot>, order: seq<Tag>, group: nat, n: nat,
                                               ts: seq<Tensor>)
    requires n <= |order| && InOrder(order) && Count(order, n, group) <= |ts|
    requires forall a :: 0 <= a < n && order[a].group == group ==>
               order[a] in state && order[a].index < |ts| && state[order[a]] == OnDevice(ts[order[a].index])
    ensures Backups(state, order, group, n) == BackupsOf(ts[..Count(order, n, group)])
  {
    if n > 0 {
      var tag, k := order[n - 1], Count(order, n - 1, group);
      BackupsFollowPushes(state, order, group, n - 1, ts);
      if tag.group == group {
        assert tag.index == k;
        var upTo := ts[..k + 1];
        assert upTo[..k] == ts[..k] && upTo[k] == ts[k] && |upTo| == k + 1;
      }
    }
  }

  /** What offloading a group that is wholly on the device does. */
  lemma GroupGoesToHost(hosted: nat, state: map<Tag, Slot>, order: seq<Tag>, s: Script, done: nat, group: nat)
    requires SlotsInv(hosted, state, s, done) && OrderInv(order, state.Keys, s) && s.forward && group < |s.pushed|
    requires !OnHost(hosted, s, done, group)
    ensures forall tag :: tag in order && tag.group == group ==> tag in state && state[tag].OnDevice?
    ensures Backups(state, order, group, |order|) == BackupsOf(s.pushed[group])
  {
    var ts := s.pushed[group];
    forall a | 0 <= a < |order| && order[a].group == group
      ensures order[a] in state && order[a].index < |ts| && state[order[a]] == OnDevice(ts[order[a].index])
    {
      TagIsOnDevice(hosted, state, order, s, done, a);
    }
    WalkBacksUp(state, order, group, ts);
  }

  lemma WalkBacksUp(state: map<Tag, Slot>, order: seq<Tag>, group: nat, ts: seq<Tensor>)
    requires InOrder(order) && Count(order, |order|, group) == |ts|
    requires forall a :: 0 <= a < |order| && order[a].group == group ==>
               order[a] in state && order[a].index < |ts| && state[order[a]] == OnDevice(ts[order[a].index])
    ensures Backups(state, order, group, |order|) == BackupsOf(ts)
  {
    BackupsFollowPushes(state, order, group, |order|, ts);
    assert ts[..|ts|] == ts;
  }

  lemma TagIsOnDevice(hosted: nat, state: map<Tag, Slot>, order: seq<Tag>, s: Script, done: nat, a: nat)
    requires SlotsInv(hosted, state, s, done) && Elements(order, state.Keys) && s.forward && a < |order|
    requires !OnHost(hosted, s, done, order[a].group)
    ensures order[a] in state && Live(s, order[a])
    ensures state[order[a]] == OnDevice(s.pushed[order[a].group][order[a].index])
  {
    assert order[a] in state.Keys;
    assert SlotInv(hosted, state[order[a]], s, done, order[a]);
  }

  /** From (s, done) to (s', done') nothing moves but `group`, which joins the host groups if it is one of the n. */
  ghost predicate Joins(n: nat, s: Script, done: nat, group: nat, s': Script, done': nat) {
    && s.forward && s' == s.(group := s'.group) && group < |s.pushed| && !OnHost(n, s, done, group)
    && forall j: nat :: OnHost(n, s', done', j) <==> OnHost(n, s, done, j) || (j == group && j < n)
  }

  lemma OffloadSlots(hosted: nat, state: map<Tag, Slot>, s: Script, done: nat, group: nat, s': Script, done': nat)
    requires SlotsInv(hosted, state, s, done) && Joins(hosted, s, done, group, s', done')
    requires group >= hosted ==> s.pushed[group] == []
    ensures SlotsInv(hosted, SwappedOut(state, group), s', done')
  {
    var state' := SwappedOut(state, group);
    forall tag | tag in state' ensures Live(s', tag) && SlotInv(hosted, state'[tag], s', done', tag) {
      assert SlotInv(hosted, state[tag], s, done, tag);
    }
  }

  lemma OffloadMapping(n: nat, hosted: nat, mapping: map<nat, map<Key, seq<int>>>, s: Script, done: nat, group: nat,
                       s': Script, done': nat)
    requires MappingInv(n, hosted, mapping, s, done) && Joins(n, s, done, group, s', done') && group < n
    requires group >= hosted ==> s.pushed[group] == []
    ensures MappingInv(n, hosted, mapping[group := BackupsOf(s.pushed[group])], s', done')
  {
  }

  lemma ReleaseBuf(n: nat, buf: map<Tag, Option<Tensor>>, s: Script, done: nat, s': Script)
    requires BufInv(n, buf, s, done) && s.forward && s' == s.(group := s'.group)
    ensures BufInv(n, Release(buf, done), s', done + 1)
  {
    assert forall tag :: Live(s', tag) <==> Live(s, tag);
  }

  lemma KeepBuf(n: nat, buf: map<Tag, Option<Tensor>>, s: Script, done: nat, s': Script)
    requires BufInv(n, buf, s, done) && s' == s.(group := s'.group)
    ensures BufInv(n, buf, s', done)
  {
    assert forall tag :: Live(s', tag) <==> Live(s, tag);
  }

  /** The group counter moves on, and no group changes sides. */
  ghost predicate Stays(n: nat, s: Script, done: nat, s': Script, done': nat) {
    && s' == s.(group := s'.group)
    && forall j: nat :: OnHost(n, s', done', j) <==> OnHost(n, s, done, j)
  }

  lemma KeepSlots(hosted: nat, state: map<Tag, Slot>, s: Script, done: nat, s': Script, done': nat)
    requires SlotsInv(hosted, state, s, done) && Stays(hosted, s, done, s', done')
    ensures SlotsInv(hosted, state, s', done')
  {
    forall tag | tag in state ensures Live(s', tag) && SlotInv(hosted, state[tag], s', done', tag) {
      assert SlotInv(hosted, state[tag], s, done, tag);
    }
  }

  lemma KeepMapping(n: nat, hosted: nat, mapping: map<nat, map<Key, seq<int>>>, s: Script, done: nat, s': Script,
                    done': nat)
    requires MappingInv(n, hosted, mapping, s, done) && Stays(n, s, done, s', done')
    ensures MappingInv(n, hosted, mapping, s', done')
  {
  }

  /** Everything but the state and mapping changes of one offload. */
  ghost predicate Offloads(h: Handler, group: nat, h': Handler) {
    && h'.numOffload == h.numOffload && h'.numLayers == h.numLayers && h'.order == h.order
    && h'.state == SwappedOut(h.state, group)
    && h'.mapping == h.mapping[group := Backups(h.state, h.order, group, |h.order|)]
  }

  /** One group is offloaded; the buffers stay as they are, or those of group `done` are released. */
  lemma OffloadMaps(h: Handler, s: Script, done: nat, group: nat, s': Script, done': nat, h': Handler)
    requires MapsInv(h, s, done) && Offloads(h, group, h')
    requires Joins(HostGroups(h), s, done, group, s', done') && Joins(h.numOffload, s, done, group, s', done')
    requires group < h.numOffload && (group >= HostGroups(h) ==> s.pushed[group] == [])
    requires (h'.buf == h.buf && done' == done) || (h'.buf == Release(h.buf, done) && done' == done + 1)
    ensures MapsInv(h', s', done')
  {
    var hosted := HostGroups(h);
    GroupGoesToHost(hosted, h.state, h.order, s, done, group);
    OffloadSlots(hosted, h.state, s, done, group, s', done');
    OffloadMapping(h.numOffload, hosted, h.mapping, s, done, group, s', done');
    if done' == done {
      KeepBuf(h.numOffload, h.buf, s, done, s');
    } else {
      ReleaseBuf(h.numOffload, h.buf, s, done, s');
    }
    assert h'.state.Keys == h.state.Keys;
  }

  lemma ForwardScript(s: Script, numLayers: nat, hosted: nat)
    requires ScriptInv(s, numLayers, hosted) && Allowed(s, Forward)
    ensures ScriptInv(After(s, Forward), numLayers, hosted)
    ensures forall g :: s.group < g < numLayers ==> s.pushed[g] == []
    ensures s.group + 1 < numLayers ==> After(s, Forward).pushed[s.group + 1] == []
  {
  }

  /** The groups and windows after a forward commit that leaves `done'` windows closed. */
  lemma ForwardGroups(h: Handler, s: Script, done: nat, done': nat, h': Handler)
    requires GroupsInv(h, s, done) && Allowed(s, Forward)
    requires h' == h.(currentGroup := h.currentGroup + 1, tensorCount := 0, offloaded := done', state := h'.state,
                      buf := h'.buf, mapping := h'.mapping, d2hPending := h'.d2hPending)
    requires done' <= |h.window| && (done' > 0 ==> h.window[done' - 1] <= s.group)
    requires done' < |h.window| ==> s.group < h.window[done']
    requires forall g :: g in h'.d2hPending ==> g == done' && g < h.numOffload
    ensures GroupsInv(h', After(s, Forward), done')
  {
    ForwardScript(s, h.numLayers, HostGroups(h));
  }

  /** No commit of the forward pass looks past the end of the window map. */
  lemma WindowIsOpen(w: seq<int>, numOffload: nat, numLayers: nat, group: nat, done: nat)
    requires Windows(w, numOffload, numLayers) && ClosedBefore(w, group, done) && group < numLayers
    ensures done < numOffload && w[done] >= group
  {
  }

  /** The fields after the first forward commit of an iteration, when no window closes with it. */
  ghost predicate Kicked(h: Handler, h': Handler) {
    h' == h.(currentGroup := h.currentGroup + 1, tensorCount := 0,
             state := SwappedOut(h.state, 0),
             mapping := h.mapping[0 := Backups(h.state, h.order, 0, |h.order|)],
             d2hPending := h.d2hPending + {0})
  }

  lemma FirstForwardEffect(h: Handler)
    requires h.currentGroup == 0 && AllOnDevice(h, 0) && h.offloaded == 0 < |h.window| && h.window[0] != 0
    ensures CommitForward(h).Ok? && Kicked(h, CommitForward(h).value)
  {
  }

  lemma FirstGroupJoins(n: nat, s: Script)
    requires s.forward && s.group == 0 < |s.pushed| && 0 < n
    ensures Joins(n, s, 0, 0, s.(group := 1), 0)
  {
  }

  /** The first commit starts the offload of group 0; no window closes yet. */
  lemma FirstForwardStep(h: Handler, s: Script, done: nat)
    requires Inv(h, s, done) && Allowed(s, Forward) && s.group == 0 && h.window[0] != 0
    ensures CommitForward(h).Ok? && Inv(CommitForward(h).value, After(s, Forward), 0)
  {
    assert done == 0;
    FirstGroupJoins(HostGroups(h), s);
    FirstGroupJoins(h.numOffload, s);
    GroupGoesToHost(HostGroups(h), h.state, h.order, s, 0, 0);
    FirstForwardEffect(h);
    KickedInv(h, s, CommitForward(h).value);
  }

  lemma KickedInv(h: Handler, s: Script, h': Handler)
    requires Inv(h, s, 0) && Allowed(s, Forward) && s.group == 0 && h.window[0] != 0 && Kicked(h, h')
    requires Joins(HostGroups(h), s, 0, 0, After(s, Forward), 0) && Joins(h.numOffload, s, 0, 0, After(s, Forward), 0)
    ensures Inv(h', After(s, Forward), 0)
  {
    ForwardGroups(h, s, 0, 0, h');
    OffloadMaps(h, s, 0, 0, After(s, Forward), 0, h');
  }

  /** A commit inside a window only moves the group counter. */
  lemma QuietForwardStep(h: Handler, s: Script, done: nat)
    requires Inv(h, s, done) && Allowed(s, Forward) && s.group > 0
    requires done < |h.window| && h.window[done] != s.group
    ensures CommitForward(h).Ok? && Inv(CommitForward(h).value, After(s, Forward), done)
  {
    var h', s' := CommitForward(h).value, After(s, Forward);
    ForwardGroups(h, s, done, done, h');
    KeepMaps(h, s, done, s', done, h');
  }

  lemma KeepMaps(h: Handler, s: Script, done: nat, s': Script, done': nat, h': Handler)
    requires MapsInv(h, s, done) && Stays(HostGroups(h), s, done, s', done') && Stays(h.numOffload, s, done, s', done')
    requires h'.numOffload == h.numOffload && h'.numLayers == h.numLayers
    requires h'.state == h.state && h'.order == h.order && h'.mapping == h.mapping
    requires (h'.buf == h.buf && done' == done) || (s.forward && h'.buf == Release(h.buf, done) && done' == done + 1)
    ensures MapsInv(h', s', done')
  {
    KeepSlots(HostGroups(h), h.state, s, done, s', done');
    KeepMapping(h.numOffload, HostGroups(h), h.mapping, s, done, s', done');
    if done' == done {
      KeepBuf(h.numOffload, h.buf, s, done, s');
    } else {
      ReleaseBuf(h.numOffload, h.buf, s, done, s');
    }
  }

  /** The fields after a forward commit that closes a window, with `next` the group it offloads, if any. */
  ghost predicate Closed(h: Handler, next: Option<nat>, h': Handler) {
    && h' == h.(currentGroup := h.currentGroup + 1, tensorCount := 0, offloaded := h.offloaded + 1,
                buf := Release(h.buf, h.offloaded), state := h'.state, mapping := h'.mapping,
                d2hPending := match next case None => {} case Some(g) => {g})
    && match next
       case None => h'.state == h.state && h'.mapping == h.mapping
       case Some(g) => Offloads(h, g, h')
  }

  lemma CloseWindowEffect(h: Handler, group: nat)
    requires 0 < group && h.offloaded + 1 == group < h.numOffload == |h.window| && h.currentGroup > 0
    requires h.window[group - 1] == h.currentGroup && AllOnDevice(h, group)
    ensures CommitForward(h).Ok? && Closed(h, Some(group), CommitForward(h).value)
  {
  }

  lemma LastWindowEffect(h: Handler)
    requires 0 <= h.offloaded && h.offloaded + 1 == h.numOffload == |h.window| && h.currentGroup > 0
    requires h.window[h.offloaded] == h.currentGroup
    ensures CommitForward(h).Ok? && Closed(h, None, CommitForward(h).value)
  {
  }

  /** A window closes: group `done` is freed, and group `done + 1` is offloaded. Where windows run ahead that
      group is complete by now; otherwise it has yet to push its first tensor. */
  lemma NextGroupJoins(h: Handler, s: Script, done: nat, s': Script)
    requires GroupsInv(h, s, done) && Allowed(s, Forward) && s' == s.(group := s'.group) && s'.group >= 1
    requires done + 1 < h.numOffload && h.window[done] == s.group && s.group > 0
    ensures Joins(HostGroups(h), s, done, done + 1, s', done + 1)
            && Joins(h.numOffload, s, done, done + 1, s', done + 1)
    ensures done + 1 >= HostGroups(h) ==> s.pushed[done + 1] == []
  {
  }

  lemma WindowStep(h: Handler, s: Script, done: nat)
    requires Inv(h, s, done) && Allowed(s, Forward) && s.group > 0
    requires done + 1 < h.numOffload && h.window[done] == s.group
    ensures CommitForward(h).Ok? && Inv(CommitForward(h).value, After(s, Forward), done + 1)
  {
    NextGroupJoins(h, s, done, After(s, Forward));
    GroupGoesToHost(HostGroups(h), h.state, h.order, s, done, done + 1);
    CloseWindowEffect(h, done + 1);
    ClosedInv(h, s, done, CommitForward(h).value);
  }

  lemma ClosedInv(h: Handler, s: Script, done: nat, h': Handler)
    requires Inv(h, s, done) && Allowed(s, Forward) && s.group > 0
    requires done + 1 < h.numOffload && h.window[done] == s.group
    requires Closed(h, Some(done + 1), h')
    ensures Inv(h', After(s, Forward), done + 1)
  {
    NextGroupJoins(h, s, done, After(s, Forward));
    ForwardGroups(h, s, done, done + 1, h');
    OffloadMaps(h, s, done, done + 1, After(s, Forward), done + 1, h');
  }

  /** The last window frees the last offloaded group and offloads nothing. */
  lemma LastWindowStep(h: Handler, s: Script, done: nat)
    requires Inv(h, s, done) && Allowed(s, Forward) && s.group > 0
    requires done + 1 == h.numOffload && h.window[done] == s.group
    ensures CommitForward(h).Ok? && Inv(CommitForward(h).value, After(s, Forward), done + 1)
  {
    LastWindowEffect(h);
    LastClosedInv(h, s, done, CommitForward(h).value);
  }

  lemma LastClosedInv(h: Handler, s: Script, done: nat, h': Handler)
    requires Inv(h, s, done) && Allowed(s, Forward) && s.group > 0
    requires done + 1 == h.numOffload && h.window[done] == s.group && Closed(h, None, h')
    ensures Inv(h', After(s, Forward), done + 1)
  {
    ForwardGroups(h, s, done, done + 1, h');
    KeepMaps(h, s, done, After(s, Forward), done + 1, h');
  }

  // As many offload groups as layers: the first commit starts the offload of group 0 and closes its window.

  /** The fields between the kick-off and the closing of the window in the first commit. */
  function Kick(h: Handler): Handler {
    h.(state := SwappedOut(h.state, 0), mapping := h.mapping[0 := Backups(h.state, h.order, 0, |h.order|)],
       d2hPending := h.d2hPending + {0})
  }

  lemma FirstWindowEffect(h: Handler)
    requires h.currentGroup == 0 && AllOnDevice(h, 0)
    requires h.offloaded == 0 < |h.window| == h.numOffload && h.window[0] == 0
    requires h.numOffload > 1 ==> AllOnDevice(Kick(h), 1)
    ensures CommitForward(h).Ok?
    ensures Closed(Kick(h), if h.numOffload > 1 then Some(1) else None, CommitForward(h).value)
  {
  }

  lemma KickKeepsMaps(h: Handler, s: Script)
    requires MapsInv(h, s, 0) && Allowed(s, Forward) && s.group == 0 && 0 < h.numOffload
    ensures MapsInv(Kick(h), After(s, Forward), 0)
  {
    FirstGroupJoins(HostGroups(h), s);
    FirstGroupJoins(h.numOffload, s);
    OffloadMaps(h, s, 0, 0, After(s, Forward), 0, Kick(h));
  }

  lemma FirstWindowMaps(h: Handler, s: Script, s': Script, h': Handler)
    requires MapsInv(h, s', 0) && s'.forward && s'.group == 1
    requires 1 <= h.numOffload == h.numLayers && (h.numOffload > 1 ==> 1 < |s'.pushed| && s'.pushed[1] == [])
    requires Closed(h, if h.numOffload > 1 then Some(1) else None, h') && h.offloaded == 0
    ensures MapsInv(h', s', 1)
  {
    if h.numOffload > 1 {
      OffloadMaps(h, s', 0, 1, s', 1, h');
    } else {
      KeepMaps(h, s', 0, s', 1, h');
    }
  }

  /** Both groups that the first commit offloads are wholly on the device. */
  lemma FirstGroupsAreReady(h: Handler, s: Script)
    requires MapsInv(h, s, 0) && Allowed(s, Forward) && s.group == 0 && h.numOffload == h.numLayers == |s.pushed|
    ensures AllOnDevice(h, 0) && (h.numOffload > 1 ==> AllOnDevice(Kick(h), 1))
  {
    GroupGoesToHost(HostGroups(h), h.state, h.order, s, 0, 0);
    if h.numOffload > 1 {
      KickKeepsMaps(h, s);
      GroupGoesToHost(HostGroups(h), Kick(h).state, h.order, After(s, Forward), 0, 1);
    }
  }

  lemma FirstClosedInv(h: Handler, s: Script, h': Handler)
    requires Inv(h, s, 0) && Allowed(s, Forward) && s.group == 0 && h.window[0] == 0 && h.numOffload == h.numLayers
    requires Closed(Kick(h), if h.numOffload > 1 then Some(1) else None, h')
    ensures Inv(h', After(s, Forward), 1)
  {
    KickKeepsMaps(h, s);
    ForwardScript(s, h.numLayers, HostGroups(h));
    FirstWindowMaps(Kick(h), s, After(s, Forward), h');
    ForwardGroups(h, s, 0, 1, h');
  }

  lemma FirstWindowStep(h: Handler, s: Script, done: nat)
    requires Inv(h, s, done) && Allowed(s, Forward) && s.group == 0 && h.window[0] == 0
    ensures CommitForward(h).Ok? && Inv(CommitForward(h).value, After(s, Forward), 1)
  {
    FirstGroupsAreReady(h, s);
    FirstWindowEffect(h);
    FirstClosedInv(h, s, CommitForward(h).value);
  }

  lemma ForwardStep(h: Handler, s: Script, done: nat)
    requires Inv(h, s, done) && Allowed(s, Forward)
    ensures CommitForward(h).Ok? && exists d: nat :: Inv(CommitForward(h).value, After(s, Forward), d)
  {
    WindowIsOpen(h.window, h.numOffload, h.numLayers, s.group, done);
    if s.group == 0 && h.window[0] == 0 { FirstWindowStep(h, s, done); }
    else if s.group == 0 { FirstForwardStep(h, s, done); }
    else if h.window[done] != s.group { QuietForwardStep(h, s, done); }
    else if done + 1 == h.numOffload { LastWindowStep(h, s, done); }
    else { WindowStep(h, s, done); }
  }

  // ---------------------------------------------------------------- backward commits

  /** `group` leaves the host groups, if it is one of the n, when the backward pass reaches its window. */
  ghost predicate Leaves(n: nat, s: Script, done: nat, s': Script, group: nat) {
    && s' == s.(forward := false, group := s'.group)
    && done == group + 1 && group < |s.pushed|
    && (group < n ==> OnHost(n, s, done, group))
    && forall j: nat :: OnHost(n, s', group, j) <==> OnHost(n, s, done, j) && j != group
  }

  /** Going backward no group below n is on the device before it comes back. */
  ghost predicate AllAway(n: nat, s: Script, done: nat) {
    s.forward ==> forall j: nat :: j < n ==> OnHost(n, s, done, j)
  }

  lemma GroupComesBack(hosted: nat, state: map<Tag, Slot>, s: Script, done: nat, group: nat)
    requires SlotsInv(hosted, state, s, done) && group < |s.pushed|
    requires group < hosted ==> OnHost(hosted, s, done, group) && GoodTensors(s.pushed[group])
    requires group >= hosted ==> !OnHost(hosted, s, done, group)
    ensures var backups := if group < hosted then BackupsOf(s.pushed[group]) else map[];
            && CanViewAll(state, group, backups)
            && forall tag :: tag in state && tag.group == group ==>
                 Live(s, tag) && Recovered(state[tag], backups) == OnDevice(Expected(hosted, s, tag))
  {
    var backups := if group < hosted then BackupsOf(s.pushed[group]) else map[];
    forall tag | tag in state && tag.group == group
      ensures Live(s, tag) && CanView(state[tag], backups)
      ensures Recovered(state[tag], backups) == OnDevice(Expected(hosted, s, tag))
    {
      assert SlotInv(hosted, state[tag], s, done, tag);
      if group < hosted { BackupsOfFirst(s.pushed[group], tag.index); }
    }
  }

  lemma ReloadSlots(hosted: nat, state: map<Tag, Slot>, s: Script, done: nat, s': Script, group: nat,
                    backups: map<Key, seq<int>>)
    requires SlotsInv(hosted, state, s, done) && Leaves(hosted, s, done, s', group) && AllAway(hosted, s, done)
    requires group < hosted ==> GoodTensors(s.pushed[group])
    requires backups == if group < hosted then BackupsOf(s.pushed[group]) else map[]
    ensures CanViewAll(state, group, backups) && SlotsInv(hosted, SwappedIn(state, group, backups), s', group)
  {
    GroupComesBack(hosted, state, s, done, group);
    var state' := SwappedIn(state, group, backups);
    forall tag | tag in state' ensures Live(s', tag) && SlotInv(hosted, state'[tag], s', group, tag) {
      assert Live(s, tag) && SlotInv(hosted, state[tag], s, done, tag);
    }
  }

  lemma ReloadMapping(n: nat, hosted: nat, mapping: map<nat, map<Key, seq<int>>>, s: Script, done: nat, s': Script,
                      group: nat)
    requires MappingInv(n, hosted, mapping, s, done) && Leaves(n, s, done, s', group) && group < n
    ensures group in mapping && mapping[group] == (if group < hosted then BackupsOf(s.pushed[group]) else map[])
    ensures MappingInv(n, hosted, mapping - {group}, s', group)
  {
  }

  lemma BackwardScript(s: Script, numLayers: nat, hosted: nat)
    requires ScriptInv(s, numLayers, hosted) && Allowed(s, Backward)
    ensures ScriptInv(After(s, Backward), numLayers, hosted)
  {
    var s' := After(s, Backward);
    forall g | s'.group < g < numLayers ensures GroupPopped(s', g) {
      if g != s.group { assert GroupPopped(s, g); }
    }
  }

  /** After the last forward commit every window is closed and no copy to the host is outstanding. */
  lemma AllClosed(h: Handler, s: Script, done: nat)
    requires GroupsInv(h, s, done) && s.forward && s.group == |s.pushed|
    ensures done == h.numOffload && h.d2hPending == {} && h.h2dPending == {}
  {
  }

  lemma BackwardBuf(n: nat, buf: map<Tag, Option<Tensor>>, s: Script, done: nat, s': Script, done': nat)
    requires BufInv(n, buf, s, done) && (s.forward ==> done == n) && s' == s.(forward := false, group := s'.group)
    ensures BufInv(n, buf, s', done')
  {
    assert forall tag :: Live(s', tag) <==> Live(s, tag);
  }

  /** The fields after a backward commit that opens a window. */
  ghost predicate Opened(h: Handler, group: nat, h': Handler) {
    && group in h.mapping && CanViewAll(h.state, group, h.mapping[group])
    && var last := h.currentGroup == 1;
    && h' == h.(currentGroup := h.currentGroup - 1,
                state := SwappedIn(h.state, group, h.mapping[group]),
                mapping := h.mapping - {group},
                h2dPending := if last then {} else {group},
                offloaded := if last then 0 else if h.offloaded > 1 then h.offloaded - 1 else h.offloaded)
  }

  lemma OpenWindowEffect(h: Handler, group: nat)
    requires h.offloaded == group + 1 && group < h.numOffload == |h.window| && h.currentGroup > 0
    requires h.window[group] == h.currentGroup - 1
    requires group in h.mapping && CanViewAll(h.state, group, h.mapping[group])
    ensures CommitBackward(h).Ok? && Opened(h, group, CommitBackward(h).value)
  {
  }

  lemma OpenedLeaves(h: Handler, s: Script, done: nat)
    requires GroupsInv(h, s, done) && Allowed(s, Backward) && 0 < done && h.window[done - 1] == s.group - 1
    ensures var s' := After(s, Backward);
            && Leaves(HostGroups(h), s, done, s', done - 1) && Leaves(h.numOffload, s, done, s', done - 1)
            && AllAway(HostGroups(h), s, done)
  {
    if s.forward { AllClosed(h, s, done); }
  }

  /** A window opens again: the group that it freed comes back before any of its tensors is needed. */
  lemma OpenWindowStep(h: Handler, s: Script, done: nat)
    requires Inv(h, s, done) && Allowed(s, Backward) && 0 < done && h.window[done - 1] == s.group - 1
    ensures CommitBackward(h).Ok? && Inv(CommitBackward(h).value, After(s, Backward), done - 1)
  {
    var s', group := After(s, Backward), done - 1;
    OpenedLeaves(h, s, done);
    ReloadMapping(h.numOffload, HostGroups(h), h.mapping, s, done, s', group);
    ReloadSlots(HostGroups(h), h.state, s, done, s', group, h.mapping[group]);
    OpenWindowEffect(h, group);
    OpenedMaps(h, s, done, CommitBackward(h).value);
    OpenedGroups(h, s, done, CommitBackward(h).value);
  }

  lemma OpenedMaps(h: Handler, s: Script, done: nat, h': Handler)
    requires Inv(h, s, done) && Allowed(s, Backward) && 0 < done && h.window[done - 1] == s.group - 1
    requires Opened(h, done - 1, h')
    ensures MapsInv(h', After(s, Backward), done - 1)
  {
    OpenedLeaves(h, s, done);
    ReloadMapping(h.numOffload, HostGroups(h), h.mapping, s, done, After(s, Backward), done - 1);
    OpenedSlots(h, s, done, After(s, Backward), h');
    if s.forward { AllClosed(h, s, done); }
    OpenedBufAndOrder(h, s, done, After(s, Backward), h');
  }

  lemma OpenedSlots(h: Handler, s: Script, done: nat, s': Script, h': Handler)
    requires SlotsInv(HostGroups(h), h.state, s, done)
    requires 0 < done && Opened(h, done - 1, h')
    requires Leaves(HostGroups(h), s, done, s', done - 1) && AllAway(HostGroups(h), s, done)
    requires done - 1 < HostGroups(h) ==> GoodTensors(s.pushed[done - 1])
    requires h.mapping[done - 1] == if done - 1 < HostGroups(h) then BackupsOf(s.pushed[done - 1]) else map[]
    ensures SlotsInv(HostGroups(h), h'.state, s', done - 1)
  {
    ReloadSlots(HostGroups(h), h.state, s, done, s', done - 1, h.mapping[done - 1]);
  }

  lemma OpenedBufAndOrder(h: Handler, s: Script, done: nat, s': Script, h': Handler)
    requires BufInv(h.numOffload, h.buf, s, done) && OrderInv(h.order, h.state.Keys, s)
    requires 0 < done && Opened(h, done - 1, h')
    requires (s.forward ==> done == h.numOffload) && s' == s.(forward := false, group := s'.group)
    ensures BufInv(h.numOffload, h'.buf, s', done - 1) && OrderInv(h'.order, h'.state.Keys, s')
  {
    BackwardBuf(h.numOffload, h.buf, s, done, s', done - 1);
    assert h'.state.Keys == h.state.Keys;
  }

  lemma OpenedGroups(h: Handler, s: Script, done: nat, h': Handler)
    requires GroupsInv(h, s, done) && Allowed(s, Backward) && 0 < done && h.window[done - 1] == s.group - 1
    requires Opened(h, done - 1, h')
    ensures GroupsInv(h', After(s, Backward), done - 1)
  {
    if s.forward { AllClosed(h, s, done); }
    BackwardScript(s, h.numLayers, HostGroups(h));
  }

  /** The fields after a backward commit that only moves the group counter. */
  ghost predicate SteppedBack(h: Handler, h': Handler) {
    var last := h.currentGroup == 1;
    h' == h.(currentGroup := h.currentGroup - 1,
             h2dPending := if last then {} else h.h2dPending, offloaded := if last then 0 else h.offloaded)
  }

  lemma QuietBackwardEffect(h: Handler)
    requires h.currentGroup > 0 && 0 < h.offloaded <= |h.window| && h.window[h.offloaded - 1] != h.currentGroup - 1
    ensures CommitBackward(h).Ok? && SteppedBack(h, CommitBackward(h).value)
  {
  }

  lemma QuietGroups(h: Handler, s: Script, done: nat, h': Handler)
    requires GroupsInv(h, s, done) && Allowed(s, Backward) && !s.forward && SteppedBack(h, h')
    requires done > 0 ==> h.window[done - 1] != s.group - 1
    ensures GroupsInv(h', After(s, Backward), done)
  {
    BackwardScript(s, h.numLayers, HostGroups(h));
  }

  lemma QuietMaps(h: Handler, s: Script, done: nat, s': Script, h': Handler)
    requires MapsInv(h, s, done) && !s.forward && s' == s.(group := s'.group) && SteppedBack(h, h')
    ensures MapsInv(h', s', done)
  {
    KeepSlots(HostGroups(h), h.state, s, done, s', done);
    KeepMapping(h.numOffload, HostGroups(h), h.mapping, s, done, s', done);
    KeepBuf(h.numOffload, h.buf, s, done, s');
  }

  /** Going backward starts with the last window opening. */
  lemma TurnOpensAWindow(h: Handler, s: Script, done: nat)
    requires GroupsInv(h, s, done) && Allowed(s, Backward) && s.forward
    ensures done > 0 && h.window[done - 1] == s.group - 1
  {
    AllClosed(h, s, done);
  }

  /** Until group 0 is reached, the counter points into the window map. */
  lemma QuietWindow(h: Handler, s: Script, done: nat)
    requires GroupsInv(h, s, done) && Allowed(s, Backward) && !s.forward
    requires done > 0 ==> h.window[done - 1] != s.group - 1
    ensures 0 < h.offloaded <= |h.window| && h.window[h.offloaded - 1] != h.currentGroup - 1
  {
  }

  lemma QuietBackwardStep(h: Handler, s: Script, done: nat)
    requires Inv(h, s, done) && Allowed(s, Backward) && !s.forward && (done > 0 ==> h.window[done - 1] != s.group - 1)
    ensures CommitBackward(h).Ok? && Inv(CommitBackward(h).value, After(s, Backward), done)
  {
    QuietWindow(h, s, done);
    QuietBackwardEffect(h);
    QuietGroups(h, s, done, CommitBackward(h).value);
    QuietMaps(h, s, done, After(s, Backward), CommitBackward(h).value);
  }

  lemma BackwardStep(h: Handler, s: Script, done: nat)
    requires Inv(h, s, done) && Allowed(s, Backward)
    ensures CommitBackward(h).Ok? && exists d: nat :: Inv(CommitBackward(h).value, After(s, Backward), d)
  {
    if s.forward { TurnOpensAWindow(h, s, done); }
    if done > 0 && h.window[done - 1] == s.group - 1 {
      OpenWindowStep(h, s, done);
    } else {
      QuietBackwardStep(h, s, done);
    }
  }

  // ---------------------------------------------------------------- one iteration after the other

  lemma FirstIsElement(order: seq<Tag>, tags: set<Tag>)
    requires Elements(order, tags)
    ensures order != [] ==> tags != {}
  {
    if order != [] { assert order[0] in order; }
  }

  lemma NothingIsLive(s: Script, numLayers: nat, hosted: nat)
    requires ScriptInv(s, numLayers, hosted) && Allowed(s, NextIteration)
    ensures forall tag :: !Live(s, tag)
  {
    forall tag ensures !Live(s, tag) {
      if tag.group < |s.pushed| && tag.index < |s.pushed[tag.group]| { assert GroupPopped(s, tag.group); }
    }
  }

  lemma EmptyMaps(h: Handler, s: Script)
    requires MapsInv(h, s, 0) && !s.forward && forall tag :: !Live(s, tag)
    ensures h.state == map[] && h.buf == map[] && h.mapping == map[] && h.order == []
  {
    assert h.state.Keys == {};
    assert h.buf.Keys == {};
    assert h.mapping.Keys == {};
    FirstIsElement(h.order, h.state.Keys);
  }

  lemma NothingOpen(h: Handler, s: Script, done: nat)
    requires GroupsInv(h, s, done) && Allowed(s, NextIteration)
    ensures done == 0 && h.d2hPending == {} && h.h2dPending == {}
  {
  }

  /** When the last tensor is popped, everything is back to where the iteration began. */
  lemma IterationLeavesNothing(h: Handler, s: Script, done: nat)
    requires Inv(h, s, done) && Allowed(s, NextIteration)
    ensures h == Empty(h.numOffload, h.numLayers)
  {
    NothingOpen(h, s, done);
    NothingIsLive(s, h.numLayers, HostGroups(h));
    EmptyMaps(h, s);
  }

  lemma NextIterationStep(h: Handler, s: Script, done: nat)
    requires Inv(h, s, done) && Allowed(s, NextIteration)
    ensures Inv(h, After(s, NextIteration), 0)
  {
    IterationLeavesNothing(h, s, done);
    StartInv(h.numOffload, h.numLayers);
  }

  /** Every event autograd may cause succeeds and keeps the invariant. */
  lemma EventStep(h: Handler, s: Script, done: nat, e: Event)
    requires Inv(h, s, done) && Allowed(s, e)
    requires e.PushTensor? && s.group < HostGroups(h) ==> GoodTensors(s.pushed[s.group] + [e.tensor])
    ensures React(h, e).Ok? && exists d: nat :: Inv(React(h, e).value, After(s, e), d)
  {
    match e
    case PushTensor(t) => PushStep(h, s, done, t);
    case Forward => ForwardStep(h, s, done);
    case Backward => BackwardStep(h, s, done);
    case PopTensor(tag) => PopStep(h, s, done, tag);
    case NextIteration => NextIterationStep(h, s, done);
  }
}
