/**
 verl/utils/activation_offload.py, AsyncDoubleBufferGroupOffloadHandler: what each method does to the
 handler's bookkeeping, as functions on a snapshot of its fields.
 */
module OffloadSpec {
  import opened Arithmetic
  import opened Orders
  import opened Rows
  import opened Wrappers

  /** A tensor by its storage address, its offset in elements, and its contents in row-major order. */
  datatype Tensor = Tensor(address: nat, offset: nat, dtype: string, shape: seq<nat>, data: seq<int>)

  datatype Key = Key(address: nat, dtype: string)

  datatype Tag = Tag(group: nat, index: nat)

  /** tensor_tag_to_state: a tensor, or (key, shape) once the group is offloaded. */
  datatype Slot = OnDevice(tensor: Tensor) | Offloaded(key: Key, shape: seq<nat>)

  datatype Fault = TagInUse | UnknownTag | StillOffloaded | NotATensor | WindowKeyError | GroupKeyError
                 | NegativeGroup | BadView

  /**
   `order` is the insertion order of tensor_tag_to_state. d2hPending and h2dPending are the groups whose
   copies were enqueued on the copy streams and that the compute stream has not waited for.
   */
  datatype Handler = Handler(
    numOffload: nat, numLayers: nat, window: seq<int>,
    currentGroup: int, tensorCount: nat,
    state: map<Tag, Slot>, order: seq<Tag>, buf: map<Tag, Option<Tensor>>,
    mapping: map<nat, map<Key, seq<int>>>, offloaded: int,
    d2hPending: set<nat>, h2dPending: set<nat>)

  predicate ValidTensor(t: Tensor) {
    |t.data| == Numel(t.shape)
  }

  /** _get_unique_tensor_key */
  function KeyOf(t: Tensor): Key {
    Key(t.address + t.offset, t.dtype)
  }

  // ---------------------------------------------------------------- the window map

  /** The group whose forward commit frees group i, and whose backward commit reloads it. */
  function Window(numOffload: nat, numLayers: nat, i: nat): int
    requires 0 < numOffload
  {
    numLayers / numOffload * (i + 1) - 1 + Min(i + 1, numLayers % numOffload)
  }

  function WindowMap(numOffload: nat, numLayers: nat): seq<int> {
    seq(numOffload, i requires 0 <= i < numOffload => Window(numOffload, numLayers, i))
  }

  method BuildWindowMap(numOffload: nat, numLayers: nat) returns (window: seq<int>)
    ensures window == WindowMap(numOffload, numLayers)
  {
    window := [];
    var constant := 0;
    for i := 0 to numOffload
      invariant |window| == i
      invariant forall j :: 0 <= j < i ==> window[j] == Window(numOffload, numLayers, j)
      invariant numOffload > 0 ==> constant == Min(i, numLayers % numOffload)
    {
      var last := numLayers / numOffload * (i + 1) - 1;
      if i < numLayers % numOffload {
        last := last + i + 1;
        constant := i + 1;
      } else {
        last := last + constant;
      }
      window := window + [last];
    }
  }

  // ---------------------------------------------------------------- push and pop

  function Empty(numOffload: nat, numLayers: nat): Handler {
    Handler(numOffload, numLayers, WindowMap(numOffload, numLayers), 0, 0, map[], [], map[], map[], 0, {}, {})
  }

  function Push(h: Handler, t: Tensor): Result<Handler, Fault> {
    if h.currentGroup < 0 then Err(NegativeGroup)
    else
      var tag := Tag(h.currentGroup, h.tensorCount);
      if tag in h.state then Err(TagInUse)
      else
        Ok(h.(tensorCount := h.tensorCount + 1,
              state := h.state[tag := OnDevice(t)],
              order := h.order + [tag],
              buf := if h.currentGroup < h.numOffload then h.buf[tag := Some(t)] else h.buf))
  }

  function Pop(h: Handler, tag: Tag): Result<(Handler, Tensor), Fault> {
    if tag !in h.state then Err(UnknownTag)
    else if h.state[tag].Offloaded? then Err(StillOffloaded)
    else
      Ok((h.(state := h.state - {tag}, order := Without(h.order, tag), buf := h.buf - {tag}), h.state[tag].tensor))
  }

  // ---------------------------------------------------------------- offload

  /** offload_mapping after the first n dictionary entries: the first tensor of a key wins. */
  function Backups(state: map<Tag, Slot>, order: seq<Tag>, group: nat, n: nat): map<Key, seq<int>>
    requires n <= |order|
  {
    if n == 0 then map[]
    else
      var before := Backups(state, order, group, n - 1);
      var tag := order[n - 1];
      if tag.group == group && tag in state && state[tag].OnDevice? && KeyOf(state[tag].tensor) !in before then
        before[KeyOf(state[tag].tensor) := state[tag].tensor.data]
      else before
  }

  predicate AllOnDevice(h: Handler, group: nat) {
    forall tag :: tag in h.order && tag.group == group ==> tag in h.state && h.state[tag].OnDevice?
  }

  function Swapped(slot: Slot): Slot {
    if slot.OnDevice? then Offloaded(KeyOf(slot.tensor), slot.tensor.shape) else slot
  }

  function SwappedOut(state: map<Tag, Slot>, group: nat): map<Tag, Slot> {
    map tag | tag in state :: if tag.group == group then Swapped(state[tag]) else state[tag]
  }

  function OffloadGroup(h: Handler, group: nat): Result<Handler, Fault> {
    if !AllOnDevice(h, group) then Err(NotATensor)
    else
      Ok(h.(state := SwappedOut(h.state, group),
            mapping := h.mapping[group := Backups(h.state, h.order, group, |h.order|)],
            d2hPending := h.d2hPending + {group}))
  }

  /** `tensor_tag_to_buf[tag] = None` for the tags of one group. */
  function Release(buf: map<Tag, Option<Tensor>>, group: int): map<Tag, Option<Tensor>> {
    map tag | tag in buf :: if tag.group == group then None else buf[tag]
  }

  /** The part of synchronize_on_group_commit_forward under the window test. */
  function CloseWindow(h: Handler): Result<Handler, Fault> {
    var synced := h.(d2hPending := {}, buf := Release(h.buf, h.offloaded));
    var next := if 0 <= h.offloaded < h.numOffload - 1 then OffloadGroup(synced, h.offloaded + 1) else Ok(synced);
    match next
    case Err(e) => Err(e)
    case Ok(g) => Ok(g.(offloaded := g.offloaded + 1))
  }

  function Synchronized(h: Handler): Result<Handler, Fault> {
    var kicked := if h.currentGroup == 0 then OffloadGroup(h, 0) else Ok(h);
    match kicked
    case Err(e) => Err(e)
    case Ok(k) =>
      if !(0 <= k.offloaded < |k.window|) then Err(WindowKeyError)
      else if k.window[k.offloaded] == k.currentGroup then CloseWindow(k)
      else Ok(k)
  }

  function CommitForward(h: Handler): Result<Handler, Fault> {
    match Synchronized(h)
    case Err(e) => Err(e)
    case Ok(g) => Ok(g.(currentGroup := g.currentGroup + 1, tensorCount := 0))
  }

  // ---------------------------------------------------------------- reload

  /** The reloaded copy, seen with the shape of one tensor. Its address, which nothing uses again, is left at 0. */
  function View(dtype: string, shape: seq<nat>, data: seq<int>): Tensor {
    Tensor(0, 0, dtype, shape, data)
  }

  predicate CanView(slot: Slot, backups: map<Key, seq<int>>) {
    slot.Offloaded? ==> slot.key in backups && |backups[slot.key]| == Numel(slot.shape)
  }

  function Recovered(slot: Slot, backups: map<Key, seq<int>>): Slot
    requires CanView(slot, backups)
  {
    if slot.OnDevice? then slot else OnDevice(View(slot.key.dtype, slot.shape, backups[slot.key]))
  }

  predicate CanViewAll(state: map<Tag, Slot>, group: nat, backups: map<Key, seq<int>>) {
    forall tag :: tag in state && tag.group == group ==> CanView(state[tag], backups)
  }

  function SwappedIn(state: map<Tag, Slot>, group: nat, backups: map<Key, seq<int>>): map<Tag, Slot>
    requires CanViewAll(state, group, backups)
  {
    map tag | tag in state :: if tag.group == group then Recovered(state[tag], backups) else state[tag]
  }

  function ReloadGroup(h: Handler, group: nat): Result<Handler, Fault> {
    if group >= h.numOffload || group !in h.mapping then Err(GroupKeyError)
    else if !CanViewAll(h.state, group, h.mapping[group]) then Err(BadView)
    else
      Ok(h.(state := SwappedIn(h.state, group, h.mapping[group]),
            mapping := h.mapping - {group},
            h2dPending := h.h2dPending + {group}))
  }

  /** The part of on_group_commit_backward under the window test. */
  function OpenWindow(h: Handler): Result<Handler, Fault>
    requires 0 < h.offloaded
  {
    match ReloadGroup(h.(h2dPending := {}), h.offloaded - 1)
    case Err(e) => Err(e)
    case Ok(g) => Ok(g.(offloaded := if g.offloaded > 1 then g.offloaded - 1 else g.offloaded))
  }

  function CommitBackward(h: Handler): Result<Handler, Fault> {
    var k := h.(currentGroup := h.currentGroup - 1);
    if k.currentGroup < 0 then Err(NegativeGroup)
    else if !(0 <= k.offloaded - 1 < |k.window|) then Err(WindowKeyError)
    else
      var synced := if k.window[k.offloaded - 1] == k.currentGroup then OpenWindow(k) else Ok(k);
      match synced
      case Err(e) => Err(e)
      case Ok(g) => if g.currentGroup == 0 then Ok(g.(offloaded := 0, h2dPending := {})) else Ok(g)
  }
}
