/**
 verl/utils/fsdp_utils.py: every rank loads its part of the checkpoint files and gets all other parameters by
 broadcasts, one per parameter, in the order in which the module tree is initialised.
 */
module ParallelLoad {
  import opened Arithmetic
  import opened Orders
  import opened Wrappers

  /** weight_map of the index, the sorted file names, and what the files hold. */
  datatype Checkpoint<D> =
    Checkpoint(index: map<string, string>, files: seq<string>, contents: map<string, map<string, D>>)

  /** Each parameter is in the file the index names, and in no other. */
  ghost predicate IsCheckpoint<D>(c: Checkpoint<D>) {
    && Distinct(c.files)
    && (forall f :: f in c.files <==> f in c.contents)
    && (forall p :: p in c.index ==> c.index[p] in c.contents && p in c.contents[c.index[p]])
    && (forall f, p :: f in c.contents && p in c.contents[f] ==> p in c.index && c.index[p] == f)
  }

  /** An entry of shard_states: the tensor itself, or the rank that has it. */
  datatype Loaded<D> = Held(data: D) | At(rank: nat)

  // ---------------------------------------------------------------- who loads what

  function FilesPerRank<D>(c: Checkpoint<D>, world: nat): nat
    requires world > 0
  {
    CeilDiv(|c.files|, world)
  }

  function Clamp(x: nat, limit: nat): (r: nat)
    ensures r <= limit && r <= x && (r == x || r == limit)
  {
    if x < limit then x else limit
  }

  function ChunkStart<D>(c: Checkpoint<D>, world: nat, rank: nat): (start: nat)
    requires world > 0
    ensures start <= |c.files|
  {
    Clamp(rank * FilesPerRank(c, world), |c.files|)
  }

  /** The chunks are no larger than they have to be for the ranks to hold all files. */
  lemma FilesPerRankIsLeast<D>(c: Checkpoint<D>, world: nat, size: nat)
    requires world > 0
    ensures |c.files| <= size * world <==> FilesPerRank(c, world) <= size
  {
    CeilIsLeast(|c.files|, world, size);
  }

  /** `ckpt_chunks[rank * size : rank * size + size]` */
  function FilesOf<D>(c: Checkpoint<D>, world: nat, rank: nat): seq<string>
    requires world > 0
  {
    StartsIncrease(c, world, rank);
    c.files[ChunkStart(c, world, rank)..ChunkStart(c, world, rank + 1)]
  }

  lemma StartsIncrease<D>(c: Checkpoint<D>, world: nat, rank: nat)
    requires world > 0
    ensures ChunkStart(c, world, rank) <= ChunkStart(c, world, rank + 1)
    ensures (rank + 1) * FilesPerRank(c, world) == rank * FilesPerRank(c, world) + FilesPerRank(c, world)
  {
    OneRoundLess(rank + 1, FilesPerRank(c, world));
  }

  lemma LastChunkEnds<D>(c: Checkpoint<D>, world: nat)
    requires world > 0
    ensures ChunkStart(c, world, world) == |c.files|
  {
    CeilCovers(|c.files|, world);
  }

  ghost function Position(files: seq<string>, f: string): (k: nat)
    requires f in files
    ensures k < |files| && files[k] == f
  {
    var k: nat :| k < |files| && files[k] == f;
    k
  }

  function OwnerAt<D>(c: Checkpoint<D>, world: nat, k: nat): (owner: nat)
    requires world > 0 && k < |c.files|
  {
    CeilOfPositive(|c.files|, world);
    k / FilesPerRank(c, world)
  }

  /** Every file is in the chunk of exactly one rank, for any number of files and ranks. */
  lemma OneOwner<D>(c: Checkpoint<D>, world: nat, k: nat, rank: nat)
    requires world > 0 && k < |c.files|
    ensures OwnerAt(c, world, k) < world
    ensures ChunkStart(c, world, rank) <= k < ChunkStart(c, world, rank + 1) <==> rank == OwnerAt(c, world, k)
  {
    var size, owner := FilesPerRank(c, world), OwnerAt(c, world, k);
    CeilOfPositive(|c.files|, world);
    CeilCovers(|c.files|, world);
    assert k == size * owner + k % size;
    StartsIncrease(c, world, rank);
    assert size * owner == owner * size && world * size == size * world;
    if owner >= world { MulMonotone(world, owner, size); }
    if rank < owner { MulMonotone(rank, owner, size); }
    if owner < rank { MulMonotone(owner, rank, size); }
  }

  // ---------------------------------------------------------------- shard_states

  /** The rank that loads a parameter. */
  ghost function HomeOf<D>(c: Checkpoint<D>, world: nat, p: string): nat
    requires IsCheckpoint(c) && world > 0 && p in c.index
  {
    OwnerAt(c, world, Position(c.files, c.index[p]))
  }

  ghost function Entry<D>(c: Checkpoint<D>, world: nat, rank: nat, p: string): Loaded<D>
    requires IsCheckpoint(c) && world > 0 && p in c.index
  {
    if HomeOf(c, world, p) == rank then Held(c.contents[c.index[p]][p]) else At(HomeOf(c, world, p))
  }

  /** shard_states of one rank after the first m files. */
  ghost function ShardUpTo<D>(c: Checkpoint<D>, world: nat, rank: nat, m: nat): map<string, Loaded<D>>
    requires IsCheckpoint(c) && world > 0
  {
    map p | p in c.index && Position(c.files, c.index[p]) < m :: Entry(c, world, rank, p)
  }

  /** What one file of rank `owner` adds: its tensors there, a note of who has them elsewhere. */
  function FromFile<D>(c: Checkpoint<D>, f: string, owner: nat, rank: nat): map<string, Loaded<D>>
    requires f in c.contents
  {
    if owner == rank then map p | p in c.contents[f] :: Held(c.contents[f][p])
    else map p | p in c.index && c.index[p] == f :: At(owner)
  }

  lemma FromFileIs<D>(c: Checkpoint<D>, world: nat, rank: nat, owner: nat, m: nat)
    requires IsCheckpoint(c) && world > 0 && ChunkStart(c, world, owner) <= m < ChunkStart(c, world, owner + 1)
    ensures c.files[m] in c.contents
    ensures FromFile(c, c.files[m], owner, rank) ==
            map p | p in c.index && Position(c.files, c.index[p]) == m :: Entry(c, world, rank, p)
  {
    OneOwner(c, world, m, owner);
    assert c.files[m] in c.files;
    forall p | p in c.index
      ensures Position(c.files, c.index[p]) == m <==> c.index[p] == c.files[m]
      ensures c.index[p] == c.files[m] <==> p in c.contents[c.files[m]]
    {
      InFile(c, m, p);
    }
  }

  lemma NextFile<D>(c: Checkpoint<D>, world: nat, rank: nat, owner: nat, m: nat)
    requires IsCheckpoint(c) && world > 0 && ChunkStart(c, world, owner) <= m < ChunkStart(c, world, owner + 1)
    ensures c.files[m] in c.contents
    ensures ShardUpTo(c, world, rank, m) + FromFile(c, c.files[m], owner, rank) == ShardUpTo(c, world, rank, m + 1)
  {
    FromFileIs(c, world, rank, owner, m);
  }

  lemma InFile<D>(c: Checkpoint<D>, m: nat, p: string)
    requires IsCheckpoint(c) && m < |c.files| && c.files[m] in c.contents && p in c.index
    ensures Position(c.files, c.index[p]) == m <==> c.index[p] == c.files[m]
    ensures c.index[p] == c.files[m] <==> p in c.contents[c.files[m]]
  {
    assert c.files[Position(c.files, c.index[p])] == c.index[p];
  }

  ghost predicate Readable<D>(c: Checkpoint<D>) {
    forall k :: 0 <= k < |c.files| ==> c.files[k] in c.contents
  }

  /** shard_states of one rank, file by file. */
  function ShardAfter<D>(c: Checkpoint<D>, world: nat, rank: nat, m: nat): map<string, Loaded<D>>
    requires world > 0 && m <= |c.files| && Readable(c)
  {
    if m == 0 then map[]
    else ShardAfter(c, world, rank, m - 1) + FromFile(c, c.files[m - 1], OwnerAt(c, world, m - 1), rank)
  }

  lemma {:induction false} ShardAfterIs<D>(c: Checkpoint<D>, world: nat, rank: nat, m: nat)
    requires IsCheckpoint(c) && world > 0 && m <= |c.files| && Readable(c)
    ensures ShardAfter(c, world, rank, m) == ShardUpTo(c, world, rank, m)
  {
    if m > 0 {
      ShardAfterIs(c, world, rank, m - 1);
      OneOwner(c, world, m - 1, OwnerAt(c, world, m - 1));
      NextFile(c, world, rank, OwnerAt(c, world, m - 1), m - 1);
    }
  }

  lemma CheckpointIsReadable<D>(c: Checkpoint<D>)
    requires IsCheckpoint(c)
    ensures Readable(c)
  {
    forall k | 0 <= k < |c.files| ensures c.files[k] in c.contents { assert c.files[k] in c.files; }
  }

  /** parallel_load_safetensors on one rank. */
  method LoadShards<D>(c: Checkpoint<D>, world: nat, rank: nat) returns (shard: map<string, Loaded<D>>)
    requires IsCheckpoint(c) && world > 0
    ensures shard == Shard(PlanOf(c, world), rank)
  {
    CheckpointIsReadable(c);
    shard := map[];
    for owner := 0 to world
      invariant shard == ShardAfter(c, world, rank, ChunkStart(c, world, owner))
    {
      shard := LoadChunk(c, world, rank, owner, shard);
    }
    LastChunkEnds(c, world);
    FullShard(c, world, rank);
  }

  lemma FullShard<D>(c: Checkpoint<D>, world: nat, rank: nat)
    requires IsCheckpoint(c) && world > 0 && Readable(c)
    ensures ShardAfter(c, world, rank, |c.files|) == Shard(PlanOf(c, world), rank)
  {
    ShardAfterIs(c, world, rank, |c.files|);
    assert ShardUpTo(c, world, rank, |c.files|) == AllEntries(c, world, rank);
    EntriesOfPlan(c, world, rank);
  }

  ghost function AllEntries<D>(c: Checkpoint<D>, world: nat, rank: nat): map<string, Loaded<D>>
    requires IsCheckpoint(c) && world > 0
  {
    map p | p in c.index :: Entry(c, world, rank, p)
  }

  lemma EntriesOfPlan<D>(c: Checkpoint<D>, world: nat, rank: nat)
    requires IsCheckpoint(c) && world > 0
    ensures AllEntries(c, world, rank) == Shard(PlanOf(c, world), rank)
  {
    var plan := PlanOf(c, world);
    assert AllEntries(c, world, rank).Keys == Shard(plan, rank).Keys;
    forall p | p in c.index ensures AllEntries(c, world, rank)[p] == Shard(plan, rank)[p] {
      EntryOfPlan(c, world, rank, plan, p);
    }
  }

  lemma EntryOfPlan<D>(c: Checkpoint<D>, world: nat, rank: nat, plan: Plan<D>, p: string)
    requires IsCheckpoint(c) && world > 0 && plan == PlanOf(c, world) && p in c.index
    ensures Entry(c, world, rank, p) == if plan.home[p] == rank then Held(plan.data[p]) else At(plan.home[p])
  {
  }

  /** The files of one rank, in order. */
  method LoadChunk<D>(c: Checkpoint<D>, world: nat, rank: nat, owner: nat, before: map<string, Loaded<D>>)
    returns (shard: map<string, Loaded<D>>)
    requires world > 0 && Readable(c) && before == ShardAfter(c, world, rank, ChunkStart(c, world, owner))
    ensures shard == ShardAfter(c, world, rank, ChunkStart(c, world, owner + 1))
  {
    shard := before;
    var files := FilesOf(c, world, owner);
    ghost var start := ChunkStart(c, world, owner);
    StartsIncrease(c, world, owner);
    for j := 0 to |files|
      invariant shard == ShardAfter(c, world, rank, start + j)
    {
      assert files[j] == c.files[start + j];
      OneOwner(c, world, start + j, owner);
      shard := shard + FromFile(c, files[j], owner, rank);
    }
  }

  /** Who has each parameter, and what it is. */
  datatype Plan<D> = Plan(home: map<string, nat>, data: map<string, D>)

  ghost predicate IsPlan<D>(plan: Plan<D>, world: nat) {
    plan.home.Keys == plan.data.Keys && forall p :: p in plan.home ==> plan.home[p] < world
  }

  ghost function PlanOf<D>(c: Checkpoint<D>, world: nat): (plan: Plan<D>)
    requires IsCheckpoint(c) && world > 0
    ensures plan.home.Keys == plan.data.Keys == c.index.Keys
  {
    Plan(map p | p in c.index :: HomeOf(c, world, p),
         map p | p in c.index :: c.contents[c.index[p]][p])
  }

  /** The tensor where it is at home, the rank of its home elsewhere. */
  function Shard<D>(plan: Plan<D>, rank: nat): map<string, Loaded<D>>
    requires plan.home.Keys == plan.data.Keys
  {
    map p | p in plan.home :: if plan.home[p] == rank then Held(plan.data[p]) else At(plan.home[p])
  }

  /** Every parameter of the index has one home among the ranks. */
  lemma EveryParameterHasAHome<D>(c: Checkpoint<D>, world: nat)
    requires IsCheckpoint(c) && world > 0
    ensures IsPlan(PlanOf(c, world), world) && PlanOf(c, world).home.Keys == c.index.Keys
  {
    forall p | p in c.index ensures PlanOf(c, world).home[p] < world {
      OneOwner(c, world, Position(c.files, c.index[p]), 0);
    }
  }

  // ---------------------------------------------------------------- init_fn on all ranks

  /** A parameter of the module tree: its qualified name, and the identity of its (possibly shared) meta tensor. */
  datatype Slot = Slot(name: string, state: nat)

  /** shard_states, materialized_states and the parameters created so far, of one rank. */
  datatype Peer<D> = Peer(shard: map<string, Loaded<D>>, made: map<nat, D>, params: seq<D>)

  datatype SyncError = NotLoaded | SourcesDiffer

  /** What a rank does at a slot: reuse a shared tensor, fail, or join a broadcast from a source. */
  datatype Call = Reuse | Missing | Broadcast(src: nat)

  function CallOf<D>(peer: Peer<D>, rank: nat, slot: Slot): Call {
    if slot.state in peer.made then Reuse
    else if slot.name !in peer.shard then Missing
    else match peer.shard[slot.name] case Held(_) => Broadcast(rank) case At(src) => Broadcast(src)
  }

  function Adopt<D>(peer: Peer<D>, slot: Slot, data: D): Peer<D> {
    Peer(peer.shard - {slot.name}, peer.made[slot.state := data], peer.params + [data])
  }

  ghost predicate AllCall<D>(peers: seq<Peer<D>>, slot: Slot, call: Call) {
    forall r :: 0 <= r < |peers| ==> CallOf(peers[r], r, slot) == call
  }

  /** All ranks at the same slot. The broadcasts of a slot match only if all ranks name the same source, and the
      source must be sending a tensor that it has. */
  ghost function SyncSlot<D>(peers: seq<Peer<D>>, slot: Slot): Result<seq<Peer<D>>, SyncError>
    requires peers != []
  {
    match CallOf(peers[0], 0, slot)
    case Missing => Err(NotLoaded)
    case Reuse =>
      if !AllCall(peers, slot, Reuse) then Err(SourcesDiffer)
      else
        Ok(seq(|peers|, r requires 0 <= r < |peers| && slot.state in peers[r].made =>
                          Adopt(peers[r], slot, peers[r].made[slot.state])))
    case Broadcast(src) =>
      if !AllCall(peers, slot, Broadcast(src)) || src >= |peers| || !peers[src].shard[slot.name].Held?
      then Err(SourcesDiffer)
      else
        var data := peers[src].shard[slot.name].data;
        Ok(seq(|peers|, r requires 0 <= r < |peers| => Adopt(peers[r], slot, data)))
  }

  ghost function SyncAll<D>(peers: seq<Peer<D>>, slots: seq<Slot>): Result<seq<Peer<D>>, SyncError>
    requires peers != []
    ensures SyncAll(peers, slots).Ok? ==> SyncAll(peers, slots).value != []
    decreases |slots|
  {
    if slots == [] then Ok(peers)
    else
      match SyncAll(peers, slots[..|slots| - 1])
      case Err(e) => Err(e)
      case Ok(ps) => SyncSlot(ps, slots[|slots| - 1])
  }

  /** The name under which each tensor is met first. */
  function Firsts(slots: seq<Slot>): map<nat, string> {
    if slots == [] then map[]
    else
      var last, before := slots[|slots| - 1], Firsts(slots[..|slots| - 1]);
      if last.state in before then before else before[last.state := last.name]
  }

  lemma {:induction false} FirstsMeaning(slots: seq<Slot>, i: nat)
    requires i < |slots|
    ensures slots[i].state in Firsts(slots)
    ensures (forall j :: 0 <= j < i ==> slots[j].state != slots[i].state) ==>
            Firsts(slots)[slots[i].state] == slots[i].name
  {
    var m := |slots| - 1;
    if i < m {
      FirstsMeaning(slots[..m], i);
    } else if forall j :: 0 <= j < m ==> slots[j].state != slots[m].state {
      NotMet(slots[..m], slots[m].state);
    }
  }

  lemma {:induction false} NotMet(slots: seq<Slot>, state: nat)
    requires forall j :: 0 <= j < |slots| ==> slots[j].state != state
    ensures state !in Firsts(slots)
  {
    if slots != [] { NotMet(slots[..|slots| - 1], state); }
  }

  function Names(slots: seq<Slot>): set<string> {
    if slots == [] then {} else Names(slots[..|slots| - 1]) + {slots[|slots| - 1].name}
  }

  /** Names do not repeat, and the checkpoint has every tensor under the name at which it is met first. */
  predicate Covers<D>(plan: Plan<D>, slots: seq<Slot>) {
    slots == [] ||
    var last, before := slots[|slots| - 1], slots[..|slots| - 1];
    && Covers(plan, before)
    && last.name !in Names(before)
    && (last.state in Firsts(before) || last.name in plan.data)
  }

  lemma {:induction false} FirstsAreCovered<D>(plan: Plan<D>, slots: seq<Slot>)
    requires Covers(plan, slots)
    ensures forall st :: st in Firsts(slots) ==> Firsts(slots)[st] in plan.data
  {
    if slots != [] { FirstsAreCovered(plan, slots[..|slots| - 1]); }
  }

  /** The file contents of every tensor met so far. */
  ghost function Made<D>(plan: Plan<D>, slots: seq<Slot>): map<nat, D>
    requires Covers(plan, slots)
  {
    FirstsAreCovered(plan, slots);
    map st | st in Firsts(slots) :: plan.data[Firsts(slots)[st]]
  }

  /** The parameters of the module tree, with the contents that the files have for them. */
  ghost function Wanted<D>(plan: Plan<D>, slots: seq<Slot>): seq<D>
    requires Covers(plan, slots)
  {
    if slots == [] then []
    else
      FirstsMeaning(slots, |slots| - 1);
      Wanted(plan, slots[..|slots| - 1]) + [Made(plan, slots)[slots[|slots| - 1].state]]
  }

  ghost function Expected<D>(plan: Plan<D>, slots: seq<Slot>, rank: nat): Peer<D>
    requires plan.home.Keys == plan.data.Keys && Covers(plan, slots)
  {
    Peer(Shard(plan, rank) - Names(slots), Made(plan, slots), Wanted(plan, slots))
  }

  ghost function AllExpected<D>(plan: Plan<D>, slots: seq<Slot>, world: nat): seq<Peer<D>>
    requires plan.home.Keys == plan.data.Keys && Covers(plan, slots)
  {
    seq(world, r requires 0 <= r < world => Expected(plan, slots, r))
  }

  lemma AdoptIsExpected<D>(plan: Plan<D>, slots: seq<Slot>, rank: nat)
    requires plan.home.Keys == plan.data.Keys && slots != [] && Covers(plan, slots)
    ensures var last := slots[|slots| - 1];
            && last.state in Made(plan, slots)
            && Expected(plan, slots, rank)
               == Adopt(Expected(plan, slots[..|slots| - 1], rank), last, Made(plan, slots)[last.state])
  {
    var m := |slots| - 1;
    var last, before := slots[m], slots[..m];
    assert Made(plan, slots) == Made(plan, before)[last.state := Made(plan, slots)[last.state]];
    assert Shard(plan, rank) - Names(slots) == Shard(plan, rank) - Names(before) - {last.name};
  }

  /** Every rank makes the same call at the next slot: a tensor met before is reused, any other is broadcast by
      the rank that has it. */
  lemma CallsAgree<D>(plan: Plan<D>, slots: seq<Slot>, rank: nat)
    requires plan.home.Keys == plan.data.Keys && slots != [] && Covers(plan, slots)
    ensures var last, peer := slots[|slots| - 1], Expected(plan, slots[..|slots| - 1], rank);
            if last.state in Firsts(slots[..|slots| - 1])
            then CallOf(peer, rank, last) == Reuse && peer.made[last.state] == Made(plan, slots)[last.state]
            else
              && last.name in plan.home && last.name in peer.shard
              && CallOf(peer, rank, last) == Broadcast(plan.home[last.name])
              && peer.shard[last.name] == Shard(plan, rank)[last.name]
              && Made(plan, slots)[last.state] == plan.data[last.name]
  {
  }

  lemma SlotSyncs<D>(plan: Plan<D>, slots: seq<Slot>, world: nat)
    requires world > 0 && IsPlan(plan, world) && slots != [] && Covers(plan, slots)
    ensures SyncSlot(AllExpected(plan, slots[..|slots| - 1], world), slots[|slots| - 1]) ==
            Ok(AllExpected(plan, slots, world))
  {
    var m := |slots| - 1;
    var last, peers := slots[m], AllExpected(plan, slots[..m], world);
    forall r: nat | r < world
      ensures CallOf(peers[r], r, last) == CallOf(peers[0], 0, last)
      ensures last.state in Firsts(slots[..m]) ==> peers[r].made[last.state] == Made(plan, slots)[last.state]
      ensures AllExpected(plan, slots, world)[r] == Adopt(peers[r], last, Made(plan, slots)[last.state])
    {
      CallsAgree(plan, slots, r);
      CallsAgree(plan, slots, 0);
      AdoptIsExpected(plan, slots, r);
    }
    CallsAgree(plan, slots, 0);
    if last.state !in Firsts(slots[..m]) { CallsAgree(plan, slots, plan.home[last.name]); }
    assert SyncSlot(peers, last).Ok?;
    assert SyncSlot(peers, last).value == AllExpected(plan, slots, world);
  }

  /** On any number of ranks, initialising the module tree from the loaded shards succeeds: at each slot all
      ranks name the same source, and every rank ends with the file contents of every parameter. */
  lemma {:induction false} AllRanksAgree<D>(plan: Plan<D>, slots: seq<Slot>, peers: seq<Peer<D>>)
    requires peers != [] && IsPlan(plan, |peers|) && Covers(plan, slots)
    requires forall r :: 0 <= r < |peers| ==> peers[r] == Peer(Shard(plan, r), map[], [])
    ensures SyncAll(peers, slots) == Ok(AllExpected(plan, slots, |peers|))
    decreases |slots|
  {
    if slots == [] {
      forall r: nat | r < |peers| ensures peers[r] == Expected(plan, [], r) {
        assert Shard(plan, r) - {} == Shard(plan, r);
      }
      assert peers == AllExpected(plan, [], |peers|);
    } else {
      AllRanksAgree(plan, slots[..|slots| - 1], peers);
      SlotSyncs(plan, slots, |peers|);
    }
  }

  ghost predicate DistinctSlots(slots: seq<Slot>) {
    forall i, j :: 0 <= i < j < |slots| ==> slots[i].name != slots[j].name
  }

  lemma {:induction false} NameIsOfASlot(slots: seq<Slot>, name: string)
    requires name in Names(slots)
    ensures exists i :: 0 <= i < |slots| && slots[i].name == name
  {
    var m := |slots| - 1;
    if name != slots[m].name { NameIsOfASlot(slots[..m], name); }
  }

  lemma LastNameIsNew(slots: seq<Slot>)
    requires slots != [] && DistinctSlots(slots)
    ensures slots[|slots| - 1].name !in Names(slots[..|slots| - 1])
  {
    var m := |slots| - 1;
    if slots[m].name in Names(slots[..m]) { NameIsOfASlot(slots[..m], slots[m].name); }
  }

  ghost predicate HasAll<D>(plan: Plan<D>, names: map<nat, string>) {
    forall st :: st in names ==> names[st] in plan.data
  }

  /** What the checkpoint must have: every tensor, under the name at which it is met first. */
  lemma {:induction false} CoversIff<D>(plan: Plan<D>, slots: seq<Slot>)
    requires DistinctSlots(slots)
    ensures Covers(plan, slots) <==> HasAll(plan, Firsts(slots))
  {
    if slots != [] {
      var m := |slots| - 1;
      CoversIff(plan, slots[..m]);
      LastNameIsNew(slots);
      var last, before, after := slots[m], Firsts(slots[..m]), Firsts(slots);
      if last.state !in before {
        assert after[last.state] == last.name;
        assert forall st :: st in before ==> st in after && after[st] == before[st];
      }
    }
  }

  /** Initialising succeeds exactly then, and otherwise every rank stops at the same assert. */
  lemma {:induction false} RanksAgreeIff<D>(plan: Plan<D>, slots: seq<Slot>, peers: seq<Peer<D>>)
    requires peers != [] && IsPlan(plan, |peers|) && DistinctSlots(slots)
    requires forall r :: 0 <= r < |peers| ==> peers[r] == Peer(Shard(plan, r), map[], [])
    ensures SyncAll(peers, slots).Ok? <==> HasAll(plan, Firsts(slots))
    ensures SyncAll(peers, slots).Err? ==> SyncAll(peers, slots).error == NotLoaded
    decreases |slots|
  {
    CoversIff(plan, slots);
    if Covers(plan, slots) {
      AllRanksAgree(plan, slots, peers);
    } else {
      var m := |slots| - 1;
      CoversIff(plan, slots[..m]);
      RanksAgreeIff(plan, slots[..m], peers);
      if Covers(plan, slots[..m]) {
        AllRanksAgree(plan, slots[..m], peers);
        LastNameIsNew(slots);
        assert CallOf(Expected(plan, slots[..m], 0), 0, slots[m]) == Missing;
      }
    }
  }

  /** After a slot that succeeds, all ranks made the same call, and the new parameter is on each rank what its own
      table has for a reused tensor, or what the one source holds. */
  lemma SlotSyncsOnlyIf<D>(peers: seq<Peer<D>>, slot: Slot, r: nat)
    requires peers != [] && SyncSlot(peers, slot).Ok? && r < |peers|
    ensures var call, after := CallOf(peers[0], 0, slot), SyncSlot(peers, slot).value;
            && |after| == |peers| && CallOf(peers[r], r, slot) == call && call != Missing
            && slot.state in after[r].made && slot.name !in after[r].shard
            && after[r].params == peers[r].params + [after[r].made[slot.state]]
            && (call == Reuse ==> after[r].made == peers[r].made)
            && (call.Broadcast? ==>
                  && call.src < |peers| && slot.name in peers[call.src].shard
                  && peers[call.src].shard[slot.name] == Held(after[r].made[slot.state]))
  {
  }

  /** Tied parameters end up with one tensor: that of the name at which it was met first. */
  lemma {:induction false} WantedAt<D>(plan: Plan<D>, slots: seq<Slot>, i: nat)
    requires Covers(plan, slots) && i < |slots|
    ensures |Wanted(plan, slots)| == |slots|
    ensures slots[i].state in Made(plan, slots) && Wanted(plan, slots)[i] == Made(plan, slots)[slots[i].state]
  {
    var m := |slots| - 1;
    FirstsMeaning(slots, i);
    if m > 0 { WantedAt(plan, slots[..m], if i < m then i else 0); }
    if i < m { FirstsMeaning(slots[..m], i); }
  }
}
