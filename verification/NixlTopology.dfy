/** NIXLCheckpointEngine.build_topology and the role checks of init_process_group. */
module NixlTopology {
  import opened Wrappers

  /** The keyword lists that one worker group receives, one entry per worker. */
  datatype Kwargs<T> = Kwargs(rank: seq<int>, worldSize: seq<int>, prev: seq<Option<T>>, next: seq<Option<T>>)

  /** s[i:] for any integer i, as Python counts negative positions from the end. */
  function From<T>(s: seq<T>, i: int): seq<T> {
    var k := if i < 0 then i + |s| else i;
    if k <= 0 then s else if k >= |s| then [] else s[k..]
  }

  function Repeat<T>(x: T, n: nat): seq<T> {
    seq(n, _ => x)
  }

  function Present<T>(s: seq<T>): seq<Option<T>> {
    seq(|s|, i requires 0 <= i < |s| => Some(s[i]))
  }

  function TrainerKwargs<T>(trainers: nat, rollouts: nat, metadata: seq<T>): Kwargs<T>
    requires 0 < trainers && 0 < rollouts && |metadata| == trainers + rollouts
  {
    Kwargs([0] + Repeat(-1, trainers - 1), Repeat(rollouts + 1, trainers), Repeat(None, trainers),
           [Some(metadata[|metadata| - rollouts])] + Repeat(None, trainers - 1))
  }

  function RolloutKwargs<T>(trainers: nat, rollouts: nat, metadata: seq<T>): Kwargs<T>
    requires 0 < trainers && 0 < rollouts && |metadata| == trainers + rollouts
  {
    Kwargs(seq(rollouts, i => i + 1), Repeat(rollouts + 1, rollouts),
           [Some(metadata[0])] + Present(metadata[|metadata| - rollouts..|metadata| - 1]),
           Present(From(metadata, 1 - rollouts)) + [None])
  }

  /** The length asserts of build_process_group. */
  predicate HasLength<T>(k: Kwargs<T>, n: nat) {
    |k.rank| == n && |k.worldSize| == n && |k.prev| == n && |k.next| == n
  }

  /** The asserts at the head of init_process_group. */
  predicate RoleAccepted<T>(rank: int, worldSize: int, prev: Option<T>, next: Option<T>) {
    if rank < 0 then prev.None? && next.None?
    else if rank == 0 then prev.None? && next.Some?
    else if rank < worldSize - 1 then prev.Some? && next.Some?
    else if rank == worldSize - 1 then prev.Some? && next.None?
    else true
  }

  /** Worker `j` of the rollout group has rank j + 1 and its metadata behind that of the trainers. */
  function MetadataOfRank<T>(trainers: nat, metadata: seq<T>, rank: nat): T
    requires 0 < trainers <= |metadata| && rank <= |metadata| - trainers
  {
    if rank == 0 then metadata[0] else metadata[trainers + rank - 1]
  }

  /** The lists have the length the manager asserts exactly when there is more than one rollout rank:
      with one, the slice metadata[-1 + 1:] is the whole list. */
  lemma TopologyAcceptedIff<T>(trainers: nat, rollouts: nat, metadata: seq<T>)
    requires 0 < trainers && 0 < rollouts && |metadata| == trainers + rollouts
    ensures HasLength(TrainerKwargs(trainers, rollouts, metadata), trainers)
    ensures HasLength(RolloutKwargs(trainers, rollouts, metadata), rollouts) <==> rollouts != 1
  {
    if rollouts == 1 {
      assert From(metadata, 1 - rollouts) == metadata;
    } else {
      assert From(metadata, 1 - rollouts) == metadata[|metadata| - rollouts + 1..];
    }
  }

  /** With at least two rollout ranks the workers form one chain: next is the rank above, prev the rank below,
      trainer workers other than the first stay out, and init_process_group accepts every role. */
  lemma TopologyIsChain<T>(trainers: nat, rollouts: nat, metadata: seq<T>)
    requires 0 < trainers && 1 < rollouts && |metadata| == trainers + rollouts
    ensures var t, r := TrainerKwargs(trainers, rollouts, metadata), RolloutKwargs(trainers, rollouts, metadata);
            && HasLength(t, trainers) && HasLength(r, rollouts)
            && (forall i :: 0 <= i < trainers ==>
                  && t.rank[i] == (if i == 0 then 0 else -1) && t.worldSize[i] == rollouts + 1 && t.prev[i] == None
                  && t.next[i] == if i == 0 then Some(MetadataOfRank(trainers, metadata, 1)) else None)
            && (forall i :: 0 <= i < trainers ==> RoleAccepted(t.rank[i], t.worldSize[i], t.prev[i], t.next[i]))
            && (forall j :: 0 <= j < rollouts ==>
                  && RoleAccepted(r.rank[j], r.worldSize[j], r.prev[j], r.next[j])
                  && r.rank[j] == j + 1 && r.worldSize[j] == rollouts + 1
                  && r.prev[j] == Some(MetadataOfRank(trainers, metadata, j))
                  && r.next[j] == if j + 1 < rollouts then Some(MetadataOfRank(trainers, metadata, j + 2)) else None)
  {
    assert From(metadata, 1 - rollouts) == metadata[|metadata| - rollouts + 1..];
  }
}
