/**
 verl/checkpoint_engine/kimi_checkpoint_engine.py: each rank registers every world_size-th tensor, in buckets; a
 receiver gets the buckets of all ranks through the two halves of one buffer.
 */
module KimiBuckets {
  import opened Arithmetic
  import opened BucketPacking
  import opened Rows
  import opened WeightChunks
  import opened Wrappers

  /** A tensor after the cast to rollout_dtype. */
  datatype Tensor = Tensor(name: string, bytes: nat)

  datatype BucketError = BucketBytesNotPositive | NoBuckets

  // ---------------------------------------------------------------- ckpt_get_named_tensor_buckets

  /** `tensor_idx % world_size == rank_id` */
  function Mine<T>(ts: seq<T>, world: nat, rank: nat): seq<T>
    requires world > 0
  {
    if ts == [] then []
    else
      var m := |ts| - 1;
      Mine(ts[..m], world, rank) + if m % world == rank then [ts[m]] else []
  }

  function Size(bucket: seq<Tensor>): nat {
    if bucket == [] then 0 else bucket[0].bytes + Size(bucket[1..])
  }

  /** `current_bucket[name] = tensor`: a name that is there keeps its place and gets the new tensor. */
  function Put(bucket: seq<Tensor>, t: Tensor): seq<Tensor> {
    if bucket == [] then [t]
    else if bucket[0].name == t.name then [t] + bucket[1..]
    else [bucket[0]] + Put(bucket[1..], t)
  }

  /** A bucket fits, or is one tensor that fits nowhere. */
  predicate GoodBucket(bucket: seq<Tensor>, limit: nat) {
    bucket != [] && (Size(bucket) <= limit || |bucket| == 1)
  }

  /** The buckets yielded so far, current_bucket, and current_size, which counts an overwritten tensor too. */
  datatype Packing = Packing(full: seq<seq<Tensor>>, current: seq<Tensor>, size: nat)

  function Add(p: Packing, t: Tensor, limit: nat): Packing {
    if p.size + t.bytes > limit && p.current != [] then Packing(p.full + [p.current], [t], t.bytes)
    else Packing(p.full, Put(p.current, t), p.size + t.bytes)
  }

  function PackAllTensors(ts: seq<Tensor>, limit: nat): Packing {
    if ts == [] then Packing([], [], 0) else Add(PackAllTensors(ts[..|ts| - 1], limit), ts[|ts| - 1], limit)
  }

  function BucketsOf(p: Packing): seq<seq<Tensor>> {
    if p.current == [] then p.full else p.full + [p.current]
  }

  method NamedTensorBuckets(ts: seq<Tensor>, bucketBytes: int, world: nat, rank: nat)
    returns (r: Result<seq<seq<Tensor>>, BucketError>)
    requires world > 0
    ensures r == if bucketBytes <= 0 then Err(BucketBytesNotPositive)
                 else Ok(BucketsOf(PackAllTensors(Mine(ts, world, rank), bucketBytes)))
  {
    if bucketBytes <= 0 { return Err(BucketBytesNotPositive); }
    var buckets: seq<seq<Tensor>> := [];
    var current: seq<Tensor> := [];
    var currentSize: nat := 0;
    for i := 0 to |ts|
      invariant Packing(buckets, current, currentSize) == PackAllTensors(Mine(ts[..i], world, rank), bucketBytes)
    {
      assert ts[..i + 1][..i] == ts[..i];
      ghost var mine := Mine(ts[..i], world, rank);
      assert Mine(ts[..i + 1], world, rank) == if i % world == rank then mine + [ts[i]] else mine;
      if i % world == rank {
        PackNext(mine, ts[i], bucketBytes);
        var tensorSize := ts[i].bytes;
        if currentSize + tensorSize > bucketBytes {
          if current != [] {
            buckets := buckets + [current];
            current, currentSize := [], 0;
          }
        }
        current, currentSize := Put(current, ts[i]), currentSize + tensorSize;
      }
    }
    assert ts[..|ts|] == ts;
    if current != [] { buckets := buckets + [current]; }
    return Ok(buckets);
  }

  lemma PackNext(ts: seq<Tensor>, t: Tensor, limit: nat)
    ensures PackAllTensors(ts + [t], limit) == Add(PackAllTensors(ts, limit), t, limit)
  {
    assert (ts + [t])[..|ts|] == ts;
  }

  // ---------------------------------------------------------------- what the buckets hold

  ghost predicate UniqueNames(ts: seq<Tensor>) {
    forall i, j :: 0 <= i < j < |ts| ==> ts[i].name != ts[j].name
  }

  /** What a consumer that loads the tensors one after the other ends up with. */
  function Latest(ts: seq<Tensor>): map<string, Tensor> {
    if ts == [] then map[] else map[ts[0].name := ts[0]] + Latest(ts[1..])
  }

  lemma {:induction false} LatestNames(ts: seq<Tensor>, name: string)
    ensures name in Latest(ts) <==> exists i :: 0 <= i < |ts| && ts[i].name == name
  {
    if ts != [] {
      LatestNames(ts[1..], name);
      if i :| 0 <= i < |ts[1..]| && ts[1..][i].name == name { assert ts[i + 1].name == name; }
      if i :| 0 <= i < |ts| && ts[i].name == name { assert i > 0 ==> ts[1..][i - 1].name == name; }
    }
  }

  lemma LaterWins<K, V>(a: map<K, V>, b: map<K, V>, c: map<K, V>)
    ensures a + (b + c) == (a + b) + c
  {
  }

  lemma {:induction false} LatestConcat(a: seq<Tensor>, b: seq<Tensor>)
    ensures Latest(a + b) == Latest(a) + Latest(b)
  {
    if a == [] {
      assert a + b == b;
    } else {
      assert (a + b)[1..] == a[1..] + b;
      LatestConcat(a[1..], b);
      LaterWins(map[a[0].name := a[0]], Latest(a[1..]), Latest(b));
    }
  }

  lemma {:induction false} PutFits(bucket: seq<Tensor>, t: Tensor)
    ensures 0 < |Put(bucket, t)| <= |bucket| + 1
    ensures Size(Put(bucket, t)) <= Size(bucket) + t.bytes
  {
    if bucket == [] {
    } else if bucket[0].name == t.name {
      assert ([t] + bucket[1..])[1..] == bucket[1..];
    } else {
      PutFits(bucket[1..], t);
      assert ([bucket[0]] + Put(bucket[1..], t))[1..] == Put(bucket[1..], t);
    }
  }

  lemma {:induction false} PutElements(bucket: seq<Tensor>, t: Tensor)
    ensures forall x :: x in Put(bucket, t) ==> x == t || x in bucket
  {
    if bucket != [] && bucket[0].name != t.name { PutElements(bucket[1..], t); }
  }

  lemma {:induction false} PutUnique(bucket: seq<Tensor>, t: Tensor)
    requires UniqueNames(bucket)
    ensures UniqueNames(Put(bucket, t))
  {
    if bucket != [] && bucket[0].name != t.name {
      var rest := Put(bucket[1..], t);
      PutUnique(bucket[1..], t);
      PutElements(bucket[1..], t);
      forall j | 0 <= j < |rest| ensures rest[j].name != bucket[0].name { assert rest[j] in rest; }
    }
  }

  lemma {:induction false} PutOverwrites(bucket: seq<Tensor>, t: Tensor)
    requires UniqueNames(bucket)
    ensures Latest(Put(bucket, t)) == Latest(bucket)[t.name := t]
  {
    if bucket == [] {
      assert Latest([t]) == map[t.name := t] + Latest([t][1..]);
    } else if bucket[0].name == t.name {
      assert ([t] + bucket[1..])[1..] == bucket[1..];
      LatestNames(bucket[1..], t.name);
    } else {
      PutOverwrites(bucket[1..], t);
      assert ([bucket[0]] + Put(bucket[1..], t))[1..] == Put(bucket[1..], t);
      UpdateLast(map[bucket[0].name := bucket[0]], Latest(bucket[1..]), t.name, t);
    }
  }

  lemma UpdateLast<K, V>(a: map<K, V>, b: map<K, V>, k: K, v: V)
    ensures a + b[k := v] == (a + b)[k := v]
  {
  }

  lemma {:induction false} PutNew(bucket: seq<Tensor>, t: Tensor)
    requires forall i :: 0 <= i < |bucket| ==> bucket[i].name != t.name
    ensures Put(bucket, t) == bucket + [t] && Size(bucket + [t]) == Size(bucket) + t.bytes
  {
    if bucket != [] {
      PutNew(bucket[1..], t);
      assert (bucket + [t])[1..] == bucket[1..] + [t];
    }
  }

  // ---------------------------------------------------------------- the run of tensors behind each bucket

  /** The dict that a run of tensors leaves. */
  function Overwritten(run: seq<Tensor>): seq<Tensor> {
    if run == [] then [] else Put(Overwritten(run[..|run| - 1]), run[|run| - 1])
  }

  /** Names in the order in which they are first met. */
  function FirstNames(ts: seq<Tensor>): seq<string> {
    if ts == [] then []
    else
      var before, name := FirstNames(ts[..|ts| - 1]), ts[|ts| - 1].name;
      if name in before then before else before + [name]
  }

  function Names(ts: seq<Tensor>): seq<string> {
    seq(|ts|, i requires 0 <= i < |ts| => ts[i].name)
  }

  lemma {:induction false} PutNames(bucket: seq<Tensor>, t: Tensor)
    ensures Names(Put(bucket, t)) == if t.name in Names(bucket) then Names(bucket) else Names(bucket) + [t.name]
  {
    if bucket != [] {
      assert Names(bucket) == [bucket[0].name] + Names(bucket[1..]);
      if bucket[0].name != t.name {
        PutNames(bucket[1..], t);
        assert Names(Put(bucket, t)) == [bucket[0].name] + Names(Put(bucket[1..], t));
      }
    }
  }

  lemma FirstNamesNext(ts: seq<Tensor>, t: Tensor)
    ensures FirstNames(ts + [t]) == if t.name in FirstNames(ts) then FirstNames(ts) else FirstNames(ts) + [t.name]
  {
    assert (ts + [t])[..|ts|] == ts;
  }

  /** The bucket of a run has each of its names once, in the order of first meeting, with the latest tensor. */
  lemma {:induction false} OverwrittenIs(run: seq<Tensor>)
    ensures var bucket := Overwritten(run);
            UniqueNames(bucket) && Names(bucket) == FirstNames(run) && Latest(bucket) == Latest(run)
  {
    if run != [] {
      var init, t := run[..|run| - 1], run[|run| - 1];
      var bucket := Overwritten(init);
      assert run == init + [t];
      OverwrittenIs(init);
      PutUnique(bucket, t);
      PutOverwrites(bucket, t);
      PutNames(bucket, t);
      LatestNext(init, t);
      FirstNamesNext(init, t);
    }
  }

  lemma {:induction false} OverwrittenFits(run: seq<Tensor>)
    ensures Size(Overwritten(run)) <= Size(run) && |Overwritten(run)| <= |run|
    ensures run != [] ==> Overwritten(run) != []
  {
    if run != [] {
      var init, t := run[..|run| - 1], run[|run| - 1];
      assert run == init + [t];
      OverwrittenFits(init);
      PutFits(Overwritten(init), t);
      SizeNext(init, t);
    }
  }

  lemma {:induction false} SizeNext(ts: seq<Tensor>, t: Tensor)
    ensures Size(ts + [t]) == Size(ts) + t.bytes
  {
    if ts != [] {
      SizeNext(ts[1..], t);
      assert (ts + [t])[1..] == ts[1..] + [t];
    }
  }

  lemma LatestNext(ts: seq<Tensor>, t: Tensor)
    ensures Latest(ts + [t]) == Latest(ts)[t.name := t]
  {
    LatestConcat(ts, [t]);
    assert Latest([t]) == map[t.name := t] + Latest([t][1..]);
  }

  lemma {:induction false} DistinctRun(run: seq<Tensor>)
    requires UniqueNames(run)
    ensures Overwritten(run) == run
  {
    if run != [] {
      DistinctRun(run[..|run| - 1]);
      PutNew(run[..|run| - 1], run[|run| - 1]);
    }
  }

  /** A run ends where the next tensor would exceed the limit, and only there. */
  ghost predicate Runs(runs: seq<seq<Tensor>>, limit: nat) {
    && (forall i :: 0 <= i < |runs| ==> runs[i] != [] && (Size(runs[i]) <= limit || |runs[i]| == 1))
    && forall i :: 0 < i < |runs| ==> Size(runs[i - 1]) + runs[i][0].bytes > limit
  }

  ghost predicate BucketsOfRuns(buckets: seq<seq<Tensor>>, runs: seq<seq<Tensor>>) {
    |buckets| == |runs| && forall i :: 0 <= i < |runs| ==> buckets[i] == Overwritten(runs[i])
  }

  ghost predicate PackedFrom(p: Packing, runs: seq<seq<Tensor>>) {
    && BucketsOfRuns(BucketsOf(p), runs) && (p.current == [] ==> p.full == [])
    && p.size == if runs == [] then 0 else Size(runs[|runs| - 1])
  }

  /** The runs once a tensor is added: it opens one, or joins the last. */
  function NextRuns(runs: seq<seq<Tensor>>, t: Tensor, limit: nat): seq<seq<Tensor>> {
    var n := |runs|;
    if n == 0 || Size(runs[n - 1]) + t.bytes > limit then runs + [[t]] else runs[..n - 1] + [runs[n - 1] + [t]]
  }

  function RunsOf(ts: seq<Tensor>, limit: nat): seq<seq<Tensor>> {
    if ts == [] then [] else NextRuns(RunsOf(ts[..|ts| - 1], limit), ts[|ts| - 1], limit)
  }

  lemma OverwrittenNext(run: seq<Tensor>, t: Tensor)
    ensures Overwritten(run + [t]) == Put(Overwritten(run), t) != []
  {
    assert (run + [t])[..|run|] == run;
    PutFits(Overwritten(run), t);
  }

  lemma RunsNext(runs: seq<seq<Tensor>>, t: Tensor, limit: nat)
    requires Runs(runs, limit)
    ensures Runs(NextRuns(runs, t, limit), limit)
  {
    var n := |runs|;
    SizeNext([], t);
    if n > 0 { SizeNext(runs[n - 1], t); }
  }

  lemma NextRunsConcat(runs: seq<seq<Tensor>>, t: Tensor, limit: nat)
    ensures Concat(NextRuns(runs, t, limit)) == Concat(runs) + [t]
  {
    var n := |runs|;
    AppendBucket(runs, [t]);
    if n > 0 {
      var last := runs[n - 1];
      AppendBucket(runs[..n - 1], last + [t]);
      AppendBucket(runs[..n - 1], last);
      assert runs == runs[..n - 1] + [last];
      assert Concat(runs[..n - 1]) + (last + [t]) == Concat(runs[..n - 1]) + last + [t];
    }
  }

  lemma AddRuns(p: Packing, runs: seq<seq<Tensor>>, t: Tensor, limit: nat)
    requires PackedFrom(p, runs)
    ensures PackedFrom(Add(p, t, limit), NextRuns(runs, t, limit))
  {
    var n := |runs|;
    SizeNext([], t);
    OverwrittenNext([], t);
    if n > 0 {
      SizeNext(runs[n - 1], t);
      OverwrittenNext(runs[n - 1], t);
    }
  }

  lemma {:induction false} RunsOfPack(ts: seq<Tensor>, limit: nat)
    ensures PackedFrom(PackAllTensors(ts, limit), RunsOf(ts, limit))
  {
    if ts != [] {
      RunsOfPack(ts[..|ts| - 1], limit);
      AddRuns(PackAllTensors(ts[..|ts| - 1], limit), RunsOf(ts[..|ts| - 1], limit), ts[|ts| - 1], limit);
    }
  }

  lemma {:induction false} RunsOfJoin(ts: seq<Tensor>, limit: nat)
    ensures Concat(RunsOf(ts, limit)) == ts && Runs(RunsOf(ts, limit), limit)
  {
    if ts != [] {
      var init, t := ts[..|ts| - 1], ts[|ts| - 1];
      RunsOfJoin(init, limit);
      RunsNext(RunsOf(init, limit), t, limit);
      NextRunsConcat(RunsOf(init, limit), t, limit);
      assert ts == init + [t];
    }
  }

  lemma PackedRuns(ts: seq<Tensor>, limit: nat)
    ensures var runs := RunsOf(ts, limit);
            Concat(runs) == ts && Runs(runs, limit) && BucketsOfRuns(BucketsOf(PackAllTensors(ts, limit)), runs)
  {
    RunsOfPack(ts, limit);
    RunsOfJoin(ts, limit);
  }

  /** A rank's buckets are what consecutive runs of its tensors leave: a run fits, or is one oversized tensor, and
      ends only where the next tensor would exceed the limit, counting a tensor that is overwritten too. */
  lemma BucketsAreRuns(ts: seq<Tensor>, limit: nat)
    ensures exists runs :: Concat(runs) == ts && Runs(runs, limit)
                           && BucketsOfRuns(BucketsOf(PackAllTensors(ts, limit)), runs)
  {
    PackedRuns(ts, limit);
  }

  lemma {:induction false} LatestOfRuns(buckets: seq<seq<Tensor>>, runs: seq<seq<Tensor>>)
    requires BucketsOfRuns(buckets, runs)
    ensures Latest(Concat(buckets)) == Latest(Concat(runs))
  {
    if runs != [] {
      OverwrittenIs(runs[0]);
      LatestOfRuns(buckets[1..], runs[1..]);
      LatestConcat(buckets[0], Concat(buckets[1..]));
      LatestConcat(runs[0], Concat(runs[1..]));
    }
  }

  /** A rank's buckets fit, or are a single oversized tensor, and loading them gives what loading the rank's
      tensors gives. */
  lemma BucketsAreGood(ts: seq<Tensor>, limit: nat)
    ensures var buckets := BucketsOf(PackAllTensors(ts, limit));
            && (forall i :: 0 <= i < |buckets| ==> GoodBucket(buckets[i], limit))
            && Latest(Concat(buckets)) == Latest(ts)
  {
    var buckets, runs := BucketsOf(PackAllTensors(ts, limit)), RunsOf(ts, limit);
    PackedRuns(ts, limit);
    LatestOfRuns(buckets, runs);
    forall i | 0 <= i < |buckets| ensures GoodBucket(buckets[i], limit) { OverwrittenFits(runs[i]); }
  }

  /** No bucket was closed while the first tensor of the next still had room. */
  ghost predicate Tight(buckets: seq<seq<Tensor>>, limit: nat) {
    forall i :: 0 < i < |buckets| ==> buckets[i] != [] && Size(buckets[i - 1]) + buckets[i][0].bytes > limit
  }

  lemma {:induction false} RunsAreDistinct(runs: seq<seq<Tensor>>)
    requires UniqueNames(Concat(runs))
    ensures forall i :: 0 <= i < |runs| ==> Overwritten(runs[i]) == runs[i]
  {
    if runs != [] {
      var first, rest := runs[0], Concat(runs[1..]);
      assert first == (first + rest)[..|first|] && rest == (first + rest)[|first|..];
      RunsAreDistinct(runs[1..]);
      DistinctRun(first);
      forall i | 1 <= i < |runs| ensures Overwritten(runs[i]) == runs[i] { assert runs[i] == runs[1..][i - 1]; }
    }
  }

  /** With distinct names nothing is overwritten: the buckets hold the rank's tensors in order, and none was closed
      early. */
  lemma DistinctNamesInOrder(ts: seq<Tensor>, limit: nat)
    requires UniqueNames(ts)
    ensures Concat(BucketsOf(PackAllTensors(ts, limit))) == ts
    ensures Tight(BucketsOf(PackAllTensors(ts, limit)), limit)
  {
    PackedRuns(ts, limit);
    RunsAreDistinct(RunsOf(ts, limit));
    assert BucketsOf(PackAllTensors(ts, limit)) == RunsOf(ts, limit);
  }

  lemma AppendBucket<T>(buckets: seq<seq<T>>, last: seq<T>)
    ensures Concat(buckets + [last]) == Concat(buckets) + last
  {
    ConcatAppend(buckets, [last]);
    assert Concat([last]) == last + Concat([last][1..]) == last;
  }

  // ---------------------------------------------------------------- which rank has which tensor

  /** The k-th tensor of a rank is tensor k * world + rank of the model. */
  lemma {:induction false} MineAt<T>(ts: seq<T>, world: nat, rank: nat, k: nat)
    requires world > 0 && rank < world && k < |Mine(ts, world, rank)|
    ensures k * world + rank < |ts| && Mine(ts, world, rank)[k] == ts[k * world + rank]
  {
    var m := |ts| - 1;
    var before := Mine(ts[..m], world, rank);
    if k < |before| {
      MineAt(ts[..m], world, rank, k);
    } else {
      MineCount(ts[..m], world, rank);
      DivMod(m, world);
    }
  }

  /** Distinct names in the model are distinct names on each rank. */
  lemma MineUnique(ts: seq<Tensor>, world: nat, rank: nat)
    requires rank < world && UniqueNames(ts)
    ensures UniqueNames(Mine(ts, world, rank))
  {
    var mine := Mine(ts, world, rank);
    forall i, j | 0 <= i < j < |mine| ensures mine[i].name != mine[j].name {
      MineAt(ts, world, rank, i);
      MineAt(ts, world, rank, j);
      MulMonotone(i, j, world);
    }
  }

  /** When the tensors of the model have distinct names, a rank's buckets hold every world-th of them in order,
      and none of the buckets was closed early. */
  lemma RankBucketsInOrder(ts: seq<Tensor>, world: nat, rank: nat, limit: nat)
    requires rank < world && UniqueNames(ts)
    ensures var buckets := BucketsOf(PackAllTensors(Mine(ts, world, rank), limit));
            Concat(buckets) == Mine(ts, world, rank) && Tight(buckets, limit)
  {
    MineUnique(ts, world, rank);
    DistinctNamesInOrder(Mine(ts, world, rank), limit);
  }

  /** How many tensors a rank gets of the first n. */
  function ShareOf(n: nat, world: nat, rank: nat): nat
    requires world > 0
  {
    n / world + if n % world > rank then 1 else 0
  }

  lemma {:induction false} MineCount<T>(ts: seq<T>, world: nat, rank: nat)
    requires world > 0 && rank < world
    ensures |Mine(ts, world, rank)| == ShareOf(|ts|, world, rank)
  {
    if ts == [] {
      DivOfMultiple(world, 0, 0);
    } else {
      MineCount(ts[..|ts| - 1], world, rank);
      NextShare(|ts| - 1, world, rank);
    }
  }

  lemma NextShare(n: nat, world: nat, rank: nat)
    requires world > 0 && rank < world
    ensures ShareOf(n + 1, world, rank) == ShareOf(n, world, rank) + if n % world == rank then 1 else 0
  {
    var q, r := n / world, n % world;
    assert n == world * q + r;
    if r + 1 < world {
      DivOfMultiple(world, q, r + 1);
    } else {
      assert n + 1 == world * (q + 1);
      DivOfMultiple(world, q + 1, 0);
    }
  }

  lemma EmittedAt<T>(ts: seq<T>, world: nat, rank: nat, k: nat)
    requires rank < world && k * world + rank < |ts|
    ensures k < |Mine(ts, world, rank)| && Mine(ts, world, rank)[k] == ts[k * world + rank]
  {
    MineCount(ts, world, rank);
    PlaceExists(|ts|, world, rank, k);
    MineAt(ts, world, rank, k);
  }

  /** Over all ranks each tensor is emitted: by rank i % world, as its (i / world)-th ... */
  lemma EmittedSomewhere<T>(ts: seq<T>, world: nat, i: nat)
    requires world > 0 && i < |ts|
    ensures i % world < world && i / world < |Mine(ts, world, i % world)|
            && Mine(ts, world, i % world)[i / world] == ts[i]
  {
    DivMod(i, world);
    EmittedAt(ts, world, i % world, i / world);
  }

  /** ... and nowhere else: what rank emits in place k is tensor i for one pair of them only. */
  lemma EmittedOnce<T>(ts: seq<T>, world: nat, rank: nat, k: nat)
    requires world > 0 && rank < world && k < |Mine(ts, world, rank)|
    ensures var i := k * world + rank;
            i < |ts| && Mine(ts, world, rank)[k] == ts[i] && rank == i % world && k == i / world
  {
    MineAt(ts, world, rank, k);
    DivOfMultiple(world, k, rank);
    assert k * world == world * k;
  }

  lemma PlaceExists(n: nat, world: nat, rank: nat, k: nat)
    requires rank < world && k * world + rank < n
    ensures k < ShareOf(n, world, rank)
  {
    var q := n / world;
    DivMod(n, world);
    if q < k { MulMonotone(q, k, world); }
  }

  // ---------------------------------------------------------------- receive_tensor

  function Half(gidx: nat, bucketSize: nat): nat {
    gidx % 2 * bucketSize
  }

  /** The tensors of a bucket whose bytes begin at `start` in the buffer. */
  function ReadHalf(b: Bucket, buffer: seq<Byte>, start: nat): seq<Chunk> {
    seq(|b.entries|, i requires 0 <= i < |b.entries| =>
      ReadEntry(b.entries[i].(offset := start + b.entries[i].offset), buffer))
  }

  ghost predicate Holds(buffer: seq<Byte>, start: nat, content: seq<Byte>) {
    start + |content| <= |buffer| && buffer[start..start + |content|] == content
  }

  lemma ReadsTheBucket(b: Bucket, buffer: seq<Byte>, start: nat)
    requires SoundBucket(b, |b.content|) && Holds(buffer, start, b.content)
    ensures ReadHalf(b, buffer, start) == Unpack(b)
  {
    forall i | 0 <= i < |b.entries|
      ensures ReadHalf(b, buffer, start)[i] == Unpack(b)[i]
    {
      EntryFits(b, i);
      ReadsTheEntry(b.entries[i], b.content, buffer, start);
    }
  }

  lemma EntryFits(b: Bucket, i: nat)
    requires SoundBucket(b, |b.content|) && i < |b.entries|
    ensures b.entries[i].offset + b.entries[i].meta.chunkSize <= |b.content|
  {
  }

  lemma ReadsTheEntry(e: Entry, content: seq<Byte>, buffer: seq<Byte>, start: nat)
    requires e.offset + e.meta.chunkSize <= |content| && Holds(buffer, start, content)
    ensures ReadEntry(e.(offset := start + e.offset), buffer) == ReadEntry(e, content)
  {
    var n := e.meta.chunkSize;
    var x, y := buffer[start + e.offset..start + e.offset + n], content[e.offset..e.offset + n];
    forall k | 0 <= k < n
      ensures x[k] == y[k]
    {
      assert content[e.offset + k] == buffer[start..start + |content|][e.offset + k];
    }
  }

  /** The buffer once the bytes of `content` at the positions `at` have arrived behind `start`. */
  function Arrived(buffer: seq<Byte>, start: nat, content: seq<Byte>, at: set<nat>): seq<Byte> {
    seq(|buffer|, k requires 0 <= k < |buffer| =>
      if start <= k < start + |content| && k - start in at then content[k - start] else buffer[k])
  }

  function Below(n: nat): (s: set<nat>)
    ensures forall k: nat :: k in s <==> k < n
  {
    if n == 0 then {} else Below(n - 1) + {n - 1}
  }

  /** Bytes of a broadcast reach the receiver's buffer, in any order. */
  method Arrive(buffer: array<Byte>, start: nat, content: seq<Byte>, at: set<nat>)
    requires start + |content| <= buffer.Length && forall k :: k in at ==> k < |content|
    modifies buffer
    ensures buffer[..] == Arrived(old(buffer[..]), start, content, at)
  {
    var left := at;
    while left != {}
      invariant left <= at
      invariant buffer[..] == Arrived(old(buffer[..]), start, content, at - left)
    {
      var k :| k in left;
      buffer[start + k] := content[k];
      left := left - {k};
    }
    assert at - left == at;
  }

  /** Bytes that arrive in one half leave the other alone. */
  lemma OtherHalfStays(buffer: seq<Byte>, start: nat, content: seq<Byte>, other: nat, bytes: seq<Byte>, at: set<nat>)
    requires Holds(buffer, start, content)
    requires start + |content| <= other || other + |bytes| <= start
    ensures Holds(Arrived(buffer, other, bytes, at), start, content)
  {
    var after := Arrived(buffer, other, bytes, at);
    assert after[start..start + |content|] == buffer[start..start + |content|];
  }

  ghost predicate HasBytes(buffer: seq<Byte>, start: nat, content: seq<Byte>, at: set<nat>)
    requires start + |content| <= |buffer|
  {
    forall k :: k in at && k < |content| ==> buffer[start + k] == content[k]
  }

  /** A broadcast is there when each of its positions has arrived at some time. */
  lemma AllArrived(buffer: seq<Byte>, start: nat, content: seq<Byte>, before: set<nat>, rest: set<nat>)
    requires start + |content| <= |buffer| && HasBytes(buffer, start, content, before)
    requires forall k: nat :: k < |content| ==> k in before || k in rest
    ensures Holds(Arrived(buffer, start, content, rest), start, content)
  {
    var after := Arrived(buffer, start, content, rest);
    forall k | 0 <= k < |content| ensures after[start..start + |content|][k] == content[k] {
    }
  }

  /** Some positions of a bucket, as they arrive before each of n yields. */
  ghost predicate Arrivals(early: seq<set<nat>>, n: nat, content: seq<Byte>) {
    |early| == n && forall i, k :: 0 <= i < n && k in early[i] ==> k < |content|
  }

  /** One round of the loop: bucket g - 1 is yielded entry by entry while bucket g arrives, the bytes at the
      positions early[i] before the i-th yield and all others by the end of the wait. */
  method Round(buffer: array<Byte>, previous: Bucket, previousStart: nat, b: Bucket, start: nat, early: seq<set<nat>>)
    returns (yielded: seq<Chunk>)
    requires SoundBucket(previous, |previous.content|) && Holds(buffer[..], previousStart, previous.content)
    requires start + |b.content| <= buffer.Length && Arrivals(early, |previous.entries|, b.content)
    requires previousStart + |previous.content| <= start || start + |b.content| <= previousStart
    modifies buffer
    ensures Holds(buffer[..], start, b.content) && yielded == Unpack(previous)
  {
    yielded := [];
    var rest: set<nat> := Below(|b.content|);
    for i := 0 to |previous.entries|
      invariant yielded == Unpack(previous)[..i]
      invariant Holds(buffer[..], previousStart, previous.content)
      invariant forall k: nat :: k < |b.content| && k !in rest ==> buffer[start + k] == b.content[k]
      invariant forall k :: k in rest ==> k < |b.content|
    {
      OtherHalfStays(buffer[..], previousStart, previous.content, start, b.content, early[i]);
      Arrive(buffer, start, b.content, early[i]);
      rest := rest - early[i];
      ReadsTheBucket(previous, buffer[..], previousStart);
      yielded := yielded + [ReadHalf(previous, buffer[..], previousStart)[i]];
    }
    AllArrived(buffer[..], start, b.content, Below(|b.content|) - rest, rest);
    Arrive(buffer, start, b.content, rest);
  }

  lemma HalvesAreApart(g: nat, bucketSize: nat)
    requires g > 0
    ensures Half(g, bucketSize) + bucketSize <= 2 * bucketSize
    ensures || Half(g - 1, bucketSize) + bucketSize <= Half(g, bucketSize)
            || Half(g, bucketSize) + bucketSize <= Half(g - 1, bucketSize)
  {
  }

  /** The receive loop. While bucket g is being broadcast into one half, bucket g - 1 is yielded from the other:
      early[g] says which bytes of g arrive before which yield, and the result does not depend on it. */
  method ReceiveTensor(buckets: seq<Bucket>, bucketSize: nat, early: seq<seq<set<nat>>>)
    returns (r: Result<seq<Chunk>, BucketError>)
    requires forall g :: 0 <= g < |buckets| ==> SoundBucket(buckets[g], |buckets[g].content|)
    requires forall g :: 0 <= g < |buckets| ==> |buckets[g].content| <= bucketSize
    requires |early| == |buckets|
    requires forall g :: 0 < g < |buckets| ==> Arrivals(early[g], |buckets[g - 1].entries|, buckets[g].content)
    ensures r == if buckets == [] then Err(NoBuckets) else Ok(UnpackAll(buckets))
  {
    if buckets == [] { return Err(NoBuckets); }
    var buffer := new Byte[2 * bucketSize];
    var yielded: seq<Chunk> := [];
    CopyChunk(buffer, Half(0, bucketSize), buckets[0].content);
    assert buffer[..][0..|buckets[0].content|] == buckets[0].content;
    for g := 1 to |buckets|
      invariant yielded == UnpackAll(buckets[..g - 1])
      invariant Holds(buffer[..], Half(g - 1, bucketSize), buckets[g - 1].content)
    {
      HalvesAreApart(g, bucketSize);
      var now := Round(buffer, buckets[g - 1], Half(g - 1, bucketSize), buckets[g], Half(g, bucketSize), early[g]);
      assert buckets[..g][..g - 1] == buckets[..g - 1];
      yielded := yielded + now;
    }
    var last := |buckets| - 1;
    ReadsTheBucket(buckets[last], buffer[..], Half(last, bucketSize));
    yielded := yielded + ReadHalf(buckets[last], buffer[..], Half(last, bucketSize));
    return Ok(yielded);
  }
}
