/**
 Fused attention and MLP weights by rows: the interleaving of scripts/converter_hf_to_mcore.py, and the
 splits of verl/model_merger/megatron_model_merger.py and scripts/legacy_model_merger.py that undo it.
 */
module QkvLayout {
  import opened Arithmetic
  import opened Rows
  import opened Wrappers

  /** The rows of q, k and v, of one query group or of the whole layer. */
  datatype Qkv<T> = Qkv(q: seq<T>, k: seq<T>, v: seq<T>)

  /** Consecutive pieces of `size` rows, the last one possibly shorter. */
  function Pieces<T>(rows: seq<T>, size: nat): seq<seq<T>>
    requires size > 0
  {
    if |rows| <= size then [rows] else [rows[..size]] + Pieces(rows[size..], size)
  }

  /** tensor.chunk(n) for a tensor with rows */
  function Chunk<T>(rows: seq<T>, n: nat): seq<seq<T>>
    requires n > 0 && rows != []
  {
    CeilOfPositive(|rows|, n);
    Pieces(rows, CeilDiv(|rows|, n))
  }

  // ---------------------------------------------------------------- the converter

  /** Query group j: its queries, its key head and its value head, `torch.cat([q, k, v], dim=1)`. */
  function Groups<T>(q: seq<seq<T>>, k: seq<seq<T>>, v: seq<seq<T>>): seq<seq<T>>
    requires |q| == |k| == |v|
  {
    seq(|q|, j requires 0 <= j < |q| => q[j] + k[j] + v[j])
  }

  /** linear_qkv.weight from q_proj, k_proj and v_proj. */
  function Fuse<T>(w: Qkv<T>, kvHeads: nat, queriesPerGroup: nat, headDim: nat): seq<T>
    requires SizesFit(w, kvHeads, queriesPerGroup, headDim)
  {
    var q := Blocks(w.q, queriesPerGroup * headDim, kvHeads);
    var k, v := Blocks(w.k, headDim, kvHeads), Blocks(w.v, headDim, kvHeads);
    BlocksConcat(w.q, queriesPerGroup * headDim, kvHeads);
    BlocksConcat(w.k, headDim, kvHeads);
    BlocksConcat(w.v, headDim, kvHeads);
    Concat(Groups(q, k, v))
  }

  predicate SizesFit<T>(w: Qkv<T>, kvHeads: nat, queriesPerGroup: nat, headDim: nat) {
    && 0 < kvHeads && 0 < queriesPerGroup && 0 < headDim
    && |w.q| == kvHeads * (queriesPerGroup * headDim)
    && |w.k| == kvHeads * headDim && |w.v| == kvHeads * headDim
  }

  // ---------------------------------------------------------------- the mergers

  datatype MergeError = HeadsNotDivisible | RowsNotDivisible | NoGroups | SplitSizeMismatch

  /** `q, k, v = chunk.split([a, b, b])`, appended to what is there. */
  function AppendSplit<T>(sofar: Qkv<T>, chunk: seq<T>, a: nat, b: nat): Result<Qkv<T>, MergeError> {
    if |chunk| != a + b + b then Err(SplitSizeMismatch)
    else Ok(Qkv(sofar.q + chunk[..a], sofar.k + chunk[a..a + b], sofar.v + chunk[a + b..]))
  }

  function AppendSplits<T>(sofar: Qkv<T>, chunks: seq<seq<T>>, a: nat, b: nat): Result<Qkv<T>, MergeError>
    decreases |chunks|
  {
    if chunks == [] then Ok(sofar)
    else
      match AppendSplit(sofar, chunks[0], a, b)
      case Err(e) => Err(e)
      case Ok(next) => AppendSplits(next, chunks[1..], a, b)
  }

  function AppendShards<T>(sofar: Qkv<T>, shards: seq<seq<T>>, parts: nat, a: nat, b: nat): Result<Qkv<T>, MergeError>
    requires parts > 0 && forall i :: 0 <= i < |shards| ==> shards[i] != []
    decreases |shards|
  {
    if shards == [] then Ok(sofar)
    else
      match AppendSplits(sofar, Chunk(shards[0], parts), a, b)
      case Err(e) => Err(e)
      case Ok(next) => AppendShards(next, shards[1..], parts, a, b)
  }

  /** Rows of queries and rows of keys (or of values) in one chunk. */
  function SplitSizes(kvSize: nat, queriesPerKv: nat, parts: nat): (nat, nat)
    requires parts > 0
  {
    (kvSize * queriesPerKv / parts, kvSize / parts)
  }

  /** How a shard is cut: into `parts` chunks, and each chunk into a rows of queries, b of keys and b of values. */
  datatype Cut = Cut(parts: nat, a: nat, b: nat)

  /** The piece sizes come from the rows of the first of `tp` shards. */
  function CutOf(rows: nat, tp: nat, heads: nat, kvHeads: nat): (r: Result<Cut, MergeError>)
    requires tp > 0 && kvHeads > 0
    ensures r.Ok? ==> r.value.parts > 0
  {
    if heads % kvHeads != 0 then Err(HeadsNotDivisible)
    else if rows % (heads / kvHeads + 2) != 0 then Err(RowsNotDivisible)
    else if kvHeads / tp == 0 then Err(NoGroups)
    else
      var sizes := SplitSizes(rows / (heads / kvHeads + 2), heads / kvHeads, kvHeads / tp);
      Ok(Cut(kvHeads / tp, sizes.0, sizes.1))
  }

  function Merged<T>(tpData: seq<seq<T>>, heads: nat, kvHeads: nat): Result<Qkv<T>, MergeError>
    requires tpData != [] && kvHeads > 0 && forall i :: 0 <= i < |tpData| ==> tpData[i] != []
  {
    match CutOf(|tpData[0]|, |tpData|, heads, kvHeads)
    case Err(e) => Err(e)
    case Ok(cut) => AppendShards(Qkv([], [], []), tpData, cut.parts, cut.a, cut.b)
  }

  /** _merge_across_tp for linear_qkv; _split_tensors is the same with a single shard. */
  method MergeAcrossTp<T>(tpData: seq<seq<T>>, heads: nat, kvHeads: nat) returns (r: Result<Qkv<T>, MergeError>)
    requires tpData != [] && kvHeads > 0 && forall i :: 0 <= i < |tpData| ==> tpData[i] != []
    ensures r == Merged(tpData, heads, kvHeads)
  {
    if heads % kvHeads != 0 { return Err(HeadsNotDivisible); }
    var queriesPerKv: nat := heads / kvHeads;
    if |tpData[0]| % (queriesPerKv + 2) != 0 { return Err(RowsNotDivisible); }
    var kvSizePerTp: nat := |tpData[0]| / (queriesPerKv + 2);
    var groupsPerPartition: nat := kvHeads / |tpData|;
    if groupsPerPartition == 0 { return Err(NoGroups); }
    var sizes := SplitSizes(kvSizePerTp, queriesPerKv, groupsPerPartition);
    r := AppendAllShards(tpData, groupsPerPartition, sizes.0, sizes.1);
  }

  /** The outer loop, over the shards of the tensor parallel ranks. */
  method AppendAllShards<T>(tpData: seq<seq<T>>, parts: nat, a: nat, b: nat) returns (r: Result<Qkv<T>, MergeError>)
    requires parts > 0 && forall i :: 0 <= i < |tpData| ==> tpData[i] != []
    ensures r == AppendShards(Qkv([], [], []), tpData, parts, a, b)
  {
    var lists: Qkv<T> := Qkv([], [], []);
    assert tpData[0..] == tpData;
    for i := 0 to |tpData|
      invariant AppendShards(lists, tpData[i..], parts, a, b) == AppendShards(Qkv([], [], []), tpData, parts, a, b)
    {
      assert tpData[i..][0] == tpData[i] && tpData[i..][1..] == tpData[i + 1..];
      var chunks := Chunk(tpData[i], parts);
      var next := AppendChunks(lists, chunks, a, b);
      if next.Err? { return next; }
      lists := next.value;
    }
    return Ok(lists);
  }

  /** The inner loop: every chunk of one shard is split and appended. */
  method AppendChunks<T>(sofar: Qkv<T>, chunks: seq<seq<T>>, a: nat, b: nat) returns (r: Result<Qkv<T>, MergeError>)
    ensures r == AppendSplits(sofar, chunks, a, b)
  {
    var lists := sofar;
    assert chunks[0..] == chunks;
    for j := 0 to |chunks|
      invariant AppendSplits(lists, chunks[j..], a, b) == AppendSplits(sofar, chunks, a, b)
    {
      assert chunks[j..][0] == chunks[j] && chunks[j..][1..] == chunks[j + 1..];
      var next := AppendSplit(lists, chunks[j], a, b);
      if next.Err? { return next; }
      lists := next.value;
    }
    return Ok(lists);
  }

  // ---------------------------------------------------------------- undoing the interleaving

  lemma {:induction false} PiecesOfConcat<T>(blocks: seq<seq<T>>, size: nat)
    requires size > 0 && blocks != [] && SameSize(blocks, size)
    ensures Pieces(Concat(blocks), size) == blocks
  {
    var rows := Concat(blocks);
    assert rows == blocks[0] + Concat(blocks[1..]);
    if |blocks| == 1 {
      assert Concat(blocks[1..]) == [];
      assert rows == blocks[0];
    } else {
      ConcatLength(blocks[1..], size);
      BlockFits(|blocks| - 1, size);
      PiecesOfConcat(blocks[1..], size);
      assert rows[..size] == blocks[0] && rows[size..] == Concat(blocks[1..]);
    }
  }

  lemma CeilOfMultiple(n: nat, size: nat)
    requires n > 0
    ensures CeilDiv(n * size, n) == size
  {
    assert (n * size + n - 1) / n == size by {
      assert n * size + n - 1 == n * size + (n - 1);
      DivOfMultiple(n, size, n - 1);
    }
  }

  /** chunk cuts a concatenation of equal blocks at the seams. */
  lemma ChunkOfConcat<T>(blocks: seq<seq<T>>, size: nat)
    requires size > 0 && blocks != [] && SameSize(blocks, size)
    ensures Concat(blocks) != [] && Chunk(Concat(blocks), |blocks|) == blocks
  {
    ConcatLength(blocks, size);
    BlockFits(|blocks|, size);
    CeilOfMultiple(|blocks|, size);
    PiecesOfConcat(blocks, size);
  }

  lemma JoinNext<T>(sofar: seq<T>, blocks: seq<seq<T>>)
    requires blocks != []
    ensures sofar + Concat(blocks) == sofar + blocks[0] + Concat(blocks[1..])
  {
  }

  /** Splitting the groups one by one collects all queries, all keys and all values, in order. */
  lemma {:induction false} SplitsOfGroups<T>(sofar: Qkv<T>, q: seq<seq<T>>, k: seq<seq<T>>, v: seq<seq<T>>, a: nat,
                                             b: nat)
    requires |q| == |k| == |v| && SameSize(q, a) && SameSize(k, b) && SameSize(v, b)
    ensures AppendSplits(sofar, Groups(q, k, v), a, b) ==
            Ok(Qkv(sofar.q + Concat(q), sofar.k + Concat(k), sofar.v + Concat(v)))
    decreases |q|
  {
    if q == [] {
      assert sofar.q + [] == sofar.q && sofar.k + [] == sofar.k && sofar.v + [] == sofar.v;
    } else {
      var chunk := q[0] + k[0] + v[0];
      assert chunk[..a] == q[0] && chunk[a..a + b] == k[0] && chunk[a + b..] == v[0];
      assert Groups(q, k, v)[0] == chunk && Groups(q, k, v)[1..] == Groups(q[1..], k[1..], v[1..]);
      var next := Qkv(sofar.q + q[0], sofar.k + k[0], sofar.v + v[0]);
      SplitsOfGroups(next, q[1..], k[1..], v[1..], a, b);
      JoinNext(sofar.q, q);
      JoinNext(sofar.k, k);
      JoinNext(sofar.v, v);
    }
  }

  /** Row shards of a fused tensor under tensor parallelism: `parts` query groups each. */
  function ShardGroups<T>(groups: seq<seq<T>>, parts: nat, tp: nat): seq<seq<T>>
    requires |groups| == tp * parts
    decreases tp
  {
    if tp == 0 then []
    else
      BlockFits(tp, parts);
      [Concat(groups[..parts])] + ShardGroups(groups[parts..], parts, tp - 1)
  }

  /** Row shards: `tp` consecutive pieces of the same number of rows. */
  function ShardRows<T>(rows: seq<T>, tp: nat): seq<seq<T>>
    requires tp > 0 && |rows| % tp == 0
  {
    Blocks(rows, |rows| / tp, tp)
  }

  lemma {:induction false} ShardsAreGroups<T>(groups: seq<seq<T>>, parts: nat, tp: nat, size: nat)
    requires |groups| == tp * parts && SameSize(groups, size)
    ensures |Concat(groups)| == tp * (parts * size)
    ensures Blocks(Concat(groups), parts * size, tp) == ShardGroups(groups, parts, tp)
    decreases tp
  {
    var rows, piece := Concat(groups), parts * size;
    ConcatLength(groups, size);
    MulAssoc(tp, parts, size);
    if tp > 0 {
      BlockFits(tp, parts);
      var first, rest := groups[..parts], groups[parts..];
      ConcatLength(first, size);
      assert groups == first + rest;
      ConcatAppend(first, rest);
      ShardsAreGroups(rest, parts, tp - 1, size);
      FirstBlock(rows, Concat(first), Concat(rest), piece, tp);
    }
  }

  function AppendBlocks<T>(sofar: Qkv<T>, q: seq<seq<T>>, k: seq<seq<T>>, v: seq<seq<T>>): Qkv<T> {
    Qkv(sofar.q + Concat(q), sofar.k + Concat(k), sofar.v + Concat(v))
  }

  lemma AppendBlocksTwice<T>(sofar: Qkv<T>, q: seq<seq<T>>, k: seq<seq<T>>, v: seq<seq<T>>, parts: nat)
    requires |q| == |k| == |v| && parts <= |q|
    ensures AppendBlocks(AppendBlocks(sofar, q[..parts], k[..parts], v[..parts]), q[parts..], k[parts..], v[parts..])
         == AppendBlocks(sofar, q, k, v)
  {
    assert q == q[..parts] + q[parts..] && k == k[..parts] + k[parts..] && v == v[..parts] + v[parts..];
    ConcatAppend(q[..parts], q[parts..]);
    ConcatAppend(k[..parts], k[parts..]);
    ConcatAppend(v[..parts], v[parts..]);
  }

  /** One shard of whole groups. */
  lemma ShardMerges<T>(sofar: Qkv<T>, q: seq<seq<T>>, k: seq<seq<T>>, v: seq<seq<T>>, a: nat, b: nat)
    requires |q| == |k| == |v| > 0 && b > 0
    requires SameSize(q, a) && SameSize(k, b) && SameSize(v, b)
    ensures var shard := Concat(Groups(q, k, v));
            shard != [] && AppendSplits(sofar, Chunk(shard, |q|), a, b) == Ok(AppendBlocks(sofar, q, k, v))
  {
    ChunkOfConcat(Groups(q, k, v), a + b + b);
    SplitsOfGroups(sofar, q, k, v, a, b);
  }

  lemma {:induction false} ShardsMerge<T>(sofar: Qkv<T>, q: seq<seq<T>>, k: seq<seq<T>>, v: seq<seq<T>>,
                                          parts: nat, tp: nat, a: nat, b: nat)
    requires |q| == |k| == |v| == tp * parts && parts > 0 && b > 0
    requires SameSize(q, a) && SameSize(k, b) && SameSize(v, b)
    ensures var shards := ShardGroups(Groups(q, k, v), parts, tp);
            && (forall i :: 0 <= i < |shards| ==> shards[i] != [])
            && AppendShards(sofar, shards, parts, a, b) == Ok(AppendBlocks(sofar, q, k, v))
    decreases tp
  {
    var groups := Groups(q, k, v);
    if tp == 0 {
      assert q == [] && k == [] && v == [];
      assert sofar.q + [] == sofar.q && sofar.k + [] == sofar.k && sofar.v + [] == sofar.v;
    } else {
      BlockFits(tp, parts);
      var q0, k0, v0, q1, k1, v1 := q[..parts], k[..parts], v[..parts], q[parts..], k[parts..], v[parts..];
      assert groups[..parts] == Groups(q0, k0, v0) && groups[parts..] == Groups(q1, k1, v1);
      ShardMerges(sofar, q0, k0, v0, a, b);
      var next := AppendBlocks(sofar, q0, k0, v0);
      ShardsMerge(next, q1, k1, v1, parts, tp - 1, a, b);
      AppendBlocksTwice(sofar, q, k, v, parts);
      PrependShard(sofar, next, Concat(groups[..parts]), ShardGroups(groups[parts..], parts, tp - 1), parts, a, b);
    }
  }

  lemma PrependShard<T>(sofar: Qkv<T>, next: Qkv<T>, shard: seq<T>, rest: seq<seq<T>>, parts: nat, a: nat, b: nat)
    requires parts > 0 && shard != [] && forall i :: 0 <= i < |rest| ==> rest[i] != []
    requires AppendSplits(sofar, Chunk(shard, parts), a, b) == Ok(next)
    ensures var shards := [shard] + rest;
            && (forall i :: 0 <= i < |shards| ==> shards[i] != [])
            && AppendShards(sofar, shards, parts, a, b) == AppendShards(next, rest, parts, a, b)
  {
    var shards := [shard] + rest;
    assert shards[1..] == rest;
  }

  /** The sizes the merger derives from the shape of the first shard. */
  lemma MergerSizes(kvHeads: nat, tp: nat, parts: nat, queriesPerGroup: nat, headDim: nat)
    requires 0 < tp && 0 < parts && kvHeads == tp * parts && 0 < queriesPerGroup && 0 < headDim
    ensures kvHeads / tp == parts
    ensures var rows := parts * (queriesPerGroup * headDim + headDim + headDim);
            && rows % (queriesPerGroup + 2) == 0
            && var size := rows / (queriesPerGroup + 2);
               size * queriesPerGroup / parts == queriesPerGroup * headDim && size / parts == headDim
    ensures (queriesPerGroup * kvHeads) % kvHeads == 0 && (queriesPerGroup * kvHeads) / kvHeads == queriesPerGroup
  {
    ShardSizes(parts, queriesPerGroup, headDim);
    DivOfMultiple(tp, parts, 0);
    BlockFits(tp, parts);
    DivOfMultiple(kvHeads, queriesPerGroup, 0);
  }

  lemma ShardSizes(parts: nat, queriesPerGroup: nat, headDim: nat)
    requires 0 < parts
    ensures var rows := parts * (queriesPerGroup * headDim + headDim + headDim);
            && rows % (queriesPerGroup + 2) == 0
            && var size := rows / (queriesPerGroup + 2);
               size * queriesPerGroup / parts == queriesPerGroup * headDim && size / parts == headDim
  {
    var rows := parts * (queriesPerGroup * headDim + headDim + headDim);
    RowsFactor(parts, queriesPerGroup, headDim);
    DivOfMultiple(queriesPerGroup + 2, parts * headDim, 0);
    DivOfMultiple(parts, headDim, 0);
    DivOfMultiple(parts, queriesPerGroup * headDim, 0);
  }

  lemma RowsFactor(parts: nat, queriesPerGroup: nat, headDim: nat)
    ensures parts * (queriesPerGroup * headDim + headDim + headDim) == (queriesPerGroup + 2) * (parts * headDim)
    ensures (parts * headDim) * queriesPerGroup == parts * (queriesPerGroup * headDim)
  {
  }

  /** The shards of a fused tensor: whole query groups, so that no group is cut. */
  lemma FusedShards<T>(w: Qkv<T>, tp: nat, parts: nat, queriesPerGroup: nat, headDim: nat)
    requires 0 < tp && 0 < parts && SizesFit(w, tp * parts, queriesPerGroup, headDim)
    ensures var fused, a := Fuse(w, tp * parts, queriesPerGroup, headDim), queriesPerGroup * headDim;
            && |fused| % tp == 0 && |fused| / tp == parts * (a + headDim + headDim)
            && |ShardRows(fused, tp)| == tp
            && (forall i :: 0 <= i < tp ==> |ShardRows(fused, tp)[i]| == |fused| / tp)
            && AppendShardsGives(ShardRows(fused, tp), parts, a, headDim, w)
  {
    var a, n := queriesPerGroup * headDim, tp * parts;
    var q, k, v := FusedGroups(w, n, queriesPerGroup, headDim);
    ShardsOfGroups(Fuse(w, n, queriesPerGroup, headDim), Groups(q, k, v), parts, tp, a + headDim + headDim);
    ShardsMergeTo(w, q, k, v, parts, tp, a, headDim);
  }

  lemma FusedGroups<T>(w: Qkv<T>, n: nat, queriesPerGroup: nat, headDim: nat)
    returns (q: seq<seq<T>>, k: seq<seq<T>>, v: seq<seq<T>>)
    requires SizesFit(w, n, queriesPerGroup, headDim)
    ensures |q| == |k| == |v| == n
    ensures SameSize(q, queriesPerGroup * headDim) && SameSize(k, headDim) && SameSize(v, headDim)
    ensures w == Qkv(Concat(q), Concat(k), Concat(v)) && Fuse(w, n, queriesPerGroup, headDim) == Concat(Groups(q, k, v))
  {
    var a := queriesPerGroup * headDim;
    q, k, v := Blocks(w.q, a, n), Blocks(w.k, headDim, n), Blocks(w.v, headDim, n);
    BlocksConcat(w.q, a, n);
    BlocksConcat(w.k, headDim, n);
    BlocksConcat(w.v, headDim, n);
  }

  lemma ShardsOfGroups<T>(fused: seq<T>, groups: seq<seq<T>>, parts: nat, tp: nat, size: nat)
    requires tp > 0 && |groups| == tp * parts && SameSize(groups, size) && fused == Concat(groups)
    ensures |fused| % tp == 0 && |fused| / tp == parts * size
    ensures ShardRows(fused, tp) == ShardGroups(groups, parts, tp) && |ShardRows(fused, tp)| == tp
    ensures forall i :: 0 <= i < tp ==> |ShardRows(fused, tp)[i]| == |fused| / tp
  {
    ShardsAreGroups(groups, parts, tp, size);
    ExactDiv(|fused|, tp, parts * size);
    BlocksConcat(fused, parts * size, tp);
  }

  lemma ShardsMergeTo<T>(w: Qkv<T>, q: seq<seq<T>>, k: seq<seq<T>>, v: seq<seq<T>>, parts: nat, tp: nat, a: nat, b: nat)
    requires |q| == |k| == |v| == tp * parts && parts > 0 && b > 0
    requires SameSize(q, a) && SameSize(k, b) && SameSize(v, b)
    requires w == Qkv(Concat(q), Concat(k), Concat(v))
    ensures AppendShardsGives(ShardGroups(Groups(q, k, v), parts, tp), parts, a, b, w)
  {
    ShardsMerge(Qkv([], [], []), q, k, v, parts, tp, a, b);
    assert [] + w.q == w.q && [] + w.k == w.k && [] + w.v == w.v;
  }

  ghost predicate AppendShardsGives<T>(shards: seq<seq<T>>, parts: nat, a: nat, b: nat, w: Qkv<T>)
    requires parts > 0
  {
    && (forall i :: 0 <= i < |shards| ==> shards[i] != [])
    && AppendShards(Qkv([], [], []), shards, parts, a, b) == Ok(w)
  }

  lemma ExactDiv(x: nat, n: nat, size: nat)
    requires n > 0 && x == n * size
    ensures x / n == size && x % n == 0
  {
    DivOfMultiple(n, size, 0);
  }

  /** Converting and then merging, over any tensor parallel size that divides the kv heads, gives back q, k
      and v row for row. With tp == 1 this is _split_tensors. */
  lemma ConvertThenMerge<T>(w: Qkv<T>, tp: nat, parts: nat, queriesPerGroup: nat, headDim: nat)
    requires 0 < tp && 0 < parts && SizesFit(w, tp * parts, queriesPerGroup, headDim)
    ensures var fused := Fuse(w, tp * parts, queriesPerGroup, headDim);
            && |fused| % tp == 0
            && var shards := ShardRows(fused, tp);
               && shards != [] && (forall i :: 0 <= i < |shards| ==> shards[i] != [])
               && Merged(shards, queriesPerGroup * (tp * parts), tp * parts) == Ok(w)
  {
    FusedShards(w, tp, parts, queriesPerGroup, headDim);
    MergerSizes(tp * parts, tp, parts, queriesPerGroup, headDim);
  }

  // ---------------------------------------------------------------- when merging succeeds

  function RowsIn<T>(w: Qkv<T>): multiset<T> {
    multiset(w.q) + multiset(w.k) + multiset(w.v)
  }

  lemma SplitKeepsRows<T>(sofar: Qkv<T>, chunk: seq<T>, a: nat, b: nat)
    ensures AppendSplit(sofar, chunk, a, b).Ok? <==> |chunk| == a + b + b
    ensures AppendSplit(sofar, chunk, a, b).Ok? ==>
              RowsIn(AppendSplit(sofar, chunk, a, b).value) == RowsIn(sofar) + multiset(chunk)
  {
    if |chunk| == a + b + b {
      assert chunk == chunk[..a] + chunk[a..a + b] + chunk[a + b..];
      assert multiset(chunk) == multiset(chunk[..a]) + multiset(chunk[a..a + b]) + multiset(chunk[a + b..]);
    }
  }

  lemma {:induction false} SplitsKeepRows<T>(sofar: Qkv<T>, chunks: seq<seq<T>>, a: nat, b: nat)
    ensures var r := AppendSplits(sofar, chunks, a, b);
            && (r.Ok? <==> SameSize(chunks, a + b + b))
            && (r.Ok? ==> RowsIn(r.value) == RowsIn(sofar) + multiset(Concat(chunks)))
    decreases |chunks|
  {
    if chunks != [] {
      SplitKeepsRows(sofar, chunks[0], a, b);
      var next := AppendSplit(sofar, chunks[0], a, b);
      assert SameSize(chunks, a + b + b) <==> |chunks[0]| == a + b + b && SameSize(chunks[1..], a + b + b) by {
        assert forall i :: 1 <= i < |chunks| ==> chunks[i] == chunks[1..][i - 1];
      }
      if next.Ok? {
        SplitsKeepRows(next.value, chunks[1..], a, b);
        assert multiset(Concat(chunks)) == multiset(chunks[0]) + multiset(Concat(chunks[1..]));
      }
    }
  }

  /** The pieces are the rows, cut after every `size` of them. */
  lemma {:induction false} PiecesAre<T>(rows: seq<T>, size: nat)
    requires size > 0 && rows != []
    ensures var pieces := Pieces(rows, size);
            && Concat(pieces) == rows && pieces != []
            && (forall i :: 0 <= i < |pieces| - 1 ==> |pieces[i]| == size) && 0 < |pieces[|pieces| - 1]| <= size
  {
    if |rows| <= size {
      assert Concat([rows]) == rows + Concat([rows][1..]) == rows;
    } else {
      PiecesAre(rows[size..], size);
      assert Pieces(rows, size)[1..] == Pieces(rows[size..], size);
    }
  }

  /** Every chunk of every shard has the size that the first shard calls for. */
  ghost predicate AllSplit<T>(shards: seq<seq<T>>, parts: nat, size: nat)
    requires parts > 0
  {
    forall i :: 0 <= i < |shards| ==> shards[i] != [] && SameSize(Chunk(shards[i], parts), size)
  }

  lemma AllSplitCons<T>(shards: seq<seq<T>>, parts: nat, size: nat)
    requires parts > 0 && shards != [] && shards[0] != []
    ensures AllSplit(shards, parts, size) <==>
            SameSize(Chunk(shards[0], parts), size) && AllSplit(shards[1..], parts, size)
  {
    assert forall i :: 1 <= i < |shards| ==> shards[i] == shards[1..][i - 1];
  }

  lemma {:induction false} ShardsKeepRows<T>(sofar: Qkv<T>, shards: seq<seq<T>>, parts: nat, a: nat, b: nat)
    requires parts > 0 && forall i :: 0 <= i < |shards| ==> shards[i] != []
    ensures var r := AppendShards(sofar, shards, parts, a, b);
            && (r.Ok? <==> AllSplit(shards, parts, a + b + b))
            && (r.Ok? ==> RowsIn(r.value) == RowsIn(sofar) + multiset(Concat(shards)))
    decreases |shards|
  {
    if shards != [] {
      var chunks := Chunk(shards[0], parts);
      CeilOfPositive(|shards[0]|, parts);
      PiecesAre(shards[0], CeilDiv(|shards[0]|, parts));
      SplitsKeepRows(sofar, chunks, a, b);
      AllSplitCons(shards, parts, a + b + b);
      if AppendSplits(sofar, chunks, a, b).Ok? {
        ShardsKeepRows(AppendSplits(sofar, chunks, a, b).value, shards[1..], parts, a, b);
        assert multiset(Concat(shards)) == multiset(shards[0]) + multiset(Concat(shards[1..]));
      }
    }
  }

  /** A shard can be cut exactly when the heads divide, the rows divide, and every rank has a group; the chunks are
      the groups of a rank, and the sizes the largest of which the keys and the queries of a shard hold that many. */
  lemma CutIs(rows: nat, tp: nat, heads: nat, kvHeads: nat)
    requires tp > 0 && kvHeads > 0
    ensures var r, queries := CutOf(rows, tp, heads, kvHeads), heads / kvHeads;
            && (r.Ok? <==> heads % kvHeads == 0 && rows % (queries + 2) == 0 && tp <= kvHeads)
            && (r.Ok? ==>
                  && HoldsMost(r.value.parts, tp, kvHeads)
                  && HoldsMost(r.value.a, r.value.parts, rows / (queries + 2) * queries)
                  && HoldsMost(r.value.b, r.value.parts, rows / (queries + 2)))
  {
    QuotientHoldsMost(kvHeads, tp);
    if kvHeads / tp > 0 { SplitSizesHold(rows / (heads / kvHeads + 2), heads / kvHeads, kvHeads / tp); }
  }

  lemma SplitSizesHold(kvSize: nat, queriesPerKv: nat, parts: nat)
    requires parts > 0
    ensures var sizes := SplitSizes(kvSize, queriesPerKv, parts);
            HoldsMost(sizes.0, parts, kvSize * queriesPerKv) && HoldsMost(sizes.1, parts, kvSize)
  {
    QuotientHoldsMost(kvSize * queriesPerKv, parts);
    QuotientHoldsMost(kvSize, parts);
  }

  /** `total` has room for n times x, and for no more. */
  ghost predicate HoldsMost(x: nat, n: nat, total: nat) {
    n * x <= total < n * x + n
  }

  lemma QuotientHoldsMost(total: nat, n: nat)
    requires n > 0
    ensures HoldsMost(total / n, n, total) && (total / n > 0 <==> n <= total)
  {
    assert total == n * (total / n) + total % n;
    AtLeastOnce(n, total / n);
    if total / n > 0 { MulMonotone(1, total / n, n); }
  }

  /** Merging succeeds exactly when there is a cut and every chunk of every shard has its size; then every row of
      every shard is in q, k or v, as often as in the shards. */
  lemma MergesIff<T>(tpData: seq<seq<T>>, heads: nat, kvHeads: nat)
    requires tpData != [] && kvHeads > 0 && forall i :: 0 <= i < |tpData| ==> tpData[i] != []
    ensures var r, cut := Merged(tpData, heads, kvHeads), CutOf(|tpData[0]|, |tpData|, heads, kvHeads);
            && (r.Ok? <==> cut.Ok? && AllSplit(tpData, cut.value.parts, cut.value.a + cut.value.b + cut.value.b))
            && (r.Ok? ==> RowsIn(r.value) == multiset(Concat(tpData)))
  {
    var cut := CutOf(|tpData[0]|, |tpData|, heads, kvHeads);
    if cut.Ok? { ShardsKeepRows(Qkv([], [], []), tpData, cut.value.parts, cut.value.a, cut.value.b); }
  }

  // ---------------------------------------------------------------- gate and up

  /** `gate, up = infer_param.chunk(2)` for every shard, concatenated. */
  method MergeGateUp<T>(shards: seq<seq<T>>) returns (gate: seq<T>, up: seq<T>)
    requires forall i :: 0 <= i < |shards| ==> |shards[i]| > 1
    ensures (gate, up) == GateUp(shards)
  {
    gate, up := [], [];
    assert shards[0..] == shards;
    assert gate + GateUp(shards).0 == GateUp(shards).0 && up + GateUp(shards).1 == GateUp(shards).1;
    for i := 0 to |shards|
      invariant (gate + GateUp(shards[i..]).0, up + GateUp(shards[i..]).1) == GateUp(shards)
    {
      assert shards[i..][0] == shards[i] && shards[i..][1..] == shards[i + 1..];
      TwoPieces(shards[i]);
      var halves := Chunk(shards[i], 2);
      ghost var rest := GateUp(shards[i + 1..]);
      assert gate + (halves[0] + rest.0) == (gate + halves[0]) + rest.0;
      assert up + (halves[1] + rest.1) == (up + halves[1]) + rest.1;
      gate, up := gate + halves[0], up + halves[1];
    }
    assert shards[|shards|..] == [];
    assert gate + [] == gate && up + [] == up;
  }

  function GateUp<T>(shards: seq<seq<T>>): (seq<T>, seq<T>)
    requires forall i :: 0 <= i < |shards| ==> |shards[i]| > 1
  {
    if shards == [] then ([], [])
    else
      TwoPieces(shards[0]);
      var halves, rest := Chunk(shards[0], 2), GateUp(shards[1..]);
      (halves[0] + rest.0, halves[1] + rest.1)
  }

  lemma TwoPieces<T>(rows: seq<T>)
    requires |rows| > 1
    ensures var half := CeilDiv(|rows|, 2); half < |rows| && Chunk(rows, 2) == [rows[..half], rows[half..]]
  {
    var size := CeilDiv(|rows|, 2);
    assert size < |rows| && |rows[size..]| <= size;
    assert Pieces(rows, size) == [rows[..size]] + Pieces(rows[size..], size);
    assert Pieces(rows[size..], size) == [rows[size..]];
  }

  /** Shards that hold their part of gate above their part of up come apart again. */
  lemma {:induction false} GateUpRoundTrip<T>(gates: seq<seq<T>>, ups: seq<seq<T>>)
    requires |gates| == |ups| && forall i :: 0 <= i < |gates| ==> |gates[i]| == |ups[i]| > 0
    ensures var shards := seq(|gates|, i requires 0 <= i < |gates| => gates[i] + ups[i]);
            (forall i :: 0 <= i < |shards| ==> |shards[i]| > 1) && GateUp(shards) == (Concat(gates), Concat(ups))
  {
    var shards := seq(|gates|, i requires 0 <= i < |gates| => gates[i] + ups[i]);
    if gates != [] {
      GateUpRoundTrip(gates[1..], ups[1..]);
      assert shards[1..] == seq(|gates[1..]|, i requires 0 <= i < |gates[1..]| => gates[1..][i] + ups[1..][i]);
      ChunkOfConcat([gates[0], ups[0]], |gates[0]|);
      assert Concat([gates[0], ups[0]]) == gates[0] + ups[0] by {
        assert [gates[0], ups[0]][1..] == [ups[0]];
        assert [ups[0]][1..] == [];
      }
    }
  }
}
