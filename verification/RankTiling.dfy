/**
 How layers and files are numbered when a model is spread over pipeline ranks:
 verl/model_merger/megatron_model_merger.py, scripts/converter_hf_to_mcore.py and scripts/legacy_model_merger.py.
 */
module RankTiling {
  import opened Arithmetic
  import opened Rows

  function Sum(counts: seq<nat>): nat {
    if counts == [] then 0 else Sum(counts[..|counts| - 1]) + counts[|counts| - 1]
  }

  /** `0 if rank == 0 else cumsum(shards)[rank - 1]` */
  function LayerStart(shards: seq<nat>, rank: nat): nat
    requires rank <= |shards|
  {
    Sum(shards[..rank])
  }

  lemma NextStart(shards: seq<nat>, rank: nat)
    requires rank < |shards|
    ensures LayerStart(shards, rank + 1) == LayerStart(shards, rank) + shards[rank]
  {
    assert shards[..rank + 1][..rank] == shards[..rank];
  }

  lemma {:induction false} StartsIncrease(shards: seq<nat>, a: nat, b: nat)
    requires a <= b <= |shards|
    ensures LayerStart(shards, a) <= LayerStart(shards, b)
    decreases b - a
  {
    if a < b {
      NextStart(shards, b - 1);
      StartsIncrease(shards, a, b - 1);
    }
  }

  // ---------------------------------------------------------------- layer ranges

  predicate Owns(shards: seq<nat>, rank: nat, layer: nat)
    requires rank < |shards|
  {
    LayerStart(shards, rank) <= layer < LayerStart(shards, rank + 1)
  }

  lemma {:induction false} SomeRankOwns(shards: seq<nat>, upTo: nat, layer: nat) returns (rank: nat)
    requires upTo <= |shards| && layer < LayerStart(shards, upTo)
    ensures rank < upTo && Owns(shards, rank, layer)
  {
    if layer >= LayerStart(shards, upTo - 1) {
      rank := upTo - 1;
    } else {
      rank := SomeRankOwns(shards, upTo - 1, layer);
    }
  }

  lemma OwnerIsUnique(shards: seq<nat>, a: nat, b: nat, layer: nat)
    requires a < |shards| && b < |shards| && Owns(shards, a, layer) && Owns(shards, b, layer)
    ensures a == b
  {
    if a < b { StartsIncrease(shards, a + 1, b); }
    if b < a { StartsIncrease(shards, b + 1, a); }
  }

  /** The ranges of the ranks tile [0, number of layers): every layer has one owner, the ranges are as long as the
      ranks' shares, and they follow each other in rank order. */
  lemma RangesTile(shards: seq<nat>, layer: nat)
    ensures layer < Sum(shards) <==> exists rank :: 0 <= rank < |shards| && Owns(shards, rank, layer)
    ensures forall a, b ::
              0 <= a < |shards| && 0 <= b < |shards| && Owns(shards, a, layer) && Owns(shards, b, layer) ==> a == b
    ensures LayerStart(shards, 0) == 0
    ensures forall a :: 0 <= a < |shards| ==> LayerStart(shards, a + 1) == LayerStart(shards, a) + shards[a]
  {
    forall a | 0 <= a < |shards| ensures LayerStart(shards, a + 1) == LayerStart(shards, a) + shards[a] {
      NextStart(shards, a);
    }
    assert shards[..|shards|] == shards;
    if layer < Sum(shards) {
      var rank := SomeRankOwns(shards, |shards|, layer);
    }
    forall rank | 0 <= rank < |shards| && Owns(shards, rank, layer)
      ensures layer < Sum(shards)
    {
      StartsIncrease(shards, rank + 1, |shards|);
    }
    forall a, b | 0 <= a < |shards| && 0 <= b < |shards| && Owns(shards, a, layer) && Owns(shards, b, layer)
      ensures a == b
    {
      OwnerIsUnique(shards, a, b, layer);
    }
  }

  // ---------------------------------------------------------------- renumbering while merging

  /** A stage is the list of local layer numbers its state dict mentions; `layers_cum` after a stage. */
  function MaxLocal(stage: seq<nat>): nat {
    if stage == [] then 0
    else
      var m := MaxLocal(stage[..|stage| - 1]);
      if stage[|stage| - 1] > m then stage[|stage| - 1] else m
  }

  function LayersCum(stages: seq<seq<nat>>): nat {
    if stages == [] then 0 else LayersCum(stages[..|stages| - 1]) + MaxLocal(stages[|stages| - 1]) + 1
  }

  /** The merged numbers: a stage's own, behind `first` and what the earlier stages have moved the numbering on by. */
  ghost predicate NumberedFrom(first: nat, stages: seq<seq<nat>>, globals: seq<seq<nat>>) {
    && |globals| == |stages|
    && forall i :: 0 <= i < |stages| ==> globals[i] == Shifted(stages[i], first + LayersCum(stages[..i]))
  }

  /** _merge_state_dicts, reduced to the layer numbers it writes: one list per stage, in key order. The legacy merger
      starts at 0; a rank of the distributed one starts at its own range. */
  method RenumberLayers(stages: seq<seq<nat>>, first: nat) returns (globals: seq<seq<nat>>)
    ensures NumberedFrom(first, stages, globals)
  {
    globals := [];
    var layersCum := first;
    for i := 0 to |stages|
      invariant |globals| == i && layersCum == first + LayersCum(stages[..i])
      invariant forall j :: 0 <= j < i ==> globals[j] == Shifted(stages[j], first + LayersCum(stages[..j]))
    {
      var row, layersHandled := RenumberStage(stages[i], layersCum);
      assert stages[..i + 1][..i] == stages[..i];
      globals := globals + [row];
      layersCum := layersCum + layersHandled + 1;
    }
  }

  function Shifted(stage: seq<nat>, offset: nat): seq<nat> {
    seq(|stage|, k requires 0 <= k < |stage| => stage[k] + offset)
  }

  method RenumberStage(stage: seq<nat>, layersCum: nat) returns (row: seq<nat>, layersHandled: nat)
    ensures row == Shifted(stage, layersCum) && layersHandled == MaxLocal(stage)
  {
    row, layersHandled := [], 0;
    for k := 0 to |stage|
      invariant row == Shifted(stage[..k], layersCum) && layersHandled == MaxLocal(stage[..k])
    {
      assert stage[..k + 1][..k] == stage[..k];
      layersHandled := if stage[k] > layersHandled then stage[k] else layersHandled;
      row := row + [stage[k] + layersCum];
    }
    assert stage[..|stage|] == stage;
  }

  /** The local numbers of a stage are 0 .. count - 1, in any order and with repetitions. */
  ghost predicate Contiguous(stage: seq<nat>, count: nat) {
    && (forall k :: 0 <= k < |stage| ==> stage[k] < count)
    && (forall l: nat :: l < count ==> l in stage)
  }

  ghost predicate StagesHave(stages: seq<seq<nat>>, counts: seq<nat>) {
    |stages| == |counts| && forall i :: 0 <= i < |stages| ==> Contiguous(stages[i], counts[i])
  }

  lemma {:induction false} MaxLocalIs(stage: seq<nat>, count: nat)
    requires count > 0 && count - 1 in stage && forall k :: 0 <= k < |stage| ==> stage[k] < count
    ensures MaxLocal(stage) == count - 1
  {
    var m := |stage| - 1;
    if stage[m] == count - 1 {
      MaxLocalBelow(stage[..m], count);
    } else {
      assert stage == stage[..m] + [stage[m]];
      MaxLocalIs(stage[..m], count);
    }
  }

  lemma {:induction false} MaxLocalBelow(stage: seq<nat>, count: nat)
    requires count > 0 && forall k :: 0 <= k < |stage| ==> stage[k] < count
    ensures MaxLocal(stage) < count
  {
    if stage != [] { MaxLocalBelow(stage[..|stage| - 1], count); }
  }

  lemma EmptyIff(stage: seq<nat>, count: nat)
    requires Contiguous(stage, count)
    ensures stage == [] <==> count == 0
  {
    if |stage| > 0 { assert stage[0] < count; }
    if count > 0 { assert 0 in stage; }
  }

  /** A stage without layers still moves the numbering on by one. */
  function Offset(counts: seq<nat>): nat {
    if counts == [] then 0
    else Offset(counts[..|counts| - 1]) + if counts[|counts| - 1] == 0 then 1 else counts[|counts| - 1]
  }

  lemma {:induction false} LayersCumIsOffset(stages: seq<seq<nat>>, counts: seq<nat>)
    requires StagesHave(stages, counts)
    ensures LayersCum(stages) == Offset(counts)
    decreases |stages|
  {
    if stages != [] {
      var m := |stages| - 1;
      LayersCumIsOffset(stages[..m], counts[..m]);
      assert Contiguous(stages[m], counts[m]);
      EmptyIff(stages[m], counts[m]);
      if counts[m] > 0 { MaxLocalIs(stages[m], counts[m]); }
    }
  }

  lemma {:induction false} OffsetAtLeastSum(counts: seq<nat>)
    ensures Offset(counts) >= Sum(counts)
    ensures Offset(counts) == Sum(counts) <==> forall i :: 0 <= i < |counts| ==> counts[i] > 0
  {
    if counts != [] { OffsetAtLeastSum(counts[..|counts| - 1]); }
  }

  /** What is written for a stage are exactly the layers of the range of its rank. */
  ghost predicate WritesRange(row: seq<nat>, shards: seq<nat>, rank: nat)
    requires rank < |shards|
  {
    forall layer: nat :: layer in row <==> Owns(shards, rank, layer)
  }

  lemma ShiftedRange(shards: seq<nat>, rank: nat, stage: seq<nat>)
    requires rank < |shards| && Contiguous(stage, shards[rank])
    ensures WritesRange(Shifted(stage, LayerStart(shards, rank)), shards, rank)
  {
    var start := LayerStart(shards, rank);
    NextStart(shards, rank);
    forall layer: nat | Owns(shards, rank, layer) ensures layer in Shifted(stage, start) {
      assert layer - start in stage;
      var k :| 0 <= k < |stage| && stage[k] == layer - start;
      assert Shifted(stage, start)[k] == layer;
    }
  }

  /** A stage that is moved too far leaves out the first layer of the range. */
  lemma ShiftedTooFar(shards: seq<nat>, rank: nat, stage: seq<nat>, offset: nat)
    requires rank < |shards| && Contiguous(stage, shards[rank])
    requires shards[rank] > 0 && offset > LayerStart(shards, rank)
    ensures !WritesRange(Shifted(stage, offset), shards, rank)
  {
    var start := LayerStart(shards, rank);
    NextStart(shards, rank);
    assert Owns(shards, rank, start);
    assert start !in Shifted(stage, offset);
  }

  lemma ShiftedIff(shards: seq<nat>, rank: nat, stage: seq<nat>, offset: nat)
    requires rank < |shards| && Contiguous(stage, shards[rank]) && offset >= LayerStart(shards, rank)
    ensures WritesRange(Shifted(stage, offset), shards, rank) <==>
            (shards[rank] > 0 ==> offset == LayerStart(shards, rank))
  {
    if offset == LayerStart(shards, rank) {
      ShiftedRange(shards, rank, stage);
    } else if shards[rank] > 0 {
      ShiftedTooFar(shards, rank, stage, offset);
    } else {
      EmptyIff(stage, 0);
      NextStart(shards, rank);
    }
  }

  lemma OffsetIsStartIff(stages: seq<seq<nat>>, counts: seq<nat>, j: nat)
    requires StagesHave(stages, counts) && j < |counts|
    ensures LayersCum(stages[..j]) >= LayerStart(counts, j)
    ensures LayersCum(stages[..j]) == LayerStart(counts, j) <==> forall i :: 0 <= i < j ==> counts[i] > 0
  {
    LayersCumIsOffset(stages[..j], counts[..j]);
    OffsetAtLeastSum(counts[..j]);
    assert (forall i :: 0 <= i < j ==> counts[i] > 0) <==> forall i :: 0 <= i < j ==> counts[..j][i] > 0;
  }

  lemma StageAgreesIff(stages: seq<seq<nat>>, counts: seq<nat>, globals: seq<seq<nat>>, j: nat)
    requires StagesHave(stages, counts) && NumberedFrom(0, stages, globals) && j < |counts|
    ensures WritesRange(globals[j], counts, j) <==> (counts[j] > 0 ==> forall i :: 0 <= i < j ==> counts[i] > 0)
  {
    OffsetIsStartIff(stages, counts, j);
    assert Contiguous(stages[j], counts[j]);
    ShiftedIff(counts, j, stages[j], LayersCum(stages[..j]));
  }

  /** The legacy merger gives every stage the layers of its range exactly when no stage with layers comes after one
      without. */
  lemma RenumberingTilesIff(stages: seq<seq<nat>>, counts: seq<nat>, globals: seq<seq<nat>>)
    requires StagesHave(stages, counts) && NumberedFrom(0, stages, globals)
    ensures (forall j :: 0 <= j < |counts| ==> WritesRange(globals[j], counts, j)) <==>
            forall i, j :: 0 <= i < j < |counts| && counts[j] > 0 ==> counts[i] > 0
  {
    forall j: nat | j < |counts|
      ensures WritesRange(globals[j], counts, j) <==> (counts[j] > 0 ==> forall i :: 0 <= i < j ==> counts[i] > 0)
    {
      StageAgreesIff(stages, counts, globals, j);
    }
  }

  /** A rank that merges its own stage writes exactly the layers of its range. */
  lemma RankWritesItsRange(shards: seq<nat>, rank: nat, stage: seq<nat>, globals: seq<seq<nat>>)
    requires rank < |shards| && Contiguous(stage, shards[rank])
    requires NumberedFrom(LayerStart(shards, rank), [stage], globals)
    ensures WritesRange(globals[0], shards, rank)
  {
    assert LayersCum([stage][..0]) == 0;
    ShiftedRange(shards, rank, stage);
  }

  /** Two ranks never write the same layer. */
  lemma RanksWriteApart(shards: seq<nat>, a: nat, b: nat, stageA: seq<nat>, stageB: seq<nat>,
                        globalsA: seq<seq<nat>>, globalsB: seq<seq<nat>>, layer: nat)
    requires a < |shards| && b < |shards| && a != b
    requires Contiguous(stageA, shards[a]) && NumberedFrom(LayerStart(shards, a), [stageA], globalsA)
    requires Contiguous(stageB, shards[b]) && NumberedFrom(LayerStart(shards, b), [stageB], globalsB)
    ensures !(layer in globalsA[0] && layer in globalsB[0])
  {
    RankWritesItsRange(shards, a, stageA, globalsA);
    RankWritesItsRange(shards, b, stageB, globalsB);
    if layer in globalsA[0] && layer in globalsB[0] { OwnerIsUnique(shards, a, b, layer); }
  }

  /** Whatever the stages hold, two layers of different stages never get the same number. */
  lemma RenumberingIsInjective(first: nat, stages: seq<seq<nat>>, globals: seq<seq<nat>>, i: nat, k: nat, j: nat,
                               l: nat)
    requires NumberedFrom(first, stages, globals) && i < j < |stages| && k < |stages[i]| && l < |stages[j]|
    ensures |globals[i]| == |stages[i]| && |globals[j]| == |stages[j]| && globals[i][k] < globals[j][l]
  {
    MaxLocalIsMax(stages[i], k);
    assert stages[..i + 1][..i] == stages[..i];
    LayersCumGrows(stages, i + 1, j);
  }

  lemma {:induction false} MaxLocalIsMax(stage: seq<nat>, k: nat)
    requires k < |stage|
    ensures stage[k] <= MaxLocal(stage)
  {
    if k < |stage| - 1 { MaxLocalIsMax(stage[..|stage| - 1], k); }
  }

  lemma {:induction false} LayersCumGrows(stages: seq<seq<nat>>, a: nat, b: nat)
    requires a <= b <= |stages|
    ensures LayersCum(stages[..a]) <= LayersCum(stages[..b])
    decreases b - a
  {
    if a < b {
      assert stages[..b][..b - 1] == stages[..b - 1];
      LayersCumGrows(stages, a, b - 1);
    }
  }

  /** An empty first stage shifts everything: layer 0 of the model is saved as layer 1. */
  lemma EmptyStageLeavesAGap(globals: seq<seq<nat>>)
    requires NumberedFrom(0, [[], [0]], globals)
    ensures StagesHave([[], [0]], [0, 1]) && globals == [[], [1]] && !WritesRange(globals[1], [0, 1], 1)
  {
    var stages: seq<seq<nat>>, counts: seq<nat> := [[], [0]], [0, 1];
    assert counts[..1] == [0] && stages[..1] == [[]] && stages[..0] == [] && stages[..1][..0] == [];
    assert LayersCum(stages[..1]) == 1 && LayersCum(stages[..0]) == 0;
    assert globals[0] == [] && globals[1] == [1];
    assert Contiguous(stages[0], 0) && Contiguous(stages[1], 1);
    StageAgreesIff(stages, counts, globals, 1);
    assert counts[1] > 0 && counts[0] == 0;
  }

  // ---------------------------------------------------------------- file numbers

  /** np.array_split: the first `len % parts` pieces have one element more than the others. */
  function ArraySplit<K>(keys: seq<K>, parts: nat): seq<seq<K>>
    requires parts > 0
    decreases parts
  {
    if parts == 1 then [keys]
    else
      PieceFits(|keys|, parts);
      var n := CeilDiv(|keys|, parts);
      [keys[..n]] + ArraySplit(keys[n..], parts - 1)
  }

  lemma PieceFits(len: nat, parts: nat)
    requires parts > 0
    ensures CeilDiv(len, parts) <= len
  {
    CeilIs(len, parts);
    assert len == parts * (len / parts) + len % parts;
    AtLeastOnce(parts, len / parts);
  }

  lemma {:induction false} ArraySplitKeepsAll<K>(keys: seq<K>, parts: nat)
    requires parts > 0
    ensures |ArraySplit(keys, parts)| == parts && Concat(ArraySplit(keys, parts)) == keys
    decreases parts
  {
    if parts == 1 {
      assert [keys][1..] == [];
    } else {
      PieceFits(|keys|, parts);
      var n := CeilDiv(|keys|, parts);
      ArraySplitKeepsAll(keys[n..], parts - 1);
      assert ArraySplit(keys, parts)[1..] == ArraySplit(keys[n..], parts - 1);
    }
  }

  /** The sizes numpy documents. */
  lemma {:induction false} ArraySplitSizes<K>(keys: seq<K>, parts: nat, i: nat)
    requires i < parts
    ensures |ArraySplit(keys, parts)| == parts
    ensures |ArraySplit(keys, parts)[i]| == |keys| / parts + if i < |keys| % parts then 1 else 0
    decreases parts
  {
    ArraySplitKeepsAll(keys, parts);
    if parts == 1 {
      DivOfMultiple(1, |keys|, 0);
    } else {
      RestSplits(|keys|, parts);
      CeilIs(|keys|, parts);
      if i > 0 { ArraySplitSizes(keys[CeilDiv(|keys|, parts)..], parts - 1, i - 1); }
    }
  }

  lemma RestSplits(len: nat, parts: nat)
    requires parts > 1
    ensures CeilDiv(len, parts) <= len
    ensures (len - CeilDiv(len, parts)) / (parts - 1) == len / parts
    ensures (len - CeilDiv(len, parts)) % (parts - 1) == if len % parts > 0 then len % parts - 1 else 0
  {
    PieceFits(len, parts);
    CeilIs(len, parts);
    var q, r := len / parts, len % parts;
    var rest := if r > 0 then r - 1 else 0;
    assert len - CeilDiv(len, parts) == (parts - 1) * q + rest by {
      assert len == parts * q + r;
      OneRoundLess(parts, q);
    }
    DivOfMultiple(parts - 1, q, rest);
  }

  function Scaled(shards: seq<nat>, perLayer: nat): (s: seq<nat>)
    ensures |s| == |shards|
  {
    seq(|shards|, r requires 0 <= r < |shards| => shards[r] * perLayer)
  }

  lemma {:induction false} StartScales(shards: seq<nat>, perLayer: nat, rank: nat)
    requires rank <= |shards|
    ensures LayerStart(Scaled(shards, perLayer), rank) == LayerStart(shards, rank) * perLayer
  {
    if rank > 0 {
      StartScales(shards, perLayer, rank - 1);
      NextStart(shards, rank - 1);
      NextStart(Scaled(shards, perLayer), rank - 1);
      Distribute(LayerStart(shards, rank - 1), shards[rank - 1], perLayer);
    }
  }

  /** One of the shards[rank] * saves_per_layer files from `layer_start * saves_per_layer` on. */
  ghost predicate SavesFile(shards: seq<nat>, perLayer: nat, rank: nat, file: nat)
    requires rank < |shards|
  {
    0 <= file - LayerStart(shards, rank) * perLayer < shards[rank] * perLayer
  }

  lemma SavesIsOwns(shards: seq<nat>, perLayer: nat, rank: nat, file: nat)
    requires rank < |shards|
    ensures SavesFile(shards, perLayer, rank, file) <==> Owns(Scaled(shards, perLayer), rank, file)
  {
    StartScales(shards, perLayer, rank);
    NextStart(Scaled(shards, perLayer), rank);
  }

  /** All ranks together write every one of the saves_per_layer * layers files, each by one rank. */
  lemma FilesTile(shards: seq<nat>, perLayer: nat, file: nat)
    ensures file < Sum(shards) * perLayer <==>
            exists rank :: 0 <= rank < |shards| && SavesFile(shards, perLayer, rank, file)
    ensures forall a, b :: 0 <= a < |shards| && 0 <= b < |shards| ==>
              SavesFile(shards, perLayer, a, file) && SavesFile(shards, perLayer, b, file) ==> a == b
  {
    var scaled := Scaled(shards, perLayer);
    RangesTile(scaled, file);
    StartScales(shards, perLayer, |shards|);
    assert shards[..|shards|] == shards && scaled[..|scaled|] == scaled;
    forall rank | 0 <= rank < |shards|
      ensures SavesFile(shards, perLayer, rank, file) <==> Owns(scaled, rank, file)
    {
      SavesIsOwns(shards, perLayer, rank, file);
    }
  }

  /** save_hf_model_and_tokenizer on one rank: which file each key goes to. */
  method AssignFiles<K(==)>(keys: seq<K>, shards: seq<nat>, rank: nat, perLayer: nat) returns (index: map<K, nat>)
    requires rank < |shards| && shards[rank] * perLayer > 0
    requires forall a, b :: 0 <= a < b < |keys| ==> keys[a] != keys[b]
    ensures index.Keys == set k | k in keys
    ensures var chunks := ArraySplit(keys, shards[rank] * perLayer);
            forall i, k :: 0 <= i < |chunks| && 0 <= k < |chunks[i]| ==>
              chunks[i][k] in index && index[chunks[i][k]] == LayerStart(shards, rank) * perLayer + i
  {
    var chunks := ArraySplit(keys, shards[rank] * perLayer);
    ArraySplitKeepsAll(keys, shards[rank] * perLayer);
    index := AssignAll(keys, chunks, LayerStart(shards, rank) * perLayer);
  }

  /** The loop over the chunks, of which the first goes to file `first`. */
  method AssignAll<K(==)>(ghost keys: seq<K>, chunks: seq<seq<K>>, first: nat) returns (index: map<K, nat>)
    requires Concat(chunks) == keys && forall a, b :: 0 <= a < b < |keys| ==> keys[a] != keys[b]
    ensures index.Keys == set k | k in keys
    ensures forall i, k :: 0 <= i < |chunks| && 0 <= k < |chunks[i]| ==>
              chunks[i][k] in index && index[chunks[i][k]] == first + i
  {
    index := map[];
    for i := 0 to |chunks|
      invariant index.Keys == set k | k in Concat(chunks[..i])
      invariant forall j, k :: 0 <= j < i && 0 <= k < |chunks[j]| ==>
                  chunks[j][k] in index && index[chunks[j][k]] == first + j
    {
      ChunksAreApart(keys, chunks, i);
      NextChunk(chunks, i);
      index := AssignChunk(index, chunks[i], first + i);
    }
    assert chunks[..|chunks|] == chunks;
  }

  /** `for k in keys: saves_indexes[k] = ...` for one file. */
  method AssignChunk<K(==)>(before: map<K, nat>, chunk: seq<K>, file: nat) returns (index: map<K, nat>)
    ensures index.Keys == before.Keys + set k | k in chunk
    ensures forall k :: k in chunk ==> index[k] == file
    ensures forall k :: k in before && k !in chunk ==> index[k] == before[k]
  {
    index := before;
    for l := 0 to |chunk|
      invariant index.Keys == before.Keys + set k | k in chunk[..l]
      invariant forall k :: k in chunk[..l] ==> index[k] == file
      invariant forall k :: k in before && k !in chunk[..l] ==> index[k] == before[k]
    {
      index := index[chunk[l] := file];
    }
    assert chunk[..|chunk|] == chunk;
  }

  lemma NextChunk<K>(chunks: seq<seq<K>>, i: nat)
    requires i < |chunks|
    ensures Concat(chunks[..i + 1]) == Concat(chunks[..i]) + chunks[i]
  {
    assert chunks[..i + 1] == chunks[..i] + [chunks[i]];
    ConcatAppend(chunks[..i], [chunks[i]]);
    assert Concat([chunks[i]]) == chunks[i] + Concat([chunks[i]][1..]) == chunks[i];
  }

  /** No key of a chunk occurs in an earlier one. */
  lemma ChunksAreApart<K>(keys: seq<K>, chunks: seq<seq<K>>, i: nat)
    requires i < |chunks| && Concat(chunks) == keys && forall a, b :: 0 <= a < b < |keys| ==> keys[a] != keys[b]
    ensures forall j, k, l :: 0 <= j < i && 0 <= k < |chunks[j]| && 0 <= l < |chunks[i]| ==>
            chunks[j][k] != chunks[i][l]
  {
    forall j, k, l | 0 <= j < i && 0 <= k < |chunks[j]| && 0 <= l < |chunks[i]|
      ensures chunks[j][k] != chunks[i][l]
    {
      PositionInConcat(chunks, j, k);
      PositionInConcat(chunks, i, l);
      PositionsIncrease(chunks, j + 1, i);
      NextChunk(chunks, j);
    }
  }

  lemma PositionInConcat<K>(chunks: seq<seq<K>>, j: nat, k: nat)
    requires j < |chunks| && k < |chunks[j]|
    ensures |Concat(chunks[..j])| + k < |Concat(chunks)| && Concat(chunks)[|Concat(chunks[..j])| + k] == chunks[j][k]
  {
    assert chunks == chunks[..j] + chunks[j..];
    ConcatAppend(chunks[..j], chunks[j..]);
    assert Concat(chunks[j..]) == chunks[j] + Concat(chunks[j..][1..]);
  }

  lemma PositionsIncrease<K>(chunks: seq<seq<K>>, a: nat, b: nat)
    requires a <= b <= |chunks|
    ensures |Concat(chunks[..a])| <= |Concat(chunks[..b])|
  {
    assert chunks[..b] == chunks[..a] + chunks[a..b];
    ConcatAppend(chunks[..a], chunks[a..b]);
  }
}
