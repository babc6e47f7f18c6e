/**
 How verl/model_merger/megatron_model_merger.py divides layers over pipeline stages: a search over the size of the
 middle stages, and what that search finds in closed form.
 */
module PipelineShards {
  import opened Arithmetic
  import opened Wrappers

  datatype ShardError = FewerLayersThanStages | NoStages | NoStrategy

  /** A candidate of the search, and how far its first stage is from its middle ones. */
  datatype Strategy = Strategy(shards: seq<int>, diff: nat)

  function Sum(s: seq<int>): int {
    if s == [] then 0 else s[0] + Sum(s[1..])
  }

  function Abs(x: int): nat {
    if x < 0 then -x else x
  }

  // ---------------------------------------------------------------- the search

  /** Layers left for the first and the last stage. */
  function Ends(layers: int, stages: nat, middle: nat): int
    requires stages >= 3
  {
    layers - middle * (stages - 2)
  }

  predicate Admissible(layers: int, stages: nat, middle: nat)
    requires stages >= 3
  {
    var first := Ends(layers, stages, middle) / 2;
    var last := Ends(layers, stages, middle) - first;
    0 < first <= middle && 0 < last <= middle
  }

  function ShardsFor(layers: int, stages: nat, middle: nat): seq<int>
    requires stages >= 3
  {
    var first := Ends(layers, stages, middle) / 2;
    [first] + seq(stages - 2, _ => middle) + [Ends(layers, stages, middle) - first]
  }

  function StrategyFor(layers: int, stages: nat, middle: nat): Strategy
    requires stages >= 3
  {
    Strategy(ShardsFor(layers, stages, middle), Abs(Ends(layers, stages, middle) / 2 - middle))
  }

  /** What the loop has collected before it tries `upTo`. */
  function Found(layers: int, stages: nat, upTo: nat): seq<Strategy>
    requires stages >= 3
  {
    if upTo == 0 then []
    else
      Found(layers, stages, upTo - 1)
      + if Admissible(layers, stages, upTo - 1) then [StrategyFor(layers, stages, upTo - 1)] else []
  }

  /** `sorted(strategies, key=diff)[0]`: sorting is stable, so the first of those with the least difference. */
  method LeastDiff(strategies: seq<Strategy>) returns (best: nat)
    requires strategies != []
    ensures best < |strategies|
    ensures forall i :: 0 <= i < |strategies| ==> strategies[best].diff <= strategies[i].diff
    ensures forall i :: 0 <= i < best ==> strategies[best].diff < strategies[i].diff
  {
    best := 0;
    for i := 1 to |strategies|
      invariant best < i
      invariant forall j :: 0 <= j < i ==> strategies[best].diff <= strategies[j].diff
      invariant forall j :: 0 <= j < best ==> strategies[best].diff < strategies[j].diff
    {
      if strategies[i].diff < strategies[best].diff { best := i; }
    }
  }

  /** get_dynamic_pipeline_shards. With three stages or more there is an answer exactly when middle stages of
      ceil(layers / stages) leave a layer for each end, and that is the answer. */
  method GetDynamicPipelineShards(layers: int, stages: int) returns (r: Result<seq<int>, ShardError>)
    ensures layers < stages ==> r == Err(FewerLayersThanStages)
    ensures stages <= layers && stages < 1 ==> r == Err(NoStages)
    ensures 1 == stages <= layers ==> r == Ok([layers])
    ensures 2 == stages <= layers ==> r == Ok([layers / 2, layers - layers / 2])
    ensures 3 <= stages <= layers ==>
              if CeilDiv(layers, stages) * (stages - 2) <= layers - 2 then r.Ok? else r == Err(NoStrategy)
    ensures r.Ok? ==> IsBalanced(r.value, layers, stages)
    ensures r.Ok? && 3 <= stages ==> MiddlesAreFull(r.value, layers, stages)
  {
    if layers < stages { return Err(FewerLayersThanStages); }
    if stages < 1 { return Err(NoStages); }
    if stages == 1 {
      OneStage(layers);
      return Ok([layers]);
    }
    if stages == 2 {
      TwoStages(layers);
      return Ok([layers / 2, layers - layers / 2]);
    }
    var strategies := [];
    for middle := 0 to layers
      invariant strategies == Found(layers, stages, middle)
    {
      var ends := layers - middle * (stages - 2);
      var first, last := ends / 2, ends - ends / 2;
      if 0 < first <= middle && 0 < last <= middle {
        strategies := strategies + [Strategy([first] + seq(stages - 2, _ => middle) + [last], Abs(first - middle))];
      }
    }
    SearchFinds(layers, stages);
    if strategies == [] { return Err(NoStrategy); }
    var best := LeastDiff(strategies);
    FirstIsLeast(layers, stages, layers, best);
    assert best == 0;
    ChosenIsBalanced(layers, stages);
    EndsAreEven(layers, stages);
    return Ok(strategies[0].shards);
  }

  // ---------------------------------------------------------------- the closed form

  /** As even as can be: every stage has a layer, and none has more than the unavoidable maximum. */
  ghost predicate IsBalanced(shards: seq<int>, layers: int, stages: int) {
    && 0 < stages <= layers && |shards| == stages && Sum(shards) == layers
    && (forall i :: 0 <= i < stages ==> 0 < shards[i] <= CeilDiv(layers, stages))
  }

  /** The inner stages have the unavoidable maximum; the first and the last share what is left, and an odd layer goes
      to the last. With their sum this determines the answer. */
  ghost predicate MiddlesAreFull(shards: seq<int>, layers: int, stages: int)
    requires 0 < stages && |shards| == stages && 0 <= layers
  {
    && (forall i :: 0 < i < stages - 1 ==> shards[i] == CeilDiv(layers, stages))
    && shards[0] <= shards[stages - 1] <= shards[0] + 1
  }

  lemma EndsAreEven(layers: nat, stages: nat)
    requires 3 <= stages
    ensures MiddlesAreFull(ShardsFor(layers, stages, CeilDiv(layers, stages)), layers, stages)
  {
  }

  /** The guard of the search, as two linear bounds. */
  lemma AdmissibleIff(layers: nat, stages: nat, m: nat)
    requires stages >= 3
    ensures Admissible(layers, stages, m) <==> layers <= m * stages && m * (stages - 2) <= layers - 2
  {
    assert m * stages == m * (stages - 2) + 2 * m;
  }

  lemma {:induction false} FoundAre(layers: nat, stages: nat, upTo: nat)
    requires stages >= 3
    ensures upTo <= CeilDiv(layers, stages) ==> Found(layers, stages, upTo) == []
    ensures CeilDiv(layers, stages) < upTo ==>
              var c, found := CeilDiv(layers, stages), Found(layers, stages, upTo);
              if c * (stages - 2) <= layers - 2
              then found != [] && found[0] == StrategyFor(layers, stages, c)
              else found == []
  {
    if upTo > 0 {
      var c, m := CeilDiv(layers, stages), upTo - 1;
      FoundAre(layers, stages, m);
      AdmissibleIff(layers, stages, m);
      CeilIsLeast(layers, stages, m);
      if c <= m { MulMonotone(c, m, stages - 2); }
    }
  }

  /** The loop tries far enough, and its first find is the closed form. */
  lemma SearchFinds(layers: nat, stages: nat)
    requires 3 <= stages <= layers
    ensures var c, found := CeilDiv(layers, stages), Found(layers, stages, layers);
            if c * (stages - 2) <= layers - 2
            then found != [] && found[0] == StrategyFor(layers, stages, c)
            else found == []
  {
    FoundAre(layers, stages, layers);
    MulMonotone(3, stages, layers - 1);
    assert stages * (layers - 1) == (layers - 1) * stages;
    CeilIsLeast(layers, stages, layers - 1);
  }

  /** Larger middle stages are always further from the first stage. */
  lemma DiffGrows(layers: nat, stages: nat, m: nat, n: nat)
    requires stages >= 3 && m < n && Admissible(layers, stages, m) && Admissible(layers, stages, n)
    ensures StrategyFor(layers, stages, m).diff < StrategyFor(layers, stages, n).diff
  {
    MulMonotone(m, n, stages - 2);
  }

  ghost predicate ComesFrom(s: Strategy, layers: nat, stages: nat, m: nat)
    requires stages >= 3
  {
    Admissible(layers, stages, m) && s == StrategyFor(layers, stages, m)
  }

  lemma {:induction false} FoundIncrease(layers: nat, stages: nat, upTo: nat, i: nat) returns (m: nat)
    requires stages >= 3 && i < |Found(layers, stages, upTo)|
    ensures m < upTo && ComesFrom(Found(layers, stages, upTo)[i], layers, stages, m)
    ensures forall j :: i < j < |Found(layers, stages, upTo)| ==>
              Found(layers, stages, upTo)[i].diff < Found(layers, stages, upTo)[j].diff
  {
    var before := Found(layers, stages, upTo - 1);
    if i == |before| {
      m := upTo - 1;
    } else {
      m := FoundIncrease(layers, stages, upTo - 1, i);
      if Admissible(layers, stages, upTo - 1) { DiffGrows(layers, stages, m, upTo - 1); }
    }
  }

  /** So sorting by the difference never changes which strategy is first. */
  lemma FirstIsLeast(layers: nat, stages: nat, upTo: nat, best: nat)
    requires stages >= 3 && best < |Found(layers, stages, upTo)|
    requires forall i :: 0 <= i < |Found(layers, stages, upTo)| ==>
               Found(layers, stages, upTo)[best].diff <= Found(layers, stages, upTo)[i].diff
    ensures best == 0
  {
    var m := FoundIncrease(layers, stages, upTo, 0);
  }

  // ---------------------------------------------------------------- the shape of the answer

  lemma {:induction false} SumConcat(a: seq<int>, b: seq<int>)
    ensures Sum(a + b) == Sum(a) + Sum(b)
  {
    if a == [] {
      assert a + b == b;
    } else {
      assert (a + b)[1..] == a[1..] + b;
      SumConcat(a[1..], b);
    }
  }

  lemma {:induction false} SumRepeat(m: int, n: nat)
    ensures Sum(seq(n, _ => m)) == n * m
  {
    if n > 0 {
      assert seq(n, _ => m)[1..] == seq(n - 1, _ => m);
      SumRepeat(m, n - 1);
    }
  }

  lemma SumOne(x: int)
    ensures Sum([x]) == x
  {
    assert [x][1..] == [];
  }

  lemma OneStage(layers: nat)
    requires layers >= 1
    ensures IsBalanced([layers], layers, 1)
  {
    SumOne(layers);
  }

  lemma TwoStages(layers: nat)
    requires layers >= 2
    ensures IsBalanced([layers / 2, layers - layers / 2], layers, 2)
  {
    assert [layers / 2, layers - layers / 2][1..] == [layers - layers / 2];
    SumOne(layers - layers / 2);
  }

  lemma ChosenIsBalanced(layers: nat, stages: nat)
    requires 3 <= stages <= layers && CeilDiv(layers, stages) * (stages - 2) <= layers - 2
    ensures IsBalanced(ShardsFor(layers, stages, CeilDiv(layers, stages)), layers, stages)
  {
    var c := CeilDiv(layers, stages);
    AdmissibleIff(layers, stages, c);
    CeilCovers(layers, stages);
    assert Admissible(layers, stages, c);
    var first, ends := Ends(layers, stages, c) / 2, Ends(layers, stages, c);
    SumOfShards(first, c, stages - 2, ends - first);
  }

  lemma SumOfShards(first: int, middle: nat, n: nat, last: int)
    ensures Sum([first] + seq(n, _ => middle) + [last]) == first + middle * n + last
  {
    var middles := seq(n, _ => middle);
    SumConcat([first] + middles, [last]);
    SumConcat([first], middles);
    SumOne(first);
    SumOne(last);
    SumRepeat(middle, n);
  }

  /** Nothing is more even: however the layers are divided, some stage gets ceil(layers / stages) or more. */
  lemma SomeStageIsLarge(shards: seq<int>, layers: nat)
    requires shards != [] && Sum(shards) == layers
    ensures exists i :: 0 <= i < |shards| && shards[i] >= CeilDiv(layers, |shards|)
  {
    var c := CeilDiv(layers, |shards|);
    CeilCovers(layers, |shards|);
    assert |shards| * (c - 1) == c * |shards| - |shards|;
    if forall i :: 0 <= i < |shards| ==> shards[i] <= c - 1 {
      SumAtMost(shards, c - 1);
    }
  }

  lemma {:induction false} SumAtMost(s: seq<int>, bound: int)
    requires forall i :: 0 <= i < |s| ==> s[i] <= bound
    ensures Sum(s) <= |s| * bound
  {
    if s != [] {
      SumAtMost(s[1..], bound);
      assert |s| * bound == (|s| - 1) * bound + bound;
    }
  }

  /** Every stage alike whenever the division is exact. */
  lemma EvenDivision(stages: nat, each: nat)
    requires stages >= 3 && each >= 1
    ensures CeilDiv(each * stages, stages) == each && each * (stages - 2) <= each * stages - 2
    ensures ShardsFor(each * stages, stages, each) == seq(stages, _ => each)
  {
    CeilIsLeast(each * stages, stages, each);
    CeilCovers(each * stages, stages);
    var c := CeilDiv(each * stages, stages);
    if c < each { MulMonotone(c, each, stages); }
    assert each * stages == each * (stages - 2) + 2 * each;
  }

  /** Five layers do not go into four stages, although each could have one. */
  lemma FiveLayersFourStages()
    ensures CeilDiv(5, 4) == 2 && !(CeilDiv(5, 4) * (4 - 2) <= 5 - 2)
    ensures IsBalanced([1, 1, 1, 2], 5, 4)
  {
    assert [1, 1, 1, 2][1..] == [1, 1, 2] && [1, 1, 2][1..] == [1, 2] && [1, 2][1..] == [2] && [2][1..] == [];
  }
}
