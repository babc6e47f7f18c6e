/** When the trainer's sample() comes back: it never fails on a tag, and the end of all prompts gets through to it. */
module ReplayProgress {
  import opened ReplayBuffer
  import opened ReplaySystem
  import opened Wrappers

  function Pass(w: World): Outcome
    requires ListsKeys(w.local)
  {
    Scan(w.local, Some(w.step), |w.local.order|)
  }

  /** No pass of sample(), in any run, meets an entry without its tags. */
  lemma NeverMissingTag(trace: seq<World>, k: nat)
    requires IsRun(trace) && k < |trace| && trace[k].trainer.Sampling?
    ensures ListsKeys(trace[k].local) && !Pass(trace[k]).MissingTag?
  {
    RunInv(trace, k);
    SampleMeaning(trace[k]);
  }

  // ---------------------------------------------------------------- the queue knows every end

  ghost predicate EndsQueued(w: World) {
    forall uid :: uid in w.prompts && w.prompts[uid].ended.Some? ==> uid in w.remote.items
  }

  lemma EndsQueuedStep(w: World, e: Event)
    requires Inv(w) && EndsQueued(w) && Enabled(w, e)
    ensures EndsQueued(Next(w, e))
  {
    var w' := Next(w, e);
    match e
    case WriteSession(uid, session, n) =>
      OutputsList(uid, session, w.prompts[uid].step, n);
      forall id | id in w.remote.items ensures id in w'.remote.items { WrittenItems(w, uid, session, n, id); }
    case ClearQueue =>
      DropAllItems(w.remote, w.trainer.keys);
      forall uid | uid in w.prompts ensures uid !in w.trainer.keys { PromptIsNotSampled(w, uid); }
    case _ =>
  }

  lemma PromptIsNotSampled(w: World, uid: string)
    requires Inv(w) && w.trainer.Clearing? && uid in w.prompts
    ensures uid !in w.trainer.keys
  {
    if OutputEntry(w.prompts, uid, Tags(Some(w.step), Some(Success))) {
      OutputKeysHaveUnderscores(w.prompts, uid, Tags(Some(w.step), Some(Success)));
    }
  }

  lemma EventAt(trace: seq<World>, k: nat) returns (e: Event)
    requires IsRun(trace) && k + 1 < |trace|
    ensures Enabled(trace[k], e) && trace[k + 1] == Next(trace[k], e)
  {
    assert StepAt(trace, k);
    e :| Enabled(trace[k], e) && trace[k + 1] == Next(trace[k], e);
  }

  lemma {:induction false} EndsAreQueued(trace: seq<World>, k: nat)
    requires IsRun(trace) && k < |trace|
    ensures EndsQueued(trace[k])
  {
    if k > 0 {
      RunInv(trace, k - 1);
      EndsAreQueued(trace, k - 1);
      var e := EventAt(trace, k - 1);
      EndsQueuedStep(trace[k - 1], e);
    }
  }

  // ---------------------------------------------------------------- the buffer gets to know

  ghost predicate OfStep(w: World, uid: string) {
    uid in w.prompts && w.prompts[uid].step == w.step
  }

  ghost predicate AllEnded(w: World) {
    forall uid :: OfStep(w, uid) ==> w.prompts[uid].ended.Some?
  }

  /** These entries say of every prompt of the step how it ended. */
  ghost predicate KnowsEnds(w: World, items: Items) {
    forall uid :: OfStep(w, uid) ==> uid in items && items[uid].status == w.prompts[uid].ended
  }

  /** A listing that has a prompt says how it ended. */
  lemma ListedEnd(w: World, q: Partition, uid: string)
    requires PromptsInv(w) && QueueInv(w, q) && uid in w.prompts && uid in q.items
    ensures EndEntry(w.prompts, uid, q.items[uid])
  {
    if OutputEntry(w.prompts, uid, q.items[uid]) { OutputKeysHaveUnderscores(w.prompts, uid, q.items[uid]); }
  }

  lemma ListingKnows(w: World)
    requires PromptsInv(w) && RemoteInv(w) && EndsQueued(w) && AllEnded(w)
    ensures KnowsEnds(w, w.remote.items)
  {
    forall uid | OfStep(w, uid) ensures uid in w.remote.items && w.remote.items[uid].status == w.prompts[uid].ended {
      ListedEnd(w, w.remote, uid);
    }
  }

  /** While sample() waits and all prompts have ended, the prompts of the step stay as they are, but for sessions
      of prompts that failed. */
  lemma EndedStays(w: World, e: Event, items: Items)
    requires Enabled(w, e) && AllEnded(w) && w.trainer.Sampling? && Next(w, e).trainer.Sampling?
    ensures AllEnded(Next(w, e)) && Next(w, e).step == w.step
    ensures KnowsEnds(w, items) ==> KnowsEnds(Next(w, e), items)
  {
    var w' := Next(w, e);
    assert forall uid :: OfStep(w', uid) ==> OfStep(w, uid) && w'.prompts[uid].ended == w.prompts[uid].ended;
  }

  lemma AppliedKnows(w: World)
    requires Inv(w) && Enabled(w, ApplyListing) && AllEnded(w)
    requires KnowsEnds(w, w.local.items) || KnowsEnds(w, w.listing.value.items)
    ensures KnowsEnds(Next(w, ApplyListing), Next(w, ApplyListing).local.items)
  {
    var q := w.listing.value;
    forall uid | OfStep(w, uid)
      ensures var items := Next(w, ApplyListing).local.items;
              uid in items && items[uid].status == w.prompts[uid].ended
    {
      Applied(w, q, uid);
      if uid in q.items { ListedEnd(w, q, uid); }
    }
  }

  /** A listing taken after the last end, or the buffer it has been applied to, knows all the ends. */
  ghost predicate OnItsWay(w: World) {
    AllEnded(w) && if w.listing.Some? then KnowsEnds(w, w.listing.value.items) else KnowsEnds(w, w.local.items)
  }

  ghost predicate Arrived(w: World) {
    AllEnded(w) && KnowsEnds(w, w.local.items)
  }

  lemma OnItsWayStep(w: World, e: Event)
    requires Inv(w) && EndsQueued(w) && Enabled(w, e) && w.trainer.Sampling? && Next(w, e).trainer.Sampling?
    requires OnItsWay(w)
    ensures OnItsWay(Next(w, e)) && (e == ApplyListing ==> Arrived(Next(w, e)))
  {
    EndedStays(w, e, if w.listing.Some? then w.listing.value.items else w.local.items);
    match e
    case ListQueue => ListingKnows(w);
    case ApplyListing => AppliedKnows(w);
    case _ =>
  }

  lemma ArrivedStep(w: World, e: Event)
    requires Inv(w) && Enabled(w, e) && w.trainer.Sampling? && Next(w, e).trainer.Sampling? && Arrived(w)
    ensures Arrived(Next(w, e))
  {
    EndedStays(w, e, w.local.items);
    if e == ApplyListing { AppliedKnows(w); }
  }

  /** A buffer that knows all the ends lets the pass through. */
  lemma ArrivedPasses(w: World)
    requires Inv(w) && w.trainer.Sampling? && Arrived(w)
    ensures Pass(w).Batch?
  {
    SampleMeaning(w);
    ScanSeesTags(w);
    ScanMeaning(w.local, w.step, |w.local.order|);
    forall a | 0 <= a < |w.local.order| ensures w.local.items[w.local.order[a]] != Tags(Some(w.step), Some(Running)) {
      NotRunning(w, w.local.order[a]);
    }
  }

  lemma NotRunning(w: World, key: string)
    requires Inv(w) && w.trainer.Sampling? && Arrived(w) && key in w.local.order
    ensures key in w.local.items && w.local.items[key] != Tags(Some(w.step), Some(Running))
  {
    if PromptEntry(w.prompts, key, w.local.items[key]) && w.prompts[key].step == w.step { assert OfStep(w, key); }
  }

  // ---------------------------------------------------------------- every run

  /** From state l to state k of a run the trainer has been waiting in sample(). */
  ghost predicate Waits(trace: seq<World>, l: nat, k: nat) {
    IsRun(trace) && l <= k < |trace| && forall j :: l <= j <= k ==> trace[j].trainer.Sampling?
  }

  lemma OnItsWayAt(trace: seq<World>, k: nat)
    requires IsRun(trace) && k + 1 < |trace| && OnItsWay(trace[k])
    requires trace[k].trainer.Sampling? && trace[k + 1].trainer.Sampling?
    ensures OnItsWay(trace[k + 1])
  {
    RunInv(trace, k);
    EndsAreQueued(trace, k);
    var e := EventAt(trace, k);
    OnItsWayStep(trace[k], e);
  }

  lemma ArrivedAt(trace: seq<World>, k: nat)
    requires IsRun(trace) && k + 1 < |trace| && Arrived(trace[k])
    requires trace[k].trainer.Sampling? && trace[k + 1].trainer.Sampling?
    ensures Arrived(trace[k + 1])
  {
    RunInv(trace, k);
    var e := EventAt(trace, k);
    ArrivedStep(trace[k], e);
  }

  lemma {:induction false} StaysOnItsWay(trace: seq<World>, l: nat, k: nat)
    requires Waits(trace, l, k) && OnItsWay(trace[l])
    ensures OnItsWay(trace[k])
  {
    if l < k {
      StaysOnItsWay(trace, l, k - 1);
      OnItsWayAt(trace, k - 1);
    }
  }

  lemma {:induction false} StaysArrived(trace: seq<World>, l: nat, k: nat)
    requires Waits(trace, l, k) && Arrived(trace[l])
    ensures Arrived(trace[k])
  {
    if l < k {
      StaysArrived(trace, l, k - 1);
      ArrivedAt(trace, k - 1);
    }
  }

  /** Once all prompts of the step have ended, the queue has been listed and a listing has been applied after that,
      sample() returns at its next pass, if it has not returned before. */
  lemma SampleReturns(trace: seq<World>, l: nat, p: nat, k: nat)
    requires l < p < k && Waits(trace, l, k) && AllEnded(trace[l])
    requires Enabled(trace[l], ListQueue) && trace[l + 1] == Next(trace[l], ListQueue)
    requires Enabled(trace[p], ApplyListing) && trace[p + 1] == Next(trace[p], ApplyListing)
    ensures exists keys :: Enabled(trace[k], TakeSample(keys))
  {
    RunInv(trace, l);
    EndsAreQueued(trace, l);
    ListingKnows(trace[l]);
    StaysOnItsWay(trace, l + 1, p);
    RunInv(trace, p);
    EndsAreQueued(trace, p);
    OnItsWayStep(trace[p], ApplyListing);
    StaysArrived(trace, p + 1, k);
    RunInv(trace, k);
    ArrivedPasses(trace[k]);
    assert Enabled(trace[k], TakeSample(Pass(trace[k]).keys));
  }
}
