/** What becomes of the sampled keys: the trainer clears them from the queue and then removes them from the buffer. */
module ReplayCleanup {
  import opened ReplayBuffer
  import opened ReplayProgress
  import opened ReplaySystem
  import opened TrajectoryKeys
  import opened Wrappers

  /** The key of an output that was written, and is not in the queue. */
  ghost predicate OffQueue(w: World, key: string) {
    && key !in w.remote.items
    && exists uid: string, session: nat, i: nat :: Wrote(w.prompts, uid, session, i) && key == PrintKey(uid, session, i)
  }

  lemma OutputHasUnderscore(w: World, key: string)
    requires OffQueue(w, key)
    ensures '_' in key
  {
    var uid: string, session: nat, i: nat :| Wrote(w.prompts, uid, session, i) && key == PrintKey(uid, session, i);
    assert key[|uid|] == '_';
  }

  lemma StaysOutput(w: World, w': World, key: string)
    requires OffQueue(w, key) && Grows(w.prompts, w'.prompts) && key !in w'.remote.items
    ensures OffQueue(w', key)
  {
    var uid: string, session: nat, i: nat :| Wrote(w.prompts, uid, session, i) && key == PrintKey(uid, session, i);
    assert Wrote(w'.prompts, uid, session, i);
  }

  /** A session writes its outputs once. */
  lemma NotWrittenAgain(w: World, uid: string, session: nat, n: nat, key: string)
    requires OffQueue(w, key) && Enabled(w, WriteSession(uid, session, n))
    ensures key !in OutputKeys(uid, session, n)
  {
    if key in OutputKeys(uid, session, n) {
      var j :| 0 <= j < n && OutputKeys(uid, session, n)[j] == key;
      var id: string, s: nat, i: nat :| Wrote(w.prompts, id, s, i) && key == PrintKey(id, s, i);
      KeysAreInjective(uid, session, j, id, s, i);
    }
  }

  lemma EventGrows(w: World, e: Event)
    requires Inv(w) && Enabled(w, e)
    ensures Grows(w.prompts, Next(w, e).prompts)
  {
    if e.Launch? { StartedGrows(w, w.trainer.uids, e.sessions); }
  }

  lemma OffQueueStep(w: World, e: Event, key: string)
    requires Inv(w) && Enabled(w, e) && OffQueue(w, key)
    ensures OffQueue(Next(w, e), key)
  {
    var w' := Next(w, e);
    EventGrows(w, e);
    OutputHasUnderscore(w, key);
    match e {
      case WriteSession(uid, session, n) =>
        OutputsList(uid, session, w.prompts[uid].step, n);
        NotWrittenAgain(w, uid, session, n, key);
        WrittenItems(w, uid, session, n, key);
      case ClearQueue => DropAllItems(w.remote, w.trainer.keys);
      case _ =>
    }
    StaysOutput(w, w', key);
  }

  lemma OffQueueAt(trace: seq<World>, k: nat, key: string)
    requires IsRun(trace) && k + 1 < |trace| && OffQueue(trace[k], key)
    ensures OffQueue(trace[k + 1], key)
  {
    RunInv(trace, k);
    var e := EventAt(trace, k);
    OffQueueStep(trace[k], e, key);
  }

  lemma {:induction false} StaysOffQueue(trace: seq<World>, l: nat, k: nat, key: string)
    requires IsRun(trace) && l <= k < |trace| && OffQueue(trace[l], key)
    ensures OffQueue(trace[k], key)
  {
    if l < k {
      StaysOffQueue(trace, l, k - 1, key);
      OffQueueAt(trace, k - 1, key);
    }
  }

  lemma Clears(w: World, key: string)
    requires Inv(w) && Enabled(w, ClearQueue) && key in w.trainer.keys
    ensures OffQueue(Next(w, ClearQueue), key)
  {
    DropAllItems(w.remote, w.trainer.keys);
    var uid: string, session: nat, i: nat :| Wrote(w.prompts, uid, session, i) && key == PrintKey(uid, session, i);
  }

  /** A key cleared from the queue never comes back to it. */
  lemma ClearedForGood(trace: seq<World>, l: nat, k: nat, key: string)
    requires IsRun(trace) && l < k < |trace| && Enabled(trace[l], ClearQueue)
    requires trace[l + 1] == Next(trace[l], ClearQueue) && key in trace[l].trainer.keys
    ensures key !in trace[k].remote.items
  {
    RunInv(trace, l);
    Clears(trace[l], key);
    StaysOffQueue(trace, l + 1, k, key);
  }

  /** By the time the buffer is cleaned, the queue is. */
  lemma {:induction false} RemovingIsOffQueue(trace: seq<World>, k: nat, key: string)
    requires IsRun(trace) && k < |trace| && trace[k].trainer.Removing? && key in trace[k].trainer.keys
    ensures OffQueue(trace[k], key)
  {
    if k > 0 {
      RunInv(trace, k - 1);
      var e := EventAt(trace, k - 1);
      if e == ClearQueue {
        Clears(trace[k - 1], key);
      } else {
        RemovingIsOffQueue(trace, k - 1, key);
        OffQueueStep(trace[k - 1], e, key);
      }
    }
  }

  /** Neither the queue nor the buffer has the key, nor a listing that is still to be applied. */
  ghost predicate Gone(w: World, key: string) {
    OffQueue(w, key) && key !in w.local.items && (w.listing.Some? ==> key !in w.listing.value.items)
  }

  lemma GoneStep(w: World, e: Event, key: string)
    requires Inv(w) && Enabled(w, e) && Gone(w, key)
    ensures Gone(Next(w, e), key)
  {
    OffQueueStep(w, e, key);
    OutputHasUnderscore(w, key);
    match e
    case Announce(uids) =>
      PendingLists(uids, w.step);
      assert Pending(uids, w.step).order[..|uids|] == uids;
      PutAllAt(w.local, Pending(uids, w.step), |uids|, key);
    case ApplyListing => Applied(w, w.listing.value, key);
    case RemoveLocal => DropAllItems(w.local, w.trainer.keys);
    case _ =>
  }

  lemma GoneAt(trace: seq<World>, k: nat, key: string)
    requires IsRun(trace) && k + 1 < |trace| && Gone(trace[k], key)
    ensures Gone(trace[k + 1], key)
  {
    RunInv(trace, k);
    var e := EventAt(trace, k);
    GoneStep(trace[k], e, key);
  }

  lemma {:induction false} StaysGone(trace: seq<World>, l: nat, k: nat, key: string)
    requires IsRun(trace) && l <= k < |trace| && Gone(trace[l], key)
    ensures Gone(trace[k], key)
  {
    if l < k {
      StaysGone(trace, l, k - 1, key);
      GoneAt(trace, k - 1, key);
    }
  }

  lemma RemovedFromBuffer(trace: seq<World>, l: nat, key: string)
    requires IsRun(trace) && l + 1 < |trace| && Enabled(trace[l], RemoveLocal)
    requires trace[l + 1] == Next(trace[l], RemoveLocal) && key in trace[l].trainer.keys
    ensures OffQueue(trace[l + 1], key) && key !in trace[l + 1].local.items
  {
    RunInv(trace, l);
    RemovingIsOffQueue(trace, l, key);
    OffQueueStep(trace[l], RemoveLocal, key);
    DropAllItems(trace[l].local, trace[l].trainer.keys);
  }

  /** A sampled key removed from the buffer never comes back to it, unless a listing taken before the queue was
      cleared is still to be applied; and then it is not sampled again (NoKeyIsSampledTwice). */
  lemma RemovedForGood(trace: seq<World>, l: nat, k: nat, key: string)
    requires IsRun(trace) && l < k < |trace| && Enabled(trace[l], RemoveLocal)
    requires trace[l + 1] == Next(trace[l], RemoveLocal) && key in trace[l].trainer.keys
    requires trace[l].listing.Some? ==> key !in trace[l].listing.value.items
    ensures key !in trace[k].local.items && key !in trace[k].remote.items
  {
    RemovedFromBuffer(trace, l, key);
    StaysGone(trace, l + 1, k, key);
  }

  /** Exactly such a listing puts it back. */
  lemma StaleListingPutsBackIff(w: World, key: string)
    requires Inv(w) && Enabled(w, ApplyListing) && key !in w.local.items
    ensures key in Next(w, ApplyListing).local.items <==> key in w.listing.value.items
  {
    Applied(w, w.listing.value, key);
  }
}
