/**
 Trainer, agent loop workers, transfer queue and polling thread around one partition of the replay buffer.

 A transition system: the workers write sessions and end prompts in any order, the polling thread lists the
 queue and applies its listing at some later moment, and the trainer announces prompts, launches them,
 samples, clears the queue and then the buffer, and goes on to the next step.
 */
module ReplaySystem {
  import opened Orders
  import opened ReplayBuffer
  import opened TrajectoryKeys
  import opened Wrappers

  /** A prompt at a worker: how many sessions it has, how many outputs each finished session wrote, how it ended. */
  datatype Prompt = Prompt(step: int, sessions: nat, written: map<nat, nat>, ended: Option<Status>)

  type Prompts = map<string, Prompt>

  datatype Trainer = Announcing | Launching(uids: seq<string>) | Sampling | Clearing(keys: seq<string>)
                   | Removing(keys: seq<string>)

  datatype Sample = Sample(step: int, keys: seq<string>)

  datatype World = World(step: int, trainer: Trainer, prompts: Prompts, remote: Partition,
                         listing: Option<Partition>, local: Partition, sampled: seq<Sample>)

  datatype Event =
    | Announce(uids: seq<string>)
    | Launch(sessions: map<string, nat>)
    | WriteSession(uid: string, session: nat, outputs: nat)
    | Finish(uid: string)
    | Fail(uid: string)
    | ListQueue
    | ApplyListing
    | TakeSample(keys: seq<string>)
    | ClearQueue
    | RemoveLocal

  function OutputKeys(uid: string, session: nat, n: nat): seq<string> {
    seq(n, i requires 0 <= i => PrintKey(uid, session, i))
  }

  /** keys and tags of `_agent_loop_postprocess` */
  function Outputs(uid: string, session: nat, step: int, n: nat): Partition {
    Partition(OutputKeys(uid, session, n), map k | k in OutputKeys(uid, session, n) :: Tags(Some(step), Some(Success)))
  }

  function Pending(uids: seq<string>, step: int): Partition {
    Partition(uids, map uid | uid in uids :: Tags(Some(step), Some(Running)))
  }

  function Started(w: World, uids: seq<string>, sessions: map<string, nat>): Prompts {
    w.prompts + map uid | uid in uids :: Prompt(w.step, if uid in sessions then sessions[uid] else 0, map[], None)
  }

  /** uuid4 identifiers: never used before, and without underscores. */
  ghost predicate FreshIds(w: World, uids: seq<string>) {
    Distinct(uids) && forall uid :: uid in uids ==> uid !in w.prompts && '_' !in uid
  }

  ghost predicate Enabled(w: World, e: Event) {
    match e
    case Announce(uids) => w.trainer.Announcing? && FreshIds(w, uids)
    case Launch(sessions) => w.trainer.Launching?
    case WriteSession(uid, session, outputs) =>
      uid in w.prompts && session < w.prompts[uid].sessions && session !in w.prompts[uid].written
    case Finish(uid) =>
      && uid in w.prompts && w.prompts[uid].ended.None?
      && forall s :: 0 <= s < w.prompts[uid].sessions ==> s in w.prompts[uid].written
    case Fail(uid) => uid in w.prompts && w.prompts[uid].ended.None?
    case ListQueue => w.listing.None?
    case ApplyListing => w.listing.Some? && ListsKeys(w.listing.value)
    case TakeSample(keys) =>
      w.trainer.Sampling? && ListsKeys(w.local) && Scan(w.local, Some(w.step), |w.local.order|) == Batch(keys)
    case ClearQueue => w.trainer.Clearing?
    case RemoveLocal => w.trainer.Removing?
  }

  ghost function Next(w: World, e: Event): World
    requires Enabled(w, e)
  {
    match e
    case Announce(uids) =>
      PendingLists(uids, w.step);
      w.(local := PutAll(w.local, Pending(uids, w.step), |uids|), trainer := Launching(uids))
    case Launch(sessions) => w.(prompts := Started(w, w.trainer.uids, sessions), trainer := Sampling)
    case WriteSession(uid, session, outputs) =>
      var p := w.prompts[uid];
      OutputsList(uid, session, p.step, outputs);
      w.(prompts := w.prompts[uid := p.(written := p.written[session := outputs])],
         remote := PutAll(w.remote, Outputs(uid, session, p.step, outputs), outputs))
    case Finish(uid) => End(w, uid, Finished)
    case Fail(uid) => End(w, uid, Failure)
    case ListQueue => w.(listing := Some(w.remote))
    case ApplyListing => w.(local := PutAll(w.local, w.listing.value, |w.listing.value.order|), listing := None)
    case TakeSample(keys) => w.(sampled := w.sampled + [Sample(w.step, keys)], trainer := Clearing(keys))
    case ClearQueue => w.(remote := DropAll(w.remote, w.trainer.keys), trainer := Removing(w.trainer.keys))
    case RemoveLocal => w.(local := DropAll(w.local, w.trainer.keys), step := w.step + 1, trainer := Announcing)
  }

  /** `async_kv_put(key=uid, tag={"status": ...})` */
  function End(w: World, uid: string, status: Status): World
    requires uid in w.prompts
  {
    w.(prompts := w.prompts[uid := w.prompts[uid].(ended := Some(status))],
       remote := Put(w.remote, uid, Tags(None, Some(status))))
  }

  lemma PendingLists(uids: seq<string>, step: int)
    requires Distinct(uids)
    ensures ListsKeys(Pending(uids, step))
  {
  }

  lemma OutputsList(uid: string, session: nat, step: int, n: nat)
    ensures ListsKeys(Outputs(uid, session, step, n))
    ensures |Outputs(uid, session, step, n).order| == n
    ensures forall k :: k in Outputs(uid, session, step, n).order <==>
                        exists i: nat :: i < n && k == PrintKey(uid, session, i)
  {
    var p := Outputs(uid, session, step, n);
    forall a, b | 0 <= a < b < |p.order| ensures p.order[a] != p.order[b] {
      KeysAreInjective(uid, session, a, uid, session, b);
    }
    forall k | exists i: nat :: i < n && k == PrintKey(uid, session, i) ensures k in p.order {
      var i: nat :| i < n && k == PrintKey(uid, session, i);
      assert p.order[i] == k;
    }
  }

  // ---------------------------------------------------------------- invariant

  ghost predicate Wrote(prompts: Prompts, uid: string, session: nat, i: nat) {
    uid in prompts && session in prompts[uid].written && i < prompts[uid].written[session]
  }

  /** The entry of an output that was really written, with its prompt's step. */
  ghost predicate OutputEntry(prompts: Prompts, k: string, tags: Tags) {
    exists uid: string, session: nat, i: nat ::
      && Wrote(prompts, uid, session, i) && k == PrintKey(uid, session, i)
      && tags == Tags(Some(prompts[uid].step), Some(Success))
  }

  /** The entry of a prompt in the queue: how it ended, and nothing else. */
  ghost predicate EndEntry(prompts: Prompts, k: string, tags: Tags) {
    k in prompts && prompts[k].ended.Some? && tags == Tags(None, prompts[k].ended)
  }

  /** The entry of a prompt in the buffer: still running, or how it ended. */
  ghost predicate PromptEntry(prompts: Prompts, k: string, tags: Tags) {
    && k in prompts && tags.step == Some(prompts[k].step)
    && (tags.status == Some(Running) || (prompts[k].ended.Some? && tags.status == prompts[k].ended))
  }

  ghost predicate AllOutputsIn(prompts: Prompts, uid: string, items: Items) {
    forall session: nat, i: nat :: Wrote(prompts, uid, session, i) ==> PrintKey(uid, session, i) in items
  }

  ghost predicate FinishedNow(w: World, uid: string) {
    uid in w.prompts && w.prompts[uid].step == w.step && w.prompts[uid].ended == Some(Finished)
  }

  ghost predicate PromptsInv(w: World) {
    forall uid :: uid in w.prompts ==>
      var p := w.prompts[uid];
      && '_' !in uid
      && (if w.trainer.Announcing? || w.trainer.Launching? then p.step < w.step else p.step <= w.step)
      && (p.ended.Some? ==> p.ended.value in {Finished, Failure})
      && (forall s :: s in p.written ==> s < p.sessions)
      && (p.ended == Some(Finished) ==> forall s :: 0 <= s < p.sessions ==> s in p.written)
  }

  /** A listing is true to the queue, and one that knows a prompt's end knows all its outputs. */
  ghost predicate QueueInv(w: World, q: Partition) {
    && ListsKeys(q)
    && (forall k :: k in q.items ==> EndEntry(w.prompts, k, q.items[k]) || OutputEntry(w.prompts, k, q.items[k]))
    && (w.trainer.Sampling? ==>
          forall uid :: uid in q.items && FinishedNow(w, uid) ==> AllOutputsIn(w.prompts, uid, q.items))
  }

  ghost predicate RemoteInv(w: World) {
    && QueueInv(w, w.remote)
    && (w.trainer.Sampling? ==>
          forall uid :: uid in w.prompts && w.prompts[uid].step == w.step ==>
            AllOutputsIn(w.prompts, uid, w.remote.items))
  }

  /** An entry of the buffer is that of a prompt, of an output, or of a prompt about to be launched. */
  ghost predicate LocalEntry(w: World, k: string, tags: Tags) {
    || PromptEntry(w.prompts, k, tags)
    || OutputEntry(w.prompts, k, tags)
    || (w.trainer.Launching? && k in w.trainer.uids && tags == Tags(Some(w.step), Some(Running)))
  }

  ghost predicate LocalInv(w: World) {
    && ListsKeys(w.local)
    && (forall k :: k in w.local.items ==> LocalEntry(w, k, w.local.items[k]))
    && (forall uid :: uid in w.prompts ==> uid in w.local.items)
    && (w.trainer.Launching? ==>
          FreshIds(w, w.trainer.uids) && forall uid :: uid in w.trainer.uids ==> uid in w.local.items)
    && (w.trainer.Sampling? ==>
          forall uid ::
            uid in w.prompts && w.prompts[uid].step == w.step && w.local.items[uid].status == Some(Finished) ==>
            AllOutputsIn(w.prompts, uid, w.local.items))
  }

  /** Every sampled key is an output written for the step of its sample. */
  ghost predicate SampledKeys(prompts: Prompts, s: Sample) {
    forall k :: k in s.keys ==> OutputEntry(prompts, k, Tags(Some(s.step), Some(Success)))
  }

  ghost predicate SampledInv(w: World) {
    && (forall a :: 0 <= a < |w.sampled| ==>
          SampledKeys(w.prompts, w.sampled[a])
          && (if w.trainer.Clearing? || w.trainer.Removing?
              then w.sampled[a].step <= w.step
              else w.sampled[a].step < w.step))
    && (forall a, b :: 0 <= a < b < |w.sampled| ==> w.sampled[a].step < w.sampled[b].step)
    && (w.trainer.Clearing? || w.trainer.Removing? ==>
          SampledKeys(w.prompts, Sample(w.step, w.trainer.keys)))
  }

  ghost predicate Inv(w: World) {
    && PromptsInv(w)
    && RemoteInv(w)
    && (w.listing.Some? ==> QueueInv(w, w.listing.value))
    && LocalInv(w)
    && SampledInv(w)
  }

  function Start(step: int): World {
    World(step, Announcing, map[], NO_ITEMS, None, NO_ITEMS, [])
  }

  lemma StartInv(step: int)
    ensures Inv(Start(step))
  {
  }

  // ---------------------------------------------------------------- growing prompts

  /** Steps never change, outputs are never unwritten, ends are final. */
  ghost predicate Grows(a: Prompts, b: Prompts) {
    forall uid :: uid in a ==>
      && uid in b && b[uid].step == a[uid].step
      && (forall s :: s in a[uid].written ==> s in b[uid].written && b[uid].written[s] == a[uid].written[s])
      && (a[uid].ended.Some? ==> b[uid].ended == a[uid].ended)
  }

  lemma OutputEntryGrows(a: Prompts, b: Prompts, k: string, tags: Tags)
    requires Grows(a, b) && OutputEntry(a, k, tags)
    ensures OutputEntry(b, k, tags)
  {
    var uid: string, session: nat, i: nat :| Wrote(a, uid, session, i) && k == PrintKey(uid, session, i)
                                             && tags == Tags(Some(a[uid].step), Some(Success));
    assert Wrote(b, uid, session, i);
  }

  lemma EntriesGrow(a: Prompts, b: Prompts, items: Items)
    requires Grows(a, b)
    ensures forall k :: k in items && OutputEntry(a, k, items[k]) ==> OutputEntry(b, k, items[k])
    ensures forall k :: k in items && EndEntry(a, k, items[k]) ==> EndEntry(b, k, items[k])
    ensures forall k :: k in items && PromptEntry(a, k, items[k]) ==> PromptEntry(b, k, items[k])
  {
    forall k | k in items && OutputEntry(a, k, items[k]) ensures OutputEntry(b, k, items[k]) {
      OutputEntryGrows(a, b, k, items[k]);
    }
  }

  lemma SampledGrows(a: Prompts, b: Prompts, s: Sample)
    requires Grows(a, b) && SampledKeys(a, s)
    ensures SampledKeys(b, s)
  {
    forall k | k in s.keys ensures OutputEntry(b, k, Tags(Some(s.step), Some(Success))) {
      OutputEntryGrows(a, b, k, Tags(Some(s.step), Some(Success)));
    }
  }

  /** An output's key says which prompt it belongs to, so its step is no accident. */
  lemma OutputStepIsUnique(prompts: Prompts, k: string, tags: Tags, tags': Tags)
    requires OutputEntry(prompts, k, tags) && OutputEntry(prompts, k, tags')
    ensures tags == tags'
  {
    var uid: string, session: nat, i: nat :| Wrote(prompts, uid, session, i) && k == PrintKey(uid, session, i)
                                             && tags == Tags(Some(prompts[uid].step), Some(Success));
    var uid': string, session': nat, i': nat :| Wrote(prompts, uid', session', i') && k == PrintKey(uid', session', i')
                                                && tags' == Tags(Some(prompts[uid'].step), Some(Success));
    KeysAreInjective(uid, session, i, uid', session', i');
  }

  /** Identifiers of prompts are not keys of outputs. */
  lemma OutputKeysHaveUnderscores(prompts: Prompts, k: string, tags: Tags)
    requires OutputEntry(prompts, k, tags)
    ensures '_' in k
  {
    var uid: string, session: nat, i: nat :| Wrote(prompts, uid, session, i) && k == PrintKey(uid, session, i)
                                             && tags == Tags(Some(prompts[uid].step), Some(Success));
    assert k[|uid|] == '_';
  }

  // ---------------------------------------------------------------- the trainer's steps

  lemma AnnounceStep(w: World, uids: seq<string>)
    requires Inv(w) && Enabled(w, Announce(uids))
    ensures Inv(Next(w, Announce(uids)))
  {
    var added, w' := Pending(uids, w.step), Next(w, Announce(uids));
    PendingLists(uids, w.step);
    PutAllLists(w.local, added, |uids|);
    assert added.order[..|uids|] == uids;
    forall k ensures k in w'.local.items <==> k in w.local.items || k in uids
             ensures k in w'.local.items ==>
                       w'.local.items[k] == if k in uids then Tags(Some(w.step), Some(Running)) else w.local.items[k]
    {
      PutAllAt(w.local, added, |uids|, k);
    }
  }

  lemma StartedGrows(w: World, uids: seq<string>, sessions: map<string, nat>)
    requires FreshIds(w, uids)
    ensures Grows(w.prompts, Started(w, uids, sessions))
    ensures forall uid :: uid in Started(w, uids, sessions) ==> uid in w.prompts || uid in uids
  {
  }

  /** The prompts of the current step have only just been started. */
  ghost predicate NothingWrittenYet(w: World) {
    forall uid :: uid in w.prompts && w.prompts[uid].step == w.step ==> w.prompts[uid].written == map[]
  }

  lemma LaunchQueue(w: World, w': World, q: Partition)
    requires QueueInv(w, q) && Grows(w.prompts, w'.prompts) && NothingWrittenYet(w')
    ensures QueueInv(w', q)
    ensures forall uid :: uid in w'.prompts && w'.prompts[uid].step == w'.step ==>
              AllOutputsIn(w'.prompts, uid, q.items)
  {
    EntriesGrow(w.prompts, w'.prompts, q.items);
  }

  lemma LaunchLocal(w: World, w': World, uids: seq<string>, sessions: map<string, nat>)
    requires LocalInv(w) && w.trainer == Launching(uids) && NothingWrittenYet(w')
    requires w' == w.(prompts := Started(w, uids, sessions), trainer := Sampling)
    ensures LocalInv(w')
  {
    StartedGrows(w, uids, sessions);
    EntriesGrow(w.prompts, w'.prompts, w.local.items);
    forall k | k in w.local.items ensures LocalEntry(w', k, w.local.items[k]) {
      assert LocalEntry(w, k, w.local.items[k]);
    }
  }

  lemma SampledStays(w: World, w': World)
    requires SampledInv(w) && Grows(w.prompts, w'.prompts) && w'.sampled == w.sampled && w'.step == w.step
    requires w'.trainer == w.trainer || (w.trainer.Launching? && w'.trainer.Sampling?)
    ensures SampledInv(w')
  {
    forall a | 0 <= a < |w.sampled| ensures SampledKeys(w'.prompts, w.sampled[a]) {
      SampledGrows(w.prompts, w'.prompts, w.sampled[a]);
    }
    if w.trainer.Clearing? || w.trainer.Removing? {
      SampledGrows(w.prompts, w'.prompts, Sample(w.step, w.trainer.keys));
    }
  }

  lemma LaunchStep(w: World, sessions: map<string, nat>)
    requires Inv(w) && Enabled(w, Launch(sessions))
    ensures Inv(Next(w, Launch(sessions)))
  {
    var w' := Next(w, Launch(sessions));
    StartedGrows(w, w.trainer.uids, sessions);
    LaunchQueue(w, w', w.remote);
    if w.listing.Some? { LaunchQueue(w, w', w.listing.value); }
    LaunchLocal(w, w', w.trainer.uids, sessions);
    SampledStays(w, w');
  }

  lemma ScanSeesTags(w: World)
    requires Inv(w) && w.trainer.Sampling?
    ensures forall key :: key in w.local.items ==> Complete(w.local.items[key])
  {
    forall key | key in w.local.items ensures Complete(w.local.items[key]) {
      assert LocalEntry(w, key, w.local.items[key]);
    }
  }

  lemma SuccessIsOutput(w: World, key: string)
    requires Inv(w) && w.trainer.Sampling? && key in w.local.items
    requires w.local.items[key] == Tags(Some(w.step), Some(Success))
    ensures OutputEntry(w.prompts, key, Tags(Some(w.step), Some(Success)))
  {
    assert LocalEntry(w, key, w.local.items[key]);
  }

  /** What sample() returns, and that it never meets an entry without its tags. */
  lemma SampleMeaning(w: World)
    requires Inv(w) && w.trainer.Sampling?
    ensures var out := Scan(w.local, Some(w.step), |w.local.order|);
            && !out.MissingTag?
            && (out.Batch? ==> Distinct(out.keys) && SampledKeys(w.prompts, Sample(w.step, out.keys)))
  {
    ScanSeesTags(w);
    ScanMeaning(w.local, w.step, |w.local.order|);
    var out := Scan(w.local, Some(w.step), |w.local.order|);
    if out.Batch? {
      assert w.local.order[..|w.local.order|] == w.local.order;
      forall k | k in out.keys ensures OutputEntry(w.prompts, k, Tags(Some(w.step), Some(Success))) {
        SuccessIsOutput(w, k);
      }
    }
  }

  lemma TakeSampleStep(w: World, keys: seq<string>)
    requires Inv(w) && Enabled(w, TakeSample(keys))
    ensures Inv(Next(w, TakeSample(keys)))
  {
    SampleMeaning(w);
  }

  lemma ClearQueueStep(w: World)
    requires Inv(w) && Enabled(w, ClearQueue)
    ensures Inv(Next(w, ClearQueue))
  {
    DropAllItems(w.remote, w.trainer.keys);
  }

  lemma RemoveLocalStep(w: World)
    requires Inv(w) && Enabled(w, RemoveLocal)
    ensures Inv(Next(w, RemoveLocal))
  {
    DropAllItems(w.local, w.trainer.keys);
    forall k | k in w.trainer.keys ensures '_' in k {
      OutputKeysHaveUnderscores(w.prompts, k, Tags(Some(w.step), Some(Success)));
    }
  }

  // ---------------------------------------------------------------- the workers' steps

  /** One prompt makes progress; the other prompts and the trainer stay as they are. */
  ghost predicate Progresses(w: World, uid: string, p: Prompt, w': World) {
    && uid in w.prompts
    && w'.prompts == w.prompts[uid := p]
    && w'.step == w.step && w'.trainer == w.trainer && w'.sampled == w.sampled
    && w'.listing == w.listing && w'.local == w.local
    && Grows(w.prompts, w'.prompts)
  }

  /** A listing taken before stays true: it does not know the end of a prompt that still runs. */
  lemma ListingStays(w: World, uid: string, p: Prompt, w': World, q: Partition)
    requires PromptsInv(w) && QueueInv(w, q) && Progresses(w, uid, p, w')
    requires w.prompts[uid].ended != Some(Finished)
    requires w.prompts[uid].ended.None? || p.ended == w.prompts[uid].ended
    ensures QueueInv(w', q)
  {
    EntriesGrow(w.prompts, w'.prompts, q.items);
    if OutputEntry(w.prompts, uid, Tags(None, None)) { OutputKeysHaveUnderscores(w.prompts, uid, Tags(None, None)); }
    forall id | w.trainer.Sampling? && id in q.items && FinishedNow(w', id)
      ensures AllOutputsIn(w'.prompts, id, q.items)
    {
      if id == uid {
        EndsAreKnown(w, uid, q);
      } else {
        assert FinishedNow(w, id);
        SamePromptSameOutputs(w.prompts, w'.prompts, id, q.items);
      }
    }
  }

  lemma EndsAreKnown(w: World, uid: string, q: Partition)
    requires PromptsInv(w) && QueueInv(w, q) && uid in w.prompts && uid in q.items
    ensures w.prompts[uid].ended.Some?
  {
    if OutputEntry(w.prompts, uid, q.items[uid]) { OutputKeysHaveUnderscores(w.prompts, uid, q.items[uid]); }
  }

  lemma SamePromptSameOutputs(a: Prompts, b: Prompts, uid: string, items: Items)
    requires uid in a && uid in b && a[uid].written == b[uid].written && AllOutputsIn(a, uid, items)
    ensures AllOutputsIn(b, uid, items)
  {
    forall session: nat, i: nat | Wrote(b, uid, session, i) ensures PrintKey(uid, session, i) in items {
      assert Wrote(a, uid, session, i);
    }
  }

  lemma LocalStays(w: World, uid: string, p: Prompt, w': World)
    requires PromptsInv(w) && LocalInv(w) && Progresses(w, uid, p, w') && w.prompts[uid].ended != Some(Finished)
    ensures LocalInv(w')
  {
    EntriesGrow(w.prompts, w'.prompts, w.local.items);
    forall id | && w.trainer.Sampling? && id in w'.prompts && w'.prompts[id].step == w.step
                && w.local.items[id].status == Some(Finished)
      ensures AllOutputsIn(w'.prompts, id, w.local.items)
    {
      FinishedMeansEnded(w, id);
      SamePromptSameOutputs(w.prompts, w'.prompts, id, w.local.items);
    }
  }

  /** The buffer does not say finished before the prompt has ended. */
  lemma FinishedMeansEnded(w: World, uid: string)
    requires PromptsInv(w) && LocalInv(w) && uid in w.prompts && w.local.items[uid].status != Some(Running)
    ensures w.prompts[uid].ended.Some? && w.local.items[uid].status == w.prompts[uid].ended
  {
    if OutputEntry(w.prompts, uid, w.local.items[uid]) {
      OutputKeysHaveUnderscores(w.prompts, uid, w.local.items[uid]);
    }
  }

  lemma WrittenItems(w: World, uid: string, session: nat, n: nat, k: string)
    requires uid in w.prompts && ListsKeys(Outputs(uid, session, w.prompts[uid].step, n)) && ListsKeys(w.remote)
    ensures var step := w.prompts[uid].step;
            var items := PutAll(w.remote, Outputs(uid, session, step, n), n).items;
            && (k in items <==> k in w.remote.items || k in OutputKeys(uid, session, n))
            && (k in items ==>
                  items[k] == if k in OutputKeys(uid, session, n) then Tags(Some(step), Some(Success))
                              else w.remote.items[k])
  {
    var added := Outputs(uid, session, w.prompts[uid].step, n);
    assert added.order[..n] == added.order;
    PutAllAt(w.remote, added, n, k);
  }

  lemma WrittenEntry(w: World, uid: string, session: nat, n: nat, w': World, k: string)
    requires Inv(w) && Enabled(w, WriteSession(uid, session, n)) && w' == Next(w, WriteSession(uid, session, n))
    requires Grows(w.prompts, w'.prompts) && k in w'.remote.items
    ensures EndEntry(w'.prompts, k, w'.remote.items[k]) || OutputEntry(w'.prompts, k, w'.remote.items[k])
  {
    OutputsList(uid, session, w.prompts[uid].step, n);
    WrittenItems(w, uid, session, n, k);
    if k in OutputKeys(uid, session, n) {
      var i: nat :| i < n && k == PrintKey(uid, session, i);
      assert Wrote(w'.prompts, uid, session, i);
    } else {
      EntriesGrow(w.prompts, w'.prompts, w.remote.items);
    }
  }

  lemma WrittenOutput(w: World, uid: string, session: nat, n: nat, w': World, id: string, s: nat, i: nat)
    requires Inv(w) && Enabled(w, WriteSession(uid, session, n)) && w' == Next(w, WriteSession(uid, session, n))
    requires w.trainer.Sampling? && Wrote(w'.prompts, id, s, i) && w'.prompts[id].step == w.step
    ensures PrintKey(id, s, i) in w'.remote.items
  {
    OutputsList(uid, session, w.prompts[uid].step, n);
    WrittenItems(w, uid, session, n, PrintKey(id, s, i));
    if id == uid && s == session {
      assert OutputKeys(uid, session, n)[i] == PrintKey(id, s, i);
    } else {
      assert Wrote(w.prompts, id, s, i) && AllOutputsIn(w.prompts, id, w.remote.items);
    }
  }

  lemma WriteRemote(w: World, uid: string, session: nat, n: nat, w': World)
    requires Inv(w) && Enabled(w, WriteSession(uid, session, n)) && w' == Next(w, WriteSession(uid, session, n))
    requires Grows(w.prompts, w'.prompts)
    ensures RemoteInv(w')
  {
    OutputsList(uid, session, w.prompts[uid].step, n);
    PutAllLists(w.remote, Outputs(uid, session, w.prompts[uid].step, n), n);
    forall k | k in w'.remote.items
      ensures EndEntry(w'.prompts, k, w'.remote.items[k]) || OutputEntry(w'.prompts, k, w'.remote.items[k])
    {
      WrittenEntry(w, uid, session, n, w', k);
    }
    forall id, s: nat, i: nat | w.trainer.Sampling? && Wrote(w'.prompts, id, s, i) && w'.prompts[id].step == w.step
      ensures PrintKey(id, s, i) in w'.remote.items
    {
      WrittenOutput(w, uid, session, n, w', id, s, i);
    }
  }

  lemma WriteProgresses(w: World, uid: string, session: nat, n: nat, w': World, p: Prompt)
    requires PromptsInv(w) && Enabled(w, WriteSession(uid, session, n)) && w' == Next(w, WriteSession(uid, session, n))
    requires p == w.prompts[uid].(written := w.prompts[uid].written[session := n])
    ensures Progresses(w, uid, p, w') && PromptsInv(w') && w.prompts[uid].ended != Some(Finished)
  {
  }

  lemma WriteSessionStep(w: World, uid: string, session: nat, n: nat)
    requires Inv(w) && Enabled(w, WriteSession(uid, session, n))
    ensures Inv(Next(w, WriteSession(uid, session, n)))
  {
    var w' := Next(w, WriteSession(uid, session, n));
    var p := w.prompts[uid].(written := w.prompts[uid].written[session := n]);
    WriteProgresses(w, uid, session, n, w', p);
    WriteRemote(w, uid, session, n, w');
    LocalStays(w, uid, p, w');
    SampledStays(w, w');
    if w.listing.Some? { ListingStays(w, uid, p, w', w.listing.value); }
  }

  lemma EndRemote(w: World, uid: string, status: Status, w': World)
    requires Inv(w) && uid in w.prompts && w.prompts[uid].ended.None? && w' == End(w, uid, status)
    requires Grows(w.prompts, w'.prompts)
    ensures RemoteInv(w')
  {
    if uid in w.remote.items { EndsAreKnown(w, uid, w.remote); }
    PutLists(w.remote, uid, Tags(None, Some(status)));
    EntriesGrow(w.prompts, w'.prompts, w.remote.items);
    forall id | w.trainer.Sampling? && id in w'.prompts && w'.prompts[id].step == w.step
      ensures AllOutputsIn(w'.prompts, id, w'.remote.items)
    {
      SamePromptSameOutputs(w.prompts, w'.prompts, id, w.remote.items);
    }
  }

  lemma EndStep(w: World, uid: string, status: Status)
    requires Inv(w) && uid in w.prompts && w.prompts[uid].ended.None? && status in {Finished, Failure}
    requires status == Finished ==> forall s :: 0 <= s < w.prompts[uid].sessions ==> s in w.prompts[uid].written
    ensures Inv(End(w, uid, status))
  {
    var w', p := End(w, uid, status), w.prompts[uid].(ended := Some(status));
    assert Progresses(w, uid, p, w');
    EndRemote(w, uid, status, w');
    LocalStays(w, uid, p, w');
    SampledStays(w, w');
    if w.listing.Some? { ListingStays(w, uid, p, w', w.listing.value); }
  }

  // ---------------------------------------------------------------- the polling thread

  lemma Applied(w: World, q: Partition, k: string)
    requires w.listing == Some(q) && ListsKeys(q) && ListsKeys(w.local)
    ensures var items := PutAll(w.local, q, |q.order|).items;
            && (k in items <==> k in w.local.items || k in q.items)
            && (k in items ==> items[k] == if k !in q.items then w.local.items[k]
                                           else if k in w.local.items then Update(w.local.items[k], q.items[k])
                                           else q.items[k])
  {
    assert q.order[..|q.order|] == q.order;
    PutAllAt(w.local, q, |q.order|, k);
  }

  /** A stale listing adds no lie to the buffer: prompts keep their step, and outputs keep their tags. */
  lemma AppliedEntry(w: World, q: Partition, k: string)
    requires Inv(w) && w.listing == Some(q) && k in PutAll(w.local, q, |q.order|).items
    ensures LocalEntry(w, k, PutAll(w.local, q, |q.order|).items[k])
  {
    Applied(w, q, k);
    if k in q.items && OutputEntry(w.prompts, k, q.items[k]) {
      if k in w.local.items { assert Update(w.local.items[k], q.items[k]) == q.items[k]; }
    } else if k in q.items && OutputEntry(w.prompts, k, w.local.items[k]) {
      OutputKeysHaveUnderscores(w.prompts, k, w.local.items[k]);
    }
  }

  lemma AppliedOutputs(w: World, q: Partition, uid: string)
    requires Inv(w) && w.listing == Some(q) && w.trainer.Sampling? && uid in w.prompts && w.prompts[uid].step == w.step
    requires uid in PutAll(w.local, q, |q.order|).items
    requires PutAll(w.local, q, |q.order|).items[uid].status == Some(Finished)
    ensures AllOutputsIn(w.prompts, uid, PutAll(w.local, q, |q.order|).items)
  {
    Applied(w, q, uid);
    if uid in q.items {
      EndsAreKnown(w, uid, q);
      if OutputEntry(w.prompts, uid, q.items[uid]) { OutputKeysHaveUnderscores(w.prompts, uid, q.items[uid]); }
      assert FinishedNow(w, uid);
    }
    forall session: nat, i: nat | Wrote(w.prompts, uid, session, i)
      ensures PrintKey(uid, session, i) in PutAll(w.local, q, |q.order|).items
    {
      Applied(w, q, PrintKey(uid, session, i));
    }
  }

  lemma ApplyStep(w: World)
    requires Inv(w) && Enabled(w, ApplyListing)
    ensures Inv(Next(w, ApplyListing))
  {
    var w', q := Next(w, ApplyListing), w.listing.value;
    PutAllLists(w.local, q, |q.order|);
    forall k | k in w'.local.items ensures LocalEntry(w', k, w'.local.items[k]) {
      AppliedEntry(w, q, k);
    }
    forall k | k in w.local.items ensures k in w'.local.items { Applied(w, q, k); }
    forall uid | && w.trainer.Sampling? && uid in w.prompts && w.prompts[uid].step == w.step
                 && w'.local.items[uid].status == Some(Finished)
      ensures AllOutputsIn(w.prompts, uid, w'.local.items)
    {
      AppliedOutputs(w, q, uid);
    }
  }

  // ---------------------------------------------------------------- every run

  lemma EventStep(w: World, e: Event)
    requires Inv(w) && Enabled(w, e)
    ensures Inv(Next(w, e))
  {
    match e
    case Announce(uids) => AnnounceStep(w, uids);
    case Launch(sessions) => LaunchStep(w, sessions);
    case WriteSession(uid, session, n) => WriteSessionStep(w, uid, session, n);
    case Finish(uid) => EndStep(w, uid, Finished);
    case Fail(uid) => EndStep(w, uid, Failure);
    case ListQueue =>
    case ApplyListing => ApplyStep(w);
    case TakeSample(keys) => TakeSampleStep(w, keys);
    case ClearQueue => ClearQueueStep(w);
    case RemoveLocal => RemoveLocalStep(w);
  }

  ghost predicate StepAt(trace: seq<World>, k: nat)
    requires k + 1 < |trace|
  {
    exists e :: Enabled(trace[k], e) && trace[k + 1] == Next(trace[k], e)
  }

  ghost predicate IsRun(trace: seq<World>) {
    && trace != [] && trace[0] == Start(trace[0].step)
    && forall k: nat :: k + 1 < |trace| ==> StepAt(trace, k)
  }

  lemma {:induction false} RunInv(trace: seq<World>, k: nat)
    requires IsRun(trace) && k < |trace|
    ensures Inv(trace[k])
  {
    if k == 0 {
      StartInv(trace[0].step);
    } else {
      RunInv(trace, k - 1);
      assert StepAt(trace, k - 1);
      var e :| Enabled(trace[k - 1], e) && trace[k] == Next(trace[k - 1], e);
      EventStep(trace[k - 1], e);
    }
  }

  /** The batch is the step's successful entries of the buffer. */
  lemma SampledKeysAre(w: World, keys: seq<string>)
    requires Inv(w) && Enabled(w, TakeSample(keys))
    ensures forall k :: k in keys <==> k in w.local.order && w.local.items[k] == Tags(Some(w.step), Some(Success))
  {
    ScanSeesTags(w);
    ScanMeaning(w.local, w.step, |w.local.order|);
    assert w.local.order[..|w.local.order|] == w.local.order;
  }

  lemma FinishedIsSampled(w: World, uid: string, keys: seq<string>)
    requires Inv(w) && Enabled(w, TakeSample(keys)) && FinishedNow(w, uid)
    ensures forall session: nat, i: nat :: Wrote(w.prompts, uid, session, i) ==> PrintKey(uid, session, i) in keys
  {
    SampledPromptHasEnded(w, uid);
    SampledKeysAre(w, keys);
    forall session: nat, i: nat | Wrote(w.prompts, uid, session, i) ensures PrintKey(uid, session, i) in keys {
      OutputIsLocal(w, uid, session, i);
    }
  }

  /** When sample() returns for the current step, every prompt of the step has ended, every output of every
      prompt that finished is in the batch, and the batch holds nothing but outputs of the step, each once. */
  lemma SampleIsComplete(trace: seq<World>, k: nat, keys: seq<string>)
    requires IsRun(trace) && k < |trace| && Enabled(trace[k], TakeSample(keys))
    ensures var w := trace[k];
            && Distinct(keys)
            && (forall key :: key in keys ==> OutputEntry(w.prompts, key, Tags(Some(w.step), Some(Success))))
            && forall uid :: uid in w.prompts && w.prompts[uid].step == w.step ==>
                 && w.prompts[uid].ended.Some?
                 && (w.prompts[uid].ended == Some(Finished) ==>
                       forall session: nat, i: nat ::
                         Wrote(w.prompts, uid, session, i) ==> PrintKey(uid, session, i) in keys)
  {
    RunInv(trace, k);
    var w := trace[k];
    SampleMeaning(w);
    forall uid | uid in w.prompts && w.prompts[uid].step == w.step
      ensures w.prompts[uid].ended.Some?
      ensures w.prompts[uid].ended == Some(Finished) ==>
                forall session: nat, i: nat :: Wrote(w.prompts, uid, session, i) ==> PrintKey(uid, session, i) in keys
    {
      SampledPromptHasEnded(w, uid);
      if w.prompts[uid].ended == Some(Finished) { FinishedIsSampled(w, uid, keys); }
    }
  }

  lemma SampledPromptHasEnded(w: World, uid: string)
    requires Inv(w) && w.trainer.Sampling? && uid in w.prompts && w.prompts[uid].step == w.step
    requires Scan(w.local, Some(w.step), |w.local.order|).Batch?
    ensures w.prompts[uid].ended.Some? && w.local.items[uid].status == w.prompts[uid].ended
  {
    ScanSeesTags(w);
    ScanMeaning(w.local, w.step, |w.local.order|);
    if OutputEntry(w.prompts, uid, w.local.items[uid]) {
      OutputKeysHaveUnderscores(w.prompts, uid, w.local.items[uid]);
    }
    var a :| 0 <= a < |w.local.order| && w.local.order[a] == uid;
    FinishedMeansEnded(w, uid);
  }

  lemma OutputIsLocal(w: World, uid: string, session: nat, i: nat)
    requires Inv(w) && w.trainer.Sampling? && FinishedNow(w, uid) && w.local.items[uid].status == Some(Finished)
    requires Wrote(w.prompts, uid, session, i)
    ensures var key := PrintKey(uid, session, i);
            key in w.local.order && w.local.items[key] == Tags(Some(w.step), Some(Success))
  {
    var key := PrintKey(uid, session, i);
    assert AllOutputsIn(w.prompts, uid, w.local.items);
    assert key[|uid|] == '_';
    assert OutputEntry(w.prompts, key, Tags(Some(w.step), Some(Success)));
    if OutputEntry(w.prompts, key, w.local.items[key]) {
      OutputStepIsUnique(w.prompts, key, w.local.items[key], Tags(Some(w.step), Some(Success)));
    }
  }

  /** No key is ever returned by two training samples, whatever stale listings put back into the buffer. */
  lemma NoKeyIsSampledTwice(trace: seq<World>, k: nat, a: nat, b: nat, key: string)
    requires IsRun(trace) && k < |trace| && a < b < |trace[k].sampled|
    ensures !(key in trace[k].sampled[a].keys && key in trace[k].sampled[b].keys)
  {
    RunInv(trace, k);
    var w := trace[k];
    assert SampledKeys(w.prompts, w.sampled[a]) && SampledKeys(w.prompts, w.sampled[b]);
    if key in w.sampled[a].keys && key in w.sampled[b].keys {
      OutputStepIsUnique(w.prompts, key, Tags(Some(w.sampled[a].step), Some(Success)),
                         Tags(Some(w.sampled[b].step), Some(Success)));
      assert false;
    }
  }
}
