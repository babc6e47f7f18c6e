/** verl/trainer/main_ppo_sync.py, ReplayBuffer: the trainer's local mirror of the transfer queue. */
module ReplayBuffer {
  import opened Orders
  import opened Wrappers

  datatype Status = Running | Success | Finished | Failure

  /** The tags of a key that decide sampling; a tag dictionary need not hold both. */
  datatype Tags = Tags(step: Option<int>, status: Option<Status>)

  type Items = map<string, Tags>

  /** A dictionary with its insertion order. */
  datatype Partition = Partition(order: seq<string>, items: Items)

  const NO_ITEMS := Partition([], map[])

  function Update(was: Tags, more: Tags): Tags {
    Tags(if more.step.Some? then more.step else was.step, if more.status.Some? then more.status else was.status)
  }

  /** `partition.setdefault(key, {}).update(tags)` */
  function Put(p: Partition, key: string, tags: Tags): Partition {
    if key in p.items then Partition(p.order, p.items[key := Update(p.items[key], tags)])
    else Partition(p.order + [key], p.items[key := tags])
  }

  /** add(): the items, one after the other, in their own order. */
  function PutAll(p: Partition, added: Partition, n: nat): Partition
    requires n <= |added.order| && ListsKeys(added)
  {
    if n == 0 then p
    else
      assert added.order[n - 1] in added.order;
      Put(PutAll(p, added, n - 1), added.order[n - 1], added.items[added.order[n - 1]])
  }

  ghost predicate ListsKeys(p: Partition) {
    && (forall k :: k in p.order ==> k in p.items)
    && (forall k :: k in p.items ==> k in p.order)
    && Distinct(p.order)
  }

  function DropKey(p: Partition, key: string): Partition {
    Partition(Without(p.order, key), p.items - {key})
  }

  function DropAll(p: Partition, keys: seq<string>): Partition {
    if keys == [] then p else DropKey(DropAll(p, keys[..|keys| - 1]), keys[|keys| - 1])
  }

  datatype Outcome = Wait | MissingTag(key: string) | Batch(keys: seq<string>)

  /** One pass of sample() over the first n entries, stopping at the first entry that decides. */
  function Scan(p: Partition, step: Option<int>, n: nat): Outcome
    requires n <= |p.order| && ListsKeys(p)
  {
    if n == 0 then Batch([])
    else
      var before := Scan(p, step, n - 1);
      if !before.Batch? then before
      else
        var key := p.order[n - 1];
        assert key in p.order;
        var tags := p.items[key];
        if tags.step.None? then MissingTag(key)
        else if tags.step != step then before
        else if tags.status.None? then MissingTag(key)
        else if tags.status.value == Running then Wait
        else if tags.status.value == Success then Batch(before.keys + [key])
        else before
  }

  lemma PutLists(p: Partition, key: string, tags: Tags)
    requires ListsKeys(p)
    ensures ListsKeys(Put(p, key, tags))
  {
    if key !in p.items { assert key !in p.order; }
  }

  lemma DropLists(p: Partition, key: string)
    requires ListsKeys(p)
    ensures ListsKeys(DropKey(p, key))
  {
    WithoutElements(p.order, key);
    WithoutDistinct(p.order, key);
  }

  lemma {:induction false} PutAllLists(p: Partition, added: Partition, n: nat)
    requires n <= |added.order| && ListsKeys(added) && ListsKeys(p)
    ensures ListsKeys(PutAll(p, added, n))
  {
    if n > 0 {
      PutAllLists(p, added, n - 1);
      assert added.order[n - 1] in added.order;
      PutLists(PutAll(p, added, n - 1), added.order[n - 1], added.items[added.order[n - 1]]);
    }
  }

  /** What add() leaves under a key: old tags updated by the added ones, nothing lost. */
  lemma {:induction false} PutAllAt(p: Partition, added: Partition, n: nat, k: string)
    requires n <= |added.order| && ListsKeys(added)
    ensures var items := PutAll(p, added, n).items;
            && (k in items <==> k in p.items || k in added.order[..n])
            && (k in items ==>
                  items[k] == if k !in added.order[..n] then p.items[k]
                              else if k in p.items then Update(p.items[k], added.items[k]) else added.items[k])
  {
    if n > 0 {
      PutAllAt(p, added, n - 1, k);
      var key := added.order[n - 1];
      assert key in added.order;
      assert added.order[..n] == added.order[..n - 1] + [key];
      if k == key { assert k !in added.order[..n - 1]; }
    }
  }

  /** add() leaves the tags of a key that it gives, and those that it does not give as they were; keys that were there
      keep their places. */
  lemma AddMeaning(p: Partition, added: Partition, k: string)
    requires ListsKeys(added)
    ensures var q := PutAll(p, added, |added.order|);
            && (k in q.items <==> k in p.items || k in added.items)
            && (k in added.items && added.items[k].step.Some? ==> q.items[k].step == added.items[k].step)
            && (k in added.items && added.items[k].status.Some? ==> q.items[k].status == added.items[k].status)
            && (k in p.items && (k !in added.items || added.items[k].step.None?) ==> q.items[k].step == p.items[k].step)
            && (k in p.items && (k !in added.items || added.items[k].status.None?) ==>
                  q.items[k].status == p.items[k].status)
            && p.order <= q.order
  {
    assert added.order[..|added.order|] == added.order;
    PutAllAt(p, added, |added.order|, k);
    PutAllKeepsOrder(p, added, |added.order|);
  }

  lemma {:induction false} PutAllKeepsOrder(p: Partition, added: Partition, n: nat)
    requires n <= |added.order| && ListsKeys(added)
    ensures p.order <= PutAll(p, added, n).order
  {
    if n > 0 { PutAllKeepsOrder(p, added, n - 1); }
  }

  lemma {:induction false} DropAllItems(p: Partition, keys: seq<string>)
    requires ListsKeys(p)
    ensures ListsKeys(DropAll(p, keys))
    ensures forall k :: k in DropAll(p, keys).items <==> k in p.items && k !in keys
    ensures forall k :: k in DropAll(p, keys).items ==> DropAll(p, keys).items[k] == p.items[k]
  {
    if keys != [] {
      var init := keys[..|keys| - 1];
      DropAllItems(p, init);
      DropLists(DropAll(p, init), keys[|keys| - 1]);
      assert keys == init + [keys[|keys| - 1]];
    }
  }

  ghost predicate Complete(tags: Tags) {
    tags.step.Some? && tags.status.Some?
  }

  /** An entry at which the pass over a step breaks off: it lacks a tag that is looked at, or it is running. */
  predicate Decides(tags: Tags, step: int) {
    tags.step.None? || (tags.step == Some(step) && (tags.status.None? || tags.status == Some(Running)))
  }

  predicate LacksTag(tags: Tags, step: int) {
    tags.step.None? || (tags.step == Some(step) && tags.status.None?)
  }

  lemma {:induction false} BatchIff(p: Partition, step: int, n: nat)
    requires n <= |p.order| && ListsKeys(p)
    ensures Scan(p, Some(step), n).Batch? <==>
            forall a :: 0 <= a < n ==> p.order[a] in p.items && !Decides(p.items[p.order[a]], step)
  {
    if n > 0 {
      BatchIff(p, step, n - 1);
      assert p.order[n - 1] in p.order;
    }
  }

  /** The pass breaks off at the first entry that decides, whatever comes after it: it waits if that entry is
      running, and fails if it lacks a tag. */
  lemma FirstDecides(p: Partition, step: int, n: nat, a: nat)
    requires a < n <= |p.order| && ListsKeys(p)
    requires forall b :: 0 <= b <= a ==> p.order[b] in p.items && (Decides(p.items[p.order[b]], step) <==> b == a)
    ensures Scan(p, Some(step), n) == if LacksTag(p.items[p.order[a]], step) then MissingTag(p.order[a]) else Wait
  {
    BatchIff(p, step, a);
    assert !Scan(p, Some(step), a + 1).Batch?;
    ScanStops(p, Some(step), a + 1, n);
  }

  /** The keys stand in the order of the dictionary. */
  ghost predicate InOrderOf(keys: seq<string>, order: seq<string>) {
    forall i, j, a, b :: 0 <= i < j < |keys| && 0 <= a < |order| && 0 <= b < |order| ==>
      order[a] == keys[i] && order[b] == keys[j] ==> a < b
  }

  lemma LastInOrder(keys: seq<string>, order: seq<string>, n: nat)
    requires n < |order| && Distinct(order) && InOrderOf(keys, order) && forall k :: k in keys ==> k in order[..n]
    ensures InOrderOf(keys + [order[n]], order)
  {
    var longer := keys + [order[n]];
    forall i, j, a, b | 0 <= i < j < |longer| && 0 <= a < |order| && 0 <= b < |order|
      ensures order[a] == longer[i] && order[b] == longer[j] ==> a < b
    {
      assert longer[i] == keys[i] && keys[i] in order[..n];
    }
  }

  lemma {:induction false} BatchInOrder(p: Partition, step: Option<int>, n: nat)
    requires n <= |p.order| && ListsKeys(p) && Scan(p, step, n).Batch?
    ensures forall k :: k in Scan(p, step, n).keys ==> k in p.order[..n]
    ensures InOrderOf(Scan(p, step, n).keys, p.order)
  {
    if n > 0 {
      BatchInOrder(p, step, n - 1);
      LastInOrder(Scan(p, step, n - 1).keys, p.order, n - 1);
      assert p.order[..n] == p.order[..n - 1] + [p.order[n - 1]];
    }
  }

  /** remove() takes away exactly the given keys; the others keep their tags and their order. */
  lemma {:induction false} RemoveMeaning(p: Partition, keys: seq<string>)
    requires ListsKeys(p)
    ensures var q := DropAll(p, keys);
            && (forall k :: k in q.items <==> k in p.items && k !in keys)
            && (forall k :: k in q.items ==> q.items[k] == p.items[k])
            && InOrderOf(q.order, p.order)
  {
    DropAllItems(p, keys);
    if keys != [] {
      var init := keys[..|keys| - 1];
      RemoveMeaning(p, init);
      WithoutInOrder(DropAll(p, init).order, keys[|keys| - 1], p.order);
    }
  }

  lemma {:induction false} WithoutInOrder(s: seq<string>, x: string, order: seq<string>)
    requires InOrderOf(s, order)
    ensures InOrderOf(Without(s, x), order)
  {
    if s != [] {
      var rest := Without(s[1..], x);
      assert InOrderOf(s[1..], order);
      WithoutInOrder(s[1..], x, order);
      WithoutElements(s[1..], x);
      forall j, a, b | 0 <= j < |rest| && 0 <= a < |order| && 0 <= b < |order|
        ensures order[a] == s[0] && order[b] == rest[j] ==> a < b
      {
        assert rest[j] in s[1..];
      }
    }
  }

  /** When every entry is tagged, a pass waits exactly while an entry of the step is running, and otherwise
      returns exactly the step's successful keys, each once. */
  lemma {:induction false} ScanMeaning(p: Partition, step: int, n: nat)
    requires n <= |p.order| && ListsKeys(p) && forall k :: k in p.items ==> Complete(p.items[k])
    ensures var out := Scan(p, Some(step), n);
            && (out.Wait? <==> exists a :: 0 <= a < n && p.items[p.order[a]] == Tags(Some(step), Some(Running)))
            && !out.MissingTag?
            && (out.Batch? ==>
                  && (forall k :: k in out.keys <==> k in p.order[..n] && p.items[k] == Tags(Some(step), Some(Success)))
                  && Distinct(out.keys))
  {
    if n > 0 {
      ScanMeaning(p, step, n - 1);
      var key := p.order[n - 1];
      assert key in p.order && Complete(p.items[key]);
      assert p.order[..n] == p.order[..n - 1] + [key];
      assert key !in p.order[..n - 1];
    }
  }

  /** sample(batch_size=...) compares the integer steps of tagged entries with None and never finds a key. */
  lemma {:induction false} BatchSizeModeFindsNothing(p: Partition, n: nat)
    requires n <= |p.order| && ListsKeys(p) && forall k :: k in p.items ==> p.items[k].step.Some?
    ensures Scan(p, None, n) == Batch([])
  {
    if n > 0 {
      BatchSizeModeFindsNothing(p, n - 1);
      assert p.order[n - 1] in p.order;
    }
  }

  /** The buffer object; its methods run under the lock. */
  class ReplayBuffer {
    var partitions: map<string, Partition>

    ghost predicate Valid()
      reads this
    {
      forall id :: id in partitions ==> ListsKeys(partitions[id])
    }

    /** partitions is a defaultdict. */
    function Of(id: string): Partition
      reads this
    {
      if id in partitions then partitions[id] else NO_ITEMS
    }

    constructor ()
      ensures Valid() && partitions == map[]
    {
      partitions := map[];
    }

    method Add(partitionId: string, items: Partition)
      requires Valid() && ListsKeys(items)
      modifies this
      ensures Valid() && partitions ==
              old(partitions)[partitionId := PutAll(old(Of(partitionId)), items, |items.order|)]
    {
      var partition := Of(partitionId);
      for n := 0 to |items.order|
        invariant partitions == old(partitions)
        invariant partition == PutAll(old(Of(partitionId)), items, n)
        invariant ListsKeys(partition)
      {
        var key := items.order[n];
        assert key in items.order;
        PutLists(partition, key, items.items[key]);
        partition := Put(partition, key, items.items[key]);
      }
      partitions := partitions[partitionId := partition];
    }

    method Remove(partitionId: string, keys: seq<string>)
      requires Valid()
      modifies this
      ensures Valid() && partitions == old(partitions)[partitionId := DropAll(old(Of(partitionId)), keys)]
    {
      var partition := Of(partitionId);
      for n := 0 to |keys|
        invariant partitions == old(partitions)
        invariant partition == DropAll(old(Of(partitionId)), keys[..n])
        invariant ListsKeys(partition)
      {
        assert keys[..n + 1][..n] == keys[..n];
        DropLists(partition, keys[n]);
        if keys[n] in partition.items {
          partition := DropKey(partition, keys[n]);
        } else {
          AbsentKey(partition, keys[n]);
        }
      }
      assert keys[..|keys|] == keys;
      partitions := partitions[partitionId := partition];
    }

    /** One turn of the loop of sample(), between two sleeps. */
    method Poll(partitionId: string, globalSteps: Option<int>) returns (outcome: Outcome)
      requires Valid()
      modifies this
      ensures Valid() && Of(partitionId) == old(Of(partitionId))
      ensures outcome == Scan(old(Of(partitionId)), globalSteps, |old(Of(partitionId)).order|)
    {
      var partition := Of(partitionId);
      partitions := partitions[partitionId := partition];
      var keys: seq<string> := [];
      for n := 0 to |partition.order|
        invariant Scan(partition, globalSteps, n) == Batch(keys)
      {
        var key := partition.order[n];
        assert key in partition.order;
        var tags := partition.items[key];
        if tags.step.None? {
          ScanStops(partition, globalSteps, n + 1, |partition.order|);
          return MissingTag(key);
        }
        if tags.step == globalSteps {
          if tags.status.None? {
            ScanStops(partition, globalSteps, n + 1, |partition.order|);
            return MissingTag(key);
          }
          if tags.status.value == Running {
            ScanStops(partition, globalSteps, n + 1, |partition.order|);
            return Wait;
          }
          if tags.status.value == Success { keys := keys + [key]; }
        }
      }
      return Batch(keys);
    }
  }

  lemma AbsentKey(p: Partition, key: string)
    requires ListsKeys(p) && key !in p.items
    ensures DropKey(p, key) == p
  {
    assert key !in p.order;
    WithoutAbsent(p.order, key);
  }

  lemma {:induction false} ScanStops(p: Partition, step: Option<int>, n: nat, m: nat)
    requires n <= m <= |p.order| && ListsKeys(p) && !Scan(p, step, n).Batch?
    ensures Scan(p, step, m) == Scan(p, step, n)
  {
    if n < m { ScanStops(p, step, n, m - 1); }
  }
}
