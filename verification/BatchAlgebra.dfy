/**
 verl/protocol.py: padding a DataProto to a divisor and back, chunking and concatenating. Rows of the tensors and
 of the object arrays, and the values of meta_info, are opaque.
 */
module BatchAlgebra {
  import opened Arithmetic
  import opened RankTiling
  import opened Rows
  import opened Wrappers

  /** batch and non_tensor_batch */
  datatype RowData<T, V> = RowData(batch: Option<seq<T>>, nonTensor: map<string, seq<V>>)

  /** A DataProto; `meta` is meta_info without its "metrics". */
  datatype DataProto<T, V, M> = DataProto(rows: RowData<T, V>, meta: map<string, M>)

  datatype BatchError = UnequalChunks | TooFewChunks | NothingToConcat | KeyMismatch | ConflictingMeta
                      | UnequalLengths

  /** The tensors and all arrays have n rows. */
  ghost predicate HasRows<T, V>(d: RowData<T, V>, n: nat) {
    && (d.batch.Some? ==> |d.batch.value| == n)
    && (forall k :: k in d.nonTensor ==> |d.nonTensor[k]| == n)
    && (d.batch.None? && d.nonTensor == map[] ==> n == 0)
  }

  /** d[from:to] */
  function Slice<T, V>(d: RowData<T, V>, from: nat, to: nat): RowData<T, V>
    requires from <= to && (d.batch.Some? ==> to <= |d.batch.value|)
    requires forall k :: k in d.nonTensor ==> to <= |d.nonTensor[k]|
  {
    RowData(if d.batch.Some? then Some(d.batch.value[from..to]) else None,
              map k | k in d.nonTensor :: d.nonTensor[k][from..to])
  }

  /** Concatenating two; the keys of the later one must occur in the first. */
  function Join<T, V>(a: RowData<T, V>, b: RowData<T, V>): Result<RowData<T, V>, BatchError> {
    if !(b.nonTensor.Keys <= a.nonTensor.Keys) || (a.batch.Some? && b.batch.None?) then Err(KeyMismatch)
    else
      Ok(RowData(if a.batch.Some? then Some(a.batch.value + b.batch.value) else None,
                   map k | k in a.nonTensor :: a.nonTensor[k] + if k in b.nonTensor then b.nonTensor[k] else []))
  }

  /** torch.cat and np.concatenate over the list. */
  method ConcatenateRows<T, V>(ds: seq<RowData<T, V>>) returns (r: Result<RowData<T, V>, BatchError>)
    ensures r == JoinAll(ds)
  {
    if ds == [] { return Err(NothingToConcat); }
    var joined := ds[0];
    assert ds[..1] == [ds[0]];
    for i := 1 to |ds|
      invariant JoinAll(ds[..i]) == Ok(joined)
    {
      assert ds[..i + 1][..i] == ds[..i];
      var next := Join(joined, ds[i]);
      if next.Err? {
        JoinFails(ds, i + 1);
        return next;
      }
      joined := next.value;
    }
    assert ds[..|ds|] == ds;
    return Ok(joined);
  }

  function JoinAll<T, V>(ds: seq<RowData<T, V>>): Result<RowData<T, V>, BatchError> {
    if ds == [] then Err(NothingToConcat)
    else if |ds| == 1 then Ok(ds[0])
    else
      match JoinAll(ds[..|ds| - 1])
      case Err(e) => Err(e)
      case Ok(d) => Join(d, ds[|ds| - 1])
  }

  lemma {:induction false} JoinFails<T, V>(ds: seq<RowData<T, V>>, i: nat)
    requires 0 < i <= |ds| && JoinAll(ds[..i]).Err?
    ensures JoinAll(ds) == JoinAll(ds[..i])
    decreases |ds|
  {
    if i == |ds| {
      assert ds[..i] == ds;
    } else {
      assert ds[..|ds| - 1][..i] == ds[..i];
      JoinFails(ds[..|ds| - 1], i);
    }
  }

  /** What the first has, all have: its tensors, and no array that it lacks. */
  ghost predicate Joinable<T, V>(ds: seq<RowData<T, V>>) {
    ds != [] && forall i :: 0 <= i < |ds| ==>
                              && ds[i].nonTensor.Keys <= ds[0].nonTensor.Keys
                              && (ds[0].batch.Some? ==> ds[i].batch.Some?)
  }

  function TensorRows<T, V>(ds: seq<RowData<T, V>>): seq<T> {
    if ds == [] then []
    else
      var last := ds[|ds| - 1];
      TensorRows(ds[..|ds| - 1]) + if last.batch.Some? then last.batch.value else []
  }

  function ArrayRows<T, V>(ds: seq<RowData<T, V>>, k: string): seq<V> {
    if ds == [] then []
    else
      var last := ds[|ds| - 1];
      ArrayRows(ds[..|ds| - 1], k) + if k in last.nonTensor then last.nonTensor[k] else []
  }

  /** The rows of all, in order, under the keys of the first. */
  ghost predicate IsJoined<T, V>(r: RowData<T, V>, ds: seq<RowData<T, V>>)
    requires ds != []
  {
    && r.batch == (if ds[0].batch.Some? then Some(TensorRows(ds)) else None)
    && r.nonTensor.Keys == ds[0].nonTensor.Keys
    && forall k :: k in r.nonTensor ==> r.nonTensor[k] == ArrayRows(ds, k)
  }

  /** The rows join unless there are none or a later one has an array, or lacks the tensors, of the first; one that
      only lacks an array is joined, and that array comes out short. */
  lemma {:induction false} JoinAllIff<T, V>(ds: seq<RowData<T, V>>)
    ensures JoinAll(ds).Ok? <==> Joinable(ds)
    ensures JoinAll(ds).Ok? ==> IsJoined(JoinAll(ds).value, ds)
  {
    if |ds| == 1 {
      assert TensorRows(ds[..0]) == [] && forall k :: ArrayRows(ds[..0], k) == [];
      assert ds[0].batch.Some? ==> TensorRows(ds) == [] + ds[0].batch.value == ds[0].batch.value;
      assert forall k :: k in ds[0].nonTensor ==> ArrayRows(ds, k) == [] + ds[0].nonTensor[k] == ds[0].nonTensor[k];
    } else if ds != [] {
      var init := ds[..|ds| - 1];
      JoinAllIff(init);
      assert Joinable(ds) ==> Joinable(init) by { assert forall i :: 0 <= i < |init| ==> init[i] == ds[i]; }
    }
  }

  // ---------------------------------------------------------------- meta_info

  function Merge<M(==)>(a: map<string, M>, b: map<string, M>): Option<map<string, M>> {
    if forall k :: k in a && k in b ==> a[k] == b[k] then Some(a + b) else None
  }

  function MergeAll<M(==)>(ms: seq<map<string, M>>): Option<map<string, M>> {
    if ms == [] then Some(map[])
    else match MergeAll(ms[..|ms| - 1]) case None => None case Some(m) => Merge(m, ms[|ms| - 1])
  }

  ghost predicate Agree<M>(ms: seq<map<string, M>>) {
    forall i, j, k :: 0 <= i < |ms| && 0 <= j < |ms| && k in ms[i] && k in ms[j] ==> ms[i][k] == ms[j][k]
  }

  /** Merging succeeds exactly when no two dictionaries give a key different values; then it is their union. */
  lemma {:induction false} MergeMeaning<M>(ms: seq<map<string, M>>)
    ensures MergeAll(ms).Some? <==> Agree(ms)
    ensures MergeAll(ms).Some? ==> IsUnion(MergeAll(ms).value, ms)
  {
    if ms != [] {
      var n := |ms| - 1;
      MergeMeaning(ms[..n]);
      assert ms == ms[..n] + [ms[n]];
      if MergeAll(ms[..n]).Some? {
        LastMerges(MergeAll(ms[..n]).value, ms[..n], ms[n]);
      } else {
        ConflictStays(ms[..n], ms[n]);
      }
    }
  }

  lemma ConflictStays<M>(init: seq<map<string, M>>, last: map<string, M>)
    ensures Agree(init + [last]) ==> Agree(init)
  {
    var ms := init + [last];
    if Agree(ms) {
      forall i, j, k | 0 <= i < |init| && 0 <= j < |init| && k in init[i] && k in init[j]
        ensures init[i][k] == init[j][k]
      {
        assert k in ms[i] && k in ms[j];
      }
    }
  }

  ghost predicate IsUnion<M>(m: map<string, M>, ms: seq<map<string, M>>) {
    && (forall k :: k in m ==> exists i :: 0 <= i < |ms| && k in ms[i])
    && (forall i, k :: 0 <= i < |ms| && k in ms[i] ==> k in m && m[k] == ms[i][k])
  }

  lemma LastMerges<M>(m: map<string, M>, init: seq<map<string, M>>, last: map<string, M>)
    requires IsUnion(m, init) && Agree(init)
    ensures Merge(m, last).Some? <==> Agree(init + [last])
    ensures Merge(m, last).Some? ==> IsUnion(Merge(m, last).value, init + [last])
  {
    var ms := init + [last];
    if Agree(ms) {
      forall k | k in m && k in last ensures m[k] == last[k] {
        var i :| 0 <= i < |init| && k in init[i];
        assert k in ms[i] && k in ms[|init|];
      }
    }
    if Merge(m, last).Some? {
      MergedIsUnion(m, init, last);
      UnionAgrees(m + last, ms);
    }
  }

  lemma MergedIsUnion<M>(m: map<string, M>, init: seq<map<string, M>>, last: map<string, M>)
    requires IsUnion(m, init) && Merge(m, last).Some?
    ensures IsUnion(m + last, init + [last])
  {
    var ms := init + [last];
    forall k | k in m + last ensures exists i :: 0 <= i < |ms| && k in ms[i] {
      if k in last {
        assert k in ms[|init|];
      } else {
        var i :| 0 <= i < |init| && k in init[i];
        assert k in ms[i];
      }
    }
  }

  /** What has a union agrees. */
  lemma UnionAgrees<M>(m: map<string, M>, ms: seq<map<string, M>>)
    requires IsUnion(m, ms)
    ensures Agree(ms)
  {
    forall i, j, k | 0 <= i < |ms| && 0 <= j < |ms| && k in ms[i] && k in ms[j] ensures ms[i][k] == ms[j][k] {
      assert m[k] == ms[i][k] == ms[j][k];
    }
  }

  lemma {:induction false} SameMeta<M>(ms: seq<map<string, M>>, m: map<string, M>)
    requires ms != [] && forall i :: 0 <= i < |ms| ==> ms[i] == m
    ensures MergeAll(ms) == Some(m)
  {
    var n := |ms| - 1;
    if n > 0 {
      SameMeta(ms[..n], m);
    }
    assert m + m == m && map[] + m == m;
  }

  // ---------------------------------------------------------------- rows that come from a source

  /** d is a selection of rows of src: row j of the tensors and of every array is row pick[j]. */
  ghost predicate Picks<T, V>(d: RowData<T, V>, src: RowData<T, V>, pick: seq<nat>) {
    && d.batch.Some? == src.batch.Some? && d.nonTensor.Keys == src.nonTensor.Keys
    && (d.batch.Some? ==> PicksRows(d.batch.value, src.batch.value, pick))
    && (forall k :: k in d.nonTensor ==> PicksRows(d.nonTensor[k], src.nonTensor[k], pick))
  }

  ghost predicate PicksRows<A>(rows: seq<A>, src: seq<A>, pick: seq<nat>) {
    |rows| == |pick| && forall j :: 0 <= j < |pick| ==> pick[j] < |src| && rows[j] == src[pick[j]]
  }

  function Range(from: nat, to: nat): (r: seq<nat>)
    requires from <= to
    ensures |r| == to - from && forall j :: 0 <= j < |r| ==> r[j] == from + j
  {
    seq(to - from, j requires 0 <= j < to - from => from + j)
  }

  lemma SlicePicks<T, V>(d: RowData<T, V>, n: nat, from: nat, to: nat)
    requires HasRows(d, n) && from <= to <= n
    ensures Picks(Slice(d, from, to), d, Range(from, to))
  {
  }

  lemma JoinPicks<T, V>(a: RowData<T, V>, b: RowData<T, V>, src: RowData<T, V>, p: seq<nat>, q: seq<nat>)
    requires Picks(a, src, p) && Picks(b, src, q)
    ensures Join(a, b).Ok? && Picks(Join(a, b).value, src, p + q)
  {
  }

  /** A selection of all rows in order is the source itself. */
  lemma PicksAll<T, V>(d: RowData<T, V>, src: RowData<T, V>, n: nat)
    requires HasRows(src, n) && Picks(d, src, Range(0, n))
    ensures d == src
  {
    if d.batch.Some? { assert d.batch.value == src.batch.value; }
    forall k | k in d.nonTensor ensures d.nonTensor[k] == src.nonTensor[k] {
      assert PicksRows(d.nonTensor[k], src.nonTensor[k], Range(0, n));
    }
    assert d.nonTensor == src.nonTensor;
  }

  lemma PicksLength<T, V>(d: RowData<T, V>, src: RowData<T, V>, n: nat, pick: seq<nat>)
    requires HasRows(src, n) && Picks(d, src, pick) && (n > 0 || pick == [])
    ensures HasRows(d, |pick|)
  {
  }

  // ---------------------------------------------------------------- padding

  function Mod(j: nat, n: nat): nat
    requires n > 0
  {
    j % n
  }

  lemma ModOfLaps(laps: nat, j: nat, n: nat)
    requires j < n
    ensures Mod(laps * n + j, n) == j
  {
    assert laps * n == n * laps;
    DivOfMultiple(n, laps, j);
  }

  /** Row j of the padded data is row j mod n: the data itself, and then its rows over and over. */
  function Cyclic(n: nat, total: nat): (pick: seq<nat>)
    requires n > 0
    ensures |pick| == total && forall j :: 0 <= j < total ==> pick[j] == Mod(j, n)
  {
    seq(total, j requires 0 <= j < total => Mod(j, n))
  }

  // ---------------------------------------------------------------- whole DataProtos

  function RowsOf<T, V, M>(ds: seq<DataProto<T, V, M>>): seq<RowData<T, V>> {
    seq(|ds|, i requires 0 <= i < |ds| => ds[i].rows)
  }

  function MetasOf<T, V, M>(ds: seq<DataProto<T, V, M>>): seq<map<string, M>> {
    seq(|ds|, i requires 0 <= i < |ds| => ds[i].meta)
  }

  /** check_consistency, which every DataProto passes when it is made: next to tensors, arrays have as many rows. */
  predicate Consistent<T, V>(d: RowData<T, V>) {
    d.batch.Some? ==> forall k :: k in d.nonTensor ==> |d.nonTensor[k]| == |d.batch.value|
  }

  /** DataProto.concat: the rows one after the other, and the merged meta_info. */
  function ConcatAll<T, V, M(==)>(ds: seq<DataProto<T, V, M>>): Result<DataProto<T, V, M>, BatchError> {
    match JoinAll(RowsOf(ds))
    case Err(e) => Err(e)
    case Ok(rows) =>
      match MergeAll(MetasOf(ds))
      case None => Err(ConflictingMeta)
      case Some(meta) => if Consistent(rows) then Ok(DataProto(rows, meta)) else Err(UnequalLengths)
  }

  /** DataProto.concat */
  method Concatenate<T, V, M(==)>(ds: seq<DataProto<T, V, M>>) returns (r: Result<DataProto<T, V, M>, BatchError>)
    ensures r == ConcatAll(ds)
  {
    var rows := ConcatenateRows(RowsOf(ds));
    if rows.Err? { return Err(rows.error); }
    var merged: map<string, M> := map[];
    for i := 0 to |ds|
      invariant MergeAll(MetasOf(ds)[..i]) == Some(merged)
    {
      assert MetasOf(ds)[..i + 1][..i] == MetasOf(ds)[..i];
      var next := Merge(merged, ds[i].meta);
      if next.None? {
        MergeFails(MetasOf(ds), i + 1);
        return Err(ConflictingMeta);
      }
      merged := next.value;
    }
    assert MetasOf(ds)[..|ds|] == MetasOf(ds);
    if !Consistent(rows.value) { return Err(UnequalLengths); }
    return Ok(DataProto(rows.value, merged));
  }

  /** Every DataProto with rows has all the arrays of the first. */
  ghost predicate NoneMissing<T, V>(ds: seq<RowData<T, V>>, k: string) {
    forall i :: 0 <= i < |ds| ==> k in ds[i].nonTensor || ds[i].batch == Some([])
  }

  lemma {:induction false} MissingIsShort<T, V>(ds: seq<RowData<T, V>>, k: string)
    requires forall i :: 0 <= i < |ds| ==> Consistent(ds[i]) && ds[i].batch.Some?
    ensures |ArrayRows(ds, k)| <= |TensorRows(ds)|
    ensures |ArrayRows(ds, k)| == |TensorRows(ds)| <==> NoneMissing(ds, k)
  {
    if ds != [] {
      var init, last := ds[..|ds| - 1], ds[|ds| - 1];
      MissingIsShort(init, k);
      assert ds == init + [last];
      assert NoneMissing(ds, k) <==> NoneMissing(init, k) && (k in last.nonTensor || last.batch == Some([]));
    }
  }

  /** DataProto.concat succeeds exactly when none brings an array that the first lacks or lacks the tensors or, next
      to tensors, an array of the first, and no two give a key of meta_info different values. */
  lemma ConcatIff<T, V, M>(ds: seq<DataProto<T, V, M>>)
    requires forall i :: 0 <= i < |ds| ==> Consistent(ds[i].rows)
    ensures ConcatAll(ds).Ok? <==>
              && Joinable(RowsOf(ds)) && Agree(MetasOf(ds))
              && (ds[0].rows.batch.Some? ==> forall k :: k in ds[0].rows.nonTensor ==> NoneMissing(RowsOf(ds), k))
    ensures ConcatAll(ds).Ok? ==>
              && IsJoined(ConcatAll(ds).value.rows, RowsOf(ds))
              && IsUnion(ConcatAll(ds).value.meta, MetasOf(ds))
  {
    JoinAllIff(RowsOf(ds));
    MergeMeaning(MetasOf(ds));
    if Joinable(RowsOf(ds)) && ds[0].rows.batch.Some? {
      assert ds[0].rows == RowsOf(ds)[0];
      forall k | k in ds[0].rows.nonTensor
        ensures |ArrayRows(RowsOf(ds), k)| == |TensorRows(RowsOf(ds))| <==> NoneMissing(RowsOf(ds), k)
      {
        MissingIsShort(RowsOf(ds), k);
      }
    }
  }

  lemma {:induction false} MergeFails<M>(ms: seq<map<string, M>>, i: nat)
    requires 0 < i <= |ms| && MergeAll(ms[..i]).None?
    ensures MergeAll(ms).None?
    decreases |ms|
  {
    if i == |ms| {
      assert ms[..i] == ms;
    } else {
      assert ms[..|ms| - 1][..i] == ms[..i];
      MergeFails(ms[..|ms| - 1], i);
    }
  }

  /** d[from:to] keeps meta_info. */
  function Part<T, V, M>(d: DataProto<T, V, M>, from: nat, to: nat): DataProto<T, V, M>
    requires from <= to && (d.rows.batch.Some? ==> to <= |d.rows.batch.value|)
    requires forall k :: k in d.rows.nonTensor ==> to <= |d.rows.nonTensor[k]|
  {
    DataProto(Slice(d.rows, from, to), d.meta)
  }

  /** pad_dataproto_to_divisor */
  method PadToDivisor<T, V, M(==)>(data: DataProto<T, V, M>, n: nat, divisor: nat)
    returns (padded: DataProto<T, V, M>, padSize: nat)
    requires HasRows(data.rows, n) && divisor > 0
    ensures padSize < divisor && (n + padSize) % divisor == 0 && padded.meta == data.meta
    ensures n == 0 ==> padded == data && padSize == 0
    ensures n > 0 ==> Picks(padded.rows, data.rows, Cyclic(n, n + padSize))
  {
    if n % divisor != 0 {
      PaddedDivides(n, divisor);
      padSize := divisor - n % divisor;
      padded := PadWith(data, n, padSize);
    } else {
      DivOfMultiple(divisor, 0, 0);
      padSize, padded := 0, data;
      if n > 0 { WholeIsCyclic(data.rows, n); }
    }
  }

  ghost predicate AllMeta<T, V, M>(protos: seq<DataProto<T, V, M>>, meta: map<string, M>) {
    forall i :: 0 <= i < |protos| ==> protos[i].meta == meta
  }

  /** padding_protos: whole copies of the data, and a last one cut short. */
  ghost function PaddingList<T, V, M>(data: DataProto<T, V, M>, n: nat, padSize: nat): seq<DataProto<T, V, M>>
    requires HasRows(data.rows, n) && n > 0
    decreases padSize
  {
    if padSize == 0 then []
    else
      var take := Min(padSize, n);
      [Part(data, 0, take)] + PaddingList(data, n, padSize - take)
  }

  method PadWith<T, V, M(==)>(data: DataProto<T, V, M>, n: nat, padSize: nat) returns (padded: DataProto<T, V, M>)
    requires HasRows(data.rows, n) && n > 0
    ensures padded.meta == data.meta && Picks(padded.rows, data.rows, Cyclic(n, n + padSize))
  {
    var protos := [data];
    var remaining: nat := padSize;
    while remaining > 0
      invariant protos + PaddingList(data, n, remaining) == [data] + PaddingList(data, n, padSize)
    {
      var take := Min(remaining, n);
      protos := protos + [Part(data, 0, take)];
      remaining := remaining - take;
    }
    PaddingJoins(protos, data, n, padSize);
    var joined := Concatenate(protos);
    padded := joined.value;
  }

  ghost function PaddingSlices<T, V>(data: RowData<T, V>, n: nat, padSize: nat): seq<RowData<T, V>>
    requires HasRows(data, n) && n > 0
    decreases padSize
  {
    if padSize == 0 then []
    else [Slice(data, 0, Min(padSize, n))] + PaddingSlices(data, n, padSize - Min(padSize, n))
  }

  lemma {:induction false} RowsOfPadding<T, V, M>(data: DataProto<T, V, M>, n: nat, padSize: nat)
    requires HasRows(data.rows, n) && n > 0
    ensures RowsOf(PaddingList(data, n, padSize)) == PaddingSlices(data.rows, n, padSize)
    decreases padSize
  {
    if padSize > 0 { RowsOfPadding(data, n, padSize - Min(padSize, n)); }
  }

  /** Joining a list, element by element, onto what there is already. */
  function JoinOnto<T, V>(a: RowData<T, V>, list: seq<RowData<T, V>>): Result<RowData<T, V>, BatchError>
    decreases |list|
  {
    if list == [] then Ok(a)
    else match Join(a, list[0]) case Err(e) => Err(e) case Ok(b) => JoinOnto(b, list[1..])
  }

  lemma {:induction false} JoinOntoLast<T, V>(a: RowData<T, V>, list: seq<RowData<T, V>>, x: RowData<T, V>)
    ensures JoinOnto(a, list + [x]) ==
            match JoinOnto(a, list) case Err(e) => Err(e) case Ok(b) => Join(b, x)
    decreases |list|
  {
    assert (list + [x])[1..] == if list == [] then [] else list[1..] + [x];
    if list != [] && Join(a, list[0]).Ok? { JoinOntoLast(Join(a, list[0]).value, list[1..], x); }
  }

  lemma {:induction false} JoinAllIsOnto<T, V>(a: RowData<T, V>, list: seq<RowData<T, V>>)
    ensures JoinAll([a] + list) == JoinOnto(a, list)
    decreases |list|
  {
    if list == [] {
      assert [a] + list == [a];
    } else {
      var init, x := list[..|list| - 1], list[|list| - 1];
      assert list == init + [x] && ([a] + list)[..|list|] == [a] + init;
      JoinAllIsOnto(a, init);
      JoinOntoLast(a, init, x);
    }
  }

  /** The rows that padding repeats: lap by lap, the last one cut short. */
  function Laps(n: nat, padSize: nat): seq<seq<nat>>
    requires n > 0
    decreases padSize
  {
    if padSize == 0 then [] else [Range(0, Min(padSize, n))] + Laps(n, padSize - Min(padSize, n))
  }

  ghost predicate AllPick<T, V>(list: seq<RowData<T, V>>, src: RowData<T, V>, picks: seq<seq<nat>>) {
    |list| == |picks| && forall i :: 0 <= i < |list| ==> Picks(list[i], src, picks[i])
  }

  lemma {:induction false} SlicesAreLaps<T, V>(data: RowData<T, V>, n: nat, padSize: nat)
    requires HasRows(data, n) && n > 0
    ensures AllPick(PaddingSlices(data, n, padSize), data, Laps(n, padSize))
    decreases padSize
  {
    if padSize > 0 {
      SlicesAreLaps(data, n, padSize - Min(padSize, n));
      SlicePicks(data, n, 0, Min(padSize, n));
    }
  }

  /** Joining selections of rows of one source selects these rows one after the other. */
  lemma {:induction false} JoinOntoPicks<T, V>(a: RowData<T, V>, list: seq<RowData<T, V>>, src: RowData<T, V>,
                                               pick: seq<nat>, picks: seq<seq<nat>>, whole: seq<nat>)
    requires Picks(a, src, pick) && AllPick(list, src, picks) && whole == pick + Concat(picks)
    ensures JoinOnto(a, list).Ok? && Picks(JoinOnto(a, list).value, src, whole)
    decreases |list|
  {
    if list == [] {
      assert whole == pick;
    } else {
      JoinPicks(a, list[0], src, pick, picks[0]);
      assert whole == pick + picks[0] + Concat(picks[1..]);
      JoinOntoPicks(Join(a, list[0]).value, list[1..], src, pick + picks[0], picks[1..], whole);
    }
  }

  lemma {:induction false} LapsAreCyclic(n: nat, laps: nat, padSize: nat)
    requires n > 0
    ensures Cyclic(n, laps * n) + Concat(Laps(n, padSize)) == Cyclic(n, laps * n + padSize)
    decreases padSize
  {
    if padSize > 0 {
      var take := Min(padSize, n);
      NextLap(n, laps, take);
      var rest := Laps(n, padSize - take);
      assert Laps(n, padSize)[1..] == rest;
      assert Cyclic(n, laps * n) + Concat(Laps(n, padSize)) == Cyclic(n, laps * n + take) + Concat(rest);
      if take < n {
        assert rest == [];
      } else {
        Distribute(laps, 1, n);
        LapsAreCyclic(n, laps + 1, padSize - n);
      }
    }
  }

  lemma AllLaps(n: nat, padSize: nat)
    requires n > 0
    ensures Cyclic(n, n + padSize) == Cyclic(n, n) + Concat(Laps(n, padSize))
  {
    LapsAreCyclic(n, 1, padSize);
    assert 1 * n == n;
  }

  lemma {:induction false} PaddingMeta<T, V, M>(data: DataProto<T, V, M>, n: nat, padSize: nat)
    requires HasRows(data.rows, n) && n > 0
    ensures AllMeta(PaddingList(data, n, padSize), data.meta)
    decreases padSize
  {
    if padSize > 0 { PaddingMeta(data, n, padSize - Min(padSize, n)); }
  }

  lemma RowsOfCons<T, V, M>(d: DataProto<T, V, M>, ds: seq<DataProto<T, V, M>>)
    ensures RowsOf([d] + ds) == [d.rows] + RowsOf(ds)
  {
  }

  lemma PaddingRowsJoinOnto<T, V>(data: RowData<T, V>, n: nat, padSize: nat)
    requires HasRows(data, n) && n > 0
    ensures var joined := JoinOnto(data, PaddingSlices(data, n, padSize));
            joined.Ok? && Picks(joined.value, data, Cyclic(n, n + padSize))
  {
    WholeIsCyclic(data, n);
    SlicesAreLaps(data, n, padSize);
    AllLaps(n, padSize);
    JoinOntoPicks(data, PaddingSlices(data, n, padSize), data, Cyclic(n, n), Laps(n, padSize), Cyclic(n, n + padSize));
  }

  lemma PaddingRowsJoin<T, V>(data: RowData<T, V>, n: nat, padSize: nat)
    requires HasRows(data, n) && n > 0
    ensures var joined := JoinAll([data] + PaddingSlices(data, n, padSize));
            joined.Ok? && Picks(joined.value, data, Cyclic(n, n + padSize))
  {
    PaddingRowsJoinOnto(data, n, padSize);
    JoinAllIsOnto(data, PaddingSlices(data, n, padSize));
  }

  lemma PaddingJoins<T, V, M>(protos: seq<DataProto<T, V, M>>, data: DataProto<T, V, M>, n: nat, padSize: nat)
    requires HasRows(data.rows, n) && n > 0 && protos == [data] + PaddingList(data, n, padSize)
    ensures ConcatAll(protos).Ok? && ConcatAll(protos).value.meta == data.meta
    ensures Picks(ConcatAll(protos).value.rows, data.rows, Cyclic(n, n + padSize))
  {
    RowsOfCons(data, PaddingList(data, n, padSize));
    RowsOfPadding(data, n, padSize);
    PaddingRowsJoin(data.rows, n, padSize);
    PaddingMeta(data, n, padSize);
    SameMeta(MetasOf(protos), data.meta);
  }

  lemma PaddedDivides(n: nat, divisor: nat)
    requires divisor > 0 && n % divisor != 0
    ensures n > 0 && (n + (divisor - n % divisor)) % divisor == 0
  {
    DivMod(n, divisor);
    var q := n / divisor;
    assert q * divisor + divisor == divisor * (q + 1);
    DivOfMultiple(divisor, q + 1, 0);
    DivOfMultiple(divisor, 0, 0);
  }

  lemma WholeIsCyclic<T, V>(data: RowData<T, V>, n: nat)
    requires HasRows(data, n) && n > 0
    ensures Picks(data, data, Cyclic(n, n))
  {
    forall j: nat | j < n ensures Mod(j, n) == j { ModOfLaps(0, j, n); }
  }

  /** After whole laps the next rows start again at row 0. */
  lemma NextLap(n: nat, laps: nat, take: nat)
    requires n > 0 && take <= n
    ensures Cyclic(n, laps * n) + Range(0, take) == Cyclic(n, laps * n + take)
  {
    var whole := laps * n;
    var a, b := Cyclic(n, whole) + Range(0, take), Cyclic(n, whole + take);
    forall j: nat | j < |b| ensures a[j] == b[j] {
      if whole <= j < whole + n { ModOfLaps(laps, j - whole, n); }
    }
  }

  /** unpad_dataproto: `data[:-pad_size]` */
  function Unpad<T, V, M>(d: DataProto<T, V, M>, total: nat, padSize: nat): DataProto<T, V, M>
    requires HasRows(d.rows, total) && padSize <= total
  {
    if padSize != 0 then Part(d, 0, total - padSize) else d
  }

  /** Unpadding undoes padding. */
  lemma UnpadUndoesPad<T, V, M>(data: DataProto<T, V, M>, n: nat, padded: DataProto<T, V, M>, padSize: nat)
    requires HasRows(data.rows, n) && n > 0 && padded.meta == data.meta
    requires Picks(padded.rows, data.rows, Cyclic(n, n + padSize))
    ensures HasRows(padded.rows, n + padSize) && Unpad(padded, n + padSize, padSize) == data
  {
    PicksLength(padded.rows, data.rows, n, Cyclic(n, n + padSize));
    forall j: nat | j < n ensures Mod(j, n) == j { ModOfLaps(0, j, n); }
    var u := Unpad(padded, n + padSize, padSize);
    assert Picks(u.rows, data.rows, Range(0, n));
    PicksAll(u.rows, data.rows, n);
  }

  // ---------------------------------------------------------------- chunk

  /** np.array_split(rows, indices): the pieces between consecutive indices, and the rest. */
  function SplitAt<A>(rows: seq<A>, indices: seq<nat>): seq<seq<A>>
    requires Increasing(indices, |rows|)
    decreases |indices|
  {
    if indices == [] then [rows]
    else
      var m := |indices| - 1;
      SplitAt(rows[..indices[m]], indices[..m]) + [rows[indices[m]..]]
  }

  predicate Increasing(indices: seq<nat>, n: nat) {
    forall i, j :: 0 <= i <= j < |indices| ==> indices[i] <= indices[j] <= n
  }

  /** Where piece i begins, and piece i - 1 ends. */
  function Cut(indices: seq<nat>, n: nat, i: nat): nat
    requires i <= |indices| + 1
  {
    if i == 0 then 0 else if i <= |indices| then indices[i - 1] else n
  }

  lemma {:induction false} SplitAtPieces<A>(rows: seq<A>, indices: seq<nat>, i: nat)
    requires Increasing(indices, |rows|) && i <= |indices|
    ensures |SplitAt(rows, indices)| == |indices| + 1
    ensures Cut(indices, |rows|, i) <= Cut(indices, |rows|, i + 1) <= |rows|
    ensures SplitAt(rows, indices)[i] == rows[Cut(indices, |rows|, i)..Cut(indices, |rows|, i + 1)]
    decreases |indices|
  {
    if indices == [] {
    } else {
      var m := |indices| - 1;
      var front := rows[..indices[m]];
      assert Increasing(indices[..m], |front|);
      SplitAtPieces(front, indices[..m], if i <= m then i else m);
      if i <= m {
        assert front[Cut(indices, |rows|, i)..Cut(indices, |rows|, i + 1)]
            == rows[Cut(indices, |rows|, i)..Cut(indices, |rows|, i + 1)];
      }
    }
  }

  /** torch.chunk: pieces of ceil(n / chunks) rows, the last of them shorter, as many as there are rows for. */
  function TensorStart(n: nat, chunks: nat, i: nat): nat
    requires chunks > 0
  {
    Min(i * CeilDiv(n, chunks), n)
  }

  function TensorPieces(n: nat, chunks: nat): (pieces: nat)
    requires chunks > 0
  {
    if n == 0 then chunks
    else
      CeilOfPositive(n, chunks);
      CeilDiv(n, CeilDiv(n, chunks))
  }

  /** cumsum of the sizes of the tensor chunks, without the last. */
  function TensorCuts(n: nat, chunks: nat): (cuts: seq<nat>)
    requires chunks > 0
    ensures |cuts| == chunks - 1
  {
    seq(chunks - 1, i requires 0 <= i < chunks - 1 => TensorStart(n, chunks, i + 1))
  }

  lemma TensorStarts(n: nat, chunks: nat, i: nat, j: nat)
    requires chunks > 0 && i <= j
    ensures TensorStart(n, chunks, i) <= TensorStart(n, chunks, j) <= n
  {
    MulMonotone(i, j, CeilDiv(n, chunks));
  }

  /** The pieces cover all rows. */
  lemma TensorEnds(n: nat, chunks: nat)
    requires chunks > 0
    ensures TensorStart(n, chunks, 0) == 0 && TensorStart(n, chunks, chunks) == n
    ensures Increasing(TensorCuts(n, chunks), n)
  {
    CeilCovers(n, chunks);
    forall i, j | 0 <= i <= j < chunks - 1
      ensures TensorCuts(n, chunks)[i] <= TensorCuts(n, chunks)[j] <= n
    {
      TensorStarts(n, chunks, i + 1, j + 1);
    }
  }

  /** np.array_split(rows, chunks): the first n % chunks pieces have one row more. */
  function ArrayStart(n: nat, chunks: nat, i: nat): nat
    requires chunks > 0
  {
    i * (n / chunks) + Min(i, n % chunks)
  }

  lemma ArrayStarts(n: nat, chunks: nat, i: nat)
    requires i < chunks
    ensures ArrayStart(n, chunks, i) <= ArrayStart(n, chunks, i + 1) <= n
    ensures ArrayStart(n, chunks, 0) == 0 && ArrayStart(n, chunks, chunks) == n
  {
    DivMod(n, chunks);
    MulMonotone(i, i + 1, n / chunks);
    MulMonotone(i + 1, chunks, n / chunks);
    assert chunks * (n / chunks) == (n / chunks) * chunks;
  }

  /** After the first piece the others are those of the remaining rows. */
  lemma ArrayRest(n: nat, chunks: nat, i: nat)
    requires 0 < i <= chunks && 1 < chunks
    ensures CeilDiv(n, chunks) <= n
    ensures ArrayStart(n, chunks, i) == CeilDiv(n, chunks) + ArrayStart(n - CeilDiv(n, chunks), chunks - 1, i - 1)
  {
    RestSplits(n, chunks);
    CeilIs(n, chunks);
    OneRoundLess(i, n / chunks);
  }

  lemma {:induction false} ArraySplitPieces<A>(rows: seq<A>, chunks: nat, i: nat)
    requires i < chunks
    ensures |ArraySplit(rows, chunks)| == chunks && IsArrayPiece(ArraySplit(rows, chunks)[i], rows, chunks, i)
    decreases chunks
  {
    ArraySplitKeepsAll(rows, chunks);
    if chunks == 1 {
      ArrayStarts(|rows|, 1, 0);
    } else {
      PieceFits(|rows|, chunks);
      var c := CeilDiv(|rows|, chunks);
      assert ArraySplit(rows, chunks) == [rows[..c]] + ArraySplit(rows[c..], chunks - 1);
      if i > 0 {
        ArraySplitPieces(rows[c..], chunks - 1, i - 1);
        LaterPiece(ArraySplit(rows, chunks)[i], rows, chunks, i);
      } else {
        FirstPiece(rows, chunks);
      }
    }
  }

  ghost predicate IsArrayPiece<A>(piece: seq<A>, rows: seq<A>, chunks: nat, i: nat)
    requires chunks > 0
  {
    var from, to := ArrayStart(|rows|, chunks, i), ArrayStart(|rows|, chunks, i + 1);
    from <= to <= |rows| && piece == rows[from..to]
  }

  lemma FirstPiece<A>(rows: seq<A>, chunks: nat)
    requires chunks > 1
    ensures CeilDiv(|rows|, chunks) <= |rows| && IsArrayPiece(rows[..CeilDiv(|rows|, chunks)], rows, chunks, 0)
  {
    ArrayRest(|rows|, chunks, 1);
    ArrayStarts(|rows|, chunks, 0);
    ArrayStarts(|rows| - CeilDiv(|rows|, chunks), chunks - 1, 0);
  }

  lemma LaterPiece<A>(piece: seq<A>, rows: seq<A>, chunks: nat, i: nat)
    requires 0 < i < chunks && CeilDiv(|rows|, chunks) <= |rows|
    requires IsArrayPiece(piece, rows[CeilDiv(|rows|, chunks)..], chunks - 1, i - 1)
    ensures IsArrayPiece(piece, rows, chunks, i)
  {
    ArrayRest(|rows|, chunks, i);
    ArrayRest(|rows|, chunks, i + 1);
    var c, from, to := CeilDiv(|rows|, chunks), ArrayStart(|rows|, chunks, i), ArrayStart(|rows|, chunks, i + 1);
    assert rows[c..][from - c..to - c] == rows[from..to];
  }

  /** Consecutive rows of everything. */
  ghost predicate IsPiece<T, V>(d: RowData<T, V>, data: RowData<T, V>, from: nat, to: nat) {
    from <= to && Picks(d, data, Range(from, to))
  }

  /** Chunk i begins at row i * ceil(n / chunks), and the last one ends with the rows. Without tensors the rows are
      divided as evenly as can be, the longer chunks first. */
  function ChunkStart(tensors: bool, n: nat, chunks: nat, i: nat): nat
    requires chunks > 0
  {
    if tensors then (if i < chunks then i * CeilDiv(n, chunks) else n) else i * (n / chunks) + Min(i, n % chunks)
  }

  /** Chunk i has the same consecutive rows of everything, and meta_info as it was. */
  ghost predicate IsChunk<T, V, M>(d: DataProto<T, V, M>, data: DataProto<T, V, M>, n: nat, chunks: nat, i: nat)
    requires chunks > 0
  {
    var tensors := data.rows.batch.Some?;
    var from, to := ChunkStart(tensors, n, chunks, i), ChunkStart(tensors, n, chunks, i + 1);
    d.meta == data.meta && to <= n && IsPiece(d.rows, data.rows, from, to)
  }

  /** DataProto.chunk: with automatic padding enabled the number of rows need not divide, but torch.chunk may then
      give too few pieces, which fails. */
  method ChunkData<T, V, M>(data: DataProto<T, V, M>, n: nat, chunks: nat, paddingEnabled: bool)
    returns (r: Result<seq<DataProto<T, V, M>>, BatchError>)
    requires HasRows(data.rows, n) && chunks > 0
    ensures !paddingEnabled && n % chunks != 0 ==> r == Err(UnequalChunks)
    ensures (paddingEnabled || n % chunks == 0) ==>
              && (r.Err? <==> data.rows.batch.Some? && n > 0 && n <= (chunks - 1) * CeilDiv(n, chunks))
              && (r.Err? ==> r == Err(TooFewChunks))
    ensures r.Ok? ==> |r.value| == chunks
    ensures r.Ok? ==> forall i :: 0 <= i < chunks ==>
              && IsChunk(r.value[i], data, n, chunks, i)
              && IsOfSize(r.value[i].rows, ChunkSize(data.rows.batch.Some?, n, chunks, i))
    ensures n % chunks == 0 ==>
              r.Ok? && forall i :: 0 <= i < chunks ==> IsEvenChunk(r.value[i].rows, data.rows, n / chunks, i)
  {
    if !paddingEnabled && n % chunks != 0 { return Err(UnequalChunks); }
    EnoughPiecesIff(n, chunks);
    if n % chunks == 0 { EvenPieces(n, chunks); }
    if data.rows.batch.Some? && TensorPieces(n, chunks) != chunks { return Err(TooFewChunks); }
    var output: seq<DataProto<T, V, M>> := [];
    for i := 0 to chunks
      invariant |output| == i && forall j :: 0 <= j < i ==> IsChunk(output[j], data, n, chunks, j)
    {
      var rows := Chunk(data.rows, n, chunks, i);
      output := output + [DataProto(rows, data.meta)];
    }
    ChunksAreEven(output, data, n, chunks);
    return Ok(output);
  }

  ghost predicate IsOfSize<T, V>(d: RowData<T, V>, size: int) {
    size >= 0 && HasRows(d, size)
  }

  /** Chunk i of equal ones. */
  ghost predicate IsEvenChunk<T, V>(d: RowData<T, V>, data: RowData<T, V>, each: nat, i: nat) {
    i * each <= (i + 1) * each && Picks(d, data, Range(i * each, (i + 1) * each))
  }

  /** The tensors' chunks have ceil(n / chunks) rows each, the last one what is left; without tensors the first
      n % chunks have one row more than the others. */
  function ChunkSize(tensors: bool, n: nat, chunks: nat, i: nat): int
    requires i < chunks
  {
    if !tensors then n / chunks + (if i < n % chunks then 1 else 0)
    else if i + 1 < chunks then CeilDiv(n, chunks)
    else n - (chunks - 1) * CeilDiv(n, chunks)
  }

  lemma ChunksAreEven<T, V, M>(ds: seq<DataProto<T, V, M>>, data: DataProto<T, V, M>, n: nat, chunks: nat)
    requires HasRows(data.rows, n) && |ds| == chunks > 0
    requires forall i :: 0 <= i < chunks ==> IsChunk(ds[i], data, n, chunks, i)
    ensures n % chunks == 0 ==> forall i :: 0 <= i < chunks ==> IsEvenChunk(ds[i].rows, data.rows, n / chunks, i)
    ensures forall i :: 0 <= i < chunks ==> IsOfSize(ds[i].rows, ChunkSize(data.rows.batch.Some?, n, chunks, i))
  {
    forall i | 0 <= i < chunks
      ensures n % chunks == 0 ==> IsEvenChunk(ds[i].rows, data.rows, n / chunks, i)
      ensures IsOfSize(ds[i].rows, ChunkSize(data.rows.batch.Some?, n, chunks, i))
    {
      ChunkIsEven(ds[i], data, n, chunks, i);
    }
  }

  lemma ChunkIsEven<T, V, M>(d: DataProto<T, V, M>, data: DataProto<T, V, M>, n: nat, chunks: nat, i: nat)
    requires HasRows(data.rows, n) && i < chunks && IsChunk(d, data, n, chunks, i)
    ensures n % chunks == 0 ==> IsEvenChunk(d.rows, data.rows, n / chunks, i)
    ensures IsOfSize(d.rows, ChunkSize(data.rows.batch.Some?, n, chunks, i))
  {
    var tensors := data.rows.batch.Some?;
    var from, to := ChunkStart(tensors, n, chunks, i), ChunkStart(tensors, n, chunks, i + 1);
    if n % chunks == 0 { EvenStarts(tensors, n, chunks, i); }
    StartsDiffer(tensors, n, chunks, i);
    PicksLength(d.rows, data.rows, n, Range(from, to));
  }

  lemma StartsDiffer(tensors: bool, n: nat, chunks: nat, i: nat)
    requires i < chunks
    ensures ChunkStart(tensors, n, chunks, i + 1) - ChunkStart(tensors, n, chunks, i) ==
            ChunkSize(tensors, n, chunks, i)
  {
    MulMonotone(i, i + 1, CeilDiv(n, chunks));
    Distribute(i, 1, CeilDiv(n, chunks));
    Distribute(i, 1, n / chunks);
  }

  /** With tensors: where torch.chunk cuts them, and that the arrays are cut there. */
  lemma CutsAre<T, V>(data: RowData<T, V>, n: nat, chunks: nat, i: nat)
    requires HasRows(data, n) && i < chunks && TensorPieces(n, chunks) == chunks
    ensures var from, to := ChunkStart(true, n, chunks, i), ChunkStart(true, n, chunks, i + 1);
            && TensorStart(n, chunks, i) == from <= to == TensorStart(n, chunks, i + 1) <= n
            && Increasing(TensorCuts(n, chunks), n)
            && forall k :: k in data.nonTensor ==>
                 && |SplitAt(data.nonTensor[k], TensorCuts(n, chunks))| == chunks
                 && SplitAt(data.nonTensor[k], TensorCuts(n, chunks))[i] == data.nonTensor[k][from..to]
  {
    TensorStarts(n, chunks, i, i + 1);
    TensorEnds(n, chunks);
    TensorStartIs(n, chunks, i);
    TensorStartIs(n, chunks, i + 1);
    forall k | k in data.nonTensor
      ensures |SplitAt(data.nonTensor[k], TensorCuts(n, chunks))| == chunks
      ensures SplitAt(data.nonTensor[k], TensorCuts(n, chunks))[i] ==
              data.nonTensor[k][TensorStart(n, chunks, i)..TensorStart(n, chunks, i + 1)]
    {
      SplitAtPieces(data.nonTensor[k], TensorCuts(n, chunks), i);
    }
  }

  lemma ArraysSplit<T, V>(data: RowData<T, V>, n: nat, chunks: nat, i: nat)
    requires HasRows(data, n) && i < chunks
    ensures var from, to := ChunkStart(false, n, chunks, i), ChunkStart(false, n, chunks, i + 1);
            && from <= to <= n
            && forall k :: k in data.nonTensor ==>
                 && |ArraySplit(data.nonTensor[k], chunks)| == chunks
                 && ArraySplit(data.nonTensor[k], chunks)[i] == data.nonTensor[k][from..to]
  {
    ArrayStarts(n, chunks, i);
    forall k | k in data.nonTensor
      ensures |ArraySplit(data.nonTensor[k], chunks)| == chunks
      ensures IsArrayPiece(ArraySplit(data.nonTensor[k], chunks)[i], data.nonTensor[k], chunks, i)
    {
      ArraySplitPieces(data.nonTensor[k], chunks, i);
    }
  }

  method Chunk<T, V>(data: RowData<T, V>, n: nat, chunks: nat, i: nat) returns (d: RowData<T, V>)
    requires HasRows(data, n) && i < chunks && (data.batch.Some? ==> TensorPieces(n, chunks) == chunks)
    ensures var from, to := ChunkStart(data.batch.Some?, n, chunks, i), ChunkStart(data.batch.Some?, n, chunks, i + 1);
            to <= n && IsPiece(d, data, from, to)
  {
    ghost var from, to := ChunkStart(data.batch.Some?, n, chunks, i), ChunkStart(data.batch.Some?, n, chunks, i + 1);
    if data.batch.Some? {
      CutsAre(data, n, chunks, i);
      d := RowData(Some(data.batch.value[TensorStart(n, chunks, i)..TensorStart(n, chunks, i + 1)]),
                   map k | k in data.nonTensor :: SplitAt(data.nonTensor[k], TensorCuts(n, chunks))[i]);
    } else {
      ArraysSplit(data, n, chunks, i);
      d := RowData(None, map k | k in data.nonTensor :: ArraySplit(data.nonTensor[k], chunks)[i]);
    }
    SlicesPick(d, data, n, from, to);
  }

  lemma SlicesPick<T, V>(d: RowData<T, V>, data: RowData<T, V>, n: nat, from: nat, to: nat)
    requires HasRows(data, n) && from <= to <= n
    requires d.batch.Some? == data.batch.Some? && d.nonTensor.Keys == data.nonTensor.Keys
    requires d.batch.Some? ==> d.batch.value == data.batch.value[from..to]
    requires forall k :: k in d.nonTensor ==> d.nonTensor[k] == data.nonTensor[k][from..to]
    ensures Picks(d, data, Range(from, to))
  {
  }

  /** torch.chunk gives as many pieces as asked for exactly when all before the last leave a row for it. */
  lemma EnoughPiecesIff(n: nat, chunks: nat)
    requires chunks > 0
    ensures TensorPieces(n, chunks) == chunks <==> n == 0 || (chunks - 1) * CeilDiv(n, chunks) < n
  {
    if n > 0 {
      CeilOfPositive(n, chunks);
      CeilCovers(n, chunks);
      CeilIsLeast(n, CeilDiv(n, chunks), chunks - 1);
      CeilIsLeast(n, CeilDiv(n, chunks), chunks);
    }
  }

  lemma TensorStartIs(n: nat, chunks: nat, i: nat)
    requires chunks > 0 && i <= chunks && TensorPieces(n, chunks) == chunks
    ensures TensorStart(n, chunks, i) == ChunkStart(true, n, chunks, i)
  {
    EnoughPiecesIff(n, chunks);
    TensorEnds(n, chunks);
    if i < chunks { MulMonotone(i, chunks - 1, CeilDiv(n, chunks)); }
    if n == 0 { DivOfMultiple(chunks, 0, chunks - 1); }
  }

  /** When the rows divide, chunk i has the rows from i * (n / chunks) on, with tensors and without. */
  lemma EvenStarts(tensors: bool, n: nat, chunks: nat, i: nat)
    requires i < chunks && n % chunks == 0
    ensures ChunkStart(tensors, n, chunks, i) == i * (n / chunks)
    ensures ChunkStart(tensors, n, chunks, i + 1) == (i + 1) * (n / chunks)
  {
    CeilIs(n, chunks);
    DivMod(n, chunks);
    assert chunks * (n / chunks) == (n / chunks) * chunks;
  }

  /** Equal chunks never fail. */
  lemma EvenPieces(n: nat, chunks: nat)
    requires chunks > 0 && n % chunks == 0
    ensures TensorPieces(n, chunks) == chunks
  {
    if n > 0 {
      DivMod(n, chunks);
      CeilIs(n, chunks);
      var s := n / chunks;
      assert n == s * chunks && s > 0;
      CeilIs(n, s);
      DivOfMultiple(s, chunks, 0);
    }
  }

  /** Five rows in four chunks: torch.chunk gives three, although automatic padding was to allow it. */
  lemma FiveRowsFourChunks()
    ensures TensorPieces(5, 4) == 3
  {
    assert CeilDiv(5, 4) == 2 && CeilDiv(5, 2) == 3;
  }

  function Bounds(tensors: bool, n: nat, chunks: nat): seq<nat>
    requires chunks > 0
  {
    seq(chunks + 1, i requires 0 <= i <= chunks => ChunkStart(tensors, n, chunks, i))
  }

  lemma BoundsEnd(tensors: bool, n: nat, chunks: nat)
    requires chunks > 0
    ensures Bounds(tensors, n, chunks)[0] == 0 && Bounds(tensors, n, chunks)[chunks] == n
  {
    ArrayStarts(n, chunks, 0);
  }

  /** Consecutive pieces of the rows of `data`. */
  ghost predicate ArePieces<T, V>(list: seq<RowData<T, V>>, data: RowData<T, V>, bounds: seq<nat>) {
    && |bounds| == |list| + 1 && bounds[0] == 0
    && forall i :: 0 <= i < |list| ==> IsPiece(list[i], data, bounds[i], bounds[i + 1])
  }

  lemma {:induction false} JoinPieces<T, V>(list: seq<RowData<T, V>>, data: RowData<T, V>, bounds: seq<nat>, m: nat)
    requires ArePieces(list, data, bounds) && 0 < m <= |list|
    ensures JoinAll(list[..m]).Ok? && Picks(JoinAll(list[..m]).value, data, Range(0, bounds[m]))
  {
    if m == 1 {
      assert list[..1] == [list[0]];
    } else {
      JoinPieces(list, data, bounds, m - 1);
      assert list[..m][..m - 1] == list[..m - 1];
      var cut, end := bounds[m - 1], bounds[m];
      assert IsPiece(list[m - 1], data, cut, bounds[m - 1 + 1]);
      JoinPicks(JoinAll(list[..m - 1]).value, list[m - 1], data, Range(0, cut), Range(cut, end));
      assert Range(0, cut) + Range(cut, end) == Range(0, end);
    }
  }

  lemma ChunksArePieces<T, V, M>(ds: seq<DataProto<T, V, M>>, data: DataProto<T, V, M>, n: nat)
    requires ds != [] && forall i :: 0 <= i < |ds| ==> IsChunk(ds[i], data, n, |ds|, i)
    ensures ArePieces(RowsOf(ds), data.rows, Bounds(data.rows.batch.Some?, n, |ds|))
  {
    BoundsEnd(data.rows.batch.Some?, n, |ds|);
    var list, bounds := RowsOf(ds), Bounds(data.rows.batch.Some?, n, |ds|);
    forall i | 0 <= i < |list| ensures IsPiece(list[i], data.rows, bounds[i], bounds[i + 1]) {
      assert IsChunk(ds[i], data, n, |ds|, i);
    }
  }

  /** Concatenating the chunks is the identity, on tensors, arrays and meta_info, whether or not they are equal. */
  lemma ConcatUndoesChunk<T, V, M>(ds: seq<DataProto<T, V, M>>, data: DataProto<T, V, M>, n: nat)
    requires HasRows(data.rows, n) && ds != []
    requires forall i :: 0 <= i < |ds| ==> IsChunk(ds[i], data, n, |ds|, i)
    ensures ConcatAll(ds) == Ok(data)
  {
    var chunks := |ds|;
    var bounds := Bounds(data.rows.batch.Some?, n, chunks);
    ChunksArePieces(ds, data, n);
    BoundsEnd(data.rows.batch.Some?, n, chunks);
    JoinPieces(RowsOf(ds), data.rows, bounds, chunks);
    assert RowsOf(ds)[..chunks] == RowsOf(ds);
    PicksAll(JoinAll(RowsOf(ds)).value, data.rows, n);
    forall i | 0 <= i < chunks ensures MetasOf(ds)[i] == data.meta { assert IsChunk(ds[i], data, n, chunks, i); }
    SameMeta(MetasOf(ds), data.meta);
  }
}
