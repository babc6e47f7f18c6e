/**
 What the transports have in common: the buckets a sender flushes, the metadata that travels with each, and
 how far a receiver has come in yielding their chunks.
 */
module BucketTransfer {
  import opened BucketPacking
  import opened WeightChunks

  /** buckets[k].content is the whole k-th send buffer, stale bytes behind the last chunk included. */
  datatype Config = Config(world: nat, bucketSize: nat, buckets: seq<Bucket>)

  ghost predicate ValidConfig(c: Config) {
    && 2 <= c.world
    && c.buckets != []
    && forall k :: 0 <= k < |c.buckets| ==> |c.buckets[k].content| == c.bucketSize
  }

  /** The metadata dictionary: bucket_meta and is_last. */
  datatype Wire = Wire(entries: seq<Entry>, isLast: bool)

  function WireOf(c: Config, k: nat): Wire
    requires k < |c.buckets|
  {
    Wire(c.buckets[k].entries, k + 1 == |c.buckets|)
  }

  function SetByte(buffers: seq<seq<Byte>>, b: nat, at: nat, x: Byte): seq<seq<Byte>>
    requires b < |buffers| && at < |buffers[b]|
  {
    var row: seq<Byte> := buffers[b][at := x];
    buffers[b := row]
  }

  /** All chunks of the first `bucket` buckets and n of the next. */
  function YieldedUpTo(c: Config, bucket: nat, n: nat): seq<Chunk>
    requires bucket < |c.buckets| && n <= |c.buckets[bucket].entries|
  {
    UnpackAll(c.buckets[..bucket]) + Unpack(c.buckets[bucket])[..n]
  }

  lemma YieldNext(c: Config, bucket: nat, n: nat)
    requires bucket < |c.buckets| && n < |c.buckets[bucket].entries|
    ensures YieldedUpTo(c, bucket, n + 1)
         == YieldedUpTo(c, bucket, n) + [ReadEntry(c.buckets[bucket].entries[n], c.buckets[bucket].content)]
  {
    var now := Unpack(c.buckets[bucket]);
    assert now[..n + 1] == now[..n] + [now[n]];
  }

  lemma YieldNextBucket(c: Config, bucket: nat)
    requires bucket + 1 < |c.buckets|
    ensures YieldedUpTo(c, bucket + 1, 0) == YieldedUpTo(c, bucket, |c.buckets[bucket].entries|)
  {
    var now := Unpack(c.buckets[bucket]);
    assert now[..|now|] == now;
    UnpackAllNext(c, bucket);
  }

  lemma UnpackAllNext(c: Config, k: nat)
    requires k < |c.buckets|
    ensures UnpackAll(c.buckets[..k + 1]) == UnpackAll(c.buckets[..k]) + Unpack(c.buckets[k])
  {
    assert c.buckets[..k + 1][..k] == c.buckets[..k];
  }

  lemma {:induction false} UnpackAllPrefix(bs: seq<Bucket>, n: nat)
    requires n <= |bs|
    ensures UnpackAll(bs[..n]) <= UnpackAll(bs)
  {
    if n < |bs| {
      UnpackAllPrefix(bs[..|bs| - 1], n);
      assert bs[..|bs| - 1][..n] == bs[..n];
    } else {
      assert bs[..n] == bs;
    }
  }

  lemma RestOfBucket(c: Config, bucket: nat, n: nat)
    requires bucket < |c.buckets| && n <= |c.buckets[bucket].entries|
    ensures YieldedUpTo(c, bucket, n) + Unpack(c.buckets[bucket])[n..] == UnpackAll(c.buckets[..bucket + 1])
  {
    UnpackAllNext(c, bucket);
    var now := Unpack(c.buckets[bucket]);
    assert now == now[..n] + now[n..];
  }

  /** What has been yielded is a prefix of everything, and is everything at the end of the last bucket. */
  lemma YieldedIsPrefix(c: Config, bucket: nat, n: nat)
    requires bucket < |c.buckets| && n <= |c.buckets[bucket].entries|
    ensures YieldedUpTo(c, bucket, n) <= UnpackAll(c.buckets)
    ensures bucket + 1 == |c.buckets| && n == |c.buckets[bucket].entries| ==>
            YieldedUpTo(c, bucket, n) == UnpackAll(c.buckets)
  {
    RestOfBucket(c, bucket, n);
    UnpackAllPrefix(c.buckets, bucket + 1);
    assert c.buckets[..|c.buckets|] == c.buckets;
  }

  /** More chunks than the first b buckets have, so that some are of bucket b or a later one. */
  ghost predicate Reaches(c: Config, yielded: seq<Chunk>, b: nat)
    requires b < |c.buckets|
  {
    |UnpackAll(c.buckets[..b])| < |yielded|
  }

  lemma UnpackAllUpTo(c: Config, m: nat, n: nat)
    requires m <= n <= |c.buckets|
    ensures UnpackAll(c.buckets[..m]) <= UnpackAll(c.buckets[..n])
  {
    UnpackAllPrefix(c.buckets[..n], m);
    assert c.buckets[..n][..m] == c.buckets[..m];
  }

  lemma ReachesFrom(c: Config, bucket: nat, n: nat, b: nat)
    requires bucket < |c.buckets| && n <= |c.buckets[bucket].entries| && b < |c.buckets|
    requires Reaches(c, YieldedUpTo(c, bucket, n), b)
    ensures b < bucket || (b == bucket && n > 0)
  {
    if bucket < b {
      UnpackAllNext(c, bucket);
      UnpackAllUpTo(c, bucket + 1, b);
    }
  }

  // ---------------------------------------------------------------- counting what is left to do

  lemma {:induction false} BelowCardinality(s: set<nat>, n: nat)
    requires forall x :: x in s ==> x < n
    ensures |s| <= n
  {
    if n == 0 {
      assert s == {};
    } else {
      BelowCardinality(s - {n - 1}, n - 1);
    }
  }
}
