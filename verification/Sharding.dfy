/** Splitting a claim across the relay's workers. */
module Sharding {
  import opened Prelude

  function Chunks<T>(items: seq<T>, size: nat): seq<seq<T>>
    requires size > 0
    decreases |items|
  {
    if items == [] then []
    else if |items| <= size then [items]
    else [items[..size]] + Chunks(items[size..], size)
  }

  function ShardWorkers(n: nat, workers: int): (w: nat)
    requires n > 0
    ensures 1 <= w <= n
  {
    var w := if workers < 1 then 1 else workers;
    if w > n then n else w
  }

  function ShardSize(n: nat, workers: int): (size: nat)
    requires n > 0
    ensures size > 0 && n <= ShardWorkers(n, workers) * size
  {
    var w := ShardWorkers(n, workers);
    DivUp(n, w);
    (n + w - 1) / w
  }

  lemma DivUp(n: nat, w: nat)
    requires 1 <= w <= n
    ensures (n + w - 1) / w > 0 && n <= w * ((n + w - 1) / w)
  {
    var q := (n + w - 1) / w;
    assert (n + w - 1) == w * q + (n + w - 1) % w;
    assert q <= 0 ==> w * q <= 0;
  }

  function Shards<T>(items: seq<T>, workers: int): seq<seq<T>> {
    if items == [] then [] else Chunks(items, ShardSize(|items|, workers))
  }

  method ShardBy<T>(items: seq<T>, workers: int) returns (shards: seq<seq<T>>)
    ensures shards == Shards(items, workers)
    ensures Flatten(shards) == items && |shards| <= (if workers < 1 then 1 else workers)
    ensures forall k :: 0 <= k < |shards| ==>
      shards[k] != [] && |shards[k]| <= |shards[0]| && (k < |shards| - 1 ==> |shards[k]| == |shards[0]|)
    ensures items != [] ==>
      var w := if workers < 1 then 1 else if workers > |items| then |items| else workers;
      shards != [] && |items| <= w * |shards[0]| < |items| + w
  {
    ShardsCover(items, workers);
    shards := Slices(items, workers);
  }

  // The slicing loop.
  method Slices<T>(items: seq<T>, workers: int) returns (shards: seq<seq<T>>)
    ensures shards == Shards(items, workers)
  {
    if |items| == 0 {
      return [];
    }
    var size := ShardSize(|items|, workers);
    shards := [];
    var start := 0;
    while start < |items|
      invariant 0 <= start
      invariant start <= |items| ==> shards + Chunks(items[start..], size) == Shards(items, workers)
      invariant start > |items| ==> shards == Shards(items, workers)
    {
      var end := if start + size < |items| then start + size else |items|;
      ghost var was := shards;
      shards := shards + [items[start..end]];
      if start + size < |items| {
        assert items[start..][..size] == items[start..end] && items[start..][size..] == items[start + size..];
        assert was + ([items[start..end]] + Chunks(items[start + size..], size)) ==
               shards + Chunks(items[start + size..], size);
      } else {
        assert items[start..end] == items[start..];
        assert start + size == |items| ==> shards + Chunks(items[start + size..], size) == shards;
      }
      start := start + size;
    }
    assert start == |items| ==> shards + Chunks(items[start..], size) == shards;
  }

  lemma {:induction false} ChunksCount<T>(items: seq<T>, size: nat, w: nat)
    requires size > 0 && |items| <= w * size
    ensures |Chunks(items, size)| <= w
    decreases |items|
  {
    assert w == 0 ==> w * size == 0;
    if |items| > size {
      assert (w - 1) * size == w * size - size;
      ChunksCount(items[size..], size, w - 1);
    }
  }

  lemma FlattenFew<T>(x: seq<T>)
    ensures Flatten<T>([]) == [] && Flatten([x]) == x
  {
    assert [x][..0] == [] && [] + x == x;
  }

  lemma {:induction false} ChunksConcat<T>(items: seq<T>, size: nat)
    requires size > 0
    ensures Flatten(Chunks(items, size)) == items
    decreases |items|
  {
    hide Flatten;
    if |items| <= size {
      FlattenFew(items);
    } else {
      ChunksConcat(items[size..], size);
      FlattenFront(items[..size], Chunks(items[size..], size));
      assert items[..size] + items[size..] == items;
    }
  }

  lemma {:induction false} ChunksShape<T>(items: seq<T>, size: nat)
    requires size > 0
    ensures forall k :: 0 <= k < |Chunks(items, size)| ==> 0 < |Chunks(items, size)[k]| <= size
    ensures forall k :: 0 <= k < |Chunks(items, size)| - 1 ==> |Chunks(items, size)[k]| == size
    decreases |items|
  {
    if |items| > size {
      ChunksShape(items[size..], size);
    }
  }

  lemma FactorLess(w: nat, k: nat, n: nat)
    requires w >= 1 && w * k < n
    ensures k < n
  {
    assert w * k == (w - 1) * k + k;
  }

  // The size is the number of messages over the number of workers, rounded up.
  lemma SizeIsQuotient(n: nat, workers: int)
    requires n > 0
    ensures var w := if workers < 1 then 1 else if workers > n then n else workers;
      var size := ShardSize(n, workers);
      n <= w * size < n + w && size <= n
  {
    var w := ShardWorkers(n, workers);
    var size := ShardSize(n, workers);
    assert n + w - 1 == w * size + (n + w - 1) % w;
    assert w * (size - 1) == w * size - w;
    FactorLess(w, size - 1, n);
  }

  lemma FirstChunk<T>(items: seq<T>, size: nat)
    requires 0 < size <= |items|
    ensures Chunks(items, size) != [] && |Chunks(items, size)[0]| == size
  {
  }

  /** At most `workers` shards, none empty, all of one size but a shorter last one, that
      size the rounded-up quotient, and together the claim in its order. */
  lemma {:induction false} ShardsCover<T>(items: seq<T>, workers: int)
    ensures var shards := Shards(items, workers);
      && Flatten(shards) == items
      && |shards| <= (if workers < 1 then 1 else workers)
      && (forall k :: 0 <= k < |shards| ==> shards[k] != [])
      && (forall k :: 0 <= k < |shards| - 1 ==> |shards[k]| == |shards[0]|)
      && (forall k :: 0 <= k < |shards| ==> |shards[k]| <= |shards[0]|)
    ensures items != [] ==>
      var w := if workers < 1 then 1 else if workers > |items| then |items| else workers;
      Shards(items, workers) != [] && |items| <= w * |Shards(items, workers)[0]| < |items| + w
  {
    if items != [] {
      var size := ShardSize(|items|, workers);
      SizeIsQuotient(|items|, workers);
      hide ShardSize;
      ChunksCount(items, size, ShardWorkers(|items|, workers));
      ChunksConcat(items, size);
      ChunksShape(items, size);
      FirstChunk(items, size);
      hide Chunks, Flatten;
    }
  }
}
