/** Whole runs of the memory cache against the reference list. */
module CacheRuns {
  import opened Tiles
  import opened Lru
  import opened LruLaws
  import opened TileMemoryCache

  /** What the caller of an operation sees; only reads return something. */
  function Answer(s: seq<Slot>, op: Op): Option<Bytes> {
    if op.Get? then Lookup(s, op.key) else None
  }

  // How much an operation does to the heap

  predicate Hits(s: seq<Slot>, op: Op) { op.Get? && Lookup(s, op.key).Some? }

  predicate Inserts(op: Op, limits: Limits) { op.Put? && Lru.Admits(limits, op.data) }

  /** Invalidations always rebuild the heap, idle eviction only if some tile leaves. */
  predicate Rebuilds(s: seq<Slot>, op: Op) {
    op.Invalidate? || (op.EvictIdle? && op.idle > 0 && IdleKeys(s, op.now, op.idle) != {})
  }

  /** The hits since the last admitted insert or rebuild. */
  function HitsSince(ops: seq<Op>, limits: Limits): nat {
    if ops == [] then 0
    else
      var prior, op := ops[..|ops| - 1], ops[|ops| - 1];
      var s := Run(prior, limits);
      if Inserts(op, limits) || Rebuilds(s, op) then 0
      else HitsSince(prior, limits) + if Hits(s, op) then 1 else 0
  }

  /** All hits and admitted inserts. */
  function Uses(ops: seq<Op>, limits: Limits): nat {
    if ops == [] then 0
    else
      var prior, op := ops[..|ops| - 1], ops[|ops| - 1];
      Uses(prior, limits) + if Hits(Run(prior, limits), op) || Inserts(op, limits) then 1 else 0
  }

  lemma {:induction false} DropResident(s: seq<Slot>, all: set<TileKey>, keys: set<TileKey>)
    requires Keys(s) <= all
    ensures Drop(s, set k | k in all && k in keys) == Drop(s, keys)
  {
    if s != [] { DropResident(s[1..], all, keys); }
  }

  lemma RunStep(ops: seq<Op>, n: nat, limits: Limits)
    requires n < |ops|
    ensures Run(ops[..n + 1], limits) == Lru.Apply(Run(ops[..n], limits), ops[n], limits)
    ensures HitsSince(ops[..n + 1], limits) ==
            if Inserts(ops[n], limits) || Rebuilds(Run(ops[..n], limits), ops[n]) then 0
            else HitsSince(ops[..n], limits) + if Hits(Run(ops[..n], limits), ops[n]) then 1 else 0
    ensures Uses(ops[..n + 1], limits) ==
            Uses(ops[..n], limits) + if Hits(Run(ops[..n], limits), ops[n]) || Inserts(ops[n], limits) then 1 else 0
  {
    assert ops[..n + 1][..n] == ops[..n];
  }

  lemma SelectedSlots(entries: map<TileKey, Entry>, list: seq<Slot>, keys: set<TileKey>, selects: TileKey -> bool)
    requires Represents(entries, list) && forall k :: selects(k) <==> k in keys
    ensures Drop(list, set k | k in entries && selects(k)) == Drop(list, keys)
  {
    RepresentsKeys(entries, list);
    DropResident(list, entries.Keys, keys);
    assert (set k | k in entries && selects(k)) == (set k | k in entries.Keys && k in keys);
  }

  /** One operation on the cache is the same operation on the reference list. */
  method Perform(cache: Cache, op: Op) returns (answer: Option<Bytes>)
    requires cache.Valid() && cache.capacity + cache.maxTileBytes <= WORD_MAX
    modifies cache
    ensures cache.Valid()
    ensures answer == Answer(old(cache.trace).recency, op)
    ensures cache.trace.recency ==
            Lru.Apply(old(cache.trace).recency, op, Limits(cache.capacity, cache.maxTileBytes))
    ensures var s, limits := old(cache.trace).recency, Limits(cache.capacity, cache.maxTileBytes);
            && cache.trace.hits ==
               (if Inserts(op, limits) || Rebuilds(s, op) then 0
                else old(cache.trace).hits + if Hits(s, op) then 1 else 0)
            && cache.trace.pushes == old(cache.trace).pushes + if Hits(s, op) || Inserts(op, limits) then 1 else 0
  {
    hide Represents, Covered, Bounded, Drop, Touch, Insert, IdleKeys, Lookup, Total, PopsEnd;
    answer := None;
    match op
    case Get(key, now) => answer := cache.Get(key, now);
    case Put(key, data, now) =>
      if |data| <= cache.maxTileBytes { ghost var _ := cache.Insert(key, data, now); }
    case Invalidate(keys) =>
      var selects := (k: TileKey) => k in keys;
      SelectedSlots(cache.inner.entries, cache.trace.recency, keys, selects);
      cache.Invalidate(selects);
    case EvictIdle(now, idle) => var _ := cache.EvictIdle(now, idle);
  }

  /** A read just after a put within both limits. */
  lemma PutThenGet(ops: seq<Op>, i: nat, limits: Limits)
    requires i < |ops| - 1 && ops[i].Put? && ops[i + 1].Get? && ops[i + 1].key == ops[i].key
    requires 0 < |ops[i].data| <= limits.maxTileBytes && |ops[i].data| <= limits.capacity
    ensures Answer(Run(ops[..i + 1], limits), ops[i + 1]) == Some(ops[i].data)
  {
    hide Run, Lookup;
    assert ops[..i + 1] == ops[..i] + [Put(ops[i].key, ops[i].data, ops[i].now)];
    PutIsAnswered(ops[..i], ops[i].key, ops[i].data, ops[i].now, limits);
  }

  /** After any sequence of operations on a new cache, every read has answered as the reference list would have, a read
      just after a put that fits with the data put, and the entries are the reference list's slots: stale stamps and
      compaction never show. The heap is never longer than four stamps an entry, 1024 more, and the hits since the last
      admitted insert or rebuild; and every hit and admitted insert pushes one stamp, which pays for all the pops of
      the run. */
  method Replay(ops: seq<Op>, limits: Limits) returns (cache: Cache, answers: seq<Option<Bytes>>)
    requires limits.capacity + limits.maxTileBytes <= WORD_MAX
    ensures fresh(cache) && cache.Valid()
    ensures |answers| == |ops| && forall i :: 0 <= i < |ops| ==> answers[i] == Answer(Run(ops[..i], limits), ops[i])
    ensures forall i :: 0 <= i < |ops| - 1 && ops[i].Put? && ops[i + 1].Get? && ops[i + 1].key == ops[i].key ==>
              0 < |ops[i].data| <= limits.maxTileBytes && |ops[i].data| <= limits.capacity ==>
                answers[i + 1] == Some(ops[i].data)
    ensures forall key :: Lookup(Run(ops, limits), key) ==
                          if key in cache.inner.entries then Some(cache.inner.entries[key].data) else None
    ensures cache.inner.usedBytes == Total(Run(ops, limits)) <= limits.capacity
    ensures |cache.inner.order| <= 4 * |cache.inner.entries| + 1024 + HitsSince(ops, limits)
    ensures cache.trace.pushes == Uses(ops, limits)
    ensures |cache.inner.order| + cache.trace.pops + cache.trace.discarded == cache.trace.pushes + cache.trace.rebuilt
    ensures cache.trace.pops <= Uses(ops, limits)
  {
    hide Sound, Run, Lookup, Total, Lru.Apply, HitsSince, Uses, Answer, Hits, Inserts, Rebuilds;
    NothingRun(limits);
    cache := new Cache(limits.capacity, limits.maxTileBytes);
    answers := [];
    for n := 0 to |ops|
      invariant fresh(cache) && cache.Valid()
      invariant cache.capacity == limits.capacity && cache.maxTileBytes == limits.maxTileBytes
      invariant cache.trace.recency == Run(ops[..n], limits)
      invariant cache.trace.hits == HitsSince(ops[..n], limits) && cache.trace.pushes == Uses(ops[..n], limits)
      invariant |answers| == n && forall i :: 0 <= i < n ==> answers[i] == Answer(Run(ops[..i], limits), ops[i])
    {
      RunStep(ops, n, limits);
      var answer := Perform(cache, ops[n]);
      answers := answers + [answer];
    }
    assert ops[..|ops|] == ops;
    forall i | 0 <= i < |ops| - 1 && ops[i].Put? && ops[i + 1].Get? && ops[i + 1].key == ops[i].key
               && 0 < |ops[i].data| <= limits.maxTileBytes && |ops[i].data| <= limits.capacity
      ensures answers[i + 1] == Some(ops[i].data)
    {
      PutThenGet(ops, i, limits);
    }
    SoundFacts(cache.inner, cache.trace, cache.clock, cache.capacity, cache.maxTileBytes);
  }

  lemma NothingRun(limits: Limits)
    ensures Run([], limits) == [] && HitsSince([], limits) == 0 && Uses([], limits) == 0
  {
  }

  /** What soundness says to a caller. */
  lemma SoundFacts(inner: Inner, trace: Trace, clock: nat, capacity: nat, maxTileBytes: nat)
    requires Sound(inner, trace, clock, capacity, maxTileBytes)
    ensures forall key :: Lookup(trace.recency, key) ==
                          if key in inner.entries then Some(inner.entries[key].data) else None
    ensures inner.usedBytes == Total(trace.recency) <= capacity
    ensures |inner.order| <= 4 * |inner.entries| + 1024 + trace.hits
    ensures |inner.order| + trace.pops + trace.discarded == trace.pushes + trace.rebuilt
    ensures trace.pops <= trace.pushes
  {
    forall key ensures Lookup(trace.recency, key) == if key in inner.entries then Some(inner.entries[key].data) else None {
      RepresentsLookup(inner.entries, trace.recency, key);
    }
    hide Represents, Lookup, Covered, Bounded, Total;
  }
}
