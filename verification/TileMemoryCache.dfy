/** The byte-bounded memory cache: a map of entries beside a min-heap with lazily deleted stamps.
    Its contract is the reference cache of module Lru; stale stamps and compaction are invisible. */
module TileMemoryCache {
  import opened Tiles
  import opened Lru

  datatype Entry = Entry(data: Bytes, lastUsed: nat, lastAccessed: nat)

  /** A heap element; the heap pops the least tick first. */
  datatype Stamp = Stamp(tick: nat, key: TileKey)

  /** `list` holds exactly the entries, in the order of their last use. */
  ghost predicate Represents(entries: map<TileKey, Entry>, list: seq<Slot>)
    decreases |list|
  {
    if list == [] then entries == map[]
    else
      var oldest := list[0].key;
      && oldest in entries
      && list[0] == Slot(oldest, entries[oldest].data, entries[oldest].lastAccessed)
      && OlderThanRest(entries, oldest)
      && Represents(entries - {oldest}, list[1..])
  }

  ghost predicate OlderThanRest(entries: map<TileKey, Entry>, oldest: TileKey)
    requires oldest in entries
  {
    forall k :: k in entries && k != oldest ==> entries[oldest].lastUsed < entries[k].lastUsed
  }

  /** Every entry's current stamp is in the heap, and the clock has passed all of them. */
  ghost predicate Covered(entries: map<TileKey, Entry>, order: multiset<Stamp>, clock: nat) {
    forall k :: k in entries ==> Stamp(entries[k].lastUsed, k) in order && entries[k].lastUsed <= clock
  }

  ghost predicate Bounded(entries: map<TileKey, Entry>, maxTileBytes: nat) {
    forall k :: k in entries ==> 0 < |entries[k].data| <= maxTileBytes
  }

  lemma {:induction false} RepresentsKeys(entries: map<TileKey, Entry>, list: seq<Slot>)
    requires Represents(entries, list)
    ensures Keys(list) == entries.Keys && Distinct(list)
    decreases |list|
  {
    if list != [] {
      RepresentsKeys(entries - {list[0].key}, list[1..]);
      assert entries.Keys == {list[0].key} + (entries - {list[0].key}).Keys;
    }
  }

  lemma {:induction false} RepresentsLookup(entries: map<TileKey, Entry>, list: seq<Slot>, key: TileKey)
    requires Represents(entries, list)
    ensures Lookup(list, key) == if key in entries then Some(entries[key].data) else None
    decreases |list|
  {
    if list != [] { RepresentsLookup(entries - {list[0].key}, list[1..], key); }
  }

  lemma {:induction false} RepresentsDrop(entries: map<TileKey, Entry>, list: seq<Slot>, gone: set<TileKey>)
    requires Represents(entries, list)
    ensures Represents(entries - gone, Drop(list, gone))
    decreases |list|
  {
    if list != [] {
      var oldest := list[0].key;
      RepresentsDrop(entries - {oldest}, list[1..], gone);
      if oldest in gone {
        assert entries - gone == (entries - {oldest}) - gone;
      } else {
        assert (entries - gone) - {oldest} == (entries - {oldest}) - gone;
        var d := Drop(list[1..], gone);
        assert ([list[0]] + d)[1..] == d;
      }
    }
  }

  lemma {:induction false} RepresentsAppend(entries: map<TileKey, Entry>, list: seq<Slot>, key: TileKey, entry: Entry)
    requires Represents(entries, list) && key !in entries
    requires forall k :: k in entries ==> entries[k].lastUsed < entry.lastUsed
    ensures Represents(entries[key := entry], list + [Slot(key, entry.data, entry.lastAccessed)])
    decreases |list|
  {
    var added := Slot(key, entry.data, entry.lastAccessed);
    if list == [] {
      assert entries[key := entry] - {key} == map[];
      assert (list + [added])[1..] == [];
    } else {
      var oldest := list[0].key;
      RepresentsAppend(entries - {oldest}, list[1..], key, entry);
      assert entries[key := entry] - {oldest} == (entries - {oldest})[key := entry];
      assert (list + [added])[1..] == list[1..] + [added];
    }
  }

  /** The recency list is determined by the entries: it adds no information of its own. */
  lemma {:induction false} RepresentationUnique(entries: map<TileKey, Entry>, a: seq<Slot>, b: seq<Slot>)
    requires Represents(entries, a) && Represents(entries, b)
    ensures a == b
    decreases |a|
  {
    if a != [] {
      assert a[0].key == b[0].key;
      RepresentationUnique(entries - {a[0].key}, a[1..], b[1..]);
    }
  }

  /** Ticks of live entries are distinct. */
  lemma {:induction false} LiveTicksDistinct(entries: map<TileKey, Entry>, list: seq<Slot>)
    requires Represents(entries, list)
    ensures forall k, l :: k in entries && l in entries && k != l ==> entries[k].lastUsed != entries[l].lastUsed
    decreases |list|
  {
    if list != [] {
      var rest := entries - {list[0].key};
      LiveTicksDistinct(rest, list[1..]);
      assert forall k :: k in entries && k != list[0].key ==> k in rest && rest[k] == entries[k];
    }
  }

  /** The least stamp of a covering heap, if it is current, belongs to the least recently used entry. */
  lemma LeastCurrentStampIsOldest(
    entries: map<TileKey, Entry>, list: seq<Slot>, order: multiset<Stamp>, clock: nat, least: Stamp)
    requires Represents(entries, list) && Covered(entries, order, clock)
    requires least in order && forall s :: s in order ==> least.tick <= s.tick
    requires least.key in entries && entries[least.key].lastUsed == least.tick
    ensures list != [] && list[0].key == least.key
  {
    var oldest := list[0].key;
    assert Stamp(entries[oldest].lastUsed, oldest) in order;
  }

  /** Using an entry again moves its slot to the recent end and keeps all bytes. */
  lemma TouchStep(entries: map<TileKey, Entry>, list: seq<Slot>, key: TileKey, tick: nat, now: nat)
    requires Represents(entries, list) && key in entries
    requires forall k :: k in entries ==> entries[k].lastUsed < tick
    ensures Represents(entries[key := Entry(entries[key].data, tick, now)], Touch(list, key, now))
    ensures Total(Touch(list, key, now)) == Total(list)
    ensures Lookup(list, key) == Some(entries[key].data)
  {
    var entry := Entry(entries[key].data, tick, now);
    RepresentsLookup(entries, list, key);
    RepresentsKeys(entries, list);
    RepresentsDrop(entries, list, {key});
    RepresentsAppend(entries - {key}, Drop(list, {key}), key, entry);
    assert (entries - {key})[key := entry] == entries[key := entry];
    DropOneTotal(list, key);
    TotalConcat(Drop(list, {key}), [Slot(key, entry.data, now)]);
  }

  /** Admitting a tile removes its older entry and appends the new one. */
  lemma AdmitStep(entries: map<TileKey, Entry>, list: seq<Slot>, key: TileKey, entry: Entry)
    requires Represents(entries, list)
    requires forall k :: k in entries ==> entries[k].lastUsed < entry.lastUsed
    ensures var longer := Drop(list, {key}) + [Slot(key, entry.data, entry.lastAccessed)];
            && Represents(entries[key := entry], longer)
            && Total(longer) == Total(list) + |entry.data| - (if key in entries then |entries[key].data| else 0)
    ensures key in entries ==> |entries[key].data| <= Total(list)
  {
    RepresentsLookup(entries, list, key);
    RepresentsKeys(entries, list);
    RepresentsDrop(entries, list, {key});
    RepresentsAppend(entries - {key}, Drop(list, {key}), key, entry);
    assert (entries - {key})[key := entry] == entries[key := entry];
    TotalConcat(Drop(list, {key}), [Slot(key, entry.data, entry.lastAccessed)]);
    if key in entries { DropOneTotal(list, key); } else { DropNothing(list, {key}); }
  }

  /** `BinaryHeap::pop` on reversed pairs: an element of least tick leaves the heap. */
  method PopLeast(order: multiset<Stamp>) returns (least: Stamp, rest: multiset<Stamp>)
    requires order != multiset{}
    ensures least in order && forall s :: s in order ==> least.tick <= s.tick
    ensures rest == order - multiset{least}
  {
    least :| least in order;
    var todo := order - multiset{least};
    while todo != multiset{}
      invariant todo <= order && least in order
      invariant forall s :: s in order && s !in todo ==> least.tick <= s.tick
      decreases |todo|
    {
      var s :| s in todo;
      if s.tick < least.tick { least := s; }
      todo := todo[s := 0];
    }
    rest := order - multiset{least};
  }

  /** One current stamp per entry, as compaction and the invalidations rebuild it. */
  method Rebuilt(entries: map<TileKey, Entry>) returns (order: multiset<Stamp>)
    ensures forall k :: k in entries ==> Stamp(entries[k].lastUsed, k) in order
    ensures forall s :: s in order ==> order[s] == 1 && s.key in entries && entries[s.key].lastUsed == s.tick
    ensures |order| == |entries|
  {
    order := multiset{};
    var todo := entries.Keys;
    while todo != {}
      invariant todo <= entries.Keys
      invariant |order| + |todo| == |entries|
      invariant forall s :: s in order ==>
        order[s] == 1 && s.key in entries && s.key !in todo && entries[s.key].lastUsed == s.tick
      invariant forall k :: k in entries && k !in todo ==> Stamp(entries[k].lastUsed, k) in order
      decreases todo
    {
      var k :| k in todo;
      order := order + multiset{Stamp(entries[k].lastUsed, k)};
      todo := todo - {k};
    }
  }

  /** Removing one entry removes its slot and frees its bytes. */
  lemma RemoveStep(entries: map<TileKey, Entry>, list: seq<Slot>, key: TileKey)
    requires Represents(entries, list) && key in entries
    ensures Represents(entries - {key}, Drop(list, {key}))
    ensures Total(Drop(list, {key})) + |entries[key].data| == Total(list)
  {
    RepresentsKeys(entries, list);
    RepresentsLookup(entries, list, key);
    DropOneTotal(list, key);
    RepresentsDrop(entries, list, {key});
  }

  lemma RemovedCount(entries: map<TileKey, Entry>, keys: set<TileKey>)
    requires keys <= entries.Keys
    ensures |entries - keys| == |entries| - |keys|
  {
    assert (entries - keys).Keys == entries.Keys - keys;
  }

  /** Removes entries one by one, adding up the bytes they held. */
  method RemoveAll(all: map<TileKey, Entry>, keys: set<TileKey>, ghost list: seq<Slot>)
    returns (entries: map<TileKey, Entry>, removedBytes: nat)
    requires Represents(all, list) && keys <= all.Keys
    requires Total(list) <= WORD_MAX
    ensures entries == all - keys
    ensures Represents(entries, Drop(list, keys))
    ensures removedBytes + Total(Drop(list, keys)) == Total(list)
  {
    entries, removedBytes := all, 0;
    var todo := keys;
    ghost var gone := {};
    DropNothing(list, {});
    while todo != {}
      invariant gone !! todo && gone + todo == keys
      invariant entries == all - gone
      invariant Represents(entries, Drop(list, gone))
      invariant removedBytes + Total(Drop(list, gone)) == Total(list)
      decreases todo
    {
      var k :| k in todo;
      RemoveStep(entries, Drop(list, gone), k);
      DropDrop(list, gone, {k});
      removedBytes := SaturatingAdd(removedBytes, |entries[k].data|);
      entries := entries - {k};
      todo, gone := todo - {k}, gone + {k};
      assert entries == all - gone;
    }
    assert gone == keys;
  }

  /** The eviction loop: stale stamps are skipped, and the heap never runs dry above capacity. */
  method EvictToFit(
    entries0: map<TileKey, Entry>, order0: multiset<Stamp>, used0: nat, capacity: nat,
    ghost list: seq<Slot>, ghost clock: nat, ghost maxTileBytes: nat)
    returns (entries: map<TileKey, Entry>, order: multiset<Stamp>, usedBytes: nat, evictions: nat, ghost pops: nat)
    requires Represents(entries0, list) && Covered(entries0, order0, clock) && Bounded(entries0, maxTileBytes)
    requires used0 == Total(list)
    ensures Represents(entries, Fit(list, capacity)) && Covered(entries, order, clock) && Bounded(entries, maxTileBytes)
    ensures usedBytes == Total(Fit(list, capacity)) <= capacity
    ensures |entries| + evictions == |entries0|
    ensures |order| + pops == |order0|
    ensures PopsEnd(entries0, order0, entries, order)
  {
    entries, order, usedBytes, evictions, pops := entries0, order0, used0, 0, 0;
    ghost var recency := list;
    ghost var start := Inner(entries0, order0, used0);
    EvictingStarts(start, list, clock, maxTileBytes, capacity);
    hide *;
    while usedBytes > capacity
      invariant Evicting(start, list, clock, maxTileBytes, capacity, Inner(entries, order, usedBytes), recency, evictions, pops)
      decreases |order|
    {
      ghost var inner := Inner(entries, order, usedBytes);
      HeapNotEmpty(start, list, clock, maxTileBytes, capacity, inner, recency, evictions, pops);
      if order == multiset{} {
        assert false;
        break;
      }
      var candidate, rest := PopLeast(order);
      if candidate.key !in entries || entries[candidate.key].lastUsed != candidate.tick {
        StaleStep(start, list, clock, maxTileBytes, capacity, inner, recency, evictions, pops, candidate);
        order, pops := rest, pops + 1;
        continue;
      }
      EvictStep(start, list, clock, maxTileBytes, capacity, inner, recency, evictions, pops, candidate);
      order, pops := rest, pops + 1;
      usedBytes := SaturatingSub(usedBytes, |entries[candidate.key].data|);
      entries := entries - {candidate.key};
      recency := recency[1..];
      evictions := evictions + 1;
    }
    EvictingEnds(start, list, clock, maxTileBytes, capacity, Inner(entries, order, usedBytes), recency, evictions, pops);
  }

  /** What holds at every turn of the eviction loop, for the state it started from. */
  ghost predicate Evicting(
    start: Inner, list: seq<Slot>, clock: nat, maxTileBytes: nat, capacity: nat,
    inner: Inner, recency: seq<Slot>, evictions: nat, pops: nat)
  {
    && Represents(inner.entries, recency) && Covered(inner.entries, inner.order, clock)
    && Bounded(inner.entries, maxTileBytes)
    && inner.usedBytes == Total(recency) && Fit(recency, capacity) == Fit(list, capacity)
    && |inner.entries| + evictions == |start.entries| && |inner.order| + pops == |start.order|
    && (forall k :: k in inner.entries ==> k in start.entries && inner.entries[k] == start.entries[k])
    && PopsInOrder(start.order, inner.order)
    && (inner.usedBytes <= capacity ==> PopsEnd(start.entries, start.order, inner.entries, inner.order))
  }

  lemma EvictingStarts(start: Inner, list: seq<Slot>, clock: nat, maxTileBytes: nat, capacity: nat)
    requires Represents(start.entries, list) && Covered(start.entries, start.order, clock)
    requires Bounded(start.entries, maxTileBytes) && start.usedBytes == Total(list)
    ensures Evicting(start, list, clock, maxTileBytes, capacity, start, list, 0, 0)
  {
    NothingPopped(start.entries, start.order);
  }

  lemma EvictingEnds(
    start: Inner, list: seq<Slot>, clock: nat, maxTileBytes: nat, capacity: nat,
    inner: Inner, recency: seq<Slot>, evictions: nat, pops: nat)
    requires Evicting(start, list, clock, maxTileBytes, capacity, inner, recency, evictions, pops)
    requires inner.usedBytes <= capacity
    ensures Represents(inner.entries, Fit(list, capacity)) && Covered(inner.entries, inner.order, clock)
    ensures Bounded(inner.entries, maxTileBytes) && inner.usedBytes == Total(Fit(list, capacity))
    ensures |inner.entries| + evictions == |start.entries| && |inner.order| + pops == |start.order|
    ensures PopsEnd(start.entries, start.order, inner.entries, inner.order)
  {
    hide Represents, Covered, Bounded, PopsEnd, PopsInOrder;
  }

  /** A stale stamp leaves nothing but the heap. */
  lemma StaleStep(
    start: Inner, list: seq<Slot>, clock: nat, maxTileBytes: nat, capacity: nat,
    inner: Inner, recency: seq<Slot>, evictions: nat, pops: nat, least: Stamp)
    requires Evicting(start, list, clock, maxTileBytes, capacity, inner, recency, evictions, pops)
    requires inner.usedBytes > capacity
    requires least in inner.order && forall s :: s in inner.order ==> least.tick <= s.tick
    requires least.key !in inner.entries || inner.entries[least.key].lastUsed != least.tick
    ensures |inner.order - multiset{least}| < |inner.order|
    ensures Evicting(start, list, clock, maxTileBytes, capacity,
                     inner.(order := inner.order - multiset{least}), recency, evictions, pops + 1)
  {
    StampLeaves(inner.entries, inner.order, clock, least);
    PopNext(start.order, inner.order, least);
    hide Represents, Covered, Bounded, PopsEnd, PopsInOrder;
  }

  /** A current stamp takes the oldest entry along. */
  lemma EvictStep(
    start: Inner, list: seq<Slot>, clock: nat, maxTileBytes: nat, capacity: nat,
    inner: Inner, recency: seq<Slot>, evictions: nat, pops: nat, least: Stamp)
    requires Evicting(start, list, clock, maxTileBytes, capacity, inner, recency, evictions, pops)
    requires inner.usedBytes > capacity
    requires least in inner.order && forall s :: s in inner.order ==> least.tick <= s.tick
    requires least.key in inner.entries && inner.entries[least.key].lastUsed == least.tick
    ensures |inner.order - multiset{least}| < |inner.order| && recency != []
    ensures Evicting(start, list, clock, maxTileBytes, capacity,
                     Inner(inner.entries - {least.key}, inner.order - multiset{least},
                           SaturatingSub(inner.usedBytes, |inner.entries[least.key].data|)),
                     recency[1..], evictions + 1, pops + 1)
  {
    hide Represents, Covered, Bounded, PopsInOrder, PopsEnd;
    StampLeaves(inner.entries, inner.order, clock, least);
    OldestLeaves(inner.entries, recency, inner.order, clock, least, maxTileBytes);
    LastPop(start.entries, start.order, inner.entries, inner.order, least);
    RemovedCount(inner.entries, {least.key});
  }

  lemma NothingPopped(entries: map<TileKey, Entry>, order: multiset<Stamp>)
    ensures PopsInOrder(order, order) && PopsEnd(entries, order, entries, order)
  {
  }

  /** While bytes are held, the heap is not empty. */
  lemma HeapNotEmpty(
    start: Inner, list: seq<Slot>, clock: nat, maxTileBytes: nat, capacity: nat,
    inner: Inner, recency: seq<Slot>, evictions: nat, pops: nat)
    requires Evicting(start, list, clock, maxTileBytes, capacity, inner, recency, evictions, pops)
    requires inner.usedBytes > capacity
    ensures inner.order != multiset{}
  {
    hide PopsEnd, PopsInOrder, Bounded;
    assert recency[0].key in inner.entries;
  }

  /** What the entry of the least current stamp takes with it. */
  lemma OldestLeaves(
    entries: map<TileKey, Entry>, list: seq<Slot>, order: multiset<Stamp>, clock: nat, least: Stamp, maxTileBytes: nat)
    requires Represents(entries, list) && Covered(entries, order, clock) && Bounded(entries, maxTileBytes)
    requires least in order && forall s :: s in order ==> least.tick <= s.tick
    requires least.key in entries && entries[least.key].lastUsed == least.tick
    ensures list != [] && Represents(entries - {least.key}, list[1..]) && Bounded(entries - {least.key}, maxTileBytes)
    ensures Total(list) == |entries[least.key].data| + Total(list[1..])
  {
    LeastCurrentStampIsOldest(entries, list, order, clock, least);
  }

  /** Stamps leave the heap in the order of their ticks. */
  ghost predicate PopsInOrder(before: multiset<Stamp>, after: multiset<Stamp>) {
    after <= before && forall s, r :: s in before - after && r in after ==> s.tick <= r.tick
  }

  /** Popping ends with the stamp of an entry that leaves, or does not begin. */
  ghost predicate PopsEnd(
    entries: map<TileKey, Entry>, before: multiset<Stamp>, kept: map<TileKey, Entry>, after: multiset<Stamp>)
  {
    && PopsInOrder(before, after)
    && (before == after ||
        exists k :: k in entries && k !in kept && Stamp(entries[k].lastUsed, k) in before - after
                    && forall s :: s in before - after ==> s.tick <= entries[k].lastUsed)
  }

  lemma PopNext(before: multiset<Stamp>, order: multiset<Stamp>, least: Stamp)
    requires PopsInOrder(before, order) && least in order && forall s :: s in order ==> least.tick <= s.tick
    ensures PopsInOrder(before, order - multiset{least})
  {
    assert before - (order - multiset{least}) == (before - order) + multiset{least};
  }

  lemma LastPop(
    entries0: map<TileKey, Entry>, before: multiset<Stamp>, entries: map<TileKey, Entry>, order: multiset<Stamp>,
    least: Stamp)
    requires PopsInOrder(before, order) && least in order && forall s :: s in order ==> least.tick <= s.tick
    requires least.key in entries && least.key in entries0 && entries0[least.key].lastUsed == least.tick
    ensures PopsEnd(entries0, before, entries - {least.key}, order - multiset{least})
    ensures PopsInOrder(before, order - multiset{least})
  {
    PopNext(before, order, least);
    assert before - (order - multiset{least}) == (before - order) + multiset{least};
    assert Stamp(entries0[least.key].lastUsed, least.key) == least;
    forall s | s in before - (order - multiset{least}) ensures s.tick <= least.tick {
      if s != least { assert s in before - order; }
    }
  }

  /** A covering heap holds at least one stamp per entry. */
  lemma {:induction false} CoverCount(entries: map<TileKey, Entry>, order: multiset<Stamp>, clock: nat)
    requires Covered(entries, order, clock)
    ensures |entries| <= |order|
    decreases |entries|
  {
    if entries != map[] {
      var k :| k in entries;
      RemovedCount(entries, {k});
      CoverCount(entries - {k}, order - multiset{Stamp(entries[k].lastUsed, k)}, clock);
    }
  }

  /** A popped stamp is either stale, or the current one of the entry about to leave. */
  lemma StampLeaves(entries: map<TileKey, Entry>, order: multiset<Stamp>, clock: nat, stamp: Stamp)
    requires Covered(entries, order, clock) && stamp in order
    ensures stamp.key !in entries || entries[stamp.key].lastUsed != stamp.tick ==>
              Covered(entries, order - multiset{stamp}, clock)
    ensures Covered(entries - {stamp.key}, order - multiset{stamp}, clock)
    ensures |order - multiset{stamp}| == |order| - 1
  {
  }

  lemma {:induction false} IdleEntries(entries: map<TileKey, Entry>, list: seq<Slot>, now: nat, idle: nat)
    requires Represents(entries, list) && idle > 0
    ensures IdleKeys(list, now, idle) ==
            set k | k in entries && SaturatingSub(now, entries[k].lastAccessed) >= idle
    decreases |list|
  {
    if list != [] { IdleEntries(entries - {list[0].key}, list[1..], now, idle); }
  }

  /** What the mutex of the cache guards. */
  datatype Inner = Inner(entries: map<TileKey, Entry>, order: multiset<Stamp>, usedBytes: nat)

  /** History kept for the proof: the entries by last use, the hits since the last admitted insert or rebuild of
      the heap, and how many stamps were pushed, popped, put in by rebuilds and thrown away by rebuilds. */
  datatype Trace = Trace(recency: seq<Slot>, hits: nat, pushes: nat, pops: nat, rebuilt: nat, discarded: nat)

  /** No stamp is unaccounted for, and rebuilds put in no more stamps than they throw away. */
  ghost predicate Accounted(order: multiset<Stamp>, trace: Trace) {
    && |order| + trace.pops + trace.discarded == trace.pushes + trace.rebuilt
    && trace.rebuilt <= trace.discarded
  }

  ghost predicate Sound(inner: Inner, trace: Trace, clock: nat, capacity: nat, maxTileBytes: nat) {
    && Represents(inner.entries, trace.recency)
    && Covered(inner.entries, inner.order, clock)
    && Bounded(inner.entries, maxTileBytes)
    && inner.usedBytes == Total(trace.recency) <= capacity <= WORD_MAX
    && |inner.order| <= 4 * |inner.entries| + 1024 + trace.hits
    && Accounted(inner.order, trace)
  }

  predicate Overgrown(order: multiset<Stamp>, entries: map<TileKey, Entry>) {
    |order| > SaturatingAdd(SaturatingMul(|entries|, 4), 1024)
  }

  /** What an admitted insert does to the heap: one push, the pops down to `popped`, and a compaction if that heap is
      still too long; every stamp is counted. */
  ghost predicate InsertsStamp(
    before: Inner, trace: Trace, key: TileKey, entry: Entry, popped: multiset<Stamp>, after: Inner, trace': Trace)
  {
    var pushed := before.order + multiset{Stamp(entry.lastUsed, key)};
    var compacts := Overgrown(popped, after.entries);
    && PopsEnd(before.entries[key := entry], pushed, after.entries, popped)
    && (if compacts then |after.order| == |after.entries| else after.order == popped)
    && trace'.hits == 0 && trace'.pushes == trace.pushes + 1
    && trace'.pops == trace.pops + |pushed| - |popped|
    && trace'.rebuilt == trace.rebuilt + (if compacts then |after.entries| else 0)
    && trace'.discarded == trace.discarded + if compacts then |popped| else 0
  }

  /** An insert compacts the heap exactly when more than four stamps an entry and 1024 are left in it. */
  lemma CompactsExactly(
    before: Inner, trace: Trace, key: TileKey, entry: Entry, popped: multiset<Stamp>, after: Inner, trace': Trace)
    requires InsertsStamp(before, trace, key, entry, popped, after, trace') && 4 * |after.entries| + 1024 <= WORD_MAX
    ensures if |popped| > 4 * |after.entries| + 1024
            then |after.order| == |after.entries| && trace'.discarded == trace.discarded + |popped|
            else after.order == popped && trace'.discarded == trace.discarded
  {
    hide PopsEnd;
  }

  /** What a rebuild does to the heap. */
  ghost predicate RebuildsHeap(before: Inner, trace: Trace, after: Inner, trace': Trace) {
    && |after.order| == |after.entries|
    && trace' == trace.(recency := trace'.recency, hits := 0, rebuilt := trace.rebuilt + |after.entries|,
                        discarded := trace.discarded + |before.order|)
  }

  lemma NoCapacity(inner: Inner, trace: Trace, clock: nat, maxTileBytes: nat, now: nat, idle: nat)
    requires Sound(inner, trace, clock, 0, maxTileBytes)
    ensures IdleKeys(trace.recency, now, idle) == {} && Drop(trace.recency, {}) == trace.recency
  {
  }

  /** The body of a hit, under the lock. */
  lemma HitStep(inner: Inner, trace: Trace, key: TileKey, clock: nat, now: nat, capacity: nat, maxTileBytes: nat)
    requires Sound(inner, trace, clock, capacity, maxTileBytes) && key in inner.entries
    ensures Sound(
              Inner(inner.entries[key := Entry(inner.entries[key].data, clock + 1, now)],
                    inner.order + multiset{Stamp(clock + 1, key)}, inner.usedBytes),
              trace.(recency := Touch(trace.recency, key, now), hits := trace.hits + 1, pushes := trace.pushes + 1),
              clock + 1, capacity, maxTileBytes)
  {
    var entry := Entry(inner.entries[key].data, clock + 1, now);
    assert 0 < |entry.data| <= maxTileBytes;
    hide Represents, Total, Touch, Covered, Bounded;
    AdmittedEntry(inner.entries, inner.order, key, entry, maxTileBytes);
    TouchStep(inner.entries, trace.recency, key, clock + 1, now);
    ReplacedCount(inner.entries, key, entry);
  }

  /** The body of an admitted insert, under the lock. */
  method Admit(
    inner: Inner, key: TileKey, data: Bytes, tick: nat, now: nat, capacity: nat,
    ghost trace: Trace, ghost maxTileBytes: nat)
    returns (after: Inner, evicted: nat, ghost trace': Trace, ghost popped: multiset<Stamp>)
    requires tick > 0 && Sound(inner, trace, tick - 1, capacity, maxTileBytes)
    requires 0 < |data| <= maxTileBytes && inner.usedBytes + |data| <= WORD_MAX
    ensures Sound(after, trace', tick, capacity, maxTileBytes)
    ensures trace'.recency == Lru.Insert(trace.recency, key, data, now, capacity)
    ensures InsertsStamp(inner, trace, key, Entry(data, tick, now), popped, after, trace')
    ensures |inner.entries| + (if key in inner.entries then 0 else 1) == |after.entries| + evicted
  {
    hide Represents, Fit, Drop, Total, Covered, Bounded, PopsEnd;
    AdmittedEntry(inner.entries, inner.order, key, Entry(data, tick, now), maxTileBytes);
    var usedBytes := inner.usedBytes;
    AdmitStep(inner.entries, trace.recency, key, Entry(data, tick, now));
    if key in inner.entries {
      usedBytes := SaturatingSub(usedBytes, |inner.entries[key].data|);
    }
    usedBytes := SaturatingAdd(usedBytes, |data|);
    var entries := inner.entries[key := Entry(data, tick, now)];
    ReplacedCount(inner.entries, key, entries[key]);
    var order := inner.order + multiset{Stamp(tick, key)};
    ghost var longer := Drop(trace.recency, {key}) + [Slot(key, data, now)];
    ghost var pops;
    entries, order, usedBytes, evicted, pops :=
      EvictToFit(entries, order, usedBytes, capacity, longer, tick, maxTileBytes);
    popped := order;
    trace' := Trace(Fit(longer, capacity), 0, trace.pushes + 1, trace.pops + pops, trace.rebuilt, trace.discarded);
    if Overgrown(order, entries) {
      var compact := Rebuilt(entries);
      RebuiltCovers(entries, order, tick, compact);
      CoverCount(entries, order, tick);
      trace' := trace'.(rebuilt := trace.rebuilt + |compact|, discarded := trace.discarded + |order|);
      order := compact;
    }
    after := Inner(entries, order, usedBytes);
  }

  /** A new entry with the next tick, and its stamp in the heap. */
  lemma AdmittedEntry(
    entries: map<TileKey, Entry>, order: multiset<Stamp>, key: TileKey, entry: Entry, maxTileBytes: nat)
    requires entry.lastUsed > 0 && Covered(entries, order, entry.lastUsed - 1) && Bounded(entries, maxTileBytes)
    requires 0 < |entry.data| <= maxTileBytes
    ensures Covered(entries[key := entry], order + multiset{Stamp(entry.lastUsed, key)}, entry.lastUsed)
    ensures Bounded(entries[key := entry], maxTileBytes)
    ensures forall k :: k in entries ==> entries[k].lastUsed < entry.lastUsed
  {
  }

  lemma RebuiltCovers(entries: map<TileKey, Entry>, order: multiset<Stamp>, clock: nat, compact: multiset<Stamp>)
    requires Covered(entries, order, clock)
    requires forall k :: k in entries ==> Stamp(entries[k].lastUsed, k) in compact
    ensures Covered(entries, compact, clock)
  {
  }

  lemma ReplacedCount(entries: map<TileKey, Entry>, key: TileKey, entry: Entry)
    ensures |entries[key := entry]| == |entries| + (if key in entries then 0 else 1)
  {
    assert entries[key := entry].Keys == entries.Keys + {key};
  }

  /** Removal of a set of entries followed by a rebuild of the heap, under the lock. */
  method RemoveAndRebuild(
    inner: Inner, keys: set<TileKey>, ghost trace: Trace, ghost clock: nat, ghost capacity: nat, ghost maxTileBytes: nat)
    returns (after: Inner, removed: nat, ghost trace': Trace)
    requires Sound(inner, trace, clock, capacity, maxTileBytes) && keys <= inner.entries.Keys
    ensures Sound(after, trace', clock, capacity, maxTileBytes)
    ensures after.entries == inner.entries - keys && removed == |keys| == |inner.entries| - |after.entries|
    ensures trace'.recency == Drop(trace.recency, keys)
    ensures RebuildsHeap(inner, trace, after, trace')
  {
    var entries, freed := RemoveAll(inner.entries, keys, trace.recency);
    RemovedCount(inner.entries, keys);
    removed := SaturatingSub(|inner.entries|, |entries|);
    var order := Rebuilt(entries);
    after := Inner(entries, order, SaturatingSub(inner.usedBytes, freed));
    CoverCount(entries, inner.order, clock);
    trace' := trace.(recency := Drop(trace.recency, keys), hits := 0, rebuilt := trace.rebuilt + |order|,
                     discarded := trace.discarded + |inner.order|);
  }

  /** The scan for idle entries; the heap is rebuilt only if some entry left. */
  method RemoveIdle(
    inner: Inner, now: nat, idle: nat,
    ghost trace: Trace, ghost clock: nat, ghost capacity: nat, ghost maxTileBytes: nat)
    returns (after: Inner, removed: nat, ghost trace': Trace)
    requires Sound(inner, trace, clock, capacity, maxTileBytes) && idle > 0
    ensures Sound(after, trace', clock, capacity, maxTileBytes)
    ensures trace'.recency == Drop(trace.recency, IdleKeys(trace.recency, now, idle))
    ensures removed == |inner.entries| - |after.entries|
    ensures removed > 0 <==> IdleKeys(trace.recency, now, idle) != {}
    ensures if removed == 0 then after == inner && trace' == trace else RebuildsHeap(inner, trace, after, trace')
  {
    var keys := set k | k in inner.entries && SaturatingSub(now, inner.entries[k].lastAccessed) >= idle;
    IdleEntries(inner.entries, trace.recency, now, idle);
    if keys == {} {
      DropNothing(trace.recency, {});
      return inner, 0, trace;
    }
    after, removed, trace' := RemoveAndRebuild(inner, keys, trace, clock, capacity, maxTileBytes);
  }

  class Cache {
    const capacity: nat
    const maxTileBytes: nat
    var clock: nat
    var hits: nat
    var misses: nat
    var evictions: nat
    var inner: Inner
    ghost var trace: Trace

    ghost predicate Valid()
      reads this
    {
      Sound(inner, trace, clock, capacity, maxTileBytes)
    }

    constructor (capacity: nat, maxTileBytes: nat)
      requires capacity <= WORD_MAX
      ensures Valid() && trace == Trace([], 0, 0, 0, 0, 0) && this.capacity == capacity && this.maxTileBytes == maxTileBytes
      ensures hits == misses == evictions == 0
    {
      this.capacity, this.maxTileBytes := capacity, maxTileBytes;
      clock, hits, misses, evictions := 0, 0, 0, 0;
      inner, trace := Inner(map[], multiset{}, 0), Trace([], 0, 0, 0, 0, 0);
    }

    method Get(key: TileKey, now: nat) returns (data: Option<Bytes>)
      requires Valid()
      modifies this
      ensures Valid()
      ensures data == Lookup(old(trace).recency, key)
      ensures trace.recency == Touch(old(trace).recency, key, now)
      ensures var h := if data.Some? then 1 else 0;
              trace == old(trace).(recency := trace.recency, hits := old(trace).hits + h, pushes := old(trace).pushes + h)
      ensures inner.order == old(inner).order + if data.Some? then multiset{Stamp(clock, key)} else multiset{}
      ensures evictions == old(evictions)
      ensures capacity > 0 ==>
                hits + misses == old(hits + misses) + 1 && (hits == old(hits) + 1 <==> data.Some?)
    {
      RepresentsLookup(inner.entries, trace.recency, key);
      if capacity == 0 {
        return None;
      }
      var tick := clock + 1;
      if key in inner.entries {
        HitStep(inner, trace, key, clock, now, capacity, maxTileBytes);
        data := Some(inner.entries[key].data);
        inner := Inner(inner.entries[key := Entry(inner.entries[key].data, tick, now)],
                       inner.order + multiset{Stamp(tick, key)}, inner.usedBytes);
        trace := trace.(recency := Touch(trace.recency, key, now), hits := trace.hits + 1, pushes := trace.pushes + 1);
        hits := hits + 1;
      } else {
        data := None;
        misses := misses + 1;
      }
      clock := tick;
    }

    /** A tile that is not admitted changes nothing, not even an older entry under its key.
        The resident tiles and `data` share one address space, so their lengths fit a usize. */
    method Insert(key: TileKey, data: Bytes, now: nat) returns (ghost popped: multiset<Stamp>)
      requires Valid()
      requires inner.usedBytes + |data| <= WORD_MAX
      modifies this
      ensures Valid()
      ensures 0 < |data| <= maxTileBytes && capacity > 0 ==>
                && trace.recency == Lru.Insert(old(trace).recency, key, data, now, capacity)
                && InsertsStamp(old(inner), old(trace), key, Entry(data, clock, now), popped, inner, trace)
                && |old(inner).entries| + (if key in old(inner).entries then 0 else 1)
                   == |inner.entries| + evictions - old(evictions)
      ensures |data| == 0 || |data| > maxTileBytes || capacity == 0 ==>
                inner == old(inner) && trace == old(trace) && evictions == old(evictions)
      ensures hits == old(hits) && misses == old(misses)
    {
      hide Sound, InsertsStamp, Lru.Insert;
      if capacity == 0 || |data| == 0 || |data| > maxTileBytes {
        popped := inner.order;
        return;
      }
      var after, evicted, trace', kept := Admit(inner, key, data, clock + 1, now, capacity, trace, maxTileBytes);
      inner, trace := after, trace';
      clock, evictions := clock + 1, evictions + evicted;
      popped := kept;
    }

    method Invalidate(selects: TileKey -> bool)
      requires Valid()
      modifies this`inner, this`trace
      ensures Valid()
      ensures trace.recency == Drop(old(trace).recency, set k | k in old(inner).entries && selects(k))
      ensures RebuildsHeap(old(inner), old(trace), inner, trace)
    {
      var keys := set k | k in inner.entries && selects(k);
      var after, _, trace' := RemoveAndRebuild(inner, keys, trace, clock, capacity, maxTileBytes);
      inner, trace := after, trace';
    }

    method InvalidateItem(database: string, item: string)
      requires Valid()
      modifies this`inner, this`trace
      ensures Valid()
      ensures trace.recency ==
              Drop(old(trace).recency, set k | k in old(inner).entries && k.database == database && k.item == item)
      ensures RebuildsHeap(old(inner), old(trace), inner, trace)
    {
      var selects := (k: TileKey) => k.database == database && k.item == item;
      assert (set k | k in inner.entries && selects(k))
          == (set k | k in inner.entries && k.database == database && k.item == item);
      Invalidate(selects);
    }

    method InvalidateDatabase(database: string)
      requires Valid()
      modifies this`inner, this`trace
      ensures Valid()
      ensures trace.recency == Drop(old(trace).recency, set k | k in old(inner).entries && k.database == database)
      ensures RebuildsHeap(old(inner), old(trace), inner, trace)
    {
      var selects := (k: TileKey) => k.database == database;
      assert (set k | k in inner.entries && selects(k)) == (set k | k in inner.entries && k.database == database);
      Invalidate(selects);
    }

    method EvictIdle(now: nat, idle: nat) returns (removed: nat)
      requires Valid()
      modifies this`inner, this`trace, this`evictions
      ensures Valid()
      ensures idle > 0 ==> trace.recency == Drop(old(trace).recency, IdleKeys(old(trace).recency, now, idle))
      ensures removed == |old(inner).entries| - |inner.entries| && evictions == old(evictions) + removed
      ensures removed > 0 <==> idle > 0 && IdleKeys(old(trace).recency, now, idle) != {}
      ensures removed > 0 ==> RebuildsHeap(old(inner), old(trace), inner, trace)
      ensures idle == 0 || removed == 0 ==> inner == old(inner) && trace == old(trace)
    {
      hide Sound, IdleKeys, Drop, RebuildsHeap;
      if capacity == 0 || idle == 0 {
        if capacity == 0 { NoCapacity(inner, trace, clock, maxTileBytes, now, idle); }
        return 0;
      }
      var after, count, trace' := RemoveIdle(inner, now, idle, trace, clock, capacity, maxTileBytes);
      inner, trace := after, trace';
      removed, evictions := count, evictions + count;
    }
  }
}
