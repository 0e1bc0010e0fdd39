/** What single operations do to the cache, and interleaved runs in which a read of an older value wins. */
module CoherenceRuns {
  import opened Tiles
  import opened Lru
  import opened Paths
  import opened Coherence

  // The cache after one operation

  /** Data that the cache takes and that fits it. */
  predicate Fits(data: Bytes, limits: Limits) { 0 < |data| <= limits.maxTileBytes && |data| <= limits.capacity }

  lemma AdmitExactly(cache: seq<Slot>, key: TileKey, data: Bytes, now: nat, limits: Limits)
    requires Distinct(cache)
    ensures Fits(data, limits) ==> Lookup(Admit(cache, key, data, now, limits), key) == Some(data)
    ensures |data| == 0 || |data| > limits.maxTileBytes || limits.capacity == 0 ==> Admit(cache, key, data, now, limits) == cache
  {
    FreshTileSurvives(cache, key, data, now, limits.capacity);
  }

  /** A read that finds the tile cached, or finds nothing, leaves every cached value; one that finds it in the shard
      caches it if it fits. */
  lemma GetCaches(s: Store, key: TileKey, now: nat, limits: Limits)
    requires Distinct(s.cache) && Addressable(key)
    ensures var after := Coherence.Apply(s, Coherence.Op.Get(key, now), limits);
            && after.rows == s.rows
            && (Lookup(s.cache, key).Some? || Stored(s.rows, key).None? ==>
                  forall k :: Lookup(after.cache, k) == Lookup(s.cache, k))
            && (Lookup(s.cache, key).None? && Stored(s.rows, key).Some? && Fits(Stored(s.rows, key).value, limits) ==>
                  Lookup(after.cache, key) == Stored(s.rows, key))
  {
    hide Stored, TileAddress, Admit, Touch, Lookup, Distinct;
    if Lookup(s.cache, key).Some? {
      forall k ensures Lookup(Touch(s.cache, key, now), k) == Lookup(s.cache, k) { TouchLookup(s.cache, key, now, k); }
    } else if Stored(s.rows, key).Some? {
      AdmitExactly(s.cache, key, Stored(s.rows, key).value, now, limits);
    }
  }

  /** A committed put of data that fits is cached and stored; a put that is not committed, or whose key or data is not
      valid, changes nothing. */
  lemma PutCaches(s: Store, key: TileKey, data: Bytes, now: nat, committed: bool, limits: Limits)
    requires Distinct(s.cache)
    ensures var after := Coherence.Apply(s, Coherence.Op.Put(key, data, now, committed), limits);
            && (committed && data != [] && TileAddress(key).Ok? ==>
                  && Stored(after.rows, key) == Some(data) && (Fits(data, limits) ==> Lookup(after.cache, key) == Some(data)))
            && (!committed || data == [] || TileAddress(key).Err? ==> after == s)
  {
    if committed && data != [] && TileAddress(key).Ok? {
      AdmitExactly(s.cache, key, data, now, limits);
      LocationsShared(key, key);
      StoredAfterPut(s.rows, key, data, key);
    }
  }

  /** A drop takes exactly the tiles of its own ids out of the cache, and an eviction no row. */
  lemma DropForgets(s: Store, op: Coherence.Op, limits: Limits, key: TileKey)
    requires Distinct(s.cache) && (op.DropItem? || op.DropDatabase?)
    ensures var after := Coherence.Apply(s, op, limits);
            if ValidId(op.database) && (op.DropItem? ==> ValidId(op.item)) then
              Lookup(after.cache, key) ==
              if key.database == op.database && (op.DropItem? ==> key.item == op.item) then None else Lookup(s.cache, key)
            else after == s
  {
    if Drops(op) { LookupAfterDrop(s.cache, Selected(s.cache, op), key); }
  }

  lemma EvictionKeepsRows(s: Store, now: nat, idle: nat, limits: Limits)
    ensures Coherence.Apply(s, Coherence.Op.EvictIdle(now, idle), limits).rows == s.rows
    ensures idle == 0 ==> Coherence.Apply(s, Coherence.Op.EvictIdle(now, idle), limits) == s
  {
  }

  // Races

  predicate Overtaken(run: seq<Shared>, events: seq<Event>, limits: Limits, key: TileKey, older: Bytes, newer: Option<Bytes>)
    requires Addressable(key)
  {
    && IsRun(run, events, limits)
    && Lookup(run[|run| - 1].cache, key) == Some(older) && Stored(run[|run| - 1].rows, key) == newer
    && newer != Some(older)
  }

  function Row(key: TileKey, data: Bytes): Rows
    requires Addressable(key)
  {
    map[LocationOf(key) := data]
  }

  lemma RowStored(key: TileKey, data: Bytes)
    requires Addressable(key) && data != []
    ensures Stored(Row(key, data), key) == Some(data) && Stored(map[], key) == None
    ensures Row(key, data) == map[][LocationOf(key) := data] && Row(key, data) - {LocationOf(key)} == map[]
    ensures forall other :: Row(key, data)[LocationOf(key) := other] == Row(key, other)
  {
    hide LocationOf;
  }

  function Cached(key: TileKey, data: Bytes): seq<Slot> { [Slot(key, data, 0)] }

  lemma CachedLookup(key: TileKey, data: Bytes, before: Bytes, limits: Limits)
    requires Fits(data, limits)
    ensures Admit([], key, data, 0, limits) == Cached(key, data) && Admit(Cached(key, before), key, data, 0, limits) == Cached(key, data)
    ensures Lookup(Cached(key, data), key) == Some(data) && Drop(Cached(key, data), {key}) == []
  {
    var slot := Slot(key, data, 0);
    assert Cached(key, before)[1..] == [];
    assert Drop([], {key}) == [] && Drop(Cached(key, before), {key}) == [] && Drop(Cached(key, data), {key}) == [];
    assert [] + [slot] == [slot] && [slot][1..] == [];
    assert Total([slot]) == |data|;
  }

  /** A read that has fetched a value is overtaken by a put of another one, and then fills the cache with the value it
      fetched: from then on reads return it, though the put has been answered. */
  lemma ReadOvertakenByPut(key: TileKey, older: Bytes, newer: Bytes, limits: Limits)
    returns (run: seq<Shared>, events: seq<Event>)
    requires Addressable(key) && older != newer && Fits(older, limits) && Fits(newer, limits)
    ensures Overtaken(run, events, limits, key, older, Some(newer))
    ensures events == [CommitRow(key, older), ForgetTask(key, older), ReadRow(key), CommitRow(key, newer),
                       FillCache(key, newer, 0), FillCache(key, older, 0)]
  {
    var a, b, rows, rows' := (key, older), (key, newer), Row(key, older), Row(key, newer);
    RowStored(key, older);
    RowStored(key, newer);
    CachedLookup(key, newer, older, limits);
    CachedLookup(key, older, newer, limits);
    hide Stored, LocationOf, TileAddress, Admit, Lookup, Row, Cached;
    events := [CommitRow(key, older), ForgetTask(key, older), ReadRow(key), CommitRow(key, newer),
               FillCache(key, newer, 0), FillCache(key, older, 0)];
    var s0, s1, s2 := Shared([], map[], {}, {}), Shared([], rows, {a}, {a}), Shared([], rows, {}, {a});
    var s3, s4 := Shared([], rows, {a}, {a}), Shared([], rows', {a, b}, {a, b});
    var s5, s6 := Shared(Cached(key, newer), rows', {a, b}, {a, b}), Shared(Cached(key, older), rows', {a, b}, {a, b});
    run := [s0, s1, s2, s3, s4, s5, s6];
    assert Happens(s0, events[0], limits, s1);
    assert Happens(s1, events[1], limits, s2);
    assert Happens(s2, events[2], limits, s3);
    assert Happens(s3, events[3], limits, s4);
    assert Happens(s4, events[4], limits, s5);
    assert Happens(s5, events[5], limits, s6);
    hide Happens;
  }

  /** A read that has fetched a value is overtaken by the drop of the tile, and then caches it: from then on reads return
      a tile that is gone. */
  lemma ReadOvertakenByDrop(key: TileKey, data: Bytes, limits: Limits)
    returns (run: seq<Shared>, events: seq<Event>)
    requires Addressable(key) && Fits(data, limits)
    ensures Overtaken(run, events, limits, key, data, None)
    ensures events == [CommitRow(key, data), FillCache(key, data, 0), ForgetTask(key, data), ReadRow(key), Forget({key}),
                       LoseRows({LocationOf(key)}), FillCache(key, data, 0), Hit(key, 0)]
  {
    var a, rows, cached := (key, data), Row(key, data), Cached(key, data);
    RowStored(key, data);
    CachedLookup(key, data, data, limits);
    var l := LocationOf(key);
    assert Touch(cached, key, 0) == cached by { assert [] + cached == cached; }
    hide Stored, LocationOf, TileAddress, Admit, Lookup, Row, Cached, Touch, Drop;
    events := [CommitRow(key, data), FillCache(key, data, 0), ForgetTask(key, data), ReadRow(key), Forget({key}),
               LoseRows({l}), FillCache(key, data, 0), Hit(key, 0)];
    var s0, s1, s2 := Shared([], map[], {}, {}), Shared([], rows, {a}, {a}), Shared(cached, rows, {a}, {a});
    var s3, s4 := Shared(cached, rows, {}, {a}), Shared(cached, rows, {a}, {a});
    var s5, s6, s7 := Shared([], rows, {a}, {a}), Shared([], map[], {a}, {a}), Shared(cached, map[], {a}, {a});
    run := [s0, s1, s2, s3, s4, s5, s6, s7, s7];
    assert Happens(s0, events[0], limits, s1);
    assert Happens(s1, events[1], limits, s2);
    assert Happens(s2, events[2], limits, s3);
    assert Happens(s3, events[3], limits, s4);
    assert Happens(s4, events[4], limits, s5);
    assert Happens(s5, events[5], limits, s6);
    assert Happens(s6, events[6], limits, s7);
    assert Happens(s7, events[7], limits, s7);
    hide Happens;
  }
}
