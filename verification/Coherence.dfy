/** The memory cache against the stored rows. Rows live at addresses, cache entries under tile keys. */
module Coherence {
  import opened Tiles
  import opened Lru
  import opened Paths

  /** Shard file, table and id. */
  datatype Location = Location(file: Path, table: string, id: int)

  predicate Addressable(key: TileKey) { TileAddress(key).Ok? }

  function LocationOf(key: TileKey): Location
    requires Addressable(key)
  {
    var a := TileAddress(key).value;
    Location(a.shardFile, a.table, a.id)
  }

  lemma LocationsShared(a: TileKey, b: TileKey)
    requires Addressable(a) && Addressable(b)
    ensures LocationOf(a) == LocationOf(b) <==> Alias(a, b)
    ensures LongId(a.database) == LongId(b.database) ==> (Alias(a, b) <==> a == b)
  {
    AddressInjective(a, b);
    if LongId(a.database) == LongId(b.database) { AliasOfLikeIds(a, b); }
  }

  type Rows = map<Location, Bytes>

  function Without(rows: Rows, directory: Path): Rows {
    map l | l in rows && !Under(directory, l.file) :: rows[l]
  }

  /** What a read finds: an empty value counts as absent. */
  function Stored(rows: Rows, key: TileKey): Option<Bytes>
    requires Addressable(key)
  {
    var l := LocationOf(key);
    if l in rows && rows[l] != [] then Some(rows[l]) else None
  }

  // Serial runs

  datatype Store = Store(cache: seq<Slot>, rows: Rows)

  /** `committed` says whether the writer reported success. */
  datatype Op =
    | Get(key: TileKey, now: nat)
    | Put(key: TileKey, data: Bytes, now: nat, committed: bool)
    | DropItem(database: string, item: string)
    | DropDatabase(database: string)
    | EvictIdle(now: nat, idle: nat)

  function Admit(cache: seq<Slot>, key: TileKey, data: Bytes, now: nat, limits: Limits): seq<Slot> {
    if Admits(limits, data) then Insert(cache, key, data, now, limits.capacity) else cache
  }

  function GetResult(s: Store, key: TileKey): Option<Bytes> {
    if TileAddress(key).Err? then None
    else if Lookup(s.cache, key).Some? then Lookup(s.cache, key)
    else Stored(s.rows, key)
  }

  /** A put that changes a row. */
  predicate Writes(op: Op) { op.Put? && op.data != [] && Addressable(op.key) && op.committed }

  /** A drop that gets past the validation of its ids. */
  predicate Drops(op: Op) {
    (op.DropItem? && ValidId(op.database) && ValidId(op.item)) || (op.DropDatabase? && ValidId(op.database))
  }

  /** The keys a drop invalidates in the cache. */
  predicate Selects(op: Op, key: TileKey)
    requires op.DropItem? || op.DropDatabase?
  {
    key.database == op.database && (op.DropItem? ==> key.item == op.item)
  }

  /** The directory a drop removes. */
  function Directory(op: Op): Path
    requires op.DropItem? || op.DropDatabase?
  {
    if op.DropItem? then ItemDirectory(op.database, op.item) else DatabaseDirectory(op.database)
  }

  /** Whether a drop takes the row of a tile, as the ids say. */
  predicate Reaches(op: Op, key: TileKey)
    requires (op.DropItem? || op.DropDatabase?) && Addressable(key)
  {
    if op.DropItem? then ItemReaches(op.database, op.item, key) else DatabaseReaches(op.database, key)
  }

  lemma DropReaches(op: Op, key: TileKey)
    requires (op.DropItem? || op.DropDatabase?) && Addressable(key)
    ensures Under(Directory(op), LocationOf(key).file) <==> Reaches(op, key)
    ensures Selects(op, key) ==> Reaches(op, key)
  {
    ShardOwnership(key, op.database, if op.DropItem? then op.item else key.item);
  }

  function Selected(cache: seq<Slot>, op: Op): set<TileKey>
    requires op.DropItem? || op.DropDatabase?
  {
    set k | k in Keys(cache) && Selects(op, k)
  }

  function Apply(s: Store, op: Op, limits: Limits): Store {
    match op
    case Get(key, now) =>
      if TileAddress(key).Err? then s
      else if Lookup(s.cache, key).Some? then s.(cache := Touch(s.cache, key, now))
      else if Stored(s.rows, key).Some? then s.(cache := Admit(s.cache, key, Stored(s.rows, key).value, now, limits))
      else s
    case Put(key, data, now, _) =>
      if !Writes(op) then s
      else Store(Admit(s.cache, key, data, now, limits), s.rows[LocationOf(key) := data])
    case EvictIdle(now, idle) =>
      if idle == 0 then s else s.(cache := Drop(s.cache, IdleKeys(s.cache, now, idle)))
    case _ =>
      if !Drops(op) then s
      else Store(Drop(s.cache, Selected(s.cache, op)), Without(s.rows, Directory(op)))
  }

  /** A cached value is the stored one. */
  ghost predicate Agrees(s: Store, key: TileKey, limits: Limits) {
    Lookup(s.cache, key).Some? ==>
      && Addressable(key) && Admits(limits, Lookup(s.cache, key).value)
      && Stored(s.rows, key) == Lookup(s.cache, key)
  }

  ghost predicate Coherent(s: Store, limits: Limits) {
    Distinct(s.cache) && forall key :: Agrees(s, key, limits)
  }

  /** A tile that stays cached with another value than the put writes to the row it shares. */
  ghost predicate AliasStays(s: Store, op: Op, limits: Limits, key: TileKey)
    requires op.Put?
  {
    var after := Lookup(Admit(s.cache, op.key, op.data, op.now, limits), key);
    key != op.key && Alias(key, op.key) && after.Some? && after != Some(op.data)
  }

  /** The ways to lose agreement: a committed put that the cache does not admit, over a cached tile; a put to a row that
      a crossed layer's cached tile shares; and a drop whose directory reaches a cached tile of other ids. */
  ghost predicate LeavesStale(s: Store, op: Op, limits: Limits) {
    match op
    case Put(key, data, _, _) =>
      && Writes(op)
      && ((Lookup(s.cache, key).Some? && !Admits(limits, data)) || exists k :: AliasStays(s, op, limits, k))
    case Get(_, _) => false
    case EvictIdle(_, _) => false
    case _ =>
      && Drops(op)
      && exists k :: Lookup(s.cache, k).Some? && Addressable(k) && !Selects(op, k) && Reaches(op, k)
  }

  lemma AdmitLookup(cache: seq<Slot>, key: TileKey, data: Bytes, now: nat, limits: Limits, other: TileKey)
    requires Distinct(cache)
    ensures var after := Admit(cache, key, data, now, limits);
            && Distinct(after)
            && (Lookup(after, other).Some? ==>
                  Lookup(after, other) == if other == key && Admits(limits, data) then Some(data) else Lookup(cache, other))
            && (!Admits(limits, data) ==> after == cache)
  {
    Renew(cache, Slot(key, data, now));
    FitKeeps(Drop(cache, {key}) + [Slot(key, data, now)], limits.capacity);
  }

  lemma StoredAfterPut(rows: Rows, key: TileKey, data: Bytes, other: TileKey)
    requires Addressable(key) && Addressable(other) && data != []
    ensures Stored(rows[LocationOf(key) := data], other) == if Alias(other, key) then Some(data) else Stored(rows, other)
  {
    LocationsShared(other, key);
    hide LocationOf, Alias;
  }

  lemma StoredAfterDrop(rows: Rows, op: Op, key: TileKey)
    requires (op.DropItem? || op.DropDatabase?) && Addressable(key)
    ensures Stored(Without(rows, Directory(op)), key) == if Reaches(op, key) then None else Stored(rows, key)
  {
    DropReaches(op, key);
    hide Reaches, Directory;
  }

  lemma LookupAfterDrop(cache: seq<Slot>, gone: set<TileKey>, key: TileKey)
    requires Distinct(cache)
    ensures Distinct(Drop(cache, gone))
    ensures Lookup(Drop(cache, gone), key) == if key in gone then None else Lookup(cache, key)
    ensures Lookup(cache, key).Some? <==> key in Keys(cache)
  {
    DropKeys(cache, gone);
    LookupDrop(cache, gone, key);
    LookupResident(cache, key);
  }

  lemma CoherentParts(s: Store, limits: Limits, key: TileKey)
    requires Coherent(s, limits)
    ensures Distinct(s.cache) && Agrees(s, key, limits)
  {
  }

  lemma TouchLookup(cache: seq<Slot>, k: TileKey, now: nat, key: TileKey)
    requires Distinct(cache)
    ensures Distinct(Touch(cache, k, now)) && Lookup(Touch(cache, k, now), key) == Lookup(cache, key)
  {
    if Lookup(cache, k).Some? { Renew(cache, Slot(k, Lookup(cache, k).value, now)); }
  }

  lemma GetAgrees(s: Store, k: TileKey, now: nat, limits: Limits, key: TileKey)
    requires Distinct(s.cache) && Agrees(s, key, limits)
    ensures var after := Apply(s, Op.Get(k, now), limits); Distinct(after.cache) && Agrees(after, key, limits)
  {
    hide Drop, Keys, Insert, Lookup, Touch, Distinct, TileAddress, LocationOf, Stored, Admit, Admits;
    if Addressable(k) {
      if Lookup(s.cache, k).Some? {
        TouchLookup(s.cache, k, now, key);
      } else if Stored(s.rows, k).Some? {
        AdmitLookup(s.cache, k, Stored(s.rows, k).value, now, limits, key);
      }
    }
  }

  lemma PutAgrees(s: Store, op: Op, limits: Limits, key: TileKey)
    requires op.Put? && Writes(op) && Distinct(s.cache) && Agrees(s, key, limits)
    requires !(Lookup(s.cache, op.key).Some? && !Admits(limits, op.data)) && !AliasStays(s, op, limits, key)
    ensures var after := Apply(s, op, limits); Distinct(after.cache) && Agrees(after, key, limits)
  {
    hide Drop, Keys, Insert, Lookup, Touch, Distinct, TileAddress, LocationOf, Stored, Admit, Admits, SameLevels;
    AdmitLookup(s.cache, op.key, op.data, op.now, limits, key);
    if Addressable(key) {
      StoredAfterPut(s.rows, op.key, op.data, key);
      LocationsShared(op.key, op.key);
    }
  }

  lemma DropAgrees(s: Store, op: Op, limits: Limits, key: TileKey)
    requires Drops(op) && Distinct(s.cache) && Agrees(s, key, limits)
    ensures var after := Apply(s, op, limits);
            && Distinct(after.cache)
            && (Agrees(after, key, limits) <==>
                  !(Lookup(s.cache, key).Some? && Addressable(key) && !Selects(op, key) && Reaches(op, key)))
  {
    hide Drop, Keys, Insert, Lookup, Touch, Distinct, TileAddress, LocationOf, Stored, Admits, Reaches, Directory;
    LookupAfterDrop(s.cache, Selected(s.cache, op), key);
    if Addressable(key) { StoredAfterDrop(s.rows, op, key); }
  }

  lemma StepAgrees(s: Store, op: Op, limits: Limits, key: TileKey)
    requires Distinct(s.cache) && Agrees(s, key, limits) && !LeavesStale(s, op, limits)
    ensures Distinct(Apply(s, op, limits).cache) && Agrees(Apply(s, op, limits), key, limits)
  {
    hide Agrees, Distinct, AliasStays, Reaches, Lookup, IdleKeys, Admits;
    match op
    case Get(k, now) => GetAgrees(s, k, now, limits, key);
    case Put(k, data, now, _) => if Writes(op) { PutAgrees(s, op, limits, key); }
    case EvictIdle(now, idle) =>
      if idle > 0 { IdleAgrees(s, now, idle, limits, key); }
    case _ =>
      if Drops(op) { DropAgrees(s, op, limits, key); }
  }

  lemma IdleAgrees(s: Store, now: nat, idle: nat, limits: Limits, key: TileKey)
    requires Distinct(s.cache) && Agrees(s, key, limits)
    ensures var after := s.(cache := Drop(s.cache, IdleKeys(s.cache, now, idle)));
            Distinct(after.cache) && Agrees(after, key, limits)
  {
    LookupAfterDrop(s.cache, IdleKeys(s.cache, now, idle), key);
  }

  /** When agreement is lost, the tile that disagrees. */
  lemma StaleDisagrees(s: Store, op: Op, limits: Limits) returns (key: TileKey)
    requires Coherent(s, limits) && LeavesStale(s, op, limits)
    ensures !Agrees(Apply(s, op, limits), key, limits)
  {
    if op.Put? {
      if k :| AliasStays(s, op, limits, k) {
        key := k;
        hide Drop, Keys, Insert, Lookup, Distinct, TileAddress, LocationOf, Stored, Admit, Admits, SameLevels;
        if Addressable(k) { StoredAfterPut(s.rows, op.key, op.data, k); }
      } else {
        key := op.key;
        CoherentParts(s, limits, key);
        hide Drop, Keys, Insert, Lookup, Distinct, TileAddress, LocationOf, Stored, Admits;
        LocationsShared(key, key);
        StoredAfterPut(s.rows, key, op.data, key);
      }
    } else {
      var k :| Lookup(s.cache, k).Some? && Addressable(k) && !Selects(op, k) && Reaches(op, k);
      key := k;
      CoherentParts(s, limits, k);
      DropAgrees(s, op, limits, k);
    }
  }

  /** Whatever the ids, a serial step keeps cache and rows in agreement exactly when it is none of the ways to lose it. */
  lemma SerialStep(s: Store, op: Op, limits: Limits)
    requires Coherent(s, limits)
    ensures Coherent(Apply(s, op, limits), limits) <==> !LeavesStale(s, op, limits)
  {
    if LeavesStale(s, op, limits) {
      var key := StaleDisagrees(s, op, limits);
    } else {
      hide LeavesStale, Apply, Agrees, Distinct;
      var some := TileKey("", "", 0, 0, 0, None);
      CoherentParts(s, limits, some);
      StepAgrees(s, op, limits, some);
      forall key ensures Agrees(Apply(s, op, limits), key, limits) {
        CoherentParts(s, limits, key);
        StepAgrees(s, op, limits, key);
      }
    }
  }

  // What a read returns

  function RunOf(ops: seq<Op>, limits: Limits): Store {
    if ops == [] then Store([], map[]) else Apply(RunOf(ops[..|ops| - 1], limits), ops[|ops| - 1], limits)
  }

  /** The data of the last committed put of a tile that no later drop of its ids covers, read off the operations. */
  function LastPut(ops: seq<Op>, key: TileKey): Option<Bytes> {
    if ops == [] then None
    else
      var rest, op := ops[..|ops| - 1], ops[|ops| - 1];
      if Writes(op) && op.key == key then Some(op.data)
      else if Drops(op) && Selects(op, key) then None
      else LastPut(rest, key)
  }

  /** The same by rows: the last committed put to the tile's row that no later drop reached. */
  function LastAtRow(ops: seq<Op>, key: TileKey): Option<Bytes>
    requires Addressable(key)
  {
    if ops == [] then None
    else
      var rest, op := ops[..|ops| - 1], ops[|ops| - 1];
      if Writes(op) && Alias(key, op.key) then Some(op.data)
      else if Drops(op) && Reaches(op, key) then None
      else LastAtRow(rest, key)
  }

  /** An operation on other ids leaves the tile's row alone. */
  predicate Spares(op: Op, key: TileKey)
    requires Addressable(key)
  {
    && (Writes(op) && Alias(key, op.key) ==> op.key == key)
    && (Drops(op) && Reaches(op, key) ==> Selects(op, key))
  }

  /** Operations on ids longer than four characters spare every such tile but their own. */
  lemma LongIdsSpare(op: Op, key: TileKey)
    requires Addressable(key) && LongIds(key)
    requires op.Put? ==> LongId(op.key.database)
    requires op.DropItem? || op.DropDatabase? ==> LongId(op.database) && (op.DropItem? ==> LongId(op.item))
    ensures Spares(op, key)
  {
    if Writes(op) { LocationsShared(key, op.key); }
    if op.DropItem? || op.DropDatabase? { ShardOwnership(key, op.database, if op.DropItem? then op.item else key.item); }
  }

  ghost predicate NeverStale(ops: seq<Op>, limits: Limits) {
    ops == [] ||
    (NeverStale(ops[..|ops| - 1], limits)
     && !LeavesStale(RunOf(ops[..|ops| - 1], limits), ops[|ops| - 1], limits))
  }

  lemma StoredStep(s: Store, op: Op, limits: Limits, key: TileKey)
    requires Addressable(key)
    ensures Stored(Apply(s, op, limits).rows, key) ==
            if Writes(op) && Alias(key, op.key) then Some(op.data)
            else if Drops(op) && Reaches(op, key) then None
            else Stored(s.rows, key)
  {
    hide Stored, LocationOf, Directory, Reaches, Alias, TileAddress;
    if Writes(op) {
      StoredAfterPut(s.rows, op.key, op.data, key);
    } else if Drops(op) {
      StoredAfterDrop(s.rows, op, key);
    }
  }

  /** For all ids: what is stored for a tile is the last committed put to its row that no later drop reached. */
  lemma {:induction false} RunStores(ops: seq<Op>, limits: Limits, key: TileKey)
    requires Addressable(key)
    ensures Stored(RunOf(ops, limits).rows, key) == LastAtRow(ops, key)
    ensures (forall i :: 0 <= i < |ops| ==> Spares(ops[i], key)) ==> LastAtRow(ops, key) == LastPut(ops, key)
  {
    hide Stored, Apply, TileAddress, Addressable, Alias, Reaches;
    if ops == [] {
      EmptyStore(key);
    } else {
      var n := |ops| - 1;
      RunStores(ops[..n], limits, key);
      StoredStep(RunOf(ops[..n], limits), ops[n], limits, key);
      OwnRow(ops[n], key);
    }
  }

  /** A put or drop of a tile's own ids touches its row. */
  lemma OwnRow(op: Op, key: TileKey)
    requires Addressable(key)
    ensures Writes(op) && op.key == key ==> Alias(key, op.key)
    ensures Drops(op) && Selects(op, key) ==> Reaches(op, key)
  {
    if Drops(op) { DropReaches(op, key); }
  }

  lemma EmptyStore(key: TileKey)
    requires Addressable(key)
    ensures Stored(map[], key) == None
  {
    hide LocationOf;
  }

  lemma {:induction false} RunCoherent(ops: seq<Op>, limits: Limits)
    requires NeverStale(ops, limits)
    ensures Coherent(RunOf(ops, limits), limits)
  {
    if ops != [] {
      hide LeavesStale, Apply, Coherent;
      RunCoherent(ops[..|ops| - 1], limits);
      SerialStep(RunOf(ops[..|ops| - 1], limits), ops[|ops| - 1], limits);
    } else {
    }
  }

  /** In a serial run that never loses agreement, a read returns the last committed put to the tile's row, and nothing
      if there is none or a drop came after it; and that is the last put of that very tile if the other ids of the run
      spare its row. */
  lemma GetReturnsLastPut(ops: seq<Op>, limits: Limits, key: TileKey)
    requires NeverStale(ops, limits) && Addressable(key)
    ensures GetResult(RunOf(ops, limits), key) == LastAtRow(ops, key)
    ensures (forall i :: 0 <= i < |ops| ==> Spares(ops[i], key)) ==> GetResult(RunOf(ops, limits), key) == LastPut(ops, key)
  {
    hide NeverStale, Spares, LastAtRow, LastPut, RunOf, Distinct, Stored, TileAddress;
    RunStores(ops, limits, key);
    RunCoherent(ops, limits);
    CoherentParts(RunOf(ops, limits), limits, key);
  }

  // Runs in which the property fails

  lemma TwoOps(a: Op, b: Op, limits: Limits)
    ensures RunOf([a], limits) == Apply(Store([], map[]), a, limits)
    ensures RunOf([a, b], limits) == Apply(RunOf([a], limits), b, limits)
    ensures forall key :: LastPut([a], key) == (if Writes(a) && a.key == key then Some(a.data) else None)
    ensures forall key :: Writes(b) && b.key == key ==> LastPut([a, b], key) == Some(b.data)
  {
    assert [a][..0] == [] && [a, b][..1] == [a];
    assert RunOf([], limits) == Store([], map[]);
    forall key ensures LastPut([a], key) == (if Writes(a) && a.key == key then Some(a.data) else None) {
      assert LastPut([], key) == None;
    }
  }

  /** A put that the cache does not admit, over a cached tile: the next read still returns the older data. */
  lemma OversizePutReadsOld(key: TileKey, small: Bytes, large: Bytes, limits: Limits)
    requires Addressable(key) && Admits(limits, small) && |small| <= limits.capacity && large != [] && !Admits(limits, large)
    ensures var ops := [Op.Put(key, small, 0, true), Op.Put(key, large, 1, true)];
            && GetResult(RunOf(ops, limits), key) == Some(small)
            && LastPut(ops, key) == Some(large) && small != large
            && !NeverStale(ops, limits)
  {
    var a, b := Op.Put(key, small, 0, true), Op.Put(key, large, 1, true);
    TwoOps(a, b, limits);
    FreshTileSurvives([], key, small, 0, limits.capacity);
    assert [a, b][..1] == [a];
  }

  /** Such a run exists. */
  lemma OversizeRunExists() returns (key: TileKey, small: Bytes, large: Bytes, limits: Limits)
    ensures GetResult(RunOf([Op.Put(key, small, 0, true), Op.Put(key, large, 1, true)], limits), key)
            != LastPut([Op.Put(key, small, 0, true), Op.Put(key, large, 1, true)], key)
  {
    key, small, large, limits := TileKey("database", "layer", 0, 0, 0, None), [7], [7, 7], Limits(10, 1);
    OversizePutReadsOld(key, small, large, limits);
  }

  const CROSSED_A := TileKey("abcd", "efghxyz", 0, 0, 0, None)
  const CROSSED_B := TileKey("abcdefgh", "xyz", 0, 0, 0, None)

  /** Crossed layers share rows: a put to one is read as a tile of the other. */
  lemma CrossedLayersMix(data: Bytes, limits: Limits)
    requires data != []
    ensures var ops := [Op.Put(CROSSED_A, data, 0, true)];
            GetResult(RunOf(ops, limits), CROSSED_B) == Some(data) && LastPut(ops, CROSSED_B) == None
  {
    var a := Op.Put(CROSSED_A, data, 0, true);
    TwoOps(a, a, limits);
    hide TileAddress, LocationOf, Alias, Stored, Admits;
    assert Writes(a);
    StoredAfterPut(map[], CROSSED_A, data, CROSSED_B);
    AdmitLookup([], CROSSED_A, data, 0, limits, CROSSED_B);
    assert Lookup([], CROSSED_B) == None;
  }

  // Interleaved runs

  /** Reads, writes and drops in any interleaving. `pending` are the values that tasks have read or committed and not
      yet put into the cache; `log` is every committed value with the tile it was committed for. */
  datatype Shared = Shared(cache: seq<Slot>, rows: Rows, pending: set<(TileKey, Bytes)>, log: set<(TileKey, Bytes)>)

  datatype Event =
    | Hit(key: TileKey, now: nat)
    | ReadRow(key: TileKey)
    | CommitRow(key: TileKey, data: Bytes)
    | FillCache(key: TileKey, data: Bytes, now: nat)
    | ForgetTask(key: TileKey, data: Bytes)
    | LoseRows(lost: set<Location>)
    | Forget(keys: set<TileKey>)

  predicate Happens(s: Shared, e: Event, limits: Limits, s': Shared) {
    match e
    case Hit(key, now) => Lookup(s.cache, key).Some? && s' == s.(cache := Touch(s.cache, key, now))
    case ReadRow(key) =>
      && Addressable(key) && Stored(s.rows, key).Some?
      && s' == s.(pending := s.pending + {(key, Stored(s.rows, key).value)})
    case CommitRow(key, data) =>
      && Addressable(key) && data != []
      && s' == s.(rows := s.rows[LocationOf(key) := data], pending := s.pending + {(key, data)}, log := s.log + {(key, data)})
    case FillCache(key, data, now) =>
      (key, data) in s.pending && s' == s.(cache := Admit(s.cache, key, data, now, limits))
    case ForgetTask(key, data) => s' == s.(pending := s.pending - {(key, data)})
    case LoseRows(lost) => s' == s.(rows := s.rows - lost)
    case Forget(keys) => s' == s.(cache := Drop(s.cache, keys))
  }

  /** The value was committed for a tile that shares its row with `key`. */
  ghost predicate Vouched(log: set<(TileKey, Bytes)>, key: TileKey, data: Bytes) {
    Addressable(key) && data != [] && exists k :: Addressable(k) && Alias(k, key) && (k, data) in log
  }

  ghost predicate SlotsLogged(cache: seq<Slot>, log: set<(TileKey, Bytes)>) {
    forall slot :: slot in cache ==> Vouched(log, slot.key, slot.data)
  }

  ghost predicate CacheLogged(s: Shared) { Distinct(s.cache) && SlotsLogged(s.cache, s.log) }

  ghost predicate PendingLogged(s: Shared) {
    forall p :: p in s.pending ==> Vouched(s.log, p.0, p.1)
  }

  /** Every stored value was committed for a tile that lives at its location. */
  ghost predicate RowsLogged(s: Shared) {
    forall l :: l in s.rows ==> exists key :: Addressable(key) && LocationOf(key) == l && (key, s.rows[l]) in s.log
  }

  ghost predicate Logged(s: Shared) { CacheLogged(s) && PendingLogged(s) && RowsLogged(s) }

  lemma ReadIsLogged(s: Shared, key: TileKey)
    requires RowsLogged(s) && Addressable(key) && Stored(s.rows, key).Some?
    ensures Vouched(s.log, key, Stored(s.rows, key).value)
  {
    hide LocationOf, Addressable, Alias;
    var l := LocationOf(key);
    var owner :| Addressable(owner) && LocationOf(owner) == l && (owner, s.rows[l]) in s.log;
    LocationsShared(owner, key);
  }

  lemma {:induction false} DropMembers(s: seq<Slot>, gone: set<TileKey>)
    ensures forall slot :: slot in Drop(s, gone) ==> slot in s
  {
    if s != [] { DropMembers(s[1..], gone); }
  }

  lemma {:induction false} LookupMember(s: seq<Slot>, key: TileKey)
    requires Lookup(s, key).Some?
    ensures exists slot :: slot in s && slot.key == key && slot.data == Lookup(s, key).value
  {
    if s[0].key != key { LookupMember(s[1..], key); } else { assert s[0] in s; }
  }

  lemma DropLogged(cache: seq<Slot>, gone: set<TileKey>, log: set<(TileKey, Bytes)>)
    requires Distinct(cache) && SlotsLogged(cache, log)
    ensures Distinct(Drop(cache, gone)) && SlotsLogged(Drop(cache, gone), log)
  {
    hide Vouched;
    DropKeys(cache, gone);
    DropMembers(cache, gone);
  }

  lemma AddLogged(cache: seq<Slot>, slot: Slot, log: set<(TileKey, Bytes)>)
    requires Distinct(cache) && SlotsLogged(cache, log) && Vouched(log, slot.key, slot.data)
    ensures Distinct(Drop(cache, {slot.key}) + [slot]) && SlotsLogged(Drop(cache, {slot.key}) + [slot], log)
  {
    hide Vouched;
    DropLogged(cache, {slot.key}, log);
    Renew(cache, slot);
  }

  lemma FillLogged(cache: seq<Slot>, key: TileKey, data: Bytes, now: nat, limits: Limits, log: set<(TileKey, Bytes)>)
    requires Distinct(cache) && SlotsLogged(cache, log) && Vouched(log, key, data)
    ensures Distinct(Admit(cache, key, data, now, limits)) && SlotsLogged(Admit(cache, key, data, now, limits), log)
  {
    hide Vouched;
    AddLogged(cache, Slot(key, data, now), log);
    var t := Drop(cache, {key}) + [Slot(key, data, now)];
    FitKeeps(t, limits.capacity);
    var cut := FitIsLongestSuffix(t, limits.capacity);
    assert forall slot :: slot in t[cut..] ==> slot in t;
  }

  lemma EventKeeps(s: Shared, e: Event, limits: Limits, s': Shared)
    requires Logged(s) && Happens(s, e, limits, s')
    ensures Logged(s')
  {
    if !e.CommitRow? {
      hide RowsLogged, LocationOf, Stored, Distinct, Admit, Addressable, Touch, Drop, Vouched;
      match e
      case Hit(key, now) => HitLogged(s, key, now);
      case ReadRow(key) => ReadIsLogged(s, key);
      case FillCache(key, data, now) => FillLogged(s.cache, key, data, now, limits, s.log);
      case ForgetTask(key, data) =>
      case LoseRows(lost) =>
      case Forget(keys) => DropLogged(s.cache, keys, s.log);
    }
  }

  lemma HitLogged(s: Shared, key: TileKey, now: nat)
    requires CacheLogged(s) && Lookup(s.cache, key).Some?
    ensures Distinct(Touch(s.cache, key, now)) && SlotsLogged(Touch(s.cache, key, now), s.log)
  {
    hide Vouched;
    LookupMember(s.cache, key);
    AddLogged(s.cache, Slot(key, Lookup(s.cache, key).value, now), s.log);
  }

  predicate IsRun(run: seq<Shared>, events: seq<Event>, limits: Limits) {
    && |run| == |events| + 1 && run[0] == Shared([], map[], {}, {})
    && forall i :: 0 <= i < |events| ==> Happens(run[i], events[i], limits, run[i + 1])
  }

  lemma {:induction false} RunLogged(run: seq<Shared>, events: seq<Event>, limits: Limits, i: nat)
    requires IsRun(run, events, limits) && i < |run|
    ensures Logged(run[i])
  {
    if i > 0 {
      hide Happens, Logged;
      RunLogged(run, events, limits, i - 1);
      EventKeeps(run[i - 1], events[i - 1], limits, run[i]);
    }
  }

  /** However reads, writes and drops interleave, a cached value is not empty and was committed for a tile that shares
      its row: for that very tile, unless a commit was to a crossed layer. */
  lemma CachedWasCommitted(run: seq<Shared>, events: seq<Event>, limits: Limits, i: nat, key: TileKey)
    requires IsRun(run, events, limits) && i < |run| && Lookup(run[i].cache, key).Some?
    ensures Lookup(run[i].cache, key).value != []
    ensures exists j :: 0 <= j < i && events[j].CommitRow? && events[j].data == Lookup(run[i].cache, key).value
                        && Alias(events[j].key, key)
    ensures (forall j :: 0 <= j < i && events[j].CommitRow? && Alias(events[j].key, key) ==> events[j].key == key) ==>
              exists j :: 0 <= j < i && events[j] == CommitRow(key, Lookup(run[i].cache, key).value)
  {
    RunLogged(run, events, limits, i);
    hide IsRun;
    LookupMember(run[i].cache, key);
    var data := Lookup(run[i].cache, key).value;
    assert Vouched(run[i].log, key, data);
    hide Alias, Addressable, CacheLogged, PendingLogged, RowsLogged;
    var owner :| Addressable(owner) && Alias(owner, key) && (owner, data) in run[i].log;
    LogIsHistory(run, events, limits, i, owner, data);
    var j :| 0 <= j < i && events[j] == CommitRow(owner, data);
    assert events[j].key == owner;
  }

  lemma {:induction false} LogIsHistory(
    run: seq<Shared>, events: seq<Event>, limits: Limits, i: nat, key: TileKey, data: Bytes)
    requires IsRun(run, events, limits) && i < |run| && (key, data) in run[i].log
    ensures exists j :: 0 <= j < i && events[j] == CommitRow(key, data)
  {
    assert i > 0;
    assert Happens(run[i - 1], events[i - 1], limits, run[i]);
    if (key, data) in run[i - 1].log {
      LogIsHistory(run, events, limits, i - 1, key, data);
    } else {
      assert events[i - 1] == CommitRow(key, data);
    }
  }
}
