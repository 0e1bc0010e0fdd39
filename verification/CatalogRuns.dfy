/** Runs of puts and catalog flushes: how the incremental catalog relates to a scan of the shards. */
module CatalogRuns {
  import opened Tiles
  import opened Sums
  import opened Layers
  import opened Catalog
  import opened Paths

  /** What puts contribute to a layer: tiles created, their bytes, tiles overwritten. */
  datatype Kind = Creations | NewBytes | Overwritten

  datatype Loss = Loss(creations: int, newBytes: int, overwritten: int)

  const NO_LOSS := Loss(0, 0, 0)

  const NOTHING := Recount(0, 0)

  function Plus(a: Loss, b: Loss): Loss {
    Loss(a.creations + b.creations, a.newBytes + b.newBytes, a.overwritten + b.overwritten)
  }

  type Tables = iset<string>

  ghost const ALL: Tables := iset t: string | true

  /** The table of a tile within its layer, and the name of its zoom directory. */
  function TableOf(c: Coord): string {
    if OnGrid(c) then TableName(c.z, c.x, c.y) else ""
  }

  function ZoomDirectory(c: Coord): string {
    if OnGrid(c) then [ZoomLetter(Max(c.z, 9))] else ""
  }

  function Dir(k: LayerKey): Path { ItemDirectory(k.database, k.item) }

  /** How far the reading back of a layer's row has come: the directory it reads, the tables accounted for, their counts
      and bytes when they were read, and of the puts to each of them the creations that were waiting at that moment, and
      since then the puts that will not reach the row and the growth of overwritten tiles. */
  datatype Reading = Reading(directory: Path, tables: Tables, sum: Recount, lag: Recount, missed: Loss, drift: int)

  datatype Flight = Flight(batch: seq<CatalogPut>, readings: map<LayerKey, Reading>)

  /** `tiles` is what the shards below each item directory hold. `waiting` are the committed puts no flush has taken yet,
      in the order flushes will take them; a committed put may overtake others on its way into the queue, so it may enter
      anywhere. The rest is history, by layer. Since the last recalculation of the layer's row: `lag`, the creations that
      were waiting when it read their tables; `lost`, the puts into the layer's directory that will never reach the row;
      `drift`, by how much overwritten tiles grew. Ever: `missing`, the coordinates of lost puts; `folded`, those written
      to the row. The rows of `spoiled` layers were last recalculated from another directory. */
  datatype World = World(
    tiles: map<Path, map<Coord, nat>>, waiting: seq<CatalogPut>, flight: Option<Flight>, catalog: Catalog,
    lag: map<LayerKey, Recount>, lost: map<LayerKey, Loss>, drift: map<LayerKey, int>,
    missing: map<LayerKey, set<Coord>>, folded: map<LayerKey, set<Coord>>, spoiled: set<LayerKey>)

  function TilesIn(tiles: map<Path, map<Coord, nat>>, directory: Path): map<Coord, nat> {
    if directory in tiles then tiles[directory] else map[]
  }

  function TilesOf(w: World, k: LayerKey): map<Coord, nat> { TilesIn(w.tiles, Dir(k)) }

  function LagOf(lag: map<LayerKey, Recount>, k: LayerKey): Recount { if k in lag then lag[k] else NOTHING }

  function LostOf(lost: map<LayerKey, Loss>, k: LayerKey): Loss { if k in lost then lost[k] else NO_LOSS }

  function DriftOf(drift: map<LayerKey, int>, k: LayerKey): int { if k in drift then drift[k] else 0 }

  function CoordsOf(coords: map<LayerKey, set<Coord>>, k: LayerKey): set<Coord> { if k in coords then coords[k] else {} }

  function Batch(w: World): seq<CatalogPut> { if w.flight.Some? then w.flight.value.batch else [] }

  function Contribution(put: CatalogPut, kind: Kind): int {
    match kind
    case Creations => if put.outcome.created then 1 else 0
    case NewBytes => if put.outcome.created then put.bytes else 0
    case Overwritten => if put.outcome.created then 0 else 1
  }

  ghost function AmountOfOne(put: CatalogPut, k: LayerKey, tables: Tables, kind: Kind): int {
    if put.layer == k && TableOf(put.at) in tables then Contribution(put, kind) else 0
  }

  /** What some puts contribute to some tables of a layer. */
  ghost function Amount(puts: seq<CatalogPut>, k: LayerKey, tables: Tables, kind: Kind): int {
    if puts == [] then 0
    else Amount(puts[..|puts| - 1], k, tables, kind) + AmountOfOne(puts[|puts| - 1], k, tables, kind)
  }

  ghost function Created(puts: seq<CatalogPut>, k: LayerKey, tables: Tables): Recount {
    Recount(Amount(puts, k, tables, Creations), Amount(puts, k, tables, NewBytes))
  }

  /** The tiles of some tables. */
  ghost function Within(tiles: map<Coord, nat>, tables: Tables): map<Coord, nat> {
    map c | c in tiles && TableOf(c) in tables :: tiles[c]
  }

  ghost function Held(tiles: map<Coord, nat>, tables: Tables): Recount {
    Recount(|Within(tiles, tables)|, Total(Within(tiles, tables)))
  }

  function Coords(puts: seq<CatalogPut>, k: LayerKey): set<Coord> {
    if puts == [] then {}
    else
      var n := |puts| - 1;
      Coords(puts[..n], k) + if puts[n].layer == k then {puts[n].at} else {}
  }

  /** Databases that a batch overwrote tiles in: their directories are walked. */
  predicate Dirty(batch: seq<CatalogPut>, database: string) {
    exists i :: 0 <= i < |batch| && batch[i].outcome.requiresRecalculation && batch[i].layer.database == database
  }

  // Steps

  /** `position` is where a committed put enters the queue; None if its outcome is discarded or does not get there. */
  datatype Step =
    | Commit(put: CatalogPut, position: Option<nat>)
    | Take(count: nat)
    | Open(layer: LayerKey, first: string, second: string)
    | Skip(layer: LayerKey, tables: Tables)
    | ReadTable(layer: LayerKey, table: string)
    | Finish(deltas: map<string, Delta>)
    | Fail

  /** A put is committed to its shard: it creates a tile or overwrites one, and its data is not empty. */
  predicate Stores(w: World, put: CatalogPut, tiles: map<Path, map<Coord, nat>>) {
    && put.bytes > 0
    && put.outcome.created == (put.at !in TilesOf(w, put.layer))
    && put.outcome.requiresRecalculation == !put.outcome.created
    && tiles == w.tiles[Dir(put.layer) := TilesOf(w, put.layer)[put.at := put.bytes]]
  }

  /** The put changes the layer's shards. */
  predicate Hits(put: CatalogPut, k: LayerKey) { Dir(put.layer) == Dir(k) }

  /** The put changes the layer's shards without ever reaching its row: it is not queued, or it is queued for the layer
      that is crossed with this one. */
  predicate Bypasses(put: CatalogPut, queued: bool, k: LayerKey) { Hits(put, k) && !(queued && put.layer == k) }

  function Whole(put: CatalogPut): Loss {
    Loss(Contribution(put, Creations), Contribution(put, NewBytes), Contribution(put, Overwritten))
  }

  ghost function LostPart(put: CatalogPut, queued: bool, k: LayerKey, tables: Tables): Loss {
    if Bypasses(put, queued, k) && TableOf(put.at) in tables then Whole(put) else NO_LOSS
  }

  ghost function OwnPart(put: CatalogPut, queued: bool, k: LayerKey, tables: Tables): Loss {
    if queued && put.layer == k && TableOf(put.at) in tables then Whole(put) else NO_LOSS
  }

  ghost function BatchPart(batch: seq<CatalogPut>, k: LayerKey): Loss {
    Loss(Amount(batch, k, ALL, Creations), Amount(batch, k, ALL, NewBytes), Amount(batch, k, ALL, Overwritten))
  }

  /** By how much an overwrite makes its tile grow. */
  ghost function Growth(w: World, put: CatalogPut, k: LayerKey, tables: Tables): int {
    if Hits(put, k) && TableOf(put.at) in tables && put.at in TilesOf(w, k) then put.bytes - TilesOf(w, k)[put.at] else 0
  }

  ghost predicate ReadingAfter(w: World, put: CatalogPut, queued: bool, k: LayerKey, r: Reading, r': Reading) {
    r' == r.(missed := Plus(r.missed, LostPart(put, queued, k, r.tables)), drift := r.drift + Growth(w, put, k, r.tables))
  }

  ghost predicate Committed(w: World, put: CatalogPut, position: Option<nat>, w': World) {
    var queued := position.Some?;
    && Stores(w, put, w'.tiles)
    && w' == w.(tiles := w'.tiles, waiting := w'.waiting, flight := w'.flight, lost := w'.lost, drift := w'.drift,
                missing := w'.missing)
    && (if queued then position.value <= |w.waiting| && w'.waiting == InsertAt(w.waiting, put, position.value)
        else w'.waiting == w.waiting)
    && (forall k :: LostOf(w'.lost, k) == Plus(LostOf(w.lost, k), LostPart(put, queued, k, ALL)))
    && (forall k :: DriftOf(w'.drift, k) == DriftOf(w.drift, k) + Growth(w, put, k, ALL))
    && (forall k :: CoordsOf(w'.missing, k) == CoordsOf(w.missing, k) + if Bypasses(put, queued, k) then {put.at} else {})
    && (w.flight.None? ==> w'.flight.None?)
    && (w.flight.Some? ==>
          && w'.flight.Some? && w'.flight.value.batch == w.flight.value.batch
          && w'.flight.value.readings.Keys == w.flight.value.readings.Keys
          && forall k :: k in w.flight.value.readings ==>
               ReadingAfter(w, put, queued, k, w.flight.value.readings[k], w'.flight.value.readings[k]))
  }

  predicate Taken(w: World, count: nat, w': World) {
    && w.flight.None? && 0 < count <= |w.waiting|
    && w' == w.(flight := Some(Flight(w.waiting[..count], map[])), waiting := w.waiting[count..])
  }

  ghost predicate SetsReading(w: World, k: LayerKey, r: Reading, w': World) {
    && w.flight.Some? && Dirty(w.flight.value.batch, k.database)
    && w' == w.(flight := Some(w.flight.value.(readings := w.flight.value.readings[k := r])))
  }

  /** A directory that the walk can see: one on the way to a zoom directory. An item's directories can be there without
      a tile. */
  ghost predicate Seen(tiles: map<Path, map<Coord, nat>>, directory: Path) {
    exists d, c :: d in tiles && OnGrid(c) && Under(directory, d + [ZoomDirectory(c)])
  }

  /** The walk of the database meets two levels whose names joined are the layer's item: its own directory if the item is
      longer than four characters, but it can be another. */
  ghost predicate Opened(w: World, k: LayerKey, first: string, second: string, w': World) {
    var directory := DatabaseDirectory(k.database) + [first, second];
    && first + second == k.item && Seen(w.tiles, directory)
    && SetsReading(w, k, Reading(directory, iset{}, NOTHING, NOTHING, NO_LOSS, 0), w')
  }

  /** The listing of a shard file, or of the shard files, does not show some tables: they do not exist yet. */
  ghost predicate Skipped(w: World, k: LayerKey, tables: Tables, w': World) {
    && w.flight.Some? && k in w.flight.value.readings
    && var r := w.flight.value.readings[k];
       && r.tables !! tables && Within(TilesIn(w.tiles, r.directory), tables) == map[]
       && SetsReading(w, k, r.(tables := r.tables + tables), w')
  }

  /** One query counts one table. */
  ghost predicate TableRead(w: World, k: LayerKey, table: string, w': World) {
    && w.flight.Some? && k in w.flight.value.readings
    && var r := w.flight.value.readings[k];
       && table !in r.tables
       && SetsReading(
            w, k, ReadOn(r, table, Held(TilesIn(w.tiles, r.directory), iset{table}), Created(w.waiting, k, iset{table})), w')
  }

  ghost function ReadOn(r: Reading, table: string, held: Recount, waiting: Recount): Reading {
    r.(tables := r.tables + iset{table},
       sum := Recount(r.sum.tileCount + held.tileCount, r.sum.bytes + held.bytes),
       lag := Recount(r.lag.tileCount + waiting.tileCount, r.lag.bytes + waiting.bytes))
  }

  function Recalculated(f: Flight): map<LayerKey, Recount> {
    map k | k in f.readings :: f.readings[k].sum
  }

  predicate Replaces(f: Flight, k: LayerKey) { k in Touched(f.batch) && k in f.readings }

  /** The flush commits. Every layer it read back was read back wholly. The walk meets the directory of every touched
      layer whose item is longer than four characters; it may or may not meet another whose levels join to a short one. */
  ghost predicate Finished(w: World, deltas: map<string, Delta>, w': World) {
    && w.flight.Some?
    && var f := w.flight.value;
       && (forall k :: k in Touched(f.batch) && Dirty(f.batch, k.database) && LongId(k.item) ==> k in f.readings)
       && (forall k :: k in f.readings ==> f.readings[k].tables == ALL)
       && Written(w.catalog, f.batch, Recalculated(f), w'.catalog, deltas)
       && w'.tiles == w.tiles && w'.waiting == w.waiting && w'.flight == None && w'.missing == w.missing
       && (forall k :: LagOf(w'.lag, k) == if Replaces(f, k) then f.readings[k].lag else LagOf(w.lag, k))
       && (forall k :: LostOf(w'.lost, k) == if Replaces(f, k) then f.readings[k].missed else LostOf(w.lost, k))
       && (forall k :: DriftOf(w'.drift, k) == if Replaces(f, k) then f.readings[k].drift else DriftOf(w.drift, k))
       && (forall k :: k in w'.spoiled <==> if Replaces(f, k) then f.readings[k].directory != Dir(k) else k in w.spoiled)
       && (forall k :: CoordsOf(w'.folded, k) == CoordsOf(w.folded, k) + Coords(f.batch, k))
  }

  /** The flush fails, at any moment: its batch is lost. */
  ghost predicate Failed(w: World, w': World) {
    && w.flight.Some?
    && var batch := w.flight.value.batch;
       && w' == w.(flight := None, lost := w'.lost, missing := w'.missing)
       && (forall k :: LostOf(w'.lost, k) == Plus(LostOf(w.lost, k), BatchPart(batch, k)))
       && (forall k :: CoordsOf(w'.missing, k) == CoordsOf(w.missing, k) + Coords(batch, k))
  }

  ghost predicate Next(w: World, step: Step, w': World) {
    match step
    case Commit(put, position) => Committed(w, put, position, w')
    case Take(count) => Taken(w, count, w')
    case Open(layer, first, second) => Opened(w, layer, first, second, w')
    case Skip(layer, tables) => Skipped(w, layer, tables, w')
    case ReadTable(layer, table) => TableRead(w, layer, table, w')
    case Finish(deltas) => Finished(w, deltas, w')
    case Fail => Failed(w, w')
  }

  // The accounts of one layer

  function Row(w: World, k: LayerKey): Draft { Start(w.catalog.layers, k) }

  /** What the catalog has, what the shards hold, what is waiting, taken by a flush or lost, the lag and the drift. */
  datatype Ledger = Ledger(
    have: Recount, truth: Recount, waiting: Recount, waitingOver: int, taken: Recount, takenOver: int, lost: Loss,
    lag: Recount, drift: int)

  ghost function LedgerOf(w: World, k: LayerKey): Ledger {
    Ledger(
      Recount(Row(w, k).tileCount, Row(w, k).bytes), Recount(|TilesOf(w, k)|, Total(TilesOf(w, k))),
      Created(w.waiting, k, ALL), Amount(w.waiting, k, ALL, Overwritten),
      Created(Batch(w), k, ALL), Amount(Batch(w), k, ALL, Overwritten), LostOf(w.lost, k), LagOf(w.lag, k),
      DriftOf(w.drift, k))
  }

  predicate Sane(r: Recount) { r.tileCount >= 0 && r.bytes >= 0 && (r.tileCount == 0 <==> r.bytes == 0) }

  predicate LossSane(loss: Loss) { Sane(Recount(loss.creations, loss.newBytes)) && loss.overwritten >= 0 }

  /** Catalog, queue and losses together exceed the truth by the lag, and miss of the bytes the drift. A layer whose item
      is longer than four characters has no drift unless an overwrite is pending or lost; any other has no lag. */
  predicate Balanced(l: Ledger, long: bool) {
    && Sane(l.lag) && Sane(l.waiting) && Sane(l.taken) && l.waitingOver >= 0 && l.takenOver >= 0 && LossSane(l.lost)
    && l.have.tileCount + l.waiting.tileCount + l.taken.tileCount + l.lost.creations == l.truth.tileCount + l.lag.tileCount
    && l.have.bytes + l.waiting.bytes + l.taken.bytes + l.lost.newBytes + l.drift == l.truth.bytes + l.lag.bytes
    && if long then l.waitingOver + l.takenOver + l.lost.overwritten == 0 ==> l.drift == 0 else l.lag == NOTHING
  }

  /** The same for a reading, over the tables it has accounted for. */
  datatype Readout = Readout(
    sum: Recount, truth: Recount, waiting: Recount, waitingOver: int, missed: Loss, lag: Recount, drift: int)

  ghost function ReadoutOf(w: World, k: LayerKey, r: Reading): Readout {
    Readout(
      r.sum, Held(TilesOf(w, k), r.tables), Created(w.waiting, k, r.tables), Amount(w.waiting, k, r.tables, Overwritten),
      r.missed, r.lag, r.drift)
  }

  predicate ReadoutBalanced(o: Readout) {
    && Sane(o.lag) && Sane(o.waiting) && o.waitingOver >= 0 && LossSane(o.missed)
    && o.sum.tileCount + o.waiting.tileCount + o.missed.creations == o.truth.tileCount + o.lag.tileCount
    && o.sum.bytes + o.waiting.bytes + o.missed.newBytes + o.drift == o.truth.bytes + o.lag.bytes
    && (o.waitingOver + o.missed.overwritten == 0 ==> o.drift == 0)
  }

  ghost predicate ReadingHolds(w: World, k: LayerKey) {
    w.flight.Some? && k in w.flight.value.readings ==>
      && Dirty(w.flight.value.batch, k.database)
      && (w.flight.value.readings[k].directory == Dir(k) ==>
            LongId(k.item) && ReadoutBalanced(ReadoutOf(w, k, w.flight.value.readings[k])))
  }

  /** The coordinates written so far explain the row's range, and the pending and missing ones complete them. */
  ghost predicate RangeHolds(w: World, k: LayerKey) {
    && Describes(CoordsOf(w.folded, k), Row(w, k).range)
    && CoordsOf(w.folded, k) + CoordsOf(w.missing, k) + Coords(w.waiting, k) + Coords(Batch(w), k) == TilesOf(w, k).Keys
  }

  /** Every put is not empty and asks for a recalculation exactly when it overwrote a tile. */
  predicate PutsSane(puts: seq<CatalogPut>) {
    forall i :: 0 <= i < |puts| ==>
                  puts[i].bytes > 0 && puts[i].outcome.requiresRecalculation == !puts[i].outcome.created
  }

  predicate WorldSane(w: World) { PutsSane(w.waiting) && PutsSane(Batch(w)) }

  ghost predicate LedgerHolds(w: World, k: LayerKey) { k !in w.spoiled ==> Balanced(LedgerOf(w, k), LongId(k.item)) }

  ghost predicate Holds(w: World, k: LayerKey) {
    WorldSane(w) && LedgerHolds(w, k) && ReadingHolds(w, k) && RangeHolds(w, k)
  }

  // Sequences of puts

  lemma {:induction false} AmountConcat(a: seq<CatalogPut>, b: seq<CatalogPut>, k: LayerKey, tables: Tables, kind: Kind)
    ensures Amount(a + b, k, tables, kind) == Amount(a, k, tables, kind) + Amount(b, k, tables, kind)
  {
    hide AmountOfOne;
    if b == [] {
      assert a + b == a;
    } else {
      assert (a + b)[..|a + b| - 1] == a + b[..|b| - 1];
      AmountConcat(a, b[..|b| - 1], k, tables, kind);
    }
  }

  lemma {:induction false} CoordsConcat(a: seq<CatalogPut>, b: seq<CatalogPut>, k: LayerKey)
    ensures Coords(a + b, k) == Coords(a, k) + Coords(b, k)
  {
    if b == [] {
      assert a + b == a;
    } else {
      assert (a + b)[..|a + b| - 1] == a + b[..|b| - 1];
      CoordsConcat(a, b[..|b| - 1], k);
    }
  }

  function InsertAt(puts: seq<CatalogPut>, put: CatalogPut, position: nat): seq<CatalogPut>
    requires position <= |puts|
  {
    puts[..position] + [put] + puts[position..]
  }

  lemma OfSingle(put: CatalogPut, k: LayerKey, tables: Tables, kind: Kind)
    ensures Amount([put], k, tables, kind) == AmountOfOne(put, k, tables, kind)
    ensures Coords([put], k) == if put.layer == k then {put.at} else {}
  {
    assert [put][..0] == [];
  }

  /** Inserting a put anywhere adds what it contributes. */
  lemma InsertedAmount(puts: seq<CatalogPut>, put: CatalogPut, position: nat, k: LayerKey, tables: Tables, kind: Kind)
    requires position <= |puts|
    ensures Amount(InsertAt(puts, put, position), k, tables, kind) ==
            Amount(puts, k, tables, kind) + AmountOfOne(put, k, tables, kind)
  {
    hide Amount, AmountOfOne;
    var a, b := puts[..position], puts[position..];
    AmountConcat(a, b, k, tables, kind);
    AmountConcat(a + [put], b, k, tables, kind);
    AmountConcat(a, [put], k, tables, kind);
    OfSingle(put, k, tables, kind);
    assert a + b == puts;
  }

  lemma InsertedCoords(puts: seq<CatalogPut>, put: CatalogPut, position: nat, k: LayerKey)
    requires position <= |puts|
    ensures Coords(InsertAt(puts, put, position), k) == Coords(puts, k) + if put.layer == k then {put.at} else {}
  {
    hide Coords;
    var a, b := puts[..position], puts[position..];
    CoordsConcat(a, b, k);
    CoordsConcat(a + [put], b, k);
    CoordsConcat(a, [put], k);
    OfSingle(put, k, ALL, Creations);
    assert a + b == puts;
  }

  lemma {:induction false} CreatedSane(puts: seq<CatalogPut>, k: LayerKey, tables: Tables)
    requires PutsSane(puts)
    ensures Sane(Created(puts, k, tables)) && Amount(puts, k, tables, Overwritten) >= 0
  {
    hide TableOf;
    if puts != [] { CreatedSane(puts[..|puts| - 1], k, tables); }
  }

  /** Amounts over disjoint tables add up. */
  lemma {:induction false} AmountUnion(puts: seq<CatalogPut>, k: LayerKey, s: Tables, t: Tables, kind: Kind)
    requires s !! t
    ensures Amount(puts, k, s + t, kind) == Amount(puts, k, s, kind) + Amount(puts, k, t, kind)
  {
    hide TableOf;
    if puts != [] { AmountUnion(puts[..|puts| - 1], k, s, t, kind); }
  }

  /** Puts whose coordinates are all stored touch no table without tiles. */
  lemma {:induction false} AmountNone(puts: seq<CatalogPut>, k: LayerKey, tables: Tables, tiles: map<Coord, nat>, kind: Kind)
    requires Coords(puts, k) <= tiles.Keys && Within(tiles, tables) == map[]
    ensures Amount(puts, k, tables, kind) == 0
  {
    if puts != [] {
      var n := |puts| - 1;
      AmountNone(puts[..n], k, tables, tiles, kind);
      if puts[n].layer == k { NotWithin(tiles, tables, puts[n].at); }
    }
  }

  lemma NotWithin(tiles: map<Coord, nat>, tables: Tables, c: Coord)
    requires Within(tiles, tables) == map[] && c in tiles
    ensures TableOf(c) !in tables
  {
    assert c in Within(tiles, tables) <==> TableOf(c) in tables;
  }

  lemma {:induction false} FoldCounts(d: Draft, batch: seq<CatalogPut>, k: LayerKey)
    ensures var f := FoldAll(d, Of(batch, k));
            && f.tileCount == d.tileCount + Amount(batch, k, ALL, Creations)
            && f.bytes == d.bytes + Amount(batch, k, ALL, NewBytes)
  {
    hide Extend, Or, TableOf;
    if batch != [] {
      var n := |batch| - 1;
      FoldCounts(d, batch[..n], k);
      var o := Of(batch[..n], k);
      if batch[n].layer == k {
        assert (o + [batch[n]])[..|o|] == o;
        assert FoldAll(d, Of(batch, k)) == FoldPut(FoldAll(d, o), batch[n]);
      } else {
        assert o + [] == o;
      }
    }
  }

  /** Folding a layer's share of a batch describes its coordinates too. */
  lemma {:induction false} FoldDescribes(d: Draft, batch: seq<CatalogPut>, k: LayerKey, tiles: set<Coord>)
    requires Describes(tiles, d.range)
    ensures Describes(tiles + Coords(batch, k), FoldAll(d, Of(batch, k)).range)
  {
    hide Describes, Extend;
    if batch == [] {
      assert tiles + {} == tiles;
    } else {
      var n := |batch| - 1;
      FoldDescribes(d, batch[..n], k, tiles);
      var o := Of(batch[..n], k);
      assert (o + [batch[n]])[..|o|] == o && o + [] == o;
      var t := tiles + Coords(batch[..n], k);
      if batch[n].layer == k {
        ExtendDescribes(t, FoldAll(d, o).range, batch[n].at);
        assert tiles + Coords(batch, k) == t + {batch[n].at};
      } else {
        assert tiles + Coords(batch, k) == t;
      }
    }
  }

  lemma {:induction false} Elsewhere(batch: seq<CatalogPut>, k: LayerKey)
    requires forall i :: 0 <= i < |batch| ==> batch[i].layer != k
    ensures Coords(batch, k) == {} && forall tables, kind :: Amount(batch, k, tables, kind) == 0
  {
    if batch != [] {
      var n := |batch| - 1;
      Elsewhere(batch[..n], k);
    }
  }

  lemma Untouched(batch: seq<CatalogPut>, k: LayerKey)
    requires k !in Touched(batch)
    ensures Coords(batch, k) == {} && forall tables, kind :: Amount(batch, k, tables, kind) == 0
  {
    hide Amount, Coords;
    assert forall i :: 0 <= i < |batch| ==> batch[i] in batch;
    Elsewhere(batch, k);
  }

  lemma {:induction false} OverwriteDirties(batch: seq<CatalogPut>, k: LayerKey)
    requires PutsSane(batch) && Amount(batch, k, ALL, Overwritten) > 0
    ensures Dirty(batch, k.database) && k in Touched(batch)
  {
    var n := |batch| - 1;
    assert batch[n] in batch;
    if Amount(batch[..n], k, ALL, Overwritten) > 0 {
      OverwriteDirties(batch[..n], k);
      assert forall put :: put in batch[..n] ==> put in batch;
    }
  }

  // Tiles by table

  lemma WithinAll(tiles: map<Coord, nat>)
    ensures Within(tiles, ALL) == tiles
  {
  }

  lemma TileAdded(tiles: map<Coord, nat>, at: Coord, bytes: nat)
    ensures |tiles[at := bytes]| == |tiles| + (if at in tiles then 0 else 1)
    ensures Total(tiles[at := bytes]) == Total(tiles) + bytes - (if at in tiles then tiles[at] else 0)
    ensures tiles[at := bytes].Keys == tiles.Keys + {at}
  {
    TotalUpdate(tiles, at, bytes);
    assert tiles[at := bytes].Keys == tiles.Keys + {at};
  }

  lemma HeldAfter(tiles: map<Coord, nat>, at: Coord, bytes: nat, tables: Tables)
    ensures TableOf(at) !in tables ==> Held(tiles[at := bytes], tables) == Held(tiles, tables)
    ensures TableOf(at) in tables ==>
              && Held(tiles[at := bytes], tables).tileCount == Held(tiles, tables).tileCount + (if at in tiles then 0 else 1)
              && Held(tiles[at := bytes], tables).bytes ==
                 Held(tiles, tables).bytes + bytes - (if at in tiles then tiles[at] else 0)
  {
    var before, after := Within(tiles, tables), Within(tiles[at := bytes], tables);
    if TableOf(at) in tables {
      assert after == before[at := bytes];
      assert at in before <==> at in tiles;
      TileAdded(before, at, bytes);
    } else {
      assert after == before;
    }
  }

  lemma WithinUnion(tiles: map<Coord, nat>, s: Tables, t: Tables)
    requires s !! t
    ensures Within(tiles, s).Keys !! Within(tiles, t).Keys
    ensures Within(tiles, s + t) == Within(tiles, s) + Within(tiles, t)
  {
    hide TableOf;
  }

  lemma HeldUnion(tiles: map<Coord, nat>, s: Tables, t: Tables)
    requires s !! t
    ensures Held(tiles, s + t).tileCount == Held(tiles, s).tileCount + Held(tiles, t).tileCount
    ensures Held(tiles, s + t).bytes == Held(tiles, s).bytes + Held(tiles, t).bytes
  {
    hide Within, Total;
    WithinUnion(tiles, s, t);
    UnionCount(Within(tiles, s), Within(tiles, t));
    TotalUnion(Within(tiles, s), Within(tiles, t));
  }

  // A put is committed

  lemma WholeSane(put: CatalogPut)
    requires put.bytes > 0
    ensures LossSane(Whole(put))
  {
  }

  lemma StoredTiles(w: World, put: CatalogPut, w': World, k: LayerKey)
    requires Stores(w, put, w'.tiles)
    ensures TilesOf(w', k) == if Hits(put, k) then TilesOf(w, k)[put.at := put.bytes] else TilesOf(w, k)
    ensures Hits(put, k) ==> (put.outcome.created <==> put.at !in TilesOf(w, k))
    ensures put.bytes > 0
  {
    hide Dir;
  }

  /** What storing a put changes in the shards, seen through some tables of a layer. */
  lemma StoredIn(w: World, put: CatalogPut, w': World, k: LayerKey, tables: Tables, queued: bool)
    requires Stores(w, put, w'.tiles)
    ensures var h, h' := Held(TilesOf(w, k), tables), Held(TilesOf(w', k), tables);
            var own, lost := OwnPart(put, queued, k, tables), LostPart(put, queued, k, tables);
            && h'.tileCount == h.tileCount + own.creations + lost.creations
            && h'.bytes == h.bytes + own.newBytes + lost.newBytes + Growth(w, put, k, tables)
            && (Growth(w, put, k, tables) != 0 ==> own.overwritten + lost.overwritten > 0)
            && LossSane(own) && LossSane(lost)
    ensures TilesOf(w', k).Keys == TilesOf(w, k).Keys + if Hits(put, k) then {put.at} else {}
  {
    StoredTiles(w, put, w', k);
    SameHits(put, k);
    hide Stores, TilesOf, Held, TableOf, Hits;
    WholeSane(put);
    if Hits(put, k) {
      HeldAfter(TilesOf(w, k), put.at, put.bytes, tables);
      TileAdded(TilesOf(w, k), put.at, put.bytes);
    }
  }

  lemma SameHits(put: CatalogPut, k: LayerKey)
    ensures put.layer == k ==> Hits(put, k)
  {
    hide Dir;
  }

  /** What a committed put leaves of the rest of the world, for one layer. */
  lemma CommittedAt(w: World, put: CatalogPut, position: Option<nat>, w': World, k: LayerKey)
    requires Committed(w, put, position, w')
    ensures Stores(w, put, w'.tiles)
    ensures w'.catalog == w.catalog && w'.lag == w.lag && w'.folded == w.folded && w'.spoiled == w.spoiled && Batch(w') == Batch(w)
    ensures if position.Some? then position.value <= |w.waiting| && w'.waiting == InsertAt(w.waiting, put, position.value)
            else w'.waiting == w.waiting
    ensures LostOf(w'.lost, k) == Plus(LostOf(w.lost, k), LostPart(put, position.Some?, k, ALL))
    ensures DriftOf(w'.drift, k) == DriftOf(w.drift, k) + Growth(w, put, k, ALL)
    ensures CoordsOf(w'.missing, k) == CoordsOf(w.missing, k) + if Bypasses(put, position.Some?, k) then {put.at} else {}
    ensures w.flight.Some? <==> w'.flight.Some?
    ensures w.flight.Some? ==>
              && w'.flight.value.batch == w.flight.value.batch
              && (k in w'.flight.value.readings <==> k in w.flight.value.readings)
              && (k in w.flight.value.readings ==>
                    ReadingAfter(w, put, position.Some?, k, w.flight.value.readings[k], w'.flight.value.readings[k]))
  {
    hide Stores, LostPart, Growth, ReadingAfter, LostOf, DriftOf, CoordsOf, Bypasses, InsertAt, Plus;
  }

  lemma OwnAmounts(puts: seq<CatalogPut>, put: CatalogPut, position: Option<nat>, puts': seq<CatalogPut>, k: LayerKey, tables: Tables)
    requires if position.Some? then position.value <= |puts| && puts' == InsertAt(puts, put, position.value) else puts' == puts
    ensures var own := OwnPart(put, position.Some?, k, tables);
            && Amount(puts', k, tables, Creations) == Amount(puts, k, tables, Creations) + own.creations
            && Amount(puts', k, tables, NewBytes) == Amount(puts, k, tables, NewBytes) + own.newBytes
            && Amount(puts', k, tables, Overwritten) == Amount(puts, k, tables, Overwritten) + own.overwritten
  {
    if position.Some? {
      InsertedAmount(puts, put, position.value, k, tables, Creations);
      InsertedAmount(puts, put, position.value, k, tables, NewBytes);
      InsertedAmount(puts, put, position.value, k, tables, Overwritten);
    }
    hide Amount, InsertAt, TableOf;
  }

  /** Balance when a put is stored: it joins the waiting puts or the lost ones. */
  lemma BalanceStored(l: Ledger, l': Ledger, own: Loss, lost: Loss, growth: int, long: bool)
    requires Balanced(l, long) && LossSane(own) && LossSane(lost) && (growth != 0 ==> own.overwritten + lost.overwritten > 0)
    requires l'.have == l.have && l'.taken == l.taken && l'.takenOver == l.takenOver && l'.lag == l.lag
    requires l'.truth.tileCount == l.truth.tileCount + own.creations + lost.creations
    requires l'.truth.bytes == l.truth.bytes + own.newBytes + lost.newBytes + growth
    requires l'.waiting == Recount(l.waiting.tileCount + own.creations, l.waiting.bytes + own.newBytes)
    requires l'.waitingOver == l.waitingOver + own.overwritten
    requires l'.lost == Plus(l.lost, lost) && l'.drift == l.drift + growth
    ensures Balanced(l', long)
  {
  }

  lemma CommitLedger(w: World, put: CatalogPut, position: Option<nat>, w': World, k: LayerKey)
    requires Committed(w, put, position, w') && LedgerHolds(w, k)
    ensures LedgerHolds(w', k)
  {
    hide Committed, Amount, Total, Start, Stores, Balanced, TilesOf, LostOf, LagOf, DriftOf, Batch, OwnPart, LostPart, Growth,
      Within, InsertAt, Bypasses, CoordsOf, Plus, ReadingAfter, Hits;
    CommittedAt(w, put, position, w', k);
    if k !in w.spoiled {
      StoredIn(w, put, w', k, ALL, position.Some?);
      WithinAll(TilesOf(w, k));
      WithinAll(TilesOf(w', k));
      OwnAmounts(w.waiting, put, position, w'.waiting, k, ALL);
      BalanceStored(
        LedgerOf(w, k), LedgerOf(w', k), OwnPart(put, position.Some?, k, ALL), LostPart(put, position.Some?, k, ALL),
        Growth(w, put, k, ALL), LongId(k.item));
    }
  }

  /** The same for a reading. */
  lemma ReadoutStored(o: Readout, o': Readout, own: Loss, lost: Loss, growth: int)
    requires ReadoutBalanced(o) && LossSane(own) && LossSane(lost) && (growth != 0 ==> own.overwritten + lost.overwritten > 0)
    requires o'.sum == o.sum && o'.lag == o.lag
    requires o'.truth.tileCount == o.truth.tileCount + own.creations + lost.creations
    requires o'.truth.bytes == o.truth.bytes + own.newBytes + lost.newBytes + growth
    requires o'.waiting == Recount(o.waiting.tileCount + own.creations, o.waiting.bytes + own.newBytes)
    requires o'.waitingOver == o.waitingOver + own.overwritten
    requires o'.missed == Plus(o.missed, lost) && o'.drift == o.drift + growth
    ensures ReadoutBalanced(o')
  {
  }

  lemma CommitReading(w: World, put: CatalogPut, position: Option<nat>, w': World, k: LayerKey)
    requires Committed(w, put, position, w') && ReadingHolds(w, k)
    ensures ReadingHolds(w', k)
  {
    hide Committed, Amount, Held, Stores, ReadoutBalanced, TilesOf, OwnPart, LostPart, Growth, Dirty, InsertAt, Bypasses,
      CoordsOf, LostOf, DriftOf, Plus, Batch, Hits;
    CommittedAt(w, put, position, w', k);
    if w.flight.Some? && k in w.flight.value.readings {
      var r, r' := w.flight.value.readings[k], w'.flight.value.readings[k];
      if r.directory == Dir(k) {
        StoredIn(w, put, w', k, r.tables, position.Some?);
        OwnAmounts(w.waiting, put, position, w'.waiting, k, r.tables);
        ReadoutStored(
          ReadoutOf(w, k, r), ReadoutOf(w', k, r'), OwnPart(put, position.Some?, k, r.tables),
          LostPart(put, position.Some?, k, r.tables), Growth(w, put, k, r.tables));
      }
    }
  }

  lemma JoinLast(a: set<Coord>, m: set<Coord>, b: set<Coord>, c: set<Coord>, added: set<Coord>)
    ensures a + m + (b + added) + c == a + m + b + c + added
    ensures a + (m + added) + b + c == a + m + b + c + added
  {
  }

  lemma CommitRange(w: World, put: CatalogPut, position: Option<nat>, w': World, k: LayerKey)
    requires Committed(w, put, position, w') && RangeHolds(w, k)
    ensures RangeHolds(w', k)
  {
    hide Committed, Describes, Coords, InsertAt, Start, Stores, OwnPart, LostPart, Growth, Held, CoordsOf, TilesOf, Batch, Hits,
      LostOf, DriftOf, Plus, ReadingAfter;
    CommittedAt(w, put, position, w', k);
    SameHits(put, k);
    StoredIn(w, put, w', k, ALL, position.Some?);
    if position.Some? { InsertedCoords(w.waiting, put, position.value, k); }
    var added := if Hits(put, k) then {put.at} else {};
    JoinLast(CoordsOf(w.folded, k), CoordsOf(w.missing, k), Coords(w.waiting, k), Coords(Batch(w), k), added);
    JoinLast(CoordsOf(w.folded, k), CoordsOf(w.missing, k), Coords(w.waiting, k), Coords(Batch(w), k), {});
  }

  lemma CommitSane(w: World, put: CatalogPut, position: Option<nat>, w': World)
    requires Committed(w, put, position, w') && WorldSane(w)
    ensures WorldSane(w')
  {
    hide LostPart, Growth, ReadingAfter, LostOf, DriftOf, CoordsOf;
  }

  // A flush fails

  lemma FailLedger(w: World, w': World, k: LayerKey)
    requires Failed(w, w') && LedgerHolds(w, k)
    ensures LedgerHolds(w', k)
  {
    NoPuts(k);
    hide Amount, Total, Start, Coords;
  }

  lemma FailRange(w: World, w': World, k: LayerKey)
    requires Failed(w, w') && RangeHolds(w, k)
    ensures RangeHolds(w', k)
  {
    NoPuts(k);
    hide Describes, Coords, Start, BatchPart, LostOf;
    var f, m, a, b := CoordsOf(w.folded, k), CoordsOf(w.missing, k), Coords(w.waiting, k), Coords(Batch(w), k);
    assert f + (m + b) + a + {} == f + m + a + b;
  }

  lemma NoPuts(k: LayerKey)
    ensures Coords([], k) == {}
    ensures forall kind :: Amount([], k, ALL, kind) == 0
  {
  }

  // A flush takes, reads back and writes

  lemma TakeLedger(w: World, count: nat, w': World, k: LayerKey)
    requires Taken(w, count, w') && WorldSane(w) && LedgerHolds(w, k)
    ensures WorldSane(w') && LedgerHolds(w', k)
  {
    hide Amount, Total, Start, Dirty;
    var a, b := w.waiting[..count], w.waiting[count..];
    assert w.waiting == a + b;
    AmountConcat(a, b, k, ALL, Creations);
    AmountConcat(a, b, k, ALL, NewBytes);
    AmountConcat(a, b, k, ALL, Overwritten);
    CreatedSane(a, k, ALL);
    CreatedSane(b, k, ALL);
    NoPuts(k);
  }

  lemma TakeRange(w: World, count: nat, w': World, k: LayerKey)
    requires Taken(w, count, w') && RangeHolds(w, k)
    ensures RangeHolds(w', k)
  {
    hide Describes, Coords, Start, Amount;
    var a, b := w.waiting[..count], w.waiting[count..];
    assert w.waiting == a + b;
    CoordsConcat(a, b, k);
    NoPuts(k);
    var f := CoordsOf(w.folded, k) + CoordsOf(w.missing, k);
    assert f + Coords(b, k) + Coords(a, k) == f + (Coords(a, k) + Coords(b, k)) + {};
  }

  /** A step of the reading back leaves the ledgers, the ranges and the other readings alone. */
  lemma ReadingStep(w: World, layer: LayerKey, r: Reading, w': World, k: LayerKey)
    requires Holds(w, k) && SetsReading(w, layer, r, w')
    requires layer == k && r.directory == Dir(k) ==> LongId(k.item) && ReadoutBalanced(ReadoutOf(w, k, r))
    ensures Holds(w', k)
  {
    assert ReadoutOf(w', k, r) == ReadoutOf(w, k, r);
    assert LedgerOf(w', k) == LedgerOf(w, k);
    assert RangeHolds(w', k) by { hide Describes, Coords, Start; }
    assert ReadingHolds(w', k) by {
      if layer != k && k in w'.flight.value.readings {
        var q := w.flight.value.readings[k];
        assert ReadoutOf(w', k, q) == ReadoutOf(w, k, q);
        hide ReadoutOf, ReadoutBalanced, Dir;
      }
    }
    hide LedgerOf, Balanced, RangeHolds, ReadingHolds;
  }

  /** A walk that meets the layer's own directory is of an item longer than four characters. */
  lemma OwnDirectory(k: LayerKey, first: string, second: string)
    requires DatabaseDirectory(k.database) + [first, second] == Dir(k)
    ensures LongId(k.item)
  {
    assert |Dir(k)| == |DatabaseDirectory(k.database)| + |IdPath(k.item)|;
  }

  lemma NothingRead(w: World, k: LayerKey, directory: Path)
    ensures ReadoutBalanced(ReadoutOf(w, k, Reading(directory, iset{}, NOTHING, NOTHING, NO_LOSS, 0)))
  {
    assert Within(TilesOf(w, k), iset{}) == map[];
    NoTables(w.waiting, k);
    hide Amount, TableOf;
  }

  lemma {:induction false} NoTables(puts: seq<CatalogPut>, k: LayerKey)
    ensures forall kind :: Amount(puts, k, iset{}, kind) == 0
  {
    if puts != [] { NoTables(puts[..|puts| - 1], k); }
  }

  /** What a reading has once it accounts for more tables. */
  lemma ReadoutUnion(w: World, k: LayerKey, r: Reading, tables: Tables)
    requires r.tables !! tables
    ensures var o, o' := ReadoutOf(w, k, r), ReadoutOf(w, k, r.(tables := r.tables + tables));
            && o'.truth.tileCount == o.truth.tileCount + Held(TilesOf(w, k), tables).tileCount
            && o'.truth.bytes == o.truth.bytes + Held(TilesOf(w, k), tables).bytes
            && o'.waiting.tileCount == o.waiting.tileCount + Amount(w.waiting, k, tables, Creations)
            && o'.waiting.bytes == o.waiting.bytes + Amount(w.waiting, k, tables, NewBytes)
            && o'.waitingOver == o.waitingOver + Amount(w.waiting, k, tables, Overwritten)
  {
    HeldUnion(TilesOf(w, k), r.tables, tables);
    AmountUnion(w.waiting, k, r.tables, tables, Creations);
    AmountUnion(w.waiting, k, r.tables, tables, NewBytes);
    AmountUnion(w.waiting, k, r.tables, tables, Overwritten);
    hide Held, Amount;
  }

  lemma WaitingStored(w: World, k: LayerKey)
    requires RangeHolds(w, k)
    ensures Coords(w.waiting, k) <= TilesOf(w, k).Keys
  {
    hide Coords, Describes;
  }

  lemma SkipReadout(w: World, k: LayerKey, r: Reading, tables: Tables)
    requires RangeHolds(w, k) && r.tables !! tables && Within(TilesOf(w, k), tables) == map[]
    requires ReadoutBalanced(ReadoutOf(w, k, r))
    ensures ReadoutBalanced(ReadoutOf(w, k, r.(tables := r.tables + tables)))
  {
    WaitingStored(w, k);
    ReadoutUnion(w, k, r, tables);
    AmountNone(w.waiting, k, tables, TilesOf(w, k), Creations);
    AmountNone(w.waiting, k, tables, TilesOf(w, k), NewBytes);
    AmountNone(w.waiting, k, tables, TilesOf(w, k), Overwritten);
    assert Held(TilesOf(w, k), tables) == NOTHING;
    hide Amount, Held, RangeHolds;
  }

  lemma ReadReadout(w: World, k: LayerKey, r: Reading, table: string)
    requires WorldSane(w) && table !in r.tables && ReadoutBalanced(ReadoutOf(w, k, r))
    ensures var tables := iset{table};
            ReadoutBalanced(
              ReadoutOf(w, k, ReadOn(r, table, Held(TilesOf(w, k), tables), Created(w.waiting, k, tables))))
  {
    var tables := iset{table};
    ReadoutUnion(w, k, r, tables);
    CreatedSane(w.waiting, k, tables);
    hide Amount, Held;
  }

  /** The row after a flush: the read-back figures if the layer was recalculated, else the folded ones. */
  lemma FinishedRow(w: World, deltas: map<string, Delta>, w': World, k: LayerKey)
    requires Finished(w, deltas, w')
    ensures var f := w.flight.value;
            Recount(Row(w', k).tileCount, Row(w', k).bytes) ==
            if Replaces(f, k) then f.readings[k].sum
            else Recount(Row(w, k).tileCount + Amount(f.batch, k, ALL, Creations),
                         Row(w, k).bytes + Amount(f.batch, k, ALL, NewBytes))
    ensures Row(w', k).range ==
            if k in Touched(w.flight.value.batch) then FoldAll(Row(w, k), Of(w.flight.value.batch, k)).range
            else Row(w, k).range
  {
    hide Amount, FoldAll, Of, Touched, Coords;
    var f := w.flight.value;
    if k in Touched(f.batch) { FoldCounts(Row(w, k), f.batch, k); } else { Untouched(f.batch, k); }
  }

  /** What a finished flush leaves of the rest of the world, for one layer. */
  lemma FinishedRest(w: World, deltas: map<string, Delta>, w': World, k: LayerKey)
    requires Finished(w, deltas, w')
    ensures w.flight.Some? && w'.tiles == w.tiles && w'.waiting == w.waiting && w'.flight == None
    ensures Replaces(w.flight.value, k) ==>
              var r := w.flight.value.readings[k];
              && r.tables == ALL && LagOf(w'.lag, k) == r.lag && LostOf(w'.lost, k) == r.missed
              && DriftOf(w'.drift, k) == r.drift && (k in w'.spoiled <==> r.directory != Dir(k))
    ensures !Replaces(w.flight.value, k) ==>
              && LagOf(w'.lag, k) == LagOf(w.lag, k) && LostOf(w'.lost, k) == LostOf(w.lost, k)
              && DriftOf(w'.drift, k) == DriftOf(w.drift, k) && (k in w'.spoiled <==> k in w.spoiled)
    ensures k in Touched(w.flight.value.batch) && Dirty(w.flight.value.batch, k.database) && LongId(k.item) ==>
              Replaces(w.flight.value, k)
  {
    hide Written, Touched, Coords, Dirty, LagOf, LostOf, CoordsOf, DriftOf, Dir;
  }

  /** The ledger after a flush that read the layer back, and after one that folded its batch into the row. */
  ghost function ReplacedLedger(l: Ledger, r: Reading): Ledger {
    l.(have := r.sum, taken := NOTHING, takenOver := 0, lost := r.missed, lag := r.lag, drift := r.drift)
  }

  ghost function FoldedLedger(l: Ledger): Ledger {
    l.(have := Recount(l.have.tileCount + l.taken.tileCount, l.have.bytes + l.taken.bytes),
       taken := NOTHING, takenOver := 0)
  }

  lemma FinishedReplaced(w: World, deltas: map<string, Delta>, w': World, k: LayerKey)
    requires Finished(w, deltas, w') && Replaces(w.flight.value, k)
    ensures LedgerOf(w', k) == ReplacedLedger(LedgerOf(w, k), w.flight.value.readings[k])
  {
    FinishedRow(w, deltas, w', k);
    FinishedRest(w, deltas, w', k);
    NoPuts(k);
    hide Finished, Amount, Start, Total, Replaces;
  }

  lemma FinishedFolded(w: World, deltas: map<string, Delta>, w': World, k: LayerKey)
    requires Finished(w, deltas, w') && !Replaces(w.flight.value, k)
    ensures LedgerOf(w', k) == FoldedLedger(LedgerOf(w, k))
  {
    FinishedRow(w, deltas, w', k);
    FinishedRest(w, deltas, w', k);
    NoPuts(k);
    hide Finished, Amount, Start, Total, Replaces;
  }

  lemma WholeReadout(w: World, k: LayerKey, r: Reading)
    requires r.tables == ALL
    ensures var o, l := ReadoutOf(w, k, r), LedgerOf(w, k);
            && o.truth == l.truth && o.waiting == l.waiting && o.waitingOver == l.waitingOver
            && o.sum == r.sum && o.missed == r.missed && o.lag == r.lag && o.drift == r.drift
  {
    WithinAll(TilesOf(w, k));
    hide Amount, Total, Start, Within;
  }

  /** Balance through a finished flush: either the reading replaces the row, or the batch is folded into it. */
  lemma BalanceReplaced(l: Ledger, o: Readout, r: Reading)
    requires ReadoutBalanced(o)
    requires o.truth == l.truth && o.waiting == l.waiting && o.waitingOver == l.waitingOver
    requires o.sum == r.sum && o.missed == r.missed && o.lag == r.lag && o.drift == r.drift
    ensures Balanced(ReplacedLedger(l, r), true)
  {
  }

  lemma BalanceFolded(l: Ledger, long: bool)
    requires Balanced(l, long) && (long ==> l.takenOver == 0)
    ensures Balanced(FoldedLedger(l), long)
  {
  }

  /** The overwrites of a long item are always read back. */
  lemma NotReplaced(w: World, deltas: map<string, Delta>, w': World, k: LayerKey)
    requires Finished(w, deltas, w') && WorldSane(w) && !Replaces(w.flight.value, k) && LongId(k.item)
    ensures LedgerOf(w, k).takenOver == 0
  {
    var batch := w.flight.value.batch;
    FinishedRest(w, deltas, w', k);
    CreatedSane(batch, k, ALL);
    assert LedgerOf(w, k).takenOver == Amount(batch, k, ALL, Overwritten);
    hide LedgerOf, Finished, Amount, Touched, Dirty;
    if Amount(batch, k, ALL, Overwritten) > 0 { OverwriteDirties(batch, k); }
  }

  lemma FinishLedger(w: World, deltas: map<string, Delta>, w': World, k: LayerKey)
    requires Finished(w, deltas, w') && WorldSane(w) && LedgerHolds(w, k) && ReadingHolds(w, k)
    ensures LedgerHolds(w', k)
  {
    var f := w.flight.value;
    FinishedRest(w, deltas, w', k);
    hide LedgerOf, ReadoutOf, Finished, Balanced, ReadoutBalanced, ReplacedLedger, FoldedLedger, WorldSane, Dir, Dirty;
    if Replaces(f, k) {
      if f.readings[k].directory == Dir(k) {
        FinishedReplaced(w, deltas, w', k);
        WholeReadout(w, k, f.readings[k]);
        BalanceReplaced(LedgerOf(w, k), ReadoutOf(w, k, f.readings[k]), f.readings[k]);
      }
    } else if k !in w.spoiled {
      FinishedFolded(w, deltas, w', k);
      if LongId(k.item) { NotReplaced(w, deltas, w', k); }
      BalanceFolded(LedgerOf(w, k), LongId(k.item));
    }
  }

  lemma FinishRange(w: World, deltas: map<string, Delta>, w': World, k: LayerKey)
    requires Finished(w, deltas, w') && RangeHolds(w, k)
    ensures RangeHolds(w', k)
  {
    hide Written, Describes, Start, FoldAll, Of, Coords, Touched, Dirty, Amount, Dir;
    var f := w.flight.value;
    FinishedRow(w, deltas, w', k);
    NoPuts(k);
    var m, a := CoordsOf(w.missing, k), Coords(w.waiting, k);
    assert CoordsOf(w.folded, k) + Coords(f.batch, k) + m + a + {} == CoordsOf(w.folded, k) + m + a + Coords(f.batch, k);
    if k in Touched(f.batch) {
      FoldDescribes(Row(w, k), f.batch, k, CoordsOf(w.folded, k));
    } else {
      Untouched(f.batch, k);
      assert CoordsOf(w.folded, k) + {} == CoordsOf(w.folded, k);
    }
  }

  /** No reading is under way after a flush has begun or ended. */
  lemma NoReading(w: World, step: Step, w': World, k: LayerKey)
    requires Next(w, step, w') && WorldSane(w) && (step.Take? || step.Finish? || step.Fail?)
    ensures ReadingHolds(w', k) && (!step.Take? ==> WorldSane(w'))
  {
    hide Written, Touched, Coords, Dirty, Amount, Dir;
  }

  /** The steps of the reading back. */
  lemma ReadingKeeps(w: World, step: Step, w': World, k: LayerKey)
    requires Holds(w, k) && Next(w, step, w') && (step.Open? || step.Skip? || step.ReadTable?)
    ensures Holds(w', k)
  {
    hide Amount, Within, RangeHolds, ReadoutBalanced, ReadoutOf, LedgerHolds, SetsReading, Dir, Seen;
    match step
    case Open(layer, first, second) =>
      var directory := DatabaseDirectory(layer.database) + [first, second];
      if layer == k && directory == Dir(k) { OwnDirectory(k, first, second); }
      NothingRead(w, k, directory);
      ReadingStep(w, layer, Reading(directory, iset{}, NOTHING, NOTHING, NO_LOSS, 0), w', k);
    case Skip(layer, tables) =>
      var r := w.flight.value.readings[layer];
      if layer == k && r.directory == Dir(k) { SkipReadout(w, k, r, tables); }
      ReadingStep(w, layer, r.(tables := r.tables + tables), w', k);
    case ReadTable(layer, table) =>
      var r, tables := w.flight.value.readings[layer], iset{table};
      var r' := ReadOn(r, table, Held(TilesIn(w.tiles, r.directory), tables), Created(w.waiting, layer, tables));
      if layer == k && r.directory == Dir(k) { ReadReadout(w, k, r, table); }
      ReadingStep(w, layer, r', w', k);
  }

  lemma NextKeeps(w: World, step: Step, w': World, k: LayerKey)
    requires Holds(w, k) && Next(w, step, w')
    ensures Holds(w', k)
  {
    hide RangeHolds, LedgerHolds, ReadingHolds, WorldSane, Committed, Taken, Opened, Skipped, TableRead, Finished, Failed;
    match step
    case Commit(put, position) =>
      CommitSane(w, put, position, w');
      CommitLedger(w, put, position, w', k);
      CommitReading(w, put, position, w', k);
      CommitRange(w, put, position, w', k);
    case Take(count) =>
      TakeLedger(w, count, w', k);
      TakeRange(w, count, w', k);
      NoReading(w, step, w', k);
    case Open(_, _, _) => ReadingKeeps(w, step, w', k);
    case Skip(_, _) => ReadingKeeps(w, step, w', k);
    case ReadTable(_, _) => ReadingKeeps(w, step, w', k);
    case Finish(deltas) =>
      FinishLedger(w, deltas, w', k);
      FinishRange(w, deltas, w', k);
      NoReading(w, step, w', k);
    case Fail =>
      FailLedger(w, w', k);
      FailRange(w, w', k);
      NoReading(w, step, w', k);
  }

  // Runs

  /** The catalog row of a layer as a scan summary. */
  function Figures(w: World, k: LayerKey): Summary {
    Summary(Row(w, k).tileCount, Row(w, k).bytes, Row(w, k).range)
  }

  /** Nothing is on its way, and no history has begun. */
  predicate Idle(w: World) {
    && w.waiting == [] && w.flight == None && w.lag == map[] && w.lost == map[] && w.drift == map[] && w.missing == map[]
    && w.spoiled == {}
  }

  /** The row of a layer is the summary of its tiles. */
  ghost predicate Accurate(w: World, k: LayerKey) {
    Idle(w) && Summarizes(TilesOf(w, k), Figures(w, k)) && CoordsOf(w.folded, k) == TilesOf(w, k).Keys
  }

  ghost predicate IsRun(run: seq<World>, steps: seq<Step>) {
    && |run| == |steps| + 1
    && forall i :: 0 <= i < |steps| ==> Next(run[i], steps[i], run[i + 1])
  }

  lemma RunLength(run: seq<World>, steps: seq<Step>)
    requires IsRun(run, steps)
    ensures |run| == |steps| + 1
  {
  }

  lemma RunStep(run: seq<World>, steps: seq<Step>, i: nat)
    requires IsRun(run, steps) && i < |steps|
    ensures Next(run[i], steps[i], run[i + 1])
  {
    hide Next;
  }

  lemma {:induction false} RunHolds(run: seq<World>, steps: seq<Step>, i: nat, k: LayerKey)
    requires IsRun(run, steps) && Accurate(run[0], k) && i < |run|
    ensures Holds(run[i], k)
  {
    hide Holds, Next, Accurate;
    if i == 0 {
      StartHolds(run[0], k);
    } else {
      RunHolds(run, steps, i - 1, k);
      RunStep(run, steps, i - 1);
      NextKeeps(run[i - 1], steps[i - 1], run[i], k);
    }
  }

  lemma StartHolds(w: World, k: LayerKey)
    requires Accurate(w, k)
    ensures Holds(w, k)
  {
    hide Describes, Total, Amount, Coords, Start, Dir;
    NoPuts(k);
    assert CoordsOf(w.folded, k) + {} + {} + {} == CoordsOf(w.folded, k);
  }

  /** From an accurate row, at every moment of every run, whatever flush fails and whatever put is lost on its way, as
      long as no other directory was taken for the layer's: the catalog count plus the queued and the lost creations is
      the true count plus the lag, so never below it. */
  lemma NeverBelow(run: seq<World>, steps: seq<Step>, i: nat, k: LayerKey)
    requires IsRun(run, steps) && Accurate(run[0], k) && i < |run| && k !in run[i].spoiled
    ensures var w := run[i];
            && Row(w, k).tileCount + Created(w.waiting, k, ALL).tileCount + Created(Batch(w), k, ALL).tileCount
               + LostOf(w.lost, k).creations
               == |TilesOf(w, k)| + LagOf(w.lag, k).tileCount
            && LagOf(w.lag, k).tileCount >= 0 && LostOf(w.lost, k).creations >= 0
  {
    hide Next, Accurate, Describes;
    RunHolds(run, steps, i, k);
  }

  /** Of this layer nothing is lost that the catalog does not have by other means. */
  predicate NothingLost(w: World, k: LayerKey) {
    LostOf(w.lost, k) == NO_LOSS && CoordsOf(w.missing, k) <= CoordsOf(w.folded, k)
  }

  /** Whenever everything committed has been written, nothing is lost and no other directory was taken for the layer's:
      zoom range and extent are those of a scan. For an item longer than four characters the whole row is the scan's
      summary exactly when no creation was waiting when the last recalculation of the layer read the table of that
      creation. For a shorter one, which is never recalculated, the count is right too, and the row is the scan's summary
      exactly when its overwritten tiles did not grow or shrink on the whole. */
  lemma DrainedAgreement(run: seq<World>, steps: seq<Step>, i: nat, k: LayerKey)
    requires IsRun(run, steps) && Accurate(run[0], k) && i < |run| && k !in run[i].spoiled
    requires run[i].waiting == [] && run[i].flight == None && NothingLost(run[i], k)
    ensures Describes(TilesOf(run[i], k).Keys, Row(run[i], k).range)
    ensures LongId(k.item) ==> (Summarizes(TilesOf(run[i], k), Figures(run[i], k)) <==> LagOf(run[i].lag, k).tileCount == 0)
    ensures LongId(k.item) && LagOf(run[i].lag, k).tileCount > 0 ==>
              Row(run[i], k).tileCount > |TilesOf(run[i], k)| && Row(run[i], k).bytes > Total(TilesOf(run[i], k))
    ensures !LongId(k.item) ==>
              && Row(run[i], k).tileCount == |TilesOf(run[i], k)|
              && Row(run[i], k).bytes + DriftOf(run[i].drift, k) == Total(TilesOf(run[i], k))
              && (Summarizes(TilesOf(run[i], k), Figures(run[i], k)) <==> DriftOf(run[i].drift, k) == 0)
  {
    hide *;
    RunHolds(run, steps, i, k);
    DrainedRow(run[i], k);
  }

  lemma DrainedRow(w: World, k: LayerKey)
    requires Holds(w, k) && w.waiting == [] && w.flight == None && NothingLost(w, k) && k !in w.spoiled
    ensures Describes(TilesOf(w, k).Keys, Row(w, k).range)
    ensures LongId(k.item) ==> (Summarizes(TilesOf(w, k), Figures(w, k)) <==> LagOf(w.lag, k).tileCount == 0)
    ensures LongId(k.item) && LagOf(w.lag, k).tileCount > 0 ==>
              Row(w, k).tileCount > |TilesOf(w, k)| && Row(w, k).bytes > Total(TilesOf(w, k))
    ensures !LongId(k.item) ==>
              && Row(w, k).tileCount == |TilesOf(w, k)|
              && Row(w, k).bytes + DriftOf(w.drift, k) == Total(TilesOf(w, k))
              && (Summarizes(TilesOf(w, k), Figures(w, k)) <==> DriftOf(w.drift, k) == 0)
  {
    hide Describes, Dir;
    NoPuts(k);
    var f, m := CoordsOf(w.folded, k), CoordsOf(w.missing, k);
    assert f + m + {} + {} == f;
  }

  // Runs in which nothing goes missing

  /** Every put into the layer's directory is queued for the layer, and no flush fails. */
  predicate Untroubled(step: Step, k: LayerKey) {
    !step.Fail? && (step.Commit? && Hits(step.put, k) ==> step.put.layer == k && step.position.Some?)
  }

  predicate Lossless(w: World, k: LayerKey) {
    && LostOf(w.lost, k) == NO_LOSS && CoordsOf(w.missing, k) == {}
    && (w.flight.Some? && k in w.flight.value.readings ==> w.flight.value.readings[k].missed == NO_LOSS)
  }

  lemma LosslessMeans(w: World, k: LayerKey)
    ensures Lossless(w, k) ==> NothingLost(w, k)
  {
  }

  lemma StartLossless(w: World, k: LayerKey)
    requires Idle(w)
    ensures Lossless(w, k)
  {
  }

  lemma NoBypass(put: CatalogPut, position: Option<nat>, k: LayerKey, tables: Tables, lost: Loss)
    requires Untroubled(Commit(put, position), k)
    ensures !Bypasses(put, position.Some?, k) && Plus(lost, LostPart(put, position.Some?, k, tables)) == lost
  {
    hide Dir, TableOf;
  }

  lemma LosslessCommit(w: World, put: CatalogPut, position: Option<nat>, w': World, k: LayerKey)
    requires Committed(w, put, position, w') && Lossless(w, k) && Untroubled(Commit(put, position), k)
    ensures Lossless(w', k)
  {
    hide Committed, Stores, Hits, Growth, InsertAt, LostOf, CoordsOf, DriftOf, Bypasses, LostPart, Untroubled, Batch, Plus;
    CommittedAt(w, put, position, w', k);
    NoBypass(put, position, k, ALL, LostOf(w.lost, k));
    if w.flight.Some? && k in w.flight.value.readings {
      NoBypass(put, position, k, w.flight.value.readings[k].tables, NO_LOSS);
    }
  }

  lemma LosslessFinish(w: World, deltas: map<string, Delta>, w': World, k: LayerKey)
    requires Finished(w, deltas, w') && Lossless(w, k)
    ensures Lossless(w', k)
  {
    hide Finished, LostOf, CoordsOf, DriftOf, LagOf, Touched, Dirty, Dir;
    FinishedRest(w, deltas, w', k);
    FinishedMissing(w, deltas, w');
  }

  lemma LosslessOther(w: World, step: Step, w': World, k: LayerKey)
    requires Next(w, step, w') && Lossless(w, k) && !step.Commit? && !step.Finish? && !step.Fail?
    ensures Lossless(w', k)
  {
    hide Committed, Finished, Held, Within, Created, Dir, Seen, Dirty, LostOf, CoordsOf, Failed, TilesIn;
  }

  lemma LosslessStep(w: World, step: Step, w': World, k: LayerKey)
    requires Next(w, step, w') && Lossless(w, k) && Untroubled(step, k)
    ensures Lossless(w', k)
  {
    hide Committed, Finished, Lossless, Taken, Opened, Skipped, TableRead, Failed;
    match step
    case Commit(put, position) => LosslessCommit(w, put, position, w', k);
    case Finish(deltas) => LosslessFinish(w, deltas, w', k);
    case _ => LosslessOther(w, step, w', k);
  }

  lemma FinishedMissing(w: World, deltas: map<string, Delta>, w': World)
    requires Finished(w, deltas, w')
    ensures w'.missing == w.missing
  {
    hide Written;
  }

  /** Without failed flushes, discarded outcomes and puts to a layer crossed with this one, nothing is lost. */
  lemma {:induction false} NoFailureNoLoss(run: seq<World>, steps: seq<Step>, i: nat, k: LayerKey)
    requires IsRun(run, steps) && Idle(run[0]) && i < |run|
    requires forall s :: 0 <= s < |steps| ==> Untroubled(steps[s], k)
    ensures Lossless(run[i], k) && NothingLost(run[i], k)
  {
    hide *;
    RunLength(run, steps);
    LosslessMeans(run[i], k);
    if i == 0 {
      StartLossless(run[0], k);
    } else {
      NoFailureNoLoss(run, steps, i - 1, k);
      RunStep(run, steps, i - 1);
      LosslessStep(run[i - 1], steps[i - 1], run[i], k);
    }
  }

  /** All tiles lie in directories of ids longer than four characters. */
  ghost predicate LongTiles(tiles: map<Path, map<Coord, nat>>) {
    forall d :: d in tiles ==> exists k: LayerKey :: LongId(k.database) && LongId(k.item) && Dir(k) == d
  }

  lemma OpensOwn(w: World, k: LayerKey, first: string, second: string)
    requires LongTiles(w.tiles) && LongId(k.database) && first + second == k.item
    requires Seen(w.tiles, DatabaseDirectory(k.database) + [first, second])
    ensures DatabaseDirectory(k.database) + [first, second] == Dir(k)
  {
    var directory := DatabaseDirectory(k.database) + [first, second];
    var d, c :| d in w.tiles && OnGrid(c) && Under(directory, d + [ZoomDirectory(c)]);
    var l: LayerKey :| LongId(l.database) && LongId(l.item) && Dir(l) == d;
    assert directory == (d + [ZoomDirectory(c)])[..4] == d;
    FourLevels(k.database, first, second, l);
  }

  lemma FourLevels(database: string, first: string, second: string, l: LayerKey)
    requires LongId(database) && LongId(l.database) && LongId(l.item)
    requires DatabaseDirectory(database) + [first, second] == Dir(l)
    ensures database == l.database && first + second == l.item
  {
    var d := Dir(l);
    assert d[0] == database[..4] && d[1] == database[4..] && d[2] == first && d[3] == second;
    assert d[0] == l.database[..4] && d[1] == l.database[4..] && d[2] == l.item[..4] && d[3] == l.item[4..];
    assert database == database[..4] + database[4..] && l.database == l.database[..4] + l.database[4..];
    assert l.item == l.item[..4] + l.item[4..];
  }

  /** Everything in play has ids longer than four characters. */
  predicate LongStep(step: Step) { step.Commit? ==> LongId(step.put.layer.database) && LongId(step.put.layer.item) }

  ghost predicate Proper(w: World, k: LayerKey) {
    && LongTiles(w.tiles) && k !in w.spoiled
    && (w.flight.Some? && k in w.flight.value.readings ==> w.flight.value.readings[k].directory == Dir(k))
  }

  lemma ProperStep(w: World, step: Step, w': World, k: LayerKey)
    requires Next(w, step, w') && Proper(w, k) && LongStep(step) && LongId(k.database)
    ensures Proper(w', k)
  {
    if step.Open? && step.layer == k { OpensOwn(w, k, step.first, step.second); }
    hide Written, Held, Within, Coords, Touched, Dirty, Created, Amount, Growth, Dir, Seen, LostPart, TilesOf;
    if step.Commit? { LongTilesStay(w.tiles, step.put.layer, TilesOf(w, step.put.layer)[step.put.at := step.put.bytes]); }
  }

  lemma LongTilesStay(tiles: map<Path, map<Coord, nat>>, k: LayerKey, layer: map<Coord, nat>)
    requires LongTiles(tiles) && LongId(k.database) && LongId(k.item)
    ensures LongTiles(tiles[Dir(k) := layer])
  {
    hide Dir;
  }

  /** With ids longer than four characters no row is ever recalculated from another directory. */
  lemma {:induction false} LongIdsNeverSpoiled(run: seq<World>, steps: seq<Step>, i: nat, k: LayerKey)
    requires IsRun(run, steps) && Idle(run[0]) && LongTiles(run[0].tiles) && i < |run| && LongId(k.database)
    requires forall s :: 0 <= s < |steps| ==> LongStep(steps[s])
    ensures Proper(run[i], k)
  {
    RunLength(run, steps);
    hide Next, IsRun, LongStep, LongTiles;
    if i > 0 {
      LongIdsNeverSpoiled(run, steps, i - 1, k);
      RunStep(run, steps, i - 1);
      ProperStep(run[i - 1], steps[i - 1], run[i], k);
    }
  }

  ghost predicate QuietReads(run: seq<World>, steps: seq<Step>, k: LayerKey)
    requires |run| == |steps| + 1
  {
    forall s :: 0 <= s < |steps| && steps[s].ReadTable? && steps[s].layer == k ==>
                  Created(run[s].waiting, k, iset{steps[s].table}).tileCount == 0
  }

  predicate Unlagged(w: World, k: LayerKey) {
    && LagOf(w.lag, k).tileCount == 0
    && (w.flight.Some? && k in w.flight.value.readings ==> w.flight.value.readings[k].lag.tileCount == 0)
  }

  lemma UnlaggedStep(w: World, step: Step, w': World, k: LayerKey)
    requires Next(w, step, w') && Unlagged(w, k)
    requires step.ReadTable? && step.layer == k ==> Created(w.waiting, k, iset{step.table}).tileCount == 0
    ensures Unlagged(w', k)
  {
    hide Written, Stores, Held, Within, Coords, Touched, Dirty, Created, Amount, Growth, Dir, Seen, LostPart;
  }

  lemma {:induction false} QuietLag(run: seq<World>, steps: seq<Step>, i: nat, k: LayerKey)
    requires IsRun(run, steps) && Idle(run[0]) && i < |run| && QuietReads(run, steps, k)
    ensures Unlagged(run[i], k)
  {
    RunLength(run, steps);
    hide Next, IsRun;
    if i > 0 {
      QuietLag(run, steps, i - 1, k);
      RunStep(run, steps, i - 1);
      UnlaggedStep(run[i - 1], steps[i - 1], run[i], k);
    }
  }

  /** With ids longer than four characters, in a run in which nothing goes missing and no table is read back while a
      creation in it is waiting, a drained row is the scan's summary. */
  lemma QuietRunsAgree(run: seq<World>, steps: seq<Step>, i: nat, k: LayerKey)
    requires IsRun(run, steps) && Accurate(run[0], k) && i < |run| && QuietReads(run, steps, k)
    requires LongTiles(run[0].tiles) && LongId(k.database) && LongId(k.item)
    requires forall s :: 0 <= s < |steps| ==> Untroubled(steps[s], k) && LongStep(steps[s])
    requires run[i].waiting == [] && run[i].flight == None
    ensures Summarizes(TilesOf(run[i], k), Figures(run[i], k))
  {
    assert Idle(run[0]);
    hide IsRun, Accurate, QuietReads, NothingLost, Summarizes, Untroubled, LongStep, LongTiles, Idle, Lossless;
    QuietLag(run, steps, i, k);
    LongIdsNeverSpoiled(run, steps, i, k);
    NoFailureNoLoss(run, steps, i, k);
    DrainedAgreement(run, steps, i, k);
  }
}
