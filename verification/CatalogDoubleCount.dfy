/** How single steps of the catalog happen, and a concrete run in which every put is queued, every flush succeeds, all ids
    are longer than four characters, and the catalog still counts a tile twice. */
module CatalogDoubleCount {
  import opened Tiles
  import opened Sums
  import opened Layers
  import opened Catalog
  import opened CatalogRuns
  import opened Paths

  lemma OnePut(put: CatalogPut)
    ensures Of([put], put.layer) == [put] && Touched([put]) == {put.layer}
    ensures DatabasesOf({put.layer}) == {put.layer.database}
  {
    assert [put][..|[put]| - 1] == [];
    assert Of([], put.layer) == [];
  }

  /** What a batch of one put writes. */
  function RowOf(cat: Catalog, put: CatalogPut, recalculated: map<LayerKey, Recount>): LayerRow {
    NewRow(cat.layers, put.layer, FoldAll(Start(cat.layers, put.layer), Of([put], put.layer)), recalculated, 0)
  }

  function DeltaFor(cat: Catalog, put: CatalogPut, recalculated: map<LayerKey, Recount>): Delta {
    AddDelta(map[], cat.layers, put.layer, RowOf(cat, put, recalculated),
             FoldAll(Start(cat.layers, put.layer), Of([put], put.layer)), put.path, 0)
  }

  lemma OneLayer(cat: Catalog, put: CatalogPut, recalculated: map<LayerKey, Recount>)
    ensures var layers := cat.layers[put.layer := RowOf(cat, put, recalculated)];
            && LayersWritten(cat.layers, [put], recalculated, Touched([put]), layers)
            && DeltasExact(cat.layers, layers, map[put.layer.database := DeltaFor(cat, put, recalculated)])
  {
    OnePut(put);
    hide FoldAll, Of, Start, Touched, LayerSum, NewRow, AddDelta;
    LayerStep(cat.layers, [put], recalculated, {}, cat.layers, put.layer, 0);
    assert {} + {put.layer} == {put.layer};
    var draft := FoldAll(Start(cat.layers, put.layer), Of([put], put.layer));
    DeltaStep(cat.layers, cat.layers, map[], put.layer, RowOf(cat, put, recalculated), draft, put.path, 0);
    assert map[][put.layer.database := DeltaFor(cat, put, recalculated)]
           == map[put.layer.database := DeltaFor(cat, put, recalculated)];
  }

  lemma OneSource(cat: Catalog, put: CatalogPut, recalculated: map<LayerKey, Recount>)
    ensures Sourced([put], Touched([put]), put.layer.database, DeltaFor(cat, put, recalculated))
  {
    OnePut(put);
    assert Start(cat.layers, put.layer).databaseName == None;
    hide FoldAll, Of, Start, NewRow, AddDelta;
    assert {} + {put.layer} == {put.layer};
    SourceStep([put], {}, map[], cat.layers, put.layer, RowOf(cat, put, recalculated), [put], Start(cat.layers, put.layer), 0);
  }

  function OneDelta(cat: Catalog, put: CatalogPut, recalculated: map<LayerKey, Recount>): map<string, Delta> {
    map[put.layer.database := DeltaFor(cat, put, recalculated)]
  }

  /** The catalog after a batch of one put. */
  function OneWritten(cat: Catalog, put: CatalogPut, recalculated: map<LayerKey, Recount>): Catalog {
    var d := put.layer.database;
    Catalog(
      cat.databases[d := Upserted(cat.databases, d, DeltaFor(cat, put, recalculated))],
      cat.layers[put.layer := RowOf(cat, put, recalculated)])
  }

  lemma OneDatabase(cat: Catalog, put: CatalogPut, recalculated: map<LayerKey, Recount>)
    ensures var deltas := OneDelta(cat, put, recalculated);
            && deltas.Keys == DatabasesOf(Touched([put]))
            && DatabasesWritten(cat.databases, deltas, deltas.Keys, OneWritten(cat, put, recalculated).databases)
  {
    OnePut(put);
    hide Touched, DatabasesOf, Upserted, DeltaFor, RowOf;
  }

  /** A batch of one put can always be written. */
  lemma WriteExists(cat: Catalog, put: CatalogPut, recalculated: map<LayerKey, Recount>)
    returns (after: Catalog, deltas: map<string, Delta>)
    ensures Written(cat, [put], recalculated, after, deltas)
  {
    after, deltas := OneWritten(cat, put, recalculated), OneDelta(cat, put, recalculated);
    OneLayer(cat, put, recalculated);
    OneSource(cat, put, recalculated);
    OneDatabase(cat, put, recalculated);
    hide LayersWritten, DeltasExact, Sourced, DatabasesWritten, Upserted, RowOf, DeltaFor, Touched, DatabasesOf;
  }

  // Steps that can happen

  /** No other layer has the layer's directory. */
  ghost predicate Alone(layer: LayerKey) { forall k :: Dir(k) == Dir(layer) ==> k == layer }

  lemma LongDatabaseAlone(layer: LayerKey)
    requires |layer.database| > 8
    ensures Alone(layer)
  {
    forall k | Dir(k) == Dir(layer) ensures k == layer {
      ItemDirectoriesEqual(k.database, k.item, layer.database, layer.item);
    }
  }

  /** The world after a put has been committed and queued while no flush is under way. */
  function AfterCommit(w: World, put: CatalogPut): World {
    var before := TilesOf(w, put.layer);
    var growth := if put.at in before then put.bytes - before[put.at] else 0;
    w.(tiles := w.tiles[Dir(put.layer) := before[put.at := put.bytes]], waiting := w.waiting + [put],
       drift := w.drift[put.layer := DriftOf(w.drift, put.layer) + growth])
  }

  lemma CommitHistory(w: World, put: CatalogPut, k: LayerKey)
    requires Alone(put.layer)
    ensures var w' := AfterCommit(w, put);
            && LostOf(w'.lost, k) == Plus(LostOf(w.lost, k), LostPart(put, true, k, ALL))
            && DriftOf(w'.drift, k) == DriftOf(w.drift, k) + Growth(w, put, k, ALL)
            && CoordsOf(w'.missing, k) == CoordsOf(w.missing, k) + if Bypasses(put, true, k) then {put.at} else {}
  {
    hide Dir, TableOf, LostOf, CoordsOf, Plus, Whole;
    assert Hits(put, k) <==> k == put.layer;
    PlusNothing(LostOf(w.lost, k));
  }

  lemma PlusNothing(a: Loss)
    ensures Plus(a, NO_LOSS) == a
  {
  }

  lemma CommitStores(w: World, put: CatalogPut)
    requires put.bytes > 0
    requires put.outcome == PutOutcome(put.at !in TilesOf(w, put.layer), put.at in TilesOf(w, put.layer))
    ensures Stores(w, put, AfterCommit(w, put).tiles)
  {
    hide Dir;
  }

  lemma CommitHappens(w: World, put: CatalogPut)
    requires w.flight == None && put.bytes > 0 && Alone(put.layer)
    requires put.outcome == PutOutcome(put.at !in TilesOf(w, put.layer), put.at in TilesOf(w, put.layer))
    ensures Committed(w, put, Some(|w.waiting|), AfterCommit(w, put))
  {
    hide Dir, Alone, LostPart, Growth, Bypasses, Stores, TilesOf, LostOf, DriftOf, CoordsOf, Plus;
    var w' := AfterCommit(w, put);
    assert InsertAt(w.waiting, put, |w.waiting|) == w'.waiting;
    CommitStores(w, put);
    forall k
      ensures LostOf(w'.lost, k) == Plus(LostOf(w.lost, k), LostPart(put, true, k, ALL))
      ensures DriftOf(w'.drift, k) == DriftOf(w.drift, k) + Growth(w, put, k, ALL)
      ensures CoordsOf(w'.missing, k) == CoordsOf(w.missing, k) + if Bypasses(put, true, k) then {put.at} else {}
    {
      CommitHistory(w, put, k);
    }
  }

  /** The world after a committed put whose outcome is discarded while no flush is under way. */
  ghost function AfterDiscard(w: World, put: CatalogPut): World {
    var k := put.layer;
    AfterCommit(w, put).(waiting := w.waiting, lost := w.lost[k := Plus(LostOf(w.lost, k), Whole(put))],
                         missing := w.missing[k := CoordsOf(w.missing, k) + {put.at}])
  }

  lemma DiscardHistory(w: World, put: CatalogPut, k: LayerKey)
    requires Alone(put.layer)
    ensures var w' := AfterDiscard(w, put);
            && LostOf(w'.lost, k) == Plus(LostOf(w.lost, k), LostPart(put, false, k, ALL))
            && DriftOf(w'.drift, k) == DriftOf(w.drift, k) + Growth(w, put, k, ALL)
            && CoordsOf(w'.missing, k) == CoordsOf(w.missing, k) + if Bypasses(put, false, k) then {put.at} else {}
  {
    hide Dir, TableOf, Plus, Whole;
    assert Hits(put, k) <==> k == put.layer;
    PlusNothing(LostOf(w.lost, k));
  }

  /** The outcome of any valid put can be discarded. */
  lemma DiscardHappens(w: World, put: CatalogPut)
    requires w.flight == None && put.bytes > 0 && Alone(put.layer)
    requires put.outcome == PutOutcome(put.at !in TilesOf(w, put.layer), put.at in TilesOf(w, put.layer))
    ensures Committed(w, put, None, AfterDiscard(w, put))
  {
    hide Dir, Alone, LostPart, Growth, Bypasses, Stores, TilesOf, LostOf, DriftOf, CoordsOf, Plus, Whole;
    var w' := AfterDiscard(w, put);
    CommitStores(w, put);
    forall k
      ensures LostOf(w'.lost, k) == Plus(LostOf(w.lost, k), LostPart(put, false, k, ALL))
      ensures DriftOf(w'.drift, k) == DriftOf(w.drift, k) + Growth(w, put, k, ALL)
      ensures CoordsOf(w'.missing, k) == CoordsOf(w.missing, k) + if Bypasses(put, false, k) then {put.at} else {}
    {
      DiscardHistory(w, put, k);
    }
  }

  /** When no flush is under way the oldest one or more of the queued puts can be taken, as many as the writer likes. */
  lemma TakesOldest(w: World, count: nat)
    requires count <= |w.waiting|
    ensures (exists w' :: Taken(w, count, w')) <==> w.flight.None? && 1 <= count
    ensures forall w' :: Taken(w, count, w') ==>
                           Batch(w') == w.waiting[..count] && Batch(w') + w'.waiting == w.waiting && w'.tiles == w.tiles
  {
    if w.flight.None? && 1 <= count {
      assert Taken(w, count, w.(flight := Some(Flight(w.waiting[..count], map[])), waiting := w.waiting[count..]));
    }
  }

  /** The world after a failed flush. */
  ghost function AfterFailure(w: World): World {
    w.(flight := None,
       lost := map k | k in w.lost.Keys + Touched(Batch(w)) :: Plus(LostOf(w.lost, k), BatchPart(Batch(w), k)),
       missing := map k | k in w.missing.Keys + Touched(Batch(w)) :: CoordsOf(w.missing, k) + Coords(Batch(w), k))
  }

  lemma FailureHistory(w: World, k: LayerKey)
    ensures var w' := AfterFailure(w);
            && LostOf(w'.lost, k) == Plus(LostOf(w.lost, k), BatchPart(Batch(w), k))
            && CoordsOf(w'.missing, k) == CoordsOf(w.missing, k) + Coords(Batch(w), k)
  {
    hide Touched, Coords, Amount, BatchPart, Plus, Batch;
    UntouchedPart(Batch(w), k);
    PlusNothing(LostOf(w.lost, k));
  }

  lemma UntouchedPart(batch: seq<CatalogPut>, k: LayerKey)
    ensures k !in Touched(batch) ==> BatchPart(batch, k) == NO_LOSS && Coords(batch, k) == {}
  {
    hide Touched, Coords, Amount;
    if k !in Touched(batch) { Untouched(batch, k); }
  }

  /** A flush can fail at any moment. */
  lemma FailHappens(w: World)
    requires w.flight.Some?
    ensures Next(w, Fail, AfterFailure(w))
  {
    hide Touched, Coords, LostOf, CoordsOf, Plus, BatchPart;
    var w' := AfterFailure(w);
    forall k
      ensures LostOf(w'.lost, k) == Plus(LostOf(w.lost, k), BatchPart(Batch(w), k))
      ensures CoordsOf(w'.missing, k) == CoordsOf(w.missing, k) + Coords(Batch(w), k)
    {
      FailureHistory(w, k);
    }
  }

  lemma TakeHappens(w: World, put: CatalogPut, rest: seq<CatalogPut>)
    requires w.waiting == [put] + rest && w.flight == None
    ensures Taken(w, 1, w.(flight := Some(Flight([put], map[])), waiting := rest))
  {
    assert w.waiting[..1] == [put] && w.waiting[1..] == rest;
  }

  function NewReading(directory: Path): Reading { Reading(directory, iset{}, NOTHING, NOTHING, NO_LOSS, 0) }

  function WithReading(w: World, put: CatalogPut, r: Reading): World {
    w.(flight := Some(Flight([put], map[put.layer := r])))
  }

  lemma OpenHappens(w: World, put: CatalogPut, first: string, second: string)
    requires put.outcome.requiresRecalculation && w.flight == Some(Flight([put], map[]))
    requires first + second == put.layer.item && Seen(w.tiles, DatabaseDirectory(put.layer.database) + [first, second])
    ensures Opened(w, put.layer, first, second,
                   WithReading(w, put, NewReading(DatabaseDirectory(put.layer.database) + [first, second])))
  {
    var r := NewReading(DatabaseDirectory(put.layer.database) + [first, second]);
    assert [put][0].outcome.requiresRecalculation;
    assert map[][put.layer := r] == map[put.layer := r];
  }

  lemma SkipHappens(w: World, put: CatalogPut, directory: Path, tables: Tables)
    requires put.outcome.requiresRecalculation && Within(TilesIn(w.tiles, directory), tables) == map[]
    ensures Skipped(WithReading(w, put, NewReading(directory)), put.layer, tables,
                    WithReading(w, put, NewReading(directory).(tables := tables)))
  {
    var r := NewReading(directory).(tables := tables);
    assert [put][0].outcome.requiresRecalculation;
    assert iset{} + tables == tables;
    assert map[put.layer := NewReading(directory)][put.layer := r] == map[put.layer := r];
    hide Within;
  }

  /** The reading that remains when one table was there to read. */
  ghost function ReadOne(w: World, put: CatalogPut, directory: Path, table: string): Reading {
    ReadOn(NewReading(directory).(tables := ALL - iset{table}), table,
           Held(TilesIn(w.tiles, directory), iset{table}), Created(w.waiting, put.layer, iset{table}))
  }

  lemma ReadHappens(w: World, put: CatalogPut, directory: Path, table: string)
    requires put.outcome.requiresRecalculation
    ensures TableRead(WithReading(w, put, NewReading(directory).(tables := ALL - iset{table})), put.layer, table,
                      WithReading(w, put, ReadOne(w, put, directory, table)))
    ensures ReadOne(w, put, directory, table).tables == ALL
  {
    var r := NewReading(directory).(tables := ALL - iset{table});
    assert [put][0].outcome.requiresRecalculation;
    var after := ReadOne(w, put, directory, table);
    assert map[put.layer := r][put.layer := after] == map[put.layer := after];
    assert (ALL - iset{table}) + iset{table} == ALL;
    hide Held, Created;
  }

  /** The world after a finished flush. */
  ghost function Landed(w: World, after: Catalog): World
    requires w.flight.Some?
  {
    var f := w.flight.value;
    World(
      w.tiles, w.waiting, None, after,
      map k | k in w.lag.Keys + f.readings.Keys :: if Replaces(f, k) then f.readings[k].lag else LagOf(w.lag, k),
      map k | k in w.lost.Keys + f.readings.Keys :: if Replaces(f, k) then f.readings[k].missed else LostOf(w.lost, k),
      map k | k in w.drift.Keys + f.readings.Keys :: if Replaces(f, k) then f.readings[k].drift else DriftOf(w.drift, k),
      w.missing,
      map k | k in w.folded.Keys + Touched(f.batch) :: CoordsOf(w.folded, k) + Coords(f.batch, k),
      set k | k in w.spoiled + f.readings.Keys && if Replaces(f, k) then f.readings[k].directory != Dir(k) else k in w.spoiled)
  }

  lemma LandedFolded(w: World, after: Catalog, k: LayerKey)
    requires w.flight.Some?
    ensures CoordsOf(Landed(w, after).folded, k) == CoordsOf(w.folded, k) + Coords(w.flight.value.batch, k)
  {
    var f := w.flight.value;
    if k !in Touched(f.batch) { Untouched(f.batch, k); }
    assert k in Landed(w, after).folded <==> k in w.folded || k in Touched(f.batch);
    hide Touched, Coords, Amount, Replaces, Dir;
  }

  lemma LandedHistory(w: World, after: Catalog, k: LayerKey)
    requires w.flight.Some?
    ensures var f, w' := w.flight.value, Landed(w, after);
            && LagOf(w'.lag, k) == (if Replaces(f, k) then f.readings[k].lag else LagOf(w.lag, k))
            && LostOf(w'.lost, k) == (if Replaces(f, k) then f.readings[k].missed else LostOf(w.lost, k))
            && DriftOf(w'.drift, k) == (if Replaces(f, k) then f.readings[k].drift else DriftOf(w.drift, k))
            && (k in w'.spoiled <==> if Replaces(f, k) then f.readings[k].directory != Dir(k) else k in w.spoiled)
  {
    hide Touched, Coords, Dir;
    var f := w.flight.value;
    assert Replaces(f, k) ==> k in f.readings;
    hide Replaces;
  }

  lemma LandedElsewhere(w: World, after: Catalog)
    requires w.flight.Some?
    ensures var w' := Landed(w, after);
            w'.tiles == w.tiles && w'.waiting == w.waiting && w'.flight == None && w'.missing == w.missing && w'.catalog == after
  {
    hide Touched, Coords, Replaces, Dir;
  }

  /** The flush has read back all it has to, and wholly. */
  ghost predicate Ready(f: Flight) {
    && (forall k :: k in Touched(f.batch) && Dirty(f.batch, k.database) && LongId(k.item) ==> k in f.readings)
    && (forall k :: k in f.readings ==> f.readings[k].tables == ALL)
  }

  lemma LandedFinishes(w: World, after: Catalog, deltas: map<string, Delta>)
    requires w.flight.Some? && Ready(w.flight.value)
    requires Written(w.catalog, w.flight.value.batch, Recalculated(w.flight.value), after, deltas)
    ensures Finished(w, deltas, Landed(w, after))
  {
    hide Written, Coords, Touched, Dirty, Landed, CoordsOf, LagOf, LostOf, DriftOf, Recalculated, Dir;
    LandedElsewhere(w, after);
    var f, w' := w.flight.value, Landed(w, after);
    forall k
      ensures CoordsOf(w'.folded, k) == CoordsOf(w.folded, k) + Coords(f.batch, k)
      ensures LagOf(w'.lag, k) == if Replaces(f, k) then f.readings[k].lag else LagOf(w.lag, k)
      ensures LostOf(w'.lost, k) == if Replaces(f, k) then f.readings[k].missed else LostOf(w.lost, k)
      ensures DriftOf(w'.drift, k) == if Replaces(f, k) then f.readings[k].drift else DriftOf(w.drift, k)
      ensures k in w'.spoiled <==> if Replaces(f, k) then f.readings[k].directory != Dir(k) else k in w.spoiled
    {
      LandedFolded(w, after, k);
      LandedHistory(w, after, k);
    }
  }

  /** The flush of a single put comes to its end. */
  lemma FinishHappens(w: World, put: CatalogPut) returns (w': World, deltas: map<string, Delta>)
    requires w.flight.Some? && w.flight.value.batch == [put]
    requires put.outcome.requiresRecalculation && LongId(put.layer.item) ==> put.layer in w.flight.value.readings
    requires forall k :: k in w.flight.value.readings ==> w.flight.value.readings[k].tables == ALL
    ensures Finished(w, deltas, w') && w' == Landed(w, w'.catalog)
    ensures w'.flight == None && w'.waiting == w.waiting && w'.tiles == w.tiles
  {
    hide Written, Finished, Landed, Recalculated, Dir;
    var f := w.flight.value;
    assert Ready(f) by { assert forall k :: k in Touched([put]) ==> k == put.layer; hide Touched; }
    var after;
    after, deltas := WriteExists(w.catalog, put, Recalculated(f));
    LandedFinishes(w, after, deltas);
    LandedElsewhere(w, after);
    w' := Landed(w, after);
  }

  // A tile counted twice

  const LAYER := LayerKey("databases", "layers")
  const FIRST := Coord(9, 0, 0)
  const SECOND := Coord(9, 1, 0)

  function PutAt(layer: LayerKey, at: Coord, bytes: nat, created: bool): CatalogPut {
    CatalogPut(layer, None, None, "data", "png", at, bytes, PutOutcome(created, !created))
  }

  /** Both tiles live in one table. */
  function Table9(): string { TableOf(FIRST) }

  lemma OneTable()
    ensures TableOf(SECOND) == Table9()
  {
    assert 0 / 64 == 1 / 64;
  }

  /** One layer with one tile of five bytes, correctly catalogued. */
  function Initial(layer: LayerKey): World {
    var row := LayerRow("", "png", PointRange(FIRST), 1, 5, 0, true);
    World(
      map[Dir(layer) := map[FIRST := 5]], [], None,
      Catalog(map[layer.database := DatabaseRow("", "data", 5, 1, 1, None, 0, true)], map[layer := row]),
      map[], map[], map[], map[], map[layer := {FIRST}], {})
  }

  lemma InitialAccurate(layer: LayerKey)
    ensures Accurate(Initial(layer), layer)
  {
    var w := Initial(layer);
    var tiles: map<Coord, nat> := map[FIRST := 5];
    assert TilesOf(w, layer) == tiles;
    TotalUpdate(map[], FIRST, 5);
    assert map[][FIRST := 5] == tiles;
    assert tiles.Keys == {FIRST};
    ExtendDescribes({}, NO_RANGE, FIRST);
    assert {} + {FIRST} == {FIRST};
    assert Extend(NO_RANGE, FIRST) == PointRange(FIRST);
    hide Describes, Dir;
  }

  const OVER := PutAt(LAYER, FIRST, 7, false)
  const CREATE := PutAt(LAYER, SECOND, 3, true)

  function World1(): World { AfterCommit(Initial(LAYER), OVER) }

  function World2(): World { AfterCommit(World1(), CREATE) }

  function World3(): World { World2().(flight := Some(Flight([OVER], map[])), waiting := [CREATE]) }

  ghost function World4(): World { WithReading(World3(), OVER, ReadOne(World3(), OVER, Dir(LAYER), Table9())) }

  lemma Worlds()
    ensures Alone(LAYER) && LongId(LAYER.item) && "laye" + "rs" == LAYER.item
    ensures Dir(LAYER) == DatabaseDirectory(LAYER.database) + ["laye", "rs"]
    ensures TilesOf(Initial(LAYER), LAYER) == map[FIRST := 5] && TilesOf(World1(), LAYER) == map[FIRST := 7]
    ensures World3().tiles == map[Dir(LAYER) := map[FIRST := 7, SECOND := 3]]
    ensures World2().waiting == [OVER, CREATE] == [OVER] + [CREATE] && World2().flight == None
  {
    LongDatabaseAlone(LAYER);
    var item := LAYER.item;
    assert item[..4] == "laye" && item[4..] == "rs";
    assert IdPath(item) == ["laye", "rs"];
    hide Dir;
    assert map[FIRST := 5][FIRST := 7] == map[FIRST := 7];
    assert map[FIRST := 7][SECOND := 3] == map[FIRST := 7, SECOND := 3];
  }

  lemma FirstSteps()
    ensures Next(Initial(LAYER), Commit(OVER, Some(0)), World1())
    ensures Next(World1(), Commit(CREATE, Some(1)), World2())
    ensures Next(World2(), Take(1), World3())
  {
    Worlds();
    hide Committed, Taken, Dir, Alone, TilesOf;
    CommitHappens(Initial(LAYER), OVER);
    CommitHappens(World1(), CREATE);
    TakeHappens(World2(), OVER, [CREATE]);
  }

  lemma NothingElse()
    ensures Within(TilesIn(World3().tiles, Dir(LAYER)), ALL - iset{Table9()}) == map[]
    ensures Seen(World3().tiles, Dir(LAYER))
  {
    Worlds();
    OneTable();
    hide TableOf, World3, Dir, ZoomDirectory;
    var d := Dir(LAYER);
    assert d in World3().tiles && FIRST in World3().tiles[d];
    var p := d + [ZoomDirectory(FIRST)];
    assert p[..|d|] == d;
    assert Under(d, p);
  }

  ghost function Skipping(): World {
    WithReading(World3(), OVER, NewReading(Dir(LAYER)).(tables := ALL - iset{Table9()}))
  }

  lemma ReadingSteps()
    ensures Next(World3(), Open(LAYER, "laye", "rs"), WithReading(World3(), OVER, NewReading(Dir(LAYER))))
    ensures Next(WithReading(World3(), OVER, NewReading(Dir(LAYER))), Skip(LAYER, ALL - iset{Table9()}), Skipping())
    ensures Next(Skipping(), ReadTable(LAYER, Table9()), World4())
  {
    Worlds();
    NothingElse();
    hide Opened, Skipped, TableRead, Dir, Table9, World2, Seen, Within, TilesIn;
    OpenHappens(World3(), OVER, "laye", "rs");
    SkipHappens(World3(), OVER, Dir(LAYER), ALL - iset{Table9()});
    ReadHappens(World3(), OVER, Dir(LAYER), Table9());
  }

  lemma LagOfOne()
    ensures ReadOne(World3(), OVER, Dir(LAYER), Table9()).lag.tileCount == 1
  {
    OneTable();
    OfSingle(CREATE, LAYER, iset{Table9()}, Creations);
    hide TableOf, Amount, Held, Dir, World2, TilesIn;
  }

  lemma LagSurvives(w5: World, w6: World, w7: World)
    requires w5.lag == Landed(World4(), w5.catalog).lag && w6.lag == w5.lag
    requires w6.flight.Some? && w6.flight.value.readings == map[] && w7.lag == Landed(w6, w7.catalog).lag
    ensures LagOf(w7.lag, LAYER).tileCount == 1
  {
    LagOfOne();
    assert OVER in [OVER] && LAYER in Touched([OVER]);
    LandedHistory(World4(), w5.catalog, LAYER);
    LandedHistory(w6, w7.catalog, LAYER);
    hide Landed, ReadOne, Dir, World3, Touched;
  }

  lemma FirstFlush() returns (w5: World, d5: map<string, Delta>)
    ensures Next(World4(), Finish(d5), w5) && w5.waiting == [CREATE] + [] && w5.flight == None
    ensures w5 == Landed(World4(), w5.catalog)
  {
    hide Finished, Landed, ReadOne, Dir, World2, Table9;
    ReadHappens(World3(), OVER, Dir(LAYER), Table9());
    w5, d5 := FinishHappens(World4(), OVER);
  }

  lemma LastSteps() returns (w5: World, d5: map<string, Delta>, w6: World, w7: World, d7: map<string, Delta>)
    ensures Next(World4(), Finish(d5), w5) && Next(w5, Take(1), w6) && Next(w6, Finish(d7), w7)
    ensures w7.waiting == [] && w7.flight == None && LagOf(w7.lag, LAYER).tileCount == 1
  {
    hide Finished, Landed, Taken, LagOf, Dir, World4;
    w5, d5 := FirstFlush();
    w6 := w5.(flight := Some(Flight([CREATE], map[])), waiting := []);
    TakeHappens(w5, CREATE, []);
    w7, d7 := FinishHappens(w6, CREATE);
    LagSurvives(w5, w6, w7);
  }

  lemma Steady(k: LayerKey)
    requires k == LAYER
    ensures LongTiles(Initial(k).tiles)
    ensures Untroubled(Commit(OVER, Some(0)), k) && Untroubled(Commit(CREATE, Some(1)), k)
  {
    hide Dir;
    assert LongId(k.database) && LongId(k.item);
  }

  ghost function TheRun(w5: World, w6: World, w7: World): seq<World> {
    [Initial(LAYER), World1(), World2(), World3(), WithReading(World3(), OVER, NewReading(Dir(LAYER))), Skipping(), World4(),
     w5, w6, w7]
  }

  ghost function TheSteps(d5: map<string, Delta>, d7: map<string, Delta>): seq<Step> {
    [Commit(OVER, Some(0)), Commit(CREATE, Some(1)), Take(1), Open(LAYER, "laye", "rs"), Skip(LAYER, ALL - iset{Table9()}),
     ReadTable(LAYER, Table9()), Finish(d5), Take(1), Finish(d7)]
  }

  /** What the steps of the run have in common. */
  lemma LongRun(d5: map<string, Delta>, d7: map<string, Delta>)
    ensures forall s :: 0 <= s < 9 ==> Untroubled(TheSteps(d5, d7)[s], LAYER) && LongStep(TheSteps(d5, d7)[s])
  {
    Steady(LAYER);
    hide Hits, Table9;
  }

  lemma RunHappens(w5: World, d5: map<string, Delta>, w6: World, w7: World, d7: map<string, Delta>)
    requires Next(World4(), Finish(d5), w5) && Next(w5, Take(1), w6) && Next(w6, Finish(d7), w7)
    ensures IsRun(TheRun(w5, w6, w7), TheSteps(d5, d7))
  {
    FirstSteps();
    ReadingSteps();
    hide Next, World1, World2, World3, World4, Skipping, WithReading, Dir, Table9, Initial, IsRun;
    NineSteps(TheRun(w5, w6, w7), TheSteps(d5, d7));
  }

  /** An overwrite and a creation are committed; the flush that takes only the overwrite reads the creation back from the
      shards, and the next flush adds it again. Nothing fails, nothing is lost, and the walk meets the layer's own
      directory under the layer's own id. */
  lemma RecalculationCountsTwice() returns (run: seq<World>, steps: seq<Step>)
    ensures IsRun(run, steps) && Accurate(run[0], LAYER)
    ensures forall s :: 0 <= s < |steps| ==> Untroubled(steps[s], LAYER) && LongStep(steps[s])
    ensures LongId(LAYER.database) && LongId(LAYER.item) && LongTiles(run[0].tiles)
    ensures var w := run[|run| - 1];
            && w.waiting == [] && w.flight == None
            && Row(w, LAYER).tileCount > |TilesOf(w, LAYER)|
  {
    InitialAccurate(LAYER);
    Steady(LAYER);
    Worlds();
    assert LongId(LAYER.database);
    hide IsRun, Accurate, Untroubled, LongStep, LongTiles, Next, Row, TilesOf, LagOf, World1, World2, World3, World4, Skipping,
      Initial, Dir, Table9, Alone;
    var w5, d5, w6, w7, d7 := LastSteps();
    run, steps := TheRun(w5, w6, w7), TheSteps(d5, d7);
    LongRun(d5, d7);
    RunHappens(w5, d5, w6, w7, d7);
    DrainedCount(run, steps);
  }

  lemma DrainedCount(run: seq<World>, steps: seq<Step>)
    requires IsRun(run, steps) && Accurate(run[0], LAYER) && LongTiles(run[0].tiles) && |steps| == 9
    requires forall s :: 0 <= s < |steps| ==> Untroubled(steps[s], LAYER) && LongStep(steps[s])
    requires run[9].waiting == [] && run[9].flight == None && LagOf(run[9].lag, LAYER).tileCount == 1
    ensures Row(run[9], LAYER).tileCount > |TilesOf(run[9], LAYER)|
  {
    assert LongId(LAYER.database) && LongId(LAYER.item);
    assert Idle(run[0]);
    hide IsRun, Accurate, Idle, Untroubled, LongStep, LongTiles, Lossless, NothingLost, LagOf, Row, TilesOf, Summarizes;
    NoFailureNoLoss(run, steps, 9, LAYER);
    LongIdsNeverSpoiled(run, steps, 9, LAYER);
    DrainedAgreement(run, steps, 9, LAYER);
  }

  lemma NineSteps(run: seq<World>, steps: seq<Step>)
    requires |run| == 10 && |steps| == 9
    requires Next(run[0], steps[0], run[1]) && Next(run[1], steps[1], run[2]) && Next(run[2], steps[2], run[3])
    requires Next(run[3], steps[3], run[4]) && Next(run[4], steps[4], run[5]) && Next(run[5], steps[5], run[6])
    requires Next(run[6], steps[6], run[7]) && Next(run[7], steps[7], run[8]) && Next(run[8], steps[8], run[9])
    ensures IsRun(run, steps)
  {
    hide Next;
  }
}
