/** The management catalog: one row per layer, one row per database holding the sums of its layers. */
module Catalog {
  import opened Tiles
  import opened Sums
  import opened Layers

  datatype LayerKey = LayerKey(database: string, item: string)

  datatype LayerRow = LayerRow(
    name: string, format: string, range: Range, tileCount: int, bytes: int, updatedAt: int, revocable: bool)

  datatype DatabaseRow = DatabaseRow(
    name: string, path: string, bytes: int, tileCount: int, layerCount: int,
    lastAccessAt: Option<int>, updatedAt: int, revocable: bool)

  datatype Catalog = Catalog(databases: map<string, DatabaseRow>, layers: map<LayerKey, LayerRow>)

  /** A committed put on its way into the catalog. */
  datatype CatalogPut = CatalogPut(
    layer: LayerKey, databaseName: Option<string>, itemName: Option<string>, path: string, format: string,
    at: Coord, bytes: nat, outcome: PutOutcome)

  /** Count and bytes of a layer as read back from its shards. */
  datatype Recount = Recount(tileCount: int, bytes: int)

  function Or<T>(a: Option<T>, b: Option<T>): Option<T> { if a.Some? then a else b }

  function GetOr<T>(a: Option<T>, default: T): T { if a.Some? then a.value else default }

  // Sums over the layers of a database

  datatype Field = TileCount | ByteCount | Unit

  function Value(row: LayerRow, field: Field): int {
    match field case TileCount => row.tileCount case ByteCount => row.bytes case Unit => 1
  }

  function Column(layers: map<LayerKey, LayerRow>, database: string, field: Field): map<LayerKey, int> {
    map k | k in layers && k.database == database :: Value(layers[k], field)
  }

  ghost function LayerSum(layers: map<LayerKey, LayerRow>, database: string, field: Field): int {
    Total(Column(layers, database, field))
  }

  function Old(layers: map<LayerKey, LayerRow>, key: LayerKey, field: Field): int {
    if key in layers then Value(layers[key], field) else 0
  }

  lemma SumAfterUpdate(layers: map<LayerKey, LayerRow>, key: LayerKey, row: LayerRow, database: string, field: Field)
    ensures LayerSum(layers[key := row], database, field) == LayerSum(layers, database, field)
            + if database == key.database then Value(row, field) - Old(layers, key, field) else 0
  {
    var before, after := Column(layers, database, field), Column(layers[key := row], database, field);
    if database == key.database {
      assert after == before[key := Value(row, field)];
      TotalUpdate(before, key, Value(row, field));
    } else {
      assert after == before;
    }
  }

  lemma SumAfterRemove(layers: map<LayerKey, LayerRow>, key: LayerKey, database: string, field: Field)
    requires key in layers
    ensures LayerSum(layers - {key}, database, field) == LayerSum(layers, database, field)
            - if database == key.database then Value(layers[key], field) else 0
  {
    var before, after := Column(layers, database, field), Column(layers - {key}, database, field);
    if database == key.database {
      assert after == before - {key};
      TotalRemove(before, key);
    } else {
      assert after == before;
    }
  }

  lemma SumWithoutLayers(layers: map<LayerKey, LayerRow>, database: string, field: Field)
    requires forall k :: k in layers ==> k.database != database
    ensures LayerSum(layers, database, field) == 0
  {
    assert Column(layers, database, field) == map[];
  }

  /** The sum of ones is the number of layers. */
  lemma UnitSumCounts(layers: map<LayerKey, LayerRow>, database: string)
    ensures LayerSum(layers, database, Unit) == |set k | k in layers && k.database == database|
  {
    var ones := Column(layers, database, Unit);
    TotalOfOnes(ones);
    assert ones.Keys == set k | k in layers && k.database == database;
  }

  lemma {:induction false} TotalOfOnes<K>(m: map<K, int>)
    requires forall k :: k in m ==> m[k] == 1
    ensures Total(m) == |m|
    decreases |m|
  {
    if m != map[] {
      var k := Pick(m);
      RemoveShrinks(m, k);
      TotalOfOnes(m - {k});
    }
  }

  // What a batch does to one layer

  datatype Draft = Draft(
    name: Option<string>, databaseName: Option<string>, format: string, range: Range, tileCount: int, bytes: int)

  function FoldPut(d: Draft, put: CatalogPut): Draft {
    Draft(
      Or(d.name, put.itemName), Or(d.databaseName, put.databaseName), put.format, Extend(d.range, put.at),
      d.tileCount + (if put.outcome.created then 1 else 0),
      d.bytes + (if put.outcome.created then put.bytes else 0))
  }

  function FoldAll(d: Draft, puts: seq<CatalogPut>): Draft {
    if puts == [] then d else FoldPut(FoldAll(d, puts[..|puts| - 1]), puts[|puts| - 1])
  }

  /** The puts of a batch that concern one layer, in order. */
  function Of(batch: seq<CatalogPut>, key: LayerKey): seq<CatalogPut> {
    if batch == [] then []
    else
      var n := |batch| - 1;
      Of(batch[..n], key) + if batch[n].layer == key then [batch[n]] else []
  }

  function Touched(batch: seq<CatalogPut>): set<LayerKey> {
    set put | put in batch :: put.layer
  }

  function Start(layers: map<LayerKey, LayerRow>, key: LayerKey): Draft {
    if key in layers
    then Draft(None, None, "", layers[key].range, layers[key].tileCount, layers[key].bytes)
    else Draft(None, None, "", NO_RANGE, 0, 0)
  }

  /** The row that replaces a layer's row; a display name that is already set is kept. */
  function NewRow(
    layers: map<LayerKey, LayerRow>, key: LayerKey, draft: Draft, recalculated: map<LayerKey, Recount>, now: int): LayerRow
  {
    var offered := GetOr(draft.name, "");
    LayerRow(
      if key in layers && layers[key].name != "" then layers[key].name else offered,
      draft.format, draft.range,
      if key in recalculated then recalculated[key].tileCount else draft.tileCount,
      if key in recalculated then recalculated[key].bytes else draft.bytes,
      now,
      if key in layers then layers[key].revocable else true)
  }

  function DatabasesOf(keys: set<LayerKey>): set<string> {
    set k | k in keys :: k.database
  }

  predicate SameLayer(a: LayerRow, b: LayerRow) { a == b.(updatedAt := a.updatedAt) }

  ghost predicate LayersWritten(
    before: map<LayerKey, LayerRow>, batch: seq<CatalogPut>, recalculated: map<LayerKey, Recount>,
    done: set<LayerKey>, after: map<LayerKey, LayerRow>)
  {
    && after.Keys == before.Keys + done
    && (forall k :: k in before && k !in done ==> after[k] == before[k])
    && (forall k :: k in done ==>
          SameLayer(after[k], NewRow(before, k, FoldAll(Start(before, k), Of(batch, k)), recalculated, 0)))
  }

  // What it does to the databases

  datatype Delta = Delta(name: Option<string>, path: string, tiles: int, bytes: int, layers: int, updatedAt: int)

  function DeltaOf(d: Delta, field: Field): int {
    match field case TileCount => d.tiles case ByteCount => d.bytes case Unit => d.layers
  }

  /** The accumulated deltas are the changes of the sums. */
  ghost predicate DeltasExact(
    before: map<LayerKey, LayerRow>, after: map<LayerKey, LayerRow>, deltas: map<string, Delta>)
  {
    forall d: string, f: Field ::
      LayerSum(after, d, f) == LayerSum(before, d, f) + if d in deltas then DeltaOf(deltas[d], f) else 0
  }

  /** Names and paths come from the puts of the same database: a name from one that offers it, and none only if no put
      to the layers `done` offers one. */
  predicate Sourced(batch: seq<CatalogPut>, done: set<LayerKey>, database: string, delta: Delta) {
    && (exists put :: put in batch && put.layer.database == database && put.path == delta.path)
    && (delta.name.Some? ==>
          exists put :: put in batch && put.layer.database == database && put.databaseName == delta.name)
    && (delta.name.None? ==>
          forall put :: put in batch && put.layer in done && put.layer.database == database ==> put.databaseName == None)
  }

  function Upserted(databases: map<string, DatabaseRow>, database: string, delta: Delta): DatabaseRow {
    var offered := GetOr(delta.name, "");
    if database in databases then
      var row := databases[database];
      DatabaseRow(
        if row.name == "" then offered else row.name, delta.path, Max(0, row.bytes + delta.bytes),
        row.tileCount + delta.tiles, row.layerCount + delta.layers, Some(delta.updatedAt), delta.updatedAt, row.revocable)
    else
      DatabaseRow(
        offered, delta.path, Max(delta.bytes, 0), delta.tiles, delta.layers, Some(delta.updatedAt), delta.updatedAt, true)
  }

  ghost predicate DatabasesWritten(
    before: map<string, DatabaseRow>, deltas: map<string, Delta>, done: set<string>, after: map<string, DatabaseRow>)
    requires done <= deltas.Keys
  {
    && after.Keys == before.Keys + done
    && (forall d :: d in before && d !in done ==> after[d] == before[d])
    && (forall d :: d in done ==> after[d] == Upserted(before, d, deltas[d]))
  }

  /** The relation that one committed batch establishes, for any order of groups and databases. */
  ghost predicate Written(
    cat: Catalog, batch: seq<CatalogPut>, recalculated: map<LayerKey, Recount>, after: Catalog, deltas: map<string, Delta>)
  {
    && LayersWritten(cat.layers, batch, recalculated, Touched(batch), after.layers)
    && DeltasExact(cat.layers, after.layers, deltas)
    && deltas.Keys == DatabasesOf(Touched(batch))
    && (forall d :: d in deltas ==> Sourced(batch, Touched(batch), d, deltas[d]))
    && DatabasesWritten(cat.databases, deltas, deltas.Keys, after.databases)
  }

  // The loops

  method GroupByLayer(batch: seq<CatalogPut>) returns (groups: map<LayerKey, seq<CatalogPut>>)
    ensures groups.Keys == Touched(batch)
    ensures forall k :: k in groups ==> groups[k] == Of(batch, k) && groups[k] != []
  {
    groups := map[];
    for n := 0 to |batch|
      invariant groups.Keys == Touched(batch[..n])
      invariant forall k :: k in groups ==> groups[k] == Of(batch[..n], k) && groups[k] != []
      invariant forall k :: k !in groups ==> Of(batch[..n], k) == []
    {
      var put := batch[n];
      assert batch[..n + 1] == batch[..n] + [put];
      assert batch[..n + 1][..n] == batch[..n];
      var sofar := if put.layer in groups then groups[put.layer] else [];
      groups := groups[put.layer := sofar + [put]];
    }
    assert batch[..|batch|] == batch;
  }

  method FoldGroup(start: Draft, commands: seq<CatalogPut>) returns (draft: Draft)
    ensures draft == FoldAll(start, commands)
  {
    draft := start;
    for n := 0 to |commands|
      invariant draft == FoldAll(start, commands[..n])
    {
      assert commands[..n + 1][..n] == commands[..n];
      draft := FoldPut(draft, commands[n]);
    }
    assert commands[..|commands|] == commands;
  }

  /** A name in a folded draft was offered by one of its puts. */
  lemma {:induction false} DraftNameOffered(start: Draft, puts: seq<CatalogPut>)
    requires start.databaseName == None && FoldAll(start, puts).databaseName.Some?
    ensures exists i :: 0 <= i < |puts| && puts[i].databaseName == FoldAll(start, puts).databaseName
  {
    if puts != [] {
      var n := |puts| - 1;
      if FoldAll(start, puts[..n]).databaseName.Some? {
        DraftNameOffered(start, puts[..n]);
        var i :| 0 <= i < n && puts[..n][i].databaseName == FoldAll(start, puts[..n]).databaseName;
        assert puts[i].databaseName == FoldAll(start, puts).databaseName;
      } else {
        assert puts[n].databaseName == FoldAll(start, puts).databaseName;
      }
    }
  }

  /** A folded draft has no name only if none of its puts offers one. */
  lemma {:induction false} NoDraftName(start: Draft, puts: seq<CatalogPut>)
    requires FoldAll(start, puts).databaseName == None
    ensures forall i :: 0 <= i < |puts| ==> puts[i].databaseName == None
  {
    if puts != [] { NoDraftName(start, puts[..|puts| - 1]); }
  }

  /** All the puts to a layer are in its group. */
  lemma {:induction false} OfAll(batch: seq<CatalogPut>, put: CatalogPut)
    requires put in batch
    ensures put in Of(batch, put.layer)
  {
    var n := |batch| - 1;
    if batch[n] != put {
      assert batch == batch[..n] + [batch[n]];
      OfAll(batch[..n], put);
    }
  }

  lemma {:induction false} OfMembers(batch: seq<CatalogPut>, key: LayerKey)
    ensures forall put :: put in Of(batch, key) ==> put in batch && put.layer == key
  {
    if batch != [] { OfMembers(batch[..|batch| - 1], key); }
  }

  lemma DeltaSourced(batch: seq<CatalogPut>, key: LayerKey, commands: seq<CatalogPut>, start: Draft)
    requires commands == Of(batch, key) && commands != [] && start.databaseName == None
    ensures forall i :: 0 <= i < |commands| ==> commands[i] in batch && commands[i].layer == key
    ensures FoldAll(start, commands).databaseName.Some? ==>
              exists put :: put in batch && put.layer == key && put.databaseName == FoldAll(start, commands).databaseName
    ensures FoldAll(start, commands).databaseName.None? ==>
              forall put :: put in batch && put.layer == key ==> put.databaseName == None
  {
    OfMembers(batch, key);
    forall put | put in batch && put.layer == key ensures put in commands { OfAll(batch, put); }
    if FoldAll(start, commands).databaseName.None? { NoDraftName(start, commands); }
    if FoldAll(start, commands).databaseName.Some? {
      DraftNameOffered(start, commands);
      var i :| 0 <= i < |commands| && commands[i].databaseName == FoldAll(start, commands).databaseName;
      assert commands[i] in commands;
    }
  }

  /** The delta entry of a database, after one of its layers got a new row. */
  function AddDelta(
    deltas: map<string, Delta>, work: map<LayerKey, LayerRow>, key: LayerKey, row: LayerRow, draft: Draft, path: string,
    now: int): Delta
  {
    var d := if key.database in deltas then deltas[key.database] else Delta(draft.databaseName, path, 0, 0, 0, now);
    Delta(
      Or(d.name, draft.databaseName), path, d.tiles + row.tileCount - Old(work, key, TileCount),
      d.bytes + row.bytes - Old(work, key, ByteCount), d.layers + 1 - Old(work, key, Unit), now)
  }

  lemma LayerStep(
    before: map<LayerKey, LayerRow>, batch: seq<CatalogPut>, recalculated: map<LayerKey, Recount>,
    done: set<LayerKey>, work: map<LayerKey, LayerRow>, key: LayerKey, now: int)
    requires LayersWritten(before, batch, recalculated, done, work) && key !in done
    ensures key in work <==> key in before
    ensures key in before ==> work[key] == before[key]
    ensures LayersWritten(
              before, batch, recalculated, done + {key},
              work[key := NewRow(before, key, FoldAll(Start(before, key), Of(batch, key)), recalculated, now)])
  {
  }

  lemma SameStart(
    before: map<LayerKey, LayerRow>, work: map<LayerKey, LayerRow>, key: LayerKey, draft: Draft,
    recalculated: map<LayerKey, Recount>, now: int)
    requires key in work <==> key in before
    requires key in before ==> work[key] == before[key]
    ensures Start(work, key) == Start(before, key)
    ensures NewRow(work, key, draft, recalculated, now) == NewRow(before, key, draft, recalculated, now)
    ensures Start(work, key).databaseName == None
  {
  }

  /** Every written row and every delta carries the time of the write. */
  predicate Stamped(done: set<LayerKey>, work: map<LayerKey, LayerRow>, deltas: map<string, Delta>, now: int) {
    && (forall k :: k in done && k in work ==> work[k].updatedAt == now)
    && forall d :: d in deltas ==> deltas[d].updatedAt == now
  }

  lemma RowStamp(
    layers: map<LayerKey, LayerRow>, key: LayerKey, draft: Draft, recalculated: map<LayerKey, Recount>, now: int)
    ensures NewRow(layers, key, draft, recalculated, now).updatedAt == now
  {
  }

  lemma DeltaStep(
    before: map<LayerKey, LayerRow>, work: map<LayerKey, LayerRow>, deltas: map<string, Delta>,
    key: LayerKey, row: LayerRow, draft: Draft, path: string, now: int)
    requires DeltasExact(before, work, deltas)
    ensures DeltasExact(before, work[key := row],
                        deltas[key.database := AddDelta(deltas, work, key, row, draft, path, now)])
  {
    hide LayerSum, Old;
    var after := deltas[key.database := AddDelta(deltas, work, key, row, draft, path, now)];
    forall d: string, f: Field
      ensures LayerSum(work[key := row], d, f) ==
              LayerSum(before, d, f) + if d in after then DeltaOf(after[d], f) else 0
    {
      SumAfterUpdate(work, key, row, d, f);
    }
  }

  lemma SourceStep(
    batch: seq<CatalogPut>, done: set<LayerKey>, deltas: map<string, Delta>, work: map<LayerKey, LayerRow>, key: LayerKey,
    row: LayerRow, commands: seq<CatalogPut>, start: Draft, now: int)
    requires forall d :: d in deltas ==> Sourced(batch, done, d, deltas[d])
    requires deltas.Keys == DatabasesOf(done)
    requires commands == Of(batch, key) && commands != [] && start.databaseName == None
    ensures var delta := AddDelta(deltas, work, key, row, FoldAll(start, commands), commands[0].path, now);
            Sourced(batch, done + {key}, key.database, delta) && delta.updatedAt == now
    ensures forall d :: d in deltas && d != key.database ==> Sourced(batch, done + {key}, d, deltas[d])
  {
    hide FoldAll, Of, Old, DatabasesOf, Sourced;
    DeltaSourced(batch, key, commands, start);
    assert commands[0] in batch && commands[0].layer == key;
    var draft := FoldAll(start, commands);
    if key.database in deltas {
      SourcedMore(batch, done, key, deltas[key.database], draft.databaseName,
                  AddDelta(deltas, work, key, row, draft, commands[0].path, now), commands[0]);
    } else {
      SourcedFirst(batch, done, key, AddDelta(deltas, work, key, row, draft, commands[0].path, now), commands[0]);
    }
    forall d | d in deltas && d != key.database ensures Sourced(batch, done + {key}, d, deltas[d]) {
      SourcedElsewhere(batch, done, key, d, deltas[d]);
    }
  }

  lemma SourcedElsewhere(batch: seq<CatalogPut>, done: set<LayerKey>, key: LayerKey, d: string, delta: Delta)
    requires Sourced(batch, done, d, delta) && d != key.database
    ensures Sourced(batch, done + {key}, d, delta)
  {
  }

  lemma SourcedFirst(batch: seq<CatalogPut>, done: set<LayerKey>, key: LayerKey, delta: Delta, first: CatalogPut)
    requires key.database !in DatabasesOf(done)
    requires first in batch && first.layer == key && delta.path == first.path
    requires delta.name.Some? ==> exists put :: put in batch && put.layer == key && put.databaseName == delta.name
    requires delta.name.None? ==> forall put :: put in batch && put.layer == key ==> put.databaseName == None
    ensures Sourced(batch, done + {key}, key.database, delta)
  {
  }

  lemma SourcedMore(
    batch: seq<CatalogPut>, done: set<LayerKey>, key: LayerKey, before: Delta, offered: Option<string>, after: Delta,
    first: CatalogPut)
    requires Sourced(batch, done, key.database, before) && after.name == Or(before.name, offered)
    requires first in batch && first.layer == key && after.path == first.path
    requires offered.Some? ==> exists put :: put in batch && put.layer == key && put.databaseName == offered
    requires offered.None? ==> forall put :: put in batch && put.layer == key ==> put.databaseName == None
    ensures Sourced(batch, done + {key}, key.database, after)
  {
  }

  /** The loop over the groups, in whatever order the map yields them. */
  method WriteLayers(
    before: map<LayerKey, LayerRow>, batch: seq<CatalogPut>, recalculated: map<LayerKey, Recount>, now: int)
    returns (work: map<LayerKey, LayerRow>, deltas: map<string, Delta>)
    ensures LayersWritten(before, batch, recalculated, Touched(batch), work)
    ensures DeltasExact(before, work, deltas)
    ensures deltas.Keys == DatabasesOf(Touched(batch))
    ensures forall d :: d in deltas ==> Sourced(batch, Touched(batch), d, deltas[d])
    ensures Stamped(Touched(batch), work, deltas, now)
  {
    hide Of, NewRow, Start, FoldAll, LayerSum, SameLayer, DeltaOf;
    var groups := GroupByLayer(batch);
    work, deltas := before, map[];
    var todo := groups.Keys;
    ghost var done: set<LayerKey> := {};
    while todo != {}
      invariant done !! todo && done + todo == groups.Keys
      invariant LayersWritten(before, batch, recalculated, done, work)
      invariant DeltasExact(before, work, deltas)
      invariant deltas.Keys == DatabasesOf(done)
      invariant forall d :: d in deltas ==> Sourced(batch, done, d, deltas[d])
      invariant Stamped(done, work, deltas, now)
      decreases todo
    {
      var key :| key in todo;
      hide LayersWritten, DeltasExact, Sourced, Stamped;
      work, deltas := WriteLayer(before, batch, recalculated, done, work, deltas, key, groups[key], now);
      todo, done := todo - {key}, done + {key};
    }
    assert done == Touched(batch);
  }

  method WriteLayer(
    ghost before: map<LayerKey, LayerRow>, ghost batch: seq<CatalogPut>, recalculated: map<LayerKey, Recount>,
    ghost done: set<LayerKey>, work: map<LayerKey, LayerRow>, deltas: map<string, Delta>,
    key: LayerKey, commands: seq<CatalogPut>, now: int)
    returns (work': map<LayerKey, LayerRow>, deltas': map<string, Delta>)
    requires LayersWritten(before, batch, recalculated, done, work) && key !in done
    requires DeltasExact(before, work, deltas) && deltas.Keys == DatabasesOf(done)
    requires forall d :: d in deltas ==> Sourced(batch, done, d, deltas[d])
    requires Stamped(done, work, deltas, now)
    requires commands == Of(batch, key) && commands != []
    ensures LayersWritten(before, batch, recalculated, done + {key}, work')
    ensures DeltasExact(before, work', deltas') && deltas'.Keys == DatabasesOf(done + {key})
    ensures forall d :: d in deltas' ==> Sourced(batch, done + {key}, d, deltas'[d])
    ensures Stamped(done + {key}, work', deltas', now)
  {
    hide LayersWritten, DeltasExact, Sourced, NewRow, Start, FoldAll, Of, AddDelta;
    var start := Start(work, key);
    var draft := FoldGroup(start, commands);
    var row := NewRow(work, key, draft, recalculated, now);
    LayerStep(before, batch, recalculated, done, work, key, now);
    RowStamp(work, key, draft, recalculated, now);
    SameStart(before, work, key, draft, recalculated, now);
    DeltaStep(before, work, deltas, key, row, draft, commands[0].path, now);
    SourceStep(batch, done, deltas, work, key, row, commands, start, now);
    deltas' := deltas[key.database := AddDelta(deltas, work, key, row, draft, commands[0].path, now)];
    work' := work[key := row];
  }

  /** The upserts of the database rows, in any order. */
  method WriteDatabases(before: map<string, DatabaseRow>, deltas: map<string, Delta>)
    returns (work: map<string, DatabaseRow>)
    ensures DatabasesWritten(before, deltas, deltas.Keys, work)
  {
    work := before;
    var todo := deltas.Keys;
    ghost var done: set<string> := {};
    while todo != {}
      invariant done !! todo && done + todo == deltas.Keys
      invariant DatabasesWritten(before, deltas, done, work)
      decreases todo
    {
      var d :| d in todo;
      work := work[d := Upserted(work, d, deltas[d])];
      todo, done := todo - {d}, done + {d};
    }
    assert done == deltas.Keys;
  }

  /** One transaction: if it `fails` at any statement the catalog is as it was. */
  method WriteCatalogBatch(
    cat: Catalog, batch: seq<CatalogPut>, recalculated: map<LayerKey, Recount>, now: int, fails: bool)
    returns (after: Catalog, ghost deltas: map<string, Delta>)
    ensures fails ==> after == cat
    ensures !fails ==> Written(cat, batch, recalculated, after, deltas)
    ensures !fails ==>
              && (forall k :: k in Touched(batch) ==> after.layers[k].updatedAt == now)
              && (forall d :: d in DatabasesOf(Touched(batch)) ==>
                    after.databases[d].updatedAt == now && after.databases[d].lastAccessAt == Some(now))
  {
    var layers, changes := WriteLayers(cat.layers, batch, recalculated, now);
    var databases := WriteDatabases(cat.databases, changes);
    deltas := changes;
    after := if fails then cat else Catalog(databases, layers);
  }
}
