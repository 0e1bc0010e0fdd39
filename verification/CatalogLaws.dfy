/** What every catalog operation keeps: database rows are the sums of their layers. */
module CatalogLaws {
  import opened Tiles
  import opened Layers
  import opened Catalog

  predicate LayerSane(row: LayerRow) { row.tileCount >= 0 && row.bytes >= 0 }

  ghost predicate RowExact(layers: map<LayerKey, LayerRow>, d: string, row: DatabaseRow) {
    && row.tileCount == LayerSum(layers, d, TileCount)
    && row.layerCount == LayerSum(layers, d, Unit)
    && row.bytes >= 0
  }

  /** Every layer has a database row, and that row's counts are the sum and the number of its layers. */
  ghost predicate Conserved(cat: Catalog) {
    && (forall k :: k in cat.layers ==> k.database in cat.databases && LayerSane(cat.layers[k]))
    && (forall d :: d in cat.databases ==> RowExact(cat.layers, d, cat.databases[d]))
  }

  ghost predicate NonNegative(recalculated: map<LayerKey, Recount>) {
    forall k :: k in recalculated ==> recalculated[k].tileCount >= 0 && recalculated[k].bytes >= 0
  }

  /** Protection flags and display names that are set survive. */
  ghost predicate KeepsLayerSettings(cat: map<LayerKey, LayerRow>, after: map<LayerKey, LayerRow>) {
    forall k :: k in cat && k in after ==>
                  after[k].revocable == cat[k].revocable && (cat[k].name != "" ==> after[k].name == cat[k].name)
  }

  ghost predicate KeepsDatabaseSettings(cat: map<string, DatabaseRow>, after: map<string, DatabaseRow>) {
    forall d :: d in cat && d in after ==>
                  after[d].revocable == cat[d].revocable && (cat[d].name != "" ==> after[d].name == cat[d].name)
  }

  ghost predicate KeepsSettings(cat: Catalog, after: Catalog) {
    KeepsLayerSettings(cat.layers, after.layers) && KeepsDatabaseSettings(cat.databases, after.databases)
  }

  lemma {:induction false} FoldGrows(d: Draft, puts: seq<CatalogPut>)
    ensures FoldAll(d, puts).tileCount >= d.tileCount && FoldAll(d, puts).bytes >= d.bytes
  {
    if puts != [] { FoldGrows(d, puts[..|puts| - 1]); }
  }

  lemma WrittenLayer(
    layers: map<LayerKey, LayerRow>, batch: seq<CatalogPut>, recalculated: map<LayerKey, Recount>,
    after: map<LayerKey, LayerRow>, k: LayerKey)
    requires LayersWritten(layers, batch, recalculated, Touched(batch), after) && NonNegative(recalculated)
    requires k in after && (k in layers ==> LayerSane(layers[k]))
    ensures LayerSane(after[k])
    ensures k in layers ==>
              after[k].revocable == layers[k].revocable && (layers[k].name != "" ==> after[k].name == layers[k].name)
  {
    if k in Touched(batch) { FoldGrows(Start(layers, k), Of(batch, k)); }
  }

  lemma SumsMove(
    databases: map<string, DatabaseRow>, layers: map<LayerKey, LayerRow>,
    databases': map<string, DatabaseRow>, layers': map<LayerKey, LayerRow>, deltas: map<string, Delta>, d: string)
    requires DeltasExact(layers, layers', deltas) && DatabasesWritten(databases, deltas, deltas.Keys, databases')
    requires if d in databases then RowExact(layers, d, databases[d]) else forall k :: k in layers ==> k.database != d
    requires d in databases'
    ensures RowExact(layers', d, databases'[d])
    ensures d in databases ==>
              databases'[d].revocable == databases[d].revocable
              && (databases[d].name != "" ==> databases'[d].name == databases[d].name)
  {
    var tiles := LayerSum(layers', d, TileCount);
    var ones := LayerSum(layers', d, Unit);
    if d !in databases {
      SumWithoutLayers(layers, d, TileCount);
      SumWithoutLayers(layers, d, Unit);
    }
  }

  /** A committed batch keeps the sums exact, never renames a named row and never changes a protection flag. */
  lemma WriteConserves(
    cat: Catalog, batch: seq<CatalogPut>, recalculated: map<LayerKey, Recount>, after: Catalog, deltas: map<string, Delta>)
    requires Conserved(cat) && NonNegative(recalculated) && Written(cat, batch, recalculated, after, deltas)
    ensures Conserved(after) && KeepsSettings(cat, after)
  {
    forall d | d in after.databases
      ensures RowExact(after.layers, d, after.databases[d])
      ensures d in cat.databases ==>
                after.databases[d].revocable == cat.databases[d].revocable
                && (cat.databases[d].name != "" ==> after.databases[d].name == cat.databases[d].name)
    {
      SumsMove(cat.databases, cat.layers, after.databases, after.layers, deltas, d);
    }
    forall k | k in after.layers
      ensures k.database in after.databases && LayerSane(after.layers[k])
      ensures k in cat.layers ==>
                after.layers[k].revocable == cat.layers[k].revocable
                && (cat.layers[k].name != "" ==> after.layers[k].name == cat.layers[k].name)
    {
      WrittenLayer(cat.layers, batch, recalculated, after.layers, k);
      if k in Touched(batch) { assert k.database in deltas; }
    }
  }

  // Removal

  function WithoutLayer(row: DatabaseRow, gone: LayerRow, now: int): DatabaseRow {
    row.(tileCount := Max(0, row.tileCount - gone.tileCount), bytes := Max(0, row.bytes - gone.bytes),
         layerCount := Max(0, row.layerCount - 1), updatedAt := now)
  }

  function RemoveLayer(cat: Catalog, key: LayerKey, now: int): Catalog {
    if key !in cat.layers then cat
    else if key.database !in cat.databases then Catalog(cat.databases, cat.layers - {key})
    else
      var row := WithoutLayer(cat.databases[key.database], cat.layers[key], now);
      Catalog(cat.databases[key.database := row], cat.layers - {key})
  }

  function RemoveDatabase(cat: Catalog, database: string): Catalog {
    Catalog(cat.databases - {database}, LayersElsewhere(cat.layers, database))
  }

  function LayersElsewhere(layers: map<LayerKey, LayerRow>, database: string): map<LayerKey, LayerRow> {
    map k | k in layers && k.database != database :: layers[k]
  }

  lemma SumElsewhere(layers: map<LayerKey, LayerRow>, database: string, d: string, field: Field)
    requires d != database
    ensures LayerSum(LayersElsewhere(layers, database), d, field) == LayerSum(layers, d, field)
  {
    assert Column(LayersElsewhere(layers, database), d, field) == Column(layers, d, field);
  }

  lemma OneLayerWithinSum(layers: map<LayerKey, LayerRow>, key: LayerKey)
    requires key in layers && forall k :: k in layers ==> LayerSane(layers[k])
    ensures 0 <= layers[key].tileCount <= LayerSum(layers, key.database, TileCount)
    ensures 1 <= LayerSum(layers, key.database, Unit)
  {
    var tiles, ones := Column(layers, key.database, TileCount), Column(layers, key.database, Unit);
    assert tiles[key] == layers[key].tileCount && ones[key] == 1;
    Sums.TotalNonNegative(tiles);
    Sums.TotalNonNegative(ones);
  }

  /** Removing a layer subtracts exactly what it contributed: MAX(0, ...) changes neither count. */
  lemma RemoveLayerExact(cat: Catalog, key: LayerKey, now: int)
    requires Conserved(cat) && key in cat.layers
    ensures var after := RemoveLayer(cat, key, now);
            && after.databases.Keys == cat.databases.Keys
            && after.databases[key.database].tileCount == cat.databases[key.database].tileCount - cat.layers[key].tileCount
            && after.databases[key.database].layerCount == cat.databases[key.database].layerCount - 1
            && RowExact(after.layers, key.database, after.databases[key.database])
            && (var bytes := cat.databases[key.database].bytes - cat.layers[key].bytes;
                after.databases[key.database].bytes == if bytes < 0 then 0 else bytes)
            && after.databases[key.database].updatedAt == now
            && (var before, row := cat.databases[key.database], after.databases[key.database];
                && row.name == before.name && row.path == before.path
                && row.lastAccessAt == before.lastAccessAt && row.revocable == before.revocable)
            && (forall d :: d in cat.databases && d != key.database ==> after.databases[d] == cat.databases[d])
            && after.layers == cat.layers - {key}
  {
    OneLayerWithinSum(cat.layers, key);
    assert RowExact(cat.layers, key.database, cat.databases[key.database]);
    SumAfterRemove(cat.layers, key, key.database, TileCount);
    SumAfterRemove(cat.layers, key, key.database, Unit);
  }

  lemma RowElsewhere(layers: map<LayerKey, LayerRow>, key: LayerKey, d: string, row: DatabaseRow)
    requires key in layers && d != key.database && RowExact(layers, d, row)
    ensures RowExact(layers - {key}, d, row)
  {
    SumAfterRemove(layers, key, d, TileCount);
    SumAfterRemove(layers, key, d, Unit);
  }

  lemma RemoveLayerElsewhere(cat: Catalog, key: LayerKey, now: int)
    ensures var after := RemoveLayer(cat, key, now);
            && after.layers == cat.layers - {key} && after.databases.Keys == cat.databases.Keys
            && forall d :: d in cat.databases && (d != key.database || key !in cat.layers) ==>
                             after.databases[d] == cat.databases[d]
  {
  }

  lemma RemoveLayerConserves(cat: Catalog, key: LayerKey, now: int)
    requires Conserved(cat)
    ensures Conserved(RemoveLayer(cat, key, now)) && KeepsSettings(cat, RemoveLayer(cat, key, now))
    ensures RemoveLayer(cat, key, now).layers == cat.layers - {key}
  {
    var after := RemoveLayer(cat, key, now);
    RemoveLayerSettings(cat, key, now);
    RemoveLayerElsewhere(cat, key, now);
    if key in cat.layers {
      RemoveLayerExact(cat, key, now);
      hide RemoveLayer, RowExact, LayerSane, KeepsSettings;
      forall d | d in after.databases ensures RowExact(after.layers, d, after.databases[d]) {
        if d != key.database { RowElsewhere(cat.layers, key, d, cat.databases[d]); }
      }
    } else {
      assert cat.layers - {key} == cat.layers;
    }
  }

  lemma RemoveLayerSettings(cat: Catalog, key: LayerKey, now: int)
    ensures KeepsSettings(cat, RemoveLayer(cat, key, now))
  {
  }

  lemma RemoveDatabaseConserves(cat: Catalog, database: string)
    requires Conserved(cat)
    ensures Conserved(RemoveDatabase(cat, database)) && KeepsSettings(cat, RemoveDatabase(cat, database))
    ensures RemoveDatabase(cat, database).databases == cat.databases - {database}
    ensures forall k :: k in RemoveDatabase(cat, database).layers <==> k in cat.layers && k.database != database
    ensures forall k :: k in RemoveDatabase(cat, database).layers ==>
                          RemoveDatabase(cat, database).layers[k] == cat.layers[k]
  {
    var after := RemoveDatabase(cat, database);
    forall d | d in after.databases ensures RowExact(after.layers, d, after.databases[d]) {
      SumElsewhere(cat.layers, database, d, TileCount);
      SumElsewhere(cat.layers, database, d, Unit);
    }
  }

  // Rebuild from a scan

  datatype ScannedLayer = ScannedLayer(item: string, format: string, summary: Summary)

  datatype ScannedDatabase = ScannedDatabase(
    database: string, path: string, bytes: nat, modifiedAt: Option<int>, layers: seq<ScannedLayer>)

  function Tally(layers: seq<ScannedLayer>): int {
    if layers == [] then 0 else Tally(layers[..|layers| - 1]) + layers[|layers| - 1].summary.tileCount
  }

  /** Counts and bytes of a scan are those of tile sets. */
  ghost predicate Plausible(layers: seq<ScannedLayer>) {
    forall i :: 0 <= i < |layers| ==> layers[i].summary.tileCount >= 0 && layers[i].summary.totalBytes >= 0
  }

  function RebuiltLayer(prior: Catalog, key: LayerKey, layer: ScannedLayer, now: int): LayerRow {
    var known := key in prior.layers;
    LayerRow(
      if known then prior.layers[key].name else "", layer.format, layer.summary.range,
      layer.summary.tileCount, layer.summary.totalBytes, now, if known then prior.layers[key].revocable else true)
  }

  function RebuiltDatabase(prior: Catalog, s: ScannedDatabase, now: int): DatabaseRow {
    var known := s.database in prior.databases;
    DatabaseRow(
      if known then prior.databases[s.database].name else "", s.path, s.bytes, Tally(s.layers), |s.layers|, s.modifiedAt,
      now, if known then prior.databases[s.database].revocable else true)
  }

  function Items(layers: seq<ScannedLayer>): set<string> {
    if layers == [] then {} else Items(layers[..|layers| - 1]) + {layers[|layers| - 1].item}
  }

  predicate DistinctItems(layers: seq<ScannedLayer>) {
    layers == [] ||
    (layers[|layers| - 1].item !in Items(layers[..|layers| - 1]) && DistinctItems(layers[..|layers| - 1]))
  }

  function Databases(scanned: seq<ScannedDatabase>): set<string> {
    if scanned == [] then {} else Databases(scanned[..|scanned| - 1]) + {scanned[|scanned| - 1].database}
  }

  predicate DistinctDatabases(scanned: seq<ScannedDatabase>) {
    scanned == [] ||
    (var n := |scanned| - 1;
     scanned[n].database !in Databases(scanned[..n]) && DistinctItems(scanned[n].layers) && DistinctDatabases(scanned[..n]))
  }

  function LayersRebuilt(
    prior: Catalog, base: map<LayerKey, LayerRow>, database: string, layers: seq<ScannedLayer>, now: int)
    : map<LayerKey, LayerRow>
  {
    if layers == [] then base
    else
      var n := |layers| - 1;
      var key := LayerKey(database, layers[n].item);
      LayersRebuilt(prior, base, database, layers[..n], now)[key := RebuiltLayer(prior, key, layers[n], now)]
  }

  function Rebuilt(prior: Catalog, scanned: seq<ScannedDatabase>, now: int): Catalog {
    if scanned == [] then Catalog(map[], map[])
    else
      var n := |scanned| - 1;
      var rest := Rebuilt(prior, scanned[..n], now);
      Catalog(
        rest.databases[scanned[n].database := RebuiltDatabase(prior, scanned[n], now)],
        LayersRebuilt(prior, rest.layers, scanned[n].database, scanned[n].layers, now))
  }

  lemma {:induction false} LayersRebuiltKeys(
    prior: Catalog, base: map<LayerKey, LayerRow>, database: string, layers: seq<ScannedLayer>, now: int)
    ensures forall k :: k in LayersRebuilt(prior, base, database, layers, now) <==>
                          k in base || (k.database == database && k.item in Items(layers))
    ensures forall k :: k in base && k.database != database ==>
                          LayersRebuilt(prior, base, database, layers, now)[k] == base[k]
  {
    if layers != [] { LayersRebuiltKeys(prior, base, database, layers[..|layers| - 1], now); }
  }

  lemma {:induction false} RebuiltKeys(prior: Catalog, scanned: seq<ScannedDatabase>, now: int)
    ensures Rebuilt(prior, scanned, now).databases.Keys == Databases(scanned)
    ensures forall k :: k in Rebuilt(prior, scanned, now).layers ==> k.database in Databases(scanned)
  {
    if scanned != [] {
      var n := |scanned| - 1;
      RebuiltKeys(prior, scanned[..n], now);
      LayersRebuiltKeys(prior, Rebuilt(prior, scanned[..n], now).layers, scanned[n].database, scanned[n].layers, now);
    }
  }

  /** The inserts of one database's layers. A repeated id violates the primary key. */
  method InsertLayers(prior: Catalog, base: map<LayerKey, LayerRow>, s: ScannedDatabase, now: int)
    returns (ok: bool, layers: map<LayerKey, LayerRow>)
    requires forall k :: k in base ==> k.database != s.database
    ensures ok <==> DistinctItems(s.layers)
    ensures ok ==> layers == LayersRebuilt(prior, base, s.database, s.layers, now)
  {
    layers := base;
    for n := 0 to |s.layers|
      invariant DistinctItems(s.layers[..n]) && layers == LayersRebuilt(prior, base, s.database, s.layers[..n], now)
    {
      var key := LayerKey(s.database, s.layers[n].item);
      LayersRebuiltKeys(prior, base, s.database, s.layers[..n], now);
      assert s.layers[..n + 1][..n] == s.layers[..n];
      if key in layers {
        DuplicateItem(s.layers, n);
        return false, base;
      }
      layers := layers[key := RebuiltLayer(prior, key, s.layers[n], now)];
    }
    assert s.layers[..|s.layers|] == s.layers;
    ok := true;
  }

  lemma {:induction false} DuplicateItem(layers: seq<ScannedLayer>, n: nat)
    requires n < |layers| && layers[n].item in Items(layers[..n])
    ensures !DistinctItems(layers)
    decreases |layers|
  {
    if n < |layers| - 1 {
      assert layers[..|layers| - 1][..n] == layers[..n];
      DuplicateItem(layers[..|layers| - 1], n);
    }
  }

  lemma {:induction false} DuplicateDatabase(scanned: seq<ScannedDatabase>, n: nat)
    requires n < |scanned| && (scanned[n].database in Databases(scanned[..n]) || !DistinctItems(scanned[n].layers))
    ensures !DistinctDatabases(scanned)
    decreases |scanned|
  {
    if n < |scanned| - 1 {
      assert scanned[..|scanned| - 1][..n] == scanned[..n];
      DuplicateDatabase(scanned[..|scanned| - 1], n);
    }
  }

  /** One transaction: either the catalog is what the scan says, or it is as it was. */
  method Rebuild(prior: Catalog, scanned: seq<ScannedDatabase>, now: int, fails: bool) returns (ok: bool, after: Catalog)
    ensures ok <==> DistinctDatabases(scanned) && !fails
    ensures after == if ok then Rebuilt(prior, scanned, now) else prior
  {
    var work := Catalog(map[], map[]);
    for n := 0 to |scanned|
      invariant DistinctDatabases(scanned[..n]) && work == Rebuilt(prior, scanned[..n], now)
    {
      var s := scanned[n];
      RebuiltKeys(prior, scanned[..n], now);
      if s.database in work.databases {
        DuplicateDatabase(scanned, n);
        return false, prior;
      }
      var inserted, layers := InsertLayers(prior, work.layers, s, now);
      if !inserted {
        DuplicateDatabase(scanned, n);
        return false, prior;
      }
      assert scanned[..n + 1][..n] == scanned[..n];
      work := Catalog(work.databases[s.database := RebuiltDatabase(prior, s, now)], layers);
    }
    assert scanned[..|scanned|] == scanned;
    ok := !fails;
    after := if ok then work else prior;
  }

  lemma {:induction false} LayersRebuiltSums(
    prior: Catalog, base: map<LayerKey, LayerRow>, database: string, layers: seq<ScannedLayer>, now: int, d: string)
    requires DistinctItems(layers) && forall k :: k in base ==> k.database != database
    ensures var all := LayersRebuilt(prior, base, database, layers, now);
            if d == database then LayerSum(all, d, TileCount) == Tally(layers) && LayerSum(all, d, Unit) == |layers|
            else LayerSum(all, d, TileCount) == LayerSum(base, d, TileCount) && LayerSum(all, d, Unit) == LayerSum(base, d, Unit)
  {
    if layers == [] {
      SumWithoutLayers(base, database, TileCount);
      SumWithoutLayers(base, database, Unit);
    } else {
      var n := |layers| - 1;
      LayersRebuiltSums(prior, base, database, layers[..n], now, d);
      var key := LayerKey(database, layers[n].item);
      var rest := LayersRebuilt(prior, base, database, layers[..n], now);
      LayersRebuiltKeys(prior, base, database, layers[..n], now);
      SumAfterUpdate(rest, key, RebuiltLayer(prior, key, layers[n], now), d, TileCount);
      SumAfterUpdate(rest, key, RebuiltLayer(prior, key, layers[n], now), d, Unit);
    }
  }

  lemma {:induction false} RebuiltSums(prior: Catalog, scanned: seq<ScannedDatabase>, now: int, d: string)
    requires DistinctDatabases(scanned) && d in Rebuilt(prior, scanned, now).databases
    ensures RowExact(Rebuilt(prior, scanned, now).layers, d, Rebuilt(prior, scanned, now).databases[d])
  {
    var n := |scanned| - 1;
    var rest := Rebuilt(prior, scanned[..n], now);
    RebuiltKeys(prior, scanned[..n], now);
    LayersRebuiltSums(prior, rest.layers, scanned[n].database, scanned[n].layers, now, d);
    if d != scanned[n].database { RebuiltSums(prior, scanned[..n], now, d); }
  }

  /** A rebuilt row is sane and has the name and flag its id had before. */
  ghost predicate Settled(prior: Catalog, k: LayerKey, row: LayerRow) {
    && LayerSane(row)
    && (k in prior.layers ==> row.name == prior.layers[k].name && row.revocable == prior.layers[k].revocable)
    && (k !in prior.layers ==> row.name == "" && row.revocable)
  }

  /** Layers and databases that were not there before come out without a name and without protection. */
  ghost predicate NewUnprotected(prior: Catalog, after: Catalog) {
    && (forall k :: k in after.layers && k !in prior.layers ==> after.layers[k].name == "" && after.layers[k].revocable)
    && forall d :: d in after.databases && d !in prior.databases ==>
         after.databases[d].name == "" && after.databases[d].revocable
  }

  lemma {:induction false} LayersSettled(
    prior: Catalog, base: map<LayerKey, LayerRow>, database: string, layers: seq<ScannedLayer>, now: int)
    requires Plausible(layers) && forall k :: k in base ==> Settled(prior, k, base[k])
    ensures forall k :: k in LayersRebuilt(prior, base, database, layers, now) ==>
                          Settled(prior, k, LayersRebuilt(prior, base, database, layers, now)[k])
  {
    if layers != [] { LayersSettled(prior, base, database, layers[..|layers| - 1], now); }
  }

  lemma {:induction false} RebuiltSettings(prior: Catalog, scanned: seq<ScannedDatabase>, now: int)
    requires forall i :: 0 <= i < |scanned| ==> Plausible(scanned[i].layers)
    ensures forall k :: k in Rebuilt(prior, scanned, now).layers ==> Settled(prior, k, Rebuilt(prior, scanned, now).layers[k])
    ensures KeepsDatabaseSettings(prior.databases, Rebuilt(prior, scanned, now).databases)
    ensures NewUnprotected(prior, Rebuilt(prior, scanned, now))
  {
    if scanned != [] {
      var n := |scanned| - 1;
      RebuiltSettings(prior, scanned[..n], now);
      LayersSettled(prior, Rebuilt(prior, scanned[..n], now).layers, scanned[n].database, scanned[n].layers, now);
    }
  }

  /** A rebuild restores the sums whatever the catalog held, keeps the settings of every id that survives, and gives new
      ids no name and no protection. */
  lemma RebuildConserves(prior: Catalog, scanned: seq<ScannedDatabase>, now: int)
    requires DistinctDatabases(scanned) && forall i :: 0 <= i < |scanned| ==> Plausible(scanned[i].layers)
    ensures Conserved(Rebuilt(prior, scanned, now)) && KeepsSettings(prior, Rebuilt(prior, scanned, now))
    ensures NewUnprotected(prior, Rebuilt(prior, scanned, now))
  {
    var after := Rebuilt(prior, scanned, now);
    RebuiltKeys(prior, scanned, now);
    RebuiltSettings(prior, scanned, now);
    forall d | d in after.databases ensures RowExact(after.layers, d, after.databases[d]) {
      RebuiltSums(prior, scanned, now, d);
    }
  }

  /** Every scanned layer gets the figures of its scan. */
  lemma {:induction false} LayersRebuiltAt(
    prior: Catalog, base: map<LayerKey, LayerRow>, database: string, layers: seq<ScannedLayer>, now: int, i: nat)
    requires DistinctItems(layers) && i < |layers|
    ensures var key := LayerKey(database, layers[i].item);
            && layers[i].item in Items(layers)
            && key in LayersRebuilt(prior, base, database, layers, now)
            && LayersRebuilt(prior, base, database, layers, now)[key] == RebuiltLayer(prior, key, layers[i], now)
  {
    if i < |layers| - 1 { LayersRebuiltAt(prior, base, database, layers[..|layers| - 1], now, i); }
  }
}
