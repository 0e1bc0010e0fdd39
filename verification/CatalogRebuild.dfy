/** A rebuild from the directories: when it succeeds, and whose rows it leaves accurate. */
module CatalogRebuild {
  import opened Tiles
  import opened Layers
  import opened Catalog
  import opened CatalogLaws
  import opened CatalogRuns
  import opened Paths
  import opened Scan
  import Sums

  // The rebuild

  /** What comes of a rebuild: the catalog of the scan, or no change. */
  ghost predicate RebuildOutcome(
    prior: Catalog, disk: Disk, now: int, fails: bool, ok: bool, after: Catalog,
    scanned: seq<ScannedDatabase>, paths: seq<Path>, dirs: seq<seq<Path>>)
  {
    && (ok <==> ValidMarks(disk) && Unambiguous(disk) && !fails)
    && (!ok ==> after == prior)
    && (ok ==>
          Scanned(disk, scanned, paths, dirs) && DistinctDatabases(scanned) && after == Rebuilt(prior, scanned, now))
  }

  /** No two listed directories stand for the same database, and no two walked ones for the same item. */
  ghost predicate Unambiguous(disk: Disk) {
    && (forall p, q :: p in AllMarked(disk) && q in AllMarked(disk) && Joined(p) == Joined(q) ==> p == q)
    && forall p :: p in AllMarked(disk) ==> DistinctWalk(disk, DatabaseDirectory(Joined(p)))
  }

  ghost predicate DistinctWalk(disk: Disk, base: Path) {
    forall p, q :: p in Walk(disk, base) && q in Walk(disk, base) && ItemAt(base, p) == ItemAt(base, q) ==> p == q
  }

  /** From the directories to the catalog. A repeated id breaks a primary key, so the rebuild then fails. */
  method RebuildFromShards(prior: Catalog, disk: Disk, now: int, fails: bool)
    returns (ok: bool, after: Catalog, ghost scanned: seq<ScannedDatabase>, ghost paths: seq<Path>, ghost dirs: seq<seq<Path>>)
    requires WellStored(disk) && Rooted(disk)
    ensures RebuildOutcome(prior, disk, now, fails, ok, after, scanned, paths, dirs)
  {
    hide WellStored, Rooted, Scanned, Rebuilt, DistinctDatabases, Unambiguous, ValidMarks;
    var listing;
    ok, listing, paths, dirs := ScanAll(disk);
    scanned := listing;
    if !ok { return false, prior, scanned, paths, dirs; }
    ok, after := Rebuild(prior, listing, now, fails);
    SucceedsExactly(disk, listing, paths, dirs);
  }

  lemma {:induction false} ItemsOf(layers: seq<ScannedLayer>, item: string)
    ensures item in Items(layers) <==> exists j :: 0 <= j < |layers| && layers[j].item == item
  {
    if layers != [] { ItemsOf(layers[..|layers| - 1], item); }
  }

  lemma {:induction false} DistinctItemsMeans(layers: seq<ScannedLayer>)
    ensures DistinctItems(layers) <==> forall i, j :: 0 <= i < j < |layers| ==> layers[i].item != layers[j].item
  {
    if layers != [] {
      var n := |layers| - 1;
      DistinctItemsMeans(layers[..n]);
      ItemsOf(layers[..n], layers[n].item);
    }
  }

  lemma {:induction false} DatabasesScanned(scanned: seq<ScannedDatabase>, d: string)
    ensures d in Databases(scanned) <==> exists i :: 0 <= i < |scanned| && scanned[i].database == d
  {
    if scanned != [] { DatabasesScanned(scanned[..|scanned| - 1], d); }
  }

  lemma {:induction false} DistinctDatabasesMeans(scanned: seq<ScannedDatabase>)
    ensures DistinctDatabases(scanned) <==>
            && (forall i, j :: 0 <= i < j < |scanned| ==> scanned[i].database != scanned[j].database)
            && forall i :: 0 <= i < |scanned| ==> DistinctItems(scanned[i].layers)
  {
    hide DistinctItems;
    if scanned != [] {
      var n := |scanned| - 1;
      DistinctDatabasesMeans(scanned[..n]);
      DatabasesScanned(scanned[..n], scanned[n].database);
    }
  }

  lemma ItemsScanned(disk: Disk, base: Path, layers: seq<ScannedLayer>, dirs: seq<Path>)
    requires LayersScanned(disk, base, layers, dirs)
    ensures |layers| == |dirs|
    ensures forall j :: 0 <= j < |dirs| ==> |dirs[j]| == |base| + 2 && layers[j].item == ItemAt(base, dirs[j])
  {
    hide Summarizes, TilesAt, ItemAt;
    forall j | 0 <= j < |dirs| ensures |dirs[j]| == |base| + 2 && layers[j].item == ItemAt(base, dirs[j]) {
      assert LayerScanned(disk, base, layers[j], dirs[j]);
    }
  }

  /** The layers of one database have distinct ids exactly when its walk is not ambiguous. */
  lemma LayersDistinctExactly(disk: Disk, base: Path, layers: seq<ScannedLayer>, dirs: seq<Path>)
    requires LayersScanned(disk, base, layers, dirs) && Enumerates(dirs, Walk(disk, base))
    ensures DistinctItems(layers) <==> DistinctWalk(disk, base)
  {
    hide Walk, ItemAt, LayersScanned, DistinctItems;
    DistinctItemsMeans(layers);
    ItemsScanned(disk, base, layers, dirs);
    assert forall j :: 0 <= j < |dirs| ==> dirs[j] in dirs;
    if DistinctItems(layers) {
      forall p, q | p in Walk(disk, base) && q in Walk(disk, base) && ItemAt(base, p) == ItemAt(base, q) ensures p == q {
        var i, j :| 0 <= i < |dirs| && dirs[i] == p && 0 <= j < |dirs| && dirs[j] == q;
        assert layers[i].item == layers[j].item;
      }
    }
  }

  /** A rebuild does not repeat an id exactly when the directories are not ambiguous. */
  lemma SucceedsExactly(disk: Disk, scanned: seq<ScannedDatabase>, paths: seq<Path>, dirs: seq<seq<Path>>)
    requires Scanned(disk, scanned, paths, dirs)
    ensures DistinctDatabases(scanned) <==> Unambiguous(disk)
  {
    DistinctDatabasesMeans(scanned);
    hide DistinctDatabases, LayersScanned, DistinctItems, DistinctWalk, Walk, AllMarked, ValidId, Joined, DatabaseDirectory;
    forall i | 0 <= i < |scanned|
      ensures paths[i] in AllMarked(disk) && scanned[i].database == Joined(paths[i])
      ensures DistinctItems(scanned[i].layers) <==> DistinctWalk(disk, DatabaseDirectory(Joined(paths[i])))
    {
      assert paths[i] in paths && DatabaseScanned(disk, scanned[i], paths[i], dirs[i]);
      LayersDistinctExactly(disk, DatabaseDirectory(scanned[i].database), scanned[i].layers, dirs[i]);
    }
    hide DatabaseScanned, Scanned;
    assert |scanned| == |paths| && Enumerates(paths, AllMarked(disk));
    if DistinctDatabases(scanned) {
      forall p, q | p in AllMarked(disk) && q in AllMarked(disk) && Joined(p) == Joined(q) ensures p == q {
        var i, j :| 0 <= i < |paths| && paths[i] == p && 0 <= j < |paths| && paths[j] == q;
        assert scanned[i].database == scanned[j].database;
      }
      forall p | p in AllMarked(disk) ensures DistinctWalk(disk, DatabaseDirectory(Joined(p))) {
        var i :| 0 <= i < |paths| && paths[i] == p;
        assert DistinctItems(scanned[i].layers);
      }
    }
  }

  // Rows after a rebuild

  function KeyOf(s: ScannedDatabase, j: nat): LayerKey
    requires j < |s.layers|
  {
    LayerKey(s.database, s.layers[j].item)
  }

  predicate Listed(scanned: seq<ScannedDatabase>, k: LayerKey) {
    exists i, j :: 0 <= i < |scanned| && 0 <= j < |scanned[i].layers| && KeyOf(scanned[i], j) == k
  }

  /** Every listed layer has the row its scan describes. */
  lemma {:induction false} RebuiltAt(prior: Catalog, scanned: seq<ScannedDatabase>, now: int, i: nat, j: nat)
    requires DistinctDatabases(scanned) && i < |scanned| && j < |scanned[i].layers|
    ensures var k, after := KeyOf(scanned[i], j), Rebuilt(prior, scanned, now);
            && scanned[i].database in Databases(scanned)
            && k in after.layers && after.layers[k] == RebuiltLayer(prior, k, scanned[i].layers[j], now)
  {
    var n := |scanned| - 1;
    var rest := Rebuilt(prior, scanned[..n], now);
    if i < n {
      RebuiltAt(prior, scanned[..n], now, i, j);
      LayersRebuiltKeys(prior, rest.layers, scanned[n].database, scanned[n].layers, now);
    } else {
      LayersRebuiltAt(prior, rest.layers, scanned[n].database, scanned[n].layers, now, j);
    }
  }

  lemma {:induction false} ItemListed(layers: seq<ScannedLayer>, item: string) returns (j: nat)
    requires item in Items(layers)
    ensures j < |layers| && layers[j].item == item
  {
    var n := |layers| - 1;
    if layers[n].item == item { j := n; } else { j := ItemListed(layers[..n], item); }
  }

  /** A rebuilt catalog has no row of a layer the scan does not list. */
  lemma {:induction false} OnlyListed(prior: Catalog, scanned: seq<ScannedDatabase>, now: int, k: LayerKey)
    requires k in Rebuilt(prior, scanned, now).layers
    ensures Listed(scanned, k)
  {
    if scanned != [] {
      var n := |scanned| - 1;
      var rest := Rebuilt(prior, scanned[..n], now);
      LayersRebuiltKeys(prior, rest.layers, scanned[n].database, scanned[n].layers, now);
      if k in rest.layers {
        OnlyListed(prior, scanned[..n], now, k);
        var i, j :| 0 <= i < n && 0 <= j < |scanned[..n][i].layers| && KeyOf(scanned[..n][i], j) == k;
        assert KeyOf(scanned[i], j) == k;
      } else {
        var j := ItemListed(scanned[n].layers, k.item);
        assert KeyOf(scanned[n], j) == k;
      }
    }
  }

  /** What the shard files hold, by directory. */
  function Truth(disk: Disk): map<Path, map<Coord, nat>> { map p | p in disk.files :: TilesAt(disk, p) }

  function RebuiltWorld(prior: Catalog, disk: Disk, scanned: seq<ScannedDatabase>, now: int): World {
    var after := Rebuilt(prior, scanned, now);
    World(
      Truth(disk), [], None, after, map[], map[], map[], map[],
      map k | k in after.layers :: TilesIn(Truth(disk), Dir(k)).Keys, {})
  }

  lemma TruthAt(disk: Disk, p: Path)
    ensures TilesIn(Truth(disk), p) == TilesAt(disk, p)
  {
    if p !in disk.files { NoFilesNoTiles(disk, p); }
    hide TilesAt;
  }

  lemma WorldAt(prior: Catalog, disk: Disk, scanned: seq<ScannedDatabase>, now: int, k: LayerKey)
    ensures var w := RebuiltWorld(prior, disk, scanned, now);
            && Idle(w) && w.catalog == Rebuilt(prior, scanned, now) && TilesOf(w, k) == TilesAt(disk, Dir(k))
            && (k in w.catalog.layers ==> CoordsOf(w.folded, k) == TilesOf(w, k).Keys)
            && (k !in w.catalog.layers ==> CoordsOf(w.folded, k) == {})
  {
    hide Rebuilt, TilesAt, Dir;
    TruthAt(disk, Dir(k));
    hide Truth, TilesIn;
  }

  /** Below the layer's database no other directory with shard files has levels that join to its item. */
  predicate Unmixed(disk: Disk, k: LayerKey) {
    var base := DatabaseDirectory(k.database);
    forall p :: p in disk.files && Walked(disk, base, p) && ItemAt(base, p) == k.item ==> p == Dir(k)
  }

  /** The row of a listed layer is the summary of the one walked directory whose levels join to its item. */
  lemma RowFrom(
    prior: Catalog, disk: Disk, scanned: seq<ScannedDatabase>, paths: seq<Path>, dirs: seq<seq<Path>>, now: int,
    k: LayerKey, i: nat, j: nat)
    requires Scanned(disk, scanned, paths, dirs) && DistinctDatabases(scanned)
    requires i < |scanned| && j < |scanned[i].layers| && KeyOf(scanned[i], j) == k
    ensures var w, base := RebuiltWorld(prior, disk, scanned, now), DatabaseDirectory(k.database);
            && i < |dirs| && j < |dirs[i]| && dirs[i][j] in Walk(disk, base) && ItemAt(base, dirs[i][j]) == k.item
            && k in w.catalog.layers && Summarizes(TilesAt(disk, dirs[i][j]), Figures(w, k))
            && w.catalog.layers[k] == RebuiltLayer(prior, k, scanned[i].layers[j], now)
  {
    RebuiltAt(prior, scanned, now, i, j);
    WorldAt(prior, disk, scanned, now, k);
    hide RebuiltWorld, Rebuilt, Summarizes, DistinctDatabases, TilesAt, TilesOf;
    assert DatabaseScanned(disk, scanned[i], paths[i], dirs[i]);
    assert dirs[i][j] in dirs[i];
    assert LayerScanned(disk, DatabaseDirectory(k.database), scanned[i].layers[j], dirs[i][j]);
    assert Figures(RebuiltWorld(prior, disk, scanned, now), k) == scanned[i].layers[j].summary;
  }

  /** A layer that the scan does not list has no row. */
  lemma NoRow(prior: Catalog, disk: Disk, scanned: seq<ScannedDatabase>, now: int, k: LayerKey)
    requires !Listed(scanned, k)
    ensures var w := RebuiltWorld(prior, disk, scanned, now);
            k !in w.catalog.layers && Figures(w, k) == Summary(0, 0, NO_RANGE)
  {
    WorldAt(prior, disk, scanned, now, k);
    hide RebuiltWorld, Rebuilt;
    if k in Rebuilt(prior, scanned, now).layers { OnlyListed(prior, scanned, now, k); }
  }

  /** The walk of a listed database lists every directory it meets. */
  lemma WalkedIsListed(
    disk: Disk, scanned: seq<ScannedDatabase>, paths: seq<Path>, dirs: seq<seq<Path>>, d: string, p: Path)
    returns (i: nat, j: nat)
    requires Scanned(disk, scanned, paths, dirs) && d in Databases(scanned)
    requires p in Walk(disk, DatabaseDirectory(d))
    ensures i < |scanned| && j < |scanned[i].layers| && j < |dirs[i]| && dirs[i][j] == p
    ensures KeyOf(scanned[i], j) == LayerKey(d, ItemAt(DatabaseDirectory(d), p)) && Listed(scanned, KeyOf(scanned[i], j))
  {
    DatabasesScanned(scanned, d);
    hide Walk, Summarizes, TilesAt, Databases, DatabaseDirectory, ValidId, Joined, AllMarked;
    i :| 0 <= i < |scanned| && scanned[i].database == d;
    assert DatabaseScanned(disk, scanned[i], paths[i], dirs[i]);
    assert p in dirs[i];
    j :| 0 <= j < |dirs[i]| && dirs[i][j] == p;
    assert LayerScanned(disk, DatabaseDirectory(d), scanned[i].layers[j], p);
  }

  /** The walk of a database meets the directory of an item with shard files exactly as long as its id is long. */
  lemma OwnDirectoryWalked(disk: Disk, k: LayerKey)
    requires Rooted(disk) && ValidId(k.item) && Dir(k) in disk.files
    ensures var base := DatabaseDirectory(k.database);
            if LongId(k.item) then Dir(k) in Walk(disk, base) && ItemAt(base, Dir(k)) == k.item
            else |Dir(k)| == |base| + 1
  {
    var base, p := DatabaseDirectory(k.database), Dir(k);
    if LongId(k.item) {
      assert p == base + [k.item[..4], k.item[4..]] && k.item == k.item[..4] + k.item[4..];
      assert p[|base|] == k.item[..4] && p[|base| + 1] == k.item[4..];
      assert p[..|base| + 1] in disk.directories;
    }
  }

  /** After a rebuild the row of a layer is the summary of its tiles exactly when it has none, or its database is listed
      and its item is longer than four characters. */
  lemma RebuildAccurateExactly(
    prior: Catalog, disk: Disk, scanned: seq<ScannedDatabase>, paths: seq<Path>, dirs: seq<seq<Path>>, now: int, k: LayerKey)
    requires Rooted(disk) && Scanned(disk, scanned, paths, dirs) && DistinctDatabases(scanned)
    requires ValidId(k.item) && Unmixed(disk, k)
    ensures var w := RebuiltWorld(prior, disk, scanned, now);
            Accurate(w, k) <==> TilesOf(w, k) == map[] || (k.database in Databases(scanned) && LongId(k.item))
  {
    hide Scanned, Rooted, DistinctDatabases, RebuiltWorld, Walk, Rebuilt, TilesAt, Unmixed, Databases, Summarizes, TilesOf,
      Figures, Idle, Dir, CoordsOf, ValidId;
    var w := RebuiltWorld(prior, disk, scanned, now);
    WorldAt(prior, disk, scanned, now, k);
    EmptySummary();
    if Listed(scanned, k) {
      ListedAccurate(prior, disk, scanned, paths, dirs, now, k);
    } else {
      NoRow(prior, disk, scanned, now, k);
      if Dir(k) in disk.files {
        OwnDirectoryWalked(disk, k);
        if k.database in Databases(scanned) && LongId(k.item) {
          var i, j := WalkedIsListed(disk, scanned, paths, dirs, k.database, Dir(k));
        }
      } else {
        NoFilesNoTiles(disk, Dir(k));
      }
      OnlyEmpty(TilesOf(w, k));
    }
  }

  lemma OnlyEmpty(tiles: map<Coord, nat>)
    ensures Summarizes(tiles, Summary(0, 0, NO_RANGE)) <==> tiles == map[]
    ensures tiles.Keys == {} <==> tiles == map[]
  {
    EmptySummary();
    if tiles != map[] { assert tiles.Keys != {}; }
  }

  lemma ListedAccurate(
    prior: Catalog, disk: Disk, scanned: seq<ScannedDatabase>, paths: seq<Path>, dirs: seq<seq<Path>>, now: int, k: LayerKey)
    requires Rooted(disk) && Scanned(disk, scanned, paths, dirs) && DistinctDatabases(scanned)
    requires ValidId(k.item) && Unmixed(disk, k) && Listed(scanned, k)
    ensures var w := RebuiltWorld(prior, disk, scanned, now);
            Accurate(w, k) <==> TilesOf(w, k) == map[] || (k.database in Databases(scanned) && LongId(k.item))
  {
    hide Scanned, Rooted, DistinctDatabases, RebuiltWorld, Rebuilt, TilesAt, Databases, Summarizes, TilesOf, Figures, Idle,
      Dir, CoordsOf, ValidId;
    var w, base := RebuiltWorld(prior, disk, scanned, now), DatabaseDirectory(k.database);
    WorldAt(prior, disk, scanned, now, k);
    var i, j :| 0 <= i < |scanned| && 0 <= j < |scanned[i].layers| && KeyOf(scanned[i], j) == k;
    RowFrom(prior, disk, scanned, paths, dirs, now, k, i, j);
    DatabasesScanned(scanned, k.database);
    assert k.database in Databases(scanned);
    var p := dirs[i][j];
    if Dir(k) in disk.files {
      OwnDirectoryWalked(disk, k);
      if LongId(k.item) {
        var i', j' := WalkedIsListed(disk, scanned, paths, dirs, k.database, Dir(k));
        SamePlace(scanned, i, j, i', j');
      }
    } else {
      NoFilesNoTiles(disk, Dir(k));
    }
    if p != Dir(k) {
      assert p !in disk.files;
      NoFilesNoTiles(disk, p);
      EmptyFigures(Figures(w, k));
      OnlyEmpty(TilesOf(w, k));
    }
  }

  lemma EmptyFigures(s: Summary)
    requires Summarizes(map[], s)
    ensures s == Summary(0, 0, NO_RANGE)
  {
    EmptySummary();
    SummaryUnique(map[], s, Summary(0, 0, NO_RANGE));
  }

  lemma SamePlace(scanned: seq<ScannedDatabase>, i: nat, j: nat, i': nat, j': nat)
    requires DistinctDatabases(scanned) && i < |scanned| && j < |scanned[i].layers|
    requires i' < |scanned| && j' < |scanned[i'].layers| && KeyOf(scanned[i], j) == KeyOf(scanned[i'], j')
    ensures i == i' && j == j'
  {
    DistinctDatabasesMeans(scanned);
    DistinctItemsMeans(scanned[i].layers);
    hide DistinctDatabases, DistinctItems;
  }

  lemma EmptySummary()
    ensures Summarizes(map[], Summary(0, 0, NO_RANGE))
  {
    var none: map<Coord, nat> := map[];
    assert none.Keys == {};
  }

  // Every row, read off the disk

  lemma {:induction false} RebuiltDatabaseAt(prior: Catalog, scanned: seq<ScannedDatabase>, now: int, i: nat)
    requires DistinctDatabases(scanned) && i < |scanned|
    ensures var after := Rebuilt(prior, scanned, now);
            && scanned[i].database in Databases(scanned) && scanned[i].database in after.databases
            && after.databases[scanned[i].database] == RebuiltDatabase(prior, scanned[i], now)
  {
    if i < |scanned| - 1 { RebuiltDatabaseAt(prior, scanned[..|scanned| - 1], now, i); }
  }

  lemma {:induction false} EnumeratedCount(s: seq<Path>, all: set<Path>)
    requires Enumerates(s, all)
    ensures |s| == |all|
  {
    if s != [] {
      var n := |s| - 1;
      var last := s[n];
      forall x ensures x in s[..n] <==> x in all - {last} {
        if x in all && x != last { assert x in s; }
      }
      EnumeratedCount(s[..n], all - {last});
    }
  }

  /** A database directory with a marker is listed, whatever the length of its id, and no other directory is. */
  lemma MarkersListed(disk: Disk, d: string)
    requires Rooted(disk) && DatabaseDirectory(d) in disk.marks && DatabaseDirectory(d) in disk.directories
    ensures DatabaseDirectory(d) in AllMarked(disk) && Joined(DatabaseDirectory(d)) == d
    ensures forall p :: p in AllMarked(disk) ==> p in disk.marks && p in disk.directories && 1 <= |p| <= 2
  {
    JoinedLevels(d);
    hide Joined;
  }

  /** After a successful rebuild there is a row for each marked directory and no other. Path, size and last use are those
      of its mark; a database that the catalog did not have gets no name and no protection, any other keeps its own; the
      layer count is the number of directories walked. */
  lemma DatabaseRowsFromMarks(
    prior: Catalog, disk: Disk, now: int, fails: bool, ok: bool, after: Catalog,
    scanned: seq<ScannedDatabase>, paths: seq<Path>, dirs: seq<seq<Path>>, d: string)
    requires RebuildOutcome(prior, disk, now, fails, ok, after, scanned, paths, dirs) && ok
    ensures d in after.databases <==> exists p :: p in AllMarked(disk) && Joined(p) == d
    ensures forall p :: p in AllMarked(disk) && Joined(p) == d ==>
              var row := after.databases[d];
              && row.path == disk.marks[p].path && row.bytes == disk.marks[p].bytes
              && row.lastAccessAt == disk.marks[p].modifiedAt && row.updatedAt == now
              && row.layerCount == |Walk(disk, DatabaseDirectory(d))|
              && (d !in prior.databases ==> row.revocable && row.name == "")
              && (d in prior.databases ==>
                    row.revocable == prior.databases[d].revocable && row.name == prior.databases[d].name)
  {
    hide AllMarked, Joined, LayersScanned, Walk, ValidId, DatabaseDirectory, Rebuilt, Unambiguous, ValidMarks;
    RebuiltKeys(prior, scanned, now);
    DatabasesScanned(scanned, d);
    hide DistinctDatabases, Databases;
    forall i | 0 <= i < |scanned| ensures DatabaseScanned(disk, scanned[i], paths[i], dirs[i]) && paths[i] in AllMarked(disk) {
      assert paths[i] in paths;
    }
    forall p | p in AllMarked(disk) && Joined(p) == d
      ensures d in after.databases
      ensures var row := after.databases[d];
              && row.path == disk.marks[p].path && row.bytes == disk.marks[p].bytes
              && row.lastAccessAt == disk.marks[p].modifiedAt && row.updatedAt == now
              && row.layerCount == |Walk(disk, DatabaseDirectory(d))|
              && (d !in prior.databases ==> row.revocable && row.name == "")
              && (d in prior.databases ==>
                    row.revocable == prior.databases[d].revocable && row.name == prior.databases[d].name)
    {
      assert p in paths;
      var i :| 0 <= i < |paths| && paths[i] == p;
      RebuiltDatabaseAt(prior, scanned, now, i);
      EnumeratedCount(dirs[i], Walk(disk, DatabaseDirectory(d)));
      LayersCounted(disk, DatabaseDirectory(d), scanned[i].layers, dirs[i]);
    }
  }

  lemma LayersCounted(disk: Disk, base: Path, layers: seq<ScannedLayer>, dirs: seq<Path>)
    requires LayersScanned(disk, base, layers, dirs)
    ensures |layers| == |dirs|
  {
  }

  /** After a successful rebuild there is a row for each walked directory: its figures summarize the shard files there,
      its format is that of the sample or "pbf"; a layer that the catalog did not have gets no name and no protection,
      any other keeps its own. */
  lemma LayerRowsFromWalk(
    prior: Catalog, disk: Disk, now: int, fails: bool, ok: bool, after: Catalog,
    scanned: seq<ScannedDatabase>, paths: seq<Path>, dirs: seq<seq<Path>>, p: Path, q: Path)
    requires RebuildOutcome(prior, disk, now, fails, ok, after, scanned, paths, dirs) && ok
    requires p in AllMarked(disk) && q in Walk(disk, DatabaseDirectory(Joined(p)))
    ensures var k := LayerKey(Joined(p), ItemAt(DatabaseDirectory(Joined(p)), q));
            k in after.layers &&
            var row := after.layers[k];
            && Summarizes(TilesAt(disk, q), Summary(row.tileCount, row.bytes, row.range)) && row.updatedAt == now
            && row.format == (if q in disk.formats then disk.formats[q] else "pbf")
            && (k !in prior.layers ==> row.revocable && row.name == "")
            && (k in prior.layers ==> row.revocable == prior.layers[k].revocable && row.name == prior.layers[k].name)
  {
    hide AllMarked, Joined, Walk, ValidId, DatabaseDirectory, Rebuilt, Unambiguous, ValidMarks, DistinctDatabases, Databases,
      Scanned, Summarizes, TilesAt, ItemAt;
    MarkedIsScanned(disk, scanned, paths, dirs, p);
    var i, j := WalkedIsListed(disk, scanned, paths, dirs, Joined(p), q);
    var k := KeyOf(scanned[i], j);
    RebuiltAt(prior, scanned, now, i, j);
    ScannedAt(disk, scanned, paths, dirs, i, j);
  }

  /** After a successful rebuild database rows are the sums of their layers. */
  lemma RebuiltSums(
    prior: Catalog, disk: Disk, now: int, fails: bool, ok: bool, after: Catalog,
    scanned: seq<ScannedDatabase>, paths: seq<Path>, dirs: seq<seq<Path>>)
    requires RebuildOutcome(prior, disk, now, fails, ok, after, scanned, paths, dirs) && ok
    ensures Conserved(after) && KeepsSettings(prior, after) && NewUnprotected(prior, after)
  {
    hide Unambiguous, ValidMarks, DistinctDatabases, Scanned, Rebuilt, Summarizes, TilesAt, Conserved, KeepsSettings,
      NewUnprotected;
    forall i, j | 0 <= i < |scanned| && 0 <= j < |scanned[i].layers|
      ensures scanned[i].layers[j].summary.tileCount >= 0 && scanned[i].layers[j].summary.totalBytes >= 0
    {
      ScannedAt(disk, scanned, paths, dirs, i, j);
      SaneSummary(TilesAt(disk, dirs[i][j]), scanned[i].layers[j].summary);
    }
    RebuildConserves(prior, scanned, now);
  }

  lemma SaneSummary(tiles: map<Coord, nat>, s: Summary)
    requires Summarizes(tiles, s)
    ensures s.tileCount >= 0 && s.totalBytes >= 0
  {
    Sums.TotalNonNegative(tiles);
  }

  lemma ScannedAt(disk: Disk, scanned: seq<ScannedDatabase>, paths: seq<Path>, dirs: seq<seq<Path>>, i: nat, j: nat)
    requires Scanned(disk, scanned, paths, dirs) && i < |scanned| && j < |scanned[i].layers|
    ensures i < |dirs| && j < |dirs[i]|
    ensures LayerScanned(disk, DatabaseDirectory(scanned[i].database), scanned[i].layers[j], dirs[i][j])
  {
    hide LayerScanned, Walk, Joined, ValidId, DatabaseDirectory, AllMarked;
    assert DatabaseScanned(disk, scanned[i], paths[i], dirs[i]);
  }

  // Ids longer than four characters

  datatype Zoomed = Zoomed(layer: LayerKey, letter: string)

  predicate LongLayer(k: LayerKey) { LongId(k.database) && k.item != "" }

  /** All directories lead to a zoom directory of some layer, whose database has a long id, and so do markers. */
  ghost predicate LongDatabases(disk: Disk) {
    && (forall p :: p in disk.directories ==> exists z: Zoomed :: LongLayer(z.layer) && LeadsTo(p, z))
    && (forall p :: p in disk.marks ==> exists d: string :: LongId(d) && ValidId(d) && p == DatabaseDirectory(d))
    && (forall p :: p in disk.files ==> exists k: LayerKey :: LongLayer(k) && p == Dir(k))
  }

  predicate LeadsTo(p: Path, z: Zoomed) { |z.letter| == 1 && Under(p, Dir(z.layer) + [z.letter]) }

  /** What the walk of a database with a long id meets: the directory of a long id, or the zoom directory of a short
      one. Either way the joined id tells where it has been split. */
  lemma WalkedLevels(disk: Disk, d: string, p: Path)
    requires LongDatabases(disk) && LongId(d) && p in Walk(disk, DatabaseDirectory(d))
    ensures |p| == 4 && p[..2] == DatabaseDirectory(d) && ItemAt(DatabaseDirectory(d), p) == p[2] + p[3]
    ensures (|p[2]| == 4 && p[3] != "") || (|p[2]| < 4 && |p[3]| == 1)
  {
    var z: Zoomed :| LongLayer(z.layer) && LeadsTo(p, z);
    var k := z.layer;
    var all := Dir(k) + [z.letter];
    assert p == all[..4] && p[..2] == DatabaseDirectory(d);
    if LongId(k.item) {
      assert all[2] == k.item[..4] && all[3] == k.item[4..];
    } else {
      assert all[2] == k.item && all[3] == z.letter;
    }
  }

  lemma SplitTold(a: string, b: string, a': string, b': string)
    requires a + b == a' + b'
    requires (|a| == 4 && b != "") || (|a| < 4 && |b| == 1)
    requires (|a'| == 4 && b' != "") || (|a'| < 4 && |b'| == 1)
    ensures a == a' && b == b'
  {
    assert |a + b| == |a| + |b| && |a' + b'| == |a'| + |b'|;
    assert a == (a + b)[..|a|] && a' == (a' + b')[..|a'|];
    assert b == (a + b)[|a|..] && b' == (a' + b')[|a'|..];
  }

  lemma LongWalkDistinct(disk: Disk, d: string)
    requires LongDatabases(disk) && LongId(d)
    ensures DistinctWalk(disk, DatabaseDirectory(d))
  {
    var base := DatabaseDirectory(d);
    hide LongDatabases, DatabaseDirectory;
    forall p, q | p in Walk(disk, base) && q in Walk(disk, base) && ItemAt(base, p) == ItemAt(base, q) ensures p == q {
      WalkedLevels(disk, d, p);
      WalkedLevels(disk, d, q);
      SplitTold(p[2], p[3], q[2], q[3]);
      assert p == p[..2] + [p[2], p[3]] && q == q[..2] + [q[2], q[3]];
    }
  }

  /** If all databases have ids longer than four characters, a rebuild repeats no id, and no directory with shard files
      stands for a layer that is not its own. */
  lemma LongDatabasesRebuild(disk: Disk, k: LayerKey)
    requires LongDatabases(disk)
    ensures ValidMarks(disk) && Unambiguous(disk) && (LongId(k.database) ==> Unmixed(disk, k))
  {
    forall p | p in AllMarked(disk) ensures exists d :: LongId(d) && ValidId(d) && p == DatabaseDirectory(d) && Joined(p) == d {
      var d: string :| LongId(d) && ValidId(d) && p == DatabaseDirectory(d);
      JoinedLevels(d);
    }
    forall p | p in AllMarked(disk) ensures DistinctWalk(disk, DatabaseDirectory(Joined(p))) {
      var d: string :| LongId(d) && p == DatabaseDirectory(d) && Joined(p) == d;
      LongWalkDistinct(disk, d);
    }
    hide DistinctWalk;
    if LongId(k.database) { LongUnmixed(disk, k); }
  }

  lemma LongUnmixed(disk: Disk, k: LayerKey)
    requires LongDatabases(disk) && LongId(k.database)
    ensures Unmixed(disk, k)
  {
    var base := DatabaseDirectory(k.database);
    forall p | p in disk.files && Walked(disk, base, p) && ItemAt(base, p) == k.item ensures p == Dir(k) {
      var l: LayerKey :| LongLayer(l) && p == Dir(l);
      assert p[..2] == base && base == [k.database[..4], k.database[4..]];
      assert p[..2] == DatabaseDirectory(l.database) == [l.database[..4], l.database[4..]];
      assert k.database == base[0] + base[1] && l.database == base[0] + base[1];
      assert LongId(l.item) && p[2] == l.item[..4] && p[3] == l.item[4..] && l.item == p[2] + p[3];
    }
  }

  /** Where all databases have long ids: a rebuild without a fault succeeds, and leaves accurate the rows of exactly the
      layers that have no tiles or, in a listed database, an item id longer than four characters. */
  lemma LongRebuild(
    prior: Catalog, disk: Disk, now: int, fails: bool, ok: bool, after: Catalog,
    scanned: seq<ScannedDatabase>, paths: seq<Path>, dirs: seq<seq<Path>>, k: LayerKey)
    requires RebuildOutcome(prior, disk, now, fails, ok, after, scanned, paths, dirs)
    requires Rooted(disk) && LongDatabases(disk) && LongId(k.database) && ValidId(k.item)
    ensures ok <==> !fails
    ensures ok ==>
              var w := RebuiltWorld(prior, disk, scanned, now);
              && w.catalog == after
              && (Accurate(w, k) <==> TilesOf(w, k) == map[] || (k.database in Databases(scanned) && LongId(k.item)))
  {
    hide Scanned, Rooted, LongDatabases, Unambiguous, Unmixed, DistinctDatabases, RebuiltWorld, Rebuilt, Accurate, TilesOf,
      Databases, ValidMarks, ValidId;
    LongDatabasesRebuild(disk, k);
    if ok {
      WorldAt(prior, disk, scanned, now, k);
      RebuildAccurateExactly(prior, disk, scanned, paths, dirs, now, k);
    }
  }

  // What becomes of a layer with a short id

  function ZoomKey(k: LayerKey, file: ShardFile): LayerKey { LayerKey(k.database, k.item + file.name[..Min(1, |file.name|)]) }

  /** In place of a layer whose item has at most four characters the rebuild lists one for each of its zoom directories,
      which has the settings that the catalog had for that id, or none. */
  lemma ZoomDirectoryListed(
    prior: Catalog, disk: Disk, scanned: seq<ScannedDatabase>, paths: seq<Path>, dirs: seq<seq<Path>>, now: int,
    k: LayerKey, f: nat)
    requires Rooted(disk) && Scanned(disk, scanned, paths, dirs) && DistinctDatabases(scanned)
    requires !LongId(k.item) && k.database in Databases(scanned)
    requires Dir(k) in disk.files && f < |disk.files[Dir(k)]| && ValidId(ZoomKey(k, disk.files[Dir(k)][f]).item)
    ensures var z, after := ZoomKey(k, disk.files[Dir(k)][f]), Rebuilt(prior, scanned, now);
            && z in after.layers
            && after.layers[z].revocable == (z in prior.layers ==> prior.layers[z].revocable)
            && after.layers[z].name == (if z in prior.layers then prior.layers[z].name else "")
  {
    var file, base := disk.files[Dir(k)][f], DatabaseDirectory(k.database);
    var p := Dir(k) + [file.name[..1]];
    ZoomDirectoryWalked(disk, k, f);
    hide Rooted, Scanned, DistinctDatabases, Databases, Walk, Rebuilt, Dir, ValidId;
    var i, j := WalkedIsListed(disk, scanned, paths, dirs, k.database, p);
    RowFrom(prior, disk, scanned, paths, dirs, now, ZoomKey(k, file), i, j);
    WorldAt(prior, disk, scanned, now, ZoomKey(k, file));
  }

  lemma ZoomDirectoryWalked(disk: Disk, k: LayerKey, f: nat)
    requires Rooted(disk) && !LongId(k.item)
    requires Dir(k) in disk.files && f < |disk.files[Dir(k)]| && ValidId(ZoomKey(k, disk.files[Dir(k)][f]).item)
    ensures var file, base := disk.files[Dir(k)][f], DatabaseDirectory(k.database);
            var p := Dir(k) + [file.name[..Min(1, |file.name|)]];
            && file.name != "" && |p| == |base| + 2 && ItemAt(base, p) == ZoomKey(k, file).item && p in Walk(disk, base)
  {
    var file, base := disk.files[Dir(k)][f], DatabaseDirectory(k.database);
    var p := Dir(k) + [file.name[..1]];
    assert Dir(k) == base + [k.item];
    assert p[|base|] == k.item && p[|base| + 1] == file.name[..1] && p[..|base| + 1] == Dir(k);
  }

  /** Every row of a rebuilt catalog comes from a walked directory. */
  lemma RowsAreWalked(
    prior: Catalog, disk: Disk, scanned: seq<ScannedDatabase>, paths: seq<Path>, dirs: seq<seq<Path>>, now: int, k: LayerKey)
    returns (p: Path)
    requires Scanned(disk, scanned, paths, dirs) && DistinctDatabases(scanned) && k in Rebuilt(prior, scanned, now).layers
    ensures p in Walk(disk, DatabaseDirectory(k.database)) && ItemAt(DatabaseDirectory(k.database), p) == k.item
    ensures Summarizes(TilesAt(disk, p), Figures(RebuiltWorld(prior, disk, scanned, now), k))
  {
    OnlyListed(prior, scanned, now, k);
    hide Scanned, DistinctDatabases, Rebuilt, RebuiltWorld, Walk, Summarizes, TilesAt;
    var i, j :| 0 <= i < |scanned| && 0 <= j < |scanned[i].layers| && KeyOf(scanned[i], j) == k;
    RowFrom(prior, disk, scanned, paths, dirs, now, k, i, j);
    p := dirs[i][j];
  }

  // A protected layer that a rebuild forgets

  const KEPT := LayerKey("databases", "abc")
  const STRAY := LayerKey("databases", "abcJ")
  const BASE: Path := ["data", "bases"]
  const ONLY := Coord(9, 0, 0)

  function OneFile(): ShardFile { ShardFile("J_0_0.s", [Table("J_0_0", map[ONLY := 5])]) }

  /** One tile of item "abc", in a database that is marked. */
  function SmallDisk(): Disk {
    Disk(
      {["data"], BASE, BASE + ["abc"], BASE + ["abc", "J"]}, map[BASE + ["abc"] := [OneFile()]],
      map[BASE := Mark("data/bases", 5, Some(0))], map[])
  }

  /** Its row is accurate and protected. */
  function Protecting(): Catalog {
    Catalog(
      map["databases" := DatabaseRow("", "data", 5, 1, 1, None, 0, true)],
      map[KEPT := LayerRow("kept", "png", PointRange(ONLY), 1, 5, 0, false)])
  }

  lemma SmallPaths()
    ensures DatabaseDirectory("databases") == BASE && Dir(KEPT) == BASE + ["abc"] && ValidId("databases")
    ensures BASE + ["abc", "J"] == BASE + ["abc"] + ["J"] && |BASE + ["abc", "J"]| == 4
    ensures ItemAt(BASE, BASE + ["abc", "J"]) == "abcJ"
  {
    assert "databases"[..4] == "data" && "databases"[4..] == "bases";
  }

  lemma SmallDirectories()
    ensures Closed(SmallDisk().directories)
    ensures forall p :: p in SmallDisk().directories <==> |p| > 0 && Under(p, BASE + ["abc", "J"])
  {
    var all := BASE + ["abc", "J"];
    assert all[..1] == ["data"] && all[..2] == BASE && all[..3] == BASE + ["abc"] && all[..4] == all;
    forall p ensures p in SmallDisk().directories <==> |p| > 0 && Under(p, all) {
      if Under(p, all) && |p| > 0 { assert p == all[..|p|]; }
    }
    forall p, n | p in SmallDisk().directories && 0 < n <= |p| ensures p[..n] in SmallDisk().directories {
      assert Under(p[..n], all);
    }
  }

  lemma SmallFile()
    ensures WellFiled([OneFile()])
  {
    assert TableName(9, 0, 0) == "J_0_0" && ShardName(9, 0, 0) == "J_0_0.s" by {
      assert Decimal(0) == "0";
      assert ZoomLetter(9) == 'J';
    }
    assert Belongs(OneFile().tables[0], OneFile());
  }

  lemma SmallDiskStored()
    ensures WellStored(SmallDisk()) && Rooted(SmallDisk())
  {
    hide WellFiled;
    SmallPaths();
    SmallDirectories();
    SmallFile();
    assert OneFile().name[..1] == "J";
  }

  lemma SmallDiskLong()
    ensures LongDatabases(SmallDisk())
  {
    hide Joined;
    SmallPaths();
    SmallDirectories();
    var disk, z := SmallDisk(), Zoomed(KEPT, "J");
    forall p | p in disk.directories ensures LongLayer(z.layer) && LeadsTo(p, z) {}
    assert LongLayer(KEPT);
    hide SmallDisk, LeadsTo, Dir;
    assert forall p :: p in disk.directories ==> LeadsTo(p, z);
  }

  lemma SmallDiskListed()
    ensures AllMarked(SmallDisk()) == {BASE} && Joined(BASE) == "databases"
  {
    hide Joined;
    SmallPaths();
    JoinedLevels("databases");
    assert BASE[..1] == ["data"];
  }

  lemma SmallDiskWalked()
    ensures Walk(SmallDisk(), BASE) == {BASE + ["abc", "J"]}
  {
    var all := BASE + ["abc", "J"];
    assert ValidId("abcJ") && all[..3] == BASE + ["abc"];
    hide SmallDisk, ValidId, Joined;
    SmallPaths();
    SmallDirectories();
    forall p ensures p in Walk(SmallDisk(), BASE) <==> p == all {
      if |p| == 4 && Under(p, all) { assert p == all[..4]; }
      assert all[..3] in SmallDisk().directories && Under(BASE, all);
    }
  }

  lemma SmallTiles()
    ensures TilesAt(SmallDisk(), Dir(KEPT)) == map[ONLY := 5]
  {
    SmallPaths();
    var files := [OneFile()];
    assert files[..0] == [] && AllTables(files) == OneFile().tables;
    var tables := OneFile().tables;
    assert tables[..0] == [];
  }

  /** A marked directory puts its database on the list. */
  lemma MarkedIsScanned(disk: Disk, scanned: seq<ScannedDatabase>, paths: seq<Path>, dirs: seq<seq<Path>>, p: Path)
    requires Scanned(disk, scanned, paths, dirs) && p in AllMarked(disk)
    ensures Joined(p) in Databases(scanned)
  {
    DatabasesScanned(scanned, Joined(p));
    hide Databases, AllMarked, Joined, LayersScanned, Walk, ValidId;
    assert p in paths;
    var i :| 0 <= i < |paths| && paths[i] == p;
    assert DatabaseScanned(disk, scanned[i], paths[i], dirs[i]);
  }

  lemma SmallKey()
    ensures Dir(KEPT) in SmallDisk().files && |SmallDisk().files[Dir(KEPT)]| == 1
    ensures ZoomKey(KEPT, SmallDisk().files[Dir(KEPT)][0]) == STRAY && ValidId(STRAY.item) && STRAY !in Protecting().layers
  {
    SmallPaths();
    assert "J_0_0.s"[..1] == "J";
  }

  lemma SmallStray(now: int, scanned: seq<ScannedDatabase>, paths: seq<Path>, dirs: seq<seq<Path>>)
    requires Scanned(SmallDisk(), scanned, paths, dirs) && DistinctDatabases(scanned)
    ensures var after := Rebuilt(Protecting(), scanned, now); STRAY in after.layers && after.layers[STRAY].revocable
  {
    hide Scanned, DistinctDatabases, Rebuilt, Joined, AllMarked, Databases, Rooted, Dir, WellStored;
    SmallDiskStored();
    SmallDiskListed();
    SmallKey();
    MarkedIsScanned(SmallDisk(), scanned, paths, dirs, BASE);
    ZoomDirectoryListed(Protecting(), SmallDisk(), scanned, paths, dirs, now, KEPT, 0);
  }

  lemma SmallCount(now: int, scanned: seq<ScannedDatabase>, paths: seq<Path>, dirs: seq<seq<Path>>)
    requires Scanned(SmallDisk(), scanned, paths, dirs) && DistinctDatabases(scanned)
    ensures var after := Rebuilt(Protecting(), scanned, now);
            KEPT !in after.layers && (STRAY in after.layers ==> after.layers[STRAY].tileCount == 0)
  {
    var p := BASE + ["abc", "J"];
    assert p !in SmallDisk().files;
    hide Scanned, DistinctDatabases, Rebuilt, Dir, SmallDisk, RebuiltWorld, TilesAt, Summarizes, Protecting, Walk;
    SmallDiskWalked();
    SmallPaths();
    NoFilesNoTiles(SmallDisk(), p);
    var after := Rebuilt(Protecting(), scanned, now);
    if KEPT in after.layers {
      var q := RowsAreWalked(Protecting(), SmallDisk(), scanned, paths, dirs, now, KEPT);
    }
    if STRAY in after.layers {
      var q := RowsAreWalked(Protecting(), SmallDisk(), scanned, paths, dirs, now, STRAY);
      WorldAt(Protecting(), SmallDisk(), scanned, now, STRAY);
      EmptyFigures(Figures(RebuiltWorld(Protecting(), SmallDisk(), scanned, now), STRAY));
    }
  }

  /** Nothing fails, and the protected row of item "abc" is gone while its tile stays; an unprotected layer "abcJ"
      without tiles stands in its place. */
  lemma RebuildForgetsProtection(
    now: int, ok: bool, after: Catalog, scanned: seq<ScannedDatabase>, paths: seq<Path>, dirs: seq<seq<Path>>)
    requires RebuildOutcome(Protecting(), SmallDisk(), now, false, ok, after, scanned, paths, dirs)
    ensures ok && !Protecting().layers[KEPT].revocable && TilesAt(SmallDisk(), Dir(KEPT)) != map[]
    ensures KEPT !in after.layers && STRAY in after.layers && after.layers[STRAY].revocable
    ensures after.layers[STRAY].tileCount == 0
  {
    hide Scanned, DistinctDatabases, Rebuilt, Unambiguous, LongDatabases, SmallDisk, TilesAt, ValidMarks, Dir, Unmixed;
    SmallDiskLong();
    SmallTiles();
    assert ONLY in TilesAt(SmallDisk(), Dir(KEPT));
    LongDatabasesRebuild(SmallDisk(), KEPT);
    SmallStray(now, scanned, paths, dirs);
    SmallCount(now, scanned, paths, dirs);
  }
}
