/** The scan of the directories: which databases and layers it lists, and what it counts for them. */
module Scan {
  import opened Tiles
  import opened Layers
  import opened CatalogLaws
  import opened Paths

  datatype ShardFile = ShardFile(name: string, tables: seq<Table>)

  /** What the listing says of a directory with an access marker. */
  datatype Mark = Mark(path: string, bytes: nat, modifiedAt: Option<int>)

  /** All directories below the root; the shard files of an item's directory, each in the zoom directory that its first
      letter names; the directories with a marker; the formats found in samples. */
  datatype Disk = Disk(
    directories: set<Path>, files: map<Path, seq<ShardFile>>, marks: map<Path, Mark>, formats: map<Path, string>)

  // Shard files

  /** The table of some block of tiles sits in the shard file of that block. */
  ghost predicate Belongs(t: Table, file: ShardFile) {
    exists z: int, x: nat, y: nat :: ValidZoom(z) && t.name == TableName(z, x, y) && file.name == ShardName(z, x, y)
  }

  ghost predicate WellFilled(file: ShardFile) {
    DistinctNames(file.tables) && forall i :: 0 <= i < |file.tables| ==> Belongs(file.tables[i], file) && WellPlaced(file.tables[i])
  }

  /** A directory lists every file once, a file every table once, and puts have placed tables and rows by address. */
  ghost predicate WellFiled(files: seq<ShardFile>) {
    && (forall i, j :: 0 <= i < j < |files| ==> files[i].name != files[j].name)
    && forall i :: 0 <= i < |files| ==> WellFilled(files[i])
  }

  function AllTables(files: seq<ShardFile>): seq<Table> {
    if files == [] then [] else AllTables(files[..|files| - 1]) + files[|files| - 1].tables
  }

  /** Tables of the same name are in the same file. */
  lemma SameFile(t: Table, file: ShardFile, t': Table, file': ShardFile)
    requires Belongs(t, file) && Belongs(t', file') && t.name == t'.name
    ensures file.name == file'.name
  {
    var z: int, x: nat, y: nat :| ValidZoom(z) && t.name == TableName(z, x, y) && file.name == ShardName(z, x, y);
    var z': int, x': nat, y': nat :|
      ValidZoom(z') && t'.name == TableName(z', x', y') && file'.name == ShardName(z', x', y');
    AddressInvertible(z, x, y, z', x', y');
  }

  /** Every table of some files is in one of them. */
  lemma {:induction false} TableFile(files: seq<ShardFile>, i: nat) returns (f: nat)
    requires i < |AllTables(files)|
    ensures f < |files| && AllTables(files)[i] in files[f].tables
  {
    var n := |files| - 1;
    if i < |AllTables(files[..n])| { f := TableFile(files[..n], i); } else { f := n; }
  }

  /** No table name occurs twice in an item, so the scan counts no tile twice. */
  lemma {:induction false} TablesDistinct(files: seq<ShardFile>)
    requires WellFiled(files)
    ensures DistinctNames(AllTables(files))
    ensures forall i :: 0 <= i < |AllTables(files)| ==> WellPlaced(AllTables(files)[i])
  {
    hide Belongs, WellPlaced;
    if files != [] {
      var n := |files| - 1;
      TablesDistinct(files[..n]);
      var before, last := AllTables(files[..n]), files[n];
      assert WellFilled(last);
      forall i, j | 0 <= i < |before| && 0 <= j < |last.tables| ensures before[i].name != last.tables[j].name {
        var f := TableFile(files[..n], i);
        assert WellFilled(files[f]);
        if before[i].name == last.tables[j].name { SameFile(before[i], files[f], last.tables[j], last); }
      }
    }
  }

  function TilesStored(files: seq<ShardFile>): map<Coord, nat> { AllTiles(AllTables(files)) }

  function FilesAt(disk: Disk, directory: Path): seq<ShardFile> {
    if directory in disk.files then disk.files[directory] else []
  }

  /** The tiles in the shard files of a directory. */
  function TilesAt(disk: Disk, directory: Path): map<Coord, nat> { TilesStored(FilesAt(disk, directory)) }

  lemma NoFilesNoTiles(disk: Disk, directory: Path)
    requires directory !in disk.files
    ensures TilesAt(disk, directory) == map[]
  {
    assert AllTables([]) == [];
  }

  ghost predicate WellStored(disk: Disk) { forall d :: d in disk.files ==> WellFiled(disk.files[d]) }

  /** Parents exist, and so do the directories that shard files are in. */
  predicate Rooted(disk: Disk) {
    && Closed(disk.directories)
    && forall p :: p in disk.files ==>
         && p in disk.directories
         && forall i :: 0 <= i < |disk.files[p]| ==>
              disk.files[p][i].name != "" && p + [disk.files[p][i].name[..1]] in disk.directories
  }

  /** Scanning the shard files of one directory. */
  method ScanFiles(disk: Disk, directory: Path) returns (summary: Summary)
    requires WellStored(disk)
    ensures Summarizes(TilesAt(disk, directory), summary)
  {
    hide WellPlaced, Summarizes, WellFilled;
    var files := FilesAt(disk, directory);
    TablesDistinct(files);
    summary := ScanItem(AllTables(files));
  }

  // The walk of a database

  /** The sequence lists every element of the set once. */
  ghost predicate Enumerates(s: seq<Path>, all: set<Path>) {
    (forall x :: x in s <==> x in all) && forall i, j :: 0 <= i < j < |s| ==> s[i] != s[j]
  }

  lemma EnumeratesNothing()
    ensures Enumerates([], {})
  {
  }

  lemma EnumeratesOne(p: Path)
    ensures Enumerates([p], {p})
  {
  }

  lemma EnumeratesMore(s: seq<Path>, all: set<Path>, x: Path)
    requires Enumerates(s, all) && x !in all
    ensures Enumerates(s + [x], all + {x})
  {
  }

  lemma EnumeratesBoth(s: seq<Path>, all: set<Path>, s': seq<Path>, all': set<Path>)
    requires Enumerates(s, all) && Enumerates(s', all') && all !! all'
    ensures Enumerates(s + s', all + all')
  {
    forall i, j | 0 <= i < |s| && 0 <= j < |s'| ensures s[i] != s'[j] {
      assert s[i] in s && s'[j] in s';
    }
  }

  /** The directories just below a directory. */
  function Children(directories: set<Path>, base: Path): set<Path> {
    set p | p in directories && |p| == |base| + 1 && Under(base, p)
  }

  /** The id that a directory two levels below another stands for. */
  function ItemAt(base: Path, p: Path): string
    requires |p| == |base| + 2
  {
    p[|base|] + p[|base| + 1]
  }

  predicate Walked(disk: Disk, base: Path, p: Path) {
    && p in disk.directories && |p| == |base| + 2 && Under(base, p) && p[..|base| + 1] in disk.directories
    && ValidId(ItemAt(base, p))
  }

  /** The directories that the walk of a database takes for those of items. */
  function Walk(disk: Disk, base: Path): set<Path> { set p | p in disk.directories && Walked(disk, base, p) }

  function WalkBelow(disk: Disk, base: Path, prefixes: set<Path>): set<Path> {
    set p | p in Walk(disk, base) && p[..|base| + 1] in prefixes
  }

  ghost predicate LayersScanned(disk: Disk, base: Path, layers: seq<ScannedLayer>, dirs: seq<Path>) {
    && |layers| == |dirs|
    && forall j :: 0 <= j < |dirs| ==> LayerScanned(disk, base, layers[j], dirs[j])
  }

  ghost predicate LayerScanned(disk: Disk, base: Path, layer: ScannedLayer, p: Path) {
    && |p| == |base| + 2 && layer.item == ItemAt(base, p) && layer.format == FormatAt(disk, p)
    && Summarizes(TilesAt(disk, p), layer.summary)
  }

  function FormatAt(disk: Disk, p: Path): string { if p in disk.formats then disk.formats[p] else "pbf" }

  lemma TwoLevels(directories: set<Path>, base: Path, prefix: Path, p: Path)
    requires prefix in Children(directories, base)
    ensures p in Children(directories, prefix) <==>
            p in directories && |p| == |base| + 2 && Under(base, p) && p[..|base| + 1] == prefix
  {
  }

  method ScanPrefix(disk: Disk, base: Path, prefix: Path) returns (layers: seq<ScannedLayer>, ghost dirs: seq<Path>)
    requires WellStored(disk) && prefix in Children(disk.directories, base)
    ensures LayersScanned(disk, base, layers, dirs) && Enumerates(dirs, WalkBelow(disk, base, {prefix}))
  {
    hide WellStored, Summarizes, Enumerates, TilesAt;
    layers, dirs := [], [];
    var todo := Children(disk.directories, prefix);
    ghost var listed: set<Path> := {};
    EnumeratesNothing();
    forall p ensures p in todo <== p in WalkBelow(disk, base, {prefix}) { TwoLevels(disk.directories, base, prefix, p); }
    while todo != {}
      invariant todo <= Children(disk.directories, prefix)
      invariant listed == set p | p in WalkBelow(disk, base, {prefix}) && p !in todo
      invariant LayersScanned(disk, base, layers, dirs) && Enumerates(dirs, listed)
      decreases todo
    {
      var p :| p in todo;
      TwoLevels(disk.directories, base, prefix, p);
      todo := todo - {p};
      var item := ItemAt(base, p);
      if !ValidId(item) { continue; }
      var summary := ScanFiles(disk, p);
      layers := layers + [ScannedLayer(item, FormatAt(disk, p), summary)];
      EnumeratesMore(dirs, listed, p);
      dirs, listed := dirs + [p], listed + {p};
    }
    assert listed == WalkBelow(disk, base, {prefix});
  }

  lemma NothingToWalk(disk: Disk, database: string)
    requires Rooted(disk) && DatabaseDirectory(database) !in disk.directories
    ensures Walk(disk, DatabaseDirectory(database)) == {}
  {
    NothingBelow(disk.directories, DatabaseDirectory(database));
  }

  method Tilesets(disk: Disk, database: string) returns (layers: seq<ScannedLayer>, ghost dirs: seq<Path>)
    requires WellStored(disk) && Rooted(disk)
    ensures LayersScanned(disk, DatabaseDirectory(database), layers, dirs)
    ensures Enumerates(dirs, Walk(disk, DatabaseDirectory(database)))
  {
    hide WellStored, Summarizes, Enumerates, TilesAt, LayerScanned, DatabaseDirectory, Rooted;
    layers, dirs := [], [];
    var base := DatabaseDirectory(database);
    EnumeratesNothing();
    if base !in disk.directories {
      NothingToWalk(disk, database);
      return;
    }
    var todo := Children(disk.directories, base);
    ghost var done: set<Path> := {};
    assert WalkBelow(disk, base, done) == {};
    while todo != {}
      invariant done + todo == Children(disk.directories, base) && done !! todo
      invariant LayersScanned(disk, base, layers, dirs) && Enumerates(dirs, WalkBelow(disk, base, done))
      decreases todo
    {
      var prefix :| prefix in todo;
      var below, more := ScanPrefix(disk, base, prefix);
      assert WalkBelow(disk, base, done + {prefix}) == WalkBelow(disk, base, done) + WalkBelow(disk, base, {prefix});
      EnumeratesBoth(dirs, WalkBelow(disk, base, done), more, WalkBelow(disk, base, {prefix}));
      layers, dirs := layers + below, dirs + more;
      todo, done := todo - {prefix}, done + {prefix};
    }
    assert WalkBelow(disk, base, done) == Walk(disk, base);
  }

  // The listing of the databases

  /** The directories with a marker, on the first or the second level. */
  predicate Marked(disk: Disk, p: Path) {
    p in disk.marks && p in disk.directories && (|p| == 1 || (|p| == 2 && p[..1] in disk.directories))
  }

  function MarkedBelow(disk: Disk, firsts: set<Path>): set<Path> {
    set p | p in disk.directories && Marked(disk, p) && p[..1] in firsts
  }

  function AllMarked(disk: Disk): set<Path> { set p | p in disk.directories && Marked(disk, p) }

  method ListBelow(disk: Disk, first: Path) returns (paths: seq<Path>)
    requires first in Children(disk.directories, [])
    ensures Enumerates(paths, MarkedBelow(disk, {first}))
  {
    hide Enumerates;
    assert first[..1] == first;
    paths := if first in disk.marks then [first] else [];
    ghost var listed: set<Path> := if first in disk.marks then {first} else {};
    EnumeratesNothing();
    EnumeratesOne(first);
    var todo := Children(disk.directories, first);
    forall p ensures p in MarkedBelow(disk, {first}) && p !in todo <==> p == first && p in disk.marks {
      if |p| == 1 { assert p[..1] == p; }
      if |p| == 2 && p[..1] == first { assert Under(first, p); }
    }
    while todo != {}
      invariant todo <= Children(disk.directories, first)
      invariant listed == set p | p in MarkedBelow(disk, {first}) && p !in todo
      invariant Enumerates(paths, listed)
      decreases todo
    {
      var p :| p in todo;
      assert p[..1] == first;
      todo := todo - {p};
      if p in disk.marks {
        EnumeratesMore(paths, listed, p);
        paths, listed := paths + [p], listed + {p};
      }
    }
    assert listed == MarkedBelow(disk, {first});
  }

  /** The directories that the listing of the databases finds. */
  method ListDatabases(disk: Disk) returns (paths: seq<Path>)
    ensures Enumerates(paths, AllMarked(disk))
  {
    hide Enumerates;
    paths := [];
    var todo := Children(disk.directories, []);
    ghost var done: set<Path> := {};
    EnumeratesNothing();
    assert MarkedBelow(disk, done) == {};
    while todo != {}
      invariant done + todo == Children(disk.directories, []) && done !! todo
      invariant Enumerates(paths, MarkedBelow(disk, done))
      decreases todo
    {
      var first :| first in todo;
      var below := ListBelow(disk, first);
      assert MarkedBelow(disk, done + {first}) == MarkedBelow(disk, done) + MarkedBelow(disk, {first});
      EnumeratesBoth(paths, MarkedBelow(disk, done), below, MarkedBelow(disk, {first}));
      paths := paths + below;
      todo, done := todo - {first}, done + {first};
    }
    forall p | p in AllMarked(disk) ensures p[..1] in done {
      if |p| == 1 { assert p[..1] == p; }
    }
    assert MarkedBelow(disk, done) == AllMarked(disk);
  }

  // The whole scan

  /** A listed database with the layers of its walk. */
  ghost predicate DatabaseScanned(disk: Disk, s: ScannedDatabase, p: Path, dirs: seq<Path>) {
    && p in disk.marks && s.database == Joined(p) && ValidId(s.database)
    && s.path == disk.marks[p].path && s.bytes == disk.marks[p].bytes && s.modifiedAt == disk.marks[p].modifiedAt
    && Enumerates(dirs, Walk(disk, DatabaseDirectory(s.database)))
    && LayersScanned(disk, DatabaseDirectory(s.database), s.layers, dirs)
  }

  ghost predicate Scanned(disk: Disk, scanned: seq<ScannedDatabase>, paths: seq<Path>, dirs: seq<seq<Path>>) {
    && |scanned| == |paths| == |dirs| && Enumerates(paths, AllMarked(disk))
    && forall i :: 0 <= i < |paths| ==> DatabaseScanned(disk, scanned[i], paths[i], dirs[i])
  }

  /** Every listed id is valid. */
  predicate ValidMarks(disk: Disk) { forall p :: p in AllMarked(disk) ==> ValidId(Joined(p)) }

  /** The scan fails if it lists an id that is not valid. */
  method ScanAll(disk: Disk)
    returns (ok: bool, scanned: seq<ScannedDatabase>, ghost paths: seq<Path>, ghost dirs: seq<seq<Path>>)
    requires WellStored(disk) && Rooted(disk)
    ensures ok <==> ValidMarks(disk)
    ensures ok ==> Scanned(disk, scanned, paths, dirs)
  {
    hide WellStored, Rooted, LayersScanned, Walk, Joined, ValidId, DatabaseDirectory;
    var listed := ListDatabases(disk);
    scanned, paths, dirs := [], listed, [];
    for n := 0 to |listed|
      invariant |scanned| == n && |dirs| == n
      invariant forall i :: 0 <= i < n ==> ValidId(Joined(listed[i]))
      invariant forall i :: 0 <= i < n ==> DatabaseScanned(disk, scanned[i], listed[i], dirs[i])
    {
      var p := listed[n];
      assert p in listed && p in AllMarked(disk);
      if !ValidId(Joined(p)) { return false, [], [], []; }
      var layers, ds := Tilesets(disk, Joined(p));
      var mark := disk.marks[p];
      scanned := scanned + [ScannedDatabase(Joined(p), mark.path, mark.bytes, mark.modifiedAt, layers)];
      dirs := dirs + [ds];
    }
    ok := true;
  }
}
