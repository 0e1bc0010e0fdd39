/** What the catalog says about a layer: zoom range and the extent at the top zoom, kept put by put and
    recomputed by the scan of the shard files. */
module Layers {
  import opened Tiles
  import opened Sums
  import Paths

  datatype Coord = Coord(z: int, x: int, y: int)

  datatype Range = Range(
    minZoom: Option<int>, maxZoom: Option<int>,
    minX: Option<int>, maxX: Option<int>, minY: Option<int>, maxY: Option<int>)

  const NO_RANGE := Range(None, None, None, None, None, None)

  datatype Axis = Zoom | X | Y

  function At(c: Coord, axis: Axis): int {
    match axis case Zoom => c.z case X => c.x case Y => c.y
  }

  ghost predicate Least(tiles: set<Coord>, axis: Axis, least: Option<int>) {
    match least
    case None => tiles == {}
    case Some(v) => (exists c :: c in tiles && At(c, axis) == v) && forall c :: c in tiles ==> v <= At(c, axis)
  }

  ghost predicate Greatest(tiles: set<Coord>, axis: Axis, greatest: Option<int>) {
    match greatest
    case None => tiles == {}
    case Some(v) => (exists c :: c in tiles && At(c, axis) == v) && forall c :: c in tiles ==> At(c, axis) <= v
  }

  function Top(tiles: set<Coord>, maxZoom: Option<int>): set<Coord> {
    set c | c in tiles && maxZoom == Some(c.z)
  }

  ghost predicate Extent(tiles: set<Coord>, r: Range) {
    && Least(tiles, X, r.minX) && Greatest(tiles, X, r.maxX)
    && Least(tiles, Y, r.minY) && Greatest(tiles, Y, r.maxY)
  }

  /** The range of a set of tiles: least and greatest zoom, and the extent of the tiles at the greatest zoom. */
  ghost predicate Describes(tiles: set<Coord>, r: Range) {
    && Least(tiles, Zoom, r.minZoom)
    && Greatest(tiles, Zoom, r.maxZoom)
    && Extent(Top(tiles, r.maxZoom), r)
  }

  lemma DescriptionUnique(tiles: set<Coord>, r: Range, s: Range)
    requires Describes(tiles, r) && Describes(tiles, s)
    ensures r == s
  {
    LeastUnique(tiles, Zoom, r.minZoom, s.minZoom);
    GreatestUnique(tiles, Zoom, r.maxZoom, s.maxZoom);
    var top := Top(tiles, r.maxZoom);
    LeastUnique(top, X, r.minX, s.minX);
    GreatestUnique(top, X, r.maxX, s.maxX);
    LeastUnique(top, Y, r.minY, s.minY);
    GreatestUnique(top, Y, r.maxY, s.maxY);
  }

  lemma LeastUnique(tiles: set<Coord>, axis: Axis, a: Option<int>, b: Option<int>)
    requires Least(tiles, axis, a) && Least(tiles, axis, b)
    ensures a == b
  {
  }

  lemma GreatestUnique(tiles: set<Coord>, axis: Axis, a: Option<int>, b: Option<int>)
    requires Greatest(tiles, axis, a) && Greatest(tiles, axis, b)
    ensures a == b
  {
  }

  lemma LeastUnion(s: set<Coord>, t: set<Coord>, axis: Axis, a: Option<int>, b: Option<int>)
    requires Least(s, axis, a) && Least(t, axis, b)
    ensures Least(s + t, axis, MergeMin(a, b))
  {
    assert s == {} ==> s + t == t;
    assert t == {} ==> s + t == s;
  }

  lemma GreatestUnion(s: set<Coord>, t: set<Coord>, axis: Axis, a: Option<int>, b: Option<int>)
    requires Greatest(s, axis, a) && Greatest(t, axis, b)
    ensures Greatest(s + t, axis, MergeMax(a, b))
  {
    assert s == {} ==> s + t == t;
    assert t == {} ==> s + t == s;
  }

  lemma ExtentUnion(s: set<Coord>, t: set<Coord>, r: Range, q: Range)
    requires Extent(s, r) && Extent(t, q)
    ensures Extent(s + t, MergeExtent(r, q))
  {
    LeastUnion(s, t, X, r.minX, q.minX);
    GreatestUnion(s, t, X, r.maxX, q.maxX);
    LeastUnion(s, t, Y, r.minY, q.minY);
    GreatestUnion(s, t, Y, r.maxY, q.maxY);
  }

  function MergeExtent(r: Range, q: Range): Range {
    r.(minX := MergeMin(r.minX, q.minX), maxX := MergeMax(r.maxX, q.maxX),
       minY := MergeMin(r.minY, q.minY), maxY := MergeMax(r.maxY, q.maxY))
  }

  function TakeExtent(r: Range, q: Range): Range {
    r.(minX := q.minX, maxX := q.maxX, minY := q.minY, maxY := q.maxY)
  }

  /** A higher zoom replaces the extent, the top zoom widens it, a lower zoom leaves it. */
  function Absorb(r: Range, zoom: int, q: Range): Range {
    var extended :=
      if r.maxZoom == None || zoom > r.maxZoom.value then TakeExtent(r, q)
      else if r.maxZoom == Some(zoom) then MergeExtent(r, q)
      else r;
    extended.(minZoom := MergeMin(r.minZoom, Some(zoom)), maxZoom := MergeMax(r.maxZoom, Some(zoom)))
  }

  function PointRange(c: Coord): Range {
    Range(Some(c.z), Some(c.z), Some(c.x), Some(c.x), Some(c.y), Some(c.y))
  }

  /** The catalog's step for one put. */
  function Extend(r: Range, c: Coord): Range { Absorb(r, c.z, PointRange(c)) }

  /** Absorbing tiles of one zoom, in any order with respect to others, describes the union. */
  lemma AbsorbDescribes(tiles: set<Coord>, r: Range, zoom: int, added: set<Coord>, q: Range)
    requires Describes(tiles, r)
    requires added != {} && (forall c :: c in added ==> c.z == zoom) && Extent(added, q)
    ensures Describes(tiles + added, Absorb(r, zoom, q))
  {
    var all, a := tiles + added, Absorb(r, zoom, q);
    var some :| some in added;
    assert At(some, Zoom) == zoom;
    LeastUnion(tiles, added, Zoom, r.minZoom, Some(zoom));
    GreatestUnion(tiles, added, Zoom, r.maxZoom, Some(zoom));
    if r.maxZoom == None || zoom > r.maxZoom.value {
      assert Top(all, a.maxZoom) == added by {
        forall c | c in tiles ensures c.z != zoom { assert At(c, Zoom) == c.z; }
      }
    } else if r.maxZoom == Some(zoom) {
      assert Top(all, a.maxZoom) == Top(tiles, r.maxZoom) + added;
      ExtentUnion(Top(tiles, r.maxZoom), added, r, q);
    } else {
      assert Top(all, a.maxZoom) == Top(tiles, r.maxZoom);
    }
  }

  lemma ExtendDescribes(tiles: set<Coord>, r: Range, c: Coord)
    requires Describes(tiles, r)
    ensures Describes(tiles + {c}, Extend(r, c))
  {
    assert c in {c};
    AbsorbDescribes(tiles, r, c.z, {c}, PointRange(c));
  }

  // The scan

  /** A table of a shard file: the byte count of every tile it holds. */
  datatype Table = Table(name: string, tiles: map<Coord, nat>)

  predicate OnGrid(c: Coord) { Paths.ValidZoom(c.z) && c.x >= 0 && c.y >= 0 }

  /** Every row sits in the table its address names. */
  ghost predicate WellPlaced(t: Table) {
    forall c :: c in t.tiles ==> OnGrid(c) && Paths.TableName(c.z, c.x, c.y) == t.name
  }

  ghost predicate DistinctNames(tables: seq<Table>) {
    forall i, j :: 0 <= i < j < |tables| ==> tables[i].name != tables[j].name
  }

  /** All tiles of an item. */
  function AllTiles(tables: seq<Table>): map<Coord, nat> {
    if tables == [] then map[] else AllTiles(tables[..|tables| - 1]) + tables[|tables| - 1].tiles
  }

  lemma {:induction false} TableDisjoint(tables: seq<Table>, t: Table)
    requires WellPlaced(t) && forall i :: 0 <= i < |tables| ==> WellPlaced(tables[i]) && tables[i].name != t.name
    ensures AllTiles(tables).Keys !! t.tiles.Keys
  {
    if tables != [] { TableDisjoint(tables[..|tables| - 1], t); }
  }

  datatype Summary = Summary(tileCount: int, totalBytes: int, range: Range)

  /** SELECT COUNT(*), SUM(F), MIN(X), MAX(X), MIN(Y), MAX(Y) over some rows. */
  ghost predicate Aggregates(tiles: map<Coord, nat>, s: Summary) {
    s.tileCount == |tiles| && s.totalBytes == Total(tiles) && Extent(tiles.Keys, s.range)
  }

  method Aggregate(t: Table) returns (s: Summary)
    ensures Aggregates(t.tiles, s)
  {
    var todo := t.tiles.Keys;
    s := Summary(0, 0, NO_RANGE);
    NoRows(t.tiles, todo, s);
    while todo != {}
      invariant todo <= t.tiles.Keys && Aggregates(t.tiles - todo, s)
      decreases todo
    {
      var c :| c in todo;
      NextRow(t.tiles, todo, c, s);
      s := AddRow(s, c, t.tiles[c]);
      todo := todo - {c};
    }
    assert t.tiles - todo == t.tiles;
  }

  function AddRow(s: Summary, c: Coord, bytes: nat): Summary {
    Summary(s.tileCount + 1, s.totalBytes + bytes, MergeExtent(s.range, PointRange(c)))
  }

  lemma NoRows(tiles: map<Coord, nat>, todo: set<Coord>, s: Summary)
    requires todo == tiles.Keys && s == Summary(0, 0, NO_RANGE)
    ensures Aggregates(tiles - todo, s)
  {
    assert tiles - todo == map[];
  }

  lemma NextRow(tiles: map<Coord, nat>, todo: set<Coord>, c: Coord, s: Summary)
    requires todo <= tiles.Keys && c in todo && Aggregates(tiles - todo, s)
    ensures Aggregates(tiles - (todo - {c}), AddRow(s, c, tiles[c]))
  {
    var done, next := tiles - todo, tiles - (todo - {c});
    assert next.Keys == done.Keys + {c};
    assert next == done[c := tiles[c]];
    TotalUpdate(done, c, tiles[c]);
    ExtentUnion(done.Keys, {c}, s.range, PointRange(c));
  }

  /** The summary of a layer's tiles, whatever tables they are in. */
  ghost predicate Summarizes(tiles: map<Coord, nat>, s: Summary) {
    s.tileCount == |tiles| && s.totalBytes == Total(tiles) && Describes(tiles.Keys, s.range)
  }

  /** The accumulating loop of the scan. The order of shard files and tables does not matter. */
  method ScanItem(tables: seq<Table>) returns (s: Summary)
    requires DistinctNames(tables) && forall i :: 0 <= i < |tables| ==> WellPlaced(tables[i])
    ensures Summarizes(AllTiles(tables), s)
  {
    s := Summary(0, 0, NO_RANGE);
    for n := 0 to |tables|
      invariant Summarizes(AllTiles(tables[..n]), s)
    {
      var t := tables[n];
      assert tables[..n + 1][..n] == tables[..n];
      TableDisjoint(tables[..n], t);
      NamedZoom(t);
      var zoom := Paths.TableZoom(t.name);
      if zoom.None? {
        NothingAdded(AllTiles(tables[..n]), t);
        continue;
      }
      var row := Aggregate(t);
      if row.tileCount == 0 {
        NothingAdded(AllTiles(tables[..n]), t);
        continue;
      }
      TableAdded(AllTiles(tables[..n]), s, t, zoom.value, row);
      s := AddTable(s, zoom.value, row);
    }
    assert tables[..|tables|] == tables;
  }

  lemma NothingAdded(tiles: map<Coord, nat>, t: Table)
    requires t.tiles == map[]
    ensures tiles + t.tiles == tiles
  {
  }

  function AddTable(s: Summary, zoom: int, row: Summary): Summary {
    Summary(s.tileCount + row.tileCount, s.totalBytes + row.totalBytes, Absorb(s.range, zoom, row.range))
  }

  lemma TableAdded(tiles: map<Coord, nat>, s: Summary, t: Table, zoom: int, row: Summary)
    requires Summarizes(tiles, s) && tiles.Keys !! t.tiles.Keys && t.tiles != map[]
    requires (forall c :: c in t.tiles ==> c.z == zoom) && Aggregates(t.tiles, row)
    ensures Summarizes(tiles + t.tiles, AddTable(s, zoom, row))
  {
    UnionCount(tiles, t.tiles);
    TotalUnion(tiles, t.tiles);
    AbsorbDescribes(tiles.Keys, s.range, zoom, t.tiles.Keys, row.range);
    assert (tiles + t.tiles).Keys == tiles.Keys + t.tiles.Keys;
  }

  lemma UnionCount(m: map<Coord, nat>, n: map<Coord, nat>)
    requires m.Keys !! n.Keys
    ensures |m + n| == |m| + |n|
  {
    assert (m + n).Keys == m.Keys + n.Keys;
  }

  lemma NamedZoom(t: Table)
    requires WellPlaced(t)
    ensures forall c :: c in t.tiles ==> Paths.TableZoom(t.name) == Some(c.z)
  {
    forall c | c in t.tiles ensures Paths.TableZoom(t.name) == Some(c.z) {
      Paths.AddressInvertible(c.z, c.x, c.y, c.z, c.x, c.y);
    }
  }

  lemma SummaryUnique(tiles: map<Coord, nat>, s: Summary, s': Summary)
    requires Summarizes(tiles, s) && Summarizes(tiles, s')
    ensures s == s'
  {
    DescriptionUnique(tiles.Keys, s.range, s'.range);
  }
}
