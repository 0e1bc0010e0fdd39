/** Where a tile lives: directories by database and item, a shard file by zoom and region, a table and an id. */
module Paths {
  import opened Tiles

  /** Path components below the root. */
  type Path = seq<string>

  datatype AddressError = InvalidDatabase | InvalidItem | InvalidCoordinate | UnsupportedTileType | InvalidZoom

  datatype Address = Address(databaseDir: Path, itemDir: Path, shardFile: Path, table: string, id: int)

  predicate IdCharacter(c: char) {
    'a' <= c <= 'z' || 'A' <= c <= 'Z' || '0' <= c <= '9' || c == '-' || c == '_'
  }

  predicate ValidId(id: string) {
    0 < |id| <= 128 && forall i :: 0 <= i < |id| ==> IdCharacter(id[i])
  }

  /** Ids are ASCII, so a character is a byte. The first four characters name a level of their own. */
  function IdPath(id: string): Path {
    if |id| <= 4 then [id] else [id[..4], id[4..]]
  }

  function DatabaseDirectory(database: string): Path { IdPath(database) }

  function ItemDirectory(database: string, item: string): Path { IdPath(database) + IdPath(item) }

  predicate ValidZoom(z: int) { 0 <= z <= 25 }

  function ZoomLetter(z: int): char
    requires ValidZoom(z)
  {
    'A' + z as char
  }

  function TableZoom(table: string): Option<int> {
    if table != "" && 'A' <= table[0] <= 'Z' then Some(table[0] as int - 'A' as int) else None
  }

  function Digit(d: int): char
    requires 0 <= d < 10
  {
    '0' + d as char
  }

  function Decimal(n: nat): string {
    if n < 10 then [Digit(n)] else Decimal(n / 10) + [Digit(n % 10)]
  }

  function ShardName(z: int, x: nat, y: nat): string
    requires ValidZoom(z)
  {
    [ZoomLetter(Max(z, 9))] + "_" + Decimal(x / 256) + "_" + Decimal(y / 256) + ".s"
  }

  function TableName(z: int, x: nat, y: nat): string
    requires ValidZoom(z)
  {
    [ZoomLetter(z)] + "_" + (Decimal(x / 64) + "_" + Decimal(y / 64))
  }

  function TileId(x: nat, y: nat): int { x % 64 + 64 * (y % 64) }

  function TileAddress(key: TileKey): Result<Address, AddressError> {
    if !ValidId(key.database) then Err(InvalidDatabase)
    else if !ValidId(key.item) then Err(InvalidItem)
    else if key.x < 0 || key.y < 0 then Err(InvalidCoordinate)
    else if key.tileType.Some? then Err(UnsupportedTileType)
    else if !ValidZoom(key.z) then Err(InvalidZoom)
    else
      var itemDir := ItemDirectory(key.database, key.item);
      Ok(Address(
           DatabaseDirectory(key.database), itemDir,
           itemDir + [[ZoomLetter(Max(key.z, 9))], ShardName(key.z, key.x, key.y)],
           TableName(key.z, key.x, key.y), TileId(key.x, key.y)))
  }

  // Names

  function ParseDecimal(s: string): int {
    if s == "" then 0 else 10 * ParseDecimal(s[..|s| - 1]) + (s[|s| - 1] as int - '0' as int)
  }

  lemma {:induction false} DecimalRoundTrip(n: nat)
    ensures ParseDecimal(Decimal(n)) == n
    ensures forall i :: 0 <= i < |Decimal(n)| ==> '0' <= Decimal(n)[i] <= '9'
  {
    if n < 10 {
      assert Decimal(n)[..0] == "";
    } else {
      DecimalRoundTrip(n / 10);
      assert Decimal(n)[..|Decimal(n)| - 1] == Decimal(n / 10);
    }
  }

  lemma DecimalInjective(m: nat, n: nat)
    requires Decimal(m) == Decimal(n)
    ensures m == n
  {
    DecimalRoundTrip(m);
    DecimalRoundTrip(n);
  }

  /** A separator that the left part cannot contain makes a joined name readable again. */
  lemma SplitUnique(a: string, b: string, c: string, d: string)
    requires a + "_" + b == c + "_" + d && '_' !in a && '_' !in c
    ensures a == c && b == d
  {
    var s := a + "_" + b;
    assert s[|a|] == '_' && s[|c|] == '_';
    assert forall i :: 0 <= i < |a| ==> s[i] == a[i];
    assert forall i :: 0 <= i < |c| ==> s[i] == c[i];
    assert |a| == |c|;
    assert a == s[..|a|] && c == s[..|c|];
    assert b == s[|a| + 1..] && d == s[|c| + 1..];
  }

  lemma TableNameDetermines(z: int, x: nat, y: nat, z': int, x': nat, y': nat)
    requires ValidZoom(z) && ValidZoom(z') && TableName(z, x, y) == TableName(z', x', y')
    ensures z == z' && x / 64 == x' / 64 && y / 64 == y' / 64
  {
    var t, t' := TableName(z, x, y), TableName(z', x', y');
    assert t[0] == ZoomLetter(z) && t'[0] == ZoomLetter(z');
    DecimalRoundTrip(x / 64);
    DecimalRoundTrip(x' / 64);
    assert t[2..] == Decimal(x / 64) + "_" + Decimal(y / 64);
    assert t'[2..] == Decimal(x' / 64) + "_" + Decimal(y' / 64);
    SplitUnique(Decimal(x / 64), Decimal(y / 64), Decimal(x' / 64), Decimal(y' / 64));
    DecimalInjective(x / 64, x' / 64);
    DecimalInjective(y / 64, y' / 64);
  }

  /** Table name and id give back zoom and coordinates, and the table name alone fixes the shard file of an item. */
  lemma AddressInvertible(z: int, x: nat, y: nat, z': int, x': nat, y': nat)
    requires ValidZoom(z) && ValidZoom(z') && TableName(z, x, y) == TableName(z', x', y')
    ensures TileId(x, y) == TileId(x', y') ==> z == z' && x == x' && y == y'
    ensures ShardName(z, x, y) == ShardName(z', x', y') && ZoomLetter(Max(z, 9)) == ZoomLetter(Max(z', 9))
    ensures 0 <= TileId(x, y) < 4096 && TableZoom(TableName(z, x, y)) == Some(z)
  {
    TableNameDetermines(z, x, y, z', x', y');
    assert x / 256 == x / 64 / 4 && x' / 256 == x' / 64 / 4;
    assert y / 256 == y / 64 / 4 && y' / 256 == y' / 64 / 4;
  }

  // Directories

  predicate Under(directory: Path, path: Path) { directory <= path }

  /** Whatever lies below an existing directory has all the directories on the way. */
  predicate Closed(disk: set<Path>) {
    forall p, n :: p in disk && 0 < n <= |p| ==> p[..n] in disk
  }

  lemma NothingBelow(disk: set<Path>, directory: Path)
    requires Closed(disk) && directory !in disk && directory != []
    ensures forall p :: p in disk ==> !Under(directory, p)
  {
    forall p | p in disk ensures !Under(directory, p) { PathPrefix(directory, p); }
  }

  lemma PathPrefix(directory: Path, p: Path)
    ensures Under(directory, p) <==> |directory| <= |p| && p[..|directory|] == directory
    ensures forall n :: 0 <= n <= |p| && Under(directory, p[..n]) ==> Under(directory, p)
  {
  }

  predicate LongId(id: string) { |id| > 4 }

  /** The first level of an id's directory. */
  function Head(id: string): string { if LongId(id) then id[..4] else id }

  /** A four-character id owns the first level of every longer id it begins. */
  predicate Overlaps(outer: string, inner: string) {
    outer == inner || (|outer| == 4 && |inner| > 4 && inner[..4] == outer)
  }

  lemma UnderCons(a: string, p: Path, b: string, q: Path)
    ensures Under([a] + p, [b] + q) <==> a == b && Under(p, q)
  {
    if Under([a] + p, [b] + q) {
      assert ([a] + p)[0] == ([b] + q)[0];
      assert p == ([a] + p)[1..] && q == ([b] + q)[1..];
    }
    if a == b && Under(p, q) { assert ([b] + q)[..|[a] + p|] == [a] + p; }
  }

  /** Paths that begin with the levels of an id, compared level by level. */
  lemma IdUnder(outer: string, p: Path, inner: string, q: Path)
    ensures Under(IdPath(outer) + p, IdPath(inner) + q) <==>
            if LongId(outer) == LongId(inner) then outer == inner && Under(p, q)
            else if LongId(outer) then inner == outer[..4] && Under([outer[4..]] + p, q)
            else outer == inner[..4] && Under(p, [inner[4..]] + q)
  {
    var o := if LongId(outer) then [outer[4..]] + p else p;
    var i := if LongId(inner) then [inner[4..]] + q else q;
    assert IdPath(outer) + p == [Head(outer)] + o && IdPath(inner) + q == [Head(inner)] + i;
    UnderCons(Head(outer), o, Head(inner), i);
    if LongId(outer) && LongId(inner) {
      UnderCons(outer[4..], p, inner[4..], q);
      assert outer == outer[..4] + outer[4..] && inner == inner[..4] + inner[4..];
    }
  }

  /** One database directory lies under another exactly when the ids overlap, so never for ids longer than four. */
  lemma DatabaseDirectoriesNest(outer: string, inner: string)
    ensures Under(DatabaseDirectory(outer), DatabaseDirectory(inner)) <==> Overlaps(outer, inner)
    ensures LongId(outer) ==> (Overlaps(outer, inner) <==> outer == inner)
  {
    IdUnder(outer, [], inner, []);
    assert IdPath(outer) + [] == IdPath(outer) && IdPath(inner) + [] == IdPath(inner);
  }

  /** When one item directory lies under another: the ids overlap within one database, or a four-character id reads the
      levels of the other pair of ids one level further on. */
  predicate ItemNests(database: string, item: string, database': string, item': string) {
    if LongId(database) == LongId(database') then database == database' && Overlaps(item, item')
    else if LongId(database) then
      database' == database[..4] && LongId(item') && database[4..] == item'[..4] && item == item'[4..] && !LongId(item)
    else
      database == database'[..4] &&
      if LongId(item) then item[..4] == database'[4..] && item[4..] == Head(item') else item == database'[4..]
  }

  lemma ItemDirectoriesNest(database: string, item: string, database': string, item': string)
    ensures Under(ItemDirectory(database, item), ItemDirectory(database', item')) <==>
            ItemNests(database, item, database', item')
    ensures LongId(database) && LongId(database') ==>
              (ItemNests(database, item, database', item') <==> database == database' && Overlaps(item, item'))
  {
    IdUnder(database, IdPath(item), database', IdPath(item'));
    if LongId(database) == LongId(database') {
      DatabaseDirectoriesNest(item, item');
    } else if LongId(database) {
      TailUnder(database[4..], item, item');
    } else {
      HeadUnder(item, database'[4..], item', []);
      assert IdPath(item') + [] == IdPath(item');
    }
  }

  lemma TailUnder(level: string, item: string, item': string)
    ensures Under([level] + IdPath(item), IdPath(item')) <==>
            LongId(item') && level == item'[..4] && item == item'[4..] && !LongId(item)
  {
    var rest := if LongId(item') then [item'[4..]] else [];
    assert IdPath(item') == [Head(item')] + rest;
    UnderCons(level, IdPath(item), Head(item'), rest);
    if LongId(item') && !LongId(item) {
      assert IdPath(item) == [item] + [] && rest == [item'[4..]] + [];
      UnderCons(item, [], item'[4..], []);
    }
  }

  lemma HeadUnder(item: string, level: string, item': string, tail: Path)
    ensures Under(IdPath(item), [level] + (IdPath(item') + tail)) <==>
            if LongId(item) then item[..4] == level && item[4..] == Head(item') else item == level
  {
    var rest := IdPath(item') + tail;
    assert rest == [Head(item')] + rest[1..];
    if LongId(item) {
      assert IdPath(item) == [item[..4]] + ([item[4..]] + []);
      UnderCons(item[..4], [item[4..]] + [], level, rest);
      UnderCons(item[4..], [], Head(item'), rest[1..]);
    } else {
      assert IdPath(item) == [item] + [];
      UnderCons(item, [], level, rest);
    }
  }

  /** Two pairs of ids whose levels are the same, cut at different places: the database of one has eight characters, of
      which the other's database is the first four and the beginning of its item the last four. */
  predicate Crossed(database: string, item: string, database': string, item': string) {
    && LongId(database) && !LongId(item) && LongId(item')
    && database' == database[..4] && database[4..] == item'[..4] && item == item'[4..]
  }

  predicate SameLevels(database: string, item: string, database': string, item': string) {
    || (database == database' && item == item')
    || Crossed(database, item, database', item') || Crossed(database', item', database, item)
  }

  /** Two layers share their directory exactly when they are the same or crossed. */
  lemma ItemDirectoriesEqual(database: string, item: string, database': string, item': string)
    ensures ItemDirectory(database, item) == ItemDirectory(database', item') <==>
            SameLevels(database, item, database', item')
    ensures LongId(database) == LongId(database') ==>
              (SameLevels(database, item, database', item') <==> database == database' && item == item')
  {
    ItemDirectoriesNest(database, item, database', item');
    ItemDirectoriesNest(database', item', database, item);
  }

  /** With short ids a layer can be the very directory of another database, and two layers can share theirs. */
  lemma ShortIdsShareDirectories()
    ensures ItemDirectory("abcd", "efgh") == DatabaseDirectory("abcdefgh")
    ensures ItemDirectory("abcd", "efghxyz") == ItemDirectory("abcdefgh", "xyz")
  {
    var id, item := "abcdefgh", "efghxyz";
    assert id[..4] == "abcd" && id[4..] == "efgh" && item[..4] == "efgh" && item[4..] == "xyz";
    assert IdPath("abcd") + IdPath("efgh") == IdPath(id);
    assert IdPath("abcd") + IdPath(item) == IdPath(id) + IdPath("xyz");
  }

  function Joined(levels: Path): string {
    if levels == [] then "" else levels[0] + Joined(levels[1..])
  }

  /** Joining the levels of a database directory gives the id back. The scan of a database joins the first two levels
      below it, which is the item's id exactly when that is longer than four characters, and otherwise the id with the
      letter of a zoom level behind it. */
  lemma ScanRecoversId(id: string, key: TileKey)
    requires TileAddress(key).Ok?
    ensures Joined(IdPath(id)) == id
    ensures var below := TileAddress(key).value.shardFile[|DatabaseDirectory(key.database)|..];
            && |below| >= 2
            && (Joined(below[..2]) == key.item <==> LongId(key.item))
            && (!LongId(key.item) ==> Joined(below[..2]) == key.item + [ZoomLetter(Max(key.z, 9))])
  {
    JoinedLevels(id);
    var tail := [[ZoomLetter(Max(key.z, 9))], ShardName(key.z, key.x, key.y)];
    var below := TileAddress(key).value.shardFile[|DatabaseDirectory(key.database)|..];
    assert below == IdPath(key.item) + tail;
    var two := below[..2];
    assert two == [two[0], two[1]] && two[1..] == [two[1]] && two[1..][1..] == [];
    assert Joined(two[1..]) == two[1] + "";
    assert two[0] == Head(key.item);
    assert two[1] == if LongId(key.item) then key.item[4..] else tail[0];
  }

  lemma JoinedLevels(id: string)
    ensures Joined(IdPath(id)) == id
  {
    var levels := IdPath(id);
    if LongId(id) {
      assert levels[1..] == [id[4..]] && levels[1..][1..] == [];
      assert Joined(levels[1..]) == id[4..] + "";
      assert id == id[..4] + id[4..];
    } else {
      assert levels[1..] == [] && id + "" == id;
    }
  }

  predicate LongIds(key: TileKey) { LongId(key.database) && LongId(key.item) }

  /** What closing or removing a database directory takes: the shards of ids that begin with it, and those of a
      four-character database whose items continue the id. */
  predicate DatabaseReaches(database: string, key: TileKey) {
    || Overlaps(database, key.database)
    || (LongId(database) && key.database == database[..4] && database[4..] == Head(key.item))
  }

  /** What closing or removing an item directory takes. A five-character id can even name the zoom directory of the
      item that its first four characters name. */
  predicate ItemReaches(database: string, item: string, key: TileKey)
    requires ValidZoom(key.z)
  {
    var letter := [ZoomLetter(Max(key.z, 9))];
    if LongId(database) == LongId(key.database) then
      && database == key.database
      && (Overlaps(item, key.item) || (LongId(item) && key.item == item[..4] && item[4..] == letter))
    else if LongId(database) then
      && key.database == database[..4] && database[4..] == Head(key.item)
      && (if !LongId(key.item) then item == letter
          else (item == key.item[4..] && !LongId(item))
               || (LongId(item) && item[..4] == key.item[4..] && item[4..] == letter))
    else
      && database == key.database[..4]
      && if LongId(item) then item[..4] == key.database[4..] && item[4..] == Head(key.item) else item == key.database[4..]
  }

  /** Closing the shards below a database or an item directory takes exactly the shards that the ids say, which for
      ids longer than four characters are exactly that database's or item's. */
  lemma ShardOwnership(key: TileKey, database: string, item: string)
    requires TileAddress(key).Ok?
    ensures Under(DatabaseDirectory(database), TileAddress(key).value.shardFile) <==> DatabaseReaches(database, key)
    ensures Under(ItemDirectory(database, item), TileAddress(key).value.shardFile) <==> ItemReaches(database, item, key)
    ensures key.database == database ==> DatabaseReaches(database, key)
    ensures key.database == database && key.item == item ==> ItemReaches(database, item, key)
    ensures LongIds(key) && LongId(database) && LongId(item) ==>
              && (DatabaseReaches(database, key) <==> key.database == database)
              && (ItemReaches(database, item, key) <==> key.database == database && key.item == item)
  {
    var tail := [[ZoomLetter(Max(key.z, 9))], ShardName(key.z, key.x, key.y)];
    var file := TileAddress(key).value.shardFile;
    assert file == IdPath(key.database) + (IdPath(key.item) + tail);
    DatabaseUnder(database, key.database, key.item, tail);
    IdUnder(database, IdPath(item), key.database, IdPath(key.item) + tail);
    if LongId(database) == LongId(key.database) {
      ItemUnder(item, key.item, tail);
    } else if LongId(database) {
      LevelUnder(database[4..], item, key.item, tail);
    } else {
      HeadUnder(item, key.database[4..], key.item, tail);
    }
  }

  lemma DatabaseUnder(database: string, database': string, item: string, tail: Path)
    ensures Under(DatabaseDirectory(database), IdPath(database') + (IdPath(item) + tail)) <==>
            || Overlaps(database, database')
            || (LongId(database) && database' == database[..4] && database[4..] == Head(item))
  {
    var rest := IdPath(item) + tail;
    IdUnder(database, [], database', rest);
    assert IdPath(database) + [] == IdPath(database);
    if LongId(database) && !LongId(database') {
      assert rest == [Head(item)] + rest[1..];
      UnderCons(database[4..], [], Head(item), rest[1..]);
    }
  }

  /** A path below an item is a zoom directory, whose name is one letter, and a file in it. */
  predicate ZoomTail(tail: Path) { |tail| == 2 && |tail[0]| == 1 }

  lemma ItemUnder(item: string, item': string, tail: Path)
    requires ZoomTail(tail)
    ensures Under(IdPath(item), IdPath(item') + tail) <==>
            Overlaps(item, item') || (LongId(item) && item' == item[..4] && item[4..] == tail[0])
  {
    IdUnder(item, [], item', tail);
    assert IdPath(item) + [] == IdPath(item);
    if LongId(item) && !LongId(item') {
      assert tail == [tail[0]] + tail[1..];
      UnderCons(item[4..], [], tail[0], tail[1..]);
    }
  }

  lemma LevelUnder(level: string, item: string, item': string, tail: Path)
    requires ZoomTail(tail)
    ensures Under([level] + IdPath(item), IdPath(item') + tail) <==>
            && level == Head(item')
            && (if !LongId(item') then item == tail[0]
                else (item == item'[4..] && !LongId(item)) || (LongId(item) && item[..4] == item'[4..] && item[4..] == tail[0]))
  {
    var rest := if LongId(item') then [item'[4..]] + tail else tail;
    assert IdPath(item') + tail == [Head(item')] + rest;
    UnderCons(level, IdPath(item), Head(item'), rest);
    assert rest == [rest[0]] + rest[1..];
    if LongId(item) {
      assert IdPath(item) == [item[..4]] + ([item[4..]] + []);
      UnderCons(item[..4], [item[4..]] + [], rest[0], rest[1..]);
      assert rest[1..] == [rest[1]] + rest[1..][1..];
      UnderCons(item[4..], [], rest[1], rest[1..][1..]);
    } else {
      assert IdPath(item) == [item] + [];
      UnderCons(item, [], rest[0], rest[1..]);
    }
  }

  predicate SameAddress(a: TileKey, b: TileKey)
    requires TileAddress(a).Ok? && TileAddress(b).Ok?
  {
    var p, q := TileAddress(a).value, TileAddress(b).value;
    p.shardFile == q.shardFile && p.table == q.table && p.id == q.id
  }

  /** Tiles with the same coordinates in layers that are the same or crossed. */
  predicate Alias(a: TileKey, b: TileKey) {
    a.z == b.z && a.x == b.x && a.y == b.y && SameLevels(a.database, a.item, b.database, b.item)
  }

  /** Two tiles share shard file, table and id exactly when they are aliases. */
  lemma AddressInjective(a: TileKey, b: TileKey)
    requires TileAddress(a).Ok? && TileAddress(b).Ok?
    ensures SameAddress(a, b) <==> Alias(a, b)
  {
    var p, q := TileAddress(a).value, TileAddress(b).value;
    ItemDirectoriesEqual(a.database, a.item, b.database, b.item);
    if p.table == q.table { AddressInvertible(a.z, a.x, a.y, b.z, b.x, b.y); }
    var n := |p.shardFile| - 2;
    assert p.itemDir == p.shardFile[..n];
    if p.shardFile == q.shardFile { assert q.itemDir == q.shardFile[..n]; }
  }

  /** With databases that are both longer than four characters, or both not, aliases are the same tile. */
  lemma AliasOfLikeIds(a: TileKey, b: TileKey)
    requires TileAddress(a).Ok? && TileAddress(b).Ok? && LongId(a.database) == LongId(b.database)
    ensures Alias(a, b) <==> a == b
  {
  }
}
