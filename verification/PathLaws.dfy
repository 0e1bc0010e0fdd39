/** Addresses in plain terms: which keys have one, and how it reads back. */
module PathLaws {
  import opened Tiles
  import opened Paths

  /** ASCII letters, digits, '-' and '_' by their codes. */
  predicate IdCode(n: int) { 48 <= n <= 57 || 65 <= n <= 90 || 97 <= n <= 122 || n == 45 || n == 95 }

  /** A valid id has 1 to 128 characters, all of them ASCII letters, digits, '-' or '_'. */
  lemma ValidIds(id: string)
    ensures ValidId(id) <==> 1 <= |id| <= 128 && forall i :: 0 <= i < |id| ==> IdCode(id[i] as int)
  {
    assert 'a' as int == 97 && 'A' as int == 65 && '0' as int == 48 && '_' as int == 95 && '-' as int == 45;
  }

  /** A tile has an address exactly when its ids are valid, its coordinates are not negative, no type is asked for and
      its zoom is 0 to 25. */
  lemma Addressed(key: TileKey)
    ensures TileAddress(key).Ok? <==>
            && ValidId(key.database) && ValidId(key.item) && 0 <= key.x && 0 <= key.y && key.tileType == None
            && 0 <= key.z <= 25
  {
  }

  predicate Reads(s: string, n: nat) {
    s != "" && (forall i :: 0 <= i < |s| ==> 48 <= s[i] as int <= 57) && ParseDecimal(s) == n
  }

  /** Two numbers behind a letter, as in file and table names. */
  ghost predicate Names(name: string, letter: char, a: nat, b: nat) {
    exists left: string, right: string ::
      Reads(left, a) && Reads(right, b) && name == [letter] + "_" + left + "_" + right
  }

  lemma NamedBy(letter: char, a: nat, b: nat)
    ensures Names([letter] + "_" + Decimal(a) + "_" + Decimal(b), letter, a, b)
  {
    DecimalReads(a);
    DecimalReads(b);
  }

  lemma DecimalReads(n: nat)
    ensures Reads(Decimal(n), n)
  {
    DecimalRoundTrip(n);
    assert '0' as int == 48 && '9' as int == 57;
  }

  /** The letter of a zoom. */
  function Letter(z: int): char
    requires 0 <= z <= 25
  {
    "ABCDEFGHIJKLMNOPQRSTUVWXYZ"[z]
  }

  lemma LetterOfZoom(z: int)
    requires 0 <= z <= 25
    ensures ZoomLetter(z) == Letter(z)
  {
    var letters := "ABCDEFGHIJKLMNOPQRSTUVWXYZ";
    assert 'A' as int == 65;
    assert letters[z] as int == 65 + z;
  }

  /** The directories of a tile, of four characters and the rest or of all of a short id, and the shard file two levels below them: the zoom directory is named by the letter of
      the zoom, at least of zoom 9, and the file by that letter and the region of 256 by 256 tiles. */
  lemma ShardFileReads(key: TileKey)
    requires TileAddress(key).Ok?
    ensures var a, letter := TileAddress(key).value, Letter(if key.z < 9 then 9 else key.z);
            && a.databaseDir == (if |key.database| <= 4 then [key.database] else [key.database[..4], key.database[4..]])
            && a.itemDir == a.databaseDir + (if |key.item| <= 4 then [key.item] else [key.item[..4], key.item[4..]])
            && |a.shardFile| == |a.itemDir| + 2 && a.shardFile[..|a.itemDir|] == a.itemDir
            && a.shardFile[|a.itemDir|] == [letter]
            && exists stem :: Names(stem, letter, key.x / 256, key.y / 256) && a.shardFile[|a.itemDir| + 1] == stem + ".s"
  {
    hide Names, ValidId, Decimal;
    var a, letter := TileAddress(key).value, Letter(if key.z < 9 then 9 else key.z);
    LetterOfZoom(if key.z < 9 then 9 else key.z);
    NamedBy(letter, key.x / 256, key.y / 256);
    var stem := [letter] + "_" + Decimal(key.x / 256) + "_" + Decimal(key.y / 256);
    assert a.shardFile[|a.itemDir| + 1] == ShardName(key.z, key.x, key.y) == stem + ".s";
  }

  /** The table is named by the letter of the zoom and the block of 64 by 64 tiles, and the id is the position within it. */
  lemma TableReads(key: TileKey)
    requires TileAddress(key).Ok?
    ensures var a := TileAddress(key).value;
            && Names(a.table, Letter(key.z), key.x / 64, key.y / 64)
            && 0 <= a.id < 4096 && a.id % 64 == key.x % 64 && a.id / 64 == key.y % 64
  {
    hide Names, ValidId, Decimal, IdPath;
    LetterOfZoom(key.z);
    NamedBy(Letter(key.z), key.x / 64, key.y / 64);
    assert TableName(key.z, key.x, key.y) == [Letter(key.z)] + "_" + Decimal(key.x / 64) + "_" + Decimal(key.y / 64);
  }

  const SOME_KEY := TileKey("1234567890abcdef", "abcdef1234567890", 10, 805, 418, None)

  /** Where one tile lives. */
  lemma AddressExample()
    ensures TileAddress(SOME_KEY) ==
            Ok(Address(
                 ["1234", "567890abcdef"], ["1234", "567890abcdef", "abcd", "ef1234567890"],
                 ["1234", "567890abcdef", "abcd", "ef1234567890", "K", "K_3_1.s"], "K_12_6", 2213))
  {
    var database, item := SOME_KEY.database, SOME_KEY.item;
    assert ValidId(database) && ValidId(item);
    hide ValidId;
    assert IdPath(database) == ["1234", "567890abcdef"] by {
      assert database[..4] == "1234" && database[4..] == "567890abcdef";
    }
    assert IdPath(item) == ["abcd", "ef1234567890"] by {
      assert item[..4] == "abcd" && item[4..] == "ef1234567890";
    }
    hide IdPath;
    SomeNames();
    hide ShardName, TableName;
    assert ["1234", "567890abcdef"] + ["abcd", "ef1234567890"] == ["1234", "567890abcdef", "abcd", "ef1234567890"];
    assert ["1234", "567890abcdef", "abcd", "ef1234567890"] + ["K", "K_3_1.s"]
        == ["1234", "567890abcdef", "abcd", "ef1234567890", "K", "K_3_1.s"];
    assert [ZoomLetter(10)] == "K";
  }

  lemma SomeNames()
    ensures ShardName(10, 805, 418) == "K_3_1.s" && TableName(10, 805, 418) == "K_12_6" && TileId(805, 418) == 2213
  {
    assert Decimal(3) == "3" && Decimal(1) == "1" && Decimal(6) == "6";
    assert Decimal(12) == Decimal(1) + "2";
    assert ZoomLetter(10) == 'K';
    assert 805 / 256 == 3 && 418 / 256 == 1 && 805 / 64 == 12 && 418 / 64 == 6;
  }
}
