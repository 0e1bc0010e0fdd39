/** Cutting a batch in two writes the same catalog. */
module CatalogBatches {
  import opened Tiles
  import opened Catalog
  import opened CatalogLaws

  predicate NonEmptyNames(batch: seq<CatalogPut>) {
    forall put :: put in batch ==> put.itemName != Some("")
  }

  function FirstName(puts: seq<CatalogPut>): Option<string> {
    if puts == [] then None else Or(FirstName(puts[..|puts| - 1]), puts[|puts| - 1].itemName)
  }

  lemma {:induction false} FirstNameConcat(a: seq<CatalogPut>, b: seq<CatalogPut>)
    ensures FirstName(a + b) == Or(FirstName(a), FirstName(b))
  {
    if b == [] {
      assert a + b == a;
    } else {
      assert (a + b)[..|a + b| - 1] == a + b[..|b| - 1];
      FirstNameConcat(a, b[..|b| - 1]);
    }
  }

  lemma {:induction false} FirstNameNonEmpty(puts: seq<CatalogPut>)
    requires NonEmptyNames(puts)
    ensures FirstName(puts) != Some("")
  {
    if puts != [] { FirstNameNonEmpty(puts[..|puts| - 1]); }
  }

  lemma {:induction false} OfConcat(a: seq<CatalogPut>, b: seq<CatalogPut>, key: LayerKey)
    ensures Of(a + b, key) == Of(a, key) + Of(b, key)
  {
    if b == [] {
      assert a + b == a;
    } else {
      assert (a + b)[..|a + b| - 1] == a + b[..|b| - 1];
      OfConcat(a, b[..|b| - 1], key);
    }
  }

  lemma {:induction false} OfUntouched(batch: seq<CatalogPut>, key: LayerKey)
    ensures Of(batch, key) != [] <==> key in Touched(batch)
  {
    if batch != [] {
      var n := |batch| - 1;
      OfUntouched(batch[..n], key);
      assert batch == batch[..n] + [batch[n]];
    }
  }

  /** What a fold yields, split into the parts that depend on the start and the parts that do not. */
  lemma {:induction false} FoldFrom(d: Draft, e: Draft, puts: seq<CatalogPut>)
    requires d.range == e.range && d.tileCount == e.tileCount && d.bytes == e.bytes
    ensures var f, g := FoldAll(d, puts), FoldAll(e, puts);
            && f.range == g.range && f.tileCount == g.tileCount && f.bytes == g.bytes
            && (puts != [] ==> f.format == g.format)
            && f.name == Or(d.name, FirstName(puts))
  {
    if puts != [] { FoldFrom(d, e, puts[..|puts| - 1]); }
  }

  lemma {:induction false} FoldConcat(d: Draft, a: seq<CatalogPut>, b: seq<CatalogPut>)
    ensures FoldAll(d, a + b) == FoldAll(FoldAll(d, a), b)
  {
    if b == [] {
      assert a + b == a;
    } else {
      assert (a + b)[..|a + b| - 1] == a + b[..|b| - 1];
      FoldConcat(d, a, b[..|b| - 1]);
    }
  }

  /** The row a layer gets when its puts `p` are written to `layers`. */
  function RowFor(layers: map<LayerKey, LayerRow>, key: LayerKey, p: seq<CatalogPut>): LayerRow {
    NewRow(layers, key, FoldAll(Start(layers, key), p), map[], 0)
  }

  lemma {:induction false} FirstNameIsFirst(puts: seq<CatalogPut>, i: nat)
    requires i < |puts| && puts[i].itemName.Some? && forall j :: 0 <= j < i ==> puts[j].itemName == None
    ensures FirstName(puts) == puts[i].itemName
  {
    var n := |puts| - 1;
    if i < n {
      FirstNameIsFirst(puts[..n], i);
    } else {
      NoName(puts[..n]);
    }
  }

  lemma {:induction false} NoName(puts: seq<CatalogPut>)
    requires forall j :: 0 <= j < |puts| ==> puts[j].itemName == None
    ensures FirstName(puts) == None
  {
    if puts != [] { NoName(puts[..|puts| - 1]); }
  }

  /** A row keeps the name it has or takes the first one offered, takes the format of the last put, and keeps its flag. */
  lemma RowSettings(layers: map<LayerKey, LayerRow>, key: LayerKey, p: seq<CatalogPut>, i: nat)
    requires i < |p| && p[i].itemName.Some? && forall j :: 0 <= j < i ==> p[j].itemName == None
    ensures var row := RowFor(layers, key, p);
            && row.format == p[|p| - 1].format
            && row.name == (if key in layers && layers[key].name != "" then layers[key].name else p[i].itemName.value)
            && row.revocable == (key in layers ==> layers[key].revocable)
  {
    FoldFrom(Start(layers, key), Start(layers, key), p);
    FirstNameIsFirst(p, i);
  }

  /** Writing p and then q to a layer is writing p + q. */
  lemma RowTwice(layers: map<LayerKey, LayerRow>, mid: map<LayerKey, LayerRow>, key: LayerKey,
                 p: seq<CatalogPut>, q: seq<CatalogPut>)
    requires p != [] && q != [] && NonEmptyNames(p) && NonEmptyNames(q)
    requires key in mid && SameLayer(mid[key], RowFor(layers, key, p))
    ensures SameLayer(RowFor(mid, key, q), RowFor(layers, key, p + q))
  {
    var s := Start(layers, key);
    FoldConcat(s, p, q);
    FoldFrom(Start(mid, key), FoldAll(s, p), q);
    FoldFrom(s, s, p);
    FoldFrom(s, s, p + q);
    FirstNameConcat(p, q);
    FirstNameNonEmpty(p);
    FirstNameNonEmpty(q);
  }

  lemma SplitLayer(
    layers: map<LayerKey, LayerRow>, a: seq<CatalogPut>, b: seq<CatalogPut>,
    mid: map<LayerKey, LayerRow>, two: map<LayerKey, LayerRow>, one: map<LayerKey, LayerRow>, key: LayerKey)
    requires NonEmptyNames(a) && NonEmptyNames(b)
    requires LayersWritten(layers, a, map[], Touched(a), mid)
    requires LayersWritten(mid, b, map[], Touched(b), two)
    requires LayersWritten(layers, a + b, map[], Touched(a + b), one)
    ensures key in two <==> key in one
    ensures key in two ==> SameLayer(two[key], one[key])
  {
    OfConcat(a, b, key);
    OfUntouched(a, key);
    OfUntouched(b, key);
    OfUntouched(a + b, key);
    var p, q := Of(a, key), Of(b, key);
    if p == [] {
      assert p + q == q;
    } else if q == [] {
      assert p + q == p;
    } else {
      OfMembers(a, key);
      OfMembers(b, key);
      RowTwice(layers, mid, key, p, q);
    }
  }

  lemma SumsAlike(x: map<LayerKey, LayerRow>, y: map<LayerKey, LayerRow>, d: string, f: Field)
    requires forall k :: k in x <==> k in y
    requires forall k :: k in x ==> SameLayer(x[k], y[k])
    ensures LayerSum(x, d, f) == LayerSum(y, d, f)
  {
    assert Column(x, d, f) == Column(y, d, f);
  }

  lemma BytesGrow(layers: map<LayerKey, LayerRow>, batch: seq<CatalogPut>, after: map<LayerKey, LayerRow>, d: string)
    requires LayersWritten(layers, batch, map[], Touched(batch), after)
    requires forall k :: k in layers ==> LayerSane(layers[k])
    ensures LayerSum(after, d, ByteCount) >= LayerSum(layers, d, ByteCount)
    ensures forall k :: k in after ==> LayerSane(after[k])
  {
    forall k | k in after ensures LayerSane(after[k]) && after[k].bytes >= Old(layers, k, ByteCount) {
      if k in Touched(batch) { FoldGrows(Start(layers, k), Of(batch, k)); }
    }
    ColumnsGrow(Column(layers, d, ByteCount), Column(after, d, ByteCount));
  }

  lemma {:induction false} ColumnsGrow<K>(x: map<K, int>, y: map<K, int>)
    requires forall k :: k in x ==> k in y && x[k] <= y[k]
    requires forall k :: k in y ==> y[k] >= 0
    ensures Sums.Total(x) <= Sums.Total(y)
    decreases |x|
  {
    if x == map[] {
      Sums.TotalNonNegative(y);
    } else {
      var k := Sums.Pick(x);
      Sums.RemoveShrinks(x, k);
      ColumnsGrow(x - {k}, y - {k});
      Sums.TotalRemove(y, k);
    }
  }

  /** A count or byte column of a database row, zero while there is no row. */
  function RowValue(databases: map<string, DatabaseRow>, d: string, f: Field): int {
    if d !in databases then 0
    else match f
      case TileCount => databases[d].tileCount
      case ByteCount => databases[d].bytes
      case Unit => databases[d].layerCount
  }

  lemma WrittenMoves(cat: Catalog, batch: seq<CatalogPut>, after: Catalog, deltas: map<string, Delta>, d: string, f: Field)
    requires Written(cat, batch, map[], after, deltas)
    ensures LayerSum(after.layers, d, f) == LayerSum(cat.layers, d, f) + if d in deltas then DeltaOf(deltas[d], f) else 0
    ensures d in after.databases <==> d in cat.databases || d in deltas
    ensures d in after.databases ==>
              after.databases[d] == if d in deltas then Upserted(cat.databases, d, deltas[d]) else cat.databases[d]
  {
    hide LayersWritten, Sourced, LayerSum, DeltaOf, Upserted;
  }

  lemma DeltaBytes(cat: Catalog, batch: seq<CatalogPut>, after: Catalog, deltas: map<string, Delta>, d: string)
    requires Conserved(cat) && Written(cat, batch, map[], after, deltas) && d in deltas
    ensures DeltaOf(deltas[d], ByteCount) >= 0
  {
    BytesGrow(cat.layers, batch, after.layers, d);
    WrittenMoves(cat, batch, after, deltas, d, ByteCount);
    hide Written, LayerSum;
  }

  lemma NoRowNoSum(cat: Catalog, d: string, f: Field)
    requires Conserved(cat)
    ensures d in cat.databases ==> cat.databases[d].bytes >= 0
    ensures d !in cat.databases ==> LayerSum(cat.layers, d, f) == 0
  {
    if d !in cat.databases { SumWithoutLayers(cat.layers, d, f); } else { assert RowExact(cat.layers, d, cat.databases[d]); }
  }

  /** Without recalculation every database column moves exactly as the sum over its layers. */
  lemma RowsMove(cat: Catalog, batch: seq<CatalogPut>, after: Catalog, deltas: map<string, Delta>, d: string, f: Field)
    requires Conserved(cat) && Written(cat, batch, map[], after, deltas)
    ensures RowValue(after.databases, d, f) - RowValue(cat.databases, d, f)
            == LayerSum(after.layers, d, f) - LayerSum(cat.layers, d, f)
  {
    hide Written, Conserved, LayerSum;
    WrittenMoves(cat, batch, after, deltas, d, f);
    NoRowNoSum(cat, d, f);
    if d in deltas { DeltaBytes(cat, batch, after, deltas, d); }
  }

  lemma TouchedConcat(a: seq<CatalogPut>, b: seq<CatalogPut>)
    ensures DatabasesOf(Touched(a + b)) == DatabasesOf(Touched(a)) + DatabasesOf(Touched(b))
  {
    assert Touched(a + b) == Touched(a) + Touched(b);
  }

  lemma SplitColumn(
    cat: Catalog, a: seq<CatalogPut>, b: seq<CatalogPut>, mid: Catalog, two: Catalog, one: Catalog,
    da: map<string, Delta>, db: map<string, Delta>, dab: map<string, Delta>, d: string, f: Field)
    requires Conserved(cat) && Conserved(mid)
    requires Written(cat, a, map[], mid, da) && Written(mid, b, map[], two, db) && Written(cat, a + b, map[], one, dab)
    requires LayerSum(two.layers, d, f) == LayerSum(one.layers, d, f)
    ensures RowValue(two.databases, d, f) == RowValue(one.databases, d, f)
  {
    hide *;
    RowsMove(cat, a, mid, da, d, f);
    RowsMove(mid, b, two, db, d, f);
    RowsMove(cat, a + b, one, dab, d, f);
  }

  lemma SplitLayers(
    cat: Catalog, a: seq<CatalogPut>, b: seq<CatalogPut>, mid: Catalog, two: Catalog, one: Catalog,
    da: map<string, Delta>, db: map<string, Delta>, dab: map<string, Delta>, k: LayerKey)
    requires NonEmptyNames(a) && NonEmptyNames(b)
    requires Written(cat, a, map[], mid, da) && Written(mid, b, map[], two, db) && Written(cat, a + b, map[], one, dab)
    ensures k in two.layers <==> k in one.layers
    ensures k in two.layers ==> SameLayer(two.layers[k], one.layers[k])
  {
    SplitLayer(cat.layers, a, b, mid.layers, two.layers, one.layers, k);
  }

  lemma PutsConserve(cat: Catalog, batch: seq<CatalogPut>, after: Catalog, deltas: map<string, Delta>)
    requires Conserved(cat) && Written(cat, batch, map[], after, deltas)
    ensures Conserved(after)
  {
    WriteConserves(cat, batch, map[], after, deltas);
  }

  lemma DatabaseKeys(
    cat: Catalog, batch: seq<CatalogPut>, recalculated: map<LayerKey, Recount>, after: Catalog, deltas: map<string, Delta>)
    requires Written(cat, batch, recalculated, after, deltas)
    ensures after.databases.Keys == cat.databases.Keys + DatabasesOf(Touched(batch))
  {
  }

  /** For batches without recalculation and with non-empty names, writing a + b gives the layer rows, and the counts
      and bytes of every database, that writing a and then b gives. */
  lemma BatchesSplit(
    cat: Catalog, a: seq<CatalogPut>, b: seq<CatalogPut>, mid: Catalog, two: Catalog, one: Catalog,
    da: map<string, Delta>, db: map<string, Delta>, dab: map<string, Delta>)
    requires Conserved(cat) && NonEmptyNames(a) && NonEmptyNames(b)
    requires Written(cat, a, map[], mid, da) && Written(mid, b, map[], two, db) && Written(cat, a + b, map[], one, dab)
    ensures forall k :: k in two.layers <==> k in one.layers
    ensures forall k :: k in two.layers ==> SameLayer(two.layers[k], one.layers[k])
    ensures two.databases.Keys == one.databases.Keys
    ensures forall d, f :: RowValue(two.databases, d, f) == RowValue(one.databases, d, f)
  {
    hide *;
    forall k ensures (k in two.layers <==> k in one.layers) && (k in two.layers ==> SameLayer(two.layers[k], one.layers[k])) {
      SplitLayers(cat, a, b, mid, two, one, da, db, dab, k);
    }
    PutsConserve(cat, a, mid, da);
    DatabaseKeys(cat, a, map[], mid, da);
    DatabaseKeys(mid, b, map[], two, db);
    DatabaseKeys(cat, a + b, map[], one, dab);
    TouchedConcat(a, b);
    forall d, f ensures RowValue(two.databases, d, f) == RowValue(one.databases, d, f) {
      SumsAlike(two.layers, one.layers, d, f);
      SplitColumn(cat, a, b, mid, two, one, da, db, dab, d, f);
    }
  }
}
