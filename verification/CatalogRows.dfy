/** What one committed batch writes into each row, in terms of its puts alone. */
module CatalogRows {
  import opened Tiles
  import opened Catalog

  function CreatedTiles(batch: seq<CatalogPut>, k: LayerKey): int {
    if batch == [] then 0
    else
      var n := |batch| - 1;
      CreatedTiles(batch[..n], k) + if batch[n].layer == k && batch[n].outcome.created then 1 else 0
  }

  function CreatedBytes(batch: seq<CatalogPut>, k: LayerKey): int {
    if batch == [] then 0
    else
      var n := |batch| - 1;
      CreatedBytes(batch[..n], k) + if batch[n].layer == k && batch[n].outcome.created then batch[n].bytes else 0
  }

  /** The first put of a layer that offers a display name. */
  predicate FirstOffer(batch: seq<CatalogPut>, k: LayerKey, i: nat) {
    && i < |batch| && batch[i].layer == k && batch[i].itemName.Some?
    && forall j :: 0 <= j < i && batch[j].layer == k ==> batch[j].itemName == None
  }

  predicate NoOffer(batch: seq<CatalogPut>, k: LayerKey) {
    forall i :: 0 <= i < |batch| && batch[i].layer == k ==> batch[i].itemName == None
  }

  predicate LastPut(batch: seq<CatalogPut>, k: LayerKey, i: nat) {
    i < |batch| && batch[i].layer == k && forall j :: i < j < |batch| ==> batch[j].layer != k
  }

  lemma {:induction false} FoldCounted(d: Draft, batch: seq<CatalogPut>, k: LayerKey)
    ensures var f := FoldAll(d, Of(batch, k));
            f.tileCount == d.tileCount + CreatedTiles(batch, k) && f.bytes == d.bytes + CreatedBytes(batch, k)
  {
    if batch != [] {
      var n := |batch| - 1;
      FoldCounted(d, batch[..n], k);
      FoldLast(d, batch, k);
      hide FoldAll, Of;
    }
  }

  lemma FoldLast(d: Draft, batch: seq<CatalogPut>, k: LayerKey)
    requires batch != []
    ensures var n := |batch| - 1;
            FoldAll(d, Of(batch, k)) ==
            if batch[n].layer == k then FoldPut(FoldAll(d, Of(batch[..n], k)), batch[n]) else FoldAll(d, Of(batch[..n], k))
  {
    var n := |batch| - 1;
    var o := Of(batch[..n], k);
    assert (o + [batch[n]])[..|o|] == o && o + [] == o;
  }

  lemma {:induction false} FoldNamed(d: Draft, batch: seq<CatalogPut>, k: LayerKey)
    requires d.name == None
    ensures forall i: nat :: FirstOffer(batch, k, i) ==> FoldAll(d, Of(batch, k)).name == batch[i].itemName
    ensures NoOffer(batch, k) ==> FoldAll(d, Of(batch, k)).name == None
  {
    hide FoldAll, Of, FirstOffer, NoOffer;
    if batch == [] {
      NothingFolded(d, k);
    } else {
      var n := |batch| - 1;
      FoldNamed(d, batch[..n], k);
      FoldLast(d, batch, k);
      OffersNext(batch, k);
      if !NoOffer(batch[..n], k) { var i := SomeOffer(batch[..n], k); }
    }
  }

  lemma NothingFolded(d: Draft, k: LayerKey)
    ensures FoldAll(d, Of([], k)) == d && forall i: nat :: !FirstOffer([], k, i) && !LastPut([], k, i)
  {
  }

  /** The first offer and its absence, one put further on. */
  lemma OffersNext(batch: seq<CatalogPut>, k: LayerKey)
    requires batch != []
    ensures var n := |batch| - 1;
            && (forall i: nat :: FirstOffer(batch, k, i) ==>
                  i < |batch| && batch[i].itemName.Some? &&
                  if i < n then FirstOffer(batch[..n], k, i)
                  else i == n && batch[n].layer == k && batch[n].itemName.Some? && NoOffer(batch[..n], k))
            && (NoOffer(batch, k) ==> NoOffer(batch[..n], k) && (batch[n].layer == k ==> batch[n].itemName == None))
  {
  }

  lemma {:induction false} FoldFormat(d: Draft, batch: seq<CatalogPut>, k: LayerKey, i: nat)
    requires LastPut(batch, k, i)
    ensures FoldAll(d, Of(batch, k)).format == batch[i].format
  {
    hide FoldAll, Of;
    var n := |batch| - 1;
    FoldLast(d, batch, k);
    if i < n { FoldFormat(d, batch[..n], k, i); }
  }

  lemma {:induction false} SomeOffer(batch: seq<CatalogPut>, k: LayerKey) returns (i: nat)
    requires !NoOffer(batch, k)
    ensures FirstOffer(batch, k, i)
  {
    var n := |batch| - 1;
    if !NoOffer(batch[..n], k) { i := SomeOffer(batch[..n], k); } else { i := n; }
  }

  /** The row of a layer that a batch touches. A new row is not protected and has the first name offered or none; a row
      that was there keeps its flag and a name that is set. Created tiles are added up unless the layer was recalculated. */
  lemma LayerRowWritten(
    cat: Catalog, batch: seq<CatalogPut>, recalculated: map<LayerKey, Recount>, after: Catalog, deltas: map<string, Delta>,
    k: LayerKey)
    requires Written(cat, batch, recalculated, after, deltas)
    ensures k in after.layers <==> k in cat.layers || exists i :: 0 <= i < |batch| && batch[i].layer == k
    ensures k in after.layers && !(exists i :: 0 <= i < |batch| && batch[i].layer == k) ==> after.layers[k] == cat.layers[k]
    ensures (exists i :: 0 <= i < |batch| && batch[i].layer == k) ==>
              var row, known := after.layers[k], k in cat.layers;
              && row.revocable == (if known then cat.layers[k].revocable else true)
              && (known && cat.layers[k].name != "" ==> row.name == cat.layers[k].name)
              && (!(known && cat.layers[k].name != "") ==>
                    && (forall i: nat :: FirstOffer(batch, k, i) ==> row.name == batch[i].itemName.value)
                    && (NoOffer(batch, k) ==> row.name == ""))
              && (forall i: nat :: LastPut(batch, k, i) ==> row.format == batch[i].format)
              && row.tileCount ==
                 (if k in recalculated then recalculated[k].tileCount
                  else (if known then cat.layers[k].tileCount else 0) + CreatedTiles(batch, k))
              && row.bytes ==
                 (if k in recalculated then recalculated[k].bytes
                  else (if known then cat.layers[k].bytes else 0) + CreatedBytes(batch, k))
  {
    hide FoldAll, Of, NoOffer, Touched, Written, CreatedTiles, CreatedBytes, NewRow, SameLayer;
    TouchedBy(batch, k);
    LayerIs(cat, batch, recalculated, after, deltas, k);
    if k in Touched(batch) {
      FoldCounted(Start(cat.layers, k), batch, k);
      FoldNamed(Start(cat.layers, k), batch, k);
      forall i: nat | LastPut(batch, k, i) ensures FoldAll(Start(cat.layers, k), Of(batch, k)).format == batch[i].format {
        FoldFormat(Start(cat.layers, k), batch, k, i);
      }
      RowFields(cat.layers, k, FoldAll(Start(cat.layers, k), Of(batch, k)), recalculated, after.layers[k]);
    }
  }

  lemma LayerIs(
    cat: Catalog, batch: seq<CatalogPut>, recalculated: map<LayerKey, Recount>, after: Catalog, deltas: map<string, Delta>,
    k: LayerKey)
    requires Written(cat, batch, recalculated, after, deltas)
    ensures k in after.layers <==> k in cat.layers || k in Touched(batch)
    ensures k in Touched(batch) ==>
              SameLayer(after.layers[k], NewRow(cat.layers, k, FoldAll(Start(cat.layers, k), Of(batch, k)), recalculated, 0))
    ensures k in cat.layers && k !in Touched(batch) ==> after.layers[k] == cat.layers[k]
  {
    hide FoldAll, Of, DeltasExact, Sourced, DatabasesWritten, Touched, NewRow, Start, SameLayer, DatabasesOf;
  }

  lemma RowFields(
    layers: map<LayerKey, LayerRow>, k: LayerKey, draft: Draft, recalculated: map<LayerKey, Recount>, row: LayerRow)
    requires SameLayer(row, NewRow(layers, k, draft, recalculated, 0))
    ensures row.revocable == (if k in layers then layers[k].revocable else true)
    ensures row.name == (if k in layers && layers[k].name != "" then layers[k].name else GetOr(draft.name, ""))
    ensures row.format == draft.format
    ensures row.tileCount == if k in recalculated then recalculated[k].tileCount else draft.tileCount
    ensures row.bytes == if k in recalculated then recalculated[k].bytes else draft.bytes
  {
  }

  lemma TouchedBy(batch: seq<CatalogPut>, k: LayerKey)
    ensures k in Touched(batch) <==> exists i :: 0 <= i < |batch| && batch[i].layer == k
  {
    if k in Touched(batch) {
      var put :| put in batch && put.layer == k;
    }
    if i :| 0 <= i < |batch| && batch[i].layer == k { assert batch[i] in batch; }
  }

  predicate ConcernsDatabase(batch: seq<CatalogPut>, d: string) {
    exists i :: 0 <= i < |batch| && batch[i].layer.database == d
  }

  /** The row of a database that a batch touches. A new row is not protected; a row that was there keeps its flag and a
      name that is set; an unset name becomes one that a put to the database offers, if any does. The columns move with
      the layer rows, and bytes stop at zero. */
  lemma DatabaseRowWritten(
    cat: Catalog, batch: seq<CatalogPut>, recalculated: map<LayerKey, Recount>, after: Catalog, deltas: map<string, Delta>,
    d: string)
    requires Written(cat, batch, recalculated, after, deltas)
    ensures d in after.databases <==> d in cat.databases || ConcernsDatabase(batch, d)
    ensures d in after.databases && !ConcernsDatabase(batch, d) ==> after.databases[d] == cat.databases[d]
    ensures ConcernsDatabase(batch, d) ==>
              var row, known := after.databases[d], d in cat.databases;
              && row.revocable == (if known then cat.databases[d].revocable else true)
              && (known && cat.databases[d].name != "" ==> row.name == cat.databases[d].name)
              && (!(known && cat.databases[d].name != "") ==> NameOffered(batch, d, row.name))
              && (exists i :: 0 <= i < |batch| && batch[i].layer.database == d && row.path == batch[i].path)
    ensures ConcernsDatabase(batch, d) ==>
              var row, known := after.databases[d], d in cat.databases;
              && row.tileCount == (if known then cat.databases[d].tileCount else 0)
                                  + LayerSum(after.layers, d, TileCount) - LayerSum(cat.layers, d, TileCount)
              && row.layerCount == (if known then cat.databases[d].layerCount else 0)
                                   + LayerSum(after.layers, d, Unit) - LayerSum(cat.layers, d, Unit)
              && (var bytes := (if known then cat.databases[d].bytes else 0)
                               + LayerSum(after.layers, d, ByteCount) - LayerSum(cat.layers, d, ByteCount);
                  row.bytes == if bytes < 0 then 0 else bytes)
  {
    hide LayersWritten, LayerSum, FoldAll, Of, Touched, DatabasesOf, Sourced;
    ConcernedBy(batch, d);
    if ConcernsDatabase(batch, d) {
      assert Sourced(batch, Touched(batch), d, deltas[d]);
      SourcedMeans(batch, d, deltas[d]);
      assert DeltaOf(deltas[d], TileCount) == deltas[d].tiles && DeltaOf(deltas[d], ByteCount) == deltas[d].bytes
             && DeltaOf(deltas[d], Unit) == deltas[d].layers;
    }
  }

  /** A name that some put to the database offers, or the empty name if none offers one. */
  predicate NameOffered(batch: seq<CatalogPut>, d: string, name: string) {
    || (exists i :: 0 <= i < |batch| && batch[i].layer.database == d && batch[i].databaseName == Some(name))
    || (name == "" && forall i :: 0 <= i < |batch| && batch[i].layer.database == d ==> batch[i].databaseName == None)
  }

  lemma ConcernedBy(batch: seq<CatalogPut>, d: string)
    ensures d in DatabasesOf(Touched(batch)) <==> ConcernsDatabase(batch, d)
  {
    if d in DatabasesOf(Touched(batch)) {
      var k :| k in Touched(batch) && k.database == d;
      TouchedBy(batch, k);
    }
    if i :| 0 <= i < |batch| && batch[i].layer.database == d { TouchedBy(batch, batch[i].layer); }
  }

  lemma SourcedMeans(batch: seq<CatalogPut>, d: string, delta: Delta)
    requires Sourced(batch, Touched(batch), d, delta)
    ensures exists i :: 0 <= i < |batch| && batch[i].layer.database == d && delta.path == batch[i].path
    ensures NameOffered(batch, d, GetOr(delta.name, ""))
  {
    hide Touched;
    var put :| put in batch && put.layer.database == d && put.path == delta.path;
    assert exists i :: 0 <= i < |batch| && batch[i] == put;
    if delta.name.Some? {
      var named :| named in batch && named.layer.database == d && named.databaseName == delta.name;
      assert exists i :: 0 <= i < |batch| && batch[i] == named;
    } else {
      forall i | 0 <= i < |batch| && batch[i].layer.database == d ensures batch[i].databaseName == None {
        TouchedBy(batch, batch[i].layer);
      }
    }
  }
}
