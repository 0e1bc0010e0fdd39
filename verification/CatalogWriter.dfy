/** The background loop that gathers queued puts into catalog transactions. */
module CatalogWriter {
  import opened Tiles
  import opened Catalog
  import opened CatalogLaws
  import opened CatalogBatches

  const MAX_BATCH: nat := 65_536
  const MAX_ATTEMPTS: nat := 4

  /** What wakes the loop: a queued put, whose sender may wait for an answer, a queued request to flush, or the timer. */
  datatype Command = Put(put: CatalogPut, waits: bool) | Flush | Tick

  datatype Fault = Locked | Other

  /** The layers of a database read back during a numbered flush; None when the shards cannot be read. */
  type Scan = (nat, string) -> Option<map<string, Recount>>

  /** The fault of an attempt of a numbered flush. */
  type Faults = (nat, nat) -> Option<Fault>

  // One flush

  function Dirtied(batch: seq<CatalogPut>): set<string> {
    set put | put in batch && put.outcome.requiresRecalculation :: put.layer.database
  }

  ghost predicate Recounts(databases: set<string>, number: nat, scan: Scan, recalculated: map<LayerKey, Recount>) {
    && (forall d :: d in databases ==> scan(number, d).Some?)
    && (forall k :: k in recalculated <==> k.database in databases && k.item in scan(number, k.database).value)
    && (forall k :: k in recalculated ==> recalculated[k] == scan(number, k.database).value[k.item])
  }

  ghost predicate Readable(batch: seq<CatalogPut>, number: nat, scan: Scan) {
    forall d :: d in Dirtied(batch) ==> scan(number, d).Some?
  }

  /** Some attempt within the limit meets no fault, and every attempt before it met a locked database. */
  predicate Commits(faults: Faults, number: nat) {
    exists a: nat :: 1 <= a <= 4 && faults(number, a) == None
                     && forall b: nat :: 1 <= b < a ==> faults(number, b) == Some(Locked)
  }

  ghost predicate Lands(batch: seq<CatalogPut>, number: nat, scan: Scan, faults: Faults) {
    Readable(batch, number, scan) && Commits(faults, number)
  }

  /** A flush that lands writes its batch once; any other leaves the catalog alone and its batch is lost. */
  ghost predicate Flushed(
    cat: Catalog, batch: seq<CatalogPut>, number: nat, scan: Scan, faults: Faults, after: Catalog)
  {
    if Lands(batch, number, scan, faults)
    then exists recalculated, deltas ::
           Recounts(Dirtied(batch), number, scan, recalculated) && Written(cat, batch, recalculated, after, deltas)
    else after == cat
  }

  method Recalculate(batch: seq<CatalogPut>, number: nat, scan: Scan) returns (r: Option<map<LayerKey, Recount>>)
    ensures r.Some? <==> Readable(batch, number, scan)
    ensures r.Some? ==> Recounts(Dirtied(batch), number, scan, r.value)
  {
    var recalculated: map<LayerKey, Recount> := map[];
    var todo := Dirtied(batch);
    ghost var done: set<string> := {};
    while todo != {}
      invariant done !! todo && done + todo == Dirtied(batch)
      invariant Recounts(done, number, scan, recalculated)
      decreases todo
    {
      var d :| d in todo;
      var layers := scan(number, d);
      if layers.None? { return None; }
      recalculated := recalculated + map item | item in layers.value :: LayerKey(d, item) := layers.value[item];
      todo, done := todo - {d}, done + {d};
    }
    assert done == Dirtied(batch);
    r := Some(recalculated);
  }

  method FlushCatalogBatch(cat: Catalog, batch: seq<CatalogPut>, number: nat, scan: Scan, faults: Faults)
    returns (after: Catalog, ok: bool)
    requires batch != []
    ensures ok == Lands(batch, number, scan, faults) && Flushed(cat, batch, number, scan, faults, after)
  {
    hide Recounts, Written, Readable;
    var recalculated := Recalculate(batch, number, scan);
    if recalculated.None? { return cat, false; }
    var attempts := 0;
    ok, after := false, cat;
    while true
      invariant attempts < MAX_ATTEMPTS && after == cat
      invariant forall a: nat :: 1 <= a <= attempts ==> faults(number, a) == Some(Locked)
      decreases MAX_ATTEMPTS - attempts
    {
      attempts := attempts + 1;
      var fault := faults(number, attempts);
      ghost var deltas;
      var now: int := *;
      after, deltas := WriteCatalogBatch(cat, batch, recalculated.value, now, fault.Some?);
      if fault.None? {
        ok := true;
        return;
      }
      if attempts >= MAX_ATTEMPTS || fault != Some(Locked) { return; }
    }
  }

  // How the queue is cut

  function Puts(queue: seq<Command>): seq<CatalogPut> {
    if queue == [] then []
    else
      var n := |queue| - 1;
      Puts(queue[..n]) + if queue[n].Put? then [queue[n].put] else []
  }

  /** The puts gathered since the last flush. */
  function Pending(queue: seq<Command>): seq<CatalogPut>
    decreases |queue|, 0
  {
    if queue == [] then []
    else
      var n := |queue| - 1;
      if Triggers(queue[..n], queue[n]) then [] else Gathered(queue[..n], queue[n])
  }

  /** What is pending once a command has arrived. */
  function Gathered(before: seq<Command>, command: Command): seq<CatalogPut>
    decreases |before|, 1
  {
    if command.Put? then Pending(before) + [command.put] else Pending(before)
  }

  predicate Triggers(before: seq<Command>, command: Command)
    decreases |before|, 2
  {
    command.Put? ==> command.waits || |Gathered(before, command)| >= 65_536
  }

  /** The batches flushed so far. A flush of nothing is none. */
  function Cuts(queue: seq<Command>): seq<seq<CatalogPut>> {
    if queue == [] then []
    else
      var n := |queue| - 1;
      var gathered := Gathered(queue[..n], queue[n]);
      Cuts(queue[..n]) + if Triggers(queue[..n], queue[n]) && gathered != [] then [gathered] else []
  }

  function Flatten(batches: seq<seq<CatalogPut>>): seq<CatalogPut> {
    if batches == [] then [] else Flatten(batches[..|batches| - 1]) + batches[|batches| - 1]
  }

  /** Every queued put is in exactly one batch or still pending, in the order of the queue. */
  lemma {:induction false} CutsPartition(queue: seq<Command>)
    ensures Flatten(Cuts(queue)) + Pending(queue) == Puts(queue)
  {
    if queue != [] {
      var n := |queue| - 1;
      CutsPartition(queue[..n]);
      var cuts, gathered := Cuts(queue[..n]), Gathered(queue[..n], queue[n]);
      assert (cuts + [gathered])[..|cuts|] == cuts;
      assert Flatten(cuts + [gathered]) == Flatten(cuts) + gathered;
      assert Flatten(cuts) + gathered == Puts(queue);
      assert cuts + [] == cuts;
    }
  }

  /** The timer and a request to flush leave nothing pending: every put queued before is in a batch. */
  lemma NothingPending(queue: seq<Command>, command: Command)
    requires command.Tick? || command.Flush?
    ensures Pending(queue + [command]) == []
    ensures Flatten(Cuts(queue + [command])) == Puts(queue + [command]) == Puts(queue)
  {
    CutsPartition(queue + [command]);
    assert (queue + [command])[..|queue|] == queue;
    hide Cuts, Flatten;
    assert Puts(queue) + [] == Puts(queue);
  }

  /** A put ends a batch exactly when its sender waits or it is the 65,536th. */
  lemma PutEndsBatch(queue: seq<Command>, put: CatalogPut, waits: bool)
    ensures var command := Put(put, waits);
            if waits || |Pending(queue)| == 65_535
            then Pending(queue + [command]) == [] && Cuts(queue + [command]) == Cuts(queue) + [Pending(queue) + [put]]
            else Pending(queue + [command]) == Pending(queue) + [put] && Cuts(queue + [command]) == Cuts(queue)
  {
    CutsBounded(queue);
    CutsStep(queue, Put(put, waits));
  }

  /** No batch is empty or over the limit, and fewer puts than the limit are ever left pending. */
  lemma {:induction false} CutsBounded(queue: seq<Command>)
    ensures forall i :: 0 <= i < |Cuts(queue)| ==> 0 < |Cuts(queue)[i]| <= 65_536
    ensures |Pending(queue)| < 65_536
  {
    if queue != [] { CutsBounded(queue[..|queue| - 1]); }
  }

  /** A put whose sender waits ends the batch that its arrival flushes. */
  lemma WaitingPutIsFlushed(queue: seq<Command>, c: nat)
    requires c < |queue| && queue[c].Put? && queue[c].waits
    ensures var before, after := Cuts(queue[..c]), Cuts(queue[..c + 1]);
            && Pending(queue[..c + 1]) == []
            && |after| == |before| + 1 && after[..|before|] == before
            && after[|before|] == Pending(queue[..c]) + [queue[c].put]
  {
    assert queue[..c + 1][..c] == queue[..c];
  }

  // The loop

  /** What the sender of a command learns: whether the flush it caused landed. Nothing to flush is a success. */
  ghost function Answer(before: seq<Command>, command: Command, scan: Scan, faults: Faults): Option<bool> {
    if command.Flush? || (command.Put? && command.waits) then
      var gathered := Gathered(before, command);
      Some(gathered == [] || Lands(gathered, |Cuts(before)|, scan, faults))
    else
      None
  }

  /** The catalogs between the flushes. */
  ghost predicate History(history: seq<Catalog>, batches: seq<seq<CatalogPut>>, scan: Scan, faults: Faults) {
    && |history| == |batches| + 1
    && forall i :: 0 <= i < |batches| ==> Flushed(history[i], batches[i], i, scan, faults, history[i + 1])
  }

  lemma CutsStep(before: seq<Command>, command: Command)
    ensures var gathered := Gathered(before, command);
            if !Triggers(before, command) then
              Pending(before + [command]) == gathered && Cuts(before + [command]) == Cuts(before)
            else
              && Pending(before + [command]) == []
              && Cuts(before + [command]) == if gathered == [] then Cuts(before) else Cuts(before) + [gathered]
  {
    assert (before + [command])[..|before|] == before;
  }

  lemma HistoryStart(cat: Catalog, scan: Scan, faults: Faults)
    ensures History([cat], [], scan, faults) && Cuts([]) == [] && Pending([]) == []
  {
  }

  lemma HistoryStep(
    history: seq<Catalog>, batches: seq<seq<CatalogPut>>, scan: Scan, faults: Faults, batch: seq<CatalogPut>, after: Catalog)
    requires History(history, batches, scan, faults)
    requires Flushed(history[|batches|], batch, |batches|, scan, faults, after)
    ensures History(history + [after], batches + [batch], scan, faults)
    ensures (history + [after])[|batches + [batch]|] == after && (history + [after])[0] == history[0]
  {
    hide Flushed;
  }

  /** Batches once cut stay. */
  lemma {:induction false} CutsGrow(queue: seq<Command>, n: nat)
    requires n <= |queue|
    ensures Cuts(queue[..n]) <= Cuts(queue)
    decreases |queue|
  {
    if n == |queue| {
      assert queue[..n] == queue;
    } else {
      assert queue[..|queue| - 1][..n] == queue[..n];
      CutsGrow(queue[..|queue| - 1], n);
    }
  }

  /** Who is answered, and what: the sender of a put that waits, and of a request to flush, learns whether the batch
      with all that was pending landed; nobody else is answered. */
  lemma AnswersExactly(queue: seq<Command>, c: nat, scan: Scan, faults: Faults)
    requires c < |queue|
    ensures var answer, b := Answer(queue[..c], queue[c], scan, faults), |Cuts(queue[..c])|;
            match queue[c]
            case Tick => answer == None
            case Put(put, waits) =>
              if !waits then answer == None
              else b < |Cuts(queue)| && Cuts(queue)[b] == Pending(queue[..c]) + [put]
                   && answer == Some(Lands(Cuts(queue)[b], b, scan, faults))
            case Flush =>
              if Pending(queue[..c]) == [] then answer == Some(true)
              else b < |Cuts(queue)| && Cuts(queue)[b] == Pending(queue[..c])
                   && answer == Some(Lands(Cuts(queue)[b], b, scan, faults))
  {
    hide Lands, Cuts;
    assert queue[..c + 1] == queue[..c] + [queue[c]];
    CutsStep(queue[..c], queue[c]);
    CutsGrow(queue, c + 1);
  }

  /** The loop until the queue is closed and drained; closing flushes what is pending, so that every put
      is in a batch. */
  method CatalogWriterLoop(cat: Catalog, queue: seq<Command>, scan: Scan, faults: Faults)
    returns (after: Catalog, answers: seq<Option<bool>>, batches: seq<seq<CatalogPut>>, ghost history: seq<Catalog>)
    ensures batches == Cuts(queue + [Tick]) && Flatten(batches) == Puts(queue)
    ensures History(history, batches, scan, faults) && history[0] == cat && history[|batches|] == after
    ensures |answers| == |queue|
    ensures forall c :: 0 <= c < |queue| ==> answers[c] == Answer(queue[..c], queue[c], scan, faults)
  {
    hide Flushed, Lands, History, Cuts, Pending, Puts, Flatten;
    HistoryStart(cat, scan, faults);
    after, answers, batches, history := cat, [], [], [cat];
    var pending: seq<CatalogPut> := [];
    for n := 0 to |queue|
      invariant pending == Pending(queue[..n]) && batches == Cuts(queue[..n])
      invariant History(history, batches, scan, faults) && |history| == |batches| + 1
      invariant history[0] == cat && history[|batches|] == after
      invariant |answers| == n
      invariant forall c :: 0 <= c < n ==> answers[c] == Answer(queue[..c], queue[c], scan, faults)
    {
      var command := queue[n];
      CutsStep(queue[..n], command);
      assert queue[..n + 1] == queue[..n] + [command];
      if command.Put? { pending := pending + [command.put]; }
      var flush := !command.Put? || command.waits || |pending| >= MAX_BATCH;
      var ok := true;
      if flush && pending != [] {
        var next;
        next, ok := FlushCatalogBatch(after, pending, |batches|, scan, faults);
        HistoryStep(history, batches, scan, faults, pending, next);
        after, batches, history := next, batches + [pending], history + [next];
        pending := [];
      }
      answers := answers + [if command.Flush? || (command.Put? && command.waits) then Some(ok) else None];
    }
    assert queue[..|queue|] == queue;
    CutsStep(queue, Tick);
    NothingPending(queue, Tick);
    if pending != [] {
      var next, ok := FlushCatalogBatch(after, pending, |batches|, scan, faults);
      HistoryStep(history, batches, scan, faults, pending, next);
      after, batches, history := next, batches + [pending], history + [next];
    }
  }

  // What a whole run of the loop keeps and writes

  ghost predicate SaneScan(scan: Scan) {
    forall n: nat, d :: scan(n, d).Some? ==>
                     forall i :: i in scan(n, d).value ==> scan(n, d).value[i].tileCount >= 0 && scan(n, d).value[i].bytes >= 0
  }

  lemma FlushConserves(cat: Catalog, batch: seq<CatalogPut>, n: nat, scan: Scan, faults: Faults, after: Catalog)
    requires Conserved(cat) && SaneScan(scan) && Flushed(cat, batch, n, scan, faults, after)
    ensures Conserved(after)
  {
    hide Written, Conserved;
    if Lands(batch, n, scan, faults) {
      var recalculated, deltas :|
        Recounts(Dirtied(batch), n, scan, recalculated) && Written(cat, batch, recalculated, after, deltas);
      WriteConserves(cat, batch, recalculated, after, deltas);
    }
  }

  /** Whatever fails, every database row stays the sum of its layers between all flushes. */
  lemma {:induction false} LoopConserves(
    history: seq<Catalog>, batches: seq<seq<CatalogPut>>, scan: Scan, faults: Faults, i: nat)
    requires History(history, batches, scan, faults) && i < |history| && Conserved(history[0])
    requires forall n: nat, d :: scan(n, d).Some? ==>
                             forall l :: l in scan(n, d).value ==> scan(n, d).value[l].tileCount >= 0 && scan(n, d).value[l].bytes >= 0
    ensures Conserved(history[i])
  {
    hide Conserved, Flushed;
    if i > 0 {
      LoopConserves(history, batches, scan, faults, i - 1);
      FlushConserves(history[i - 1], batches[i - 1], i - 1, scan, faults, history[i]);
    }
  }

  /** The rows one batch would have written, for use beside two batches. */
  function OneBatch(layers: map<LayerKey, LayerRow>, batch: seq<CatalogPut>): map<LayerKey, LayerRow> {
    map k | k in layers.Keys + Touched(batch) :: if k in Touched(batch) then RowFor(layers, k, Of(batch, k)) else layers[k]
  }

  lemma OneBatchWritten(layers: map<LayerKey, LayerRow>, batch: seq<CatalogPut>)
    ensures LayersWritten(layers, batch, map[], Touched(batch), OneBatch(layers, batch))
  {
    hide NewRow, Start, FoldAll, Of, Touched;
  }

  lemma TwoRows(
    layers: map<LayerKey, LayerRow>, a: seq<CatalogPut>, b: seq<CatalogPut>,
    mid: map<LayerKey, LayerRow>, two: map<LayerKey, LayerRow>, k: LayerKey)
    requires NonEmptyNames(a) && NonEmptyNames(b)
    requires LayersWritten(layers, a, map[], Touched(a), mid) && LayersWritten(mid, b, map[], Touched(b), two)
    ensures k in two <==> k in OneBatch(layers, a + b)
    ensures k in two ==> SameLayer(two[k], OneBatch(layers, a + b)[k])
    ensures k in two && k !in Touched(a + b) ==> k in layers && two[k] == layers[k]
  {
    OneBatchWritten(layers, a + b);
    SplitLayer(layers, a, b, mid, two, OneBatch(layers, a + b), k);
    assert Touched(a + b) == Touched(a) + Touched(b);
    hide NewRow, Start, FoldAll, Of, Touched, SameLayer, NonEmptyNames;
  }

  lemma LayersCompose(
    layers: map<LayerKey, LayerRow>, a: seq<CatalogPut>, b: seq<CatalogPut>,
    mid: map<LayerKey, LayerRow>, two: map<LayerKey, LayerRow>)
    requires NonEmptyNames(a) && NonEmptyNames(b)
    requires LayersWritten(layers, a, map[], Touched(a), mid) && LayersWritten(mid, b, map[], Touched(b), two)
    ensures LayersWritten(layers, a + b, map[], Touched(a + b), two)
  {
    hide NewRow, Start, FoldAll, Of, Touched, NonEmptyNames;
    forall k
      ensures k in two <==> k in OneBatch(layers, a + b)
      ensures k in two ==> SameLayer(two[k], OneBatch(layers, a + b)[k])
      ensures k in two && k !in Touched(a + b) ==> k in layers && two[k] == layers[k]
    {
      TwoRows(layers, a, b, mid, two, k);
    }
  }

  predicate Plain(puts: seq<CatalogPut>) {
    NonEmptyNames(puts) && forall put :: put in puts ==> !put.outcome.requiresRecalculation
  }

  lemma PlainFlush(cat: Catalog, batch: seq<CatalogPut>, n: nat, scan: Scan, faults: Faults, after: Catalog)
    returns (deltas: map<string, Delta>)
    requires Plain(batch) && Commits(faults, n) && Flushed(cat, batch, n, scan, faults, after)
    ensures Written(cat, batch, map[], after, deltas)
  {
    hide Written, Commits;
    assert Dirtied(batch) == {};
    assert Readable(batch, n, scan);
    var recalculated;
    recalculated, deltas :|
      Recounts(Dirtied(batch), n, scan, recalculated) && Written(cat, batch, recalculated, after, deltas);
    assert recalculated == map[];
  }

  /** Without recalculation and failures, however the queue was cut: the layer rows are those of one batch of all puts,
      and every database column moved as the sum over its layers. */
  lemma {:induction false} LoopWritesOneBatch(
    history: seq<Catalog>, batches: seq<seq<CatalogPut>>, scan: Scan, faults: Faults, m: nat)
    requires History(history, batches, scan, faults) && m <= |batches| && Conserved(history[0])
    requires forall i: nat :: i < |batches| ==> Commits(faults, i) && Plain(batches[i])
    ensures Plain(Flatten(batches[..m])) && Conserved(history[m])
    ensures var puts := Flatten(batches[..m]);
            LayersWritten(history[0].layers, puts, map[], Touched(puts), history[m].layers)
    ensures forall d, f :: RowValue(history[m].databases, d, f) - RowValue(history[0].databases, d, f)
                           == LayerSum(history[m].layers, d, f) - LayerSum(history[0].layers, d, f)
  {
    hide *;
    HistoryLength(history, batches, scan, faults);
    if m == 0 {
      NothingWritten(history[0].layers);
      assert batches[..0] == [];
    } else {
      LoopWritesOneBatch(history, batches, scan, faults, m - 1);
      var start, mid, end := history[0], history[m - 1], history[m];
      var puts, batch := Flatten(batches[..m - 1]), batches[m - 1];
      HistoryAt(history, batches, scan, faults, m - 1);
      var deltas := PlainFlush(mid, batch, m - 1, scan, faults, end);
      FlattenNext(batches, m - 1);
      PlainConcat(puts, batch);
      WrittenLayers(mid, batch, end, deltas);
      LayersCompose(start.layers, puts, batch, mid.layers, end.layers);
      PutsConserve(mid, batch, end, deltas);
      forall d, f
        ensures RowValue(end.databases, d, f) - RowValue(start.databases, d, f)
                == LayerSum(end.layers, d, f) - LayerSum(start.layers, d, f)
      {
        RowsMove(mid, batch, end, deltas, d, f);
      }
    }
  }

  lemma NothingWritten(layers: map<LayerKey, LayerRow>)
    ensures Flatten([]) == [] && Plain([]) && LayersWritten(layers, [], map[], Touched([]), layers)
  {
  }

  lemma HistoryLength(history: seq<Catalog>, batches: seq<seq<CatalogPut>>, scan: Scan, faults: Faults)
    requires History(history, batches, scan, faults)
    ensures |history| == |batches| + 1
  {
  }

  lemma HistoryAt(history: seq<Catalog>, batches: seq<seq<CatalogPut>>, scan: Scan, faults: Faults, i: nat)
    requires History(history, batches, scan, faults) && i < |batches|
    ensures Flushed(history[i], batches[i], i, scan, faults, history[i + 1])
  {
    hide Flushed;
  }

  lemma FlattenNext(batches: seq<seq<CatalogPut>>, n: nat)
    requires n < |batches|
    ensures Flatten(batches[..n + 1]) == Flatten(batches[..n]) + batches[n]
  {
    assert batches[..n + 1][..n] == batches[..n];
  }

  lemma PlainConcat(a: seq<CatalogPut>, b: seq<CatalogPut>)
    requires Plain(a) && Plain(b)
    ensures Plain(a + b) && NonEmptyNames(a) && NonEmptyNames(b)
  {
  }

  lemma WrittenLayers(cat: Catalog, batch: seq<CatalogPut>, after: Catalog, deltas: map<string, Delta>)
    requires Written(cat, batch, map[], after, deltas)
    ensures LayersWritten(cat.layers, batch, map[], Touched(batch), after.layers)
  {
  }
}
