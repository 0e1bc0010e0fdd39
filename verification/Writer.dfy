/** The writer of one shard: it drains a FIFO queue in batches, one transaction per batch, and answers every
    command it takes. Its contract is one-at-a-time upserts of exactly the puts answered Ok. */
module Writer {
  import opened Tiles

  datatype Row = Row(data: Bytes, x: int, y: int, f: int)

  type Table = map<int, Row>

  type Tables = map<string, Table>

  /** `reply` names the one-shot channel the sender waits on. */
  datatype Command =
    | Put(table: string, id: int, x: int, y: int, data: Bytes, reply: nat)
    | Shutdown(reply: nat)

  datatype WriteError = Locked | Refused | InvalidIdentifier | NoSuchTable | Incomplete

  datatype Answer = Written(outcome: PutOutcome) | Failed(error: WriteError) | Stopped

  /** One value sent on a one-shot channel. */
  datatype Sent = Sent(reply: nat, answer: Answer)

  const MAX_BATCH: nat := 256
  const MAX_ATTEMPTS: nat := 4

  predicate AlphanumericOrUnderscore(c: char) {
    'a' <= c <= 'z' || 'A' <= c <= 'Z' || '0' <= c <= '9' || c == '_'
  }

  predicate ValidIdentifier(name: string) {
    name != "" && forall i :: 0 <= i < |name| ==> AlphanumericOrUnderscore(name[i])
  }

  // The meaning of a put

  predicate Present(tables: Tables, table: string, id: int) {
    table in tables && id in tables[table]
  }

  function Upsert(tables: Tables, put: Command): Tables
    requires put.Put?
  {
    var rows := if put.table in tables then tables[put.table] else map[];
    tables[put.table := rows[put.id := Row(put.data, put.x, put.y, |put.data|)]]
  }

  /** The tables after the in-order upserts of the puts of `queue` that `sent` answers with success. */
  function Effect(tables: Tables, queue: seq<Command>, sent: seq<Sent>): Tables
    requires |sent| <= |queue|
  {
    if sent == [] then tables
    else
      var n := |sent| - 1;
      var before := Effect(tables, queue, sent[..n]);
      if queue[n].Put? && sent[n].answer.Written? then Upsert(before, queue[n]) else before
  }

  /** The answer that a command may get when `tables` is the state just before it: on its own channel, of its own
      kind, with `created` saying that the id was absent. */
  predicate Fits(tables: Tables, command: Command, sent: Sent) {
    && sent.reply == command.reply
    && match sent.answer
       case Stopped => command.Shutdown?
       case Written(outcome) => command.Put? && outcome == OutcomeOf(tables, command)
       case Failed(error) => command.Put? && error in {Locked, Refused, InvalidIdentifier}
  }

  /** `sent` answers the first commands of `queue`, in order and once each. */
  ghost predicate Faithful(tables: Tables, queue: seq<Command>, sent: seq<Sent>) {
    && |sent| <= |queue|
    && (sent == [] ||
        var n := |sent| - 1;
        Faithful(tables, queue, sent[..n]) && Fits(Effect(tables, queue, sent[..n]), queue[n], sent[n]))
  }

  function OutcomeOf(tables: Tables, put: Command): PutOutcome
    requires put.Put?
  {
    var created := !Present(tables, put.table, put.id);
    PutOutcome(created, !created)
  }

  function UpsertAll(tables: Tables, batch: seq<Command>): Tables
    requires OnlyPuts(batch)
  {
    if batch == [] then tables else Upsert(UpsertAll(tables, batch[..|batch| - 1]), batch[|batch| - 1])
  }

  /** What each put of a batch reports when they are carried out one after the other. */
  function OutcomesOf(tables: Tables, batch: seq<Command>): (outcomes: seq<PutOutcome>)
    requires OnlyPuts(batch)
    ensures |outcomes| == |batch|
  {
    if batch == [] then []
    else
      var b := batch[..|batch| - 1];
      OutcomesOf(tables, b) + [OutcomeOf(UpsertAll(tables, b), batch[|batch| - 1])]
  }

  predicate OnlyPuts(batch: seq<Command>) {
    forall i :: 0 <= i < |batch| ==> batch[i].Put?
  }

  // One transaction

  /** How one attempt at a batch goes wrong: at the start or while writing the put at `at`, or at the commit when `at`
      is past the last put, and whether before or after the table was created. */
  datatype Fault = Fault(at: nat, early: bool, locked: bool)

  function ErrorOf(fault: Fault): WriteError { if fault.locked then Locked else Refused }

  predicate AllValid(batch: seq<Command>) {
    forall i :: 0 <= i < |batch| && batch[i].Put? ==> ValidIdentifier(batch[i].table)
  }

  /** One put inside a transaction: create the table unless it is known, insert or else update. */
  method WritePut(tables: Tables, put: Command, known: set<string>, fault: Option<Fault>)
    returns (result: Result<PutOutcome, WriteError>, after: Tables)
    requires put.Put? && known <= tables.Keys
    ensures result.Ok? <==> ValidIdentifier(put.table) && fault.None?
    ensures result.Err? ==> result.error == if ValidIdentifier(put.table) then ErrorOf(fault.value) else InvalidIdentifier
    ensures result.Ok? ==> after == Upsert(tables, put) && result.value == OutcomeOf(tables, put)
    ensures result.Ok? ==> after.Keys == tables.Keys + {put.table}
  {
    after := tables;
    if !ValidIdentifier(put.table) { return Err(InvalidIdentifier), after; }
    if fault.Some? && fault.value.early { return Err(ErrorOf(fault.value)), after; }
    if put.table !in known {
      if put.table !in after { after := after[put.table := map[]]; }
    }
    if put.table !in after {
      assert false;
      return Err(NoSuchTable), after;
    }
    if fault.Some? { return Err(ErrorOf(fault.value)), after; }
    var inserted := put.id !in after[put.table];
    after := after[put.table := after[put.table][put.id := Row(put.data, put.x, put.y, |put.data|)]];
    assert after == Upsert(tables, put);
    result := Ok(PutOutcome(inserted, !inserted));
  }

  /** One attempt at a batch: it succeeds exactly without a fault and with valid table names, and a failed attempt
      leaves the tables as they were. */
  method WriteTileBatch(tables: Tables, batch: seq<Command>, initialized: set<string>, fault: Option<Fault>)
    returns (result: Result<(seq<PutOutcome>, set<string>), WriteError>, after: Tables)
    requires OnlyPuts(batch) && initialized <= tables.Keys
    ensures result.Ok? <==> fault.None? && AllValid(batch)
    ensures result.Err? ==>
              && after == tables
              && (result.error == InvalidIdentifier || (fault.Some? && result.error == ErrorOf(fault.value)))
              && (AllValid(batch) ==> result.error != InvalidIdentifier)
    ensures result.Ok? ==>
              && after == UpsertAll(tables, batch)
              && result.value.0 == OutcomesOf(tables, batch)
              && initialized + result.value.1 <= after.Keys
  {
    NothingUpserted(tables, batch);
    hide UpsertAll, OutcomesOf, Upsert, OutcomeOf, ValidIdentifier;
    var work := tables;
    var outcomes: seq<PutOutcome> := [];
    var batchTables: set<string> := {};
    for n := 0 to |batch|
      invariant forall i :: 0 <= i < n ==> ValidIdentifier(batch[i].table)
      invariant fault.Some? ==> n <= fault.value.at
      invariant work == UpsertAll(tables, batch[..n])
      invariant initialized + batchTables <= work.Keys
      invariant outcomes == OutcomesOf(tables, batch[..n])
    {
      var here := if fault.Some? && fault.value.at == n then fault else None;
      var written, next := WritePut(work, batch[n], initialized + batchTables, here);
      if written.Err? { return Err(written.error), tables; }
      UpsertNext(tables, batch, n);
      work := next;
      if batch[n].table !in initialized { batchTables := batchTables + {batch[n].table}; }
      outcomes := outcomes + [written.value];
    }
    assert batch[..|batch|] == batch;
    if fault.Some? { return Err(ErrorOf(fault.value)), tables; }
    return Ok((outcomes, batchTables)), work;
  }

  /** The fault of an attempt at a numbered batch. */
  type Faults = (nat, nat) -> Option<Fault>

  /** The attempts that are made: while the database is locked, at most four. */
  predicate Attempted(faults: Faults, b: nat, attempts: nat) {
    && 1 <= attempts <= 4
    && (forall j :: 0 <= j < attempts - 1 ==> faults(b, j).Some? && faults(b, j).value.locked)
  }

  /** A batch is written if its names are valid and some attempt within the limit meets no fault, every attempt before
      it having met a locked database. */
  predicate Commits(batch: seq<Command>, faults: Faults, b: nat) {
    AllValid(batch)
    && exists a: nat :: a < 4 && faults(b, a).None?
                        && forall j: nat :: j < a ==> faults(b, j).Some? && faults(b, j).value.locked
  }

  lemma Committed(batch: seq<Command>, faults: Faults, b: nat, a: nat)
    requires a < 4 && forall j: nat :: j < a ==> faults(b, j).Some? && faults(b, j).value.locked
    ensures AllValid(batch) && faults(b, a).None? ==> Commits(batch, faults, b)
    ensures faults(b, a).Some? && (a == 3 || !faults(b, a).value.locked) ==> !Commits(batch, faults, b)
  {
  }

  /** The retry loop: a locked database is tried again, anything else is not. */
  method WriteWithRetry(tables: Tables, batch: seq<Command>, initialized: set<string>, faults: Faults, b: nat)
    returns (result: Result<(seq<PutOutcome>, set<string>), WriteError>, after: Tables, attempts: nat)
    requires OnlyPuts(batch) && initialized <= tables.Keys
    ensures Attempted(faults, b, attempts)
    ensures result.Ok? <==> AllValid(batch) && faults(b, attempts - 1).None?
    ensures result.Ok? <==> Commits(batch, faults, b)
    ensures result.Err? ==>
              after == tables && result.error in {Locked, Refused, InvalidIdentifier}
              && (result.error.Locked? ==> attempts == 4)
    ensures result.Ok? ==>
              && after == UpsertAll(tables, batch)
              && result.value.0 == OutcomesOf(tables, batch)
              && initialized + result.value.1 <= after.Keys
  {
    attempts := 0;
    while true
      invariant attempts < MAX_ATTEMPTS
      invariant forall j :: 0 <= j < attempts ==> faults(b, j).Some? && faults(b, j).value.locked
      decreases MAX_ATTEMPTS - attempts
    {
      attempts := attempts + 1;
      result, after := WriteTileBatch(tables, batch, initialized, faults(b, attempts - 1));
      Committed(batch, faults, b, attempts - 1);
      if result.Ok? || attempts >= MAX_ATTEMPTS || result.error != Locked {
        return;
      }
    }
  }

  // Answering a batch

  lemma AppendAnswer(tables: Tables, queue: seq<Command>, sent: seq<Sent>, next: Sent)
    requires |sent| < |queue| && Faithful(tables, queue, sent)
    requires Fits(Effect(tables, queue, sent), queue[|sent|], next)
    ensures Faithful(tables, queue, sent + [next])
    ensures Effect(tables, queue, sent + [next]) ==
            if next.answer.Written? then Upsert(Effect(tables, queue, sent), queue[|sent|])
            else Effect(tables, queue, sent)
  {
    assert (sent + [next])[..|sent|] == sent;
  }

  /** Read at any position: the answer there fits the tables made by the successful puts before it. */
  lemma {:induction false} FaithfulAt(tables: Tables, queue: seq<Command>, sent: seq<Sent>, i: nat)
    requires Faithful(tables, queue, sent) && i < |sent|
    ensures Fits(Effect(tables, queue, sent[..i]), queue[i], sent[i])
    decreases |sent|
  {
    var n := |sent| - 1;
    if i < n {
      FaithfulAt(tables, queue, sent[..n], i);
      assert sent[..n][..i] == sent[..i];
    }
  }

  function RowAt(tables: Tables, table: string, id: int): Option<Row> {
    if Present(tables, table, id) then Some(tables[table][id]) else None
  }

  /** The row of the last put of a tile that was answered Ok, read off the queue and the answers alone. */
  function Latest(queue: seq<Command>, sent: seq<Sent>, table: string, id: int): Option<Row>
    requires |sent| <= |queue|
  {
    if sent == [] then None
    else
      var n := |sent| - 1;
      var put := queue[n];
      if put.Put? && sent[n].answer.Written? && put.table == table && put.id == id
      then Some(Row(put.data, put.x, put.y, |put.data|))
      else Latest(queue, sent[..n], table, id)
  }

  /** Last acknowledged write wins, and nothing else touches a row. */
  lemma {:induction false} LastWriteWins(tables: Tables, queue: seq<Command>, sent: seq<Sent>, table: string, id: int)
    requires |sent| <= |queue|
    ensures RowAt(Effect(tables, queue, sent), table, id) ==
            match Latest(queue, sent, table, id)
            case Some(row) => Some(row)
            case None => RowAt(tables, table, id)
  {
    if sent != [] { LastWriteWins(tables, queue, sent[..|sent| - 1], table, id); }
  }

  /** A put answered Ok reports a creation exactly when the tile was neither there at the start nor written before. */
  lemma CreatedOnlyOnce(tables: Tables, queue: seq<Command>, sent: seq<Sent>, i: nat)
    requires Faithful(tables, queue, sent) && i < |sent| && sent[i].answer.Written?
    ensures queue[i].Put?
    ensures sent[i].answer.outcome.created <==>
              RowAt(tables, queue[i].table, queue[i].id) == None
              && Latest(queue, sent[..i], queue[i].table, queue[i].id) == None
    ensures sent[i].answer.outcome.requiresRecalculation == !sent[i].answer.outcome.created
  {
    FaithfulAt(tables, queue, sent, i);
    LastWriteWins(tables, queue, sent[..i], queue[i].table, queue[i].id);
  }

  predicate NoFailure(sent: seq<Sent>) {
    forall i :: 0 <= i < |sent| ==> !sent[i].answer.Failed?
  }

  /** `batch` is what the queue holds right after the commands already answered. */
  ghost predicate Next(queue: seq<Command>, answered: nat, batch: seq<Command>) {
    answered + |batch| <= |queue| && forall i :: 0 <= i < |batch| ==> batch[i] == queue[answered + i]
  }

  /** Every put of a failed batch gets the error, and the tables stay as they were. */
  method FailWriteBatch(batch: seq<Command>, error: WriteError, sent0: seq<Sent>, ghost tables: Tables, ghost queue: seq<Command>)
    returns (sent: seq<Sent>)
    requires OnlyPuts(batch) && Next(queue, |sent0|, batch) && Faithful(tables, queue, sent0)
    requires error in {Locked, Refused, InvalidIdentifier}
    ensures |sent| == |sent0| + |batch| && Faithful(tables, queue, sent)
    ensures Effect(tables, queue, sent) == Effect(tables, queue, sent0)
    ensures sent[..|sent0|] == sent0
    ensures forall i :: |sent0| <= i < |sent| ==> sent[i] == Sent(batch[i - |sent0|].reply, Failed(error))
  {
    hide Faithful, Effect, Upsert;
    sent := sent0;
    for n := 0 to |batch|
      invariant |sent| == |sent0| + n && Faithful(tables, queue, sent)
      invariant sent[..|sent0|] == sent0
      invariant forall i :: |sent0| <= i < |sent| ==> sent[i] == Sent(batch[i - |sent0|].reply, Failed(error))
      invariant Effect(tables, queue, sent) == Effect(tables, queue, sent0)
    {
      AppendAnswer(tables, queue, sent, Sent(batch[n].reply, Failed(error)));
      sent := sent + [Sent(batch[n].reply, Failed(error))];
    }
  }

  /** Every put of a committed batch gets its outcome, and the tables are those of its upserts. */
  method AnswerBatch(
    batch: seq<Command>, outcomes: seq<PutOutcome>, sent0: seq<Sent>, ghost tables: Tables, ghost queue: seq<Command>)
    returns (sent: seq<Sent>)
    requires OnlyPuts(batch) && Next(queue, |sent0|, batch) && Faithful(tables, queue, sent0)
    requires outcomes == OutcomesOf(Effect(tables, queue, sent0), batch)
    ensures |sent| == |sent0| + |batch| && Faithful(tables, queue, sent)
    ensures Effect(tables, queue, sent) == UpsertAll(Effect(tables, queue, sent0), batch)
    ensures NoFailure(sent0) ==> NoFailure(sent)
    ensures sent[..|sent0|] == sent0
    ensures forall i :: |sent0| <= i < |sent| ==> sent[i] == Sent(batch[i - |sent0|].reply, Written(outcomes[i - |sent0|]))
  {
    hide Faithful, Effect, UpsertAll, OutcomesOf, Upsert;
    sent := sent0;
    ghost var state := Effect(tables, queue, sent0);
    NothingUpserted(state, batch);
    for n := 0 to |batch|
      invariant |sent| == |sent0| + n && Faithful(tables, queue, sent)
      invariant Effect(tables, queue, sent) == UpsertAll(state, batch[..n])
      invariant NoFailure(sent0) ==> NoFailure(sent)
      invariant sent[..|sent0|] == sent0
      invariant forall i :: |sent0| <= i < |sent| ==> sent[i] == Sent(batch[i - |sent0|].reply, Written(outcomes[i - |sent0|]))
    {
      OutcomeAt(state, batch, n);
      UpsertNext(state, batch, n);
      AppendAnswer(tables, queue, sent, Sent(batch[n].reply, Written(outcomes[n])));
      sent := sent + [Sent(batch[n].reply, Written(outcomes[n]))];
    }
    assert batch[..|batch|] == batch;
  }

  lemma NothingUpserted(tables: Tables, batch: seq<Command>)
    requires OnlyPuts(batch)
    ensures UpsertAll(tables, batch[..0]) == tables && OutcomesOf(tables, batch[..0]) == []
  {
  }

  lemma UpsertNext(tables: Tables, batch: seq<Command>, n: nat)
    requires OnlyPuts(batch) && n < |batch|
    ensures UpsertAll(tables, batch[..n + 1]) == Upsert(UpsertAll(tables, batch[..n]), batch[n])
    ensures OutcomesOf(tables, batch[..n + 1]) ==
            OutcomesOf(tables, batch[..n]) + [OutcomeOf(UpsertAll(tables, batch[..n]), batch[n])]
  {
    assert batch[..n + 1][..n] == batch[..n];
  }

  lemma {:induction false} OutcomeAt(tables: Tables, batch: seq<Command>, n: nat)
    requires OnlyPuts(batch) && n < |batch|
    ensures OutcomesOf(tables, batch)[n] == OutcomeOf(UpsertAll(tables, batch[..n]), batch[n])
    decreases |batch|
  {
    var b := batch[..|batch| - 1];
    if n < |b| {
      OutcomeAt(tables, b, n);
      assert b[..n] == batch[..n];
    }
  }

  /** Fills a batch from the queue: puts only, at most 256 of them, ended early by a shutdown, which is
      taken too, or by a queue that is empty at that moment: `arrived` says whether the command that follows the first
      n commands is there when the writer looks for it. */
  method GatherBatch(queue: seq<Command>, start: nat, arrived: nat -> bool)
    returns (batch: seq<Command>, shutdown: bool)
    requires start < |queue| && queue[start].Put?
    ensures 1 <= |batch| <= 256 && start + |batch| <= |queue|
    ensures Next(queue, start, batch) && OnlyPuts(batch)
    ensures forall n :: start < n < start + |batch| ==> arrived(n)
    ensures var stop := start + |batch|;
            && (shutdown ==> stop < |queue| && queue[stop].Shutdown?)
            && (|batch| < 256 ==> (shutdown <==> stop < |queue| && arrived(stop)))
  {
    batch, shutdown := [queue[start]], false;
    while |batch| < MAX_BATCH
      invariant 1 <= |batch| <= MAX_BATCH && start + |batch| <= |queue|
      invariant Next(queue, start, batch) && OnlyPuts(batch)
      invariant forall n :: start < n < start + |batch| ==> arrived(n)
      decreases MAX_BATCH - |batch|
    {
      if start + |batch| == |queue| || !arrived(start + |batch|) { break; }
      var command := queue[start + |batch|];
      if command.Shutdown? {
        shutdown := true;
        break;
      }
      batch := batch + [command];
    }
  }

  // Which puts fail

  function BatchStart(ends: seq<nat>, b: nat): nat
    requires b < |ends|
  {
    if b == 0 then 0 else ends[b - 1]
  }

  /** The answers from `start` to `end` are all successes or all failures. */
  predicate Uniform(sent: seq<Sent>, start: nat, end: nat, written: bool) {
    end <= |sent| &&
    forall i :: start <= i < end ==> if written then sent[i].answer.Written? else sent[i].answer.Failed?
  }

  /** The b-th batch of the queue was answered as a whole: with success exactly if it commits. */
  ghost predicate BatchDecided(queue: seq<Command>, sent: seq<Sent>, ends: seq<nat>, b: nat, faults: Faults)
    requires b < |ends|
  {
    var start, end := BatchStart(ends, b), ends[b];
    && start < end <= start + 256 && end <= |queue|
    && OnlyPuts(queue[start..end])
    && Uniform(sent, start, end, Commits(queue[start..end], faults, b))
  }

  /** The answers but for a final shutdown fall into batches, each decided by its own names and faults. */
  ghost predicate Decided(queue: seq<Command>, sent: seq<Sent>, ends: seq<nat>, faults: Faults) {
    && |sent| <= |queue|
    && (forall b :: 0 <= b < |ends| ==> BatchDecided(queue, sent, ends, b, faults))
    && (ends == [] ==> sent == [] || (|sent| == 1 && queue[0].Shutdown?))
    && (ends != [] ==>
          ends[|ends| - 1] == |sent| || (ends[|ends| - 1] == |sent| - 1 && queue[|sent| - 1].Shutdown?))
  }

  /** Every answer so far belongs to a batch. */
  predicate InBatches(sent: seq<Sent>, ends: seq<nat>) {
    if ends == [] then sent == [] else ends[|ends| - 1] == |sent|
  }

  lemma DecidedBatch(
    queue: seq<Command>, sent: seq<Sent>, ends: seq<nat>, faults: Faults, sent': seq<Sent>, batch: seq<Command>)
    requires Decided(queue, sent, ends, faults) && InBatches(sent, ends)
    requires Next(queue, |sent|, batch) && OnlyPuts(batch) && 1 <= |batch| <= 256
    requires |sent'| == |sent| + |batch| && sent'[..|sent|] == sent
    requires Uniform(sent', |sent|, |sent'|, Commits(batch, faults, |ends|))
    ensures Decided(queue, sent', ends + [|sent'|], faults) && InBatches(sent', ends + [|sent'|])
  {
    hide Commits;
    var ends' := ends + [|sent'|];
    assert queue[|sent|..|sent'|] == batch;
    forall b | 0 <= b < |ends'| ensures BatchDecided(queue, sent', ends', b, faults) {
      if b < |ends| {
        assert BatchDecided(queue, sent, ends, b, faults);
        assert BatchStart(ends', b) == BatchStart(ends, b);
        assert forall i :: 0 <= i < |sent| ==> sent'[i] == sent'[..|sent|][i];
      }
    }
  }

  lemma DecidedStop(
    queue: seq<Command>, sent: seq<Sent>, ends: seq<nat>, faults: Faults, stop: Sent)
    requires Decided(queue, sent, ends, faults) && InBatches(sent, ends)
    requires |sent| < |queue| && queue[|sent|].Shutdown?
    ensures Decided(queue, sent + [stop], ends, faults)
  {
    hide Commits;
    forall b | 0 <= b < |ends| ensures BatchDecided(queue, sent + [stop], ends, b, faults) {
      assert BatchDecided(queue, sent, ends, b, faults);
    }
  }

  /** A shutdown can always be answered, and changes no table. */
  lemma StopAnswered(tables: Tables, queue: seq<Command>, sent: seq<Sent>, ends: seq<nat>, faults: Faults)
    requires Faithful(tables, queue, sent) && Decided(queue, sent, ends, faults) && InBatches(sent, ends)
    requires |sent| < |queue| && queue[|sent|].Shutdown?
    ensures var after := sent + [Sent(queue[|sent|].reply, Stopped)];
            && Faithful(tables, queue, after) && Decided(queue, after, ends, faults)
            && Effect(tables, queue, after) == Effect(tables, queue, sent)
            && (NoFailure(sent) ==> NoFailure(after))
  {
    hide Faithful, Effect, Decided;
    AppendAnswer(tables, queue, sent, Sent(queue[|sent|].reply, Stopped));
    DecidedStop(queue, sent, ends, faults, Sent(queue[|sent|].reply, Stopped));
  }

  /** A put fails only with a batch of its own that does not commit. */
  lemma FailedOnlyWithItsBatch(
    queue: seq<Command>, sent: seq<Sent>, ends: seq<nat>, faults: Faults, i: nat)
    requires Decided(queue, sent, ends, faults) && i < |sent| && queue[i].Put?
    ensures exists b :: 0 <= b < |ends| && BatchStart(ends, b) <= i < ends[b] <= |queue|
                        && (sent[i].answer.Failed? <==>
                              !Commits(queue[BatchStart(ends, b)..ends[b]], faults, b))
  {
    var b := BatchOf(ends, i);
    assert BatchDecided(queue, sent, ends, b, faults);
  }

  lemma {:induction false} BatchOf(ends: seq<nat>, i: nat) returns (b: nat)
    requires ends != [] && i < ends[|ends| - 1]
    ensures b < |ends| && BatchStart(ends, b) <= i < ends[b]
    decreases |ends|
  {
    var n := |ends| - 1;
    if n == 0 || i >= ends[n - 1] {
      b := n;
    } else {
      b := BatchOf(ends[..n], i);
    }
  }

  lemma ValidBatch(queue: seq<Command>, answered: nat, batch: seq<Command>)
    requires AllValid(queue) && Next(queue, answered, batch)
    ensures AllValid(batch)
  {
  }

  lemma NothingSent(tables: Tables, queue: seq<Command>, faults: Faults)
    ensures Faithful(tables, queue, []) && Effect(tables, queue, []) == tables && Decided(queue, [], [], faults)
  {
  }

  /** The writer's loop over everything that is ever queued; `faults` tells how each attempt at each batch goes wrong,
      if it does, and `arrived` what it finds when it looks for more.
      It stops at the first shutdown, and without one it drains the queue. `ends` says where its batches ended. */
  method WriterLoop(tables: Tables, queue: seq<Command>, faults: Faults, arrived: nat -> bool)
    returns (after: Tables, sent: seq<Sent>, ghost ends: seq<nat>)
    ensures Faithful(tables, queue, sent)
    ensures after == Effect(tables, queue, sent)
    ensures sent != [] ==> OnlyPuts(queue[..|sent| - 1])
    ensures |sent| == |queue| || (sent != [] && queue[|sent| - 1].Shutdown?)
    ensures Decided(queue, sent, ends, faults)
    ensures AllValid(queue) && (forall b, a :: faults(b, a).None?) ==> NoFailure(sent)
  {
    after, sent, ends := tables, [], [];
    NothingSent(tables, queue, faults);
    hide Faithful, Effect, UpsertAll, OutcomesOf, ValidIdentifier, Upsert, Decided, Commits, Fits, Attempted;
    var initialized: set<string> := {};
    var batches: nat := 0;
    while |sent| < |queue|
      invariant |sent| <= |queue|
      invariant AllValid(queue) && (forall b, a :: faults(b, a).None?) ==> NoFailure(sent)
      invariant Faithful(tables, queue, sent)
      invariant after == Effect(tables, queue, sent)
      invariant OnlyPuts(queue[..|sent|])
      invariant initialized <= after.Keys
      invariant batches == |ends| && Decided(queue, sent, ends, faults)
      invariant InBatches(sent, ends)
      decreases |queue| - |sent|
    {
      var first := queue[|sent|];
      if first.Shutdown? {
        StopAnswered(tables, queue, sent, ends, faults);
        sent := sent + [Sent(first.reply, Stopped)];
        break;
      }
      var batch, shutdown := GatherBatch(queue, |sent|, arrived);
      assert queue[..|sent| + |batch|] == queue[..|sent|] + batch;
      if AllValid(queue) { ValidBatch(queue, |sent|, batch); }
      var result, written, _ := WriteWithRetry(after, batch, initialized, faults, batches);
      ghost var before := sent;
      match result {
        case Err(error) =>
          sent := FailWriteBatch(batch, error, sent, tables, queue);
        case Ok((outcomes, batchTables)) =>
          initialized := initialized + batchTables;
          if |outcomes| != |batch| {
            assert false;
          } else {
            sent := AnswerBatch(batch, outcomes, sent, tables, queue);
          }
          after := written;
      }
      DecidedBatch(queue, before, ends, faults, sent, batch);
      ends := ends + [|sent|];
      batches := batches + 1;
      if shutdown {
        var stop := queue[|sent|];
        StopAnswered(tables, queue, sent, ends, faults);
        sent := sent + [Sent(stop.reply, Stopped)];
        break;
      }
    }
  }
}
