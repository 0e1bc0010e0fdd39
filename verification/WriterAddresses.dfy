/** The puts that the service makes: their table names are valid, and each is written under the address of its tile. */
module WriterAddresses {
  import opened Tiles
  import opened Writer
  import Paths

  /** The codes of the digits, the upper-case letters, the underscore and the lower-case letters of ASCII. */
  predicate WordCode(n: int) { 48 <= n <= 57 || 65 <= n <= 90 || n == 95 || 97 <= n <= 122 }

  /** A name is valid exactly when it is not empty and all its characters have such codes. */
  lemma ValidNames(name: string)
    ensures ValidIdentifier(name) <==> name != "" && forall i :: 0 <= i < |name| ==> WordCode(name[i] as int)
  {
    forall i | 0 <= i < |name| ensures AlphanumericOrUnderscore(name[i]) <==> WordCode(name[i] as int) {
      assert 'a' as int == 97 && 'A' as int == 65 && '0' as int == 48 && '_' as int == 95;
    }
  }

  /** The table name of every tile is a valid identifier. */
  lemma TableNamesValid(z: int, x: nat, y: nat)
    requires Paths.ValidZoom(z)
    ensures ValidIdentifier(Paths.TableName(z, x, y))
  {
    var left, right := Paths.Decimal(x / 64), Paths.Decimal(y / 64);
    Paths.DecimalRoundTrip(x / 64);
    Paths.DecimalRoundTrip(y / 64);
    var name := Paths.TableName(z, x, y);
    assert name == [Paths.ZoomLetter(z)] + "_" + (left + "_" + right);
    forall i | 0 <= i < |name| ensures AlphanumericOrUnderscore(name[i]) {
      if 2 <= i < 2 + |left| { assert name[i] == left[i - 2]; }
      if 3 + |left| <= i { assert name[i] == right[i - 3 - |left|]; }
    }
  }

  /** A tile to be written, and the channel its sender waits on. */
  datatype Request = Request(key: TileKey, data: Bytes, reply: nat)

  /** The address that the service computes. */
  predicate Addressed(requests: seq<Request>) {
    forall i :: 0 <= i < |requests| ==> Paths.TileAddress(requests[i].key).Ok?
  }

  function PutFor(r: Request): (put: Command)
    requires Paths.TileAddress(r.key).Ok?
    ensures put.Put? && put.data == r.data && put.x == r.key.x && put.y == r.key.y && put.reply == r.reply
  {
    var address := Paths.TileAddress(r.key).value;
    Put(address.table, address.id, r.key.x, r.key.y, r.data, r.reply)
  }

  predicate SameTile(a: TileKey, b: TileKey) { a.z == b.z && a.x == b.x && a.y == b.y }

  /** Within one shard the row of a put is that of its tile and of no other. */
  lemma RowsAreTiles(a: Request, b: Request)
    requires Paths.TileAddress(a.key).Ok? && Paths.TileAddress(b.key).Ok?
    ensures PutFor(a).table == PutFor(b).table && PutFor(a).id == PutFor(b).id <==> SameTile(a.key, b.key)
  {
    if PutFor(a).table == PutFor(b).table {
      Paths.AddressInvertible(a.key.z, a.key.x, a.key.y, b.key.z, b.key.x, b.key.y);
    }
  }

  function Queue(requests: seq<Request>): (queue: seq<Command>)
    requires Addressed(requests)
    ensures |queue| == |requests| && forall i :: 0 <= i < |requests| ==> queue[i] == PutFor(requests[i])
  {
    seq(|requests|, i requires 0 <= i < |requests| => PutFor(requests[i]))
  }

  /** No earlier request is for the same tile. */
  predicate FirstOf(requests: seq<Request>, i: nat)
    requires i < |requests|
  {
    forall j :: 0 <= j < i ==> !SameTile(requests[j].key, requests[i].key)
  }

  /** No later request is for the same tile. */
  predicate LastOf(requests: seq<Request>, i: nat)
    requires i < |requests|
  {
    forall j :: i < j < |requests| ==> !SameTile(requests[i].key, requests[j].key)
  }

  lemma NamesValid(requests: seq<Request>)
    requires Addressed(requests)
    ensures AllValid(Queue(requests))
  {
    hide ValidIdentifier;
    forall i | 0 <= i < |requests| ensures ValidIdentifier(Queue(requests)[i].table) {
      TableNamesValid(requests[i].key.z, requests[i].key.x, requests[i].key.y);
    }
  }

  lemma AllWritten(tables: Tables, requests: seq<Request>, sent: seq<Sent>)
    requires Addressed(requests) && |sent| == |requests| && Faithful(tables, Queue(requests), sent) && NoFailure(sent)
    ensures forall i :: 0 <= i < |sent| ==> sent[i].reply == requests[i].reply && sent[i].answer.Written?
  {
    var queue := Queue(requests);
    hide Faithful, Effect;
    forall i | 0 <= i < |sent| ensures sent[i].reply == requests[i].reply && sent[i].answer.Written? {
      FaithfulAt(tables, queue, sent, i);
      assert queue[i] == PutFor(requests[i]);
    }
  }

  lemma LatestNext(queue: seq<Command>, sent: seq<Sent>, n: nat, put: Command)
    requires 0 < n <= |sent| <= |queue| && queue[n - 1].Put? && sent[n - 1].answer.Written? && put.Put?
    ensures var last := queue[n - 1];
            Latest(queue, sent[..n], put.table, put.id) ==
            if last.table == put.table && last.id == put.id then Some(Row(last.data, last.x, last.y, |last.data|))
            else Latest(queue, sent[..n - 1], put.table, put.id)
  {
    assert sent[..n][..n - 1] == sent[..n - 1];
  }

  /** The last acknowledged put of a row, when all were written. */
  lemma {:induction false} LatestRequest(requests: seq<Request>, sent: seq<Sent>, n: nat, key: TileKey)
    requires Addressed(requests) && n <= |sent| == |requests| && Paths.TileAddress(key).Ok?
    requires forall i :: 0 <= i < |sent| ==> sent[i].answer.Written?
    ensures var put := PutFor(Request(key, [], 0));
            var latest := Latest(Queue(requests), sent[..n], put.table, put.id);
            && (latest == None <==> forall i :: 0 <= i < n ==> !SameTile(requests[i].key, key))
            && forall i :: 0 <= i < n && SameTile(requests[i].key, key)
                           && (forall j :: i < j < n ==> !SameTile(requests[j].key, key)) ==>
                 latest == Some(Row(requests[i].data, key.x, key.y, |requests[i].data|))
  {
    hide PutFor, Paths.TileAddress, Queue;
    if n > 0 {
      LatestRequest(requests, sent, n - 1, key);
      LatestNext(Queue(requests), sent, n, PutFor(Request(key, [], 0)));
      hide Latest;
      RowsAreTiles(requests[n - 1], Request(key, [], 0));
      assert Queue(requests)[n - 1] == PutFor(requests[n - 1]);
    }
  }

  /** Whatever batches the queue falls into, without faults the writer writes every put of the service: the answers are
      in order and each says created exactly when the tile was neither there nor put before, and each tile ends with the
      data of its last put. */
  method WriteTiles(tables: Tables, requests: seq<Request>, arrived: nat -> bool) returns (after: Tables, sent: seq<Sent>)
    requires Addressed(requests)
    ensures |sent| == |requests|
    ensures forall i :: 0 <= i < |sent| ==>
              var put := PutFor(requests[i]);
              var created := RowAt(tables, put.table, put.id) == None && FirstOf(requests, i);
              sent[i] == Sent(requests[i].reply, Written(PutOutcome(created, !created)))
    ensures forall i :: 0 <= i < |requests| && LastOf(requests, i) ==>
              var put := PutFor(requests[i]);
              RowAt(after, put.table, put.id) ==
              Some(Row(requests[i].data, requests[i].key.x, requests[i].key.y, |requests[i].data|))
  {
    hide Effect, Decided, AllValid, PutFor, Paths.TileAddress;
    var queue := Queue(requests);
    NamesValid(requests);
    OnlyPutsQueued(requests);
    ghost var ends;
    after, sent, ends := WriterLoop(tables, queue, (b, a) => None, arrived);
    Drained(queue, sent);
    AllWritten(tables, requests, sent);
    forall i | 0 <= i < |sent|
      ensures var put := PutFor(requests[i]);
              var created := RowAt(tables, put.table, put.id) == None && FirstOf(requests, i);
              sent[i] == Sent(requests[i].reply, Written(PutOutcome(created, !created)))
    {
      CreatedAnswer(tables, requests, sent, i);
    }
    forall i | 0 <= i < |requests| && LastOf(requests, i)
      ensures var put := PutFor(requests[i]);
              RowAt(after, put.table, put.id) ==
              Some(Row(requests[i].data, requests[i].key.x, requests[i].key.y, |requests[i].data|))
    {
      LastRow(tables, requests, sent, i);
    }
  }

  lemma OnlyPutsQueued(requests: seq<Request>)
    requires Addressed(requests)
    ensures OnlyPuts(Queue(requests))
  {
  }

  /** Without a shutdown everything queued is answered. */
  lemma Drained(queue: seq<Command>, sent: seq<Sent>)
    requires OnlyPuts(queue) && |sent| <= |queue|
    requires |sent| == |queue| || (sent != [] && queue[|sent| - 1].Shutdown?)
    ensures |sent| == |queue|
  {
  }

  lemma SameRow(a: Request, b: Request)
    requires a.key == b.key && Paths.TileAddress(a.key).Ok?
    ensures PutFor(a).table == PutFor(b).table && PutFor(a).id == PutFor(b).id
  {
  }

  lemma CreatedAnswer(tables: Tables, requests: seq<Request>, sent: seq<Sent>, i: nat)
    requires Addressed(requests) && i < |sent| == |requests| && Faithful(tables, Queue(requests), sent)
    requires forall j :: 0 <= j < |sent| ==> sent[j].reply == requests[j].reply && sent[j].answer.Written?
    ensures var put := PutFor(requests[i]);
            var created := RowAt(tables, put.table, put.id) == None && FirstOf(requests, i);
            sent[i] == Sent(requests[i].reply, Written(PutOutcome(created, !created)))
  {
    hide Faithful, Effect, Latest, PutFor, Paths.TileAddress, RowAt;
    CreatedOnlyOnce(tables, Queue(requests), sent, i);
    LatestRequest(requests, sent, i, requests[i].key);
    SameRow(requests[i], Request(requests[i].key, [], 0));
  }

  lemma LastRow(tables: Tables, requests: seq<Request>, sent: seq<Sent>, i: nat)
    requires Addressed(requests) && i < |sent| == |requests| && LastOf(requests, i)
    requires forall j :: 0 <= j < |sent| ==> sent[j].answer.Written?
    ensures var put := PutFor(requests[i]);
            RowAt(Effect(tables, Queue(requests), sent), put.table, put.id) ==
            Some(Row(requests[i].data, requests[i].key.x, requests[i].key.y, |requests[i].data|))
  {
    hide Effect, Latest, PutFor, Paths.TileAddress, RowAt;
    var put := PutFor(requests[i]);
    LastWriteWins(tables, Queue(requests), sent, put.table, put.id);
    LatestRequest(requests, sent, |sent|, requests[i].key);
    SameRow(requests[i], Request(requests[i].key, [], 0));
    assert sent[..|sent|] == sent;
  }
}
