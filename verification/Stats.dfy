/** Hourly counters: counted in memory, written behind in batches, restored when a write fails. */
module Stats {
  import opened Tiles

  const RETAIN_HOURS: nat := 2160

  datatype Field = GetRequests | PutRequests | Hits | Misses | BytesRead | BytesWritten

  datatype HourBucket = HourBucket(
    getRequests: nat, putRequests: nat, hits: nat, misses: nat, bytesRead: nat, bytesWritten: nat)

  const EMPTY := HourBucket(0, 0, 0, 0, 0, 0)

  type Hours = map<nat, HourBucket>

  function Value(b: HourBucket, f: Field): nat {
    match f
    case GetRequests => b.getRequests
    case PutRequests => b.putRequests
    case Hits => b.hits
    case Misses => b.misses
    case BytesRead => b.bytesRead
    case BytesWritten => b.bytesWritten
  }

  function Or(m: Hours, hour: nat): HourBucket { if hour in m then m[hour] else EMPTY }

  function At(m: Hours, hour: nat, f: Field): nat { Value(Or(m, hour), f) }

  function Merge(target: HourBucket, source: HourBucket): HourBucket {
    HourBucket(
      target.getRequests + source.getRequests, target.putRequests + source.putRequests, target.hits + source.hits,
      target.misses + source.misses, target.bytesRead + source.bytesRead, target.bytesWritten + source.bytesWritten)
  }

  /** One recorded request. */
  datatype Event = GetEvent(hit: bool, bytes: nat) | PutEvent(bytes: nat)

  function Record(b: HourBucket, e: Event): HourBucket {
    match e
    case GetEvent(true, bytes) =>
      b.(getRequests := b.getRequests + 1, hits := b.hits + 1, bytesRead := b.bytesRead + bytes)
    case GetEvent(false, bytes) => b.(getRequests := b.getRequests + 1, misses := b.misses + 1)
    case PutEvent(bytes) => b.(putRequests := b.putRequests + 1, bytesWritten := b.bytesWritten + bytes)
  }

  /** One read more: a hit with its bytes, or a miss. */
  predicate GetCounted(before: HourBucket, after: HourBucket, hit: bool, bytes: nat) {
    && after.getRequests == before.getRequests + 1
    && after.hits == before.hits + (if hit then 1 else 0) && after.misses == before.misses + (if hit then 0 else 1)
    && after.bytesRead == before.bytesRead + (if hit then bytes else 0)
    && after.putRequests == before.putRequests && after.bytesWritten == before.bytesWritten
  }

  /** One put more, with its bytes. */
  predicate PutCounted(before: HourBucket, after: HourBucket, bytes: nat) {
    && after.putRequests == before.putRequests + 1 && after.bytesWritten == before.bytesWritten + bytes
    && after.getRequests == before.getRequests && after.hits == before.hits && after.misses == before.misses
    && after.bytesRead == before.bytesRead
  }

  /** What one event adds to a field. */
  function Share(e: Event, f: Field): nat {
    match (e, f)
    case (GetEvent(_, _), GetRequests) => 1
    case (GetEvent(hit, _), Hits) => if hit then 1 else 0
    case (GetEvent(hit, _), Misses) => if hit then 0 else 1
    case (GetEvent(hit, bytes), BytesRead) => if hit then bytes else 0
    case (PutEvent(_), PutRequests) => 1
    case (PutEvent(bytes), BytesWritten) => bytes
    case _ => 0
  }

  /** The first hour retained: 2160 hours, ninety days, back, or the first of all. */
  function Oldest(hour: nat): nat { Max(hour - RETAIN_HOURS, 0) }

  function Retain(m: Hours, oldest: nat): Hours { map h | h in m && h >= oldest :: m[h] }

  ghost predicate Balanced(m: Hours) {
    forall h :: h in m ==> m[h].hits + m[h].misses == m[h].getRequests
  }

  /** The counts of a log of events in one hour. */
  function Logged(log: seq<(nat, Event)>, hour: nat, f: Field): nat {
    if log == [] then 0
    else Logged(log[..|log| - 1], hour, f) + if log[|log| - 1].0 == hour then Share(log[|log| - 1].1, f) else 0
  }

  /** The counts of some batches, as those that flushes have taken and not yet written or restored. */
  function Flying(batches: seq<Hours>, hour: nat, f: Field): nat {
    if batches == [] then 0 else Flying(batches[..|batches| - 1], hour, f) + At(batches[|batches| - 1], hour, f)
  }

  function Remove(batches: seq<Hours>, i: nat): seq<Hours>
    requires i < |batches|
  {
    batches[..i] + batches[i + 1..]
  }

  lemma {:induction false} FlyingRemove(batches: seq<Hours>, i: nat, hour: nat, f: Field)
    requires i < |batches|
    ensures Flying(batches, hour, f) == Flying(Remove(batches, i), hour, f) + At(batches[i], hour, f)
  {
    var n := |batches| - 1;
    if i == n {
      assert Remove(batches, i) == batches[..n];
    } else {
      FlyingRemove(batches[..n], i, hour, f);
      assert Remove(batches, i)[..n - 1] == Remove(batches[..n], i);
    }
  }

  /** Adding every bucket of `delta` to `base`, hour by hour in any order: the upserts of a commit and the merges
      of a restore. */
  method AddAll(base: Hours, delta: Hours) returns (sum: Hours)
    ensures forall h, f :: At(sum, h, f) == At(base, h, f) + At(delta, h, f)
    ensures forall h :: h in sum <==> h in base || h in delta
    ensures Balanced(base) && Balanced(delta) ==> Balanced(sum)
  {
    sum := base;
    var todo := delta.Keys;
    while todo != {}
      invariant todo <= delta.Keys
      invariant forall h :: Or(sum, h) == if h in delta && h !in todo then Merge(Or(base, h), delta[h]) else Or(base, h)
      invariant forall h :: h in sum <==> h in base || (h in delta && h !in todo)
      decreases todo
    {
      var hour :| hour in todo;
      sum := sum[hour := Merge(Or(sum, hour), delta[hour])];
      todo := todo - {hour};
    }
    if Balanced(base) && Balanced(delta) {
      forall h | h in sum ensures sum[h].hits + sum[h].misses == sum[h].getRequests {
        assert sum[h] == Or(sum, h);
      }
    }
  }

  /** Counts and history of a running service. `flying` are the batches between the take and the end of their
      transaction, `landed` those committed whose prune is still to come, and `counted` those that were committed and,
      the prune after them failing, restored as well. */
  datatype Books = Books(
    buckets: Hours, pending: Hours, persisted: Hours, flying: seq<Hours>, landed: seq<Hours>, counted: seq<Hours>,
    loaded: Hours, log: seq<(nat, Event)>, now: nat)

  /** For every hour still retained: the bucket in memory is what was loaded plus what was recorded, and it is
      persisted plus pending plus in flight, less what failed prunes put back a second time. */
  ghost predicate HourOk(b: Books, h: nat) {
    forall f ::
      && At(b.buckets, h, f) == At(b.loaded, h, f) + Logged(b.log, h, f)
      && At(b.buckets, h, f) + Flying(b.counted, h, f) ==
         At(b.persisted, h, f) + At(b.pending, h, f) + Flying(b.flying, h, f)
  }

  ghost predicate BooksOk(b: Books) {
    && (forall h: nat :: h + 2160 >= b.now ==> HourOk(b, h))
    && Balanced(b.buckets) && Balanced(b.pending) && Balanced(b.persisted)
    && (forall i :: 0 <= i < |b.flying| ==> Balanced(b.flying[i]))
    && (forall i :: 0 <= i < |b.landed| ==> Balanced(b.landed[i]))
  }

  /** Batches hold nothing for an hour exactly if each of them holds nothing. */
  lemma {:induction false} FlyingNothing(batches: seq<Hours>, hour: nat, f: Field)
    ensures Flying(batches, hour, f) == 0 <==> forall i :: 0 <= i < |batches| ==> At(batches[i], hour, f) == 0
  {
    if batches != [] { FlyingNothing(batches[..|batches| - 1], hour, f); }
  }

  lemma AtAfterRecord(m: Hours, hour: nat, e: Event, h: nat, f: Field)
    ensures At(m[hour := Record(Or(m, hour), e)], h, f) == At(m, h, f) + if h == hour then Share(e, f) else 0
  {
  }

  /** What recording one event, and dropping the hours out of retention, makes of some counts. */
  lemma RecordEffect(m: Hours, hour: nat, e: Event)
    ensures var after := m[hour := Record(Or(m, hour), e)];
            && (forall h :: h in after <==> h == hour || h in m)
            && (forall h :: h in Retain(after, Oldest(hour)) <==> h + 2160 >= hour && (h == hour || h in m))
            && (forall h :: h in Retain(after, Oldest(hour)) ==>
                  Retain(after, Oldest(hour))[h] == if h == hour then Record(Or(m, hour), e) else m[h])
            && (forall h: nat, f :: At(after, h, f) == At(m, h, f) + if h == hour then Share(e, f) else 0)
            && (forall h: nat, f :: h + 2160 >= hour ==>
                  At(Retain(after, Oldest(hour)), h, f) == At(m, h, f) + if h == hour then Share(e, f) else 0)
  {
    var after := m[hour := Record(Or(m, hour), e)];
    forall h: nat, f
      ensures At(after, h, f) == At(m, h, f) + if h == hour then Share(e, f) else 0
      ensures h + 2160 >= hour ==> At(Retain(after, Oldest(hour)), h, f) == At(after, h, f)
    {
      AtAfterRecord(m, hour, e, h, f);
    }
    hide At, Share, Record, Or;
  }

  /** The books after one recorded event. */
  function Recorded(b: Books, hour: nat, e: Event): Books {
    b.(buckets := Retain(b.buckets[hour := Record(Or(b.buckets, hour), e)], Oldest(hour)),
       pending := b.pending[hour := Record(Or(b.pending, hour), e)],
       log := b.log + [(hour, e)], now := hour)
  }

  lemma RecordHour(b: Books, hour: nat, e: Event, h: nat)
    requires HourOk(b, h) && h + 2160 >= hour
    ensures HourOk(Recorded(b, hour, e), h)
  {
    var b' := Recorded(b, hour, e);
    forall f
      ensures At(b'.buckets, h, f) == At(b'.loaded, h, f) + Logged(b'.log, h, f)
      ensures At(b'.buckets, h, f) + Flying(b'.counted, h, f) ==
              At(b'.persisted, h, f) + At(b'.pending, h, f) + Flying(b'.flying, h, f)
    {
      hide At, Flying, Logged, Share, Record, Or, Retain;
      AtAfterRecord(b.buckets, hour, e, h, f);
      AtAfterRecord(b.pending, hour, e, h, f);
    }
  }

  lemma RecordKeeps(b: Books, hour: nat, e: Event)
    requires BooksOk(b) && hour >= b.now
    ensures BooksOk(Recorded(b, hour, e))
  {
    hide HourOk;
    forall h: nat | h + 2160 >= hour ensures HourOk(Recorded(b, hour, e), h) {
      RecordHour(b, hour, e, h);
    }
  }

  /** Where the writing of a flush goes wrong. */
  datatype FlushFault = TransactionFailed | PruneFailed

  class AccessStats {
    var buckets: Hours
    var pending: Hours
    /** The table of the management database. */
    var persisted: Hours
    ghost var flying: seq<Hours>
    ghost var landed: seq<Hours>
    ghost var counted: seq<Hours>
    ghost var loaded: Hours
    ghost var log: seq<(nat, Event)>
    /** The hour last read from the clock. */
    ghost var now: nat

    ghost function State(): Books
      reads this
    {
      Books(buckets, pending, persisted, flying, landed, counted, loaded, log, now)
    }

    ghost predicate Valid()
      reads this
    {
      BooksOk(State())
    }

    /** Starting loads the rows of the retained hours. */
    constructor (table: Hours, hour: nat)
      requires Balanced(table)
      ensures Valid() && log == [] && flying == [] && landed == [] && counted == [] && now == hour
      ensures loaded == (map h | h in table && h + 2160 >= hour :: table[h]) && persisted == table && buckets == loaded && pending == map[]
    {
      var rows := Retain(table, Oldest(hour));
      buckets, pending, persisted := rows, map[], table;
      flying, landed, counted, loaded, log, now := [], [], [], rows, [], hour;
      new;
      assert forall h: nat, f :: h + 2160 >= hour ==> At(rows, h, f) == At(table, h, f);
    }

    method Update(hour: nat, e: Event)
      requires Valid() && hour >= now
      modifies this`buckets, this`pending, this`log, this`now
      ensures Valid() && now == hour && log == old(log) + [(hour, e)]
      ensures forall h :: h in buckets <==> h + 2160 >= hour && (h == hour || h in old(buckets))
      ensures forall h :: h in pending <==> h == hour || h in old(pending)
      ensures pending == old(pending)[hour := Record(old(Or(pending, hour)), e)]
      ensures forall h :: h in buckets ==>
                buckets[h] == if h == hour then Record(old(Or(buckets, hour)), e) else old(buckets)[h]
      ensures forall h: nat, f :: At(pending, h, f) == old(At(pending, h, f)) + if h == hour then Share(e, f) else 0
      ensures forall h: nat, f :: h + 2160 >= hour ==>
                At(buckets, h, f) == old(At(buckets, h, f)) + if h == hour then Share(e, f) else 0
    {
      ghost var before := State();
      RecordEffect(buckets, hour, e);
      RecordEffect(pending, hour, e);
      hide At, Record, Or, Retain, Share, BooksOk;
      buckets := buckets[hour := Record(Or(buckets, hour), e)];
      pending := pending[hour := Record(Or(pending, hour), e)];
      buckets := Retain(buckets, Oldest(hour));
      log, now := log + [(hour, e)], hour;
      RecordKeeps(before, hour, e);
    }

    method RecordGet(hour: nat, hit: bool, bytes: nat)
      requires Valid() && hour >= now
      modifies this`buckets, this`pending, this`log, this`now
      ensures Valid() && now == hour && log == old(log) + [(hour, GetEvent(hit, bytes))]
      ensures hour in buckets && hour in pending
      ensures GetCounted(old(Or(buckets, hour)), buckets[hour], hit, bytes)
      ensures GetCounted(old(Or(pending, hour)), pending[hour], hit, bytes)
      ensures forall h :: h != hour && h in buckets <==> h != hour && h in old(buckets) && h + 2160 >= hour
      ensures forall h :: h != hour && h in buckets ==> buckets[h] == old(buckets)[h]
      ensures pending - {hour} == old(pending) - {hour}
    {
      Update(hour, GetEvent(hit, bytes));
    }

    method RecordPut(hour: nat, bytes: nat)
      requires Valid() && hour >= now
      modifies this`buckets, this`pending, this`log, this`now
      ensures Valid() && now == hour && log == old(log) + [(hour, PutEvent(bytes))]
      ensures hour in buckets && hour in pending
      ensures PutCounted(old(Or(buckets, hour)), buckets[hour], bytes)
      ensures PutCounted(old(Or(pending, hour)), pending[hour], bytes)
      ensures forall h :: h != hour && h in buckets <==> h != hour && h in old(buckets) && h + 2160 >= hour
      ensures forall h :: h != hour && h in buckets ==> buckets[h] == old(buckets)[h]
      ensures pending - {hour} == old(pending) - {hour}
    {
      Update(hour, PutEvent(bytes));
    }

    /** The start of a flush: the pending counts leave under the lock. */
    method TakePending() returns (batch: Hours)
      requires Valid()
      modifies this`pending, this`flying
      ensures Valid() && batch == old(pending) && pending == map[] && flying == old(flying) + [batch]
    {
      ghost var before := State();
      batch := pending;
      pending := map[];
      flying := flying + [batch];
      TakeKeeps(before, State());
    }

    /** The transaction of a flush commits: every hour of its batch is upserted. */
    method CommitBatch(batch: Hours, ghost i: nat)
      requires Valid() && i < |flying| && batch == flying[i]
      modifies this`persisted, this`flying, this`landed
      ensures Valid() && flying == Remove(old(flying), i) && landed == old(landed) + [batch]
      ensures forall h, f :: At(persisted, h, f) == old(At(persisted, h, f)) + At(batch, h, f)
    {
      ghost var before := State();
      persisted := AddAll(persisted, batch);
      flying, landed := Remove(flying, i), landed + [batch];
      LandKeeps(before, i, State());
    }

    /** The prune after a commit, with the clock read again. It ends the flush. */
    method PruneRows(hour: nat, ghost i: nat)
      requires Valid() && hour >= now && i < |landed|
      modifies this`persisted, this`landed, this`now
      ensures Valid() && now == hour
      ensures persisted == map h | h in old(persisted) && h + 2160 >= hour :: old(persisted)[h]
      ensures landed == Remove(old(landed), i)
    {
      ghost var before := State();
      persisted, now, landed := Retain(persisted, Oldest(hour)), hour, Remove(landed, i);
      PruneKeeps(before, hour, i, State());
    }

    /** A flush whose transaction failed merges its batch back. */
    method RestoreBatch(batch: Hours, ghost i: nat)
      requires Valid() && i < |flying| && batch == flying[i]
      modifies this`pending, this`flying
      ensures Valid() && flying == Remove(old(flying), i)
      ensures forall h, f :: At(pending, h, f) == old(At(pending, h, f)) + At(batch, h, f)
    {
      ghost var before := State();
      pending := AddAll(pending, batch);
      flying := Remove(flying, i);
      LandKeeps(before, i, State());
    }

    /** A flush whose commit succeeded but whose prune failed also merges its batch back. */
    method RestoreCommitted(batch: Hours, ghost i: nat)
      requires Valid() && i < |landed| && batch == landed[i]
      modifies this`pending, this`landed, this`counted
      ensures Valid() && landed == Remove(old(landed), i) && counted == old(counted) + [batch]
      ensures forall h, f :: At(pending, h, f) == old(At(pending, h, f)) + At(batch, h, f)
    {
      ghost var before := State();
      pending := AddAll(pending, batch);
      landed, counted := Remove(landed, i), counted + [batch];
      RecountKeeps(before, i, State());
    }

    /** One flush that nothing interleaves with: take, write, prune, and on either failure restore. */
    method Flush(hour: nat, fault: Option<FlushFault>) returns (ok: bool)
      requires Valid() && hour >= now
      modifies this`pending, this`persisted, this`flying, this`landed, this`counted, this`now
      ensures Valid() && flying == old(flying) && landed == old(landed) && old(now) <= now <= hour
      ensures ok <==> old(pending) == map[] || fault.None?
      ensures old(pending) == map[] ==> pending == map[] && persisted == old(persisted) && counted == old(counted)
      ensures ok ==> pending == map[] && counted == old(counted)
      ensures !ok ==> forall h: nat, f :: At(pending, h, f) == old(At(pending, h, f))
      ensures !ok && fault == Some(TransactionFailed) ==> persisted == old(persisted) && counted == old(counted)
      ensures !ok && fault == Some(PruneFailed) ==> counted == old(counted) + [old(pending)]
      ensures fault != Some(TransactionFailed) ==> forall h: nat, f :: h + 2160 >= hour ==>
                At(persisted, h, f) == old(At(persisted, h, f)) + old(At(pending, h, f))
    {
      var batch := TakePending();
      ghost var n := |flying| - 1;
      assert Remove(flying, n) == old(flying);
      if batch == map[] {
        ghost var before := State();
        flying := Remove(flying, n);
        LandKeeps(before, n, State());
        return true;
      }
      if fault.Some? && fault.value.TransactionFailed? {
        RestoreBatch(batch, n);
        return false;
      }
      CommitBatch(batch, n);
      ghost var m := |landed| - 1;
      assert Remove(landed, m) == old(landed);
      if fault.Some? {
        assert fault.value.PruneFailed?;
        RestoreCommitted(batch, m);
        return false;
      }
      PruneRows(hour, m);
      ok := true;
    }

    /** The dashboard's last hours, oldest first. */
    method Recent(hours: nat, current: nat) returns (result: seq<(nat, HourBucket)>)
      requires Valid() && current >= now
      ensures var start := Max(current - Max(hours - 1, 0), 0);
              |result| == current - start + 1
              && forall i :: 0 <= i < |result| ==>
                   && result[i].0 == (start + i) * 3600
                   && result[i].1.hits + result[i].1.misses == result[i].1.getRequests
                   && (start + i + 2160 >= now ==> forall f ::
                         Value(result[i].1, f) == At(loaded, start + i, f) + Logged(log, start + i, f))
    {
      var start := Max(current - Max(hours - 1, 0), 0);
      result := [];
      for n := 0 to current - start + 1
        invariant |result| == n
        invariant forall i :: 0 <= i < n ==> result[i] == ((start + i) * 3600, Or(buckets, start + i))
      {
        result := result + [((start + n) * 3600, Or(buckets, start + n))];
      }
      forall i | 0 <= i < |result| && start + i + 2160 >= now
        ensures forall f :: Value(result[i].1, f) == At(loaded, start + i, f) + Logged(log, start + i, f)
      {
        assert HourOk(State(), start + i);
        assert forall f :: Value(result[i].1, f) == At(buckets, start + i, f);
      }
    }
  }

  lemma TakeKeeps(b: Books, b': Books)
    requires BooksOk(b) && b' == b.(pending := map[], flying := b.flying + [b.pending])
    ensures BooksOk(b')
  {
    forall h: nat | h + 2160 >= b.now ensures HourOk(b', h) {
      assert HourOk(b, h);
      hide Flying, Logged, Balanced;
    }
  }

  lemma RemoveBalanced(batches: seq<Hours>, i: nat)
    requires i < |batches| && forall j :: 0 <= j < |batches| ==> Balanced(batches[j])
    ensures forall j :: 0 <= j < |Remove(batches, i)| ==> Balanced(Remove(batches, i)[j])
  {
    hide Balanced;
    forall j | 0 <= j < |Remove(batches, i)| ensures Balanced(Remove(batches, i)[j]) {
      assert Remove(batches, i)[j] == batches[if j < i then j else j + 1];
    }
  }

  /** A batch leaves the air into the table or back into the pending counts. */
  lemma LandKeeps(b: Books, i: nat, b': Books)
    requires BooksOk(b) && i < |b.flying| && b'.flying == Remove(b.flying, i)
    requires b'.landed == b.landed || b'.landed == b.landed + [b.flying[i]]
    requires b'.buckets == b.buckets && b'.loaded == b.loaded && b'.log == b.log && b'.counted == b.counted && b'.now == b.now
    requires Balanced(b'.persisted) && Balanced(b'.pending)
    requires forall h, f :: At(b'.persisted, h, f) + At(b'.pending, h, f) ==
                            At(b.persisted, h, f) + At(b.pending, h, f) + At(b.flying[i], h, f)
    ensures BooksOk(b')
  {
    RemoveBalanced(b.flying, i);
    hide Remove;
    forall h: nat | h + 2160 >= b.now ensures HourOk(b', h) {
      assert HourOk(b, h);
      hide Flying, Logged, Balanced, At;
      forall f { FlyingRemove(b.flying, i, h, f); }
    }
  }

  lemma PruneKeeps(b: Books, hour: nat, i: nat, b': Books)
    requires BooksOk(b) && hour >= b.now && i < |b.landed|
    requires b' == b.(persisted := Retain(b.persisted, Oldest(hour)), now := hour, landed := Remove(b.landed, i))
    ensures BooksOk(b')
  {
    RemoveBalanced(b.landed, i);
    hide Remove;
    forall h: nat | h + 2160 >= hour ensures HourOk(b', h) {
      assert HourOk(b, h);
      hide Flying, Logged, Balanced, At;
    }
  }

  lemma RecountKeeps(b: Books, i: nat, b': Books)
    requires BooksOk(b) && i < |b.landed| && Balanced(b'.pending)
    requires b' == b.(pending := b'.pending, landed := Remove(b.landed, i), counted := b.counted + [b.landed[i]])
    requires forall h, f :: At(b'.pending, h, f) == At(b.pending, h, f) + At(b.landed[i], h, f)
    ensures BooksOk(b')
  {
    RemoveBalanced(b.landed, i);
    hide Remove;
    forall h: nat | h + 2160 >= b.now ensures HourOk(b', h) {
      assert HourOk(b, h);
      hide Flying, Logged, Balanced, At;
    }
  }

  /** Nothing is lost, and nothing is counted twice exactly if no batch restored after its own commit held anything of
      the kind for that hour. */
  lemma ConservedUnlessRecounted(b: Books, h: nat, f: Field)
    requires BooksOk(b) && h + 2160 >= b.now
    ensures At(b.buckets, h, f) == At(b.loaded, h, f) + Logged(b.log, h, f)
    ensures At(b.buckets, h, f) <= At(b.persisted, h, f) + At(b.pending, h, f) + Flying(b.flying, h, f)
    ensures At(b.buckets, h, f) == At(b.persisted, h, f) + At(b.pending, h, f) + Flying(b.flying, h, f)
            <==> forall i :: 0 <= i < |b.counted| ==> At(b.counted[i], h, f) == 0
  {
    assert HourOk(b, h);
    FlyingNothing(b.counted, h, f);
  }

  /** One read is recorded, its flush commits and the prune fails: the service now holds the read twice, and the next
      flush writes it twice. */
  method PruneFailureCountsTwice(hour: nat) returns (stats: AccessStats)
    ensures fresh(stats) && stats.Valid()
    ensures At(stats.buckets, hour, GetRequests) == 1 && At(stats.persisted, hour, GetRequests) == 2
    ensures stats.pending == map[] && stats.flying == []
  {
    stats := new AccessStats(map[], hour);
    stats.Update(hour, GetEvent(true, 5));
    assert hour in stats.pending;
    var _ := stats.Flush(hour, Some(PruneFailed));
    assert At(stats.persisted, hour, GetRequests) == At(stats.pending, hour, GetRequests) == 1;
    var _ := stats.Flush(hour, None);
  }
}
