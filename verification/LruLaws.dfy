/** What runs of the reference cache say in terms of the operations alone: what a read after a put answers, who is
    evicted, and who is idle. */
module LruLaws {
  import opened Tiles
  import opened Lru

  function Moment(op: Op): nat {
    match op
    case Get(_, now) => now
    case Put(_, _, now) => now
    case EvictIdle(now, _) => now
    case Invalidate(_) => 0
  }

  /** The operation reads the tile, or puts it with data that is neither empty nor over the limit. */
  predicate UsesTile(op: Op, key: TileKey, limits: Limits) {
    || (op.Get? && op.key == key)
    || (op.Put? && op.key == key && |op.data| > 0 && |op.data| <= limits.maxTileBytes && limits.capacity > 0)
  }

  /** The last operation that uses a tile, or -1. */
  function LastUse(ops: seq<Op>, key: TileKey, limits: Limits): (i: int)
    ensures -1 <= i < |ops| && (i >= 0 ==> UsesTile(ops[i], key, limits))
    ensures forall j :: i < j < |ops| ==> !UsesTile(ops[j], key, limits)
  {
    if ops == [] then -1
    else if UsesTile(ops[|ops| - 1], key, limits) then |ops| - 1
    else LastUse(ops[..|ops| - 1], key, limits)
  }

  /** From the least to the most recently used, each slot with the moment of its last use. */
  ghost predicate InOrder(s: seq<Slot>, ops: seq<Op>, limits: Limits) {
    s == [] ||
    (Dated(s[0], ops, limits)
     && (forall x :: x in s[1..] ==> LastUse(ops, s[0].key, limits) < LastUse(ops, x.key, limits))
     && InOrder(s[1..], ops, limits))
  }

  predicate Dated(x: Slot, ops: seq<Op>, limits: Limits) {
    var i := LastUse(ops, x.key, limits);
    i >= 0 && x.accessed == Moment(ops[i])
  }

  lemma {:induction false} InOrderAt(s: seq<Slot>, ops: seq<Op>, limits: Limits, i: nat, j: nat)
    requires InOrder(s, ops, limits) && i <= j < |s|
    ensures Dated(s[i], ops, limits) && Dated(s[j], ops, limits)
    ensures i < j ==> LastUse(ops, s[i].key, limits) < LastUse(ops, s[j].key, limits)
  {
    hide Dated, LastUse;
    if i > 0 {
      InOrderAt(s[1..], ops, limits, i - 1, j - 1);
    } else if j > 0 {
      InOrderAt(s[1..], ops, limits, j - 1, j - 1);
      assert s[1..][j - 1] in s[1..];
    }
  }

  lemma {:induction false} DropSome(s: seq<Slot>, gone: set<TileKey>)
    ensures forall x :: x in Drop(s, gone) ==> x in s
  {
    if s != [] {
      DropSome(s[1..], gone);
      assert s == [s[0]] + s[1..];
    }
  }

  lemma {:induction false} DropInOrder(s: seq<Slot>, gone: set<TileKey>, ops: seq<Op>, limits: Limits)
    requires InOrder(s, ops, limits)
    ensures InOrder(Drop(s, gone), ops, limits)
  {
    hide Dated, LastUse;
    if s != [] {
      DropInOrder(s[1..], gone, ops, limits);
      DropSome(s[1..], gone);
      var d := Drop(s[1..], gone);
      assert ([s[0]] + d)[1..] == d;
    }
  }

  lemma {:induction false} SuffixInOrder(s: seq<Slot>, cut: nat, ops: seq<Op>, limits: Limits)
    requires InOrder(s, ops, limits) && cut <= |s|
    ensures InOrder(s[cut..], ops, limits)
  {
    hide Dated, LastUse;
    if cut > 0 {
      SuffixInOrder(s[1..], cut - 1, ops, limits);
      assert s[1..][cut - 1..] == s[cut..];
    }
  }

  /** An operation changes the last use of the tile it uses only. */
  lemma {:induction false} OtherUses(s: seq<Slot>, ops: seq<Op>, op: Op, limits: Limits)
    requires InOrder(s, ops, limits) && forall x :: x in s ==> !UsesTile(op, x.key, limits)
    ensures InOrder(s, ops + [op], limits)
  {
    if s != [] {
      OtherUses(s[1..], ops, op, limits);
      assert forall x :: x in s[1..] ==> x in s;
      assert (ops + [op])[..|ops|] == ops;
    }
  }

  lemma {:induction false} AppendInOrder(s: seq<Slot>, slot: Slot, ops: seq<Op>, limits: Limits)
    requires InOrder(s, ops, limits) && Dated(slot, ops, limits)
    requires forall x :: x in s ==> LastUse(ops, x.key, limits) < LastUse(ops, slot.key, limits)
    ensures InOrder(s + [slot], ops, limits)
  {
    hide Dated, LastUse;
    if s == [] {
      assert (s + [slot])[1..] == [];
    } else {
      assert forall x :: x in s[1..] ==> x in s;
      AppendInOrder(s[1..], slot, ops, limits);
      assert (s + [slot])[1..] == s[1..] + [slot];
    }
  }

  lemma {:induction false} SlotsHaveKeys(s: seq<Slot>)
    ensures forall x :: x in s ==> x.key in Keys(s)
  {
    if s != [] {
      SlotsHaveKeys(s[1..]);
      assert s == [s[0]] + s[1..];
    }
  }

  /** The slot of the tile just used goes to the recent end. */
  lemma RenewInOrder(s: seq<Slot>, slot: Slot, ops: seq<Op>, op: Op, limits: Limits)
    requires InOrder(s, ops, limits) && Distinct(s) && UsesTile(op, slot.key, limits) && slot.accessed == Moment(op)
    requires forall k :: UsesTile(op, k, limits) ==> k == slot.key
    ensures InOrder(Drop(s, {slot.key}) + [slot], ops + [op], limits)
  {
    hide InOrder, UsesTile, Drop, Distinct;
    var d := Drop(s, {slot.key});
    DropInOrder(s, {slot.key}, ops, limits);
    DropKeys(s, {slot.key});
    SlotsHaveKeys(d);
    OtherUses(d, ops, op, limits);
    LatestUse(d, ops, op, slot, limits);
    AppendInOrder(d, slot, ops + [op], limits);
  }

  lemma LatestUse(d: seq<Slot>, ops: seq<Op>, op: Op, slot: Slot, limits: Limits)
    requires UsesTile(op, slot.key, limits) && slot.accessed == Moment(op) && forall x :: x in d ==> !UsesTile(op, x.key, limits)
    ensures Dated(slot, ops + [op], limits)
    ensures forall x :: x in d ==> LastUse(ops + [op], x.key, limits) < LastUse(ops + [op], slot.key, limits)
  {
    assert (ops + [op])[..|ops|] == ops;
  }

  /** After any run the slots are in the order of their last use, and carry its moment. */
  lemma {:induction false} RunInOrder(ops: seq<Op>, limits: Limits)
    ensures InOrder(Run(ops, limits), ops, limits)
  {
    if ops != [] {
      var prior, op := ops[..|ops| - 1], ops[|ops| - 1];
      RunInOrder(prior, limits);
      RunIsBoundedAndCurrent(prior, limits);
      assert ops == prior + [op];
      StepInOrder(Run(prior, limits), prior, op, limits);
    }
  }

  lemma StepInOrder(s: seq<Slot>, ops: seq<Op>, op: Op, limits: Limits)
    requires InOrder(s, ops, limits) && Distinct(s)
    ensures InOrder(Apply(s, op, limits), ops + [op], limits)
  {
    hide InOrder, Drop, Fit, Lookup, Distinct, Keys, LastUse;
    SlotsHaveKeys(s);
    match op
    case Get(key, now) =>
      LookupResident(s, key);
      if Lookup(s, key).Some? {
        RenewInOrder(s, Slot(key, Lookup(s, key).value, now), ops, op, limits);
      } else {
        OtherUses(s, ops, op, limits);
      }
    case Put(key, data, now) =>
      if Admits(limits, data) {
        var t := Drop(s, {key}) + [Slot(key, data, now)];
        RenewInOrder(s, Slot(key, data, now), ops, op, limits);
        var cut := FitIsLongestSuffix(t, limits.capacity);
        SuffixInOrder(t, cut, ops + [op], limits);
      } else {
        OtherUses(s, ops, op, limits);
      }
    case Invalidate(keys) =>
      DropInOrder(s, keys, ops, limits);
      DropSome(s, keys);
      OtherUses(Drop(s, keys), ops, op, limits);
    case EvictIdle(now, idle) =>
      DropInOrder(s, IdleKeys(s, now, idle), ops, limits);
      DropSome(s, IdleKeys(s, now, idle));
      OtherUses(Apply(s, op, limits), ops, op, limits);
  }

  /** The list is ordered by last use. */
  lemma RecencyIsLastUse(ops: seq<Op>, limits: Limits, i: nat, j: nat)
    requires i < j < |Run(ops, limits)|
    ensures var s := Run(ops, limits);
            0 <= LastUse(ops, s[i].key, limits) < LastUse(ops, s[j].key, limits)
  {
    RunInOrder(ops, limits);
    InOrderAt(Run(ops, limits), ops, limits, i, j);
  }

  // What a put does

  lemma RunNext(ops: seq<Op>, op: Op, limits: Limits)
    ensures Run(ops + [op], limits) == Apply(Run(ops, limits), op, limits)
  {
    assert (ops + [op])[..|ops|] == ops;
  }

  /** A put of data that is empty or over the limit for one tile, or into a cache without capacity, changes nothing. */
  lemma RefusedPutChangesNothing(ops: seq<Op>, key: TileKey, data: Bytes, now: nat, limits: Limits)
    requires |data| == 0 || |data| > limits.maxTileBytes || limits.capacity == 0
    ensures Run(ops + [Put(key, data, now)], limits) == Run(ops, limits)
  {
    RunNext(ops, Put(key, data, now), limits);
  }

  /** A put of data that is not empty and within both limits is what the next read answers. */
  lemma PutIsAnswered(ops: seq<Op>, key: TileKey, data: Bytes, now: nat, limits: Limits)
    requires 0 < |data| <= limits.maxTileBytes && |data| <= limits.capacity
    ensures Lookup(Run(ops + [Put(key, data, now)], limits), key) == Some(data)
  {
    RunNext(ops, Put(key, data, now), limits);
    RunIsBoundedAndCurrent(ops, limits);
    FreshTileSurvives(Run(ops, limits), key, data, now, limits.capacity);
  }

  /** A put that may be cached but exceeds the whole capacity leaves nothing in the cache. */
  lemma OverlargePutClears(ops: seq<Op>, key: TileKey, data: Bytes, now: nat, limits: Limits)
    requires 0 < limits.capacity < |data| <= limits.maxTileBytes
    ensures Run(ops + [Put(key, data, now)], limits) == []
  {
    RunNext(ops, Put(key, data, now), limits);
    var d := Drop(Run(ops, limits), {key});
    var t := d + [Slot(key, data, now)];
    var cut := FitIsLongestSuffix(t, limits.capacity);
    if cut <= |d| {
      assert t[cut..] == d[cut..] + [Slot(key, data, now)];
      TotalConcat(d[cut..], [Slot(key, data, now)]);
    }
    assert cut == |t|;
  }

  /** Another tile survives a put exactly when the tiles used no earlier than it and the new one fit together. */
  lemma StaysExactly(ops: seq<Op>, key: TileKey, data: Bytes, now: nat, limits: Limits, i: nat)
    requires 0 < |data| <= limits.maxTileBytes && limits.capacity > 0
    requires i < |Drop(Run(ops, limits), {key})|
    ensures var d := Drop(Run(ops, limits), {key});
            d[i].key in Keys(Run(ops + [Put(key, data, now)], limits)) <==> Total(d[i..]) + |data| <= limits.capacity
  {
    RunNext(ops, Put(key, data, now), limits);
    RunIsBoundedAndCurrent(ops, limits);
    DropKeys(Run(ops, limits), {key});
    var d, slot := Drop(Run(ops, limits), {key}), Slot(key, data, now);
    var t := d + [slot];
    Renew(Run(ops, limits), slot);
    var cut := FitIsLongestSuffix(t, limits.capacity);
    hide Run, Drop, Fit, Keys, Distinct;
    assert t[i..] == d[i..] + [slot];
    TotalConcat(d[i..], [slot]);
    assert Total([slot]) == |data| by { assert [slot][1..] == []; }
    if cut <= i { SuffixTotals(t, i, cut); }
    KeyInSuffix(t, i, cut);
  }

  lemma {:induction false} SuffixTotals(t: seq<Slot>, i: nat, cut: nat)
    requires cut <= i <= |t|
    ensures Total(t[i..]) <= Total(t[cut..])
    decreases i - cut
  {
    if cut < i {
      SuffixTotals(t, i, cut + 1);
      assert t[cut..][1..] == t[cut + 1..];
    }
  }

  lemma {:induction false} KeyInSuffix(t: seq<Slot>, i: nat, cut: nat)
    requires Distinct(t) && i < |t| && cut <= |t|
    ensures t[i].key in Keys(t[cut..]) <==> cut <= i
  {
    if cut == 0 {
      SlotsHaveKeys(t);
      assert t[i] in t;
    } else {
      assert t[1..][cut - 1..] == t[cut..];
      SuffixKeys(t[1..], cut - 1);
      if i > 0 { KeyInSuffix(t[1..], i - 1, cut - 1); }
    }
  }

  // Who is idle

  lemma {:induction false} IdleMeans(s: seq<Slot>, now: nat, idle: nat, key: TileKey)
    ensures key in IdleKeys(s, now, idle) <==> exists i :: 0 <= i < |s| && s[i].key == key && s[i].accessed + idle <= now
  {
    if s != [] { IdleMeans(s[1..], now, idle, key); }
  }

  /** An eviction of idle tiles takes exactly the resident tiles whose last use is `idle` or longer ago; without an idle
      limit it takes none. */
  lemma IdleTakenExactly(ops: seq<Op>, now: nat, idle: nat, limits: Limits, key: TileKey)
    requires key in Keys(Run(ops, limits))
    ensures var i := LastUse(ops, key, limits);
            && i >= 0
            && (key in Keys(Run(ops + [EvictIdle(now, idle)], limits)) <==> idle == 0 || now < Moment(ops[i]) + idle)
  {
    var s := Run(ops, limits);
    RunNext(ops, EvictIdle(now, idle), limits);
    RunIsBoundedAndCurrent(ops, limits);
    RunInOrder(ops, limits);
    hide Run;
    var n := SlotOf(s, key);
    InOrderAt(s, ops, limits, n, n);
    DropKeys(s, IdleKeys(s, now, idle));
    IdleMeans(s, now, idle, key);
    forall i | 0 <= i < |s| && s[i].key == key ensures i == n { KeyInSuffix(s, i, n); KeyInSuffix(s, n, i); }
  }

  lemma {:induction false} SlotOf(s: seq<Slot>, key: TileKey) returns (i: nat)
    requires key in Keys(s)
    ensures i < |s| && s[i].key == key
  {
    if s[0].key == key { i := 0; } else { i := SlotOf(s[1..], key); i := i + 1; }
  }
}
