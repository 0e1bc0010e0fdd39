/** The reference cache: a list of tiles from least to most recently used. */
module Lru {
  import opened Tiles

  datatype Slot = Slot(key: TileKey, data: Bytes, accessed: nat)

  function Total(s: seq<Slot>): nat {
    if s == [] then 0 else |s[0].data| + Total(s[1..])
  }

  function Keys(s: seq<Slot>): set<TileKey> {
    if s == [] then {} else {s[0].key} + Keys(s[1..])
  }

  /** No key occurs twice. */
  predicate Distinct(s: seq<Slot>) {
    s == [] || (s[0].key !in Keys(s[1..]) && Distinct(s[1..]))
  }

  /** The list without the slots of some keys. */
  function Drop(s: seq<Slot>, gone: set<TileKey>): seq<Slot> {
    if s == [] then []
    else if s[0].key in gone then Drop(s[1..], gone)
    else [s[0]] + Drop(s[1..], gone)
  }

  /** Least recently used tiles leave until the rest fits. */
  function Fit(s: seq<Slot>, capacity: nat): seq<Slot> {
    if Total(s) <= capacity then s else Fit(s[1..], capacity)
  }

  function Lookup(s: seq<Slot>, key: TileKey): Option<Bytes> {
    if s == [] then None
    else if s[0].key == key then Some(s[0].data)
    else Lookup(s[1..], key)
  }

  // The four operations of the reference cache.

  function Touch(s: seq<Slot>, key: TileKey, now: nat): seq<Slot> {
    match Lookup(s, key)
    case None => s
    case Some(data) => Drop(s, {key}) + [Slot(key, data, now)]
  }

  function Insert(s: seq<Slot>, key: TileKey, data: Bytes, now: nat, capacity: nat): seq<Slot> {
    Fit(Drop(s, {key}) + [Slot(key, data, now)], capacity)
  }

  /** Tiles not used for at least `idle` time units. */
  function IdleKeys(s: seq<Slot>, now: nat, idle: nat): set<TileKey> {
    if s == [] then {}
    else (if now - s[0].accessed >= idle then {s[0].key} else {}) + IdleKeys(s[1..], now, idle)
  }

  // Lists

  lemma {:induction false} TotalConcat(a: seq<Slot>, b: seq<Slot>)
    ensures Total(a + b) == Total(a) + Total(b)
  {
    if a == [] {
      assert a + b == b;
    } else {
      TotalConcat(a[1..], b);
      assert (a + b)[1..] == a[1..] + b;
    }
  }

  lemma {:induction false} DropKeys(s: seq<Slot>, gone: set<TileKey>)
    requires Distinct(s)
    ensures Distinct(Drop(s, gone)) && Keys(Drop(s, gone)) == Keys(s) - gone
  {
    if s != [] {
      DropKeys(s[1..], gone);
      var d := Drop(s[1..], gone);
      assert ([s[0]] + d)[1..] == d;
    }
  }

  lemma {:induction false} DropNothing(s: seq<Slot>, gone: set<TileKey>)
    requires Keys(s) !! gone
    ensures Drop(s, gone) == s
  {
    if s != [] { DropNothing(s[1..], gone); }
  }

  lemma {:induction false} DropDrop(s: seq<Slot>, a: set<TileKey>, b: set<TileKey>)
    ensures Drop(Drop(s, a), b) == Drop(s, a + b)
  {
    if s != [] {
      DropDrop(s[1..], a, b);
      var d := Drop(s[1..], a);
      assert ([s[0]] + d)[1..] == d;
    }
  }

  /** Removing a resident tile frees exactly its bytes. */
  lemma {:induction false} DropOneTotal(s: seq<Slot>, key: TileKey)
    requires Distinct(s) && Lookup(s, key).Some?
    ensures Total(Drop(s, {key})) + |Lookup(s, key).value| == Total(s)
  {
    if s[0].key == key {
      DropNothing(s[1..], {key});
    } else {
      DropOneTotal(s[1..], key);
      var d := Drop(s[1..], {key});
      assert ([s[0]] + d)[1..] == d;
    }
  }

  lemma {:induction false} LookupResident(s: seq<Slot>, key: TileKey)
    ensures Lookup(s, key).Some? <==> key in Keys(s)
  {
    if s != [] { LookupResident(s[1..], key); }
  }

  /** Eviction keeps the longest most-recently-used suffix that fits, and nothing shorter. */
  lemma {:induction false} FitIsLongestSuffix(s: seq<Slot>, capacity: nat) returns (cut: nat)
    ensures cut <= |s| && Fit(s, capacity) == s[cut..]
    ensures Total(s[cut..]) <= capacity
    ensures forall k :: 0 <= k < cut ==> Total(s[k..]) > capacity
  {
    if Total(s) <= capacity {
      cut := 0;
    } else {
      var rest := FitIsLongestSuffix(s[1..], capacity);
      cut := rest + 1;
      assert s[1..][rest..] == s[cut..];
      forall k | 0 <= k < cut ensures Total(s[k..]) > capacity {
        if k > 0 { assert s[k..] == s[1..][k - 1..]; }
      }
    }
  }

  // Runs of the reference cache

  datatype Limits = Limits(capacity: nat, maxTileBytes: nat)

  predicate Admits(limits: Limits, data: Bytes) {
    limits.capacity > 0 && 0 < |data| <= limits.maxTileBytes
  }

  datatype Op =
    | Get(key: TileKey, now: nat)
    | Put(key: TileKey, data: Bytes, now: nat)
    | Invalidate(keys: set<TileKey>)
    | EvictIdle(now: nat, idle: nat)

  function Apply(s: seq<Slot>, op: Op, limits: Limits): seq<Slot> {
    match op
    case Get(key, now) => Touch(s, key, now)
    case Put(key, data, now) => if Admits(limits, data) then Insert(s, key, data, now, limits.capacity) else s
    case Invalidate(keys) => Drop(s, keys)
    case EvictIdle(now, idle) => if idle == 0 then s else Drop(s, IdleKeys(s, now, idle))
  }

  function Run(ops: seq<Op>, limits: Limits): seq<Slot> {
    if ops == [] then [] else Apply(Run(ops[..|ops| - 1], limits), ops[|ops| - 1], limits)
  }

  /** The data of the last admitted put of a key that no later invalidation covers. */
  function LastAdmitted(ops: seq<Op>, key: TileKey, limits: Limits): Option<Bytes> {
    if ops == [] then None
    else
      var last := ops[|ops| - 1];
      if last.Put? && last.key == key && Admits(limits, last.data) then Some(last.data)
      else if last.Invalidate? && key in last.keys then None
      else LastAdmitted(ops[..|ops| - 1], key, limits)
  }

  lemma {:induction false} LookupDrop(s: seq<Slot>, gone: set<TileKey>, key: TileKey)
    ensures Lookup(Drop(s, gone), key) == if key in gone then None else Lookup(s, key)
  {
    if s != [] {
      LookupDrop(s[1..], gone, key);
      var d := Drop(s[1..], gone);
      assert ([s[0]] + d)[1..] == d;
    }
  }

  lemma {:induction false} AppendSlot(s: seq<Slot>, slot: Slot)
    requires Distinct(s) && slot.key !in Keys(s)
    ensures Distinct(s + [slot]) && Keys(s + [slot]) == Keys(s) + {slot.key}
    ensures forall key :: Lookup(s + [slot], key) == if key == slot.key then Some(slot.data) else Lookup(s, key)
  {
    if s == [] {
      assert (s + [slot])[1..] == [];
    } else {
      AppendSlot(s[1..], slot);
      assert (s + [slot])[1..] == s[1..] + [slot];
      LookupResident(s, slot.key);
    }
  }

  lemma {:induction false} FitKeeps(s: seq<Slot>, capacity: nat)
    requires Distinct(s)
    ensures Distinct(Fit(s, capacity)) && Keys(Fit(s, capacity)) <= Keys(s) && Total(Fit(s, capacity)) <= capacity
    ensures forall key :: Lookup(Fit(s, capacity), key).Some? ==> Lookup(Fit(s, capacity), key) == Lookup(s, key)
  {
    if Total(s) > capacity {
      FitKeeps(s[1..], capacity);
      forall key | Lookup(Fit(s, capacity), key).Some? ensures Lookup(Fit(s, capacity), key) == Lookup(s, key) {
        LookupResident(Fit(s, capacity), key);
      }
    }
  }

  /** Moving or adding a slot at the recent end. */
  lemma Renew(s: seq<Slot>, slot: Slot)
    requires Distinct(s)
    ensures var t := Drop(s, {slot.key}) + [slot];
            && Distinct(t)
            && forall key :: Lookup(t, key) == if key == slot.key then Some(slot.data) else Lookup(s, key)
  {
    var d := Drop(s, {slot.key});
    DropKeys(s, {slot.key});
    AppendSlot(d, slot);
    forall key ensures Lookup(d, key) == if key == slot.key then None else Lookup(s, key) {
      LookupDrop(s, {slot.key}, key);
    }
  }

  lemma ApplyKeeps(s: seq<Slot>, op: Op, limits: Limits)
    requires Distinct(s) && Total(s) <= limits.capacity
    ensures Distinct(Apply(s, op, limits)) && Total(Apply(s, op, limits)) <= limits.capacity
  {
    match op
    case Get(key, now) =>
      if Lookup(s, key).Some? {
        var slot := Slot(key, Lookup(s, key).value, now);
        Renew(s, slot);
        DropOneTotal(s, key);
        TotalConcat(Drop(s, {key}), [slot]);
      }
    case Put(key, data, now) =>
      Renew(s, Slot(key, data, now));
      FitKeeps(Drop(s, {key}) + [Slot(key, data, now)], limits.capacity);
    case Invalidate(keys) =>
      DropKeys(s, keys);
      DropShrinks(s, keys);
    case EvictIdle(now, idle) =>
      DropKeys(s, IdleKeys(s, now, idle));
      DropShrinks(s, IdleKeys(s, now, idle));
  }

  lemma {:induction false} DropShrinks(s: seq<Slot>, gone: set<TileKey>)
    ensures Total(Drop(s, gone)) <= Total(s)
  {
    if s != [] {
      DropShrinks(s[1..], gone);
      var d := Drop(s[1..], gone);
      assert ([s[0]] + d)[1..] == d;
    }
  }

  /** After any run the cache fits its capacity, holds no key twice, and answers each key with the data of its
      last admitted put or not at all. */
  lemma {:induction false} RunIsBoundedAndCurrent(ops: seq<Op>, limits: Limits)
    ensures Distinct(Run(ops, limits)) && Total(Run(ops, limits)) <= limits.capacity
    ensures forall key :: Lookup(Run(ops, limits), key).Some? ==>
                            Lookup(Run(ops, limits), key) == LastAdmitted(ops, key, limits)
  {
    if ops != [] {
      var prior, op := ops[..|ops| - 1], ops[|ops| - 1];
      RunIsBoundedAndCurrent(prior, limits);
      var s := Run(prior, limits);
      ApplyKeeps(s, op, limits);
      forall key | Lookup(Run(ops, limits), key).Some?
        ensures Lookup(Run(ops, limits), key) == LastAdmitted(ops, key, limits)
      {
        ApplyLookup(s, op, limits, key);
      }
    }
  }

  lemma ApplyLookup(s: seq<Slot>, op: Op, limits: Limits, key: TileKey)
    requires Distinct(s) && Lookup(Apply(s, op, limits), key).Some?
    ensures op.Put? && op.key == key && Admits(limits, op.data) ==>
              Lookup(Apply(s, op, limits), key) == Some(op.data)
    ensures !(op.Put? && op.key == key && Admits(limits, op.data)) ==>
              Lookup(Apply(s, op, limits), key) == Lookup(s, key) && !(op.Invalidate? && key in op.keys)
  {
    match op
    case Get(k, now) =>
      if Lookup(s, k).Some? { Renew(s, Slot(k, Lookup(s, k).value, now)); }
    case Put(k, data, now) =>
      Renew(s, Slot(k, data, now));
      FitKeeps(Drop(s, {k}) + [Slot(k, data, now)], limits.capacity);
    case Invalidate(keys) => LookupDrop(s, keys, key);
    case EvictIdle(now, idle) => LookupDrop(s, IdleKeys(s, now, idle), key);
  }

  /** A tile that fits is still resident right after its put: eviction takes older tiles only. */
  lemma FreshTileSurvives(s: seq<Slot>, key: TileKey, data: Bytes, now: nat, capacity: nat)
    requires Distinct(s)
    ensures Lookup(Insert(s, key, data, now, capacity), key) == if |data| <= capacity then Some(data) else None
  {
    var d := Drop(s, {key});
    var t := d + [Slot(key, data, now)];
    Renew(s, Slot(key, data, now));
    var cut := FitIsLongestSuffix(t, capacity);
    assert t[|d|..] == [Slot(key, data, now)];
    if |data| <= capacity {
      assert cut <= |d|;
      assert t[cut..] == d[cut..] + [Slot(key, data, now)];
      DropKeys(s, {key});
      SuffixKeys(d, cut);
      AppendSlot(d[cut..], Slot(key, data, now));
    } else {
      if cut <= |d| {
        assert t[cut..] == d[cut..] + [Slot(key, data, now)];
        TotalConcat(d[cut..], [Slot(key, data, now)]);
      }
      assert t[cut..] == [];
    }
  }

  lemma {:induction false} SuffixKeys(s: seq<Slot>, cut: nat)
    requires Distinct(s) && cut <= |s|
    ensures Distinct(s[cut..]) && Keys(s[cut..]) <= Keys(s)
  {
    if cut > 0 {
      SuffixKeys(s[1..], cut - 1);
      assert s[1..][cut - 1..] == s[cut..];
    }
  }
}
