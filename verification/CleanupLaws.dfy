/** What a cleanup leaves in place and what it takes, down to the ids for which the two can meet. */
module CleanupLaws {
  import opened Tiles
  import opened Paths
  import opened Cleanup
  import C = Catalog

  // The disk after some attempts

  /** The attempt that drops a database removes its parent, with nothing left below it. */
  predicate EmptiedBy(job: Job, disk: set<Path>, steps: seq<Attempt>, i: nat, p: Path)
    requires i < |steps|
  {
    && steps[i].hit && Empties(steps[i].target, p) && !job.failing(RemoveParent(p))
    && Bare(disk, Hits(steps[..i + 1]), p)
  }

  predicate Emptied(job: Job, disk: set<Path>, steps: seq<Attempt>, p: Path) {
    exists i :: 0 <= i < |steps| && EmptiedBy(job, disk, steps, i, p)
  }

  lemma EmptiedMore(job: Job, disk: set<Path>, steps: seq<Attempt>, n: nat, p: Path)
    requires |steps| == n + 1
    ensures Emptied(job, disk, steps, p) <==> Emptied(job, disk, steps[..n], p) || EmptiedBy(job, disk, steps, n, p)
  {
    hide Bare, Hits, Empties;
    forall i | 0 <= i < n ensures EmptiedBy(job, disk, steps[..n], i, p) <==> EmptiedBy(job, disk, steps, i, p) {
      assert steps[..n][..i + 1] == steps[..i + 1];
    }
  }

  lemma LastHit(steps: seq<Attempt>, n: nat)
    requires |steps| == n + 1
    ensures Hits(steps) == if steps[n].hit then Hits(steps[..n]) + {steps[n].target} else Hits(steps[..n])
    ensures steps[..n + 1] == steps
  {
    OneMore(steps[..n], steps[n]);
    assert steps[..n] + [steps[n]] == steps;
  }

  lemma CoversMore(hits: set<Target>, t: Target, p: Path)
    ensures Covers(hits + {t}, p) <==> Covers(hits, p) || Under(Directory(t), p)
  {
    hide Directory, Under;
    if Covers(hits, p) {
      var s :| s in hits && Under(Directory(s), p);
      assert s in hits + {t};
    }
    if Under(Directory(t), p) { assert t in hits + {t}; }
  }

  /** A path not on the first level is there exactly when it was and no target found covers it. */
  lemma {:induction false} DeepPath(job: Job, disk: set<Path>, steps: seq<Attempt>, p: Path)
    requires |p| != 1
    ensures p in DiskAfter(job, disk, steps) <==> p in disk && !Covers(Hits(steps), p)
  {
    hide Covers, Hits, Directory, Under, Bottom;
    if steps == [] {
      NoHits(p);
    } else {
      var n := |steps| - 1;
      DeepPath(job, disk, steps[..n], p);
      LastHit(steps, n);
      CoversMore(Hits(steps[..n]), steps[n].target, p);
    }
  }

  lemma NoHits(p: Path)
    ensures Hits([]) == {} && !Covers({}, p)
  {
  }

  lemma BelowIsLonger(p: Path, q: Path)
    ensures Under(p, q) && |q| <= |p| ==> p == q
  {
    if Under(p, q) && |q| <= |p| { assert p == q[..|p|]; }
  }

  /** Nothing is left below a parent exactly when everything that was is covered. */
  lemma BottomBare(job: Job, disk: set<Path>, steps: seq<Attempt>, n: nat, p: Path)
    requires |steps| == n + 1 && |p| == 1 && steps[n].hit
    ensures Bottom(WithoutTree(DiskAfter(job, disk, steps[..n]), Directory(steps[n].target)), p) <==> Bare(disk, Hits(steps), p)
  {
    hide Covers, Hits, Directory, DiskAfter;
    LastHit(steps, n);
    forall q | Under(p, q) && q != p
      ensures q in WithoutTree(DiskAfter(job, disk, steps[..n]), Directory(steps[n].target)) <==>
              q in disk && !Covers(Hits(steps), q)
    {
      BelowIsLonger(p, q);
      DeepPath(job, disk, steps[..n], q);
      CoversMore(Hits(steps[..n]), steps[n].target, q);
    }
  }

  /** A path is there exactly when it was, no target found covers it, and it is no parent that was emptied. */
  lemma {:induction false} PathAfter(job: Job, disk: set<Path>, steps: seq<Attempt>, p: Path)
    ensures p in DiskAfter(job, disk, steps) <==> p in disk && !Covers(Hits(steps), p) && !Emptied(job, disk, steps, p)
    ensures Emptied(job, disk, steps, p) ==> |p| == 1
  {
    hide Covers, Hits, Directory, Under, Bottom, Bare, WithoutTree;
    if steps == [] {
      NoHits(p);
    } else {
      var n := |steps| - 1;
      PathAfter(job, disk, steps[..n], p);
      LastHit(steps, n);
      EmptiedMore(job, disk, steps, n, p);
      CoversMore(Hits(steps[..n]), steps[n].target, p);
      if steps[n].hit {
        StepAfter(job, disk, steps, n, p);
      }
    }
  }

  lemma StepAfter(job: Job, disk: set<Path>, steps: seq<Attempt>, n: nat, p: Path)
    requires |steps| == n + 1 && steps[n].hit
    ensures var before := DiskAfter(job, disk, steps[..n]);
            p in WithoutTarget(job, before, steps[n].target) <==>
            p in before && !Under(Directory(steps[n].target), p) && !EmptiedBy(job, disk, steps, n, p)
    ensures EmptiedBy(job, disk, steps, n, p) ==> |p| == 1
  {
    hide Directory, Under, Bottom, Bare, DiskAfter;
    LastHit(steps, n);
    var t := steps[n].target;
    if t.Whole? { BottomBare(job, disk, steps, n, [Head(t.database)]); }
  }

  // What is found

  /** On every exit, a directory that was found was there at the start, with valid ids, and could be looked at. */
  lemma HitsThere(job: Job, disk: set<Path>, steps: seq<Attempt>, t: Target)
    requires Played(job, disk, steps) && t in Hits(steps)
    ensures ValidTarget(t) && Directory(t) in disk && !job.failing(Stat(Directory(t)))
  {
    hide DiskAfter, Directory, ValidTarget;
    var i :| 0 <= i < |steps| && steps[i].hit && steps[i].target == t;
    PathAfter(job, disk, steps[..i], Directory(t));
  }

  lemma HitsPrefix(steps: seq<Attempt>, i: nat)
    requires i <= |steps|
    ensures Hits(steps[..i]) <= Hits(steps)
  {
    forall t | t in Hits(steps[..i]) ensures t in Hits(steps) {
      var j :| 0 <= j < |steps[..i]| && steps[..i][j].hit && steps[..i][j].target == t;
      assert steps[j].hit && steps[j].target == t;
    }
  }

  lemma CoversMonotone(hits: set<Target>, hits': set<Target>, p: Path)
    requires hits <= hits' && Covers(hits, p)
    ensures Covers(hits', p)
  {
  }

  lemma CoversBelow(hits: set<Target>, p: Path, q: Path)
    requires Covers(hits, p) && Under(p, q)
    ensures Covers(hits, q)
  {
    hide Directory;
    var t :| t in hits && Under(Directory(t), p);
    assert Under(Directory(t), q);
  }

  /** A tried target whose directory can be looked at covers what was below it, itself or through a target that was
      found before it. */
  lemma TriedCovers(job: Job, disk: set<Path>, steps: seq<Attempt>, t: Target, p: Path)
    requires Played(job, disk, steps) && t in Tried(steps) && ValidTarget(t) && !job.failing(Stat(Directory(t)))
    requires Closed(disk) && p in disk && |p| > 1 && Under(Directory(t), p)
    ensures Covers(Hits(steps), p)
  {
    var directory := Directory(t);
    assert directory == p[..|directory|] && directory != [];
    assert directory in disk;
    hide Directory, DiskAfter, ValidTarget, Closed;
    var i :| 0 <= i < |steps| && steps[i].target == t;
    if steps[i].hit {
      assert t in Hits(steps);
    } else {
      HitsPrefix(steps, i);
      PathAfter(job, disk, steps[..i], directory);
      if Covers(Hits(steps[..i]), directory) {
        CoversBelow(Hits(steps[..i]), directory, p);
      } else {
        EmptiedCovers(job, disk, steps[..i], directory, p);
      }
      CoversMonotone(Hits(steps[..i]), Hits(steps), p);
    }
  }

  /** Whatever was below an emptied parent is covered. */
  lemma EmptiedCovers(job: Job, disk: set<Path>, steps: seq<Attempt>, p: Path, q: Path)
    requires Emptied(job, disk, steps, p) && q in disk && q != p && Under(p, q)
    ensures Covers(Hits(steps), q)
  {
    hide Hits, Covers, Under;
    var i :| 0 <= i < |steps| && EmptiedBy(job, disk, steps, i, p);
    HitsPrefix(steps, i + 1);
    CoversMonotone(Hits(steps[..i + 1]), Hits(steps), q);
  }

  // Which targets

  /** Targets that follow from the catalog at the start alone. */
  predicate Due(start: World, expired: set<string>, t: Target) {
    Permitted(start, expired, t) && (t.Layer? ==> t.layer in start.cat.layers)
  }

  /** A whole database is due when it was last used before the cutoff and neither it nor one of its layers is protected. */
  lemma DatabaseDueExactly(start: World, listed: seq<Listed>, cutoff: int, d: string)
    ensures Due(start, Set(Expired(listed, cutoff)), Whole(d)) <==>
            && LastUsedBefore(listed, cutoff, d)
            && (d in start.cat.databases ==> start.cat.databases[d].revocable)
            && forall k :: k in start.cat.layers && k.database == d ==> start.cat.layers[k].revocable
  {
    hide C.Touched, LastUsedBefore;
    ExpiredMember(listed, cutoff, d);
  }

  /** An unprotected layer is due when its database was last used before the cutoff and something else in it is
      protected. */
  lemma LayerDueExactly(start: World, listed: seq<Listed>, cutoff: int, k: C.LayerKey)
    ensures Due(start, Set(Expired(listed, cutoff)), Layer(k)) <==>
            && LastUsedBefore(listed, cutoff, k.database)
            && k in start.cat.layers && start.cat.layers[k].revocable
            && ((k.database in start.cat.databases && !start.cat.databases[k.database].revocable)
                || exists l :: l in start.cat.layers && l.database == k.database && !start.cat.layers[l].revocable)
  {
    hide C.Touched, LastUsedBefore;
    ExpiredMember(listed, cutoff, k.database);
  }

  /** No pending put creates a layer in an expired database that stays. */
  predicate NoNewLayers(start: World, expired: set<string>) {
    forall k :: k in C.Touched(start.pending) && k.database in expired && Guarded(start.cat, k.database) ==>
                  k in start.cat.layers
  }

  /** Of two turns of a success the earlier is that of the earlier candidate, or both are turns of one. */
  lemma TurnsInOrder(
    job: Job, start: World, candidates: seq<string>, steps: seq<Attempt>, after: World, i: nat, j: nat)
    returns (a: nat, b: nat)
    requires Complete(job, start, candidates, steps, after) && i < j < |steps|
    ensures a <= b < |candidates|
    ensures DatabaseOf(steps[i].target) == candidates[a] && DatabaseOf(steps[j].target) == candidates[b]
  {
    hide HandledTo, Played, DiskAfter, Guarded, ProtectedLayer, Cleared, AllValid, DatabaseOf;
    a := CandidateOf(start, candidates, steps, i);
    b := CandidateOf(start, candidates, steps, j);
  }

  lemma CandidateOf(start: World, candidates: seq<string>, steps: seq<Attempt>, i: nat) returns (a: nat)
    requires AllPermitted(start, Set(candidates), Tried(steps)) && i < |steps|
    ensures a < |candidates| && DatabaseOf(steps[i].target) == candidates[a]
  {
    hide Guarded, ProtectedLayer;
    assert steps[i].target in Tried(steps);
    assert Permitted(start, Set(candidates), steps[i].target);
    a :| a < |candidates| && candidates[a] == DatabaseOf(steps[i].target);
  }

  /** A successful cleanup has gone about all targets that are due, and about no others unless pending puts create
      layers in databases that stay. */
  lemma DoneExactly(job: Job, start: World, candidates: seq<string>, steps: seq<Attempt>, after: World, t: Target)
    requires Complete(job, start, candidates, steps, after)
    ensures Due(start, Set(candidates), t) ==> t in Tried(steps)
    ensures t in Tried(steps) ==> Permitted(start, Set(candidates), t) && ValidTarget(t)
    ensures NoNewLayers(start, Set(candidates)) ==> (t in Tried(steps) <==> Due(start, Set(candidates), t))
  {
    hide C.Touched, Guarded, Cleared, Played, DiskAfter, Tried, Hits, ValidTarget, InOrder;
    if Due(start, Set(candidates), t) {
      var i :| 0 <= i < |candidates| && candidates[i] == DatabaseOf(t);
      assert Handled(start, Tried(steps), candidates[i]);
    }
  }

  /** A due target whose directory can be looked at. */
  predicate Effective(job: Job, start: World, expired: set<string>, t: Target) {
    Due(start, expired, t) && !job.failing(Stat(Directory(t)))
  }

  /** After a success the paths that are covered are those below the directories of the effective targets. */
  lemma CoveredExactly(job: Job, start: World, candidates: seq<string>, steps: seq<Attempt>, after: World, p: Path)
    requires Complete(job, start, candidates, steps, after) && NoNewLayers(start, Set(candidates))
    requires Closed(start.disk) && p in start.disk && |p| > 1
    ensures Covers(Hits(steps), p) <==> exists t :: Effective(job, start, Set(candidates), t) && Under(Directory(t), p)
  {
    CompletePlayed(job, start, candidates, steps, after);
    hide Complete, Played, Due, NoNewLayers, Set, Directory, Under, Closed, ValidTarget, Permitted;
    if Covers(Hits(steps), p) {
      var t :| t in Hits(steps) && Under(Directory(t), p);
      HitsThere(job, start.disk, steps, t);
      OneMore(steps, Attempt(t, false));
      DoneExactly(job, start, candidates, steps, after, t);
      assert Effective(job, start, Set(candidates), t);
    }
    if t :| Effective(job, start, Set(candidates), t) && Under(Directory(t), p) {
      DoneExactly(job, start, candidates, steps, after, t);
      TriedCovers(job, start.disk, steps, t, p);
    }
  }

  lemma CompletePlayed(job: Job, start: World, candidates: seq<string>, steps: seq<Attempt>, after: World)
    requires Complete(job, start, candidates, steps, after)
    ensures Played(job, start.disk, steps) && after.disk == DiskAfter(job, start.disk, steps)
    ensures Cleared(Hits(steps), after.cat)
  {
  }

  // Catalog rows

  /** On every exit the rows of unlicensed layers and databases are there, and those that no pending put concerns are
      as they were. */
  lemma UnlicensedRowsStay(
    job: Job, start: World, expired: set<string>, steps: seq<Attempt>, w: World, d: string, k: C.LayerKey)
    requires Faithful(job, start, Hits(steps), w) && AllPermitted(start, expired, Tried(steps))
    ensures d in start.cat.databases && (d !in expired || Guarded(start.cat, d)) ==> d in w.cat.databases
    ensures d in start.cat.databases && d !in expired && d !in C.DatabasesOf(C.Touched(start.pending)) ==>
              d in w.cat.databases && w.cat.databases[d] == start.cat.databases[d]
    ensures k in start.cat.layers && (k.database !in expired || ProtectedLayer(start.cat, k)) ==> k in w.cat.layers
    ensures k in start.cat.layers && (k.database !in expired || ProtectedLayer(start.cat, k)) ==>
              k !in C.Touched(start.pending) ==> w.cat.layers[k] == start.cat.layers[k]
    ensures ProtectedLayer(start.cat, k) ==> ProtectedLayer(w.cat, k)
  {
    hide C.Touched, C.DatabasesOf, DiskFaithful, SumsFaithful, PendingFaithful, Hits, Tried;
    var hits := Hits(steps);
    OneMore(steps, Attempt(Whole(d), false));
    assert DatabaseFaithful(start, hits, w.cat, d) && LayerFaithful(start, hits, w.cat, k);
    assert ProtectedLayer(start.cat, k) <==> ProtectedLayer(w.cat, k);
    hide SameProtection;
    forall t | t in hits ensures DatabaseOf(t) in expired { assert Permitted(start, expired, t); }
    if Whole(d) in hits { assert Permitted(start, expired, Whole(d)); }
    if Whole(k.database) in hits { assert Permitted(start, expired, Whole(k.database)); }
    if Layer(k) in hits { assert Permitted(start, expired, Layer(k)); }
  }

  /** On every exit the rows stay whose directories were not there, expired or not: the row of a database without a
      directory, and the row of a layer when neither its own directory nor that of its database was there. */
  lemma AbsentRowsStay(job: Job, start: World, steps: seq<Attempt>, w: World, d: string, k: C.LayerKey)
    requires Faithful(job, start, Hits(steps), w) && Played(job, start.disk, steps)
    ensures d in start.cat.databases && DatabaseDirectory(d) !in start.disk ==> d in w.cat.databases
    ensures k in start.cat.layers ==>
              || k in w.cat.layers
              || DatabaseDirectory(k.database) in start.disk || ItemDirectory(k.database, k.item) in start.disk
  {
    hide C.Touched, C.DatabasesOf, DiskFaithful, SumsFaithful, PendingFaithful, SameProtection, Hits, Played,
      DatabaseDirectory, ItemDirectory, ValidTarget;
    var hits := Hits(steps);
    assert DatabaseFaithful(start, hits, w.cat, d) && LayerFaithful(start, hits, w.cat, k);
    if Whole(d) in hits { HitsThere(job, start.disk, steps, Whole(d)); }
    if Whole(k.database) in hits { HitsThere(job, start.disk, steps, Whole(k.database)); }
    if Layer(k) in hits { HitsThere(job, start.disk, steps, Layer(k)); }
  }

  // Paths

  /** After a success a path is there exactly when it was, no target that was found covers it, and it is not a parent
      that lost all that was below it with the drop of a database. */
  lemma SurvivesExactly(job: Job, start: World, candidates: seq<string>, steps: seq<Attempt>, after: World, p: Path)
    requires Complete(job, start, candidates, steps, after)
    ensures p in after.disk <==>
            p in start.disk && !Covers(Hits(steps), p) && !Emptied(job, start.disk, steps, p)
  {
    CompletePlayed(job, start, candidates, steps, after);
    PathAfter(job, start.disk, steps, p);
  }

  /** Whether a target takes the shard file of a tile, as the ids say. */
  predicate TargetReaches(t: Target, key: TileKey)
    requires TileAddress(key).Ok?
  {
    match t
    case Whole(d) => DatabaseReaches(d, key)
    case Layer(k) => ItemReaches(k.database, k.item, key)
  }

  lemma TargetUnder(t: Target, key: TileKey)
    requires TileAddress(key).Ok?
    ensures Under(Directory(t), TileAddress(key).value.shardFile) <==> TargetReaches(t, key)
  {
    match t
    case Whole(d) => ShardOwnership(key, d, key.item);
    case Layer(k) => ShardOwnership(key, k.database, k.item);
  }

  function LayerKeyOf(key: TileKey): C.LayerKey { C.LayerKey(key.database, key.item) }

  /** The tile belongs to a protected layer or to a database that has not expired: no target of its own ids may be
      removed. */
  predicate Shielded(start: World, expired: set<string>, key: TileKey) {
    ProtectedLayer(start.cat, LayerKeyOf(key)) || key.database !in expired
  }

  lemma NotItsOwnTarget(start: World, expired: set<string>, key: TileKey)
    requires Shielded(start, expired, key)
    ensures !Permitted(start, expired, Whole(key.database)) && !Permitted(start, expired, Layer(LayerKeyOf(key)))
  {
  }

  /** No permitted target reaches the tile. */
  ghost predicate Apart(start: World, expired: set<string>, key: TileKey)
    requires TileAddress(key).Ok?
  {
    forall t :: Permitted(start, expired, t) ==> !TargetReaches(t, key)
  }

  /** A path not on the first level that no permitted target covers stays on every exit. */
  lemma UncoveredStays(job: Job, start: World, expired: set<string>, steps: seq<Attempt>, w: World, p: Path)
    requires Faithful(job, start, Hits(steps), w) && AllPermitted(start, expired, Tried(steps))
    requires p in start.disk && |p| > 1 && forall t :: Permitted(start, expired, t) ==> !Under(Directory(t), p)
    ensures p in w.disk
  {
    hide RowsFaithful, SumsFaithful, Directory, Under, Permitted, Hits, Tried, Bare;
    OneMore(steps, Attempt(Whole(""), false));
    assert p in w.disk || Gone(start, Hits(steps), p);
  }

  /** On every exit, also the early ones, the shards of a layer stay that no permitted target reaches. */
  lemma ApartTileStays(job: Job, start: World, expired: set<string>, steps: seq<Attempt>, w: World, key: TileKey)
    requires Faithful(job, start, Hits(steps), w) && AllPermitted(start, expired, Tried(steps))
    requires TileAddress(key).Ok? && TileAddress(key).value.shardFile in start.disk && Apart(start, expired, key)
    ensures TileAddress(key).value.shardFile in w.disk
  {
    hide TileAddress, Faithful, Directory, Under, Permitted, TargetReaches, AllPermitted;
    var file := TileAddress(key).value.shardFile;
    ShardIsDeep(key);
    forall t | Permitted(start, expired, t) ensures !Under(Directory(t), file) { TargetUnder(t, key); }
    UncoveredStays(job, start, expired, steps, w, file);
  }

  /** After a success, for a tile of any layer whatever its protection: its shard file survives exactly when no due
      target reaches it whose directory could be looked at. For a shielded tile such a target has other ids. */
  lemma TileSurvivesExactly(
    job: Job, start: World, candidates: seq<string>, steps: seq<Attempt>, after: World, key: TileKey)
    requires Complete(job, start, candidates, steps, after)
    requires Closed(start.disk) && NoNewLayers(start, Set(candidates))
    requires TileAddress(key).Ok? && TileAddress(key).value.shardFile in start.disk
    ensures TileAddress(key).value.shardFile in after.disk <==>
            forall t :: Effective(job, start, Set(candidates), t) ==> !TargetReaches(t, key)
    ensures Shielded(start, Set(candidates), key) ==>
              forall t :: Due(start, Set(candidates), t) ==> t != Whole(key.database) && t != Layer(LayerKeyOf(key))
  {
    hide TileAddress, Complete, Directory, Under, TargetReaches, Due, NoNewLayers, Set, Effective, Closed, Covers, Hits,
      DiskAfter, Shielded, LayerKeyOf;
    var file := TileAddress(key).value.shardFile;
    ShardIsDeep(key);
    CompletePlayed(job, start, candidates, steps, after);
    DeepPath(job, start.disk, steps, file);
    CoveredExactly(job, start, candidates, steps, after, file);
    forall t ensures Under(Directory(t), file) <==> TargetReaches(t, key) { TargetUnder(t, key); }
    if Shielded(start, Set(candidates), key) { ShieldedNotDue(start, Set(candidates), key); }
  }

  lemma ShardIsDeep(key: TileKey)
    requires TileAddress(key).Ok?
    ensures |TileAddress(key).value.shardFile| > 1
  {
  }

  lemma ShieldedNotDue(start: World, expired: set<string>, key: TileKey)
    requires Shielded(start, expired, key)
    ensures forall t :: Due(start, expired, t) ==> t != Whole(key.database) && t != Layer(LayerKeyOf(key))
  {
    hide Permitted, Shielded;
    NotItsOwnTarget(start, expired, key);
  }

  /** Ids longer than four characters never meet: a shielded tile stays apart. */
  lemma LongIdsApart(start: World, expired: set<string>, key: TileKey)
    requires TileAddress(key).Ok? && LongIds(key) && Shielded(start, expired, key)
    requires forall t :: Permitted(start, expired, t) ==>
                           LongId(DatabaseOf(t)) && (t.Layer? ==> LongId(t.layer.item))
    ensures Apart(start, expired, key)
  {
    NotItsOwnTarget(start, expired, key);
    hide Permitted, Shielded, TileAddress;
    forall t | Permitted(start, expired, t) ensures !TargetReaches(t, key) {
      match t
      case Whole(d) => ShardOwnership(key, d, key.item);
      case Layer(k) =>
        ShardOwnership(key, k.database, k.item);
        assert C.LayerKey(k.database, k.item) == k;
    }
  }

  // Databases

  const MARKER := ".tile-cache-access"

  /** The access marker of a database, by which the listing finds it. */
  function MarkerPath(database: string): Path { DatabaseDirectory(database) + [MARKER] }

  /** When a target covers the directory of a database. */
  predicate TargetOverlaps(t: Target, database: string) {
    match t
    case Whole(d) => Overlaps(d, database)
    case Layer(k) => LongId(database) && k.database == database[..4] && k.item == database[4..] && !LongId(k.item)
  }

  lemma TargetUnderDatabase(t: Target, database: string)
    ensures Under(Directory(t), DatabaseDirectory(database)) <==> TargetOverlaps(t, database)
  {
    match t
    case Whole(d) => DatabaseDirectoriesNest(d, database);
    case Layer(k) =>
      IdUnder(k.database, IdPath(k.item), database, []);
      assert IdPath(database) + [] == IdPath(database);
      if LongId(database) && !LongId(k.database) {
        UnderCons(k.item, [], database[4..], []);
        assert if LongId(k.item) then |IdPath(k.item)| == 2 else [k.item] + [] == IdPath(k.item);
      }
  }

  lemma IdLevels(id: string, i: nat)
    requires ValidId(id) && i < |IdPath(id)|
    ensures IdPath(id)[i] != MARKER
  {
    var at := if |id| > 4 && i == 1 then 4 else 0;
    assert IdPath(id)[i][0] == id[at] && MARKER[0] == '.';
  }

  /** No valid id names the marker: a target that covers it covers the directory it is in. */
  lemma MarkerCovered(t: Target, database: string)
    requires ValidTarget(t)
    ensures Under(Directory(t), MarkerPath(database)) <==> Under(Directory(t), DatabaseDirectory(database))
  {
    var p, q := Directory(t), MarkerPath(database);
    if Under(p, q) && |p| == |q| {
      assert p[|p| - 1] == MARKER;
      match t {
        case Whole(d) => IdLevels(d, |p| - 1);
        case Layer(k) => IdLevels(k.item, |IdPath(k.item)| - 1);
      }
    }
    if Under(p, q) && |p| < |q| { assert p == q[..|p|] == DatabaseDirectory(database)[..|p|]; }
  }

  lemma CoversMarker(job: Job, disk: set<Path>, steps: seq<Attempt>, database: string)
    requires Played(job, disk, steps)
    ensures Covers(Hits(steps), MarkerPath(database)) <==> Covers(Hits(steps), DatabaseDirectory(database))
  {
    hide Played, Hits, Under, Directory, MarkerPath, DatabaseDirectory, ValidTarget;
    forall t | t in Hits(steps)
      ensures Under(Directory(t), MarkerPath(database)) <==> Under(Directory(t), DatabaseDirectory(database))
    {
      HitsThere(job, disk, steps, t);
      MarkerCovered(t, database);
    }
  }

  /** The directory of a database with a marker is never removed as an empty parent. */
  lemma MarkedAfter(job: Job, disk: set<Path>, steps: seq<Attempt>, database: string)
    requires Played(job, disk, steps) && Closed(disk) && MarkerPath(database) in disk
    ensures DatabaseDirectory(database) in disk
    ensures DatabaseDirectory(database) in DiskAfter(job, disk, steps) <==>
            !Covers(Hits(steps), DatabaseDirectory(database))
  {
    var p, q := DatabaseDirectory(database), MarkerPath(database);
    assert p == q[..|p|] && Under(p, q);
    hide Played, Closed, Hits, Covers, Directory, Under, Emptied, MarkerPath, DatabaseDirectory, DiskAfter;
    PathAfter(job, disk, steps, p);
    CoversMarker(job, disk, steps, database);
    if Emptied(job, disk, steps, p) { EmptiedCovers(job, disk, steps, p, q); }
  }

  /** On every exit a database directory with a marker stays that no permitted target overlaps. */
  lemma ApartDatabaseStays(
    job: Job, start: World, expired: set<string>, steps: seq<Attempt>, w: World, database: string)
    requires Faithful(job, start, Hits(steps), w) && AllPermitted(start, expired, Tried(steps))
    requires Played(job, start.disk, steps) && Closed(start.disk) && MarkerPath(database) in start.disk
    requires forall t :: Permitted(start, expired, t) ==> !TargetOverlaps(t, database)
    ensures DatabaseDirectory(database) in w.disk
  {
    var p, q := DatabaseDirectory(database), MarkerPath(database);
    assert p == q[..|p|] && Under(p, q) && p != q && p in start.disk;
    hide RowsFaithful, SumsFaithful, Directory, Under, Permitted, TargetOverlaps, Hits, Tried, Played, Closed, Empties,
      DatabaseDirectory, MarkerPath;
    OneMore(steps, Attempt(Whole(""), false));
    forall t | t in Hits(steps) ensures !Under(Directory(t), p) {
      assert Permitted(start, expired, t);
      TargetUnderDatabase(t, database);
    }
    CoversMarker(job, start.disk, steps, database);
    assert p in w.disk || Gone(start, Hits(steps), p);
  }

  /** After a success the directory of a database with a marker survives exactly when no due target overlaps it whose
      directory could be looked at. */
  lemma DatabaseSurvivesExactly(
    job: Job, start: World, candidates: seq<string>, steps: seq<Attempt>, after: World, database: string)
    requires Complete(job, start, candidates, steps, after)
    requires Closed(start.disk) && NoNewLayers(start, Set(candidates)) && MarkerPath(database) in start.disk
    ensures DatabaseDirectory(database) in after.disk <==>
            forall t :: Effective(job, start, Set(candidates), t) ==> !TargetOverlaps(t, database)
  {
    var q := MarkerPath(database);
    assert |q| > 1;
    hide Complete, Directory, Under, TargetOverlaps, Due, NoNewLayers, Set, Closed, Covers, Played, MarkerPath,
      DatabaseDirectory, ValidTarget, Hits, Tried;
    CompletePlayed(job, start, candidates, steps, after);
    MarkedAfter(job, start.disk, steps, database);
    CoversMarker(job, start.disk, steps, database);
    CoveredExactly(job, start, candidates, steps, after, q);
    forall t | Effective(job, start, Set(candidates), t)
      ensures Under(Directory(t), q) <==> TargetOverlaps(t, database)
    {
      DoneExactly(job, start, candidates, steps, after, t);
      MarkerCovered(t, database);
      TargetUnderDatabase(t, database);
    }
  }

  /** A due target whose directory was there and could be looked at was dropped, rows and all, if no other target covers
      its directory. */
  lemma LoneTargetDropped(
    job: Job, start: World, candidates: seq<string>, steps: seq<Attempt>, after: World, t: Target)
    requires Complete(job, start, candidates, steps, after) && Effective(job, start, Set(candidates), t)
    requires Closed(start.disk) && Directory(t) in start.disk && (t.Whole? ==> MarkerPath(t.database) in start.disk)
    requires forall s :: Permitted(start, Set(candidates), s) && s != t ==> !Under(Directory(s), Directory(t))
    ensures t in Hits(steps) && forall p :: p in after.disk ==> !Under(Directory(t), p)
    ensures t.Whole? ==> t.database !in after.cat.databases && forall k :: k in after.cat.layers ==> k.database != t.database
    ensures t.Layer? ==> t.layer !in after.cat.layers
  {
    CompletePlayed(job, start, candidates, steps, after);
    hide Complete, Due, Set, Closed, Played, MarkerPath, ValidTarget, Permitted, Hits, Tried, Under, Directory;
    DoneExactly(job, start, candidates, steps, after, t);
    TargetFound(job, start, candidates, steps, after, t);
    assert RowsGone(t, after.cat);
    forall p | p in after.disk ensures !Under(Directory(t), p) {
      SurvivesExactly(job, start, candidates, steps, after, p);
    }
  }

  lemma TargetFound(
    job: Job, start: World, candidates: seq<string>, steps: seq<Attempt>, after: World, t: Target)
    requires Complete(job, start, candidates, steps, after) && t in Tried(steps) && !job.failing(Stat(Directory(t)))
    requires Closed(start.disk) && Directory(t) in start.disk && (t.Whole? ==> MarkerPath(t.database) in start.disk)
    requires forall s :: Permitted(start, Set(candidates), s) && s != t ==> !Under(Directory(s), Directory(t))
    ensures t in Hits(steps)
  {
    CompletePlayed(job, start, candidates, steps, after);
    DoneExactly(job, start, candidates, steps, after, t);
    var i :| 0 <= i < |steps| && steps[i].target == t;
    assert t.Layer? ==> |Directory(t)| > 1;
    hide Complete, Due, Set, Closed, MarkerPath, ValidTarget, Permitted, Tried, Under, DiskAfter;
    if !steps[i].hit {
      HitsPrefix(steps, i);
      PathAfter(job, start.disk, steps[..i], Directory(t));
      if t.Whole? { PrefixPlayed(job, start.disk, steps, i); MarkedAfter(job, start.disk, steps[..i], t.database); }
      assert Covers(Hits(steps[..i]), Directory(t));
      var s :| s in Hits(steps[..i]) && Under(Directory(s), Directory(t));
      OneMore(steps, Attempt(s, false));
      DoneExactly(job, start, candidates, steps, after, s);
      assert s == t;
    }
  }

  lemma PrefixPlayed(job: Job, disk: set<Path>, steps: seq<Attempt>, i: nat)
    requires Played(job, disk, steps) && i <= |steps|
    ensures Played(job, disk, steps[..i])
  {
    hide Present, DiskAfter;
    forall j | 0 <= j < i
      ensures steps[..i][j].hit <==> Present(job, DiskAfter(job, disk, steps[..i][..j]), steps[..i][j].target)
    {
      assert steps[..i][..j] == steps[..j];
    }
  }

  /** The first level of a dropped database goes with it when nothing else was below it. */
  lemma EmptyParentGoes(
    job: Job, start: World, candidates: seq<string>, steps: seq<Attempt>, after: World, d: string)
    requires Complete(job, start, candidates, steps, after) && Whole(d) in Hits(steps) && LongId(d)
    requires forall p :: p in start.disk && Under([Head(d)], p) ==> p == [Head(d)] || Under(DatabaseDirectory(d), p)
    ensures [Head(d)] in after.disk ==> job.failing(RemoveParent([Head(d)]))
  {
    hide Complete, Covers;
    var h := [Head(d)];
    var i :| 0 <= i < |steps| && steps[i].hit && steps[i].target == Whole(d);
    SurvivesExactly(job, start, candidates, steps, after, h);
    assert steps[..i + 1][i] == steps[i];
    assert Whole(d) in Hits(steps[..i + 1]);
    hide Hits;
    forall q | q in start.disk && q != h && Under(h, q) ensures Covers(Hits(steps[..i + 1]), q) {
      CoversIf(Hits(steps[..i + 1]), Whole(d), q);
    }
    if !job.failing(RemoveParent(h)) { assert EmptiedBy(job, start.disk, steps, i, h); }
  }

  lemma CoversIf(hits: set<Target>, t: Target, p: Path)
    requires t in hits && Under(Directory(t), p)
    ensures Covers(hits, p)
  {
  }

  // The number

  /** The candidates that nothing protects and whose directories can be looked at. */
  function Droppable(job: Job, start: World, candidates: seq<string>): set<string> {
    set d | d in Set(candidates) && !Guarded(start.cat, d) && !job.failing(Stat(DatabaseDirectory(d)))
  }

  /** With ids of databases longer than four characters the number that a cleanup returns is that of the expired
      databases that nothing protects and whose directories can be looked at. */
  lemma CountExactly(
    job: Job, start: World, listed: seq<Listed>, cutoff: int,
    result: Result<nat, CleanupError>, after: World, candidates: seq<string>, steps: seq<Attempt>)
    requires Outcome(job, start, listed, cutoff, result, after, candidates, steps) && result.Ok?
    requires Closed(start.disk) && forall d :: d in Set(candidates) ==> LongId(d) && MarkerPath(d) in start.disk
    ensures result.value == |Droppable(job, start, candidates)|
  {
    hide Faithful, AllPermitted, Expired, Closed, Set, Wholes, Hits, Droppable, Complete, MarkerPath, Played;
    forall d ensures d in Wholes(Hits(steps)) <==> d in Droppable(job, start, candidates) {
      DroppedExactly(job, start, candidates, steps, after, d);
    }
    assert Wholes(Hits(steps)) == Droppable(job, start, candidates);
  }

  lemma DroppedExactly(
    job: Job, start: World, candidates: seq<string>, steps: seq<Attempt>, after: World, d: string)
    requires Complete(job, start, candidates, steps, after)
    requires Closed(start.disk) && forall e :: e in Set(candidates) ==> LongId(e) && MarkerPath(e) in start.disk
    ensures d in Wholes(Hits(steps)) <==> d in Droppable(job, start, candidates)
  {
    hide Complete, Closed, Set, Hits, Tried, MarkerPath, Played, Guarded, DatabaseDirectory;
    var t := Whole(d);
    CompletePlayed(job, start, candidates, steps, after);
    DoneExactly(job, start, candidates, steps, after, t);
    OneMore(steps, Attempt(t, false));
    if t in Hits(steps) {
      HitsThere(job, start.disk, steps, t);
    }
    if d in Droppable(job, start, candidates) {
      MarkedAfter(job, start.disk, steps, d);
      assert Due(start, Set(candidates), t);
      forall s | Permitted(start, Set(candidates), s) && s != t ensures !Under(Directory(s), Directory(t)) {
        TargetUnderDatabase(s, d);
      }
      TargetFound(job, start, candidates, steps, after, t);
    }
  }

  // The run in which protection fails

  function Database(revocable: bool): C.DatabaseRow { C.DatabaseRow("", "", 0, 0, 0, None, 0, revocable) }

  const OUTER := "abcd"
  const INNER := "abcdefgh"

  /** An expired database of four characters without protection, beside a protected one that has just been used. */
  function Overlapping(): World {
    World(
      {[OUTER], [OUTER, MARKER], [OUTER, "efgh"], [OUTER, "efgh", MARKER]},
      C.Catalog(map[OUTER := Database(true), INNER := Database(false)], map[]), [])
  }

  function OverlappingListed(): seq<Listed> { [Listed(OUTER, Some(0)), Listed(INNER, Some(100))] }

  lemma OverlappingPaths()
    ensures DatabaseDirectory(OUTER) == [OUTER] && DatabaseDirectory(INNER) == [OUTER, "efgh"]
    ensures MarkerPath(OUTER) == [OUTER, MARKER] && MarkerPath(INNER) == [OUTER, "efgh", MARKER]
    ensures Overlaps(OUTER, INNER) && Closed(Overlapping().disk)
  {
    assert INNER[..4] == OUTER && INNER[4..] == "efgh";
    var disk, last := Overlapping().disk, [OUTER, "efgh", MARKER];
    assert last[..1] == [OUTER] && last[..2] == [OUTER, "efgh"] && last[..3] == last;
    assert [OUTER, MARKER][..1] == [OUTER] && [OUTER, "efgh"][..1] == [OUTER];
    forall p, n | p in disk && 0 < n <= |p| ensures p[..n] in disk {
      if n == |p| { assert p[..n] == p; }
    }
  }

  lemma OverlappingTargets(t: Target)
    ensures Permitted(Overlapping(), {OUTER}, t) <==> t == Whole(OUTER)
    ensures ProtectedDatabase(Overlapping().cat, INNER) && !Guarded(Overlapping().cat, OUTER)
    ensures NoNewLayers(Overlapping(), {OUTER})
  {
  }

  lemma TwoListed()
    ensures Expired(OverlappingListed(), 50) == [OUTER] && Distinct(OverlappingListed())
  {
    var listed := OverlappingListed();
    assert listed[..1] == [listed[0]] && listed[..1][..0] == [];
    assert Expired(listed[..1], 50) == [OUTER];
  }

  /** Nothing fails, one database is dropped as it should be, and with it go the files of the protected one, whose row
      stays. */
  lemma ShortIdTakesProtected(
    job: Job, result: Result<nat, CleanupError>, after: World, candidates: seq<string>, steps: seq<Attempt>)
    requires Outcome(job, Overlapping(), OverlappingListed(), 50, result, after, candidates, steps)
    requires forall op :: !job.failing(op)
    ensures result.Ok? && ProtectedDatabase(Overlapping().cat, INNER) && DatabaseDirectory(INNER) in Overlapping().disk
    ensures ProtectedDatabase(after.cat, INNER) && DatabaseDirectory(INNER) !in after.disk
  {
    hide Expired, Overlapping, Complete, Faithful, Played, Permitted, Set, Hits, Tried, MarkerPath, ProtectedDatabase,
      Closed, AllPermitted, ValidTarget, DatabaseDirectory, Wholes;
    TwoListed();
    OverlappingPaths();
    OneCandidate(candidates);
    forall t ensures Permitted(Overlapping(), {OUTER}, t) <==> t == Whole(OUTER) { OverlappingTargets(t); }
    OverlappingDisk();
    ValidOuter();
    OverlappingTargets(Whole(OUTER));
    FaithfulProtection(job, Overlapping(), Hits(steps), after);
    assert Due(Overlapping(), {OUTER}, Whole(OUTER)) && TargetOverlaps(Whole(OUTER), INNER);
    assert Effective(job, Overlapping(), {OUTER}, Whole(OUTER));
    DatabaseSurvivesExactly(job, Overlapping(), candidates, steps, after, INNER);
  }

  lemma OneCandidate(candidates: seq<string>)
    ensures candidates == [OUTER] ==> Set(candidates) == {OUTER}
  {
  }

  lemma ValidOuter()
    ensures ValidTarget(Whole(OUTER))
  {
  }

  lemma OverlappingDisk()
    ensures MarkerPath(INNER) in Overlapping().disk && DatabaseDirectory(INNER) in Overlapping().disk
  {
    OverlappingPaths();
  }
}
