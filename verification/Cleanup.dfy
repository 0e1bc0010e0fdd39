/** Expired databases are removed, protected ones are not, whatever fails on the way. */
module Cleanup {
  import opened Tiles
  import opened Paths
  import C = Catalog
  import L = CatalogLaws

  /** Everything that exists below the root, the catalog rows, and the puts that no flush has written yet. */
  datatype World = World(disk: set<Path>, cat: C.Catalog, pending: seq<C.CatalogPut>)

  datatype CleanupError = ListFailed | CatalogFailed | RemoveFailed | InvalidId

  /** The operations that may fail. A directory that cannot be looked at counts as absent, and a parent that cannot be
      removed stays; neither is an error. */
  datatype Operation =
    | List
    | ReadRows(database: string)
    | Stat(path: Path)
    | RemoveDirectory(path: Path)
    | RemoveParent(path: Path)
    | Flush
    | DeleteLayer(layer: C.LayerKey)
    | DeleteDatabase(database: string)

  /** An operation whose failure is an error fails. */
  ghost predicate Faulty(job: Job) { exists op: Operation :: !op.Stat? && !op.RemoveParent? && job.failing(op) }

  /** What a call meets: which operations fail, what a flush reads back from the shards, and the time. */
  datatype Job = Job(failing: Operation -> bool, recalculated: map<C.LayerKey, C.Recount>, now: int)

  /** A database with the time of its last use, as the listing of the directories gives it. */
  datatype Listed = Listed(database: string, modifiedAt: Option<int>)

  // Protection

  predicate ProtectedDatabase(cat: C.Catalog, d: string) {
    d in cat.databases && !cat.databases[d].revocable
  }

  predicate ProtectedLayer(cat: C.Catalog, k: C.LayerKey) {
    k in cat.layers && !cat.layers[k].revocable
  }

  /** The database or one of its layers must stay. */
  predicate Guarded(cat: C.Catalog, d: string) {
    ProtectedDatabase(cat, d) || exists k :: k in cat.layers && k.database == d && ProtectedLayer(cat, k)
  }

  /** The same objects are protected. */
  ghost predicate SameProtection(a: C.Catalog, b: C.Catalog) {
    && (forall d :: ProtectedDatabase(a, d) <==> ProtectedDatabase(b, d))
    && (forall k :: ProtectedLayer(a, k) <==> ProtectedLayer(b, k))
  }

  // What is removed

  /** A whole database, or one layer of a database that stays. */
  datatype Target = Whole(database: string) | Layer(layer: C.LayerKey)

  function Directory(t: Target): Path {
    match t
    case Whole(d) => DatabaseDirectory(d)
    case Layer(k) => ItemDirectory(k.database, k.item)
  }

  function DatabaseOf(t: Target): string {
    match t case Whole(d) => d case Layer(k) => k.database
  }

  predicate ValidTarget(t: Target) {
    match t case Whole(d) => ValidId(d) case Layer(k) => ValidId(k.database) && ValidId(k.item)
  }

  /** What may be removed: an expired database without protection, and the unprotected layers of other expired ones,
      among them those that pending puts create. */
  predicate Permitted(start: World, expired: set<string>, t: Target) {
    match t
    case Whole(d) => d in expired && !Guarded(start.cat, d)
    case Layer(k) =>
      && k.database in expired && Guarded(start.cat, k.database) && !ProtectedLayer(start.cat, k)
      && (k in start.cat.layers || k in C.Touched(start.pending))
  }

  /** The path lies below the directory of one of the targets. */
  predicate Covers(hits: set<Target>, p: Path) {
    exists t :: t in hits && Under(Directory(t), p)
  }

  /** Dropping the database leaves this parent of its directory behind, which goes too if nothing is left below it. */
  predicate Empties(t: Target, p: Path) { t.Whole? && LongId(t.database) && p == [Head(t.database)] }

  /** All that was below the path is covered. */
  predicate Bare(disk: set<Path>, hits: set<Target>, p: Path) {
    forall q :: q in disk && q != p && Under(p, q) ==> Covers(hits, q)
  }

  predicate RowsGone(t: Target, cat: C.Catalog) {
    match t
    case Whole(d) => d !in cat.databases && forall k :: k in cat.layers ==> k.database != d
    case Layer(k) => k !in cat.layers
  }

  /** Layer rows: those of removed targets may be gone, those of pending puts may have come or changed, but for a name
      that is set, and all the others are as they were. */
  predicate LayerFaithful(start: World, hits: set<Target>, cat: C.Catalog, k: C.LayerKey) {
    && (k in start.cat.layers && k !in cat.layers ==> Layer(k) in hits || Whole(k.database) in hits)
    && (k in cat.layers && k !in start.cat.layers ==> k in C.Touched(start.pending))
    && (k in cat.layers && k in start.cat.layers && start.cat.layers[k].name != "" ==>
          cat.layers[k].name == start.cat.layers[k].name)
    && (k in cat.layers && k in start.cat.layers && k !in C.Touched(start.pending) ==>
          cat.layers[k] == start.cat.layers[k])
  }

  /** Database rows likewise. */
  predicate DatabaseFaithful(start: World, hits: set<Target>, cat: C.Catalog, d: string) {
    && (d in start.cat.databases && d !in cat.databases ==> Whole(d) in hits)
    && (d in cat.databases && d !in start.cat.databases ==> d in C.DatabasesOf(C.Touched(start.pending)))
    && (d in cat.databases && d in start.cat.databases && start.cat.databases[d].name != "" ==>
          cat.databases[d].name == start.cat.databases[d].name)
    && (d in cat.databases && d in start.cat.databases && d !in C.DatabasesOf(C.Touched(start.pending))
        && (forall t :: t in hits ==> DatabaseOf(t) != d) ==>
          cat.databases[d] == start.cat.databases[d])
  }

  ghost predicate RowsFaithful(start: World, hits: set<Target>, cat: C.Catalog) {
    && SameProtection(start.cat, cat)
    && (forall k :: LayerFaithful(start, hits, cat, k))
    && (forall d :: DatabaseFaithful(start, hits, cat, d))
  }

  /** Only what dropped targets cover is gone, and parents with nothing else below them. */
  predicate DiskFaithful(start: World, hits: set<Target>, disk: set<Path>) {
    disk <= start.disk && forall p :: p in start.disk && p !in disk ==> Gone(start, hits, p)
  }

  predicate Gone(start: World, hits: set<Target>, p: Path) {
    Covers(hits, p) || ((exists t :: t in hits && Empties(t, p)) && Bare(start.disk, hits, p))
  }

  /** Pending puts are written at once, before any row is deleted. */
  predicate PendingFaithful(start: World, w: World) {
    w.pending == [] || (w.pending == start.pending && w.cat == start.cat)
  }

  /** Database rows stay the sums of their layers. */
  ghost predicate SumsFaithful(job: Job, start: World, cat: C.Catalog) {
    L.Conserved(start.cat) && L.NonNegative(job.recalculated) ==> L.Conserved(cat)
  }

  /** What holds at every moment, whatever fails, when the directories of the targets `hits` have been found and gone
      about. Rows go only with a directory that was found. */
  ghost predicate Faithful(job: Job, start: World, hits: set<Target>, w: World) {
    && DiskFaithful(start, hits, w.disk) && RowsFaithful(start, hits, w.cat)
    && PendingFaithful(start, w) && SumsFaithful(job, start, w.cat)
  }

  lemma GoneMore(start: World, hits: set<Target>, p: Path, t: Target)
    requires Gone(start, hits, p)
    ensures Gone(start, hits + {t}, p)
  {
    hide Under, Directory, Empties;
    assert forall s :: s in hits ==> s in hits + {t};
  }

  lemma FaithfulMore(job: Job, start: World, hits: set<Target>, w: World, t: Target)
    requires Faithful(job, start, hits, w)
    ensures Faithful(job, start, hits + {t}, w)
  {
    hide SumsFaithful, SameProtection, Gone;
    forall p | p in start.disk && p !in w.disk ensures Gone(start, hits + {t}, p) { GoneMore(start, hits, p, t); }
    forall k ensures LayerFaithful(start, hits + {t}, w.cat, k) { assert LayerFaithful(start, hits, w.cat, k); }
    forall d ensures DatabaseFaithful(start, hits + {t}, w.cat, d) {
      assert DatabaseFaithful(start, hits, w.cat, d);
      if forall s :: s in hits + {t} ==> DatabaseOf(s) != d {
        assert forall s :: s in hits ==> s in hits + {t};
      }
    }
  }

  // Steps that may fail

  /** `remove_dir_all`: all of a tree, or if it fails any part of it. */
  method RemoveTree(disk: set<Path>, directory: Path, fails: bool) returns (after: set<Path>)
    ensures after <= disk && forall p :: p in disk && p !in after ==> Under(directory, p)
    ensures !fails ==> after == WithoutTree(disk, directory)
  {
    var below := set p | p in disk && Under(directory, p);
    if !fails {
      after := disk - below;
    } else {
      var survivors: set<Path> :| survivors <= below;
      after := disk - below + survivors;
    }
  }

  function WithoutTree(disk: set<Path>, directory: Path): set<Path> { set p | p in disk && !Under(directory, p) }

  /** Nothing is left below the path. */
  predicate Bottom(disk: set<Path>, p: Path) { forall q :: q in disk && Under(p, q) ==> q == p }

  /** The first level of a database that is gone, if nothing else needs it. */
  function WithoutParent(job: Job, disk: set<Path>, d: string): set<Path> {
    if LongId(d) && Bottom(disk, [Head(d)]) && !job.failing(RemoveParent([Head(d)])) then disk - {[Head(d)]} else disk
  }

  /** `remove_empty_parents`: upwards to the root, until a directory cannot be removed. */
  method RemoveEmptyParents(job: Job, disk: set<Path>, d: string) returns (after: set<Path>)
    ensures after == WithoutParent(job, disk, d)
  {
    after := disk;
    var directory := DatabaseDirectory(d);
    var current := directory[..|directory| - 1];
    while current != []
      invariant |current| <= 1
      invariant current != [] ==> LongId(d) && current == [Head(d)] && after == disk
      invariant current == [] ==> after == WithoutParent(job, disk, d)
    {
      if current !in after || !Bottom(after, current) || job.failing(RemoveParent(current)) {
        assert [Head(d)] !in disk ==> disk - {[Head(d)]} == disk;
        break;
      }
      after := after - {current};
      current := current[..|current| - 1];
    }
  }

  /** What is left when a target has been dropped without a fault. */
  function WithoutTarget(job: Job, disk: set<Path>, t: Target): set<Path> {
    var rest := WithoutTree(disk, Directory(t));
    match t case Whole(d) => WithoutParent(job, rest, d) case Layer(_) => rest
  }

  lemma LayerWritten(
    start: World, recalculated: map<C.LayerKey, C.Recount>, after: C.Catalog, deltas: map<string, C.Delta>,
    hits: set<Target>, k: C.LayerKey)
    requires C.Written(start.cat, start.pending, recalculated, after, deltas)
    ensures LayerFaithful(start, hits, after, k) && (ProtectedLayer(start.cat, k) <==> ProtectedLayer(after, k))
    ensures k in start.cat.layers ==> k in after.layers
  {
    hide C.DeltasExact, C.Sourced, C.DatabasesWritten, C.FoldAll, C.Of, C.Start, C.Touched;
  }

  lemma DatabaseWritten(
    start: World, recalculated: map<C.LayerKey, C.Recount>, after: C.Catalog, deltas: map<string, C.Delta>,
    hits: set<Target>, d: string)
    requires C.Written(start.cat, start.pending, recalculated, after, deltas)
    ensures DatabaseFaithful(start, hits, after, d) && (ProtectedDatabase(start.cat, d) <==> ProtectedDatabase(after, d))
    ensures d in start.cat.databases ==> d in after.databases
  {
    hide C.DeltasExact, C.Sourced, C.LayersWritten, C.Touched, C.DatabasesOf;
  }

  /** Writing the pending puts adds or changes their own rows and no flag. */
  lemma WrittenFaithful(
    job: Job, start: World, after: C.Catalog, deltas: map<string, C.Delta>, hits: set<Target>)
    requires C.Written(start.cat, start.pending, job.recalculated, after, deltas)
    ensures RowsFaithful(start, hits, after) && SumsFaithful(job, start, after) && RowsKept(start.cat, after)
  {
    hide C.Written, ProtectedLayer, ProtectedDatabase, LayerFaithful, DatabaseFaithful, L.Conserved, L.NonNegative;
    forall k
      ensures LayerFaithful(start, hits, after, k) && (ProtectedLayer(start.cat, k) <==> ProtectedLayer(after, k))
      ensures k in start.cat.layers ==> k in after.layers
    {
      LayerWritten(start, job.recalculated, after, deltas, hits, k);
    }
    forall d
      ensures DatabaseFaithful(start, hits, after, d) && (ProtectedDatabase(start.cat, d) <==> ProtectedDatabase(after, d))
      ensures d in start.cat.databases ==> d in after.databases
    {
      DatabaseWritten(start, job.recalculated, after, deltas, hits, d);
    }
    if L.Conserved(start.cat) && L.NonNegative(job.recalculated) {
      L.WriteConserves(start.cat, start.pending, job.recalculated, after, deltas);
    }
  }

  /** No row is missing. */
  predicate RowsKept(before: C.Catalog, after: C.Catalog) {
    before.layers.Keys <= after.layers.Keys && before.databases.Keys <= after.databases.Keys
  }

  /** A flush writes everything pending in one transaction, or leaves the catalog as it was. */
  ghost predicate Flushed(job: Job, w: World, cat: C.Catalog) {
    if w.pending == [] || job.failing(Flush) then cat == w.cat
    else exists deltas :: C.Written(w.cat, w.pending, job.recalculated, cat, deltas)
  }

  /** The flush before a removal. What was pending is written, or lost if it fails. */
  method FlushPending(job: Job, w: World, ghost start: World, ghost hits: set<Target>) returns (ok: bool, after: World)
    requires Faithful(job, start, hits, w)
    ensures ok <==> !job.failing(Flush)
    ensures after == World(w.disk, after.cat, []) && Flushed(job, w, after.cat) && RowsKept(w.cat, after.cat)
    ensures Faithful(job, start, hits, after)
  {
    hide DiskFaithful, RowsFaithful, SumsFaithful;
    ok := !job.failing(Flush);
    if w.pending == [] { return ok, w; }
    ghost var deltas;
    var cat;
    cat, deltas := C.WriteCatalogBatch(w.cat, w.pending, job.recalculated, job.now, !ok);
    if ok { WrittenFaithful(job, start, cat, deltas, hits); }
    after := World(w.disk, cat, []);
  }

  lemma LayerRemoved(start: World, hits: set<Target>, cat: C.Catalog, k: C.LayerKey, now: int)
    requires RowsFaithful(start, hits, cat) && Layer(k) in hits && !ProtectedLayer(start.cat, k)
    ensures RowsFaithful(start, hits, L.RemoveLayer(cat, k, now))
    ensures RowsGone(Layer(k), L.RemoveLayer(cat, k, now))
  {
    hide C.Touched, C.DatabasesOf;
    var after := L.RemoveLayer(cat, k, now);
    forall l ensures LayerFaithful(start, hits, after, l) { assert LayerFaithful(start, hits, cat, l); }
    forall d ensures DatabaseFaithful(start, hits, after, d) {
      assert DatabaseFaithful(start, hits, cat, d);
      assert DatabaseOf(Layer(k)) == k.database;
    }
    assert SameProtection(start.cat, after) by { hide LayerFaithful, DatabaseFaithful; }
  }

  lemma DatabaseRemoved(start: World, hits: set<Target>, cat: C.Catalog, d: string)
    requires RowsFaithful(start, hits, cat) && Whole(d) in hits && !Guarded(start.cat, d)
    ensures RowsFaithful(start, hits, L.RemoveDatabase(cat, d)) && RowsGone(Whole(d), L.RemoveDatabase(cat, d))
  {
    hide C.Touched, C.DatabasesOf;
    var after := L.RemoveDatabase(cat, d);
    forall l ensures LayerFaithful(start, hits, after, l) { assert LayerFaithful(start, hits, cat, l); }
    forall e ensures DatabaseFaithful(start, hits, after, e) { assert DatabaseFaithful(start, hits, cat, e); }
    assert SameProtection(start.cat, after) by { hide LayerFaithful, DatabaseFaithful; }
  }

  function Delete(t: Target): Operation {
    match t case Whole(d) => DeleteDatabase(d) case Layer(k) => DeleteLayer(k)
  }

  function RowsRemoved(cat: C.Catalog, t: Target, now: int): C.Catalog {
    match t case Whole(d) => L.RemoveDatabase(cat, d) case Layer(k) => L.RemoveLayer(cat, k, now)
  }

  /** Removing rows from a faithful catalog. */
  lemma RemovedFaithful(job: Job, start: World, expired: set<string>, hits: set<Target>, w: World, t: Target)
    requires Faithful(job, start, hits, w) && t in hits && Permitted(start, expired, t) && w.pending == []
    ensures var cat := RowsRemoved(w.cat, t, job.now);
            && Faithful(job, start, hits, w.(cat := cat)) && RowsGone(t, cat)
            && cat.layers.Keys <= w.cat.layers.Keys && cat.databases.Keys <= w.cat.databases.Keys
  {
    hide DiskFaithful, RowsFaithful, RowsGone, L.Conserved, L.NonNegative, Guarded, ProtectedLayer;
    match t {
      case Whole(d) =>
        DatabaseRemoved(start, hits, w.cat, d);
        if L.Conserved(w.cat) { L.RemoveDatabaseConserves(w.cat, d); }
      case Layer(k) =>
        LayerRemoved(start, hits, w.cat, k, job.now);
        if L.Conserved(w.cat) { L.RemoveLayerConserves(w.cat, k, job.now); }
    }
  }

  /** The deletion of a target's rows, after a flush. If one of the two fails, every row stays. */
  method RemoveRows(job: Job, w: World, t: Target, ghost start: World, ghost expired: set<string>, ghost hits: set<Target>)
    returns (ok: bool, after: World)
    requires Faithful(job, start, hits, w) && t in hits && Permitted(start, expired, t)
    ensures ok <==> !job.failing(Flush) && !job.failing(Delete(t))
    ensures after == World(w.disk, after.cat, []) && Faithful(job, start, hits, after)
    ensures exists cat :: Flushed(job, w, cat) && RowsKept(w.cat, cat)
                          && after.cat == if ok then RowsRemoved(cat, t, job.now) else cat
    ensures ok ==> RowsGone(t, after.cat)
    ensures !ok ==> w.cat.layers.Keys <= after.cat.layers.Keys && w.cat.databases.Keys <= after.cat.databases.Keys
    ensures w.pending == [] ==> after.cat.layers.Keys <= w.cat.layers.Keys && after.cat.databases.Keys <= w.cat.databases.Keys
  {
    hide Faithful, Flushed, RowsRemoved, RowsGone, Permitted;
    var flushed;
    ok, flushed := FlushPending(job, w, start, hits);
    assert w.pending == [] ==> flushed.cat == w.cat by { FlushedNothing(job, w, flushed.cat); }
    ok, after := ok && !job.failing(Delete(t)), flushed;
    if ok {
      RemovedFaithful(job, start, expired, hits, flushed, t);
      after := flushed.(cat := RowsRemoved(flushed.cat, t, job.now));
    }
  }

  lemma FlushedNothing(job: Job, w: World, cat: C.Catalog)
    requires Flushed(job, w, cat)
    ensures w.pending == [] ==> cat == w.cat
  {
  }

  // One target

  /** A target gone about, and whether its directory was found. */
  datatype Attempt = Attempt(target: Target, hit: bool)

  function Tried(steps: seq<Attempt>): set<Target> { set i | 0 <= i < |steps| :: steps[i].target }

  function Hits(steps: seq<Attempt>): set<Target> { set i | 0 <= i < |steps| && steps[i].hit :: steps[i].target }

  lemma OneMore(steps: seq<Attempt>, a: Attempt)
    ensures Tried(steps + [a]) == Tried(steps) + {a.target}
    ensures Hits(steps + [a]) == if a.hit then Hits(steps) + {a.target} else Hits(steps)
    ensures Hits(steps) <= Tried(steps)
  {
    var all := steps + [a];
    assert all[|steps|] == a && forall i :: 0 <= i < |steps| ==> all[i] == steps[i];
    forall t | t in Tried(steps) + {a.target} ensures t in Tried(all) {
      if t in Tried(steps) {
        var i :| 0 <= i < |steps| && steps[i].target == t;
        assert all[i].target == t;
      }
    }
    forall t | t in Hits(steps) ensures t in Hits(all) {
      var i :| 0 <= i < |steps| && steps[i].hit && steps[i].target == t;
      assert all[i].hit && all[i].target == t;
    }
  }

  /** The ids are valid, and the directory is there and can be looked at. */
  predicate Present(job: Job, disk: set<Path>, t: Target) {
    ValidTarget(t) && Directory(t) in disk && !job.failing(Stat(Directory(t)))
  }

  /** What is left on the disk after some attempts without a fault. */
  function DiskAfter(job: Job, disk: set<Path>, steps: seq<Attempt>): set<Path> {
    if steps == [] then disk
    else
      var n := |steps| - 1;
      var before := DiskAfter(job, disk, steps[..n]);
      if steps[n].hit then WithoutTarget(job, before, steps[n].target) else before
  }

  /** Exactly the directories were found that were there when their turn came. */
  predicate Played(job: Job, disk: set<Path>, steps: seq<Attempt>) {
    forall i :: 0 <= i < |steps| ==> (steps[i].hit <==> Present(job, DiskAfter(job, disk, steps[..i]), steps[i].target))
  }

  lemma PlayedMore(job: Job, disk: set<Path>, steps: seq<Attempt>, a: Attempt)
    requires Played(job, disk, steps) && (a.hit <==> Present(job, DiskAfter(job, disk, steps), a.target))
    ensures Played(job, disk, steps + [a])
    ensures DiskAfter(job, disk, steps + [a]) ==
            if a.hit then WithoutTarget(job, DiskAfter(job, disk, steps), a.target) else DiskAfter(job, disk, steps)
  {
    var all := steps + [a];
    assert all[..|steps|] == steps;
    hide Present, WithoutTarget;
    forall i | 0 <= i < |all| ensures all[i].hit <==> Present(job, DiskAfter(job, disk, all[..i]), all[i].target) {
      if i < |steps| { assert all[..i] == steps[..i] && all[i] == steps[i]; }
    }
  }

  predicate Cleared(hits: set<Target>, cat: C.Catalog) {
    forall t :: t in hits ==> RowsGone(t, cat)
  }

  predicate AllPermitted(start: World, expired: set<string>, tried: set<Target>) {
    forall t :: t in tried ==> Permitted(start, expired, t)
  }

  predicate AllValid(tried: set<Target>) { forall t :: t in tried ==> ValidTarget(t) }

  /** What holds besides while nothing has failed. */
  ghost predicate Going(job: Job, start: World, expired: set<string>, steps: seq<Attempt>, w: World) {
    && AllPermitted(start, expired, Tried(steps)) && AllValid(Tried(steps))
    && Played(job, start.disk, steps) && w.disk == DiskAfter(job, start.disk, steps)
    && Cleared(Hits(steps), w.cat) && (Hits(steps) != {} ==> w.pending == [])
  }

  lemma ClearedStays(hits: set<Target>, before: C.Catalog, after: C.Catalog)
    requires Cleared(hits, before)
    requires after.layers.Keys <= before.layers.Keys && after.databases.Keys <= before.databases.Keys
    ensures Cleared(hits, after)
  {
    forall t | t in hits ensures RowsGone(t, after) {
      assert RowsGone(t, before);
      assert forall k :: k in after.layers ==> k in before.layers.Keys;
    }
  }

  /** A directory that is not found: nothing to do. */
  lemma AbsentTarget(job: Job, start: World, expired: set<string>, steps: seq<Attempt>, w: World, t: Target)
    requires Going(job, start, expired, steps, w)
    requires Permitted(start, expired, t) && ValidTarget(t) && !Present(job, w.disk, t)
    ensures Going(job, start, expired, steps + [Attempt(t, false)], w)
  {
    hide Permitted, Cleared, Played, DiskAfter, Present, ValidTarget;
    OneMore(steps, Attempt(t, false));
    PlayedMore(job, start.disk, steps, Attempt(t, false));
    hide Tried, Hits;
  }

  /** Directory and rows of a target are gone. */
  lemma PresentTarget(
    job: Job, start: World, expired: set<string>, steps: seq<Attempt>, w: World, t: Target, after: World)
    requires Going(job, start, expired, steps, w) && Permitted(start, expired, t) && Present(job, w.disk, t)
    requires after.disk == WithoutTarget(job, w.disk, t) && after.pending == [] && RowsGone(t, after.cat)
    requires w.pending == [] ==>
               after.cat.layers.Keys <= w.cat.layers.Keys && after.cat.databases.Keys <= w.cat.databases.Keys
    ensures Going(job, start, expired, steps + [Attempt(t, true)], after)
  {
    assert ValidTarget(t);
    hide Permitted, Played, DiskAfter, Present, WithoutTarget, RowsGone, ValidTarget;
    OneMore(steps, Attempt(t, true));
    PlayedMore(job, start.disk, steps, Attempt(t, true));
    if Hits(steps) != {} { ClearedStays(Hits(steps), w.cat, after.cat); }
    hide Tried, Hits;
  }

  /** A tree removed, wholly or in part. */
  lemma TreeFaithful(job: Job, start: World, hits: set<Target>, w: World, t: Target, disk: set<Path>)
    requires Faithful(job, start, hits, w)
    requires disk <= w.disk && forall p :: p in w.disk && p !in disk ==> Under(Directory(t), p)
    ensures Faithful(job, start, hits + {t}, w.(disk := disk))
  {
    FaithfulMore(job, start, hits, w, t);
    hide RowsFaithful, SumsFaithful, Directory, Under, Empties, Bare;
    assert t in hits + {t};
    forall p | p in start.disk && p !in disk ensures Gone(start, hits + {t}, p) {
      if p in w.disk { assert Under(Directory(t), p); }
    }
  }

  /** A parent removed, because nothing was left below it. */
  lemma ParentFaithful(job: Job, start: World, hits: set<Target>, w: World, d: string)
    requires Faithful(job, start, hits, w) && Whole(d) in hits
    ensures Faithful(job, start, hits, w.(disk := WithoutParent(job, w.disk, d)))
  {
    hide RowsFaithful, SumsFaithful, Directory, Covers;
    var p, disk := [Head(d)], WithoutParent(job, w.disk, d);
    if disk != w.disk {
      assert Empties(Whole(d), p);
      forall q | q in start.disk && q != p && Under(p, q) ensures Covers(hits, q) {
        assert q !in w.disk && Gone(start, hits, q);
        assert forall t :: !Empties(t, q);
      }
      assert Gone(start, hits, p);
    }
  }

  lemma NextPlayed(job: Job, start: World, expired: set<string>, steps: seq<Attempt>, w: World, t: Target)
    requires Going(job, start, expired, steps, w)
    ensures Played(job, start.disk, steps + [Attempt(t, Present(job, w.disk, t))])
  {
    hide Present, Played, DiskAfter, AllPermitted, AllValid, Cleared, Hits;
    PlayedMore(job, start.disk, steps, Attempt(t, Present(job, w.disk, t)));
  }

  /** Removes a directory and then its rows. A directory that is not found changes nothing. */
  method DropTarget(
    job: Job, w: World, t: Target, ghost start: World, ghost expired: set<string>, ghost steps: seq<Attempt>)
    returns (error: Option<CleanupError>, after: World, hit: bool)
    requires Faithful(job, start, Hits(steps), w) && Going(job, start, expired, steps, w)
    requires Permitted(start, expired, t)
    ensures (hit <==> Present(job, w.disk, t)) && Played(job, start.disk, steps + [Attempt(t, hit)])
    ensures !hit ==> after == w && (error.None? <==> ValidTarget(t))
    ensures hit && error.None? ==> after.disk == WithoutTarget(job, w.disk, t) && RowsGone(t, after.cat) && after.pending == []
    ensures hit && job.failing(RemoveDirectory(Directory(t))) ==> error == Some(RemoveFailed) && after == w.(disk := after.disk)
    ensures error == Some(CatalogFailed) ==>
              && after.disk == WithoutTarget(job, w.disk, t) && after.pending == []
              && w.cat.layers.Keys <= after.cat.layers.Keys && w.cat.databases.Keys <= after.cat.databases.Keys
    ensures Faithful(job, start, Hits(steps + [Attempt(t, hit)]), after)
    ensures error.None? ==> Going(job, start, expired, steps + [Attempt(t, hit)], after)
    ensures error.Some? ==> (error == Some(InvalidId) && !ValidTarget(t)) || Faulty(job)
  {
    hide Going, Faithful, Permitted, ValidTarget, RowsGone, Directory, Under, WithoutTree, WithoutParent, Hits, Flushed,
      RowsKept, RowsRemoved, Played;
    OneMore(steps, Attempt(t, false));
    OneMore(steps, Attempt(t, true));
    error, after, hit := None, w, false;
    NextPlayed(job, start, expired, steps, w, t);
    if !ValidTarget(t) { return Some(InvalidId), w, false; }
    var directory := Directory(t);
    if directory !in w.disk || job.failing(Stat(directory)) {
      AbsentTarget(job, start, expired, steps, w, t);
      return;
    }
    hit := true;
    var fails := job.failing(RemoveDirectory(directory));
    var disk := RemoveTree(w.disk, directory, fails);
    TreeFaithful(job, start, Hits(steps), w, t, disk);
    after := w.(disk := disk);
    if fails { return Some(RemoveFailed), after, true; }
    if t.Whole? {
      disk := RemoveEmptyParents(job, disk, t.database);
      ParentFaithful(job, start, Hits(steps) + {t}, after, t.database);
      after := after.(disk := disk);
    }
    assert after.disk == WithoutTarget(job, w.disk, t);
    var ok;
    ok, after := RemoveRows(job, after, t, start, expired, Hits(steps) + {t});
    if !ok {
      assert job.failing(Flush) || job.failing(Delete(t));
      return Some(CatalogFailed), after, true;
    }
    PresentTarget(job, start, expired, steps, w, t, after);
  }

  // The loops

  predicate Old(l: Listed, cutoff: int) { l.modifiedAt.Some? && l.modifiedAt.value < cutoff }

  /** The databases last used before the cutoff, in the order of the listing. */
  function Expired(listed: seq<Listed>, cutoff: int): seq<string> {
    if listed == [] then []
    else
      var n := |listed| - 1;
      Expired(listed[..n], cutoff) + if Old(listed[n], cutoff) then [listed[n].database] else []
  }

  predicate Distinct(listed: seq<Listed>) {
    forall i, j :: 0 <= i < j < |listed| ==> listed[i].database != listed[j].database
  }

  predicate DistinctIds(ids: seq<string>) { forall i, j :: 0 <= i < j < |ids| ==> ids[i] != ids[j] }

  /** The listing has a time for the database, and it is before the cutoff. */
  predicate LastUsedBefore(listed: seq<Listed>, cutoff: int, d: string) {
    exists i :: 0 <= i < |listed| && listed[i].database == d
                && listed[i].modifiedAt.Some? && listed[i].modifiedAt.value < cutoff
  }

  /** Candidates are exactly the listed databases with a time of last use before the cutoff; one without a time, or last
      used in the very second of the cutoff, is none. */
  lemma {:induction false} ExpiredMember(listed: seq<Listed>, cutoff: int, d: string)
    ensures d in Expired(listed, cutoff) <==> LastUsedBefore(listed, cutoff, d)
  {
    if listed != [] {
      var n := |listed| - 1;
      ExpiredMember(listed[..n], cutoff, d);
    }
  }

  /** Candidates are in the order of the listing. */
  lemma {:induction false} ExpiredInOrder(listed: seq<Listed>, cutoff: int, i: nat, j: nat) returns (a: nat, b: nat)
    requires i < j < |Expired(listed, cutoff)|
    ensures a < b < |listed|
    ensures listed[a].database == Expired(listed, cutoff)[i] && listed[b].database == Expired(listed, cutoff)[j]
  {
    hide Old;
    var n := |listed| - 1;
    if j < |Expired(listed[..n], cutoff)| {
      a, b := ExpiredInOrder(listed[..n], cutoff, i, j);
    } else {
      a := ExpiredAt(listed[..n], cutoff, i);
      b := n;
    }
  }

  lemma {:induction false} ExpiredAt(listed: seq<Listed>, cutoff: int, i: nat) returns (a: nat)
    requires i < |Expired(listed, cutoff)|
    ensures a < |listed| && listed[a].database == Expired(listed, cutoff)[i]
  {
    hide Old;
    var n := |listed| - 1;
    if i < |Expired(listed[..n], cutoff)| { a := ExpiredAt(listed[..n], cutoff, i); } else { a := n; }
  }

  lemma {:induction false} ExpiredDistinct(listed: seq<Listed>, cutoff: int)
    requires Distinct(listed)
    ensures DistinctIds(Expired(listed, cutoff))
  {
    hide Old;
    if listed != [] {
      var n := |listed| - 1;
      ExpiredDistinct(listed[..n], cutoff);
      ExpiredMember(listed[..n], cutoff, listed[n].database);
      assert !LastUsedBefore(listed[..n], cutoff, listed[n].database);
      var before := Expired(listed[..n], cutoff);
      assert listed[n].database !in before;
      hide Expired;
      assert forall i :: 0 <= i < |before| ==> before[i] in before;
    }
  }

  method ExpiredDatabases(listed: seq<Listed>, cutoff: int) returns (candidates: seq<string>)
    ensures candidates == Expired(listed, cutoff)
  {
    candidates := [];
    for n := 0 to |listed|
      invariant candidates == Expired(listed[..n], cutoff)
    {
      assert listed[..n + 1][..n] == listed[..n];
      if Old(listed[n], cutoff) { candidates := candidates + [listed[n].database]; }
    }
    assert listed[..|listed|] == listed;
  }

  function Set(s: seq<string>): set<string> { set d | d in s }

  function LayersOf(layers: set<C.LayerKey>): set<Target> { set k | k in layers :: Layer(k) }

  /** The whole databases among some targets. */
  function Wholes(targets: set<Target>): set<string> { set t | t in targets && t.Whole? :: t.database }

  lemma WholesMore(targets: set<Target>, t: Target)
    ensures Wholes(targets + {t}) == if t.Whole? then Wholes(targets) + {t.database} else Wholes(targets)
  {
    forall d | d in Wholes(targets) ensures d in Wholes(targets + {t}) {
      var s :| s in targets && s.Whole? && s.database == d;
      assert s in targets + {t};
    }
    if t.Whole? { assert t in targets + {t}; }
  }

  /** The attempts of one turn follow the earlier ones, and all are about one database. */
  predicate Continues(steps: seq<Attempt>, steps': seq<Attempt>, d: string) {
    steps <= steps' && forall i :: |steps| <= i < |steps'| ==> DatabaseOf(steps'[i].target) == d
  }

  lemma GoingPlayed(job: Job, start: World, expired: set<string>, steps: seq<Attempt>, w: World)
    requires Going(job, start, expired, steps, w)
    ensures AllPermitted(start, expired, Tried(steps)) && Played(job, start.disk, steps)
  {
  }

  /** The unprotected layers of a guarded database go one by one. */
  method DropUnprotectedLayers(
    job: Job, w: World, d: string, layers: set<C.LayerKey>, ghost start: World, ghost expired: set<string>,
    ghost steps: seq<Attempt>)
    returns (error: Option<CleanupError>, after: World, ghost steps': seq<Attempt>)
    requires Faithful(job, start, Hits(steps), w) && Going(job, start, expired, steps, w)
    requires forall k :: k in layers ==> k.database == d && Permitted(start, expired, Layer(k))
    ensures Faithful(job, start, Hits(steps'), after) && Played(job, start.disk, steps') && Continues(steps, steps', d)
    ensures Tried(steps') <= Tried(steps) + LayersOf(layers) && Wholes(Hits(steps')) == Wholes(Hits(steps))
    ensures error.None? ==> Going(job, start, expired, steps', after) && Tried(steps') == Tried(steps) + LayersOf(layers)
    ensures error.Some? ==>
              (error == Some(InvalidId) && exists k :: k in layers && !ValidTarget(Layer(k))) || Faulty(job)
  {
    hide Faithful, Going, Permitted, ValidTarget, RowsGone, WithoutTarget, Present, Hits, Tried, Wholes, Played;
    error, after, steps' := None, w, steps;
    GoingPlayed(job, start, expired, steps, w);
    var todo := layers;
    ghost var gone: set<C.LayerKey> := {};
    while todo != {}
      invariant gone !! todo && gone + todo == layers
      invariant Faithful(job, start, Hits(steps'), after) && Going(job, start, expired, steps', after)
      invariant Continues(steps, steps', d) && Played(job, start.disk, steps')
      invariant Tried(steps') == Tried(steps) + LayersOf(gone) && Wholes(Hits(steps')) == Wholes(Hits(steps))
      decreases todo
    {
      var k :| k in todo;
      var failed, next, hit := DropTarget(job, after, Layer(k), start, expired, steps');
      OneMore(steps', Attempt(Layer(k), hit));
      WholesMore(Hits(steps'), Layer(k));
      after, steps' := next, steps' + [Attempt(Layer(k), hit)];
      LayersMore(layers, gone, k);
      if failed.Some? { return failed, after, steps'; }
      todo, gone := todo - {k}, gone + {k};
    }
    assert gone == layers;
  }

  lemma LayersMore(layers: set<C.LayerKey>, gone: set<C.LayerKey>, k: C.LayerKey)
    requires gone <= layers && k in layers
    ensures LayersOf(gone + {k}) == LayersOf(gone) + {Layer(k)} && LayersOf(gone) + {Layer(k)} <= LayersOf(layers)
  {
  }

  /** Nothing has been tried yet about a database. */
  predicate Fresh(steps: seq<Attempt>, d: string) { forall i :: 0 <= i < |steps| ==> DatabaseOf(steps[i].target) != d }

  /** All that is to be done about a database has been tried. */
  predicate Handled(start: World, tried: set<Target>, d: string) {
    if !Guarded(start.cat, d) then Whole(d) in tried
    else forall k :: k in start.cat.layers && k.database == d && !ProtectedLayer(start.cat, k) ==> Layer(k) in tried
  }

  /** The rows of a database whose turn has not come are there. */
  lemma FreshRows(job: Job, start: World, steps: seq<Attempt>, w: World, d: string, k: C.LayerKey)
    requires Faithful(job, start, Hits(steps), w) && Fresh(steps, d) && k.database == d
    ensures k in start.cat.layers ==> k in w.cat.layers
    ensures k in w.cat.layers ==> k in start.cat.layers || k in C.Touched(start.pending)
    ensures ProtectedLayer(start.cat, k) <==> ProtectedLayer(w.cat, k)
  {
    hide DiskFaithful, SumsFaithful, DatabaseFaithful, C.Touched, ProtectedLayer;
    assert LayerFaithful(start, Hits(steps), w.cat, k);
    assert DatabaseOf(Layer(k)) == d && DatabaseOf(Whole(d)) == d;
  }

  lemma LayersToDrop(
    job: Job, start: World, expired: set<string>, steps: seq<Attempt>, w: World, d: string, layers: set<C.LayerKey>)
    requires Faithful(job, start, Hits(steps), w) && Fresh(steps, d) && d in expired && Guarded(start.cat, d)
    requires layers == set k | k in w.cat.layers && k.database == d && w.cat.layers[k].revocable
    ensures forall k :: k in layers ==> k.database == d && Permitted(start, expired, Layer(k))
    ensures Handled(start, Tried(steps) + LayersOf(layers), d)
  {
    hide Faithful, C.Touched, Guarded, Fresh;
    forall k: C.LayerKey | k.database == d
      ensures k in layers ==> Permitted(start, expired, Layer(k))
      ensures k in start.cat.layers && !ProtectedLayer(start.cat, k) ==> k in layers
    {
      FreshRows(job, start, steps, w, d, k);
    }
  }

  lemma SameGuard(job: Job, start: World, steps: seq<Attempt>, w: World, d: string)
    requires Faithful(job, start, Hits(steps), w) && Fresh(steps, d)
    ensures Guarded(w.cat, d) <==> Guarded(start.cat, d)
  {
    hide Faithful, Fresh, C.Touched;
    assert SameProtection(start.cat, w.cat) by { FaithfulProtection(job, start, Hits(steps), w); }
    hide ProtectedDatabase;
    assert forall k :: ProtectedLayer(start.cat, k) ==> k in start.cat.layers;
    assert forall k :: ProtectedLayer(w.cat, k) ==> k in w.cat.layers;
    if Guarded(w.cat, d) && !ProtectedDatabase(w.cat, d) {
      var k :| k in w.cat.layers && k.database == d && ProtectedLayer(w.cat, k);
      assert ProtectedLayer(start.cat, k);
    }
    if Guarded(start.cat, d) && !ProtectedDatabase(start.cat, d) {
      var k :| k in start.cat.layers && k.database == d && ProtectedLayer(start.cat, k);
      assert ProtectedLayer(w.cat, k);
    }
  }

  lemma FaithfulProtection(job: Job, start: World, hits: set<Target>, w: World)
    requires Faithful(job, start, hits, w)
    ensures SameProtection(start.cat, w.cat)
  {
  }

  /** One turn of the loop. */
  method CleanupOne(
    job: Job, w: World, d: string, ghost start: World, ghost expired: set<string>, ghost steps: seq<Attempt>)
    returns (error: Option<CleanupError>, after: World, dropped: nat, ghost steps': seq<Attempt>)
    requires Faithful(job, start, Hits(steps), w) && Going(job, start, expired, steps, w)
    requires d in expired && Fresh(steps, d)
    ensures Faithful(job, start, Hits(steps'), after) && AllPermitted(start, expired, Tried(steps'))
    ensures Continues(steps, steps', d) && Played(job, start.disk, steps')
    ensures error.None? ==> Going(job, start, expired, steps', after) && Handled(start, Tried(steps'), d)
    ensures error.None? ==> |Wholes(Hits(steps'))| == |Wholes(Hits(steps))| + dropped
    ensures error.Some? ==>
              (error == Some(InvalidId) && exists t :: Permitted(start, expired, t) && !ValidTarget(t))
              || Faulty(job)
  {
    hide Faithful, Going, Permitted, Guarded, Handled, ValidTarget, RowsGone, WithoutTarget, Present, Hits, Tried, Wholes,
      Fresh, Played;
    error, after, dropped, steps' := None, w, 0, steps;
    GoingPlayed(job, start, expired, steps, w);
    if job.failing(ReadRows(d)) { return Some(CatalogFailed), w, 0, steps; }
    SameGuard(job, start, steps, w, d);
    if Guarded(w.cat, d) {
      var layers := set k | k in w.cat.layers && k.database == d && w.cat.layers[k].revocable;
      LayersToDrop(job, start, expired, steps, w, d, layers);
      error, after, steps' := DropUnprotectedLayers(job, w, d, layers, start, expired, steps);
      assert forall t :: t in LayersOf(layers) ==> Permitted(start, expired, t);
      return;
    }
    var hit;
    WholeToDrop(start, expired, steps, d);
    error, after, hit := DropTarget(job, w, Whole(d), start, expired, steps);
    steps' := steps + [Attempt(Whole(d), hit)];
    OneMore(steps, Attempt(Whole(d), hit));
    WholesMore(Hits(steps), Whole(d));
    dropped := if hit then 1 else 0;
  }

  lemma WholeToDrop(start: World, expired: set<string>, steps: seq<Attempt>, d: string)
    requires d in expired && !Guarded(start.cat, d) && Fresh(steps, d)
    ensures Permitted(start, expired, Whole(d)) && Handled(start, Tried(steps) + {Whole(d)}, d)
    ensures d !in Wholes(Hits(steps)) && DatabaseOf(Whole(d)) == d
  {
  }

  /** Databases have their turns in the order of the candidates. */
  predicate InOrder(steps: seq<Attempt>, candidates: seq<string>) {
    forall i, j, a, b :: 0 <= i < j < |steps| && 0 <= a < |candidates| && 0 <= b < |candidates|
                         && DatabaseOf(steps[i].target) == candidates[a] && DatabaseOf(steps[j].target) == candidates[b] ==>
      a <= b
  }

  /** What a successful cleanup has done about its candidates. */
  ghost predicate Complete(job: Job, start: World, candidates: seq<string>, steps: seq<Attempt>, after: World) {
    && Going(job, start, Set(candidates), steps, after) && InOrder(steps, candidates)
    && HandledTo(start, Tried(steps), candidates, |candidates|)
  }

  predicate HandledTo(start: World, tried: set<Target>, candidates: seq<string>, n: nat)
    requires n <= |candidates|
  {
    forall i :: 0 <= i < n ==> Handled(start, tried, candidates[i])
  }

  /** Only candidates before the n-th have had their turn, in order. */
  predicate Turns(steps: seq<Attempt>, candidates: seq<string>, n: nat)
    requires n <= |candidates|
  {
    && InOrder(steps, candidates)
    && forall i :: 0 <= i < |steps| ==> DatabaseOf(steps[i].target) in candidates[..n]
  }

  lemma TurnsNext(steps: seq<Attempt>, steps': seq<Attempt>, candidates: seq<string>, n: nat)
    requires n < |candidates| && DistinctIds(candidates) && Turns(steps, candidates, n)
    ensures Fresh(steps, candidates[n])
    ensures Continues(steps, steps', candidates[n]) ==> Turns(steps', candidates, n + 1)
  {
    hide DatabaseOf;
    if Continues(steps, steps', candidates[n]) {
      forall i | 0 <= i < |steps'|
        ensures if i < |steps| then exists a :: 0 <= a < n && candidates[a] == DatabaseOf(steps'[i].target)
                else DatabaseOf(steps'[i].target) == candidates[n]
      {
        if i < |steps| { assert steps'[i] == steps[i]; }
      }
    }
  }

  lemma HandledMore(start: World, tried: set<Target>, tried': set<Target>, candidates: seq<string>, n: nat)
    requires n < |candidates| && HandledTo(start, tried, candidates, n) && tried <= tried'
    requires Handled(start, tried', candidates[n])
    ensures HandledTo(start, tried', candidates, n + 1)
  {
    hide Guarded, ProtectedLayer;
  }

  lemma TriedMore(steps: seq<Attempt>, steps': seq<Attempt>)
    requires steps <= steps'
    ensures Tried(steps) <= Tried(steps')
  {
    forall t | t in Tried(steps) ensures t in Tried(steps') {
      var i :| 0 <= i < |steps| && steps[i].target == t;
      assert steps'[i] == steps[i];
    }
  }

  /** What a cleanup does, whatever fails. On every exit the world is faithful to its start for the targets whose
      directories were found, all of which were permitted, and exactly the directories were found that were there when
      their turn came; on success everything there was to do has been tried in order, and the result counts the databases
      dropped. */
  ghost predicate Outcome(
    job: Job, start: World, listed: seq<Listed>, cutoff: int,
    result: Result<nat, CleanupError>, after: World, candidates: seq<string>, steps: seq<Attempt>)
  {
    && candidates == (if job.failing(List) then [] else Expired(listed, cutoff))
    && Faithful(job, start, Hits(steps), after) && AllPermitted(start, Set(candidates), Tried(steps))
    && Played(job, start.disk, steps)
    && (result.Ok? ==> Complete(job, start, candidates, steps, after) && result.value == |Wholes(Hits(steps))|)
    && (result.Err? ==>
          (result.error == InvalidId && exists t :: Permitted(start, Set(candidates), t) && !ValidTarget(t))
          || Faulty(job))
  }

  method CleanupExpired(job: Job, start: World, listed: seq<Listed>, cutoff: int)
    returns (result: Result<nat, CleanupError>, after: World, candidates: seq<string>, ghost steps: seq<Attempt>)
    requires Distinct(listed)
    ensures Outcome(job, start, listed, cutoff, result, after, candidates, steps)
  {
    hide Faithful, Handled, Set, Permitted, ValidTarget, Expired, DistinctIds, Going, Turns, Fresh, AllPermitted, Wholes,
      HandledTo, Hits, Tried, Continues, Played;
    after, candidates, steps := start, [], [];
    NothingTried(job, start, []);
    if job.failing(List) { return Err(ListFailed), after, [], steps; }
    candidates := ExpiredDatabases(listed, cutoff);
    ExpiredDistinct(listed, cutoff);
    ghost var expired := Set(candidates);
    var deleted := 0;
    NothingTried(job, start, candidates);
    for n := 0 to |candidates|
      invariant Faithful(job, start, Hits(steps), after) && Going(job, start, expired, steps, after)
      invariant AllPermitted(start, expired, Tried(steps)) && Turns(steps, candidates, n) && Played(job, start.disk, steps)
      invariant HandledTo(start, Tried(steps), candidates, n)
      invariant deleted == |Wholes(Hits(steps))|
    {
      var d := candidates[n];
      InSet(candidates, n);
      TurnsNext(steps, steps, candidates, n);
      var error, next, dropped, steps' := CleanupOne(job, after, d, start, expired, steps);
      TurnsNext(steps, steps', candidates, n);
      if error.Some? { return Err(error.value), next, candidates, steps'; }
      ContinuesMeans(steps, steps', d);
      TriedMore(steps, steps');
      HandledMore(start, Tried(steps), Tried(steps'), candidates, n);
      after, steps, deleted := next, steps', deleted + dropped;
    }
    TurnsOver(steps, candidates);
    return Ok(deleted), after, candidates, steps;
  }

  lemma NothingTried(job: Job, start: World, candidates: seq<string>)
    ensures Faithful(job, start, Hits([]), start) && AllPermitted(start, Set(candidates), Tried([]))
    ensures Played(job, start.disk, []) && Going(job, start, Set(candidates), [], start)
    ensures Turns([], candidates, 0) && HandledTo(start, Tried([]), candidates, 0) && |Wholes(Hits([]))| == 0
  {
    assert Hits([]) == {} && Tried([]) == {} && Wholes({}) == {};
  }

  lemma InSet(candidates: seq<string>, n: nat)
    requires n < |candidates|
    ensures candidates[n] in Set(candidates)
  {
  }

  lemma ContinuesMeans(steps: seq<Attempt>, steps': seq<Attempt>, d: string)
    requires Continues(steps, steps', d)
    ensures steps <= steps'
  {
  }

  lemma TurnsOver(steps: seq<Attempt>, candidates: seq<string>)
    requires Turns(steps, candidates, |candidates|)
    ensures InOrder(steps, candidates)
  {
  }
}
