/** The life of a shard: a handle in the table, reference-counted clones in tasks, a bounded queue to one writer, and
    a close that either takes only unused shards (idle) or everything below a directory (drop).
    Every atomic step of every task is a transition; a run is any interleaving of them. */
module Shards {
  type Path = seq<string>

  /** Shard instances and tasks are numbered as they appear. */
  type Sid = nat

  type Tid = nat

  datatype Command = Put(task: Tid) | Shutdown

  datatype Reason = Idle | Dropped

  /** What a closer has done with a shard it removed from the table. */
  datatype Closing = Open | Removed(reason: Reason) | Asked(reason: Reason) | Closed(reason: Reason)

  /** `taken` is the batch being written, `stopping` that the writer took a shutdown. `refs` counts the clones of tasks
      and the handle of the table, later of the closer. `ahead` records the puts that a queued shutdown found before it. */
  datatype Shard = Shard(
    path: Path, queue: seq<Command>, taken: seq<Tid>, stopping: bool, alive: bool, closing: Closing, refs: int,
    ahead: set<Tid>)

  /** A task holds a handle for a put or for a read. */
  datatype Task = Fresh | Holding(sid: Sid, put: bool) | Awaiting(sid: Sid) | Done

  datatype State = State(
    table: map<Path, Sid>, shards: map<Sid, Shard>, tasks: map<Tid, Task>, answered: set<Tid>, capacity: nat)

  function TaskOf(s: State, t: Tid): Task { if t in s.tasks then s.tasks[t] else Fresh }

  predicate Uses(task: Task, sid: Sid) {
    (task.Holding? || task.Awaiting?) && task.sid == sid
  }

  /** Tasks that own a clone of the handle. */
  function Users(s: State, sid: Sid): set<Tid> {
    set t | t in s.tasks && Uses(s.tasks[t], sid)
  }

  /** The puts of a queue, in order. */
  function Tasks(queue: seq<Command>): seq<Tid> {
    if queue == [] then [] else (if queue[0].Put? then [queue[0].task] else []) + Tasks(queue[1..])
  }

  /** The puts before the first shutdown of a queue. */
  function Before(queue: seq<Command>): set<Tid> {
    if queue == [] || queue[0].Shutdown? then {} else {queue[0].task} + Before(queue[1..])
  }

  /** Puts a shard still has to answer, in order. */
  function Pipeline(shard: Shard): seq<Tid> { shard.taken + Tasks(shard.queue) }

  function Elements(ts: seq<Tid>): set<Tid> { set t | t in ts }

  /** The puts that will be answered before the writer can stop. */
  function Pending(shard: Shard): set<Tid> {
    Elements(shard.taken) + if shard.stopping then {} else Before(shard.queue)
  }

  datatype Step =
    | Lookup(t: Tid, path: Path, put: bool)
    | OpenShard(t: Tid, path: Path, sid: Sid, put: bool)
    | Send(t: Tid)
    | Reject(t: Tid)
    | Finish(t: Tid)
    | TakeBatch(sid: Sid, count: nat, stop: bool)
    | TakeShutdown(sid: Sid)
    | Answer(sid: Sid)
    | Stop(sid: Sid)
    | Receive(t: Tid)
    | Remove(paths: set<Path>, reason: Reason)
    | AskShutdown(sid: Sid)

  // The steps of a request

  /** The table already has the path: its handle is cloned. */
  predicate LookedUp(s: State, t: Tid, path: Path, put: bool, s': State) {
    && TaskOf(s, t).Fresh? && path in s.table && s.table[path] in s.shards
    && var sid := s.table[path];
       s' == s.(tasks := s.tasks[t := Holding(sid, put)], shards := s.shards[sid := s.shards[sid].(refs := s.shards[sid].refs + 1)])
  }

  /** First open of a path, under the write lock: one handle for the table and one for the opener. */
  predicate Opened(s: State, t: Tid, path: Path, sid: Sid, put: bool, s': State) {
    && TaskOf(s, t).Fresh? && path !in s.table && sid !in s.shards
    && s' == s.(table := s.table[path := sid], tasks := s.tasks[t := Holding(sid, put)],
                shards := s.shards[sid := Shard(path, [], [], false, true, Open, 2, {})])
  }

  /** `try_send` succeeds only into a queue with room whose writer still listens. */
  predicate Sent(s: State, t: Tid, s': State) {
    && TaskOf(s, t).Holding? && s.tasks[t].put && s.tasks[t].sid in s.shards
    && var sid := s.tasks[t].sid; var shard := s.shards[sid];
       && shard.alive && |shard.queue| < s.capacity
       && s' == s.(tasks := s.tasks[t := Awaiting(sid)], shards := s.shards[sid := shard.(queue := shard.queue + [Put(t)])])
  }

  /** A task is done with its handle. */
  predicate Released(s: State, t: Tid, s': State) {
    && TaskOf(s, t).Holding? && s.tasks[t].sid in s.shards
    && var sid := s.tasks[t].sid; var shard := s.shards[sid];
       && s' == s.(tasks := s.tasks[t := Done], shards := s.shards[sid := shard.(refs := shard.refs - 1)])
  }

  /** A read is done. */
  predicate Finished(s: State, t: Tid, s': State) { Released(s, t, s') && !s.tasks[t].put }

  /** `try_send` finds no room or no writer: the put is turned away. */
  predicate Rejected(s: State, t: Tid, s': State) {
    && Released(s, t, s') && s.tasks[t].put
    && var shard := s.shards[s.tasks[t].sid]; (!shard.alive || |shard.queue| >= s.capacity)
  }

  /** The reply arrived, or the writer ended without one. */
  predicate Received(s: State, t: Tid, s': State) {
    && TaskOf(s, t).Awaiting? && s.tasks[t].sid in s.shards
    && var sid := s.tasks[t].sid; var shard := s.shards[sid];
       && (t in s.answered || !shard.alive)
       && s' == s.(tasks := s.tasks[t := Done], shards := s.shards[sid := shard.(refs := shard.refs - 1)])
  }

  // The steps of the writer

  predicate BatchTaken(s: State, sid: Sid, count: nat, stop: bool, s': State) {
    && sid in s.shards
    && var shard := s.shards[sid];
       && shard.alive && shard.taken == [] && !shard.stopping
       && 0 < count <= 256 && count <= |shard.queue|
       && (forall i :: 0 <= i < count ==> shard.queue[i].Put?)
       && (stop ==> count < |shard.queue| && shard.queue[count].Shutdown?)
       && s' == s.(shards := s.shards[sid :=
                     shard.(taken := Tasks(shard.queue[..count]),
                            queue := shard.queue[(if stop then count + 1 else count)..], stopping := stop)])
  }

  predicate ShutdownTaken(s: State, sid: Sid, s': State) {
    && sid in s.shards
    && var shard := s.shards[sid];
       && shard.alive && shard.taken == [] && !shard.stopping && shard.queue != [] && shard.queue[0].Shutdown?
       && s' == s.(shards := s.shards[sid := shard.(queue := shard.queue[1..], stopping := true)])
  }

  /** The next put of the batch is answered, with success or with an error. */
  predicate AnswerGiven(s: State, sid: Sid, s': State) {
    && sid in s.shards
    && var shard := s.shards[sid];
       && shard.alive && shard.taken != []
       && s' == s.(answered := s.answered + {shard.taken[0]}, shards := s.shards[sid := shard.(taken := shard.taken[1..])])
  }

  /** The shutdown is answered and the writer ends; what is still queued is dropped. */
  predicate Stopped(s: State, sid: Sid, s': State) {
    && sid in s.shards
    && var shard := s.shards[sid];
       && shard.alive && shard.taken == [] && shard.stopping && shard.closing.Asked?
       && s' == s.(shards := s.shards[sid := shard.(alive := false, closing := Closed(shard.closing.reason))])
  }

  // The steps of closing

  function WithoutPaths(s: State, paths: set<Path>, reason: Reason): State
    requires paths <= s.table.Keys
  {
    s.(table := s.table - paths,
       shards := map sid | sid in s.shards ::
         if exists p :: p in paths && s.table[p] == sid then s.shards[sid].(closing := Removed(reason)) else s.shards[sid])
  }

  /** Under the write lock: idle closing takes only shards whose sole handle is the table's, dropping takes any. */
  predicate RemovedFromTable(s: State, paths: set<Path>, reason: Reason, s': State) {
    && paths <= s.table.Keys
    && (forall p :: p in paths ==> s.table[p] in s.shards && (reason.Idle? ==> s.shards[s.table[p]].refs == 1))
    && s' == WithoutPaths(s, paths, reason)
  }

  /** The closer queues its shutdown, waiting for room. */
  predicate ShutdownAsked(s: State, sid: Sid, s': State) {
    && sid in s.shards
    && var shard := s.shards[sid];
       && shard.closing.Removed? && shard.alive && |shard.queue| < s.capacity
       && s' == s.(shards := s.shards[sid := shard.(queue := shard.queue + [Shutdown], closing := Asked(shard.closing.reason),
                                                         ahead := Elements(Pipeline(shard)))])
  }

  predicate Next(s: State, step: Step, s': State) {
    match step
    case Lookup(t, path, put) => LookedUp(s, t, path, put, s')
    case OpenShard(t, path, sid, put) => Opened(s, t, path, sid, put, s')
    case Send(t) => Sent(s, t, s')
    case Reject(t) => Rejected(s, t, s')
    case Finish(t) => Finished(s, t, s')
    case TakeBatch(sid, count, stop) => BatchTaken(s, sid, count, stop, s')
    case TakeShutdown(sid) => ShutdownTaken(s, sid, s')
    case Answer(sid) => AnswerGiven(s, sid, s')
    case Stop(sid) => Stopped(s, sid, s')
    case Receive(t) => Received(s, t, s')
    case Remove(paths, reason) => RemovedFromTable(s, paths, reason, s')
    case AskShutdown(sid) => ShutdownAsked(s, sid, s')
  }
}
