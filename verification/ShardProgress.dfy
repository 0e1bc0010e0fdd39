/** What can happen next: requests are turned away only for a reason, and no waiter and no writer is ever stuck. */
module ShardProgress {
  import opened Shards
  import opened ShardLaws

  ghost predicate Can(s: State, step: Step) { exists s' :: Next(s, step, s') }

  /** A put that holds a shard is sent if the writer lives and its queue has room, and turned away if not. */
  lemma PutSentOrRejected(s: State, t: Tid, sid: Sid)
    requires TaskOf(s, t) == Holding(sid, true) && sid in s.shards
    ensures var room := s.shards[sid].alive && |s.shards[sid].queue| < s.capacity;
            && (Can(s, Send(t)) <==> room) && (Can(s, Reject(t)) <==> !room) && !Can(s, Finish(t))
  {
    var shard := s.shards[sid];
    var sent := s.(tasks := s.tasks[t := Awaiting(sid)], shards := s.shards[sid := shard.(queue := shard.queue + [Put(t)])]);
    var done := s.(tasks := s.tasks[t := Done], shards := s.shards[sid := shard.(refs := shard.refs - 1)]);
    if shard.alive && |shard.queue| < s.capacity {
      assert Next(s, Send(t), sent);
    } else {
      assert Next(s, Reject(t), done);
    }
  }

  /** A read that holds a shard finishes, and is neither sent nor turned away. */
  lemma ReadFinishes(s: State, t: Tid, sid: Sid)
    requires TaskOf(s, t) == Holding(sid, false) && sid in s.shards
    ensures Can(s, Finish(t)) && !Can(s, Send(t)) && !Can(s, Reject(t))
  {
    var shard := s.shards[sid];
    assert Next(s, Finish(t), s.(tasks := s.tasks[t := Done], shards := s.shards[sid := shard.(refs := shard.refs - 1)]));
  }

  /** What a send does: the put is last in the queue and its task waits; nothing else changes. */
  lemma SendEnqueues(s: State, t: Tid, s': State)
    requires Next(s, Send(t), s')
    ensures var sid := s.tasks[t].sid;
            && sid in s.shards && s'.shards == s.shards[sid := s.shards[sid].(queue := s.shards[sid].queue + [Put(t)])]
            && s'.tasks == s.tasks[t := Awaiting(sid)] && s'.table == s.table && s'.answered == s.answered
  {
  }

  /** A new request finds the shard of its path in the table, or opens one with a new instance. */
  lemma RequestBegins(s: State, t: Tid, path: Path, sid: Sid, put: bool)
    requires Inv(s) && TaskOf(s, t).Fresh?
    ensures Can(s, Lookup(t, path, put)) <==> path in s.table
    ensures Can(s, OpenShard(t, path, sid, put)) <==> path !in s.table && sid !in s.shards
  {
    if path in s.table {
      var found := s.table[path];
      assert Next(s, Lookup(t, path, put),
                  s.(tasks := s.tasks[t := Holding(found, put)],
                     shards := s.shards[found := s.shards[found].(refs := s.shards[found].refs + 1)]));
    } else if sid !in s.shards {
      assert Next(s, OpenShard(t, path, sid, put),
                  s.(table := s.table[path := sid], tasks := s.tasks[t := Holding(sid, put)],
                     shards := s.shards[sid := Shard(path, [], [], false, true, Open, 2, {})]));
    }
  }

  /** A waiting task goes on exactly when it has been answered or its writer has ended. */
  lemma ReceivesExactly(s: State, t: Tid, sid: Sid)
    requires TaskOf(s, t) == Awaiting(sid) && sid in s.shards
    ensures Can(s, Receive(t)) <==> t in s.answered || !s.shards[sid].alive
  {
    var shard := s.shards[sid];
    if t in s.answered || !shard.alive {
      assert Next(s, Receive(t), s.(tasks := s.tasks[t := Done], shards := s.shards[sid := shard.(refs := shard.refs - 1)]));
    }
  }

  /** The first commands of a queue make a batch exactly when they are between one and 256 puts, nothing is being written
      and no shutdown has been taken. */
  lemma BatchTakenExactly(s: State, sid: Sid, count: nat)
    requires sid in s.shards && s.shards[sid].alive
    ensures var shard := s.shards[sid];
            Can(s, TakeBatch(sid, count, false)) <==>
            && shard.taken == [] && !shard.stopping && 1 <= count <= 256 && count <= |shard.queue|
            && forall i :: 0 <= i < count ==> shard.queue[i].Put?
  {
    var shard := s.shards[sid];
    if && shard.taken == [] && !shard.stopping && 1 <= count <= 256 && count <= |shard.queue|
       && forall i :: 0 <= i < count ==> shard.queue[i].Put?
    {
      var next := shard.(taken := Tasks(shard.queue[..count]), queue := shard.queue[count..], stopping := false);
      assert Next(s, TakeBatch(sid, count, false), s.(shards := s.shards[sid := next]));
    }
  }

  /** A writer with a batch answers its first put, and takes nothing else before. */
  lemma BatchIsAnswered(s: State, sid: Sid)
    requires sid in s.shards && s.shards[sid].alive && s.shards[sid].taken != []
    ensures Can(s, Answer(sid)) && !Can(s, Stop(sid)) && !Can(s, TakeShutdown(sid))
    ensures forall s' :: Next(s, Answer(sid), s') ==>
              s'.answered == s.answered + {s.shards[sid].taken[0]} && s'.shards[sid].taken == s.shards[sid].taken[1..]
  {
    var shard := s.shards[sid];
    assert Next(s, Answer(sid), s.(answered := s.answered + {shard.taken[0]},
                                   shards := s.shards[sid := shard.(taken := shard.taken[1..])]));
  }

  predicate WriterStep(step: Step, sid: Sid) {
    match step
    case TakeBatch(i, _, _) => i == sid
    case TakeShutdown(i) => i == sid
    case Answer(i) => i == sid
    case Stop(i) => i == sid
    case _ => false
  }

  /** A living writer with anything queued, taken or to stop for can go on. */
  lemma WriterNeverStuck(s: State, sid: Sid) returns (step: Step)
    requires Inv(s) && sid in s.shards && s.shards[sid].alive
    requires s.shards[sid].queue != [] || s.shards[sid].taken != [] || s.shards[sid].stopping
    ensures WriterStep(step, sid) && Can(s, step)
  {
    hide Inv, Can;
    var shard := s.shards[sid];
    if shard.taken != [] {
      BatchIsAnswered(s, sid);
      step := Answer(sid);
    } else if shard.stopping {
      StoppingStops(s, sid);
      step := Stop(sid);
    } else if shard.queue[0].Put? {
      BatchTakenExactly(s, sid, 1);
      step := TakeBatch(sid, 1, false);
    } else {
      ShutdownIsTaken(s, sid);
      step := TakeShutdown(sid);
    }
  }

  lemma StoppingStops(s: State, sid: Sid)
    requires Inv(s) && sid in s.shards && s.shards[sid].alive && s.shards[sid].taken == [] && s.shards[sid].stopping
    ensures Can(s, Stop(sid))
  {
    hide Inv, HandlesOk, PipelineOk, AheadOk, NoShutdown;
    ShardOf(s, sid);
    var shard := s.shards[sid];
    assert Next(s, Stop(sid),
                s.(shards := s.shards[sid := shard.(alive := false, closing := Closed(shard.closing.reason))]));
  }

  lemma ShutdownIsTaken(s: State, sid: Sid)
    requires sid in s.shards && s.shards[sid].alive && s.shards[sid].taken == [] && !s.shards[sid].stopping
    requires s.shards[sid].queue != [] && s.shards[sid].queue[0].Shutdown?
    ensures Can(s, TakeShutdown(sid))
  {
    var shard := s.shards[sid];
    assert Next(s, TakeShutdown(sid), s.(shards := s.shards[sid := shard.(queue := shard.queue[1..], stopping := true)]));
  }

  /** In every run, a task that waits can go on itself, or its writer can. */
  lemma WaiterNeverStuck(run: seq<State>, steps: seq<Step>, i: nat, t: Tid) returns (step: Step)
    requires IsRun(run, steps) && i < |run| && TaskOf(run[i], t).Awaiting?
    ensures Can(run[i], step) && (step == Receive(t) || WriterStep(step, run[i].tasks[t].sid))
  {
    var s, sid := run[i], run[i].tasks[t].sid;
    RunKeeps(run, steps, i);
    IdleCloseSparesWaiters(run, steps, i, t);
    ReceivesExactly(s, t, sid);
    if t in s.answered || !s.shards[sid].alive {
      step := Receive(t);
    } else {
      WaitersAreServed(run, steps, i, t);
      hide IsRun, Inv;
      SomethingToWrite(s.shards[sid], t);
      step := WriterNeverStuck(s, sid);
    }
  }

  lemma SomethingToWrite(shard: Shard, t: Tid)
    requires t in Pipeline(shard)
    ensures shard.queue != [] || shard.taken != []
  {
  }

  /** Idle closing can take a shard of the table exactly when nobody but the table has a handle; a drop can take any. */
  lemma RemovedExactly(s: State, path: Path, reason: Reason)
    requires Inv(s) && path in s.table
    ensures Can(s, Remove({path}, reason)) <==> reason.Dropped? || Users(s, s.table[path]) == {}
  {
    hide Inv, Users, WithoutPaths, Next;
    SoleHandle(s, path);
    var paths := {path};
    if reason.Dropped? || Users(s, s.table[path]) == {} { Removes(s, paths, path, reason); }
    if reason.Idle? {
      forall s' | Next(s, Remove(paths, reason), s') ensures s.shards[s.table[path]].refs == 1 {
        RemovalNeeds(s, paths, path, reason, s');
      }
    }
  }

  /** A removal takes its paths out of the table and marks exactly the open shards of these paths. */
  lemma RemovalEffect(s: State, paths: set<Path>, reason: Reason, s': State, sid: Sid)
    requires Inv(s) && Next(s, Remove(paths, reason), s') && sid in s.shards
    ensures s'.table == s.table - paths && s'.tasks == s.tasks && s'.answered == s.answered && sid in s'.shards
    ensures var shard := s.shards[sid];
            s'.shards[sid] ==
            if shard.closing.Open? && shard.path in paths then shard.(closing := Removed(reason)) else shard
  {
    TableOf(s);
    hide Inv;
  }

  lemma Removes(s: State, paths: set<Path>, path: Path, reason: Reason)
    requires paths == {path} && path in s.table && s.table[path] in s.shards
    requires reason.Dropped? || s.shards[s.table[path]].refs == 1
    ensures Next(s, Remove(paths, reason), WithoutPaths(s, paths, reason))
  {
    hide WithoutPaths;
  }

  lemma RemovalNeeds(s: State, paths: set<Path>, path: Path, reason: Reason, s': State)
    requires path in paths && Next(s, Remove(paths, reason), s') && reason.Idle?
    ensures path in s.table && s.table[path] in s.shards && s.shards[s.table[path]].refs == 1
  {
    hide WithoutPaths;
  }

  lemma SoleHandle(s: State, path: Path)
    requires Inv(s) && path in s.table
    ensures s.table[path] in s.shards && (s.shards[s.table[path]].refs == 1 <==> Users(s, s.table[path]) == {})
  {
    TableOf(s);
    ShardOf(s, s.table[path]);
    hide Inv, PipelineOk, AheadOk, PhaseOk, TasksOk, Users;
  }

  lemma TableOf(s: State)
    requires Inv(s)
    ensures TableOk(s)
  {
    hide TableOk, TasksOk, ShardOk;
  }

  /** The closer of a removed shard queues its shutdown as soon as there is room. */
  lemma ShutdownAskedExactly(s: State, sid: Sid)
    requires Inv(s) && sid in s.shards
    ensures Can(s, AskShutdown(sid)) <==> s.shards[sid].closing.Removed? && |s.shards[sid].queue| < s.capacity
  {
    ShardOf(s, sid);
    hide PipelineOk, AheadOk, HandlesOk;
    var shard := s.shards[sid];
    if shard.closing.Removed? && |shard.queue| < s.capacity {
      assert Next(s, AskShutdown(sid),
                  s.(shards := s.shards[sid := shard.(queue := shard.queue + [Shutdown],
                                                      closing := Asked(shard.closing.reason),
                                                      ahead := Elements(Pipeline(shard)))]));
    }
  }
}
