/** What every interleaving of requests, writers and closers keeps. */
module ShardLaws {
  import opened Shards

  predicate NoDuplicates(ts: seq<Tid>) {
    ts == [] || (ts[0] !in ts[1..] && NoDuplicates(ts[1..]))
  }

  predicate NoShutdown(queue: seq<Command>) {
    queue == [] || (queue[0].Put? && NoShutdown(queue[1..]))
  }

  /** How far a close has come decides what the queue and the writer look like. */
  predicate PhaseOk(shard: Shard) {
    && (shard.closing.Open? || shard.closing.Removed? ==> !shard.stopping && NoShutdown(shard.queue))
    && (shard.alive <==> !shard.closing.Closed?)
    && (!shard.alive ==> shard.taken == [])
  }

  /** The count of handles is exact; an idle close never meets a user. */
  ghost predicate HandlesOk(s: State, sid: Sid)
    requires sid in s.shards
  {
    && s.shards[sid].refs == |Users(s, sid)| + 1
    && (!s.shards[sid].closing.Open? && s.shards[sid].closing.reason.Idle? ==> Users(s, sid) == {})
  }

  /** What the writer still has to answer are waiting tasks, once each, and all the waiting tasks without an answer. */
  ghost predicate PipelineOk(s: State, sid: Sid)
    requires sid in s.shards
  {
    s.shards[sid].alive ==>
      && NoDuplicates(Pipeline(s.shards[sid]))
      && (forall t :: t in Pipeline(s.shards[sid]) <==> TaskOf(s, t) == Awaiting(sid) && t !in s.answered)
  }

  /** The puts ahead of a shutdown are answered or will be before the writer stops. */
  ghost predicate AheadOk(s: State, shard: Shard) {
    shard.closing.Asked? || shard.closing.Closed? ==>
      shard.ahead <= s.answered + if shard.alive then Pending(shard) else {}
  }

  ghost predicate ShardOk(s: State, sid: Sid)
    requires sid in s.shards
  {
    PhaseOk(s.shards[sid]) && HandlesOk(s, sid) && PipelineOk(s, sid) && AheadOk(s, s.shards[sid])
  }

  /** The table holds exactly the shards nobody has begun to close, under their paths. */
  predicate TableOk(s: State) {
    && (forall p :: p in s.table ==> s.table[p] in s.shards && s.shards[s.table[p]].path == p && s.shards[s.table[p]].closing.Open?)
    && (forall sid :: sid in s.shards && s.shards[sid].closing.Open? ==>
          s.shards[sid].path in s.table && s.table[s.shards[sid].path] == sid)
  }

  predicate TasksOk(s: State) {
    && (forall t :: t in s.tasks && (s.tasks[t].Holding? || s.tasks[t].Awaiting?) ==> s.tasks[t].sid in s.shards)
    && (forall t :: t in s.answered ==> t in s.tasks && (s.tasks[t].Awaiting? || s.tasks[t].Done?))
  }

  ghost predicate Inv(s: State) {
    TableOk(s) && TasksOk(s) && forall sid :: sid in s.shards ==> ShardOk(s, sid)
  }

  // Queues

  lemma {:induction false} TasksConcat(a: seq<Command>, b: seq<Command>)
    ensures Tasks(a + b) == Tasks(a) + Tasks(b)
  {
    if a == [] {
      assert a + b == b;
    } else {
      assert (a + b)[1..] == a[1..] + b && (a + b)[0] == a[0];
      TasksConcat(a[1..], b);
      if a[0].Put? {
        assert Tasks(a + b) == [a[0].task] + (Tasks(a[1..]) + Tasks(b));
      } else {
        assert Tasks(a + b) == [] + Tasks(a[1..] + b);
      }
    }
  }

  lemma {:induction false} BeforeConcat(a: seq<Command>, b: seq<Command>)
    ensures Before(a + b) == if NoShutdown(a) then Elements(Tasks(a)) + Before(b) else Before(a)
  {
    if a == [] {
      assert a + b == b;
    } else {
      assert (a + b)[1..] == a[1..] + b;
      BeforeConcat(a[1..], b);
    }
  }

  lemma {:induction false} NoShutdownPrefix(queue: seq<Command>)
    requires forall i :: 0 <= i < |queue| ==> queue[i].Put?
    ensures NoShutdown(queue)
  {
    if queue != [] { NoShutdownPrefix(queue[1..]); }
  }

  lemma {:induction false} NoShutdownAppend(queue: seq<Command>, t: Tid)
    requires NoShutdown(queue)
    ensures NoShutdown(queue + [Put(t)])
  {
    if queue == [] {
      assert (queue + [Put(t)])[1..] == [];
    } else {
      assert (queue + [Put(t)])[1..] == queue[1..] + [Put(t)];
      NoShutdownAppend(queue[1..], t);
    }
  }

  lemma {:induction false} NoDuplicatesAppend(ts: seq<Tid>, t: Tid)
    requires NoDuplicates(ts) && t !in ts
    ensures NoDuplicates(ts + [t])
  {
    if ts == [] {
      assert (ts + [t])[1..] == [];
    } else {
      assert (ts + [t])[1..] == ts[1..] + [t];
      NoDuplicatesAppend(ts[1..], t);
    }
  }

  // Frames

  /** A shard that a step does not touch, while tasks and answers change only for tasks that do not use it. */
  lemma Untouched(s: State, s': State, sid: Sid)
    requires sid in s.shards && sid in s'.shards && s'.shards[sid] == s.shards[sid] && ShardOk(s, sid)
    requires forall t :: Uses(TaskOf(s', t), sid) <==> Uses(TaskOf(s, t), sid)
    requires forall t :: TaskOf(s', t) == Awaiting(sid) <==> TaskOf(s, t) == Awaiting(sid)
    requires s.answered <= s'.answered && forall t :: t in s'.answered && TaskOf(s, t) == Awaiting(sid) ==> t in s.answered
    ensures ShardOk(s', sid)
  {
    hide PhaseOk, HandlesOk, PipelineOk, AheadOk, Users, Uses, TaskOf;
    SameUsers(s, s', sid);
    UntouchedPipeline(s, s', sid);
    UntouchedHandles(s, s', sid);
    UntouchedAhead(s, s', sid);
  }

  lemma UntouchedPipeline(s: State, s': State, sid: Sid)
    requires sid in s.shards && sid in s'.shards && s'.shards[sid] == s.shards[sid] && PipelineOk(s, sid)
    requires forall t :: TaskOf(s', t) == Awaiting(sid) <==> TaskOf(s, t) == Awaiting(sid)
    requires s.answered <= s'.answered && forall t :: t in s'.answered && TaskOf(s, t) == Awaiting(sid) ==> t in s.answered
    ensures PipelineOk(s', sid)
  {
    hide NoDuplicates, Pipeline, TaskOf;
  }

  lemma UntouchedHandles(s: State, s': State, sid: Sid)
    requires sid in s.shards && sid in s'.shards && s'.shards[sid] == s.shards[sid] && HandlesOk(s, sid)
    requires Users(s', sid) == Users(s, sid)
    ensures HandlesOk(s', sid)
  {
    hide Users;
  }

  lemma UntouchedAhead(s: State, s': State, sid: Sid)
    requires sid in s.shards && sid in s'.shards && s'.shards[sid] == s.shards[sid] && AheadOk(s, s.shards[sid])
    requires s.answered <= s'.answered
    ensures AheadOk(s', s'.shards[sid])
  {
    hide Pending;
  }

  lemma SameUsers(s: State, s': State, sid: Sid)
    requires forall t :: Uses(TaskOf(s', t), sid) <==> Uses(TaskOf(s, t), sid)
    ensures Users(s', sid) == Users(s, sid)
  {
    forall t ensures t in Users(s, sid) <==> Uses(TaskOf(s, t), sid) {}
    forall t ensures t in Users(s', sid) <==> Uses(TaskOf(s', t), sid) {}
  }

  function Weight(task: Task, sid: Sid): int { if Uses(task, sid) then 1 else 0 }

  /** A task starts or ends its use of a shard. */
  lemma UsersChange(s: State, s': State, t: Tid, task: Task, sid: Sid)
    requires s'.tasks == s.tasks[t := task]
    ensures Users(s', sid) == if Uses(task, sid) then Users(s, sid) + {t} else Users(s, sid) - {t}
    ensures t in Users(s, sid) <==> Uses(TaskOf(s, t), sid)
  {
  }

  lemma UsersCount(s: State, s': State, t: Tid, task: Task, sid: Sid)
    requires s'.tasks == s.tasks[t := task]
    ensures |Users(s', sid)| == |Users(s, sid)| + Weight(task, sid) - Weight(TaskOf(s, t), sid)
  {
    UsersChange(s, s', t, task, sid);
    hide Users, TaskOf, Uses;
    AddRemove(Users(s, sid), t);
  }

  lemma AddRemove(ts: set<Tid>, t: Tid)
    ensures |ts + {t}| == |ts| + if t in ts then 0 else 1
    ensures |ts - {t}| == |ts| - if t in ts then 1 else 0
  {
  }

  /** Every shard but one is untouched by a step of one task. */
  lemma OthersKeep(s: State, s': State, t: Tid, task: Task, sid: Sid)
    requires Inv(s) && s'.tasks == s.tasks[t := task] && s'.answered == s.answered
    requires forall x :: x in s'.shards && x != sid ==> x in s.shards && s'.shards[x] == s.shards[x]
    requires forall x :: x != sid ==> !Uses(task, x) && !Uses(TaskOf(s, t), x)
    ensures forall x :: x in s'.shards && x != sid ==> ShardOk(s', x)
  {
    forall x | x in s'.shards && x != sid ensures ShardOk(s', x) {
      hide ShardOk;
      Untouched(s, s', x);
    }
  }

  lemma Assemble(s: State, sid: Sid)
    requires TableOk(s) && TasksOk(s)
    requires forall x :: x in s.shards && x != sid ==> ShardOk(s, x)
    requires sid in s.shards ==> ShardOk(s, sid)
    ensures Inv(s)
  {
    hide TableOk, TasksOk, ShardOk;
  }

  /** Changing one shard without opening or closing it leaves the table in order. */
  lemma TableKept(s: State, s': State, sid: Sid, shard: Shard)
    requires TableOk(s) && sid in s.shards && s'.table == s.table && s'.shards == s.shards[sid := shard]
    requires shard.path == s.shards[sid].path && (shard.closing.Open? <==> s.shards[sid].closing.Open?)
    ensures TableOk(s')
  {
  }

  lemma TasksKept(s: State, s': State, t: Tid, task: Task)
    requires TasksOk(s) && s'.tasks == s.tasks[t := task] && s'.answered == s.answered
    requires s.shards.Keys <= s'.shards.Keys
    requires (task.Holding? || task.Awaiting?) ==> task.sid in s'.shards
    requires t in s.answered ==> task.Awaiting? || task.Done?
    ensures TasksOk(s')
  {
  }

  lemma ShardOf(s: State, sid: Sid)
    requires Inv(s) && sid in s.shards
    ensures ShardOk(s, sid) && TableOk(s) && TasksOk(s)
  {
    hide ShardOk, TableOk, TasksOk;
  }

  // Steps of a request

  /** Taking or giving back a handle moves the count with the users. */
  lemma HandlesMove(s: State, s': State, t: Tid, task: Task, sid: Sid)
    requires sid in s.shards && sid in s'.shards && HandlesOk(s, sid) && s'.tasks == s.tasks[t := task]
    requires s'.shards[sid].closing == s.shards[sid].closing
    requires s'.shards[sid].refs == s.shards[sid].refs + Weight(task, sid) - Weight(TaskOf(s, t), sid)
    requires Uses(task, sid) ==> s.shards[sid].closing.Open? || Uses(TaskOf(s, t), sid)
    ensures HandlesOk(s', sid)
  {
    UsersCount(s, s', t, task, sid);
    UsersChange(s, s', t, task, sid);
    hide Users, TaskOf;
  }

  /** A task that neither starts nor stops waiting for an answer leaves the pipeline alone. */
  lemma PipelineSame(s: State, s': State, t: Tid, task: Task, sid: Sid)
    requires sid in s.shards && sid in s'.shards && PipelineOk(s, sid)
    requires s'.tasks == s.tasks[t := task] && s'.answered == s.answered
    requires s'.shards[sid].alive == s.shards[sid].alive
    requires s.shards[sid].alive ==>
               && Pipeline(s'.shards[sid]) == Pipeline(s.shards[sid])
               && (TaskOf(s, t) == Awaiting(sid) ==> t in s.answered)
               && (task == Awaiting(sid) ==> t in s.answered)
    ensures PipelineOk(s', sid)
  {
    hide NoDuplicates, Pipeline;
  }

  lemma LookedUpKeeps(s: State, t: Tid, path: Path, put: bool, s': State)
    requires Inv(s) && LookedUp(s, t, path, put, s')
    ensures Inv(s')
  {
    var sid := s.table[path];
    ShardOf(s, sid);
    OthersKeep(s, s', t, Holding(sid, put), sid);
    TableKept(s, s', sid, s'.shards[sid]);
    TasksKept(s, s', t, Holding(sid, put));
    HandlesMove(s, s', t, Holding(sid, put), sid);
    PipelineSame(s, s', t, Holding(sid, put), sid);
    assert AheadOk(s', s'.shards[sid]) && PhaseOk(s'.shards[sid]);
    hide Inv, TableOk, TasksOk, HandlesOk, PipelineOk, AheadOk, PhaseOk;
    Assemble(s', sid);
  }

  lemma OpenedKeeps(s: State, t: Tid, path: Path, sid: Sid, put: bool, s': State)
    requires Inv(s) && Opened(s, t, path, sid, put, s')
    ensures Inv(s')
  {
    InvParts(s);
    OthersKeep(s, s', t, Holding(sid, put), sid);
    hide Inv, ShardOk, Users;
    TasksKept(s, s', t, Holding(sid, put));
    UsersChange(s, s', t, Holding(sid, put), sid);
    NoUsers(s, sid);
    assert Users(s', sid) == {t};
    NewShardOk(s', path, sid, t);
    TableGrown(s, s', path, sid, s'.shards[sid]);
    hide Inv, TableOk, TasksOk, ShardOk;
    Assemble(s', sid);
  }

  lemma InvParts(s: State)
    requires Inv(s)
    ensures TableOk(s) && TasksOk(s)
  {
    hide TableOk, TasksOk, ShardOk;
  }

  lemma NoUsers(s: State, sid: Sid)
    requires TasksOk(s) && sid !in s.shards
    ensures Users(s, sid) == {}
  {
  }

  lemma TableGrown(s: State, s': State, path: Path, sid: Sid, shard: Shard)
    requires TableOk(s) && path !in s.table && sid !in s.shards && shard.path == path && shard.closing.Open?
    requires s'.table == s.table[path := sid] && s'.shards == s.shards[sid := shard]
    ensures TableOk(s')
  {
  }

  lemma NewShardOk(s: State, path: Path, sid: Sid, t: Tid)
    requires sid in s.shards && s.shards[sid] == Shard(path, [], [], false, true, Open, 2, {}) && Users(s, sid) == {t}
    requires TaskOf(s, t).Holding? && TaskOf(s, t).sid == sid
    ensures ShardOk(s, sid)
  {
    assert Pipeline(s.shards[sid]) == [];
    forall u ensures TaskOf(s, u) != Awaiting(sid) {
      assert u in Users(s, sid) <==> u == t;
    }
  }

  lemma SentPipeline(s: State, t: Tid, s': State)
    requires Sent(s, t, s') && PipelineOk(s, s.tasks[t].sid) && t !in s.answered
    ensures PipelineOk(s', s.tasks[t].sid)
  {
    var sid := s.tasks[t].sid;
    var shard := s.shards[sid];
    TasksConcat(shard.queue, [Put(t)]);
    assert Tasks([Put(t)]) == [t];
    assert Pipeline(s'.shards[sid]) == Pipeline(shard) + [t];
    hide Pipeline, Tasks, NoDuplicates;
    NoDuplicatesAppend(Pipeline(shard), t);
  }

  lemma SentPhase(shard: Shard, t: Tid, after: Shard, s: State)
    requires PhaseOk(shard) && AheadOk(s, shard) && after == shard.(queue := shard.queue + [Put(t)])
    ensures PhaseOk(after) && AheadOk(s, after)
  {
    if NoShutdown(shard.queue) { NoShutdownAppend(shard.queue, t); }
    BeforeConcat(shard.queue, [Put(t)]);
    BeforeConcat(shard.queue, []);
    assert shard.queue + [] == shard.queue;
  }

  lemma SentKeeps(s: State, t: Tid, s': State)
    requires Inv(s) && Sent(s, t, s')
    ensures Inv(s')
  {
    var sid := s.tasks[t].sid;
    ShardOf(s, sid);
    OthersKeep(s, s', t, Awaiting(sid), sid);
    TableKept(s, s', sid, s'.shards[sid]);
    TasksKept(s, s', t, Awaiting(sid));
    HandlesMove(s, s', t, Awaiting(sid), sid);
    SentPipeline(s, t, s');
    SentPhase(s.shards[sid], t, s'.shards[sid], s);
    assert AheadOk(s', s'.shards[sid]);
    hide Inv, TableOk, TasksOk, HandlesOk, PipelineOk, AheadOk, PhaseOk;
    Assemble(s', sid);
  }

  /** A task gives its handle back after a read, a refusal, or the end of its wait. */
  lemma DoneKeeps(s: State, t: Tid, s': State)
    requires Inv(s) && (Released(s, t, s') || Received(s, t, s'))
    ensures Inv(s')
  {
    var sid := s.tasks[t].sid;
    ShardOf(s, sid);
    OthersKeep(s, s', t, Done, sid);
    TableKept(s, s', sid, s'.shards[sid]);
    TasksKept(s, s', t, Done);
    HandlesMove(s, s', t, Done, sid);
    PipelineSame(s, s', t, Done, sid);
    assert AheadOk(s', s'.shards[sid]) && PhaseOk(s'.shards[sid]);
    hide Inv, TableOk, TasksOk, HandlesOk, PipelineOk, AheadOk, PhaseOk;
    Assemble(s', sid);
  }

  // Steps of the writer and the closer

  lemma AnswersKept(s: State, s': State, sid: Sid)
    requires TasksOk(s) && s'.tasks == s.tasks && s.shards.Keys <= s'.shards.Keys
    requires forall t :: t in s'.answered ==> t in s.answered || TaskOf(s, t) == Awaiting(sid)
    ensures TasksOk(s')
  {
  }

  /** Only one shard changes, and no task does. */
  lemma WriterStep(s: State, s': State, sid: Sid)
    requires Inv(s) && sid in s.shards && s'.tasks == s.tasks && s'.table == s.table
    requires sid in s'.shards && s'.shards == s.shards[sid := s'.shards[sid]]
    requires s'.shards[sid].path == s.shards[sid].path
    requires s'.shards[sid].closing.Open? <==> s.shards[sid].closing.Open?
    requires s.answered <= s'.answered
    requires forall t :: t in s'.answered ==> t in s.answered || TaskOf(s, t) == Awaiting(sid)
    requires ShardOk(s', sid)
    ensures Inv(s')
  {
    InvParts(s);
    ShardOf(s, sid);
    hide TableOk, TasksOk;
    TableKept(s, s', sid, s'.shards[sid]);
    AnswersKept(s, s', sid);
    forall x | x in s'.shards && x != sid ensures ShardOk(s', x) {
      hide ShardOk;
      Untouched(s, s', x);
    }
    hide Inv, TableOk, TasksOk, ShardOk;
    Assemble(s', sid);
  }

  lemma SamePeople(s: State, s': State, sid: Sid)
    requires sid in s.shards && sid in s'.shards && HandlesOk(s, sid) && s'.tasks == s.tasks
    requires s'.shards[sid].refs == s.shards[sid].refs
    requires s'.shards[sid].closing.Open? <==> s.shards[sid].closing.Open?
    requires !s.shards[sid].closing.Open? ==> s'.shards[sid].closing.reason == s.shards[sid].closing.reason
    ensures HandlesOk(s', sid)
  {
    assert Users(s', sid) == Users(s, sid);
  }

  lemma QueueSplit(queue: seq<Command>, count: nat, stop: bool)
    requires count <= |queue| && forall i :: 0 <= i < count ==> queue[i].Put?
    requires stop ==> count < |queue| && queue[count].Shutdown?
    ensures var rest := queue[(if stop then count + 1 else count)..];
            && Tasks(queue) == Tasks(queue[..count]) + Tasks(rest)
            && Before(queue) == Elements(Tasks(queue[..count])) + (if stop then {} else Before(rest))
            && (NoShutdown(queue) ==> !stop && NoShutdown(rest))
  {
    var a, b := queue[..count], queue[count..];
    assert a + b == queue;
    NoShutdownPrefix(a);
    TasksConcat(a, b);
    BeforeConcat(a, b);
    NoShutdownConcat(a, b);
    if stop { assert b[0].Shutdown? && b[1..] == queue[count + 1..]; }
  }

  lemma {:induction false} NoShutdownConcat(a: seq<Command>, b: seq<Command>)
    ensures NoShutdown(a + b) <==> NoShutdown(a) && NoShutdown(b)
  {
    if a == [] {
      assert a + b == b;
    } else {
      assert (a + b)[1..] == a[1..] + b;
      NoShutdownConcat(a[1..], b);
    }
  }

  lemma BatchTakenShard(s: State, shard: Shard, count: nat, stop: bool, after: Shard)
    requires count <= |shard.queue| && forall i :: 0 <= i < count ==> shard.queue[i].Put?
    requires stop ==> count < |shard.queue| && shard.queue[count].Shutdown?
    requires shard.alive && shard.taken == [] && !shard.stopping
    requires after == shard.(taken := Tasks(shard.queue[..count]),
                             queue := shard.queue[(if stop then count + 1 else count)..], stopping := stop)
    requires PhaseOk(shard) && AheadOk(s, shard)
    ensures PhaseOk(after) && AheadOk(s, after) && Pipeline(after) == Pipeline(shard)
  {
    hide Tasks, Before, NoShutdown;
    QueueSplit(shard.queue, count, stop);
  }

  lemma SamePipeline(s: State, s': State, sid: Sid)
    requires sid in s.shards && sid in s'.shards && PipelineOk(s, sid)
    requires s'.tasks == s.tasks && s'.answered == s.answered
    requires s'.shards[sid].alive ==> s.shards[sid].alive && Pipeline(s'.shards[sid]) == Pipeline(s.shards[sid])
    ensures PipelineOk(s', sid)
  {
    hide Pipeline, NoDuplicates;
  }

  lemma BatchTakenKeeps(s: State, sid: Sid, count: nat, stop: bool, s': State)
    requires Inv(s) && BatchTaken(s, sid, count, stop, s')
    ensures Inv(s')
  {
    ShardOf(s, sid);
    hide Inv, TableOk, TasksOk, HandlesOk, PipelineOk, AheadOk, PhaseOk, Pipeline;
    BatchTakenShard(s, s.shards[sid], count, stop, s'.shards[sid]);
    SamePeople(s, s', sid);
    SamePipeline(s, s', sid);
    SameAnswers(s, s', s'.shards[sid]);
    WriterStep(s, s', sid);
  }

  lemma SameAnswers(s: State, s': State, shard: Shard)
    requires AheadOk(s, shard) && s.answered <= s'.answered
    ensures AheadOk(s', shard)
  {
    hide Pending;
  }

  lemma ShutdownTakenKeeps(s: State, sid: Sid, s': State)
    requires Inv(s) && ShutdownTaken(s, sid, s')
    ensures Inv(s')
  {
    var shard, after := s.shards[sid], s'.shards[sid];
    ShardOf(s, sid);
    assert Tasks(shard.queue) == Tasks(after.queue) && Before(shard.queue) == {};
    SamePeople(s, s', sid);
    assert PipelineOk(s', sid);
    assert PhaseOk(after) && AheadOk(s', after);
    hide Inv, TableOk, TasksOk, HandlesOk, PipelineOk, AheadOk, PhaseOk;
    WriterStep(s, s', sid);
  }

  lemma AnswerGivenPipeline(s: State, sid: Sid, s': State)
    requires AnswerGiven(s, sid, s') && PipelineOk(s, sid)
    ensures PipelineOk(s', sid) && s.shards[sid].taken[0] !in s.answered
    ensures TaskOf(s, s.shards[sid].taken[0]) == Awaiting(sid)
  {
    var p := Pipeline(s.shards[sid]);
    assert p[0] == s.shards[sid].taken[0] && Pipeline(s'.shards[sid]) == p[1..];
    hide Pipeline;
    assert forall t :: t in p <==> t == p[0] || t in p[1..];
  }

  lemma AnswerGivenAhead(s: State, sid: Sid, s': State)
    requires AnswerGiven(s, sid, s') && AheadOk(s, s.shards[sid])
    ensures AheadOk(s', s'.shards[sid])
  {
    var shard := s.shards[sid];
    assert Elements(shard.taken) == {shard.taken[0]} + Elements(shard.taken[1..]);
  }

  lemma AnswerGivenKeeps(s: State, sid: Sid, s': State)
    requires Inv(s) && AnswerGiven(s, sid, s')
    ensures Inv(s')
  {
    ShardOf(s, sid);
    AnswerGivenPipeline(s, sid, s');
    AnswerGivenAhead(s, sid, s');
    SamePeople(s, s', sid);
    assert PhaseOk(s'.shards[sid]);
    hide Inv, TableOk, TasksOk, HandlesOk, PipelineOk, AheadOk, PhaseOk, Pipeline;
    WriterStep(s, s', sid);
  }

  lemma StoppedKeeps(s: State, sid: Sid, s': State)
    requires Inv(s) && Stopped(s, sid, s')
    ensures Inv(s') && s.shards[sid].ahead <= s'.answered
  {
    var shard, after := s.shards[sid], s'.shards[sid];
    ShardOf(s, sid);
    assert Pending(shard) == {};
    SamePeople(s, s', sid);
    assert PipelineOk(s', sid);
    assert PhaseOk(after) && AheadOk(s', after);
    hide Inv, TableOk, TasksOk, HandlesOk, PipelineOk, AheadOk, PhaseOk;
    WriterStep(s, s', sid);
  }

  lemma ShutdownAskedKeeps(s: State, sid: Sid, s': State)
    requires Inv(s) && ShutdownAsked(s, sid, s')
    ensures Inv(s')
  {
    var shard, after := s.shards[sid], s'.shards[sid];
    ShardOf(s, sid);
    TasksConcat(shard.queue, [Shutdown]);
    BeforeConcat(shard.queue, [Shutdown]);
    assert Tasks([Shutdown]) == [] && Before([Shutdown]) == {};
    assert Pipeline(after) == Pipeline(shard);
    SamePeople(s, s', sid);
    assert PipelineOk(s', sid);
    assert Elements(Pipeline(shard)) == Elements(shard.taken) + Elements(Tasks(shard.queue));
    assert PhaseOk(after) && AheadOk(s', after);
    hide Inv, TableOk, TasksOk, HandlesOk, PipelineOk, AheadOk, PhaseOk;
    WriterStep(s, s', sid);
  }

  lemma RemovedOne(s: State, paths: set<Path>, reason: Reason, s': State, sid: Sid)
    requires sid in s.shards && sid in s'.shards && ShardOk(s, sid) && s.shards[sid].closing.Open?
    requires s'.tasks == s.tasks && s'.answered == s.answered
    requires s'.shards[sid] == s.shards[sid].(closing := Removed(reason))
    requires reason.Idle? ==> s.shards[sid].refs == 1
    ensures ShardOk(s', sid)
  {
    assert Users(s', sid) == Users(s, sid);
    assert Pipeline(s'.shards[sid]) == Pipeline(s.shards[sid]);
    assert HandlesOk(s', sid) by { hide Users, NoDuplicates, Pipeline; }
    SamePipeline(s, s', sid);
  }

  lemma RemovedShard(s: State, paths: set<Path>, reason: Reason, s': State, sid: Sid)
    requires Inv(s) && RemovedFromTable(s, paths, reason, s') && sid in s'.shards
    ensures ShardOk(s', sid)
  {
    ShardOf(s, sid);
    if exists p :: p in paths && s.table[p] == sid {
      RemovedOne(s, paths, reason, s', sid);
    } else {
      hide ShardOk, Inv;
      Untouched(s, s', sid);
    }
  }

  lemma RemovedKeeps(s: State, paths: set<Path>, reason: Reason, s': State)
    requires Inv(s) && RemovedFromTable(s, paths, reason, s')
    ensures Inv(s')
  {
    forall sid | sid in s'.shards ensures ShardOk(s', sid) { RemovedShard(s, paths, reason, s', sid); }
    assert TableOk(s) && TasksOk(s);
    hide ShardOk, Inv;
    assert TasksOk(s');
    assert TableOk(s');
    InvFrom(s');
  }

  lemma InvFrom(s: State)
    requires TableOk(s) && TasksOk(s) && forall sid :: sid in s.shards ==> ShardOk(s, sid)
    ensures Inv(s)
  {
    hide TableOk, TasksOk, ShardOk;
  }

  lemma NextKeeps(s: State, step: Step, s': State)
    requires Inv(s) && Next(s, step, s')
    ensures Inv(s')
  {
    hide Inv, LookedUp, Opened, Sent, Released, Received, BatchTaken, ShutdownTaken, AnswerGiven, Stopped,
      RemovedFromTable, ShutdownAsked;
    match step
    case Lookup(t, path, put) => LookedUpKeeps(s, t, path, put, s');
    case OpenShard(t, path, sid, put) => OpenedKeeps(s, t, path, sid, put, s');
    case Send(t) => SentKeeps(s, t, s');
    case Reject(t) => DoneKeeps(s, t, s');
    case Finish(t) => DoneKeeps(s, t, s');
    case TakeBatch(sid, count, stop) => BatchTakenKeeps(s, sid, count, stop, s');
    case TakeShutdown(sid) => ShutdownTakenKeeps(s, sid, s');
    case Answer(sid) => AnswerGivenKeeps(s, sid, s');
    case Stop(sid) => StoppedKeeps(s, sid, s');
    case Receive(t) => DoneKeeps(s, t, s');
    case Remove(paths, reason) => RemovedKeeps(s, paths, reason, s');
    case AskShutdown(sid) => ShutdownAskedKeeps(s, sid, s');
  }

  // Runs

  predicate IsRun(run: seq<State>, steps: seq<Step>) {
    && |run| == |steps| + 1
    && (forall i :: 0 <= i < |steps| ==> Next(run[i], steps[i], run[i + 1]))
    && run[0].table == map[] && run[0].shards == map[] && run[0].tasks == map[] && run[0].answered == {}
  }

  lemma {:induction false} RunKeeps(run: seq<State>, steps: seq<Step>, i: nat)
    requires IsRun(run, steps) && i < |run|
    ensures Inv(run[i])
  {
    if i > 0 {
      RunKeeps(run, steps, i - 1);
      hide Inv;
      assert Next(run[i - 1], steps[i - 1], run[i]);
      hide Next;
      NextKeeps(run[i - 1], steps[i - 1], run[i]);
    }
  }

  /** In every run: a shard that idle closing removed has no user and nothing left to write, so a task that holds a
      handle or awaits a reply still finds its shard alive and in the table, unless its directory is being dropped. */
  lemma IdleCloseSparesWaiters(run: seq<State>, steps: seq<Step>, i: nat, t: Tid)
    requires IsRun(run, steps) && i < |run|
    requires TaskOf(run[i], t).Holding? || TaskOf(run[i], t).Awaiting?
    ensures var s, sid := run[i], run[i].tasks[t].sid;
            && sid in s.shards
            && (s.shards[sid].closing.Open? || s.shards[sid].closing.reason.Dropped?)
            && (s.shards[sid].closing.Open? ==>
                  s.shards[sid].alive && s.shards[sid].path in s.table && s.table[s.shards[sid].path] == sid)
  {
    RunKeeps(run, steps, i);
    var s, sid := run[i], run[i].tasks[t].sid;
    hide IsRun;
    ShardOf(s, sid);
    UsersChange(s, s, t, s.tasks[t], sid);
  }

  lemma IdleCloseHasNoWork(run: seq<State>, steps: seq<Step>, i: nat, sid: Sid)
    requires IsRun(run, steps) && i < |run| && sid in run[i].shards
    requires !run[i].shards[sid].closing.Open? && run[i].shards[sid].closing.reason.Idle?
    ensures run[i].shards[sid].alive ==> Pipeline(run[i].shards[sid]) == []
    ensures Users(run[i], sid) == {}
  {
    RunKeeps(run, steps, i);
    hide IsRun;
    ShardOf(run[i], sid);
    var p := Pipeline(run[i].shards[sid]);
    if run[i].shards[sid].alive && p != [] {
      assert p[0] in p;
      UsersChange(run[i], run[i], p[0], run[i].tasks[p[0]], sid);
    }
  }

  /** The writer never answers a put twice. */
  lemma EachPutAnsweredOnce(run: seq<State>, steps: seq<Step>, i: nat)
    requires IsRun(run, steps) && i < |steps| && steps[i].Answer?
    ensures var sid := steps[i].sid;
            && sid in run[i].shards && run[i].shards[sid].taken != []
            && run[i].shards[sid].taken[0] !in run[i].answered
            && run[i + 1].answered == run[i].answered + {run[i].shards[sid].taken[0]}
  {
    RunKeeps(run, steps, i);
    assert Next(run[i], steps[i], run[i + 1]);
    hide IsRun;
    ShardOf(run[i], steps[i].sid);
    hide Inv;
    AnswerGivenPipeline(run[i], steps[i].sid, run[i + 1]);
  }

  /** Whenever a shutdown is answered, every put queued ahead of it has been answered. */
  lemma ShutdownWaitsForPutsAhead(run: seq<State>, steps: seq<Step>, i: nat, sid: Sid)
    requires IsRun(run, steps) && i < |run| && sid in run[i].shards && run[i].shards[sid].closing.Closed?
    ensures run[i].shards[sid].ahead <= run[i].answered
  {
    RunKeeps(run, steps, i);
    hide IsRun;
    ShardOf(run[i], sid);
  }

  /** A waiting task without an answer is in its living writer's pipeline exactly once: it will be answered once. */
  lemma WaitersAreServed(run: seq<State>, steps: seq<Step>, i: nat, t: Tid)
    requires IsRun(run, steps) && i < |run|
    requires TaskOf(run[i], t).Awaiting? && t !in run[i].answered
    ensures var s, sid := run[i], run[i].tasks[t].sid;
            && sid in s.shards
            && (s.shards[sid].alive ==>
                  t in Pipeline(s.shards[sid]) && NoDuplicates(Pipeline(s.shards[sid])))
            && (!s.shards[sid].alive ==> s.shards[sid].closing == Closed(Dropped) && t !in s.shards[sid].ahead)
  {
    RunKeeps(run, steps, i);
    IdleCloseSparesWaiters(run, steps, i, t);
    hide IsRun;
    ShardOf(run[i], run[i].tasks[t].sid);
  }

  /** At most one writer per path is reachable through the table, and a second living writer for that path is one
      being closed. */
  lemma OneOpenWriterPerPath(run: seq<State>, steps: seq<Step>, i: nat, a: Sid, b: Sid)
    requires IsRun(run, steps) && i < |run| && a in run[i].shards && b in run[i].shards
    requires run[i].shards[a].path == run[i].shards[b].path
    requires run[i].shards[a].closing.Open? && run[i].shards[b].closing.Open?
    ensures a == b
  {
    RunKeeps(run, steps, i);
    hide IsRun;
    ShardOf(run[i], a);
  }
}
