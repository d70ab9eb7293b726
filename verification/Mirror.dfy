/**
 The steps of one attempt as a run of the protocol: whatever the worker of Relay.dfy does to the table, the single
 worker of the transition system can do, with the same recipients reported.
 */
module Mirror {
  import opened Routing
  import opened QueueTable
  import opened Protocol
  import opened Safety
  import opened SoloWorker
  import DeadCap
  import Storage

  /** A state that a single crash-free worker can reach. */
  ghost predicate SoloReached(c: Config, s: State) {
    exists ss, es :: SoloRun(c, ss, es) && ss[|es|] == s
  }

  lemma InitReached(c: Config)
    requires 1 <= c.maxAttempts
    ensures SoloReached(c, Init())
  {
    assert SoloRun(c, [Init()], []);
  }

  lemma StepReached(c: Config, s: State, e: Event)
    requires SoloReached(c, s) && Enabled(c, s, e) && SoloStep(s, e)
    ensures SoloReached(c, Apply(c, s, e))
  {
    var ss, es :| SoloRun(c, ss, es) && ss[|es|] == s;
    var ss', es' := ss + [Apply(c, s, e)], es + [e];
    forall i | 0 <= i < |es'| ensures StepAt(c, ss', es', i) && SoloStep(ss'[i], es'[i]) {
      if i < |es| { assert StepAt(c, ss, es, i) && SoloStep(ss[i], es[i]); }
    }
    assert SoloRun(c, ss', es') && ss'[|es'|] == Apply(c, s, e);
  }

  lemma ReachedInv(c: Config, s: State)
    requires SoloReached(c, s)
    ensures SoloInv(c, s) && Inv(c, s)
  {
    var ss, es :| SoloRun(c, ss, es) && ss[|es|] == s;
    RunKeepsSolo(c, ss, es, |es|);
    RunKeepsInv(c, ss, es, |es|);
  }

  /** The state of the protocol while a task works on the given table. */
  ghost predicate At(c: Config, s: State, rows: Table, t: nat, task: Task) {
    SoloReached(c, s) && s.rows == rows && t in s.tasks && s.tasks[t] == task
  }

  /** Between two states only the table, task `t` and the reports about message `id` differ. */
  ghost predicate Beside(s: State, s': State, t: nat) {
    s'.polls == s.polls && s'.tasks - {t} == s.tasks - {t}
  }

  /** The reports of `l'` are those of `l` and the given ones about message `id`. */
  ghost predicate Logged(l: Ledger, l': Ledger, id: Id, delivered: set<Addr>, rejected: set<Addr>) {
    && l'.accepted == l.accepted
    && (forall i :: Of(l'.delivered, i) == Of(l.delivered, i) + if i == id then delivered else {})
    && (forall i :: Of(l'.rejected, i) == Of(l.rejected, i) + if i == id then rejected else {})
  }

  lemma LoggedNothing(l: Ledger, id: Id)
    ensures Logged(l, l, id, {}, {})
  {
  }

  lemma LoggedOne(l: Ledger, id: Id, delivered: set<Addr>, rejected: set<Addr>)
    ensures Logged(l, Reported(l, id, delivered, rejected), id, delivered, rejected)
  {
  }

  lemma LoggedOn(l: Ledger, l': Ledger, l'': Ledger, id: Id, d: set<Addr>, r: set<Addr>, d': set<Addr>, r': set<Addr>)
    requires Logged(l, l', id, d, r) && Logged(l', l'', id, d', r')
    ensures Logged(l, l'', id, d + d', r + r')
  {
    forall i
      ensures Of(l''.delivered, i) == Of(l.delivered, i) + if i == id then d + d' else {}
      ensures Of(l''.rejected, i) == Of(l.rejected, i) + if i == id then r + r' else {}
    {
      assert Of(l'.delivered, i) == Of(l.delivered, i) + if i == id then d else {};
      assert Of(l'.rejected, i) == Of(l.rejected, i) + if i == id then r else {};
    }
  }

  /** A task whose message is in the loop holds nobody who was reported delivered. */
  lemma SendsFresh(c: Config, s: State, t: nat)
    requires SoloReached(c, s) && InPhase(s, t, Sending)
    ensures Fresh(s.ledger, s.tasks[t].msg.id, s.tasks[t].msg.to)
  {
    ReachedInv(c, s);
    assert TaskSolo(s.rows, s.ledger, s.tasks[t]);
  }

  /** A domain is reported and the rest persisted. */
  lemma ReportMirrored(c: Config, s: State, rows: Table, t: nat, task: Task, next: Message,
                       done: set<Addr>, perm: map<Addr, string>) returns (s': State)
    requires At(c, s, rows, t, task) && task.phase == Sending && task.msg.to != []
    requires done + perm.Keys == Elements(NextGroup(task.msg))
    requires next == AfterGroup(task.msg, perm)
    ensures At(c, s', PersistRow(rows, next), t, Credited(task, done, perm).(phase := Sending))
    ensures Beside(s, s', t) && Logged(s.ledger, s'.ledger, next.id, done, perm.Keys)
  {
    var s1 := GroupMirrored(c, s, t, done, perm);
    s' := WriteMirrored(c, s1, t, Sending);
  }

  lemma GroupMirrored(c: Config, s: State, t: nat, done: set<Addr>, perm: map<Addr, string>) returns (s': State)
    requires SoloReached(c, s) && InPhase(s, t, Sending) && s.tasks[t].msg.to != []
    requires done + perm.Keys == Elements(NextGroup(s.tasks[t].msg))
    ensures SoloReached(c, s') && s'.rows == s.rows && Beside(s, s', t) && t in s'.tasks
    ensures s'.tasks[t] == Credited(s.tasks[t], done, perm)
    ensures Logged(s.ledger, s'.ledger, s.tasks[t].msg.id, done, perm.Keys)
  {
    var e := GroupDone(t, done, perm);
    s' := Apply(c, s, e);
    var task := s.tasks[t];
    var task' := Credited(task, done, perm);
    assert SoloReached(c, s') by { StepReached(c, s, e); }
    assert s'.tasks == s.tasks[t := task'] && s'.ledger == Reported(s.ledger, task.msg.id, done, perm.Keys);
    TaskReplaced(s.tasks, t, task');
    LoggedOne(s.ledger, task.msg.id, done, perm.Keys);
  }

  lemma TaskReplaced(tasks: map<nat, Task>, t: nat, task: Task)
    ensures tasks[t := task] - {t} == tasks - {t}
  {
  }

  /** The Persist statement of a task. */
  lemma WriteMirrored(c: Config, s: State, t: nat, p: Phase) returns (s': State)
    requires SoloReached(c, s) && t in s.tasks
    requires (s.tasks[t].phase == Saving && p == Sending) || (s.tasks[t].phase == SavingRetry && p == Releasing)
    ensures At(c, s', PersistRow(s.rows, s.tasks[t].msg), t, s.tasks[t].(phase := p))
    ensures Beside(s, s', t) && s'.ledger == s.ledger
  {
    s' := Apply(c, s, Write(t));
    StepReached(c, s, Write(t));
  }

  lemma FailureMirrored(c: Config, s: State, rows: Table, t: nat, task: Task, next: nat) returns (s': State)
    requires At(c, s, rows, t, task) && task.phase == Sending && task.msg.to != []
    ensures At(c, s', rows, t, Failed(c, task, next))
    ensures Beside(s, s', t) && s'.ledger == s.ledger
  {
    s' := Apply(c, s, GroupFailed(t, next));
    StepReached(c, s, GroupFailed(t, next));
  }

  /** The end of a task: it is gone, and the table is the given one. */
  ghost predicate Ended(c: Config, s: State, s': State, rows: Table, t: nat) {
    && SoloReached(c, s') && s'.rows == rows && s'.polls == s.polls && s'.tasks == s.tasks - {t}
    && s'.ledger == s.ledger
  }

  /** Persist and Release of a postponed message. */
  lemma RetryMirrored(c: Config, s: State, rows: Table, t: nat, task: Task) returns (s': State)
    requires At(c, s, rows, t, task) && task.phase == SavingRetry
    ensures Ended(c, s, s', ReleaseRow(PersistRow(rows, task.msg), task.msg.id), t)
  {
    var s1 := WriteMirrored(c, s, t, Releasing);
    s' := Apply(c, s1, Write(t));
    StepReached(c, s1, Write(t));
    assert s'.tasks == s1.tasks - {t};
  }

  /** The message leaves the loop. */
  lemma LeaveMirrored(c: Config, s: State, rows: Table, t: nat, task: Task) returns (s': State)
    requires At(c, s, rows, t, task) && task.phase == Sending && task.msg.to == []
    ensures At(c, s', rows, t, task.(phase := if !task.deliveredAny && task.permCount > 0 then Burying else Finishing))
    ensures Beside(s, s', t) && s'.ledger == s.ledger
  {
    s' := Apply(c, s, LeaveLoop(t));
    StepReached(c, s, LeaveLoop(t));
  }

  /** Succeed. */
  lemma FinishMirrored(c: Config, s: State, rows: Table, t: nat, task: Task) returns (s': State)
    requires At(c, s, rows, t, task) && task.phase == Finishing
    ensures Ended(c, s, s', SucceedRow(rows, task.msg.id), t)
  {
    s' := Apply(c, s, Write(t));
    StepReached(c, s, Write(t));
  }

  /** The victims of a pruning, deleted one by one. */
  lemma {:induction false} DeletesMirrored(c: Config, s: State, rows: Table, t: nat, task: Task) returns (s': State)
    requires At(c, s, rows, t, task) && task.phase.Deleting?
    requires forall v :: v in task.phase.victims ==> v in DeadIds(rows)
    requires forall i, j :: 0 <= i < j < |task.phase.victims| ==> task.phase.victims[i] != task.phase.victims[j]
    ensures Ended(c, s, s', rows - Elements(task.phase.victims), t)
    decreases |task.phase.victims|
  {
    var victims := task.phase.victims;
    var s1 := Apply(c, s, DeleteVictim(t));
    StepReached(c, s, DeleteVictim(t));
    if victims == [] {
      assert rows - Elements(victims) == rows;
      s' := s1;
    } else {
      VictimsApart(rows, victims);
      s' := DeletesMirrored(c, s1, rows - {victims[0]}, t, task.(phase := Deleting(victims[1..])));
      assert s1.tasks - {t} == s.tasks - {t};
    }
  }

  lemma VictimsApart(rows: Table, victims: seq<Id>)
    requires victims != [] && forall v :: v in victims ==> v in DeadIds(rows)
    requires forall i, j :: 0 <= i < j < |victims| ==> victims[i] != victims[j]
    ensures DeleteDeadRow(rows, victims[0]) == rows - {victims[0]}
    ensures forall v :: v in victims[1..] ==> v in DeadIds(rows - {victims[0]})
    ensures rows - {victims[0]} - Elements(victims[1..]) == rows - Elements(victims)
  {
    assert victims[0] in victims;
    assert forall v :: v in victims <==> v == victims[0] || v in victims[1..];
  }

  /** The dead-letter UPDATE, and the pruning of exactly the given victims. */
  lemma BurialMirrored(c: Config, s: State, rows: Table, t: nat, task: Task, victims: seq<Id>) returns (s': State)
    requires At(c, s, rows, t, task) && task.phase == Burying
    requires Prunes(c, rows, task.msg.id, victims)
    ensures Ended(c, s, s', BuryRow(rows, task.msg.id) - Elements(victims), t)
  {
    var buried := BuryRow(rows, task.msg.id);
    var s1 := Apply(c, s, Write(t));
    StepReached(c, s, Write(t));
    if c.deadMax <= 0 {
      assert buried - Elements(victims) == buried;
      s' := s1;
    } else {
      assert At(c, s1, buried, t, task.(phase := Counting)) && s1.tasks - {t} == s.tasks - {t};
      s' := PruningMirrored(c, s1, buried, t, task.(phase := Counting), victims);
    }
  }

  lemma PruningMirrored(c: Config, s: State, rows: Table, t: nat, task: Task, victims: seq<Id>) returns (s': State)
    requires At(c, s, rows, t, task) && task.phase == Counting && 0 < c.deadMax
    requires OldestFirst(rows, DeadIds(rows), Surplus(rows, c.deadMax), victims)
    ensures Ended(c, s, s', rows - Elements(victims), t)
  {
    var s1 := Apply(c, s, CountDead(t));
    StepReached(c, s, CountDead(t));
    if |DeadIds(rows)| <= c.deadMax {
      assert victims == [] && rows - Elements(victims) == rows;
      s' := s1;
    } else {
      var s2 := Apply(c, s1, ChooseVictims(t, victims));
      StepReached(c, s1, ChooseVictims(t, victims));
      s' := DeletesMirrored(c, s2, rows, t, task.(phase := Deleting(victims)));
      assert s2.tasks - {t} == s.tasks - {t};
    }
  }

  /** A task follows its attempt: it began in `start`, and the given recipients were reported since. */
  ghost predicate Follows(c: Config, start: State, s: State, rows: Table, t: nat, task: Task,
                          delivered: set<Addr>, rejected: set<Addr>)
  {
    At(c, s, rows, t, task) && Beside(start, s, t) && Logged(start.ledger, s.ledger, task.msg.id, delivered, rejected)
  }

  lemma StartFollows(c: Config, s: State, rows: Table, t: nat, task: Task)
    requires At(c, s, rows, t, task)
    ensures Follows(c, s, s, rows, t, task, {}, {})
  {
    LoggedNothing(s.ledger, task.msg.id);
  }

  lemma ReportFollows(c: Config, start: State, s: State, rows: Table, t: nat, task: Task, delivered: set<Addr>,
                      rejected: set<Addr>, done: set<Addr>, perm: map<Addr, string>) returns (s': State)
    requires Follows(c, start, s, rows, t, task, delivered, rejected) && task.phase == Sending && task.msg.to != []
    requires done + perm.Keys == Elements(NextGroup(task.msg))
    ensures Follows(c, start, s', PersistRow(rows, AfterGroup(task.msg, perm)), t,
      Credited(task, done, perm).(phase := Sending), delivered + done, rejected + perm.Keys)
  {
    var next := AfterGroup(task.msg, perm);
    s' := ReportMirrored(c, s, rows, t, task, next, done, perm);
    LoggedOn(start.ledger, s.ledger, s'.ledger, next.id, delivered, rejected, done, perm.Keys);
  }

  lemma FailureFollows(c: Config, start: State, s: State, rows: Table, t: nat, task: Task, delivered: set<Addr>,
                       rejected: set<Addr>, next: nat) returns (s': State)
    requires Follows(c, start, s, rows, t, task, delivered, rejected) && task.phase == Sending && task.msg.to != []
    ensures Follows(c, start, s', rows, t, Failed(c, task, next), delivered, rejected)
  {
    s' := FailureMirrored(c, s, rows, t, task, next);
  }

  /** The attempt is over: its task is gone, and the given recipients were reported. */
  ghost predicate Over(c: Config, start: State, s: State, rows: Table, t: nat, id: Id,
                       delivered: set<Addr>, rejected: set<Addr>)
  {
    && SoloReached(c, s) && s.rows == rows && s.polls == start.polls && s.tasks == start.tasks - {t}
    && Logged(start.ledger, s.ledger, id, delivered, rejected)
  }

  lemma EndFollows(c: Config, start: State, s: State, s': State, rows: Table, rows': Table, t: nat, task: Task,
                   delivered: set<Addr>, rejected: set<Addr>)
    requires Follows(c, start, s, rows, t, task, delivered, rejected) && Ended(c, s, s', rows', t)
    ensures Over(c, start, s', rows', t, task.msg.id, delivered, rejected)
  {
  }

  lemma RetryFollows(c: Config, start: State, s: State, rows: Table, t: nat, task: Task,
                     delivered: set<Addr>, rejected: set<Addr>) returns (s': State)
    requires Follows(c, start, s, rows, t, task, delivered, rejected) && task.phase == SavingRetry
    ensures Over(c, start, s', ReleaseRow(PersistRow(rows, task.msg), task.msg.id), t, task.msg.id, delivered, rejected)
  {
    s' := RetryMirrored(c, s, rows, t, task);
    EndFollows(c, start, s, s', rows, s'.rows, t, task, delivered, rejected);
  }

  /** The victims DeadLetter may choose when it buries message `id`. */
  ghost predicate Prunes(c: Config, rows: Table, id: Id, victims: seq<Id>) {
    var buried := BuryRow(rows, id);
    if c.deadMax <= 0 then victims == []
    else OldestFirst(buried, DeadIds(buried), Surplus(buried, c.deadMax), victims)
  }

  lemma BurialFollows(c: Config, start: State, s: State, rows: Table, t: nat, task: Task, victims: seq<Id>,
                      delivered: set<Addr>, rejected: set<Addr>) returns (s': State)
    requires Follows(c, start, s, rows, t, task, delivered, rejected) && task.phase == Burying
    requires Prunes(c, rows, task.msg.id, victims)
    ensures Over(c, start, s', BuryRow(rows, task.msg.id) - Elements(victims), t, task.msg.id, delivered, rejected)
  {
    s' := BurialMirrored(c, s, rows, t, task, victims);
    EndFollows(c, start, s, s', rows, s'.rows, t, task, delivered, rejected);
  }

  lemma LeaveFollows(c: Config, start: State, s: State, rows: Table, t: nat, task: Task,
                     delivered: set<Addr>, rejected: set<Addr>, p: Phase) returns (s': State)
    requires Follows(c, start, s, rows, t, task, delivered, rejected) && task.phase == Sending && task.msg.to == []
    requires p == if !task.deliveredAny && task.permCount > 0 then Burying else Finishing
    ensures Follows(c, start, s', rows, t, task.(phase := p), delivered, rejected)
  {
    s' := LeaveMirrored(c, s, rows, t, task);
  }

  lemma FinishFollows(c: Config, start: State, s: State, rows: Table, t: nat, task: Task,
                      delivered: set<Addr>, rejected: set<Addr>) returns (s': State)
    requires Follows(c, start, s, rows, t, task, delivered, rejected) && task.phase == Finishing
    ensures Over(c, start, s', SucceedRow(rows, task.msg.id), t, task.msg.id, delivered, rejected)
  {
    s' := FinishMirrored(c, s, rows, t, task);
    EndFollows(c, start, s, s', rows, s'.rows, t, task, delivered, rejected);
  }

  // ---- A batch ----

  /** Between batches: no poll and no task. */
  ghost predicate Idle(c: Config, s: State, rows: Table) {
    SoloReached(c, s) && s.rows == rows && s.polls == map[] && s.tasks == map[]
  }

  /** Between batches no row names a recipient that was reported delivered. */
  lemma IdleFresh(c: Config, s: State, rows: Table, id: Id)
    requires Idle(c, s, rows) && id in rows
    ensures Fresh(s.ledger, id, rows[id].to)
  {
    ReachedInv(c, s);
    assert !Busy(s.tasks, id);
    assert RowClean(s.rows, s.ledger, id);
  }

  /** Reports are only added. */
  lemma LoggedGrows(l: Ledger, l': Ledger, l'': Ledger, id: Id, delivered: set<Addr>, rejected: set<Addr>)
    requires Grows(l, l') && Logged(l', l'', id, delivered, rejected)
    ensures Grows(l, l'')
  {
    forall i ensures Of(l.delivered, i) <= Of(l''.delivered, i) && Of(l.rejected, i) <= Of(l''.rejected, i) {
      assert Of(l'.delivered, i) <= Of(l''.delivered, i) && Of(l'.rejected, i) <= Of(l''.rejected, i);
    }
  }

  lemma SameGrows(l: Ledger, l': Ledger)
    requires SameReports(l, l')
    ensures Grows(l, l')
  {
  }

  /** Task `i` works on the i-th claimed message; those before `from` are done. */
  function TasksFor(ready: seq<Message>, from: nat): map<nat, Task> {
    map i: nat | from <= i < |ready| :: Task(ready[i], false, 0, Sending)
  }

  /** The tasks from position `i` on wait for their turn. */
  ghost predicate Delivering(c: Config, s: State, rows: Table, ready: seq<Message>, i: nat) {
    SoloReached(c, s) && s.rows == rows && s.polls == map[] && s.tasks == TasksFor(ready, i)
  }

  lemma NextTask(ready: seq<Message>, i: nat)
    requires i < |ready|
    ensures i in TasksFor(ready, i) && TasksFor(ready, i) - {i} == TasksFor(ready, i + 1)
  {
  }

  ghost predicate SameReports(l: Ledger, l': Ledger) {
    l'.accepted == l.accepted && l'.delivered == l.delivered && l'.rejected == l.rejected
  }

  /** The first `i` of the selected rows were claimed, as far as that was possible. */
  ghost predicate ClaimedTo(c: Config, s: State, rows: Table, ids: seq<Id>, now: nat, i: nat)
    requires i <= |ids| && forall id :: id in ids ==> id in rows
  {
    && SoloReached(c, s) && s.rows == Storage.Leased(rows, ids[..i], now)
    && s.tasks == TasksFor(Storage.Ready(rows, ids[..i], now), 0)
    && s.polls == if i < |ids| then map[0 := Poll(now, Storage.Batch(rows, ids)[i..])] else map[]
  }

  lemma SelectMirrored(c: Config, s: State, rows: Table, ids: seq<Id>, now: nat) returns (s': State)
    requires Idle(c, s, rows) && forall id :: id in ids ==> id in rows && Due(rows[id], now)
    requires forall i, j :: 0 <= i < j < |ids| ==> ids[i] != ids[j]
    ensures ClaimedTo(c, s', rows, ids, now, 0) && s'.ledger == s.ledger
  {
    var batch := Storage.Batch(rows, ids);
    assert forall i :: 0 <= i < |ids| ==> ids[i] in ids;
    assert Enabled(c, s, Select(0, now, batch));
    s' := Apply(c, s, Select(0, now, batch));
    StepReached(c, s, Select(0, now, batch));
    assert ids[..0] == [] && batch[0..] == batch && Storage.Leased(rows, [], now) == rows;
  }

  lemma OneClaim(s: State, now: nat, pending: seq<Message>, t: nat)
    requires s.polls == map[0 := Poll(now, pending)] && pending != [] && t !in s.tasks
    ensures var s', m := ApplyClaim(s, 0, t), pending[0];
      && s'.polls == (if |pending| == 1 then map[] else map[0 := Poll(now, pending[1..])])
      && s'.rows == ClaimRow(s.rows, m.id, now) && SameReports(s.ledger, s'.ledger)
      && s'.tasks == if Claimable(s.rows, m.id, now) then s.tasks[t := Task(m, false, 0, Sending)] else s.tasks
  {
    var s' := ApplyClaim(s, 0, t);
    assert s.polls[0 := Poll(now, pending[1..])] == map[0 := Poll(now, pending[1..])];
    assert s.polls - {0} == map[];
  }

  lemma ClaimMirrored(c: Config, s: State, rows: Table, ids: seq<Id>, now: nat, i: nat) returns (s': State)
    requires i < |ids| && (forall id :: id in ids ==> id in rows) && ClaimedTo(c, s, rows, ids, now, i)
    requires forall i, j :: 0 <= i < j < |ids| ==> ids[i] != ids[j]
    ensures ClaimedTo(c, s', rows, ids, now, i + 1) && SameReports(s.ledger, s'.ledger)
  {
    var ready, batch := Storage.Ready(rows, ids[..i], now), Storage.Batch(rows, ids);
    var e := ClaimNext(0, |ready|);
    s' := Apply(c, s, e);
    assert SoloReached(c, s') by { StepReached(c, s, e); }
    assert batch[i..][0] == batch[i] && batch[i..][1..] == batch[i + 1..] && batch[i].id == ids[i];
    OneClaim(s, now, batch[i..], |ready|);
    assert ids[i] !in ids[..i];
    Storage.ClaimNext(rows, ids, i, now);
    TasksGrow(rows, ids, now, i);
  }

  lemma TasksGrow(rows: Table, ids: seq<Id>, now: nat, i: nat)
    requires i < |ids| && forall id :: id in ids ==> id in rows
    ensures var ready := Storage.Ready(rows, ids[..i], now);
      TasksFor(Storage.Ready(rows, ids[..i + 1], now), 0) ==
      if Claimable(rows, ids[i], now)
      then TasksFor(ready, 0)[|ready| := Task(Scan(ids[i], rows[ids[i]]), false, 0, Sending)]
      else TasksFor(ready, 0)
  {
    assert ids[..i + 1][..i] == ids[..i];
  }

  /** NextDue: one SELECT and a claim of every row it returns. */
  lemma {:induction false} BatchMirrored(c: Config, s: State, rows: Table, ids: seq<Id>, now: nat, i: nat)
    returns (s': State)
    requires Idle(c, s, rows) && i <= |ids| && forall id :: id in ids ==> id in rows && Due(rows[id], now)
    requires forall i, j :: 0 <= i < j < |ids| ==> ids[i] != ids[j]
    ensures ClaimedTo(c, s', rows, ids, now, i) && SameReports(s.ledger, s'.ledger)
    decreases i
  {
    if i == 0 {
      s' := SelectMirrored(c, s, rows, ids, now);
    } else {
      s' := BatchMirrored(c, s, rows, ids, now, i - 1);
      s' := ClaimMirrored(c, s', rows, ids, now, i - 1);
    }
  }

  // ---- Submissions and requeues between batches ----

  lemma KnownRow(c: Config, s: State, rows: Table, id: Id)
    requires Idle(c, s, rows)
    ensures id in rows ==> id in s.ledger.accepted
  {
    ReachedInv(c, s);
    assert id in s.rows ==> RowOk(c, s.ledger, id, s.rows[id]);
  }

  lemma EnqueueMirrored(c: Config, s: State, rows: Table, id: Id, to: seq<Addr>, createdAt: nat) returns (s': State)
    requires Idle(c, s, rows) && id !in s.ledger.accepted && to != []
    ensures Idle(c, s', InsertRow(rows, id, to, createdAt))
    ensures s'.ledger.accepted == s.ledger.accepted[id := Elements(to)]
    ensures s'.ledger.delivered == s.ledger.delivered && s'.ledger.rejected == s.ledger.rejected
  {
    s' := Apply(c, s, Enqueue(id, to, createdAt));
    StepReached(c, s, Enqueue(id, to, createdAt));
  }

  lemma RequeueMirrored(c: Config, s: State, rows: Table, id: Id) returns (s': State)
    requires Idle(c, s, rows) && id in DeadIds(rows)
    ensures Idle(c, s', RequeueRow(rows, id)) && SameReports(s.ledger, s'.ledger)
  {
    s' := Apply(c, s, Requeue(id));
    StepReached(c, s, Requeue(id));
  }

  /** A single worker that does not crash never cuts a pruning short. */
  lemma {:induction false} NeverCutShort(c: Config, ss: seq<State>, es: seq<Event>, k: nat)
    requires SoloRun(c, ss, es) && k < |ss|
    ensures !ss[k].cutShort
  {
    if k > 0 {
      NeverCutShort(c, ss, es, k - 1);
      assert StepAt(c, ss, es, k - 1) && SoloStep(ss[k - 1], es[k - 1]);
    }
  }

  lemma ReachedCap(c: Config, s: State)
    requires SoloReached(c, s) && s.tasks == map[] && 0 < c.deadMax
    ensures |DeadIds(s.rows)| <= c.deadMax
  {
    var ss, es :| SoloRun(c, ss, es) && ss[|es|] == s;
    NeverCutShort(c, ss, es, |es|);
    DeadCap.DeadLettersCapped(c, ss, es, |es|);
  }
}
