/**
 The sharper guarantees of one worker process: batches one after the other, no crash, every statement succeeding.
 Messages may still be accepted and dead ones requeued at any moment, also in the middle of a delivery.
 */
module SoloWorker {
  import opened Routing
  import opened QueueTable
  import opened Protocol
  import opened Safety

  /** `processBatch` waits for its deliveries before the next SELECT, so a poll starts with nothing in flight. */
  ghost predicate SoloStep(s: State, e: Event) {
    && !e.Crash? && !e.WriteFails? && !e.AbandonPoll?
    && (e.Select? ==> s.tasks == map[] && s.polls == map[])
  }

  ghost predicate SoloRun(c: Config, ss: seq<State>, es: seq<Event>) {
    IsRun(c, ss, es) && 1 <= c.maxAttempts && forall k {:trigger es[k]} :: 0 <= k < |es| ==> SoloStep(ss[k], es[k])
  }

  /** No recipient in `to` was reported delivered. */
  ghost predicate Fresh(l: Ledger, id: Id, to: seq<Addr>) {
    forall a :: a in to ==> a !in Of(l.delivered, id)
  }

  /** A row nobody is working on. */
  ghost predicate RowClean(rows: Table, l: Ledger, id: Id) {
    id in rows ==>
      && Fresh(l, id, rows[id].to)
      && (rows[id].status == Queued ==> ClaimsOf(l, id) == rows[id].attempts)
  }

  /** A queued row whose claims exceed the recorded attempts by `used`. */
  ghost predicate Live(rows: Table, l: Ledger, id: Id, used: nat) {
    id in rows && rows[id].status == Queued && ClaimsOf(l, id) == rows[id].attempts + used
  }

  ghost predicate TaskSolo(rows: Table, l: Ledger, task: Task) {
    var m := task.msg;
    match task.phase
    case Sending =>
      && Live(rows, l, m.id, 1) && m.attempts == rows[m.id].attempts && Fresh(l, m.id, m.to)
      && (Fresh(l, m.id, rows[m.id].to) || (task.deliveredAny && m.to == []))
    case Saving =>
      && Live(rows, l, m.id, 1) && m.attempts == rows[m.id].attempts && Fresh(l, m.id, m.to)
      && (Fresh(l, m.id, rows[m.id].to) || task.deliveredAny)
    case SavingRetry =>
      Live(rows, l, m.id, 1) && m.attempts == rows[m.id].attempts + 1 && Fresh(l, m.id, m.to) && m.to != []
    case Releasing => Live(rows, l, m.id, 0) && Fresh(l, m.id, rows[m.id].to)
    case Finishing => Live(rows, l, m.id, 1)
    case Burying => Live(rows, l, m.id, 1) && Fresh(l, m.id, rows[m.id].to)
    case _ => RowClean(rows, l, m.id)
  }

  ghost predicate Busy(tasks: map<nat, Task>, id: Id) {
    exists t :: t in tasks && tasks[t].msg.id == id
  }

  ghost predicate OneTaskEach(tasks: map<nat, Task>) {
    forall t, u :: t in tasks && u in tasks && t != u ==> tasks[t].msg.id != tasks[u].msg.id
  }

  ghost predicate PollSolo(rows: Table, l: Ledger, tasks: map<nat, Task>, pending: seq<Message>) {
    && (forall i :: 0 <= i < |pending| ==>
         && Live(rows, l, pending[i].id, 0) && pending[i] == Scan(pending[i].id, rows[pending[i].id])
         && Fresh(l, pending[i].id, pending[i].to) && !Busy(tasks, pending[i].id))
    && (forall i, j :: 0 <= i < j < |pending| ==> pending[i].id != pending[j].id)
  }

  ghost predicate RowsSolo(s: State) {
    forall id :: id in s.rows && !Busy(s.tasks, id) ==> RowClean(s.rows, s.ledger, id)
  }

  ghost predicate TasksSolo(s: State) {
    forall t :: t in s.tasks ==> TaskSolo(s.rows, s.ledger, s.tasks[t])
  }

  ghost predicate PollsSolo(s: State) {
    && (forall p :: p in s.polls ==> PollSolo(s.rows, s.ledger, s.tasks, s.polls[p].pending))
    && (forall p, q :: p in s.polls && q in s.polls ==> p == q)
  }

  ghost predicate ClaimsCapped(c: Config, l: Ledger) {
    forall id :: ClaimsOf(l, id) <= c.maxAttempts
  }

  ghost predicate SoloInv(c: Config, s: State) {
    RowsSolo(s) && TasksSolo(s) && OneTaskEach(s.tasks) && PollsSolo(s) && ClaimsCapped(c, s.ledger)
  }

  ghost predicate SameRowsBut(rows: Table, rows': Table, id: Id) {
    forall i :: i != id ==> (i in rows <==> i in rows') && (i in rows ==> rows'[i] == rows[i])
  }

  ghost predicate SameReportsBut(l: Ledger, l': Ledger, id: Id) {
    forall i :: i != id ==> Of(l'.delivered, i) == Of(l.delivered, i) && ClaimsOf(l', i) == ClaimsOf(l, i)
  }

  ghost predicate SameTasksBut(tasks: map<nat, Task>, tasks': map<nat, Task>, id: Id) {
    && (forall t :: t in tasks && tasks[t].msg.id != id ==> t in tasks' && tasks'[t] == tasks[t])
    && (forall t :: t in tasks' && tasks'[t].msg.id != id ==> t in tasks && tasks'[t] == tasks[t])
  }

  /** `s'` differs from `s` only in what concerns message `id`. */
  ghost predicate LocalTo(s: State, s': State, id: Id) {
    && s'.polls == s.polls && SameRowsBut(s.rows, s'.rows, id)
    && SameReportsBut(s.ledger, s'.ledger, id) && SameTasksBut(s.tasks, s'.tasks, id)
  }

  /** Message `id` is in no batch that still has to be claimed. */
  ghost predicate NotPending(s: State, id: Id) {
    forall p, i :: p in s.polls && 0 <= i < |s.polls[p].pending| ==> s.polls[p].pending[i].id != id
  }

  /** A step that concerns one message keeps the invariant if it leaves that message in order. */
  lemma LocalKeepsSolo(c: Config, s: State, s': State, id: Id)
    requires SoloInv(c, s) && LocalTo(s, s', id) && NotPending(s, id) && OneTaskEach(s'.tasks)
    requires forall t :: t in s'.tasks && s'.tasks[t].msg.id == id ==> TaskSolo(s'.rows, s'.ledger, s'.tasks[t])
    requires Busy(s'.tasks, id) || RowClean(s'.rows, s'.ledger, id)
    requires ClaimsOf(s'.ledger, id) <= c.maxAttempts
    ensures SoloInv(c, s')
  {
    forall t | t in s'.tasks ensures TaskSolo(s'.rows, s'.ledger, s'.tasks[t]) {
    }
    forall i | i in s'.rows && !Busy(s'.tasks, i) ensures RowClean(s'.rows, s'.ledger, i) {
    }
    forall p | p in s'.polls ensures PollSolo(s'.rows, s'.ledger, s'.tasks, s'.polls[p].pending) {
      var pending := s.polls[p].pending;
      assert PollSolo(s.rows, s.ledger, s.tasks, pending);
      forall i | 0 <= i < |pending|
        ensures !Busy(s'.tasks, pending[i].id) && Live(s'.rows, s'.ledger, pending[i].id, 0)
      {
      }
    }
    forall i ensures ClaimsOf(s'.ledger, i) <= c.maxAttempts {
      if i != id { assert ClaimsOf(s.ledger, i) <= c.maxAttempts; }
    }
  }

  /** Replacing task `t` of message `id`, together with the row and the ledger entries of that message. */
  lemma TaskStepKeepsSolo(c: Config, s: State, s': State, t: nat)
    requires SoloInv(c, s) && t in s.tasks && t in s'.tasks && s'.tasks == s.tasks[t := s'.tasks[t]]
    requires s'.tasks[t].msg.id == s.tasks[t].msg.id && LocalTo(s, s', s.tasks[t].msg.id)
    requires TaskSolo(s'.rows, s'.ledger, s'.tasks[t])
    requires ClaimsOf(s'.ledger, s.tasks[t].msg.id) <= c.maxAttempts
    ensures SoloInv(c, s')
  {
    assert Busy(s'.tasks, s.tasks[t].msg.id);
    LocalKeepsSolo(c, s, s', s.tasks[t].msg.id);
  }

  lemma TaskEndKeepsSolo(c: Config, s: State, s': State, t: nat)
    requires SoloInv(c, s) && t in s.tasks && s'.tasks == s.tasks - {t}
    requires LocalTo(s, s', s.tasks[t].msg.id) && RowClean(s'.rows, s'.ledger, s.tasks[t].msg.id)
    requires ClaimsOf(s'.ledger, s.tasks[t].msg.id) <= c.maxAttempts
    ensures SoloInv(c, s')
  {
    LocalKeepsSolo(c, s, s', s.tasks[t].msg.id);
  }

  lemma EnqueueKeepsSolo(c: Config, s: State, e: Event)
    requires SoloInv(c, s) && Inv(c, s) && e.Enqueue? && Enabled(c, s, e)
    ensures SoloInv(c, Apply(c, s, e))
  {
    var s' := Apply(c, s, e);
    forall p, i | p in s.polls && 0 <= i < |s.polls[p].pending| ensures s.polls[p].pending[i].id != e.id {
      assert SnapshotOk(c, s.ledger, s.polls[p].pending[i]);
    }
    forall t | t in s.tasks ensures s.tasks[t].msg.id != e.id {
      assert TaskOk(c, s.ledger, s.tasks[t]);
    }
    forall a | a in e.to ensures a !in Of(s.ledger.delivered, e.id) {
      assert ReportsOk(s.ledger);
    }
    LocalKeepsSolo(c, s, s', e.id);
  }

  lemma SelectKeepsSolo(c: Config, s: State, e: Event)
    requires SoloInv(c, s) && e.Select? && Enabled(c, s, e) && SoloStep(s, e)
    ensures SoloInv(c, Apply(c, s, e))
  {
    var s' := Apply(c, s, e);
    forall i | 0 <= i < |e.batch|
      ensures Live(s.rows, s.ledger, e.batch[i].id, 0) && Fresh(s.ledger, e.batch[i].id, e.batch[i].to)
    {
      assert RowClean(s.rows, s.ledger, e.batch[i].id);
    }
    assert e.batch != [] ==> PollSolo(s'.rows, s'.ledger, s'.tasks, e.batch);
  }

  lemma PollTailKeepsSolo(c: Config, s: State, polls: map<nat, Poll>)
    requires SoloInv(c, s) && polls.Keys <= s.polls.Keys
    requires forall p :: p in polls ==> s.polls[p].pending != [] && polls[p].pending == s.polls[p].pending[1..]
    ensures SoloInv(c, s.(polls := polls))
  {
    forall p | p in polls ensures PollSolo(s.rows, s.ledger, s.tasks, polls[p].pending) {
      assert PollSolo(s.rows, s.ledger, s.tasks, s.polls[p].pending);
    }
  }

  /** A claimed message gets its task; it was free and its snapshot is still the row. */
  lemma SpawnKeepsSolo(c: Config, s: State, s': State, m: Message, now: nat, t: nat)
    requires SoloInv(c, s) && t !in s.tasks && !Busy(s.tasks, m.id) && NotPending(s, m.id)
    requires Live(s.rows, s.ledger, m.id, 0) && m == Scan(m.id, s.rows[m.id]) && Fresh(s.ledger, m.id, m.to)
    requires s.rows[m.id].attempts < c.maxAttempts && Claimable(s.rows, m.id, now)
    requires s' == s.(rows := ClaimRow(s.rows, m.id, now), tasks := s.tasks[t := Task(m, false, 0, Sending)],
      ledger := s.ledger.(claims := s.ledger.claims[m.id := ClaimsOf(s.ledger, m.id) + 1]))
    ensures SoloInv(c, s')
  {
    assert forall u :: u in s'.tasks && s'.tasks[u].msg.id == m.id ==> u == t;
    assert TaskSolo(s'.rows, s'.ledger, s'.tasks[t]);
    assert Busy(s'.tasks, m.id);
    LocalKeepsSolo(c, s, s', m.id);
  }

  lemma ClaimKeepsSolo(c: Config, s: State, p: nat, t: nat)
    requires SoloInv(c, s) && Inv(c, s) && p in s.polls && s.polls[p].pending != [] && t !in s.tasks
    ensures SoloInv(c, ApplyClaim(s, p, t))
  {
    var s' := ApplyClaim(s, p, t);
    var m := s.polls[p].pending[0];
    var s1 := s.(polls := s'.polls);
    assert PollSolo(s.rows, s.ledger, s.tasks, s.polls[p].pending);
    PollTailKeepsSolo(c, s, s'.polls);
    if Claimable(s.rows, m.id, s.polls[p].now) {
      assert RowOk(c, s.ledger, m.id, s.rows[m.id]);
      SpawnKeepsSolo(c, s1, s', m, s.polls[p].now, t);
    }
  }

  /** After a group is reported, nothing that is left was delivered. */
  lemma ReportKeepsFresh(s: State, t: nat, delivered: set<Addr>, perm: map<Addr, string>)
    requires InPhase(s, t, Sending) && s.tasks[t].msg.to != [] && TaskSolo(s.rows, s.ledger, s.tasks[t])
    requires delivered + perm.Keys == Elements(NextGroup(s.tasks[t].msg))
    ensures var s' := ApplyGroupDone(s, t, delivered, perm); TaskSolo(s'.rows, s'.ledger, s'.tasks[t])
  {
    var s' := ApplyGroupDone(s, t, delivered, perm);
    var m, m' := s.tasks[t].msg, s'.tasks[t].msg;
    forall a | a in m'.to ensures a !in Of(s'.ledger.delivered, m.id) {
      assert a !in Elements(NextGroup(m));
    }
    assert delivered == {} ==> Of(s'.ledger.delivered, m.id) == Of(s.ledger.delivered, m.id);
  }

  lemma ReportIsLocal(s: State, t: nat, delivered: set<Addr>, perm: map<Addr, string>)
    requires t in s.tasks && s.tasks[t].msg.to != []
    ensures LocalTo(s, ApplyGroupDone(s, t, delivered, perm), s.tasks[t].msg.id)
  {
  }

  lemma GroupDoneKeepsSolo(c: Config, s: State, t: nat, delivered: set<Addr>, perm: map<Addr, string>)
    requires SoloInv(c, s) && InPhase(s, t, Sending) && s.tasks[t].msg.to != []
    requires delivered + perm.Keys == Elements(NextGroup(s.tasks[t].msg))
    ensures SoloInv(c, ApplyGroupDone(s, t, delivered, perm))
  {
    var s' := ApplyGroupDone(s, t, delivered, perm);
    assert TaskSolo(s.rows, s.ledger, s.tasks[t]);
    ReportKeepsFresh(s, t, delivered, perm);
    assert ClaimsOf(s.ledger, s.tasks[t].msg.id) <= c.maxAttempts;
    ReportIsLocal(s, t, delivered, perm);
    TaskStepKeepsSolo(c, s, s', t);
  }

  lemma GroupFailedKeepsSolo(c: Config, s: State, t: nat, next: nat)
    requires SoloInv(c, s) && InPhase(s, t, Sending) && s.tasks[t].msg.to != []
    ensures SoloInv(c, ApplyGroupFailed(c, s, t, next))
  {
    assert TaskSolo(s.rows, s.ledger, s.tasks[t]);
    assert ClaimsOf(s.ledger, s.tasks[t].msg.id) <= c.maxAttempts;
    TaskStepKeepsSolo(c, s, ApplyGroupFailed(c, s, t, next), t);
  }

  lemma LeaveKeepsSolo(c: Config, s: State, t: nat, p: Phase)
    requires SoloInv(c, s) && InPhase(s, t, Sending) && s.tasks[t].msg.to == []
    requires p == if !s.tasks[t].deliveredAny && s.tasks[t].permCount > 0 then Burying else Finishing
    ensures SoloInv(c, SetPhase(s, t, p))
  {
    assert TaskSolo(s.rows, s.ledger, s.tasks[t]);
    assert ClaimsOf(s.ledger, s.tasks[t].msg.id) <= c.maxAttempts;
    TaskStepKeepsSolo(c, s, SetPhase(s, t, p), t);
  }

  lemma PersistKeepsSolo(c: Config, s: State, t: nat)
    requires SoloInv(c, s) && t in s.tasks && (s.tasks[t].phase.Saving? || s.tasks[t].phase.SavingRetry?)
    ensures SoloInv(c, ApplyWrite(c, s, t))
  {
    var s' := ApplyWrite(c, s, t);
    assert TaskSolo(s.rows, s.ledger, s.tasks[t]);
    assert ClaimsOf(s.ledger, s.tasks[t].msg.id) <= c.maxAttempts;
    assert TaskSolo(s'.rows, s'.ledger, s'.tasks[t]);
    TaskStepKeepsSolo(c, s, s', t);
  }

  lemma ClosingKeepsSolo(c: Config, s: State, t: nat)
    requires SoloInv(c, s) && t in s.tasks && (s.tasks[t].phase.Releasing? || s.tasks[t].phase.Finishing?)
    ensures SoloInv(c, ApplyWrite(c, s, t))
  {
    var s' := ApplyWrite(c, s, t);
    assert TaskSolo(s.rows, s.ledger, s.tasks[t]);
    assert ClaimsOf(s.ledger, s.tasks[t].msg.id) <= c.maxAttempts;
    assert RowClean(s'.rows, s'.ledger, s.tasks[t].msg.id);
    TaskEndKeepsSolo(c, s, s', t);
  }

  lemma BuryKeepsSolo(c: Config, s: State, t: nat)
    requires SoloInv(c, s) && t in s.tasks && s.tasks[t].phase.Burying?
    ensures SoloInv(c, ApplyWrite(c, s, t))
  {
    var s' := ApplyWrite(c, s, t);
    assert TaskSolo(s.rows, s.ledger, s.tasks[t]);
    assert ClaimsOf(s.ledger, s.tasks[t].msg.id) <= c.maxAttempts;
    assert RowClean(s'.rows, s'.ledger, s.tasks[t].msg.id);
    if c.deadMax <= 0 {
      TaskEndKeepsSolo(c, s, s', t);
    } else {
      TaskStepKeepsSolo(c, s, s', t);
    }
  }

  lemma WriteKeepsSolo(c: Config, s: State, t: nat)
    requires SoloInv(c, s) && t in s.tasks && Writing(s.tasks[t].phase)
    ensures SoloInv(c, ApplyWrite(c, s, t))
  {
    match s.tasks[t].phase
    case Saving => PersistKeepsSolo(c, s, t);
    case SavingRetry => PersistKeepsSolo(c, s, t);
    case Burying => BuryKeepsSolo(c, s, t);
    case _ => ClosingKeepsSolo(c, s, t);
  }

  /** Moving on within a pruning leaves the row of the buried message as it is. */
  lemma PruneStepKeepsSolo(c: Config, s: State, t: nat, p: Phase)
    requires SoloInv(c, s) && t in s.tasks && Pruning(s.tasks[t].phase) && Pruning(p)
    ensures SoloInv(c, SetPhase(s, t, p))
  {
    assert TaskSolo(s.rows, s.ledger, s.tasks[t]);
    assert ClaimsOf(s.ledger, s.tasks[t].msg.id) <= c.maxAttempts;
    TaskStepKeepsSolo(c, s, SetPhase(s, t, p), t);
  }

  lemma PruneEndKeepsSolo(c: Config, s: State, t: nat)
    requires SoloInv(c, s) && t in s.tasks && Pruning(s.tasks[t].phase)
    ensures SoloInv(c, FinishTask(s, t))
  {
    assert TaskSolo(s.rows, s.ledger, s.tasks[t]);
    assert ClaimsOf(s.ledger, s.tasks[t].msg.id) <= c.maxAttempts;
    TaskEndKeepsSolo(c, s, FinishTask(s, t), t);
  }

  lemma CountCases(c: Config, s: State, t: nat)
    requires t in s.tasks
    ensures Surplus(s.rows, c.deadMax) == 0 ==> ApplyCount(c, s, t) == FinishTask(s, t)
    ensures Surplus(s.rows, c.deadMax) > 0 ==>
      ApplyCount(c, s, t) == SetPhase(s, t, Choosing(Surplus(s.rows, c.deadMax)))
  {
  }

  lemma CountKeepsSolo(c: Config, s: State, t: nat)
    requires SoloInv(c, s) && InPhase(s, t, Counting)
    ensures SoloInv(c, ApplyCount(c, s, t))
  {
    var over := Surplus(s.rows, c.deadMax);
    PruneEndKeepsSolo(c, s, t);
    PruneStepKeepsSolo(c, s, t, Choosing(over));
    CountCases(c, s, t);
  }

  /** Changes to a dead row concern no live task and no pending message. */
  lemma DeadRowKeepsSolo(c: Config, s: State, s': State, id: Id)
    requires SoloInv(c, s) && id in DeadIds(s.rows) && LocalTo(s, s', id) && s'.tasks == s.tasks
    requires RowClean(s.rows, s.ledger, id) ==> RowClean(s'.rows, s'.ledger, id)
    requires ClaimsOf(s'.ledger, id) <= c.maxAttempts
    ensures SoloInv(c, s')
  {
    forall p, i | p in s.polls && 0 <= i < |s.polls[p].pending| ensures s.polls[p].pending[i].id != id {
      assert PollSolo(s.rows, s.ledger, s.tasks, s.polls[p].pending);
      assert Live(s.rows, s.ledger, s.polls[p].pending[i].id, 0);
    }
    forall t | t in s.tasks && s.tasks[t].msg.id == id ensures TaskSolo(s'.rows, s'.ledger, s.tasks[t]) {
      assert TaskSolo(s.rows, s.ledger, s.tasks[t]);
    }
    assert Busy(s.tasks, id) ==> Busy(s'.tasks, id);
    LocalKeepsSolo(c, s, s', id);
  }

  lemma DeleteKeepsSolo(c: Config, s: State, t: nat)
    requires SoloInv(c, s) && t in s.tasks && s.tasks[t].phase.Deleting?
    ensures SoloInv(c, ApplyDelete(s, t))
  {
    var s' := ApplyDelete(s, t);
    var victims := s.tasks[t].phase.victims;
    if victims == [] {
      PruneEndKeepsSolo(c, s, t);
    } else {
      var s1 := s.(rows := s'.rows, pruned := s'.pruned);
      if victims[0] in DeadIds(s.rows) {
        assert ClaimsOf(s.ledger, victims[0]) <= c.maxAttempts;
        DeadRowKeepsSolo(c, s, s1, victims[0]);
      }
      PruneStepKeepsSolo(c, s1, t, Deleting(victims[1..]));
    }
  }

  lemma RequeueKeepsSolo(c: Config, s: State, e: Event)
    requires SoloInv(c, s) && e.Requeue? && Enabled(c, s, e)
    ensures SoloInv(c, Apply(c, s, e))
  {
    DeadRowKeepsSolo(c, s, Apply(c, s, e), e.id);
  }

  lemma StepKeepsSolo(c: Config, s: State, e: Event)
    requires SoloInv(c, s) && Inv(c, s) && Enabled(c, s, e) && SoloStep(s, e)
    ensures SoloInv(c, Apply(c, s, e))
  {
    match e
    case Enqueue(_, _, _) => EnqueueKeepsSolo(c, s, e);
    case Select(_, _, _) => SelectKeepsSolo(c, s, e);
    case ClaimNext(p, t) => ClaimKeepsSolo(c, s, p, t);
    case GroupDone(t, delivered, perm) => GroupDoneKeepsSolo(c, s, t, delivered, perm);
    case GroupFailed(t, next) => GroupFailedKeepsSolo(c, s, t, next);
    case LeaveLoop(t) => LeaveKeepsSolo(c, s, t, Apply(c, s, e).tasks[t].phase);
    case Write(t) => WriteKeepsSolo(c, s, t);
    case CountDead(t) => CountKeepsSolo(c, s, t);
    case ChooseVictims(t, victims) => PruneStepKeepsSolo(c, s, t, Deleting(victims));
    case DeleteVictim(t) => DeleteKeepsSolo(c, s, t);
    case Requeue(_) => RequeueKeepsSolo(c, s, e);
  }

  lemma {:induction false} RunKeepsSolo(c: Config, ss: seq<State>, es: seq<Event>, k: nat)
    requires SoloRun(c, ss, es) && k < |ss|
    ensures SoloInv(c, ss[k])
  {
    if k > 0 {
      RunKeepsSolo(c, ss, es, k - 1);
      RunKeepsInv(c, ss, es, k - 1);
      assert StepAt(c, ss, es, k - 1);
      StepKeepsSolo(c, ss[k - 1], es[k - 1]);
    }
  }

  ghost predicate Remembers(l: Ledger, l': Ledger, id: Id) {
    Of(l.delivered, id) <= Of(l'.delivered, id)
  }

  lemma StepRemembers(c: Config, ss: seq<State>, es: seq<Event>, k: nat, id: Id)
    requires IsRun(c, ss, es) && k < |es|
    ensures Remembers(ss[k].ledger, ss[k + 1].ledger, id)
  {
    assert StepAt(c, ss, es, k);
  }

  lemma {:induction false} RemembersAlong(ss: seq<State>, i: nat, k: nat, id: Id)
    requires i <= k < |ss|
    requires forall j :: 0 < j < |ss| ==> Remembers(ss[j - 1].ledger, ss[j].ledger, id)
    ensures Remembers(ss[i].ledger, ss[k].ledger, id)
  {
    if i < k {
      RemembersAlong(ss, i, k - 1, id);
    }
  }

  lemma DeliveredStays(c: Config, ss: seq<State>, es: seq<Event>, i: nat, k: nat, id: Id)
    requires IsRun(c, ss, es) && i <= k < |ss|
    ensures Remembers(ss[i].ledger, ss[k].ledger, id)
  {
    forall j | 0 < j < |ss| ensures Remembers(ss[j - 1].ledger, ss[j].ledger, id) {
      StepRemembers(c, ss, es, j - 1, id);
    }
    RemembersAlong(ss, i, k, id);
  }

  /** Event `e` is a deliverGroup call for message `id`, whatever its outcome, and hands over `group`. */
  ghost predicate HandsOver(s: State, e: Event, id: Id, group: seq<Addr>) {
    && (e.GroupDone? || e.GroupFailed?) && e.task in s.tasks && s.tasks[e.task].msg.id == id
    && s.tasks[e.task].msg.to != [] && group == NextGroup(s.tasks[e.task].msg)
  }

  /** What is handed over was not reported delivered before. */
  lemma HandOverFresh(c: Config, ss: seq<State>, es: seq<Event>, k: nat, id: Id, group: seq<Addr>)
    requires SoloRun(c, ss, es) && k < |es| && HandsOver(ss[k], es[k], id, group)
    ensures Fresh(ss[k].ledger, id, group)
  {
    RunKeepsSolo(c, ss, es, k);
    assert StepAt(c, ss, es, k);
    assert TaskSolo(ss[k].rows, ss[k].ledger, ss[k].tasks[es[k].task]);
  }

  lemma DeliveryRecorded(c: Config, ss: seq<State>, es: seq<Event>, i: nat, id: Id)
    requires IsRun(c, ss, es) && i < |es|
    requires es[i].GroupDone? && es[i].task in ss[i].tasks && ss[i].tasks[es[i].task].msg.id == id
    ensures es[i].delivered <= Of(ss[i + 1].ledger.delivered, id)
  {
    assert StepAt(c, ss, es, i);
  }

  /**
   A recipient that deliverGroup reported delivered is never handed to a later deliverGroup call for that message,
   across retries, dead-lettering and requeueing.
   */
  lemma NoRedelivery(c: Config, ss: seq<State>, es: seq<Event>, i: nat, k: nat, id: Id, a: Addr, group: seq<Addr>)
    requires SoloRun(c, ss, es) && i < k < |es|
    requires es[i].GroupDone? && es[i].task in ss[i].tasks
    requires ss[i].tasks[es[i].task].msg.id == id && a in es[i].delivered
    requires HandsOver(ss[k], es[k], id, group)
    ensures a !in group
  {
    DeliveryRecorded(c, ss, es, i, id);
    DeliveredStays(c, ss, es, i + 1, k, id);
    HandOverFresh(c, ss, es, k, id, group);
  }

  /** Since it was enqueued or last requeued, a message is claimed at most MaxAttempts times. */
  lemma ClaimsBounded(c: Config, ss: seq<State>, es: seq<Event>, k: nat, id: Id)
    requires SoloRun(c, ss, es) && k < |ss|
    ensures ClaimsOf(ss[k].ledger, id) <= c.maxAttempts
  {
    RunKeepsSolo(c, ss, es, k);
  }
}
