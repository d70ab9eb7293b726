/**
 The one case in which no number of workers delivers a message twice: recipients of a single domain and a single
 attempt, so that no Persist and no Release ever drops a lease. Crashes and failed statements are allowed; only a claim
 that takes over an expired lease is not.
 */
module SingleShot {
  import opened Routing
  import opened QueueTable
  import opened Protocol
  import opened Safety
  import opened SoloWorker
  import opened Races

  /** A task that has delivered and only has to remove the row. */
  predicate Spent(task: Task) {
    task.deliveredAny && task.msg.to == [] && !task.phase.Burying?
  }

  ghost predicate LeasedRow(rows: Table, id: Id) {
    id in rows && rows[id].status == Queued && rows[id].leaseUntil > 0
  }

  ghost predicate TaskOnce(rows: Table, delivered: set<Addr>, task: Task, id: Id) {
    Active(task, id) ==>
      && !task.phase.SavingRetry? && !task.phase.Releasing? && (task.phase.Saving? ==> task.msg.to == [])
      && LeasedRow(rows, id) && (delivered != {} ==> Spent(task))
  }

  ghost predicate OneActive(tasks: map<nat, Task>, id: Id) {
    forall t, u :: t in tasks && u in tasks && Active(tasks[t], id) && Active(tasks[u], id) ==> t == u
  }

  /** Whoever works on the message does so alone, and once something was delivered its row stays leased. */
  ghost predicate Once(rows: Table, delivered: set<Addr>, tasks: map<nat, Task>, id: Id) {
    && (forall t :: t in tasks ==> TaskOnce(rows, delivered, tasks[t], id)) && OneActive(tasks, id)
    && (delivered != {} && id in rows ==> LeasedRow(rows, id))
  }

  lemma OtherRows(rows: Table, rows': Table, delivered: set<Addr>, tasks: map<nat, Task>, id: Id)
    requires Once(rows, delivered, tasks, id) && SameRow(rows, rows', id)
    ensures Once(rows', delivered, tasks, id)
  {
    forall t | t in tasks ensures TaskOnce(rows', delivered, tasks[t], id) {
      assert TaskOnce(rows, delivered, tasks[t], id);
    }
  }

  lemma TaskGone(rows: Table, delivered: set<Addr>, tasks: map<nat, Task>, t: nat, id: Id)
    requires Once(rows, delivered, tasks, id)
    ensures Once(rows, delivered, tasks - {t}, id)
  {
  }

  /** A task that does not work on the message, or no longer does. */
  lemma TaskAside(rows: Table, delivered: set<Addr>, tasks: map<nat, Task>, t: nat, task: Task, id: Id)
    requires Once(rows, delivered, tasks, id) && !Active(task, id)
    ensures Once(rows, delivered, tasks[t := task], id)
  {
  }

  /** The one task that works on the message goes on. */
  lemma TaskGoesOn(rows: Table, delivered: set<Addr>, delivered': set<Addr>, tasks: map<nat, Task>, t: nat,
                   task: Task, id: Id)
    requires Once(rows, delivered, tasks, id) && t in tasks && Active(tasks[t], id)
    requires TaskOnce(rows, delivered', task, id)
    ensures Once(rows, delivered', tasks[t := task], id)
  {
    assert TaskOnce(rows, delivered, tasks[t], id);
    forall u | u in tasks && u != t ensures TaskOnce(rows, delivered', tasks[u], id) {
      assert !Active(tasks[u], id);
    }
  }

  /** Nobody works on a message whose row is not leased, and nothing of it was delivered. */
  lemma Unleased(rows: Table, delivered: set<Addr>, tasks: map<nat, Task>, id: Id)
    requires Once(rows, delivered, tasks, id) && !LeasedRow(rows, id)
    ensures (forall t :: t in tasks ==> !Active(tasks[t], id)) && (id in rows ==> delivered == {})
  {
    forall t | t in tasks ensures !Active(tasks[t], id) {
      assert TaskOnce(rows, delivered, tasks[t], id);
    }
  }

  /** As long as nobody works on it, anything may happen to the row of an undelivered message. */
  lemma RowFree(rows: Table, delivered: set<Addr>, tasks: map<nat, Task>, id: Id)
    requires (forall t :: t in tasks ==> !Active(tasks[t], id)) && (id in rows ==> delivered == {})
    ensures Once(rows, delivered, tasks, id)
  {
  }

  /** All recipients of the message, once it is accepted, belong to one domain. */
  ghost predicate SingleDomain(l: Ledger, id: Id) {
    id in l.accepted ==> forall a, b :: a in l.accepted[id] && b in l.accepted[id] ==> DomainOf(a) == DomainOf(b)
  }

  lemma HeadIn(addrs: seq<Addr>)
    ensures addrs == [] || (addrs[0] in addrs && addrs[0] in Elements(addrs))
  {
  }

  lemma NothingLeft(c: Config, l: Ledger, task: Task)
    requires TaskOk(c, l, task) && SingleDomain(l, task.msg.id) && task.msg.to != []
    ensures AfterGroup(task.msg, map[]).to == []
  {
    var to := task.msg.to;
    var rest := Rest(to, DomainOf(to[0]));
    HeadIn(to);
    assert forall a :: a in rest ==> a in to && a in l.accepted[task.msg.id];
    HeadIn(rest);
  }

  ghost predicate Alone(s: State, id: Id) {
    Once(s.rows, Of(s.ledger.delivered, id), s.tasks, id)
  }

  lemma EnqueueAlone(c: Config, s: State, id: Id, i: Id, to: seq<Addr>, createdAt: nat)
    requires Inv(c, s) && Alone(s, id) && i !in s.ledger.accepted
    ensures Once(InsertRow(s.rows, i, to, createdAt), Of(s.ledger.delivered, id), s.tasks, id)
  {
    var rows' := InsertRow(s.rows, i, to, createdAt);
    if i == id {
      assert id in s.rows ==> RowOk(c, s.ledger, id, s.rows[id]);
      Unleased(s.rows, Of(s.ledger.delivered, id), s.tasks, id);
      assert forall a :: a !in Of(s.ledger.delivered, id);
      RowFree(rows', Of(s.ledger.delivered, id), s.tasks, id);
    } else {
      OtherRows(s.rows, rows', Of(s.ledger.delivered, id), s.tasks, id);
    }
  }

  lemma ClaimAlone(s: State, id: Id, p: nat, t: nat)
    requires Alone(s, id) && p in s.polls && s.polls[p].pending != [] && t !in s.tasks
    requires !TakesOver(s, ClaimNext(p, t), id)
    ensures Alone(ApplyClaim(s, p, t), id)
  {
    var m, now, done := s.polls[p].pending[0], s.polls[p].now, Of(s.ledger.delivered, id);
    var rows', task := ClaimRow(s.rows, m.id, now), Task(m, false, 0, Sending);
    if Claimable(s.rows, m.id, now) {
      if m.id == id {
        Unleased(s.rows, done, s.tasks, id);
        assert TaskOnce(rows', done, task, id);
        assert Once(rows', done, s.tasks[t := task], id);
      } else {
        OtherRows(s.rows, rows', done, s.tasks, id);
        TaskAside(rows', done, s.tasks, t, task, id);
      }
    }
  }

  lemma ReportAlone(c: Config, s: State, id: Id, t: nat, delivered: set<Addr>, perm: map<Addr, string>)
    requires Inv(c, s) && Alone(s, id) && SingleDomain(s.ledger, id)
    requires InPhase(s, t, Sending) && s.tasks[t].msg.to != []
    ensures Alone(ApplyGroupDone(s, t, delivered, perm), id)
  {
    var task, done := s.tasks[t], Of(s.ledger.delivered, id);
    var task', done' := Credited(task, delivered, perm), Of(ApplyGroupDone(s, t, delivered, perm).ledger.delivered, id);
    if task.msg.id == id {
      assert TaskOk(c, s.ledger, task) && TaskOnce(s.rows, done, task, id);
      NothingLeft(c, s.ledger, task);
      assert done == {} && done' == delivered && TaskOnce(s.rows, done', task', id);
      TaskGoesOn(s.rows, done, done', s.tasks, t, task', id);
    } else {
      assert done' == done;
      TaskAside(s.rows, done, s.tasks, t, task', id);
    }
  }

  /** A step of a task that leaves the table alone. */
  lemma MoveAlone(s: State, id: Id, t: nat, task: Task)
    requires Alone(s, id) && t in s.tasks && task.msg.id == s.tasks[t].msg.id
    requires Active(s.tasks[t], id) || !Active(task, id)
    requires TaskOnce(s.rows, Of(s.ledger.delivered, id), task, id)
    ensures Alone(s.(tasks := s.tasks[t := task]), id)
  {
    if Active(s.tasks[t], id) {
      TaskGoesOn(s.rows, Of(s.ledger.delivered, id), Of(s.ledger.delivered, id), s.tasks, t, task, id);
    } else {
      TaskAside(s.rows, Of(s.ledger.delivered, id), s.tasks, t, task, id);
    }
  }

  lemma FailureAlone(c: Config, s: State, id: Id, t: nat, next: nat)
    requires c.maxAttempts == 1 && Alone(s, id) && InPhase(s, t, Sending) && s.tasks[t].msg.to != []
    ensures Alone(ApplyGroupFailed(c, s, t, next), id)
  {
    assert TaskOnce(s.rows, Of(s.ledger.delivered, id), s.tasks[t], id);
    MoveAlone(s, id, t, Failed(c, s.tasks[t], next));
  }

  lemma LeaveAlone(s: State, id: Id, t: nat, p: Phase)
    requires Alone(s, id) && InPhase(s, t, Sending) && s.tasks[t].msg.to == []
    requires p == if !s.tasks[t].deliveredAny && s.tasks[t].permCount > 0 then Burying else Finishing
    ensures Alone(SetPhase(s, t, p), id)
  {
    assert TaskOnce(s.rows, Of(s.ledger.delivered, id), s.tasks[t], id);
    MoveAlone(s, id, t, s.tasks[t].(phase := p));
  }

  /** A Persist changes nothing of the message, and every other statement about it ends the work on it. */
  lemma OwnWriteAlone(c: Config, s: State, id: Id, t: nat)
    requires Alone(s, id) && t in s.tasks && Writing(s.tasks[t].phase) && s.tasks[t].msg.id == id
    ensures Alone(ApplyWrite(c, s, t), id)
  {
    var s', done := ApplyWrite(c, s, t), Of(s.ledger.delivered, id);
    assert TaskOnce(s.rows, done, s.tasks[t], id);
    if s.tasks[t].phase.Saving? {
      MoveAlone(s, id, t, s.tasks[t].(phase := Sending));
    } else {
      forall u | u in s'.tasks ensures !Active(s'.tasks[u], id) {
        assert u != t ==> !Active(s.tasks[u], id);
      }
      RowFree(s'.rows, done, s'.tasks, id);
    }
  }

  lemma OtherWriteAlone(c: Config, s: State, id: Id, t: nat)
    requires Alone(s, id) && t in s.tasks && Writing(s.tasks[t].phase) && s.tasks[t].msg.id != id
    ensures Alone(ApplyWrite(c, s, t), id)
  {
    var s', done := ApplyWrite(c, s, t), Of(s.ledger.delivered, id);
    OtherWrites(s.rows, s.tasks[t].msg, id);
    OtherRows(s.rows, s'.rows, done, s.tasks, id);
    if t in s'.tasks {
      TaskAside(s'.rows, done, s.tasks, t, s'.tasks[t], id);
    } else {
      TaskGone(s'.rows, done, s.tasks, t, id);
    }
  }

  lemma WriteAlone(c: Config, s: State, id: Id, t: nat)
    requires Alone(s, id) && t in s.tasks && Writing(s.tasks[t].phase)
    ensures Alone(ApplyWrite(c, s, t), id)
  {
    if s.tasks[t].msg.id == id { OwnWriteAlone(c, s, id, t); } else { OtherWriteAlone(c, s, id, t); }
  }

  /** A failed statement and a crash leave the row leased; the task ends, or goes on after a failed Persist. */
  lemma FaultAlone(s: State, id: Id, t: nat)
    requires Alone(s, id) && t in s.tasks
    ensures Alone(EndTask(s, t), id)
    ensures s.tasks[t].phase != Sending ==> Alone(ApplyWriteFails(s, t), id)
  {
    TaskGone(s.rows, Of(s.ledger.delivered, id), s.tasks, t, id);
    assert TaskOnce(s.rows, Of(s.ledger.delivered, id), s.tasks[t], id);
    if s.tasks[t].phase.Saving? { MoveAlone(s, id, t, s.tasks[t].(phase := Sending)); }
    if s.tasks[t].phase.SavingRetry? { MoveAlone(s, id, t, s.tasks[t].(phase := Releasing)); }
  }

  lemma PruneAlone(s: State, id: Id, t: nat, p: Phase)
    requires Alone(s, id) && t in s.tasks && Pruning(s.tasks[t].phase) && Pruning(p)
    ensures Alone(SetPhase(s, t, p), id) && Alone(FinishTask(s, t), id)
  {
    TaskAside(s.rows, Of(s.ledger.delivered, id), s.tasks, t, s.tasks[t].(phase := p), id);
    TaskGone(s.rows, Of(s.ledger.delivered, id), s.tasks, t, id);
  }

  lemma DeleteAlone(s: State, id: Id, t: nat)
    requires Alone(s, id) && t in s.tasks && s.tasks[t].phase.Deleting?
    ensures Alone(ApplyDelete(s, t), id)
  {
    var victims, done := s.tasks[t].phase.victims, Of(s.ledger.delivered, id);
    if victims == [] {
      PruneAlone(s, id, t, Counting);
    } else {
      var rows' := DeleteDeadRow(s.rows, victims[0]);
      if victims[0] == id && id in DeadIds(s.rows) {
        Unleased(s.rows, done, s.tasks, id);
        RowFree(rows', done, s.tasks, id);
      } else {
        OtherRows(s.rows, rows', done, s.tasks, id);
      }
      TaskAside(rows', done, s.tasks, t, s.tasks[t].(phase := Deleting(victims[1..])), id);
    }
  }

  lemma RequeueAlone(s: State, id: Id, i: Id)
    requires Alone(s, id) && i in DeadIds(s.rows)
    ensures Once(RequeueRow(s.rows, i), Of(s.ledger.delivered, id), s.tasks, id)
  {
    if i == id {
      Unleased(s.rows, Of(s.ledger.delivered, id), s.tasks, id);
      RowFree(RequeueRow(s.rows, i), Of(s.ledger.delivered, id), s.tasks, id);
    } else {
      OtherRows(s.rows, RequeueRow(s.rows, i), Of(s.ledger.delivered, id), s.tasks, id);
    }
  }

  lemma OutsideAlone(c: Config, s: State, e: Event, id: Id)
    requires Inv(c, s) && Alone(s, id) && Enabled(c, s, e) && !Sender(e) && !TakesOver(s, e, id)
    ensures Alone(Apply(c, s, e), id)
  {
    match e
    case Enqueue(i, to, createdAt) => EnqueueAlone(c, s, id, i, to, createdAt);
    case ClaimNext(p, t) => ClaimAlone(s, id, p, t);
    case CountDead(t) =>
      PruneAlone(s, id, t, Choosing(Surplus(s.rows, c.deadMax)));
    case ChooseVictims(t, victims) => PruneAlone(s, id, t, Deleting(victims));
    case DeleteVictim(t) => DeleteAlone(s, id, t);
    case Requeue(i) => RequeueAlone(s, id, i);
    case Select(_, _, _) =>
    case AbandonPoll(_) =>
  }

  lemma SenderAlone(c: Config, s: State, e: Event, id: Id)
    requires c.maxAttempts == 1 && Inv(c, s) && Alone(s, id) && SingleDomain(s.ledger, id)
    requires Enabled(c, s, e) && Sender(e)
    ensures Alone(Apply(c, s, e), id)
  {
    match e
    case GroupDone(t, delivered, perm) => ReportAlone(c, s, id, t, delivered, perm);
    case GroupFailed(t, next) => FailureAlone(c, s, id, t, next);
    case LeaveLoop(t) => LeaveAlone(s, id, t, Apply(c, s, e).tasks[t].phase);
    case Write(t) => WriteAlone(c, s, id, t);
    case WriteFails(t) => FaultAlone(s, id, t);
    case Crash(t) => FaultAlone(s, id, t);
  }

  lemma StepAlone(c: Config, s: State, e: Event, id: Id)
    requires c.maxAttempts == 1 && Inv(c, s) && Alone(s, id) && SingleDomain(s.ledger, id)
    requires Enabled(c, s, e) && !TakesOver(s, e, id)
    ensures Alone(Apply(c, s, e), id)
  {
    if Sender(e) { SenderAlone(c, s, e, id); } else { OutsideAlone(c, s, e, id); }
  }

  /** Under this id only recipients of one domain are ever accepted. */
  ghost predicate OneDomainOnly(es: seq<Event>, id: Id) {
    forall i :: 0 <= i < |es| && es[i].Enqueue? && es[i].id == id && es[i].to != [] ==>
      Rest(es[i].to, DomainOf(es[i].to[0])) == []
  }

  ghost predicate NoTakeover(ss: seq<State>, es: seq<Event>, id: Id)
    requires |ss| == |es| + 1
  {
    forall i :: 0 <= i < |es| ==> !TakesOver(ss[i], es[i], id)
  }

  lemma AllOneDomain(to: seq<Addr>)
    requires to != [] && Rest(to, DomainOf(to[0])) == []
    ensures forall a :: a in Elements(to) ==> DomainOf(a) == DomainOf(to[0])
  {
    forall a | a in Elements(to) ensures DomainOf(a) == DomainOf(to[0]) {
      assert a !in Rest(to, DomainOf(to[0]));
    }
  }

  lemma StepKeepsDomain(c: Config, s: State, e: Event, id: Id)
    requires Enabled(c, s, e) && SingleDomain(s.ledger, id)
    requires e.Enqueue? && e.id == id ==> Rest(e.to, DomainOf(e.to[0])) == []
    ensures SingleDomain(Apply(c, s, e).ledger, id)
  {
    StepAccepts(c, s, e);
    if e.Enqueue? && e.id == id { AllOneDomain(e.to); }
  }

  /** Only a submission changes what is accepted. */
  lemma StepAccepts(c: Config, s: State, e: Event)
    requires Enabled(c, s, e)
    ensures Apply(c, s, e).ledger.accepted ==
      if e.Enqueue? then s.ledger.accepted[e.id := Elements(e.to)] else s.ledger.accepted
  {
  }

  lemma {:induction false} RunAlone(c: Config, ss: seq<State>, es: seq<Event>, id: Id, k: nat)
    requires IsRun(c, ss, es) && c.maxAttempts == 1 && k < |ss| && OneDomainOnly(es, id) && NoTakeover(ss, es, id)
    ensures Alone(ss[k], id) && SingleDomain(ss[k].ledger, id)
    decreases k
  {
    if k > 0 {
      RunAlone(c, ss, es, id, k - 1);
      RunKeepsInv(c, ss, es, k - 1);
      assert StepAt(c, ss, es, k - 1) && !TakesOver(ss[k - 1], es[k - 1], id);
      StepAlone(c, ss[k - 1], es[k - 1], id);
      StepKeepsDomain(c, ss[k - 1], es[k - 1], id);
    }
  }

  /** When recipients of such a message are handed over, nothing of it was reported delivered. */
  lemma HandOverFirst(c: Config, ss: seq<State>, es: seq<Event>, id: Id, k: nat, group: seq<Addr>)
    requires IsRun(c, ss, es) && c.maxAttempts == 1 && OneDomainOnly(es, id) && NoTakeover(ss, es, id)
    requires k < |es| && HandsOver(ss[k], es[k], id, group)
    ensures Of(ss[k].ledger.delivered, id) == {}
  {
    RunAlone(c, ss, es, id, k);
    assert StepAt(c, ss, es, k);
    HandOverAlone(c, ss[k], es[k], id, group);
  }

  lemma HandOverAlone(c: Config, s: State, e: Event, id: Id, group: seq<Addr>)
    requires Alone(s, id) && Enabled(c, s, e) && HandsOver(s, e, id, group)
    ensures Of(s.ledger.delivered, id) == {}
  {
    assert TaskOnce(s.rows, Of(s.ledger.delivered, id), s.tasks[e.task], id);
  }

  /** Message `id` is accepted for `to`, its lease never taken over, and a delivered recipient handed over again. */
  ghost predicate Twice(c: Config, ss: seq<State>, es: seq<Event>, id: Id, to: seq<Addr>, k: nat, group: seq<Addr>) {
    && IsRun(c, ss, es) && AcceptedFor(es, id, to) && NoTakeover(ss, es, id)
    && k < |es| && HandsOver(ss[k], es[k], id, group)
    && Elements(group) * Of(ss[k].ledger.delivered, id) != {}
  }

  ghost predicate AcceptedFor(es: seq<Event>, id: Id, to: seq<Addr>) {
    exists i :: 0 <= i < |es| && es[i].Enqueue? && es[i].id == id && es[i].to == to
  }

  /** An id is accepted once. */
  lemma {:induction false} AcceptedStays(c: Config, ss: seq<State>, es: seq<Event>, i: nat, k: nat)
    requires IsRun(c, ss, es) && i < k < |ss| && es[i].Enqueue?
    ensures es[i].id in ss[k].ledger.accepted
    decreases k
  {
    assert StepAt(c, ss, es, k - 1);
    if i < k - 1 { AcceptedStays(c, ss, es, i, k - 1); }
  }

  lemma AcceptedOnce(c: Config, ss: seq<State>, es: seq<Event>, i: nat, j: nat)
    requires IsRun(c, ss, es) && i < |es| && j < |es| && es[i].Enqueue? && es[j].Enqueue? && es[i].id == es[j].id
    ensures i == j
  {
    assert StepAt(c, ss, es, i) && StepAt(c, ss, es, j);
    if i < j { AcceptedStays(c, ss, es, i, j); }
    if j < i { AcceptedStays(c, ss, es, j, i); }
  }

  lemma NeverTwice(c: Config, ss: seq<State>, es: seq<Event>, id: Id, to: seq<Addr>, k: nat, group: seq<Addr>)
    requires c.maxAttempts == 1 && to != [] && Rest(to, DomainOf(to[0])) == []
    ensures !Twice(c, ss, es, id, to, k, group)
  {
    if Twice(c, ss, es, id, to, k, group) {
      var i :| 0 <= i < |es| && es[i].Enqueue? && es[i].id == id && es[i].to == to;
      forall j | 0 <= j < |es| && es[j].Enqueue? && es[j].id == id ensures es[j].to == to {
        AcceptedOnce(c, ss, es, i, j);
      }
      HandOverFirst(c, ss, es, id, k, group);
    }
  }

  /** The calm run of two workers is one without takeover. */
  lemma CalmTwice(c: Config, r: Calm, id: Id, to: seq<Addr>, group: seq<Addr>)
    requires Redelivers(c, r, id, to, group)
    ensures Twice(c, r.ss, r.es, id, to, |r.es| - 1, group)
  {
    forall i | 0 <= i < |r.es| ensures !TakesOver(r.ss[i], r.es[i], id) {
      assert CalmStep(r.ss[i], r.es[i]);
    }
    assert r.es[0] == Enqueue(id, to, 1);
    HeadIn(group);
    assert group[0] in Elements(group) * Of(r.ss[|r.es| - 1].ledger.delivered, id);
  }

  /**
   With any number of workers, crashes and failures, but no takeover of an expired lease, a message can be delivered
   twice exactly when it may be retried or is for more than one domain; two workers that meet no failure suffice.
   */
  lemma RedeliveryIff(c: Config, id: Id, to: seq<Addr>)
    requires 1 <= c.maxAttempts && to != []
    ensures (exists ss, es, k, group :: Twice(c, ss, es, id, to, k, group)) <==>
      2 <= c.maxAttempts || Rest(to, DomainOf(to[0])) != []
  {
    if 2 <= c.maxAttempts || Rest(to, DomainOf(to[0])) != [] {
      var r, group := TwoWorkersRedeliver(c, id, to);
      CalmTwice(c, r, id, to, group);
    } else {
      forall ss, es, k, group ensures !Twice(c, ss, es, id, to, k, group) {
        NeverTwice(c, ss, es, id, to, k, group);
      }
    }
  }
}
