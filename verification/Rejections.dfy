/**
 The companion of NoRedelivery for rejected recipients: one crash-free worker hands a permanently rejected recipient
 over again only after the message was requeued, which gives every recipient left in the row a new chance.
 */
module Rejections {
  import opened Routing
  import opened QueueTable
  import opened Protocol
  import opened Safety
  import opened SoloWorker

  /** Event `e` is a deliverGroup call without retry error for message `id`. */
  ghost predicate Reports(s: State, e: Event, id: Id) {
    e.GroupDone? && e.task in s.tasks && s.tasks[e.task].msg.id == id
  }

  /** Those rejected since the message was accepted or last requeued. */
  ghost function RefusedAfter(s: State, e: Event, id: Id, refused: set<Addr>): set<Addr> {
    if e == Requeue(id) then {} else if Reports(s, e, id) then refused + e.perm.Keys else refused
  }

  ghost function Refused(ss: seq<State>, es: seq<Event>, id: Id, k: nat): set<Addr>
    requires |ss| == |es| + 1 && k < |ss|
    decreases k
  {
    if k == 0 then {} else RefusedAfter(ss[k - 1], es[k - 1], id, Refused(ss, es, id, k - 1))
  }

  ghost predicate Apart(to: seq<Addr>, refused: set<Addr>) {
    forall a :: a in to ==> a !in refused
  }

  /** The message a task may still send or store names nobody refused. */
  ghost predicate TaskApart(rows: Table, task: Task, id: Id, refused: set<Addr>) {
    task.msg.id == id ==>
      && (task.phase.Sending? || task.phase.Saving? || task.phase.SavingRetry? ==> Apart(task.msg.to, refused))
      && (task.phase.Releasing? && id in rows ==> Apart(rows[id].to, refused))
  }

  ghost predicate TasksApart(rows: Table, tasks: map<nat, Task>, id: Id, refused: set<Addr>) {
    forall t :: t in tasks ==> TaskApart(rows, tasks[t], id, refused)
  }

  /** A queued row nobody works on names nobody refused. */
  ghost predicate RowApart(rows: Table, tasks: map<nat, Task>, id: Id, refused: set<Addr>) {
    id in rows && rows[id].status == Queued && (forall t :: t in tasks ==> !Active(tasks[t], id)) ==>
      Apart(rows[id].to, refused)
  }

  ghost predicate AllApart(s: State, id: Id, refused: set<Addr>) {
    && TasksApart(s.rows, s.tasks, id, refused) && RowApart(s.rows, s.tasks, id, refused)
    && refused <= Of(s.ledger.rejected, id)
  }

  /** Tasks of other messages and prunings may come and go. */
  ghost predicate SameActive(tasks: map<nat, Task>, tasks': map<nat, Task>, id: Id) {
    && (forall t :: t in tasks && Active(tasks[t], id) ==> t in tasks' && tasks'[t] == tasks[t])
    && (forall t :: t in tasks' && Active(tasks'[t], id) ==> t in tasks && tasks'[t] == tasks[t])
  }

  lemma ApartElsewhere(rows: Table, rows': Table, tasks: map<nat, Task>, tasks': map<nat, Task>, id: Id,
                       refused: set<Addr>)
    requires TasksApart(rows, tasks, id, refused) && RowApart(rows, tasks, id, refused)
    requires SameRow(rows, rows', id) && SameActive(tasks, tasks', id)
    ensures TasksApart(rows', tasks', id, refused) && RowApart(rows', tasks', id, refused)
  {
    forall t | t in tasks' ensures TaskApart(rows', tasks'[t], id, refused) {
      if Active(tasks'[t], id) { assert TaskApart(rows, tasks[t], id, refused); }
    }
  }

  /** The one task of the message goes on. */
  lemma ApartGoesOn(rows: Table, rows': Table, tasks: map<nat, Task>, t: nat, task: Task, id: Id, refused: set<Addr>)
    requires OneTaskEach(tasks) && t in tasks && tasks[t].msg.id == id && Active(task, id)
    requires TaskApart(rows', task, id, refused)
    ensures TasksApart(rows', tasks[t := task], id, refused) && RowApart(rows', tasks[t := task], id, refused)
  {
    assert Active(tasks[t := task][t], id);
  }

  /** The one task of the message ends. */
  lemma ApartEnds(rows': Table, tasks: map<nat, Task>, tasks': map<nat, Task>, t: nat, id: Id, refused: set<Addr>)
    requires OneTaskEach(tasks) && t in tasks && tasks[t].msg.id == id
    requires forall u :: u in tasks' && u != t ==> u in tasks && tasks'[u] == tasks[u]
    requires t in tasks' ==> Pruning(tasks'[t].phase)
    requires id in rows' && rows'[id].status == Queued ==> Apart(rows'[id].to, refused)
    ensures TasksApart(rows', tasks', id, refused) && RowApart(rows', tasks', id, refused)
  {
  }

  lemma ClaimApart(c: Config, s: State, p: nat, t: nat, id: Id, refused: set<Addr>)
    requires SoloInv(c, s) && AllApart(s, id, refused) && p in s.polls && s.polls[p].pending != [] && t !in s.tasks
    ensures AllApart(ApplyClaim(s, p, t), id, refused)
  {
    var s', m, now := ApplyClaim(s, p, t), s.polls[p].pending[0], s.polls[p].now;
    assert PollSolo(s.rows, s.ledger, s.tasks, s.polls[p].pending);
    if m.id == id && Claimable(s.rows, id, now) {
      assert !Busy(s.tasks, id) && m == Scan(id, s.rows[id]);
      assert TaskApart(s'.rows, s'.tasks[t], id, refused) && Active(s'.tasks[t], id);
    } else {
      assert SameRow(s.rows, s'.rows, id) && SameActive(s.tasks, s'.tasks, id);
      ApartElsewhere(s.rows, s'.rows, s.tasks, s'.tasks, id, refused);
    }
  }

  lemma ReportApart(c: Config, s: State, t: nat, id: Id, refused: set<Addr>, delivered: set<Addr>,
                    perm: map<Addr, string>)
    requires SoloInv(c, s) && AllApart(s, id, refused) && InPhase(s, t, Sending) && s.tasks[t].msg.to != []
    requires delivered + perm.Keys == Elements(NextGroup(s.tasks[t].msg)) && s.tasks[t].msg.id == id
    ensures AllApart(ApplyGroupDone(s, t, delivered, perm), id, refused + perm.Keys)
  {
    var task := s.tasks[t];
    var task' := Credited(task, delivered, perm);
    assert TaskApart(s.rows, task, id, refused);
    forall a | a in task'.msg.to ensures a !in refused + perm.Keys {
      assert a in task.msg.to && a !in Elements(NextGroup(task.msg));
    }
    ApartGoesOn(s.rows, s.rows, s.tasks, t, task', id, refused + perm.Keys);
    assert refused + perm.Keys <= Of(Reported(s.ledger, id, delivered, perm.Keys).rejected, id);
  }

  /** A step of a task of another message. */
  lemma OtherTask(tasks: map<nat, Task>, t: nat, task: Task, id: Id)
    requires t in tasks && !Active(tasks[t], id) && !Active(task, id)
    ensures SameActive(tasks, tasks[t := task], id) && SameActive(tasks, tasks - {t}, id)
  {
  }

  lemma OtherReportApart(s: State, t: nat, id: Id, refused: set<Addr>, delivered: set<Addr>, perm: map<Addr, string>)
    requires AllApart(s, id, refused) && t in s.tasks && s.tasks[t].msg.to != [] && s.tasks[t].msg.id != id
    ensures AllApart(ApplyGroupDone(s, t, delivered, perm), id, refused)
  {
    OtherTask(s.tasks, t, Credited(s.tasks[t], delivered, perm), id);
    ApartElsewhere(s.rows, s.rows, s.tasks, s.tasks[t := Credited(s.tasks[t], delivered, perm)], id, refused);
    assert Of(Reported(s.ledger, s.tasks[t].msg.id, delivered, perm.Keys).rejected, id) == Of(s.ledger.rejected, id);
  }

  /** A step of a task that leaves the table alone. */
  lemma MoveApart(c: Config, s: State, t: nat, task: Task, id: Id, refused: set<Addr>)
    requires SoloInv(c, s) && AllApart(s, id, refused) && t in s.tasks && task.msg.id == s.tasks[t].msg.id
    requires !Pruning(s.tasks[t].phase) && !Pruning(task.phase) && TaskApart(s.rows, task, id, refused)
    ensures AllApart(s.(tasks := s.tasks[t := task]), id, refused)
  {
    if task.msg.id == id {
      ApartGoesOn(s.rows, s.rows, s.tasks, t, task, id, refused);
    } else {
      OtherTask(s.tasks, t, task, id);
      ApartElsewhere(s.rows, s.rows, s.tasks, s.tasks[t := task], id, refused);
    }
  }

  lemma FailureApart(c: Config, s: State, t: nat, next: nat, id: Id, refused: set<Addr>)
    requires SoloInv(c, s) && AllApart(s, id, refused) && InPhase(s, t, Sending) && s.tasks[t].msg.to != []
    ensures AllApart(ApplyGroupFailed(c, s, t, next), id, refused)
  {
    var m := s.tasks[t].msg;
    assert TaskApart(s.rows, s.tasks[t], id, refused);
    RegroupKeeps(m.to, DomainOf(m.to[0]));
    MoveApart(c, s, t, Failed(c, s.tasks[t], next), id, refused);
  }

  lemma SaveApart(c: Config, s: State, t: nat, p: Phase, id: Id, refused: set<Addr>)
    requires SoloInv(c, s) && AllApart(s, id, refused) && t in s.tasks && s.tasks[t].msg.id == id
    requires (s.tasks[t].phase == Saving && p == Sending) || (s.tasks[t].phase == SavingRetry && p == Releasing)
    ensures AllApart(SetPhase(s.(rows := PersistRow(s.rows, s.tasks[t].msg)), t, p), id, refused)
  {
    var task := s.tasks[t];
    assert TaskApart(s.rows, task, id, refused) && TaskSolo(s.rows, s.ledger, task);
    ApartGoesOn(s.rows, PersistRow(s.rows, task.msg), s.tasks, t, task.(phase := p), id, refused);
  }

  lemma CloseApart(c: Config, s: State, t: nat, id: Id, refused: set<Addr>)
    requires SoloInv(c, s) && AllApart(s, id, refused) && t in s.tasks && s.tasks[t].msg.id == id
    requires s.tasks[t].phase == Releasing || s.tasks[t].phase == Finishing || s.tasks[t].phase == Burying
    ensures AllApart(ApplyWrite(c, s, t), id, refused)
  {
    var s' := ApplyWrite(c, s, t);
    assert TaskApart(s.rows, s.tasks[t], id, refused) && TaskSolo(s.rows, s.ledger, s.tasks[t]);
    ApartEnds(s'.rows, s.tasks, s'.tasks, t, id, refused);
  }

  lemma OtherWriteApart(c: Config, s: State, t: nat, id: Id, refused: set<Addr>)
    requires AllApart(s, id, refused) && t in s.tasks && Writing(s.tasks[t].phase) && s.tasks[t].msg.id != id
    ensures AllApart(ApplyWrite(c, s, t), id, refused)
  {
    var s' := ApplyWrite(c, s, t);
    assert SameRow(s.rows, s'.rows, id) by { OtherWrites(s.rows, s.tasks[t].msg, id); }
    assert SameActive(s.tasks, s'.tasks, id) by {
      OtherTask(s.tasks, t, if t in s'.tasks then s'.tasks[t] else s.tasks[t], id);
    }
    ApartElsewhere(s.rows, s'.rows, s.tasks, s'.tasks, id, refused);
  }

  lemma WriteApart(c: Config, s: State, t: nat, id: Id, refused: set<Addr>)
    requires SoloInv(c, s) && AllApart(s, id, refused) && t in s.tasks && Writing(s.tasks[t].phase)
    ensures AllApart(ApplyWrite(c, s, t), id, refused)
  {
    if s.tasks[t].msg.id != id {
      OtherWriteApart(c, s, t, id, refused);
    } else {
      match s.tasks[t].phase
      case Saving => SaveApart(c, s, t, Sending, id, refused);
      case SavingRetry => SaveApart(c, s, t, Releasing, id, refused);
      case _ => CloseApart(c, s, t, id, refused);
    }
  }

  lemma PruneApart(s: State, t: nat, p: Phase, id: Id, refused: set<Addr>)
    requires AllApart(s, id, refused) && t in s.tasks && Pruning(s.tasks[t].phase) && Pruning(p)
    ensures AllApart(SetPhase(s, t, p), id, refused) && AllApart(FinishTask(s, t), id, refused)
  {
    OtherTask(s.tasks, t, s.tasks[t].(phase := p), id);
    ApartElsewhere(s.rows, s.rows, s.tasks, s.tasks[t := s.tasks[t].(phase := p)], id, refused);
    ApartElsewhere(s.rows, s.rows, s.tasks, s.tasks - {t}, id, refused);
  }

  lemma DeleteApart(s: State, t: nat, id: Id, refused: set<Addr>)
    requires AllApart(s, id, refused) && t in s.tasks && s.tasks[t].phase.Deleting?
    ensures AllApart(ApplyDelete(s, t), id, refused)
  {
    var victims := s.tasks[t].phase.victims;
    if victims == [] {
      PruneApart(s, t, Counting, id, refused);
    } else {
      var s1 := s.(rows := DeleteDeadRow(s.rows, victims[0]));
      assert AllApart(s1, id, refused) by {
        forall u | u in s.tasks ensures TaskApart(s1.rows, s.tasks[u], id, refused) {
          assert TaskApart(s.rows, s.tasks[u], id, refused);
        }
      }
      PruneApart(s1, t, Deleting(victims[1..]), id, refused);
    }
  }

  lemma EnqueueApart(c: Config, s: State, e: Event, id: Id, refused: set<Addr>)
    requires Inv(c, s) && AllApart(s, id, refused) && e.Enqueue? && Enabled(c, s, e)
    ensures AllApart(Apply(c, s, e), id, refused)
  {
    var s' := Apply(c, s, e);
    if e.id == id {
      assert refused == {} by { assert forall a :: a !in Of(s.ledger.rejected, id); }
    } else {
      ApartElsewhere(s.rows, s'.rows, s.tasks, s'.tasks, id, refused);
    }
  }

  lemma RequeueApart(c: Config, s: State, e: Event, id: Id, refused: set<Addr>)
    requires AllApart(s, id, refused) && Enabled(c, s, e) && e.Requeue?
    ensures AllApart(Apply(c, s, e), id, RefusedAfter(s, e, id, refused))
  {
    if e.id != id { ApartElsewhere(s.rows, RequeueRow(s.rows, e.id), s.tasks, s.tasks, id, refused); }
  }

  lemma PrunerApart(c: Config, s: State, e: Event, id: Id, refused: set<Addr>)
    requires AllApart(s, id, refused) && Enabled(c, s, e) && Pruner(e)
    ensures AllApart(Apply(c, s, e), id, refused)
  {
    match e
    case CountDead(t) =>
      PruneApart(s, t, Choosing(Surplus(s.rows, c.deadMax)), id, refused);
    case ChooseVictims(t, victims) => PruneApart(s, t, Deleting(victims), id, refused);
    case DeleteVictim(t) => DeleteApart(s, t, id, refused);
  }

  lemma PollApart(c: Config, s: State, e: Event, id: Id, refused: set<Addr>)
    requires SoloInv(c, s) && AllApart(s, id, refused) && Enabled(c, s, e)
    requires e.Select? || e.AbandonPoll? || e.ClaimNext?
    ensures AllApart(Apply(c, s, e), id, refused)
  {
    if e.ClaimNext? { ClaimApart(c, s, e.poller, e.task, id, refused); }
  }

  lemma SenderApart(c: Config, s: State, e: Event, id: Id, refused: set<Addr>)
    requires SoloInv(c, s) && AllApart(s, id, refused) && Enabled(c, s, e)
    requires e.GroupFailed? || e.LeaveLoop? || e.Write?
    ensures AllApart(Apply(c, s, e), id, refused)
  {
    match e
    case GroupFailed(t, next) => FailureApart(c, s, t, next, id, refused);
    case LeaveLoop(t) => MoveApart(c, s, t, Apply(c, s, e).tasks[t], id, refused);
    case Write(t) => WriteApart(c, s, t, id, refused);
  }

  lemma GroupDoneApart(c: Config, s: State, e: Event, id: Id, refused: set<Addr>)
    requires SoloInv(c, s) && AllApart(s, id, refused) && Enabled(c, s, e) && e.GroupDone?
    ensures AllApart(Apply(c, s, e), id, RefusedAfter(s, e, id, refused))
  {
    if s.tasks[e.task].msg.id == id {
      ReportApart(c, s, e.task, id, refused, e.delivered, e.perm);
    } else {
      OtherReportApart(s, e.task, id, refused, e.delivered, e.perm);
    }
  }

  /** Events that neither report nor requeue. */
  predicate Plain(e: Event) {
    !e.GroupDone? && !e.Requeue?
  }

  lemma PlainApart(c: Config, s: State, e: Event, id: Id, refused: set<Addr>)
    requires SoloInv(c, s) && Inv(c, s) && AllApart(s, id, refused) && Enabled(c, s, e) && SoloStep(s, e) && Plain(e)
    ensures AllApart(Apply(c, s, e), id, refused)
  {
    if e.Enqueue? {
      EnqueueApart(c, s, e, id, refused);
    } else if Pruner(e) {
      PrunerApart(c, s, e, id, refused);
    } else if Sender(e) {
      SenderApart(c, s, e, id, refused);
    } else {
      PollApart(c, s, e, id, refused);
    }
  }

  lemma StepApart(c: Config, s: State, e: Event, id: Id, refused: set<Addr>)
    requires SoloInv(c, s) && Inv(c, s) && AllApart(s, id, refused) && Enabled(c, s, e) && SoloStep(s, e)
    ensures AllApart(Apply(c, s, e), id, RefusedAfter(s, e, id, refused))
  {
    if Plain(e) {
      assert RefusedAfter(s, e, id, refused) == refused;
      PlainApart(c, s, e, id, refused);
    } else if e.Requeue? {
      RequeueApart(c, s, e, id, refused);
    } else {
      GroupDoneApart(c, s, e, id, refused);
    }
  }

  lemma {:induction false} RunApart(c: Config, ss: seq<State>, es: seq<Event>, id: Id, k: nat)
    requires SoloRun(c, ss, es) && k < |ss|
    ensures AllApart(ss[k], id, Refused(ss, es, id, k))
    decreases k
  {
    if k > 0 {
      RunApart(c, ss, es, id, k - 1);
      RunKeepsSolo(c, ss, es, k - 1);
      RunKeepsInv(c, ss, es, k - 1);
      assert StepAt(c, ss, es, k - 1);
      StepApart(c, ss[k - 1], es[k - 1], id, Refused(ss, es, id, k - 1));
    }
  }

  /** A rejection stands until the message is requeued. */
  lemma {:induction false} RefusedStays(ss: seq<State>, es: seq<Event>, id: Id, i: nat, k: nat, a: Addr)
    requires |ss| == |es| + 1 && i < k < |ss| && Reports(ss[i], es[i], id) && a in es[i].perm
    requires forall j :: i < j < k ==> es[j] != Requeue(id)
    ensures a in Refused(ss, es, id, k)
    decreases k
  {
    if i < k - 1 { RefusedStays(ss, es, id, i, k - 1, a); }
  }

  /**
   A recipient that deliverGroup reported permanently rejected is handed to a later deliverGroup call for that message
   only if the message was requeued in between.
   */
  lemma RejectedUntilRequeue(c: Config, ss: seq<State>, es: seq<Event>, i: nat, k: nat, id: Id, a: Addr,
                             group: seq<Addr>)
    requires SoloRun(c, ss, es) && i < k < |es| && Reports(ss[i], es[i], id) && a in es[i].perm
    requires HandsOver(ss[k], es[k], id, group) && a in group
    ensures exists j :: i < j < k && es[j] == Requeue(id)
  {
    RunApart(c, ss, es, id, k);
    assert StepAt(c, ss, es, k);
    var task := ss[k].tasks[es[k].task];
    assert TaskApart(ss[k].rows, task, id, Refused(ss, es, id, k)) && a in task.msg.to;
    if forall j :: i < j < k ==> es[j] != Requeue(id) {
      RefusedStays(ss, es, id, i, k, a);
    }
  }
}
