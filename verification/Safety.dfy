/**
 What every step of the protocol keeps, and the two statements that follow over whole runs:
 no recipient of an accepted message is ever lost, and no row is tried MaxAttempts times while queued.
 Stale snapshots, expired leases, failed writes, crashes and requeues are all allowed.
 */
module Safety {
  import opened Routing
  import opened QueueTable
  import opened Protocol

  /** Every accepted recipient is in `to` or already reported, and `to` holds accepted recipients only. */
  ghost predicate Covers(l: Ledger, id: Id, to: seq<Addr>) {
    && id in l.accepted
    && (forall a :: a in l.accepted[id] ==> a in to || a in Of(l.delivered, id) || a in Of(l.rejected, id))
    && (forall a :: a in to ==> a in l.accepted[id])
  }

  ghost predicate Settled(l: Ledger, id: Id) {
    id in l.accepted && forall a :: a in l.accepted[id] ==> a in Of(l.delivered, id) || a in Of(l.rejected, id)
  }

  ghost predicate RowOk(c: Config, l: Ledger, id: Id, row: Row) {
    Covers(l, id, row.to) && row.to != [] && row.attempts < c.maxAttempts
  }

  ghost predicate SnapshotOk(c: Config, l: Ledger, m: Message) {
    Covers(l, m.id, m.to) && m.attempts < c.maxAttempts
  }

  ghost predicate TaskOk(c: Config, l: Ledger, task: Task) {
    && Covers(l, task.msg.id, task.msg.to)
    && (task.phase.Sending? || task.phase.Saving? || task.phase.SavingRetry? ==> task.msg.attempts < c.maxAttempts)
    && (task.phase.Finishing? ==> task.msg.to == [])
  }

  ghost predicate RowsOk(c: Config, s: State) {
    forall id :: id in s.rows ==> RowOk(c, s.ledger, id, s.rows[id])
  }

  ghost predicate PollsOk(c: Config, s: State) {
    forall p, i :: p in s.polls && 0 <= i < |s.polls[p].pending| ==> SnapshotOk(c, s.ledger, s.polls[p].pending[i])
  }

  ghost predicate TasksOk(c: Config, s: State) {
    forall t :: t in s.tasks ==> TaskOk(c, s.ledger, s.tasks[t])
  }

  /** The fate of the messages that are no longer in the table. */
  ghost predicate GoneOk(s: State) {
    forall id :: id in s.ledger.accepted ==> id in s.rows || id in s.pruned || Settled(s.ledger, id)
  }

  /** Nothing is reported about recipients that were never accepted. */
  ghost predicate ReportsOk(l: Ledger) {
    forall id, a :: a in Of(l.delivered, id) || a in Of(l.rejected, id) ==> id in l.accepted && a in l.accepted[id]
  }

  ghost predicate Inv(c: Config, s: State) {
    RowsOk(c, s) && PollsOk(c, s) && TasksOk(c, s) && GoneOk(s) && ReportsOk(s.ledger)
  }

  /** Reports are never withdrawn and the accepted recipients of a message never change. */
  ghost predicate Grows(l: Ledger, l': Ledger) {
    && (forall id :: id in l.accepted ==> id in l'.accepted && l'.accepted[id] == l.accepted[id])
    && (forall id :: Of(l.delivered, id) <= Of(l'.delivered, id))
    && (forall id :: Of(l.rejected, id) <= Of(l'.rejected, id))
  }

  lemma CoversGrows(l: Ledger, l': Ledger, id: Id, to: seq<Addr>)
    requires Grows(l, l') && Covers(l, id, to)
    ensures Covers(l', id, to)
  {
    assert Of(l.delivered, id) <= Of(l'.delivered, id);
    assert Of(l.rejected, id) <= Of(l'.rejected, id);
  }

  /** A bigger ledger keeps everything that was said about the same rows, polls and tasks. */
  lemma InvGrows(c: Config, s: State, l: Ledger)
    requires Inv(c, s) && Grows(s.ledger, l)
    ensures var s' := s.(ledger := l); RowsOk(c, s') && PollsOk(c, s') && TasksOk(c, s')
    ensures forall id :: Settled(s.ledger, id) ==> Settled(l, id)
  {
    var s' := s.(ledger := l);
    forall id | id in s.rows ensures RowOk(c, l, id, s.rows[id]) {
      CoversGrows(s.ledger, l, id, s.rows[id].to);
    }
    forall p, i | p in s.polls && 0 <= i < |s.polls[p].pending| ensures SnapshotOk(c, l, s.polls[p].pending[i]) {
      CoversGrows(s.ledger, l, s.polls[p].pending[i].id, s.polls[p].pending[i].to);
    }
    forall t | t in s.tasks ensures TaskOk(c, l, s.tasks[t]) {
      CoversGrows(s.ledger, l, s.tasks[t].msg.id, s.tasks[t].msg.to);
    }
    forall id | Settled(s.ledger, id) ensures Settled(l, id) {
      assert Of(s.ledger.delivered, id) <= Of(l.delivered, id);
      assert Of(s.ledger.rejected, id) <= Of(l.rejected, id);
    }
  }

  /** Six elementary changes that keep the invariant; every step is a composition of these. */
  lemma LedgerKeepsInv(c: Config, s: State, l: Ledger)
    requires Inv(c, s) && Grows(s.ledger, l) && l.accepted == s.ledger.accepted && ReportsOk(l)
    ensures Inv(c, s.(ledger := l))
  {
    InvGrows(c, s, l);
  }

  lemma TaskKeepsInv(c: Config, s: State, t: nat, task: Task)
    requires Inv(c, s) && TaskOk(c, s.ledger, task)
    ensures Inv(c, s.(tasks := s.tasks[t := task]))
  {
    var s' := s.(tasks := s.tasks[t := task]);
    assert forall u :: u in s'.tasks ==> u == t || (u in s.tasks && s'.tasks[u] == s.tasks[u]);
  }

  lemma EndKeepsInv(c: Config, s: State, t: nat, cutShort: bool)
    requires Inv(c, s)
    ensures Inv(c, s.(tasks := s.tasks - {t}, cutShort := cutShort))
  {
    var s' := s.(tasks := s.tasks - {t}, cutShort := cutShort);
    assert forall u :: u in s'.tasks ==> u in s.tasks && s'.tasks[u] == s.tasks[u];
  }

  lemma RowKeepsInv(c: Config, s: State, id: Id, row: Row)
    requires Inv(c, s) && RowOk(c, s.ledger, id, row)
    ensures Inv(c, s.(rows := s.rows[id := row]))
  {
    var s' := s.(rows := s.rows[id := row]);
    assert forall i :: i in s'.rows ==> i == id || (i in s.rows && s'.rows[i] == s.rows[i]);
  }

  lemma RemovalKeepsInv(c: Config, s: State, id: Id, pruned: set<Id>)
    requires Inv(c, s) && s.pruned <= pruned && (id in pruned || Settled(s.ledger, id))
    ensures Inv(c, s.(rows := s.rows - {id}, pruned := pruned))
  {
    var s' := s.(rows := s.rows - {id}, pruned := pruned);
    assert forall i :: i in s'.rows ==> i in s.rows && s'.rows[i] == s.rows[i];
  }

  lemma PollsKeepInv(c: Config, s: State, polls: map<nat, Poll>)
    requires Inv(c, s)
    requires forall p, i :: p in polls && 0 <= i < |polls[p].pending| ==>
      (p in s.polls && polls[p].pending[i] in s.polls[p].pending) || SnapshotOk(c, s.ledger, polls[p].pending[i])
    ensures Inv(c, s.(polls := polls))
  {
  }

  lemma EnqueueKeepsInv(c: Config, s: State, id: Id, to: seq<Addr>, createdAt: nat)
    requires Inv(c, s) && id !in s.ledger.accepted && to != [] && 1 <= c.maxAttempts
    ensures Inv(c, s.(rows := InsertRow(s.rows, id, to, createdAt),
      ledger := s.ledger.(accepted := s.ledger.accepted[id := Elements(to)], claims := s.ledger.claims[id := 0])))
  {
    var l := s.ledger.(accepted := s.ledger.accepted[id := Elements(to)], claims := s.ledger.claims[id := 0]);
    assert Grows(s.ledger, l);
    InvGrows(c, s, l);
    assert Covers(l, id, to);
  }

  lemma SelectKeepsInv(c: Config, s: State, p: nat, now: nat, batch: seq<Message>)
    requires Inv(c, s) && SelectAnswer(s.rows, now, batch)
    ensures Inv(c, s.(polls := s.polls[p := Poll(now, batch)]))
  {
    forall i | 0 <= i < |batch| ensures SnapshotOk(c, s.ledger, batch[i]) {
      assert RowOk(c, s.ledger, batch[i].id, s.rows[batch[i].id]);
    }
    PollsKeepInv(c, s, s.polls[p := Poll(now, batch)]);
  }

  lemma ClaimKeepsInv(c: Config, s: State, p: nat, t: nat)
    requires Inv(c, s) && p in s.polls && s.polls[p].pending != []
    ensures Inv(c, ApplyClaim(s, p, t))
  {
    var s' := ApplyClaim(s, p, t);
    var m := s.polls[p].pending[0];
    assert SnapshotOk(c, s.ledger, m);
    PollsKeepInv(c, s, s'.polls);
    var s1 := s.(polls := s'.polls);
    if Claimable(s.rows, m.id, s.polls[p].now) {
      assert RowOk(c, s.ledger, m.id, s.rows[m.id]);
      RowKeepsInv(c, s1, m.id, s'.rows[m.id]);
      TaskKeepsInv(c, s1.(rows := s'.rows), t, Task(m, false, 0, Sending));
      LedgerKeepsInv(c, s1.(rows := s'.rows, tasks := s'.tasks), s'.ledger);
    }
  }

  lemma ReportGrows(l: Ledger, id: Id, delivered: set<Addr>, rejected: set<Addr>)
    ensures Grows(l, Reported(l, id, delivered, rejected))
  {
    var l' := Reported(l, id, delivered, rejected);
    forall i ensures Of(l.delivered, i) <= Of(l'.delivered, i) && Of(l.rejected, i) <= Of(l'.rejected, i) {
      assert i != id ==> Of(l'.delivered, i) == Of(l.delivered, i) && Of(l'.rejected, i) == Of(l.rejected, i);
    }
  }

  lemma ReportNamesAccepted(l: Ledger, id: Id, delivered: set<Addr>, rejected: set<Addr>)
    requires ReportsOk(l) && id in l.accepted && delivered + rejected <= l.accepted[id]
    ensures ReportsOk(Reported(l, id, delivered, rejected))
  {
    var l' := Reported(l, id, delivered, rejected);
    forall i, a | a in Of(l'.delivered, i) || a in Of(l'.rejected, i) ensures i in l'.accepted && a in l'.accepted[i] {
      assert (a in Of(l.delivered, i) || a in Of(l.rejected, i)) || (i == id && a in delivered + rejected);
    }
  }

  lemma ReportCoversRest(l: Ledger, m: Message, delivered: set<Addr>, rejected: set<Addr>)
    requires Covers(l, m.id, m.to) && m.to != [] && delivered + rejected == Elements(NextGroup(m))
    ensures Covers(Reported(l, m.id, delivered, rejected), m.id, Rest(m.to, DomainOf(m.to[0])))
  {
    var l', rest := Reported(l, m.id, delivered, rejected), Rest(m.to, DomainOf(m.to[0]));
    forall a | a in l'.accepted[m.id] ensures a in rest || a in Of(l'.delivered, m.id) || a in Of(l'.rejected, m.id) {
      assert a in m.to ==> a in rest || a in Elements(NextGroup(m));
    }
  }

  /** What is reported for a group leaves the rest of the message covering everything else. */
  lemma ReportCovers(l: Ledger, m: Message, delivered: set<Addr>, rejected: set<Addr>)
    requires ReportsOk(l) && Covers(l, m.id, m.to) && m.to != []
    requires delivered + rejected == Elements(NextGroup(m))
    ensures var l' := Reported(l, m.id, delivered, rejected);
      Grows(l, l') && ReportsOk(l') && Covers(l', m.id, Rest(m.to, DomainOf(m.to[0])))
  {
    forall a | a in delivered + rejected ensures a in l.accepted[m.id] {
      assert a in Elements(NextGroup(m));
    }
    ReportGrows(l, m.id, delivered, rejected);
    ReportNamesAccepted(l, m.id, delivered, rejected);
    ReportCoversRest(l, m, delivered, rejected);
  }

  lemma GroupDoneKeepsInv(c: Config, s: State, t: nat, delivered: set<Addr>, perm: map<Addr, string>)
    requires Inv(c, s) && InPhase(s, t, Sending) && s.tasks[t].msg.to != []
    requires delivered + perm.Keys == Elements(NextGroup(s.tasks[t].msg))
    ensures Inv(c, ApplyGroupDone(s, t, delivered, perm))
  {
    var s' := ApplyGroupDone(s, t, delivered, perm);
    assert TaskOk(c, s.ledger, s.tasks[t]);
    ReportCovers(s.ledger, s.tasks[t].msg, delivered, perm.Keys);
    LedgerKeepsInv(c, s, s'.ledger);
    TaskKeepsInv(c, s.(ledger := s'.ledger), t, s'.tasks[t]);
  }

  lemma GroupFailedKeepsInv(c: Config, s: State, t: nat, next: nat)
    requires Inv(c, s) && t in s.tasks && s.tasks[t].msg.to != []
    ensures Inv(c, ApplyGroupFailed(c, s, t, next))
  {
    var m := s.tasks[t].msg;
    assert TaskOk(c, s.ledger, s.tasks[t]);
    RegroupKeeps(m.to, DomainOf(m.to[0]));
    TaskKeepsInv(c, s, t, ApplyGroupFailed(c, s, t, next).tasks[t]);
  }

  lemma PersistKeepsInv(c: Config, s: State, m: Message)
    requires Inv(c, s) && SnapshotOk(c, s.ledger, m)
    ensures Inv(c, s.(rows := PersistRow(s.rows, m)))
  {
    if m.to != [] && m.id in s.rows {
      RowKeepsInv(c, s, m.id, PersistRow(s.rows, m)[m.id]);
    }
  }

  lemma SavingKeepsInv(c: Config, s: State, t: nat, p: Phase)
    requires Inv(c, s) && t in s.tasks && s.tasks[t].msg.attempts < c.maxAttempts && (p.Sending? || p.Releasing?)
    ensures Inv(c, SetPhase(s.(rows := PersistRow(s.rows, s.tasks[t].msg)), t, p))
  {
    var task := s.tasks[t];
    assert TaskOk(c, s.ledger, task);
    PersistKeepsInv(c, s, task.msg);
    TaskKeepsInv(c, s.(rows := PersistRow(s.rows, task.msg)), t, task.(phase := p));
  }

  lemma ReleasingKeepsInv(c: Config, s: State, t: nat)
    requires Inv(c, s) && InPhase(s, t, Releasing)
    ensures Inv(c, ApplyWrite(c, s, t))
  {
    var id, rows := s.tasks[t].msg.id, ReleaseRow(s.rows, s.tasks[t].msg.id);
    if id in s.rows {
      assert RowOk(c, s.ledger, id, s.rows[id]);
      RowKeepsInv(c, s, id, rows[id]);
    }
    EndKeepsInv(c, s.(rows := rows), t, s.cutShort);
  }

  lemma FinishingKeepsInv(c: Config, s: State, t: nat)
    requires Inv(c, s) && InPhase(s, t, Finishing)
    ensures Inv(c, ApplyWrite(c, s, t))
  {
    var id, rows := s.tasks[t].msg.id, SucceedRow(s.rows, s.tasks[t].msg.id);
    if id in QueuedIds(s.rows) {
      assert TaskOk(c, s.ledger, s.tasks[t]);
      RemovalKeepsInv(c, s, id, s.pruned);
    }
    EndKeepsInv(c, s.(rows := rows), t, s.cutShort);
  }

  lemma BuryingKeepsInv(c: Config, s: State, t: nat)
    requires Inv(c, s) && InPhase(s, t, Burying)
    ensures Inv(c, ApplyWrite(c, s, t))
  {
    var task, rows := s.tasks[t], BuryRow(s.rows, s.tasks[t].msg.id);
    if task.msg.id in s.rows {
      assert RowOk(c, s.ledger, task.msg.id, s.rows[task.msg.id]);
      RowKeepsInv(c, s, task.msg.id, rows[task.msg.id]);
    }
    assert TaskOk(c, s.ledger, task);
    EndKeepsInv(c, s.(rows := rows), t, false);
    TaskKeepsInv(c, s.(rows := rows, cutShort := false), t, task.(phase := Counting));
  }

  lemma WriteKeepsInv(c: Config, s: State, t: nat)
    requires Inv(c, s) && t in s.tasks && Writing(s.tasks[t].phase)
    ensures Inv(c, ApplyWrite(c, s, t))
  {
    assert TaskOk(c, s.ledger, s.tasks[t]);
    match s.tasks[t].phase
    case Saving => SavingKeepsInv(c, s, t, Sending);
    case SavingRetry => SavingKeepsInv(c, s, t, Releasing);
    case Releasing => ReleasingKeepsInv(c, s, t);
    case Finishing => FinishingKeepsInv(c, s, t);
    case Burying => BuryingKeepsInv(c, s, t);
  }

  lemma DeleteKeepsInv(c: Config, s: State, t: nat)
    requires Inv(c, s) && t in s.tasks && s.tasks[t].phase.Deleting?
    ensures Inv(c, ApplyDelete(s, t))
  {
    var s' := ApplyDelete(s, t);
    assert TaskOk(c, s.ledger, s.tasks[t]);
    var victims := s.tasks[t].phase.victims;
    if victims == [] {
      EndKeepsInv(c, s, t, s.cutShort);
    } else {
      if victims[0] in DeadIds(s.rows) { RemovalKeepsInv(c, s, victims[0], s'.pruned); }
      TaskKeepsInv(c, s.(rows := s'.rows, pruned := s'.pruned), t, s'.tasks[t]);
    }
  }

  lemma RequeueKeepsInv(c: Config, s: State, id: Id)
    requires Inv(c, s) && id in DeadIds(s.rows) && 1 <= c.maxAttempts
    ensures Inv(c, s.(rows := RequeueRow(s.rows, id), ledger := s.ledger.(claims := s.ledger.claims[id := 0])))
  {
    assert RowOk(c, s.ledger, id, s.rows[id]);
    RowKeepsInv(c, s, id, RequeueRow(s.rows, id)[id]);
    LedgerKeepsInv(c, s.(rows := RequeueRow(s.rows, id)), s.ledger.(claims := s.ledger.claims[id := 0]));
  }

  /** Moving a task on, or ending it, without touching the table. */
  lemma PhaseKeepsInv(c: Config, s: State, t: nat, p: Phase)
    requires Inv(c, s) && t in s.tasks && !p.Saving? && !p.SavingRetry?
    requires p.Sending? ==> s.tasks[t].phase.Saving?
    requires p.Finishing? ==> s.tasks[t].msg.to == []
    ensures Inv(c, SetPhase(s, t, p)) && Inv(c, EndTask(s, t)) && Inv(c, FinishTask(s, t))
  {
    assert TaskOk(c, s.ledger, s.tasks[t]);
    TaskKeepsInv(c, s, t, s.tasks[t].(phase := p));
    EndKeepsInv(c, s, t, s.cutShort);
    EndKeepsInv(c, s, t, EndTask(s, t).cutShort);
  }

  predicate Pruner(e: Event) {
    e.CountDead? || e.ChooseVictims? || e.DeleteVictim?
  }

  lemma PrunerKeepsInv(c: Config, s: State, e: Event)
    requires Inv(c, s) && Enabled(c, s, e) && Pruner(e)
    ensures Inv(c, Apply(c, s, e))
  {
    if e.DeleteVictim? {
      DeleteKeepsInv(c, s, e.task);
    } else {
      PhaseKeepsInv(c, s, e.task, if e.CountDead? then Choosing(Surplus(s.rows, c.deadMax)) else Deleting(e.victims));
    }
  }

  predicate Sender(e: Event) {
    e.GroupDone? || e.GroupFailed? || e.LeaveLoop? || e.Write? || e.WriteFails? || e.Crash?
  }

  lemma SenderKeepsInv(c: Config, s: State, e: Event)
    requires Inv(c, s) && Enabled(c, s, e) && Sender(e)
    ensures Inv(c, Apply(c, s, e))
  {
    match e
    case GroupDone(t, delivered, perm) => GroupDoneKeepsInv(c, s, t, delivered, perm);
    case GroupFailed(t, next) => GroupFailedKeepsInv(c, s, t, next);
    case LeaveLoop(t) => PhaseKeepsInv(c, s, t, Apply(c, s, e).tasks[t].phase);
    case Write(t) => WriteKeepsInv(c, s, t);
    case WriteFails(t) => PhaseKeepsInv(c, s, t, if s.tasks[t].phase.Saving? then Sending else Releasing);
    case Crash(t) => PhaseKeepsInv(c, s, t, Releasing);
  }

  lemma PollerKeepsInv(c: Config, s: State, e: Event)
    requires Inv(c, s) && Enabled(c, s, e) && (e.Select? || e.ClaimNext? || e.AbandonPoll?)
    ensures Inv(c, Apply(c, s, e))
  {
    match e
    case Select(p, now, batch) => SelectKeepsInv(c, s, p, now, batch);
    case ClaimNext(p, t) => ClaimKeepsInv(c, s, p, t);
    case AbandonPoll(p) => PollsKeepInv(c, s, s.polls - {p});
  }

  lemma StepKeepsInv(c: Config, s: State, e: Event)
    requires Inv(c, s) && Enabled(c, s, e) && 1 <= c.maxAttempts
    ensures Inv(c, Apply(c, s, e))
  {
    if Sender(e) {
      SenderKeepsInv(c, s, e);
    } else if Pruner(e) {
      PrunerKeepsInv(c, s, e);
    } else if e.Enqueue? {
      EnqueueKeepsInv(c, s, e.id, e.to, e.createdAt);
    } else if e.Requeue? {
      RequeueKeepsInv(c, s, e.id);
    } else {
      PollerKeepsInv(c, s, e);
    }
  }

  lemma {:induction false} RunKeepsInv(c: Config, ss: seq<State>, es: seq<Event>, k: nat)
    requires IsRun(c, ss, es) && k < |ss| && 1 <= c.maxAttempts
    ensures Inv(c, ss[k])
  {
    if k > 0 {
      RunKeepsInv(c, ss, es, k - 1);
      assert StepAt(c, ss, es, k - 1);
      StepKeepsInv(c, ss[k - 1], es[k - 1]);
    }
  }

  /**
   In every reachable state each recipient of each accepted message was reported delivered, or permanently
   rejected, or is still in the row of its message, or that row was pruned from the dead letters;
   and rows and reports name accepted recipients only.
   */
  lemma NoRecipientLost(c: Config, ss: seq<State>, es: seq<Event>, k: nat, id: Id, a: Addr)
    requires IsRun(c, ss, es) && k < |ss| && 1 <= c.maxAttempts
    ensures var s := ss[k];
      id in s.ledger.accepted && a in s.ledger.accepted[id] ==>
        || a in Of(s.ledger.delivered, id) || a in Of(s.ledger.rejected, id)
        || (id in s.rows && a in s.rows[id].to) || id in s.pruned
    ensures var s := ss[k];
      (id in s.rows && a in s.rows[id].to) || a in Of(s.ledger.delivered, id) || a in Of(s.ledger.rejected, id) ==>
        id in s.ledger.accepted && a in s.ledger.accepted[id]
  {
    RunKeepsInv(c, ss, es, k);
    assert id in ss[k].rows ==> RowOk(c, ss[k].ledger, id, ss[k].rows[id]);
  }

  /** A row, queued or dead, keeps a recipient and has used up fewer than MaxAttempts attempts. */
  lemma AttemptsBounded(c: Config, ss: seq<State>, es: seq<Event>, k: nat, id: Id)
    requires IsRun(c, ss, es) && k < |ss| && 1 <= c.maxAttempts
    requires id in ss[k].rows
    ensures 0 <= ss[k].rows[id].attempts < c.maxAttempts && ss[k].rows[id].to != []
  {
    RunKeepsInv(c, ss, es, k);
    assert RowOk(c, ss[k].ledger, id, ss[k].rows[id]);
  }

  // ---- The ledger tells what happened ----

  ghost predicate Accepts(e: Event, id: Id, a: Addr) {
    e.Enqueue? && e.id == id && a in e.to
  }

  ghost predicate Delivers(s: State, e: Event, id: Id, a: Addr) {
    e.GroupDone? && e.task in s.tasks && s.tasks[e.task].msg.id == id && a in e.delivered
  }

  ghost predicate Rejects(s: State, e: Event, id: Id, a: Addr) {
    e.GroupDone? && e.task in s.tasks && s.tasks[e.task].msg.id == id && a in e.perm
  }

  /** A pruning deletes the dead row of a message. */
  ghost predicate Prunes(s: State, e: Event, id: Id) {
    && e.DeleteVictim? && e.task in s.tasks && s.tasks[e.task].phase.Deleting? && s.tasks[e.task].phase.victims != []
    && s.tasks[e.task].phase.victims[0] == id && id in s.rows && s.rows[id].status == Dead
  }

  /** The books of a later state are those of an earlier one and what the step between adds about a recipient. */
  ghost predicate Tells(s: State, e: Event, s': State, id: Id, a: Addr) {
    var l, l' := s.ledger, s'.ledger;
    && (id in l'.accepted && a in l'.accepted[id] <==> (id in l.accepted && a in l.accepted[id]) || Accepts(e, id, a))
    && (a in Of(l'.delivered, id) <==> a in Of(l.delivered, id) || Delivers(s, e, id, a))
    && (a in Of(l'.rejected, id) <==> a in Of(l.rejected, id) || Rejects(s, e, id, a))
    && (id in s'.pruned <==> id in s.pruned || Prunes(s, e, id))
  }

  lemma StepTells(c: Config, s: State, e: Event, id: Id, a: Addr)
    requires Enabled(c, s, e)
    ensures Tells(s, e, Apply(c, s, e), id, a)
  {
    if e.GroupDone? {
      GroupTells(s, e, id, a);
    } else if e.DeleteVictim? {
      DeleteTells(s, e, id, a);
    } else if !e.Enqueue? {
      OthersTellNothing(c, s, e);
    }
  }

  lemma GroupTells(s: State, e: Event, id: Id, a: Addr)
    requires e.GroupDone? && e.task in s.tasks && s.tasks[e.task].msg.to != []
    ensures Tells(s, e, ApplyGroupDone(s, e.task, e.delivered, e.perm), id, a)
  {
    ReportTells(s.ledger, s.tasks[e.task].msg.id, e.delivered, e.perm.Keys, id, a);
  }

  lemma ReportTells(l: Ledger, m: Id, delivered: set<Addr>, rejected: set<Addr>, id: Id, a: Addr)
    ensures a in Of(Reported(l, m, delivered, rejected).delivered, id) <==>
      a in Of(l.delivered, id) || (id == m && a in delivered)
    ensures a in Of(Reported(l, m, delivered, rejected).rejected, id) <==>
      a in Of(l.rejected, id) || (id == m && a in rejected)
  {
  }

  lemma DeleteTells(s: State, e: Event, id: Id, a: Addr)
    requires e.DeleteVictim? && e.task in s.tasks && s.tasks[e.task].phase.Deleting?
    ensures Tells(s, e, ApplyDelete(s, e.task), id, a)
  {
  }

  lemma OthersTellNothing(c: Config, s: State, e: Event)
    requires Enabled(c, s, e) && !e.Enqueue? && !e.GroupDone? && !e.DeleteVictim?
    ensures var s' := Apply(c, s, e);
      && s'.ledger == s.ledger.(claims := s'.ledger.claims) && s'.pruned == s.pruned
  {
    if e.Write? { WriteTellsNothing(c, s, e.task); }
  }

  lemma WriteTellsNothing(c: Config, s: State, t: nat)
    requires t in s.tasks
    ensures ApplyWrite(c, s, t).ledger == s.ledger && ApplyWrite(c, s, t).pruned == s.pruned
  {
  }

  /** A recipient is in the ledger exactly for a step that put it there, and a message pruned exactly for a deletion. */
  lemma {:induction false} LedgerExactly(c: Config, ss: seq<State>, es: seq<Event>, k: nat, id: Id, a: Addr)
    requires IsRun(c, ss, es) && k < |ss|
    ensures var l := ss[k].ledger;
      && (id in l.accepted && a in l.accepted[id] <==> exists i :: 0 <= i < k && Accepts(es[i], id, a))
      && (a in Of(l.delivered, id) <==> exists i :: 0 <= i < k && Delivers(ss[i], es[i], id, a))
      && (a in Of(l.rejected, id) <==> exists i :: 0 <= i < k && Rejects(ss[i], es[i], id, a))
    ensures id in ss[k].pruned <==> exists i :: 0 <= i < k && Prunes(ss[i], es[i], id)
  {
    if k > 0 {
      LedgerExactly(c, ss, es, k - 1, id, a);
      var s, e := ss[k - 1], es[k - 1];
      assert StepAt(c, ss, es, k - 1);
      StepTells(c, s, e, id, a);
    }
  }

  /**
   After a message is enqueued, each of its recipients is in its row at any later time, or a task has reported
   delivering to it, or rejecting it, or a pruning has deleted the dead row.
   */
  lemma NoRecipientForgotten(c: Config, ss: seq<State>, es: seq<Event>, i: nat, k: nat, id: Id, a: Addr)
    requires IsRun(c, ss, es) && i < k < |ss| && 1 <= c.maxAttempts && Accepts(es[i], id, a)
    ensures (id in ss[k].rows && a in ss[k].rows[id].to) || exists j ::
      0 <= j < k && (Delivers(ss[j], es[j], id, a) || Rejects(ss[j], es[j], id, a) || Prunes(ss[j], es[j], id))
  {
    LedgerExactly(c, ss, es, k, id, a);
    NoRecipientLost(c, ss, es, k, id, a);
  }
}
