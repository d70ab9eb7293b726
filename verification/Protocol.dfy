/**
 The queue and its delivery workers as a transition system: any number of pollers and delivery tasks,
 in any number of processes, interleave their SQL statements one at a time.
 A poller is a running `NextDue`; a task is a running `deliver` (internal/relay/deliver.go, internal/storage/queue.go).
 */
module Protocol {
  import opened Routing
  import opened QueueTable

  /** `deadMax <= 0` means no cap on the dead letters. */
  datatype Config = Config(maxAttempts: nat, deadMax: int)

  /** The statement a task issues next. */
  datatype Phase =
    | Sending                        // loop head of deliver: next domain, or leave the loop
    | Saving                         // Persist after a domain was handled
    | SavingRetry                    // Persist of the postponed message
    | Releasing                      // Release after the postponement
    | Finishing                      // Succeed
    | Burying                        // UPDATE ... SET status = dead
    | Counting                       // pruneDead: SELECT COUNT(*)
    | Choosing(over: nat)            // pruneDead: SELECT the victims
    | Deleting(victims: seq<Id>)     // pruneDead: DELETE the victims one by one

  datatype Task = Task(msg: Message, deliveredAny: bool, permCount: nat, phase: Phase)

  datatype Poll = Poll(now: nat, pending: seq<Message>)

  /** What has been reported so far about each accepted message, kept for the statements below. */
  datatype Ledger = Ledger(
    accepted: map<Id, set<Addr>>, delivered: map<Id, set<Addr>>, rejected: map<Id, set<Addr>>,
    claims: map<Id, nat>)   // successful claims since the row was enqueued or requeued

  /** `cutShort` tells that some pruning ended early since the last dead-letter UPDATE. */
  datatype State = State(
    rows: Table, polls: map<nat, Poll>, tasks: map<nat, Task>, ledger: Ledger, pruned: set<Id>, cutShort: bool)

  datatype Event =
    | Enqueue(id: Id, to: seq<Addr>, createdAt: nat)
    | Select(poller: nat, now: nat, batch: seq<Message>)
    | ClaimNext(poller: nat, task: nat)
    | AbandonPoll(poller: nat)
    | GroupDone(task: nat, delivered: set<Addr>, perm: map<Addr, string>)
    | GroupFailed(task: nat, next: nat)
    | LeaveLoop(task: nat)
    | Write(task: nat)                          // Persist, Release, Succeed or the dead-letter UPDATE
    | CountDead(task: nat)
    | ChooseVictims(task: nat, victims: seq<Id>)
    | DeleteVictim(task: nat)
    | WriteFails(task: nat)
    | Crash(task: nat)
    | Requeue(id: Id)

  function Init(): State {
    State(map[], map[], map[], Ledger(map[], map[], map[], map[]), {}, false)
  }

  function Of(m: map<Id, set<Addr>>, id: Id): set<Addr> {
    if id in m then m[id] else {}
  }

  function ClaimsOf(l: Ledger, id: Id): nat {
    if id in l.claims then l.claims[id] else 0
  }

  predicate Pruning(p: Phase) {
    p.Counting? || p.Choosing? || p.Deleting?
  }

  /** A task that may still send or write for message `id`. */
  predicate Active(task: Task, id: Id) {
    task.msg.id == id && !Pruning(task.phase)
  }

  predicate Writing(p: Phase) {
    p.Saving? || p.SavingRetry? || p.Releasing? || p.Finishing? || p.Burying?
  }

  /** The domain a task in the loop talks to next, and the recipients it hands to deliverGroup. */
  function NextGroup(m: Message): seq<Addr>
    requires m.to != []
  {
    Group(m.to, DomainOf(m.to[0]))
  }

  /** The message after its next group was reported, with reasons for those rejected. */
  function AfterGroup(m: Message, perm: map<Addr, string>): Message
    requires m.to != []
  {
    m.(to := Rest(m.to, DomainOf(m.to[0])), permanent := m.permanent + perm)
  }

  /** The message with its next group put back behind the others. */
  function Regrouped(m: Message): Message
    requires m.to != []
  {
    m.(to := Rest(m.to, DomainOf(m.to[0])) + Group(m.to, DomainOf(m.to[0])))
  }

  /** Any list of distinct due rows; the ORDER BY and LIMIT of the statement only leave fewer answers. */
  predicate SelectAnswer(rows: Table, now: nat, batch: seq<Message>) {
    && (forall i :: 0 <= i < |batch| ==>
         batch[i].id in rows && Due(rows[batch[i].id], now) && batch[i] == Scan(batch[i].id, rows[batch[i].id]))
    && (forall i, j :: 0 <= i < j < |batch| ==> batch[i].id != batch[j].id)
  }

  predicate InPhase(s: State, t: nat, p: Phase) {
    t in s.tasks && s.tasks[t].phase == p
  }

  predicate Enabled(c: Config, s: State, e: Event) {
    match e
    case Enqueue(id, to, _) => id !in s.ledger.accepted && to != []
    case Select(p, now, batch) => p !in s.polls && SelectAnswer(s.rows, now, batch)
    case ClaimNext(p, t) => p in s.polls && s.polls[p].pending != [] && t !in s.tasks
    case AbandonPoll(p) => p in s.polls
    case GroupDone(t, delivered, perm) =>
      && InPhase(s, t, Sending) && s.tasks[t].msg.to != []
      && delivered + perm.Keys == Elements(NextGroup(s.tasks[t].msg))
    case GroupFailed(t, _) => InPhase(s, t, Sending) && s.tasks[t].msg.to != []
    case LeaveLoop(t) => InPhase(s, t, Sending) && s.tasks[t].msg.to == []
    case Write(t) => t in s.tasks && Writing(s.tasks[t].phase)
    case CountDead(t) => InPhase(s, t, Counting)
    case ChooseVictims(t, victims) =>
      t in s.tasks && s.tasks[t].phase.Choosing? &&
      OldestFirst(s.rows, DeadIds(s.rows), s.tasks[t].phase.over, victims)
    case DeleteVictim(t) => t in s.tasks && s.tasks[t].phase.Deleting?
    case WriteFails(t) => t in s.tasks && s.tasks[t].phase != Sending
    case Crash(t) => t in s.tasks
    case Requeue(id) => id in s.rows && s.rows[id].status == Dead
  }

  function SetPhase(s: State, t: nat, p: Phase): State
    requires t in s.tasks
  {
    s.(tasks := s.tasks[t := s.tasks[t].(phase := p)])
  }

  function EndTask(s: State, t: nat): State
    requires t in s.tasks
  {
    s.(tasks := s.tasks - {t}, cutShort := s.cutShort || Pruning(s.tasks[t].phase))
  }

  /** A DeadLetter call that reached its end. */
  function FinishTask(s: State, t: nat): State {
    s.(tasks := s.tasks - {t})
  }

  function ApplyClaim(s: State, p: nat, t: nat): State
    requires p in s.polls && s.polls[p].pending != []
  {
    var poll := s.polls[p];
    var m := poll.pending[0];
    var rest := poll.(pending := poll.pending[1..]);
    var polls := if rest.pending == [] then s.polls - {p} else s.polls[p := rest];
    if Claimable(s.rows, m.id, poll.now) then
      s.(polls := polls,
         rows := ClaimRow(s.rows, m.id, poll.now),
         tasks := s.tasks[t := Task(m, false, 0, Sending)],
         ledger := s.ledger.(claims := s.ledger.claims[m.id := ClaimsOf(s.ledger, m.id) + 1]))
    else
      s.(polls := polls)
  }

  /** The ledger after a report about recipients of message `id`. */
  function Reported(l: Ledger, id: Id, delivered: set<Addr>, rejected: set<Addr>): Ledger {
    l.(delivered := l.delivered[id := Of(l.delivered, id) + delivered],
       rejected := l.rejected[id := Of(l.rejected, id) + rejected])
  }

  /** The task after its next group was reported. */
  function Credited(task: Task, delivered: set<Addr>, perm: map<Addr, string>): Task
    requires task.msg.to != []
  {
    Task(AfterGroup(task.msg, perm), task.deliveredAny || delivered != {}, task.permCount + |perm|, Saving)
  }

  function ApplyGroupDone(s: State, t: nat, delivered: set<Addr>, perm: map<Addr, string>): State
    requires t in s.tasks && s.tasks[t].msg.to != []
  {
    s.(tasks := s.tasks[t := Credited(s.tasks[t], delivered, perm)],
       ledger := Reported(s.ledger, s.tasks[t].msg.id, delivered, perm.Keys))
  }

  /** A transient failure keeps the whole group, counts the attempt, and postpones or gives up. */
  function Failed(c: Config, task: Task, next: nat): Task
    requires task.msg.to != []
  {
    var m := Regrouped(task.msg).(attempts := task.msg.attempts + 1);
    if m.attempts >= c.maxAttempts then task.(msg := m, phase := Burying)
    else task.(msg := m.(nextAttempt := next), phase := SavingRetry)
  }

  function ApplyGroupFailed(c: Config, s: State, t: nat, next: nat): State
    requires t in s.tasks && s.tasks[t].msg.to != []
  {
    s.(tasks := s.tasks[t := Failed(c, s.tasks[t], next)])
  }

  function ApplyWrite(c: Config, s: State, t: nat): State
    requires t in s.tasks
  {
    var m := s.tasks[t].msg;
    match s.tasks[t].phase
    case Saving => SetPhase(s.(rows := PersistRow(s.rows, m)), t, Sending)
    case SavingRetry => SetPhase(s.(rows := PersistRow(s.rows, m)), t, Releasing)
    case Releasing => EndTask(s.(rows := ReleaseRow(s.rows, m.id)), t)
    case Finishing => EndTask(s.(rows := SucceedRow(s.rows, m.id)), t)
    case Burying =>
      var s' := s.(rows := BuryRow(s.rows, m.id), cutShort := false);
      if c.deadMax <= 0 then FinishTask(s', t) else SetPhase(s', t, Counting)
    case _ => s
  }

  function ApplyCount(c: Config, s: State, t: nat): State
    requires t in s.tasks
  {
    var over := |DeadIds(s.rows)| - c.deadMax;
    if over <= 0 then FinishTask(s, t) else SetPhase(s, t, Choosing(over))
  }

  function ApplyDelete(s: State, t: nat): State
    requires t in s.tasks && s.tasks[t].phase.Deleting?
  {
    var victims := s.tasks[t].phase.victims;
    if victims == [] then FinishTask(s, t)
    else
      var id := victims[0];
      SetPhase(s.(rows := DeleteDeadRow(s.rows, id),
                  pruned := if id in DeadIds(s.rows) then s.pruned + {id} else s.pruned), t, Deleting(victims[1..]))
  }

  /** A failed statement: Persist errors are only logged, all others end the task. */
  function ApplyWriteFails(s: State, t: nat): State
    requires t in s.tasks
  {
    match s.tasks[t].phase
    case Saving => SetPhase(s, t, Sending)
    case SavingRetry => SetPhase(s, t, Releasing)
    case _ => EndTask(s, t)
  }

  function Apply(c: Config, s: State, e: Event): State
    requires Enabled(c, s, e)
  {
    match e
    case Enqueue(id, to, createdAt) =>
      s.(rows := InsertRow(s.rows, id, to, createdAt),
         ledger := s.ledger.(accepted := s.ledger.accepted[id := Elements(to)], claims := s.ledger.claims[id := 0]))
    case Select(p, now, batch) => if batch == [] then s else s.(polls := s.polls[p := Poll(now, batch)])
    case ClaimNext(p, t) => ApplyClaim(s, p, t)
    case AbandonPoll(p) => s.(polls := s.polls - {p})
    case GroupDone(t, delivered, perm) => ApplyGroupDone(s, t, delivered, perm)
    case GroupFailed(t, next) => ApplyGroupFailed(c, s, t, next)
    case LeaveLoop(t) =>
      SetPhase(s, t, if !s.tasks[t].deliveredAny && s.tasks[t].permCount > 0 then Burying else Finishing)
    case Write(t) => ApplyWrite(c, s, t)
    case CountDead(t) => ApplyCount(c, s, t)
    case ChooseVictims(t, victims) => SetPhase(s, t, Deleting(victims))
    case DeleteVictim(t) => ApplyDelete(s, t)
    case WriteFails(t) => ApplyWriteFails(s, t)
    case Crash(t) => EndTask(s, t)
    case Requeue(id) =>
      s.(rows := RequeueRow(s.rows, id), ledger := s.ledger.(claims := s.ledger.claims[id := 0]))
  }

  predicate StepAt(c: Config, ss: seq<State>, es: seq<Event>, i: nat)
    requires |ss| == |es| + 1 && i < |es|
  {
    Enabled(c, ss[i], es[i]) && ss[i + 1] == Apply(c, ss[i], es[i])
  }

  /** `ss` are the states and `es` the events of a run from the empty queue. */
  predicate IsRun(c: Config, ss: seq<State>, es: seq<Event>) {
    |ss| == |es| + 1 && ss[0] == Init() && forall i :: 0 <= i < |es| ==> StepAt(c, ss, es, i)
  }
}
