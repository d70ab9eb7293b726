/** Why "one worker" matters: Persist and Release drop the lease of a row whoever holds it. */
module Races {
  import opened Routing
  import opened QueueTable
  import opened Protocol
  import opened SoloWorker

  /** When the run starts, and when the message is tried again. */
  const START := 10
  const LATER := 20

  /** A claim of row `id` succeeds because the lease of its last holder has expired. */
  predicate TakesOver(s: State, e: Event, id: Id) {
    && e.ClaimNext? && e.poller in s.polls && s.polls[e.poller].pending != [] && s.polls[e.poller].pending[0].id == id
    && Claimable(s.rows, id, s.polls[e.poller].now) && s.rows[id].leaseUntil != 0
  }

  /**
   A step of one of two workers, each of which waits for its own batch like the single worker does: worker `p` polls
   when none of its tasks is running, and its tasks are those with the parity of `p`. Nothing crashes, no statement
   fails, and no claim takes over an expired lease.
   */
  ghost predicate CalmStep(s: State, e: Event) {
    && !e.Crash? && !e.WriteFails? && !e.AbandonPoll?
    && (e.Select? ==> e.poller < 2 && forall t :: t in s.tasks ==> t % 2 != e.poller)
    && (e.ClaimNext? ==> e.task % 2 == e.poller)
    && (forall id :: !TakesOver(s, e, id))
  }

  datatype Calm = Calm(ss: seq<State>, es: seq<Event>) {
    ghost predicate Valid(c: Config) {
      IsRun(c, ss, es) && forall k :: 0 <= k < |es| ==> CalmStep(ss[k], es[k])
    }
  }

  function Last(r: Calm): State
    requires |r.ss| == |r.es| + 1
  {
    r.ss[|r.es|]
  }

  /** One message in the queue, and nothing else but the given polls and tasks. */
  ghost predicate Shape(s: State, id: Id, row: Row, polls: map<nat, Poll>, tasks: map<nat, Task>) {
    s.rows == map[id := row] && s.polls == polls && s.tasks == tasks
  }

  /** A valid run for the message that has reached the given shape. */
  ghost predicate Reached(c: Config, r: Calm, id: Id, to: seq<Addr>, row: Row, polls: map<nat, Poll>,
                          tasks: map<nat, Task>)
  {
    r.Valid(c) && [Enqueue(id, to, 1)] <= r.es && Shape(Last(r), id, row, polls, tasks)
  }

  function FreshRow(to: seq<Addr>): Row {
    Row(to, map[], 0, 0, Queued, 0, 1)
  }

  lemma Extend(c: Config, r: Calm, e: Event) returns (r': Calm)
    requires r.Valid(c) && Enabled(c, Last(r), e) && CalmStep(Last(r), e)
    ensures r' == Calm(r.ss + [Apply(c, Last(r), e)], r.es + [e]) && r'.Valid(c)
  {
    var s' := Apply(c, Last(r), e);
    r' := Calm(r.ss + [s'], r.es + [e]);
    forall i | 0 <= i < |r'.es| ensures StepAt(c, r'.ss, r'.es, i) && CalmStep(r'.ss[i], r'.es[i]) {
      if i < |r.es| {
        assert StepAt(c, r.ss, r.es, i) && CalmStep(r.ss[i], r.es[i]);
        assert r'.ss[i] == r.ss[i] && r'.ss[i + 1] == r.ss[i + 1] && r'.es[i] == r.es[i];
      } else {
        assert r'.ss[i] == Last(r) && r'.ss[i + 1] == s' && r'.es[i] == e;
      }
    }
  }

  lemma Accept(c: Config, id: Id, to: seq<Addr>) returns (r: Calm)
    requires to != []
    ensures Reached(c, r, id, to, FreshRow(to), map[], map[])
  {
    r := Extend(c, Calm([Init()], []), Enqueue(id, to, 1));
  }

  lemma PollRow(c: Config, r: Calm, id: Id, to: seq<Addr>, row: Row, polls: map<nat, Poll>, tasks: map<nat, Task>,
                p: nat, now: nat, polls': map<nat, Poll>) returns (r': Calm)
    requires Reached(c, r, id, to, row, polls, tasks) && p < 2 && p !in polls && Due(row, now)
    requires forall t :: t in tasks ==> t % 2 != p
    requires polls' == polls[p := Poll(now, [Scan(id, row)])]
    ensures Reached(c, r', id, to, row, polls', tasks)
  {
    r' := Extend(c, r, Select(p, now, [Scan(id, row)]));
  }

  lemma ClaimRowFor(c: Config, r: Calm, id: Id, to: seq<Addr>, row: Row, polls: map<nat, Poll>, tasks: map<nat, Task>,
                    p: nat, t: nat, m: Message, row': Row, polls': map<nat, Poll>, tasks': map<nat, Task>)
    returns (r': Calm)
    requires Reached(c, r, id, to, row, polls, tasks) && t !in tasks && t % 2 == p
    requires p in polls && polls[p].pending == [m] && m.id == id && row.status == Queued && row.leaseUntil == 0
    requires row' == row.(leaseUntil := polls[p].now + LEASE_TIMEOUT) && polls' == polls - {p}
    requires tasks' == tasks[t := Task(m, false, 0, Sending)]
    ensures Reached(c, r', id, to, row', polls', tasks')
  {
    r' := Extend(c, r, ClaimNext(p, t));
  }

  lemma ReportOne(s: State, id: Id, row: Row, polls: map<nat, Poll>, tasks: map<nat, Task>, t: nat,
                  done: set<Addr>, task': Task)
    requires Shape(s, id, row, polls, tasks) && t in tasks
    requires tasks[t].msg.to != [] && tasks[t].msg.id == id && done != {}
    requires var m := tasks[t].msg;
      task' == Task(m.(to := Rest(m.to, DomainOf(m.to[0]))), true, tasks[t].permCount, Saving)
    ensures var s' := ApplyGroupDone(s, t, done, map[]);
      Shape(s', id, row, polls, tasks[t := task']) && s'.ledger == Reported(s.ledger, id, done, {})
  {
    var none: map<Addr, string> := map[];
    assert Credited(tasks[t], done, none) == task';
  }

  /** The state after task `t` delivered to all recipients of its next domain. */
  lemma AfterReport(c: Config, s: State, id: Id, row: Row, polls: map<nat, Poll>, tasks: map<nat, Task>, t: nat,
                    group: seq<Addr>, tasks': map<nat, Task>)
    requires Shape(s, id, row, polls, tasks) && t in tasks && tasks[t].phase == Sending
    requires tasks[t].msg.to != [] && tasks[t].msg.id == id && group == NextGroup(tasks[t].msg)
    requires var m := tasks[t].msg;
      tasks' == tasks[t := Task(m.(to := Rest(m.to, DomainOf(m.to[0]))), true, tasks[t].permCount, Saving)]
    ensures var e := GroupDone(t, Elements(group), map[]); Enabled(c, s, e)
    ensures var s' := ApplyGroupDone(s, t, Elements(group), map[]);
      Shape(s', id, row, polls, tasks') && Elements(group) <= Of(s'.ledger.delivered, id)
  {
    var none: map<Addr, string> := map[];
    assert Elements(group) + none.Keys == Elements(group) && tasks[t].msg.to[0] in Elements(group);
    ReportOne(s, id, row, polls, tasks, t, Elements(group), tasks'[t]);
  }

  lemma Report(c: Config, r: Calm, id: Id, to: seq<Addr>, row: Row, polls: map<nat, Poll>, tasks: map<nat, Task>,
               t: nat, group: seq<Addr>, tasks': map<nat, Task>) returns (r': Calm)
    requires Reached(c, r, id, to, row, polls, tasks) && t in tasks && tasks[t].phase == Sending
    requires tasks[t].msg.to != [] && tasks[t].msg.id == id && group == NextGroup(tasks[t].msg)
    requires var m := tasks[t].msg;
      tasks' == tasks[t := Task(m.(to := Rest(m.to, DomainOf(m.to[0]))), true, tasks[t].permCount, Saving)]
    ensures Reached(c, r', id, to, row, polls, tasks')
    ensures r'.es == r.es + [GroupDone(t, Elements(group), map[])] && r'.ss == r.ss + [Last(r')]
    ensures Elements(group) <= Of(Last(r').ledger.delivered, id)
  {
    AfterReport(c, Last(r), id, row, polls, tasks, t, group, tasks');
    r' := Extend(c, r, GroupDone(t, Elements(group), map[]));
  }

  /** The message after a transient failure at its next domain. */
  function Postponed(m: Message): Message
    requires m.to != []
  {
    Regrouped(m).(attempts := m.attempts + 1, nextAttempt := LATER)
  }

  /** Task `t` meets such a failure. */
  lemma Fail(c: Config, r: Calm, id: Id, to: seq<Addr>, row: Row, polls: map<nat, Poll>, tasks: map<nat, Task>,
             t: nat, m': Message, tasks': map<nat, Task>) returns (r': Calm)
    requires Reached(c, r, id, to, row, polls, tasks)
    requires t in tasks && tasks[t].phase == Sending && tasks[t].msg.to != []
    requires m' == Postponed(tasks[t].msg) && m'.attempts < c.maxAttempts
    requires tasks' == tasks[t := tasks[t].(msg := m', phase := SavingRetry)]
    ensures Reached(c, r', id, to, row, polls, tasks')
  {
    r' := Extend(c, r, GroupFailed(t, LATER));
  }

  /** Task `t` persists its message, which drops the lease. */
  lemma Save(c: Config, r: Calm, id: Id, to: seq<Addr>, row: Row, polls: map<nat, Poll>, tasks: map<nat, Task>,
             t: nat, m: Message, row': Row, tasks': map<nat, Task>) returns (r': Calm)
    requires Reached(c, r, id, to, row, polls, tasks) && t in tasks && tasks[t].msg == m && m.id == id && m.to != []
    requires tasks[t].phase.Saving? || tasks[t].phase.SavingRetry?
    requires row' == Row(m.to, m.permanent, m.attempts, m.nextAttempt, row.status, 0, row.createdAt)
    requires tasks' == tasks[t := tasks[t].(phase := if tasks[t].phase.Saving? then Sending else Releasing)]
    ensures Reached(c, r', id, to, row', polls, tasks')
  {
    r' := Extend(c, r, Write(t));
  }

  /** Task `t` ends with a Release, which drops the lease too. */
  lemma Unlock(c: Config, r: Calm, id: Id, to: seq<Addr>, row: Row, polls: map<nat, Poll>, tasks: map<nat, Task>,
               t: nat, row': Row, tasks': map<nat, Task>) returns (r': Calm)
    requires Reached(c, r, id, to, row, polls, tasks) && t in tasks
    requires tasks[t].phase == Releasing && tasks[t].msg.id == id
    requires row' == row.(leaseUntil := 0) && tasks' == tasks - {t}
    ensures Reached(c, r', id, to, row', polls, tasks')
  {
    r' := Extend(c, r, Write(t));
  }

  /** The last event of a run hands over, and delivers, recipients that all were delivered before. */
  ghost predicate Redelivers(c: Config, r: Calm, id: Id, to: seq<Addr>, group: seq<Addr>) {
    && r.Valid(c) && [Enqueue(id, to, 1)] < r.es && group != []
    && var k := |r.es| - 1;
       && r.es[k].GroupDone? && r.es[k].delivered == Elements(group) && HandsOver(r.ss[k], r.es[k], id, group)
       && Elements(group) <= Of(r.ss[k].ledger.delivered, id)
  }

  /** Two tasks are about to contact the same domain for the message. */
  lemma BothDeliver(c: Config, r: Calm, id: Id, to: seq<Addr>, row: Row, polls: map<nat, Poll>, tasks: map<nat, Task>,
                    t: nat, u: nat) returns (r': Calm, group: seq<Addr>)
    requires Reached(c, r, id, to, row, polls, tasks) && t != u && t in tasks && u in tasks
    requires tasks[t].phase == Sending && tasks[t].msg.to != [] && tasks[t].msg.id == id
    requires tasks[u].phase == Sending && tasks[u].msg.to != [] && tasks[u].msg.id == id
    requires Elements(NextGroup(tasks[u].msg)) <= Elements(NextGroup(tasks[t].msg))
    ensures Redelivers(c, r', id, to, group)
  {
    var m, n := tasks[t].msg, tasks[u].msg;
    group := NextGroup(n);
    var tasks1 := tasks[t := Task(m.(to := Rest(m.to, DomainOf(m.to[0]))), true, tasks[t].permCount, Saving)];
    var tasks2 := tasks1[u := Task(n.(to := Rest(n.to, DomainOf(n.to[0]))), true, tasks[u].permCount, Saving)];
    var r1 := Report(c, r, id, to, row, polls, tasks, t, NextGroup(m), tasks1);
    r' := Report(c, r1, id, to, row, polls, tasks1, u, group, tasks2);
    assert r'.ss[|r'.es| - 1] == Last(r1);
    assert n.to[0] in group;
  }

  function LeasedFresh(to: seq<Addr>): Row {
    FreshRow(to).(leaseUntil := START + LEASE_TIMEOUT)
  }

  /** The start of both runs: worker 0 holds the message while the polls of worker 1, if any, are as given. */
  lemma FirstClaim(c: Config, r: Calm, id: Id, to: seq<Addr>, polls: map<nat, Poll>, m: Message) returns (r': Calm)
    requires Reached(c, r, id, to, FreshRow(to), polls, map[]) && 0 !in polls && m == Scan(id, FreshRow(to))
    ensures Reached(c, r', id, to, LeasedFresh(to), polls, map[0 := Task(m, false, 0, Sending)])
  {
    var polls' := polls[0 := Poll(START, [m])];
    r' := PollRow(c, r, id, to, FreshRow(to), polls, map[], 0, START, polls');
    assert polls' - {0} == polls;
    r' := ClaimRowFor(c, r', id, to, FreshRow(to), polls', map[], 0, 0, m, LeasedFresh(to), polls,
                      map[0 := Task(m, false, 0, Sending)]);
  }

  /** Worker 0 delivers to the first domain and persists the rest. */
  lemma FirstDomain(c: Config, id: Id, to: seq<Addr>, rest: seq<Addr>, m': Message, sent: Task) returns (r: Calm)
    requires to != [] && rest == Rest(to, DomainOf(to[0])) && rest != []
    requires m' == Scan(id, FreshRow(rest)) && sent == Task(m', true, 0, Sending)
    ensures Reached(c, r, id, to, FreshRow(rest), map[], map[0 := sent])
  {
    var m := Scan(id, FreshRow(to));
    r := Accept(c, id, to);
    r := FirstClaim(c, r, id, to, map[], m);
    r := Report(c, r, id, to, LeasedFresh(to), map[], map[0 := Task(m, false, 0, Sending)], 0, NextGroup(m),
                map[0 := sent.(phase := Saving)]);
    r := Save(c, r, id, to, LeasedFresh(to), map[], map[0 := sent.(phase := Saving)], 0, m', FreshRow(rest),
              map[0 := sent]);
  }

  /** Several domains: worker 1 claims the row when worker 0 persists its progress after the first domain. */
  lemma AcrossDomains(c: Config, id: Id, to: seq<Addr>) returns (r: Calm, group: seq<Addr>)
    requires to != [] && Rest(to, DomainOf(to[0])) != []
    ensures Redelivers(c, r, id, to, group)
  {
    var rest := Rest(to, DomainOf(to[0]));
    var m' := Scan(id, FreshRow(rest));
    var sent := Task(m', true, 0, Sending);
    r := FirstDomain(c, id, to, rest, m', sent);
    r := SecondHolder(c, r, id, to, rest, m', sent);
    r, group := BothDeliver(c, r, id, to, LeasedFresh(rest), map[],
                            map[0 := sent][1 := Task(m', false, 0, Sending)], 0, 1);
  }

  lemma SecondHolder(c: Config, r: Calm, id: Id, to: seq<Addr>, rest: seq<Addr>, m': Message, sent: Task)
    returns (r': Calm)
    requires Reached(c, r, id, to, FreshRow(rest), map[], map[0 := sent]) && m' == Scan(id, FreshRow(rest))
    ensures Reached(c, r', id, to, LeasedFresh(rest), map[], map[0 := sent][1 := Task(m', false, 0, Sending)])
  {
    var polls, tasks := map[1 := Poll(START, [m'])], map[0 := sent][1 := Task(m', false, 0, Sending)];
    r' := PollRow(c, r, id, to, FreshRow(rest), map[], map[0 := sent], 1, START, polls);
    r' := ClaimRowFor(c, r', id, to, FreshRow(rest), polls, map[0 := sent], 1, 1, m', LeasedFresh(rest), map[], tasks);
  }

  function PostponedRow(m: Message, lease: nat): Row {
    Row(m.to, m.permanent, m.attempts, m.nextAttempt, Queued, lease, 1)
  }

  /** Both workers read the message, and worker 0 claims it. */
  lemma BothRead(c: Config, id: Id, to: seq<Addr>, m: Message, polls: map<nat, Poll>) returns (r: Calm)
    requires to != [] && m == Scan(id, FreshRow(to)) && polls == map[1 := Poll(START, [m])]
    ensures Reached(c, r, id, to, LeasedFresh(to), polls, map[0 := Task(m, false, 0, Sending)])
  {
    r := Accept(c, id, to);
    r := PollRow(c, r, id, to, FreshRow(to), map[], map[], 1, START, polls);
    r := FirstClaim(c, r, id, to, polls, m);
  }

  /** Then worker 0 fails and persists. */
  lemma FirstFails(c: Config, id: Id, to: seq<Addr>, m: Message, m': Message, polls: map<nat, Poll>, retry: Task)
    returns (r: Calm)
    requires to != [] && 2 <= c.maxAttempts && m == Scan(id, FreshRow(to)) && m' == Postponed(m) && m'.to != []
    requires polls == map[1 := Poll(START, [m])] && retry == Task(m', false, 0, Releasing)
    ensures Reached(c, r, id, to, PostponedRow(m', 0), polls, map[0 := retry])
  {
    var failed := retry.(phase := SavingRetry);
    r := BothRead(c, id, to, m, polls);
    r := Fail(c, r, id, to, LeasedFresh(to), polls, map[0 := Task(m, false, 0, Sending)], 0, m', map[0 := failed]);
    r := Save(c, r, id, to, LeasedFresh(to), polls, map[0 := failed], 0, m', PostponedRow(m', 0), map[0 := retry]);
  }

  /**
   Worker 1 claims with the snapshot it read before; the Release of worker 0 drops the lease of worker 1, and worker 0
   claims the row again when it is due.
   */
  lemma SecondClaim(c: Config, r: Calm, id: Id, to: seq<Addr>, m: Message, m': Message, polls: map<nat, Poll>,
                    retry: Task, other: Task) returns (r': Calm)
    requires m.id == id && m' == Message(id, m'.to, map[], 1, LATER)
    requires polls == map[1 := Poll(START, [m])]
    requires retry == Task(m', false, 0, Releasing) && other == Task(m, false, 0, Sending)
    requires Reached(c, r, id, to, PostponedRow(m', 0), polls, map[0 := retry])
    ensures Reached(c, r', id, to, PostponedRow(m', LATER + LEASE_TIMEOUT), map[],
      map[1 := other][2 := Task(m', false, 0, Sending)])
  {
    var both, again := map[0 := retry][1 := other], map[0 := Poll(LATER, [m'])];
    r' := ClaimRowFor(c, r, id, to, PostponedRow(m', 0), polls, map[0 := retry], 1, 1, m,
                      PostponedRow(m', START + LEASE_TIMEOUT), map[], both);
    assert both - {0} == map[1 := other];
    r' := Unlock(c, r', id, to, PostponedRow(m', START + LEASE_TIMEOUT), map[], both, 0, PostponedRow(m', 0),
                 map[1 := other]);
    r' := PollRow(c, r', id, to, PostponedRow(m', 0), map[], map[1 := other], 0, LATER, again);
    r' := ClaimRowFor(c, r', id, to, PostponedRow(m', 0), again, map[1 := other], 0, 2, m',
                      PostponedRow(m', LATER + LEASE_TIMEOUT), map[],
                      map[1 := other][2 := Task(m', false, 0, Sending)]);
  }

  /** One domain: a failure of worker 0 lets both workers hold the message. */
  lemma WithinDomain(c: Config, id: Id, to: seq<Addr>) returns (r: Calm, group: seq<Addr>)
    requires to != [] && Rest(to, DomainOf(to[0])) == [] && 2 <= c.maxAttempts
    ensures Redelivers(c, r, id, to, group)
  {
    var m := Scan(id, FreshRow(to));
    var m' := Postponed(m);
    var polls := map[1 := Poll(START, [m])];
    var retry, other := Task(m', false, 0, Releasing), Task(m, false, 0, Sending);
    r := FirstFails(c, id, to, m, m', polls, retry);
    r := SecondClaim(c, r, id, to, m, m', polls, retry, other);
    r, group := BothDeliver(c, r, id, to, PostponedRow(m', LATER + LEASE_TIMEOUT), map[],
                            map[1 := other][2 := Task(m', false, 0, Sending)], 1, 2);
  }

  /** Two workers can deliver the message twice, whatever domains it is for, if they may retry it. */
  lemma TwoWorkersRedeliver(c: Config, id: Id, to: seq<Addr>) returns (r: Calm, group: seq<Addr>)
    requires to != [] && (2 <= c.maxAttempts || Rest(to, DomainOf(to[0])) != [])
    ensures Redelivers(c, r, id, to, group)
  {
    if Rest(to, DomainOf(to[0])) != [] {
      r, group := AcrossDomains(c, id, to);
    } else {
      r, group := WithinDomain(c, id, to);
    }
  }
}
