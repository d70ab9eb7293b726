/** How long a successful claim keeps other workers away from a row, over every interleaving. */
module Exclusivity {
  import opened QueueTable
  import opened Protocol
  import opened Safety

  /** Event `e` is a claim of row `id` that succeeds at clock reading `now`. */
  ghost predicate Claims(s: State, e: Event, id: Id, now: nat) {
    && e.ClaimNext? && e.poller in s.polls && s.polls[e.poller].pending != []
    && s.polls[e.poller].pending[0].id == id && s.polls[e.poller].now == now
    && Claimable(s.rows, id, now)
  }

  /** Event `e` clears the lease of row `id`: an effective Persist, a Release, a dead-letter UPDATE or a requeue. */
  ghost predicate Unlocks(s: State, e: Event, id: Id) {
    || (e.Requeue? && e.id == id)
    || (e.Write? && e.task in s.tasks && s.tasks[e.task].msg.id == id &&
        var p := s.tasks[e.task].phase;
        (p.Saving? && s.tasks[e.task].msg.to != []) || (p.SavingRetry? && s.tasks[e.task].msg.to != []) ||
        p.Releasing? || p.Burying?)
  }

  /** Row `id` is leased at least until `until`, or is gone for good. */
  ghost predicate HeldUntil(s: State, id: Id, until: nat) {
    id in s.ledger.accepted && (id in s.rows ==> s.rows[id].leaseUntil >= until)
  }

  lemma WriteKeepsHeld(c: Config, s: State, t: nat, id: Id, until: nat)
    requires t in s.tasks && HeldUntil(s, id, until) && !Unlocks(s, Write(t), id)
    ensures HeldUntil(ApplyWrite(c, s, t), id, until)
  {
  }

  lemma StepKeepsHeld(c: Config, s: State, e: Event, id: Id, until: nat)
    requires Enabled(c, s, e) && HeldUntil(s, id, until) && !Unlocks(s, e, id)
    ensures HeldUntil(Apply(c, s, e), id, until)
  {
    if e.Write? { WriteKeepsHeld(c, s, e.task, id, until); }
  }

  lemma {:induction false} HeldThroughout(c: Config, ss: seq<State>, es: seq<Event>, id: Id, i: nat, j: nat, now: nat)
    requires IsRun(c, ss, es) && 1 <= c.maxAttempts
    requires i < j <= |es| && Claims(ss[i], es[i], id, now)
    requires forall k :: i < k < j ==> !Unlocks(ss[k], es[k], id)
    ensures HeldUntil(ss[j], id, now + LEASE_TIMEOUT)
  {
    assert StepAt(c, ss, es, j - 1);
    if j == i + 1 {
      RunKeepsInv(c, ss, es, i);
      assert RowOk(c, ss[i].ledger, id, ss[i].rows[id]);
    } else {
      HeldThroughout(c, ss, es, id, i, j - 1, now);
      StepKeepsHeld(c, ss[j - 1], es[j - 1], id, now + LEASE_TIMEOUT);
    }
  }

  /**
   Two successful claims of one row are LeaseTimeout apart on the claimants' clocks, unless in between someone
   persisted, released, dead-lettered or requeued that row. Clocks need not agree between workers.
   */
  lemma ClaimsApart(c: Config, ss: seq<State>, es: seq<Event>, id: Id, i: nat, j: nat, now: nat, later: nat)
    requires IsRun(c, ss, es) && 1 <= c.maxAttempts
    requires i < j < |es| && Claims(ss[i], es[i], id, now) && Claims(ss[j], es[j], id, later)
    requires forall k :: i < k < j ==> !Unlocks(ss[k], es[k], id)
    ensures later >= now + LEASE_TIMEOUT
  {
    HeldThroughout(c, ss, es, id, i, j, now);
  }
}
