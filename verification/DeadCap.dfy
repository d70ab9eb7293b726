/** The cap on dead letters when the COUNT, SELECT and DELETE statements of concurrent DeadLetter calls interleave. */
module DeadCap {
  import opened QueueTable
  import opened Protocol

  /** Task `t` will bring the number of dead rows down to the cap, if no further row dies meanwhile. */
  ghost predicate WillPrune(c: Config, s: State, t: nat) {
    t in s.tasks &&
    match s.tasks[t].phase
    case Counting => true
    case Choosing(over) => |DeadIds(s.rows)| - over <= c.deadMax
    case Deleting(victims) => |DeadIds(s.rows) - (set v | v in victims)| <= c.deadMax
    case _ => false
  }

  ghost predicate CapInv(c: Config, s: State) {
    |DeadIds(s.rows)| <= c.deadMax || s.cutShort || exists t :: WillPrune(c, s, t)
  }

  lemma {:induction false} SubsetSize<T>(a: set<T>, b: set<T>)
    requires a <= b
    ensures |a| <= |b|
  {
    assert b == a + (b - a);
  }

  /** A task that is not moved keeps its promise while the dead rows only get fewer. */
  lemma OthersStillPrune(c: Config, s: State, s': State, t: nat)
    requires WillPrune(c, s, t) && t in s'.tasks && s'.tasks[t] == s.tasks[t]
    requires DeadIds(s'.rows) <= DeadIds(s.rows)
    ensures WillPrune(c, s', t)
  {
    SubsetSize(DeadIds(s'.rows), DeadIds(s.rows));
    if s.tasks[t].phase.Deleting? {
      var vs := set v | v in s.tasks[t].phase.victims;
      SubsetSize(DeadIds(s'.rows) - vs, DeadIds(s.rows) - vs);
    }
  }

  /** Steps that neither bury a row nor belong to a pruning keep every pending promise. */
  lemma QuietStepKeepsCap(c: Config, s: State, s': State)
    requires CapInv(c, s) && DeadIds(s'.rows) <= DeadIds(s.rows) && (s.cutShort ==> s'.cutShort)
    requires forall t :: t in s.tasks && Pruning(s.tasks[t].phase) ==>
      s'.cutShort || (t in s'.tasks && s'.tasks[t] == s.tasks[t])
    ensures CapInv(c, s')
  {
    SubsetSize(DeadIds(s'.rows), DeadIds(s.rows));
    if !s'.cutShort && |DeadIds(s.rows)| > c.deadMax {
      var t :| WillPrune(c, s, t);
      OthersStillPrune(c, s, s', t);
    }
  }

  lemma CountKeepsCap(c: Config, s: State, t: nat)
    requires CapInv(c, s) && InPhase(s, t, Counting)
    ensures CapInv(c, ApplyCount(c, s, t))
  {
    var s' := ApplyCount(c, s, t);
    if |DeadIds(s.rows)| > c.deadMax {
      assert WillPrune(c, s', t);
    }
  }

  /** Removing the chosen victims leaves as many dead rows fewer as victims were asked for. */
  lemma VictimsRemoved(rows: Table, over: nat, victims: seq<Id>)
    requires OldestFirst(rows, DeadIds(rows), over, victims)
    ensures |DeadIds(rows) - (set v | v in victims)| == if over < |DeadIds(rows)| then |DeadIds(rows)| - over else 0
  {
    var vs := set v | v in victims;
    DistinctCount(victims);
    assert vs <= DeadIds(rows);
    assert DeadIds(rows) == (DeadIds(rows) - vs) + vs;
  }

  lemma ChooseKeepsCap(c: Config, s: State, t: nat, victims: seq<Id>)
    requires CapInv(c, s) && t in s.tasks && s.tasks[t].phase.Choosing? && 0 < c.deadMax
    requires OldestFirst(s.rows, DeadIds(s.rows), s.tasks[t].phase.over, victims)
    ensures CapInv(c, SetPhase(s, t, Deleting(victims)))
  {
    var s' := SetPhase(s, t, Deleting(victims));
    if |DeadIds(s.rows)| > c.deadMax && !s.cutShort {
      var u :| WillPrune(c, s, u);
      if u == t {
        VictimsRemoved(s.rows, s.tasks[t].phase.over, victims);
        assert WillPrune(c, s', t);
      } else {
        OthersStillPrune(c, s, s', u);
      }
    }
  }

  lemma DeadAfterDelete(rows: Table, victims: seq<Id>)
    requires victims != []
    ensures var dead := DeadIds(DeleteDeadRow(rows, victims[0]));
      dead <= DeadIds(rows) && dead - (set v | v in victims[1..]) == DeadIds(rows) - (set v | v in victims)
  {
    var dead, rest := DeadIds(DeleteDeadRow(rows, victims[0])), set v | v in victims[1..];
    assert dead == DeadIds(rows) - {victims[0]};
    assert (set v | v in victims) == rest + {victims[0]};
  }

  lemma DeadUnchanged(rows: Table, m: Message)
    ensures DeadIds(PersistRow(rows, m)) == DeadIds(rows)
    ensures DeadIds(ReleaseRow(rows, m.id)) == DeadIds(rows)
    ensures DeadIds(SucceedRow(rows, m.id)) == DeadIds(rows)
  {
  }

  lemma DeleteKeepsCap(c: Config, s: State, t: nat)
    requires CapInv(c, s) && t in s.tasks && s.tasks[t].phase.Deleting?
    ensures CapInv(c, ApplyDelete(s, t))
  {
    var s' := ApplyDelete(s, t);
    var victims := s.tasks[t].phase.victims;
    if victims != [] { DeadAfterDelete(s.rows, victims); }
    SubsetSize(DeadIds(s'.rows), DeadIds(s.rows));
    if |DeadIds(s.rows)| > c.deadMax && !s.cutShort {
      var u :| WillPrune(c, s, u);
      if u != t { OthersStillPrune(c, s, s', u); } else { PruneGoesOn(c, s, t); }
    }
  }

  lemma PruneGoesOn(c: Config, s: State, t: nat)
    requires WillPrune(c, s, t) && s.tasks[t].phase.Deleting?
    ensures var s' := ApplyDelete(s, t); |DeadIds(s'.rows)| <= c.deadMax || WillPrune(c, s', t)
  {
    var victims := s.tasks[t].phase.victims;
    if victims != [] {
      PruneDeletes(c, s, t);
    } else {
      assert DeadIds(s.rows) - (set v | v in victims) == DeadIds(s.rows);
    }
  }

  lemma PruneDeletes(c: Config, s: State, t: nat)
    requires WillPrune(c, s, t) && s.tasks[t].phase.Deleting? && s.tasks[t].phase.victims != []
    ensures WillPrune(c, ApplyDelete(s, t), t)
  {
    DeadAfterDelete(s.rows, s.tasks[t].phase.victims);
  }

  lemma WriteKeepsCap(c: Config, s: State, t: nat)
    requires CapInv(c, s) && t in s.tasks && Writing(s.tasks[t].phase) && 0 < c.deadMax
    ensures CapInv(c, ApplyWrite(c, s, t))
  {
    if s.tasks[t].phase.Burying? { BurialKeepsCap(c, s, t); } else { PlainWriteKeepsCap(c, s, t); }
  }

  lemma BurialKeepsCap(c: Config, s: State, t: nat)
    requires InPhase(s, t, Burying) && 0 < c.deadMax
    ensures CapInv(c, ApplyWrite(c, s, t))
  {
    assert WillPrune(c, ApplyWrite(c, s, t), t);
  }

  lemma PlainWriteKeepsCap(c: Config, s: State, t: nat)
    requires CapInv(c, s) && t in s.tasks && Writing(s.tasks[t].phase) && !s.tasks[t].phase.Burying?
    ensures CapInv(c, ApplyWrite(c, s, t))
  {
    DeadUnchanged(s.rows, s.tasks[t].msg);
    QuietStepKeepsCap(c, s, ApplyWrite(c, s, t));
  }

  predicate Quiet(e: Event) {
    !e.Write? && !e.CountDead? && !e.ChooseVictims? && !e.DeleteVictim?
  }

  lemma QuietKillsNothing(c: Config, s: State, e: Event)
    requires Enabled(c, s, e) && Quiet(e)
    ensures DeadIds(Apply(c, s, e).rows) <= DeadIds(s.rows)
  {
  }

  lemma QuietSparesPruning(c: Config, s: State, e: Event, t: nat)
    requires Enabled(c, s, e) && Quiet(e) && t in s.tasks && Pruning(s.tasks[t].phase)
    ensures var s' := Apply(c, s, e); s'.cutShort || (t in s'.tasks && s'.tasks[t] == s.tasks[t])
  {
  }

  lemma QuietKeepsCap(c: Config, s: State, e: Event)
    requires CapInv(c, s) && Enabled(c, s, e) && Quiet(e)
    ensures CapInv(c, Apply(c, s, e))
  {
    var s' := Apply(c, s, e);
    QuietKillsNothing(c, s, e);
    forall t | t in s.tasks && Pruning(s.tasks[t].phase)
      ensures s'.cutShort || (t in s'.tasks && s'.tasks[t] == s.tasks[t])
    {
      QuietSparesPruning(c, s, e, t);
    }
    assert s.cutShort ==> s'.cutShort;
    QuietStepKeepsCap(c, s, s');
  }

  lemma StepKeepsCap(c: Config, s: State, e: Event)
    requires CapInv(c, s) && Enabled(c, s, e) && 0 < c.deadMax
    ensures CapInv(c, Apply(c, s, e))
  {
    match e
    case Write(t) => WriteKeepsCap(c, s, t);
    case CountDead(t) => CountKeepsCap(c, s, t);
    case ChooseVictims(t, victims) => ChooseKeepsCap(c, s, t, victims);
    case DeleteVictim(t) => DeleteKeepsCap(c, s, t);
    case _ => QuietKeepsCap(c, s, e);
  }

  lemma {:induction false} RunKeepsCap(c: Config, ss: seq<State>, es: seq<Event>, k: nat)
    requires IsRun(c, ss, es) && k < |ss| && 0 < c.deadMax
    ensures CapInv(c, ss[k])
  {
    if k == 0 {
      assert DeadIds(ss[0].rows) == {};
    } else {
      RunKeepsCap(c, ss, es, k - 1);
      assert StepAt(c, ss, es, k - 1);
      StepKeepsCap(c, ss[k - 1], es[k - 1]);
    }
  }

  /**
   Whenever no DeadLetter call is in progress there are at most deadMax dead rows, unless a pruning was cut short
   by a crash or a database error and no message was dead-lettered since.
   */
  lemma DeadLettersCapped(c: Config, ss: seq<State>, es: seq<Event>, k: nat)
    requires IsRun(c, ss, es) && k < |ss| && 0 < c.deadMax
    requires forall t :: t in ss[k].tasks ==> !Pruning(ss[k].tasks[t].phase)
    requires !ss[k].cutShort
    ensures |DeadIds(ss[k].rows)| <= c.deadMax
  {
    RunKeepsCap(c, ss, es, k);
  }

  /** The crash of a task in its pruning, or a failed statement of it. */
  ghost predicate Cuts(s: State, e: Event) {
    (e.Crash? || e.WriteFails?) && e.task in s.tasks && Pruning(s.tasks[e.task].phase)
  }

  ghost predicate Buries(s: State, e: Event) {
    e.Write? && e.task in s.tasks && s.tasks[e.task].phase.Burying?
  }

  /** Step `i` cuts a pruning short, and up to `k` no row was dead-lettered after it. */
  ghost predicate CutSince(ss: seq<State>, es: seq<Event>, i: nat, k: nat)
    requires i < k <= |es| < |ss|
  {
    Cuts(ss[i], es[i]) && forall j :: i < j < k ==> !Buries(ss[j], es[j])
  }

  lemma WriteCuts(c: Config, s: State, e: Event)
    requires Enabled(c, s, e) && e.Write?
    ensures Apply(c, s, e).cutShort <==> s.cutShort && !Buries(s, e)
  {
  }

  lemma StepCuts(c: Config, s: State, e: Event)
    requires Enabled(c, s, e)
    ensures Apply(c, s, e).cutShort <==> (s.cutShort && !Buries(s, e)) || Cuts(s, e)
  {
    if e.Write? { WriteCuts(c, s, e); }
  }

  /** A pruning counts as cut short exactly when a crash or an error ended one and no row was dead-lettered since. */
  lemma {:induction false} CutShortExactly(c: Config, ss: seq<State>, es: seq<Event>, k: nat)
    requires IsRun(c, ss, es) && k < |ss|
    ensures ss[k].cutShort <==> exists i :: 0 <= i < k && CutSince(ss, es, i, k)
  {
    if k > 0 {
      var n := k - 1;
      CutShortExactly(c, ss, es, n);
      assert StepAt(c, ss, es, n);
      StepCuts(c, ss[n], es[n]);
      assert forall i :: 0 <= i < n ==> (CutSince(ss, es, i, k) <==> CutSince(ss, es, i, n) && !Buries(ss[n], es[n]));
      assert CutSince(ss, es, n, k) <==> Cuts(ss[n], es[n]);
    }
  }

  /** Pruning, however late its DELETE comes, removes no row that is queued at that moment and changes no other. */
  lemma PruningSparesQueued(c: Config, ss: seq<State>, es: seq<Event>, k: nat, id: Id)
    requires IsRun(c, ss, es) && k < |es| && (es[k].CountDead? || es[k].ChooseVictims? || es[k].DeleteVictim?)
    requires id in ss[k].rows && (id !in ss[k + 1].rows || ss[k + 1].rows[id] != ss[k].rows[id])
    ensures ss[k].rows[id].status == Dead && id !in ss[k + 1].rows && id in ss[k + 1].pruned
    ensures es[k].DeleteVictim?
  {
    assert StepAt(c, ss, es, k);
  }
}
