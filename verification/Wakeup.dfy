/**
 The one-slot wake-up channel between the producers of a process and its delivery worker
 (wake and Notify of internal/storage/storage.go, Run and processBatch of internal/relay/deliver.go), and what the LIMIT
 of the worker's SELECT leaves behind.
 */
module Wakeup {

  type Id = string

  datatype Worker =
    | Waiting     // blocked in the select of Run
    | Woken       // about to issue the SELECT of NextDue
    | Delivering  // after that SELECT, until the batch is done

  /**
   A producer is one call of EnqueueWithID or RequeueDead. `open` are the producers that have written their row and not
   called wake yet, `unseen` the producers whose write came after the worker's last SELECT, each with its row. Several
   producers may write the same row. `due` are the rows a SELECT without LIMIT would return, `left` those the last
   SELECT left among them, and `ripe` those whose retry time has come since.
   */
  datatype State = State(
    open: set<nat>, unseen: map<nat, Id>, due: set<Id>, left: set<Id>, ripe: set<Id>, token: bool, worker: Worker)

  datatype Event =
    | Write(producer: nat, id: Id)                // INSERT of EnqueueWithID or UPDATE of RequeueDead
    | Wake(producer: nat)                         // non-blocking send: a full slot stays full
    | Ripen(id: Id)                               // the clock reaches the next attempt of a row
    | Receive                                     // the worker takes the token
    | Tick                                        // the poll timer or the shutdown signal
    | Select(batch: set<Id>, leased: set<Id>)     // the rows it returns, and those of them it cannot claim
    | BatchDone

  function Init(): State {
    State({}, map[], {}, {}, {}, false, Waiting)
  }

  /** The SELECT returns as many due rows as its LIMIT allows. */
  predicate Answer(limit: nat, due: set<Id>, batch: set<Id>) {
    batch <= due && |batch| == if |due| <= limit then |due| else limit
  }

  predicate Enabled(limit: nat, s: State, e: Event) {
    match e
    case Write(p, _) => p !in s.open && p !in s.unseen
    case Wake(p) => p in s.open
    case Ripen(_) => true
    case Receive => s.worker == Waiting && s.token
    case Tick => s.worker == Waiting
    case Select(batch, leased) => s.worker == Woken && Answer(limit, s.due, batch) && leased <= batch
    case BatchDone => s.worker == Delivering
  }

  /** Claimed rows are no longer due: by the end of the batch they are gone, dead or postponed. */
  function Apply(s: State, e: Event): State {
    match e
    case Write(p, id) => s.(open := s.open + {p}, unseen := s.unseen[p := id], due := s.due + {id})
    case Wake(p) => s.(open := s.open - {p}, token := true)
    case Ripen(id) => s.(due := s.due + {id}, ripe := s.ripe + {id})
    case Receive => s.(token := false, worker := Woken)
    case Tick => s.(worker := Woken)
    case Select(batch, leased) =>
      var rest := s.due - (batch - leased);
      s.(unseen := map[], due := rest, left := rest, ripe := {}, worker := Delivering)
    case BatchDone => s.(worker := Waiting)
  }

  predicate StepAt(limit: nat, ss: seq<State>, es: seq<Event>, i: nat)
    requires |ss| == |es| + 1 && i < |es|
  {
    Enabled(limit, ss[i], es[i]) && ss[i + 1] == Apply(ss[i], es[i])
  }

  predicate IsRun(limit: nat, ss: seq<State>, es: seq<Event>) {
    |ss| == |es| + 1 && ss[0] == Init() && forall i :: 0 <= i < |es| ==> StepAt(limit, ss, es, i)
  }

  /** What producer `p` wrote is expected: it has still to wake, or a wake-up is stored, or one is being served. */
  predicate Expected(s: State, p: nat) {
    p in s.open || s.token || s.worker == Woken
  }

  /** In every interleaving, each write since the worker's last SELECT is expected. */
  lemma {:induction false} NoLostWakeup(limit: nat, ss: seq<State>, es: seq<Event>, k: nat)
    requires IsRun(limit, ss, es) && k < |ss|
    ensures forall p :: p in ss[k].unseen ==> Expected(ss[k], p)
  {
    if k > 0 {
      NoLostWakeup(limit, ss, es, k - 1);
      assert StepAt(limit, ss, es, k - 1);
    }
  }

  /** The due rows are those the last SELECT left and those that became due since. */
  lemma {:induction false} DueAre(limit: nat, ss: seq<State>, es: seq<Event>, k: nat)
    requires IsRun(limit, ss, es) && k < |ss|
    ensures ss[k].due == ss[k].left + ss[k].ripe + ss[k].unseen.Values
  {
    if k > 0 {
      DueAre(limit, ss, es, k - 1);
      assert StepAt(limit, ss, es, k - 1);
      var s, s' := ss[k - 1], ss[k];
      if es[k - 1].Write? {
        ValuesGrow(s.unseen, es[k - 1].producer, es[k - 1].id);
      }
    }
  }

  lemma ValuesGrow(m: map<nat, Id>, p: nat, id: Id)
    requires p !in m
    ensures m[p := id].Values == m.Values + {id}
  {
    forall v | v in m.Values ensures v in m[p := id].Values {
      var q :| q in m && m[q] == v;
      assert m[p := id][q] == v;
    }
    assert m[p := id][p] == id;
  }

  /** Nothing but a SELECT changes what the last SELECT left. */
  lemma {:induction false} LeftStays(limit: nat, ss: seq<State>, es: seq<Event>, i: nat, k: nat)
    requires IsRun(limit, ss, es) && i <= k < |ss| && forall j :: i <= j < k ==> !es[j].Select?
    ensures ss[k].left == ss[i].left
    decreases k
  {
    if i < k {
      LeftStays(limit, ss, es, i, k - 1);
      assert StepAt(limit, ss, es, k - 1);
    }
  }

  lemma AllOf(a: set<Id>, b: set<Id>)
    requires a <= b && |a| == |b|
    ensures a == b
  {
    assert |b - a| == 0;
  }

  /** A SELECT leaves nothing exactly when at most `limit` rows are due and it can claim all of them. */
  lemma LeavesNothingIff(limit: nat, s: State, batch: set<Id>, leased: set<Id>)
    requires Enabled(limit, s, Select(batch, leased))
    ensures Apply(s, Select(batch, leased)).left == {} <==> |s.due| <= limit && leased == {}
  {
    var rest := s.due - (batch - leased);
    assert leased <= rest;
    if |s.due| <= limit {
      AllOf(batch, s.due);
      assert rest == leased;
    } else {
      assert |s.due - batch| > 0 && s.due - batch <= rest;
    }
  }

  /**
   A worker that sleeps with an empty slot and no producer in mid-call leaves unserved exactly what its last SELECT left
   behind and the rows whose retry time has come since; the former is empty exactly when that SELECT met at most `limit`
   due rows and could claim them all.
   */
  lemma SleeperLeaves(limit: nat, ss: seq<State>, es: seq<Event>, i: nat, k: nat)
    requires IsRun(limit, ss, es) && i < k < |ss| && es[i].Select? && forall j :: i < j < k ==> !es[j].Select?
    requires ss[k].worker == Waiting && !ss[k].token && ss[k].open == {}
    ensures ss[k].due == ss[i + 1].left + ss[k].ripe
    ensures ss[i + 1].left == {} <==> |ss[i].due| <= limit && es[i].leased == {}
  {
    NoLostWakeup(limit, ss, es, k);
    DueAre(limit, ss, es, k);
    LeftStays(limit, ss, es, i + 1, k);
    assert StepAt(limit, ss, es, i);
    LeavesNothingIff(limit, ss[i], es[i].batch, es[i].leased);
    assert ss[k].unseen == map[];
  }

  /**
   Once its producer has returned, the next two steps of a waiting worker, Receive and a SELECT, are possible, and every
   such SELECT returns the row if at most `limit` rows are due.
   */
  lemma TwoStepsLook(limit: nat, ss: seq<State>, es: seq<Event>, k: nat, p: nat, batch: set<Id>, leased: set<Id>)
    requires IsRun(limit, ss, es) && k < |ss| && p in ss[k].unseen && p !in ss[k].open && ss[k].worker == Waiting
    requires Answer(limit, ss[k].due, batch) && leased <= batch
    ensures Enabled(limit, ss[k], Receive) && Enabled(limit, Apply(ss[k], Receive), Select(batch, leased))
    ensures ss[k].unseen[p] in ss[k].due && (|ss[k].due| <= limit ==> ss[k].unseen[p] in batch)
  {
    NoLostWakeup(limit, ss, es, k);
    assert Expected(ss[k], p);
    DueAre(limit, ss, es, k);
    if |ss[k].due| <= limit { AllOf(batch, ss[k].due); }
  }

  lemma Extend(limit: nat, ss: seq<State>, es: seq<Event>, e: Event) returns (ss': seq<State>, es': seq<Event>)
    requires IsRun(limit, ss, es) && Enabled(limit, ss[|es|], e)
    ensures IsRun(limit, ss', es') && ss'[|es'|] == Apply(ss[|es|], e)
  {
    ss', es' := ss + [Apply(ss[|es|], e)], es + [e];
    forall i | 0 <= i < |es'| ensures StepAt(limit, ss', es', i) {
      if i < |es| { assert StepAt(limit, ss, es, i); }
    }
  }

  function Rows(ids: seq<Id>): set<Id> {
    set id | id in ids
  }

  /** The state after the first `n` of some rows were submitted. */
  function Submitted(ids: seq<Id>, n: nat): State
    requires n <= |ids|
  {
    State({}, map p: nat | p < n :: ids[p], Rows(ids[..n]), {}, {}, 0 < n, Waiting)
  }

  lemma {:induction false} SubmitAll(limit: nat, ids: seq<Id>, n: nat) returns (ss: seq<State>, es: seq<Event>)
    requires n <= |ids|
    ensures IsRun(limit, ss, es) && ss[|es|] == Submitted(ids, n)
  {
    if n == 0 {
      ss, es := [Init()], [];
    } else {
      ss, es := SubmitAll(limit, ids, n - 1);
      var s := Submitted(ids, n - 1);
      ss, es := Extend(limit, ss, es, Write(n - 1, ids[n - 1]));
      ss, es := Extend(limit, ss, es, Wake(n - 1));
      assert ids[..n] == ids[..n - 1] + [ids[n - 1]];
      assert Rows(ids[..n]) == s.due + {ids[n - 1]};
      assert Submitted(ids, n).unseen == s.unseen[n - 1 := ids[n - 1]];
      assert s.open + {n - 1} - {n - 1} == {};
    }
  }

  /**
   Whatever the LIMIT, when more rows than that are submitted before the worker looks, it goes back to sleep with an
   empty slot and no producer in mid-call, and the rows its SELECT did not return wait for the poll timer.
   */
  lemma RowsLeftBehind(limit: nat, ids: seq<Id>, batch: set<Id>) returns (ss: seq<State>, es: seq<Event>)
    requires limit < |Rows(ids)| && Answer(limit, Rows(ids), batch)
    ensures IsRun(limit, ss, es)
    ensures var s := ss[|es|];
      s.worker == Waiting && !s.token && s.open == {} && s.due == Rows(ids) - batch && s.due != {}
  {
    ss, es := SubmitAll(limit, ids, |ids|);
    assert ids[..|ids|] == ids;
    assert ids != [] by { assert ids == [] ==> Rows(ids) == {}; }
    ss, es := Extend(limit, ss, es, Receive);
    ss, es := Extend(limit, ss, es, Select(batch, {}));
    ss, es := Extend(limit, ss, es, BatchDone);
    assert batch - {} == batch;
    assert |Rows(ids) - batch| > 0;
  }
}
