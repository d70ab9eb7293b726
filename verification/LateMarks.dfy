/**
 The requeue endpoint as it is: RequeueDead wakes the worker before MarkQueued restarts the history entry
 (internal/api/api.go, internal/storage/queue.go), so other operations may come in between, and the mark may come late.
 */
module LateMarks {
  import opened QueueTable
  import opened Books

  datatype Step =
    | Whole(op: Operation)      // an operation run to completion
    | RequeueDead(id: Id)       // the row is queued again and counted; its entry still says dead
    | MarkQueued(id: Id)        // the entry is restarted, whatever happened to the row since

  /** `open` are the messages whose entry may disagree. */
  datatype Desk = Desk(b: Books, open: set<Id>)

  /** The row and the counter of a requeue, without the entry. */
  function HalfRequeued(b: Books, id: Id): Books {
    b.(rows := RequeueRow(b.rows, id), counters := b.counters.(requeued := b.counters.requeued + 1))
  }

  /** The entry of a requeue, without the row. */
  function Marked(b: Books, id: Id): Books {
    b.(history := Restart(b.history, id))
  }

  /** The row is still as the requeue left it, as far as the history can tell. */
  predicate Untried(rows: Table, id: Id) {
    id in QueuedIds(rows) && rows[id].attempts == 0
  }

  ghost predicate CanStep(d: Desk, step: Step) {
    match step
    case Whole(op) => Possible(d.b, op)
    case RequeueDead(id) => id in DeadIds(d.b.rows)
    case MarkQueued(_) => true
  }

  ghost function After(d: Desk, step: Step): Desk
    requires CanStep(d, step)
  {
    match step
    case Whole(op) => Desk(Perform(d.b, op), d.open)
    case RequeueDead(id) => Desk(HalfRequeued(d.b, id), d.open + {id})
    case MarkQueued(id) => Desk(Marked(d.b, id), if Untried(d.b.rows, id) then d.open - {id} else d.open + {id})
  }

  /** The books without the entries of some messages. */
  function Without(b: Books, ids: set<Id>): Books {
    b.(history := b.history - ids)
  }

  /** All other entries agree, and the counters balance. */
  ghost predicate Kept(d: Desk) {
    InOrder(Without(d.b, d.open))
  }

  /** No operation looks at an entry that is missing. */
  lemma PerformWithout(b: Books, op: Operation, ids: set<Id>)
    requires Possible(b, op)
    ensures Possible(Without(b, ids), op)
    ensures Without(Perform(Without(b, ids), op), ids) == Without(Perform(b, op), ids)
  {
    var l, r := Perform(Without(b, ids), op), Perform(b, op);
    forall i | i !in ids
      ensures i in l.history <==> i in r.history
      ensures i in r.history ==> l.history[i] == r.history[i]
    {
    }
    assert l.history - ids == r.history - ids;
  }

  lemma WholeKept(d: Desk, op: Operation)
    requires Kept(d) && Possible(d.b, op)
    ensures Kept(Desk(Perform(d.b, op), d.open))
  {
    PerformWithout(d.b, op, d.open);
    PerformKeepsOrder(Without(d.b, d.open), op);
  }

  lemma HalfKept(d: Desk, id: Id)
    requires Kept(d) && id in DeadIds(d.b.rows)
    ensures Kept(Desk(HalfRequeued(d.b, id), d.open + {id}))
  {
    var b := Without(d.b, d.open);
    RequeueKeepsOrder(b, id);
    assert Without(AfterRequeue(b, id), d.open + {id}) == Without(HalfRequeued(d.b, id), d.open + {id}) by {
      assert Restart(b.history, id) - (d.open + {id}) == d.b.history - (d.open + {id});
    }
  }

  /** A restarted entry agrees exactly when its row is queued and untried. */
  lemma MarkAgreesIff(b: Books, id: Id, open: set<Id>)
    requires InOrder(Without(b, open)) && id in b.history
    ensures EntryAgrees(Marked(b, id), id) <==> Untried(b.rows, id)
  {
  }

  lemma MarkKept(d: Desk, id: Id)
    requires Kept(d)
    ensures Kept(After(d, MarkQueued(id)))
  {
    var d' := After(d, MarkQueued(id));
    var b, b' := Without(d.b, d.open), Without(d'.b, d'.open);
    forall i | i in b'.history ensures EntryAgrees(b', i) {
      if i == id {
        MarkAgreesIff(d.b, id, d.open);
      } else {
        assert i in b.history && b'.history[i] == b.history[i] && EntryAgrees(b, i);
      }
    }
  }

  ghost predicate StepAt(ds: seq<Desk>, steps: seq<Step>, i: nat)
    requires |ds| == |steps| + 1 && i < |steps|
  {
    CanStep(ds[i], steps[i]) && ds[i + 1] == After(ds[i], steps[i])
  }

  ghost predicate IsHistory(ds: seq<Desk>, steps: seq<Step>) {
    && |ds| == |steps| + 1 && ds[0] == Desk(Books(map[], map[], Counters(0, 0, 0, 0), {}, {}, 0), {})
    && forall i :: 0 <= i < |steps| ==> StepAt(ds, steps, i)
  }

  lemma {:induction false} HistoryKept(ds: seq<Desk>, steps: seq<Step>, k: nat)
    requires IsHistory(ds, steps) && k < |ds|
    ensures Kept(ds[k])
  {
    if k == 0 {
      assert QueuedIds(ds[0].b.rows) == {};
    } else {
      HistoryKept(ds, steps, k - 1);
      assert StepAt(ds, steps, k - 1);
      match steps[k - 1]
      case Whole(op) => WholeKept(ds[k - 1], op);
      case RequeueDead(id) => HalfKept(ds[k - 1], id);
      case MarkQueued(id) => MarkKept(ds[k - 1], id);
    }
  }

  /**
   However requeues overlap with other operations and with each other, the counters balance at any time, every entry
   agrees whose message was not requeued since its last agreeing mark, and a mark brings its entry into agreement
   exactly when the row is still queued and untried.
   */
  lemma OverlappingRequeues(ds: seq<Desk>, steps: seq<Step>, k: nat, id: Id)
    requires IsHistory(ds, steps) && k < |ds|
    ensures Balanced(ds[k].b)
    ensures id in ds[k].b.history && id !in ds[k].open ==> EntryAgrees(ds[k].b, id)
    ensures 0 < k && steps[k - 1] == MarkQueued(id) && id in ds[k].b.history ==>
      (EntryAgrees(ds[k].b, id) <==> Untried(ds[k].b.rows, id))
  {
    HistoryKept(ds, steps, k);
    var b := Without(ds[k].b, ds[k].open);
    assert id in b.history ==> EntryAgrees(b, id);
    if 0 < k && steps[k - 1] == MarkQueued(id) {
      HistoryKept(ds, steps, k - 1);
      assert StepAt(ds, steps, k - 1);
      if id in ds[k - 1].b.history { MarkAgreesIff(ds[k - 1].b, id, ds[k - 1].open); }
    }
  }

  /** One requeue with operations in between, from books in order. */
  lemma RequeueInterrupted(b: Books, id: Id, bs: seq<Books>, ops: seq<Operation>)
    requires InOrder(b) && id in DeadIds(b.rows)
    requires |bs| == |ops| + 1 && bs[0] == HalfRequeued(b, id) && forall i :: 0 <= i < |ops| ==> PerformAt(bs, ops, i)
    ensures var b' := Marked(bs[|ops|], id);
      && Balanced(b') && (forall i :: i in b'.history && i != id ==> EntryAgrees(b', i))
      && (id in b'.history ==> (EntryAgrees(b', id) <==> Untried(b'.rows, id)))
  {
    InterruptedKept(b, id, bs, ops, |ops|);
    var last := bs[|ops|];
    forall i | i in Marked(last, id).history && i != id ensures EntryAgrees(Marked(last, id), i) {
      assert i in Without(last, {id}).history && EntryAgrees(Without(last, {id}), i);
    }
    if id in last.history { MarkAgreesIff(last, id, {id}); }
  }

  lemma {:induction false} InterruptedKept(b: Books, id: Id, bs: seq<Books>, ops: seq<Operation>, k: nat)
    requires InOrder(b) && id in DeadIds(b.rows) && k <= |ops|
    requires |bs| == |ops| + 1 && bs[0] == HalfRequeued(b, id) && forall i :: 0 <= i < |ops| ==> PerformAt(bs, ops, i)
    ensures Kept(Desk(bs[k], {id}))
    decreases k
  {
    if k == 0 {
      assert b.history - {} == b.history;
      HalfKept(Desk(b, {}), id);
      assert {} + {id} == {id};
    } else {
      InterruptedKept(b, id, bs, ops, k - 1);
      assert PerformAt(bs, ops, k - 1);
      WholeKept(Desk(bs[k - 1], {id}), ops[k - 1]);
    }
  }

  /** If the message is delivered before the mark, its entry says "queued" for good although its row is gone. */
  lemma DeliveredBeforeMark(b: Books, id: Id, partial: bool)
    requires InOrder(b) && id in DeadIds(b.rows) && id in b.history
    ensures Possible(HalfRequeued(b, id), Remove(id, partial))
    ensures var b' := Marked(Perform(HalfRequeued(b, id), Remove(id, partial)), id);
      id !in b'.rows && b'.history[id] == SendLog(SendQueued, 0) && !EntryAgrees(b', id)
  {
  }
}
