/**
 The queue together with the send history of the web panel and the lifetime counters, and what must agree among them
 after every completed operation (internal/sends/sends.go, internal/storage/sends.go, internal/storage/counters.go).
 */
module Books {
  import opened QueueTable

  datatype SendStatus = SendQueued | SendDelivered | SendDead

  /** One row of `sends_log`; texts and times are not kept. */
  datatype SendLog = SendLog(status: SendStatus, attempts: nat)

  type History = map<Id, SendLog>

  /** The columns of `stats_counters` that count messages. */
  datatype Counters = Counters(queued: nat, requeued: nat, dead: nat, delivered: nat)

  /** `pruned` and `succeeded` are the messages that left the table, `partials` the removals no counter records. */
  datatype Books = Books(
    rows: Table, history: History, counters: Counters, pruned: set<Id>, succeeded: set<Id>, partials: nat)

  function SetStatus(h: History, id: Id, status: SendStatus): History {
    if id in h then h[id := h[id].(status := status)] else h
  }

  function Bump(h: History, id: Id): History {
    if id in h then h[id := h[id].(attempts := h[id].attempts + 1)] else h
  }

  function Restart(h: History, id: Id): History {
    if id in h then h[id := SendLog(SendQueued, 0)] else h
  }

  /** A history entry tells the state of its message, with the same number of attempts while it is queued. */
  ghost predicate EntryAgrees(b: Books, id: Id)
    requires id in b.history
  {
    && (b.history[id].status == SendQueued <==> id in QueuedIds(b.rows))
    && (b.history[id].status == SendDead <==> id in DeadIds(b.rows) || id in b.pruned)
    && (b.history[id].status == SendDelivered <==> id in b.succeeded)
    && (id in QueuedIds(b.rows) ==> b.history[id].attempts == b.rows[id].attempts)
  }

  ghost predicate Agree(b: Books) {
    && (forall id :: id in b.history ==> EntryAgrees(b, id))
    && b.pruned !! b.rows.Keys && b.succeeded !! b.rows.Keys
  }

  /** Every message ever queued or requeued is queued now, dead, delivered or partially delivered. */
  ghost predicate Balanced(b: Books) {
    b.counters.queued + b.counters.requeued ==
    |QueuedIds(b.rows)| + b.counters.dead + b.counters.delivered + b.partials
  }

  ghost predicate InOrder(b: Books) {
    Agree(b) && Balanced(b)
  }

  /** A message is recorded and enqueued. */
  function AfterAccept(b: Books, id: Id, rows: Table): Books {
    b.(rows := rows, history := b.history[id := SendLog(SendQueued, 0)],
       counters := b.counters.(queued := b.counters.queued + 1),
       pruned := b.pruned - {id}, succeeded := b.succeeded - {id})
  }

  /** A refused message leaves no entry behind. */
  function AfterRefusal(b: Books, id: Id): Books {
    b.(history := b.history - {id})
  }

  /** A delivery attempt that ends in a postponement; `rows` holds the new row. */
  function AfterRetry(b: Books, id: Id, rows: Table): Books {
    b.(rows := rows, history := Bump(b.history, id))
  }

  /** A delivery attempt that removes the message. */
  function AfterRemoval(b: Books, id: Id, partial: bool): Books {
    b.(rows := b.rows - {id}, history := SetStatus(Bump(b.history, id), id, SendDelivered),
       counters := if partial then b.counters else b.counters.(delivered := b.counters.delivered + 1),
       partials := if partial then b.partials + 1 else b.partials, succeeded := b.succeeded + {id})
  }

  /** A delivery attempt that buries the message and prunes `victims`; `rows` is the table before the pruning. */
  function AfterBurial(b: Books, id: Id, rows: Table, victims: set<Id>): Books {
    b.(rows := rows - victims, history := SetStatus(Bump(b.history, id), id, SendDead),
       counters := b.counters.(dead := b.counters.dead + 1), pruned := b.pruned + victims)
  }

  function AfterRequeue(b: Books, id: Id): Books {
    b.(rows := RequeueRow(b.rows, id), history := Restart(b.history, id),
       counters := b.counters.(requeued := b.counters.requeued + 1))
  }

  lemma AcceptKeepsOrder(b: Books, id: Id, row: Row)
    requires InOrder(b) && id !in b.rows && row.status == Queued && row.attempts == 0
    ensures InOrder(AfterAccept(b, id, b.rows[id := row]))
  {
    var b' := AfterAccept(b, id, b.rows[id := row]);
    assert QueuedIds(b'.rows) == QueuedIds(b.rows) + {id} && DeadIds(b'.rows) == DeadIds(b.rows);
    forall i | i in b'.history ensures EntryAgrees(b', i) {
      if i != id { assert EntryAgrees(b, i); }
    }
  }

  lemma RefusalKeepsOrder(b: Books, id: Id)
    requires InOrder(b)
    ensures InOrder(AfterRefusal(b, id))
  {
    forall i | i in AfterRefusal(b, id).history ensures EntryAgrees(AfterRefusal(b, id), i) {
      assert EntryAgrees(b, i);
    }
  }

  lemma RetryKeepsOrder(b: Books, id: Id, row: Row)
    requires InOrder(b) && id in QueuedIds(b.rows) && row.status == Queued && row.attempts == b.rows[id].attempts + 1
    ensures InOrder(AfterRetry(b, id, b.rows[id := row]))
  {
    var b' := AfterRetry(b, id, b.rows[id := row]);
    assert QueuedIds(b'.rows) == QueuedIds(b.rows) && DeadIds(b'.rows) == DeadIds(b.rows);
    forall i | i in b'.history ensures EntryAgrees(b', i) {
      assert EntryAgrees(b, i);
    }
  }

  lemma RemovalKeepsOrder(b: Books, id: Id, partial: bool)
    requires InOrder(b) && id in QueuedIds(b.rows)
    ensures InOrder(AfterRemoval(b, id, partial))
  {
    var b' := AfterRemoval(b, id, partial);
    assert QueuedIds(b'.rows) == QueuedIds(b.rows) - {id} && DeadIds(b'.rows) == DeadIds(b.rows);
    forall i | i in b'.history ensures EntryAgrees(b', i) {
      assert EntryAgrees(b, i);
    }
  }

  lemma BurialKeepsOrder(b: Books, id: Id, row: Row, victims: set<Id>)
    requires InOrder(b) && id in QueuedIds(b.rows) && row.status == Dead
    requires victims <= DeadIds(b.rows[id := row])
    ensures InOrder(AfterBurial(b, id, b.rows[id := row], victims))
  {
    var b' := AfterBurial(b, id, b.rows[id := row], victims);
    assert QueuedIds(b'.rows) == QueuedIds(b.rows) - {id};
    assert DeadIds(b'.rows) == DeadIds(b.rows) + {id} - victims;
    forall i | i in b'.history ensures EntryAgrees(b', i) {
      assert EntryAgrees(b, i);
    }
  }

  lemma RequeueKeepsOrder(b: Books, id: Id)
    requires InOrder(b) && id in DeadIds(b.rows)
    ensures InOrder(AfterRequeue(b, id))
  {
    var b' := AfterRequeue(b, id);
    assert QueuedIds(b'.rows) == QueuedIds(b.rows) + {id} && DeadIds(b'.rows) == DeadIds(b.rows) - {id};
    forall i | i in b'.history ensures EntryAgrees(b', i) {
      assert EntryAgrees(b, i);
    }
  }

  /** Claims change neither what is queued or dead nor any attempt count. */
  lemma LeasesKeepOrder(b: Books, rows: Table)
    requires InOrder(b) && rows.Keys == b.rows.Keys
    requires forall id :: id in rows ==>
      rows[id].status == b.rows[id].status && rows[id].attempts == b.rows[id].attempts
    ensures InOrder(b.(rows := rows))
  {
    assert QueuedIds(rows) == QueuedIds(b.rows) && DeadIds(rows) == DeadIds(b.rows);
    forall i | i in b.history ensures EntryAgrees(b.(rows := rows), i) {
      assert EntryAgrees(b, i);
    }
  }

  // ---- Whole runs of completed operations ----

  datatype Operation =
    | Accept(id: Id, row: Row)
    | Refuse(id: Id)
    | Claim(rows: Table)
    | Retry(id: Id, row: Row)
    | Remove(id: Id, partial: bool)
    | Bury(id: Id, row: Row, victims: set<Id>)
    | RequeueOne(id: Id)

  /** What the operations of the store and of the delivery worker guarantee about their arguments. */
  ghost predicate Possible(b: Books, op: Operation) {
    match op
    case Accept(id, row) => id !in b.rows && row.status == Queued && row.attempts == 0
    case Refuse(_) => true
    case Claim(rows) =>
      rows.Keys == b.rows.Keys &&
      forall id :: id in rows ==> rows[id].status == b.rows[id].status && rows[id].attempts == b.rows[id].attempts
    case Retry(id, row) => id in QueuedIds(b.rows) && row.status == Queued && row.attempts == b.rows[id].attempts + 1
    case Remove(id, _) => id in QueuedIds(b.rows)
    case Bury(id, row, victims) =>
      id in QueuedIds(b.rows) && row.status == Dead && victims <= DeadIds(b.rows[id := row])
    case RequeueOne(id) => id in DeadIds(b.rows)
  }

  ghost function Perform(b: Books, op: Operation): Books
    requires Possible(b, op)
  {
    match op
    case Accept(id, row) => AfterAccept(b, id, b.rows[id := row])
    case Refuse(id) => AfterRefusal(b, id)
    case Claim(rows) => b.(rows := rows)
    case Retry(id, row) => AfterRetry(b, id, b.rows[id := row])
    case Remove(id, partial) => AfterRemoval(b, id, partial)
    case Bury(id, row, victims) => AfterBurial(b, id, b.rows[id := row], victims)
    case RequeueOne(id) => AfterRequeue(b, id)
  }

  lemma PerformKeepsOrder(b: Books, op: Operation)
    requires InOrder(b) && Possible(b, op)
    ensures InOrder(Perform(b, op))
  {
    match op
    case Accept(id, row) => AcceptKeepsOrder(b, id, row);
    case Refuse(id) => RefusalKeepsOrder(b, id);
    case Claim(rows) => LeasesKeepOrder(b, rows);
    case Retry(id, row) => RetryKeepsOrder(b, id, row);
    case Remove(id, partial) => RemovalKeepsOrder(b, id, partial);
    case Bury(id, row, victims) => BurialKeepsOrder(b, id, row, victims);
    case RequeueOne(id) => RequeueKeepsOrder(b, id);
  }

  ghost predicate PerformAt(bs: seq<Books>, ops: seq<Operation>, i: nat)
    requires |bs| == |ops| + 1 && i < |ops|
  {
    Possible(bs[i], ops[i]) && bs[i + 1] == Perform(bs[i], ops[i])
  }

  /** `bs` are the books before and after each of the operations `ops` on an empty store. */
  ghost predicate IsHistory(bs: seq<Books>, ops: seq<Operation>) {
    && |bs| == |ops| + 1 && bs[0] == Books(map[], map[], Counters(0, 0, 0, 0), {}, {}, 0)
    && forall i :: 0 <= i < |ops| ==> PerformAt(bs, ops, i)
  }

  /** How many of some operations are of a kind. */
  function Count(ops: seq<Operation>, kind: Operation -> bool): nat {
    if ops == [] then 0 else Count(ops[..|ops| - 1], kind) + if kind(ops[|ops| - 1]) then 1 else 0
  }

  /** Every counter counts its own kind of operation; a removal is either a delivery or a partial delivery. */
  lemma {:induction false} CountersCount(bs: seq<Books>, ops: seq<Operation>, k: nat)
    requires IsHistory(bs, ops) && k < |bs|
    ensures bs[k].counters.queued == Count(ops[..k], (op: Operation) => op.Accept?)
    ensures bs[k].counters.requeued == Count(ops[..k], (op: Operation) => op.RequeueOne?)
    ensures bs[k].counters.dead == Count(ops[..k], (op: Operation) => op.Bury?)
    ensures bs[k].counters.delivered == Count(ops[..k], (op: Operation) => op.Remove? && !op.partial)
    ensures bs[k].partials == Count(ops[..k], (op: Operation) => op.Remove? && op.partial)
  {
    if k > 0 {
      CountersCount(bs, ops, k - 1);
      assert PerformAt(bs, ops, k - 1);
      assert ops[..k][..k - 1] == ops[..k - 1] && ops[..k][k - 1] == ops[k - 1];
    }
  }

  /**
   After any sequence of completed operations every history entry tells the state of its message, and
   messages_queued + messages_requeued = rows now queued + messages_dead + messages_delivered + partial deliveries.
   */
  lemma {:induction false} OperationsKeepOrder(bs: seq<Books>, ops: seq<Operation>, k: nat)
    requires IsHistory(bs, ops) && k < |bs|
    ensures Agree(bs[k]) && Balanced(bs[k])
  {
    if k == 0 {
      assert QueuedIds(bs[0].rows) == {};
    } else {
      OperationsKeepOrder(bs, ops, k - 1);
      assert PerformAt(bs, ops, k - 1);
      PerformKeepsOrder(bs[k - 1], ops[k - 1]);
    }
  }
}
