/**
 The table `queue_messages` and the effect of each SQL statement of internal/storage/queue.go on it.
 Every statement is one atomic step; the columns that no statement reads or changes
 (sender, data, last_error, worker_id) are not kept.
 */
module QueueTable {
  import opened Routing

  type Id = string

  /** 30 minutes, in the milliseconds of the time columns. */
  const LEASE_TIMEOUT: nat := 1_800_000

  datatype Status = Queued | Dead

  /** `nextAttempt == 0` means due at once and `leaseUntil == 0` means unclaimed. */
  datatype Row = Row(
    to: seq<Addr>, permanent: map<Addr, string>, attempts: nat, nextAttempt: nat,
    status: Status, leaseUntil: nat, createdAt: nat)

  /** What a worker holds after reading a row. */
  datatype Message = Message(id: Id, to: seq<Addr>, permanent: map<Addr, string>, attempts: nat, nextAttempt: nat)

  type Table = map<Id, Row>

  function Scan(id: Id, row: Row): Message {
    Message(id, row.to, row.permanent, row.attempts, row.nextAttempt)
  }

  function InsertRow(rows: Table, id: Id, to: seq<Addr>, createdAt: nat): Table {
    rows[id := Row(to, map[], 0, 0, Queued, 0, createdAt)]
  }

  predicate Due(row: Row, now: nat) {
    row.status == Queued && (row.nextAttempt == 0 || row.nextAttempt <= now)
  }

  predicate Claimable(rows: Table, id: Id, now: nat) {
    id in rows && rows[id].status == Queued && (rows[id].leaseUntil == 0 || rows[id].leaseUntil <= now)
  }

  function ClaimRow(rows: Table, id: Id, now: nat): Table {
    if Claimable(rows, id, now) then rows[id := rows[id].(leaseUntil := now + LEASE_TIMEOUT)] else rows
  }

  /** Saves the progress of a message and drops its lease; does nothing once no recipient is left. */
  function PersistRow(rows: Table, m: Message): Table {
    if m.to == [] || m.id !in rows then rows
    else rows[m.id := rows[m.id].(
      to := m.to, permanent := m.permanent, attempts := m.attempts, nextAttempt := m.nextAttempt, leaseUntil := 0)]
  }

  function SucceedRow(rows: Table, id: Id): Table {
    if id in rows && rows[id].status == Queued then rows - {id} else rows
  }

  function ReleaseRow(rows: Table, id: Id): Table {
    if id in rows then rows[id := rows[id].(leaseUntil := 0)] else rows
  }

  function BuryRow(rows: Table, id: Id): Table {
    if id in rows then rows[id := rows[id].(status := Dead, nextAttempt := 0, leaseUntil := 0)] else rows
  }

  function DeleteDeadRow(rows: Table, id: Id): Table {
    if id in rows && rows[id].status == Dead then rows - {id} else rows
  }

  function RequeueRow(rows: Table, id: Id): Table {
    if id in rows && rows[id].status == Dead
    then rows[id := rows[id].(status := Queued, attempts := 0, nextAttempt := 0, leaseUntil := 0)]
    else rows
  }

  function DeadIds(rows: Table): set<Id> {
    set id | id in rows && rows[id].status == Dead
  }

  /** How many dead rows are beyond a cap. */
  function Surplus(rows: Table, deadMax: int): nat {
    if |DeadIds(rows)| > deadMax then |DeadIds(rows)| - deadMax else 0
  }

  function QueuedIds(rows: Table): set<Id> {
    set id | id in rows && rows[id].status == Queued
  }

  /** `ids` answers "the ids of `from`, ORDER BY created_at ASC LIMIT limit"; ties may come in any order. */
  predicate OldestFirst(rows: Table, from: set<Id>, limit: nat, ids: seq<Id>)
    requires from <= rows.Keys
  {
    && (forall id :: id in ids ==> id in from)
    && (forall i, j :: 0 <= i < j < |ids| ==> ids[i] != ids[j])
    && |ids| == (if limit < |from| then limit else |from|)
    && (forall i, j :: 0 <= i < j < |ids| ==> rows[ids[i]].createdAt <= rows[ids[j]].createdAt)
    && (forall i, id :: 0 <= i < |ids| && id in from && id !in ids ==> rows[ids[i]].createdAt <= rows[id].createdAt)
  }

  lemma {:induction false} DistinctCount(ids: seq<Id>)
    requires forall i, j :: 0 <= i < j < |ids| ==> ids[i] != ids[j]
    ensures |set v | v in ids| == |ids|
  {
    if ids != [] {
      var n := |ids| - 1;
      DistinctCount(ids[..n]);
      assert (set v | v in ids) == (set v | v in ids[..n]) + {ids[n]};
    }
  }

  /** The row of `id` is the same in both tables, or in neither. */
  predicate SameRow(rows: Table, rows': Table, id: Id) {
    (id in rows' <==> id in rows) && (id in rows ==> rows'[id] == rows[id])
  }

  /** The statements about one message leave the rows of all others alone. */
  lemma OtherWrites(rows: Table, m: Message, id: Id)
    requires m.id != id
    ensures SameRow(rows, PersistRow(rows, m), id) && SameRow(rows, ReleaseRow(rows, m.id), id)
    ensures SameRow(rows, SucceedRow(rows, m.id), id) && SameRow(rows, BuryRow(rows, m.id), id)
  {
  }
}
