/** The store as its callers see it: one method per operation of internal/storage, each run to completion. */
module Storage {
  import opened Routing
  import opened QueueTable
  import opened Books

  /** An oldest row of a set. */
  method Oldest(rows: Table, from: set<Id>) returns (oldest: Id)
    requires from != {} && from <= rows.Keys
    ensures oldest in from && forall id :: id in from ==> rows[oldest].createdAt <= rows[id].createdAt
  {
    oldest :| oldest in from;
    var rest := from - {oldest};
    while rest != {}
      invariant rest <= from && oldest in from
      invariant forall id :: id in from && id !in rest ==> rows[oldest].createdAt <= rows[id].createdAt
    {
      var id :| id in rest;
      rest := rest - {id};
      if rows[id].createdAt < rows[oldest].createdAt {
        oldest := id;
      }
    }
  }

  /** SELECT ... ORDER BY created_at ASC LIMIT limit. */
  method Query(rows: Table, from: set<Id>, limit: nat) returns (ids: seq<Id>)
    requires from <= rows.Keys
    ensures OldestFirst(rows, from, limit, ids)
  {
    ids := [];
    var rest := from;
    while |ids| < limit && rest != {}
      invariant |ids| <= limit && rest <= from && |rest| + |ids| == |from|
      invariant forall id :: id in ids ==> id in from && id !in rest
      invariant forall id :: id in from && id !in ids ==> id in rest
      invariant forall i, j :: 0 <= i < j < |ids| ==> ids[i] != ids[j]
      invariant forall i, j :: 0 <= i < j < |ids| ==> rows[ids[i]].createdAt <= rows[ids[j]].createdAt
      invariant forall i, id :: 0 <= i < |ids| && id in rest ==> rows[ids[i]].createdAt <= rows[id].createdAt
      decreases rest
    {
      var id := Oldest(rows, rest);
      ids := ids + [id];
      rest := rest - {id};
    }
  }

  function DueIds(rows: Table, now: nat): set<Id> {
    set id | id in rows && Due(rows[id], now)
  }

  /** The answer of the SELECT. */
  function Batch(rows: Table, ids: seq<Id>): (r: seq<Message>)
    requires forall id :: id in ids ==> id in rows
    ensures |r| == |ids| && forall i :: 0 <= i < |ids| ==> r[i] == Scan(ids[i], rows[ids[i]])
  {
    seq(|ids|, i requires 0 <= i < |ids| => Scan(ids[i], rows[ids[i]]))
  }

  /** The candidates whose claim succeeds, read before any claim. */
  function Ready(rows: Table, ids: seq<Id>, now: nat): (r: seq<Message>)
    requires forall id :: id in ids ==> id in rows
    ensures forall m :: m in r ==> m.id in ids && Claimable(rows, m.id, now) && m == Scan(m.id, rows[m.id])
    ensures forall id :: id in ids && Claimable(rows, id, now) ==> Scan(id, rows[id]) in r
  {
    if ids == [] then []
    else
      var n := |ids| - 1;
      Ready(rows, ids[..n], now) + if Claimable(rows, ids[n], now) then [Scan(ids[n], rows[ids[n]])] else []
  }

  /** Nothing is ready exactly when none of the selected rows can be claimed. */
  lemma {:induction false} ReadyNothing(rows: Table, ids: seq<Id>, now: nat)
    requires forall id :: id in ids ==> id in rows
    ensures Ready(rows, ids, now) == [] <==> forall id :: id in ids ==> !Claimable(rows, id, now)
  {
    if ids != [] {
      var n := |ids| - 1;
      ReadyNothing(rows, ids[..n], now);
      assert forall id :: id in ids <==> id in ids[..n] || id == ids[n];
    }
  }

  /**
   The SELECT does not look at leases. With a due row that could be claimed, a batch is nevertheless empty exactly when
   the LIMIT is used up by due rows that are leased, none of them newer.
   */
  lemma StarvedIff(rows: Table, now: nat, limit: nat, ids: seq<Id>, waiting: Id)
    requires OldestFirst(rows, DueIds(rows, now), limit, ids)
    requires waiting in DueIds(rows, now) && Claimable(rows, waiting, now)
    ensures Ready(rows, ids, now) == [] <==> |ids| == limit && forall id :: id in ids ==> !Claimable(rows, id, now)
    ensures Ready(rows, ids, now) == [] ==>
      forall i :: 0 <= i < |ids| ==> rows[ids[i]].createdAt <= rows[waiting].createdAt
  {
    ReadyNothing(rows, ids, now);
    if waiting !in ids {
      var chosen := set id | id in ids;
      DistinctCount(ids);
      assert |DueIds(rows, now)| == |chosen| + |DueIds(rows, now) - chosen| && waiting in DueIds(rows, now) - chosen;
    }
  }

  /** The table after the claims of `ids`. */
  function Leased(rows: Table, ids: seq<Id>, now: nat): Table {
    map id | id in rows :: if id in ids && Claimable(rows, id, now)
                           then rows[id].(leaseUntil := now + LEASE_TIMEOUT) else rows[id]
  }

  /** Claiming the candidates one by one is claiming each in the table as it was read. */
  lemma ClaimNext(rows: Table, ids: seq<Id>, i: nat, now: nat)
    requires i < |ids| && ids[i] in rows && ids[i] !in ids[..i] && forall id :: id in ids ==> id in rows
    ensures Claimable(Leased(rows, ids[..i], now), ids[i], now) <==> Claimable(rows, ids[i], now)
    ensures ClaimRow(Leased(rows, ids[..i], now), ids[i], now) == Leased(rows, ids[..i + 1], now)
  {
    assert ids[..i + 1] == ids[..i] + [ids[i]];
  }

  /** The queued rows whose time has come, by their columns; 0 stands for "at once". */
  ghost function RipeRows(rows: Table, now: nat): set<Id> {
    set id | id in rows && rows[id].status == Queued && rows[id].nextAttempt <= now
  }

  /** A snapshot taken from a row that was queued, ripe and unleased, and has been leased since. */
  ghost predicate Taken(m: Message, before: Table, rows: Table, now: nat) {
    && m.id in before && m.id in rows
    && before[m.id].status == Queued && before[m.id].nextAttempt <= now && before[m.id].leaseUntil <= now
    && m.to == before[m.id].to && m.permanent == before[m.id].permanent
    && m.attempts == before[m.id].attempts && m.nextAttempt == before[m.id].nextAttempt
    && rows[m.id] == before[m.id].(leaseUntil := now + 30 * 60 * 1000)
  }

  ghost predicate Returned(ready: seq<Message>, id: Id) {
    exists m :: m in ready && m.id == id
  }

  /** What a batch is, by the columns of the table. */
  ghost predicate IsBatch(before: Table, rows: Table, ready: seq<Message>, now: nat, limit: nat) {
    && rows.Keys == before.Keys && |ready| <= limit
    && (forall m :: m in ready ==> Taken(m, before, rows, now))
    && (forall id :: id in before && !Returned(ready, id) ==> rows[id] == before[id])
    && (|RipeRows(before, now)| <= limit ==>
         forall id :: id in RipeRows(before, now) && before[id].leaseUntil <= now ==> Returned(ready, id))
    && InAgeOrder(before, ready) && NotOvertaken(before, ready, now)
  }

  /** Different rows, the oldest first. */
  ghost predicate InAgeOrder(before: Table, ready: seq<Message>) {
    forall i, j :: 0 <= i < j < |ready| && ready[i].id in before && ready[j].id in before ==>
      ready[i].id != ready[j].id && before[ready[i].id].createdAt <= before[ready[j].id].createdAt
  }

  /** No row that could have been returned waits behind a newer one that was. */
  ghost predicate NotOvertaken(before: Table, ready: seq<Message>, now: nat) {
    forall m, id :: m in ready && m.id in before && id in RipeRows(before, now) && before[id].leaseUntil <= now ==>
      Returned(ready, id) || before[m.id].createdAt <= before[id].createdAt
  }

  lemma {:induction false} ReadyShort(rows: Table, ids: seq<Id>, now: nat)
    requires forall id :: id in ids ==> id in rows
    ensures |Ready(rows, ids, now)| <= |ids|
  {
    if ids != [] { ReadyShort(rows, ids[..|ids| - 1], now); }
  }

  lemma {:induction false} ReadyInOrder(rows: Table, ids: seq<Id>, now: nat)
    requires forall id :: id in ids ==> id in rows
    requires forall i, j :: 0 <= i < j < |ids| ==>
      ids[i] != ids[j] && rows[ids[i]].createdAt <= rows[ids[j]].createdAt
    ensures InAgeOrder(rows, Ready(rows, ids, now))
  {
    if ids != [] {
      var n := |ids| - 1;
      var front := Ready(rows, ids[..n], now);
      ReadyInOrder(rows, ids[..n], now);
      forall i | 0 <= i < |front|
        ensures front[i].id != ids[n] && rows[front[i].id].createdAt <= rows[ids[n]].createdAt
      {
        assert front[i] in front;
        var j :| 0 <= j < n && ids[j] == front[i].id;
      }
    }
  }

  lemma BatchLaw(before: Table, ids: seq<Id>, now: nat, limit: nat)
    requires OldestFirst(before, DueIds(before, now), limit, ids)
    ensures IsBatch(before, Leased(before, ids, now), Ready(before, ids, now), now, limit)
  {
    var ready := Ready(before, ids, now);
    ReadyShort(before, ids, now);
    ReadyInOrder(before, ids, now);
    assert DueIds(before, now) == RipeRows(before, now);
    forall id | id in ids && Claimable(before, id, now) ensures Returned(ready, id) {
      assert Scan(id, before[id]) in ready;
    }
    forall id | id in RipeRows(before, now) && before[id].leaseUntil <= now && |RipeRows(before, now)| <= limit
      ensures Returned(ready, id)
    {
      AllSelected(DueIds(before, now), ids, id);
    }
  }

  /** As many different ids of a set as it has members are all of them. */
  lemma AllSelected(from: set<Id>, ids: seq<Id>, id: Id)
    requires (forall i :: i in ids ==> i in from) && (forall i, j :: 0 <= i < j < |ids| ==> ids[i] != ids[j])
    requires |ids| == |from| && id in from
    ensures id in ids
  {
    var chosen := set i | i in ids;
    DistinctCount(ids);
    assert from == chosen + (from - chosen);
    assert |from - chosen| == 0;
  }

  /** The cap on the dead rows holds, is reached if any were pruned, and none that stays is older than a pruned one. */
  ghost predicate PrunedOldest(before: Table, rows: Table, victims: seq<Id>, deadMax: int) {
    && (0 < deadMax ==>
         |set id | id in rows && rows[id].status == Dead| <= deadMax &&
         (victims != [] ==> |set id | id in rows && rows[id].status == Dead| == deadMax))
    && (forall v, id :: v in victims && v in before && id in rows && rows[id].status == Dead ==>
         before[v].createdAt <= rows[id].createdAt)
  }

  lemma PruneLaw(before: Table, victims: seq<Id>, deadMax: int)
    requires 0 < deadMax && OldestFirst(before, DeadIds(before), Surplus(before, deadMax), victims)
    ensures PrunedOldest(before, before - Elements(victims), victims, deadMax)
  {
    var rows := before - Elements(victims);
    assert (set id | id in rows && rows[id].status == Dead) == DeadIds(before) - Elements(victims);
    Removed(DeadIds(before), victims);
  }

  lemma Removed(from: set<Id>, ids: seq<Id>)
    requires (forall id :: id in ids ==> id in from) && forall i, j :: 0 <= i < j < |ids| ==> ids[i] != ids[j]
    ensures |from - Elements(ids)| == |from| - |ids|
  {
    DistinctCount(ids);
    assert from == (from - Elements(ids)) + Elements(ids);
  }

  /** All rows but that of `id` are as they were. */
  ghost predicate OtherRowsKept(before: Table, rows: Table, id: Id) {
    forall i :: i != id ==> (i in rows <==> i in before) && (i in before ==> rows[i] == before[i])
  }

  class Store {
    var rows: Table
    var history: History
    var counters: Counters
    var token: bool            // the one-slot wake-up channel
    ghost var pruned: set<Id>
    ghost var succeeded: set<Id>
    ghost var partials: nat
    const deadMax: int

    constructor (deadMax: int)
      ensures rows == map[] && InOrder(Contents()) && this.deadMax == deadMax && !token
    {
      rows, history, counters, token := map[], map[], Counters(0, 0, 0, 0), false;
      pruned, succeeded, partials := {}, {}, 0;
      this.deadMax := deadMax;
      new;
      assert QueuedIds(rows) == {};
    }

    ghost function Contents(): Books
      reads this
    {
      Books(rows, history, counters, pruned, succeeded, partials)
    }

    /** Refuses a message without recipients and an id that is taken. */
    method Enqueue(id: Id, to: seq<Addr>, createdAt: nat) returns (ok: bool)
      modifies `rows, `token
      ensures ok <==> to != [] && id !in old(rows)
      ensures ok ==> rows == InsertRow(old(rows), id, to, createdAt) && token
      ensures ok ==> rows == old(rows)[id := Row(to, map[], 0, 0, Queued, 0, createdAt)]
      ensures !ok ==> rows == old(rows) && token == old(token)
    {
      if to == [] || id in rows {
        return false;
      }
      rows := InsertRow(rows, id, to, createdAt);
      token := true;
      ok := true;
    }

    /** Claims the oldest due rows and returns the snapshots whose claim succeeded. */
    method NextDue(now: nat, limit: int) returns (ready: seq<Message>, ghost ids: seq<Id>)
      modifies `rows
      ensures OldestFirst(old(rows), DueIds(old(rows), now), if limit <= 0 then 100 else limit, ids)
      ensures rows == Leased(old(rows), ids, now)
      ensures ready == Ready(old(rows), ids, now)
      ensures IsBatch(old(rows), rows, ready, now, if limit <= 0 then 100 else limit)
    {
      var candidates := Query(rows, DueIds(rows, now), if limit <= 0 then 100 else limit);
      ids := candidates;
      ghost var before := rows;
      var msgs := Batch(rows, candidates);
      ready := [];
      for i := 0 to |msgs|
        invariant rows == Leased(before, ids[..i], now) && ready == Ready(before, ids[..i], now)
      {
        var m := msgs[i];
        assert ids[..i + 1][..i] == ids[..i] && m.id == ids[i];
        ClaimNext(before, ids, i, now);
        if Claimable(rows, m.id, now) {
          ready := ready + [m];
        }
        rows := ClaimRow(rows, m.id, now);
      }
      assert ids[..|msgs|] == ids;
      BatchLaw(before, ids, now, if limit <= 0 then 100 else limit);
    }

    /** With recipients left the row takes over the message and loses its lease, whoever holds it; else it stays. */
    method Persist(m: Message)
      modifies `rows
      ensures rows == PersistRow(old(rows), m) && OtherRowsKept(old(rows), rows, m.id)
      ensures m.to == [] || m.id !in old(rows) ==> rows == old(rows)
      ensures m.to != [] && m.id in old(rows) ==>
        && m.id in rows && Scan(m.id, rows[m.id]) == m && rows[m.id].leaseUntil == 0
        && rows[m.id].status == old(rows)[m.id].status && rows[m.id].createdAt == old(rows)[m.id].createdAt
    {
      rows := PersistRow(rows, m);
    }

    /** A queued row is removed, a dead one stays. */
    method Succeed(id: Id)
      modifies `rows, `succeeded
      ensures rows == SucceedRow(old(rows), id) && OtherRowsKept(old(rows), rows, id)
      ensures id !in QueuedIds(rows) && DeadIds(rows) == DeadIds(old(rows))
      ensures succeeded == old(succeeded) + (old(QueuedIds(rows)) * {id})
    {
      succeeded := succeeded + (QueuedIds(rows) * {id});
      rows := SucceedRow(rows, id);
    }

    /** The row can be claimed by anybody again, and is otherwise as it was. */
    method Release(id: Id)
      modifies `rows
      ensures rows == ReleaseRow(old(rows), id) && OtherRowsKept(old(rows), rows, id)
      ensures rows.Keys == old(rows).Keys && (id in rows ==> Scan(id, rows[id]) == Scan(id, old(rows)[id]))
      ensures forall now :: id in QueuedIds(old(rows)) ==> Claimable(rows, id, now)
    {
      rows := ReleaseRow(rows, id);
    }

    /** Buries a row, then prunes the oldest dead rows beyond the cap. */
    method DeadLetter(id: Id) returns (ghost victims: seq<Id>)
      modifies `rows, `pruned
      ensures forall i :: i in old(rows) && i !in victims ==>
        i in rows && rows[i] == if i == id then old(rows)[i].(status := Dead, nextAttempt := 0, leaseUntil := 0)
                                else old(rows)[i]
      ensures PrunedOldest(old(rows), rows, victims, deadMax)
      ensures var buried := BuryRow(old(rows), id);
        && rows == buried - Elements(victims)
        && pruned == old(pruned) + Elements(victims)
        && (forall v :: v in victims ==> v in DeadIds(buried))
        && (deadMax <= 0 ==> victims == [])
        && (deadMax > 0 ==> OldestFirst(buried, DeadIds(buried),
              Surplus(buried, deadMax), victims))
    {
      rows := BuryRow(rows, id);
      victims := PruneDead();
    }

    method PruneDead() returns (ghost victims: seq<Id>)
      modifies `rows, `pruned
      ensures rows == old(rows) - Elements(victims)
      ensures pruned == old(pruned) + Elements(victims)
      ensures forall v :: v in victims ==> v in DeadIds(old(rows))
      ensures deadMax <= 0 ==> victims == []
      ensures deadMax > 0 ==> OldestFirst(old(rows), DeadIds(old(rows)),
        Surplus(old(rows), deadMax), victims)
      ensures PrunedOldest(old(rows), rows, victims, deadMax)
    {
      if deadMax > 0 && |DeadIds(rows)| <= deadMax { PruneLaw(rows, [], deadMax); }
      victims := [];
      if deadMax <= 0 {
        return;
      }
      var over := |DeadIds(rows)| - deadMax;
      if over <= 0 {
        return;
      }
      var chosen := Query(rows, DeadIds(rows), over);
      victims := chosen;
      ghost var before, known := rows, pruned;
      for i := 0 to |chosen|
        invariant rows == before - Elements(chosen[..i]) && pruned == known + Elements(chosen[..i])
      {
        assert chosen[i] !in chosen[..i];
        assert Elements(chosen[..i + 1]) == Elements(chosen[..i]) + {chosen[i]} by {
          assert chosen[..i + 1] == chosen[..i] + [chosen[i]];
        }
        rows := DeleteDeadRow(rows, chosen[i]);
        pruned := pruned + {chosen[i]};
      }
      assert chosen[..|chosen|] == chosen;
      PruneLaw(before, chosen, deadMax);
    }

    method RequeueDead(id: Id) returns (ok: bool)
      modifies `rows, `token
      ensures ok <==> id in DeadIds(old(rows))
      ensures rows == RequeueRow(old(rows), id) && token == (old(token) || ok)
      ensures OtherRowsKept(old(rows), rows, id)
      ensures ok ==> id in rows
      ensures ok ==> rows[id] == old(rows)[id].(status := Queued, attempts := 0, nextAttempt := 0, leaseUntil := 0)
    {
      if id in rows && rows[id].status == Dead {
        rows := RequeueRow(rows, id);
        token := true;
        ok := true;
      } else {
        ok := false;
      }
    }

    /** Recorder.Add: re-inserting an id overwrites its entry. */
    method InsertSendLog(id: Id)
      modifies `history
      ensures history == old(history)[id := SendLog(SendQueued, 0)]
    {
      history := history[id := SendLog(SendQueued, 0)];
    }

    /** MarkDelivered and MarkDead; an id without entry is ignored by both. */
    method SetSendStatus(id: Id, status: SendStatus)
      modifies `history
      ensures history == SetStatus(old(history), id, status)
    {
      history := SetStatus(history, id, status);
    }

    method BumpSendAttempt(id: Id)
      modifies `history
      ensures history == Bump(old(history), id)
    {
      history := Bump(history, id);
    }

    /** MarkQueued. */
    method RestartSendLog(id: Id)
      modifies `history
      ensures history == Restart(old(history), id)
    {
      history := Restart(history, id);
    }

    method DeleteSendLog(id: Id)
      modifies `history
      ensures history == old(history) - {id}
    {
      history := history - {id};
    }

    /**
     The submission tail shared by DATA and the compose endpoint: record, enqueue, and drop the record again if the
     queue refuses the message.
     */
    method Submit(id: Id, to: seq<Addr>, createdAt: nat) returns (ok: bool)
      requires InOrder(Contents())
      modifies this
      ensures InOrder(Contents()) && (ok <==> to != [] && id !in old(rows))
      ensures ok ==> Contents() == AfterAccept(old(Contents()), id, InsertRow(old(rows), id, to, createdAt))
      ensures !ok ==> Contents() == AfterRefusal(old(Contents()), id)
    {
      ghost var before := Contents();
      InsertSendLog(id);
      ok := Enqueue(id, to, createdAt);
      if ok {
        counters := counters.(queued := counters.queued + 1);
        pruned, succeeded := pruned - {id}, succeeded - {id};
        AcceptKeepsOrder(before, id, rows[id]);
      } else {
        DeleteSendLog(id);
        assert Contents() == AfterRefusal(before, id);
        RefusalKeepsOrder(before, id);
      }
    }

    /** The requeue endpoint, run to completion. */
    method Requeue(id: Id) returns (ok: bool)
      requires InOrder(Contents())
      modifies this
      ensures InOrder(Contents()) && (ok <==> id in DeadIds(old(rows)))
      ensures Contents() == if ok then AfterRequeue(old(Contents()), id) else old(Contents())
    {
      ghost var before := Contents();
      ok := RequeueDead(id);
      if ok {
        counters := counters.(requeued := counters.requeued + 1);
        RestartSendLog(id);
        RequeueKeepsOrder(before, id);
      }
    }
  }
}
