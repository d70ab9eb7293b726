/**
 The running server as far as the queue is concerned: submissions, requeues and batches of one worker, one after the
 other. Its table is at any time that of a run of the protocol, so what Safety.dfy, DeadCap.dfy and SoloWorker.dfy
 prove of runs holds of the loops of Relay.dfy.
 */
module Service {
  import opened Routing
  import opened QueueTable
  import opened Books
  import opened Storage
  import opened Relay
  import Protocol
  import Safety
  import SoloWorker
  import Mirror

  class Server {
    const store: Store
    const relay: Deliverer
    ghost var state: Protocol.State   // of the protocol run so far

    ghost predicate Valid()
      reads this, store
    {
      && relay.store == store && 1 <= relay.maxAttempts
      && InOrder(store.Contents()) && Mirror.Idle(relay.Conf(), state, store.rows)
    }

    constructor (deadMax: int, maxAttempts: nat, concurrency: int)
      requires 1 <= maxAttempts
      ensures Valid() && fresh(store) && store.deadMax == deadMax && relay.maxAttempts == maxAttempts
      ensures state == Protocol.Init()
    {
      var st := new Store(deadMax);
      store := st;
      relay := new Deliverer(st, maxAttempts, concurrency);
      state := Protocol.Init();
      new;
      Mirror.InitReached(relay.Conf());
    }

    /** Ids are new, as NewID makes them; a message without recipients is refused. */
    method Accept(id: Id, to: seq<Addr>, createdAt: nat) returns (ok: bool)
      requires Valid() && id !in state.ledger.accepted
      modifies this, store
      ensures Valid() && (ok <==> to != [])
      ensures ok ==> state.ledger.accepted == old(state.ledger.accepted)[id := Elements(to)]
      ensures !ok ==> state == old(state)
      ensures state.ledger.delivered == old(state.ledger.delivered)
      ensures state.ledger.rejected == old(state.ledger.rejected)
    {
      Mirror.KnownRow(relay.Conf(), state, store.rows, id);
      ok := store.Submit(id, to, createdAt);
      if ok {
        state := Mirror.EnqueueMirrored(relay.Conf(), state, old(store.rows), id, to, createdAt);
      }
    }

    method Requeue(id: Id) returns (ok: bool)
      requires Valid()
      modifies this, store
      ensures Valid() && (ok <==> id in DeadIds(old(store.rows)))
      ensures Mirror.SameReports(old(state.ledger), state.ledger)
    {
      ok := store.Requeue(id);
      if ok {
        state := Mirror.RequeueMirrored(relay.Conf(), state, old(store.rows), id);
      }
    }

    /** No recipient of a message in the batch was reported delivered before, in any batch since the start. */
    method RunBatch(now: nat, talk: (Id, string) -> Dialogue, retryAt: Id -> nat)
      returns (ready: seq<Message>)
      requires Valid()
      modifies this, store
      ensures Valid() && OncePerId(ready)
      ensures forall m :: m in ready ==> SoloWorker.Fresh(old(state.ledger), m.id, m.to)
      ensures Safety.Grows(old(state.ledger), state.ledger)
    {
      ghost var s;
      ready, s := relay.ProcessBatch(now, talk, retryAt, state);
      state := s;
    }

    /** Between operations every accepted recipient is reported, in its row, or went with a pruned row. */
    lemma LosesNobody(id: Id, a: Addr)
      requires Valid() && id in state.ledger.accepted && a in state.ledger.accepted[id]
      ensures a in Protocol.Of(state.ledger.delivered, id) || a in Protocol.Of(state.ledger.rejected, id)
        || (id in store.rows && a in store.rows[id].to) || id in state.pruned
    {
      Mirror.ReachedInv(relay.Conf(), state);
      assert id in state.rows ==> Safety.RowOk(relay.Conf(), state.ledger, id, state.rows[id]);
    }

    /** Between operations the dead letters are within their cap and no row has used up its attempts. */
    lemma KeepsBounds(id: Id)
      requires Valid()
      ensures 0 < store.deadMax ==> |DeadIds(store.rows)| <= store.deadMax
      ensures id in store.rows ==> store.rows[id].attempts < relay.maxAttempts && store.rows[id].to != []
    {
      Mirror.ReachedInv(relay.Conf(), state);
      assert id in state.rows ==> Safety.RowOk(relay.Conf(), state.ledger, id, state.rows[id]);
      if 0 < store.deadMax { Mirror.ReachedCap(relay.Conf(), state); }
    }
  }
}
