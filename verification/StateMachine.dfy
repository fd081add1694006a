/** The replicated state machine object of one replica. */
module StateMachine {
  import opened RaftApply
  import M = TxnModel

  class Machine {
    var store: map<M.Version, M.Value>
    var ids: map<Txn, nat>
    var results: map<Txn, bool>
    var local: map<nat, Local>
    var nextId: nat
    ghost var applied: nat
    ghost var base: map<M.Version, M.Value>
    ghost var peak: nat
    ghost var taken: set<Txn>

    ghost function View(): Replica
      reads this
    {
      Replica(store, ids, results, local, nextId, applied, base, peak, taken)
    }

    constructor ()
      ensures View() == FRESH
    {
      store, ids, results, local, nextId := map[], map[], map[], map[], 1;
      applied, base, peak, taken := 0, map[], 0, {};
    }

    method RegisterLocalTxn(t: Txn, l: nat)
      modifies `ids
      ensures View() == old(View()).(ids := old(ids)[t := l])
    {
      ids := ids[t := l];
    }

    method ForgetTxn(t: Txn)
      modifies `ids, `results
      ensures View() == old(View()).(ids := old(ids) - {t}, results := old(results) - {t})
    {
      ids, results := ids - {t}, results - {t};
    }

    method TakePrepareResult(t: Txn) returns (found: bool, success: bool)
      modifies `results, `taken
      ensures found <==> t in old(results)
      ensures found ==> success == old(results)[t]
      ensures View() == TakeResult(old(View()), t) && t !in results
    {
      found := t in results;
      if found { taken := taken + {t}; }
      success := found && results[t];
      results := results - {t};
    }

    /** The manager's commit: put the writes one by one. */
    method CommitLocal(l: nat, ts: nat)
      requires l in local
      modifies `store, `local
      ensures if old(local)[l].prepared then store == M.PutAll(old(store), old(local)[l].writes, ts)
              && local == old(local) - {l}
              else store == old(store) && local == old(local)
    {
      if local[l].prepared {
        var writes := local[l].writes;
        var i := 0;
        while i < |writes|
          invariant 0 <= i <= |writes| && store == M.PutAll(old(store), writes[..i], ts)
          modifies `store
        {
          assert writes[..i + 1][..i] == writes[..i];
          store := store[(writes[i].key, ts) := M.AsStored(writes[i].value)];
          i := i + 1;
        }
        assert writes[..i] == writes;
        local := local - {l};
      }
    }

    method Apply(e: Entry)
      modifies this
      ensures View() == RaftApply.Apply(old(View()), e)
      ensures e.Batch? ==> e.t in ids && e.t in results && results[e.t]
      ensures e.CommitEntry? || e.AbortEntry? ==> e.t !in ids
    {
      match e {
        case Noop =>
        case AbortEntry(t) =>
          if t in ids {
            local := local - {ids[t]};
            ids, results := ids - {t}, results - {t};
          }
        case Batch(t, writes) =>
          if t !in ids {
            local := local[nextId := Local(true, writes)];
            ids := ids[t := nextId];
            nextId := nextId + 1;
          }
          results := results[t := true];
        case CommitEntry(t, ts) =>
          if t in ids {
            if ids[t] in local { CommitLocal(ids[t], ts); }
            ids, results := ids - {t}, results - {t};
          }
      }
    }
  }
}
