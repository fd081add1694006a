/** Recovery as the manager does it: passes over the records with tables of last positions, the writes
    of committed transactions put again, prepared transactions rebuilt and their keys locked. */
module TxnRecovery {
  import opened ByteStrings
  import opened TxnModel
  import opened TxnManager
  import TxnInvariant
  import TxnSafety
  import TxnSteps
  import C = TxnCrash
  import L = LockManager
  import T = LockTable

  predicate LeftPrepared(wal: seq<Record>, t: Id) {
    LastKind(wal, t).Some? && LastKind(wal, t).value.Prepare?
  }

  function Rebuilt(p: seq<Kind>): Transaction
    requires p != [] && p[|p| - 1].Prepare?
  {
    Transaction(SnapshotOf(p), p[|p| - 1].ts, true, WritesOf(p), [])
  }

  /** The table holds the transactions left prepared, each rebuilt from its records. */
  ghost predicate AllBack(txns: map<Id, Transaction>, wal: seq<Record>) {
    && (forall t {:trigger t in txns} {:trigger LeftPrepared(wal, t)} :: t in txns <==> LeftPrepared(wal, t))
    && (forall t :: t in txns ==> LeftPrepared(wal, t) && txns[t] == Rebuilt(Proj(wal, t)))
  }

  /** No two transactions left prepared wrote the same key. */
  ghost predicate Disjoint(wal: seq<Record>) {
    forall t, u, k {:trigger Needs(wal, t, k), Needs(wal, u, k)} :: Needs(wal, t, k) && Needs(wal, u, k) ==> t == u
  }

  predicate Needs(wal: seq<Record>, t: Id, k: Key) {
    LeftPrepared(wal, t) && k in KeysOf(WritesOf(Proj(wal, t)))
  }

  // ---- The passes over the records ----

  method LargestId(records: seq<Record>) returns (m: nat)
    ensures m == MaxId(records)
  {
    m := 0;
    for i := 0 to |records|
      invariant m == MaxId(records[..i])
    {
      assert records[..i + 1][..i] == records[..i];
      if records[i].txn > m { m := records[i].txn; }
    }
    assert records[..|records|] == records;
  }

  /** It is the largest id there is. */
  lemma {:induction false} LargestIs(records: seq<Record>)
    ensures forall i :: 0 <= i < |records| ==> records[i].txn <= MaxId(records)
    ensures records != [] ==> exists i :: 0 <= i < |records| && records[i].txn == MaxId(records)
  {
    if records != [] {
      var n := |records| - 1;
      LargestIs(records[..n]);
      forall i | 0 <= i < n ensures records[i] == records[..n][i] {}
      assert n == 0 ==> records[..n] == [];
      if MaxId(records) != records[n].txn {
        var i :| 0 <= i < n && records[..n][i].txn == MaxId(records[..n]);
        assert records[i].txn == MaxId(records);
      }
    }
  }

  method LastIndices(records: seq<Record>) returns (last: map<Id, nat>)
    ensures forall i :: 0 <= i < |records| ==>
            records[i].txn in last && (last[records[i].txn] == i <==> LastOf(records, i))
  {
    last := map[];
    for i := 0 to |records|
      invariant forall j :: 0 <= j < i ==>
                  && records[j].txn in last && j <= last[records[j].txn] < i
                  && records[last[records[j].txn]].txn == records[j].txn
    {
      last := last[records[i].txn := i];
    }
    forall i | 0 <= i < |records| ensures last[records[i].txn] == i <==> LastOf(records, i) {
      if last[records[i].txn] != i { assert records[last[records[i].txn]].txn == records[i].txn; }
    }
  }

  lemma ProjNext(records: seq<Record>, i: nat, t: Id)
    requires i < |records|
    ensures Proj(records[..i + 1], t) ==
            if records[i].txn == t then Proj(records[..i], t) + [records[i].kind] else Proj(records[..i], t)
  {
    assert records[..i + 1][..i] == records[..i];
  }

  lemma PutOneMore(store: map<Version, Value>, writes: seq<Write>, w: Write, ts: nat)
    ensures PutAll(store, writes + [w], ts) == PutAll(store, writes, ts)[(w.key, ts) := AsStored(w.value)]
    ensures KeysOf(writes + [w]) == KeysOf(writes) + {w.key}
  {
    assert (writes + [w])[..|writes|] == writes;
  }

  /** Put the writes of a committed transaction again. */
  method ReplayTxn(store: map<Version, Value>, records: seq<Record>, t: Id, last: nat, ts: nat)
      returns (store': map<Version, Value>)
    requires last < |records|
    ensures store' == PutAll(store, WritesOf(Proj(records[..last], t)), ts)
  {
    store' := store;
    ghost var p := [];
    for i := 0 to last
      invariant p == Proj(records[..i], t) && store' == PutAll(store, WritesOf(p), ts)
    {
      ProjNext(records, i, t);
      var r := records[i];
      if r.txn == t {
        C.WritesAppend(p, r.kind);
        if r.kind.Put? {
          PutOneMore(store, WritesOf(p), r.kind.write, ts);
          store' := store'[(r.kind.write.key, ts) := AsStored(r.kind.write.value)];
        } else {
          assert WritesOf(p) + [] == WritesOf(p);
        }
        p := p + [r.kind];
      }
    }
  }

  /** Rebuild a prepared transaction from the records before its PREPARE. */
  method RebuildTxn(records: seq<Record>, t: Id, last: nat, ts: nat) returns (e: Transaction, keys: set<Key>)
    requires last < |records|
    ensures var p := Proj(records[..last], t);
            e == Transaction(SnapshotOf(p), ts, true, WritesOf(p), []) && keys == KeysOf(WritesOf(p))
  {
    e, keys := Transaction(0, ts, true, [], []), {};
    ghost var p := [];
    for i := 0 to last
      invariant p == Proj(records[..i], t)
      invariant e == Transaction(SnapshotOf(p), ts, true, WritesOf(p), []) && keys == KeysOf(WritesOf(p))
    {
      ProjNext(records, i, t);
      var r := records[i];
      if r.txn == t {
        C.WritesAppend(p, r.kind);
        if r.kind.Begin? {
          e := e.(snapshot := r.kind.snapshot);
        } else if r.kind.Put? {
          PutOneMore(map[], e.writes, r.kind.write, ts);
          keys := keys + {r.kind.write.key};
          e := e.(writes := e.writes + [r.kind.write]);
        }
        p := p + [r.kind];
      }
    }
  }

  // ---- Locking the keys ----

  /** Nobody waits and nobody is half way through a release: the locks are those on the lists. */
  ghost predicate Calm(locks: L.Manager)
    reads locks
  {
    locks.Valid() && locks.table.waiting == map[] && locks.table.releasing == map[]
  }

  lemma HeldIsListed(locks: L.Manager, k: Key)
    requires Calm(locks) && k in locks.table.locks
    ensures Listed(locks.txnLocks, k, locks.table.locks[k].owner)
  {
    var t := locks.table.locks[k].owner;
    assert T.LockOk(locks.table, k);
    assert k in multiset(T.Held(locks.table, t));
  }

  /** Lock the keys for t; stops at the first key that another transaction holds. */
  method LockKeys(locks: L.Manager, t: Id, keys: set<Key>) returns (ok: bool, ghost blocker: Id, ghost at: Key)
    requires Calm(locks) && t != 0
    modifies locks
    ensures ok ==> Calm(locks)
    ensures ok ==> forall k, u :: Listed(locks.txnLocks, k, u) <==>
            Listed(old(locks.txnLocks), k, u) || (u == t && k in keys)
    ensures !ok ==> at in keys && blocker != t && Listed(old(locks.txnLocks), at, blocker)
  {
    var rest := keys;
    ok, blocker, at := true, 0, Key(0, []);
    while rest != {}
      invariant rest <= keys && Calm(locks)
      invariant forall k, u :: Listed(locks.txnLocks, k, u) <==>
                Listed(old(locks.txnLocks), k, u) || (u == t && k in keys - rest)
    {
      var k :| k in rest;
      ghost var before := locks.txnLocks;
      ghost var table := locks.table;
      if k in table.locks { HeldIsListed(locks, k); }
      ok := locks.Acquire(t, k);
      if !ok {
        at, blocker := k, table.locks[k].owner;
        return;
      }
      ListedMore(before, t, k);
      rest := rest - {k};
    }
  }

  lemma ListedMore(before: map<Id, seq<Key>>, t: Id, k: Key)
    ensures forall j, u :: Listed(L.Listing(before, t, k), j, u) <==> Listed(before, j, u) || (u == t && j == k)
  {}

  // ---- Recovery ----

  /** t's last record is a PREPARE among the first n. */
  ghost predicate Reached(records: seq<Record>, t: Id, n: nat)
    requires n <= |records|
  {
    exists j :: 0 <= j < n && records[j].txn == t && LastOf(records, j) && records[j].kind.Prepare?
  }

  lemma LastAt(records: seq<Record>, j: nat)
    requires j < |records| && LastOf(records, j)
    ensures Proj(records, records[j].txn) == Proj(records[..j], records[j].txn) + [records[j].kind]
  {
    C.RecordInProj(records, j);
    var i := C.LastRecord(records, records[j].txn);
    assert i == j;
  }

  lemma ReachedAll(records: seq<Record>, t: Id)
    ensures Reached(records, t, |records|) <==> LeftPrepared(records, t)
  {
    if LeftPrepared(records, t) {
      var i := C.LastRecord(records, t);
    }
    if Reached(records, t, |records|) {
      var j :| 0 <= j < |records| && records[j].txn == t && LastOf(records, j) && records[j].kind.Prepare?;
      LastAt(records, j);
    }
  }

  /** The table and the lists after the first n positions. */
  ghost predicate Progress(records: seq<Record>, n: nat, txns: map<Id, Transaction>, lists: map<Id, seq<Key>>)
    requires n <= |records|
  {
    && (forall t {:trigger t in txns} {:trigger Reached(records, t, n)} :: t in txns <==> Reached(records, t, n))
    && (forall t :: t in txns ==> LeftPrepared(records, t) && txns[t] == Rebuilt(Proj(records, t)))
    && (forall k, t {:trigger Listed(lists, k, t)} :: Listed(lists, k, t) <==> t in txns && Needs(records, t, k))
  }

  lemma StepOver(records: seq<Record>, i: nat, txns: map<Id, Transaction>, lists: map<Id, seq<Key>>)
    requires i < |records| && Progress(records, i, txns, lists) && !(LastOf(records, i) && records[i].kind.Prepare?)
    ensures Progress(records, i + 1, txns, lists)
  {
    forall t ensures Reached(records, t, i + 1) <==> Reached(records, t, i) {}
  }

  lemma StepOnto(records: seq<Record>, i: nat, t: Id)
    requires i < |records| && LastOf(records, i) && records[i].kind.Prepare?
    ensures Reached(records, t, i + 1) <==> Reached(records, t, i) || t == records[i].txn
  {
    if t == records[i].txn { assert Reached(records, t, i + 1); }
  }

  /** Rebuild and lock the transaction whose PREPARE is at position i. */
  method Restore(records: seq<Record>, i: nat, locks: L.Manager, txns: map<Id, Transaction>)
      returns (ok: bool, txns': map<Id, Transaction>)
    requires i < |records| && LastOf(records, i) && records[i].kind.Prepare? && records[i].txn != 0
    requires Calm(locks) && Progress(records, i, txns, locks.txnLocks)
    modifies locks
    ensures ok ==> Calm(locks) && Progress(records, i + 1, txns', locks.txnLocks)
    ensures !ok ==> !Disjoint(records)
  {
    var t := records[i].txn;
    ghost var p := Proj(records[..i], t);
    LastAt(records, i);
    C.WritesAppend(p, records[i].kind);
    assert WritesOf(p) + [] == WritesOf(p);
    var e, keys := RebuildTxn(records, t, i, records[i].kind.ts);
    assert e == Rebuilt(Proj(records, t)) && (forall k :: k in keys <==> Needs(records, t, k));
    txns' := txns;
    ghost var blocker, at;
    ok, blocker, at := LockKeys(locks, t, keys);
    if ok {
      txns' := txns[t := e];
      Restored(records, i, txns, e, old(locks.txnLocks), locks.txnLocks);
    } else {
      assert Needs(records, t, at) && Needs(records, blocker, at);
    }
  }

  lemma Restored(records: seq<Record>, i: nat, txns: map<Id, Transaction>, e: Transaction, before: map<Id, seq<Key>>,
      after: map<Id, seq<Key>>)
    requires i < |records| && LastOf(records, i) && records[i].kind.Prepare? && Progress(records, i, txns, before)
    requires LeftPrepared(records, records[i].txn) && e == Rebuilt(Proj(records, records[i].txn))
    requires forall k, u :: Listed(after, k, u) <==>
             Listed(before, k, u) || (u == records[i].txn && Needs(records, u, k))
    ensures Progress(records, i + 1, txns[records[i].txn := e], after)
  {
    forall u
      ensures Reached(records, u, i + 1) <==> Reached(records, u, i) || u == records[i].txn
    { StepOnto(records, i, u); }
  }

  lemma AllDisjoint(records: seq<Record>, locks: L.Manager)
    requires Calm(locks) && forall k, t {:trigger Needs(records, t, k)} :: Needs(records, t, k) ==>
             Listed(locks.txnLocks, k, t)
    ensures Disjoint(records)
  {
    forall t, u, k | Needs(records, t, k) && Needs(records, u, k) ensures t == u { OneHolder(locks.table, t, k); }
  }

  /** Recover from a log: either a prepared transaction needs a key that another one has, or every
      committed transaction is replayed, every transaction left prepared is back with its locks, and
      nothing else is. */
  method Recover(base: map<Version, Value>, records: seq<Record>, locks: L.Manager)
    returns (ok: bool, store: map<Version, Value>, txns: map<Id, Transaction>, nextId: nat)
    requires Calm(locks) && locks.txnLocks == map[] && forall i :: 0 <= i < |records| ==> records[i].txn != 0
    modifies locks
    ensures ok <==> Disjoint(records)
    ensures ok ==> Calm(locks) && store == ReplayCommits(base, records, |records|) && nextId == MaxId(records) + 1
    ensures ok ==> AllBack(txns, records)
    ensures ok ==> forall k, t {:trigger Needs(records, t, k)} :: Listed(locks.txnLocks, k, t) <==> Needs(records, t, k)
  {
    ok, store, txns := true, base, map[];
    var largest := LargestId(records);
    nextId := largest + 1;
    var last := LastIndices(records);
    // The transactions in the order of their last records.
    for i := 0 to |records|
      invariant Calm(locks) && ok && store == ReplayCommits(base, records, i)
      invariant Progress(records, i, txns, locks.txnLocks)
    {
      var r := records[i];
      if last[r.txn] == i && r.kind.Prepare? {
        ok, txns := Restore(records, i, locks, txns);
        if !ok { return; }
      } else {
        StepOver(records, i, txns, locks.txnLocks);
        if last[r.txn] == i && r.kind.Commit? {
          store := ReplayTxn(store, records, r.txn, i, r.kind.ts);
        }
      }
    }
    forall t ensures Reached(records, t, |records|) <==> LeftPrepared(records, t) { ReachedAll(records, t); }
    AllDisjoint(records, locks);
  }

  // ---- Recovery of a run ----

  lemma ShownTxn(s: State, s': State, keep: nat, kept: map<Version, Value>, t: Id)
    requires C.Recovers(s, s', keep, kept)
    ensures LeftPrepared(s'.wal, t) <==> t in s'.txns && InTable(s'.txns[t])
    ensures LeftPrepared(s'.wal, t) ==> Like(Rebuilt(Proj(s'.wal, t)), s'.txns[t])
  {
    C.ReopenedIs(s, s', keep, kept, t);
    ShownFrom(s, s', keep, t);
  }

  lemma ShownFrom(s: State, s': State, keep: nat, t: Id)
    requires TxnInvariant.WalOk(s) && keep <= |s.wal| && s'.wal == s.wal[..keep]
    requires t in s'.txns <==> t in s.txns && Proj(s'.wal, t) != []
    requires t in s'.txns ==> s'.txns[t] == TxnModel.Revive(s.txns[t], Proj(s'.wal, t))
    ensures LeftPrepared(s'.wal, t) <==> t in s'.txns && InTable(s'.txns[t])
    ensures LeftPrepared(s'.wal, t) ==> Like(Rebuilt(Proj(s'.wal, t)), s'.txns[t])
  {
    if LeftPrepared(s'.wal, t) {
      var i := C.LastRecord(s'.wal, t);
      assert s'.wal[i] == s.wal[i];
      Back(s.txns[t], Proj(s'.wal, t));
    } else if t in s'.txns {
      NotBack(s.txns[t], Proj(s'.wal, t));
    }
  }

  lemma Back(x: Txn, p: seq<Kind>)
    requires p != [] && p[|p| - 1].Prepare?
    ensures InTable(TxnModel.Revive(x, p)) && Like(Rebuilt(p), TxnModel.Revive(x, p))
  {}

  lemma NotBack(x: Txn, p: seq<Kind>)
    requires p != [] && !p[|p| - 1].Prepare?
    ensures !InTable(TxnModel.Revive(x, p))
  {}

  lemma ShownLock(s: State, s': State, keep: nat, kept: map<Version, Value>, t: Id, k: Key)
    requires C.Recovers(s, s', keep, kept)
    ensures Needs(s'.wal, t, k) <==> Owned(s'.owner, k, t)
  {
    ShownTxn(s, s', keep, kept, t);
    C.LocksExact(s, s', keep, kept, t, k);
    if t in s'.txns { TxnSteps.WroteKey(s'.txns[t].writes, k); }
  }

  /** On the log that a crash leaves behind, the table and the locks that recovery builds show the
      recovered state of the machine. */
  lemma RecoveryShows(run: seq<Step>, keep: nat, kept: map<Version, Value>, txns: map<Id, Transaction>, lists: map<Id,
      seq<Key>>)
    requires Enabled(After(run), Crash(keep, kept)) && AllBack(txns, After(run).wal[..keep])
    requires forall k, t {:trigger Needs(After(run).wal[..keep], t, k)} :: Listed(lists, k, t) <==>
             Needs(After(run).wal[..keep], t, k)
    ensures ShowsTable(txns, TxnSafety.Recovered(run, keep, kept).txns)
    ensures ShowsLocks(lists, TxnSafety.Recovered(run, keep, kept).owner)
  {
    var s, s' := After(run), TxnSafety.Recovered(run, keep, kept);
    TxnSafety.RecoveredIs(run, keep, kept);
    ShowsAll(s, s', keep, kept, txns, lists);
  }

  lemma ShowsAll(s: State, s': State, keep: nat, kept: map<Version, Value>, txns: map<Id, Transaction>, lists: map<Id,
      seq<Key>>)
    requires C.Recovers(s, s', keep, kept) && AllBack(txns, s'.wal)
    requires forall k, t {:trigger Needs(s'.wal, t, k)} :: Listed(lists, k, t) <==> Needs(s'.wal, t, k)
    ensures ShowsTable(txns, s'.txns) && ShowsLocks(lists, s'.owner)
  {
    forall t
      ensures LeftPrepared(s'.wal, t) <==> t in s'.txns && InTable(s'.txns[t])
    { ShownTxn(s, s', keep, kept, t); }
    forall t | t in txns ensures t in s'.txns && Like(txns[t], s'.txns[t]) { ShownTxn(s, s', keep, kept, t); }
    forall k, t ensures Owned(s'.owner, k, t) <==> Listed(lists, k, t) { ShownLock(s, s', keep, kept, t, k); }
  }

  /** It never waits. */
  lemma RecoverySucceeds(run: seq<Step>, keep: nat)
    requires After(run).synced <= keep <= |After(run).wal|
    ensures Disjoint(After(run).wal[..keep])
    ensures forall i :: 0 <= i < keep ==> After(run).wal[i].txn != 0
  {
    var wal := After(run).wal[..keep];
    forall t, u, k | Needs(wal, t, k) && Needs(wal, u, k) ensures t == u {
      if t != u { TxnSafety.RecoveryNeverWaits(run, keep, t, u, k); }
    }
    TxnSafety.AlwaysInv(run);
    forall i | 0 <= i < keep ensures After(run).wal[i].txn != 0 {
      assert TxnInvariant.PhaseOk(After(run), After(run).wal[i].txn);
    }
  }
}
