/** A crash at any moment that keeps the synced part of the log, followed by recovery, keeps the
    invariant: recovery rebuilds exactly the transactions that had prepared and not ended. */
module TxnCrash {
  import opened ByteStrings
  import opened TxnModel
  import opened TxnInvariant
  import opened TxnSteps

  // ---- What a shorter log still says about a transaction ----

  lemma {:induction false} ProjPrefix(wal: seq<Record>, n: nat, t: Id)
    requires n <= |wal|
    ensures Proj(wal[..n], t) <= Proj(wal, t)
    decreases |wal|
  {
    if n == |wal| {
      assert wal[..n] == wal;
    } else {
      ProjPrefix(wal[..|wal| - 1], n, t);
      assert wal[..|wal| - 1][..n] == wal[..n];
    }
  }

  /** Cutting only unsynced records cuts only BEGINs and writes. */
  lemma {:induction false} CutIsOpen(wal: seq<Record>, n: nat, t: Id)
    requires n <= |wal| && forall i :: n <= i < |wal| ==> wal[i].kind.Begin? || wal[i].kind.Put?
    ensures Proj(wal[..n], t) <= Proj(wal, t)
    ensures forall i :: |Proj(wal[..n], t)| <= i < |Proj(wal, t)| ==> Proj(wal, t)[i].Begin? || Proj(wal, t)[i].Put?
    decreases |wal|
  {
    if n == |wal| {
      assert wal[..n] == wal;
    } else {
      CutIsOpen(wal[..|wal| - 1], n, t);
      assert wal[..|wal| - 1][..n] == wal[..n];
    }
  }

  lemma WritesAppend(p: seq<Kind>, k: Kind)
    ensures WritesOf(p + [k]) == WritesOf(p) + if k.Put? then [k.write] else []
    ensures SnapshotOf(p + [k]) == if k.Begin? then k.snapshot else SnapshotOf(p)
  {
    assert (p + [k])[..|p|] == p;
  }

  lemma {:induction false} BodyOf(snapshot: nat, writes: seq<Write>)
    ensures WritesOf([Begin(snapshot)] + Puts(writes)) == writes
    ensures SnapshotOf([Begin(snapshot)] + Puts(writes)) == snapshot
    decreases |writes|
  {
    if writes == [] {
      WritesAppend([], Begin(snapshot));
      assert [Begin(snapshot)] + Puts(writes) == [] + [Begin(snapshot)];
    } else {
      var n := |writes| - 1;
      BodyOf(snapshot, writes[..n]);
      assert [Begin(snapshot)] + Puts(writes) == [Begin(snapshot)] + Puts(writes[..n]) + [Put(writes[n])];
      WritesAppend([Begin(snapshot)] + Puts(writes[..n]), Put(writes[n]));
    }
  }

  /** The whole record list of a transaction gives back its snapshot and its write set in order. */
  lemma ExpectedSays(x: Txn)
    ensures WritesOf(Expected(x)) == x.writes && SnapshotOf(Expected(x)) == x.snapshot
  {
    var body := [Begin(x.snapshot)] + Puts(x.writes);
    BodyOf(x.snapshot, x.writes);
    var p := body;
    if x.prepared.Some? {
      WritesAppend(body, Prepare(x.prepared.value));
      p := body + [Prepare(x.prepared.value)];
    }
    if Ending(x) == [] {
      assert Expected(x) == p;
    } else {
      WritesAppend(p, Ending(x)[0]);
      assert Expected(x) == p + [Ending(x)[0]];
    }
  }

  /** Prepared at some point, or ended: what a crash must not lose. */
  predicate Durable(x: Txn) { x.prepared.Some? || Ended(x) }

  lemma CutLog(s: State, t: Id, keep: nat)
    requires WalOk(s) && s.synced <= keep <= |s.wal| && t in s.txns && PhaseOk(s, t) && LogOk(s, t)
    ensures var p := Proj(s.wal[..keep], t);
            if Durable(s.txns[t]) && !s.txns[t].phase.Lost? then p == Expected(s.txns[t]) else Open(p)
  {
    var x, p := s.txns[t], Proj(s.wal[..keep], t);
    CutIsOpen(s.wal, keep, t);
    if Durable(x) && !x.phase.Lost? {
      var e := Expected(x);
      assert e[|e| - 1].Prepare? || e[|e| - 1].Commit? || e[|e| - 1].Abort?;
    }
  }

  /** How recovery relates a transaction before the crash to the one after it. */
  ghost predicate Reborn(x: Txn, y: Txn) {
    && y.readSet == x.readSet && y.pending == None
    && y.preparingAt == x.preparingAt && y.committedAt == x.committedAt && y.loggedAt == x.loggedAt
    && y.drawn == x.drawn && y.prepared == x.prepared
    && (if x.phase.Lost? || !Durable(x) then y.phase.Lost?
        else
          && y.writes == x.writes && y.snapshot == x.snapshot
          && (if x.phase.Logged? || x.phase.Committed? then y.phase == Committed(x.phase.ts)
              else if x.phase.AbortLogged? || x.phase.Aborted? then y.phase == Aborted
              else y.phase == Prepared))
  }

  lemma Rebirth(s: State, t: Id, keep: nat)
    requires WalOk(s) && s.synced <= keep <= |s.wal| && t in s.txns && PhaseOk(s, t) && LogOk(s, t)
    requires Proj(s.wal[..keep], t) != []
    ensures Reborn(s.txns[t], Revive(s.txns[t], Proj(s.wal[..keep], t)))
  {
    CutLog(s, t, keep);
    ExpectedSays(s.txns[t]);
  }

  lemma {:induction false} RecordInProj(wal: seq<Record>, i: nat)
    requires i < |wal|
    ensures wal[i].kind in Proj(wal, wal[i].txn)
    decreases |wal|
  {
    if i < |wal| - 1 { RecordInProj(wal[..|wal| - 1], i); }
  }

  lemma {:induction false} IdAtMost(wal: seq<Record>, t: Id)
    requires Proj(wal, t) != []
    ensures t <= MaxId(wal)
  {
    if wal[|wal| - 1].txn != t { IdAtMost(wal[..|wal| - 1], t); }
  }

  // ---- The store after recovery ----

  lemma {:induction false} PutAllAt(store: map<Version, Value>, writes: seq<Write>, ts: nat, v: Version)
    ensures v in PutAll(store, writes, ts) <==> v in store || (v.1 == ts && LastWrite(writes, v.0).Some?)
    ensures v.1 == ts && LastWrite(writes, v.0).Some? ==>
            Some(PutAll(store, writes, ts)[v]) == Kept(LastWrite(writes, v.0))
    ensures v in store && (v.1 != ts || LastWrite(writes, v.0) == None) ==> PutAll(store, writes, ts)[v] == store[v]
  {
    if writes != [] { PutAllAt(store, writes[..|writes| - 1], ts, v); }
  }

  /** The COMMIT record at position i is the one that decides version (k, ts). */
  lemma {:induction false} ReplayedValue(store: map<Version, Value>, wal: seq<Record>, n: nat, i: nat, k: Key)
    requires i < n <= |wal| && wal[i].kind.Commit? && LastOf(wal, i)
    requires forall j :: 0 <= j < n && j != i && wal[j].kind.Commit? && LastOf(wal, j) ==>
             wal[j].kind.ts != wal[i].kind.ts
    requires LastWrite(WritesOf(Proj(wal[..i], wal[i].txn)), k).Some?
    ensures var v := (k, wal[i].kind.ts);
            && v in ReplayCommits(store, wal, n)
            && Some(ReplayCommits(store, wal, n)[v]) == Kept(LastWrite(WritesOf(Proj(wal[..i], wal[i].txn)), k))
    decreases n
  {
    var before, r := ReplayCommits(store, wal, n - 1), wal[n - 1];
    PutAllAt(before, WritesOf(Proj(wal[..n - 1], r.txn)), if r.kind.Commit? then r.kind.ts else 0, (k, wal[i].kind.ts));
    if i < n - 1 { ReplayedValue(store, wal, n - 1, i, k); }
  }

  /** Recovery writes nothing but versions of COMMIT records. */
  lemma {:induction false} ReplayedOnly(store: map<Version, Value>, wal: seq<Record>, n: nat, v: Version)
    requires n <= |wal| && v in ReplayCommits(store, wal, n)
    ensures v in store || exists i {:trigger wal[i]} :: 0 <= i < n && wal[i].kind == Commit(v.1)
                            && LastWrite(WritesOf(Proj(wal[..i], wal[i].txn)), v.0).Some?
  {
    if n > 0 {
      var before, r := ReplayCommits(store, wal, n - 1), wal[n - 1];
      PutAllAt(before, WritesOf(Proj(wal[..n - 1], r.txn)), if r.kind.Commit? then r.kind.ts else 0, v);
      if v in before { ReplayedOnly(store, wal, n - 1, v); }
    }
  }

  lemma {:induction false} ReplayedClean(store: map<Version, Value>, wal: seq<Record>, n: nat, v: Version)
    requires n <= |wal| && v in ReplayCommits(store, wal, n) && (v in store ==> store[v] != Some([0]))
    ensures ReplayCommits(store, wal, n)[v] != Some([0])
  {
    if n > 0 {
      var before, r := ReplayCommits(store, wal, n - 1), wal[n - 1];
      PutAllAt(before, WritesOf(Proj(wal[..n - 1], r.txn)), if r.kind.Commit? then r.kind.ts else 0, v);
      if v in before { ReplayedClean(store, wal, n - 1, v); }
    }
  }

  /** The last record of a transaction, found in the log. */
  lemma {:induction false} LastRecord(wal: seq<Record>, t: Id) returns (i: nat)
    requires Proj(wal, t) != []
    ensures i < |wal| && wal[i].txn == t && LastOf(wal, i)
    ensures Proj(wal, t) == Proj(wal[..i], t) + [wal[i].kind]
  {
    var n := |wal| - 1;
    if wal[n].txn == t {
      i := n;
    } else {
      i := LastRecord(wal[..n], t);
      assert wal[..n][..i] == wal[..i];
    }
  }

  // ---- Recovery keeps the invariant ----

  ghost predicate Recovers(s: State, s': State, keep: nat, kept: map<Version, Value>) {
    && Inv(s) && s.synced <= keep <= |s.wal| && Enabled(s, Crash(keep, kept))
    && s' == Reopen(Tick(s), s.wal[..keep], kept)
  }

  lemma RebornLog(x: Txn, y: Txn)
    requires Reborn(x, y) && !y.phase.Lost? && Durable(x)
    ensures Expected(y) == Expected(x)
  {}

  lemma RebornPhase(s: State, s': State, t: Id)
    requires t in s.txns && PhaseOk(s, t) && t in s'.txns && Reborn(s.txns[t], s'.txns[t])
    requires t < s'.nextId && s'.clock == s.clock && s'.now >= s.now
    ensures PhaseOk(s', t)
  {}

  /** A transaction after recovery, seen from before the crash. */
  lemma Survivor(s: State, s': State, keep: nat, kept: map<Version, Value>, t: Id)
    requires Recovers(s, s', keep, kept) && t in s'.txns
    ensures t in s.txns && Reborn(s.txns[t], s'.txns[t]) && PhaseOk(s, t)
  {
    WasThere(s, s', keep, kept, t);
    TxnFacts(s, t);
    ReopenedTxn(s, s', keep, kept, t);
  }

  /** The transactions after recovery, one by one. */
  lemma ReopenedIs(s: State, s': State, keep: nat, kept: map<Version, Value>, t: Id)
    requires keep <= |s.wal| && s' == Reopen(Tick(s), s.wal[..keep], kept)
    ensures s'.wal == s.wal[..keep] && (t in s'.txns <==> t in s.txns && Proj(s'.wal, t) != [])
    ensures t in s'.txns ==> s'.txns[t] == Revive(s.txns[t], Proj(s'.wal, t))
  {}

  lemma TxnFacts(s: State, t: Id)
    requires Inv(s) && t in s.txns
    ensures WalOk(s) && PhaseOk(s, t) && LogOk(s, t)
  {
    assert PhaseOk(s, t) && LogOk(s, t);
  }

  lemma WasThere(s: State, s': State, keep: nat, kept: map<Version, Value>, t: Id)
    requires keep <= |s.wal| && s' == Reopen(Tick(s), s.wal[..keep], kept) && t in s'.txns
    ensures t in s.txns
  {}

  lemma ReopenedTxn(s: State, s': State, keep: nat, kept: map<Version, Value>, t: Id)
    requires WalOk(s) && s.synced <= keep <= |s.wal| && s' == Reopen(Tick(s), s.wal[..keep], kept) && t in s'.txns
    requires t in s.txns && PhaseOk(s, t) && LogOk(s, t)
    ensures Reborn(s.txns[t], s'.txns[t])
  {
    Rebirth(s, t, keep);
  }

  /** It is in the log, and its id is not given out again. */
  lemma SurvivorId(s: State, s': State, keep: nat, kept: map<Version, Value>, t: Id)
    requires keep <= |s.wal| && s' == Reopen(Tick(s), s.wal[..keep], kept) && t in s'.txns
    ensures t < s'.nextId && Proj(s'.wal, t) != []
  {
    IdAtMost(s'.wal, t);
  }

  lemma CrashTxn(s: State, s': State, keep: nat, kept: map<Version, Value>, t: Id)
    requires Recovers(s, s', keep, kept) && t in s'.txns
    ensures PhaseOk(s', t) && LogOk(s', t)
  {
    Survivor(s, s', keep, kept, t);
    SurvivorId(s, s', keep, kept, t);
    assert LogOk(s, t);
    CutLog(s, t, keep);
    RebornPhase(s, s', t);
    if !s'.txns[t].phase.Lost? { RebornLog(s.txns[t], s'.txns[t]); }
  }

  lemma CrashWal(s: State, s': State, keep: nat, kept: map<Version, Value>)
    requires Recovers(s, s', keep, kept)
    ensures WalOk(s')
  {
    forall i | 0 <= i < |s'.wal| ensures s'.wal[i].txn in s'.txns {
      assert s'.wal[i] == s.wal[i];
      RecordInProj(s'.wal, i);
    }
    forall v | v in s'.store ensures s'.store[v] != Some([0]) { ReplayedClean(kept, s'.wal, |s'.wal|, v); }
    forall v | v in s'.cut ensures v.1 < s'.clock { CutBelow(s, s', keep, kept, v); }
  }

  /** A version is cut after recovery if it was before, or if its owner was applying it. */
  lemma CutByCrash(s: State, s': State, keep: nat, kept: map<Version, Value>, v: Version)
    requires Recovers(s, s', keep, kept)
    ensures v in s'.cut <==>
            v in s.cut || exists c :: Source(s, c, v.0, v.1) && s.txns[c].phase.Applying?
  {
    if v in s'.cut && v !in s.cut {
      var c :| c in s.txns && s.txns[c].phase.Applying? && v in VersionsOf(s.txns[c].writes, s.txns[c].phase.ts);
      WroteKey(s.txns[c].writes, v.0);
      assert Source(s, c, v.0, v.1);
    }
    forall c | Source(s, c, v.0, v.1) && s.txns[c].phase.Applying? ensures v in s'.cut {
      WroteKey(s.txns[c].writes, v.0);
      assert v in VersionsOf(s.txns[c].writes, s.txns[c].phase.ts);
    }
  }

  lemma CutBelow(s: State, s': State, keep: nat, kept: map<Version, Value>, v: Version)
    requires Recovers(s, s', keep, kept) && v in s'.cut
    ensures v.1 < s'.clock
  {
    CutByCrash(s, s', keep, kept, v);
    if v !in s.cut {
      var c :| Source(s, c, v.0, v.1) && s.txns[c].phase.Applying?;
      assert PhaseOk(s, c);
    }
  }

  /** A version after recovery was there before, or is one that a COMMIT record restores. */
  lemma CrashVersion(s: State, s': State, keep: nat, kept: map<Version, Value>, v: Version)
    requires Recovers(s, s', keep, kept) && v in s'.store
    ensures v in s.store
  {
    ReplayedOnly(kept, s'.wal, |s'.wal|, v);
    if v !in kept {
      var i :| 0 <= i < |s'.wal| && s'.wal[i].kind == Commit(v.1)
          && LastWrite(WritesOf(Proj(s'.wal[..i], s'.wal[i].txn)), v.0).Some?;
      var t := s'.wal[i].txn;
      CommitRecord(s, s', keep, kept, i);
      assert StoreOk(s, t, v.0, v.1);
    }
  }

  /** A COMMIT record in the surviving log: its transaction committed, with this timestamp and with the
      writes in front of the record. */
  lemma CommitRecord(s: State, s': State, keep: nat, kept: map<Version, Value>, i: nat)
    requires Recovers(s, s', keep, kept) && i < |s'.wal| && s'.wal[i].kind.Commit?
    ensures var t := s'.wal[i].txn;
            && t in s.txns && (s.txns[t].phase.Logged? || s.txns[t].phase.Committed?)
            && Ts(s.txns[t]) == s'.wal[i].kind.ts
            && WritesOf(Proj(s'.wal[..i], t)) <= s.txns[t].writes
            && (forall k :: LastWrite(WritesOf(Proj(s'.wal[..i], t)), k).Some? ==> Wrote(s.txns[t], k))
  {
    var t := s'.wal[i].txn;
    assert s.wal[i] == s'.wal[i];
    assert PhaseOk(s, t) && LogOk(s, t);
    assert s'.wal[..i] == s.wal[..i];
    CommitSays(s, t, i);
  }

  lemma CommitSays(s: State, t: Id, i: nat)
    requires i < |s.wal| && s.wal[i].txn == t && s.wal[i].kind.Commit? && t in s.txns && PhaseOk(s, t) && LogOk(s, t)
    ensures (s.txns[t].phase.Logged? || s.txns[t].phase.Committed?) && Ts(s.txns[t]) == s.wal[i].kind.ts
    ensures WritesOf(Proj(s.wal[..i], t)) <= s.txns[t].writes
    ensures forall k :: LastWrite(WritesOf(Proj(s.wal[..i], t)), k).Some? ==> Wrote(s.txns[t], k)
  {
    RecordInProj(s.wal, i);
    CommitInExpected(s.txns[t], s.wal[i].kind);
    ProjPrefix(s.wal, i, t);
    ExpectedSays(s.txns[t]);
    WritesPrefix(Proj(s.wal[..i], t), Expected(s.txns[t]));
    var a, b := WritesOf(Proj(s.wal[..i], t)), s.txns[t].writes;
    assert b[..|a|] == a;
    forall k { LastSplit(b, |a|, k); }
  }

  lemma CommitInExpected(x: Txn, k: Kind)
    requires k.Commit? && k in Expected(x)
    ensures (x.phase.Logged? || x.phase.Committed?) && x.phase.ts == k.ts
  {
    var i :| 0 <= i < |Expected(x)| && Expected(x)[i] == k;
  }

  lemma {:induction false} WritesPrefix(p: seq<Kind>, q: seq<Kind>)
    requires p <= q
    ensures WritesOf(p) <= WritesOf(q)
    decreases |q|
  {
    if |p| < |q| {
      WritesPrefix(p, q[..|q| - 1]);
    } else {
      assert p == q;
    }
  }

  lemma CrashLocks(s: State, s': State, keep: nat, kept: map<Version, Value>, t: Id, k: Key)
    requires Recovers(s, s', keep, kept) && t in s'.txns
    ensures LocksOk(s', t, k)
  {
    Survivor(s, s', keep, kept, t);
    if Live(s'.txns[t]) && Wrote(s'.txns[t], k) {
      HasClaimant(s'.txns, t, k);
      WasOwner(s, s', keep, kept, t, k);
      WasOwner(s, s', keep, kept, s'.owner[k], k);
    }
  }

  /** Whoever claims a key after recovery had it before. */
  lemma WasOwner(s: State, s': State, keep: nat, kept: map<Version, Value>, t: Id, k: Key)
    requires Recovers(s, s', keep, kept) && Claims(s'.txns, t, k)
    ensures k in s.owner && s.owner[k] == t
  {
    Survivor(s, s', keep, kept, t);
    assert LocksOk(s, t, k);
  }

  lemma HasClaimant(txns: map<Id, Txn>, t: Id, k: Key)
    requires Claims(txns, t, k)
    ensures k in Relocked(txns) && Claims(txns, Relocked(txns)[k], k)
  {
    WroteKey(txns[t].writes, k);
  }

  lemma LocksExact(s: State, s': State, keep: nat, kept: map<Version, Value>, t: Id, k: Key)
    requires Recovers(s, s', keep, kept)
    ensures (k in s'.owner && s'.owner[k] == t) <==> Claims(s'.txns, t, k)
  {
    if k in s'.owner && s'.owner[k] == t { CrashOwner(s, s', keep, kept, k); }
    if Claims(s'.txns, t, k) { CrashLocks(s, s', keep, kept, t, k); }
  }

  lemma CrashOwner(s: State, s': State, keep: nat, kept: map<Version, Value>, k: Key)
    requires Recovers(s, s', keep, kept) && k in s'.owner
    ensures OwnerOk(s', k) && Claims(s'.txns, s'.owner[k], k)
  {
    var t :| t in s'.txns && s'.txns[t].phase.Prepared? && k in KeysOf(s'.txns[t].writes);
    WroteKey(s'.txns[t].writes, k);
    assert Claims(s'.txns, t, k);
  }

  /** Recovery restores the last write per key of every committed transaction. */
  lemma CrashStore(s: State, s': State, keep: nat, kept: map<Version, Value>, c: Id, k: Key, ts: nat)
    requires Recovers(s, s', keep, kept)
    ensures StoreOk(s', c, k, ts)
  {
    if Writer(s', c, k, ts) {
      Survivor(s, s', keep, kept, c);
      SurvivorId(s, s', keep, kept, c);
      CrashTxn(s, s', keep, kept, c);
      var i := LastRecord(s'.wal, c);
      LastIsCommit(s'.txns[c], Proj(s'.wal[..i], c), s'.wal[i].kind);
      CommitsDiffer(s, s', keep, kept, i);
      ReplayedValue(kept, s'.wal, |s'.wal|, i, k);
    }
  }

  lemma LastIsCommit(x: Txn, p: seq<Kind>, last: Kind)
    requires x.phase.Committed? && Expected(x) == p + [last]
    ensures last == Commit(x.phase.ts) && WritesOf(p) == x.writes
  {
    ExpectedSays(x);
    WritesAppend(p, last);
  }

  lemma CommitsDiffer(s: State, s': State, keep: nat, kept: map<Version, Value>, i: nat)
    requires Recovers(s, s', keep, kept) && i < |s'.wal| && LastOf(s'.wal, i) && s'.wal[i].kind.Commit?
    ensures forall j :: 0 <= j < |s'.wal| && j != i && s'.wal[j].kind.Commit? && LastOf(s'.wal, j) ==>
              s'.wal[j].kind.ts != s'.wal[i].kind.ts
  {
    CommitRecord(s, s', keep, kept, i);
    forall j | 0 <= j < |s'.wal| && j != i && s'.wal[j].kind.Commit? && LastOf(s'.wal, j)
      ensures s'.wal[j].kind.ts != s'.wal[i].kind.ts
    {
      CommitRecord(s, s', keep, kept, j);
      assert TsOk(s, s'.wal[i].txn, s'.wal[j].txn);
    }
  }

  lemma CrashPair(s: State, s': State, keep: nat, kept: map<Version, Value>, x: Id, y: Id, k: Key)
    requires Recovers(s, s', keep, kept) && x in s'.txns && y in s'.txns
    ensures PairOk(s', x, y, k) && TsOk(s', x, y)
  {
    Survivor(s, s', keep, kept, x);
    Survivor(s, s', keep, kept, y);
    assert TsOk(s, x, y) && PairOk(s, x, y, k) && PairOk(s, y, x, k) && LocksOk(s, x, k) && LocksOk(s, y, k);
    RebornPair(s, s', x, y, k);
  }

  lemma RebornPair(s: State, s': State, x: Id, y: Id, k: Key)
    requires x in s.txns && y in s.txns && x in s'.txns && y in s'.txns
    requires Reborn(s.txns[x], s'.txns[x]) && Reborn(s.txns[y], s'.txns[y]) && PhaseOk(s, x) && PhaseOk(s, y)
    requires TsOk(s, x, y) && PairOk(s, x, y, k) && PairOk(s, y, x, k) && LocksOk(s, x, k) && LocksOk(s, y, k)
    ensures PairOk(s', x, y, k) && TsOk(s', x, y)
  {}

  // ---- Reads across a crash ----

  lemma CrashStamp(s: State, s': State, keep: nat, kept: map<Version, Value>, ts: nat)
    requires Recovers(s, s', keep, kept) && OldStamp(s, ts)
    ensures OldStamp(s', ts)
  {
    forall u | u in s'.txns && s'.txns[u].drawn == Some(ts) ensures s'.txns[u].prepared.Some? {
      Survivor(s, s', keep, kept, u);
    }
  }

  /** A committed transaction survives as one. */
  lemma CommittedSurvives(s: State, s': State, keep: nat, kept: map<Version, Value>, c: Id)
    requires Recovers(s, s', keep, kept) && c in s.txns && (s.txns[c].phase.Logged? || s.txns[c].phase.Committed?)
    ensures c in s'.txns && s'.txns[c].phase == Committed(Ts(s.txns[c])) && s'.txns[c].writes == s.txns[c].writes
  {
    assert PhaseOk(s, c) && LogOk(s, c);
    CutLog(s, c, keep);
    Survivor(s, s', keep, kept, c);
  }

  lemma CrashExplained(s: State, s': State, keep: nat, kept: map<Version, Value>, k: Key, ts: nat)
    requires Recovers(s, s', keep, kept) && Explained(s, k, ts)
    ensures Explained(s', k, ts)
  {
    CutByCrash(s, s', keep, kept, (k, ts));
    if (k, ts) !in s'.cut {
      var c :| Source(s, c, k, ts);
      CommittedSurvives(s, s', keep, kept, c);
      assert Source(s', c, k, ts);
    }
  }

  lemma CrashCut(s: State, s': State, keep: nat, kept: map<Version, Value>, k: Key, ts: nat, c: Id)
    requires Recovers(s, s', keep, kept)
    ensures VersionOk(s', k, ts) && CutOk(s', c, k, ts)
  {
    if (k, ts) in s'.store {
      CrashVersion(s, s', keep, kept, (k, ts));
      assert VersionOk(s, k, ts);
      CrashStamp(s, s', keep, kept, ts);
      CrashExplained(s, s', keep, kept, k, ts);
    }
    if Source(s', c, k, ts) {
      Survivor(s, s', keep, kept, c);
      assert CutOk(s, c, k, ts);
      CutByCrash(s, s', keep, kept, (k, ts));
      forall d | Source(s, d, k, ts) ensures d == c { assert TsOk(s, c, d); }
    }
  }

  lemma CrashRead(s: State, s': State, keep: nat, kept: map<Version, Value>, t: Id, i: nat)
    requires Recovers(s, s', keep, kept) && t in s'.txns && i < |s'.txns[t].readSet|
    ensures ReadOk(s', t, i)
  {
    Survivor(s, s', keep, kept, t);
    assert ReadOk(s, t, i);
    var r := s.txns[t].readSet[i];
    CrashStamp(s, s', keep, kept, r.version);
    CrashExplained(s, s', keep, kept, r.key, r.version);
    forall c | MaySource(s', c, r.key, r.version) ensures r.settled <==> Wins(s', c, r) {
      CrashWins(s, s', keep, kept, c, r);
    }
  }

  lemma CrashWins(s: State, s': State, keep: nat, kept: map<Version, Value>, c: Id, r: ReadEntry)
    requires Recovers(s, s', keep, kept) && MaySource(s', c, r.key, r.version)
    ensures MaySource(s, c, r.key, r.version) && (Wins(s', c, r) <==> Wins(s, c, r))
  {
    Survivor(s, s', keep, kept, c);
    RebornSource(s, s', c, r.key, r.version);
  }

  lemma RebornSource(s: State, s': State, c: Id, k: Key, ts: nat)
    requires c in s.txns && c in s'.txns && PhaseOk(s, c) && Reborn(s.txns[c], s'.txns[c]) && MaySource(s', c, k, ts)
    ensures MaySource(s, c, k, ts) && s'.txns[c].writes == s.txns[c].writes
  {}

  lemma CrashValid(s: State, s': State, keep: nat, kept: map<Version, Value>, t: Id, i: nat)
    requires Recovers(s, s', keep, kept) && t in s'.txns && i < |s'.txns[t].readSet|
    ensures ValidOk(s', t, i)
  {
    Survivor(s, s', keep, kept, t);
    assert ValidOk(s, t, i);
    if i < Checked(s'.txns[t]) {
      forall v | v in s'.txns[t].readSet[i].checked ensures OldStamp(s', v.1) { CrashStamp(s, s', keep, kept, v.1); }
    }
  }

  lemma CrashSeen(s: State, s': State, keep: nat, kept: map<Version, Value>, t: Id, i: nat, x: Id, y: Id)
    requires Recovers(s, s', keep, kept) && t in s'.txns && i < |s'.txns[t].readSet| && x in s'.txns && y in s'.txns
    ensures SeenOk(s', t, i, x, y)
  {
    Survivor(s, s', keep, kept, t);
    Survivor(s, s', keep, kept, x);
    Survivor(s, s', keep, kept, y);
    var k := s.txns[t].readSet[i].key;
    assert SeenOk(s, t, i, x, y) && PairOk(s, y, x, k) && LocksOk(s, x, k) && LocksOk(s, y, k);
    RebornSeen(s, s', t, i, x, y);
  }

  lemma RebornSeen(s: State, s': State, t: Id, i: nat, x: Id, y: Id)
    requires t in s.txns && x in s.txns && y in s.txns && t in s'.txns && x in s'.txns && y in s'.txns
    requires Reborn(s.txns[t], s'.txns[t]) && Reborn(s.txns[x], s'.txns[x]) && Reborn(s.txns[y], s'.txns[y])
    requires PhaseOk(s, t) && PhaseOk(s, x) && PhaseOk(s, y) && i < |s.txns[t].readSet|
    requires var k := s.txns[t].readSet[i].key;
             SeenOk(s, t, i, x, y) && PairOk(s, y, x, k) && LocksOk(s, x, k) && LocksOk(s, y, k)
    ensures SeenOk(s', t, i, x, y)
  {}

  lemma CrashSealed(s: State, s': State, keep: nat, kept: map<Version, Value>, t: Id, i: nat, c: Id)
    requires Recovers(s, s', keep, kept) && t in s'.txns && i < |s'.txns[t].readSet| && c in s'.txns
    ensures SealedOk(s', t, i, c)
  {
    Survivor(s, s', keep, kept, t);
    Survivor(s, s', keep, kept, c);
    assert SealedOk(s, t, i, c);
  }

  lemma CrashReads(s: State, s': State, keep: nat, kept: map<Version, Value>)
    requires Recovers(s, s', keep, kept)
    ensures forall k, ts {:trigger VersionOk(s', k, ts)} :: VersionOk(s', k, ts)
    ensures forall c, k, ts {:trigger CutOk(s', c, k, ts)} :: CutOk(s', c, k, ts)
    ensures forall t, i {:trigger ReadOk(s', t, i)} :: t in s'.txns && 0 <= i < |s'.txns[t].readSet| ==>
            ReadOk(s', t, i)
    ensures forall t, i {:trigger ValidOk(s', t, i)} :: t in s'.txns && 0 <= i < |s'.txns[t].readSet| ==>
            ValidOk(s', t, i)
    ensures forall t, i, c {:trigger SealedOk(s', t, i, c)} ::
              t in s'.txns && 0 <= i < |s'.txns[t].readSet| && c in s'.txns ==> SealedOk(s', t, i, c)
    ensures forall t, i, x, y {:trigger SeenOk(s', t, i, x, y)} ::
              t in s'.txns && 0 <= i < |s'.txns[t].readSet| && x in s'.txns && y in s'.txns ==> SeenOk(s', t, i, x, y)
  {
    forall t, i, c | t in s'.txns && 0 <= i < |s'.txns[t].readSet| && c in s'.txns ensures SealedOk(s', t, i, c) {
      CrashSealed(s, s', keep, kept, t, i, c);
    }
    forall k, ts ensures VersionOk(s', k, ts) { CrashCut(s, s', keep, kept, k, ts, 0); }
    forall c, k, ts ensures CutOk(s', c, k, ts) { CrashCut(s, s', keep, kept, k, ts, c); }
    forall t, i | t in s'.txns && 0 <= i < |s'.txns[t].readSet| ensures ReadOk(s', t, i) && ValidOk(s', t, i) {
      CrashRead(s, s', keep, kept, t, i);
      CrashValid(s, s', keep, kept, t, i);
    }
    forall t, i, x, y | t in s'.txns && 0 <= i < |s'.txns[t].readSet| && x in s'.txns && y in s'.txns
      ensures SeenOk(s', t, i, x, y)
    {
      CrashSeen(s, s', keep, kept, t, i, x, y);
    }
  }

  lemma CrashStep(s: State, s': State, keep: nat, kept: map<Version, Value>)
    requires Recovers(s, s', keep, kept)
    ensures Inv(s')
  {
    CrashWal(s, s', keep, kept);
    forall t | t in s'.txns ensures PhaseOk(s', t) && LogOk(s', t) { CrashTxn(s, s', keep, kept, t); }
    forall t, k | t in s'.txns ensures LocksOk(s', t, k) { CrashLocks(s, s', keep, kept, t, k); }
    forall k | k in s'.owner ensures OwnerOk(s', k) { CrashOwner(s, s', keep, kept, k); }
    forall c, k, ts ensures StoreOk(s', c, k, ts) { CrashStore(s, s', keep, kept, c, k, ts); }
    forall x, y, k | x in s'.txns && y in s'.txns ensures PairOk(s', x, y, k) && TsOk(s', x, y) {
      CrashPair(s, s', keep, kept, x, y, k);
    }
    forall x, y | x in s'.txns && y in s'.txns ensures TsOk(s', x, y) {
      CrashPair(s, s', keep, kept, x, y, Key(0, []));
    }
    CrashReads(s, s', keep, kept);
  }
}
