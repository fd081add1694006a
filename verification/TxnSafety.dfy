/** What the transaction machine guarantees after every run. */
module TxnSafety {
  import opened ByteStrings
  import opened TxnModel
  import opened TxnInvariant
  import opened TxnSteps
  import opened TxnMoves
  import opened TxnCrash

  lemma {:induction false} AlwaysInv(run: seq<Step>)
    ensures Inv(After(run))
  {
    if run != [] {
      var s, step := After(run[..|run| - 1]), run[|run| - 1];
      AlwaysInv(run[..|run| - 1]);
      if Enabled(s, step) { StepKeepsInv(s, Do(s, step), step); }
      assert After(run) == Take(s, step);
    }
  }

  lemma StepKeepsInv(s: State, s': State, step: Step)
    requires Inv(s) && Enabled(s, step) && s' == Do(s, step)
    ensures Inv(s')
  {
    match step
    case BeginTxn(snapshot) => BeginStep(s, s', snapshot);
    case Read(t, k) => ReadStep(s, s', t, k);
    case Acquire(t, k) => AcquireStep(s, s', t, k);
    case Buffer(t, value) => BufferStep(s, s', t, value);
    case Draw(t) => DrawStep(s, s', t);
    case StartPrepare(t) => StartPrepareStep(s, s', t);
    case CheckNext(t) => CheckStep(s, s', t);
    case FinishPrepare(t) => FinishPrepareStep(s, s', t);
    case StartCommit(t, redraw) => StartCommitStep(s, s', t, redraw);
    case PutNext(t) => PutStep(s, s', t);
    case LogCommit(t) => LogCommitStep(s, s', t);
    case AbortTxn(t) => AbortStep(s, s', t);
    case LogAbort(t) => LogAbortStep(s, s', t);
    case ReleaseLocks(t) => ReleaseStep(s, s', t);
    case Crash(keep, kept) => CrashStep(s, s', keep, kept);
  }

  /** No version in the store has the value that stands for a tombstone. */
  lemma NeverLooksDeleted(run: seq<Step>, v: Version)
    requires v in After(run).store
    ensures After(run).store[v] != Some([0])
  {
    AlwaysInv(run);
  }

  // ---- Lost updates ----

  /** No lost update: of two transactions that decided to commit and wrote the same key, the one with
      the later timestamp, if it read the key, observed the other's version or a newer one. */
  lemma NoLostUpdate(run: seq<Step>, x: Id, y: Id, k: Key, i: nat)
    requires x in After(run).txns && y in After(run).txns
    requires Committing(After(run).txns[x]) && Committing(After(run).txns[y])
    requires Wrote(After(run).txns[x], k) && Wrote(After(run).txns[y], k)
    requires Ts(After(run).txns[x]) < Ts(After(run).txns[y])
    requires i < |After(run).txns[y].readSet| && After(run).txns[y].readSet[i].key == k
    ensures Ts(After(run).txns[x]) <= After(run).txns[y].readSet[i].version
  {
    AlwaysInv(run);
    var s := After(run);
    assert PhaseOk(s, x) && PhaseOk(s, y) && LocksOk(s, x, k) && LocksOk(s, y, k);
    assert PairOk(s, x, y, k) && PairOk(s, y, x, k);
  }

  // ---- Recovery ----

  /** The state recovery makes of a run that crashed. */
  ghost function Recovered(run: seq<Step>, keep: nat, kept: map<Version, Value>): State
    requires Enabled(After(run), Crash(keep, kept))
  {
    After(run + [Crash(keep, kept)])
  }

  lemma RecoveredIs(run: seq<Step>, keep: nat, kept: map<Version, Value>)
    requires Enabled(After(run), Crash(keep, kept))
    ensures Recovers(After(run), Recovered(run, keep, kept), keep, kept)
    ensures Recovered(run, keep, kept).wal == After(run).wal[..keep]
  {
    AlwaysInv(run);
    AfterNext(run, Crash(keep, kept));
  }

  /** Recovery from any log prefix that keeps the synced records brings back exactly the transactions
      that had prepared and not ended, each prepared again with its timestamp, snapshot and write set. */
  lemma RecoveryRevives(run: seq<Step>, keep: nat, kept: map<Version, Value>, t: Id)
    requires Enabled(After(run), Crash(keep, kept)) && t in After(run).txns
    ensures var x, s' := After(run).txns[t], Recovered(run, keep, kept);
            if x.prepared.Some? && !Ended(x) then
              && t in s'.txns && s'.txns[t].phase == Prepared && s'.txns[t].prepared == x.prepared
              && s'.txns[t].snapshot == x.snapshot && s'.txns[t].writes == x.writes
            else t in s'.txns ==> !Live(s'.txns[t])
  {
    var s, s' := After(run), Recovered(run, keep, kept);
    RecoveredIs(run, keep, kept);
    assert PhaseOk(s, t) && LogOk(s, t);
    CutLog(s, t, keep);
    if t in s'.txns { Survivor(s, s', keep, kept, t); }
  }

  /** Every committed transaction has its last write of every key in the store at its timestamp. */
  lemma RecoveryRestores(run: seq<Step>, keep: nat, kept: map<Version, Value>, t: Id, k: Key)
    requires Enabled(After(run), Crash(keep, kept)) && t in After(run).txns
    requires After(run).txns[t].phase.Logged? || After(run).txns[t].phase.Committed?
    requires Wrote(After(run).txns[t], k)
    ensures var x, s' := After(run).txns[t], Recovered(run, keep, kept);
            (k, Ts(x)) in s'.store && Some(s'.store[(k, Ts(x))]) == Kept(LastWrite(x.writes, k))
  {
    var s, s' := After(run), Recovered(run, keep, kept);
    RecoveredIs(run, keep, kept);
    assert PhaseOk(s, t) && LogOk(s, t);
    CutLog(s, t, keep);
    Survivor(s, s', keep, kept, t);
    CrashStore(s, s', keep, kept, t, k, Ts(s.txns[t]));
  }

  /** Recovery locks exactly the keys of the prepared transactions, each for its transaction. */
  lemma RecoveryLocks(run: seq<Step>, keep: nat, kept: map<Version, Value>, k: Key, t: Id)
    requires Enabled(After(run), Crash(keep, kept))
    ensures var s' := Recovered(run, keep, kept);
            (k in s'.owner && s'.owner[k] == t) <==> Claims(s'.txns, t, k)
  {
    RecoveredIs(run, keep, kept);
    LocksExact(After(run), Recovered(run, keep, kept), keep, kept, t, k);
  }

  /** No id that is still in the log is given out again. */
  lemma RecoveryIds(run: seq<Step>, keep: nat, kept: map<Version, Value>, i: nat)
    requires Enabled(After(run), Crash(keep, kept)) && i < keep
    ensures After(run).wal[i].txn < Recovered(run, keep, kept).nextId
  {
    RecoveredIs(run, keep, kept);
    var wal := After(run).wal[..keep];
    RecordInProj(wal, i);
    IdAtMost(wal, wal[i].txn);
  }

  /** Two transactions that a durable log prefix leaves prepared wrote different keys, so recovery
      never waits for a lock. */
  lemma RecoveryNeverWaits(run: seq<Step>, keep: nat, t: Id, u: Id, k: Key)
    requires After(run).synced <= keep <= |After(run).wal| && t != u
    requires LastKind(After(run).wal[..keep], t).Some? && LastKind(After(run).wal[..keep], t).value.Prepare?
    requires LastKind(After(run).wal[..keep], u).Some? && LastKind(After(run).wal[..keep], u).value.Prepare?
    ensures k !in KeysOf(WritesOf(Proj(After(run).wal[..keep], t)))
            || k !in KeysOf(WritesOf(Proj(After(run).wal[..keep], u)))
  {
    var s := After(run);
    AlwaysInv(run);
    LeftPrepared(s, keep, t, k);
    LeftPrepared(s, keep, u, k);
  }

  lemma LeftPrepared(s: State, keep: nat, t: Id, k: Key)
    requires Inv(s) && s.synced <= keep <= |s.wal|
    requires LastKind(s.wal[..keep], t).Some? && LastKind(s.wal[..keep], t).value.Prepare?
    ensures k in KeysOf(WritesOf(Proj(s.wal[..keep], t))) ==> k in s.owner && s.owner[k] == t
  {
    var i := LastRecord(s.wal[..keep], t);
    assert s.wal[i].txn == t;
    assert PhaseOk(s, t) && LogOk(s, t) && LocksOk(s, t, k);
    CutLog(s, t, keep);
    ExpectedSays(s.txns[t]);
    WroteKey(s.txns[t].writes, k);
  }
}
