/** From every reachable state: a transaction whose reads nobody has overtaken can prepare and commit, by
    its own steps alone. */
module TxnProgress {
  import opened ByteStrings
  import opened TxnModel
  import I = TxnInvariant
  import M = TxnManager
  import S = TxnSafety

  lemma Go(run: seq<Step>, step: Step) returns (run': seq<Step>)
    ensures run <= run' && After(run') == Take(After(run), step)
  {
    run' := run + [step];
    AfterNext(run, step);
  }

  lemma {:induction false} GoAgain(run: seq<Step>, step: Step, n: nat) returns (run': seq<Step>)
    ensures run <= run' && After(run') == M.Again(After(run), step, n)
  {
    if n == 0 {
      run' := run;
    } else {
      run' := GoAgain(run, step, n - 1);
      M.AgainNext(After(run), step, n - 1);
      run' := Go(run', step);
    }
  }

  // ---- Prepare ----

  /** Each read still has the newest version of its key, and that is no tombstone. */
  ghost predicate Fresh(s: State, x: Txn) {
    forall i {:trigger x.readSet[i]} :: 0 <= i < |x.readSet| ==>
      var r := x.readSet[i];
      && (r.key, r.version) in s.store && s.store[(r.key, r.version)].Some?
      && forall w: nat {:trigger (r.key, w) in s.store} :: (r.key, w) in s.store ==> w <= r.version
  }

  lemma FreshHolds(s: State, t: Id)
    requires I.Inv(s) && t in s.txns && Fresh(s, s.txns[t])
    ensures M.Holds(s.store, s.txns[t].(drawn := Some(s.clock)), |s.txns[t].readSet|)
  {
    var x := s.txns[t];
    forall i | 0 <= i < |x.readSet| ensures Unchanged(s.store, x.readSet[i], s.clock) {
      var r := x.readSet[i];
      assert I.VersionOk(s, r.key, r.version);
    }
  }

  /** What is left of t once it has prepared with timestamp ts: only t and the log have changed. */
  ghost predicate Prepares(s: State, s': State, t: Id, ts: nat) {
    && t in s.txns && t in s'.txns && s'.txns == s.txns[t := s'.txns[t]]
    && s'.txns[t].phase == Prepared && s'.txns[t].drawn == Some(ts) && s'.txns[t].writes == s.txns[t].writes
    && s'.store == s.store && s'.owner == s.owner && s'.wal == s.wal + [Record(t, Prepare(ts))]
  }

  lemma PrepareAlone(run: seq<Step>, t: Id) returns (run': seq<Step>)
    requires Is(After(run), t, Active) && After(run).txns[t].pending == None && After(run).txns[t].drawn == None
    requires Fresh(After(run), After(run).txns[t])
    ensures run <= run' && Prepares(After(run), After(run'), t, After(run).clock)
  {
    var s := After(run);
    var x, n := s.txns[t], |s.txns[t].readSet|;
    S.AlwaysInv(run);
    FreshHolds(s, t);
    run' := Go(run, Draw(t));
    var s1 := After(run');
    run' := Go(run', StartPrepare(t));
    run' := GoAgain(run', CheckNext(t), n);
    run' := Go(run', FinishPrepare(t));
    ChecksPass(s1, t, n, M.Transaction(x.snapshot, s.clock, true, x.writes, []));
  }

  lemma ChecksPass(s: State, t: Id, n: nat, e: M.Transaction)
    requires Enabled(s, StartPrepare(t)) && n == |s.txns[t].readSet| && M.Holds(s.store, s.txns[t], n)
    requires s.txns[t].pending == None && s.txns[t].drawn == Some(e.prepareTs)
    requires e == M.Transaction(s.txns[t].snapshot, e.prepareTs, true, s.txns[t].writes, [])
    ensures Prepares(s, Take(M.Validated(s, t, n), FinishPrepare(t)), t, e.prepareTs)
  {
    M.PreparedIs(s, t, n, e);
  }

  // ---- Commit ----

  /** n writes of t are in the store at ts. */
  ghost predicate HasPut(s: State, s': State, t: Id, ts: nat, n: nat) {
    && t in s.txns && n <= |s.txns[t].writes| && s'.store == PutAll(s.store, s.txns[t].writes[..n], ts)
    && s'.txns == s.txns[t := s.txns[t].(phase := Applying(ts, n))]
    && s'.owner == s.owner && s'.wal == s.wal
  }

  lemma {:induction false} Puts(s: State, t: Id, ts: nat, n: nat)
    requires Is(s, t, Applying(ts, 0)) && n <= |s.txns[t].writes|
    ensures HasPut(s, M.Again(s, PutNext(t), n), t, ts, n)
  {
    if n == 0 {
      assert s.txns[t := s.txns[t].(phase := Applying(ts, 0))] == s.txns;
    } else {
      Puts(s, t, ts, n - 1);
      M.AgainNext(s, PutNext(t), n - 1);
      OnePut(s, M.Again(s, PutNext(t), n - 1), t, ts, n - 1);
    }
  }

  lemma OnePut(s: State, s': State, t: Id, ts: nat, n: nat)
    requires HasPut(s, s', t, ts, n) && n < |s.txns[t].writes|
    ensures HasPut(s, Take(s', PutNext(t)), t, ts, n + 1)
  {
    M.PutNextOne(s.store, s.txns[t].writes, n, ts);
  }

  /** t has committed at ts: its writes are in the store, its records in the log, its locks free. */
  ghost predicate Commits(s: State, s': State, t: Id, ts: nat) {
    && t in s.txns && t in s'.txns && s'.txns == s.txns[t := s'.txns[t]] && s'.txns[t].phase == Committed(ts)
    && s'.store == PutAll(s.store, s.txns[t].writes, ts) && s'.owner == Without(s.owner, t)
    && s'.wal == s.wal + [Record(t, Commit(ts))] && s'.synced == |s'.wal|
  }

  lemma CommitAlone(run: seq<Step>, t: Id, ts: nat) returns (run': seq<Step>)
    requires Is(After(run), t, Prepared) && After(run).txns[t].drawn == Some(ts)
    ensures run <= run' && Commits(After(run), After(run'), t, ts)
  {
    var s := After(run);
    var n := |s.txns[t].writes|;
    run' := Go(run, StartCommit(t, false));
    var s1 := After(run');
    run' := GoAgain(run', PutNext(t), n);
    Puts(s1, t, ts, n);
    Closes(s, s1, After(run'), t, ts);
    run' := Go(run', LogCommit(t));
    run' := Go(run', ReleaseLocks(t));
  }

  lemma Closes(s: State, s1: State, s2: State, t: Id, ts: nat)
    requires t in s.txns && t in s1.txns && s1.txns == s.txns[t := s1.txns[t]] && s1.txns[t].writes == s.txns[t].writes
    requires s1.store == s.store && s1.owner == s.owner && s1.wal == s.wal
    requires HasPut(s1, s2, t, ts, |s.txns[t].writes|)
    ensures Commits(s, Take(Take(s2, LogCommit(t)), ReleaseLocks(t)), t, ts)
  {
    assert s.txns[t].writes[..|s.txns[t].writes|] == s.txns[t].writes;
  }

  /** Progress: whatever has happened, an active transaction whose reads are still the newest can commit at
      the next timestamp, with all its writes, and lets its locks go. */
  lemma CanCommit(run: seq<Step>, t: Id) returns (run': seq<Step>)
    requires Is(After(run), t, Active) && After(run).txns[t].pending == None && After(run).txns[t].drawn == None
    requires Fresh(After(run), After(run).txns[t])
    ensures run <= run'
    ensures var s, s' := After(run), After(run'); var ts := s.clock;
            && t in s'.txns && s'.txns == s.txns[t := s'.txns[t]] && s'.txns[t].phase == Committed(ts)
            && s'.store == PutAll(s.store, s.txns[t].writes, ts)
            && (forall k :: k in s'.owner <==> k in s.owner && s.owner[k] != t)
            && s'.wal == s.wal + [Record(t, Prepare(ts)), Record(t, Commit(ts))] && s'.synced == |s'.wal|
  {
    var ts := After(run).clock;
    var mid := PrepareAlone(run, t);
    run' := CommitAlone(mid, t, ts);
    assert After(run').wal == After(run).wal + [Record(t, Prepare(ts)), Record(t, Commit(ts))];
  }
}
