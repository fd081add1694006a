/** The individual steps: each frames the rest of the state and keeps its own transaction in order. */
module TxnMoves {
  import opened ByteStrings
  import opened TxnModel
  import opened TxnInvariant
  import opened TxnSteps

  /** The pieces a step must bring along for a transaction whose write set and locks it keeps. */
  lemma KeptLocks(s: State, s': State, t: Id)
    requires Inv(s) && t in s.txns && t in s'.txns && s'.owner == s.owner
    requires Live(s'.txns[t]) ==> Live(s.txns[t])
    requires s'.txns[t].writes == s.txns[t].writes && s'.txns[t].pending == s.txns[t].pending
    ensures forall k {:trigger LocksOk(s', t, k)} :: LocksOk(s', t, k)
  {
    forall k ensures LocksOk(s', t, k) { assert LocksOk(s, t, k); }
  }

  lemma NoWriter(s': State, t: Id)
    requires t in s'.txns && (!Committing(s'.txns[t]) || (s'.txns[t].phase.Applying? && s'.txns[t].phase.done == 0))
    ensures forall k, ts {:trigger StoreOk(s', t, k, ts)} :: StoreOk(s', t, k, ts)
    ensures forall y, k {:trigger PairOk(s', t, y, k)} :: y in s'.txns ==> PairOk(s', t, y, k)
    ensures !Committing(s'.txns[t]) ==> forall k, ts {:trigger CutOk(s', t, k, ts)} :: CutOk(s', t, k, ts)
  {}

  /** A commit under way keeps clear of the cut versions. */
  lemma KeptCut(s: State, s': State, t: Id)
    requires Inv(s) && t in s.txns && t in s'.txns && s'.cut == s.cut
    requires Committing(s.txns[t]) && Committing(s'.txns[t]) && Ts(s'.txns[t]) == Ts(s.txns[t])
    requires s'.txns[t].writes == s.txns[t].writes
    ensures forall k, ts {:trigger CutOk(s', t, k, ts)} :: CutOk(s', t, k, ts)
  {
    forall k, ts ensures CutOk(s', t, k, ts) { assert CutOk(s, t, k, ts); }
  }

  /** The pairs (x, t) survive a step that changes neither the write set nor the timestamp drawn. */
  lemma KeptPairs(s: State, s': State, t: Id)
    requires Inv(s) && OnlyTxn(s, s', t) && StoreFrame(s, s', t) && t in s.txns
    requires s'.txns[t].writes == s.txns[t].writes && s'.txns[t].drawn == s.txns[t].drawn
    requires s'.txns[t].prepared == s.txns[t].prepared
    requires Checked(s'.txns[t]) <= Checked(s.txns[t])
    requires forall i :: 0 <= i < Checked(s'.txns[t]) ==> s'.txns[t].readSet[i] == s.txns[t].readSet[i]
    requires Live(s.txns[t]) && !Committing(s'.txns[t])
    ensures forall x, k {:trigger PairOk(s', x, t, k)} :: x in s'.txns ==> PairOk(s', x, t, k)
  {
    forall x, k | x in s'.txns ensures PairOk(s', x, t, k) {
      if x != t { assert PairOk(s, x, t, k); }
    }
  }

  lemma BeginFrame(s: State, s': State, snapshot: nat)
    requires s' == DoBegin(Tick(s), snapshot) && s.nextId !in s.txns && forall k :: k in s.owner ==>
             s.owner[k] != s.nextId
    ensures Frame(s, s', s.nextId)
  {}

  lemma ReadFrame(s: State, s': State, t: Id, r: ReadEntry)
    requires Is(s, t, Active) && s' == AddRead(Tick(s), t, r) && s.txns[t].prepared == None
    ensures Frame(s, s', t)
  {}

  lemma AcquireFrame(s: State, s': State, t: Id, k: Key)
    requires Enabled(s, Acquire(t, k)) && s' == DoAcquire(Tick(s), t, k) && s.txns[t].prepared == None
    ensures Frame(s, s', t)
  {}

  lemma BufferFrame(s: State, s': State, t: Id, value: Value)
    requires Enabled(s, Buffer(t, value)) && s' == DoBuffer(Tick(s), t, value) && s.txns[t].prepared == None
    ensures Frame(s, s', t)
  {
    var x := s.txns[t];
    forall k ensures Takes(x, k) ==> Takes(s'.txns[t], k) { LastOne(x.writes, Write(x.pending.value, value), k); }
  }

  lemma DrawFrame(s: State, s': State, t: Id)
    requires Enabled(s, Draw(t)) && s' == DoDraw(Tick(s), t) && s.txns[t].prepared == None
    ensures Frame(s, s', t)
  {}

  lemma StartPrepareFrame(s: State, s': State, t: Id)
    requires Enabled(s, StartPrepare(t)) && s' == DoStartPrepare(Tick(s), t) && s.txns[t].prepared == None
    ensures Frame(s, s', t)
  {}

  lemma PassFrame(s: State, s': State, t: Id)
    requires Enabled(s, CheckNext(t)) && s' == CheckPasses(Tick(s), t) && s.txns[t].prepared == None
    ensures Frame(s, s', t)
  {}

  lemma FailFrame(s: State, s': State, t: Id)
    requires Enabled(s, CheckNext(t)) && s' == CheckFails(Tick(s), t) && s.txns[t].prepared == None
    ensures Frame(s, s', t)
  {}

  lemma FinishPrepareFrame(s: State, s': State, t: Id)
    requires Enabled(s, FinishPrepare(t)) && s' == DoFinishPrepare(Tick(s), t) && s.txns[t].prepared == None
    ensures Frame(s, s', t)
  {}

  lemma StartCommitFrame(s: State, s': State, t: Id, redraw: bool)
    requires Enabled(s, StartCommit(t, redraw)) && s' == DoStartCommit(Tick(s), t, redraw) && PhaseOk(s, t)
    ensures Frame(s, s', t)
  {
    var x := s'.txns[t];
    forall v | v in s.cut && v !in s'.cut ensures Source(s', t, v.0, v.1) { WroteKey(x.writes, v.0); }
  }

  lemma LogCommitFrame(s: State, s': State, t: Id)
    requires Enabled(s, LogCommit(t)) && s' == DoLogCommit(Tick(s), t)
    ensures Frame(s, s', t)
  {}

  lemma AbortFrame(s: State, s': State, t: Id)
    requires Enabled(s, AbortTxn(t)) && s' == DoAbort(Tick(s), t)
    ensures Frame(s, s', t)
  {}

  lemma LogAbortFrame(s: State, s': State, t: Id)
    requires Enabled(s, LogAbort(t)) && s' == DoLogAbort(Tick(s), t)
    ensures Frame(s, s', t)
  {}

  lemma ReleaseFrame(s: State, s': State, t: Id)
    requires Enabled(s, ReleaseLocks(t)) && s' == DoRelease(Tick(s), t)
    ensures Frame(s, s', t)
  {}

  lemma PutFrame(s: State, s': State, t: Id)
    requires Enabled(s, PutNext(t)) && s' == DoPut(Tick(s), t)
    ensures Frame(s, s', t)
  {
    var x := s.txns[t];
    LastNext(x.writes, x.phase.done, x.writes[x.phase.done].key);
    assert Writer(s', t, x.writes[x.phase.done].key, x.phase.ts);
  }

  lemma BeginStep(s: State, s': State, snapshot: nat)
    requires Inv(s) && s' == DoBegin(Tick(s), snapshot)
    ensures Inv(s')
  {
    var t := s.nextId;
    forall u | u in s.txns ensures u != t { assert PhaseOk(s, u); }
    forall k | k in s.owner ensures s.owner[k] != t { assert OwnerOk(s, k); }
    NoRecords(s.wal, t);
    ProjAppend(s.wal, Record(t, Begin(snapshot)), t);
    BeginFrame(s, s', snapshot);
    NoWriter(s', t);
    assert LogOk(s', t);
    forall x, k | x in s'.txns ensures PairOk(s', x, t, k) {}
    Advance(s, s', t);
  }

  lemma ReadOwn(s: State, s': State, t: Id, r: ReadEntry)
    requires Inv(s) && Is(s, t, Active) && s' == AddRead(Tick(s), t, r) && ReadOk(s', t, |s.txns[t].readSet|)
    ensures Own(s, s', t)
  {
    assert PhaseOk(s, t) && LogOk(s, t);
    KeptLocks(s, s', t);
    NoWriter(s', t);
    KeptPairs(s, s', t);
  }

  lemma ReadStep(s: State, s': State, t: Id, k: Key)
    requires Inv(s) && Enabled(s, Read(t, k)) && s' == DoRead(Tick(s), t, k)
    ensures Inv(s')
  {
    var r := s'.txns[t].readSet[|s.txns[t].readSet|];
    assert PhaseOk(s, t);
    ReadFrame(s, s', t, r);
    NewRead(s, s', t, k);
    ReadOwn(s, s', t, r);
    Advance(s, s', t);
  }

  /** At the moment of a read, "settled" says exactly that the version's owner ends up with the value. */
  lemma SettledMeansWins(s: State, r: ReadEntry, c: Id)
    requires MaySource(s, c, r.key, r.version) && PhaseOk(s, c) && StoreOk(s, c, r.key, r.version)
    requires (r.key, r.version) in s.store && s.store[(r.key, r.version)] == Some(r.value) && AllTs(s)
    ensures Settled(s, r.key, r.version, r.value) <==> Wins(s, c, r)
  {
    var x := s.txns[c];
    if x.phase.Applying? { LastSplit(x.writes, x.phase.done, r.key); }
    forall u | u in s.txns && u != c ensures ToCome(s.txns[u], r.version) == [] { assert TsOk(s, u, c); }
    assert LastWrite([], r.key) == None;
  }

  lemma NewRead(s: State, s': State, t: Id, k: Key)
    requires Inv(s) && Enabled(s, Read(t, k)) && s' == DoRead(Tick(s), t, k)
    ensures ReadOk(s', t, |s.txns[t].readSet|)
  {
    var g := Get(s.store, k, s.txns[t].snapshot).value;
    var r := ReadEntry(k, g.0, g.1, Settled(Tick(s), k, g.0, g.1), {});
    SameSettled(s, Tick(s), r);
    AddedRead(s, AddRead(Tick(s), t, r), t, r);
  }

  /** A read of a version that is there, marked as settled exactly if it is. */
  lemma AddedRead(s: State, s': State, t: Id, r: ReadEntry)
    requires Inv(s) && Is(s, t, Active) && s' == AddRead(Tick(s), t, r)
    requires (r.key, r.version) in s.store && s.store[(r.key, r.version)] == Some(r.value)
    requires r.settled <==> Settled(s, r.key, r.version, r.value)
    ensures ReadOk(s', t, |s.txns[t].readSet|)
  {
    assert PhaseOk(s, t) && VersionOk(s, r.key, r.version);
    ReadFrame(s, s', t, r);
    StampStays(s, s', t, r.version);
    ExplainedStays(s, s', t, r.key, r.version);
    forall c | MaySource(s', c, r.key, r.version) ensures r.settled <==> Wins(s', c, r) {
      SameSource(s, s', t, r, c);
      ReadWins(s, r, c);
    }
  }

  lemma SameSource(s: State, s': State, t: Id, r: ReadEntry, c: Id)
    requires t in s.txns && s' == AddRead(Tick(s), t, r) && MaySource(s', c, r.key, r.version)
    ensures MaySource(s, c, r.key, r.version) && (Wins(s', c, r) <==> Wins(s, c, r))
  {}

  lemma ReadWins(s: State, r: ReadEntry, c: Id)
    requires Inv(s) && MaySource(s, c, r.key, r.version)
    requires (r.key, r.version) in s.store && s.store[(r.key, r.version)] == Some(r.value)
    ensures Settled(s, r.key, r.version, r.value) <==> Wins(s, c, r)
  {
    assert PhaseOk(s, c) && StoreOk(s, c, r.key, r.version);
    SettledMeansWins(s, r, c);
  }

  lemma SameSettled(s: State, s': State, r: ReadEntry)
    requires s'.txns == s.txns
    ensures Settled(s', r.key, r.version, r.value) <==> Settled(s, r.key, r.version, r.value)
  {}

  lemma AcquireOwn(s: State, s': State, t: Id, k: Key)
    requires Inv(s) && Enabled(s, Acquire(t, k)) && s' == DoAcquire(Tick(s), t, k)
    ensures t in s'.txns && Own(s, s', t)
  {
    assert PhaseOk(s, t) && LogOk(s, t);
    NoNewReads(s, s', t);
    forall j ensures LocksOk(s', t, j) { assert LocksOk(s, t, j); }
    NoWriter(s', t);
    KeptPairs(s, s', t);
  }

  lemma AcquireStep(s: State, s': State, t: Id, k: Key)
    requires Inv(s) && Enabled(s, Acquire(t, k)) && s' == DoAcquire(Tick(s), t, k)
    ensures Inv(s')
  {
    assert PhaseOk(s, t);
    AcquireFrame(s, s', t, k);
    AcquireOwn(s, s', t, k);
    Advance(s, s', t);
  }

  lemma BufferOwn(s: State, s': State, t: Id, value: Value)
    requires Inv(s) && Enabled(s, Buffer(t, value)) && s' == DoBuffer(Tick(s), t, value)
    ensures t in s'.txns && Own(s, s', t)
  {
    var x := s.txns[t];
    assert PhaseOk(s, t) && LogOk(s, t);
    NoNewReads(s, s', t);
    var w := Write(x.pending.value, value);
    ProjAppend(s.wal, Record(t, Put(w)), t);
    assert Puts(x.writes + [w]) == Puts(x.writes) + [Put(w)];
    assert LogOk(s', t);
    forall j ensures LocksOk(s', t, j) { assert LocksOk(s, t, j); LastOne(x.writes, w, j); }
    NoWriter(s', t);
    forall y, k | y in s'.txns ensures PairOk(s', y, t, k) {}
  }

  lemma BufferStep(s: State, s': State, t: Id, value: Value)
    requires Inv(s) && Enabled(s, Buffer(t, value)) && s' == DoBuffer(Tick(s), t, value)
    ensures Inv(s')
  {
    assert PhaseOk(s, t);
    BufferFrame(s, s', t, value);
    BufferOwn(s, s', t, value);
    Advance(s, s', t);
  }

  lemma DrawOwn(s: State, s': State, t: Id)
    requires Inv(s) && Enabled(s, Draw(t)) && s' == DoDraw(Tick(s), t)
    ensures t in s'.txns && Own(s, s', t)
  {
    assert PhaseOk(s, t) && LogOk(s, t);
    NoNewReads(s, s', t);
    KeptLocks(s, s', t);
    NoWriter(s', t);
    forall x, k | x in s'.txns ensures PairOk(s', x, t, k) {
      if x != t { assert PhaseOk(s, x) && PairOk(s, x, t, k); }
    }
  }

  lemma DrawStep(s: State, s': State, t: Id)
    requires Inv(s) && Enabled(s, Draw(t)) && s' == DoDraw(Tick(s), t)
    ensures Inv(s')
  {
    assert PhaseOk(s, t);
    DrawFrame(s, s', t);
    DrawOwn(s, s', t);
    Advance(s, s', t);
  }

  lemma StartPrepareOwn(s: State, s': State, t: Id)
    requires Inv(s) && Enabled(s, StartPrepare(t)) && s' == DoStartPrepare(Tick(s), t)
    ensures t in s'.txns && Own(s, s', t)
  {
    assert PhaseOk(s, t) && LogOk(s, t);
    NoNewReads(s, s', t);
    KeptLocks(s, s', t);
    NoWriter(s', t);
    KeptPairs(s, s', t);
  }

  lemma StartPrepareStep(s: State, s': State, t: Id)
    requires Inv(s) && Enabled(s, StartPrepare(t)) && s' == DoStartPrepare(Tick(s), t)
    ensures Inv(s')
  {
    assert PhaseOk(s, t);
    StartPrepareFrame(s, s', t);
    StartPrepareOwn(s, s', t);
    Advance(s, s', t);
  }

  lemma CheckStep(s: State, s': State, t: Id)
    requires Inv(s) && Enabled(s, CheckNext(t)) && s' == DoCheck(Tick(s), t)
    ensures Inv(s')
  {
    var x := s.txns[t];
    if Unchanged(s.store, x.readSet[x.phase.next], x.drawn.value) { PassStep(s, s', t); } else { FailStep(s, s', t); }
  }

  lemma FailOwn(s: State, s': State, t: Id)
    requires Inv(s) && Enabled(s, CheckNext(t)) && s' == CheckFails(Tick(s), t)
    ensures t in s'.txns && Own(s, s', t)
  {
    assert PhaseOk(s, t) && LogOk(s, t);
    NoNewReads(s, s', t);
    KeptLocks(s, s', t);
    NoWriter(s', t);
    KeptPairs(s, s', t);
  }

  lemma FailStep(s: State, s': State, t: Id)
    requires Inv(s) && Enabled(s, CheckNext(t)) && s' == CheckFails(Tick(s), t)
    ensures Inv(s')
  {
    assert PhaseOk(s, t);
    FailFrame(s, s', t);
    FailOwn(s, s', t);
    Advance(s, s', t);
  }

  ghost predicate Passes(s: State, s': State, t: Id) {
    && Inv(s) && Enabled(s, CheckNext(t)) && s' == CheckPasses(Tick(s), t)
    && Unchanged(s.store, s.txns[t].readSet[s.txns[t].phase.next], s.txns[t].drawn.value)
  }

  lemma PassOwn(s: State, s': State, t: Id)
    requires Passes(s, s', t)
    ensures t in s'.txns && Own(s, s', t)
  {
    assert PhaseOk(s, t) && LogOk(s, t);
    KeptLocks(s, s', t);
    NoWriter(s', t);
    CheckSees(s, s', t);
    CheckValid(s, s', t);
    CheckSeen(s, s', t);
    CheckSealed(s, s', t);
  }

  lemma PassStep(s: State, s': State, t: Id)
    requires Passes(s, s', t)
    ensures Inv(s')
  {
    assert PhaseOk(s, t);
    PassFrame(s, s', t);
    PassOwn(s, s', t);
    Advance(s, s', t);
  }

  /** The version of a transaction whose COMMIT is logged is in the store. */
  lemma SealedThere(s: State, x: Id, k: Key)
    requires Inv(s) && x in s.txns && Sealed(s.txns[x]) && Wrote(s.txns[x], k)
    ensures (k, Ts(s.txns[x])) in s.store
  {
    assert Writer(s, x, k, Ts(s.txns[x]));
    assert StoreOk(s, x, k, Ts(s.txns[x]));
  }

  /** Validation sees every committed version of a key this transaction has locked. */
  lemma CheckSees(s: State, s': State, t: Id)
    requires Passes(s, s', t)
    ensures forall x, k {:trigger PairOk(s', x, t, k)} :: x in s'.txns ==> PairOk(s', x, t, k)
  {
    assert PhaseOk(s, t);
    forall x, k | x in s'.txns ensures PairOk(s', x, t, k) {
      if x != t && s.txns[x].phase.Committed? && Wrote(s.txns[x], k) && Wrote(s.txns[t], k) {
        assert PairOk(s, x, t, k);
        SealedThere(s, x, k);
      }
    }
  }

  lemma CheckValid(s: State, s': State, t: Id)
    requires Passes(s, s', t)
    ensures forall i {:trigger ValidOk(s', t, i)} ::
              0 <= i < |s'.txns[t].readSet| && i >= Checked(s.txns[t]) ==> ValidOk(s', t, i)
  {
    assert PhaseOk(s, t);
    PassFrame(s, s', t);
    forall i | 0 <= i < |s'.txns[t].readSet| && i >= Checked(s.txns[t]) ensures ValidOk(s', t, i) {
      forall v | v in s.store ensures OldStamp(s', v.1) {
        assert VersionOk(s, v.0, v.1);
        StampStays(s, s', t, v.1);
      }
    }
  }

  lemma CheckSeen(s: State, s': State, t: Id)
    requires Passes(s, s', t)
    ensures forall i, x, y {:trigger SeenOk(s', t, i, x, y)} ::
              0 <= i < |s'.txns[t].readSet| && i >= Checked(s.txns[t]) && x in s'.txns && y in s'.txns ==>
                  SeenOk(s', t, i, x, y)
  {
    assert PhaseOk(s, t);
    forall i, x, y | 0 <= i < |s'.txns[t].readSet| && i >= Checked(s.txns[t]) && x in s'.txns && y in s'.txns
      ensures SeenOk(s', t, i, x, y)
    {
      var k := s'.txns[t].readSet[i].key;
      if s'.txns[x].phase.Committed? && Wrote(s'.txns[x], k) { SealedThere(s, x, k); }
    }
  }

  lemma CheckSealed(s: State, s': State, t: Id)
    requires Passes(s, s', t)
    ensures forall i, c {:trigger SealedOk(s', t, i, c)} ::
              0 <= i < |s'.txns[t].readSet| && i >= Checked(s.txns[t]) && c in s'.txns ==> SealedOk(s', t, i, c)
  {
    assert PhaseOk(s, t);
    forall i, c | 0 <= i < |s'.txns[t].readSet| && i >= Checked(s.txns[t]) && c in s'.txns
      ensures SealedOk(s', t, i, c)
    {
      var k := s'.txns[t].readSet[i].key;
      if Sealed(s'.txns[c]) && Wrote(s'.txns[c], k) { SealedThere(s, c, k); }
    }
  }

  lemma FinishPrepareOwn(s: State, s': State, t: Id)
    requires Inv(s) && Enabled(s, FinishPrepare(t)) && s' == DoFinishPrepare(Tick(s), t)
    ensures t in s'.txns && Own(s, s', t)
  {
    assert PhaseOk(s, t) && LogOk(s, t);
    NoNewReads(s, s', t);
    KeptLocks(s, s', t);
    NoWriter(s', t);
    ProjAppend(s.wal, Record(t, Prepare(s.txns[t].drawn.value)), t);
    forall x, k | x in s'.txns ensures PairOk(s', x, t, k) {
      if x != t { assert PairOk(s, x, t, k); }
    }
  }

  lemma FinishPrepareStep(s: State, s': State, t: Id)
    requires Inv(s) && Enabled(s, FinishPrepare(t)) && s' == DoFinishPrepare(Tick(s), t)
    ensures Inv(s')
  {
    assert PhaseOk(s, t);
    FinishPrepareFrame(s, s', t);
    FinishPrepareOwn(s, s', t);
    Advance(s, s', t);
  }

  lemma StartCommitOwn(s: State, s': State, t: Id, redraw: bool)
    requires Inv(s) && Enabled(s, StartCommit(t, redraw)) && s' == DoStartCommit(Tick(s), t, redraw)
    ensures t in s'.txns && Own(s, s', t)
  {
    assert PhaseOk(s, t) && LogOk(s, t);
    NoNewReads(s, s', t);
    KeptLocks(s, s', t);
    NoWriter(s', t);
    forall x, k | x in s'.txns ensures PairOk(s', x, t, k) {
      if x != t { assert PairOk(s, x, t, k); }
    }
    forall k, ts ensures CutOk(s', t, k, ts) { WroteKey(s.txns[t].writes, k); }
  }

  lemma StartCommitStep(s: State, s': State, t: Id, redraw: bool)
    requires Inv(s) && Enabled(s, StartCommit(t, redraw)) && s' == DoStartCommit(Tick(s), t, redraw)
    ensures Inv(s')
  {
    assert PhaseOk(s, t);
    StartCommitFrame(s, s', t, redraw);
    StartCommitOwn(s, s', t, redraw);
    Advance(s, s', t);
  }

  lemma PutOwn(s: State, s': State, t: Id)
    requires Inv(s) && Enabled(s, PutNext(t)) && s' == DoPut(Tick(s), t)
    ensures t in s'.txns && Own(s, s', t)
  {
    var x := s.txns[t];
    assert PhaseOk(s, t) && LogOk(s, t);
    NoNewReads(s, s', t);
    KeptLocks(s, s', t);
    PutStores(s, s', t);
    forall y, j | y in s'.txns ensures PairOk(s', y, t, j) {
      if y != t { assert PairOk(s, y, t, j); }
    }
    KeptCut(s, s', t);
  }

  lemma PutStep(s: State, s': State, t: Id)
    requires Inv(s) && Enabled(s, PutNext(t)) && s' == DoPut(Tick(s), t)
    ensures Inv(s')
  {
    PutFrame(s, s', t);
    PutOwn(s, s', t);
    Advance(s, s', t);
  }

  lemma PutStores(s: State, s': State, t: Id)
    requires Inv(s) && Enabled(s, PutNext(t)) && s' == DoPut(Tick(s), t)
    ensures forall k, ts {:trigger StoreOk(s', t, k, ts)} :: StoreOk(s', t, k, ts)
  {
    var x := s.txns[t];
    forall k, ts ensures StoreOk(s', t, k, ts) {
      assert StoreOk(s, t, k, ts);
      LastNext(x.writes, x.phase.done, k);
    }
  }

  lemma LogCommitOwn(s: State, s': State, t: Id)
    requires Inv(s) && Enabled(s, LogCommit(t)) && s' == DoLogCommit(Tick(s), t)
    ensures t in s'.txns && Own(s, s', t)
  {
    var x := s.txns[t];
    assert PhaseOk(s, t) && LogOk(s, t);
    NoNewReads(s, s', t);
    ProjAppend(s.wal, Record(t, Commit(x.phase.ts)), t);
    KeptLocks(s, s', t);
    KeptCut(s, s', t);
    assert Applied(x) == Applied(s'.txns[t]);
    forall k, ts ensures StoreOk(s', t, k, ts) { assert StoreOk(s, t, k, ts); }
    forall y, k | y in s'.txns ensures PairOk(s', y, t, k) {
      if y != t { assert PairOk(s, y, t, k); }
    }
  }

  lemma LogCommitStep(s: State, s': State, t: Id)
    requires Inv(s) && Enabled(s, LogCommit(t)) && s' == DoLogCommit(Tick(s), t)
    ensures Inv(s')
  {
    LogCommitFrame(s, s', t);
    LogCommitOwn(s, s', t);
    Advance(s, s', t);
  }

  lemma AbortOwn(s: State, s': State, t: Id)
    requires Inv(s) && Enabled(s, AbortTxn(t)) && s' == DoAbort(Tick(s), t)
    ensures t in s'.txns && Own(s, s', t)
  {
    assert PhaseOk(s, t) && LogOk(s, t);
    NoNewReads(s, s', t);
    KeptLocks(s, s', t);
    NoWriter(s', t);
    KeptPairs(s, s', t);
  }

  lemma AbortStep(s: State, s': State, t: Id)
    requires Inv(s) && Enabled(s, AbortTxn(t)) && s' == DoAbort(Tick(s), t)
    ensures Inv(s')
  {
    AbortFrame(s, s', t);
    AbortOwn(s, s', t);
    Advance(s, s', t);
  }

  lemma LogAbortLog(s: State, s': State, t: Id)
    requires Enabled(s, LogAbort(t)) && s' == DoLogAbort(Tick(s), t) && PhaseOk(s, t) && LogOk(s, t)
    ensures PhaseOk(s', t) && LogOk(s', t)
  {
    ProjAppend(s.wal, Record(t, Abort), t);
  }

  lemma LogAbortOwn(s: State, s': State, t: Id)
    requires Inv(s) && Enabled(s, LogAbort(t)) && s' == DoLogAbort(Tick(s), t)
    ensures t in s'.txns && Own(s, s', t)
  {
    assert PhaseOk(s, t) && LogOk(s, t);
    NoNewReads(s, s', t);
    LogAbortLog(s, s', t);
    KeptLocks(s, s', t);
    NoWriter(s', t);
    KeptPairs(s, s', t);
  }

  lemma LogAbortStep(s: State, s': State, t: Id)
    requires Inv(s) && Enabled(s, LogAbort(t)) && s' == DoLogAbort(Tick(s), t)
    ensures Inv(s')
  {
    LogAbortFrame(s, s', t);
    LogAbortOwn(s, s', t);
    Advance(s, s', t);
  }

  lemma ReleaseCommitted(s: State, s': State, t: Id)
    requires Inv(s) && Enabled(s, ReleaseLocks(t)) && s' == DoRelease(Tick(s), t) && s.txns[t].phase.Logged?
    ensures t in s'.txns && Own(s, s', t)
  {
    assert PhaseOk(s, t) && LogOk(s, t);
    NoNewReads(s, s', t);
    forall k, ts ensures StoreOk(s', t, k, ts) { assert StoreOk(s, t, k, ts); }
    forall y, k | y in s'.txns ensures PairOk(s', y, t, k) {
      if y != t { assert PairOk(s, y, t, k); }
    }
    forall y, k | y in s'.txns ensures PairOk(s', t, y, k) { ReleaseIsLast(s, s', t, y, k); }
    KeptCut(s, s', t);
    forall u, i, y | u in s'.txns && 0 <= i < |s'.txns[u].readSet| && y in s'.txns ensures SeenOk(s', u, i, t, y) {
      ReleaseUnseen(s, s', t, u, i, y);
    }
  }

  lemma ReleaseAborted(s: State, s': State, t: Id)
    requires Inv(s) && Enabled(s, ReleaseLocks(t)) && s' == DoRelease(Tick(s), t) && s.txns[t].phase.AbortLogged?
    ensures t in s'.txns && Own(s, s', t)
  {
    assert PhaseOk(s, t) && LogOk(s, t);
    NoNewReads(s, s', t);
    NoWriter(s', t);
    KeptPairs(s, s', t);
  }

  lemma ReleaseStep(s: State, s': State, t: Id)
    requires Inv(s) && Enabled(s, ReleaseLocks(t)) && s' == DoRelease(Tick(s), t)
    ensures Inv(s')
  {
    ReleaseFrame(s, s', t);
    if s.txns[t].phase.Logged? { ReleaseCommitted(s, s', t); } else { ReleaseAborted(s, s', t); }
    Advance(s, s', t);
  }

  /** While t still holds the lock on k no other writer of k is alive, and the committed ones came before. */
  lemma ReleaseIsLast(s: State, s': State, t: Id, y: Id, k: Key)
    requires Inv(s) && Enabled(s, ReleaseLocks(t)) && s' == DoRelease(Tick(s), t) && s.txns[t].phase.Logged?
    requires y in s.txns
    ensures PairOk(s', t, y, k)
  {
    assert PhaseOk(s, t);
    assert LocksOk(s, t, k) && LocksOk(s, y, k);
    if y != t { assert PairOk(s, y, t, k) && TsOk(s, t, y); }
  }

  /** So no version of k is newer than t's, and nobody else is about to write one. */
  lemma ReleaseUnseen(s: State, s': State, t: Id, u: Id, i: nat, y: Id)
    requires Inv(s) && Enabled(s, ReleaseLocks(t)) && s' == DoRelease(Tick(s), t) && s.txns[t].phase.Logged?
    requires u in s'.txns && i < |s'.txns[u].readSet| && y in s'.txns
    ensures SeenOk(s', u, i, t, y)
  {
    var k := s.txns[u].readSet[i].key;
    assert PhaseOk(s, t);
    assert LocksOk(s, t, k) && LocksOk(s, y, k);
    if y != t { assert PairOk(s, y, t, k); }
  }
}
