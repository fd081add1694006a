/** Every step other than a crash keeps the invariant. A step moves one transaction; `Frame` says
    what it leaves alone and `Advance` carries the invariant over to everything else. */
module TxnSteps {
  import opened ByteStrings
  import opened TxnModel
  import opened TxnInvariant

  // ---- Lists of writes and the log ----

  lemma LastOne(writes: seq<Write>, w: Write, k: Key)
    ensures LastWrite(writes + [w], k) == if w.key == k then Some(w.value) else LastWrite(writes, k)
  {
    assert (writes + [w])[..|writes|] == writes;
  }

  lemma LastNext(writes: seq<Write>, d: nat, k: Key)
    requires d < |writes|
    ensures LastWrite(writes[..d + 1], k) ==
            if writes[d].key == k then Some(writes[d].value) else LastWrite(writes[..d], k)
  {
    assert writes[..d + 1][..d] == writes[..d];
  }

  /** The last write of the whole list is the last of its rest, if there is one there. */
  lemma {:induction false} LastSplit(writes: seq<Write>, d: nat, k: Key)
    requires d <= |writes|
    ensures LastWrite(writes, k) ==
            if LastWrite(writes[d..], k).Some? then LastWrite(writes[d..], k) else LastWrite(writes[..d], k)
    decreases |writes|
  {
    if d == |writes| {
      assert writes[..d] == writes;
    } else {
      var n := |writes| - 1;
      LastSplit(writes[..n], d, k);
      assert writes[d..][..n - d] == writes[..n][d..];
      assert writes[..n][..d] == writes[..d];
    }
  }

  lemma {:induction false} WroteKey(writes: seq<Write>, k: Key)
    ensures LastWrite(writes, k).Some? <==> k in KeysOf(writes)
  {
    if writes != [] {
      var n := |writes| - 1;
      WroteKey(writes[..n], k);
      assert writes == writes[..n] + [writes[n]];
    }
  }

  lemma ProjAppend(wal: seq<Record>, r: Record, t: Id)
    ensures Proj(wal + [r], t) == Proj(wal, t) + if r.txn == t then [r.kind] else []
  {
    assert (wal + [r])[..|wal|] == wal;
  }

  lemma {:induction false} NoRecords(wal: seq<Record>, t: Id)
    requires forall i :: 0 <= i < |wal| ==> wal[i].txn != t
    ensures Proj(wal, t) == []
  {
    if wal != [] { NoRecords(wal[..|wal| - 1], t); }
  }

  // ---- The frame of a step of t ----

  ghost predicate OnlyTxn(s: State, s': State, t: Id) {
    && t in s'.txns
    && (forall u {:trigger u in s.txns} {:trigger u in s'.txns} ::
          u != t ==> (u in s'.txns <==> u in s.txns) && (u in s.txns ==> s'.txns[u] == s.txns[u]))
    && (t !in s.txns ==> t >= s.nextId)
    && s.nextId <= s'.nextId && s.clock <= s'.clock && s'.now == s.now + 1
  }

  /** At most one record, of t, is added to the log, synced unless it is a BEGIN or a write. */
  ghost predicate LogFrame(s: State, s': State, t: Id) {
    || (s'.wal == s.wal && s'.synced == s.synced)
    || (|s'.wal| == |s.wal| + 1 && s'.wal == s.wal + [s'.wal[|s.wal|]] && s'.wal[|s.wal|].txn == t
        && (s'.synced == |s'.wal|
            || (s'.synced == s.synced && (s'.wal[|s.wal|].kind.Begin? || s'.wal[|s.wal|].kind.Put?))))
  }

  ghost predicate OwnerFrame(s: State, s': State, t: Id)
    requires t in s'.txns
  {
    && (forall k :: k in s.owner && s.owner[k] != t ==> k in s'.owner && s'.owner[k] == s.owner[k])
    && (forall k :: k in s'.owner && s'.owner[k] != t ==> k in s.owner && s.owner[k] == s'.owner[k])
    && (forall k :: k in s'.owner && s'.owner[k] == t ==>
          && Live(s'.txns[t])
          && (Takes(s'.txns[t], k) || (k in s.owner && s.owner[k] == t && t in s.txns && !Takes(s.txns[t], k))))
  }

  /** Only t's own versions are written, and only versions that t makes its own are no longer cut. */
  ghost predicate StoreFrame(s: State, s': State, t: Id) {
    && (forall v :: v in s.store ==>
          v in s'.store && (s'.store[v] != s.store[v] ==> Writer(s', t, v.0, v.1)))
    && (forall v :: v in s'.store && v !in s.store ==> Writer(s', t, v.0, v.1))
    && (forall v :: v in s'.store && (v in s.store ==> s'.store[v] != s.store[v]) ==> s'.store[v] != Some([0]))
    && s.ever <= s'.ever
    && (forall v: Version, b: Value {:trigger (v, b) in s'.ever} ::
          (v, b) in s'.ever && (v, b) !in s.ever ==> b != Some([0]))
    && s'.cut <= s.cut && (forall v :: v in s.cut && v !in s'.cut ==> Source(s', t, v.0, v.1))
  }

  /** A stamp of t is an old one or comes fresh from the oracle. */
  ghost predicate StampFrame(s: State, s': State, t: Id)
    requires t in s'.txns
  {
    var y := s'.txns[t];
    if t in s.txns then
      var x := s.txns[t];
      && (y.drawn == x.drawn || (y.drawn == Some(s.clock) && s.clock < s'.clock))
      && (Committing(y) ==>
            (Committing(x) && Ts(x) == Ts(y)) || x.drawn == Some(Ts(y)) || (Ts(y) == s.clock && s.clock < s'.clock))
      && (Sealed(y) && !Sealed(x) ==> y.loggedAt == s'.now)
    else y.drawn == None && !Committing(y) && y.readSet == []
  }

  /** What a transaction cannot take back. */
  ghost predicate Progress(x: Txn, y: Txn) {
    && (Committing(x) ==>
          && y.writes == x.writes && Committing(y) && Ts(y) == Ts(x)
          && (y.phase.Applying? ==> x.phase.Applying? && x.phase.done <= y.phase.done <= |y.writes|))
    && (Committing(y) && !Committing(x) ==> x.phase.Prepared?)
    && (y.phase.Committed? ==> x.phase.Logged? || x.phase.Committed?)
    && (Live(y) ==> Live(x))
    && |x.readSet| <= |y.readSet|
    && (forall i :: 0 <= i < |x.readSet| ==> y.readSet[i] == x.readSet[i].(checked := y.readSet[i].checked))
    && (forall i :: 0 <= i < Checked(x) ==> y.readSet[i] == x.readSet[i])
    && (Checked(y) == 0 || Checked(x) <= Checked(y))
        && (Checked(x) > 0 ==> y.drawn == x.drawn && y.preparingAt == x.preparingAt)
    && (Sealed(x) ==> y.loggedAt == x.loggedAt)
    && (x.prepared.Some? ==>
          y.readSet == x.readSet && y.drawn == x.drawn && y.prepared == x.prepared && y.writes == x.writes)
  }

  ghost predicate Frame(s: State, s': State, t: Id) {
    && OnlyTxn(s, s', t) && LogFrame(s, s', t) && OwnerFrame(s, s', t) && StoreFrame(s, s', t)
    && StampFrame(s, s', t) && (t in s.txns ==> Progress(s.txns[t], s'.txns[t]))
  }

  // ---- What the frame gives for free ----

  lemma FrameWal(s: State, s': State, t: Id)
    requires WalOk(s) && OnlyTxn(s, s', t) && LogFrame(s, s', t) && StoreFrame(s, s', t)
    ensures WalOk(s')
  {}

  lemma FramePhase(s: State, s': State, t: Id, u: Id)
    requires OnlyTxn(s, s', t) && u in s.txns && u != t && PhaseOk(s, u)
    ensures PhaseOk(s', u)
  {}

  lemma FrameLog(s: State, s': State, t: Id, u: Id)
    requires OnlyTxn(s, s', t) && LogFrame(s, s', t) && u in s.txns && u != t && LogOk(s, u)
    ensures LogOk(s', u)
  {
    if s'.wal != s.wal { ProjAppend(s.wal, s'.wal[|s.wal|], u); }
  }

  lemma FrameLocks(s: State, s': State, t: Id, u: Id, k: Key)
    requires OnlyTxn(s, s', t) && OwnerFrame(s, s', t) && u in s.txns && u != t && LocksOk(s, u, k)
    ensures LocksOk(s', u, k)
  {}

  lemma FrameOwner(s: State, s': State, t: Id, k: Key)
    requires OnlyTxn(s, s', t) && OwnerFrame(s, s', t) && k in s'.owner && (k in s.owner ==> OwnerOk(s, k))
    ensures OwnerOk(s', k)
  {}

  lemma FrameTs(s: State, s': State, t: Id, x: Id, y: Id)
    requires OnlyTxn(s, s', t) && StampFrame(s, s', t) && x in s'.txns && y in s'.txns
    requires x in s.txns ==> PhaseOk(s, x)
    requires y in s.txns ==> PhaseOk(s, y)
    requires x in s.txns && y in s.txns ==> TsOk(s, x, y)
    ensures TsOk(s', x, y)
  {}

  lemma FrameStore(s: State, s': State, t: Id, c: Id, k: Key, ts: nat)
    requires OnlyTxn(s, s', t) && StoreFrame(s, s', t) && c != t && StoreOk(s, c, k, ts)
    requires c in s'.txns ==> TsOk(s', c, t)
    ensures StoreOk(s', c, k, ts)
  {}

  ghost predicate Moves(s: State, s': State, t: Id) {
    && OnlyTxn(s, s', t) && StoreFrame(s, s', t) && StampFrame(s, s', t)
    && (t in s.txns ==> Progress(s.txns[t], s'.txns[t]))
  }

  lemma StampStays(s: State, s': State, t: Id, ts: nat)
    requires Moves(s, s', t) && OldStamp(s, ts)
    ensures OldStamp(s', ts)
  {}

  lemma ExplainedStays(s: State, s': State, t: Id, k: Key, ts: nat)
    requires Moves(s, s', t) && Explained(s, k, ts)
    ensures Explained(s', k, ts)
  {
    if (k, ts) in s.cut {
      if (k, ts) !in s'.cut { assert Source(s', t, (k, ts).0, (k, ts).1); }
    } else {
      var c :| Source(s, c, k, ts);
      assert Source(s', c, k, ts);
    }
  }

  lemma FrameVersion(s: State, s': State, t: Id, k: Key, ts: nat)
    requires Moves(s, s', t) && VersionOk(s, k, ts)
    requires t in s'.txns && PhaseOk(s', t) && AllTs(s')
    ensures VersionOk(s', k, ts)
  {
    if (k, ts) in s.store {
      StampStays(s, s', t, ts);
      ExplainedStays(s, s', t, k, ts);
    } else if (k, ts) in s'.store {
      assert Writer(s', t, (k, ts).0, (k, ts).1);
      WriterWrote(s', t, k, ts);
      forall u | u in s'.txns && s'.txns[u].drawn == Some(ts) ensures u == t { assert TsOk(s', t, u); }
      assert Source(s', t, k, ts);
    }
  }

  lemma WriterWrote(s: State, c: Id, k: Key, ts: nat)
    requires Writer(s, c, k, ts)
    ensures Source(s, c, k, ts)
  {
    var x := s.txns[c];
    if x.phase.Applying? { LastSplit(x.writes, x.phase.done, k); }
  }

  ghost predicate AllTs(s: State) {
    forall x, y {:trigger TsOk(s, x, y)} :: x in s.txns && y in s.txns ==> TsOk(s, x, y)
  }

  lemma FrameRead(s: State, s': State, t: Id, u: Id, i: nat)
    requires Moves(s, s', t) && u in s.txns && i < |s.txns[u].readSet| && ReadOk(s, u, i)
    ensures ReadOk(s', u, i)
  {
    var r := s.txns[u].readSet[i];
    StampStays(s, s', t, r.version);
    ExplainedStays(s, s', t, r.key, r.version);
    forall c | MaySource(s', c, r.key, r.version) ensures r.settled <==> Wins(s', c, r) {
      assert MaySource(s, c, r.key, r.version);
    }
  }

  lemma FrameValid(s: State, s': State, t: Id, u: Id, i: nat)
    requires Moves(s, s', t) && u in s.txns && i < |s.txns[u].readSet| && ValidOk(s, u, i)
    requires i < Checked(s.txns[u])
    ensures ValidOk(s', u, i)
  {
    var r := s.txns[u].readSet[i];
    if s.txns[u].drawn.Some? {
      forall v | v in r.checked ensures OldStamp(s', v.1) { StampStays(s, s', t, v.1); }
    }
  }

  /** Nothing becomes shown: a writer's new timestamp is not among the versions that were there. */
  lemma FrameSeen(s: State, s': State, t: Id, u: Id, i: nat, x: Id, y: Id)
    requires Moves(s, s', t) && u in s.txns && i < |s.txns[u].readSet| && x in s.txns && y in s.txns
    requires i < Checked(s.txns[u]) && s.txns[u].drawn.Some? && ValidOk(s, u, i) && SeenOk(s, u, i, x, y)
    requires s'.txns[x].phase.Committed? ==> s.txns[x].phase.Committed?
    requires PhaseOk(s, y)
    ensures SeenOk(s', u, i, x, y)
  {
    var r := s.txns[u].readSet[i];
    var b, b' := s.txns[y], s'.txns[y];
    if s'.txns[x].phase.Committed? && Shown(r, s'.txns[x], b') {
      if b'.drawn.Some? && (r.key, b'.drawn.value) in r.checked { assert OldStamp(s, (r.key, b'.drawn.value).1); }
      if Committing(b') && (r.key, Ts(b')) in r.checked { assert OldStamp(s, (r.key, Ts(b')).1); }
    }
  }

  /** What is logged now is logged after every Prepare that has begun. */
  lemma FrameSealed(s: State, s': State, t: Id, u: Id, i: nat, c: Id)
    requires Moves(s, s', t) && u in s.txns && i < |s.txns[u].readSet| && c in s.txns
    requires i < Checked(s.txns[u]) && PhaseOk(s, u) && SealedOk(s, u, i, c)
    ensures SealedOk(s', u, i, c)
  {}

  lemma FramePair(s: State, s': State, t: Id, x: Id, y: Id, k: Key)
    requires OnlyTxn(s, s', t) && StoreFrame(s, s', t) && x in s.txns && y in s.txns && x != t && y != t
    requires PairOk(s, x, y, k)
    ensures PairOk(s', x, y, k)
  {}

  // ---- Putting the pieces together ----

  /** What is left to show of the transaction that moved. */
  ghost predicate Own(s: State, s': State, t: Id)
    requires t in s'.txns
  {
    && PhaseOk(s', t) && LogOk(s', t)
    && (forall k {:trigger LocksOk(s', t, k)} :: LocksOk(s', t, k))
    && (forall k, ts {:trigger StoreOk(s', t, k, ts)} :: StoreOk(s', t, k, ts))
    && (forall y, k {:trigger PairOk(s', t, y, k)} :: y in s'.txns ==> PairOk(s', t, y, k))
    && (forall x, k {:trigger PairOk(s', x, t, k)} :: x in s'.txns ==> PairOk(s', x, t, k))
    && (forall k, ts {:trigger CutOk(s', t, k, ts)} :: CutOk(s', t, k, ts))
    && OwnReads(s, s', t) && OwnSeen(s, s', t)
  }

  /** What is left to show of its new reads and the newly validated ones. */
  ghost predicate OwnReads(s: State, s': State, t: Id)
    requires t in s'.txns
  {
    && (forall i {:trigger ReadOk(s', t, i)} ::
          0 <= i < |s'.txns[t].readSet| && (t in s.txns ==> i >= |s.txns[t].readSet|) ==> ReadOk(s', t, i))
    && (forall i {:trigger ValidOk(s', t, i)} ::
          0 <= i < |s'.txns[t].readSet| && (t in s.txns ==> i >= Checked(s.txns[t])) ==> ValidOk(s', t, i))
    && (forall i, x, y {:trigger SeenOk(s', t, i, x, y)} ::
          (0 <= i < |s'.txns[t].readSet| && (t in s.txns ==> i >= Checked(s.txns[t])) && x in s'.txns
              && y in s'.txns) ==>
            SeenOk(s', t, i, x, y))
    && (forall i, c {:trigger SealedOk(s', t, i, c)} ::
          0 <= i < |s'.txns[t].readSet| && (t in s.txns ==> i >= Checked(s.txns[t])) && c in s'.txns ==>
              SealedOk(s', t, i, c))
  }

  /** What is left to show of the reads of others once it is committed. */
  ghost predicate OwnSeen(s: State, s': State, t: Id)
    requires t in s'.txns
  {
    t in s.txns && s'.txns[t].phase.Committed? && !s.txns[t].phase.Committed? ==>
      forall u, i, y {:trigger SeenOk(s', u, i, t, y)} ::
        u in s'.txns && 0 <= i < |s'.txns[u].readSet| && y in s'.txns ==> SeenOk(s', u, i, t, y)
  }

  lemma NoNewReads(s: State, s': State, t: Id)
    requires t in s.txns && t in s'.txns && |s'.txns[t].readSet| <= |s.txns[t].readSet|
    requires Checked(s'.txns[t]) <= Checked(s.txns[t])
    ensures OwnReads(s, s', t)
  {}

  lemma Advance(s: State, s': State, t: Id)
    requires Inv(s) && Frame(s, s', t) && Own(s, s', t)
    ensures Inv(s')
  {
    FrameWal(s, s', t);
    AdvanceTxns(s, s', t);
    AdvanceTs(s, s', t);
    AdvancePairs(s, s', t);
    AdvanceVersions(s, s', t);
    AdvanceReads(s, s', t);
    AdvanceSeen(s, s', t);
    AdvanceSealed(s, s', t);
  }

  lemma AdvanceSealed(s: State, s': State, t: Id)
    requires Inv(s) && Frame(s, s', t) && Own(s, s', t)
    ensures forall u, i, c {:trigger SealedOk(s', u, i, c)} ::
              u in s'.txns && 0 <= i < |s'.txns[u].readSet| && c in s'.txns ==> SealedOk(s', u, i, c)
  {
    forall u, i, c | u in s'.txns && 0 <= i < |s'.txns[u].readSet| && c in s'.txns ensures SealedOk(s', u, i, c) {
      if u in s.txns && i < Checked(s.txns[u]) && c in s.txns {
        assert PhaseOk(s, u) && SealedOk(s, u, i, c);
        FrameSealed(s, s', t, u, i, c);
      }
    }
  }

  lemma AdvanceTxns(s: State, s': State, t: Id)
    requires Inv(s) && Frame(s, s', t) && Own(s, s', t)
    ensures forall u {:trigger PhaseOk(s', u)} :: u in s'.txns ==> PhaseOk(s', u)
    ensures forall u {:trigger LogOk(s', u)} :: u in s'.txns ==> LogOk(s', u)
    ensures forall u, k {:trigger LocksOk(s', u, k)} :: u in s'.txns ==> LocksOk(s', u, k)
    ensures forall k {:trigger OwnerOk(s', k)} :: k in s'.owner ==> OwnerOk(s', k)
  {
    forall u | u in s'.txns ensures PhaseOk(s', u) && LogOk(s', u) {
      if u != t { assert PhaseOk(s, u) && LogOk(s, u); FramePhase(s, s', t, u); FrameLog(s, s', t, u); }
    }
    forall u, k | u in s'.txns ensures LocksOk(s', u, k) {
      if u != t { assert LocksOk(s, u, k); FrameLocks(s, s', t, u, k); }
    }
    forall k | k in s'.owner ensures OwnerOk(s', k) {
      if k in s.owner { assert OwnerOk(s, k); }
      FrameOwner(s, s', t, k);
    }
  }

  lemma AdvanceTs(s: State, s': State, t: Id)
    requires Inv(s) && Frame(s, s', t)
    ensures AllTs(s')
  {
    forall x, y | x in s'.txns && y in s'.txns ensures TsOk(s', x, y) {
      if x in s.txns { assert PhaseOk(s, x); }
      if y in s.txns { assert PhaseOk(s, y); }
      if x in s.txns && y in s.txns { assert TsOk(s, x, y); }
      FrameTs(s, s', t, x, y);
    }
  }

  lemma AdvancePairs(s: State, s': State, t: Id)
    requires Inv(s) && Frame(s, s', t) && Own(s, s', t) && AllTs(s')
    ensures forall x, y, k {:trigger PairOk(s', x, y, k)} :: x in s'.txns && y in s'.txns ==> PairOk(s', x, y, k)
    ensures forall c, k, ts {:trigger StoreOk(s', c, k, ts)} :: StoreOk(s', c, k, ts)
  {
    forall x, y, k | x in s'.txns && y in s'.txns ensures PairOk(s', x, y, k) {
      if x != t && y != t { assert PairOk(s, x, y, k); FramePair(s, s', t, x, y, k); }
    }
    forall c, k, ts ensures StoreOk(s', c, k, ts) {
      if c != t {
        assert StoreOk(s, c, k, ts);
        if c in s'.txns { assert TsOk(s', c, t); }
        FrameStore(s, s', t, c, k, ts);
      }
    }
  }

  lemma AdvanceVersions(s: State, s': State, t: Id)
    requires Inv(s) && Frame(s, s', t) && Own(s, s', t) && AllTs(s')
    ensures forall k, ts {:trigger VersionOk(s', k, ts)} :: VersionOk(s', k, ts)
    ensures forall c, k, ts {:trigger CutOk(s', c, k, ts)} :: CutOk(s', c, k, ts)
  {
    forall k, ts ensures VersionOk(s', k, ts) {
      assert VersionOk(s, k, ts);
      FrameVersion(s, s', t, k, ts);
    }
    forall c, k, ts ensures CutOk(s', c, k, ts) {
      if c != t { assert CutOk(s, c, k, ts); }
    }
  }

  lemma AdvanceReads(s: State, s': State, t: Id)
    requires Inv(s) && Frame(s, s', t) && Own(s, s', t)
    ensures forall u, i {:trigger ReadOk(s', u, i)} :: u in s'.txns && 0 <= i < |s'.txns[u].readSet| ==>
            ReadOk(s', u, i)
    ensures forall u, i {:trigger ValidOk(s', u, i)} :: u in s'.txns && 0 <= i < |s'.txns[u].readSet| ==>
            ValidOk(s', u, i)
  {
    forall u, i | u in s'.txns && 0 <= i < |s'.txns[u].readSet| ensures ReadOk(s', u, i) {
      if u in s.txns && i < |s.txns[u].readSet| {
        assert ReadOk(s, u, i);
        FrameRead(s, s', t, u, i);
      }
    }
    forall u, i | u in s'.txns && 0 <= i < |s'.txns[u].readSet| ensures ValidOk(s', u, i) {
      if u in s.txns && i < Checked(s.txns[u]) {
        assert ValidOk(s, u, i);
        FrameValid(s, s', t, u, i);
      }
    }
  }

  lemma AdvanceSeen(s: State, s': State, t: Id)
    requires Inv(s) && Frame(s, s', t) && Own(s, s', t)
    ensures forall u, i, x, y {:trigger SeenOk(s', u, i, x, y)} ::
              u in s'.txns && 0 <= i < |s'.txns[u].readSet| && x in s'.txns && y in s'.txns ==> SeenOk(s', u, i, x, y)
  {
    forall u, i, x, y | u in s'.txns && 0 <= i < |s'.txns[u].readSet| && x in s'.txns && y in s'.txns
      ensures SeenOk(s', u, i, x, y)
    {
      if u in s.txns && i < Checked(s.txns[u]) && x in s.txns && y in s.txns {
        assert PhaseOk(s, u) && PhaseOk(s, y) && ValidOk(s, u, i) && SeenOk(s, u, i, x, y);
        if x != t || s.txns[x].phase.Committed? { FrameSeen(s, s', t, u, i, x, y); }
      }
    }
  }
}
