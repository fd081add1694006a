/** Serializability does not hold without a condition: two transactions that validate before either
    has applied its writes can each miss the other's write, a read can fall between two writes of one
    commit, and it can meet a version of a commit that a crash cut short. */
module TxnAnomaly {
  import opened ByteStrings
  import opened TxnModel
  import opened TxnInvariant
  import opened TxnSafety
  import opened TxnSerial

  /** Running the committed transactions one at a time in the order `rank` gives every read the version
      it observed: that of the last transaction ranked before the reader that writes the key. */
  ghost predicate Explains(s: State, rank: map<Id, nat>) {
    && (forall c :: c in s.txns && Committing(s.txns[c]) ==> c in rank)
    && (forall c, d :: c in rank && d in rank && c != d ==> rank[c] != rank[d])
    && (forall t, i :: t in s.txns && Committing(s.txns[t]) && 0 <= i < |s.txns[t].readSet| ==>
          exists c :: ExplainedBy(s, rank, t, s.txns[t].readSet[i], c))
  }

  ghost predicate RankedWriter(s: State, rank: map<Id, nat>, t: Id, k: Key, c: Id)
    requires t in rank
  {
    c in s.txns && c in rank && c != t && Committing(s.txns[c]) && Wrote(s.txns[c], k) && rank[c] < rank[t]
  }

  ghost predicate ExplainedBy(s: State, rank: map<Id, nat>, t: Id, r: ReadEntry, c: Id)
    requires t in rank
  {
    && RankedWriter(s, rank, t, r.key, c) && Ts(s.txns[c]) == r.version
    && (forall d {:trigger RankedWriter(s, rank, t, r.key, d)} :: RankedWriter(s, rank, t, r.key, d) ==>
        rank[d] <= rank[c])
  }

  const X := Key(0, [])
  const Y := Key(1, [])
  const BLOB: Value := Some([])

  ghost predicate NoCrash(run: seq<Step>) {
    forall i :: 0 <= i < |run| ==> !run[i].Crash?
  }

  lemma Next(run: seq<Step>, s: State, step: Step, s': State) returns (run': seq<Step>)
    requires After(run) == s && Enabled(s, step) && !step.Crash? && s' == Do(s, step)
    ensures (NoCrash(run) ==> NoCrash(run')) && After(run') == s'
  {
    run' := run + [step];
    AfterNext(run, step);
  }

  /** A transaction with at most one read, which still finds its version, prepares and decides to commit. */
  ghost predicate Decided(s: State, s': State, t: Id)
    requires t in s.txns && s.txns[t].drawn.Some?
  {
    var x := s.txns[t];
    && s'.store == s.store && s'.clock == s.clock && s'.owner == s.owner && s'.nextId == s.nextId
    && s'.cut == s.cut - VersionsOf(x.writes, x.drawn.value)
    && t in s'.txns && s'.txns == s.txns[t := s'.txns[t]]
    && var y := s'.txns[t];
       && y.phase == Applying(x.drawn.value, 0) && y.drawn == x.drawn && y.writes == x.writes
       && y.preparingAt > s.now && y.committedAt > s.now
       && |y.readSet| == |x.readSet| && (|x.readSet| == 1 ==> y.readSet[0] == x.readSet[0].(checked := s.store.Keys))
  }

  lemma PrepareAndDecide(before: seq<Step>, s: State, t: Id) returns (run: seq<Step>)
    requires After(before) == s && Is(s, t, Active) && s.txns[t].drawn.Some? && |s.txns[t].readSet| <= 1
    requires |s.txns[t].readSet| == 1 ==> Unchanged(s.store, s.txns[t].readSet[0], s.txns[t].drawn.value)
    ensures (NoCrash(before) ==> NoCrash(run)) && Decided(s, After(run), t)
  {
    var s1 := DoStartPrepare(Tick(s), t);
    run := Next(before, s, StartPrepare(t), s1);
    var s2 := s1;
    if |s.txns[t].readSet| == 1 {
      s2 := CheckPasses(Tick(s1), t);
      run := Next(run, s1, CheckNext(t), s2);
    }
    run := FinishAndDecide(run, s2, t);
  }

  lemma FinishAndDecide(before: seq<Step>, s: State, t: Id) returns (run: seq<Step>)
    requires After(before) == s && Enabled(s, FinishPrepare(t))
    ensures NoCrash(before) ==> NoCrash(run)
    ensures var x, s' := s.txns[t], After(run);
            && s'.store == s.store && s'.clock == s.clock && s'.owner == s.owner && s'.nextId == s.nextId
            && s'.cut == s.cut - VersionsOf(x.writes, x.drawn.value)
            && t in s'.txns && s'.txns == s.txns[t := s'.txns[t]]
            && s'.txns[t] == x.(phase := Applying(x.drawn.value, 0), prepared := x.drawn,
                                committedAt := s'.txns[t].committedAt)
            && s'.txns[t].committedAt > s.now
  {
    var s1 := DoFinishPrepare(Tick(s), t);
    run := Next(before, s, FinishPrepare(t), s1);
    var s2 := DoStartCommit(Tick(s1), t, false);
    run := Next(run, s1, StartCommit(t, false), s2);
  }

  ghost predicate Seeded(s: State) {
    && s.store == map[(X, 1) := BLOB, (Y, 1) := BLOB] && s.owner == map[] && s.nextId == 2 && s.clock == 2
    && 1 in s.txns && s.txns[1].phase == Committed(1)
  }

  ghost predicate Filling(s: State) {
    && s.store == map[] && s.owner == map[X := 1, Y := 1] && s.nextId == 2 && s.clock == 1
    && 1 in s.txns && s.txns[1].writes == [Write(X, BLOB), Write(Y, BLOB)]
    && s.txns[1].phase == Active && s.txns[1].drawn == None && s.txns[1].pending == None && s.txns[1].readSet == []
  }

  lemma Fill() returns (run: seq<Step>)
    ensures NoCrash(run) && Filling(After(run))
  {
    var s1 := DoBegin(Tick(START), 0);
    run := Next([], START, BeginTxn(0), s1);
    var s2 := DoAcquire(Tick(s1), 1, X);
    run := Next(run, s1, Acquire(1, X), s2);
    var s3 := DoBuffer(Tick(s2), 1, BLOB);
    run := Next(run, s2, Buffer(1, BLOB), s3);
    run := CrossWrite(run, s3, 1, Y);
  }

  ghost predicate Draining(s: State) {
    && s.store == map[] && s.owner == map[X := 1, Y := 1] && s.nextId == 2 && s.clock == 2
    && 1 in s.txns && s.txns[1].writes == [Write(X, BLOB), Write(Y, BLOB)] && s.txns[1].phase == Applying(1, 0)
  }

  lemma Drain(before: seq<Step>) returns (run: seq<Step>)
    requires NoCrash(before) && Filling(After(before))
    ensures NoCrash(run) && Draining(After(run))
  {
    var s := After(before);
    var s1 := DoDraw(Tick(s), 1);
    run := Next(before, s, Draw(1), s1);
    run := PrepareAndDecide(run, s1, 1);
  }

  lemma Seed(before: seq<Step>) returns (run: seq<Step>)
    requires NoCrash(before) && Draining(After(before))
    ensures NoCrash(run) && Seeded(After(run))
  {
    var s := After(before);
    var s1 := DoPut(Tick(s), 1);
    run := Next(before, s, PutNext(1), s1);
    var s2 := DoPut(Tick(s1), 1);
    run := Next(run, s1, PutNext(1), s2);
    run := Close(run, s2);
  }

  lemma Close(before: seq<Step>, s: State) returns (run: seq<Step>)
    requires NoCrash(before) && After(before) == s && 1 in s.txns && |s.txns[1].writes| == 2
    requires s.txns[1].phase == Applying(1, 2)
    requires s.store == map[(X, 1) := BLOB, (Y, 1) := BLOB] && s.owner == map[X := 1, Y := 1] && s.nextId == 2
    requires s.clock == 2
    ensures NoCrash(run) && Seeded(After(run))
  {
    var s1 := DoLogCommit(Tick(s), 1);
    run := Next(before, s, LogCommit(1), s1);
    var s2 := DoRelease(Tick(s1), 1);
    run := Next(run, s1, ReleaseLocks(1), s2);
  }

  /** t began at snapshot 1, read `from` and has a buffered write of `to`. */
  ghost predicate Crossed(s: State, t: Id, from: Key, to: Key) {
    && t in s.txns && s.txns[t].phase == Active && s.txns[t].drawn == None && s.txns[t].pending == None
    && |s.txns[t].readSet| == 1 && s.txns[t].readSet[0].key == from && s.txns[t].readSet[0].version == 1
    && s.txns[t].writes == [Write(to, BLOB)]
  }

  lemma Cross(before: seq<Step>, s: State, from: Key, to: Key) returns (run: seq<Step>)
    requires NoCrash(before) && After(before) == s && to !in s.owner && from != to && s.nextId !in s.txns
    requires s.store == map[(X, 1) := BLOB, (Y, 1) := BLOB] && (from, 1) in s.store
    ensures var s', t := After(run), s.nextId;
            && NoCrash(run) && s'.store == s.store && s'.clock == s.clock && s'.nextId == t + 1
            && Crossed(s', t, from, to) && s'.owner == s.owner[to := t] && s'.txns == s.txns[t := s'.txns[t]]
  {
    var t := s.nextId;
    var s1 := DoBegin(Tick(s), 1);
    run := Next(before, s, BeginTxn(1), s1);
    NewestIsOne(s.store, from, 1);
    var s2 := DoRead(Tick(s1), t, from);
    run := Next(run, s1, Read(t, from), s2);
    run := CrossWrite(run, s2, t, to);
  }

  lemma CrossWrite(before: seq<Step>, s: State, t: Id, to: Key) returns (run: seq<Step>)
    requires NoCrash(before) && After(before) == s && Is(s, t, Active) && to !in s.owner
    requires s.txns[t].pending == None && s.txns[t].drawn == None
    ensures var s' := After(run);
            && NoCrash(run) && s'.store == s.store && s'.clock == s.clock && s'.nextId == s.nextId
               && s'.owner == s.owner[to := t]
            && s'.txns == s.txns[t := s.txns[t].(writes := s.txns[t].writes + [Write(to, BLOB)])]
  {
    var s1 := DoAcquire(Tick(s), t, to);
    run := Next(before, s, Acquire(t, to), s1);
    var s2 := DoBuffer(Tick(s1), t, BLOB);
    run := Next(run, s1, Buffer(t, BLOB), s2);
  }

  /** t commits up to its decision; nothing it read has changed in the store. */
  lemma Decide(before: seq<Step>, s: State, t: Id, from: Key, to: Key) returns (run: seq<Step>)
    requires NoCrash(before) && After(before) == s && Crossed(s, t, from, to)
    requires s.store == map[(X, 1) := BLOB, (Y, 1) := BLOB] && (from, 1) in s.store && s.clock >= 2
    ensures var s' := After(run);
            && NoCrash(run) && s'.store == s.store && s'.clock == s.clock + 1
            && t in s'.txns && s'.txns == s.txns[t := s'.txns[t]] && Committing(s'.txns[t])
            && |s'.txns[t].readSet| == 1 && s'.txns[t].readSet[0].key == from && s'.txns[t].readSet[0].version == 1
            && s'.txns[t].writes == s.txns[t].writes
  {
    var s1 := DoDraw(Tick(s), t);
    run := Next(before, s, Draw(t), s1);
    NewestIsOne(s.store, from, s.clock);
    run := PrepareAndDecide(run, s1, t);
  }

  lemma {:induction false} NewestIsOne(store: map<Version, Value>, k: Key, ts: nat)
    requires store == map[(X, 1) := BLOB, (Y, 1) := BLOB] && (k, 1) in store && ts >= 1
    ensures Newest(store, k, ts) == Some(1)
  {
    if ts > 1 { NewestIsOne(store, k, ts - 1); }
  }

  lemma NextIsNew(run: seq<Step>)
    ensures After(run).nextId !in After(run).txns
  {
    AlwaysInv(run);
    forall t | t in After(run).txns ensures t != After(run).nextId { assert PhaseOk(After(run), t); }
  }

  lemma CrossBoth() returns (run: seq<Step>)
    ensures NoCrash(run) && Crossed(After(run), 2, X, Y) && Crossed(After(run), 3, Y, X)
    ensures After(run).store == map[(X, 1) := BLOB, (Y, 1) := BLOB] && After(run).clock == 2
    ensures 1 in After(run).txns && After(run).txns[1].phase == Committed(1)
  {
    run := Fill();
    run := Drain(run);
    run := Seed(run);
    NextIsNew(run);
    run := Cross(run, After(run), X, Y);
    NextIsNew(run);
    run := Cross(run, After(run), Y, X);
  }

  /** Write skew: a run without crashes after which no order of the committed transactions explains
      their reads. */
  lemma WriteSkew() returns (run: seq<Step>)
    ensures NoCrash(run) && forall rank {:trigger Explains(After(run), rank)} :: !Explains(After(run), rank)
  {
    run := CrossBoth();
    run := Decide(run, After(run), 2, X, Y);
    run := Decide(run, After(run), 3, Y, X);
    AlwaysInv(run);
    assert TxnSteps.AllTs(After(run));
    forall rank ensures !Explains(After(run), rank) { NoOrder(After(run), rank); }
  }

  lemma NoOrder(s: State, rank: map<Id, nat>)
    requires TxnSteps.AllTs(s) && {1, 2, 3} <= s.txns.Keys
    requires s.txns[1].phase == Committed(1) && Committing(s.txns[2]) && Committing(s.txns[3])
    requires |s.txns[2].readSet| == 1 && s.txns[2].readSet[0].key == X && s.txns[2].readSet[0].version == 1
    requires Wrote(s.txns[2], Y)
    requires |s.txns[3].readSet| == 1 && s.txns[3].readSet[0].key == Y && s.txns[3].readSet[0].version == 1
    requires Wrote(s.txns[3], X)
    ensures !Explains(s, rank)
  {
    if Explains(s, rank) {
      var c :| ExplainedBy(s, rank, 2, s.txns[2].readSet[0], c);
      var d :| ExplainedBy(s, rank, 3, s.txns[3].readSet[0], d);
      assert TsOk(s, c, 1) && TsOk(s, d, 1);
      assert rank[2] < rank[3] ==> RankedWriter(s, rank, 3, Y, 2);
      assert rank[3] < rank[2] ==> RankedWriter(s, rank, 2, X, 3);
      assert false;
    }
  }

  // ---- A read in the middle of a commit ----

  const FIRST: Value := Some([1])
  const SECOND: Value := Some([2])

  /** Transaction 1 is to apply two writes of X and has applied the first `done` of them. */
  ghost predicate Twice(s: State, done: nat) {
    && s.store == (if done == 0 then map[] else map[(X, 1) := if done == 1 then FIRST else SECOND])
    && s.nextId == 2 && s.clock == 2 && s.txns.Keys == {1}
    && s.txns[1].writes == [Write(X, FIRST), Write(X, SECOND)] && s.txns[1].phase == Applying(1, done)
  }

  lemma WriteTwice() returns (run: seq<Step>)
    ensures NoCrash(run) && Twice(After(run), 0)
  {
    var s1 := DoBegin(Tick(START), 0);
    run := Next([], START, BeginTxn(0), s1);
    var s2 := DoAcquire(Tick(s1), 1, X);
    run := Next(run, s1, Acquire(1, X), s2);
    var s3 := DoBuffer(Tick(s2), 1, FIRST);
    run := Next(run, s2, Buffer(1, FIRST), s3);
    run := WriteAgain(run, s3);
  }

  lemma WriteAgain(before: seq<Step>, s: State) returns (run: seq<Step>)
    requires NoCrash(before) && After(before) == s && s.txns.Keys == {1} && s.txns[1].writes == [Write(X, FIRST)]
    requires s.txns[1].phase == Active && s.txns[1].pending == None && s.txns[1].drawn == None
    requires s.txns[1].readSet == []
    requires s.store == map[] && s.owner == map[X := 1] && s.nextId == 2 && s.clock == 1
    ensures NoCrash(run) && Twice(After(run), 0)
  {
    var s1 := DoAcquire(Tick(s), 1, X);
    run := Next(before, s, Acquire(1, X), s1);
    var s2 := DoBuffer(Tick(s1), 1, SECOND);
    run := Next(run, s1, Buffer(1, SECOND), s2);
    run := DecideTwice(run, s2);
  }

  lemma DecideTwice(before: seq<Step>, s: State) returns (run: seq<Step>)
    requires NoCrash(before) && After(before) == s && s.txns.Keys == {1}
    requires s.txns[1].writes == [Write(X, FIRST), Write(X, SECOND)]
    requires s.txns[1].phase == Active && s.txns[1].pending == None && s.txns[1].drawn == None
    requires s.txns[1].readSet == []
    requires s.store == map[] && s.nextId == 2 && s.clock == 1
    ensures NoCrash(run) && Twice(After(run), 0)
  {
    var s1 := DoDraw(Tick(s), 1);
    run := Next(before, s, Draw(1), s1);
    run := PrepareAndDecide(run, s1, 1);
  }

  /** Transaction 2 has read the first value of X; transaction 1 then went on. */
  ghost predicate ReadFirst(s: State, phase: Phase) {
    && s.store == map[(X, 1) := if phase == Applying(1, 1) then FIRST else SECOND] && s.clock == 2
    && s.txns.Keys == {1, 2} && s.txns[1].writes == [Write(X, FIRST), Write(X, SECOND)] && s.txns[1].phase == phase
    && s.txns[2].readSet == [ReadEntry(X, 1, [1], false, {})] && s.txns[2].phase == Active
    && s.txns[2].drawn == None && s.txns[2].pending == None && s.txns[2].writes == []
  }

  lemma ReadBetween(before: seq<Step>) returns (run: seq<Step>)
    requires NoCrash(before) && Twice(After(before), 0)
    ensures NoCrash(run) && ReadFirst(After(run), Applying(1, 1))
  {
    var s := After(before);
    var s1 := DoPut(Tick(s), 1);
    run := Next(before, s, PutNext(1), s1);
    run := ReadThere(run, s1);
  }

  lemma ReadThere(before: seq<Step>, s: State) returns (run: seq<Step>)
    requires NoCrash(before) && After(before) == s && Twice(s, 1)
    ensures NoCrash(run) && ReadFirst(After(run), Applying(1, 1))
  {
    var s1 := DoBegin(Tick(s), 1);
    run := Next(before, s, BeginTxn(1), s1);
    assert Newest(s1.store, X, 1) == Some(1);
    NotSettled(Tick(s1));
    var s2 := AddRead(Tick(s1), 2, ReadEntry(X, 1, [1], false, {}));
    run := Next(run, s1, Read(2, X), s2);
  }

  lemma NotSettled(s: State)
    requires 1 in s.txns && s.txns[1].writes == [Write(X, FIRST), Write(X, SECOND)] && s.txns[1].phase == Applying(1, 1)
    ensures !Settled(s, X, 1, [1])
  {
    assert ToCome(s.txns[1], 1) == [Write(X, SECOND)];
  }

  lemma GoOn(before: seq<Step>) returns (run: seq<Step>)
    requires NoCrash(before) && ReadFirst(After(before), Applying(1, 1))
    ensures NoCrash(run) && ReadFirst(After(run), Committed(1))
  {
    var s := After(before);
    var s1 := DoPut(Tick(s), 1);
    run := Next(before, s, PutNext(1), s1);
    run := Seal(run);
  }

  lemma Seal(before: seq<Step>) returns (run: seq<Step>)
    requires NoCrash(before) && ReadFirst(After(before), Applying(1, 2))
    ensures NoCrash(run) && ReadFirst(After(run), Committed(1))
  {
    var s := After(before);
    var s1 := DoLogCommit(Tick(s), 1);
    run := Next(before, s, LogCommit(1), s1);
    var s2 := DoRelease(Tick(s1), 1);
    run := Next(run, s1, ReleaseLocks(1), s2);
  }

  lemma CommitReader(before: seq<Step>) returns (run: seq<Step>)
    requires NoCrash(before) && ReadFirst(After(before), Committed(1))
    ensures var s := After(run);
            && NoCrash(run) && s.txns.Keys == {1, 2} && Committing(s.txns[2]) && Ts(s.txns[2]) == 2
               && s.txns[2].drawn == Some(2)
            && s.txns[1] == After(before).txns[1]
            && s.txns[2].readSet == [ReadEntry(X, 1, [1], false, {(X, 1)})]
            && s.txns[2].preparingAt > After(before).now && s.txns[2].committedAt > After(before).now
  {
    var s := After(before);
    var s1 := DoDraw(Tick(s), 2);
    run := Next(before, s, Draw(2), s1);
    assert Newest(s1.store, X, 2) == Newest(s1.store, X, 1) == Some(1);
    run := PrepareAndDecide(run, s1, 2);
    assert s1.store.Keys == {(X, 1)};
  }

  lemma OldCommit(run: seq<Step>, t: Id)
    requires t in After(run).txns
    ensures After(run).txns[t].committedAt <= After(run).now && After(run).txns[t].loggedAt <= After(run).now
  {
    AlwaysInv(run);
    assert PhaseOk(After(run), t);
  }

  /** A torn read: with commits in timestamp order and none between the reader's Prepare and Commit, the
      reader still got a value that no committed transaction left behind, because it read between two
      writes of one key by the same transaction, which was all over before the reader began to prepare. */
  lemma TornRead() returns (run: seq<Step>)
    ensures NoCrash(run) && 2 in After(run).txns && Committing(After(run).txns[2]) && |After(run).txns[2].readSet| == 1
    ensures InOrder(After(run)) && Alone(After(run), 2) && After(run).txns[2].drawn == Some(Ts(After(run).txns[2]))
    ensures !Fits(After(run), 2, After(run).txns[2].readSet[0])
  {
    run := WriteTwice();
    run := ReadBetween(run);
    run := GoOn(run);
    ghost var s := After(run);
    OldCommit(run, 1);
    run := CommitReader(run);
    FitsIff(run, 2, 0);
    TornAlone(s, After(run));
  }

  lemma TornAlone(s: State, s': State)
    requires ReadFirst(s, Committed(1)) && s'.txns.Keys == {1, 2} && Committing(s'.txns[2]) && Ts(s'.txns[2]) == 2
    requires s'.txns[1] == s.txns[1] && s.txns[1].committedAt <= s.now < s'.txns[2].committedAt
    requires s.txns[1].loggedAt <= s.now < s'.txns[2].preparingAt
    ensures InOrder(s') && Alone(s', 2)
  {}

  // ---- A read of what a crash left behind ----

  /** Transaction 1 has applied its write of X, at timestamp 1, and has not logged it. */
  ghost predicate HalfDone(s: State) {
    && s.store == map[(X, 1) := FIRST] && s.clock == 2 && s.txns.Keys == {1}
    && s.txns[1].writes == [Write(X, FIRST)] && s.txns[1].phase == Applying(1, 1) && s.txns[1].drawn == Some(1)
  }

  lemma Halfway() returns (run: seq<Step>)
    ensures NoCrash(run) && HalfDone(After(run))
  {
    var s1 := DoBegin(Tick(START), 0);
    run := Next([], START, BeginTxn(0), s1);
    var s2 := DoAcquire(Tick(s1), 1, X);
    run := Next(run, s1, Acquire(1, X), s2);
    var s3 := DoBuffer(Tick(s2), 1, FIRST);
    run := Next(run, s2, Buffer(1, FIRST), s3);
    run := DrawAndPut(run, s3);
  }

  lemma DrawAndPut(before: seq<Step>, s: State) returns (run: seq<Step>)
    requires NoCrash(before) && After(before) == s && s.txns.Keys == {1} && s.txns[1].writes == [Write(X, FIRST)]
    requires s.txns[1].phase == Active && s.txns[1].pending == None && s.txns[1].drawn == None
    requires s.txns[1].readSet == []
    requires s.store == map[] && s.clock == 1
    ensures NoCrash(run) && HalfDone(After(run))
  {
    var s1 := DoDraw(Tick(s), 1);
    run := Next(before, s, Draw(1), s1);
    run := PrepareAndDecide(run, s1, 1);
    var s2 := After(run);
    var s3 := DoPut(Tick(s2), 1);
    run := Next(run, s2, PutNext(1), s3);
  }

  /** Transaction 1 is prepared again, and the version its commit left behind is still there. */
  ghost predicate LeftBehind(s: State) {
    && s.store == map[(X, 1) := FIRST] && s.clock == 2 && s.txns.Keys == {1} && (X, 1) in s.cut
    && s.txns[1].phase == Prepared && s.txns[1].drawn == Some(1) && s.txns[1].writes == [Write(X, FIRST)]
  }

  lemma {:induction false} NothingReplayed(store: map<Version, Value>, wal: seq<Record>, n: nat)
    requires n <= |wal| && forall i :: 0 <= i < n ==> !wal[i].kind.Commit?
    ensures ReplayCommits(store, wal, n) == store
  {
    if n > 0 { NothingReplayed(store, wal, n - 1); }
  }

  /** A crash that loses nothing. */
  lemma PullThePlug(before: seq<Step>) returns (run: seq<Step>)
    requires HalfDone(After(before))
    ensures LeftBehind(After(run))
  {
    var s := After(before);
    var keep, kept := |s.wal|, s.store;
    AlwaysInv(before);
    RecoveredIs(before, keep, kept);
    run := before + [Crash(keep, kept)];
    Replugged(s, Recovered(before, keep, kept));
  }

  lemma Replugged(s: State, s': State)
    requires HalfDone(s) && TxnCrash.Recovers(s, s', |s.wal|, s.store)
    ensures LeftBehind(s')
  {
    var keep := |s.wal|;
    assert s.wal[..keep] == s.wal;
    assert PhaseOk(s, 1) && LogOk(s, 1);
    NoCommitYet(s);
    NothingReplayed(s.store, s.wal, keep);
    TxnCrash.CutLog(s, 1, keep);
    TxnCrash.Survivor(s, s', keep, s.store, 1);
    TxnCrash.CutByCrash(s, s', keep, s.store, (X, 1));
    TxnSteps.WroteKey(s.txns[1].writes, X);
    assert Source(s, 1, X, 1);
  }

  lemma NoCommitYet(s: State)
    requires TxnInvariant.WalOk(s) && s.txns.Keys == {1} && s.txns[1].phase.Applying? && PhaseOk(s, 1) && LogOk(s, 1)
    ensures forall i :: 0 <= i < |s.wal| ==> !s.wal[i].kind.Commit?
  {
    forall i | 0 <= i < |s.wal| ensures !s.wal[i].kind.Commit? {
      if s.wal[i].kind.Commit? { TxnCrash.CommitSays(s, 1, i); }
    }
  }

  /** t is on its way, with a read of the version left behind. */
  ghost predicate ReadLeft(s: State, t: Id) {
    && s.store == map[(X, 1) := FIRST] && s.txns.Keys == {1, t} && t != 1 && (X, 1) in s.cut
    && s.txns[1].phase == Prepared && s.txns[t].writes == []
    && |s.txns[t].readSet| == 1 && s.txns[t].readSet[0].key == X && s.txns[t].readSet[0].version == 1
    && s.txns[t].readSet[0].settled
  }

  lemma ReadLeftBehind(before: seq<Step>) returns (run: seq<Step>, t: Id)
    requires LeftBehind(After(before))
    ensures ReadLeft(After(run), t) && After(run).txns[t].phase == Active
    ensures After(run).txns[t].drawn == None && After(run).txns[t].pending == None && After(run).clock == 2
  {
    var s := After(before);
    t := s.nextId;
    NextIsNew(before);
    var s1 := DoBegin(Tick(s), 1);
    run := Next(before, s, BeginTxn(1), s1);
    assert Newest(s1.store, X, 1) == Some(1);
    IsSettled(Tick(s1), t);
    var s2 := AddRead(Tick(s1), t, ReadEntry(X, 1, [1], true, {}));
    run := Next(run, s1, Read(t, X), s2);
  }

  lemma IsSettled(s: State, t: Id)
    requires s.txns.Keys == {1, t} && s.txns[1].phase == Prepared && s.txns[1].writes == [Write(X, FIRST)]
    requires s.txns[t].writes == [] && s.txns[t].phase == Active
    ensures Settled(s, X, 1, [1])
  {}

  /** What a crash left behind: the transaction in the middle of its commit is prepared again, another one
      reads the version it had put and decides to commit. The read is settled, commits are in timestamp
      order, none falls between the reader's Prepare and Commit and nobody slips in; but nobody who
      committed wrote that version. */
  lemma CutCommit() returns (run: seq<Step>, t: Id)
    ensures t in After(run).txns && After(run).txns[t].phase.Logged? && |After(run).txns[t].readSet| == 1
    ensures InOrder(After(run)) && Alone(After(run), t) && After(run).txns[t].drawn == Some(Ts(After(run).txns[t]))
    ensures var s, r := After(run), After(run).txns[t].readSet[0];
            r.settled && (forall c {:trigger Overtakes(s, c, t, r)} :: !Overtakes(s, c, t, r)) && !Fits(s, t, r)
  {
    run := Halfway();
    run := PullThePlug(run);
    run, t := ReadLeftBehind(run);
    run := CommitLeft(run, t);
    var s := After(run);
    FitsIff(run, t, 0);
    forall c ensures !Overtakes(s, c, t, s.txns[t].readSet[0]) {}
  }

  lemma CommitLeft(before: seq<Step>, t: Id) returns (run: seq<Step>)
    requires ReadLeft(After(before), t) && After(before).txns[t].phase == Active
    requires After(before).txns[t].drawn == None && After(before).txns[t].pending == None && After(before).clock == 2
    ensures ReadLeft(After(run), t) && After(run).txns[t].phase.Logged?
    ensures After(run).txns[t].drawn == Some(Ts(After(run).txns[t]))
  {
    var s := After(before);
    var s1 := DoDraw(Tick(s), t);
    run := Next(before, s, Draw(t), s1);
    assert Newest(s1.store, X, 2) == Newest(s1.store, X, 1) == Some(1);
    run := PrepareAndDecide(run, s1, t);
    assert VersionsOf([], 2) == {};
    var s2 := After(run);
    var s3 := DoLogCommit(Tick(s2), t);
    run := Next(run, s2, LogCommit(t), s3);
  }
}
