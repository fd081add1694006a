/** When the reads of committed transactions agree with running them one at a time in the order of
    their commit timestamps, in every run, crashes included. */
module TxnSerial {
  import opened ByteStrings
  import opened TxnModel
  import opened TxnInvariant
  import opened TxnSafety
  import opened TxnSteps
  import opened TxnCrash

  /** c decided to commit a write of k with a timestamp below t's. */
  ghost predicate Earlier(s: State, c: Id, t: Id, k: Key)
    requires t in s.txns && Committing(s.txns[t])
  {
    c in s.txns && c != t && Committing(s.txns[c]) && Wrote(s.txns[c], k) && Ts(s.txns[c]) < Ts(s.txns[t])
  }

  /** Run one at a time in timestamp order, t would find in k exactly what r says it found: c is the last
      transaction before t that writes k, and r has its version and its last value. */
  ghost predicate Fits(s: State, t: Id, r: ReadEntry)
    requires t in s.txns && Committing(s.txns[t])
  {
    exists c ::
      && Earlier(s, c, t, r.key) && Ts(s.txns[c]) == r.version && Wins(s, c, r)
      && forall d {:trigger Earlier(s, d, t, r.key)} :: Earlier(s, d, t, r.key) ==> Ts(s.txns[d]) <= r.version
  }

  /** c slipped in: its version of the key was not there when t validated this read of it, or its
      timestamp lies above the one t validated with. */
  ghost predicate Overtakes(s: State, c: Id, t: Id, r: ReadEntry)
    requires t in s.txns && Committing(s.txns[t])
  {
    && Earlier(s, c, t, r.key)
    && var ts, x := Ts(s.txns[c]), s.txns[t];
       !((r.key, ts) in r.checked && x.drawn.Some? && ts < x.drawn.value)
  }

  /** Commit-order serializability, exactly: a read of a committed transaction fits the timestamp order if
      and only if it was not taken in the middle of its writer's changes to the key, the version is not
      one that a crash left behind of a commit it cut short, and no earlier transaction slipped in on the
      key after the read was validated. */
  lemma FitsIff(run: seq<Step>, t: Id, i: nat)
    requires t in After(run).txns && Committing(After(run).txns[t]) && i < |After(run).txns[t].readSet|
    ensures var s, r := After(run), After(run).txns[t].readSet[i];
            Fits(s, t, r) <==>
            && r.settled && (r.key, r.version) !in s.cut
            && forall c {:trigger Overtakes(s, c, t, r)} :: !Overtakes(s, c, t, r)
  {
    var s, r := After(run), After(run).txns[t].readSet[i];
    AlwaysInv(run);
    assert PhaseOk(s, t) && ReadOk(s, t, i) && ValidOk(s, t, i);
    if (r.key, r.version) in s.cut {
      forall c ensures !Source(s, c, r.key, r.version) { assert CutOk(s, c, r.key, r.version); }
      HasSource(s, t, r);
    } else {
      var c0 :| Source(s, c0, r.key, r.version);
      assert MaySource(s, c0, r.key, r.version);
      forall c | Earlier(s, c, t, r.key) ensures Overtakes(s, c, t, r) <==> Ts(s.txns[c]) > r.version {
        LateIff(s, t, i, c0, c);
      }
      OneSource(s, t, r, c0);
    }
  }

  lemma HasSource(s: State, t: Id, r: ReadEntry)
    requires t in s.txns && Committing(s.txns[t])
    ensures Fits(s, t, r) ==> exists c :: Source(s, c, r.key, r.version)
  {
    if Fits(s, t, r) {
      var c :| Earlier(s, c, t, r.key) && Ts(s.txns[c]) == r.version;
      assert Source(s, c, r.key, r.version);
    }
  }

  lemma OneSource(s: State, t: Id, r: ReadEntry, c0: Id)
    requires t in s.txns && Committing(s.txns[t]) && c0 != t && Source(s, c0, r.key, r.version)
    requires r.version < Ts(s.txns[t]) && AllTs(s)
    ensures Fits(s, t, r) <==>
            && Wins(s, c0, r)
            && forall d {:trigger Earlier(s, d, t, r.key)} :: Earlier(s, d, t, r.key) ==> Ts(s.txns[d]) <= r.version
  {
    assert Earlier(s, c0, t, r.key);
    forall c | c in s.txns && Committing(s.txns[c]) && Ts(s.txns[c]) == r.version
      ensures c == c0
    { assert TsOk(s, c, c0); }
  }

  /** An earlier writer of the key slipped in exactly when its version is newer than the one read. */
  lemma LateIff(s: State, t: Id, i: nat, c0: Id, c: Id)
    requires Inv(s) && t in s.txns && Committing(s.txns[t]) && i < |s.txns[t].readSet|
    requires c0 != t && Source(s, c0, s.txns[t].readSet[i].key, s.txns[t].readSet[i].version)
    requires Earlier(s, c, t, s.txns[t].readSet[i].key)
    ensures var r := s.txns[t].readSet[i]; Overtakes(s, c, t, r) <==> Ts(s.txns[c]) > r.version
  {
    var r := s.txns[t].readSet[i];
    assert PhaseOk(s, t) && ValidOk(s, t, i);
    assert TsOk(s, c0, c) && TsOk(s, c, t);
    if Ts(s.txns[c]) < r.version { OlderSeen(s, t, i, c0, c); }
  }

  /** A writer older than the version read was in the store when the read was validated. */
  lemma OlderSeen(s: State, t: Id, i: nat, c0: Id, c: Id)
    requires Inv(s) && t in s.txns && i < |s.txns[t].readSet| && Committing(s.txns[t])
    requires Source(s, c0, s.txns[t].readSet[i].key, s.txns[t].readSet[i].version)
    requires c in s.txns && Committing(s.txns[c]) && Wrote(s.txns[c], s.txns[t].readSet[i].key)
    requires Ts(s.txns[c]) < Ts(s.txns[c0])
    ensures (s.txns[t].readSet[i].key, Ts(s.txns[c])) in s.txns[t].readSet[i].checked
  {
    var k := s.txns[t].readSet[i].key;
    assert PhaseOk(s, t) && PhaseOk(s, c) && PhaseOk(s, c0) && ValidOk(s, t, i);
    assert LocksOk(s, c, k) && LocksOk(s, c0, k) && PairOk(s, c0, c, k) && SeenOk(s, t, i, c, c0);
  }

  // ---- The condition in terms of when transactions prepare and commit ----

  /** Commit timestamps increase with the order of the commits. */
  ghost predicate InOrder(s: State) {
    forall c, d {:trigger s.txns[c].committedAt, s.txns[d].committedAt} ::
      (c in s.txns && d in s.txns && Committing(s.txns[c]) && Committing(s.txns[d])
       && s.txns[c].committedAt > s.txns[d].committedAt) ==> Ts(s.txns[c]) > Ts(s.txns[d])
  }

  /** No other commit falls between t's Prepare and its Commit: another committing transaction either
      starts to commit later than t or had its COMMIT record in the log before t began to prepare. */
  ghost predicate Alone(s: State, t: Id)
    requires t in s.txns && Committing(s.txns[t])
  {
    forall c {:trigger s.txns[c].committedAt} :: c in s.txns && c != t && Committing(s.txns[c]) ==>
      || s.txns[c].committedAt > s.txns[t].committedAt
      || (Sealed(s.txns[c]) && s.txns[c].loggedAt < s.txns[t].preparingAt)
  }

  /** Then a read of t fits the timestamp order exactly if it is settled and no crash left the version
      behind. */
  lemma AloneFits(run: seq<Step>, t: Id, i: nat)
    requires t in After(run).txns && Committing(After(run).txns[t]) && i < |After(run).txns[t].readSet|
    requires InOrder(After(run)) && Alone(After(run), t)
    requires After(run).txns[t].drawn == Some(Ts(After(run).txns[t]))
    ensures var s, r := After(run), After(run).txns[t].readSet[i];
            Fits(s, t, r) <==> r.settled && (r.key, r.version) !in s.cut
  {
    FitsIff(run, t, i);
    AlwaysInv(run);
    var s, r := After(run), After(run).txns[t].readSet[i];
    forall c ensures !Overtakes(s, c, t, r) {
      if Earlier(s, c, t, r.key) { WasSeen(s, t, i, c); }
    }
  }

  /** An earlier writer had committed before t began to prepare, so t's validation saw its version. */
  lemma WasSeen(s: State, t: Id, i: nat, c: Id)
    requires Inv(s) && t in s.txns && Committing(s.txns[t]) && i < |s.txns[t].readSet|
    requires InOrder(s) && Alone(s, t) && Earlier(s, c, t, s.txns[t].readSet[i].key)
    ensures (s.txns[t].readSet[i].key, Ts(s.txns[c])) in s.txns[t].readSet[i].checked
  {
    assert s.txns[c].committedAt <= s.txns[t].committedAt;
    assert PhaseOk(s, t) && SealedOk(s, t, i, c);
  }

  // ---- The same in terms of the steps of a run ----

  ghost predicate Starts(step: Step, c: Id) { step.StartCommit? && step.t == c }

  /** Whoever is committing was so before, or starts now. */
  ghost predicate CommitKept(s: State, s': State, step: Step, c: Id)
    requires c in s'.txns
  {
    var y := s'.txns[c];
    Committing(y) ==>
      && c in s.txns
      && var x := s.txns[c];
         if Committing(x) then
           && y.committedAt == x.committedAt
           && (Sealed(x) ==> Sealed(y) && y.loggedAt == x.loggedAt)
         else Starts(step, c) && y.committedAt == s'.now
  }

  predicate Preparing(x: Txn) { x.phase.Validating? || x.prepared.Some? }

  /** Whoever is preparing or has prepared was so before, or starts now. */
  ghost predicate PrepareKept(s: State, s': State, c: Id)
    requires c in s'.txns
  {
    var y := s'.txns[c];
    Preparing(y) ==>
      || y.preparingAt == s'.now
      || (c in s.txns && Preparing(s.txns[c]) && y.preparingAt == s.txns[c].preparingAt)
  }

  /** A step of one transaction dates nothing but what it starts. */
  lemma MoveDates(s: State, s': State, step: Step, c: Id)
    requires Enabled(s, step) && !step.Crash? && s' == Do(s, step) && c in s'.txns
    ensures CommitKept(s, s', step, c) && PrepareKept(s, s', c)
  {}

  lemma CrashDates(s: State, s': State, keep: nat, kept: map<Version, Value>, c: Id)
    requires Recovers(s, s', keep, kept) && c in s'.txns
    ensures CommitKept(s, s', Crash(keep, kept), c) && PrepareKept(s, s', c)
  {
    Survivor(s, s', keep, kept, c);
  }

  ghost predicate Dated(s: State, s': State, step: Step) {
    && s'.now == s.now + 1
    && (forall c {:trigger s'.txns[c]} :: c in s'.txns ==> CommitKept(s, s', step, c) && PrepareKept(s, s', c))
  }

  lemma StepDates(s: State, s': State, step: Step)
    requires Inv(s) && Enabled(s, step) && s' == Do(s, step)
    ensures Dated(s, s', step)
  {
    OneTick(s, step);
    forall c | c in s'.txns ensures CommitKept(s, s', step, c) && PrepareKept(s, s', c) {
      if step.Crash? { CrashDates(s, s', step.keep, step.kept, c); } else { MoveDates(s, s', step, c); }
    }
  }

  lemma OneTick(s: State, step: Step)
    requires Enabled(s, step)
    ensures Do(s, step).now == s.now + 1
  {}

  /** Step i of the run begins t's Prepare and step j its commit. Nobody is in the middle of a commit at
      step i, and nobody else starts one before step j. */
  ghost predicate Undisturbed(run: seq<Step>, t: Id, i: nat, j: nat) {
    && i < j < |run| && run[i] == StartPrepare(t) && Enabled(After(run[..i]), run[i])
    && Starts(run[j], t) && Enabled(After(run[..j]), run[j])
    && (forall c :: c in After(run[..i]).txns ==> !After(run[..i]).txns[c].phase.Applying?)
    && (forall m :: i < m < j && run[m].StartCommit? ==> run[m].t == t)
  }

  /** From t's Prepare on: the others that are committing had logged their COMMIT before. */
  ghost predicate Quiet(s: State, t: Id, from: nat) {
    && from <= s.now
    && (forall c :: c in s.txns && c != t && Committing(s.txns[c]) ==> Sealed(s.txns[c]) && s.txns[c].loggedAt < from)
    && (t in s.txns && Preparing(s.txns[t]) ==> from <= s.txns[t].preparingAt)
  }

  /** From t's commit on: so had those that did not start later. */
  ghost predicate Settling(s: State, t: Id, from: nat, at: nat) {
    && from <= at <= s.now
    && (forall c :: c in s.txns && c != t && Committing(s.txns[c]) ==>
          s.txns[c].committedAt > at || (Sealed(s.txns[c]) && s.txns[c].loggedAt < from))
    && (t in s.txns && Preparing(s.txns[t]) ==> from <= s.txns[t].preparingAt)
  }

  lemma QuietKept(s: State, s': State, step: Step, t: Id, from: nat)
    requires Dated(s, s', step) && Quiet(s, t, from) && (step.StartCommit? ==> step.t == t)
    ensures Quiet(s', t, from)
  {}

  lemma SettlingKept(s: State, s': State, step: Step, t: Id, from: nat, at: nat)
    requires Dated(s, s', step) && Settling(s, t, from, at)
    ensures Settling(s', t, from, at)
  {}

  lemma QuietStep(s: State, step: Step, t: Id, from: nat)
    requires Inv(s) && Quiet(s, t, from) && (step.StartCommit? ==> step.t == t)
    ensures Quiet(Take(s, step), t, from)
  {
    if Enabled(s, step) {
      StepDates(s, Do(s, step), step);
      QuietKept(s, Do(s, step), step, t, from);
    }
  }

  lemma SettlingStep(s: State, step: Step, t: Id, from: nat, at: nat)
    requires Inv(s) && Settling(s, t, from, at)
    ensures Settling(Take(s, step), t, from, at)
  {
    if Enabled(s, step) {
      StepDates(s, Do(s, step), step);
      SettlingKept(s, Do(s, step), step, t, from, at);
    }
  }

  /** When t begins to prepare and nobody is in the middle of a commit. */
  lemma QuietStart(s: State, s': State, t: Id)
    requires Dated(s, s', StartPrepare(t)) && t in s'.txns && s'.txns[t].preparingAt == s'.now
    requires forall c :: c in s.txns ==> PhaseOk(s, c) && !s.txns[c].phase.Applying?
    ensures Quiet(s', t, s'.now)
  {}

  lemma {:induction false} QuietUntil(run: seq<Step>, t: Id, i: nat, j: nat, n: nat)
    requires Undisturbed(run, t, i, j) && i < n <= j
    ensures Quiet(After(run[..n]), t, After(run[..i]).now + 1)
    decreases n
  {
    var s, from := After(run[..n - 1]), After(run[..i]).now + 1;
    AlwaysInv(run[..n - 1]);
    AfterNext(run[..n - 1], run[n - 1]);
    assert run[..n] == run[..n - 1] + [run[n - 1]];
    if n == i + 1 {
      StepDates(s, After(run[..n]), run[i]);
      QuietStart(s, After(run[..n]), t);
    } else {
      QuietUntil(run, t, i, j, n - 1);
      QuietStep(s, run[n - 1], t, from);
    }
  }

  lemma {:induction false} SettlingUntil(run: seq<Step>, t: Id, i: nat, j: nat, n: nat)
    requires Undisturbed(run, t, i, j) && j < n <= |run|
    ensures Settling(After(run[..n]), t, After(run[..i]).now + 1, After(run[..j]).now + 1)
    decreases n
  {
    var s := After(run[..n - 1]);
    AlwaysInv(run[..n - 1]);
    AfterNext(run[..n - 1], run[n - 1]);
    assert run[..n] == run[..n - 1] + [run[n - 1]];
    if n == j + 1 {
      QuietUntil(run, t, i, j, j);
      OneTick(s, run[j]);
      QuietStep(s, run[j], t, After(run[..i]).now + 1);
    } else {
      SettlingUntil(run, t, i, j, n - 1);
      SettlingStep(s, run[n - 1], t, After(run[..i]).now + 1, After(run[..j]).now + 1);
    }
  }

  /** A transaction whose Prepare and commit are undisturbed is alone, whatever happens before and after. */
  lemma UndisturbedIsAlone(run: seq<Step>, t: Id, i: nat, j: nat)
    requires Undisturbed(run, t, i, j) && t in After(run).txns && Committing(After(run).txns[t])
    requires After(run).txns[t].committedAt == After(run[..j]).now + 1
    ensures Alone(After(run), t)
  {
    SettlingUntil(run, t, i, j, |run|);
    assert run[..|run|] == run;
    AlwaysInv(run);
    assert PhaseOk(After(run), t);
  }

  /** So its settled reads fit the timestamp order, unless a crash left the version behind. */
  lemma UndisturbedFits(run: seq<Step>, t: Id, i: nat, j: nat, n: nat)
    requires Undisturbed(run, t, i, j) && t in After(run).txns && Committing(After(run).txns[t])
    requires After(run).txns[t].committedAt == After(run[..j]).now + 1 && n < |After(run).txns[t].readSet|
    requires InOrder(After(run)) && After(run).txns[t].drawn == Some(Ts(After(run).txns[t]))
    ensures var s, r := After(run), After(run).txns[t].readSet[n];
            Fits(s, t, r) <==> r.settled && (r.key, r.version) !in s.cut
  {
    UndisturbedIsAlone(run, t, i, j);
    AloneFits(run, t, n);
  }
}
