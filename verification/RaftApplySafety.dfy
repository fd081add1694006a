/** Every step of a replicated shard keeps its invariant, so replicas that have applied the same log hold
    the same store, whether they ran the transactions themselves or imported them, and after restarts. */
module RaftApplySafety {
  import opened ByteStrings
  import M = TxnModel
  import opened RaftApply
  import C = TxnCrash

  lemma PrepNext(log: seq<Entry>, i: nat)
    requires i < |log|
    ensures var p := Prep(log[..i]);
            Prep(log[..i + 1]) == match log[i]
                                  case Noop => p
                                  case Batch(t, writes) => if t in p then p else p[t := writes]
                                  case CommitEntry(t, _) => p - {t}
                                  case AbortEntry(t) => p - {t}
  {
    assert log[..i + 1][..i] == log[..i];
  }

  lemma ReplayNext(base: map<M.Version, M.Value>, log: seq<Entry>, i: nat)
    requires i < |log|
    ensures Replay(base, log[..i + 1]) ==
            if log[i].CommitEntry? && log[i].t in Prep(log[..i])
                then M.PutAll(Replay(base, log[..i]), Prep(log[..i])[log[i].t], log[i].ts)
            else Replay(base, log[..i])
  {
    assert log[..i + 1][..i] == log[..i];
  }

  /** What is prepared came from a batch. */
  lemma {:induction false} PrepFrom(log: seq<Entry>, t: Txn)
    requires t in Prep(log)
    ensures Batch(t, Prep(log)[t]) in log
  {
    var n := |log| - 1;
    if t in Prep(log[..n]) && log[n] != Batch(t, Prep(log)[t]) {
      PrepFrom(log[..n], t);
      assert Prep(log)[t] == Prep(log[..n])[t];
    }
    assert log == log[..n] + [log[n]];
  }

  // ---- Steps that do not touch a replica ----

  /** Appending to the log leaves every replica where it was. */
  lemma AppendStep(s: Shard, s': Shard, e: Entry)
    requires Inv(s) && LogOk(s') && s'.log == s.log + [e] && s'.reps == s.reps && s'.forgotten == s.forgotten
    requires s'.began == s.began
    requires forall n, t {:trigger IdOk(s', n, t)} :: n in s.reps && s.reps[n].applied <= |s.log| && IdOk(s, n, t) ==>
             IdOk(s', n, t)
    ensures Inv(s')
  {
    forall n | n in s'.reps ensures RepOk(s', n) {
      assert RepOk(s, n);
      assert s'.log[..s.reps[n].applied] == s.log[..s.reps[n].applied]
        && s'.log[..s.reps[n].peak] == s.log[..s.reps[n].peak];
    }
    forall n, t | n in s'.reps ensures IdOk(s', n, t) { assert RepOk(s, n) && IdOk(s, n, t); }
    forall n, t | n in s'.reps ensures ResultOk(s', n, t) {
      assert RepOk(s, n) && ResultOk(s, n, t);
      assert s'.log[..s.reps[n].applied] == s.log[..s.reps[n].applied];
    }
  }

  lemma ProposeBatchStep(s: Shard, n: nat, t: Txn)
    requires Inv(s) && Enabled(s, ProposeBatch(n, t))
    ensures Inv(Do(s, ProposeBatch(n, t)))
  {
    var s' := Do(s, ProposeBatch(n, t));
    BatchLogOk(s, s', n, t);
    forall m, u | m in s.reps && s.reps[m].applied <= |s.log| && IdOk(s, m, u) ensures IdOk(s', m, u) {
      assert RepOk(s, m) && s'.log[..s.reps[m].applied] == s.log[..s.reps[m].applied];
    }
    AppendStep(s, s', Batch(t, s'.batch[t]));
  }

  lemma BatchLogOk(s: Shard, s': Shard, n: nat, t: Txn)
    requires LogOk(s) && Enabled(s, ProposeBatch(n, t)) && s' == Do(s, ProposeBatch(n, t))
    ensures LogOk(s')
  {
    forall i | 0 <= i < |s'.log| && s'.log[i].CommitEntry? ensures CommitOk(s', i) {
      assert s'.log[i] == s.log[i] && CommitOk(s, i) && s'.log[..i] == s.log[..i];
    }
  }

  lemma ProposeEndStep(s: Shard, s': Shard, e: Entry)
    requires Inv(s) && s' == s.(log := s.log + [e]) && (e.AbortEntry? || (e.CommitEntry? && e.t in s.voted))
    ensures Inv(s')
  {
    forall i | 0 <= i < |s'.log| && s'.log[i].CommitEntry? ensures CommitOk(s', i) {
      if i < |s.log| { assert s'.log[i] == s.log[i] && CommitOk(s, i) && s'.log[..i] == s.log[..i]; }
      else { assert s'.log[..i] == s.log; }
    }
    forall m, u | m in s.reps && s.reps[m].applied <= |s.log| && IdOk(s, m, u) ensures IdOk(s', m, u) {
      assert s'.log[..s.reps[m].applied] == s.log[..s.reps[m].applied];
    }
    AppendStep(s, s', e);
  }

  // ---- Steps of one replica ----

  /** Only replica n changed, and what is on record about other transactions than t stays. */
  ghost predicate OnlyRep(s: Shard, s': Shard, n: nat, t: Txn) {
    && n in s.reps && n in s'.reps && s'.reps == s.reps[n := s'.reps[n]] && s'.log == s.log && s'.batch == s.batch
    && s.forgotten <= s'.forgotten && (forall u :: u in s.began ==> u in s'.began && s'.began[u] == s.began[u])
  }

  lemma RepStep(s: Shard, s': Shard, n: nat, t: Txn)
    requires Inv(s) && OnlyRep(s, s', n, t) && LogOk(s') && RepOk(s', n)
    requires forall u {:trigger IdOk(s', n, u)} :: IdOk(s', n, u)
    requires forall u {:trigger ResultOk(s', n, u)} :: ResultOk(s', n, u)
    ensures Inv(s')
  {
    forall m | m in s'.reps ensures RepOk(s', m) { if m != n { assert RepOk(s, m); } }
    forall m, u | m in s'.reps && s'.reps[m].applied <= |s'.log| ensures IdOk(s', m, u) && ResultOk(s', m, u) {
      if m != n { assert IdOk(s, m, u) && ResultOk(s, m, u); }
    }
  }

  /** A vote goes through the prepare result, which says that the batch has been applied. */
  lemma VoteStep(s: Shard, n: nat, t: Txn)
    requires Inv(s) && Enabled(s, VoteYes(n, t))
    ensures Inv(Do(s, VoteYes(n, t)))
  {
    var s', r := Do(s, VoteYes(n, t)), s.reps[n];
    assert RepOk(s, n) && ResultOk(s, n, t);
    PrepFrom(s.log[..r.applied], t);
    VotedLogOk(s, s', r.applied, t);
    forall u ensures IdOk(s', n, u) && ResultOk(s', n, u) { assert IdOk(s, n, u) && ResultOk(s, n, u); }
    RepStep(s, s', n, t);
  }

  lemma VotedLogOk(s: Shard, s': Shard, k: nat, t: Txn)
    requires LogOk(s) && s'.log == s.log && s'.batch == s.batch && s'.began == s.began && s'.forgotten == s.forgotten
    requires s'.voted == s.voted + {t} && t in s.batch && t !in s.forgotten && k <= |s.log|
    requires t in Prep(s.log[..k]) && Batch(t, Prep(s.log[..k])[t]) in s.log[..k]
    ensures LogOk(s') && HasBatch(s.log[..k], t)
  {
    var i :| 0 <= i < k && s.log[..k][i] == Batch(t, Prep(s.log[..k])[t]);
    assert s.log[i] == Batch(t, s.batch[t]);
    forall j | 0 <= j < |s'.log| && s'.log[j].CommitEntry? ensures CommitOk(s', j) { assert CommitOk(s, j); }
  }

  /** What LogOk reads has not changed. */
  lemma SameLogOk(s: Shard, s': Shard)
    requires LogOk(s) && s'.log == s.log && s'.batch == s.batch && s'.voted == s.voted && s'.voted !! s'.forgotten
    requires forall u :: u in s.began ==> u in s'.began
    ensures LogOk(s')
  {
    forall i | 0 <= i < |s'.log| && s'.log[i].CommitEntry? ensures CommitOk(s', i) { assert CommitOk(s, i); }
  }

  /** Nobody has heard of a transaction before it begins. */
  lemma Unknown(s: Shard, n: nat, t: Txn)
    requires Inv(s) && n in s.reps && t !in s.began && s.reps[n].applied <= |s.log|
    ensures t !in s.reps[n].ids && t !in Prep(s.log[..s.reps[n].applied]) && t !in s.batch
  {
    var before := s.log[..s.reps[n].applied];
    assert IdOk(s, n, t);
    if t in Prep(before) {
      PrepFrom(before, t);
    }
  }

  lemma BeginStep(s: Shard, n: nat, t: Txn)
    requires Inv(s) && Enabled(s, Begin(n, t))
    ensures Inv(Do(s, Begin(n, t)))
  {
    var s' := Do(s, Begin(n, t));
    assert RepOk(s, n);
    Unknown(s, n, t);
    SameLogOk(s, s');
    forall u ensures IdOk(s', n, u) && ResultOk(s', n, u) { assert IdOk(s, n, u) && ResultOk(s, n, u); }
    RepStep(s, s', n, t);
  }

  /** The local transaction of t changes and it has no batch yet. */
  lemma LocalStep(s: Shard, s': Shard, n: nat, t: Txn, l: Local)
    requires Inv(s) && Runs(s, n, t) && !LocalOf(s, n, t).prepared
    requires s' == s.(reps := s.reps[n := WithLocal(s.reps[n], t, l)])
    ensures Inv(s')
  {
    assert RepOk(s, n) && IdOk(s, n, t);
    SameLogOk(s, s');
    forall u ensures IdOk(s', n, u) && ResultOk(s', n, u) { assert IdOk(s, n, u) && ResultOk(s, n, u); }
    RepStep(s, s', n, t);
  }

  lemma ForgetStep(s: Shard, n: nat, t: Txn)
    requires Inv(s) && Enabled(s, Forget(n, t))
    ensures Inv(Do(s, Forget(n, t)))
  {
    var s' := Do(s, Forget(n, t));
    assert RepOk(s, n) && IdOk(s, n, t);
    SameLogOk(s, s');
    forall u ensures IdOk(s', n, u) && ResultOk(s', n, u) { assert IdOk(s, n, u) && ResultOk(s, n, u); }
    RepStep(s, s', n, t);
  }

  lemma StillPuts(log: seq<Entry>, i: nat, j: nat, v: M.Version)
    requires i <= j <= |log| && Puts(log[..i], v)
    ensures Puts(log[..j], v)
  {
    assert log[..j][..i] == log[..i];
    PutsGrow(log[..j], i, v);
  }

  lemma RestartStep(s: Shard, n: nat, kept: map<M.Version, M.Value>)
    requires Inv(s) && Enabled(s, Restart(n, kept))
    ensures Inv(Do(s, Restart(n, kept)))
  {
    var s' := Do(s, Restart(n, kept));
    var r, peak := s.reps[n], s'.reps[n].peak;
    assert RepOk(s, n);
    forall v | v in kept ensures Puts(s.log[..peak], v) {
      if v in r.store {
        ReplayAt(r.base, s.log[..r.applied], v);
        StillPuts(s.log, if Puts(s.log[..r.applied], v) then r.applied else r.peak, peak, v);
      } else {
        StillPuts(s.log, r.applied + 1, peak, v);
      }
    }
    assert s'.log[..0] == [];
    SameLogOk(s, s');
    assert RepOk(s', n);
    forall u ensures IdOk(s', n, u) && ResultOk(s', n, u) {}
    RepStep(s, s', n, 0);
  }

  // ---- Applying an entry ----

  /** The entry at the replica's position, the table before it, and the ways it can go. */
  ghost predicate Applies(s: Shard, s': Shard, n: nat, p: map<Txn, seq<M.Write>>, p': map<Txn, seq<M.Write>>) {
    && Inv(s) && Enabled(s, ApplyNext(n)) && s' == Do(s, ApplyNext(n))
    && p == Prep(s.log[..s.reps[n].applied]) && p' == Prep(s.log[..s.reps[n].applied + 1])
  }

  /** A transaction that is being committed is in the table with the log's writes, if it is prepared. */
  lemma CommitFinds(s: Shard, s': Shard, n: nat, p: map<Txn, seq<M.Write>>, p': map<Txn, seq<M.Write>>, t: Txn, ts: nat)
    requires Applies(s, s', n, p, p') && s.log[s.reps[n].applied] == CommitEntry(t, ts)
    ensures var r := s.reps[n];
            && (t in p ==> t in r.ids && r.ids[t] in r.local && r.local[r.ids[t]] == Local(true, p[t]))
            && (t !in p ==> t !in r.ids)
  {
    assert CommitOk(s, s.reps[n].applied) && RepOk(s, n) && IdOk(s, n, t);
  }

  /** A batch is applied once; the replica's own transaction has the same writes. */
  lemma BatchFinds(s: Shard, s': Shard, n: nat, p: map<Txn, seq<M.Write>>, p': map<Txn, seq<M.Write>>, t: Txn,
      writes: seq<M.Write>)
    requires Applies(s, s', n, p, p') && s.log[s.reps[n].applied] == Batch(t, writes)
    ensures var r := s.reps[n];
            t !in p && (t in r.ids ==> r.ids[t] in r.local && r.local[r.ids[t]] == Local(true, writes))
  {
    var i := s.reps[n].applied;
    assert IdOk(s, n, t);
    if t in p {
      PrepFrom(s.log[..i], t);
    }
  }

  lemma ApplyStore(s: Shard, s': Shard, n: nat, p: map<Txn, seq<M.Write>>, p': map<Txn, seq<M.Write>>)
    requires Applies(s, s', n, p, p')
    ensures s'.reps[n].store == Replay(s'.reps[n].base, s'.log[..s'.reps[n].applied])
  {
    var r := s.reps[n];
    assert RepOk(s, n);
    ReplayNext(r.base, s.log, r.applied);
    var e := s.log[r.applied];
    if e.CommitEntry? { CommitFinds(s, s', n, p, p', e.t, e.ts); }
  }

  lemma ApplyTable(r: Replica, e: Entry)
    requires TableOk(r)
    ensures TableOk(Apply(r, e)) && Apply(r, e).base == r.base && Apply(r, e).peak == r.peak
  {}

  lemma ApplyRep(s: Shard, s': Shard, n: nat, p: map<Txn, seq<M.Write>>, p': map<Txn, seq<M.Write>>)
    requires Applies(s, s', n, p, p')
    ensures RepOk(s', n)
  {
    var r, r' := s.reps[n], s'.reps[n];
    assert RepOk(s, n);
    ApplyStore(s, s', n, p, p');
    ApplyTable(r, s.log[r.applied]);
    forall v | v in r'.base ensures Puts(s'.log[..r'.peak], v) {
      StillPuts(s.log, r.peak, r'.peak, v);
    }
  }

  lemma ApplyId(s: Shard, s': Shard, n: nat, p: map<Txn, seq<M.Write>>, p': map<Txn, seq<M.Write>>, u: Txn)
    requires Applies(s, s', n, p, p') && RepOk(s', n)
    ensures IdOk(s', n, u)
  {
    var r := s.reps[n];
    var i := r.applied;
    PrepNext(s.log, i);
    assert RepOk(s, n) && IdOk(s, n, u);
    assert s.log[..i + 1] == s.log[..i] + [s.log[i]];
    match s.log[i]
    case Noop =>
    case Batch(t, writes) => BatchFinds(s, s', n, p, p', t, writes);
    case CommitEntry(t, ts) => CommitFinds(s, s', n, p, p', t, ts);
    case AbortEntry(t) =>
  }

  lemma ApplyResult(s: Shard, s': Shard, n: nat, p: map<Txn, seq<M.Write>>, p': map<Txn, seq<M.Write>>, u: Txn)
    requires Applies(s, s', n, p, p') && RepOk(s', n)
    ensures ResultOk(s', n, u)
  {
    var i := s.reps[n].applied;
    PrepNext(s.log, i);
    assert RepOk(s, n) && IdOk(s, n, u) && ResultOk(s, n, u);
    BatchNext(s.log, i, u);
    match s.log[i]
    case Noop =>
    case Batch(t, writes) => BatchFinds(s, s', n, p, p', t, writes); NotTaken(s, n, t, writes);
    case CommitEntry(t, ts) => CommitFinds(s, s', n, p, p', t, ts);
    case AbortEntry(t) =>
  }

  lemma BatchNext(log: seq<Entry>, i: nat, u: Txn)
    requires i < |log|
    ensures HasBatch(log[..i + 1], u) <==> HasBatch(log[..i], u) || (log[i].Batch? && log[i].t == u)
  {
    var a, b := log[..i], log[..i + 1];
    assert forall j :: 0 <= j < i ==> a[j] == b[j];
    assert b[i] == log[i];
  }

  /** No result of a transaction is handed out before its batch. */
  lemma NotTaken(s: Shard, n: nat, t: Txn, writes: seq<M.Write>)
    requires LogOk(s) && n in s.reps && s.reps[n].applied < |s.log| && s.log[s.reps[n].applied] == Batch(t, writes)
    requires ResultOk(s, n, t)
    ensures t !in s.reps[n].taken
  {}

  lemma ApplyStep(s: Shard, n: nat)
    requires Inv(s) && Enabled(s, ApplyNext(n))
    ensures Inv(Do(s, ApplyNext(n)))
  {
    var s', i := Do(s, ApplyNext(n)), s.reps[n].applied;
    var p, p' := Prep(s.log[..i]), Prep(s.log[..i + 1]);
    assert RepOk(s, n);
    ApplyRep(s, s', n, p, p');
    SameLogOk(s, s');
    forall u ensures IdOk(s', n, u) && ResultOk(s', n, u) {
      ApplyId(s, s', n, p, p', u);
      ApplyResult(s, s', n, p, p', u);
    }
    RepStep(s, s', n, 0);
  }

  // ---- Runs ----

  lemma {:induction false} AlwaysInv(members: set<nat>, run: seq<Step>)
    ensures Inv(After(members, run))
  {
    if run != [] {
      var s, step := After(members, run[..|run| - 1]), run[|run| - 1];
      AlwaysInv(members, run[..|run| - 1]);
      if Enabled(s, step) { StepKeepsInv(s, step); }
    }
  }

  lemma StepKeepsInv(s: Shard, step: Step)
    requires Inv(s) && Enabled(s, step)
    ensures Inv(Do(s, step))
  {
    match step
    case Begin(n, t) => BeginStep(s, n, t);
    case BufferWrite(n, t, w) => LocalStep(s, Do(s, step), n, t, Local(false, LocalOf(s, n, t).writes + [w]));
    case PrepareLocal(n, t) => LocalStep(s, Do(s, step), n, t, Local(true, LocalOf(s, n, t).writes));
    case ProposeBatch(n, t) => ProposeBatchStep(s, n, t);
    case VoteYes(n, t) => VoteStep(s, n, t);
    case Forget(n, t) => ForgetStep(s, n, t);
    case ProposeCommit(t, ts) => ProposeEndStep(s, Do(s, step), CommitEntry(t, ts));
    case ProposeAbort(t) => ProposeEndStep(s, Do(s, step), AbortEntry(t));
    case ApplyNext(n) => ApplyStep(s, n);
    case Restart(n, kept) => RestartStep(s, n, kept);
  }

  /** A replica that has caught up with what it had applied before its last restart holds exactly what the
      log it has applied says, however often it restarted, in the middle of an entry or between two,
      whatever part of its store survived and whichever transactions it ran itself. */
  lemma ReplicaMatchesLog(members: set<nat>, run: seq<Step>, n: nat)
    requires n in After(members, run).reps && After(members, run).reps[n].applied == After(members, run).reps[n].peak
    ensures var s := After(members, run);
            s.reps[n].applied <= |s.log| && s.reps[n].store == Replay(map[], s.log[..s.reps[n].applied])
  {
    var s := After(members, run);
    AlwaysInv(members, run);
    assert RepOk(s, n);
    ReplayIsIdempotentIff(s.reps[n].base, s.log[..s.reps[n].applied]);
  }

  /** Two replicas that have applied equally much of the log hold the same store. */
  lemma ReplicasAgree(members: set<nat>, run: seq<Step>, n: nat, m: nat)
    requires n in After(members, run).reps && m in After(members, run).reps
    requires After(members, run).reps[n].applied == After(members, run).reps[n].peak
    requires After(members, run).reps[m].applied == After(members, run).reps[m].peak
    requires After(members, run).reps[n].applied == After(members, run).reps[m].applied
    ensures After(members, run).reps[n].store == After(members, run).reps[m].store
  {
    ReplicaMatchesLog(members, run, n);
    ReplicaMatchesLog(members, run, m);
  }

  // ---- Prepare results ----

  ghost predicate Ends(e: Entry, t: Txn) { (e.CommitEntry? || e.AbortEntry?) && e.t == t }

  /** What was prepared and is not ended is still prepared. */
  lemma {:induction false} StaysPrepared(log: seq<Entry>, t: Txn)
    requires HasBatch(log, t) && forall i :: 0 <= i < |log| ==> !Ends(log[i], t)
    ensures t in Prep(log)
  {
    var n := |log| - 1;
    if !(log[n].Batch? && log[n].t == t) {
      var i :| 0 <= i < |log| && log[i].Batch? && log[i].t == t;
      assert log[..n][i] == log[i];
      StaysPrepared(log[..n], t);
    }
  }

  /** In every run: a replica that has applied a transaction's batch, and no end of it, holds a successful
      prepare result for it, unless it has handed the result out or dropped the transaction before. */
  lemma AppliedMeansSuccess(members: set<nat>, run: seq<Step>, n: nat, t: Txn)
    requires n in After(members, run).reps && After(members, run).reps[n].applied <= |After(members, run).log|
    requires var s := After(members, run); var log := s.log[..s.reps[n].applied];
             HasBatch(log, t) && (forall i :: 0 <= i < |log| ==> !Ends(log[i], t))
    ensures var s := After(members, run); var r := s.reps[n];
            if t in s.forgotten || t in r.taken then t in r.results ==> r.results[t]
            else t in r.ids && t in r.results && r.results[t]
  {
    var s := After(members, run);
    AlwaysInv(members, run);
    StaysPrepared(s.log[..s.reps[n].applied], t);
    assert IdOk(s, n, t) && ResultOk(s, n, t);
  }

  /** So the replica a transaction runs on can vote yes as soon as it has applied the batch, and then the
      commit can be proposed. */
  lemma AppliedMeansVote(members: set<nat>, run: seq<Step>, n: nat, t: Txn)
    requires n in After(members, run).reps && After(members, run).reps[n].applied <= |After(members, run).log|
    requires var s := After(members, run); var log := s.log[..s.reps[n].applied];
             && HasBatch(log, t) && (forall i :: 0 <= i < |log| ==> !Ends(log[i], t))
             && t in s.began && s.began[t] == n && t !in s.forgotten && t !in s.reps[n].taken
    ensures Enabled(After(members, run), VoteYes(n, t))
    ensures t in After(members, run + [VoteYes(n, t)]).voted
  {
    var s := After(members, run);
    AppliedMeansSuccess(members, run, n, t);
    AlwaysInv(members, run);
    assert IdOk(s, n, t);
    StaysPrepared(s.log[..s.reps[n].applied], t);
    var i :| 0 <= i < s.reps[n].applied && s.log[..s.reps[n].applied][i].Batch? && s.log[..s.reps[n].applied][i].t == t;
    assert s.log[i].Batch? && s.log[i].t == t;
    assert (run + [VoteYes(n, t)])[..|run|] == run;
  }

  // ---- What a commit leaves in the store ----

  /** A version stays as it is under commits at other timestamps. */
  lemma {:induction false} ReplayKeeps(base: map<M.Version, M.Value>, log: seq<Entry>, i: nat, v: M.Version)
    requires i <= |log| && v in Replay(base, log[..i])
    requires forall j :: i <= j < |log| && log[j].CommitEntry? ==> log[j].ts != v.1
    ensures v in Replay(base, log) && Replay(base, log)[v] == Replay(base, log[..i])[v]
    decreases |log|
  {
    if i == |log| {
      assert log[..i] == log;
    } else {
      var n := |log| - 1;
      assert log[..n][..i] == log[..i];
      ReplayKeeps(base, log[..n], i, v);
      if log[n].CommitEntry? && log[n].t in Prep(log[..n]) {
        C.PutAllAt(Replay(base, log[..n]), Prep(log[..n])[log[n].t], log[n].ts, v);
      }
    }
  }

  /** In every run: if entry i of the log commits t at ts, as the first entry to end t, then every replica
      that has applied it, and no other commit at ts behind it, has the last value t wrote for each key
      at ts. */
  lemma CommitIsStored(members: set<nat>, run: seq<Step>, n: nat, i: nat, k: Key)
    requires n in After(members, run).reps && i < After(members, run).reps[n].applied <= |After(members, run).log|
    requires var log, a := After(members, run).log, After(members, run).reps[n].applied;
             && log[i].CommitEntry? && (forall j :: 0 <= j < i ==> !Ends(log[j], log[i].t))
             && (forall j :: i < j < a && log[j].CommitEntry? ==> log[j].ts != log[i].ts)
    ensures var s := After(members, run); var t, ts, store := s.log[i].t, s.log[i].ts, s.reps[n].store;
            && t in s.batch
            && (M.LastWrite(s.batch[t], k).Some? ==>
                  (k, ts) in store && Some(store[(k, ts)]) == M.Kept(M.LastWrite(s.batch[t], k)))
  {
    var s := After(members, run);
    var r, t := s.reps[n], s.log[i].t;
    AlwaysInv(members, run);
    assert RepOk(s, n) && CommitOk(s, i);
    PreparedAt(s, i, t);
    assert s.log[..r.applied][..i] == s.log[..i];
    StoredHere(r.base, s.log[..r.applied], i, s.batch[t], k);
  }

  lemma PreparedAt(s: Shard, i: nat, t: Txn)
    requires LogOk(s) && i < |s.log| && s.log[i].CommitEntry? && s.log[i].t == t && CommitOk(s, i)
    requires forall j :: 0 <= j < i ==> !Ends(s.log[j], t)
    ensures t in Prep(s.log[..i]) && Prep(s.log[..i])[t] == s.batch[t]
  {
    var before := s.log[..i];
    var j :| 0 <= j < i && before[j] == Batch(t, s.batch[t]);
    StaysPrepared(before, t);
    PrepFrom(before, t);
    var k :| 0 <= k < i && before[k] == Batch(t, Prep(before)[t]);
    assert s.log[k] == before[k];
  }

  lemma StoredHere(base: map<M.Version, M.Value>, log: seq<Entry>, i: nat, writes: seq<M.Write>, k: Key)
    requires i < |log| && log[i].CommitEntry? && log[i].t in Prep(log[..i]) && Prep(log[..i])[log[i].t] == writes
    requires forall j :: i < j < |log| && log[j].CommitEntry? ==> log[j].ts != log[i].ts
    ensures M.LastWrite(writes, k).Some? ==>
              && (k, log[i].ts) in Replay(base, log)
              && Some(Replay(base, log)[(k, log[i].ts)]) == M.Kept(M.LastWrite(writes, k))
  {
    if M.LastWrite(writes, k).Some? {
      ReplayNext(base, log, i);
      C.PutAllAt(Replay(base, log[..i]), writes, log[i].ts, (k, log[i].ts));
      ReplayKeeps(base, log, i + 1, (k, log[i].ts));
    }
  }
}
