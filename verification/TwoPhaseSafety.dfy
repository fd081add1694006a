/** No shard commits what another aborts, whatever crashes the coordinator suffers. */
module TwoPhaseSafety {
  import opened TwoPhaseCommit

  ghost predicate HasRecord(log: seq<Record>, kind: RecordKind, t: TxnId) {
    exists i :: 0 <= i < |log| && log[i].kind == kind && log[i].txn == t
  }

  /** Someone is committing, may be told to commit, or has committed t. */
  ghost predicate CommitSign(s: System, t: TxnId) {
    || (t in s.phase && s.phase[t].Committing?)
    || HasRecord(s.log, COMMITTING, t) || HasRecord(s.log, COMMITTED, t)
    || exists x :: (t, x) in s.committed
  }

  ghost predicate AbortSign(s: System, t: TxnId) {
    || (t in s.phase && s.phase[t] == Aborting)
    || HasRecord(s.log, ABORTING, t) || HasRecord(s.log, ABORTED, t)
    || exists x :: (t, x) in s.aborted
  }

  /** Shard x has voted yes on t and has not gone back on it. */
  ghost predicate Ready(s: System, t: TxnId, x: Shard) {
    x in s.shards && (t, x) in s.votedYes && (Query(s.shards[x], t) == Prepared || Query(s.shards[x], t) == Committed)
  }

  ghost predicate SeenOk(s: System, t: TxnId, seen: Seen) {
    && (seen.committing <==> HasRecord(s.log, COMMITTING, t))
    && (seen.committed <==> HasRecord(s.log, COMMITTED, t))
    && (seen.aborting <==> HasRecord(s.log, ABORTING, t))
    && (seen.aborted <==> HasRecord(s.log, ABORTED, t))
    && (seen.preparing <==> HasRecord(s.log, PREPARING, t))
    && (seen.preparing ==> t in s.parts && seen.shards == s.parts[t])
  }

  ghost predicate TxnOk(s: System, t: TxnId)
    requires t in s.parts
  {
    && !(CommitSign(s, t) && AbortSign(s, t))
    && (CommitSign(s, t) ==> forall x {:trigger Ready(s, t, x)} :: x in s.parts[t] ==> Ready(s, t, x))
    && (t in s.phase ==> match s.phase[t]
        case Active => !CommitSign(s, t) && !AbortSign(s, t) && !HasRecord(s.log, PREPARING, t)
        case LoggingPrepare => !CommitSign(s, t) && !AbortSign(s, t)
        case Preparing(yes) =>
          && !CommitSign(s, t) && !HasRecord(s.log, ABORTING, t) && !HasRecord(s.log, ABORTED, t)
          && yes <= s.parts[t] && forall x {:trigger Ready(s, t, x)} :: x in yes ==> Ready(s, t, x)
        case _ => true)
    && (t in s.todo ==> t !in s.phase && SeenOk(s, t, s.todo[t]))
  }

  /** A shard's tables agree with what it ever did. */
  ghost predicate ShardOk(s: System, x: Shard, t: TxnId)
    requires x in s.shards
  {
    var p := s.shards[x];
    && (t in p.pending && p.pending[t] ==> (t, x) in s.votedYes)
    && (t in p.pending || t in p.terminal || (t, x) in s.committed || (t, x) in s.aborted ==>
        t in s.parts && x in s.parts[t])
    && ((t, x) in s.committed <==> t in p.terminal && p.terminal[t])
    && ((t, x) in s.aborted ==> t !in p.pending)
    && (t in p.terminal && !p.terminal[t] ==> (t, x) in s.aborted)
  }

  ghost predicate LogOk(s: System) {
    && s.durable <= |s.log|
    && forall i :: 0 <= i < |s.log| ==>
         s.log[i].txn in s.parts && (s.log[i].kind == PREPARING ==> s.log[i].shards == s.parts[s.log[i].txn])
  }

  ghost predicate Inv(s: System) {
    && LogOk(s) && s.phase.Keys <= s.parts.Keys && s.todo.Keys <= s.parts.Keys
    && (forall t :: t in s.parts ==> s.parts[t] <= s.shards.Keys)
    && (forall t, x :: (t, x) in s.committed || (t, x) in s.aborted ==> x in s.shards)
    && (forall t {:trigger TxnOk(s, t)} :: t in s.parts ==> TxnOk(s, t))
    && (forall x, t {:trigger ShardOk(s, x, t)} :: x in s.shards ==> ShardOk(s, x, t))
  }

  // ---- Replay ----

  /** Replaying the log tells recovery exactly which records it holds. */
  lemma {:induction false} ReplaySees(log: seq<Record>, t: TxnId, parts: set<Shard>)
    requires forall i :: 0 <= i < |log| && log[i].txn == t && log[i].kind == PREPARING ==> log[i].shards == parts
    ensures var seen := Replay(log, t);
            && (seen.preparing <==> HasRecord(log, PREPARING, t)) && (seen.preparing ==> seen.shards == parts)
            && (seen.committing <==> HasRecord(log, COMMITTING, t))
            && (seen.committed <==> HasRecord(log, COMMITTED, t))
            && (seen.aborting <==> HasRecord(log, ABORTING, t)) && (seen.aborted <==> HasRecord(log, ABORTED, t))
  {
    if log != [] {
      var rest, r := log[..|log| - 1], log[|log| - 1];
      ReplaySees(rest, t, parts);
      forall k: RecordKind ensures HasRecord(log, k, t) <==> HasRecord(rest, k, t) || (r.kind == k && r.txn == t) {
        LastRecord(rest, r, k, t);
        assert log == rest + [r];
      }
    }
  }

  lemma LastRecord(log: seq<Record>, r: Record, k: RecordKind, t: TxnId)
    ensures HasRecord(log + [r], k, t) <==> HasRecord(log, k, t) || (r.kind == k && r.txn == t)
  {
    if HasRecord(log, k, t) {
      var i :| 0 <= i < |log| && log[i].kind == k && log[i].txn == t;
      assert (log + [r])[i] == log[i];
    }
    if r.kind == k && r.txn == t { assert (log + [r])[|log|] == r; }
  }

  // ---- Steps ----

  /** Appending a record adds that sign for its transaction and nothing else. */
  lemma LoggedSigns(s: System, s': System, kind: RecordKind, t: TxnId)
    requires |s'.log| == |s.log| + 1 && s'.log == s.log + [Record(kind, t, s'.log[|s.log|].shards)]
    ensures forall k, u :: HasRecord(s'.log, k, u) <==> HasRecord(s.log, k, u) || (k == kind && u == t)
  {
    forall k, u ensures HasRecord(s'.log, k, u) <==> HasRecord(s.log, k, u) || (k == kind && u == t) {
      LastRecord(s.log, s'.log[|s.log|], k, u);
    }
  }

  ghost predicate SameFor(p: Participant, p': Participant, u: TxnId) {
    && (u in p'.pending <==> u in p.pending) && (u in p.pending ==> p'.pending[u] == p.pending[u])
    && (u in p'.terminal <==> u in p.terminal) && (u in p.terminal ==> p'.terminal[u] == p.terminal[u])
  }

  ghost predicate SameTxn(s: System, s': System, u: TxnId) {
    && (u in s'.parts <==> u in s.parts) && (u in s.parts ==> s'.parts[u] == s.parts[u])
    && (u in s'.phase <==> u in s.phase) && (u in s.phase ==> s'.phase[u] == s.phase[u])
    && (u in s'.todo <==> u in s.todo) && (u in s.todo ==> s'.todo[u] == s.todo[u])
    && (forall k :: HasRecord(s'.log, k, u) <==> HasRecord(s.log, k, u))
  }

  ghost predicate SameAt(s: System, s': System, x: Shard, u: TxnId)
    requires x in s.shards && x in s'.shards
  {
    && SameFor(s.shards[x], s'.shards[x], u)
    && ((u, x) in s'.votedYes <==> (u, x) in s.votedYes)
    && ((u, x) in s'.committed <==> (u, x) in s.committed)
    && ((u, x) in s'.aborted <==> (u, x) in s.aborted)
  }

  /** A step of transaction t leaves every other transaction as it was. */
  ghost predicate OnlyTxn(s: System, s': System, t: TxnId) {
    && s'.shards.Keys == s.shards.Keys
    && (forall u {:trigger SameTxn(s, s', u)} :: u != t ==> SameTxn(s, s', u))
    && (forall x, u {:trigger SameAt(s, s', x, u)} :: u != t && x in s.shards ==> SameAt(s, s', x, u))
    && (forall u, x :: (u, x) in s'.committed || (u, x) in s'.aborted ==> x in s.shards)
  }

  lemma OthersKeep(s: System, s': System, t: TxnId)
    requires Inv(s) && OnlyTxn(s, s', t)
    ensures forall u {:trigger TxnOk(s', u)} :: u in s'.parts && u != t ==> TxnOk(s', u)
    ensures forall x, u {:trigger ShardOk(s', x, u)} :: x in s'.shards && u != t ==> ShardOk(s', x, u)
  {
    forall u | u in s'.parts && u != t ensures TxnOk(s', u) {
      assert SameTxn(s, s', u);
      assert TxnOk(s, u);
      SameSigns(s, s', u);
    }
    forall x, u | x in s'.shards && u != t ensures ShardOk(s', x, u) {
      assert SameTxn(s, s', u) && SameAt(s, s', x, u);
      assert ShardOk(s, x, u);
    }
  }

  lemma SameSigns(s: System, s': System, u: TxnId)
    requires SameTxn(s, s', u) && s'.shards.Keys == s.shards.Keys
    requires forall x {:trigger SameAt(s, s', x, u)} :: x in s.shards ==> SameAt(s, s', x, u)
    requires forall u, x :: (u, x) in s.committed || (u, x) in s.aborted ==> x in s.shards
    requires forall u, x :: (u, x) in s'.committed || (u, x) in s'.aborted ==> x in s.shards
    ensures CommitSign(s', u) == CommitSign(s, u) && AbortSign(s', u) == AbortSign(s, u)
    ensures forall x {:trigger Ready(s', u, x)} :: Ready(s', u, x) <==> Ready(s, u, x)
  {
    forall x | x in s.shards ensures (u, x) in s'.committed <==> (u, x) in s.committed { assert SameAt(s, s', x, u); }
    forall x | x in s.shards ensures (u, x) in s'.aborted <==> (u, x) in s.aborted { assert SameAt(s, s', x, u); }
    forall x ensures Ready(s', u, x) <==> Ready(s, u, x) {
      if x in s.shards { assert SameAt(s, s', x, u); }
    }
  }

  /** Steps that change nothing at the shards and nothing of any transaction other than t. */
  ghost predicate OnlyCoordinator(s: System, s': System, t: TxnId) {
    && s'.shards == s.shards && s'.parts == s.parts
    && s'.votedYes == s.votedYes && s'.committed == s.committed && s'.aborted == s.aborted
    && (forall u {:trigger SameTxn(s, s', u)} :: u != t ==> SameTxn(s, s', u))
  }

  lemma CoordinatorKeeps(s: System, s': System, t: TxnId)
    requires Inv(s) && OnlyCoordinator(s, s', t)
    requires LogOk(s') && s'.phase.Keys <= s'.parts.Keys && s'.todo.Keys <= s'.parts.Keys
    requires t in s'.parts ==> TxnOk(s', t)
    ensures Inv(s')
  {
    OthersKeep(s, s', t);
    forall x, u | x in s'.shards ensures ShardOk(s', x, u) { assert ShardOk(s, x, u); }
  }

  /** With the shards untouched, readiness carries over. */
  lemma ReadyAfter(s: System, s': System, t: TxnId)
    requires OnlyCoordinator(s, s', t)
    ensures forall x {:trigger Ready(s', t, x)} :: Ready(s', t, x) <==> Ready(s, t, x)
  {}

  lemma LogStep(s: System, s': System, kind: RecordKind, t: TxnId, flush: bool)
    requires Inv(s) && t in s.parts
    requires s'.(phase := map[], todo := map[]) == Log(s, kind, t, flush).(phase := map[], todo := map[])
    requires s'.phase - {t} == s.phase - {t} && s'.todo - {t} == s.todo - {t}
    ensures LogOk(s') && OnlyCoordinator(s, s', t)
    ensures forall k, u :: HasRecord(s'.log, k, u) <==> HasRecord(s.log, k, u) || (k == kind && u == t)
  {
    LoggedSigns(s, s', kind, t);
    forall u | u != t ensures SameTxn(s, s', u) {
      assert u in s'.phase <==> u in s'.phase - {t};
      assert u in s.phase ==> (s'.phase - {t})[u] == (s.phase - {t})[u];
      assert u in s'.todo <==> u in s'.todo - {t};
      assert u in s.todo ==> (s'.todo - {t})[u] == (s.todo - {t})[u];
    }
  }

  lemma ClientStep(s: System, step: Step, t: TxnId)
    requires Inv(s) && Enabled(s, step, true) && step in {ClientAborts(t), ClientCommits(t)}
    ensures Inv(Do(s, step, true))
  {
    var s' := Do(s, step, true);
    LogStep(s, s', if step == ClientAborts(t) then ABORTING else PREPARING, t, step == ClientAborts(t));
    assert TxnOk(s, t);
    assert TxnOk(s', t);
    CoordinatorKeeps(s, s', t);
  }

  lemma DecideAbortStep(s: System, t: TxnId)
    requires Inv(s) && Enabled(s, DecideAbort(t), true)
    ensures Inv(Do(s, DecideAbort(t), true))
  {
    var s' := Do(s, DecideAbort(t), true);
    LogStep(s, s', ABORTING, t, false);
    assert TxnOk(s, t);
    assert TxnOk(s', t);
    CoordinatorKeeps(s, s', t);
  }

  /** A shard that is ready has never aborted. */
  lemma ReadyNotAborted(s: System, t: TxnId)
    requires Inv(s) && t in s.parts && forall x {:trigger Ready(s, t, x)} :: x in s.parts[t] ==> Ready(s, t, x)
    requires forall x :: (t, x) in s.committed ==> (t, x) !in s.aborted
    ensures forall x :: (t, x) !in s.aborted
  {
    forall x | x in s.shards ensures (t, x) in s.aborted ==> x in s.parts[t] { assert ShardOk(s, x, t); }
    forall x | x in s.parts[t] ensures (t, x) !in s.aborted {
      assert Ready(s, t, x) && ShardOk(s, x, t);
    }
  }

  lemma DecideCommitStep(s: System, t: TxnId)
    requires Inv(s) && Enabled(s, DecideCommit(t), true)
    ensures Inv(Do(s, DecideCommit(t), true))
  {
    var s' := Do(s, DecideCommit(t), true);
    LogStep(s, s', COMMITTING, t, false);
    assert TxnOk(s, t);
    ReadyNotAborted(s, t);
    ReadyAfter(s, s', t);
    assert TxnOk(s', t);
    CoordinatorKeeps(s, s', t);
  }

  lemma FinishStep(s: System, step: Step, t: TxnId)
    requires Inv(s) && Enabled(s, step, true) && step in {FinishCommit(t), FinishAbort(t)}
    ensures Inv(Do(s, step, true))
  {
    var s' := Do(s, step, true);
    LogStep(s, s', if step == FinishCommit(t) then COMMITTED else ABORTED, t, true);
    assert TxnOk(s, t);
    ReadyAfter(s, s', t);
    assert TxnOk(s', t);
    CoordinatorKeeps(s, s', t);
  }

  lemma SilentStep(s: System, step: Step, t: TxnId)
    requires Inv(s) && Enabled(s, step, true) && step in {FlushPrepare(t), GiveUp(t), Flush}
    ensures Inv(Do(s, step, true))
  {
    var s' := Do(s, step, true);
    assert OnlyCoordinator(s, s', t);
    ReadyAfter(s, s', t);
    if t in s.parts {
      assert TxnOk(s, t);
      assert TxnOk(s', t);
    }
    CoordinatorKeeps(s, s', t);
  }

  // ---- Steps at the shards ----

  lemma ShardKeeps(s: System, s': System, t: TxnId)
    requires Inv(s) && OnlyTxn(s, s', t) && t in s'.parts && TxnOk(s', t)
    requires LogOk(s') && s'.phase.Keys <= s'.parts.Keys && s'.todo.Keys <= s'.parts.Keys
    requires s'.parts[t] <= s'.shards.Keys
    requires forall x {:trigger ShardOk(s', x, t)} :: x in s'.shards ==> ShardOk(s', x, t)
    ensures Inv(s')
  {
    OthersKeep(s, s', t);
    forall u | u in s'.parts ensures s'.parts[u] <= s'.shards.Keys {
      if u != t { assert SameTxn(s, s', u); }
    }
    forall x, u | x in s'.shards ensures ShardOk(s', x, u) {
      if u == t { assert ShardOk(s', x, t); }
    }
  }

  lemma BeginStep(s: System, t: TxnId)
    requires Inv(s) && Enabled(s, Begin(t), true)
    ensures Inv(Do(s, Begin(t), true))
  {
    var s' := Do(s, Begin(t), true);
    forall x | x in s.shards
      ensures ShardOk(s', x, t) && (t, x) !in s.committed && (t, x) !in s.aborted
    { assert ShardOk(s, x, t); }
    assert OnlyTxn(s, s', t);
    ShardKeeps(s, s', t);
  }

  lemma BeginAtStep(s: System, t: TxnId, x: Shard)
    requires Inv(s) && Enabled(s, BeginAt(t, x), true)
    ensures Inv(Do(s, BeginAt(t, x), true))
  {
    var s' := Do(s, BeginAt(t, x), true);
    assert TxnOk(s, t);
    forall y | y in s.shards ensures ShardOk(s', y, t) { assert ShardOk(s, y, t); }
    assert OnlyTxn(s, s', t);
    assert TxnOk(s', t);
    ShardKeeps(s, s', t);
  }

  /** A call to one shard about one transaction. */
  lemma CallTouchesOne(s: System, s': System, t: TxnId, x: Shard)
    requires Inv(s) && x in s.shards && s'.shards.Keys == s.shards.Keys && t in s.parts
    requires s'.log == s.log && s'.parts == s.parts && s'.todo == s.todo
    requires s'.phase.Keys == s.phase.Keys && forall u :: u in s.phase && u != t ==> s'.phase[u] == s.phase[u]
    requires forall y :: y in s.shards && y != x ==> s'.shards[y] == s.shards[y]
    requires forall u {:trigger SameFor(s.shards[x], s'.shards[x], u)} :: u != t ==>
             SameFor(s.shards[x], s'.shards[x], u)
    requires forall z :: z != (t, x) ==> (z in s'.votedYes <==> z in s.votedYes)
    requires forall z :: z != (t, x) ==> (z in s'.committed <==> z in s.committed)
    requires forall z :: z != (t, x) ==> (z in s'.aborted <==> z in s.aborted)
    ensures OnlyTxn(s, s', t)
  {
    forall y, u | u != t && y in s.shards ensures SameAt(s, s', y, u) {
      assert y == x ==> SameFor(s.shards[x], s'.shards[x], u);
    }
  }

  lemma PrepareAtStep(s: System, t: TxnId, x: Shard, outcome: PrepareOutcome, heard: bool)
    requires Inv(s) && Enabled(s, PrepareAt(t, x, outcome, heard), true)
    ensures Inv(Do(s, PrepareAt(t, x, outcome, heard), true))
  {
    var s' := Do(s, PrepareAt(t, x, outcome, heard), true);
    assert TxnOk(s, t);
    PreparedShards(s, s', t, x, outcome, heard);
    CallTouchesOne(s, s', t, x);
    PreparedSigns(s, s', t, x, outcome, heard);
    ShardKeeps(s, s', t);
  }

  lemma PreparedShards(s: System, s': System, t: TxnId, x: Shard, outcome: PrepareOutcome, heard: bool)
    requires Inv(s) && Enabled(s, PrepareAt(t, x, outcome, heard), true)
    requires s' == Do(s, PrepareAt(t, x, outcome, heard), true)
    ensures forall y {:trigger ShardOk(s', y, t)} :: y in s'.shards ==> ShardOk(s', y, t)
  {
    forall y | y in s.shards ensures ShardOk(s', y, t) { assert ShardOk(s, y, t); }
  }

  lemma PreparedSigns(s: System, s': System, t: TxnId, x: Shard, outcome: PrepareOutcome, heard: bool)
    requires Inv(s) && Enabled(s, PrepareAt(t, x, outcome, heard), true) && TxnOk(s, t)
    requires s' == Do(s, PrepareAt(t, x, outcome, heard), true)
    ensures TxnOk(s', t)
  {
    assert ShardOk(s, x, t);
    assert !CommitSign(s, t) && !CommitSign(s', t);
    if s'.phase[t].Preparing? {
      forall y | y in s'.phase[t].yes ensures Ready(s', t, y) {
        if y != x { assert Ready(s, t, y); }
      }
    }
  }

  lemma CommitAtStep(s: System, t: TxnId, x: Shard, heard: bool)
    requires Inv(s) && Enabled(s, CommitAt(t, x, heard), true)
    ensures Inv(Do(s, CommitAt(t, x, heard), true))
  {
    var s' := Do(s, CommitAt(t, x, heard), true);
    assert TxnOk(s, t);
    assert CommitSign(s, t) && CommitSign(s', t);
    forall y | y in s.shards ensures ShardOk(s', y, t) { assert ShardOk(s, y, t); }
    forall y | y in s.parts[t] ensures Ready(s', t, y) { assert Ready(s, t, y); }
    CallTouchesOne(s, s', t, x);
    assert TxnOk(s', t);
    ShardKeeps(s, s', t);
  }

  lemma AbortAtStep(s: System, t: TxnId, x: Shard)
    requires Inv(s) && Enabled(s, AbortAt(t, x), true)
    ensures Inv(Do(s, AbortAt(t, x), true))
  {
    var s' := Do(s, AbortAt(t, x), true);
    assert TxnOk(s, t);
    assert AbortSign(s, t) && !CommitSign(s, t) && !CommitSign(s', t);
    forall y | y in s.shards ensures ShardOk(s', y, t) { assert ShardOk(s, y, t); }
    CallTouchesOne(s, s', t, x);
    assert TxnOk(s', t);
    ShardKeeps(s, s', t);
  }

  // ---- Crash and recovery ----

  /** A crash only removes signs; what the shards did stays. */
  lemma CrashStep(s: System, keep: nat)
    requires Inv(s) && Enabled(s, Crash(keep), true)
    ensures Inv(Do(s, Crash(keep), true))
  {
    var s' := Do(s, Crash(keep), true);
    forall k, u | HasRecord(s'.log, k, u) ensures HasRecord(s.log, k, u) {
      var i :| 0 <= i < |s'.log| && s'.log[i].kind == k && s'.log[i].txn == u;
      assert s.log[i] == s'.log[i];
    }
    forall t | t in s'.parts ensures TxnOk(s', t) {
      assert TxnOk(s, t);
      ReplaySees(s'.log, t, s.parts[t]);
      forall x | x in s.parts[t] && Ready(s, t, x) ensures Ready(s', t, x) {}
    }
    forall x, t | x in s'.shards ensures ShardOk(s', x, t) { assert ShardOk(s, x, t); }
  }

  /** The decision agrees with whatever the shards have already done. */
  ghost predicate Agrees(s: System, t: TxnId, commit: bool) {
    if commit then forall x :: (t, x) !in s.aborted else forall x :: (t, x) !in s.committed
  }

  /** Exactly when recovery decides in agreement with the shards: if one of them has committed,
      one that has committed must answer. A silent shard is taken as unknown, so otherwise the
      rest is driven to abort. */
  lemma RecoveryAgreesIff(s: System, t: TxnId, answers: map<Shard, StateCode>)
    requires Inv(s) && t in s.todo && NeedsRecovery(s.todo[t]) && Truthful(s, t, answers)
    requires !s.todo[t].committing && !s.todo[t].aborting
    ensures Agrees(s, t, DriveToCommit(s.todo[t], answers)) <==> CommitHeard(s, t, answers)
  {
    var seen := s.todo[t];
    assert TxnOk(s, t);
    assert seen.shards == s.parts[t];
    forall x | x in s.shards ensures
      && ((t, x) in s.committed <==> x in s.parts[t] && Query(s.shards[x], t) == Committed)
      && ((t, x) in s.aborted ==> x in s.parts[t] && Query(s.shards[x], t) != Prepared)
      && (x in s.parts[t] && Query(s.shards[x], t) == Aborted ==> (t, x) in s.aborted)
    {
      assert ShardOk(s, x, t);
    }
  }

  lemma RecoverStep(s: System, t: TxnId, answers: map<Shard, StateCode>)
    requires Inv(s) && Enabled(s, RecoverTxn(t, answers), true)
    ensures Inv(Do(s, RecoverTxn(t, answers), true))
  {
    var s', seen := Do(s, RecoverTxn(t, answers), true), s.todo[t];
    assert TxnOk(s, t);
    var commit := DriveToCommit(seen, answers);
    LogStep(s, s', if commit then COMMITTING else ABORTING, t, true);
    if !seen.committing && !seen.aborting {
      RecoveryAgreesIff(s, t, answers);
      if commit { CommitMeansReady(s, t, answers); }
    }
    ReadyAfter(s, s', t);
    assert TxnOk(s', t);
    CoordinatorKeeps(s, s', t);
  }

  lemma CommitMeansReady(s: System, t: TxnId, answers: map<Shard, StateCode>)
    requires Inv(s) && t in s.todo && NeedsRecovery(s.todo[t]) && Truthful(s, t, answers)
    requires !s.todo[t].committing && !s.todo[t].aborting && DriveToCommit(s.todo[t], answers)
    ensures forall x {:trigger Ready(s, t, x)} :: x in s.parts[t] ==> Ready(s, t, x)
  {
    assert TxnOk(s, t);
    forall x | x in s.parts[t] ensures Ready(s, t, x) {
      assert ShardOk(s, x, t);
      if exists y :: y in s.parts[t] && y in answers && answers[y] == Committed {
        var y :| y in s.parts[t] && y in answers && answers[y] == Committed;
        assert ShardOk(s, y, t);
        assert CommitSign(s, t);
      }
    }
  }

  // ---- The theorems ----

  lemma StepKeepsInv(s: System, step: Step)
    requires Inv(s) && Enabled(s, step, true)
    ensures Inv(Do(s, step, true))
  {
    match step
    case Begin(t) => BeginStep(s, t);
    case BeginAt(t, x) => BeginAtStep(s, t, x);
    case ClientAborts(t) => ClientStep(s, step, t);
    case ClientCommits(t) => ClientStep(s, step, t);
    case FlushPrepare(t) => SilentStep(s, step, t);
    case Flush => SilentStep(s, step, 0);
    case PrepareAt(t, x, outcome, heard) => PrepareAtStep(s, t, x, outcome, heard);
    case DecideCommit(t) => DecideCommitStep(s, t);
    case DecideAbort(t) => DecideAbortStep(s, t);
    case CommitAt(t, x, heard) => CommitAtStep(s, t, x, heard);
    case AbortAt(t, x) => AbortAtStep(s, t, x);
    case FinishCommit(t) => FinishStep(s, step, t);
    case FinishAbort(t) => FinishStep(s, step, t);
    case GiveUp(t) => SilentStep(s, step, t);
    case Crash(keep) => CrashStep(s, keep);
    case RecoverTxn(t, answers) => RecoverStep(s, t, answers);
  }

  lemma {:induction false} AlwaysInv(shards: set<Shard>, run: seq<Step>)
    ensures Inv(After(shards, run, true))
  {
    if run == [] {
      forall x, t | x in shards ensures ShardOk(Start(shards), x, t) {}
    } else {
      AlwaysInv(shards, run[..|run| - 1]);
      var s := After(shards, run[..|run| - 1], true);
      if Enabled(s, run[|run| - 1], true) { StepKeepsInv(s, run[|run| - 1]); }
    }
  }

  /** Agreement: no shard ever commits a transaction that any shard aborts, and a shard commits
      only what every shard of the transaction voted for. */
  lemma Agreement(shards: set<Shard>, run: seq<Step>, t: TxnId, x: Shard)
    requires (t, x) in After(shards, run, true).committed
    ensures var s := After(shards, run, true);
            && (forall y :: (t, y) !in s.aborted)
            && t in s.parts && x in s.parts[t] && forall y :: y in s.parts[t] ==> (t, y) in s.votedYes
  {
    var s := After(shards, run, true);
    AlwaysInv(shards, run);
    assert ShardOk(s, x, t);
    assert TxnOk(s, t);
    assert CommitSign(s, t);
    forall y | y in s.parts[t] ensures (t, y) in s.votedYes { assert Ready(s, t, y); }
  }

  // ---- Why recovery must hear of a commit ----

  lemma AfterOneMore(shards: set<Shard>, run: seq<Step>, step: Step, heard: bool)
    requires Enabled(After(shards, run, heard), step, heard)
    ensures After(shards, run + [step], heard) == Do(After(shards, run, heard), step, heard)
  {
    assert (run + [step])[..|run|] == run;
  }

  lemma BothJoined() returns (run: seq<Step>)
    ensures After({0, 1}, run, false) ==
            System([], 0, map[1 := Active], map[], map[1 := {0, 1}],
                   map[0 := Participant(map[1 := false], map[]), 1 := Participant(map[1 := false], map[])], {}, {}, {})
  {
    run := [];
    assert Start({0, 1}).shards == map[0 := Participant(map[], map[]), 1 := Participant(map[], map[])];
    AfterOneMore({0, 1}, run, Begin(1), false); run := run + [Begin(1)];
    AfterOneMore({0, 1}, run, BeginAt(1, 0), false); run := run + [BeginAt(1, 0)];
    AfterOneMore({0, 1}, run, BeginAt(1, 1), false); run := run + [BeginAt(1, 1)];
    assert After({0, 1}, run, false).parts == map[1 := {0, 1}] by { assert {} + {0} + {1} == {0, 1}; }
  }

  lemma BothBegun() returns (run: seq<Step>)
    ensures After({0, 1}, run, false) ==
            System([Record(PREPARING, 1, {0, 1})], 1, map[1 := Preparing({})], map[], map[1 := {0, 1}],
                   map[0 := Participant(map[1 := false], map[]), 1 := Participant(map[1 := false], map[])], {}, {}, {})
  {
    run := BothJoined();
    AfterOneMore({0, 1}, run, ClientCommits(1), false); run := run + [ClientCommits(1)];
    AfterOneMore({0, 1}, run, FlushPrepare(1), false); run := run + [FlushPrepare(1)];
  }

  lemma BothPrepared() returns (run: seq<Step>)
    ensures var s := After({0, 1}, run, false);
            && s.log == [Record(PREPARING, 1, {0, 1})] && s.durable == 1
            && s.phase == map[1 := Preparing({0, 1})] && s.parts == map[1 := {0, 1}]
            && s.shards == map[0 := Participant(map[1 := true], map[]), 1 := Participant(map[1 := true], map[])]
  {
    run := BothBegun();
    assert OnPrepare(Participant(map[1 := false], map[]), 1, Succeeds) ==
      (Participant(map[1 := false][1 := true], map[]), true);
    AfterOneMore({0, 1}, run, PrepareAt(1, 0, Succeeds, true), false); run := run + [PrepareAt(1, 0, Succeeds, true)];
    AfterOneMore({0, 1}, run, PrepareAt(1, 1, Succeeds, true), false); run := run + [PrepareAt(1, 1, Succeeds, true)];
    assert {} + {0} + {1} == {0, 1};
    assert map[1 := false][1 := true] == map[1 := true];
  }

  /** Both shards have voted yes on transaction 1 and one of them has committed it. */
  lemma HalfCommitted() returns (run: seq<Step>)
    ensures var s := After({0, 1}, run, false);
            && s.log == [Record(PREPARING, 1, {0, 1}), Record(COMMITTING, 1, {})] && s.durable == 1
            && s.parts == map[1 := {0, 1}] && (1, 0) in s.committed
            && s.shards == map[0 := Participant(map[], map[1 := true]), 1 := Participant(map[1 := true], map[])]
  {
    run := BothPrepared();
    AfterOneMore({0, 1}, run, DecideCommit(1), false); run := run + [DecideCommit(1)];
    AfterOneMore({0, 1}, run, CommitAt(1, 0, true), false); run := run + [CommitAt(1, 0, true)];
    assert map[1 := true] - {1} == map[];
  }

  lemma CommittingLost() returns (run: seq<Step>)
    ensures var s := After({0, 1}, run, false);
            && s.todo == map[1 := Seen(true, {0, 1}, false, false, false, false)] && s.parts == map[1 := {0, 1}]
            && s.shards == map[0 := Participant(map[], map[1 := true]), 1 := Participant(map[1 := true], map[])]
            && (1, 0) in s.committed
  {
    run := HalfCommitted();
    var log := [Record(PREPARING, 1, {0, 1})];
    assert log[..0] == [];
    assert Replay(log, 1) == Seen(true, {0, 1}, false, false, false, false);
    assert After({0, 1}, run, false).log[..1] == log;
    AfterOneMore({0, 1}, run, Crash(1), false); run := run + [Crash(1)];
  }

  /** A crash loses the unflushed COMMITTING record; the shard that committed does not answer
      recovery; the other one is driven to abort. */
  lemma SilentShardSplitsOutcome() returns (run: seq<Step>)
    ensures var s := After({0, 1}, run, false);
            (1, 0) in s.committed && (1, 1) in s.aborted
  {
    run := CommittingLost();
    var answers := map[0 := Unknown, 1 := Prepared];
    AfterOneMore({0, 1}, run, RecoverTxn(1, answers), false); run := run + [RecoverTxn(1, answers)];
    AfterOneMore({0, 1}, run, AbortAt(1, 1), false); run := run + [AbortAt(1, 1)];
  }
}
