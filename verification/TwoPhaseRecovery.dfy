/** What the coordinator does, in every run: which transactions its recovery takes up, what it decides
    about them, and that a transaction whose shards all succeed can be committed everywhere. */
module TwoPhaseRecovery {
  import opened TwoPhaseCommit
  import opened TwoPhaseSafety

  // ---- The books of the coordinator, whether or not shards answer ----

  ghost predicate Books(s: System) {
    && LogOk(s) && s.phase.Keys <= s.parts.Keys
    && (forall t :: t in s.phase && s.phase[t] == Active ==> !HasRecord(s.log, PREPARING, t))
    && (forall t :: t in s.todo ==> t in s.parts && t !in s.phase)
    && (forall t {:trigger SeenOk(s, t, s.todo[t])} :: t in s.todo ==> SeenOk(s, t, s.todo[t]))
  }

  ghost predicate SamePhases(s: System, s': System, t: TxnId) {
    forall u {:trigger u in s'.phase} :: u in s'.phase && u != t ==> u in s.phase && s'.phase[u] == s.phase[u]
  }

  /** A record of t, which recovery has not to look at any more. */
  lemma LogKeeps(s: System, s': System, kind: RecordKind, t: TxnId, flush: bool)
    requires Books(s) && t in s.parts && s'.log == Log(s, kind, t, flush).log && s'.durable <= |s'.log|
    requires s'.parts == s.parts && SamePhases(s, s', t) && (t in s'.phase ==> s'.phase[t] != Active)
    requires t !in s'.todo && s'.todo.Keys <= s.todo.Keys && forall u :: u in s'.todo ==> s'.todo[u] == s.todo[u]
    ensures Books(s')
  {
    LoggedSigns(s, s', kind, t);
    forall u | u in s'.todo ensures SeenOk(s', u, s'.todo[u]) { assert SeenOk(s, u, s.todo[u]); }
  }

  /** No record is written. */
  lemma QuietKeeps(s: System, s': System, t: TxnId)
    requires Books(s) && s'.log == s.log && s'.durable <= |s'.log| && s'.todo == s.todo && SamePhases(s, s', t)
    requires s.parts.Keys <= s'.parts.Keys && (t in s'.phase ==> t in s'.parts && t !in s.todo)
    requires forall u :: u in s.parts && s'.parts[u] != s.parts[u] ==> u !in s.todo && !HasRecord(s.log, PREPARING, u)
    requires t in s'.phase && s'.phase[t] == Active ==> !HasRecord(s.log, PREPARING, t)
    ensures Books(s')
  {
    forall u | u in s'.todo ensures SeenOk(s', u, s'.todo[u]) { assert SeenOk(s, u, s.todo[u]); }
    forall i | 0 <= i < |s.log| && s.log[i].kind == PREPARING ensures s.log[i].shards == s'.parts[s.log[i].txn] {
      assert HasRecord(s.log, PREPARING, s.log[i].txn);
    }
  }

  lemma CrashKeeps(s: System, s': System, keep: nat, heard: bool)
    requires Books(s) && Enabled(s, Crash(keep), heard) && s' == Do(s, Crash(keep), heard)
    ensures Books(s') && s'.todo.Keys == s'.parts.Keys
  {
    forall t | t in s'.todo ensures SeenOk(s', t, s'.todo[t]) { ReplaySees(s'.log, t, s.parts[t]); }
  }

  lemma BeginKeeps(s: System, s': System, t: TxnId, heard: bool)
    requires Books(s) && Enabled(s, Begin(t), heard) && s' == Do(s, Begin(t), heard)
    ensures Books(s')
  {
    forall i | 0 <= i < |s.log| ensures s.log[i].txn != t {}
    QuietKeeps(s, s', t);
  }

  predicate Records(step: Step) {
    || step.ClientAborts? || step.ClientCommits? || step.DecideCommit? || step.DecideAbort?
    || step.FinishCommit? || step.FinishAbort? || step.RecoverTxn?
  }

  lemma RecordKeeps(s: System, s': System, step: Step, heard: bool)
    requires Books(s) && Enabled(s, step, heard) && s' == Do(s, step, heard) && Records(step)
    ensures Books(s')
  {
    match step
    case ClientAborts(t) => LogKeeps(s, s', ABORTING, t, true);
    case ClientCommits(t) => LogKeeps(s, s', PREPARING, t, false);
    case DecideCommit(t) => LogKeeps(s, s', COMMITTING, t, false);
    case DecideAbort(t) => LogKeeps(s, s', ABORTING, t, false);
    case FinishCommit(t) => LogKeeps(s, s', COMMITTED, t, true);
    case FinishAbort(t) => LogKeeps(s, s', ABORTED, t, true);
    case RecoverTxn(t, answers) =>
      LogKeeps(s, s', if DriveToCommit(s.todo[t], answers) then COMMITTING else ABORTING, t, true);
  }

  lemma CallKeeps(s: System, s': System, step: Step, heard: bool)
    requires Books(s) && Enabled(s, step, heard) && s' == Do(s, step, heard)
    requires step.BeginAt? || step.FlushPrepare? || step.PrepareAt? || step.CommitAt? || step.AbortAt? || step.GiveUp?
    ensures Books(s')
  {
    QuietKeeps(s, s', step.t);
  }

  lemma StepKeepsBooks(s: System, s': System, step: Step, heard: bool)
    requires Books(s) && Enabled(s, step, heard) && s' == Do(s, step, heard)
    ensures Books(s')
  {
    if Records(step) {
      RecordKeeps(s, s', step, heard);
    } else if step.Begin? {
      BeginKeeps(s, s', step.t, heard);
    } else if step.Crash? {
      CrashKeeps(s, s', step.keep, heard);
    } else if step.Flush? {
      QuietKeeps(s, s', 0);
    } else {
      CallKeeps(s, s', step, heard);
    }
  }

  lemma {:induction false} AlwaysBooks(shards: set<Shard>, run: seq<Step>, heard: bool)
    ensures Books(After(shards, run, heard))
  {
    if run != [] {
      var s, step := After(shards, run[..|run| - 1], heard), run[|run| - 1];
      AlwaysBooks(shards, run[..|run| - 1], heard);
      if Enabled(s, step, heard) { StepKeepsBooks(s, Do(s, step, heard), step, heard); }
    }
  }

  // ---- What recovery does ----

  /** Recovery takes up exactly the transactions that the log has as preparing, on some shard, and as
      neither committed nor aborted. */
  lemma TakesUpIff(shards: set<Shard>, run: seq<Step>, heard: bool, t: TxnId)
    requires t in After(shards, run, heard).todo
    ensures var s := After(shards, run, heard);
            && t in s.parts
            && (NeedsRecovery(s.todo[t]) <==>
                  && HasRecord(s.log, PREPARING, t) && s.parts[t] != {}
                  && !HasRecord(s.log, COMMITTED, t) && !HasRecord(s.log, ABORTED, t))
  {
    AlwaysBooks(shards, run, heard);
    assert SeenOk(After(shards, run, heard), t, After(shards, run, heard).todo[t]);
  }

  /** After a crash every transaction is looked at. */
  lemma CrashLooksAtAll(shards: set<Shard>, run: seq<Step>, keep: nat, heard: bool)
    requires Enabled(After(shards, run, heard), Crash(keep), heard)
    ensures var s, s' := After(shards, run, heard), After(shards, run + [Crash(keep)], heard);
            s'.todo.Keys == s.parts.Keys && s'.parts == s.parts && s'.log == s.log[..keep]
  {
    AfterOneMore(shards, run, Crash(keep), heard);
  }

  /** No shard says aborted, and all say prepared or committed or one says committed. */
  ghost predicate SayCommit(parts: set<Shard>, answers: map<Shard, StateCode>) {
    && (forall x :: x in parts && x in answers ==> answers[x] != Aborted)
    && (|| (forall x :: x in parts ==> x in answers && (answers[x] == Prepared || answers[x] == Committed))
        || (exists x :: x in parts && x in answers && answers[x] == Committed))
  }

  /** What recovery decides, exactly: what the log says, and where it is silent what the shards say. The
      decision is in the log, on disk, before any shard hears of it. */
  lemma RecoveryDecides(shards: set<Shard>, run: seq<Step>, heard: bool, t: TxnId, answers: map<Shard, StateCode>)
    requires Enabled(After(shards, run, heard), RecoverTxn(t, answers), heard)
    ensures var s, s' := After(shards, run, heard), After(shards, run + [RecoverTxn(t, answers)], heard);
            && t in s.parts && t in s'.phase && (s'.phase[t] == Committing({}) || s'.phase[t] == Aborting)
            && (s'.phase[t].Committing? <==>
                  || HasRecord(s.log, COMMITTING, t)
                  || (!HasRecord(s.log, ABORTING, t) && SayCommit(s.parts[t], answers)))
            && s'.log == s.log + [Record(if s'.phase[t].Committing? then COMMITTING else ABORTING, t, {})]
            && s'.durable == |s'.log| && s'.shards == s.shards
  {
    var s := After(shards, run, heard);
    AlwaysBooks(shards, run, heard);
    assert SeenOk(s, t, s.todo[t]);
    AfterOneMore(shards, run, RecoverTxn(t, answers), heard);
  }

  // ---- A commit that nothing disturbs ----

  /** A shard's tables only know transactions that began there. */
  ghost predicate TablesOk(s: System, shards: set<Shard>) {
    && s.shards.Keys == shards && (forall t :: t in s.parts ==> s.parts[t] <= shards)
    && (forall x, t :: x in s.shards && (t in s.shards[x].pending || t in s.shards[x].terminal) ==> t in s.parts)
  }

  lemma StepKeepsTables(s: System, s': System, step: Step, heard: bool, shards: set<Shard>)
    requires TablesOk(s, shards) && Books(s) && Enabled(s, step, heard) && s' == Do(s, step, heard)
    ensures TablesOk(s', shards)
  {
    if step.BeginAt? || step.PrepareAt? || step.CommitAt? || step.AbortAt? {
      CallTables(s, s', step, heard, shards);
    } else {
      assert s'.shards == s.shards && s.parts.Keys <= s'.parts.Keys;
    }
  }

  lemma CallTables(s: System, s': System, step: Step, heard: bool, shards: set<Shard>)
    requires TablesOk(s, shards) && Books(s) && Enabled(s, step, heard) && s' == Do(s, step, heard)
    requires step.BeginAt? || step.PrepareAt? || step.CommitAt? || step.AbortAt?
    ensures TablesOk(s', shards)
  {
    forall y, u | y in s'.shards && (u in s'.shards[y].pending || u in s'.shards[y].terminal) ensures u in s'.parts {
      if u != step.t || y != step.x { assert u in s.parts; }
    }
  }

  lemma {:induction false} AlwaysTables(shards: set<Shard>, run: seq<Step>, heard: bool)
    ensures TablesOk(After(shards, run, heard), shards)
  {
    if run != [] {
      var s, step := After(shards, run[..|run| - 1], heard), run[|run| - 1];
      AlwaysTables(shards, run[..|run| - 1], heard);
      AlwaysBooks(shards, run[..|run| - 1], heard);
      if Enabled(s, step, heard) { StepKeepsTables(s, Do(s, step, heard), step, heard, shards); }
    }
  }

  ghost predicate At(s: System, t: TxnId, phase: Phase, parts: set<Shard>) {
    t in s.phase && s.phase[t] == phase && t in s.parts && s.parts[t] == parts && parts <= s.shards.Keys
  }

  /** t has begun on the shards `parts`, of which `yes` are prepared, and is over nowhere. */
  ghost predicate Open(s: System, t: TxnId, phase: Phase, parts: set<Shard>, yes: set<Shard>) {
    && At(s, t, phase, parts)
    && (forall x :: x in s.shards ==> t !in s.shards[x].terminal)
    && (forall x :: x in parts ==> t in s.shards[x].pending && s.shards[x].pending[t] == (x in yes))
  }

  lemma Next(shards: set<Shard>, run: seq<Step>, heard: bool, step: Step, s': System) returns (run': seq<Step>)
    requires Enabled(After(shards, run, heard), step, heard) && s' == Do(After(shards, run, heard), step, heard)
    ensures run <= run' && After(shards, run', heard) == s'
  {
    run' := run + [step];
    AfterOneMore(shards, run, step, heard);
  }

  lemma {:induction false} JoinAll(shards: set<Shard>, run: seq<Step>, heard: bool, t: TxnId, parts: set<Shard>,
      rest: set<Shard>)
    returns (run': seq<Step>)
    requires Open(After(shards, run, heard), t, Active, parts, {}) && rest !! parts
    requires rest <= After(shards, run, heard).shards.Keys
    ensures run <= run' && Open(After(shards, run', heard), t, Active, parts + rest, {})
    decreases rest
  {
    if rest == {} {
      run' := run;
      assert parts + rest == parts;
    } else {
      var x :| x in rest;
      var s := After(shards, run, heard);
      run' := Next(shards, run, heard, BeginAt(t, x), Do(s, BeginAt(t, x), heard));
      run' := JoinAll(shards, run', heard, t, parts + {x}, rest - {x});
      assert parts + {x} + (rest - {x}) == parts + rest;
    }
  }

  lemma NothingLeft(all: set<Shard>, part: set<Shard>)
    requires part <= all && all - part == {}
    ensures part == all
  {
    forall x | x in all ensures x in part { assert x !in all - part; }
  }

  lemma PrepareOne(shards: set<Shard>, run: seq<Step>, heard: bool, t: TxnId, parts: set<Shard>, yes: set<Shard>,
      x: Shard)
    returns (run': seq<Step>)
    requires Open(After(shards, run, heard), t, Preparing(yes), parts, yes) && x in parts && x !in yes
    ensures run <= run' && Open(After(shards, run', heard), t, Preparing(yes + {x}), parts, yes + {x})
  {
    var s := After(shards, run, heard);
    run' := Next(shards, run, heard, PrepareAt(t, x, Succeeds, true), Do(s, PrepareAt(t, x, Succeeds, true), heard));
  }

  lemma {:induction false} PrepareAll(shards: set<Shard>, run: seq<Step>, heard: bool, t: TxnId, parts: set<Shard>,
      yes: set<Shard>)
    returns (run': seq<Step>)
    requires Open(After(shards, run, heard), t, Preparing(yes), parts, yes) && yes <= parts
    ensures run <= run' && Open(After(shards, run', heard), t, Preparing(parts), parts, parts)
    decreases parts - yes
  {
    if parts - yes == {} {
      run' := run;
      NothingLeft(parts, yes);
    } else {
      var x :| x in parts - yes;
      run' := PrepareOne(shards, run, heard, t, parts, yes, x);
      run' := PrepareAll(shards, run', heard, t, parts, yes + {x});
    }
  }

  /** t is being committed and is over, as committed, on the shards that have confirmed. */
  ghost predicate Closing(s: System, t: TxnId, parts: set<Shard>, acked: set<Shard>) {
    && At(s, t, Committing(acked), parts)
    && (forall x :: x in acked ==> x in s.shards && Query(s.shards[x], t) == Committed)
  }

  lemma {:induction false} CommitAll(shards: set<Shard>, run: seq<Step>, heard: bool, t: TxnId, parts: set<Shard>,
      acked: set<Shard>)
    returns (run': seq<Step>)
    requires Closing(After(shards, run, heard), t, parts, acked) && acked <= parts
    ensures run <= run' && Closing(After(shards, run', heard), t, parts, parts)
    decreases parts - acked
  {
    if parts - acked == {} {
      run' := run;
      NothingLeft(parts, acked);
    } else {
      var x :| x in parts - acked;
      var s := After(shards, run, heard);
      run' := Next(shards, run, heard, CommitAt(t, x, true), Do(s, CommitAt(t, x, true), heard));
      run' := CommitAll(shards, run', heard, t, parts, acked + {x});
    }
  }

  /** Whatever has happened before, a new transaction whose shards all succeed can be committed on all of
      them, with COMMITTED on disk. */
  lemma CommitPossible(shards: set<Shard>, run: seq<Step>, heard: bool, t: TxnId, parts: set<Shard>)
    returns (run': seq<Step>)
    requires t !in After(shards, run, heard).parts && {} < parts <= shards
    ensures run <= run'
    ensures var s := After(shards, run', heard);
            && t in s.parts && s.parts[t] == parts && t !in s.phase
            && (forall x :: x in parts ==> x in s.shards && Query(s.shards[x], t) == Committed)
            && |s.log| > 0 && s.log[|s.log| - 1] == Record(COMMITTED, t, {}) && s.durable == |s.log|
  {
    AlwaysTables(shards, run, heard);
    var s0 := After(shards, run, heard);
    run' := Next(shards, run, heard, Begin(t), Do(s0, Begin(t), heard));
    run' := JoinAll(shards, run', heard, t, {}, parts);
    assert {} + parts == parts;
    run' := Vote(shards, run', heard, t, parts);
    run' := Decide(shards, run', heard, t, parts);
  }

  lemma Decide(shards: set<Shard>, run: seq<Step>, heard: bool, t: TxnId, parts: set<Shard>) returns (run': seq<Step>)
    requires Open(After(shards, run, heard), t, Preparing(parts), parts, parts)
    ensures run <= run'
    ensures var s := After(shards, run', heard);
            && t in s.parts && s.parts[t] == parts && t !in s.phase
            && (forall x :: x in parts ==> x in s.shards && Query(s.shards[x], t) == Committed)
            && |s.log| > 0 && s.log[|s.log| - 1] == Record(COMMITTED, t, {}) && s.durable == |s.log|
  {
    var s := After(shards, run, heard);
    run' := Next(shards, run, heard, DecideCommit(t), Do(s, DecideCommit(t), heard));
    run' := CommitAll(shards, run', heard, t, parts, {});
    var s2 := After(shards, run', heard);
    run' := Next(shards, run', heard, FinishCommit(t), Do(s2, FinishCommit(t), heard));
  }

  lemma Vote(shards: set<Shard>, run: seq<Step>, heard: bool, t: TxnId, parts: set<Shard>) returns (run': seq<Step>)
    requires Open(After(shards, run, heard), t, Active, parts, {}) && parts != {}
    ensures run <= run' && Open(After(shards, run', heard), t, Preparing(parts), parts, parts)
  {
    var s := After(shards, run, heard);
    run' := Next(shards, run, heard, ClientCommits(t), Do(s, ClientCommits(t), heard));
    var s1 := After(shards, run', heard);
    run' := Next(shards, run', heard, FlushPrepare(t), Do(s1, FlushPrepare(t), heard));
    run' := PrepareAll(shards, run', heard, t, parts, {});
  }
}
