/** Two-phase commit across shards: the coordinator's log with its unflushed tail, its recovery
    after a crash, and the shards as participants. */
module TwoPhaseCommit {

  type TxnId = nat
  type Shard = nat

  // ---- Participants ----

  /** `pending_txns_` (with `prepared_replicated`) and `terminal_txn_states_` (true = committed). */
  datatype Participant = Participant(pending: map<TxnId, bool>, terminal: map<TxnId, bool>)

  datatype StateCode = Unknown | InFlight | Prepared | Committed | Aborted

  /** What happens to a Prepare call at a shard: it reaches no leader, its result is lost after
      replication, validation or replication fails, or it succeeds. */
  datatype PrepareOutcome = NoLeader | ResultMissing | Fails | Succeeds

  function Query(p: Participant, t: TxnId): StateCode {
    if t in p.terminal then (if p.terminal[t] then Committed else Aborted)
    else if t in p.pending then (if p.pending[t] then Prepared else InFlight)
    else Unknown
  }

  function OnBegin(p: Participant, t: TxnId): Participant {
    p.(pending := p.pending[t := false])
  }

  /** A transaction that is already prepared fails a second Prepare ("txn not active") and is
      thrown away like any other failure. */
  function OnPrepare(p: Participant, t: TxnId, outcome: PrepareOutcome): (r: (Participant, bool)) {
    if outcome == NoLeader || t !in p.pending then (p, false)
    else if p.pending[t] || outcome == Fails then (p.(pending := p.pending - {t}), false)
    else if outcome == ResultMissing then (p, false)
    else (p.(pending := p.pending[t := true]), true)
  }

  function OnCommit(p: Participant, t: TxnId): Participant {
    Participant(p.pending - {t}, p.terminal[t := true])
  }

  function OnAbort(p: Participant, t: TxnId): Participant {
    Participant(p.pending - {t}, p.terminal[t := false])
  }

  // ---- The coordinator's log ----

  datatype RecordKind = PREPARING | COMMITTING | COMMITTED | ABORTING | ABORTED

  datatype Record = Record(kind: RecordKind, txn: TxnId, shards: set<Shard>)

  /** What recovery gathers about one transaction while replaying the log. */
  datatype Seen = Seen(
    preparing: bool, shards: set<Shard>, committing: bool, committed: bool, aborting: bool, aborted: bool)

  const NOTHING_SEEN := Seen(false, {}, false, false, false, false)

  function Note(seen: Seen, r: Record): Seen {
    match r.kind
    case PREPARING => seen.(preparing := true, shards := r.shards)
    case COMMITTING => seen.(committing := true)
    case COMMITTED => seen.(committed := true)
    case ABORTING => seen.(aborting := true)
    case ABORTED => seen.(aborted := true)
  }

  /** The replay of a log, seen by transaction t. */
  function Replay(log: seq<Record>, t: TxnId): Seen {
    if log == [] then NOTHING_SEEN
    else
      var seen := Replay(log[..|log| - 1], t);
      var r := log[|log| - 1];
      if r.txn == t then Note(seen, r) else seen
  }

  predicate NeedsRecovery(seen: Seen) {
    seen.preparing && !seen.committed && !seen.aborted && seen.shards != {}
  }

  /** The outcome that recovery drives: what the log says, else what the participants say. */
  function DriveToCommit(seen: Seen, answers: map<Shard, StateCode>): bool {
    if seen.committing then true
    else if seen.aborting then false
    else if exists x :: x in seen.shards && x in answers && answers[x] == Aborted then false
    else
      || (forall x :: x in seen.shards ==> x in answers && (answers[x] == Prepared || answers[x] == Committed))
      || (exists x :: x in seen.shards && x in answers && answers[x] == Committed)
  }

  // ---- The system ----

  datatype Phase =
    | Active                      // the client is still reading and writing
    | LoggingPrepare              // PREPARING written, not yet flushed
    | Preparing(yes: set<Shard>)  // PREPARING is durable; the shards whose yes was heard
    | Committing(acked: set<Shard>)
    | Aborting

  /** `log[..durable]` is on disk. `parts` are the shards each transaction began on. `votedYes`,
      `committed` and `aborted` record what shards ever did; no step reads them. */
  datatype System = System(
    log: seq<Record>, durable: nat,
    phase: map<TxnId, Phase>, todo: map<TxnId, Seen>,
    parts: map<TxnId, set<Shard>>,
    shards: map<Shard, Participant>,
    votedYes: set<(TxnId, Shard)>, committed: set<(TxnId, Shard)>, aborted: set<(TxnId, Shard)>)

  datatype Step =
    | Begin(t: TxnId)
    | BeginAt(t: TxnId, x: Shard)
    | ClientAborts(t: TxnId)
    | ClientCommits(t: TxnId)
    | FlushPrepare(t: TxnId)
    | Flush
    | PrepareAt(t: TxnId, x: Shard, outcome: PrepareOutcome, heard: bool)
    | DecideCommit(t: TxnId)
    | DecideAbort(t: TxnId)
    | CommitAt(t: TxnId, x: Shard, heard: bool)
    | AbortAt(t: TxnId, x: Shard)
    | FinishCommit(t: TxnId)
    | FinishAbort(t: TxnId)
    | GiveUp(t: TxnId)
    | Crash(keep: nat)
    | RecoverTxn(t: TxnId, answers: map<Shard, StateCode>)

  function Start(shards: set<Shard>): System {
    System([], 0, map[], map[], map[], map x | x in shards :: Participant(map[], map[]), {}, {}, {})
  }

  /** Every answer is what the shard's tables say; a shard that did not answer counts as unknown. */
  ghost predicate Truthful(s: System, t: TxnId, answers: map<Shard, StateCode>) {
    forall x :: x in answers ==> x in s.shards && (answers[x] == Query(s.shards[x], t) || answers[x] == Unknown)
  }

  /** If some shard has committed t, then recovery hears that from some shard. */
  ghost predicate CommitHeard(s: System, t: TxnId, answers: map<Shard, StateCode>) {
    (exists x :: x in s.shards && t in s.parts && x in s.parts[t] && Query(s.shards[x], t) == Committed) ==>
    (exists x :: t in s.parts && x in s.parts[t] && x in answers && answers[x] == Committed)
  }

  /** `heard` asks recovery to be run only when a commit would be heard of; without it, shards may
      stay silent. */
  ghost predicate Enabled(s: System, step: Step, heard: bool) {
    match step
    case Begin(t) => t !in s.parts
    case BeginAt(t, x) => t in s.phase && s.phase[t] == Active && t in s.parts && x in s.shards && x !in s.parts[t]
    case ClientAborts(t) => t in s.phase && s.phase[t] == Active
    case ClientCommits(t) => t in s.phase && s.phase[t] == Active && t in s.parts && s.parts[t] != {}
    case FlushPrepare(t) => t in s.phase && s.phase[t] == LoggingPrepare
    case Flush => true
    case PrepareAt(t, x, outcome, h) =>
      && t in s.phase && t in s.parts && x in s.parts[t] && x in s.shards
      && (s.phase[t] == Aborting || (s.phase[t].Preparing? && x !in s.phase[t].yes))
    case DecideCommit(t) => t in s.phase && t in s.parts && s.phase[t] == Preparing(s.parts[t])
    case DecideAbort(t) => t in s.phase && t in s.parts && s.phase[t].Preparing? && s.phase[t].yes != s.parts[t]
    case CommitAt(t, x, h) => t in s.phase && s.phase[t].Committing? && t in s.parts && x in s.parts[t] && x in s.shards
    case AbortAt(t, x) => t in s.phase && s.phase[t] == Aborting && t in s.parts && x in s.parts[t] && x in s.shards
    case FinishCommit(t) => t in s.phase && t in s.parts && s.phase[t] == Committing(s.parts[t])
    case FinishAbort(t) => t in s.phase && s.phase[t] == Aborting
    case GiveUp(t) => t in s.phase
    case Crash(keep) => s.durable <= keep <= |s.log|
    case RecoverTxn(t, answers) =>
      t in s.todo && NeedsRecovery(s.todo[t]) && Truthful(s, t, answers) && (heard ==> CommitHeard(s, t, answers))
  }

  /** Append a record; `flush` makes the whole log durable with it. */
  function Log(s: System, kind: RecordKind, t: TxnId, flush: bool): System {
    var log := s.log + [Record(kind, t, if kind == PREPARING && t in s.parts then s.parts[t] else {})];
    s.(log := log, durable := if flush then |log| else s.durable)
  }

  ghost function Do(s: System, step: Step, heard: bool): System
    requires Enabled(s, step, heard)
  {
    match step
    case Begin(t) => s.(parts := s.parts[t := {}], phase := s.phase[t := Active])
    case BeginAt(t, x) =>
      s.(parts := s.parts[t := s.parts[t] + {x}], shards := s.shards[x := OnBegin(s.shards[x], t)])
    case ClientAborts(t) => Log(s, ABORTING, t, true).(phase := s.phase[t := Aborting])
    case ClientCommits(t) => Log(s, PREPARING, t, false).(phase := s.phase[t := LoggingPrepare])
    case FlushPrepare(t) => s.(durable := |s.log|, phase := s.phase[t := Preparing({})])
    case Flush => s.(durable := |s.log|)
    case PrepareAt(t, x, outcome, h) => (
      var (p, yes) := OnPrepare(s.shards[x], t, outcome);
      s.(shards := s.shards[x := p],
         votedYes := if yes then s.votedYes + {(t, x)} else s.votedYes,
         aborted := if t in s.shards[x].pending && t !in p.pending then s.aborted + {(t, x)} else s.aborted,
         phase := if yes && h && s.phase[t].Preparing? then s.phase[t := Preparing(s.phase[t].yes + {x})] else s.phase))
    case DecideCommit(t) => Log(s, COMMITTING, t, false).(phase := s.phase[t := Committing({})])
    case DecideAbort(t) => Log(s, ABORTING, t, false).(phase := s.phase[t := Aborting])
    case CommitAt(t, x, h) =>
      s.(shards := s.shards[x := OnCommit(s.shards[x], t)], committed := s.committed + {(t, x)},
         phase := if h then s.phase[t := Committing(s.phase[t].acked + {x})] else s.phase)
    case AbortAt(t, x) => s.(shards := s.shards[x := OnAbort(s.shards[x], t)], aborted := s.aborted + {(t, x)})
    case FinishCommit(t) => Log(s, COMMITTED, t, true).(phase := s.phase - {t})
    case FinishAbort(t) => Log(s, ABORTED, t, true).(phase := s.phase - {t})
    case GiveUp(t) => s.(phase := s.phase - {t})
    case Crash(keep) =>
      s.(log := s.log[..keep], durable := keep, phase := map[],
         todo := map t | t in s.parts :: Replay(s.log[..keep], t))
    case RecoverTxn(t, answers) =>
      if DriveToCommit(s.todo[t], answers)
      then Log(s, COMMITTING, t, true).(phase := s.phase[t := Committing({})], todo := s.todo - {t})
      else Log(s, ABORTING, t, true).(phase := s.phase[t := Aborting], todo := s.todo - {t})
  }

  /** The system after a run; a step that is not enabled is skipped. */
  ghost function After(shards: set<Shard>, run: seq<Step>, heard: bool): System {
    if run == [] then Start(shards)
    else
      var s := After(shards, run[..|run| - 1], heard);
      if Enabled(s, run[|run| - 1], heard) then Do(s, run[|run| - 1], heard) else s
  }
}
