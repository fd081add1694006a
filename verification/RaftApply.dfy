/** Applying the Raft log to a shard replica: the leader commits the transaction it ran itself, the
    others commit one imported from the log. */
module RaftApply {
  import opened TxnModel
  import C = TxnCrash

  type Txn = nat

  /** The entries a shard puts into the log. */
  datatype Entry = Noop | Batch(t: Txn, writes: seq<Write>) | CommitEntry(t: Txn, ts: nat) | AbortEntry(t: Txn)

  // ---- What a log means ----

  /** The transactions a log leaves prepared. */
  function Prep(log: seq<Entry>): map<Txn, seq<Write>> {
    if log == [] then map[]
    else
      var p := Prep(log[..|log| - 1]);
      match log[|log| - 1]
      case Noop => p
      case Batch(t, writes) => if t in p then p else p[t := writes]
      case CommitEntry(t, _) => p - {t}
      case AbortEntry(t) => p - {t}
  }

  /** The store after a log has been applied over a base. */
  function Replay(base: map<Version, Value>, log: seq<Entry>): map<Version, Value> {
    if log == [] then base
    else
      var before, e := log[..|log| - 1], log[|log| - 1];
      if e.CommitEntry? && e.t in Prep(before) then PutAll(Replay(base, before), Prep(before)[e.t], e.ts)
      else Replay(base, before)
  }

  /** The versions a log writes. */
  predicate Puts(log: seq<Entry>, v: Version) {
    if log == [] then false
    else
      var before, e := log[..|log| - 1], log[|log| - 1];
      Puts(before, v) || (e.CommitEntry? && e.t in Prep(before) && v.1 == e.ts
          && LastWrite(Prep(before)[e.t], v.0).Some?)
  }

  lemma {:induction false} ReplayAt(base: map<Version, Value>, log: seq<Entry>, v: Version)
    ensures v in Replay(base, log) <==> v in base || Puts(log, v)
    ensures Puts(log, v) ==> v in Replay(map[], log) && Replay(base, log)[v] == Replay(map[], log)[v]
    ensures v in base && !Puts(log, v) ==> Replay(base, log)[v] == base[v]
  {
    if log != [] {
      var before, e := log[..|log| - 1], log[|log| - 1];
      ReplayAt(base, before, v);
      ReplayAt(map[], before, v);
      if e.CommitEntry? && e.t in Prep(before) {
        C.PutAllAt(Replay(base, before), Prep(before)[e.t], e.ts, v);
        C.PutAllAt(Replay(map[], before), Prep(before)[e.t], e.ts, v);
      }
    }
  }

  /** Replaying a log over a store gives what replaying it from nothing gives exactly when the store
      holds no version that the log does not write: any part of its own effects, for instance. */
  lemma ReplayIsIdempotentIff(base: map<Version, Value>, log: seq<Entry>)
    ensures Replay(base, log) == Replay(map[], log) <==> forall v :: v in base ==> Puts(log, v)
  {
    forall v ensures v in Replay(base, log) <==> v in base || Puts(log, v) { ReplayAt(base, log, v); }
    forall v ensures v in Replay(map[], log) <==> Puts(log, v) { ReplayAt(map[], log, v); }
    forall v | Puts(log, v)
      ensures v in Replay(map[], log) && v in Replay(base, log) && Replay(base, log)[v] == Replay(map[], log)[v]
    {
      ReplayAt(base, log, v);
    }
  }

  lemma {:induction false} PutsGrow(log: seq<Entry>, n: nat, v: Version)
    requires n <= |log| && Puts(log[..n], v)
    ensures Puts(log, v)
    decreases |log|
  {
    if n == |log| {
      assert log[..n] == log;
    } else {
      assert log[..|log| - 1][..n] == log[..n];
      PutsGrow(log[..|log| - 1], n, v);
    }
  }

  // ---- One replica ----

  datatype Local = Local(prepared: bool, writes: seq<Write>)

  /** `ids` and `results` are the state machine's tables, `local` the manager's transactions.
      `base` is the store the replica last started from and `peak` the furthest it ever got, an
      entry it was in the middle of included; `taken` are the transactions whose prepare result this
      incarnation has handed out: history. */
  datatype Replica = Replica(
    store: map<Version, Value>, ids: map<Txn, nat>, results: map<Txn, bool>, local: map<nat, Local>, nextId: nat,
    applied: nat, base: map<Version, Value>, peak: nat, taken: set<Txn>)

  function Drop(r: Replica, t: Txn): Replica
    requires t in r.ids
  {
    r.(ids := r.ids - {t}, results := r.results - {t}, local := r.local - {r.ids[t]})
  }

  /** Apply one entry. */
  function Apply(r: Replica, e: Entry): Replica {
    match e
    case Noop => r
    case AbortEntry(t) => if t in r.ids then Drop(r, t) else r
    case Batch(t, writes) =>
      if t in r.ids then r.(results := r.results[t := true])
      else r.(local := r.local[r.nextId := Local(true, writes)], ids := r.ids[t := r.nextId],
              nextId := r.nextId + 1, results := r.results[t := true])
    case CommitEntry(t, ts) =>
      if t !in r.ids then r
      else
        var l := r.ids[t];
        if l in r.local && r.local[l].prepared then Drop(r, t).(store := PutAll(r.store, r.local[l].writes, ts))
        else r.(ids := r.ids - {t}, results := r.results - {t})
  }

  // ---- A shard with its replicas ----

  /** `began` says where a transaction began, `batch` the writes its prepare batch was built from,
      `voted` who voted yes and `forgotten` whom their replica dropped before that. */
  datatype Shard = Shard(
    reps: map<nat, Replica>, log: seq<Entry>,
    began: map<Txn, nat>, batch: map<Txn, seq<Write>>, voted: set<Txn>, forgotten: set<Txn>)

  datatype Step =
    | Begin(n: nat, t: Txn)
    | BufferWrite(n: nat, t: Txn, w: Write)
    | PrepareLocal(n: nat, t: Txn)
    | ProposeBatch(n: nat, t: Txn)
    | VoteYes(n: nat, t: Txn)
    | Forget(n: nat, t: Txn)
    | ProposeCommit(t: Txn, ts: nat)
    | ProposeAbort(t: Txn)
    | ApplyNext(n: nat)
    | Restart(n: nat, kept: map<Version, Value>)

  const FRESH := Replica(map[], map[], map[], map[], 1, 0, map[], 0, {})

  function Start(members: set<nat>): Shard { Shard(map n | n in members :: FRESH, [], map[], map[], {}, {}) }

  /** t runs on replica n, its own. */
  predicate Runs(s: Shard, n: nat, t: Txn) {
    && n in s.reps && t in s.began && s.began[t] == n
    && t in s.reps[n].ids && s.reps[n].ids[t] in s.reps[n].local
  }

  function LocalOf(s: Shard, n: nat, t: Txn): Local
    requires Runs(s, n, t)
  {
    s.reps[n].local[s.reps[n].ids[t]]
  }

  predicate Enabled(s: Shard, step: Step) {
    match step
    case Begin(n, t) => n in s.reps && t !in s.began
    case BufferWrite(n, t, _) => Runs(s, n, t) && !LocalOf(s, n, t).prepared
    case PrepareLocal(n, t) => Runs(s, n, t) && !LocalOf(s, n, t).prepared
    case ProposeBatch(n, t) => Runs(s, n, t) && LocalOf(s, n, t).prepared && t !in s.batch
    case VoteYes(n, t) =>
      && Runs(s, n, t) && t in s.batch && t !in s.forgotten
      && t in s.reps[n].results && s.reps[n].results[t]
    case Forget(n, t) => n in s.reps && t in s.began && s.began[t] == n && t !in s.voted
    case ProposeCommit(t, _) => t in s.voted
    case ProposeAbort(_) => true
    case ApplyNext(n) => n in s.reps && s.reps[n].applied < |s.log|
    case Restart(n, kept) =>
      n in s.reps && forall v :: v in kept ==> v in s.reps[n].store || Coming(s.reps[n], s.log, v)
  }

  function WithLocal(r: Replica, t: Txn, l: Local): Replica
    requires t in r.ids
  {
    r.(local := r.local[r.ids[t] := l])
  }

  function AppliedNext(r: Replica, log: seq<Entry>): Replica
    requires r.applied < |log|
  {
    Apply(r, log[r.applied]).(applied := r.applied + 1,
                              peak := if r.applied + 1 > r.peak then r.applied + 1 else r.peak)
  }

  /** The prepare result is handed out, once. */
  function TakeResult(r: Replica, t: Txn): Replica {
    r.(results := r.results - {t}, taken := if t in r.results then r.taken + {t} else r.taken)
  }

  /** A restart in the middle of an entry may find some of its versions in the store. */
  predicate Coming(r: Replica, log: seq<Entry>, v: Version) {
    r.applied < |log| && Puts(log[..r.applied + 1], v)
  }

  function Restarted(r: Replica, kept: map<Version, Value>): Replica {
    r.(store := kept, ids := map[], results := map[], local := map[], applied := 0, base := kept, taken := {},
       peak := if (exists v :: v in kept && v !in r.store) && r.applied + 1 > r.peak then r.applied + 1 else r.peak)
  }

  function Do(s: Shard, step: Step): Shard
    requires Enabled(s, step)
  {
    match step
    case Begin(n, t) =>
      var r := s.reps[n];
      s.(began := s.began[t := n],
         reps := s.reps[n := r.(local := r.local[r.nextId := Local(false, [])], ids := r.ids[t := r.nextId],
                                nextId := r.nextId + 1)])
    case BufferWrite(n, t, w) =>
      var l := LocalOf(s, n, t);
      s.(reps := s.reps[n := WithLocal(s.reps[n], t, Local(false, l.writes + [w]))])
    case PrepareLocal(n, t) =>
      s.(reps := s.reps[n := WithLocal(s.reps[n], t, Local(true, LocalOf(s, n, t).writes))])
    case ProposeBatch(n, t) =>
      var writes := LocalOf(s, n, t).writes;
      s.(log := s.log + [Batch(t, writes)], batch := s.batch[t := writes])
    case VoteYes(n, t) => s.(voted := s.voted + {t}, reps := s.reps[n := TakeResult(s.reps[n], t)])
    case Forget(n, t) =>
      s.(forgotten := s.forgotten + {t},
         reps := s.reps[n := if t in s.reps[n].ids then Drop(s.reps[n], t) else s.reps[n]])
    case ProposeCommit(t, ts) => s.(log := s.log + [CommitEntry(t, ts)])
    case ProposeAbort(t) => s.(log := s.log + [AbortEntry(t)])
    case ApplyNext(n) => s.(reps := s.reps[n := AppliedNext(s.reps[n], s.log)])
    case Restart(n, kept) => s.(reps := s.reps[n := Restarted(s.reps[n], kept)])
  }

  function After(members: set<nat>, run: seq<Step>): Shard {
    if run == [] then Start(members)
    else
      var s, step := After(members, run[..|run| - 1]), run[|run| - 1];
      if Enabled(s, step) then Do(s, step) else s
  }

  // ---- What every reachable state satisfies ----

  /** A table entry of replica n: a transaction the log has left prepared, with the log's writes, or one
      of the replica's own whose batch it has not applied yet. */
  ghost predicate IdOk(s: Shard, n: nat, t: Txn)
    requires n in s.reps && s.reps[n].applied <= |s.log|
  {
    var r := s.reps[n];
    var p := Prep(s.log[..r.applied]);
    && (t in p ==> if t in r.ids then r.ids[t] in r.local && r.local[r.ids[t]] == Local(true, p[t])
        else t in s.forgotten)
    && (t in r.ids && t !in p ==>
          && t in s.began && s.began[t] == n && r.ids[t] in r.local
          && (t in s.batch ==>
                r.local[r.ids[t]] == Local(true, s.batch[t]) && Batch(t, s.batch[t]) !in s.log[..r.applied]))
  }

  /** There is a prepare result exactly for what the log leaves prepared and the replica has in its table,
      until it is handed out; and it is a success. */
  ghost predicate ResultOk(s: Shard, n: nat, t: Txn)
    requires n in s.reps && s.reps[n].applied <= |s.log|
  {
    var r := s.reps[n];
    && (t in r.results <==> t in Prep(s.log[..r.applied]) && t in r.ids && t !in r.taken)
    && (t in r.results ==> r.results[t])
    && (t in r.taken ==> HasBatch(s.log[..r.applied], t))
  }

  ghost predicate HasBatch(log: seq<Entry>, t: Txn) {
    exists i :: 0 <= i < |log| && log[i].Batch? && log[i].t == t
  }

  ghost predicate TableOk(r: Replica) {
    && (forall t :: t in r.ids ==> r.ids[t] < r.nextId)
    && (forall l :: l in r.local ==> l < r.nextId)
    && (forall t, u :: t in r.ids && u in r.ids && t != u ==> r.ids[t] != r.ids[u])
  }

  ghost predicate RepOk(s: Shard, n: nat)
    requires n in s.reps
  {
    var r := s.reps[n];
    && r.applied <= r.peak <= |s.log| && TableOk(r)
    && r.store == Replay(r.base, s.log[..r.applied])
    && (forall v :: v in r.base ==> Puts(s.log[..r.peak], v))
  }

  /** The log: one batch per transaction, with the writes it was built from; a commit only behind it and
      only after a yes vote. */
  ghost predicate LogOk(s: Shard) {
    && (forall i :: 0 <= i < |s.log| && s.log[i].Batch? ==>
        s.log[i].t in s.batch && s.log[i].writes == s.batch[s.log[i].t])
    && (forall i, j :: 0 <= i < j < |s.log| && s.log[i].Batch? && s.log[j].Batch? ==> s.log[i].t != s.log[j].t)
    && (forall i :: 0 <= i < |s.log| && s.log[i].CommitEntry? ==> CommitOk(s, i))
    && (forall t :: t in s.voted ==> t !in s.forgotten && t in s.batch && Batch(t, s.batch[t]) in s.log)
    && (forall t :: t in s.batch ==> t in s.began)
  }

  ghost predicate CommitOk(s: Shard, i: nat)
    requires i < |s.log| && s.log[i].CommitEntry?
  {
    s.log[i].t in s.voted && s.log[i].t in s.batch && Batch(s.log[i].t, s.batch[s.log[i].t]) in s.log[..i]
  }

  ghost predicate Inv(s: Shard) {
    && LogOk(s)
    && (forall n {:trigger RepOk(s, n)} :: n in s.reps ==> RepOk(s, n))
    && (forall n, t {:trigger IdOk(s, n, t)} :: n in s.reps && s.reps[n].applied <= |s.log| ==> IdOk(s, n, t))
    && (forall n, t {:trigger ResultOk(s, n, t)} :: n in s.reps && s.reps[n].applied <= |s.log| ==> ResultOk(s, n, t))
  }
}
