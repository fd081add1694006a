/** The transactions of one shard: buffered writes under key locks, reads validated at Prepare,
    writes applied and logged at Commit, recovery from the write-ahead log. Each step is one
    critical section or one effect on the store, the log or the locks, so transactions interleave
    between any two of them. */
module TxnModel {
  import opened ByteStrings

  type Id = nat

  /** A stored value; None is the tombstone. */
  type Value = Option<Bytes>
  type Version = (Key, nat)

  datatype Write = Write(key: Key, value: Value)

  /** `key` and `version` are the read set entry. `value` is what the caller got, `settled` says that no
      owner of the version had a different value for the key still to apply, and `checked` are the
      versions in the store when the entry was validated: history, recorded only to state what reads
      mean. */
  datatype ReadEntry = ReadEntry(key: Key, version: nat, value: Bytes, settled: bool, checked: set<Version>)

  /** Active, Validating(number of reads checked) and Prepared transactions are in the manager's table.
      A committing one has left it and goes through Applying(number of writes applied), Logged (COMMIT
      durable, locks still held) and Committed; an aborting one through Aborting, AbortLogged and
      Aborted. Lost ones were cut off by a crash before they prepared. */
  datatype Phase =
    | Active | Validating(next: nat) | Prepared | Applying(ts: nat, done: nat) | Logged(ts: nat) | Committed(ts: nat)
    | Aborting | AbortLogged | Aborted | Lost

  /** `drawn` is the commit timestamp the coordinator drew, `prepared` the one in the PREPARE record,
      `pending` a lock acquired by a Write that is not buffered yet. `preparingAt`,
      `committedAt` and `loggedAt` date the start of Prepare, the start of the commit and the COMMIT record:
      history. */
  datatype Txn = Txn(
    snapshot: nat, writes: seq<Write>, readSet: seq<ReadEntry>, phase: Phase,
    drawn: Option<nat>, prepared: Option<nat>, pending: Option<Key>,
    preparingAt: nat, committedAt: nat, loggedAt: nat)

  datatype Kind = Begin(snapshot: nat) | Put(write: Write) | Prepare(ts: nat) | Commit(ts: nat) | Abort
  datatype Record = Record(txn: Id, kind: Kind)

  /** `owner` is the lock table, `synced` the durable length of the log, `clock` the timestamp oracle.
      The rest is history. `now` counts steps. `ever` remembers every value a version was given; a crash
      may bring an older one back. `cut` holds the versions of commits that a crash cut short of their
      COMMIT record, until the transaction commits again at that timestamp. */
  datatype State = State(
    store: map<Version, Value>, txns: map<Id, Txn>, owner: map<Key, Id>,
    wal: seq<Record>, synced: nat, nextId: nat, clock: nat,
    now: nat, ever: set<(Version, Value)>, cut: set<Version>)

  const START := State(map[], map[], map[], [], 0, 1, 1, 0, {}, {})

  // ---- The store ----

  /** The newest version of k at or below ts. */
  function Newest(store: map<Version, Value>, k: Key, ts: nat): (r: Option<nat>)
    ensures r.Some? ==> r.value <= ts && (k, r.value) in store
    ensures forall v :: v <= ts && (k, v) in store ==> r.Some? && v <= r.value
  {
    if (k, ts) in store then Some(ts) else if ts == 0 then None else Newest(store, k, ts - 1)
  }

  /** A read finds the newest version unless that is a tombstone. */
  function Get(store: map<Version, Value>, k: Key, ts: nat): Option<(nat, Bytes)> {
    var v := Newest(store, k, ts);
    if v.Some? && store[(k, v.value)].Some? then Some((v.value, store[(k, v.value)].value)) else None
  }

  /** The last buffered write of k. */
  function LastWrite(writes: seq<Write>, k: Key): Option<Value> {
    if writes == [] then None
    else if writes[|writes| - 1].key == k then Some(writes[|writes| - 1].value)
    else LastWrite(writes[..|writes| - 1], k)
  }

  /** The value a reader meets: the single byte 0 is how a tombstone is stored. */
  function AsStored(value: Value): Value { if value == Some([0]) then None else value }

  function Kept(value: Option<Value>): Option<Value> { if value.Some? then Some(AsStored(value.value)) else None }

  function PutAll(store: map<Version, Value>, writes: seq<Write>, ts: nat): map<Version, Value> {
    if writes == [] then store
    else PutAll(store, writes[..|writes| - 1],
        ts)[(writes[|writes| - 1].key, ts) := AsStored(writes[|writes| - 1].value)]
  }

  // ---- Phases ----

  /** In the middle of its life: it may hold locks. */
  predicate Live(x: Txn) {
    || x.phase.Active? || x.phase.Validating? || x.phase.Prepared? || x.phase.Applying? || x.phase.Logged?
    || x.phase.Aborting? || x.phase.AbortLogged?
  }

  /** Decided to commit. */
  predicate Committing(x: Txn) {
    x.phase.Applying? || x.phase.Logged? || x.phase.Committed?
  }

  predicate Wrote(x: Txn, k: Key) { LastWrite(x.writes, k).Some? }

  function Applied(x: Txn): seq<Write>
    requires x.phase.Applying? ==> x.phase.done <= |x.writes|
  {
    if x.phase.Applying? then x.writes[..x.phase.done] else x.writes
  }

  /** The writes a transaction may still apply at timestamp ts: the rest of a commit under way, or all of
      them if it owns ts without being at work on it. */
  function ToCome(x: Txn, ts: nat): seq<Write> {
    if x.phase.Applying? && x.phase.ts == ts && x.phase.done <= |x.writes| then x.writes[x.phase.done..]
    else if Live(x) && x.drawn == Some(ts) then x.writes
    else []
  }

  // ---- The log ----

  /** The records of one transaction, in log order. */
  function Proj(wal: seq<Record>, t: Id): seq<Kind> {
    if wal == [] then []
    else
      var r := wal[|wal| - 1];
      Proj(wal[..|wal| - 1], t) + if r.txn == t then [r.kind] else []
  }

  function WritesOf(p: seq<Kind>): seq<Write> {
    if p == [] then []
    else
      var r := p[|p| - 1];
      WritesOf(p[..|p| - 1]) + if r.Put? then [r.write] else []
  }

  function SnapshotOf(p: seq<Kind>): nat {
    if p == [] then 0
    else if p[|p| - 1].Begin? then p[|p| - 1].snapshot
    else SnapshotOf(p[..|p| - 1])
  }

  // ---- Steps ----

  datatype Step =
    | BeginTxn(snapshot: nat)
    | Read(t: Id, k: Key)
    | Acquire(t: Id, k: Key)
    | Buffer(t: Id, value: Value)
    | Draw(t: Id)
    | StartPrepare(t: Id)
    | CheckNext(t: Id)
    | FinishPrepare(t: Id)
    | StartCommit(t: Id, redraw: bool)
    | PutNext(t: Id)
    | LogCommit(t: Id)
    | AbortTxn(t: Id)
    | LogAbort(t: Id)
    | ReleaseLocks(t: Id)
    | Crash(keep: nat, kept: map<Version, Value>)

  function LogRecord(s: State, t: Id, kind: Kind, sync: bool): State {
    s.(wal := s.wal + [Record(t, kind)], synced := if sync then |s.wal| + 1 else s.synced)
  }

  function Set(s: State, t: Id, x: Txn): State { s.(txns := s.txns[t := x]) }

  /** ValidateReadSet, for one entry: the read still finds the version it observed. */
  predicate Unchanged(store: map<Version, Value>, r: ReadEntry, ts: nat) {
    var g := Get(store, r.key, ts);
    g.Some? && g.value.0 == r.version
  }

  /** Nobody who owns timestamp ts has a different value of k to come. */
  ghost predicate Settled(s: State, k: Key, ts: nat, value: Bytes) {
    forall u :: u in s.txns ==>
      var rest := Kept(LastWrite(ToCome(s.txns[u], ts), k));
      rest == None || rest == Some(Some(value))
  }

  predicate Is(s: State, t: Id, phase: Phase) { t in s.txns && s.txns[t].phase == phase }

  predicate Enabled(s: State, step: Step) {
    match step
    case BeginTxn(_) => true
    case Read(t, k) =>
      Is(s, t, Active) && LastWrite(s.txns[t].writes, k) == None && Get(s.store, k, s.txns[t].snapshot).Some?
    case Acquire(t, k) =>
      && Is(s, t, Active) && s.txns[t].pending == None && s.txns[t].drawn == None
      && (k in s.owner ==> s.owner[k] == t)
    case Buffer(t, _) => Is(s, t, Active) && s.txns[t].pending.Some?
    case Draw(t) => Is(s, t, Active) && s.txns[t].pending == None && s.txns[t].drawn == None
    case StartPrepare(t) => Is(s, t, Active) && s.txns[t].drawn.Some?
    case CheckNext(t) =>
      t in s.txns && s.txns[t].phase.Validating? && s.txns[t].phase.next < |s.txns[t].readSet| && s.txns[t].drawn.Some?
    case FinishPrepare(t) => t in s.txns && Is(s, t, Validating(|s.txns[t].readSet|)) && s.txns[t].drawn.Some?
    case StartCommit(t, _) => Is(s, t, Prepared) && s.txns[t].drawn.Some?
    case PutNext(t) => t in s.txns && s.txns[t].phase.Applying? && s.txns[t].phase.done < |s.txns[t].writes|
    case LogCommit(t) => t in s.txns && s.txns[t].phase.Applying? && s.txns[t].phase.done == |s.txns[t].writes|
    case AbortTxn(t) => (Is(s, t, Active) || Is(s, t, Prepared)) && s.txns[t].pending == None
    case LogAbort(t) => Is(s, t, Aborting)
    case ReleaseLocks(t) => t in s.txns && (s.txns[t].phase.Logged? || s.txns[t].phase.AbortLogged?)
    case Crash(keep, kept) =>
      s.synced <= keep <= |s.wal| && forall v :: v in kept ==>
          v in s.store && (kept[v] == s.store[v] || (v, kept[v]) in s.ever)
  }

  function Without(owner: map<Key, Id>, t: Id): map<Key, Id> {
    map k | k in owner && owner[k] != t :: owner[k]
  }

  function DoBegin(s: State, snapshot: nat): State {
    var x := Txn(snapshot, [], [], Active, None, None, None, 0, 0, 0);
    Set(LogRecord(s.(nextId := s.nextId + 1), s.nextId, Begin(snapshot), false), s.nextId, x)
  }

  ghost function DoRead(s: State, t: Id, k: Key): State
    requires Enabled(s, Read(t, k))
  {
    var g := Get(s.store, k, s.txns[t].snapshot).value;
    AddRead(s, t, ReadEntry(k, g.0, g.1, Settled(s, k, g.0, g.1), {}))
  }

  function AddRead(s: State, t: Id, r: ReadEntry): State
    requires t in s.txns
  {
    Set(s, t, s.txns[t].(readSet := s.txns[t].readSet + [r]))
  }

  function DoAcquire(s: State, t: Id, k: Key): State
    requires Enabled(s, Acquire(t, k))
  {
    Set(s.(owner := s.owner[k := t]), t, s.txns[t].(pending := Some(k)))
  }

  function DoBuffer(s: State, t: Id, value: Value): State
    requires Enabled(s, Buffer(t, value))
  {
    var x := s.txns[t];
    var w := Write(x.pending.value, value);
    Set(LogRecord(s, t, Put(w), false), t, x.(writes := x.writes + [w], pending := None))
  }

  function DoDraw(s: State, t: Id): State
    requires Enabled(s, Draw(t))
  {
    Set(s.(clock := s.clock + 1), t, s.txns[t].(drawn := Some(s.clock)))
  }

  function DoStartPrepare(s: State, t: Id): State
    requires Enabled(s, StartPrepare(t))
  {
    Set(s, t, s.txns[t].(phase := Validating(0), preparingAt := s.now))
  }

  function DoCheck(s: State, t: Id): State
    requires Enabled(s, CheckNext(t))
  {
    var x := s.txns[t];
    if Unchanged(s.store, x.readSet[x.phase.next], x.drawn.value) then CheckPasses(s, t) else CheckFails(s, t)
  }

  function CheckPasses(s: State, t: Id): State
    requires Enabled(s, CheckNext(t))
  {
    var x := s.txns[t];
    var i := x.phase.next;
    Set(s, t, x.(phase := Validating(i + 1), readSet := x.readSet[i := x.readSet[i].(checked := s.store.Keys)]))
  }

  function CheckFails(s: State, t: Id): State
    requires Enabled(s, CheckNext(t))
  {
    Set(s, t, s.txns[t].(phase := Aborting))
  }

  function DoFinishPrepare(s: State, t: Id): State
    requires Enabled(s, FinishPrepare(t))
  {
    var x := s.txns[t];
    Set(LogRecord(s, t, Prepare(x.drawn.value), true), t, x.(phase := Prepared, prepared := x.drawn))
  }

  function DoStartCommit(s: State, t: Id, redraw: bool): State
    requires Enabled(s, StartCommit(t, redraw))
  {
    var x := s.txns[t];
    var ts := if redraw then s.clock else x.drawn.value;
    Set(s.(clock := if redraw then s.clock + 1 else s.clock, cut := s.cut - VersionsOf(x.writes, ts)), t,
        x.(phase := Applying(ts, 0), committedAt := s.now))
  }

  function DoPut(s: State, t: Id): State
    requires Enabled(s, PutNext(t))
  {
    var x := s.txns[t];
    var w := x.writes[x.phase.done];
    var v := (w.key, x.phase.ts);
    Set(s.(store := s.store[v := AsStored(w.value)], ever := s.ever + {(v, AsStored(w.value))}),
        t, x.(phase := Applying(x.phase.ts, x.phase.done + 1)))
  }

  function DoLogCommit(s: State, t: Id): State
    requires Enabled(s, LogCommit(t))
  {
    var x := s.txns[t];
    Set(LogRecord(s, t, Commit(x.phase.ts), true), t, x.(phase := Logged(x.phase.ts), loggedAt := s.now))
  }

  function DoAbort(s: State, t: Id): State
    requires Enabled(s, AbortTxn(t))
  {
    Set(s, t, s.txns[t].(phase := Aborting))
  }

  function DoLogAbort(s: State, t: Id): State
    requires Enabled(s, LogAbort(t))
  {
    Set(LogRecord(s, t, Abort, true), t, s.txns[t].(phase := AbortLogged))
  }

  function DoRelease(s: State, t: Id): State
    requires Enabled(s, ReleaseLocks(t))
  {
    var x := s.txns[t];
    Set(s.(owner := Without(s.owner, t)), t,
        x.(phase := if x.phase.Logged? then Committed(x.phase.ts) else Aborted))
  }

  ghost function Do(s: State, step: Step): State
    requires Enabled(s, step)
  {
    var s := Tick(s);
    match step
    case BeginTxn(snapshot) => DoBegin(s, snapshot)
    case Read(t, k) => DoRead(s, t, k)
    case Acquire(t, k) => DoAcquire(s, t, k)
    case Buffer(t, value) => DoBuffer(s, t, value)
    case Draw(t) => DoDraw(s, t)
    case StartPrepare(t) => DoStartPrepare(s, t)
    case CheckNext(t) => DoCheck(s, t)
    case FinishPrepare(t) => DoFinishPrepare(s, t)
    case StartCommit(t, redraw) => DoStartCommit(s, t, redraw)
    case PutNext(t) => DoPut(s, t)
    case LogCommit(t) => DoLogCommit(s, t)
    case AbortTxn(t) => DoAbort(s, t)
    case LogAbort(t) => DoLogAbort(s, t)
    case ReleaseLocks(t) => DoRelease(s, t)
    case Crash(keep, kept) => Reopen(s, s.wal[..keep], kept)
  }

  ghost function Take(s: State, step: Step): State {
    if Enabled(s, step) then Do(s, step) else s
  }

  function Tick(s: State): State { s.(now := s.now + 1) }

  // ---- Recovery ----

  function Ids(wal: seq<Record>): set<Id> { set r | r in wal :: r.txn }

  function MaxId(wal: seq<Record>): nat {
    if wal == [] then 0
    else
      var m := MaxId(wal[..|wal| - 1]);
      if wal[|wal| - 1].txn > m then wal[|wal| - 1].txn else m
  }

  function LastKind(wal: seq<Record>, t: Id): Option<Kind> {
    var p := Proj(wal, t);
    if p == [] then None else Some(p[|p| - 1])
  }

  predicate LastOf(wal: seq<Record>, i: nat)
    requires i < |wal|
  {
    forall j :: i < j < |wal| ==> wal[j].txn != wal[i].txn
  }

  /** The store after the transactions whose last record is a COMMIT at one of the first n positions
      have been replayed, in the order of those records. */
  function ReplayCommits(store: map<Version, Value>, wal: seq<Record>, n: nat): map<Version, Value>
    requires n <= |wal|
  {
    if n == 0 then store
    else
      var before := ReplayCommits(store, wal, n - 1);
      var r := wal[n - 1];
      if r.kind.Commit? && LastOf(wal, n - 1) then PutAll(before, WritesOf(Proj(wal[..n - 1], r.txn)), r.kind.ts)
      else before
  }

  /** What the log says about a transaction after a crash. Only those whose last record is PREPARE are
      back in the manager's table; the other phases are history. */
  function Revive(x: Txn, p: seq<Kind>): Txn
    requires p != []
  {
    var last := p[|p| - 1];
    var y := x.(snapshot := SnapshotOf(p), writes := WritesOf(p), pending := None);
    match last
    case Commit(ts) => y.(phase := Committed(ts))
    case Prepare(ts) => y.(phase := Prepared, drawn := Some(ts), prepared := Some(ts))
    case Abort => y.(phase := Aborted)
    case _ => y.(phase := Lost)
  }

  function Revived(txns: map<Id, Txn>, wal: seq<Record>): map<Id, Txn> {
    map t | t in txns && Proj(wal, t) != [] :: Revive(txns[t], Proj(wal, t))
  }

  ghost predicate Claims(txns: map<Id, Txn>, t: Id, k: Key) {
    t in txns && txns[t].phase.Prepared? && Wrote(txns[t], k)
  }

  /** The locks recovery takes: every key a prepared transaction wrote. */
  ghost function Relocked(txns: map<Id, Txn>): map<Key, Id> {
    map k | k in PreparedKeys(txns) :: Claimant(txns, k)
  }

  function PreparedKeys(txns: map<Id, Txn>): set<Key> {
    set t, k | t in txns && txns[t].phase.Prepared? && k in KeysOf(txns[t].writes) :: k
  }

  function KeysOf(writes: seq<Write>): set<Key> { set w | w in writes :: w.key }

  function VersionsOf(writes: seq<Write>, ts: nat): set<Version> { set k | k in KeysOf(writes) :: (k, ts) }

  /** The versions of the commits under way. */
  function CutShort(txns: map<Id, Txn>): set<Version> {
    set t, v | t in txns && txns[t].phase.Applying? && v in VersionsOf(txns[t].writes, txns[t].phase.ts) :: v
  }

  ghost function Claimant(txns: map<Id, Txn>, k: Key): Id {
    if exists t: Id :: Claims(txns, t, k) then var t: Id :| Claims(txns, t, k); t else 0
  }

  ghost function Reopen(s: State, wal: seq<Record>, kept: map<Version, Value>): State {
    var txns := Revived(s.txns, wal);
    s.(store := ReplayCommits(kept, wal, |wal|), txns := txns, owner := Relocked(txns),
       wal := wal, synced := |wal|, nextId := MaxId(wal) + 1, cut := s.cut + CutShort(s.txns))
  }

  // ---- Runs ----

  /** The state after a run; a step that is not enabled does nothing. */
  ghost function After(run: seq<Step>): State
    decreases |run|, 1
  {
    if run == [] then START else AfterLast(run)
  }

  ghost function AfterLast(run: seq<Step>): State
    requires run != []
    decreases |run|, 0
  {
    Take(After(run[..|run| - 1]), run[|run| - 1])
  }

  lemma AfterNext(run: seq<Step>, step: Step)
    ensures After(run + [step]) == Take(After(run), step)
  {
    assert (run + [step])[..|run|] == run;
  }
}
