/** The transaction manager object. Its ghost `state` is the state of the transaction machine after the
    steps in `run`; every method says which steps it takes, and the fields show the state that results. */
module TxnManager {
  import opened ByteStrings
  import opened TxnModel
  import S = TxnSafety
  import I = TxnInvariant
  import L = LockManager
  import T = LockTable

  datatype Transaction = Transaction(
    snapshot: nat, prepareTs: nat, prepared: bool, writes: seq<Write>, observed: seq<(Key, nat)>)

  datatype Result =
    | Ok | Found(value: Bytes) | NotFound | UnknownTxn | NotActive | NotPrepared | Conflict | Blocked | TimedOut

  predicate InTable(x: Txn) { x.phase.Active? || x.phase.Prepared? }

  /** The table entry of a transaction. The read set matters only until Prepare. */
  ghost predicate Like(e: Transaction, x: Txn) {
    && e.snapshot == x.snapshot && e.writes == x.writes && e.prepared == x.phase.Prepared? && x.pending == None
    && (x.phase.Prepared? ==> x.drawn == Some(e.prepareTs))
    && (x.phase.Active? ==>
          && |e.observed| == |x.readSet|
          && forall i :: 0 <= i < |x.readSet| ==> e.observed[i] == (x.readSet[i].key, x.readSet[i].version))
  }

  ghost predicate ShowsTable(txns: map<Id, Transaction>, all: map<Id, Txn>) {
    && (forall t {:trigger t in txns} {:trigger t in all} :: t in txns <==> t in all && InTable(all[t]))
    && (forall t :: t in txns ==> Like(txns[t], all[t]))
  }

  /** A key is owned in the machine exactly when it is on the owner's list. A lock handed to a waiter
      that has not woken up yet counts as free. */
  ghost predicate ShowsLocks(txnLocks: map<Id, seq<Key>>, owner: map<Key, Id>) {
    forall k, t {:trigger Owned(owner, k, t)} {:trigger Listed(txnLocks, k, t)} ::
      Owned(owner, k, t) <==> Listed(txnLocks, k, t)
  }

  predicate Owned(owner: map<Key, Id>, k: Key, t: Id) { k in owner && owner[k] == t }

  predicate Listed(txnLocks: map<Id, seq<Key>>, k: Key, t: Id) { t in txnLocks && k in txnLocks[t] }

  lemma ShowsSet(txns: map<Id, Transaction>, all: map<Id, Txn>, t: Id, e: Transaction, x: Txn)
    requires ShowsTable(txns, all) && InTable(x) && Like(e, x)
    ensures ShowsTable(txns[t := e], all[t := x])
  {}

  lemma ShowsGone(txns: map<Id, Transaction>, all: map<Id, Txn>, t: Id, x: Txn)
    requires ShowsTable(txns, all) && !InTable(x)
    ensures ShowsTable(txns - {t}, all[t := x])
  {}

  lemma GotLock(before: map<Id, seq<Key>>, after: map<Id, seq<Key>>, owner: map<Key, Id>, t: Id, k: Key)
    requires ShowsLocks(before, owner)
    requires after == L.Listing(before, t, k)
    requires forall u :: u != t && u in after ==> k !in after[u]
    ensures ShowsLocks(after, owner[k := t]) && (k in owner ==> owner[k] == t)
  {
    var owner' := owner[k := t];
    assert k in owner ==> Owned(owner, k, owner[k]) && Listed(after, k, owner[k]);
    forall j, u ensures Owned(owner', j, u) <==> Listed(after, j, u) {
      assert Owned(owner, j, u) <==> Listed(before, j, u);
    }
  }

  lemma FreedLocks(before: map<Id, seq<Key>>, owner: map<Key, Id>, t: Id)
    requires ShowsLocks(before, owner)
    ensures ShowsLocks(before - {t}, Without(owner, t))
  {
    forall j, u ensures Owned(Without(owner, t), j, u) <==> Listed(before - {t}, j, u) {
      assert Owned(owner, j, u) <==> Listed(before, j, u);
    }
  }

  /** Only its owner has a key on its list. */
  lemma OneHolder(table: T.Table, t: Id, k: Key)
    requires T.Inv(table) && t in table.held && k in table.held[t]
    ensures forall u :: u != t && u in table.held ==> k !in table.held[u]
  {
    forall u | u != t && u in table.held ensures k !in table.held[u] {
      assert T.TxnOk(table, t) && T.TxnOk(table, u);
      assert k in T.Held(table, t) && (k in table.held[u] ==> k in T.Held(table, u));
    }
  }

  /** The value a transaction last buffered for k. */
  method LatestBuffered(writes: seq<Write>, k: Key) returns (r: Option<Value>)
    ensures r == LastWrite(writes, k)
  {
    var i := |writes|;
    assert writes[..i] == writes;
    while i > 0
      invariant 0 <= i <= |writes| && LastWrite(writes, k) == LastWrite(writes[..i], k)
    {
      i := i - 1;
      assert writes[..i + 1][..i] == writes[..i];
      if writes[i].key == k { return Some(writes[i].value); }
    }
    r := None;
  }

  predicate StillThere(store: map<Version, Value>, r: (Key, nat), ts: nat) {
    Get(store, r.0, ts).Some? && Get(store, r.0, ts).value.0 == r.1
  }

  /** Version v of k is the newest one up to ts, and no tombstone. */
  ghost predicate NewestLive(store: map<Version, Value>, k: Key, v: nat, ts: nat) {
    && v <= ts && (k, v) in store && store[(k, v)].Some?
    && forall w: nat :: (k, w) in store && w <= ts ==> w <= v
  }

  method ValidateReadSet(store: map<Version, Value>, observed: seq<(Key, nat)>, ts: nat) returns (ok: bool)
    ensures ok <==> forall i :: 0 <= i < |observed| ==> StillThere(store, observed[i], ts)
    ensures ok <==> forall i :: 0 <= i < |observed| ==> NewestLive(store, observed[i].0, observed[i].1, ts)
  {
    forall r: (Key, nat) ensures StillThere(store, r, ts) <==> NewestLive(store, r.0, r.1, ts) {}
    var i := 0;
    while i < |observed|
      invariant 0 <= i <= |observed|
      invariant forall j :: 0 <= j < i ==> StillThere(store, observed[j], ts)
    {
      if !StillThere(store, observed[i], ts) { return false; }
      i := i + 1;
    }
    ok := true;
  }

  // ---- Several steps ----

  /** The same step n times. */
  ghost function Again(s: State, step: Step, n: nat): State
    decreases n, 1
  {
    if n == 0 then s else AgainLast(s, step, n)
  }

  ghost function AgainLast(s: State, step: Step, n: nat): State
    requires n > 0
    decreases n, 0
  {
    Take(Again(s, step, n - 1), step)
  }

  lemma AgainNext(s: State, step: Step, n: nat)
    ensures Again(s, step, n + 1) == Take(Again(s, step, n), step)
  {}

  /** The last steps of a transaction that aborts. */
  ghost function Ended(s: State, t: Id): State { Take(Take(s, LogAbort(t)), ReleaseLocks(t)) }

  /** All the steps of a commit with n writes. */
  ghost function CommitSteps(s: State, t: Id, redraw: bool, n: nat): State {
    Take(Take(Again(Take(s, StartCommit(t, redraw)), PutNext(t), n), LogCommit(t)), ReleaseLocks(t))
  }

  /** All the checks of Prepare, one after the other on the same store. */
  ghost function Validated(s: State, t: Id, n: nat): State {
    Again(Take(s, StartPrepare(t)), CheckNext(t), n)
  }

  ghost predicate Holds(store: map<Version, Value>, x: Txn, n: nat) {
    x.drawn.Some? && forall i :: 0 <= i < n && i < |x.readSet| ==> Unchanged(store, x.readSet[i], x.drawn.value)
  }

  /** What n checks do to t: it gets further, or it aborts. */
  ghost predicate Tested(x: Txn, y: Txn, store: map<Version, Value>, n: nat) {
    && y.phase == (if Holds(store, x, n) then Validating(n) else Aborting)
    && y == x.(phase := y.phase, readSet := y.readSet, preparingAt := y.preparingAt) && |y.readSet| == |x.readSet|
    && forall i :: 0 <= i < |x.readSet| ==> y.readSet[i] == x.readSet[i].(checked := y.readSet[i].checked)
  }

  ghost predicate OnlyOf(s: State, s': State, t: Id) {
    t in s'.txns && s' == s.(txns := s.txns[t := s'.txns[t]], now := s'.now)
  }

  lemma {:induction false} ValidatedIs(s: State, t: Id, n: nat)
    requires Enabled(s, StartPrepare(t)) && n <= |s.txns[t].readSet|
    ensures OnlyOf(s, Validated(s, t, n), t) && Tested(s.txns[t], Validated(s, t, n).txns[t], s.store, n)
  {
    if n > 0 {
      ValidatedIs(s, t, n - 1);
      AgainNext(Take(s, StartPrepare(t)), CheckNext(t), n - 1);
      OneCheck(s, Validated(s, t, n - 1), t, n - 1);
    }
  }

  /** All checks passed and PREPARE logged: the table entry shows it. */
  lemma PreparedIs(s: State, t: Id, n: nat, e: Transaction)
    requires Enabled(s, StartPrepare(t)) && n == |s.txns[t].readSet| && Holds(s.store, s.txns[t], n)
    requires s.txns[t].pending == None && e.snapshot == s.txns[t].snapshot && e.writes == s.txns[t].writes
    requires e.prepared && s.txns[t].drawn == Some(e.prepareTs)
    ensures var mid := Validated(s, t, n); var next := Take(mid, FinishPrepare(t));
            && Enabled(mid, FinishPrepare(t)) && t in next.txns && next.txns == s.txns[t := next.txns[t]]
            && InTable(next.txns[t]) && Like(e, next.txns[t]) && next.store == s.store && next.nextId == s.nextId
            && next.owner == s.owner && next.wal == s.wal + [Record(t, TxnModel.Prepare(e.prepareTs))]
            && next.synced == |next.wal|
  {
    ValidatedIs(s, t, n);
  }

  lemma OneCheck(s: State, s': State, t: Id, n: nat)
    requires t in s.txns && OnlyOf(s, s', t) && n < |s.txns[t].readSet| && s.txns[t].drawn.Some?
    requires Tested(s.txns[t], s'.txns[t], s.store, n)
    ensures OnlyOf(s, Take(s', CheckNext(t)), t) && Tested(s.txns[t], Take(s', CheckNext(t)).txns[t], s.store, n + 1)
  {
    var x := s.txns[t];
    assert Holds(s.store, x, n + 1) <==> Holds(s.store, x, n) && Unchanged(s.store, x.readSet[n], x.drawn.value);
  }

  // ---- Scans ----

  /** A row of the snapshot scan. */
  datatype ScanRow = ScanRow(key: Key, ts: nat, value: Bytes)

  /** The scan's result: a transaction's own last write of a key takes the place of the row, and a row it
      deleted is dropped. */
  function Overlay(rows: seq<ScanRow>, writes: seq<Write>): seq<(Key, Bytes)> {
    if rows == [] then []
    else
      var out, r := Overlay(rows[..|rows| - 1], writes), rows[|rows| - 1];
      match LastWrite(writes, r.key)
      case None => out + [(r.key, r.value)]
      case Some(None) => out
      case Some(Some(v)) => out + [(r.key, v)]
  }

  /** The reads it records: the rows it has not written itself. */
  function Recorded(rows: seq<ScanRow>, writes: seq<Write>): seq<(Key, nat)> {
    if rows == [] then []
    else
      var out, r := Recorded(rows[..|rows| - 1], writes), rows[|rows| - 1];
      if LastWrite(writes, r.key) == None then out + [(r.key, r.ts)] else out
  }

  /** A read step for every row; those of keys it wrote itself do nothing. */
  ghost function ReadEach(s: State, t: Id, rows: seq<ScanRow>): State {
    if rows == [] then s
    else Take(ReadEach(s, t, rows[..|rows| - 1]), TxnModel.Read(t, rows[|rows| - 1].key))
  }

  lemma ScanNext(s: State, t: Id, rows: seq<ScanRow>, i: nat, writes: seq<Write>, before: seq<(Key, nat)>)
    requires i < |rows|
    ensures ReadEach(s, t, rows[..i + 1]) == Take(ReadEach(s, t, rows[..i]), TxnModel.Read(t, rows[i].key))
    ensures var w, out, seen := LastWrite(writes, rows[i].key), Overlay(rows[..i], writes),
            before + Recorded(rows[..i], writes);
            && Overlay(rows[..i + 1], writes) ==
               (if w.None? then out + [(rows[i].key, rows[i].value)]
                else if w.value.None? then out
                else out + [(rows[i].key, w.value.value)])
            && before + Recorded(rows[..i + 1], writes) == if w.None? then seen + [(rows[i].key, rows[i].ts)] else seen
  {
    assert rows[..i + 1][..i] == rows[..i];
  }

  /** What Read would give for a key. */
  function ReadValue(store: map<Version, Value>, snap: nat, writes: seq<Write>, k: Key): Option<Bytes> {
    var w, g := LastWrite(writes, k), Get(store, k, snap);
    if w.Some? then w.value else if g.Some? then Some(g.value.1) else None
  }

  ghost predicate Lists(rows: seq<ScanRow>, k: Key) {
    exists i :: 0 <= i < |rows| && rows[i].key == k
  }

  /** A scan lists a key of the snapshot with a value exactly if Read of that key gives the value, and
      records the version Read would record. */
  lemma {:induction false} ScanAgreesWithRead(store: map<Version, Value>, snap: nat, rows: seq<ScanRow>,
      writes: seq<Write>, k: Key, v: Bytes, ts: nat)
    requires forall i :: 0 <= i < |rows| ==> Get(store, rows[i].key, snap) == Some((rows[i].ts, rows[i].value))
    ensures (k, v) in Overlay(rows, writes) <==> Lists(rows, k) && ReadValue(store, snap, writes, k) == Some(v)
    ensures (k, ts) in Recorded(rows, writes) <==>
            Lists(rows, k) && LastWrite(writes, k) == None && Get(store, k, snap).Some?
                && Get(store, k, snap).value.0 == ts
  {
    if rows != [] {
      var n := |rows| - 1;
      ScanAgreesWithRead(store, snap, rows[..n], writes, k, v, ts);
      assert rows == rows[..n] + [rows[n]];
      assert Lists(rows, k) <==> Lists(rows[..n], k) || rows[n].key == k;
    }
  }

  ghost predicate WroteNothing(e: Transaction) { forall j :: LastWrite(e.writes, j) == None }

  /** The order of the rows stays. */
  lemma {:induction false} OverlayInOrder(rows: seq<ScanRow>, writes: seq<Write>, i: nat, j: nat)
      returns (a: nat, b: nat)
    requires i < j < |Overlay(rows, writes)|
    ensures a < b < |rows|
    ensures Overlay(rows, writes)[i].0 == rows[a].key && Overlay(rows, writes)[j].0 == rows[b].key
  {
    var n := |rows| - 1;
    if j < |Overlay(rows[..n], writes)| {
      a, b := OverlayInOrder(rows[..n], writes, i, j);
    } else {
      a := OverlayFrom(rows[..n], writes, i);
      b := n;
    }
  }

  lemma {:induction false} OverlayFrom(rows: seq<ScanRow>, writes: seq<Write>, i: nat) returns (a: nat)
    requires i < |Overlay(rows, writes)|
    ensures a < |rows| && Overlay(rows, writes)[i].0 == rows[a].key
  {
    var n := |rows| - 1;
    if i < |Overlay(rows[..n], writes)| { a := OverlayFrom(rows[..n], writes, i); } else { a := n; }
  }

  class Manager {
    var store: map<Version, Value>
    var txns: map<Id, Transaction>
    var wal: seq<Record>
    var synced: nat
    var nextId: nat
    const locks: L.Manager
    ghost var state: State
    ghost var run: seq<Step>

    ghost predicate Shows()
      reads this
    {
      && state == After(run)
      && store == state.store && wal == state.wal && synced == state.synced && nextId == state.nextId
      && ShowsTable(txns, state.txns)
    }

    ghost predicate Valid()
      reads this, locks
    {
      Shows() && locks.Valid() && ShowsLocks(locks.txnLocks, state.owner)
    }

    constructor (locks: L.Manager)
      requires locks.Valid() && locks.txnLocks == map[]
      ensures Valid() && state == START && this.locks == locks
    {
      store, txns, wal, synced, nextId, state, run := map[], map[], [], 0, 1, START, [];
      this.locks := locks;
    }

    /** The machine takes a step. */
    ghost method Step(step: Step, next: State)
      requires state == After(run) && Enabled(state, step) && next == Do(state, step)
      modifies `state, `run
      ensures state == After(run) && state == next && state == Take(old(state), step)
    {
      AfterNext(run, step);
      state, run := next, run + [step];
    }

    ghost method Step2(first: Step, mid: State, second: Step, next: State)
      requires state == After(run) && Enabled(state, first) && mid == Do(state, first)
      requires Enabled(mid, second) && next == Do(mid, second)
      modifies `state, `run
      ensures state == After(run) && state == next && state == Take(Take(old(state), first), second)
    {
      Step(first, mid);
      Step(second, next);
    }

    /** The machine takes the steps of Prepare up to its verdict. */
    ghost method Validate(t: Id, n: nat)
      requires state == After(run)
      modifies `state, `run
      ensures state == After(run) && state == Validated(old(state), t, n)
    {
      AfterNext(run, StartPrepare(t));
      state, run := Take(state, StartPrepare(t)), run + [StartPrepare(t)];
      for i := 0 to n
        invariant state == After(run) && state == Validated(old(state), t, i)
      {
        AfterNext(run, CheckNext(t));
        AgainNext(Take(old(state), StartPrepare(t)), CheckNext(t), i);
        state, run := Take(state, CheckNext(t)), run + [CheckNext(t)];
      }
    }

    method Append(t: Id, kind: Kind, sync: bool)
      modifies `wal, `synced
      ensures wal == old(wal) + [Record(t, kind)] && synced == if sync then |wal| else old(synced)
    {
      wal := wal + [Record(t, kind)];
      if sync { synced := |wal|; }
    }

    method Begin(snapshot: nat) returns (t: Id)
      requires Valid()
      modifies this
      ensures Valid() && state == Take(old(state), BeginTxn(snapshot)) && t == old(nextId) && nextId == t + 1
      ensures txns == old(txns)[t := Transaction(snapshot, 0, false, [], [])]
      ensures store == old(store) && wal == old(wal) + [Record(t, TxnModel.Begin(snapshot))] && synced == old(synced)
    {
      t := nextId;
      nextId := nextId + 1;
      Append(t, TxnModel.Begin(snapshot), false);
      var e := Transaction(snapshot, 0, false, [], []);
      ghost var next := DoBegin(Tick(state), snapshot);
      ShowsSet(txns, state.txns, t, e, next.txns[t]);
      txns := txns[t := e];
      Step(BeginTxn(snapshot), next);
    }

    /** The coordinator draws t's commit timestamp; the manager takes no part. */
    ghost method Timestamp(t: Id)
      requires Valid() && Enabled(state, Draw(t))
      modifies `state, `run
      ensures Valid() && state == Take(old(state), Draw(t))
    {
      Step(Draw(t), DoDraw(Tick(state), t));
    }

    method Read(t: Id, k: Key) returns (r: Result)
      requires Valid()
      modifies this
      ensures Valid() && store == old(store)
      ensures t !in old(txns) ==> r == UnknownTxn && state == old(state)
      ensures t in old(txns) && old(txns)[t].prepared ==> r == NotActive && state == old(state)
      ensures t in old(txns) && !old(txns)[t].prepared ==>
                var w, g := LastWrite(old(txns)[t].writes, k), Get(store, k, old(txns)[t].snapshot);
                if w.Some? then state == old(state) && r == (if w.value.Some? then Found(w.value.value) else NotFound)
                else if g.Some? then state == Take(old(state), TxnModel.Read(t, k)) && r == Found(g.value.1)
                else state == old(state) && r == NotFound
    {
      if t !in txns { return UnknownTxn; }
      if txns[t].prepared { return NotActive; }
      var w := LatestBuffered(txns[t].writes, k);
      if w.Some? { return if w.value.Some? then Found(w.value.value) else NotFound; }
      var g := Get(store, k, txns[t].snapshot);
      if g.None? { return NotFound; }
      Observe(t, k, g.value.0);
      r := Found(g.value.1);
    }

    method Observe(t: Id, k: Key, version: nat)
      requires Valid() && t in txns && Enabled(state, TxnModel.Read(t, k))
      requires Get(store, k, txns[t].snapshot).value.0 == version
      modifies this
      ensures Valid() && store == old(store) && state == Take(old(state), TxnModel.Read(t, k))
      ensures txns == old(txns)[t := old(txns)[t].(observed := old(txns)[t].observed + [(k, version)])]
    {
      var e := txns[t].(observed := txns[t].observed + [(k, version)]);
      ghost var next := DoRead(Tick(state), t, k);
      ShowsSet(txns, state.txns, t, e, next.txns[t]);
      txns := txns[t := e];
      Step(TxnModel.Read(t, k), next);
    }

    /** The rows are those the store's iterator gives at t's snapshot. */
    method Scan(t: Id, rows: seq<ScanRow>) returns (r: Result, out: seq<(Key, Bytes)>)
      requires Valid()
      requires t in txns ==> forall i :: 0 <= i < |rows| ==>
               Get(store, rows[i].key, txns[t].snapshot) == Some((rows[i].ts, rows[i].value))
      modifies this
      ensures Valid() && store == old(store)
      ensures t !in old(txns) ==> r == UnknownTxn && out == [] && state == old(state)
      ensures t in old(txns) && old(txns)[t].prepared ==> r == NotActive && out == [] && state == old(state)
      ensures t in old(txns) && !old(txns)[t].prepared ==>
                && r == Ok && out == Overlay(rows, old(txns)[t].writes) && state == ReadEach(old(state), t, rows)
                && t in txns && txns[t].observed == old(txns)[t].observed + Recorded(rows, old(txns)[t].writes)
    {
      if t !in txns { return UnknownTxn, []; }
      if txns[t].prepared { return NotActive, []; }
      out := ScanActive(t, rows);
      r := Ok;
    }

    method ScanActive(t: Id, rows: seq<ScanRow>) returns (out: seq<(Key, Bytes)>)
      requires Valid() && t in txns && !txns[t].prepared
      requires forall i :: 0 <= i < |rows| ==>
               Get(store, rows[i].key, txns[t].snapshot) == Some((rows[i].ts, rows[i].value))
      modifies this
      ensures Valid() && store == old(store) && t in txns && state == ReadEach(old(state), t, rows)
      ensures out == Overlay(rows, old(txns)[t].writes)
      ensures txns[t].observed == old(txns)[t].observed + Recorded(rows, old(txns)[t].writes)
    {
      out := [];
      var writes := txns[t].writes;
      assert txns[t].observed == txns[t].observed + [];
      for i := 0 to |rows|
        invariant Valid() && store == old(store) && out == Overlay(rows[..i], writes) && t in txns
        invariant txns[t] == old(txns)[t].(observed := old(txns)[t].observed + Recorded(rows[..i], writes))
        invariant state == ReadEach(old(state), t, rows[..i])
      {
        ScanNext(old(state), t, rows, i, writes, old(txns)[t].observed);
        out := ScanOne(t, rows[i], writes, out);
      }
      assert rows[..|rows|] == rows;
    }

    method ScanOne(t: Id, row: ScanRow, writes: seq<TxnModel.Write>, out: seq<(Key, Bytes)>)
        returns (out': seq<(Key, Bytes)>)
      requires Valid() && t in txns && !txns[t].prepared && txns[t].writes == writes
      requires Get(store, row.key, txns[t].snapshot) == Some((row.ts, row.value))
      modifies this
      ensures Valid() && store == old(store) && state == Take(old(state), TxnModel.Read(t, row.key))
      ensures var w, e := LastWrite(writes, row.key), old(txns)[t];
              if w.Some? then
                txns == old(txns) && out' == if w.value.Some? then out + [(row.key, w.value.value)] else out
              else
                && txns == old(txns)[t := e.(observed := e.observed + [(row.key, row.ts)])]
                && out' == out + [(row.key, row.value)]
    {
      var w := LatestBuffered(writes, row.key);
      out' := out;
      if w.Some? {
        if w.value.Some? { out' := out + [(row.key, w.value.value)]; }
      } else {
        Observe(t, row.key, row.ts);
        out' := out + [(row.key, row.value)];
      }
    }

    // ---- Write and Delete ----

    /** No write arrives for a transaction between its commit timestamp being drawn and its locks being
        released; one that is over has none. */
    ghost predicate MayWrite(t: Id)
      reads this
    {
      if t in state.txns && Live(state.txns[t]) then state.txns[t].phase.Active? && state.txns[t].drawn == None
      else forall k :: k in state.owner ==> state.owner[k] != t
    }

    ghost predicate Written(r: Result, t: Id, k: Key, value: Value, before: map<Id, Transaction>, s: State)
      reads this
    {
      if t !in before then r == UnknownTxn && state == s && txns == before
      else
        && r == Ok && state == Take(Take(s, Acquire(t, k)), Buffer(t, value))
        && txns == before[t := before[t].(writes := before[t].writes + [TxnModel.Write(k, value)])]
    }

    /** Write (a value) and Delete (None), up to the point where the lock is there or must be waited for. */
    method Write(t: Id, k: Key, value: Value) returns (r: Result)
      requires Valid() && T.Idle(locks.table, t) && MayWrite(t)
      modifies this, locks
      ensures Valid() && store == old(store)
      ensures r == Blocked <==> t in locks.table.waiting
      ensures r == Blocked ==> state == old(state) && txns == old(txns)
      ensures r == Blocked <==> k in old(locks.locks) && old(locks.locks)[k].owner != t
      ensures r == Ok ==> wal == old(wal) + [Record(t, Put(TxnModel.Write(k, value)))]
      ensures r != Blocked ==> Written(r, t, k, value, old(txns), old(state))
    {
      var got := locks.Acquire(t, k);
      if !got { return Blocked; }
      GotIt(t, k, old(locks.txnLocks));
      r := FinishWrite(t, k, value);
    }

    /** A Write that waits for its lock wakes up, or reaches its deadline and aborts the transaction. */
    method ResumeWrite(t: Id, k: Key, value: Value, expired: bool) returns (r: Result)
      requires Valid() && t in locks.table.waiting && locks.table.waiting[t] == k && MayWrite(t)
      modifies this, locks
      ensures Valid() && store == old(store)
      ensures if T.HandedOver(old(locks.table), t) then Written(r, t, k, value, old(txns), old(state))
              else if expired then
                && r == TimedOut
                && state == if t in old(txns) then Ended(Take(old(state), AbortTxn(t)), t) else old(state)
              else r == Blocked && state == old(state)
    {
      var got;
      if expired { got := locks.Expire(t, k); } else { got := locks.Recheck(t, k); }
      if got {
        GotIt(t, k, old(locks.txnLocks));
        r := FinishWrite(t, k, value);
      } else if expired {
        var _ := Abort(t);
        r := TimedOut;
      } else {
        r := Blocked;
      }
    }

    /** Write or Delete for a transaction that has prepared: the answer is an error, but all its locks are
        let go, so the manager is in order no more if the transaction wrote anything. */
    method WriteTooLate(t: Id, k: Key) returns (r: Result)
      requires Valid() && T.Idle(locks.table, t) && t in txns && txns[t].prepared
      modifies locks
      ensures r == Blocked || r == NotActive
      ensures r == Blocked ==> Valid() && t in locks.table.waiting
      ensures r == NotActive ==> t !in locks.txnLocks && (Valid() <==> WroteNothing(txns[t]))
    {
      var got := locks.Acquire(t, k);
      if !got { return Blocked; }
      GotIt(t, k, old(locks.txnLocks));
      FreedLocks(locks.txnLocks, state.owner[k := t], t);
      locks.ReleaseAll(t);
      r := NotActive;
      LocksGone(t, k);
    }

    lemma LocksGone(t: Id, k: Key)
      requires Shows() && locks.Valid() && ShowsLocks(locks.txnLocks, Without(state.owner[k := t], t))
      requires t in txns && t !in locks.txnLocks && (k in state.owner ==> state.owner[k] == t)
      ensures Valid() <==> WroteNothing(txns[t])
    {
      S.AlwaysInv(run);
      forall j
        ensures LastWrite(txns[t].writes, j).Some? ==> Owned(state.owner, j, t)
      { assert I.LocksOk(state, t, j); }
      if WroteNothing(txns[t]) {
        forall j | j in state.owner ensures state.owner[j] != t { assert I.OwnerOk(state, j); }
        assert Without(state.owner[k := t], t) == state.owner;
      } else {
        var j :| LastWrite(txns[t].writes, j) != None;
        assert Owned(state.owner, j, t) && !Listed(locks.txnLocks, j, t);
        assert !ShowsLocks(locks.txnLocks, state.owner);
        assert !Valid();
      }
    }

    /** The lock manager has just put k on t's list. */
    ghost predicate HasLock(t: Id, k: Key)
      reads this, locks
    {
      && Shows() && locks.Valid() && ShowsLocks(locks.txnLocks, state.owner[k := t])
      && (k in state.owner ==> state.owner[k] == t)
    }

    lemma GotIt(t: Id, k: Key, before: map<Id, seq<Key>>)
      requires Shows() && locks.Valid() && ShowsLocks(before, state.owner)
      requires locks.txnLocks == L.Listing(before, t, k)
      ensures HasLock(t, k)
    {
      OneHolder(locks.table, t, k);
      GotLock(before, locks.txnLocks, state.owner, t, k);
    }

    /** The second critical section of Write and Delete. */
    method FinishWrite(t: Id, k: Key, value: Value) returns (r: Result)
      requires HasLock(t, k) && T.Idle(locks.table, t) && MayWrite(t)
      modifies this, locks
      ensures Valid() && store == old(store) && t !in locks.table.waiting
      ensures r == Ok ==> wal == old(wal) + [Record(t, Put(TxnModel.Write(k, value)))]
      ensures Written(r, t, k, value, old(txns), old(state))
    {
      if t in txns {
        BufferWrite(t, k, value);
        r := Ok;
      } else {
        FreedLocks(locks.txnLocks, state.owner[k := t], t);
        NoLocksLeft(state.owner, t, k);
        locks.ReleaseAll(t);
        r := UnknownTxn;
      }
    }

    method BufferWrite(t: Id, k: Key, value: Value)
      requires HasLock(t, k) && MayWrite(t) && t in txns
      modifies this
      ensures Valid() && store == old(store) && state == Take(Take(old(state), Acquire(t, k)), Buffer(t, value))
      ensures txns == old(txns)[t := old(txns)[t].(writes := old(txns)[t].writes + [TxnModel.Write(k, value)])]
      ensures wal == old(wal) + [Record(t, Put(TxnModel.Write(k, value)))]
    {
      Append(t, Put(TxnModel.Write(k, value)), false);
      var e := txns[t].(writes := txns[t].writes + [TxnModel.Write(k, value)]);
      ghost var mid := DoAcquire(Tick(state), t, k);
      ghost var next := DoBuffer(Tick(mid), t, value);
      ShowsSet(txns, state.txns, t, e, next.txns[t]);
      assert next.txns == state.txns[t := next.txns[t]];
      txns := txns[t := e];
      Step2(Acquire(t, k), mid, Buffer(t, value), next);
    }

    // ---- Prepare, Commit and Abort ----

    method LogCommitted(t: Id, ts: nat)
      requires Valid() && Enabled(state, LogCommit(t)) && ts == state.txns[t].phase.ts
      modifies this
      ensures Valid() && store == old(store) && txns == old(txns) && wal == old(wal) + [Record(t, TxnModel.Commit(ts))]
      ensures synced == |wal|
      ensures state == Take(old(state), LogCommit(t)) && Enabled(state, ReleaseLocks(t))
    {
      Append(t, TxnModel.Commit(ts), true);
      ghost var next := DoLogCommit(Tick(state), t);
      ShowsGone(txns, state.txns, t, next.txns[t]);
      assert txns - {t} == txns;
      Step(LogCommit(t), next);
    }

    method LogAborted(t: Id)
      requires Valid() && Enabled(state, LogAbort(t))
      modifies this
      ensures Valid() && store == old(store) && txns == old(txns) && wal == old(wal) + [Record(t, TxnModel.Abort)]
      ensures synced == |wal|
      ensures state == Take(old(state), LogAbort(t)) && Enabled(state, ReleaseLocks(t))
    {
      Append(t, TxnModel.Abort, true);
      ghost var next := DoLogAbort(Tick(state), t);
      ShowsGone(txns, state.txns, t, next.txns[t]);
      assert txns - {t} == txns;
      Step(LogAbort(t), next);
    }

    method FreeAll(t: Id)
      requires Valid() && T.Idle(locks.table, t) && Enabled(state, ReleaseLocks(t))
      modifies this, locks
      ensures Valid() && store == old(store) && txns == old(txns) && wal == old(wal) && synced == old(synced)
      ensures state == Take(old(state), ReleaseLocks(t)) && t !in locks.txnLocks
    {
      ghost var next := DoRelease(Tick(state), t);
      ShowsGone(txns, state.txns, t, next.txns[t]);
      assert txns - {t} == txns;
      FreedLocks(locks.txnLocks, state.owner, t);
      locks.ReleaseAll(t);
      Step(ReleaseLocks(t), next);
    }

    method Prepare(t: Id, ts: nat) returns (r: Result)
      requires Valid() && T.Idle(locks.table, t)
      requires t in txns && !txns[t].prepared ==> state.txns[t].drawn == Some(ts)
      modifies this, locks
      ensures Valid() && store == old(store)
      ensures t !in old(txns) ==> r == UnknownTxn && state == old(state)
      ensures t in old(txns) && old(txns)[t].prepared ==> r == NotActive && state == old(state)
      ensures t in old(txns) && !old(txns)[t].prepared ==>
                var e, tested := old(txns)[t], Validated(old(state), t, |old(txns)[t].observed|);
                if forall i :: 0 <= i < |e.observed| ==> NewestLive(store, e.observed[i].0, e.observed[i].1, ts) then
                  && r == Ok && state == Take(tested, FinishPrepare(t))
                  && txns == old(txns)[t := e.(prepared := true, prepareTs := ts)]
                  && wal == old(wal) + [Record(t, TxnModel.Prepare(ts))] && synced == |wal|
                else
                  && r == Conflict && state == Ended(tested, t)
                  && wal == old(wal) + [Record(t, TxnModel.Abort)] && synced == |wal|
                  && t !in txns && t !in locks.txnLocks
    {
      if t !in txns { return UnknownTxn; }
      if txns[t].prepared { return NotActive; }
      var ok := ValidateReadSet(store, txns[t].observed, ts);
      SameValidation(store, txns[t], state.txns[t], ts);
      if ok {
        MarkPrepared(t, ts);
        r := Ok;
      } else {
        Reject(t);
        r := Conflict;
      }
    }

    method MarkPrepared(t: Id, ts: nat)
      requires Valid() && t in txns && !txns[t].prepared && state.txns[t].drawn == Some(ts)
      requires Holds(store, state.txns[t], |txns[t].observed|)
      modifies this
      ensures Valid() && store == old(store)
      ensures state == Take(Validated(old(state), t, |old(txns)[t].observed|), FinishPrepare(t))
      ensures txns == old(txns)[t := old(txns)[t].(prepared := true, prepareTs := ts)]
      ensures wal == old(wal) + [Record(t, TxnModel.Prepare(ts))] && synced == |wal|
    {
      Append(t, TxnModel.Prepare(ts), true);
      var e := txns[t].(prepared := true, prepareTs := ts);
      ghost var n := |txns[t].observed|;
      ghost var next := Take(Validated(state, t, n), FinishPrepare(t));
      PreparedIs(state, t, n, e);
      ShowsSet(txns, state.txns, t, e, next.txns[t]);
      txns := txns[t := e];
      Validate(t, n);
      Step(FinishPrepare(t), next);
    }

    method Reject(t: Id)
      requires Valid() && T.Idle(locks.table, t) && t in txns && !txns[t].prepared && state.txns[t].drawn.Some?
      requires !Holds(store, state.txns[t], |txns[t].observed|)
      modifies this, locks
      ensures Valid() && store == old(store) && t !in txns && t !in locks.txnLocks
      ensures state == Ended(Validated(old(state), t, |old(txns)[t].observed|), t)
      ensures wal == old(wal) + [Record(t, TxnModel.Abort)] && synced == |wal|
    {
      Remove(t);
      LogAborted(t);
      FreeAll(t);
    }

    method Remove(t: Id)
      requires Valid() && t in txns && !txns[t].prepared && state.txns[t].drawn.Some?
      requires !Holds(store, state.txns[t], |txns[t].observed|)
      modifies this
      ensures Valid() && store == old(store) && wal == old(wal) && txns == old(txns) - {t}
      ensures state == Validated(old(state), t, |old(txns)[t].observed|) && Enabled(state, LogAbort(t))
    {
      ghost var n := |txns[t].observed|;
      ghost var next := Validated(state, t, n);
      ValidatedIs(state, t, n);
      ShowsGone(txns, state.txns, t, next.txns[t]);
      txns := txns - {t};
      Validate(t, n);
    }

    method Abort(t: Id) returns (r: Result)
      requires Valid() && T.Idle(locks.table, t)
      modifies this, locks
      ensures Valid() && r == Ok && store == old(store)
      ensures if t in old(txns) then
                && state == Ended(Take(old(state), AbortTxn(t)), t)
                && wal == old(wal) + [Record(t, TxnModel.Abort)] && synced == |wal|
                && t !in txns && t !in locks.txnLocks
              else state == old(state)
    {
      r := Ok;
      if t in txns {
        ghost var next := DoAbort(Tick(state), t);
        ShowsGone(txns, state.txns, t, next.txns[t]);
        txns := txns - {t};
        Step(AbortTxn(t), next);
        LogAborted(t);
        FreeAll(t);
      }
    }

    /** ts is the timestamp t prepared with, or one drawn afresh for this commit. */
    method Commit(t: Id, ts: nat) returns (r: Result)
      requires Valid() && T.Idle(locks.table, t)
      requires t in txns && txns[t].prepared ==> txns[t].prepareTs == ts || ts == state.clock
      modifies this, locks
      ensures Valid()
      ensures t !in old(txns) ==> r == UnknownTxn && state == old(state) && store == old(store)
      ensures t in old(txns) && !old(txns)[t].prepared ==>
              r == NotPrepared && state == old(state) && store == old(store)
      ensures t in old(txns) && old(txns)[t].prepared ==>
                && r == Ok && store == PutAll(old(store), old(txns)[t].writes, ts) && t !in txns && t !in locks.txnLocks
                && wal == old(wal) + [Record(t, TxnModel.Commit(ts))] && synced == |wal|
                && state == CommitSteps(old(state), t, old(txns)[t].prepareTs != ts, |old(txns)[t].writes|)
    {
      if t !in txns { return UnknownTxn; }
      if !txns[t].prepared { return NotPrepared; }
      CommitPrepared(t, ts);
      r := Ok;
    }

    method CommitPrepared(t: Id, ts: nat)
      requires Valid() && T.Idle(locks.table, t)
      requires t in txns && txns[t].prepared && (txns[t].prepareTs == ts || ts == state.clock)
      modifies this, locks
      ensures Valid() && store == PutAll(old(store), old(txns)[t].writes, ts) && t !in txns && t !in locks.txnLocks
      ensures wal == old(wal) + [Record(t, TxnModel.Commit(ts))] && synced == |wal|
      ensures state == CommitSteps(old(state), t, old(txns)[t].prepareTs != ts, |old(txns)[t].writes|)
    {
      var writes := txns[t].writes;
      StartCommitting(t, ts);
      ApplyWrites(t, writes, ts);
      CloseCommit(t, ts);
    }

    method CloseCommit(t: Id, ts: nat)
      requires Valid() && T.Idle(locks.table, t) && Enabled(state, LogCommit(t)) && ts == state.txns[t].phase.ts
      modifies this, locks
      ensures Valid() && store == old(store) && txns == old(txns) && t !in locks.txnLocks
      ensures wal == old(wal) + [Record(t, TxnModel.Commit(ts))] && synced == |wal|
      ensures state == Take(Take(old(state), LogCommit(t)), ReleaseLocks(t))
    {
      LogCommitted(t, ts);
      FreeAll(t);
    }

    method StartCommitting(t: Id, ts: nat)
      requires Valid() && t in txns && txns[t].prepared && (txns[t].prepareTs == ts || ts == state.clock)
      modifies this
      ensures Valid() && txns == old(txns) - {t} && store == old(store) && wal == old(wal)
      ensures state == Take(old(state), StartCommit(t, old(txns)[t].prepareTs != ts))
      ensures t in state.txns && state.txns[t].phase == Applying(ts, 0) && state.txns[t].writes == old(txns)[t].writes
    {
      ghost var redraw := txns[t].prepareTs != ts;
      ghost var next := DoStartCommit(Tick(state), t, redraw);
      ShowsGone(txns, state.txns, t, next.txns[t]);
      txns := txns - {t};
      Step(StartCommit(t, redraw), next);
    }

    method ApplyWrites(t: Id, writes: seq<TxnModel.Write>, ts: nat)
      requires Valid() && t in state.txns && state.txns[t].phase == Applying(ts, 0) && state.txns[t].writes == writes
      requires t !in txns
      modifies `store, `state, `run
      ensures Valid() && store == PutAll(old(store), writes, ts)
      ensures t in state.txns && state.txns[t].phase == Applying(ts, |writes|) && state.txns[t].writes == writes
      ensures state == Again(old(state), PutNext(t), |writes|)
    {
      var i := 0;
      while i < |writes|
        invariant 0 <= i <= |writes| && Valid()
        invariant t in state.txns && state.txns[t].phase == Applying(ts, i) && state.txns[t].writes == writes
        invariant store == PutAll(old(store), writes[..i], ts)
        invariant state == Again(old(state), PutNext(t), i)
      {
        PutNextOne(old(store), writes, i, ts);
        AgainNext(old(state), PutNext(t), i);
        ApplyOne(t, writes[i], ts);
        i := i + 1;
      }
      assert writes[..i] == writes;
    }

    method ApplyOne(t: Id, w: TxnModel.Write, ts: nat)
      requires Valid() && t !in txns && t in state.txns && state.txns[t].phase.Applying? && state.txns[t].phase.ts == ts
      requires state.txns[t].phase.done < |state.txns[t].writes| && w == state.txns[t].writes[state.txns[t].phase.done]
      modifies `store, `state, `run
      ensures Valid() && store == old(store)[(w.key, ts) := AsStored(w.value)] && state == Take(old(state), PutNext(t))
      ensures t in state.txns && state.txns[t].writes == old(state).txns[t].writes
      ensures state.txns[t].phase == Applying(ts, old(state).txns[t].phase.done + 1)
    {
      ghost var next := DoPut(Tick(state), t);
      ShowsGone(txns, state.txns, t, next.txns[t]);
      assert txns - {t} == txns;
      store := store[(w.key, ts) := AsStored(w.value)];
      Step(PutNext(t), next);
    }
  }

  lemma PutNextOne(store: map<Version, Value>, writes: seq<Write>, i: nat, ts: nat)
    requires i < |writes|
    ensures PutAll(store, writes[..i + 1], ts) ==
            PutAll(store, writes[..i], ts)[(writes[i].key, ts) := AsStored(writes[i].value)]
  {
    assert writes[..i + 1][..i] == writes[..i];
  }

  lemma SameValidation(store: map<Version, Value>, e: Transaction, x: Txn, ts: nat)
    requires Like(e, x) && x.phase.Active? && x.drawn == Some(ts)
    ensures Holds(store, x, |e.observed|) <==> forall i :: 0 <= i < |e.observed| ==>
            StillThere(store, e.observed[i], ts)
  {
    forall i | 0 <= i < |x.readSet|
      ensures StillThere(store, e.observed[i], ts) <==> Unchanged(store, x.readSet[i], ts)
    {}
  }

  lemma NoLocksLeft(owner: map<Key, Id>, t: Id, k: Key)
    requires k !in owner && forall j :: j in owner ==> owner[j] != t
    ensures Without(owner[k := t], t) == owner
  {}

  // ---- The manager's state is that of a run ----

  /** The locks of a transaction in the table are those of the keys it wrote, exactly. */
  lemma WritesAreLocked(m: Manager, t: Id, k: Key)
    requires m.Valid() && t in m.txns
    ensures Listed(m.locks.txnLocks, k, t) <==> LastWrite(m.txns[t].writes, k).Some?
  {
    S.AlwaysInv(m.run);
    assert I.LocksOk(m.state, t, k);
    assert Owned(m.state.owner, k, t) <==> Listed(m.locks.txnLocks, k, t);
    if k in m.state.owner { assert I.OwnerOk(m.state, k); }
  }

  /** So no two of them wrote the same key. */
  lemma WritesAreApart(m: Manager, t: Id, u: Id, k: Key)
    requires m.Valid() && t in m.txns && u in m.txns && t != u
    ensures LastWrite(m.txns[t].writes, k) == None || LastWrite(m.txns[u].writes, k) == None
  {
    WritesAreLocked(m, t, k);
    WritesAreLocked(m, u, k);
    assert Owned(m.state.owner, k, t) <==> Listed(m.locks.txnLocks, k, t);
    assert Owned(m.state.owner, k, u) <==> Listed(m.locks.txnLocks, k, u);
  }

  /** No lost update, for the transactions this manager has ever decided to commit. */
  lemma ManagerLosesNothing(m: Manager, x: Id, y: Id, k: Key, i: nat)
    requires m.Valid() && x in m.state.txns && y in m.state.txns
    requires Committing(m.state.txns[x]) && Committing(m.state.txns[y])
    requires I.Ts(m.state.txns[x]) < I.Ts(m.state.txns[y]) && Wrote(m.state.txns[x], k) && Wrote(m.state.txns[y], k)
    requires i < |m.state.txns[y].readSet| && m.state.txns[y].readSet[i].key == k
    ensures I.Ts(m.state.txns[x]) <= m.state.txns[y].readSet[i].version
  {
    S.NoLostUpdate(m.run, x, y, k, i);
  }
}
