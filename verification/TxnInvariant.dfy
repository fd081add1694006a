/** What every reachable state of the transaction machine satisfies, one transaction, key, pair or
    version at a time. */
module TxnInvariant {
  import opened ByteStrings
  import opened TxnModel

  function Ts(x: Txn): nat
    requires Committing(x)
  {
    x.phase.ts
  }

  function Puts(writes: seq<Write>): seq<Kind> {
    seq(|writes|, i requires 0 <= i < |writes| => Put(writes[i]))
  }

  predicate Ended(x: Txn) {
    x.phase.Logged? || x.phase.Committed? || x.phase.AbortLogged? || x.phase.Aborted?
  }

  function Ending(x: Txn): seq<Kind> {
    if x.phase.Logged? || x.phase.Committed? then [Commit(x.phase.ts)]
    else if x.phase.AbortLogged? || x.phase.Aborted? then [Abort]
    else []
  }

  /** The log records a transaction has behind it. */
  function Expected(x: Txn): seq<Kind> {
    [Begin(x.snapshot)] + Puts(x.writes) + (if x.prepared.Some? then [Prepare(x.prepared.value)] else []) + Ending(x)
  }

  ghost predicate PhaseOk(s: State, t: Id)
    requires t in s.txns
  {
    var x := s.txns[t];
    && 1 <= t < s.nextId
    && (x.pending.Some? ==> x.phase.Active? && x.drawn == None)
    && (x.drawn.Some? ==> x.drawn.value < s.clock)
    && (x.phase.Active? || x.phase.Validating? || x.phase.Lost? ==> x.prepared == None)
    && (x.phase.Prepared? || Committing(x) ==> x.prepared.Some?)
    && (x.prepared.Some? ==> x.drawn == x.prepared) && x.preparingAt <= s.now && x.committedAt <= s.now
    && x.loggedAt <= s.now
    && (x.phase.Validating? ==> x.drawn.Some? && x.phase.next <= |x.readSet|)
    && (Committing(x) ==> x.drawn.value <= Ts(x) < s.clock)
    && (x.phase.Applying? ==> x.phase.done <= |x.writes|)
  }

  ghost predicate Open(kinds: seq<Kind>) {
    forall i :: 0 <= i < |kinds| ==> kinds[i].Begin? || kinds[i].Put?
  }

  ghost predicate LogOk(s: State, t: Id)
    requires t in s.txns
  {
    if s.txns[t].phase.Lost? then Open(Proj(s.wal, t)) else Proj(s.wal, t) == Expected(s.txns[t])
  }

  ghost predicate LocksOk(s: State, t: Id, k: Key)
    requires t in s.txns
  {
    Live(s.txns[t]) && Takes(s.txns[t], k) ==> k in s.owner && s.owner[k] == t
  }

  ghost predicate OwnerOk(s: State, k: Key)
    requires k in s.owner
  {
    s.owner[k] in s.txns && Live(s.txns[s.owner[k]]) && Takes(s.txns[s.owner[k]], k)
  }

  /** It wrote the key, or is about to. */
  ghost predicate Takes(x: Txn, k: Key) { Wrote(x, k) || x.pending == Some(k) }

  /** c has written version (k, ts) to the store. */
  ghost predicate Writer(s: State, c: Id, k: Key, ts: nat) {
    && c in s.txns && Committing(s.txns[c]) && Ts(s.txns[c]) == ts
    && (s.txns[c].phase.Applying? ==> s.txns[c].phase.done <= |s.txns[c].writes|)
    && LastWrite(Applied(s.txns[c]), k).Some?
  }

  ghost predicate StoreOk(s: State, c: Id, k: Key, ts: nat) {
    Writer(s, c, k, ts) ==>
      (k, ts) in s.store && Some(s.store[(k, ts)]) == Kept(LastWrite(Applied(s.txns[c]), k))
  }

  /** How many of its reads a transaction has validated. */
  function Checked(x: Txn): nat {
    if x.phase.Validating? && x.phase.next <= |x.readSet| then x.phase.next
    else if x.prepared.Some? then |x.readSet|
    else 0
  }

  /** Whatever y read of k, once validated, is at least as new as x's version of it. */
  ghost predicate SawAll(x: Txn, y: Txn, k: Key)
    requires Committing(x)
  {
    forall i :: 0 <= i < Checked(y) && y.readSet[i].key == k ==> Ts(x) <= y.readSet[i].version
  }

  /** A committed transaction x against another writer y of the same key: y came after x, or x has the
      larger timestamp. */
  ghost predicate PairOk(s: State, x: Id, y: Id, k: Key)
    requires x in s.txns && y in s.txns
  {
    var a, b := s.txns[x], s.txns[y];
    x != y && a.phase.Committed? && Wrote(a, k) && Wrote(b, k) ==>
      && (Live(b) ==> (b.drawn.Some? ==> Ts(a) < b.drawn.value) && SawAll(a, b, k))
      && (b.phase.Committed? && Ts(a) < Ts(b) ==> SawAll(a, b, k))
  }

  /** Timestamps are never shared. */
  ghost predicate TsOk(s: State, x: Id, y: Id)
    requires x in s.txns && y in s.txns
  {
    var a, b := s.txns[x], s.txns[y];
    x != y ==>
      && (a.drawn.Some? ==> a.drawn != b.drawn && (Committing(b) ==> a.drawn.value != Ts(b)))
      && (Committing(a) ==> b.drawn != Some(Ts(a)) && (Committing(b) ==> Ts(a) != Ts(b)))
  }

  ghost predicate WalOk(s: State) {
    && s.synced <= |s.wal| && s.nextId >= 1
    && (forall i :: s.synced <= i < |s.wal| ==> s.wal[i].kind.Begin? || s.wal[i].kind.Put?)
    && (forall i :: 0 <= i < |s.wal| ==> s.wal[i].txn in s.txns)
    && (forall v :: v in s.store ==> s.store[v] != Some([0]))
    && (forall v: Version, b: Value {:trigger (v, b) in s.ever} :: (v, b) in s.ever ==> b != Some([0]))
    && (forall v :: v in s.cut ==> v.1 < s.clock)
  }

  // ---- Versions and the reads of them ----

  /** c has decided to commit a write of k at ts. */
  ghost predicate Source(s: State, c: Id, k: Key, ts: nat) {
    c in s.txns && Committing(s.txns[c]) && Ts(s.txns[c]) == ts && Wrote(s.txns[c], k)
  }

  /** c is such a source, or prepared with ts and may become one. */
  ghost predicate MaySource(s: State, c: Id, k: Key, ts: nat) {
    || Source(s, c, k, ts)
    || (c in s.txns && Live(s.txns[c]) && s.txns[c].prepared.Some? && s.txns[c].drawn == Some(ts)
        && Wrote(s.txns[c], k))
  }

  /** The timestamp was given out, and only a transaction that has prepared can still own it. */
  ghost predicate OldStamp(s: State, ts: nat) {
    ts < s.clock && forall u :: u in s.txns && s.txns[u].drawn == Some(ts) ==> s.txns[u].prepared.Some?
  }

  ghost predicate Explained(s: State, k: Key, ts: nat) {
    (k, ts) in s.cut || exists c :: Source(s, c, k, ts)
  }

  ghost predicate VersionOk(s: State, k: Key, ts: nat) {
    (k, ts) in s.store ==> OldStamp(s, ts) && Explained(s, k, ts)
  }

  ghost predicate CutOk(s: State, c: Id, k: Key, ts: nat) {
    Source(s, c, k, ts) ==> (k, ts) !in s.cut
  }

  /** c's last write of the key is the value r got. */
  ghost predicate Wins(s: State, c: Id, r: ReadEntry)
    requires c in s.txns
  {
    Kept(LastWrite(s.txns[c].writes, r.key)) == Some(Some(r.value))
  }

  /** The version read was somebody else's; "settled" says that its owner ends up with the value. */
  ghost predicate ReadOk(s: State, t: Id, i: nat)
    requires t in s.txns && i < |s.txns[t].readSet|
  {
    var x, r := s.txns[t], s.txns[t].readSet[i];
    && OldStamp(s, r.version) && Explained(s, r.key, r.version)
    && x.drawn != Some(r.version) && (Committing(x) ==> Ts(x) != r.version)
    && (forall c {:trigger MaySource(s, c, r.key, r.version)} ::
          MaySource(s, c, r.key, r.version) ==> (r.settled <==> Wins(s, c, r)))
  }

  /** A validated read saw the newest version that was there at that moment, below the timestamp drawn. */
  ghost predicate ValidOk(s: State, t: Id, i: nat)
    requires t in s.txns && i < |s.txns[t].readSet|
  {
    var x, r := s.txns[t], s.txns[t].readSet[i];
    i < Checked(x) && x.drawn.Some? ==>
      && r.version <= x.drawn.value && (r.key, r.version) in r.checked
      && (forall v {:trigger (r.key, v) in r.checked} :: (r.key, v) in r.checked && v <= x.drawn.value ==>
          v <= r.version)
      && (forall v :: v in r.checked ==> OldStamp(s, v.1))
  }

  /** Of two writers of a key, the one that came first was there already when a read was validated in
      the presence of the second one's version. */
  ghost predicate SeenOk(s: State, t: Id, i: nat, x: Id, y: Id)
    requires t in s.txns && i < |s.txns[t].readSet| && x in s.txns && y in s.txns
  {
    var r, a, b := s.txns[t].readSet[i], s.txns[x], s.txns[y];
    i < Checked(s.txns[t]) && x != y && a.phase.Committed? && Wrote(a, r.key) && Wrote(b, r.key) && Shown(r, a, b) ==>
      (r.key, Ts(a)) in r.checked
  }

  /** Its COMMIT record is in the log. */
  predicate Sealed(x: Txn) { x.phase.Logged? || x.phase.Committed? }

  /** What was logged as committed before t began to prepare was in the store when t validated its reads. */
  ghost predicate SealedOk(s: State, t: Id, i: nat, c: Id)
    requires t in s.txns && i < |s.txns[t].readSet| && c in s.txns
  {
    var x, r, b := s.txns[t], s.txns[t].readSet[i], s.txns[c];
    i < Checked(x) && Sealed(b) && b.loggedAt < x.preparingAt && Wrote(b, r.key) ==> (r.key, Ts(b)) in r.checked
  }

  ghost predicate Shown(r: ReadEntry, a: Txn, b: Txn)
    requires a.phase.Committed?
  {
    || (Live(b) && b.prepared.Some? && b.drawn.Some? && (r.key, b.drawn.value) in r.checked)
    || (Live(b) && Committing(b) && (r.key, Ts(b)) in r.checked)
    || (b.phase.Committed? && Ts(a) < Ts(b) && (r.key, Ts(b)) in r.checked)
  }

  ghost predicate Inv(s: State) {
    && WalOk(s)
    && (forall t {:trigger PhaseOk(s, t)} :: t in s.txns ==> PhaseOk(s, t))
    && (forall t {:trigger LogOk(s, t)} :: t in s.txns ==> LogOk(s, t))
    && (forall t, k {:trigger LocksOk(s, t, k)} :: t in s.txns ==> LocksOk(s, t, k))
    && (forall k {:trigger OwnerOk(s, k)} :: k in s.owner ==> OwnerOk(s, k))
    && (forall c, k, ts {:trigger StoreOk(s, c, k, ts)} :: StoreOk(s, c, k, ts))
    && (forall x, y, k {:trigger PairOk(s, x, y, k)} :: x in s.txns && y in s.txns ==> PairOk(s, x, y, k))
    && (forall x, y {:trigger TsOk(s, x, y)} :: x in s.txns && y in s.txns ==> TsOk(s, x, y))
    && (forall k, ts {:trigger VersionOk(s, k, ts)} :: VersionOk(s, k, ts))
    && (forall t, i {:trigger ReadOk(s, t, i)} :: t in s.txns && 0 <= i < |s.txns[t].readSet| ==> ReadOk(s, t, i))
    && (forall t, i {:trigger ValidOk(s, t, i)} :: t in s.txns && 0 <= i < |s.txns[t].readSet| ==> ValidOk(s, t, i))
    && (forall c, k, ts {:trigger CutOk(s, c, k, ts)} :: CutOk(s, c, k, ts))
    && (forall t, i, c {:trigger SealedOk(s, t, i, c)} ::
          t in s.txns && 0 <= i < |s.txns[t].readSet| && c in s.txns ==> SealedOk(s, t, i, c))
    && (forall t, i, x, y {:trigger SeenOk(s, t, i, x, y)} ::
          t in s.txns && 0 <= i < |s.txns[t].readSet| && x in s.txns && y in s.txns ==> SeenOk(s, t, i, x, y))
  }
}
