/** The exclusive key locks of one shard: re-entrant, handed over first come first served, with
    time-outs. Each function is one critical section of the lock manager. */
module LockTable {
  import opened ByteStrings

  type Txn = nat

  datatype Waiter = Waiter(txn: Txn, ticket: nat)
  datatype Lock = Lock(owner: Txn, holds: nat, queue: seq<Waiter>)

  /** `locks` and `held` are the manager's two tables. `waiting` holds the threads blocked in
      Acquire and `releasing` the keys a thread has taken out of `held` but not yet released.
      Tickets number the arrivals; `served` is, per key, one more than the last ticket that got the
      lock by a hand-over. */
  datatype Table = Table(
    locks: map<Key, Lock>, held: map<Txn, seq<Key>>,
    waiting: map<Txn, Key>, releasing: map<Txn, seq<Key>>,
    nextTicket: nat, served: map<Key, nat>)

  const EMPTY := Table(map[], map[], map[], map[], 0, map[])

  function Held(s: Table, t: Txn): seq<Key> {
    if t in s.held then s.held[t] else []
  }

  function Releasing(s: Table, t: Txn): seq<Key> {
    if t in s.releasing then s.releasing[t] else []
  }

  function Served(s: Table, k: Key): nat {
    if k in s.served then s.served[k] else 0
  }

  function Record(s: Table, t: Txn, k: Key): Table {
    s.(held := s.held[t := Held(s, t) + [k]])
  }

  /** Entering Acquire: take a free lock, re-enter an own one, or queue up. */
  function Enter(s: Table, t: Txn, k: Key): Table {
    if k !in s.locks then Record(s.(locks := s.locks[k := Lock(t, 1, [])]), t, k)
    else
      var e := s.locks[k];
      if e.owner == t then Record(s.(locks := s.locks[k := e.(holds := e.holds + 1)]), t, k)
      else s.(locks := s.locks[k := e.(queue := e.queue + [Waiter(t, s.nextTicket)])],
              nextTicket := s.nextTicket + 1, waiting := s.waiting[t := k])
  }

  /** A blocked thread finds that the lock was handed to it. */
  predicate HandedOver(s: Table, t: Txn) {
    t in s.waiting && s.waiting[t] in s.locks && s.locks[s.waiting[t]].owner == t && s.locks[s.waiting[t]].holds > 0
  }

  function PickUp(s: Table, t: Txn): Table {
    if HandedOver(s, t) then Record(s.(waiting := s.waiting - {t}), t, s.waiting[t]) else s
  }

  function Without(queue: seq<Waiter>, t: Txn): seq<Waiter> {
    if queue == [] then []
    else if queue[0].txn == t then queue[1..]
    else [queue[0]] + Without(queue[1..], t)
  }

  /** The deadline passed: take the lock if it was handed over meanwhile, else leave the queue. */
  function TimeOut(s: Table, t: Txn): Table {
    if t !in s.waiting then s
    else if HandedOver(s, t) then PickUp(s, t)
    else
      var k := s.waiting[t];
      if k !in s.locks then s.(waiting := s.waiting - {t})
      else s.(waiting := s.waiting - {t},
              locks := s.locks[k := s.locks[k].(queue := Without(s.locks[k].queue, t))])
  }

  /** Give back one hold on k; at the last one hand the lock to the first waiter or drop the entry. */
  function ReleaseOne(s: Table, k: Key): Table {
    if k !in s.locks || s.locks[k].holds == 0 then s
    else
      var e := s.locks[k];
      if e.holds > 1 then s.(locks := s.locks[k := e.(holds := e.holds - 1)])
      else if e.queue == [] then s.(locks := s.locks - {k})
      else s.(locks := s.locks[k := Lock(e.queue[0].txn, 1, e.queue[1..])],
              served := s.served[k := e.queue[0].ticket + 1])
  }

  function RemoveFirst(keys: seq<Key>, k: Key): seq<Key> {
    if keys == [] then []
    else if keys[0] == k then keys[1..]
    else [keys[0]] + RemoveFirst(keys[1..], k)
  }

  function Release(s: Table, t: Txn, k: Key): Table {
    if k !in s.locks || s.locks[k].owner != t || k !in Held(s, t) then s
    else
      var rest := RemoveFirst(Held(s, t), k);
      ReleaseOne(s.(held := if rest == [] then s.held - {t} else s.held[t := rest]), k)
  }

  /** ReleaseAll, first critical section: take the list of keys. */
  function TakeAll(s: Table, t: Txn): Table {
    if t !in s.held then s
    else s.(held := s.held - {t}, releasing := s.releasing[t := s.held[t]])
  }

  function TakeOne(s: Table, t: Txn): Table
    requires Releasing(s, t) != []
  {
    var rest := s.releasing[t][1..];
    s.(releasing := if rest == [] then s.releasing - {t} else s.releasing[t := rest])
  }

  /** One key of the second critical section. */
  function DropOne(s: Table, t: Txn): Table
    requires Releasing(s, t) != []
  {
    var k := s.releasing[t][0];
    if k !in s.locks || s.locks[k].owner != t then TakeOne(s, t) else ReleaseOne(TakeOne(s, t), k)
  }

  function DropAll(s: Table, t: Txn): Table
    decreases |Releasing(s, t)|
  {
    if Releasing(s, t) == [] then s else DropAll(DropOne(s, t), t)
  }

  // ---- What every reachable table satisfies ----

  function Count(keys: seq<Key>, k: Key): nat { multiset(keys)[k] }

  /** The holds the books know of: recorded, about to be released, or handed over and not yet
      picked up. */
  function Booked(s: Table, t: Txn, k: Key): nat {
    Count(Held(s, t), k) + Count(Releasing(s, t), k) + if t in s.waiting && s.waiting[t] == k then 1 else 0
  }

  /** The waiters of k: blocked on it, none twice, in arrival order, none overtaken. */
  ghost predicate QueueOk(queue: seq<Waiter>, owner: Txn, waiting: map<Txn, Key>, k: Key, low: nat, high: nat) {
    && (forall i :: 0 <= i < |queue| ==>
          queue[i].txn != owner && queue[i].txn in waiting && waiting[queue[i].txn] == k
              && low <= queue[i].ticket < high)
    && (forall i, j :: 0 <= i < j < |queue| ==> queue[i].txn != queue[j].txn && queue[i].ticket < queue[j].ticket)
  }

  ghost predicate LockOk(s: Table, k: Key)
    requires k in s.locks
  {
    var e := s.locks[k];
    && e.owner != 0 && e.holds >= 1 && e.holds == Booked(s, e.owner, k)
    && QueueOk(e.queue, e.owner, s.waiting, k, Served(s, k), s.nextTicket)
  }

  ghost predicate InQueue(queue: seq<Waiter>, t: Txn) {
    exists i :: 0 <= i < |queue| && queue[i].txn == t
  }

  ghost predicate TxnOk(s: Table, t: Txn) {
    && (forall k :: k in Held(s, t) || k in Releasing(s, t) ==> k in s.locks && s.locks[k].owner == t)
    && (t in s.waiting ==> var k := s.waiting[t];
          && t != 0 && Releasing(s, t) == [] && k in s.locks
          && (s.locks[k].owner == t || InQueue(s.locks[k].queue, t)))
  }

  ghost predicate Inv(s: Table) {
    && (forall k {:trigger LockOk(s, k)} :: k in s.locks ==> LockOk(s, k))
    && (forall t {:trigger TxnOk(s, t)} :: TxnOk(s, t))
    && (forall k {:trigger Served(s, k)} :: Served(s, k) <= s.nextTicket)
  }

  // ---- Every critical section keeps it ----

  /** A thread that may enter: a real transaction, not blocked and not in the middle of releasing. */
  predicate Idle(s: Table, t: Txn) {
    t != 0 && t !in s.waiting && Releasing(s, t) == []
  }

  ghost predicate SameBooks(s: Table, s': Table, u: Txn) {
    && Held(s', u) == Held(s, u) && Releasing(s', u) == Releasing(s, u)
    && (u in s'.waiting <==> u in s.waiting) && (u in s.waiting ==> s'.waiting[u] == s.waiting[u])
  }

  ghost predicate SameLock(s: Table, s': Table, j: Key) {
    && (j in s'.locks <==> j in s.locks) && (j in s.locks ==> s'.locks[j] == s.locks[j])
    && Served(s', j) == Served(s, j)
  }

  /** The step touches at most transaction t's books and lock k, and the others that hold k or
      wait for it keep what they have. */
  ghost predicate Local(s: Table, s': Table, t: Txn, k: Key) {
    && (forall j {:trigger SameLock(s, s', j)} :: j != k ==> SameLock(s, s', j))
    && (forall u {:trigger SameBooks(s, s', u)} :: u != t ==> SameBooks(s, s', u))
    && (forall j {:trigger Booked(s', t, j)} :: j != k ==> Booked(s', t, j) == Booked(s, t, j))
    && (t in s.waiting && s.waiting[t] != k ==> t in s'.waiting && s'.waiting[t] == s.waiting[t])
    && (k in s.locks && s.locks[k].owner != t ==> k in s'.locks && s'.locks[k].owner == s.locks[k].owner)
    && (forall u :: u != t && u in s.waiting && s.waiting[u] == k ==>
          k in s'.locks && (s'.locks[k].owner == u || InQueue(s'.locks[k].queue, u)))
    && s.nextTicket <= s'.nextTicket
  }

  lemma LocalStep(s: Table, s': Table, t: Txn, k: Key)
    requires Inv(s) && Local(s, s', t, k)
    requires k in s'.locks ==> LockOk(s', k)
    requires TxnOk(s', t) && Served(s', k) <= s'.nextTicket
    ensures Inv(s')
  {
    forall j | j in s'.locks ensures LockOk(s', j) {
      if j != k {
        assert SameLock(s, s', j);
        assert LockOk(s, j);
        OtherLock(s, s', t, k, j);
      }
    }
    forall u ensures TxnOk(s', u) {
      if u != t {
        assert TxnOk(s, u);
        OtherTxn(s, s', t, k, u);
      }
    }
    forall j ensures Served(s', j) <= s'.nextTicket {
      if j != k { assert SameLock(s, s', j); }
    }
  }

  lemma OtherLock(s: Table, s': Table, t: Txn, k: Key, j: Key)
    requires Local(s, s', t, k) && j != k && j in s.locks && SameLock(s, s', j) && LockOk(s, j)
    ensures LockOk(s', j)
  {
    var e := s.locks[j];
    if e.owner == t { assert Booked(s', t, j) == Booked(s, t, j); } else { assert SameBooks(s, s', e.owner); }
    forall i | 0 <= i < |e.queue| ensures e.queue[i].txn in s'.waiting && s'.waiting[e.queue[i].txn] == j {
      if e.queue[i].txn != t { assert SameBooks(s, s', e.queue[i].txn); }
    }
  }

  lemma OtherTxn(s: Table, s': Table, t: Txn, k: Key, u: Txn)
    requires Local(s, s', t, k) && u != t && TxnOk(s, u)
    ensures TxnOk(s', u)
  {
    assert SameBooks(s, s', u);
    forall j | j in Held(s', u) || j in Releasing(s', u) ensures j in s'.locks && s'.locks[j].owner == u {
      if j != k { assert SameLock(s, s', j); }
    }
    if u in s.waiting && s.waiting[u] != k { assert SameLock(s, s', s.waiting[u]); }
  }

  lemma CountAppend(keys: seq<Key>, k: Key, j: Key)
    ensures Count(keys + [k], j) == Count(keys, j) + if j == k then 1 else 0
  {}

  lemma QueueAppend(q: seq<Waiter>, owner: Txn, waiting: map<Txn, Key>, k: Key, low: nat, high: nat, t: Txn)
    requires QueueOk(q, owner, waiting, k, low, high) && t != owner && t !in waiting && low <= high
    ensures QueueOk(q + [Waiter(t, high)], owner, waiting[t := k], k, low, high + 1)
    ensures InQueue(q + [Waiter(t, high)], t) && forall u :: InQueue(q, u) ==> InQueue(q + [Waiter(t, high)], u)
  {
    var q' := q + [Waiter(t, high)];
    assert q'[|q|] == Waiter(t, high);
    forall u | InQueue(q, u) ensures InQueue(q', u) {
      var i :| 0 <= i < |q| && q[i].txn == u;
      assert q'[i].txn == u;
    }
  }

  /** Those waiting for k are in its queue, unless it was handed to them. */
  lemma WaitersOf(s: Table, k: Key)
    requires Inv(s)
    ensures forall u {:trigger u in s.waiting} :: u in s.waiting && s.waiting[u] == k ==>
              k in s.locks && (s.locks[k].owner == u || InQueue(s.locks[k].queue, u))
  {
    forall u | u in s.waiting && s.waiting[u] == k
      ensures k in s.locks && (s.locks[k].owner == u || InQueue(s.locks[k].queue, u))
    {
      assert TxnOk(s, u);
    }
  }

  /** One more hold of k by t on the books. */
  lemma RecordLocal(s: Table, s': Table, t: Txn, k: Key, e: Lock)
    requires Inv(s) && (t in s.waiting ==> s.waiting[t] == k)
    requires s' == Record(s.(locks := s.locks[k := e], waiting := s.waiting - {t}), t, k)
    requires k in s.locks ==> s.locks[k].owner == t && e.queue == s.locks[k].queue
    requires k !in s.locks ==> e.queue == []
    requires e.owner == t != 0 && e.holds == Booked(s, t, k) + if t in s.waiting then 0 else 1
    requires Releasing(s, t) == []
    ensures Inv(s')
  {
    assert TxnOk(s, t);
    WaitersOf(s, k);
    RecordBooks(s, s', t, k, e);
    assert Served(s', k) == Served(s, k);
    if k in s.locks { assert LockOk(s, k); }
    LocalStep(s, s', t, k);
  }

  lemma RecordBooks(s: Table, s': Table, t: Txn, k: Key, e: Lock)
    requires t in s.waiting ==> s.waiting[t] == k
    requires s' == Record(s.(locks := s.locks[k := e], waiting := s.waiting - {t}), t, k)
    ensures Booked(s', t, k) == Booked(s, t, k) + if t in s.waiting then 0 else 1
    ensures forall j {:trigger Booked(s', t, j)} :: j != k ==> Booked(s', t, j) == Booked(s, t, j)
  {
    forall j { CountAppend(Held(s, t), k, j); }
  }

  lemma EnterKeepsInv(s: Table, t: Txn, k: Key)
    requires Inv(s) && Idle(s, t)
    ensures Inv(Enter(s, t, k))
  {
    assert TxnOk(s, t);
    assert s.waiting - {t} == s.waiting;
    if k !in s.locks {
      RecordLocal(s, Enter(s, t, k), t, k, Lock(t, 1, []));
    } else {
      var e := s.locks[k];
      assert LockOk(s, k);
      if e.owner == t { RecordLocal(s, Enter(s, t, k), t, k, e.(holds := e.holds + 1)); }
      else { QueueUpKeepsInv(s, t, k); }
    }
  }

  lemma QueueUpKeepsInv(s: Table, t: Txn, k: Key)
    requires Inv(s) && Idle(s, t) && k in s.locks && s.locks[k].owner != t
    ensures Inv(Enter(s, t, k))
  {
    var s' := Enter(s, t, k);
    assert TxnOk(s, t) && LockOk(s, k);
    WaitersOf(s, k);
    QueueAppend(s.locks[k].queue, s.locks[k].owner, s.waiting, k, Served(s, k), s.nextTicket, t);
    LocalStep(s, s', t, k);
  }

  lemma PickUpKeepsInv(s: Table, t: Txn)
    requires Inv(s)
    ensures Inv(PickUp(s, t))
  {
    if HandedOver(s, t) {
      var k := s.waiting[t];
      assert TxnOk(s, t) && LockOk(s, k);
      assert s.locks[k := s.locks[k]] == s.locks;
      RecordLocal(s, PickUp(s, t), t, k, s.locks[k]);
    }
  }

  lemma QueueTail(q: seq<Waiter>, owner: Txn, waiting: map<Txn, Key>, k: Key, low: nat, high: nat)
    requires QueueOk(q, owner, waiting, k, low, high) && q != []
    ensures QueueOk(q[1..], q[0].txn, waiting, k, q[0].ticket + 1, high)
    ensures forall u :: InQueue(q, u) && u != q[0].txn ==> InQueue(q[1..], u)
  {
    forall u | InQueue(q, u) && u != q[0].txn ensures InQueue(q[1..], u) {
      var i :| 0 <= i < |q| && q[i].txn == u;
      assert q[1..][i - 1].txn == u;
    }
  }

  /** The books of t without one of its holds on k. */
  ghost predicate OneLess(s: Table, s1: Table, t: Txn, k: Key) {
    && s1.locks == s.locks && s1.waiting == s.waiting && s1.nextTicket == s.nextTicket && s1.served == s.served
    && (forall u {:trigger SameBooks(s, s1, u)} :: u != t ==> SameBooks(s, s1, u))
    && (forall j {:trigger Booked(s1, t, j)} :: Booked(s1, t, j) == Booked(s, t, j) - if j == k then 1 else 0)
    && (forall j :: j in Held(s1, t) || j in Releasing(s1, t) ==> j in Held(s, t) || j in Releasing(s, t))
  }

  /** Giving back a hold keeps the table in order; the last one frees the lock or hands it to the
      waiter that has waited longest. */
  lemma GiveBack(s: Table, s1: Table, t: Txn, k: Key)
    requires Inv(s) && OneLess(s, s1, t, k) && t !in s.waiting
    requires k in s.locks && s.locks[k].owner == t
    ensures Inv(ReleaseOne(s1, k))
  {
    assert LockOk(s, k);
    if s.locks[k].holds > 1 {
      StillHeld(s, s1, t, k);
    } else {
      LastHoldGone(s, s1, t, k);
      if s.locks[k].queue == [] { Freed(s, s1, t, k); } else { HandOver(s, s1, t, k); }
    }
  }

  lemma StillHeld(s: Table, s1: Table, t: Txn, k: Key)
    requires Inv(s) && OneLess(s, s1, t, k) && t !in s.waiting
    requires k in s.locks && s.locks[k].owner == t && s.locks[k].holds > 1
    ensures Inv(ReleaseOne(s1, k))
  {
    var s' := ReleaseOne(s1, k);
    assert LockOk(s, k) && TxnOk(s, t);
    WaitersOf(s, k);
    BookedSame(s, s1, s', t, k);
    assert Served(s', k) == Served(s, k);
    assert Booked(s', t, k) == Booked(s, t, k) - 1;
    LocalStep(s, s', t, k);
  }

  lemma Freed(s: Table, s1: Table, t: Txn, k: Key)
    requires Inv(s) && OneLess(s, s1, t, k) && t !in s.waiting
    requires k in s.locks && s.locks[k].owner == t && s.locks[k].holds == 1 && s.locks[k].queue == []
    requires k !in Held(s1, t) && k !in Releasing(s1, t)
    ensures Inv(ReleaseOne(s1, k))
  {
    var s' := ReleaseOne(s1, k);
    assert TxnOk(s, t);
    WaitersOf(s, k);
    BookedSame(s, s1, s', t, k);
    assert Served(s', k) == Served(s, k);
    LocalStep(s, s', t, k);
  }

  lemma BookedSame(s: Table, s1: Table, s': Table, t: Txn, k: Key)
    requires OneLess(s, s1, t, k) && s'.held == s1.held && s'.releasing == s1.releasing && s'.waiting == s1.waiting
    ensures forall j {:trigger Booked(s', t, j)} :: Booked(s', t, j) == Booked(s, t, j) - if j == k then 1 else 0
    ensures forall u {:trigger SameBooks(s, s', u)} :: u != t ==> SameBooks(s, s', u)
  {
    forall j
      ensures Booked(s', t, j) == Booked(s, t, j) - if j == k then 1 else 0
    { assert Booked(s', t, j) == Booked(s1, t, j); }
    forall u | u != t ensures SameBooks(s, s', u) { assert SameBooks(s, s1, u); }
  }

  lemma LastHoldGone(s: Table, s1: Table, t: Txn, k: Key)
    requires OneLess(s, s1, t, k) && Booked(s, t, k) == 1
    ensures k !in Held(s1, t) && k !in Releasing(s1, t)
  {
    assert Booked(s1, t, k) == 0;
    assert k !in multiset(Held(s1, t)) && k !in multiset(Releasing(s1, t));
  }

  lemma HandOver(s: Table, s1: Table, t: Txn, k: Key)
    requires Inv(s) && OneLess(s, s1, t, k) && t !in s.waiting
    requires k in s.locks && s.locks[k].owner == t && s.locks[k].holds == 1 && s.locks[k].queue != []
    requires k !in Held(s1, t) && k !in Releasing(s1, t)
    ensures Inv(ReleaseOne(s1, k))
  {
    var s', e := ReleaseOne(s1, k), s.locks[k];
    var w := e.queue[0].txn;
    assert LockOk(s, k) && TxnOk(s, t) && TxnOk(s, w);
    WaitersOf(s, k);
    QueueTail(e.queue, t, s.waiting, k, Served(s, k), s.nextTicket);
    BookedSame(s, s1, s', t, k);
    assert SameBooks(s, s', w);
    assert Booked(s', w, k) == 1 by {
      assert k !in Held(s, w) && k !in Releasing(s, w);
      assert k !in multiset(Held(s', w)) && k !in multiset(Releasing(s', w));
    }
    assert Served(s', k) == e.queue[0].ticket + 1;
    LocalStep(s, s', t, k);
  }

  lemma {:induction false} RemoveFirstCount(keys: seq<Key>, k: Key)
    requires k in keys
    ensures forall j {:trigger Count(RemoveFirst(keys, k), j)} ::
            Count(RemoveFirst(keys, k), j) == Count(keys, j) - if j == k then 1 else 0
    ensures forall j :: j in RemoveFirst(keys, k) ==> j in keys
  {
    assert keys == [keys[0]] + keys[1..];
    if keys[0] != k {
      RemoveFirstCount(keys[1..], k);
      forall j ensures Count(RemoveFirst(keys, k), j) == Count(keys, j) - if j == k then 1 else 0 {
        assert Count(RemoveFirst(keys[1..], k), j) == Count(keys[1..], j) - if j == k then 1 else 0;
      }
    }
  }

  lemma ReleaseKeepsInv(s: Table, t: Txn, k: Key)
    requires Inv(s) && Idle(s, t)
    ensures Inv(Release(s, t, k))
  {
    if k in s.locks && s.locks[k].owner == t && k in Held(s, t) {
      var rest := RemoveFirst(Held(s, t), k);
      var s1 := s.(held := if rest == [] then s.held - {t} else s.held[t := rest]);
      RemoveFirstCount(Held(s, t), k);
      assert Held(s1, t) == rest;
      forall j ensures Booked(s1, t, j) == Booked(s, t, j) - if j == k then 1 else 0 {
        assert Count(rest, j) == Count(Held(s, t), j) - if j == k then 1 else 0;
      }
      GiveBack(s, s1, t, k);
    }
  }

  lemma TakeAllKeepsInv(s: Table, t: Txn)
    requires Inv(s) && Idle(s, t)
    ensures Inv(TakeAll(s, t))
  {
    var s' := TakeAll(s, t);
    forall u ensures TxnOk(s', u) { assert TxnOk(s, u); }
    forall u, j ensures Booked(s', u, j) == Booked(s, u, j) { MovedBooks(s, t, u, j); }
    forall j | j in s'.locks ensures LockOk(s', j) { assert LockOk(s, j); }
    forall j ensures Served(s', j) <= s'.nextTicket { assert Served(s', j) == Served(s, j); }
  }

  lemma MovedBooks(s: Table, t: Txn, u: Txn, j: Key)
    requires Releasing(s, t) == []
    ensures Booked(TakeAll(s, t), u, j) == Booked(s, u, j)
  {}

  lemma DropOneKeepsInv(s: Table, t: Txn)
    requires Inv(s) && Releasing(s, t) != []
    ensures Inv(DropOne(s, t)) && s.releasing[t][0] in s.locks && s.locks[s.releasing[t][0]].owner == t
  {
    assert TxnOk(s, t);
    var k := s.releasing[t][0];
    assert k in Releasing(s, t);
    TakeOneLess(s, t);
    GiveBack(s, TakeOne(s, t), t, k);
  }

  lemma TakeOneLess(s: Table, t: Txn)
    requires Releasing(s, t) != []
    ensures OneLess(s, TakeOne(s, t), t, s.releasing[t][0])
  {
    var k, s1 := s.releasing[t][0], TakeOne(s, t);
    assert Releasing(s1, t) == s.releasing[t][1..];
    forall j ensures Booked(s1, t, j) == Booked(s, t, j) - if j == k then 1 else 0 { CountTail(s.releasing[t], j); }
  }

  lemma CountTail(keys: seq<Key>, j: Key)
    requires keys != []
    ensures Count(keys, j) == Count(keys[1..], j) + if keys[0] == j then 1 else 0
  {
    assert keys == [keys[0]] + keys[1..];
  }

  lemma {:induction false} WithoutAt(q: seq<Waiter>, t: Txn) returns (i: nat)
    requires InQueue(q, t)
    ensures i < |q| && q[i].txn == t && Without(q, t) == q[..i] + q[i + 1..]
  {
    if q[0].txn == t {
      i := 0;
    } else {
      var j :| 0 <= j < |q| && q[j].txn == t;
      assert q[1..][j - 1].txn == t;
      var i' := WithoutAt(q[1..], t);
      i := i' + 1;
    }
  }

  lemma QueueWithout(q: seq<Waiter>, owner: Txn, waiting: map<Txn, Key>, k: Key, low: nat, high: nat, t: Txn)
    requires QueueOk(q, owner, waiting, k, low, high) && InQueue(q, t)
    ensures QueueOk(Without(q, t), owner, waiting - {t}, k, low, high)
    ensures forall u :: u != t && InQueue(q, u) ==> InQueue(Without(q, t), u)
  {
    var i := WithoutAt(q, t);
    StillQueued(q, Without(q, t), i);
    QueueCut(q, Without(q, t), i, owner, waiting, k, low, high, t);
  }

  lemma QueueCut(q: seq<Waiter>, q': seq<Waiter>, i: nat, owner: Txn, waiting: map<Txn, Key>, k: Key, low: nat,
      high: nat, t: Txn)
    requires QueueOk(q, owner, waiting, k, low, high) && i < |q| && q[i].txn == t && q' == q[..i] + q[i + 1..]
    ensures QueueOk(q', owner, waiting - {t}, k, low, high)
  {
    CutOut(q, q', i);
  }

  lemma CutOut(q: seq<Waiter>, q': seq<Waiter>, i: nat)
    requires i < |q| && q' == q[..i] + q[i + 1..]
    ensures |q'| == |q| - 1 && forall m :: 0 <= m < |q'| ==> q'[m] == q[if m < i then m else m + 1]
  {}

  lemma StillQueued(q: seq<Waiter>, q': seq<Waiter>, i: nat)
    requires i < |q| && q' == q[..i] + q[i + 1..]
    ensures forall u :: u != q[i].txn && InQueue(q, u) ==> InQueue(q', u)
  {
    forall u | u != q[i].txn && InQueue(q, u) ensures InQueue(q', u) {
      var j :| 0 <= j < |q| && q[j].txn == u;
      assert q'[if j < i then j else j - 1] == q[j];
    }
  }

  lemma TimeOutKeepsInv(s: Table, t: Txn)
    requires Inv(s)
    ensures Inv(TimeOut(s, t))
  {
    if HandedOver(s, t) {
      PickUpKeepsInv(s, t);
    } else if t in s.waiting {
      var s', k := TimeOut(s, t), s.waiting[t];
      assert TxnOk(s, t) && LockOk(s, k);
      WaitersOf(s, k);
      QueueWithout(s.locks[k].queue, s.locks[k].owner, s.waiting, k, Served(s, k), s.nextTicket, t);
      assert Served(s', k) == Served(s, k);
      LocalStep(s, s', t, k);
    }
  }

  /** What the second half of ReleaseAll does to lock k when all of t's holds are being released. */
  ghost predicate Dropped(s: Table, s': Table, t: Txn, k: Key) {
    if k !in s.locks then k !in s'.locks
    else if s.locks[k].owner != t then k in s'.locks && s'.locks[k] == s.locks[k]
    else if s.locks[k].queue == [] then k !in s'.locks
    else k in s'.locks && s'.locks[k] == Lock(s.locks[k].queue[0].txn, 1, s.locks[k].queue[1..])
  }

  /** ReleaseAll frees every lock the transaction held or hands it to its longest waiter, and
      touches no other lock. */
  lemma {:induction false} DropAllReleases(s: Table, t: Txn)
    requires Inv(s) && t !in s.waiting && Held(s, t) == []
    ensures Inv(DropAll(s, t)) && Held(DropAll(s, t), t) == [] && Releasing(DropAll(s, t), t) == []
    ensures forall k {:trigger Dropped(s, DropAll(s, t), t, k)} :: Dropped(s, DropAll(s, t), t, k)
    decreases |Releasing(s, t)|
  {
    if Releasing(s, t) == [] {
      forall k ensures Dropped(s, s, t, k) {
        if k in s.locks { assert LockOk(s, k); }
      }
    } else {
      var k0, s1 := s.releasing[t][0], DropOne(s, t);
      DropOneKeepsInv(s, t);
      DropAllReleases(s1, t);
      forall k ensures Dropped(s, DropAll(s, t), t, k) {
        assert Dropped(s1, DropAll(s1, t), t, k);
        assert LockOk(s, k0);
      }
    }
  }

  lemma ReleaseAllReleases(s: Table, t: Txn)
    requires Inv(s) && Idle(s, t)
    ensures var s' := DropAll(TakeAll(s, t), t);
            && Inv(s') && Held(s', t) == [] && Releasing(s', t) == []
            && (forall k {:trigger Dropped(s, s', t, k)} :: Dropped(s, s', t, k))
            && (forall k :: k in s'.locks ==> s'.locks[k].owner != t)
  {
    var s1, s' := TakeAll(s, t), DropAll(TakeAll(s, t), t);
    TakeAllKeepsInv(s, t);
    DropAllReleases(s1, t);
    forall k ensures Dropped(s, s', t, k) { assert Dropped(s1, s', t, k); }
    forall k | k in s'.locks ensures s'.locks[k].owner != t {
      assert Dropped(s, s', t, k);
      assert LockOk(s, k);
    }
  }

  // ---- Runs ----

  datatype Step =
    | EnterAcquire(t: Txn, k: Key) | Wake(t: Txn) | Deadline(t: Txn)
    | ReleaseKey(t: Txn, k: Key) | ReleaseAllTake(t: Txn) | ReleaseAllDrop(t: Txn)

  function Do(s: Table, step: Step): Table {
    match step
    case EnterAcquire(t, k) => if Idle(s, t) then Enter(s, t, k) else s
    case Wake(t) => PickUp(s, t)
    case Deadline(t) => TimeOut(s, t)
    case ReleaseKey(t, k) => if Idle(s, t) then Release(s, t, k) else s
    case ReleaseAllTake(t) => if Idle(s, t) then TakeAll(s, t) else s
    case ReleaseAllDrop(t) => DropAll(s, t)
  }

  function After(run: seq<Step>): Table {
    if run == [] then EMPTY else Do(After(run[..|run| - 1]), run[|run| - 1])
  }

  lemma {:induction false} DropAllKeepsInv(s: Table, t: Txn)
    requires Inv(s)
    ensures Inv(DropAll(s, t))
    decreases |Releasing(s, t)|
  {
    if Releasing(s, t) != [] {
      DropOneKeepsInv(s, t);
      DropAllKeepsInv(DropOne(s, t), t);
    }
  }

  /** The lock table invariant holds after every run. */
  lemma {:induction false} AlwaysInv(run: seq<Step>)
    ensures Inv(After(run))
  {
    if run != [] {
      var s, step := After(run[..|run| - 1]), run[|run| - 1];
      AlwaysInv(run[..|run| - 1]);
      match step
      case EnterAcquire(t, k) => if Idle(s, t) { EnterKeepsInv(s, t, k); }
      case Wake(t) => PickUpKeepsInv(s, t);
      case Deadline(t) => TimeOutKeepsInv(s, t);
      case ReleaseKey(t, k) => if Idle(s, t) { ReleaseKeepsInv(s, t, k); }
      case ReleaseAllTake(t) => if Idle(s, t) { TakeAllKeepsInv(s, t); }
      case ReleaseAllDrop(t) => DropAllKeepsInv(s, t);
    }
  }

  /** Mutual exclusion: two transactions never both have a key on their books. */
  lemma MutualExclusion(run: seq<Step>, t: Txn, u: Txn, k: Key)
    requires k in Held(After(run), t) && k in Held(After(run), u)
    ensures t == u
  {
    AlwaysInv(run);
    assert TxnOk(After(run), t) && TxnOk(After(run), u);
  }

  /** First come, first served: the waiter that is handed the lock arrived before every waiter
      still queued and after everyone the lock was handed to before. */
  lemma HandOverIsFifo(run: seq<Step>, k: Key)
    requires k in After(run).locks && After(run).locks[k].holds == 1 && After(run).locks[k].queue != []
    ensures var s, s' := After(run), ReleaseOne(After(run), k);
            && k in s'.locks && s'.locks[k].owner == s.locks[k].queue[0].txn
            && Served(s, k) <= s.locks[k].queue[0].ticket < Served(s', k)
            && (forall i :: 0 <= i < |s'.locks[k].queue| ==> s'.locks[k].queue[i].ticket > s.locks[k].queue[0].ticket)
  {
    AlwaysInv(run);
    assert LockOk(After(run), k);
  }

  /** No one is ever served out of turn later: over the rest of a run the mark of the last ticket served
      only rises. */
  lemma {:induction false} ServedRises(run: seq<Step>, more: seq<Step>, k: Key)
    ensures Served(After(run), k) <= Served(After(run + more), k)
    decreases |more|
  {
    if more == [] {
      assert run + more == run;
    } else {
      var n := |more| - 1;
      ServedRises(run, more[..n], k);
      ServedOne(run + more[..n], more[n], k);
      assert run + more[..n] + [more[n]] == run + more;
    }
  }

  lemma ServedOne(run: seq<Step>, step: Step, k: Key)
    ensures Served(After(run), k) <= Served(After(run + [step]), k)
  {
    var s := After(run);
    AlwaysInv(run);
    assert (run + [step])[..|run|] == run;
    match step
    case EnterAcquire(t, j) =>
    case Wake(t) =>
    case Deadline(t) =>
    case ReleaseKey(t, j) => if j in s.locks { assert LockOk(s, j); }
    case ReleaseAllTake(t) =>
    case ReleaseAllDrop(t) => DropRaises(s, t, k);
  }

  lemma {:induction false} DropRaises(s: Table, t: Txn, k: Key)
    requires Inv(s)
    ensures Served(s, k) <= Served(DropAll(s, t), k)
    decreases |Releasing(s, t)|
  {
    if Releasing(s, t) != [] {
      DropOneKeepsInv(s, t);
      assert LockOk(s, s.releasing[t][0]);
      DropRaises(DropOne(s, t), t, k);
    }
  }

  ghost predicate Queued(s: Table, k: Key, w: Waiter) {
    k in s.locks && w in s.locks[k].queue
  }

  /** As long as w waits, u does not have the lock and can only be queued behind it. */
  ghost predicate Behind(s: Table, k: Key, w: Waiter, u: Txn) {
    Queued(s, k, w) ==>
      s.locks[k].owner != u && forall v :: v in s.locks[k].queue && v.txn == u ==> v.ticket > w.ticket
  }

  /** A step: nobody gets an old ticket, and u stays behind. */
  ghost predicate KeepsOrder(s: Table, s': Table, k: Key, w: Waiter, u: Txn) {
    && s.nextTicket <= s'.nextTicket
    && (w.ticket < s.nextTicket && Queued(s', k, w) ==> Queued(s, k, w))
    && (w.ticket < s.nextTicket && w.txn != u && Behind(s, k, w, u) ==> Behind(s', k, w, u))
  }

  lemma ReleaseKeepsOrder(s: Table, j: Key, k: Key, w: Waiter, u: Txn)
    requires j in s.locks && QueueOk(s.locks[j].queue, s.locks[j].owner, s.waiting, j, Served(s, j), s.nextTicket)
    ensures KeepsOrder(s, ReleaseOne(s, j), k, w, u)
  {
    var q := s.locks[j].queue;
    if j == k && q != [] && Queued(s, k, w) && Queued(ReleaseOne(s, j), k, w) && s.locks[j].holds == 1 {
      assert q == [q[0]] + q[1..];
      assert q[0] in q;
      var i :| 0 <= i < |q[1..]| && q[1..][i] == w;
      assert q[i + 1] == w;
    }
  }

  lemma {:induction false} WithoutHas(q: seq<Waiter>, t: Txn, w: Waiter)
    ensures w in Without(q, t) ==> w in q
  {
    if q != [] && q[0].txn != t { WithoutHas(q[1..], t, w); }
  }

  lemma TimeOutKeepsOrder(s: Table, t: Txn, k: Key, w: Waiter, u: Txn)
    ensures KeepsOrder(s, TimeOut(s, t), k, w, u)
  {
    if k in s.locks {
      forall v
        ensures v in Without(s.locks[k].queue, t) ==> v in s.locks[k].queue
      { WithoutHas(s.locks[k].queue, t, v); }
    }
  }

  lemma DropOneKeepsOrder(s: Table, t: Txn, k: Key, w: Waiter, u: Txn)
    requires Inv(s) && Releasing(s, t) != []
    ensures KeepsOrder(s, DropOne(s, t), k, w, u)
  {
    var j, s1 := s.releasing[t][0], TakeOne(s, t);
    if j in s.locks && s.locks[j].owner == t {
      assert LockOk(s, j);
      assert Served(s1, j) == Served(s, j);
      ReleaseKeepsOrder(s1, j, k, w, u);
    }
  }

  lemma {:induction false} DropAllKeepsOrder(s: Table, t: Txn, k: Key, w: Waiter, u: Txn)
    requires Inv(s)
    ensures KeepsOrder(s, DropAll(s, t), k, w, u)
    decreases |Releasing(s, t)|
  {
    if Releasing(s, t) != [] {
      DropOneKeepsInv(s, t);
      DropOneKeepsOrder(s, t, k, w, u);
      DropAllKeepsOrder(DropOne(s, t), t, k, w, u);
    }
  }

  lemma ReleaseKeyKeepsOrder(s: Table, t: Txn, j: Key, k: Key, w: Waiter, u: Txn)
    requires Inv(s)
    ensures KeepsOrder(s, Release(s, t, j), k, w, u)
  {
    if j in s.locks && s.locks[j].owner == t && j in Held(s, t) {
      var rest := RemoveFirst(Held(s, t), j);
      var s1 := s.(held := if rest == [] then s.held - {t} else s.held[t := rest]);
      assert LockOk(s, j);
      assert Served(s1, j) == Served(s, j);
      ReleaseKeepsOrder(s1, j, k, w, u);
    }
  }

  lemma StepKeepsOrder(s: Table, step: Step, k: Key, w: Waiter, u: Txn)
    requires Inv(s)
    ensures KeepsOrder(s, Do(s, step), k, w, u)
  {
    match step
    case EnterAcquire(t, j) =>
    case Wake(t) =>
    case Deadline(t) => TimeOutKeepsOrder(s, t, k, w, u);
    case ReleaseKey(t, j) => ReleaseKeyKeepsOrder(s, t, j, k, w, u);
    case ReleaseAllTake(t) =>
    case ReleaseAllDrop(t) => DropAllKeepsOrder(s, t, k, w, u);
  }

  lemma {:induction false} RunKeepsOrder(run: seq<Step>, more: seq<Step>, k: Key, w: Waiter, u: Txn)
    ensures KeepsOrder(After(run), After(run + more), k, w, u)
    decreases |more|
  {
    if more == [] {
      assert run + more == run;
    } else {
      var n := |more| - 1;
      RunKeepsOrder(run, more[..n], k, w, u);
      LastKeepsOrder(run + more[..n], more[n], k, w, u);
      assert run + more[..n] + [more[n]] == run + more;
      OrderCarries(After(run), After(run + more[..n]), After(run + more), k, w, u);
    }
  }

  lemma LastKeepsOrder(run: seq<Step>, step: Step, k: Key, w: Waiter, u: Txn)
    ensures KeepsOrder(After(run), After(run + [step]), k, w, u)
  {
    AlwaysInv(run);
    StepKeepsOrder(After(run), step, k, w, u);
    assert (run + [step])[..|run|] == run;
  }

  lemma OrderCarries(a: Table, b: Table, c: Table, k: Key, w: Waiter, u: Txn)
    requires KeepsOrder(a, b, k, w, u) && KeepsOrder(b, c, k, w, u)
    ensures KeepsOrder(a, c, k, w, u)
  {}

  /** In the queue of k, w is ahead of u. */
  ghost predicate AheadOf(s: Table, k: Key, w: Waiter, u: Txn) {
    && k in s.locks
    && exists i, j :: 0 <= i < j < |s.locks[k].queue| && s.locks[k].queue[i] == w && s.locks[k].queue[j].txn == u
  }

  /** Grants follow the order of arrival: as long as a waiter is still queued at the end of a run, nobody
      who was queued behind it has had the lock at any moment in between. */
  lemma ArrivalOrder(run: seq<Step>, more: seq<Step>, rest: seq<Step>, k: Key, w: Waiter, u: Txn)
    requires AheadOf(After(run), k, w, u) && Queued(After(run + more + rest), k, w)
    ensures Queued(After(run + more), k, w) && After(run + more).locks[k].owner != u
  {
    Ordered(run, k, w, u);
    RunKeepsOrder(run, more, k, w, u);
    RunKeepsOrder(run + more, rest, k, w, u);
    Between(After(run), After(run + more), After(run + more + rest), k, w, u);
  }

  lemma Ordered(run: seq<Step>, k: Key, w: Waiter, u: Txn)
    requires AheadOf(After(run), k, w, u)
    ensures Behind(After(run), k, w, u) && w.txn != u && w.ticket < After(run).nextTicket
  {
    AlwaysInv(run);
    AheadIsOrdered(After(run), k, w, u);
  }

  lemma AheadIsOrdered(s: Table, k: Key, w: Waiter, u: Txn)
    requires Inv(s) && AheadOf(s, k, w, u)
    ensures Behind(s, k, w, u) && w.txn != u && w.ticket < s.nextTicket
  {
    assert LockOk(s, k);
  }

  lemma Between(s: Table, mid: Table, end: Table, k: Key, w: Waiter, u: Txn)
    requires KeepsOrder(s, mid, k, w, u) && KeepsOrder(mid, end, k, w, u) && Behind(s, k, w, u)
    requires w.txn != u && w.ticket < s.nextTicket && Queued(end, k, w)
    ensures Queued(mid, k, w) && mid.locks[k].owner != u
  {}

  // ---- The table seen as a plain map from keys to owners ----

  function Owner(s: Table, k: Key): Txn {
    if k in s.locks then s.locks[k].owner else 0
  }

  lemma {:induction false} DropOwner(s: Table, t: Txn, k: Key)
    requires Inv(s) && Owner(s, k) != t
    ensures Owner(DropAll(s, t), k) == Owner(s, k)
    decreases |Releasing(s, t)|
  {
    if Releasing(s, t) != [] {
      DropOneKeepsInv(s, t);
      DropOwner(DropOne(s, t), t, k);
    }
  }

  ghost predicate OwnerMoved(s: Table, s': Table, step: Step, k: Key) {
    || Owner(s', k) == Owner(s, k)
    || (step == EnterAcquire(step.t, k) && Owner(s, k) == 0 && Owner(s', k) == step.t)
    || ((step == ReleaseKey(step.t, k) || step == ReleaseAllDrop(step.t)) && Owner(s, k) == step.t)
  }

  lemma EnterOwner(s: Table, t: Txn, j: Key, k: Key)
    requires Inv(s)
    ensures Owner(Enter(s, t, j), k) == Owner(s, k) || (j == k && Owner(s, k) == 0 && Owner(Enter(s, t, j), k) == t)
  {
    if k in s.locks { assert LockOk(s, k); }
  }

  lemma ReleaseOwner(s: Table, t: Txn, j: Key, k: Key)
    requires j != k
    ensures Owner(Release(s, t, j), k) == Owner(s, k)
  {}

  lemma OwnerStep(s: Table, step: Step, k: Key)
    requires Inv(s)
    ensures OwnerMoved(s, Do(s, step), step, k)
  {
    match step
    case EnterAcquire(t, j) => EnterOwner(s, t, j, k);
    case Wake(t) =>
    case Deadline(t) =>
    case ReleaseKey(t, j) => if j != k { ReleaseOwner(s, t, j, k); }
    case ReleaseAllTake(t) =>
    case ReleaseAllDrop(t) => if Owner(s, k) != t { DropOwner(s, t, k); }
  }

  /** Ownership changes only when a transaction takes a free lock for itself or gives up its own. */
  lemma OwnerChanges(run: seq<Step>, step: Step, k: Key)
    ensures OwnerMoved(After(run), After(run + [step]), step, k)
  {
    AlwaysInv(run);
    assert (run + [step])[..|run|] == run;
    OwnerStep(After(run), step, k);
  }
}
