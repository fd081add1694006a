/** The lock manager object, one method per critical section of its mutex. The ghost `table` adds
    what the object does not store: who is blocked and in which order the waiters arrived. */
module LockManager {
  import opened ByteStrings
  import T = LockTable

  type Txn = T.Txn

  datatype Entry = Entry(owner: Txn, holds: nat, queue: seq<Txn>)

  ghost function Ids(queue: seq<T.Waiter>): seq<Txn> {
    seq(|queue|, i requires 0 <= i < |queue| => queue[i].txn)
  }

  ghost predicate Shows(locks: map<Key, Entry>, full: map<Key, T.Lock>) {
    && locks.Keys == full.Keys
    && forall k :: k in full ==>
         locks[k].owner == full[k].owner && locks[k].holds == full[k].holds && locks[k].queue == Ids(full[k].queue)
  }

  lemma ShowsUpdate(locks: map<Key, Entry>, full: map<Key, T.Lock>, k: Key, e: Entry, l: T.Lock)
    requires Shows(locks, full) && e.owner == l.owner && e.holds == l.holds && e.queue == Ids(l.queue)
    ensures Shows(locks[k := e], full[k := l])
  {}

  lemma IdsCut(queue: seq<T.Waiter>, i: nat)
    requires i < |queue|
    ensures Ids(queue[..i] + queue[i + 1..]) == Ids(queue)[..i] + Ids(queue)[i + 1..]
    ensures Ids(queue[1..]) == Ids(queue)[1..]
  {}

  /** The first position of x, or the length. */
  method Find<X(==)>(s: seq<X>, x: X) returns (i: nat)
    ensures i <= |s| && (i < |s| ==> s[i] == x)
    ensures forall j :: 0 <= j < i ==> s[j] != x
  {
    i := 0;
    while i < |s| && s[i] != x
      invariant 0 <= i <= |s|
      invariant forall j :: 0 <= j < i ==> s[j] != x
    {
      i := i + 1;
    }
  }

  lemma {:induction false} FirstInQueue(queue: seq<T.Waiter>, t: Txn, i: nat)
    requires i <= |queue| && forall j :: 0 <= j < i ==> Ids(queue)[j] != t
    requires i < |queue| ==> queue[i].txn == t
    ensures T.Without(queue, t) == if i < |queue| then queue[..i] + queue[i + 1..] else queue
  {
    if queue != [] && i > 0 {
      IdsCut(queue, 0);
      assert queue[0].txn == Ids(queue)[0];
      FirstInQueue(queue[1..], t, i - 1);
      assert queue == [queue[0]] + queue[1..];
    }
  }

  lemma {:induction false} FirstInList(keys: seq<Key>, k: Key, i: nat)
    requires i < |keys| && keys[i] == k && forall j :: 0 <= j < i ==> keys[j] != k
    ensures T.RemoveFirst(keys, k) == keys[..i] + keys[i + 1..]
  {
    if i > 0 {
      FirstInList(keys[1..], k, i - 1);
      assert keys == [keys[0]] + keys[1..];
    }
  }

  function Listing(txnLocks: map<Txn, seq<Key>>, t: Txn, k: Key): map<Txn, seq<Key>> {
    txnLocks[t := (if t in txnLocks then txnLocks[t] else []) + [k]]
  }

  function Entered(locks: map<Key, Entry>, t: Txn, k: Key): Entry {
    var e := if k in locks then locks[k] else Entry(0, 0, []);
    if e.owner == t then e.(holds := e.holds + 1)
    else if e.owner == 0 then Entry(t, 1, e.queue)
    else e.(queue := e.queue + [t])
  }

  lemma EnterShown(locks: map<Key, Entry>, table: T.Table, t: Txn, k: Key)
    requires Shows(locks, table.locks) && t != 0 && (k in table.locks ==> table.locks[k].owner != 0)
    ensures Shows(locks[k := Entered(locks, t, k)], T.Enter(table, t, k).locks)
  {
    var l := T.Enter(table, t, k).locks[k];
    if k in table.locks {
      assert Ids(table.locks[k].queue + [T.Waiter(t, table.nextTicket)]) == Ids(table.locks[k].queue) + [t];
    }
    ShowsUpdate(locks, table.locks, k, Entered(locks, t, k), l);
  }

  function Listed(txnLocks: map<Txn, seq<Key>>, t: Txn): seq<Key> { if t in txnLocks then txnLocks[t] else [] }

  predicate Lists(txnLocks: map<Txn, seq<Key>>, t: Txn, k: Key) { k in Listed(txnLocks, t) }

  lemma OneLess(keys: seq<Key>, i: nat)
    requires i < |keys|
    ensures multiset(keys[..i] + keys[i + 1..]) == multiset(keys) - multiset{keys[i]}
  {
    assert keys == keys[..i] + [keys[i]] + keys[i + 1..];
  }

  /** One hold less; the last one goes to the first in the queue, or the entry is removed. */
  function GivenBack(locks: map<Key, Entry>, k: Key): map<Key, Entry> {
    if k !in locks || locks[k].holds == 0 then locks
    else if locks[k].holds > 1 then locks[k := locks[k].(holds := locks[k].holds - 1)]
    else if locks[k].queue == [] then locks - {k}
    else locks[k := Entry(locks[k].queue[0], 1, locks[k].queue[1..])]
  }

  lemma GivenBackShown(locks: map<Key, Entry>, table: T.Table, k: Key)
    requires Shows(locks, table.locks)
    ensures Shows(GivenBack(locks, k), T.ReleaseOne(table, k).locks)
  {
    if k in locks && locks[k].holds > 0 {
      var full := table.locks[k];
      if full.holds > 1 {
        ShowsUpdate(locks, table.locks, k, GivenBack(locks, k)[k], full.(holds := full.holds - 1));
      } else if full.queue != [] {
        IdsCut(full.queue, 0);
        ShowsUpdate(locks, table.locks, k, GivenBack(locks, k)[k], T.Lock(full.queue[0].txn, 1, full.queue[1..]));
      }
    }
  }

  class Manager {
    var locks: map<Key, Entry>
    var txnLocks: map<Txn, seq<Key>>
    ghost var table: T.Table

    ghost predicate Valid()
      reads this
    {
      Shows(locks, table.locks) && txnLocks == table.held && T.Inv(table)
    }

    constructor ()
      ensures Valid() && table == T.EMPTY
    {
      locks, txnLocks, table := map[], map[], T.EMPTY;
      new;
      T.AlwaysInv([]);
    }

    method Record(t: Txn, k: Key)
      modifies `txnLocks
      ensures txnLocks == Listing(old(txnLocks), t, k)
    {
      txnLocks := txnLocks[t := (if t in txnLocks then txnLocks[t] else []) + [k]];
    }

    /** Acquire up to the point where it would block. */
    method Acquire(t: Txn, k: Key) returns (got: bool)
      requires Valid() && T.Idle(table, t)
      modifies this
      ensures Valid() && table == T.Enter(old(table), t, k)
      ensures got <==> t !in table.waiting
      ensures got <==> k !in old(locks) || old(locks)[k].owner == t
      ensures got ==> k in table.locks && table.locks[k].owner == t && T.Idle(table, t)
      ensures locks == old(locks)[k := Entered(old(locks), t, k)] && k in locks
      ensures var e := locks[k];
              if k !in old(locks) then e == Entry(t, 1, [])
              else if got then e == old(locks)[k].(holds := old(locks)[k].holds + 1)
              else e == old(locks)[k].(queue := old(locks)[k].queue + [t])
      ensures txnLocks == if got then Listing(old(txnLocks), t, k) else old(txnLocks)
    {
      if k in table.locks { assert T.LockOk(table, k); }
      var e := if k in locks then locks[k] else Entry(0, 0, []);
      T.EnterKeepsInv(table, t, k);
      EnterShown(locks, table, t, k);
      if e.owner == t {
        locks := locks[k := e.(holds := e.holds + 1)];
        Record(t, k);
        got := true;
      } else if e.owner == 0 {
        locks := locks[k := Entry(t, 1, e.queue)];
        Record(t, k);
        got := true;
      } else {
        locks := locks[k := e.(queue := e.queue + [t])];
        got := false;
      }
      table := T.Enter(table, t, k);
    }

    /** A blocked thread woke up before its deadline. */
    method Recheck(t: Txn, k: Key) returns (got: bool)
      requires Valid() && t in table.waiting && table.waiting[t] == k
      modifies this
      ensures Valid() && table == T.PickUp(old(table), t) && locks == old(locks)
      ensures got <==> T.HandedOver(old(table), t)
      ensures got <==> k in old(locks) && old(locks)[k].owner == t
      ensures txnLocks == if got then Listing(old(txnLocks), t, k) else old(txnLocks)
      ensures got ==> T.Idle(table, t)
    {
      T.PickUpKeepsInv(table, t);
      assert T.TxnOk(table, t);
      assert T.LockOk(table, k);
      got := locks[k].owner == t && locks[k].holds > 0;
      if got { Record(t, k); }
      table := T.PickUp(table, t);
    }

    /** A blocked thread reached its deadline. */
    method Expire(t: Txn, k: Key) returns (got: bool)
      requires Valid() && t in table.waiting && table.waiting[t] == k
      modifies this
      ensures Valid() && table == T.TimeOut(old(table), t)
      ensures got <==> T.HandedOver(old(table), t)
      ensures got <==> k in old(locks) && old(locks)[k].owner == t
      ensures k in locks && t !in locks[k].queue
      ensures txnLocks == if got then Listing(old(txnLocks), t, k) else old(txnLocks)
      ensures T.Idle(table, t)
    {
      Owned(t, k);
      got := TakeOrLeave(t, k);
      NotQueued(t, k);
    }

    lemma Owned(t: Txn, k: Key)
      requires Valid() && t in table.waiting && table.waiting[t] == k
      ensures T.HandedOver(table, t) <==> k in locks && locks[k].owner == t
    {
      assert T.TxnOk(table, t);
      assert T.LockOk(table, k);
    }

    lemma NotQueued(t: Txn, k: Key)
      requires Valid() && t !in table.waiting && k in locks
      ensures t !in locks[k].queue
    {
      assert T.LockOk(table, k);
      var q := table.locks[k].queue;
      assert forall i :: 0 <= i < |q| ==> locks[k].queue[i] == q[i].txn;
    }

    method TakeOrLeave(t: Txn, k: Key) returns (got: bool)
      requires Valid() && t in table.waiting && table.waiting[t] == k
      modifies this
      ensures Valid() && table == T.TimeOut(old(table), t) && k in locks
      ensures got <==> T.HandedOver(old(table), t)
      ensures txnLocks == if got then Listing(old(txnLocks), t, k) else old(txnLocks)
      ensures T.Idle(table, t)
    {
      T.TimeOutKeepsInv(table, t);
      assert T.TxnOk(table, t);
      var e := locks[k];
      got := e.owner == t && e.holds > 0;
      if got {
        Record(t, k);
      } else {
        var i := Find(e.queue, t);
        ghost var full := table.locks[k];
        FirstInQueue(full.queue, t, i);
        if i < |e.queue| {
          IdsCut(full.queue, i);
          e := e.(queue := e.queue[..i] + e.queue[i + 1..]);
          ShowsUpdate(locks, table.locks, k, e, full.(queue := T.Without(full.queue, t)));
          locks := locks[k := e];
        } else {
          assert table.locks[k := full] == table.locks;
        }
      }
      table := T.TimeOut(table, t);
    }

    method ReleaseInternal(k: Key)
      requires Shows(locks, table.locks)
      modifies `locks, `table
      ensures Shows(locks, table.locks) && table == T.ReleaseOne(old(table), k)
      ensures locks == GivenBack(old(locks), k)
    {
      GivenBackShown(locks, table, k);
      ghost var next := T.ReleaseOne(table, k);
      if k in locks && locks[k].holds > 0 {
        var e := locks[k].(holds := locks[k].holds - 1);
        if e.holds > 0 {
          locks := locks[k := e];
        } else if e.queue != [] {
          locks := locks[k := Entry(e.queue[0], 1, e.queue[1..])];
        } else {
          locks := locks - {k};
        }
      }
      table := next;
    }

    method Release(t: Txn, k: Key)
      requires Valid() && T.Idle(table, t)
      modifies this
      ensures Valid() && table == T.Release(old(table), t, k)
      ensures if Lists(old(txnLocks), t, k) then
                && multiset(Listed(txnLocks, t)) == multiset(Listed(old(txnLocks), t)) - multiset{k}
                && txnLocks - {t} == old(txnLocks) - {t} && locks == GivenBack(old(locks), k)
              else txnLocks == old(txnLocks) && locks == old(locks)
    {
      T.ReleaseKeepsInv(table, t, k);
      if Lists(txnLocks, t, k) { ListedOwns(t, k); }
      if k !in locks || locks[k].owner != t { return; }
      if t !in txnLocks { return; }
      var i := Find(txnLocks[t], k);
      if i == |txnLocks[t]| { return; }
      OneLess(txnLocks[t], i);
      ReleaseAt(t, k, i);
    }

    lemma ListedOwns(t: Txn, k: Key)
      requires Valid() && Lists(txnLocks, t, k)
      ensures k in locks && locks[k].owner == t
    {
      assert T.TxnOk(table, t);
    }

    /** The key at position i of t's list. */
    method ReleaseAt(t: Txn, k: Key, i: nat)
      requires Valid() && T.Inv(T.Release(table, t, k)) && t in txnLocks && i < |txnLocks[t]| && txnLocks[t][i] == k
      requires (forall j :: 0 <= j < i ==> txnLocks[t][j] != k) && k in locks && locks[k].owner == t
      modifies this
      ensures Valid() && table == T.Release(old(table), t, k)
      ensures Listed(txnLocks, t) == old(txnLocks)[t][..i] + old(txnLocks)[t][i + 1..]
      ensures txnLocks - {t} == old(txnLocks) - {t} && locks == GivenBack(old(locks), k)
    {
      var held := txnLocks[t];
      FirstInList(held, k, i);
      held := held[..i] + held[i + 1..];
      txnLocks := if held == [] then txnLocks - {t} else txnLocks[t := held];
      table := table.(held := txnLocks);
      ReleaseInternal(k);
    }

    /** ReleaseAll, first critical section. */
    method TakeKeys(t: Txn) returns (keys: seq<Key>)
      requires Valid() && T.Idle(table, t)
      modifies this
      ensures Valid() && table == T.TakeAll(old(table), t)
      ensures keys == T.Releasing(table, t)
    {
      T.TakeAllKeepsInv(table, t);
      table := T.TakeAll(table, t);
      keys := [];
      if t in txnLocks {
        keys := txnLocks[t];
        txnLocks := txnLocks - {t};
      }
    }

    /** ReleaseAll, second critical section. */
    method DropKeys(t: Txn, keys: seq<Key>)
      requires Valid() && keys == T.Releasing(table, t)
      modifies this
      ensures Valid() && table == T.DropAll(old(table), t)
    {
      var i := 0;
      while i < |keys|
        invariant 0 <= i <= |keys| && Valid()
        invariant T.Releasing(table, t) == keys[i..]
        invariant T.DropAll(table, t) == T.DropAll(old(table), t)
      {
        DropKey(t, keys[i]);
        i := i + 1;
      }
    }

    method DropKey(t: Txn, k: Key)
      requires Valid() && T.Releasing(table, t) != [] && T.Releasing(table, t)[0] == k
      modifies this
      ensures Valid() && table == T.DropOne(old(table), t) && T.Releasing(table, t) == T.Releasing(old(table), t)[1..]
    {
      T.DropOneKeepsInv(table, t);
      table := T.TakeOne(table, t);
      if k in locks && locks[k].owner == t {
        ReleaseInternal(k);
      }
    }

    /** ReleaseAll with nothing in between: every lock of t is freed or handed to its longest waiter,
        and no other lock changes. */
    method ReleaseAll(t: Txn)
      requires Valid() && T.Idle(table, t)
      modifies this
      ensures Valid() && txnLocks == old(txnLocks) - {t} && T.Idle(table, t)
      ensures forall k {:trigger T.Dropped(old(table), table, t, k)} :: T.Dropped(old(table), table, t, k)
      ensures forall k :: k in locks ==> locks[k].owner != t
    {
      T.ReleaseAllReleases(table, t);
      var keys := TakeKeys(t);
      ghost var mid := table;
      DropKeys(t, keys);
      KeepsHeld(mid, t);
    }
  }

  lemma {:induction false} KeepsHeld(s: T.Table, t: Txn)
    ensures T.DropAll(s, t).held == s.held && T.DropAll(s, t).waiting == s.waiting
    decreases |T.Releasing(s, t)|
  {
    if T.Releasing(s, t) != [] { KeepsHeld(T.DropOne(s, t), t); }
  }
}
