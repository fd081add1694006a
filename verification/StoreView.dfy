/** The versions of the transaction machine as rows of the ordered store: point reads and writes of the
    two agree. */
module StoreView {
  import opened ByteStrings
  import opened KeyEncoding
  import opened MvccStore
  import M = TxnModel

  /** The bytes stored for a value; a tombstone is the single byte 0. */
  function Stored(v: M.Value): Bytes { if v.Some? then v.value else [0] }

  ghost predicate InRange(v: M.Version) {
    v.0.table < 0x1_0000_0000 && v.1 < 0x1_0000_0000_0000_0000
  }

  /** The rows hold exactly the versions of the map, whose values never look like a tombstone. */
  ghost predicate Shows(rows: seq<Row>, store: map<M.Version, M.Value>) {
    && (forall v :: v in store ==> InRange(v) && store[v] != Some([0]))
    && (forall t: U32, pk: Bytes, ts: U64, b: Bytes {:trigger Holds(rows, t, pk, ts, b)} ::
          Holds(rows, t, pk, ts, b) <==> (Key(t, pk), ts) in store && b == Stored(store[(Key(t, pk), ts)]))
  }

  lemma NewestAgrees(rows: seq<Row>, store: map<M.Version, M.Value>, t: U32, pk: Bytes, snap: U64, ts: U64, b: Bytes)
    requires Shows(rows, store)
    ensures IsNewest(rows, t, pk, snap, ts, b) <==>
            M.Newest(store, Key(t, pk), snap) == Some(ts) && b == Stored(store[(Key(t, pk), ts)])
  {
    var k := Key(t, pk);
    var n := M.Newest(store, k, snap);
    if n.Some? {
      var v: U64 := n.value;
      assert Holds(rows, t, pk, v, Stored(store[(k, v)]));
    }
  }

  /** On prefix-free keys the point read of the rows is the read of the transaction machine. */
  lemma GetAgrees(rows: seq<Row>, store: map<M.Version, M.Value>, t: U32, pk: Bytes, snap: U64, ts: U64, b: Bytes)
    requires Shows(rows, store) && KeyApart(rows, t, pk)
    ensures Sees(rows, t, pk, snap, ts, b) <==> M.Get(store, Key(t, pk), snap) == Some((ts, b))
  {
    NewestAgrees(rows, store, t, pk, snap, ts, b);
    NothingHidden(rows, t, pk, ts);
  }

  /** Putting a value, or a tombstone, into the rows is putting it into the map; the single byte 0 is as
      good as a tombstone in both. */
  lemma PutAgrees(before: seq<Row>, after: seq<Row>, store: map<M.Version, M.Value>, t: U32, pk: Bytes, ts: U64,
      value: M.Value)
    requires Shows(before, store)
    requires forall t': U32, p: Bytes, s: U64, b: Bytes :: Holds(after, t', p, s, b) <==>
               if RowKey(t', p, s) == RowKey(t, pk, ts) then b == Stored(value) else Holds(before, t', p, s, b)
    ensures Shows(after, store[(Key(t, pk), ts) := M.AsStored(value)])
  {
    var store' := store[(Key(t, pk), ts) := M.AsStored(value)];
    forall t': U32, p: Bytes, s: U64, b: Bytes ensures
      Holds(after, t', p, s, b) <==> (Key(t', p), s) in store' && b == Stored(store'[(Key(t', p), s)])
    {
      assert Holds(before, t', p, s, b) <==> (Key(t', p), s) in store && b == Stored(store[(Key(t', p), s)]);
    }
  }

  // ---- Lock keys ----

  /** The lock manager's key: the table number in front of the primary key. */
  function LockKey(table: U32, pk: Bytes): Bytes { Be(4, table) + pk }

  /** Different rows have different locks. */
  lemma LockKeyTells(a: U32, p: Bytes, b: U32, q: Bytes)
    requires LockKey(a, p) == LockKey(b, q)
    ensures a == b && p == q
  {
    Widths();
    BeBack(4, a);
    BeBack(4, b);
    assert LockKey(a, p)[..4] == Be(4, a) && LockKey(b, q)[..4] == Be(4, b);
    assert LockKey(a, p)[4..] == p && LockKey(b, q)[4..] == q;
  }
}
