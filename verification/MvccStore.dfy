/** Versioned rows in an ordered byte-string store, and the point read that seeks and walks. */
module MvccStore {
  import opened ByteStrings
  import opened KeyEncoding

  datatype Row = Row(key: Bytes, value: Bytes)

  /** The contents of the ordered store, ascending. */
  ghost predicate Sorted(rows: seq<Row>) {
    forall i, j :: 0 <= i < j < |rows| ==> Less(rows[i].key, rows[j].key)
  }

  predicate Tombstone(value: Bytes) { value == [0] }

  /** Key b is a version of the row pk of the table. */
  predicate RowOf(b: Bytes, table: U32, pk: Bytes) {
    var r := DecodeKey(b);
    r.Some? && r.value.table == table && r.value.pk == pk
  }

  ghost predicate Holds(rows: seq<Row>, table: U32, pk: Bytes, ts: U64, value: Bytes) {
    exists i :: 0 <= i < |rows| && rows[i] == Row(EncodeKey(table, pk, ts), value)
  }

  /** (ts, value) is the newest version of the row at or below the snapshot. */
  ghost predicate IsNewest(rows: seq<Row>, table: U32, pk: Bytes, snap: U64, ts: U64, value: Bytes) {
    && Holds(rows, table, pk, ts, value) && ts <= snap
    && forall ts': U64, v': Bytes :: Holds(rows, table, pk, ts', v') && ts' <= snap ==> ts' <= ts
  }

  /** A key of another row lies between the seek key and version ts. */
  ghost predicate Hidden(rows: seq<Row>, table: U32, pk: Bytes, ts: U64) {
    exists i :: 0 <= i < |rows| && Between(rows[i].key, table, pk, ts)
  }

  predicate Between(b: Bytes, table: U32, pk: Bytes, ts: U64) {
    !RowOf(b, table, pk) && AtMost(NewestKey(table, pk), b) && Less(b, EncodeKey(table, pk, ts))
  }

  /** What a point read can see: the newest version, unless it is a tombstone or hidden. */
  ghost predicate Sees(rows: seq<Row>, table: U32, pk: Bytes, snap: U64, ts: U64, value: Bytes) {
    IsNewest(rows, table, pk, snap, ts, value) && !Tombstone(value) && !Hidden(rows, table, pk, ts)
  }

  method Seek(rows: seq<Row>, key: Bytes) returns (i: nat)
    requires Sorted(rows)
    ensures i <= |rows| && (forall j :: 0 <= j < i ==> Less(rows[j].key, key))
    ensures (forall j :: i <= j < |rows| ==> AtMost(key, rows[j].key))
  {
    i := 0;
    while i < |rows| && Less(rows[i].key, key)
      invariant 0 <= i <= |rows| && forall j :: 0 <= j < i ==> Less(rows[j].key, key)
    {
      i := i + 1;
    }
    forall j | i <= j < |rows| ensures AtMost(key, rows[j].key) {
      Trichotomy(rows[i].key, key);
      if i < j { AtMostLess(key, rows[i].key, rows[j].key); }
    }
  }

  lemma AtMostLess(a: Bytes, b: Bytes, c: Bytes)
    requires AtMost(a, b) && Less(b, c)
    ensures Less(a, c) && AtMost(a, c)
  {
    Trichotomy(a, b);
    if a != b { Transitive(a, b, c); }
    Trichotomy(a, c);
  }

  /** The rows from start up to i are newer versions of pk. */
  ghost predicate Skipped(rows: seq<Row>, table: U32, pk: Bytes, snap: U64, start: nat, i: nat)
    requires start <= i <= |rows|
  {
    && (forall j :: 0 <= j < start ==> Less(rows[j].key, NewestKey(table, pk)))
    && (forall j :: start <= j < i ==> RowOf(rows[j].key, table, pk) && DecodeKey(rows[j].key).value.ts > snap)
  }

  /** A visible version lies at or behind the position reached. */
  lemma VisibleIsAhead(rows: seq<Row>, table: U32, pk: Bytes, snap: U64, start: nat, i: nat, m: nat, ts: U64)
    requires start <= i <= |rows| && Skipped(rows, table, pk, snap, start, i)
    requires m < |rows| && rows[m].key == EncodeKey(table, pk, ts) && ts <= snap
    ensures i <= m
  {
    VersionOrder(table, pk, ts, MAX64);
    DecodeEncode(table, pk, ts);
  }

  /** Stopping at a key of another row, or at the end: nothing is to be seen. */
  lemma StopsBlind(rows: seq<Row>, table: U32, pk: Bytes, snap: U64, start: nat, i: nat)
    requires Sorted(rows) && start <= i <= |rows| && Skipped(rows, table, pk, snap, start, i)
    requires i < |rows| ==> !RowOf(rows[i].key, table, pk) && AtMost(NewestKey(table, pk), rows[i].key)
    ensures forall ts, v :: !Sees(rows, table, pk, snap, ts, v)
  {
    forall ts, v | IsNewest(rows, table, pk, snap, ts, v) ensures Hidden(rows, table, pk, ts) {
      var m :| 0 <= m < |rows| && rows[m] == Row(EncodeKey(table, pk, ts), v);
      VisibleIsAhead(rows, table, pk, snap, start, i, m, ts);
      DecodeEncode(table, pk, ts);
      assert Between(rows[i].key, table, pk, ts);
    }
  }

  /** Stopping at the first version at or below the snapshot: it is the newest, and not hidden. */
  lemma StopsAtNewest(rows: seq<Row>, table: U32, pk: Bytes, snap: U64, start: nat, i: nat, ts: U64)
    requires Sorted(rows) && start <= i < |rows| && Skipped(rows, table, pk, snap, start, i)
    requires rows[i].key == EncodeKey(table, pk, ts) && ts <= snap
    ensures IsNewest(rows, table, pk, snap, ts, rows[i].value) && !Hidden(rows, table, pk, ts)
    ensures forall v :: IsNewest(rows, table, pk, snap, ts, v) ==> v == rows[i].value
  {
    assert rows[i] == Row(EncodeKey(table, pk, ts), rows[i].value);
    forall ts': U64, v': Bytes | Holds(rows, table, pk, ts', v') && ts' <= snap ensures ts' <= ts {
      var m :| 0 <= m < |rows| && rows[m] == Row(EncodeKey(table, pk, ts'), v');
      VisibleIsAhead(rows, table, pk, snap, start, i, m, ts');
      VersionOrder(table, pk, ts', ts);
      Trichotomy(rows[m].key, rows[i].key);
    }
    forall j | 0 <= j < |rows| ensures !Between(rows[j].key, table, pk, ts) { Trichotomy(rows[j].key, rows[i].key); }
    forall v | Holds(rows, table, pk, ts, v) ensures v == rows[i].value {
      var m :| 0 <= m < |rows| && rows[m] == Row(EncodeKey(table, pk, ts), v);
      Irreflexive(rows[i].key);
    }
  }

  /** The point read: it finds exactly what can be seen. */
  method Get(rows: seq<Row>, table: U32, pk: Bytes, snap: U64) returns (r: Option<(U64, Bytes)>)
    requires Sorted(rows)
    ensures r.Some? ==> Sees(rows, table, pk, snap, r.value.0, r.value.1)
    ensures r.None? ==> forall ts, v :: !Sees(rows, table, pk, snap, ts, v)
  {
    var i := Seek(rows, NewestKey(table, pk));
    ghost var start := i;
    while i < |rows|
      invariant start <= i <= |rows| && Skipped(rows, table, pk, snap, start, i)
      invariant forall j :: i <= j < |rows| ==> AtMost(NewestKey(table, pk), rows[j].key)
    {
      var d := DecodeKey(rows[i].key);
      if d.None? || d.value.table != table || d.value.pk != pk { break; }
      if d.value.ts <= snap {
        EncodeDecode(rows[i].key);
        StopsAtNewest(rows, table, pk, snap, start, i, d.value.ts);
        if Tombstone(rows[i].value) {
          OnlyNewest(rows, table, pk, snap, d.value.ts, rows[i].value);
          return None;
        }
        return Some((d.value.ts, rows[i].value));
      }
      i := i + 1;
    }
    StopsBlind(rows, table, pk, snap, start, i);
    r := None;
  }

  lemma OnlyNewest(rows: seq<Row>, table: U32, pk: Bytes, snap: U64, ts: U64, value: Bytes)
    requires IsNewest(rows, table, pk, snap, ts, value) && Tombstone(value)
    requires forall v :: IsNewest(rows, table, pk, snap, ts, v) ==> v == value
    ensures forall ts', v' :: !Sees(rows, table, pk, snap, ts', v')
  {}

  // ---- When nothing is hidden ----

  /** Every key of the table is pk itself or apart from it. */
  ghost predicate KeyApart(rows: seq<Row>, table: U32, pk: Bytes) {
    forall i {:trigger rows[i]} :: 0 <= i < |rows| ==>
      DecodeKey(rows[i].key).Some? &&
      var d := DecodeKey(rows[i].key).value; d.table == table && d.pk != pk ==> Apart(d.pk, pk)
  }

  /** With prefix-free keys a point read finds exactly the newest version that is not a tombstone. */
  lemma NothingHidden(rows: seq<Row>, table: U32, pk: Bytes, ts: U64)
    requires KeyApart(rows, table, pk)
    ensures !Hidden(rows, table, pk, ts)
  {
    forall i | 0 <= i < |rows| ensures !Between(rows[i].key, table, pk, ts) {
      var b := rows[i].key;
      var d := DecodeKey(b).value;
      EncodeDecode(b);
      if d.table != table {
        TableOrder(d, RowKey(table, pk, ts));
        TableOrder(d, RowKey(table, pk, MAX64));
      } else if d.pk != pk {
        RowOrder(table, d.pk, d.ts, pk, ts);
        RowOrder(table, d.pk, d.ts, pk, MAX64);
      }
    }
  }

  /** The first byte of an inverted timestamp is 255 until timestamps reach 2^56. */
  lemma TopByte(ts: U64)
    requires ts < 0x100_0000_0000_0000
    ensures Be(8, InvertTimestamp(ts))[0] == 255
  {
    var v := InvertTimestamp(ts);
    var v1 := v / 256; var v2 := v1 / 256; var v3 := v2 / 256; var v4 := v3 / 256;
    var v5 := v4 / 256; var v6 := v5 / 256; var v7 := v6 / 256;
    assert v7 == 255;
    assert Be(8, v) == Be(7, v1) + [v % 256] && Be(7, v1) == Be(6, v2) + [v1 % 256]
      && Be(6, v2) == Be(5, v3) + [v2 % 256];
    assert Be(5, v3) == Be(4, v4) + [v3 % 256] && Be(4, v4) == Be(3, v5) + [v4 % 256]
      && Be(3, v5) == Be(2, v6) + [v5 % 256];
    assert Be(2, v6) == Be(1, v7) + [v6 % 256] && Be(1, v7) == Be(0, 0) + [v7 % 256];
  }

  lemma LongerIsBetween(table: U32, pk: Bytes, ts: U64, c: Byte, rest: Bytes, ts': U64)
    requires c < 255 && ts < 0x100_0000_0000_0000
    ensures Between(EncodeKey(table, pk + ([c] + rest), ts'), table, pk, ts)
  {
    var inv, inv' := Be(8, InvertTimestamp(ts)), Be(8, InvertTimestamp(ts'));
    var tail := [c] + (rest + inv');
    DecodeEncode(table, pk + ([c] + rest), ts');
    assert pk + ([c] + rest) + inv' == pk + tail;
    TopByte(ts);
    SamePrefix(pk, tail, inv);
    SamePrefix(Be(4, table), pk + tail, pk + inv);
    ZerosFirst(tail);
    SamePrefix(pk, tail, Be(8, 0));
    SamePrefix(Be(4, table), pk + tail, pk + Be(8, 0));
  }

  /** Without that: any row whose key continues pk with a byte below 255 hides every version of pk that
      is older than 2^56, so the point read does not find it. */
  lemma LongerKeyHides(rows: seq<Row>, table: U32, pk: Bytes, ts: U64, c: Byte, rest: Bytes, ts': U64, value: Bytes)
    requires Holds(rows, table, pk + ([c] + rest), ts', value) && c < 255 && ts < 0x100_0000_0000_0000
    ensures Hidden(rows, table, pk, ts)
  {
    var i :| 0 <= i < |rows| && rows[i] == Row(EncodeKey(table, pk + ([c] + rest), ts'), value);
    LongerIsBetween(table, pk, ts, c, rest, ts');
    assert Between(rows[i].key, table, pk, ts);
  }

  lemma {:induction false} ZeroBytes(n: nat)
    ensures forall i :: 0 <= i < n ==> Be(n, 0)[i] == 0
  {
    if n > 0 { ZeroBytes(n - 1); }
  }

  /** No string of eight bytes or more comes before eight zeros. */
  lemma ZerosFirst(a: Bytes)
    requires |a| >= 8
    ensures !Less(a, Be(8, 0))
  {
    ZeroBytes(8);
    NotBelowZeros(a, Be(8, 0));
  }

  lemma {:induction false} NotBelowZeros(a: Bytes, z: Bytes)
    requires |a| >= |z| && forall i :: 0 <= i < |z| ==> z[i] == 0
    ensures !Less(a, z)
  {
    if z != [] { NotBelowZeros(a[1..], z[1..]); }
  }

  /** For instance with the keys "1" and "10", pk = "1", c = '0': two rows, and a read of the first one
      finds nothing. */
  lemma ShorterKeyIsLost(pk: Bytes, c: Byte, v: Bytes, w: Bytes)
    requires !Tombstone(v) && c < 255
    ensures var rows := [Row(EncodeKey(0, pk + ([c] + []), 1), w), Row(EncodeKey(0, pk, 1), v)];
            Sorted(rows) && IsNewest(rows, 0, pk, 1, 1, v) && forall ts, x :: !Sees(rows, 0, pk, 1, ts, x)
  {
    var long := pk + ([c] + []);
    var rows := [Row(EncodeKey(0, long, 1), w), Row(EncodeKey(0, pk, 1), v)];
    LongerIsBetween(0, pk, 1, c, [], 1);
    assert Between(rows[0].key, 0, pk, 1) && rows[1] == Row(EncodeKey(0, pk, 1), v);
    forall ts: U64, x: Bytes | Holds(rows, 0, pk, ts, x) ensures ts == 1 {
      DecodeEncode(0, pk, ts);
      DecodeEncode(0, pk, 1);
      DecodeEncode(0, long, 1);
    }
  }

  // ---- Writing ----

  class Store {
    var rows: seq<Row>

    ghost predicate Valid()
      reads this
    {
      Sorted(rows)
    }

    constructor ()
      ensures Valid() && rows == []
    {
      rows := [];
    }

    method Put(table: U32, pk: Bytes, ts: U64, value: Bytes)
      requires Valid()
      modifies this
      ensures Valid()
      ensures forall t: U32, p: Bytes, s: U64, v: Bytes :: Holds(rows, t, p, s, v) <==>
                if RowKey(t, p, s) == RowKey(table, pk, ts) then v == value else Holds(old(rows), t, p, s, v)
    {
      var key := EncodeKey(table, pk, ts);
      var i := Seek(rows, key);
      ghost var before := rows;
      if i < |rows| && rows[i].key == key {
        rows := rows[i := Row(key, value)];
        Overwritten(before, rows, i, table, pk, ts, value);
      } else {
        rows := rows[..i] + [Row(key, value)] + rows[i..];
        Inserted(before, rows, i, table, pk, ts, value);
      }
    }

    method Delete(table: U32, pk: Bytes, ts: U64)
      requires Valid()
      modifies this
      ensures Valid()
      ensures forall t: U32, p: Bytes, s: U64, v: Bytes :: Holds(rows, t, p, s, v) <==>
                if RowKey(t, p, s) == RowKey(table, pk, ts) then Tombstone(v) else Holds(old(rows), t, p, s, v)
    {
      Put(table, pk, ts, [0]);
    }
  }

  lemma OneKey(table: U32, pk: Bytes, ts: U64, t: U32, p: Bytes, s: U64)
    requires EncodeKey(table, pk, ts) == EncodeKey(t, p, s)
    ensures table == t && pk == p && ts == s
  {
    DecodeEncode(table, pk, ts);
    DecodeEncode(t, p, s);
  }

  lemma Overwritten(before: seq<Row>, rows: seq<Row>, i: nat, table: U32, pk: Bytes, ts: U64, value: Bytes)
    requires Sorted(before) && i < |before| && before[i].key == EncodeKey(table, pk, ts)
    requires rows == before[i := Row(before[i].key, value)]
    ensures Sorted(rows)
    ensures forall t: U32, p: Bytes, s: U64, v: Bytes :: Holds(rows, t, p, s, v) <==>
              if RowKey(t, p, s) == RowKey(table, pk, ts) then v == value else Holds(before, t, p, s, v)
  {
    forall t: U32, p: Bytes, s: U64, v: Bytes ensures Holds(rows, t, p, s, v) <==>
      if RowKey(t, p, s) == RowKey(table, pk, ts) then v == value else Holds(before, t, p, s, v)
    {
      var row := Row(EncodeKey(t, p, s), v);
      if row.key == before[i].key { OneKey(table, pk, ts, t, p, s); }
      assert rows[i] == Row(before[i].key, value);
      forall j | 0 <= j < |rows| && j != i
        ensures rows[j] == before[j] && rows[j].key != before[i].key
      { Irreflexive(before[i].key); }
      assert Holds(before, t, p, s, v) ==> exists j :: 0 <= j < |before| && before[j] == row;
      if RowKey(t, p, s) != RowKey(table, pk, ts) && Holds(before, t, p, s, v) {
        var j :| 0 <= j < |before| && before[j] == row;
        assert rows[j] == row;
      }
    }
  }

  lemma Inserted(before: seq<Row>, rows: seq<Row>, i: nat, table: U32, pk: Bytes, ts: U64, value: Bytes)
    requires Sorted(before) && i <= |before|
    requires rows == before[..i] + [Row(EncodeKey(table, pk, ts), value)] + before[i..]
    requires forall j :: 0 <= j < i ==> Less(before[j].key, EncodeKey(table, pk, ts))
    requires forall j :: i <= j < |before| ==> AtMost(EncodeKey(table, pk, ts), before[j].key)
    requires i < |before| ==> before[i].key != EncodeKey(table, pk, ts)
    ensures Sorted(rows)
    ensures forall t: U32, p: Bytes, s: U64, v: Bytes :: Holds(rows, t, p, s, v) <==>
              if RowKey(t, p, s) == RowKey(table, pk, ts) then v == value else Holds(before, t, p, s, v)
  {
    var key := EncodeKey(table, pk, ts);
    assert rows[i] == Row(key, value);
    forall j | i <= j < |before| ensures Less(key, before[j].key) && rows[j + 1] == before[j] {
      Trichotomy(key, before[i].key);
      if i < j { AtMostLess(key, before[i].key, before[j].key); }
    }
    Irreflexive(key);
    InsertHolds(before, rows, i, table, pk, ts, value);
  }

  lemma InsertHolds(before: seq<Row>, rows: seq<Row>, i: nat, table: U32, pk: Bytes, ts: U64, value: Bytes)
    requires i <= |before| && rows == before[..i] + [Row(EncodeKey(table, pk, ts), value)] + before[i..]
    requires forall j :: 0 <= j < |before| ==> before[j].key != EncodeKey(table, pk, ts)
    ensures forall t: U32, p: Bytes, s: U64, v: Bytes :: Holds(rows, t, p, s, v) <==>
              if RowKey(t, p, s) == RowKey(table, pk, ts) then v == value else Holds(before, t, p, s, v)
  {
    forall t: U32, p: Bytes, s: U64, v: Bytes ensures Holds(rows, t, p, s, v) <==>
      if RowKey(t, p, s) == RowKey(table, pk, ts) then v == value else Holds(before, t, p, s, v)
    {
      var row := Row(EncodeKey(t, p, s), v);
      if row.key == EncodeKey(table, pk, ts) { OneKey(table, pk, ts, t, p, s); }
      assert rows[i] == Row(EncodeKey(table, pk, ts), value);
      if Holds(before, t, p, s, v) {
        var j :| 0 <= j < |before| && before[j] == row;
        assert rows[if j < i then j else j + 1] == row;
      }
      if Holds(rows, t, p, s, v) {
        var j :| 0 <= j < |rows| && rows[j] == row;
        if j != i { assert before[if j < i then j else j - 1] == row; }
      }
    }
  }
}
