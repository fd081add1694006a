/** The range scan over versioned rows: nested loops over one cursor. */
module MvccIterator {
  import opened ByteStrings
  import opened KeyEncoding
  import opened MvccStore

  // ---- Prefix-free tables ----

  /** Every key is that of a version, and the primary keys of a table are pairwise apart. */
  ghost predicate PrefixFree(rows: seq<Row>) {
    && (forall i :: 0 <= i < |rows| ==> DecodeKey(rows[i].key).Some?)
    && (forall i, j :: 0 <= i < |rows| && 0 <= j < |rows| ==> KeysApart(rows[i].key, rows[j].key))
  }

  predicate KeysApart(a: Bytes, b: Bytes) {
    var x, y := DecodeKey(a), DecodeKey(b);
    x.Some? && y.Some? && x.value.table == y.value.table && x.value.pk != y.value.pk ==> Apart(x.value.pk, y.value.pk)
  }

  function At(rows: seq<Row>, i: nat): RowKey
    requires i < |rows| && DecodeKey(rows[i].key).Some?
  {
    DecodeKey(rows[i].key).value
  }

  /** The order of rows: by table, then key, then newest first. */
  predicate Before(a: RowKey, b: RowKey) {
    a.table < b.table || (a.table == b.table && (Less(a.pk, b.pk) || (a.pk == b.pk && a.ts > b.ts)))
  }

  lemma InOrder(rows: seq<Row>, i: nat, j: nat)
    requires Sorted(rows) && PrefixFree(rows) && i < j < |rows|
    ensures Before(At(rows, i), At(rows, j))
  {
    var a, b := At(rows, i), At(rows, j);
    EncodeDecode(rows[i].key);
    EncodeDecode(rows[j].key);
    assert KeysApart(rows[i].key, rows[j].key);
    if a.table != b.table { TableOrder(a, b); }
    else if a.pk != b.pk { RowOrder(a.table, a.pk, a.ts, b.pk, b.ts); }
    else { VersionOrder(a.table, a.pk, a.ts, b.ts); }
  }

  /** The versions of a row lie together. */
  lemma Together(rows: seq<Row>, i: nat, j: nat, m: nat)
    requires Sorted(rows) && PrefixFree(rows) && i <= j <= m < |rows|
    requires At(rows, i).table == At(rows, m).table && At(rows, i).pk == At(rows, m).pk
    ensures At(rows, j).table == At(rows, i).table && At(rows, j).pk == At(rows, i).pk
  {
    if i < j < m {
      InOrder(rows, i, j);
      InOrder(rows, j, m);
      Trichotomy(At(rows, i).pk, At(rows, j).pk);
    }
  }

  lemma HeldAt(rows: seq<Row>, table: U32, pk: Bytes, ts: U64, v: Bytes) returns (m: nat)
    requires Holds(rows, table, pk, ts, v)
    ensures m < |rows| && rows[m] == Row(EncodeKey(table, pk, ts), v)
    ensures DecodeKey(rows[m].key) == Some(RowKey(table, pk, ts))
  {
    m :| 0 <= m < |rows| && rows[m] == Row(EncodeKey(table, pk, ts), v);
    DecodeEncode(table, pk, ts);
  }

  datatype Entry = Entry(pk: Bytes, ts: U64, value: Bytes)

  datatype Range = Range(table: U32, start: Bytes, end: Bytes, open: bool, snap: U64) {
    predicate Has(pk: Bytes) { !Less(pk, start) && (open || Less(pk, end)) }
  }

  /** What the scan must list: the rows in range whose newest version at the snapshot is not a tombstone. */
  ghost predicate Visible(rows: seq<Row>, r: Range, e: Entry) {
    r.Has(e.pk) && IsNewest(rows, r.table, e.pk, r.snap, e.ts, e.value) && !Tombstone(e.value)
  }

  /** Row i belongs to e. */
  ghost predicate Owns(rows: seq<Row>, r: Range, e: Entry, i: int) {
    0 <= i < |rows| && RowOf(rows[i].key, r.table, e.pk)
  }

  /** Nothing to be listed has a row among those from a up to b. */
  ghost predicate NoneIn(rows: seq<Row>, r: Range, a: nat, b: nat) {
    forall i, e {:trigger Owns(rows, r, e, i)} :: a <= i < b && Owns(rows, r, e, i) ==> !Visible(rows, r, e)
  }

  /** Position p does not split a row of the range. */
  ghost predicate Clean(rows: seq<Row>, r: Range, p: nat) {
    forall i, j, e {:trigger Owns(rows, r, e, i), Owns(rows, r, e, j)} ::
      i < p <= j && Owns(rows, r, e, i) && Owns(rows, r, e, j) ==> Less(e.pk, r.start)
  }

  /** Every row from p on is at or behind the seek key. */
  ghost predicate Sought(rows: seq<Row>, r: Range, p: nat) {
    forall i :: p <= i < |rows| ==> AtMost(NewestKey(r.table, r.start), rows[i].key)
  }

  // ---- The seek ----

  /** The seek passes no row at or behind the start of the range. */
  lemma SeekMissesNone(table: U32, start: Bytes, pk: Bytes, ts: U64)
    requires !Less(pk, start)
    ensures AtMost(NewestKey(table, start), EncodeKey(table, pk, ts))
  {
    var inv := Be(8, InvertTimestamp(ts));
    SamePrefix(Be(4, table), pk + inv, start + Be(8, 0));
    ZerosBehind(start, pk, inv);
  }

  lemma {:induction false} ZerosBehind(start: Bytes, pk: Bytes, inv: Bytes)
    requires !Less(pk, start) && |inv| == 8
    ensures !Less(pk + inv, start + Be(8, 0))
  {
    if start == [] {
      ZerosFirst(pk + inv);
      assert [] + Be(8, 0) == Be(8, 0);
    } else {
      if pk[0] == start[0] { ZerosBehind(start[1..], pk[1..], inv); }
      assert (pk + inv)[1..] == pk[1..] + inv && (start + Be(8, 0))[1..] == start[1..] + Be(8, 0);
    }
  }

  lemma SeekIsClean(rows: seq<Row>, r: Range, p: nat)
    requires p <= |rows| && forall j :: 0 <= j < p ==> Less(rows[j].key, NewestKey(r.table, r.start))
    ensures Clean(rows, r, p) && NoneIn(rows, r, 0, p)
  {
    forall i, e | i < p && Owns(rows, r, e, i) ensures Less(e.pk, r.start) {
      EncodeDecode(rows[i].key);
      if !Less(e.pk, r.start) { SeekMissesNone(r.table, r.start, e.pk, DecodeKey(rows[i].key).value.ts); }
    }
  }

  // ---- One row of the table ----

  /** From p on, the versions of pk up to q are newer than the snapshot, and q is not. */
  ghost predicate Newer(rows: seq<Row>, r: Range, pk: Bytes, p: nat, q: nat) {
    && p <= q <= |rows|
    && (forall i :: p <= i < q ==> RowOf(rows[i].key, r.table, pk) && DecodeKey(rows[i].key).value.ts > r.snap)
  }

  /** All versions of pk lie from p on. */
  ghost predicate From(rows: seq<Row>, r: Range, pk: Bytes, p: nat) {
    forall i :: 0 <= i < |rows| && RowOf(rows[i].key, r.table, pk) ==> p <= i
  }

  lemma CleanFrom(rows: seq<Row>, r: Range, pk: Bytes, p: nat)
    requires Clean(rows, r, p) && p < |rows| && RowOf(rows[p].key, r.table, pk) && !Less(pk, r.start)
    ensures From(rows, r, pk, p)
  {
    forall i | 0 <= i < |rows| && RowOf(rows[i].key, r.table, pk) ensures p <= i {
      var e := Entry(pk, 0, []);
      assert Owns(rows, r, e, i) && Owns(rows, r, e, p);
    }
  }

  /** The walk stopped at a version at or below the snapshot: the newest one. */
  lemma FoundNewest(rows: seq<Row>, r: Range, pk: Bytes, p: nat, q: nat)
    requires Sorted(rows) && Newer(rows, r, pk, p, q) && From(rows, r, pk, p)
    requires q < |rows| && RowOf(rows[q].key, r.table, pk) && DecodeKey(rows[q].key).value.ts <= r.snap
    ensures IsNewest(rows, r.table, pk, r.snap, DecodeKey(rows[q].key).value.ts, rows[q].value)
    ensures forall ts, v :: IsNewest(rows, r.table, pk, r.snap, ts, v) ==>
            ts == DecodeKey(rows[q].key).value.ts && v == rows[q].value
  {
    var ts := DecodeKey(rows[q].key).value.ts;
    EncodeDecode(rows[q].key);
    assert rows[q] == Row(EncodeKey(r.table, pk, ts), rows[q].value);
    forall ts': U64, v': Bytes | Holds(rows, r.table, pk, ts', v') && ts' <= r.snap
      ensures ts' <= ts && (ts' == ts ==> v' == rows[q].value)
    {
      var m := HeldAt(rows, r.table, pk, ts', v');
      VersionOrder(r.table, pk, ts', ts);
      Trichotomy(rows[m].key, rows[q].key);
    }
  }

  /** The walk left the row: no version at or below the snapshot. */
  lemma FoundNone(rows: seq<Row>, r: Range, pk: Bytes, p: nat, q: nat)
    requires Sorted(rows) && PrefixFree(rows) && Newer(rows, r, pk, p, q) && From(rows, r, pk, p) && p < q
    requires q < |rows| ==> !RowOf(rows[q].key, r.table, pk)
    ensures forall ts, v :: !IsNewest(rows, r.table, pk, r.snap, ts, v)
  {
    forall ts: U64, v: Bytes | Holds(rows, r.table, pk, ts, v) ensures ts > r.snap {
      var m := HeldAt(rows, r.table, pk, ts, v);
      if q <= m { Together(rows, p, q, m); }
    }
  }

  /** Behind the last version of pk. */
  ghost predicate Passed(rows: seq<Row>, r: Range, pk: Bytes, p: nat, q: nat) {
    && p < q <= |rows| && (forall i :: p <= i < q ==> RowOf(rows[i].key, r.table, pk))
    && (q < |rows| ==> !RowOf(rows[q].key, r.table, pk))
  }

  lemma PassedIsClean(rows: seq<Row>, r: Range, pk: Bytes, p: nat, q: nat)
    requires Sorted(rows) && PrefixFree(rows) && Clean(rows, r, p) && Passed(rows, r, pk, p, q)
    ensures Clean(rows, r, q)
    ensures forall i :: 0 <= i < |rows| && RowOf(rows[i].key, r.table, pk) ==> i < q
  {
    forall i | 0 <= i < |rows| && RowOf(rows[i].key, r.table, pk) ensures i < q {
      if q <= i { Together(rows, p, q, i); }
    }
    forall i, j, e | i < q <= j && Owns(rows, r, e, i) && Owns(rows, r, e, j) ensures Less(e.pk, r.start) {}
  }

  // ---- The iterator ----

  /** The rest of the table is out of range. */
  lemma RestOutside(rows: seq<Row>, r: Range, p: nat)
    requires Sorted(rows) && PrefixFree(rows) && p <= |rows| && Sought(rows, r, p)
    requires p < |rows| ==> At(rows, p).table != r.table || (!r.open && !Less(At(rows, p).pk, r.end))
    ensures NoneIn(rows, r, p, |rows|)
  {
    forall i, e | p <= i < |rows| && Owns(rows, r, e, i) ensures !Visible(rows, r, e) {
      EncodeDecode(rows[p].key);
      if At(rows, p).table != r.table { TableOrder(At(rows, p), RowKey(r.table, r.start, MAX64)); }
      if p < i { InOrder(rows, p, i); }
      if At(rows, p).table == r.table && p < i && Less(At(rows, p).pk, e.pk) { Below(At(rows, p).pk, e.pk, r.end); }
    }
  }

  lemma Below(a: Bytes, b: Bytes, end: Bytes)
    requires Less(a, b) && !Less(a, end)
    ensures !Less(b, end)
  {
    if Less(b, end) { Transitive(a, b, end); }
  }

  lemma NoneGrows(rows: seq<Row>, r: Range, a: nat, p: nat, q: nat, pk: Bytes)
    requires NoneIn(rows, r, a, p) && a <= p <= q <= |rows|
    requires forall i :: p <= i < q ==> RowOf(rows[i].key, r.table, pk)
    requires !r.Has(pk) || forall ts, v :: IsNewest(rows, r.table, pk, r.snap, ts, v) ==> Tombstone(v)
    ensures NoneIn(rows, r, a, q)
  {}

  class Iterator {
    const rows: seq<Row>
    const range: Range
    var pos: nat
    var valid: bool
    var current: Entry

    ghost predicate Valid()
      reads this
    {
      && Sorted(rows) && PrefixFree(rows) && pos <= |rows|
      && Clean(rows, range, pos) && Sought(rows, range, pos)
    }

    /** Between a and the cursor lies exactly the row of the current entry; with no current entry
        nothing more is to come. */
    ghost predicate Found(a: nat)
      reads this
    {
      if valid then
        && Visible(rows, range, current)
        && (exists i :: a <= i < pos && Owns(rows, range, current, i))
        && (forall i :: Owns(rows, range, current, i) ==> a <= i < pos)
        && (forall i, e :: a <= i < pos && Owns(rows, range, e, i) && Visible(rows, range, e) ==> e == current)
      else NoneIn(rows, range, a, |rows|)
    }

    constructor (rows: seq<Row>, range: Range)
      requires Sorted(rows) && PrefixFree(rows)
      ensures Valid() && Found(0) && this.rows == rows && this.range == range
    {
      var i := Seek(rows, NewestKey(range.table, range.start));
      SeekIsClean(rows, range, i);
      this.rows, this.range, this.pos, this.valid, this.current := rows, range, i, false, Entry([], 0, []);
      new;
      Advance(0);
    }

    /** Step over versions newer than the snapshot. */
    method SkipNewer(pk: Bytes)
      requires Valid() && pos < |rows| && RowOf(rows[pos].key, range.table, pk)
      modifies `pos
      ensures Newer(rows, range, pk, old(pos), pos)
      ensures pos < |rows| ==> !RowOf(rows[pos].key, range.table, pk) || DecodeKey(rows[pos].key).value.ts <= range.snap
    {
      while pos < |rows| && RowOf(rows[pos].key, range.table, pk) && DecodeKey(rows[pos].key).value.ts > range.snap
        invariant Newer(rows, range, pk, old(pos), pos)
        decreases |rows| - pos
      {
        pos := pos + 1;
      }
    }

    /** Step over the remaining versions of pk. */
    method SkipRow(pk: Bytes, ghost p: nat)
      requires p <= pos < |rows| && forall i :: p <= i <= pos ==> RowOf(rows[i].key, range.table, pk)
      modifies `pos
      ensures Passed(rows, range, pk, p, pos) && old(pos) < pos
    {
      while pos < |rows| && RowOf(rows[pos].key, range.table, pk)
        invariant old(pos) <= pos <= |rows| && forall i :: p <= i < pos ==> RowOf(rows[i].key, range.table, pk)
        decreases |rows| - pos
      {
        pos := pos + 1;
      }
    }

    /** The newest visible version of the row at the cursor; steps behind the row. */
    method Choose(pk: Bytes) returns (c: Option<Entry>)
      requires Valid() && pos < |rows| && RowOf(rows[pos].key, range.table, pk) && !Less(pk, range.start)
      modifies `pos
      ensures Valid() && Passed(rows, range, pk, old(pos), pos)
      ensures From(rows, range, pk, old(pos)) && forall i :: 0 <= i < |rows| && RowOf(rows[i].key, range.table, pk) ==>
              i < pos
      ensures c.None? ==> forall ts, v :: !IsNewest(rows, range.table, pk, range.snap, ts, v)
      ensures c.Some? ==>
                && c.value.pk == pk && IsNewest(rows, range.table, pk, range.snap, c.value.ts, c.value.value)
                && forall ts, v :: IsNewest(rows, range.table, pk, range.snap, ts, v) ==> Entry(pk, ts, v) == c.value
    {
      ghost var p := pos;
      CleanFrom(rows, range, pk, p);
      SkipNewer(pk);
      if pos == |rows| || !RowOf(rows[pos].key, range.table, pk) {
        FoundNone(rows, range, pk, p, pos);
        c := None;
      } else {
        FoundNewest(rows, range, pk, p, pos);
        c := Some(Entry(pk, DecodeKey(rows[pos].key).value.ts, rows[pos].value));
        SkipRow(pk, p);
      }
      PassedIsClean(rows, range, pk, p, pos);
    }

    /** The row at the cursor: list it if its newest visible version is not a tombstone, and step behind it. */
    method TakeRow(pk: Bytes, ghost a: nat)
      requires Valid() && !valid && pos < |rows| && RowOf(rows[pos].key, range.table, pk) && range.Has(pk)
      requires a <= pos && NoneIn(rows, range, a, pos)
      modifies this
      ensures Valid() && old(pos) < pos
      ensures if valid then Found(a) else NoneIn(rows, range, a, pos)
    {
      ghost var p := pos;
      var c := Choose(pk);
      if c.None? || Tombstone(c.value.value) {
        NoneGrows(rows, range, a, p, pos, pk);
      } else {
        current, valid := c.value, true;
        assert Owns(rows, range, current, p);
      }
    }

    method Advance(ghost a: nat)
      requires Valid() && a <= pos && NoneIn(rows, range, a, pos)
      modifies this
      ensures Valid() && Found(a) && old(pos) <= pos
    {
      valid := false;
      while pos < |rows|
        invariant Valid() && old(pos) <= pos && !valid && NoneIn(rows, range, a, pos)
        decreases |rows| - pos
      {
        var d := DecodeKey(rows[pos].key).value;
        if d.table != range.table { break; }
        if !range.open && !Less(d.pk, range.end) { break; }
        if Less(d.pk, range.start) {
          NoneGrows(rows, range, a, pos, pos + 1, d.pk);
          pos := pos + 1;
        } else {
          TakeRow(d.pk, a);
          if valid { return; }
        }
      }
      RestOutside(rows, range, pos);
    }

    method Next()
      requires Valid() && valid && forall i :: Owns(rows, range, current, i) ==> i < pos
      modifies this
      ensures Valid() && Found(old(pos)) && old(pos) <= pos
    {
      ghost var a := pos;
      if pos == |rows| {
        valid := false;
        return;
      }
      var d := DecodeKey(rows[pos].key).value;
      if d.table != range.table {
        RestOutside(rows, range, pos);
        valid := false;
        return;
      }
      NotBehind(rows, range, current, a);
      SkipCurrent();
      Advance(a);
    }

    /** Step over versions of the current row. Advance has already done so, and none are left. */
    method SkipCurrent()
      requires pos <= |rows|
      modifies `pos
      ensures old(pos) <= pos <= |rows| && forall i :: old(pos) <= i < pos ==>
              RowOf(rows[i].key, range.table, current.pk)
    {
      while pos < |rows| && RowOf(rows[pos].key, range.table, current.pk)
        invariant old(pos) <= pos <= |rows| && forall i :: old(pos) <= i < pos ==>
                  RowOf(rows[i].key, range.table, current.pk)
        decreases |rows| - pos
      {
        pos := pos + 1;
      }
    }
  }

  lemma NotBehind(rows: seq<Row>, r: Range, e: Entry, a: nat)
    requires a < |rows| && forall i :: Owns(rows, r, e, i) ==> i < a
    ensures !RowOf(rows[a].key, r.table, e.pk)
  {
    assert RowOf(rows[a].key, r.table, e.pk) <==> Owns(rows, r, e, a);
  }

  // ---- The whole scan ----

  /** What has been listed when the cursor is at p: every entry whose rows lie before p, each once, by
      ascending key. */
  ghost predicate Listed(rows: seq<Row>, r: Range, out: seq<Entry>, p: nat) {
    && (forall n :: 0 <= n < |out| ==> Visible(rows, r, out[n]) && forall i :: Owns(rows, r, out[n], i) ==> i < p)
    && (forall n, m :: 0 <= n < m < |out| ==> Less(out[n].pk, out[m].pk))
    && (forall i, e {:trigger Owns(rows, r, e, i)} :: i < p && Owns(rows, r, e, i) && Visible(rows, r, e) ==> e in out)
  }

  lemma LaterKey(rows: seq<Row>, r: Range, x: Entry, e: Entry, a: nat, j: nat)
    requires Sorted(rows) && PrefixFree(rows) && a <= j && Owns(rows, r, e, j)
    requires Holds(rows, r.table, x.pk, x.ts, x.value)
    requires (forall i :: Owns(rows, r, x, i) ==> i < a) && (forall i :: Owns(rows, r, e, i) ==> a <= i)
    ensures Less(x.pk, e.pk)
  {
    var m := HeldAt(rows, r.table, x.pk, x.ts, x.value);
    assert Owns(rows, r, x, m);
    InOrder(rows, m, j);
    if x.pk == e.pk { SameRow(rows, r, x, e, m); }
  }

  lemma ListedNext(rows: seq<Row>, r: Range, out: seq<Entry>, a: nat, p: nat, e: Entry)
    requires Sorted(rows) && PrefixFree(rows) && Listed(rows, r, out, a) && a <= p <= |rows|
    requires Visible(rows, r, e) && (forall i :: Owns(rows, r, e, i) ==> a <= i < p)
    requires (exists i :: a <= i < p && Owns(rows, r, e, i))
    requires forall i, x :: a <= i < p && Owns(rows, r, x, i) && Visible(rows, r, x) ==> x == e
    ensures Listed(rows, r, out + [e], p)
  {
    var j :| a <= j < p && Owns(rows, r, e, j);
    forall n | 0 <= n < |out| ensures Less(out[n].pk, e.pk) { LaterKey(rows, r, out[n], e, a, j); }
    AscendsNext(out, e);
    NothingMissed(rows, r, out, a, p, e);
  }

  lemma AscendsNext(out: seq<Entry>, e: Entry)
    requires forall n, m :: 0 <= n < m < |out| ==> Less(out[n].pk, out[m].pk)
    requires forall n :: 0 <= n < |out| ==> Less(out[n].pk, e.pk)
    ensures var out' := out + [e]; forall n, m :: 0 <= n < m < |out'| ==> Less(out'[n].pk, out'[m].pk)
  {}

  lemma NothingMissed(rows: seq<Row>, r: Range, out: seq<Entry>, a: nat, p: nat, e: Entry)
    requires forall i, x {:trigger Owns(rows, r, x, i)} ::
               i < a && Owns(rows, r, x, i) && Visible(rows, r, x) ==> x in out
    requires forall i, x :: a <= i < p && Owns(rows, r, x, i) && Visible(rows, r, x) ==> x == e
    ensures forall i, x {:trigger Owns(rows, r, x, i)} ::
              i < p && Owns(rows, r, x, i) && Visible(rows, r, x) ==> x in out + [e]
  {}

  lemma SameRow(rows: seq<Row>, r: Range, a: Entry, b: Entry, i: nat)
    requires Owns(rows, r, a, i) && a.pk == b.pk
    ensures Owns(rows, r, b, i)
  {}

  /** The scan lists, by ascending key and once each, exactly the rows in range whose newest version at
      the snapshot is not a tombstone, with that version's timestamp and value; and it ends. */
  method Scan(rows: seq<Row>, range: Range) returns (out: seq<Entry>)
    requires Sorted(rows) && PrefixFree(rows)
    ensures forall n, m :: 0 <= n < m < |out| ==> Less(out[n].pk, out[m].pk)
    ensures forall e :: e in out <==> Visible(rows, range, e)
  {
    out := [];
    var it := new Iterator(rows, range);
    ghost var a := 0;
    while it.valid
      invariant it.Valid() && it.rows == rows && it.range == range && a <= it.pos && it.Found(a)
      invariant Listed(rows, range, out, a)
      decreases |rows| - a
    {
      ListedNext(rows, range, out, a, it.pos, it.current);
      out := out + [it.current];
      a := it.pos;
      it.Next();
    }
    AllListed(rows, range, out, a);
  }

  lemma AllListed(rows: seq<Row>, r: Range, out: seq<Entry>, a: nat)
    requires Listed(rows, r, out, a) && NoneIn(rows, r, a, |rows|)
    ensures forall e :: e in out <==> Visible(rows, r, e)
  {
    forall e | Visible(rows, r, e) ensures e in out {
      var m := HeldAt(rows, r.table, e.pk, e.ts, e.value);
      assert Owns(rows, r, e, m);
    }
  }

  /** Scan and point read agree: a key in range is listed with a timestamp and a value exactly when a
      point read of it sees them. */
  lemma ScanAgreesWithGet(rows: seq<Row>, r: Range, e: Entry)
    requires PrefixFree(rows) && r.Has(e.pk)
    ensures Visible(rows, r, e) <==> Sees(rows, r.table, e.pk, r.snap, e.ts, e.value)
  {
    if Holds(rows, r.table, e.pk, e.ts, e.value) {
      var m := HeldAt(rows, r.table, e.pk, e.ts, e.value);
      forall i | 0 <= i < |rows| ensures KeysApart(rows[i].key, rows[m].key) {}
      assert KeyApart(rows, r.table, e.pk);
      NothingHidden(rows, r.table, e.pk, e.ts);
    }
  }
}
