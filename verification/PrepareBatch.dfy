/** The payload of a prepare-batch entry: ids, timestamps and the transaction's writes. */
module PrepareBatch {
  import opened ByteStrings
  import opened Framing
  import opened Cursor

  datatype BatchWrite = BatchWrite(isDelete: bool, table: U32, key: Bytes, value: Bytes)
  datatype Payload = Payload(txn: U64, snapshot: U64, commitTs: U64, writes: seq<BatchWrite>)

  function PackWrite(w: BatchWrite): Bytes {
    [if w.isDelete then 1 else 0] + (Le(4, w.table) + (AddSize(w.key) + AddSize(w.value)))
  }

  function Packer(): BatchWrite -> Bytes { (w: BatchWrite) => PackWrite(w) }

  function PackWrites(ws: seq<BatchWrite>): Bytes { EncodeAll(Packer(), ws) }

  function Pack(p: Payload): Bytes {
    Le(8, p.txn) + (Le(8, p.snapshot) + (Le(8, p.commitTs) + (Le(4, |p.writes|) + PackWrites(p.writes))))
  }

  function TakeWrite(b: Bytes): Option<(BatchWrite, Bytes)> {
    if b == [] then None else TakeTable(b[0] != 0, b[1..])
  }

  function TakeTable(isDelete: bool, b: Bytes): Option<(BatchWrite, Bytes)> {
    match Take32(b)
    case None => None
    case Some((table, rest)) => TakeKey(isDelete, table, rest)
  }

  function TakeKey(isDelete: bool, table: U32, b: Bytes): Option<(BatchWrite, Bytes)> {
    match TakeBytes(b)
    case None => None
    case Some((key, rest)) => TakeValue(isDelete, table, key, rest)
  }

  function TakeValue(isDelete: bool, table: U32, key: Bytes, b: Bytes): Option<(BatchWrite, Bytes)> {
    match TakeBytes(b)
    case None => None
    case Some((value, rest)) => Some((BatchWrite(isDelete, table, key, value), rest))
  }

  function Taking(): Taker<BatchWrite> { (b: Bytes) => TakeWrite(b) }

  function Fitting(): BatchWrite -> bool { (w: BatchWrite) => WriteFits(w) }

  predicate WriteFits(w: BatchWrite) { |w.key| < 0x1_0000_0000 && |w.value| < 0x1_0000_0000 }

  /** Taken back as it was, or not at all. */
  ghost predicate Took(x: Option<(BatchWrite, Bytes)>, w: BatchWrite, tail: Bytes) {
    if WriteFits(w) then x == Some((w, tail)) else x.Some? ==> x.value.0 != w
  }

  lemma TookValue(w: BatchWrite, tail: Bytes)
    ensures Took(TakeValue(w.isDelete, w.table, w.key, AddSize(w.value) + tail), w, tail) || |w.key| >= 0x1_0000_0000
  {
    TookBytes(w.value, tail);
  }

  /** A key that is not taken back makes another write. */
  lemma OtherKey(isDelete: bool, table: U32, key: Bytes, b: Bytes, w: BatchWrite)
    requires key != w.key
    ensures TakeValue(isDelete, table, key, b).Some? ==> TakeValue(isDelete, table, key, b).value.0 != w
  {}

  lemma TookKey(w: BatchWrite, tail: Bytes)
    ensures Took(TakeKey(w.isDelete, w.table, AddSize(w.key) + (AddSize(w.value) + tail)), w, tail)
  {
    var rest := AddSize(w.value) + tail;
    TookBytes(w.key, rest);
    TookValue(w, tail);
    if |w.key| >= 0x1_0000_0000 && TakeBytes(AddSize(w.key) + rest).Some? {
      var (key, b) := TakeBytes(AddSize(w.key) + rest).value;
      OtherKey(w.isDelete, w.table, key, b, w);
    }
  }

  lemma TookTable(w: BatchWrite, tail: Bytes)
    ensures Took(TakeTable(w.isDelete, Le(4, w.table) + (AddSize(w.key) + (AddSize(w.value) + tail))), w, tail)
  {
    Took32(w.table, AddSize(w.key) + (AddSize(w.value) + tail));
    TookKey(w, tail);
  }

  lemma TookWrite(w: BatchWrite, tail: Bytes)
    ensures Took(TakeWrite(PackWrite(w) + tail), w, tail)
  {
    var flag: Bytes := [if w.isDelete then 1 else 0];
    var rest := Le(4, w.table) + (AddSize(w.key) + (AddSize(w.value) + tail));
    Regroup(flag, Le(4, w.table), AddSize(w.key), AddSize(w.value), tail);
    assert (flag + rest)[1..] == rest && (flag + rest)[0] == flag[0];
    TookTable(w, tail);
  }

  lemma Regroup(a: Bytes, b: Bytes, c: Bytes, d: Bytes, e: Bytes)
    ensures a + (b + (c + d)) + e == a + (b + (c + (d + e)))
  {}

  lemma WritesUndone()
    ensures Undoes(Taking(), Packer(), Fitting())
  {
    forall w: BatchWrite, tail: Bytes { TookWrite(w, tail); }
  }

  function Unpack(b: Bytes): Option<Payload> {
    if |b| < 28 then None
    else
      match TakeMany(Taking(), FromLe(b[24..28]), b[28..])
      case None => None
      case Some(ws) =>
        Bound8(b[..8]); Bound8(b[8..16]); Bound8(b[16..24]);
        Some(Payload(FromLe(b[..8]), FromLe(b[8..16]), FromLe(b[16..24]), ws))
  }

  predicate Fits(p: Payload) {
    |p.writes| < 0x1_0000_0000 && forall i :: 0 <= i < |p.writes| ==> WriteFits(p.writes[i])
  }

  lemma HeadAt(p: Payload)
    ensures var b := Pack(p);
            && |b| >= 28 && b[..8] == Le(8, p.txn) && b[8..16] == Le(8, p.snapshot) && b[16..24] == Le(8, p.commitTs)
            && b[24..28] == Le(4, |p.writes|) && b[28..] == PackWrites(p.writes)
  {
    FiveParts(Le(8, p.txn), Le(8, p.snapshot), Le(8, p.commitTs), Le(4, |p.writes|), PackWrites(p.writes));
  }

  lemma FiveParts(a: Bytes, b: Bytes, c: Bytes, d: Bytes, e: Bytes)
    requires |a| == 8 && |b| == 8 && |c| == 8 && |d| == 4
    ensures var x := a + (b + (c + (d + e)));
            |x| >= 28 && x[..8] == a && x[8..16] == b && x[16..24] == c && x[24..28] == d && x[28..] == e
  {}

  /** A batch reads back exactly when the number of writes and all lengths fit in 32 bits. */
  lemma UnpackPackIff(p: Payload)
    ensures Unpack(Pack(p)) == Some(p) <==> Fits(p)
  {
    HeadAt(p);
    Exact64(p.txn); Exact64(p.snapshot); Exact64(p.commitTs);
    WritesUndone();
    CountedIff(Taking(), Packer(), Fitting(), p.writes);
  }

  method UnpackPayload(b: Bytes) returns (r: Option<Payload>)
    ensures r == Unpack(b)
  {
    if |b| < 28 { return None; }
    var ws := UnpackMany(Taking(), FromLe(b[24..28]), b[28..]);
    if ws.None? { return None; }
    Bound8(b[..8]); Bound8(b[8..16]); Bound8(b[16..24]);
    r := Some(Payload(FromLe(b[..8]), FromLe(b[8..16]), FromLe(b[16..24]), ws.value));
  }
}
