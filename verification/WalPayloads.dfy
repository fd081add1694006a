/** The payloads of write-ahead log records, and the log of a run as bytes: whatever part of it a crash
    leaves on disk decodes to a prefix of the records. */
module WalPayloads {
  import opened ByteStrings
  import opened Framing
  import opened Cursor
  import W = WalFormat
  import M = TxnModel

  // ---- Write and delete payloads ----

  datatype WriteInfo = WriteInfo(table: U32, key: Bytes, value: Bytes, ts: U64)
  datatype DeleteInfo = DeleteInfo(table: U32, key: Bytes, ts: U64)

  function SerializeWrite(w: WriteInfo): Bytes { Le(4, w.table) + (AddSize(w.key) + (AddSize(w.value) + Le(8, w.ts))) }

  function SerializeDelete(d: DeleteInfo): Bytes { Le(4, d.table) + (AddSize(d.key) + Le(8, d.ts)) }

  function DeserializeWrite(b: Bytes): Option<WriteInfo> {
    match Take32(b)
    case None => None
    case Some((table, rest)) => DeserializeKey(table, rest)
  }

  function DeserializeKey(table: U32, b: Bytes): Option<WriteInfo> {
    match TakeBytes(b)
    case None => None
    case Some((key, rest)) => DeserializeValue(table, key, rest)
  }

  function DeserializeValue(table: U32, key: Bytes, b: Bytes): Option<WriteInfo> {
    match TakeBytes(b)
    case None => None
    case Some((value, b3)) =>
      match Take64(b3)
      case None => None
      case Some((ts, b4)) => if b4 != [] then None else Some(WriteInfo(table, key, value, ts))
  }

  function DeserializeDelete(b: Bytes): Option<DeleteInfo> {
    match Take32(b)
    case None => None
    case Some((table, b1)) =>
      match TakeBytes(b1)
      case None => None
      case Some((key, b2)) =>
        match Take64(b2)
        case None => None
        case Some((ts, b3)) => if b3 != [] then None else Some(DeleteInfo(table, key, ts))
  }

  lemma ValueBack(w: WriteInfo)
    ensures DeserializeValue(w.table, w.key, AddSize(w.value) + Le(8, w.ts)) == Some(w) <==> |w.value| < 0x1_0000_0000
  {
    TookBytes(w.value, Le(8, w.ts));
    Took64(w.ts, []);
    assert Le(8, w.ts) + [] == Le(8, w.ts);
  }

  lemma KeyBack(w: WriteInfo)
    ensures DeserializeKey(w.table, AddSize(w.key) + (AddSize(w.value) + Le(8, w.ts))) == Some(w) <==>
            |w.key| < 0x1_0000_0000 && |w.value| < 0x1_0000_0000
  {
    TookBytes(w.key, AddSize(w.value) + Le(8, w.ts));
    ValueBack(w);
  }

  /** A write payload reads back exactly when key and value are shorter than 2^32. */
  lemma WriteBack(w: WriteInfo)
    ensures DeserializeWrite(SerializeWrite(w)) == Some(w) <==> |w.key| < 0x1_0000_0000 && |w.value| < 0x1_0000_0000
  {
    var rest := AddSize(w.key) + (AddSize(w.value) + Le(8, w.ts));
    TookWord(w.table, rest);
    TableBack(Le(4, w.table) + rest, w.table, rest);
    KeyBack(w);
  }

  lemma TableBack(b: Bytes, table: U32, rest: Bytes)
    requires Take32(b) == Some((table, rest))
    ensures DeserializeWrite(b) == DeserializeKey(table, rest)
  {}

  lemma DeleteBack(d: DeleteInfo)
    ensures DeserializeDelete(SerializeDelete(d)) == Some(d) <==> |d.key| < 0x1_0000_0000
  {
    var b2 := Le(8, d.ts);
    Took32(d.table, AddSize(d.key) + b2);
    TookBytes(d.key, b2);
    Took64(d.ts, []);
    assert b2 + [] == b2;
  }

  // ---- The records of the transaction machine ----

  predicate KindFits(kind: M.Kind) {
    match kind
    case Begin(snapshot) => snapshot < 0x1_0000_0000_0000_0000
    case Put(w) => w.key.table < 0x1_0000_0000
        && |w.key.pk| + (if w.value.Some? then |w.value.value| else 0) + 45 < 0x1_0000_0000
    case Prepare(ts) => ts < 0x1_0000_0000_0000_0000
    case Commit(ts) => ts < 0x1_0000_0000_0000_0000
    case Abort => true
  }

  /** The type byte of a record. */
  function Code(kind: M.Kind): Byte {
    match kind
    case Begin(_) => 1
    case Put(w) => if w.value.Some? then 2 else 3
    case Prepare(_) => 4
    case Commit(_) => 5
    case Abort => 6
  }

  /** A delete is a write without a value; nothing else shares a type. */
  lemma CodeIs(kind: M.Kind)
    ensures Code(kind) == 1 <==> kind.Begin?
    ensures Code(kind) == 2 <==> kind.Put? && kind.write.value.Some?
    ensures Code(kind) == 3 <==> kind.Put? && kind.write.value.None?
    ensures Code(kind) == 4 <==> kind.Prepare?
    ensures Code(kind) == 5 <==> kind.Commit?
    ensures Code(kind) == 6 <==> kind.Abort?
  {}

  function Payload(kind: M.Kind): Bytes
    requires KindFits(kind)
  {
    match kind
    case Begin(snapshot) => Le(8, snapshot)
    case Put(w) =>
      if w.value.Some? then SerializeWrite(WriteInfo(w.key.table, w.key.pk, w.value.value, 0))
      else SerializeDelete(DeleteInfo(w.key.table, w.key.pk, 0))
    case Prepare(ts) => Le(8, ts)
    case Commit(ts) => Le(8, ts)
    case Abort => []
  }

  /** What recovery makes of a record; None stands for a payload it reports as bad or a type it skips. */
  function Decode(code: Byte, b: Bytes): Option<M.Kind> {
    if code == 2 then
      match DeserializeWrite(b)
      case None => None
      case Some(w) => Some(M.Put(M.Write(Key(w.table, w.key), Some(w.value))))
    else if code == 3 then
      match DeserializeDelete(b)
      case None => None
      case Some(d) => Some(M.Put(M.Write(Key(d.table, d.key), None)))
    else if code == 6 then Some(M.Abort)
    else if |b| != 8 then None
    else if code == 1 then Some(M.Begin(FromLe(b)))
    else if code == 4 then Some(M.Prepare(FromLe(b)))
    else if code == 5 then Some(M.Commit(FromLe(b)))
    else None
  }

  lemma KindBack(kind: M.Kind)
    requires KindFits(kind)
    ensures Decode(Code(kind), Payload(kind)) == Some(kind) && |Payload(kind)| + 25 < 0x1_0000_0000
  {
    match kind
    case Begin(snapshot) => Exact64(snapshot);
    case Put(w) =>
      if w.value.Some? { WriteBack(WriteInfo(w.key.table, w.key.pk, w.value.value, 0)); }
      else { DeleteBack(DeleteInfo(w.key.table, w.key.pk, 0)); }
    case Prepare(ts) => Exact64(ts);
    case Commit(ts) => Exact64(ts);
    case Abort =>
  }

  predicate AllFit(wal: seq<M.Record>) {
    |wal| < 0xFFFF_FFFF_FFFF_FFFF && forall i :: 0 <= i < |wal| ==>
        wal[i].txn < 0x1_0000_0000_0000_0000 && KindFits(wal[i].kind)
  }

  /** The log as it is written: sequence numbers from 1. */
  function OnDisk(wal: seq<M.Record>): seq<W.WalRecord>
    requires AllFit(wal)
  {
    seq(|wal|, i requires 0 <= i < |wal| => W.WalRecord(i + 1, wal[i].txn, Code(wal[i].kind), Payload(wal[i].kind)))
  }

  /** A crash that cuts the log file anywhere leaves a prefix of the records: the file parses to the
      records wholly inside it, and each decodes to the record that was logged. */
  lemma CutLogIsPrefix(crc: Crc, wal: seq<M.Record>, m: nat)
    requires AllFit(wal) && m <= |EncodeAll(W.Encoder(crc), OnDisk(wal))|
    ensures var rs := Parse(W.One(crc), EncodeAll(W.Encoder(crc), OnDisk(wal))[..m]);
            && |rs| == Whole(W.Encoder(crc), OnDisk(wal), m) <= |wal|
            && forall i :: 0 <= i < |rs| ==>
                 rs[i].lsn == i + 1 && rs[i].txn == wal[i].txn && Decode(rs[i].kind, rs[i].payload) == Some(wal[i].kind)
  {
    var rs := OnDisk(wal);
    forall i | 0 <= i < |rs|
      ensures W.Fits(rs[i]) && Decode(rs[i].kind, rs[i].payload) == Some(wal[i].kind)
    { KindBack(wal[i].kind); }
    W.TornWal(crc, rs, m);
  }
}
