/** The byte format of the write-ahead log: a length, the fields, the payload and a checksum. */
module WalFormat {
  import opened ByteStrings
  import opened Framing

  datatype WalRecord = WalRecord(lsn: U64, txn: U64, kind: Byte, payload: Bytes)

  /** The fields in front of the checksum. The payload length is cut to 32 bits. */
  function Fields(r: WalRecord): Bytes {
    Le(8, r.lsn) + Le(8, r.txn) + [r.kind] + Le(4, |r.payload|) + r.payload
  }

  function Encode(crc: Crc, r: WalRecord): Bytes { AddSize(Checked(crc, Fields(r))) }

  function ReadBody(crc: Crc, body: Bytes): Option<WalRecord> {
    var n := |body|;
    if n < 25 || FromLe(body[17..21]) != n - 25 then None
    else if crc(body[..n - 4]) != FromLe(body[n - 4..]) then None
    else
      Bound8(body[..8]); Bound8(body[8..16]);
      Some(WalRecord(FromLe(body[..8]), FromLe(body[8..16]), body[16], body[21..n - 4]))
  }

  function Body(crc: Crc): Bytes -> Option<WalRecord> { (b: Bytes) => ReadBody(crc, b) }

  function One(crc: Crc): Reader<WalRecord> { Sized(25, Body(crc)) }

  function Encoder(crc: Crc): WalRecord -> Bytes { (r: WalRecord) => Encode(crc, r) }

  /** A record whose length fits in 32 bits. */
  predicate Fits(r: WalRecord) { |r.payload| + 25 < 0x1_0000_0000 }

  lemma FieldsAt(r: WalRecord)
    ensures var f := Fields(r);
            && |f| == 21 + |r.payload| && f[..8] == Le(8, r.lsn) && f[8..16] == Le(8, r.txn) && f[16] == r.kind
            && f[17..21] == Le(4, |r.payload|) && f[21..] == r.payload
  {}

  lemma BodyBack(crc: Crc, r: WalRecord)
    requires Fits(r)
    ensures ReadBody(crc, Checked(crc, Fields(r))) == Some(r)
  {
    var f := Fields(r);
    FieldsAt(r);
    CheckedAt(crc, f);
    Exact32(|r.payload|); Exact32(crc(f)); Exact64(r.lsn); Exact64(r.txn);
  }

  lemma Readable(crc: Crc, r: WalRecord)
    requires Fits(r)
    ensures Reads(One(crc), Encoder(crc), r)
  {
    FieldsAt(r);
    BodyBack(crc, r);
    var x := Checked(crc, Fields(r));
    forall tail: Bytes { SizedBack(25, Body(crc), x, tail); }
  }

  /** A body that decodes is the body that is written for the record. */
  lemma BodyTells(crc: Crc, x: Bytes)
    requires ReadBody(crc, x).Some?
    ensures var r := ReadBody(crc, x).value; x == Checked(crc, Fields(r)) && |x| == |r.payload| + 25
  {
    var n, r := |x|, ReadBody(crc, x).value;
    LeBack(x[..8]); LeBack(x[8..16]); LeBack(x[17..21]); LeBack(x[n - 4..]);
    FieldParts(x, r.payload, n);
    assert Fields(r) == x[..n - 4];
  }

  lemma FieldParts(x: Bytes, payload: Bytes, n: nat)
    requires n == |x| >= 25 && payload == x[21..n - 4]
    ensures x[..8] + x[8..16] + [x[16]] + x[17..21] + payload == x[..n - 4]
    ensures x[..n - 4] + x[n - 4..] == x
  {}

  /** The reader finds a record in front exactly if its length fits and its bytes are in front. */
  lemma InFront(crc: Crc, r: WalRecord)
    ensures Tells(One(crc), Encoder(crc), Fits(r), r)
  {
    var e := Encode(crc, r);
    forall b: Bytes ensures
      && ((One(crc)(b).Some? && One(crc)(b).value.0 == r) <==> (Fits(r) && e <= b))
      && (One(crc)(b).Some? && One(crc)(b).value.0 == r ==> One(crc)(b).value.1 == |e| > 0)
    {
      if Fits(r) && e <= b { WrittenInFront(crc, r, b); }
      if One(crc)(b).Some? && One(crc)(b).value.0 == r { FoundInFront(crc, r, b); }
    }
  }

  lemma WrittenInFront(crc: Crc, r: WalRecord, b: Bytes)
    requires Fits(r) && Encode(crc, r) <= b
    ensures One(crc)(b) == Some((r, |Encode(crc, r)|))
  {
    Readable(crc, r);
    var e := Encode(crc, r);
    assert b == Encoder(crc)(r) + b[|e|..];
  }

  lemma FoundInFront(crc: Crc, r: WalRecord, b: Bytes)
    requires One(crc)(b).Some? && One(crc)(b).value.0 == r
    ensures Fits(r) && Encode(crc, r) <= b && One(crc)(b).value.1 == |Encode(crc, r)|
  {
    var n := FromLe(b[..4]);
    Bound4(b[..4]);
    LeBack(b[..4]);
    BodyTells(crc, b[4..4 + n]);
    assert b[..4] + b[4..4 + n] == b[..4 + n];
  }

  /** A record reads back exactly when its length fits in 32 bits. */
  lemma ReadsBackIff(crc: Crc, r: WalRecord)
    ensures Parse(One(crc), Encode(crc, r)) == [r] <==> Fits(r)
  {
    FieldsAt(r);
    if Fits(r) { BodyBack(crc, r); }
    SizedIff(25, Body(crc), Checked(crc, Fields(r)), r);
  }

  /** The write-ahead log survives a cut at any byte: what is read are the records wholly inside. */
  lemma TornWal(crc: Crc, rs: seq<WalRecord>, m: nat)
    requires (forall i :: 0 <= i < |rs| ==> Fits(rs[i])) && m <= |EncodeAll(Encoder(crc), rs)|
    ensures Parse(One(crc), EncodeAll(Encoder(crc), rs)[..m]) == rs[..Whole(Encoder(crc), rs, m)]
  {
    SizedIsFramed(25, Body(crc));
    forall i | 0 <= i < |rs| ensures Reads(One(crc), Encoder(crc), rs[i]) { Readable(crc, rs[i]); }
    TornTail(One(crc), Encoder(crc), rs, m);
  }

  function Lsn(): WalRecord -> nat { (r: WalRecord) => r.lsn }

  /** Replay and Open: the records, and the largest log sequence number, which the next append follows. */
  method ParseRecords(crc: Crc, data: Bytes) returns (records: seq<WalRecord>, maxLsn: nat)
    ensures records == Parse(One(crc), data) && IsMax(Lsn(), records, maxLsn)
  {
    records, maxLsn := ParseSized(25, Body(crc), Lsn(), data);
  }

  /** For any bytes at all: a prefix of the file parses to a prefix of what the file parses to. */
  lemma PrefixOfFile(crc: Crc, file: Bytes, m: nat)
    requires m <= |file|
    ensures Parse(One(crc), file[..m]) <= Parse(One(crc), file)
  {
    SizedIsFramed(25, Body(crc));
    PrefixParse(One(crc), file, m);
  }

  /** Where everything is: length, number, transaction, type, payload length, payload, checksum. */
  lemma RecordLayout(crc: Crc, r: WalRecord)
    ensures var b, n := Encode(crc, r), |r.payload|;
            && |b| == 29 + n && b[..4] == Le(4, n + 25) && b[4..12] == Le(8, r.lsn) && b[12..20] == Le(8, r.txn)
            && b[20] == r.kind && b[21..25] == Le(4, n) && b[25..25 + n] == r.payload
            && b[25 + n..] == Le(4, crc(b[4..25 + n]))
  {
    var f, b := Fields(r), Encode(crc, r);
    FieldsAt(r);
    CheckedAt(crc, f);
    assert b == Le(4, |f| + 4) + (f + Le(4, crc(f)));
    Pieces(b, Le(4, |f| + 4), f, Le(4, crc(f)));
  }

  method WriteRecord(crc: Crc, r: WalRecord) returns (b: Bytes)
    ensures b == Encode(crc, r)
  {
    var body := AppendLe([], 8, r.lsn);
    assert body == Le(8, r.lsn);
    body := AppendLe(body, 8, r.txn);
    body := body + [r.kind];
    body := AppendLe(body, 4, |r.payload|);
    body := body + r.payload;
    assert body == Fields(r);
    body := AppendLe(body, 4, crc(body));
    b := AppendLe([], 4, |body|);
    assert b == Le(4, |body|);
    b := b + body;
  }
}
