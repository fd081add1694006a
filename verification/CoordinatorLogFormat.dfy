/** The byte format of the coordinator's log: like the write-ahead log, with a list of shards. */
module CoordinatorLogFormat {
  import opened ByteStrings
  import opened Framing

  datatype CoordRecord = CoordRecord(txn: U64, timestamp: U64, kind: Byte, shards: seq<U32>)

  function Words(ws: seq<U32>): (b: Bytes)
    ensures |b| == 4 * |ws|
  {
    if ws == [] then [] else Le(4, ws[0]) + Words(ws[1..])
  }

  function ReadWords(b: Bytes, n: nat): (ws: seq<U32>)
    requires |b| == 4 * n
    ensures |ws| == n
  {
    if n == 0 then [] else Bound4(b[..4]); [FromLe(b[..4])] + ReadWords(b[4..], n - 1)
  }

  lemma {:induction false} WordsBack(ws: seq<U32>)
    ensures ReadWords(Words(ws), |ws|) == ws
  {
    if ws != [] {
      var b := Words(ws);
      assert b[..4] == Le(4, ws[0]) && b[4..] == Words(ws[1..]);
      Exact32(ws[0]);
      WordsBack(ws[1..]);
    }
  }

  function Fields(r: CoordRecord): Bytes {
    Le(8, r.txn) + Le(8, r.timestamp) + [r.kind] + Le(4, |r.shards|) + Words(r.shards)
  }

  function Encode(crc: Crc, r: CoordRecord): Bytes { AddSize(Checked(crc, Fields(r))) }

  function ReadBody(crc: Crc, body: Bytes): (r: Option<CoordRecord>)
    ensures r.Some? ==> |body| == 25 + 4 * |r.value.shards|
  {
    var n := |body|;
    if n < 25 || crc(body[..n - 4]) != FromLe(body[n - 4..]) then None
    else
      var count := FromLe(body[17..21]);
      if 21 + 4 * count + 4 != n then None
      else
        Bound8(body[..8]); Bound8(body[8..16]);
        Some(CoordRecord(FromLe(body[..8]), FromLe(body[8..16]), body[16], ReadWords(body[21..n - 4], count)))
  }

  function Body(crc: Crc): Bytes -> Option<CoordRecord> { (b: Bytes) => ReadBody(crc, b) }

  function One(crc: Crc): Reader<CoordRecord> { Sized(25, Body(crc)) }

  function Encoder(crc: Crc): CoordRecord -> Bytes { (r: CoordRecord) => Encode(crc, r) }

  predicate Fits(r: CoordRecord) { 25 + 4 * |r.shards| < 0x1_0000_0000 }

  lemma FieldsAt(r: CoordRecord)
    ensures var f := Fields(r);
            && |f| == 21 + 4 * |r.shards| && f[..8] == Le(8, r.txn) && f[8..16] == Le(8, r.timestamp) && f[16] == r.kind
            && f[17..21] == Le(4, |r.shards|) && f[21..] == Words(r.shards)
  {}

  /** Where everything is: length, transaction, time, type, number of shards, shards, checksum. */
  lemma RecordLayout(crc: Crc, r: CoordRecord)
    ensures var b, n := Encode(crc, r), 4 * |r.shards|;
            && |b| == 29 + n && b[..4] == Le(4, n + 25) && b[4..12] == Le(8, r.txn) && b[12..20] == Le(8, r.timestamp)
            && b[20] == r.kind && b[21..25] == Le(4, |r.shards|) && b[25..25 + n] == Words(r.shards)
            && b[25 + n..] == Le(4, crc(b[4..25 + n]))
  {
    var f, b := Fields(r), Encode(crc, r);
    FieldsAt(r);
    CheckedAt(crc, f);
    assert b == Le(4, |f| + 4) + (f + Le(4, crc(f)));
    Pieces(b, Le(4, |f| + 4), f, Le(4, crc(f)));
  }

  lemma {:induction false} WordAt(ws: seq<U32>, i: nat)
    requires i < |ws|
    ensures Words(ws)[4 * i..4 * i + 4] == Le(4, ws[i])
  {
    if i > 0 {
      WordAt(ws[1..], i - 1);
      var rest := Words(ws[1..]);
      assert Words(ws)[4..] == rest;
      assert Words(ws)[4 * i..4 * i + 4] == rest[4 * (i - 1)..4 * (i - 1) + 4];
    }
  }

  lemma BodyBack(crc: Crc, r: CoordRecord)
    requires Fits(r)
    ensures ReadBody(crc, Checked(crc, Fields(r))) == Some(r)
  {
    var f := Fields(r);
    FieldsAt(r);
    CheckedAt(crc, f);
    Exact32(|r.shards|); Exact32(crc(f)); Exact64(r.txn); Exact64(r.timestamp);
    WordsBack(r.shards);
  }

  lemma Readable(crc: Crc, r: CoordRecord)
    requires Fits(r)
    ensures Reads(One(crc), Encoder(crc), r)
  {
    FieldsAt(r);
    BodyBack(crc, r);
    var x := Checked(crc, Fields(r));
    forall tail: Bytes { SizedBack(25, Body(crc), x, tail); }
  }

  /** A record reads back exactly when its length fits in 32 bits. */
  lemma ReadsBackIff(crc: Crc, r: CoordRecord)
    ensures Parse(One(crc), Encode(crc, r)) == [r] <==> Fits(r)
  {
    FieldsAt(r);
    if Fits(r) { BodyBack(crc, r); }
    SizedIff(25, Body(crc), Checked(crc, Fields(r)), r);
  }

  /** The coordinator's log survives a cut at any byte. */
  lemma TornCoordinatorLog(crc: Crc, rs: seq<CoordRecord>, m: nat)
    requires (forall i :: 0 <= i < |rs| ==> Fits(rs[i])) && m <= |EncodeAll(Encoder(crc), rs)|
    ensures Parse(One(crc), EncodeAll(Encoder(crc), rs)[..m]) == rs[..Whole(Encoder(crc), rs, m)]
  {
    SizedIsFramed(25, Body(crc));
    forall i | 0 <= i < |rs| ensures Reads(One(crc), Encoder(crc), rs[i]) { Readable(crc, rs[i]); }
    TornTail(One(crc), Encoder(crc), rs, m);
  }

  method Replay(crc: Crc, data: Bytes) returns (records: seq<CoordRecord>)
    ensures records == Parse(One(crc), data)
  {
    var rs, _ := ParseSized(25, Body(crc), (r: CoordRecord) => 0, data);
    records := rs;
  }

  /** For any bytes at all: a prefix of the file parses to a prefix of what the file parses to. */
  lemma PrefixOfFile(crc: Crc, file: Bytes, m: nat)
    requires m <= |file|
    ensures Parse(One(crc), file[..m]) <= Parse(One(crc), file)
  {
    SizedIsFramed(25, Body(crc));
    PrefixParse(One(crc), file, m);
  }

  lemma {:induction false} WordsAppend(ws: seq<U32>, w: U32)
    ensures Words(ws + [w]) == Words(ws) + Le(4, w)
  {
    if ws == [] {
      assert [w][1..] == [];
    } else {
      WordsAppend(ws[1..], w);
      assert (ws + [w])[1..] == ws[1..] + [w];
      Regroup(Le(4, ws[0]), Words(ws[1..]), Le(4, w));
    }
  }

  lemma Regroup(a: Bytes, b: Bytes, c: Bytes)
    ensures a + (b + c) == (a + b) + c
  {}

  method AppendWords(dst: Bytes, ws: seq<U32>) returns (b: Bytes)
    ensures b == dst + Words(ws)
  {
    b := dst;
    for i := 0 to |ws|
      invariant b == dst + Words(ws[..i])
    {
      assert ws[..i + 1] == ws[..i] + [ws[i]];
      WordsAppend(ws[..i], ws[i]);
      Regroup(dst, Words(ws[..i]), Le(4, ws[i]));
      b := AppendLe(b, 4, ws[i]);
    }
    assert ws[..|ws|] == ws;
  }

  method WriteRecord(crc: Crc, r: CoordRecord) returns (b: Bytes)
    ensures b == Encode(crc, r)
  {
    var body := AppendLe([], 8, r.txn);
    assert body == Le(8, r.txn);
    body := AppendLe(body, 8, r.timestamp);
    body := body + [r.kind];
    body := AppendLe(body, 4, |r.shards|);
    body := AppendWords(body, r.shards);
    assert body == Fields(r);
    body := AppendLe(body, 4, crc(body));
    b := AppendLe([], 4, |body|);
    assert b == Le(4, |body|);
    b := b + body;
  }
}
