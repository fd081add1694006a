/** The byte format of the Raft log: a fixed header with the payload length, and the payload. */
module RaftLogFormat {
  import opened ByteStrings
  import opened Framing

  datatype StoredEntry = StoredEntry(index: U64, term: U64, kind: Byte, payload: Bytes)

  function Header(e: StoredEntry): Bytes {
    Le(8, e.index) + Le(8, e.term) + [e.kind] + Le(4, |e.payload|)
  }

  function Encode(e: StoredEntry): Bytes { Header(e) + e.payload }

  function ReadOne(b: Bytes): Option<(StoredEntry, nat)> {
    if |b| < 21 then None
    else
      var n := FromLe(b[17..21]);
      if 21 + n > |b| then None
      else
        Bound8(b[..8]); Bound8(b[8..16]);
        Some((StoredEntry(FromLe(b[..8]), FromLe(b[8..16]), b[16], b[21..21 + n]), 21 + n))
  }

  function One(): Reader<StoredEntry> { (b: Bytes) => ReadOne(b) }

  function Encoder(): StoredEntry -> Bytes { (e: StoredEntry) => Encode(e) }

  lemma ReaderIsFramed()
    ensures Framed(One())
  {
    forall b: Bytes, m: nat | m <= |b| ensures Cut(One(), b, m) {
      if m >= 21 {
        var c := b[..m];
        assert c[..8] == b[..8] && c[8..16] == b[8..16] && c[17..21] == b[17..21];
        var n := FromLe(b[17..21]);
        if 21 + n <= m { assert c[21..21 + n] == b[21..21 + n]; }
      }
    }
  }

  predicate Fits(e: StoredEntry) { |e.payload| < 0x1_0000_0000 }

  lemma HeaderAt(e: StoredEntry, tail: Bytes)
    ensures var b := Encode(e) + tail;
            && |Header(e)| == 21 && b[..8] == Le(8, e.index) && b[8..16] == Le(8, e.term) && b[16] == e.kind
            && b[17..21] == Le(4, |e.payload|) && b[21..] == e.payload + tail
  {
    assert Encode(e) + tail == Header(e) + (e.payload + tail);
  }

  lemma Readable(e: StoredEntry)
    requires Fits(e)
    ensures Reads(One(), Encoder(), e)
  {
    var n: nat := |Encode(e)|;
    forall tail: Bytes ensures ReadOne(Encode(e) + tail) == Some((e, n)) {
      var b := Encode(e) + tail;
      HeaderAt(e, tail);
      Exact32(|e.payload|); Exact64(e.index); Exact64(e.term);
      assert b[21..21 + |e.payload|] == b[21..][..|e.payload|] == e.payload;
    }
  }

  /** An entry reads back exactly when its payload length fits in 32 bits. */
  lemma ReadsBackIff(e: StoredEntry)
    ensures Parse(One(), Encode(e)) == [e] <==> Fits(e)
  {
    var b := Encode(e);
    if Fits(e) {
      Readable(e);
      assert b + [] == b && b[|b|..] == [];
      assert ReadOne(Encode(e) + []) == Some((e, |b|)) by { assert One()(Encoder()(e) + []) == Some((e, |b|)); }
      assert ReadOne([]) == None;
    } else {
      HeaderAt(e, []);
      assert b + [] == b;
      Fits32(|e.payload|);
      assert ReadOne(b).Some? ==> |ReadOne(b).value.0.payload| != |e.payload|;
      assert Parse(One(), b) != [] ==> Parse(One(), b)[0] != e;
    }
  }

  /** The Raft log survives a cut at any byte. */
  lemma TornRaftLog(es: seq<StoredEntry>, m: nat)
    requires (forall i :: 0 <= i < |es| ==> Fits(es[i])) && m <= |EncodeAll(Encoder(), es)|
    ensures Parse(One(), EncodeAll(Encoder(), es)[..m]) == es[..Whole(Encoder(), es, m)]
  {
    ReaderIsFramed();
    forall i | 0 <= i < |es| ensures Reads(One(), Encoder(), es[i]) { Readable(es[i]); }
    TornTail(One(), Encoder(), es, m);
  }

  /** One turn of the load loop. */
  lemma EntryAt(data: Bytes, off: nat)
    requires off <= |data|
    ensures if off + 21 > |data| || off + 21 + FromLe(data[off + 17..off + 21]) > |data|
            then Parse(One(), data[off..]) == []
            else
              var n := FromLe(data[off + 17..off + 21]);
              && FromLe(data[off..off + 8]) < 0x1_0000_0000_0000_0000
              && FromLe(data[off + 8..off + 16]) < 0x1_0000_0000_0000_0000
              && Parse(One(), data[off..]) ==
                   [StoredEntry(FromLe(data[off..off + 8]), FromLe(data[off + 8..off + 16]), data[off + 16],
                       data[off + 21..off + 21 + n])]
                   + Parse(One(), data[off + 21 + n..])
  {
    var b := data[off..];
    if off + 21 <= |data| {
      assert b[..8] == data[off..off + 8] && b[8..16] == data[off + 8..off + 16]
        && b[17..21] == data[off + 17..off + 21];
      var n := FromLe(data[off + 17..off + 21]);
      Bound8(b[..8]); Bound8(b[8..16]);
      if off + 21 + n <= |data| {
        assert b[21..21 + n] == data[off + 21..off + 21 + n];
        assert b[21 + n..] == data[off + 21 + n..];
      }
    }
  }

  method NextEntry(data: Bytes, off: nat) returns (x: Option<(StoredEntry, nat)>)
    requires off <= |data|
    ensures x.None? ==> Parse(One(), data[off..]) == []
    ensures x.Some? ==>
              var p := Parse(One(), data[off..]);
              off < x.value.1 <= |data| && p != [] && p[0] == x.value.0 && p[1..] == Parse(One(), data[x.value.1..])
  {
    EntryAt(data, off);
    if off + 21 > |data| { return None; }
    var n := FromLe(data[off + 17..off + 21]);
    if off + 21 + n > |data| { return None; }
    x := Some((StoredEntry(FromLe(data[off..off + 8]), FromLe(data[off + 8..off + 16]), data[off + 16],
        data[off + 21..off + 21 + n]), off + 21 + n));
  }

  method Load(data: Bytes) returns (entries: seq<StoredEntry>)
    ensures entries == Parse(One(), data)
  {
    entries := [];
    var off := 0;
    assert data[off..] == data;
    ghost var all := Parse(One(), data);
    while true
      invariant 0 <= off <= |data| && |entries| <= |all| && Parse(One(), data[off..]) == all[|entries|..]
      invariant entries == all[..|entries|]
      decreases |data| - off
    {
      var x := NextEntry(data, off);
      if x.None? { break; }
      assert all[|entries|..][0] == x.value.0 && all[|entries|..][1..] == all[|entries| + 1..];
      entries := entries + [x.value.0];
      off := x.value.1;
    }
  }

  /** For any bytes at all: a prefix of the file loads to a prefix of what the file loads to. */
  lemma PrefixOfFile(file: Bytes, m: nat)
    requires m <= |file|
    ensures Parse(One(), file[..m]) <= Parse(One(), file)
  {
    ReaderIsFramed();
    PrefixParse(One(), file, m);
  }

  method Serialize(e: StoredEntry) returns (b: Bytes)
    ensures b == Encode(e)
  {
    b := AppendLe([], 8, e.index);
    assert b == Le(8, e.index);
    b := AppendLe(b, 8, e.term);
    b := b + [e.kind];
    b := AppendLe(b, 4, |e.payload|);
    b := b + e.payload;
  }

  // ---- Term and vote ----

  datatype Meta = Meta(term: U64, vote: Option<U32>)

  function EncodeMeta(m: Meta): Bytes {
    Le(8, m.term) + [if m.vote.Some? then 1 else 0] + Le(4, if m.vote.Some? then m.vote.value else 0)
  }

  /** What is loaded from the metadata file; a short file is ignored. */
  function DecodeMeta(b: Bytes): Option<Meta> {
    if |b| < 13 then None
    else
      Bound8(b[..8]); Bound4(b[9..13]);
      Some(Meta(FromLe(b[..8]), if b[8] != 0 then Some(FromLe(b[9..13])) else None))
  }

  /** Term and vote come back as they were written, and from a cut file nothing does. */
  lemma MetaBack(m: Meta, n: nat)
    requires n <= |EncodeMeta(m)|
    ensures DecodeMeta(EncodeMeta(m)[..n]) == if n == 13 then Some(m) else None
  {
    var b := EncodeMeta(m);
    assert b[..8] == Le(8, m.term) && b[9..13] == Le(4, if m.vote.Some? then m.vote.value else 0);
    assert b[..13] == b;
    Exact64(m.term);
    Exact32(if m.vote.Some? then m.vote.value else 0);
  }
}
