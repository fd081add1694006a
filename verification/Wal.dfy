/** The write-ahead log object: it numbers the records and appends their bytes to the file, whatever the
    file holds. */
module Wal {
  import opened ByteStrings
  import opened Framing
  import F = WalFormat

  /** One more than the largest number, as a machine number. */
  function After(maxLsn: nat): U64 { (maxLsn + 1) % 0x1_0000_0000_0000_0000 }

  ghost predicate NothingTorn(crc: Crc, file: Bytes) { Rest(F.One(crc), file) == [] }

  class Log {
    const crc: Crc
    var file: Bytes
    var nextLsn: U64

    ghost function Records(): seq<F.WalRecord>
      reads this
    {
      Parse(F.One(crc), file)
    }

    /** The next number is above those in the file. */
    ghost predicate Ahead()
      reads this
    {
      forall i :: 0 <= i < |Records()| ==> Records()[i].lsn < nextLsn
    }

    constructor (crc: Crc, file: Bytes)
      ensures this.crc == crc && this.file == file
      ensures Ahead() || exists i :: 0 <= i < |Records()| && Records()[i].lsn == 0xFFFF_FFFF_FFFF_FFFF
    {
      var _, maxLsn := F.ParseRecords(crc, file);
      this.crc, this.file, this.nextLsn := crc, file, After(maxLsn);
      new;
      NumberedAbove(Records(), maxLsn);
    }

    /** The record gets the next number, and its bytes go to the end of the file. A replay reads it, after
        the records that were there, if the file had no torn tail and the length fits. */
    method Append(txn: U64, kind: Byte, payload: Bytes) returns (lsn: U64)
      modifies this
      ensures lsn == old(nextLsn) && nextLsn == After(lsn)
      ensures file == old(file) + F.Encode(crc, F.WalRecord(lsn, txn, kind, payload))
      ensures NothingTorn(crc, old(file)) ==>
                var r := F.WalRecord(lsn, txn, kind, payload);
                (Records() == old(Records()) + [r] <==> F.Fits(r)) && (F.Fits(r) ==> NothingTorn(crc, file))
    {
      lsn := nextLsn;
      nextLsn := After(lsn);
      var r := F.WalRecord(lsn, txn, kind, payload);
      var bytes := F.WriteRecord(crc, r);
      if NothingTorn(crc, file) { ReadAfterWhole(crc, file, r); }
      file := file + bytes;
    }

    method Replay() returns (rs: seq<F.WalRecord>)
      modifies `nextLsn
      ensures rs == Records()
      ensures Ahead() || exists i :: 0 <= i < |rs| && rs[i].lsn == 0xFFFF_FFFF_FFFF_FFFF
    {
      var maxLsn;
      rs, maxLsn := F.ParseRecords(crc, file);
      nextLsn := After(maxLsn);
      NumberedAbove(rs, maxLsn);
    }

    method Truncate()
      modifies this
      ensures file == [] && Records() == [] && nextLsn == 1
    {
      file, nextLsn := [], 1;
    }
  }

  lemma NumberedAbove(rs: seq<F.WalRecord>, maxLsn: nat)
    requires IsMax(F.Lsn(), rs, maxLsn)
    ensures || (forall i :: 0 <= i < |rs| ==> rs[i].lsn < After(maxLsn))
            || (exists i :: 0 <= i < |rs| && rs[i].lsn == 0xFFFF_FFFF_FFFF_FFFF)
  {
    forall i | 0 <= i < |rs| ensures rs[i].lsn <= maxLsn { assert F.Lsn()(rs[i]) == rs[i].lsn; }
  }

  /** For any file: a record that is appended is read back exactly if its length fits, its bytes are in
      front of those that are left over from the old file and itself, and nothing is read behind them. */
  lemma ReadAfterAppend(crc: Crc, file: Bytes, r: F.WalRecord)
    ensures var e := F.Encode(crc, r); var b := Rest(F.One(crc), file) + e;
            Parse(F.One(crc), file + e) == Parse(F.One(crc), file) + [r] <==>
            F.Fits(r) && e <= b && Parse(F.One(crc), b[|e|..]) == []
  {
    SizedIsFramed(25, F.Body(crc));
    F.InFront(crc, r);
    AppendIff(F.One(crc), F.Encoder(crc), F.Fits(r), file, r);
  }

  /** Behind a file without a torn tail: exactly if its length fits, and then nothing is torn afterwards. */
  lemma ReadAfterWhole(crc: Crc, file: Bytes, r: F.WalRecord)
    requires NothingTorn(crc, file)
    ensures Parse(F.One(crc), file + F.Encode(crc, r)) == Parse(F.One(crc), file) + [r] <==> F.Fits(r)
    ensures F.Fits(r) ==> NothingTorn(crc, file + F.Encode(crc, r))
  {
    SizedIsFramed(25, F.Body(crc));
    AppendWhole(F.One(crc), file, F.Encode(crc, r), r);
    F.ReadsBackIff(crc, r);
    if F.Fits(r) {
      F.Readable(crc, r);
      RestOfOne(F.One(crc), F.Encoder(crc), r);
    }
  }

  ghost predicate AllFit(rs: seq<F.WalRecord>) { forall i :: 0 <= i < |rs| ==> F.Fits(rs[i]) }

  /** A log that a crash cut off after m bytes and that is then appended to: what is read are the whole
      records and the new one exactly if the new one's bytes are in front of the torn piece and itself. */
  lemma AppendAfterCrash(crc: Crc, rs: seq<F.WalRecord>, m: nat, r: F.WalRecord)
    requires AllFit(rs) && m <= |EncodeAll(F.Encoder(crc), rs)|
    ensures var e, whole := F.Encode(crc, r), rs[..Whole(F.Encoder(crc), rs, m)];
            var b := Torn(F.Encoder(crc), rs, m) + e;
            Parse(F.One(crc), EncodeAll(F.Encoder(crc), rs)[..m] + e) == whole + [r] <==>
            F.Fits(r) && e <= b && Parse(F.One(crc), b[|e|..]) == []
  {
    F.TornWal(crc, rs, m);
    SizedIsFramed(25, F.Body(crc));
    forall i | 0 <= i < |rs| ensures Reads(F.One(crc), F.Encoder(crc), rs[i]) { F.Readable(crc, rs[i]); }
    TornRest(F.One(crc), F.Encoder(crc), rs, m);
    ReadAfterAppend(crc, EncodeAll(F.Encoder(crc), rs)[..m], r);
  }

  /** So once the torn piece shows its length field, a record with a payload of another length is lost. */
  lemma OtherLengthIsLost(crc: Crc, rs: seq<F.WalRecord>, m: nat, r: F.WalRecord)
    requires AllFit(rs) && m <= |EncodeAll(F.Encoder(crc), rs)| && |Torn(F.Encoder(crc), rs, m)| >= 4
    ensures var j := Whole(F.Encoder(crc), rs, m);
            && j < |rs|
            && (|rs[j].payload| != |r.payload| ==>
                  Parse(F.One(crc), EncodeAll(F.Encoder(crc), rs)[..m] + F.Encode(crc, r)) != rs[..j] + [r])
  {
    AppendAfterCrash(crc, rs, m, r);
    TornIsPiece(F.Encoder(crc), rs, m);
    var j, piece, e := Whole(F.Encoder(crc), rs, m), Torn(F.Encoder(crc), rs, m), F.Encode(crc, r);
    LengthInFront(crc, rs[j]);
    if F.Fits(r) && e <= piece + e {
      LengthInFront(crc, r);
      assert e[..4] == (piece + e)[..4] == piece[..4] == F.Encode(crc, rs[j])[..4];
    }
  }

  lemma LengthInFront(crc: Crc, r: F.WalRecord)
    requires F.Fits(r)
    ensures |F.Encode(crc, r)| >= 4 && FromLe(F.Encode(crc, r)[..4]) == |r.payload| + 25
  {
    F.FieldsAt(r);
    Fits32(|r.payload| + 25);
    assert F.Encode(crc, r)[..4] == Le(4, |Framing.Checked(crc, F.Fields(r))|);
  }

  /** A torn tail whose length field reaches past the new record hides it and everything behind. */
  lemma TornTailHides(crc: Crc, file: Bytes, r: F.WalRecord)
    requires var tail := Rest(F.One(crc), file); |tail| >= 4 && 4 + FromLe(tail[..4]) > |tail| + |F.Encode(crc, r)|
    ensures Parse(F.One(crc), file + F.Encode(crc, r)) == Parse(F.One(crc), file)
  {
    var tail := Rest(F.One(crc), file);
    SizedIsFramed(25, F.Body(crc));
    ParseAppend(F.One(crc), file, F.Encode(crc, r));
    var b := tail + F.Encode(crc, r);
    assert b[..4] == tail[..4];
    assert F.One(crc)(b) == None;
  }
}
