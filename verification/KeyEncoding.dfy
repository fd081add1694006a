/** Keys of the ordered store: table, primary key and inverted timestamp, so that the versions of a
    row lie together, newest first. */
module KeyEncoding {
  import opened ByteStrings
  import opened Framing

  const MAX64: U64 := 0xFFFF_FFFF_FFFF_FFFF

  // ---- The order of byte strings ----

  predicate Less(a: Bytes, b: Bytes) {
    if b == [] then false
    else if a == [] then true
    else a[0] < b[0] || (a[0] == b[0] && Less(a[1..], b[1..]))
  }

  predicate AtMost(a: Bytes, b: Bytes) { !Less(b, a) }

  lemma {:induction false} Trichotomy(a: Bytes, b: Bytes)
    ensures !(Less(a, b) && Less(b, a)) && (Less(a, b) || Less(b, a) || a == b) && !Less(a, a)
  {
    if a != [] { Irreflexive(a); }
    if a != [] && b != [] {
      Trichotomy(a[1..], b[1..]);
      if a[0] == b[0] && a[1..] == b[1..] { assert a == [a[0]] + a[1..] && b == [b[0]] + b[1..]; }
    }
  }

  lemma {:induction false} Irreflexive(a: Bytes)
    ensures !Less(a, a)
  {
    if a != [] { Irreflexive(a[1..]); }
  }

  lemma {:induction false} Transitive(a: Bytes, b: Bytes, c: Bytes)
    requires Less(a, b) && Less(b, c)
    ensures Less(a, c)
  {
    if a != [] && a[0] == b[0] && b[0] == c[0] { Transitive(a[1..], b[1..], c[1..]); }
  }

  lemma {:induction false} SamePrefix(p: Bytes, a: Bytes, b: Bytes)
    ensures Less(p + a, p + b) <==> Less(a, b)
  {
    if p == [] {
      assert [] + a == a && [] + b == b;
    } else {
      SamePrefix(p[1..], a, b);
      assert (p + a)[1..] == p[1..] + a && (p + b)[1..] == p[1..] + b;
    }
  }

  /** Neither string is a prefix of the other. */
  predicate Apart(a: Bytes, b: Bytes) { !(a <= b) && !(b <= a) }

  /** Then what follows does not matter for the order. */
  lemma {:induction false} ApartOrder(a: Bytes, b: Bytes, x: Bytes, y: Bytes)
    requires Apart(a, b)
    ensures Less(a + x, b + y) <==> Less(a, b)
  {
    if a[0] == b[0] {
      assert Apart(a[1..], b[1..]) by {
        assert a == [a[0]] + a[1..] && b == [b[0]] + b[1..];
        assert a[1..] <= b[1..] ==> a <= b;
        assert b[1..] <= a[1..] ==> b <= a;
      }
      ApartOrder(a[1..], b[1..], x, y);
    }
    assert (a + x)[1..] == a[1..] + x && (b + y)[1..] == b[1..] + y;
  }

  // ---- Big-endian numbers ----

  function Be(n: nat, v: nat): (b: Bytes)
    ensures |b| == n
  {
    if n == 0 then [] else Be(n - 1, v / 256) + [v % 256]
  }

  function FromBe(b: Bytes): nat {
    if b == [] then 0 else FromBe(b[..|b| - 1]) * 256 + b[|b| - 1]
  }

  lemma {:induction false} BeBack(n: nat, v: nat)
    requires v < Pow256(n)
    ensures FromBe(Be(n, v)) == v
  {
    if n > 0 {
      BeBack(n - 1, v / 256);
      assert Be(n, v)[..n - 1] == Be(n - 1, v / 256);
    }
  }

  lemma {:induction false} FromBeBack(b: Bytes)
    ensures FromBe(b) < Pow256(|b|) && Be(|b|, FromBe(b)) == b
  {
    if b != [] {
      var c := b[..|b| - 1];
      FromBeBack(c);
      assert FromBe(b) / 256 == FromBe(c) && FromBe(b) % 256 == b[|b| - 1];
      assert b == c + [b[|b| - 1]];
    }
  }

  /** Big-endian numbers of one width sort like the numbers. */
  lemma {:induction false} BeOrder(n: nat, v: nat, w: nat)
    requires v < Pow256(n) && w < Pow256(n)
    ensures Less(Be(n, v), Be(n, w)) <==> v < w
  {
    if n > 0 {
      BeOrder(n - 1, v / 256, w / 256);
      if v / 256 == w / 256 {
        SamePrefix(Be(n - 1, v / 256), [v % 256], [w % 256]);
      } else {
        BeApart(n - 1, v / 256, w / 256);
        ApartOrder(Be(n - 1, v / 256), Be(n - 1, w / 256), [v % 256], [w % 256]);
      }
    }
  }

  lemma BeApart(n: nat, v: nat, w: nat)
    requires v < Pow256(n) && w < Pow256(n) && v != w
    ensures Apart(Be(n, v), Be(n, w))
  {
    BeBack(n, v);
    BeBack(n, w);
  }

  lemma Widths()
    ensures Pow256(4) == 0x1_0000_0000 && Pow256(8) == 0x1_0000_0000_0000_0000
  {
    assert Pow256(8) == 256 * Pow256(7) && Pow256(7) == 256 * Pow256(6) && Pow256(6) == 256 * Pow256(5)
      && Pow256(5) == 256 * Pow256(4);
    assert Pow256(4) == 256 * Pow256(3) && Pow256(3) == 256 * Pow256(2) && Pow256(2) == 256 * Pow256(1);
  }

  /** The writers fill the bytes from the last to the first. */
  method AppendBe(dst: Bytes, n: nat, v: nat) returns (b: Bytes)
    ensures b == dst + Be(n, v)
  {
    var buf: Bytes, w, i := [], v, n;
    while i > 0
      invariant 0 <= i <= n && Be(i, w) + buf == Be(n, v)
    {
      assert Be(i - 1, w / 256) + [w % 256] + buf == Be(i - 1, w / 256) + ([w % 256] + buf);
      buf := [w % 256] + buf;
      w, i := w / 256, i - 1;
    }
    assert buf == Be(n, v);
    b := dst + buf;
  }

  method ReadBe(p: Bytes) returns (v: nat)
    ensures v == FromBe(p)
  {
    v := 0;
    for i := 0 to |p|
      invariant v == FromBe(p[..i])
    {
      assert p[..i + 1][..i] == p[..i];
      v := v * 256 + p[i];
    }
    assert p[..|p|] == p;
  }

  // ---- Keys ----

  function InvertTimestamp(ts: U64): U64 { MAX64 - ts }

  function EncodeKey(table: U32, pk: Bytes, ts: U64): Bytes {
    Be(4, table) + (pk + Be(8, InvertTimestamp(ts)))
  }

  /** The key in front of every version of a row. */
  function NewestKey(table: U32, pk: Bytes): Bytes { EncodeKey(table, pk, MAX64) }

  datatype RowKey = RowKey(table: U32, pk: Bytes, ts: U64)

  function DecodeKey(b: Bytes): (r: Option<RowKey>)
    ensures r.None? <==> |b| < 12
  {
    if |b| < 12 then None
    else
      FromBeBack(b[..4]); FromBeBack(b[|b| - 8..]); Widths();
      Some(RowKey(FromBe(b[..4]), b[4..|b| - 8], InvertTimestamp(FromBe(b[|b| - 8..]))))
  }

  /** Decoding undoes encoding, so different rows and versions have different keys. */
  lemma DecodeEncode(table: U32, pk: Bytes, ts: U64)
    ensures DecodeKey(EncodeKey(table, pk, ts)) == Some(RowKey(table, pk, ts))
  {
    var b := EncodeKey(table, pk, ts);
    Widths();
    BeBack(4, table);
    BeBack(8, InvertTimestamp(ts));
    assert b[..4] == Be(4, table) && b[4..|b| - 8] == pk && b[|b| - 8..] == Be(8, InvertTimestamp(ts));
  }

  /** Encoding undoes decoding: every key of twelve bytes or more is the key of one version. */
  lemma EncodeDecode(b: Bytes)
    requires |b| >= 12
    ensures var r := DecodeKey(b).value; EncodeKey(r.table, r.pk, r.ts) == b
  {
    FromBeBack(b[..4]);
    FromBeBack(b[|b| - 8..]);
    assert b == b[..4] + (b[4..|b| - 8] + b[|b| - 8..]);
  }

  /** The versions of one row: newest first. */
  lemma VersionOrder(table: U32, pk: Bytes, a: U64, b: U64)
    ensures Less(EncodeKey(table, pk, a), EncodeKey(table, pk, b)) <==> a > b
  {
    Widths();
    BeOrder(8, InvertTimestamp(a), InvertTimestamp(b));
    SamePrefix(pk, Be(8, InvertTimestamp(a)), Be(8, InvertTimestamp(b)));
    SamePrefix(Be(4, table), pk + Be(8, InvertTimestamp(a)), pk + Be(8, InvertTimestamp(b)));
  }

  /** Rows of one table whose keys are apart sort by key, whatever their timestamps. */
  lemma RowOrder(table: U32, pk: Bytes, a: U64, pk': Bytes, b: U64)
    requires Apart(pk, pk')
    ensures Less(EncodeKey(table, pk, a), EncodeKey(table, pk', b)) <==> Less(pk, pk')
  {
    ApartOrder(pk, pk', Be(8, InvertTimestamp(a)), Be(8, InvertTimestamp(b)));
    SamePrefix(Be(4, table), pk + Be(8, InvertTimestamp(a)), pk' + Be(8, InvertTimestamp(b)));
  }

  lemma TableOrder(a: RowKey, b: RowKey)
    requires a.table != b.table
    ensures Less(EncodeKey(a.table, a.pk, a.ts), EncodeKey(b.table, b.pk, b.ts)) <==> a.table < b.table
  {
    Widths();
    BeApart(4, a.table, b.table);
    BeOrder(4, a.table, b.table);
    ApartOrder(Be(4, a.table), Be(4, b.table), a.pk + Be(8, InvertTimestamp(a.ts)),
        b.pk + Be(8, InvertTimestamp(b.ts)));
  }
}
