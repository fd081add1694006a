/** Little-endian numbers, and logs as byte strings that hold one record after the other: what is left
    of them when the end is cut off. */
module Framing {
  import opened ByteStrings

  // ---- Little-endian numbers ----

  function Pow256(n: nat): (p: nat)
    ensures p > 0
  {
    if n == 0 then 1 else 256 * Pow256(n - 1)
  }

  /** The low n bytes of v, lowest first. */
  function Le(n: nat, v: nat): (b: Bytes)
    ensures |b| == n
  {
    if n == 0 then [] else [v % 256] + Le(n - 1, v / 256)
  }

  function FromLe(b: Bytes): nat {
    if b == [] then 0 else b[0] + 256 * FromLe(b[1..])
  }

  /** Byte i is the i-th digit to the base 256. */
  lemma {:induction false} LeDigit(n: nat, v: nat, i: nat)
    requires i < n
    ensures Le(n, v)[i] == v / Pow256(i) % 256
  {
    if i > 0 {
      LeDigit(n - 1, v / 256, i - 1);
      DivTwice(v, 256, Pow256(i - 1));
    }
  }

  lemma DivTwice(v: nat, a: nat, b: nat)
    requires a > 0 && b > 0
    ensures v / a / b == v / (a * b)
  {
    var u := v / a;
    Digits(a, b, u, v % a, u / b, u % b);
    DivOf(v, a * b, u / b, a * (u % b) + v % a);
  }

  lemma Digits(a: nat, b: nat, u: nat, w: nat, q: nat, m: nat)
    requires w < a && m < b && u == b * q + m
    ensures a * u + w == a * b * q + (a * m + w) && a * m + w < a * b
  {
    assert a * u == a * (b * q) + a * m;
    assert a * (b * q) == a * b * q;
    Below(a, m, b);
  }

  lemma {:induction false} Below(a: nat, m: nat, b: nat)
    requires m < b
    ensures a * m + a <= a * b
  {
    assert a * b == a * (b - 1) + a;
    if m < b - 1 { Below(a, m, b - 1); }
  }

  lemma DivOf(x: nat, d: nat, q: nat, r: nat)
    requires d > 0 && x == d * q + r && r < d
    ensures x / d == q
  {
    var k := x / d - q;
    assert d * k == d * (x / d) - d * q;
    if k != 0 { NoSmallMultiple(d, k); }
  }

  /** The byte loop of the writers. */
  method AppendLe(dst: Bytes, n: nat, v: nat) returns (b: Bytes)
    ensures b == dst + Le(n, v)
  {
    b := dst;
    var w, i := v, 0;
    while i < n
      invariant 0 <= i <= n && b + Le(n - i, w) == dst + Le(n, v)
    {
      assert Le(n - i, w) == [w % 256] + Le(n - i - 1, w / 256);
      assert b + ([w % 256] + Le(n - i - 1, w / 256)) == (b + [w % 256]) + Le(n - i - 1, w / 256);
      b := b + [w % 256];
      w, i := w / 256, i + 1;
    }
  }

  lemma NoSmallMultiple(d: int, k: int)
    requires d > 0 && k != 0
    ensures d * k >= d || d * k <= -d
  {
    if k > 0 { assert d * (k - 1) >= 0; } else { assert d * (-k - 1) >= 0; }
  }

  lemma ModOf(x: nat, d: nat, q: nat, r: nat)
    requires d > 0 && x == d * q + r && r < d
    ensures x % d == r
  {
    var k := x / d - q;
    assert d * k == d * (x / d) - d * q;
    if k != 0 { NoSmallMultiple(d, k); }
  }

  lemma ModSplit(v: nat, p: nat)
    requires p > 0
    ensures v % (256 * p) == v % 256 + 256 * ((v / 256) % p)
  {
    var w := v / 256;
    var q, r := w / p, v % 256 + 256 * (w % p);
    assert w == p * q + w % p;
    assert 256 * (p * q) == 256 * p * q;
    ModOf(v, 256 * p, q, r);
  }

  /** Writing n bytes and reading them back gives the number modulo 256^n. */
  lemma {:induction false} LeRoundTrip(n: nat, v: nat)
    ensures FromLe(Le(n, v)) == v % Pow256(n)
  {
    if n > 0 {
      LeRoundTrip(n - 1, v / 256);
      ModSplit(v, Pow256(n - 1));
      assert Le(n, v)[1..] == Le(n - 1, v / 256);
    }
  }

  lemma Fits32(v: nat)
    ensures FromLe(Le(4, v)) == v % 0x1_0000_0000
  {
    LeRoundTrip(4, v);
    assert Pow256(4) == 256 * Pow256(3) && Pow256(3) == 256 * Pow256(2) && Pow256(2) == 256 * Pow256(1);
  }

  lemma Fits64(v: nat)
    ensures FromLe(Le(8, v)) == v % 0x1_0000_0000_0000_0000
  {
    LeRoundTrip(8, v);
    assert Pow256(8) == 256 * Pow256(7) && Pow256(7) == 256 * Pow256(6) && Pow256(6) == 256 * Pow256(5)
      && Pow256(5) == 256 * Pow256(4);
    assert Pow256(4) == 256 * Pow256(3) && Pow256(3) == 256 * Pow256(2) && Pow256(2) == 256 * Pow256(1);
  }

  lemma {:induction false} FromLeBound(b: Bytes)
    ensures FromLe(b) < Pow256(|b|)
  {
    if b != [] { FromLeBound(b[1..]); }
  }

  /** The bytes come back from the number. */
  lemma {:induction false} LeBack(b: Bytes)
    ensures Le(|b|, FromLe(b)) == b
  {
    if b != [] { LeBack(b[1..]); }
  }

  // ---- Records one after the other ----

  /** A reader takes the first record off a byte string and says how long it was. */
  type Reader<!R> = Bytes -> Option<(R, nat)>

  function Parse<R>(one: Reader<R>, b: Bytes): seq<R>
    decreases |b|
  {
    match one(b)
    case None => []
    case Some((r, n)) => if 0 < n <= |b| then [r] + Parse(one, b[n..]) else []
  }

  /** The reader looks at nothing beyond the record it takes, and takes nothing from a cut record. */
  ghost predicate Framed<R>(one: Reader<R>) {
    forall b, m {:trigger Cut(one, b, m)} :: 0 <= m <= |b| ==> Cut(one, b, m)
  }

  ghost predicate Cut<R>(one: Reader<R>, b: Bytes, m: nat)
    requires m <= |b|
  {
    match one(b)
    case None => one(b[..m]) == None
    case Some((r, n)) => 0 < n <= |b| && one(b[..m]) == if n <= m then Some((r, n)) else None
  }

  /** For any bytes: parsing a prefix gives a prefix of the parse. */
  lemma {:induction false} PrefixParse<R>(one: Reader<R>, b: Bytes, m: nat)
    requires Framed(one) && m <= |b|
    ensures Parse(one, b[..m]) <= Parse(one, b)
    decreases m
  {
    assert Cut(one, b, m);
    match one(b)
    case None =>
    case Some((r, n)) =>
      if n <= m {
        PrefixParse(one, b[n..], m - n);
        assert b[..m][n..] == b[n..][..m - n];
      }
  }

  /** The bytes behind the last record that parses. */
  function Rest<R>(one: Reader<R>, b: Bytes): Bytes
    decreases |b|
  {
    match one(b)
    case None => b
    case Some((_, n)) => if 0 < n <= |b| then Rest(one, b[n..]) else b
  }

  /** For any bytes: what is appended is read together with the rest that did not parse before. */
  lemma {:induction false} ParseAppend<R>(one: Reader<R>, b: Bytes, more: Bytes)
    requires Framed(one)
    ensures Parse(one, b + more) == Parse(one, b) + Parse(one, Rest(one, b) + more)
    ensures Rest(one, b + more) == Rest(one, Rest(one, b) + more)
    decreases |b|
  {
    assert (b + more)[..|b|] == b;
    assert Cut(one, b + more, |b|);
    match one(b)
    case None =>
    case Some((r, n)) =>
      ParseAppend(one, b[n..], more);
      assert (b + more)[n..] == b[n..] + more;
  }

  /** Without such a rest, what is appended is read by itself. */
  lemma AppendWhole<R>(one: Reader<R>, b: Bytes, more: Bytes, r: R)
    requires Framed(one) && Rest(one, b) == []
    ensures Parse(one, b + more) == Parse(one, b) + [r] <==> Parse(one, more) == [r]
    ensures Rest(one, b + more) == Rest(one, more)
  {
    ParseAppend(one, b, more);
    assert [] + more == more;
    var p, q := Parse(one, b), Parse(one, more);
    assert (p + q)[|p|..] == q && (p + [r])[|p|..] == [r];
  }

  /** The reader finds r in front exactly if r can be written and its bytes are in front. */
  ghost predicate Tells<R(!new)>(one: Reader<R>, enc: R -> Bytes, ok: bool, r: R) {
    forall b {:trigger one(b)} ::
      && ((one(b).Some? && one(b).value.0 == r) <==> (ok && enc(r) <= b))
      && (one(b).Some? && one(b).value.0 == r ==> one(b).value.1 == |enc(r)| > 0)
  }

  /** For any bytes: a record that is appended is read, alone and after what was read before, exactly if it
      can be written, its bytes are in front of the old rest and itself, and nothing can be read behind. */
  lemma AppendIff<R(!new)>(one: Reader<R>, enc: R -> Bytes, ok: bool, file: Bytes, r: R)
    requires Framed(one) && Tells(one, enc, ok, r)
    ensures var b := Rest(one, file) + enc(r);
            Parse(one, file + enc(r)) == Parse(one, file) + [r] <==>
                ok && enc(r) <= b && Parse(one, b[|enc(r)|..]) == []
  {
    var b := Rest(one, file) + enc(r);
    ParseAppend(one, file, enc(r));
    var p, q := Parse(one, file), Parse(one, b);
    assert (p + q)[|p|..] == q && (p + [r])[|p|..] == [r];
    assert (one(b).Some? && one(b).value.0 == r) <==> (ok && enc(r) <= b);
    if ok && enc(r) <= b {
      assert q == [r] + Parse(one, b[|enc(r)|..]);
      assert q[1..] == Parse(one, b[|enc(r)|..]);
    } else if q != [] {
      assert q[0] == one(b).value.0;
    }
  }

  lemma RestOfOne<R>(one: Reader<R>, enc: R -> Bytes, r: R)
    requires Framed(one) && Reads(one, enc, r)
    ensures Rest(one, enc(r)) == []
  {
    var b := enc(r);
    assert enc(r) + [] == b && b[|b|..] == [];
    NothingFromNothing(one);
    assert b[..|b|] == b;
    assert Cut(one, b, |b|);
  }

  function EncodeAll<R>(enc: R -> Bytes, rs: seq<R>): Bytes {
    if rs == [] then [] else enc(rs[0]) + EncodeAll(enc, rs[1..])
  }

  /** How many records lie wholly inside the first m bytes. */
  function Whole<R>(enc: R -> Bytes, rs: seq<R>, m: nat): (k: nat)
    ensures k <= |rs|
  {
    if rs == [] || |enc(rs[0])| > m then 0 else 1 + Whole(enc, rs[1..], m - |enc(rs[0])|)
  }

  /** The reader gives back what the writer wrote, whatever follows. */
  ghost predicate Reads<R>(one: Reader<R>, enc: R -> Bytes, r: R) {
    forall tail {:trigger enc(r) + tail} :: one(enc(r) + tail) == Some((r, |enc(r)|))
  }

  /** Torn tail: a prefix of the written log parses to exactly the records wholly inside it. */
  lemma {:induction false} TornTail<R>(one: Reader<R>, enc: R -> Bytes, rs: seq<R>, m: nat)
    requires Framed(one) && forall i :: 0 <= i < |rs| ==> Reads(one, enc, rs[i])
    requires m <= |EncodeAll(enc, rs)|
    ensures Parse(one, EncodeAll(enc, rs)[..m]) == rs[..Whole(enc, rs, m)]
  {
    var b := EncodeAll(enc, rs);
    if rs == [] {
      assert one([]) == None by { NothingFromNothing(one); }
    } else {
      var n := |enc(rs[0])|;
      assert Reads(one, enc, rs[0]);
      assert one(enc(rs[0]) + EncodeAll(enc, rs[1..])) == Some((rs[0], n));
      assert Cut(one, b, m);
      if n <= m {
        TornTail(one, enc, rs[1..], m - n);
        assert b[..m][n..] == EncodeAll(enc, rs[1..])[..m - n];
        assert rs[..Whole(enc, rs, m)] == [rs[0]] + rs[1..][..Whole(enc, rs[1..], m - n)];
      }
    }
  }

  lemma NothingFromNothing<R>(one: Reader<R>)
    requires Framed(one)
    ensures one([]) == None
  {
    var e: Bytes := [];
    assert e[..0] == e;
    assert Cut(one, e, 0);
  }

  /** What the first m bytes hold of the record they end in. */
  function Torn<R>(enc: R -> Bytes, rs: seq<R>, m: nat): Bytes
    requires m <= |EncodeAll(enc, rs)|
  {
    if rs == [] then []
    else if |enc(rs[0])| > m then enc(rs[0])[..m]
    else Torn(enc, rs[1..], m - |enc(rs[0])|)
  }

  /** A log cut off inside a record is left with that piece of it. */
  lemma {:induction false} TornRest<R>(one: Reader<R>, enc: R -> Bytes, rs: seq<R>, m: nat)
    requires Framed(one) && forall i :: 0 <= i < |rs| ==> Reads(one, enc, rs[i])
    requires m <= |EncodeAll(enc, rs)|
    ensures Rest(one, EncodeAll(enc, rs)[..m]) == Torn(enc, rs, m)
  {
    var b := EncodeAll(enc, rs);
    if rs == [] {
      NothingFromNothing(one);
    } else {
      var n := |enc(rs[0])|;
      assert Reads(one, enc, rs[0]);
      assert one(enc(rs[0]) + EncodeAll(enc, rs[1..])) == Some((rs[0], n));
      assert Cut(one, b, m);
      if n <= m {
        TornRest(one, enc, rs[1..], m - n);
        assert b[..m][n..] == EncodeAll(enc, rs[1..])[..m - n];
      } else {
        assert b[..m] == enc(rs[0])[..m];
      }
    }
  }

  lemma {:induction false} TornIsPiece<R>(enc: R -> Bytes, rs: seq<R>, m: nat)
    requires m <= |EncodeAll(enc, rs)|
    ensures Torn(enc, rs, m) != [] ==> Whole(enc, rs, m) < |rs| && Torn(enc, rs, m) <= enc(rs[Whole(enc, rs, m)])
  {
    if rs != [] && |enc(rs[0])| <= m { TornIsPiece(enc, rs[1..], m - |enc(rs[0])|); }
  }

  // ---- Records behind a 32-bit length ----

  /** A length of at least `min`, then that many bytes for `body` to decode. */
  function ReadSized<R>(min: nat, body: Bytes -> Option<R>, b: Bytes): Option<(R, nat)> {
    if |b| < 4 then None
    else
      var n := FromLe(b[..4]);
      if n < min || 4 + n > |b| then None
      else match body(b[4..4 + n])
        case None => None
        case Some(r) => Some((r, 4 + n))
  }

  function Sized<R>(min: nat, body: Bytes -> Option<R>): Reader<R> { (b: Bytes) => ReadSized(min, body, b) }

  function AddSize(x: Bytes): Bytes { Le(4, |x|) + x }

  lemma SizedIsFramed<R>(min: nat, body: Bytes -> Option<R>)
    ensures Framed(Sized(min, body))
  {
    forall b: Bytes, m: nat | m <= |b| ensures Cut(Sized(min, body), b, m) {
      if m >= 4 {
        assert b[..m][..4] == b[..4];
        var n := FromLe(b[..4]);
        if 4 + n <= m { assert b[..m][4..4 + n] == b[4..4 + n]; }
      }
    }
  }

  lemma SizedBack<R>(min: nat, body: Bytes -> Option<R>, x: Bytes, tail: Bytes)
    requires min <= |x| < 0x1_0000_0000 && body(x).Some?
    ensures ReadSized(min, body, AddSize(x) + tail) == Some((body(x).value, |AddSize(x)|))
  {
    Fits32(|x|);
    assert (AddSize(x) + tail)[..4] == Le(4, |x|);
    assert (AddSize(x) + tail)[4..4 + |x|] == x;
  }

  /** A record reads back exactly when its length fits. */
  lemma SizedIff<R>(min: nat, body: Bytes -> Option<R>, x: Bytes, r: R)
    requires min <= |x| && (|x| < 0x1_0000_0000 ==> body(x) == Some(r))
    requires |x| >= 0x1_0000_0000 ==> forall y {:trigger body(y)} :: |y| < |x| ==> body(y) != Some(r)
    ensures Parse(Sized(min, body), AddSize(x)) == [r] <==> |x| < 0x1_0000_0000
  {
    var b := AddSize(x);
    Fits32(|x|);
    assert b[..4] == Le(4, |x|);
    if |x| < 0x1_0000_0000 {
      SizedBack(min, body, x, []);
      assert b + [] == b && b[|b|..] == [];
      assert ReadSized(min, body, []) == None;
    } else {
      var n := |x| % 0x1_0000_0000;
      assert |b[4..4 + n]| < |x|;
      assert ReadSized(min, body, b).Some? ==> ReadSized(min, body, b).value.0 != r;
      assert Parse(Sized(min, body), b) != [] ==> Parse(Sized(min, body), b)[0] != r;
    }
  }

  lemma SizedAt<R>(min: nat, body: Bytes -> Option<R>, data: Bytes, off: nat)
    requires off + 4 <= |data|
    ensures var n := FromLe(data[off..off + 4]);
            Parse(Sized(min, body), data[off..]) ==
              if n < min || off + 4 + n > |data| || body(data[off + 4..off + 4 + n]) == None then []
              else [body(data[off + 4..off + 4 + n]).value] + Parse(Sized(min, body), data[off + 4 + n..])
  {
    var rest, n := data[off..], FromLe(data[off..off + 4]);
    assert rest[..4] == data[off..off + 4];
    if off + 4 + n <= |data| {
      assert rest[4..4 + n] == data[off + 4..off + 4 + n];
      assert rest[4 + n..] == data[off + 4 + n..];
    }
  }

  /** One turn of a loop that reads records with a moving offset: the record at `off` and the offset
      behind it, or nothing. */
  method NextSized<R>(min: nat, body: Bytes -> Option<R>, data: Bytes, off: nat) returns (x: Option<(R, nat)>)
    requires off <= |data|
    ensures x.None? ==> Parse(Sized(min, body), data[off..]) == []
    ensures x.Some? ==>
              var p := Parse(Sized(min, body), data[off..]);
              off < x.value.1 <= |data| && p != [] && p[0] == x.value.0
                  && p[1..] == Parse(Sized(min, body), data[x.value.1..])
  {
    if off + 4 > |data| { return None; }
    SizedAt(min, body, data, off);
    var n := FromLe(data[off..off + 4]);
    if n < min || off + 4 + n > |data| { return None; }
    var r := body(data[off + 4..off + 4 + n]);
    if r.None? { return None; }
    x := Some((r.value, off + 4 + n));
  }

  /** The largest rank among the records, 0 if there is none. */
  ghost predicate IsMax<R>(rank: R -> nat, records: seq<R>, max: nat) {
    && (forall i :: 0 <= i < |records| ==> rank(records[i]) <= max)
    && (max == 0 || exists i :: 0 <= i < |records| && rank(records[i]) == max)
  }

  lemma MaxNext<R>(rank: R -> nat, records: seq<R>, max: nat, r: R)
    requires IsMax(rank, records, max)
    ensures IsMax(rank, records + [r], if rank(r) > max then rank(r) else max)
  {
    var rs := records + [r];
    assert rs[|records|] == r;
    if rank(r) <= max && max > 0 {
      var i :| 0 <= i < |records| && rank(records[i]) == max;
      assert rank(rs[i]) == max;
    }
  }

  /** The replay loop: a moving offset, stopping at the first record that does not check out, and the
      largest rank seen. */
  method ParseSized<R>(min: nat, body: Bytes -> Option<R>, rank: R -> nat, data: Bytes)
      returns (records: seq<R>, max: nat)
    ensures records == Parse(Sized(min, body), data) && IsMax(rank, records, max)
  {
    records, max := [], 0;
    var off := 0;
    assert data[off..] == data;
    ghost var all := Parse(Sized(min, body), data);
    while true
      invariant 0 <= off <= |data| && |records| <= |all| && Parse(Sized(min, body), data[off..]) == all[|records|..]
      invariant records == all[..|records|] && IsMax(rank, records, max)
      decreases |data| - off
    {
      var x := NextSized(min, body, data, off);
      if x.None? { break; }
      assert all[|records|] == x.value.0 && all[|records|..][1..] == all[|records| + 1..];
      MaxNext(rank, records, max, x.value.0);
      max := if rank(x.value.0) > max then rank(x.value.0) else max;
      records := records + [x.value.0];
      off := x.value.1;
    }
  }

  lemma Exact32(v: U32)
    ensures FromLe(Le(4, v)) == v
  {
    Fits32(v);
  }

  lemma Exact64(v: U64)
    ensures FromLe(Le(8, v)) == v
  {
    Fits64(v);
  }

  lemma Low32Same(v: nat)
    ensures FromLe(Le(4, v)) == v <==> v < 0x1_0000_0000
  {
    Fits32(v);
  }

  lemma Bound4(b: Bytes)
    requires |b| == 4
    ensures FromLe(b) < 0x1_0000_0000
  {
    FromLeBound(b);
    assert Pow256(4) == 256 * Pow256(3) && Pow256(3) == 256 * Pow256(2) && Pow256(2) == 256 * Pow256(1);
  }

  lemma Bound8(b: Bytes)
    requires |b| == 8
    ensures FromLe(b) < 0x1_0000_0000_0000_0000
  {
    FromLeBound(b);
    assert Pow256(8) == 256 * Pow256(7) && Pow256(7) == 256 * Pow256(6) && Pow256(6) == 256 * Pow256(5)
      && Pow256(5) == 256 * Pow256(4);
    assert Pow256(4) == 256 * Pow256(3) && Pow256(3) == 256 * Pow256(2) && Pow256(2) == 256 * Pow256(1);
  }

  // ---- Checksums ----

  /** The checksum is left open: any function of the bytes. */
  type Crc = Bytes -> U32

  function Checked(crc: Crc, fields: Bytes): Bytes { fields + Le(4, crc(fields)) }

  /** What the checksum does not touch. */
  lemma CheckedAt(crc: Crc, f: Bytes)
    requires |f| >= 21
    ensures var b := Checked(crc, f);
            && |b| == |f| + 4 && b[..|f|] == f && b[|f|..] == Le(4, crc(f)) && b[16] == f[16]
            && b[..8] == f[..8] && b[8..16] == f[8..16] && b[17..21] == f[17..21] && b[21..|f|] == f[21..]
  {}

  /** The fields of a record between its length and its checksum. */
  lemma Pieces(b: Bytes, size: Bytes, f: Bytes, sum: Bytes)
    requires b == size + (f + sum) && |size| == 4 && |f| >= 21
    ensures b[..4] == size && b[4..12] == f[..8] && b[12..20] == f[8..16] && b[20] == f[16] && b[21..25] == f[17..21]
    ensures b[25..4 + |f|] == f[21..] && b[4..4 + |f|] == f && b[4 + |f|..] == sum
  {}
}
