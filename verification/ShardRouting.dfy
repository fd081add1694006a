/** Where a key lives: the 64-bit FNV-1a hash of its bytes, modulo the number of shards. */
module ShardRouting {
  import opened ByteStrings
  import Framing

  const FNV_OFFSET: U64 := 14695981039346656037
  const FNV_PRIME: U64 := 1099511628211
  const BITS := 64
  const WORD := 0x1_0000_0000_0000_0000

  // ---- Bits ----

  function Bit(a: nat, i: nat): nat { if i == 0 then a % 2 else Bit(a / 2, i - 1) }

  /** The number whose bit is set where exactly one of two bits is. */
  function XorBit(a: nat, b: nat): nat { if a % 2 == b % 2 then 0 else 1 }

  /** Exclusive or of the low n bits. */
  function Xor(a: nat, b: nat, n: nat): nat {
    if n == 0 then 0 else XorBit(a, b) + 2 * Xor(a / 2, b / 2, n - 1)
  }

  function Pow2(n: nat): (p: nat)
    ensures p > 0
  {
    if n == 0 then 1 else 2 * Pow2(n - 1)
  }

  lemma {:induction false} NoBits(i: nat)
    ensures Bit(0, i) == 0
  {
    if i > 0 { NoBits(i - 1); }
  }

  lemma {:induction false} XorBitwise(a: nat, b: nat, n: nat, i: nat)
    ensures Bit(Xor(a, b, n), i) == if i < n && Bit(a, i) != Bit(b, i) then 1 else 0
    decreases n, i
  {
    if n == 0 {
      NoBits(i);
    } else {
      Halves(XorBit(a, b), Xor(a / 2, b / 2, n - 1));
      if i > 0 { XorBitwise(a / 2, b / 2, n - 1, i - 1); }
    }
  }

  lemma Halves(bit: nat, rest: nat)
    requires bit < 2
    ensures (bit + 2 * rest) % 2 == bit && (bit + 2 * rest) / 2 == rest
  {}

  lemma {:induction false} XorBound(a: nat, b: nat, n: nat)
    ensures Xor(a, b, n) < Pow2(n)
  {
    if n > 0 { XorBound(a / 2, b / 2, n - 1); }
  }

  /** A number below 2^n is known by its low n bits. */
  lemma {:induction false} BitsTell(a: nat, b: nat, n: nat)
    requires a < Pow2(n) && b < Pow2(n) && forall i: nat :: i < n ==> Bit(a, i) == Bit(b, i)
    ensures a == b
  {
    if n > 0 {
      forall i: nat | i < n - 1 ensures Bit(a / 2, i) == Bit(b / 2, i) { assert Bit(a, i + 1) == Bit(b, i + 1); }
      BitsTell(a / 2, b / 2, n - 1);
      assert Bit(a, 0) == Bit(b, 0);
    }
  }

  /** The bits of x are those of a or of b, not of both. */
  ghost predicate IsXor(x: nat, a: nat, b: nat, n: nat) {
    x < Pow2(n) && forall i: nat :: i < n ==> Bit(x, i) == if Bit(a, i) != Bit(b, i) then 1 else 0
  }

  lemma XorIs(x: nat, a: nat, b: nat, n: nat)
    ensures IsXor(x, a, b, n) <==> x == Xor(a, b, n)
  {
    XorBound(a, b, n);
    forall i: nat | i < n ensures Bit(Xor(a, b, n), i) == if Bit(a, i) != Bit(b, i) then 1 else 0 {
      XorBitwise(a, b, n, i);
    }
    if IsXor(x, a, b, n) { BitsTell(x, Xor(a, b, n), n); }
  }

  /** Xoring with the same number twice gives back what fits. */
  lemma {:induction false} XorUndone(a: nat, b: nat, n: nat)
    requires b < Pow2(n)
    ensures Xor(a, Xor(a, b, n), n) == b
  {
    if n > 0 {
      Halves(XorBit(a, b), Xor(a / 2, b / 2, n - 1));
      XorUndone(a / 2, b / 2, n - 1);
    }
  }

  lemma Four(n: nat)
    ensures Pow2(n + 4) == 16 * Pow2(n)
  {
    assert Pow2(n + 1) == 2 * Pow2(n);
    assert Pow2(n + 2) == 2 * Pow2(n + 1);
    assert Pow2(n + 3) == 2 * Pow2(n + 2);
  }

  lemma Eight(n: nat, p: nat)
    requires Pow2(n) == p
    ensures Pow2(n + 8) == 256 * p
  {
    Four(n);
    Four(n + 4);
  }

  lemma ByteWide()
    ensures Pow2(8) == 256
  {
    Eight(0, 1);
  }

  lemma Wide(n: nat, m: nat)
    requires n == 0 && m == 56
    ensures Pow2(m) == 0x100_0000_0000_0000 && Pow2(m + 8) == WORD
  {
    Eight(n, 1);
    Eight(n + 8, 0x100);
    Eight(n + 16, 0x1_0000);
    Eight(n + 24, 0x100_0000);
    Eight(n + 32, 0x1_0000_0000);
    Eight(n + 40, 0x100_0000_0000);
    Eight(n + 48, 0x1_0000_0000_0000);
    Eight(m, 0x100_0000_0000_0000);
  }

  lemma WordWide()
    ensures Pow2(BITS) == WORD
  {
    Wide(0, 56);
  }

  // ---- The hash ----

  function Fnv(key: Bytes): U64 {
    if key == [] then FNV_OFFSET else Mix(Fnv(key[..|key| - 1]), key[|key| - 1])
  }

  /** One round: the byte is xored in, then the product wraps. */
  function Mix(hash: U64, c: Byte): U64 { Times(Xor(hash, c, BITS)) }

  function Times(x: nat): U64 { WordWide(); x * FNV_PRIME % Pow2(BITS) }

  lemma FnvNext(key: Bytes, c: Byte)
    ensures Fnv(key + [c]) == Mix(Fnv(key), c)
  {
    assert (key + [c])[..|key|] == key;
  }

  /** The hash of a longer key, bit by bit. */
  lemma FnvRound(key: Bytes, c: Byte, x: nat)
    requires IsXor(x, Fnv(key), c, BITS)
    ensures Fnv([]) == 14695981039346656037 && Fnv(key + [c]) == x * 1099511628211 % 0x1_0000_0000_0000_0000
  {
    XorIs(x, Fnv(key), c, BITS);
    FnvNext(key, c);
    WordWide();
  }

  // ---- What the rounds do ----

  lemma {:induction false} XorNothing(a: nat, n: nat)
    requires a < Pow2(n)
    ensures Xor(a, 0, n) == a
  {
    if n > 0 { XorNothing(a / 2, n - 1); }
  }

  lemma HalfOfSum(p: nat, k: nat, a: nat)
    ensures (2 * p * k + a) % 2 == a % 2 && (2 * p * k + a) / 2 == p * k + a / 2
  {
    assert 2 * p * k == 2 * (p * k);
  }

  /** What does not reach beyond the low m bits leaves the others alone. */
  lemma {:induction false} XorLow(k: nat, a: nat, b: nat, m: nat, n: nat)
    requires b < Pow2(m) && k < Pow2(n)
    ensures Xor(Pow2(m) * k + a, b, m + n) == Pow2(m) * k + Xor(a, b, m) || a >= Pow2(m)
    decreases m
  {
    if m == 0 {
      XorNothing(k, n);
    } else if a < Pow2(m) {
      HalfOfSum(Pow2(m - 1), k, a);
      XorLow(k, a / 2, b / 2, m - 1, n);
      assert Pow2(m) * k == 2 * (Pow2(m - 1) * k);
    }
  }

  /** The byte only meets the low byte of the hash. */
  lemma MixLow(k: nat, a: Byte, c: Byte)
    requires k < 0x100_0000_0000_0000
    ensures Mix(256 * k + a, c) == Times(256 * k + Xor(a, c, 8))
  {
    ByteWide();
    Wide(0, 56);
    XorLow(k, a, c, 8, 56);
  }

  /** The value published for the key "a", and the shard it goes to among three. */
  lemma FnvPublished(c: Byte)
    requires c == 97
    ensures Fnv([c]) == 0xAF63_DC4C_8601_EC8C && Route([c], 3) == 1
  {
    OneByte([], 57406175934947875, 0x25, c);
    RouteIs([c], 3, 0xAF63_DC4C_8601_EC8C);
  }

  lemma RouteIs(key: Bytes, shards: nat, v: nat)
    requires Fnv(key) == v && shards > 0
    ensures Route(key, shards) == v % shards
  {}

  lemma OneByte(none: Bytes, k: nat, a: Byte, c: Byte)
    requires none == [] && k == 57406175934947875 && a == 0x25 && c == 97
    ensures Fnv([c]) == 0xAF63_DC4C_8601_EC8C
  {
    FnvNext(none, c);
    assert none + [c] == [c];
    MixLow(k, a, c);
    LowByte(a, c);
    FirstProduct(256 * k + 0x44);
  }

  lemma FirstProduct(x: nat)
    requires x == 14695981039346656068
    ensures Times(x) == 0xAF63_DC4C_8601_EC8C
  {
    WordWide();
    Framing.ModOf(x * FNV_PRIME, WORD, 875948729822, 0xAF63_DC4C_8601_EC8C);
  }

  lemma LowByte(a: nat, b: nat)
    requires a == 0x25 && b == 97
    ensures Xor(a, b, 8) == 0x44
  {
    assert Xor(a / 64, b / 64, 2) == 1;
    assert Xor(a / 32, b / 32, 3) == 2;
    assert Xor(a / 16, b / 16, 4) == 4;
    assert Xor(a / 8, b / 8, 5) == 8;
    assert Xor(a / 4, b / 4, 6) == 17;
    assert Xor(a / 2, b / 2, 7) == 34;
  }

  /** Multiplying by an odd number can be undone. */
  lemma Undone(x: U64)
    ensures Times(x) * 0xCE96_5057_AFF6_957B % WORD == x
  {
    WordWide();
    var q := x * FNV_PRIME / WORD;
    SameMod(Times(x) * 0xCE96_5057_AFF6_957B, 887285111055 * x - q * 0xCE96_5057_AFF6_957B, x);
  }

  lemma SameMod(a: int, k: int, x: U64)
    requires a == x + WORD * k
    ensures a % WORD == x
  {
    var d := a / WORD - k;
    assert WORD * d == x - a % WORD;
    if d != 0 { Framing.NoSmallMultiple(WORD, d); }
  }

  /** Keys that differ in their last byte only never share a hash. */
  lemma LastByteTells(key: Bytes, c: Byte, d: Byte)
    requires Fnv(key + [c]) == Fnv(key + [d])
    ensures c == d
  {
    var h := Fnv(key);
    FnvNext(key, c);
    FnvNext(key, d);
    WordWide();
    XorBound(h, c, BITS);
    XorBound(h, d, BITS);
    Undone(Xor(h, c, BITS));
    Undone(Xor(h, d, BITS));
    SmallFits(c);
    SmallFits(d);
    XorUndone(h, c, BITS);
    XorUndone(h, d, BITS);
  }

  lemma SmallFits(c: Byte)
    ensures c < Pow2(BITS)
  {
    WordWide();
  }

  // ---- Routing ----

  function Route(key: Bytes, shards: nat): (s: nat)
    ensures shards > 0 ==> s < shards
  {
    Fnv(key) % (if shards == 0 then 1 else shards)
  }

  method RouteShard(key: Bytes, shards: nat) returns (s: nat)
    ensures s == Fnv(key) % (if shards == 0 then 1 else shards) && s == Route(key, shards)
  {
    var hash := FNV_OFFSET;
    for i := 0 to |key|
      invariant hash == Fnv(key[..i])
    {
      assert key[..i + 1] == key[..i] + [key[i]];
      FnvNext(key[..i], key[i]);
      hash := Times(Xor(hash, key[i], BITS));
    }
    assert key[..|key|] == key;
    s := hash % (if shards == 0 then 1 else shards);
  }
}
