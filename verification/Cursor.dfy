/** Decoders that take one thing after the other off the front of a byte string. */
module Cursor {
  import opened ByteStrings
  import opened Framing

  // ---- Numbers and byte strings ----

  function Take32(b: Bytes): Option<(U32, Bytes)> {
    if |b| < 4 then None else Bound4(b[..4]); Some((FromLe(b[..4]), b[4..]))
  }

  function Take64(b: Bytes): Option<(U64, Bytes)> {
    if |b| < 8 then None else Bound8(b[..8]); Some((FromLe(b[..8]), b[8..]))
  }

  /** A byte string behind its 32-bit length. */
  function TakeBytes(b: Bytes): Option<(Bytes, Bytes)> {
    match Take32(b)
    case None => None
    case Some((n, rest)) => if |rest| < n then None else Some((rest[..n], rest[n..]))
  }

  lemma Took32(v: nat, tail: Bytes)
    ensures Take32(Le(4, v) + tail) == Some((v % 0x1_0000_0000, tail))
  {
    Fits32(v);
    assert (Le(4, v) + tail)[..4] == Le(4, v);
  }

  lemma TookWord(v: U32, tail: Bytes)
    ensures Take32(Le(4, v) + tail) == Some((v, tail))
  {
    Took32(v, tail);
  }

  lemma Took64(v: U64, tail: Bytes)
    ensures Take64(Le(8, v) + tail) == Some((v, tail))
  {
    Exact64(v);
    assert (Le(8, v) + tail)[..8] == Le(8, v);
  }

  /** Exactly the strings shorter than 2^32 come back; of a longer one only a part is taken. */
  lemma TookBytes(s: Bytes, tail: Bytes)
    ensures TakeBytes(AddSize(s) + tail).Some?
    ensures if |s| < 0x1_0000_0000 then TakeBytes(AddSize(s) + tail) == Some((s, tail))
            else |TakeBytes(AddSize(s) + tail).value.0| < |s|
  {
    var n := |s| % 0x1_0000_0000;
    Took32(|s|, s + tail);
    assert AddSize(s) + tail == Le(4, |s|) + (s + tail);
    if |s| < 0x1_0000_0000 {
      assert n == |s| && (s + tail)[..n] == s && (s + tail)[n..] == tail;
    }
  }

  // ---- Several things off the front ----

  type Taker<!W> = Bytes -> Option<(W, Bytes)>

  /** n things off the front; what follows them is not looked at. */
  function TakeMany<W>(take: Taker<W>, n: nat, b: Bytes): Option<seq<W>> {
    if n == 0 then Some([])
    else
      match take(b)
      case None => None
      case Some((w, rest)) =>
        match TakeMany(take, n - 1, rest)
        case None => None
        case Some(ws) => Some([w] + ws)
  }

  /** The taker undoes the writer exactly for the things that are ok. */
  ghost predicate Undoes<W(!new)>(take: Taker<W>, enc: W -> Bytes, ok: W -> bool) {
    forall w, tail {:trigger take(enc(w) + tail)} ::
      if ok(w) then take(enc(w) + tail) == Some((w, tail))
      else take(enc(w) + tail).Some? ==> take(enc(w) + tail).value.0 != w
  }

  lemma {:induction false} TookMany<W(!new)>(take: Taker<W>, enc: W -> Bytes, ok: W -> bool, ws: seq<W>, tail: Bytes)
    requires Undoes(take, enc, ok)
    ensures TakeMany(take, |ws|, EncodeAll(enc, ws) + tail) == Some(ws) <==> forall i :: 0 <= i < |ws| ==> ok(ws[i])
  {
    if ws != [] {
      var rest := EncodeAll(enc, ws[1..]) + tail;
      assert EncodeAll(enc, ws) + tail == enc(ws[0]) + rest;
      assert ok(ws[0]) ==> take(enc(ws[0]) + rest) == Some((ws[0], rest));
      TookMany(take, enc, ok, ws[1..], tail);
      assert ws == [ws[0]] + ws[1..];
    }
  }

  lemma {:induction false} TakenCount<W>(take: Taker<W>, n: nat, b: Bytes)
    ensures TakeMany(take, n, b).Some? ==> |TakeMany(take, n, b).value| == n
  {
    if n > 0 && take(b).Some? { TakenCount(take, n - 1, take(b).value.1); }
  }

  /** Behind a 32-bit count, a list reads back exactly when the count fits and every element is ok. */
  lemma CountedIff<W(!new)>(take: Taker<W>, enc: W -> Bytes, ok: W -> bool, ws: seq<W>)
    requires Undoes(take, enc, ok)
    ensures TakeMany(take, FromLe(Le(4, |ws|)), EncodeAll(enc, ws)) == Some(ws)
            <==> |ws| < 0x1_0000_0000 && forall i :: 0 <= i < |ws| ==> ok(ws[i])
  {
    Low32Same(|ws|);
    CountedAt(take, enc, ok, ws, FromLe(Le(4, |ws|)));
  }

  lemma CountedAt<W(!new)>(take: Taker<W>, enc: W -> Bytes, ok: W -> bool, ws: seq<W>, k: nat)
    requires Undoes(take, enc, ok)
    ensures TakeMany(take, k, EncodeAll(enc, ws)) == Some(ws) <==> k == |ws| && forall i :: 0 <= i < |ws| ==> ok(ws[i])
  {
    TookMany(take, enc, ok, ws, []);
    assert EncodeAll(enc, ws) + [] == EncodeAll(enc, ws);
    TakenCount(take, k, EncodeAll(enc, ws));
  }

  /** The unpacking loop. */
  method UnpackMany<W>(take: Taker<W>, n: nat, b: Bytes) returns (r: Option<seq<W>>)
    ensures r == TakeMany(take, n, b)
  {
    var rest, ws := b, [];
    var i := 0;
    ghost var all := TakeMany(take, n, b);
    TakenCount(take, n, b);
    if all.Some? { assert all.value[0..] == all.value; }
    while i < n
      invariant 0 <= i <= n && |ws| == i
      invariant all.None? ==> TakeMany(take, n - i, rest).None?
      invariant all.Some? ==>
                  |all.value| == n && ws == all.value[..i] && TakeMany(take, n - i, rest) == Some(all.value[i..])
    {
      var x := take(rest);
      if x.None? { return None; }
      if all.Some? {
        assert all.value[i..][0] == all.value[i] && all.value[i..][1..] == all.value[i + 1..];
        TookOne(take, n - i, rest);
      }
      ws := ws + [x.value.0];
      rest := x.value.1;
      i := i + 1;
    }
    assert TakeMany(take, n - i, rest) == Some([]);
    assert all.value[..n] == all.value;
    r := Some(ws);
  }

  lemma TookOne<W>(take: Taker<W>, n: nat, b: Bytes)
    requires n > 0 && TakeMany(take, n, b).Some?
    ensures take(b).Some? && TakeMany(take, n, b).value != [] && TakeMany(take, n, b).value[0] == take(b).value.0
    ensures TakeMany(take, n - 1, take(b).value.1) == Some(TakeMany(take, n, b).value[1..])
  {
    var ws := TakeMany(take, n - 1, take(b).value.1).value;
    assert ([take(b).value.0] + ws)[1..] == ws;
  }
}
