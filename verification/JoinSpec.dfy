/** The inner join as a multiset of row pairs, and the ways to take it apart. */
module JoinSpec {
  import opened ByteStrings

  datatype Keyed = Keyed(row: Bytes, key: Bytes)

  /** A left row and a right row. */
  type Pair = (Bytes, Bytes)

  function Match(l: Keyed, r: Keyed): multiset<Pair> {
    if l.key == r.key then multiset{(l.row, r.row)} else multiset{}
  }

  /** One left row with all right rows. */
  function RowJoin(l: Keyed, right: seq<Keyed>): multiset<Pair> {
    if right == [] then multiset{} else RowJoin(l, right[..|right| - 1]) + Match(l, right[|right| - 1])
  }

  /** All left rows with one right row. */
  function ColJoin(left: seq<Keyed>, r: Keyed): multiset<Pair> {
    if left == [] then multiset{} else ColJoin(left[..|left| - 1], r) + Match(left[|left| - 1], r)
  }

  function Join(left: seq<Keyed>, right: seq<Keyed>): multiset<Pair> {
    if left == [] then multiset{} else Join(left[..|left| - 1], right) + RowJoin(left[|left| - 1], right)
  }

  /** Some row among the first n matches a right row in p. */
  ghost predicate Matched(left: seq<Keyed>, n: nat, right: seq<Keyed>, p: Pair) {
    exists i, j :: 0 <= i < n && i < |left| && 0 <= j < |right| && Pairs(left[i], right[j], p)
  }

  /** Rows with equal keys, put together. */
  predicate Pairs(l: Keyed, r: Keyed, p: Pair) { l.key == r.key && p == (l.row, r.row) }

  /** The pairs are those of rows with equal keys. */
  lemma {:induction false} JoinHas(left: seq<Keyed>, right: seq<Keyed>, p: Pair)
    ensures p in Join(left, right) <==> Matched(left, |left|, right, p)
  {
    if left != [] {
      var n := |left| - 1;
      JoinHas(left[..n], right, p);
      RowJoinHas(left[n], right, p);
      LastRow(left, n, right, p);
    }
  }

  lemma LastRow(left: seq<Keyed>, n: nat, right: seq<Keyed>, p: Pair)
    requires n < |left|
    ensures Matched(left, n + 1, right, p) <==>
            || Matched(left[..n], n, right, p)
            || exists j :: 0 <= j < |right| && Pairs(left[n], right[j], p)
  {
    var a := left[..n];
    assert forall i :: 0 <= i < n ==> a[i] == left[i];
  }

  lemma {:induction false} RowJoinHas(l: Keyed, right: seq<Keyed>, p: Pair)
    ensures p in RowJoin(l, right) <==> exists j :: 0 <= j < |right| && Pairs(l, right[j], p)
  {
    if right != [] {
      var n := |right| - 1;
      RowJoinHas(l, right[..n], p);
      assert forall j :: 0 <= j < n ==> right[..n][j] == right[j];
    }
  }

  lemma AddLeft(left: seq<Keyed>, l: Keyed, right: seq<Keyed>)
    ensures Join(left + [l], right) == Join(left, right) + RowJoin(l, right)
  {
    assert (left + [l])[..|left|] == left;
  }

  lemma AddRow(l: Keyed, right: seq<Keyed>, r: Keyed)
    ensures RowJoin(l, right + [r]) == RowJoin(l, right) + Match(l, r)
  {
    assert (right + [r])[..|right|] == right;
  }

  lemma {:induction false} AddRight(left: seq<Keyed>, right: seq<Keyed>, r: Keyed)
    ensures Join(left, right + [r]) == Join(left, right) + ColJoin(left, r)
  {
    if left != [] {
      var n := |left| - 1;
      AddRight(left[..n], right, r);
      AddRow(left[n], right, r);
    }
  }

  lemma {:induction false} EmptyRight(left: seq<Keyed>)
    ensures Join(left, []) == multiset{}
  {
    if left != [] { EmptyRight(left[..|left| - 1]); }
  }

  lemma {:induction false} SplitRight(left: seq<Keyed>, a: seq<Keyed>, b: seq<Keyed>)
    ensures Join(left, a + b) == Join(left, a) + Join(left, b)
    decreases |b|
  {
    if b == [] {
      EmptyRight(left);
      assert a + b == a;
    } else {
      var n := |b| - 1;
      SplitRight(left, a, b[..n]);
      AddRight(left, a + b[..n], b[n]);
      AddRight(left, b[..n], b[n]);
      assert a + b == a + b[..n] + [b[n]] && b == b[..n] + [b[n]];
    }
  }

  lemma {:induction false} SplitLeft(a: seq<Keyed>, b: seq<Keyed>, right: seq<Keyed>)
    ensures Join(a + b, right) == Join(a, right) + Join(b, right)
    decreases |b|
  {
    if b == [] {
      assert a + b == a;
    } else {
      var n := |b| - 1;
      SplitLeft(a, b[..n], right);
      AddLeft(a + b[..n], b[n], right);
      assert a + b == a + b[..n] + [b[n]];
    }
  }

  lemma TakenOut<T>(b: seq<T>, i: nat)
    requires i < |b|
    ensures multiset(b[..i] + b[i + 1..]) == multiset(b) - multiset{b[i]}
  {
    assert b == b[..i] + [b[i]] + b[i + 1..];
  }

  lemma JoinTakenOut(left: seq<Keyed>, b: seq<Keyed>, i: nat)
    requires i < |b|
    ensures Join(left, b) == Join(left, b[..i] + b[i + 1..]) + ColJoin(left, b[i])
  {
    var u, v := b[..i], b[i + 1..];
    assert b == u + [b[i]] + v;
    SplitRight(left, u + [b[i]], v);
    AddRight(left, u, b[i]);
    SplitRight(left, u, v);
  }

  /** The order of the right rows does not matter. */
  lemma {:induction false} PermuteRight(left: seq<Keyed>, a: seq<Keyed>, b: seq<Keyed>)
    requires multiset(a) == multiset(b)
    ensures Join(left, a) == Join(left, b)
    decreases |a|
  {
    if a == [] {
      assert |multiset(b)| == 0;
    } else {
      var n := |a| - 1;
      assert a == a[..n] + [a[n]];
      assert a[n] in multiset(b);
      var i :| 0 <= i < |b| && b[i] == a[n];
      TakenOut(b, i);
      PermuteRight(left, a[..n], b[..i] + b[i + 1..]);
      JoinTakenOut(left, b, i);
      AddRight(left, a[..n], a[n]);
    }
  }

  lemma JoinTakenOutLeft(b: seq<Keyed>, i: nat, right: seq<Keyed>)
    requires i < |b|
    ensures Join(b, right) == Join(b[..i] + b[i + 1..], right) + RowJoin(b[i], right)
  {
    var u, v := b[..i], b[i + 1..];
    assert b == u + [b[i]] + v;
    SplitLeft(u + [b[i]], v, right);
    AddLeft(u, b[i], right);
    SplitLeft(u, v, right);
  }

  /** Nor does the order of the left rows. */
  lemma {:induction false} PermuteLeft(a: seq<Keyed>, b: seq<Keyed>, right: seq<Keyed>)
    requires multiset(a) == multiset(b)
    ensures Join(a, right) == Join(b, right)
    decreases |a|
  {
    if a == [] {
      assert |multiset(b)| == 0;
    } else {
      var n := |a| - 1;
      assert a == a[..n] + [a[n]];
      assert a[n] in multiset(b);
      var i :| 0 <= i < |b| && b[i] == a[n];
      TakenOut(b, i);
      PermuteLeft(a[..n], b[..i] + b[i + 1..], right);
      JoinTakenOutLeft(b, i, right);
    }
  }

  // ---- Rows with keys, and rows that are kept ----

  function WithKeys(rows: seq<Bytes>, key: Bytes -> Bytes): (ks: seq<Keyed>)
    ensures |ks| == |rows| && forall i :: 0 <= i < |rows| ==> ks[i] == Keyed(rows[i], key(rows[i]))
  {
    if rows == [] then [] else WithKeys(rows[..|rows| - 1], key) + [Keyed(rows[|rows| - 1], key(rows[|rows| - 1]))]
  }

  lemma KeysConcat(a: seq<Bytes>, b: seq<Bytes>, key: Bytes -> Bytes)
    ensures WithKeys(a + b, key) == WithKeys(a, key) + WithKeys(b, key)
  {}

  lemma {:induction false} KeyCount(a: seq<Bytes>, key: Bytes -> Bytes, x: Keyed)
    ensures multiset(WithKeys(a, key))[x] == if x.key == key(x.row) then multiset(a)[x.row] else 0
  {
    if a != [] {
      var n := |a| - 1;
      KeyCount(a[..n], key, x);
      assert a == a[..n] + [a[n]];
    }
  }

  lemma KeysPermute(a: seq<Bytes>, b: seq<Bytes>, key: Bytes -> Bytes)
    requires multiset(a) == multiset(b)
    ensures multiset(WithKeys(a, key)) == multiset(WithKeys(b, key))
  {
    forall x ensures multiset(WithKeys(a, key))[x] == multiset(WithKeys(b, key))[x] {
      KeyCount(a, key, x);
      KeyCount(b, key, x);
    }
  }

  function Kept(rows: seq<Keyed>, ok: Bytes -> bool): seq<Keyed> {
    if rows == [] then []
    else
      var g, x := Kept(rows[..|rows| - 1], ok), rows[|rows| - 1];
      if ok(x.row) then g + [x] else g
  }

  lemma {:induction false} AllKept(rows: seq<Keyed>, ok: Bytes -> bool)
    requires forall i :: 0 <= i < |rows| ==> ok(rows[i].row)
    ensures Kept(rows, ok) == rows
  {
    if rows != [] { AllKept(rows[..|rows| - 1], ok); }
  }

  // ---- Partitions by a hash of the key ----

  function Part(rows: seq<Keyed>, hash: Bytes -> nat, s: nat): seq<Keyed> {
    if rows == [] then []
    else
      var p, x := Part(rows[..|rows| - 1], hash, s), rows[|rows| - 1];
      if hash(x.key) == s then p + [x] else p
  }

  /** A row finds all its partners in its own part. */
  lemma {:induction false} PartnersInPart(l: Keyed, right: seq<Keyed>, hash: Bytes -> nat)
    ensures RowJoin(l, Part(right, hash, hash(l.key))) == RowJoin(l, right)
  {
    if right != [] {
      var n := |right| - 1;
      PartnersInPart(l, right[..n], hash);
      AddRow(l, Part(right[..n], hash, hash(l.key)), right[n]);
    }
  }

  lemma {:induction false} PartKept(rows: seq<Keyed>, hash: Bytes -> nat, s: nat, ok: Bytes -> bool)
    requires forall i :: 0 <= i < |rows| ==> ok(rows[i].row)
    ensures Kept(Part(rows, hash, s), ok) == Part(rows, hash, s)
  {
    if rows != [] {
      var n := |rows| - 1;
      PartKept(rows[..n], hash, s, ok);
      var p := Part(rows[..n], hash, s);
      assert (p + [rows[n]])[..|p|] == p;
    }
  }

  lemma PartAdd(rows: seq<Keyed>, x: Keyed, hash: Bytes -> nat, s: nat)
    ensures Part(rows + [x], hash, s) == if hash(x.key) == s then Part(rows, hash, s) + [x] else Part(rows, hash, s)
  {
    assert (rows + [x])[..|rows|] == rows;
  }

  /** The parts joined one by one. */
  function JoinAll(lefts: seq<seq<Keyed>>, rights: seq<seq<Keyed>>): multiset<Pair>
    requires |lefts| == |rights|
  {
    if lefts == [] then multiset{}
    else
      var n := |lefts| - 1;
      JoinAll(lefts[..n], rights[..n]) + Join(lefts[n], rights[n])
  }

  /** One more left row adds its partners in its part. */
  lemma {:induction false} AddToPart(lefts: seq<seq<Keyed>>, rights: seq<seq<Keyed>>, h: nat, l: Keyed)
    requires h < |lefts| == |rights|
    ensures JoinAll(lefts[h := lefts[h] + [l]], rights) == JoinAll(lefts, rights) + RowJoin(l, rights[h])
  {
    var n := |lefts| - 1;
    var after := lefts[h := lefts[h] + [l]];
    if h == n {
      assert after[..n] == lefts[..n];
      AddLeft(lefts[n], l, rights[n]);
    } else {
      assert after[..n] == lefts[..n][h := lefts[..n][h] + [l]];
      AddToPart(lefts[..n], rights[..n], h, l);
    }
  }

  /** The parts of a list of rows. */
  ghost predicate Parted(rows: seq<Keyed>, hash: Bytes -> nat, parts: seq<seq<Keyed>>) {
    forall s :: 0 <= s < |parts| ==> parts[s] == Part(rows, hash, s)
  }

  lemma PartedAdd(rows: seq<Keyed>, x: Keyed, hash: Bytes -> nat, parts: seq<seq<Keyed>>)
    requires Parted(rows, hash, parts) && hash(x.key) < |parts|
    ensures Parted(rows + [x], hash, parts[hash(x.key) := parts[hash(x.key)] + [x]])
  {
    forall s | 0 <= s < |parts| { PartAdd(rows, x, hash, s); }
  }

  lemma {:induction false} EmptyParts(lefts: seq<seq<Keyed>>, rights: seq<seq<Keyed>>)
    requires |lefts| == |rights| && forall s :: 0 <= s < |lefts| ==> lefts[s] == []
    ensures JoinAll(lefts, rights) == multiset{}
  {
    if lefts != [] { EmptyParts(lefts[..|lefts| - 1], rights[..|lefts| - 1]); }
  }

  /** Joining part by part gives the whole join, for any hash into the parts. */
  lemma {:induction false} PartsAreWhole(left: seq<Keyed>, right: seq<Keyed>, hash: Bytes -> nat,
      lefts: seq<seq<Keyed>>, rights: seq<seq<Keyed>>)
    requires |lefts| == |rights| && (forall k :: hash(k) < |rights|) && Parted(left, hash, lefts)
    requires Parted(right, hash, rights)
    ensures JoinAll(lefts, rights) == Join(left, right)
    decreases |left|
  {
    if left == [] {
      EmptyParts(lefts, rights);
    } else {
      var m := |left| - 1;
      var l := left[m];
      var h := hash(l.key);
      var before := lefts[h := Part(left[..m], hash, h)];
      assert left == left[..m] + [l];
      forall s | 0 <= s < |lefts| ensures before[s] == Part(left[..m], hash, s) { PartAdd(left[..m], l, hash, s); }
      PartAdd(left[..m], l, hash, h);
      assert lefts == before[h := before[h] + [l]];
      PartsAreWhole(left[..m], right, hash, before, rights);
      AddToPart(before, rights, h, l);
      PartnersInPart(l, right, hash);
    }
  }
}
