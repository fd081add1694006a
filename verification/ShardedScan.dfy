/** Scans over a sharded table: every shard is scanned and the results are put together and sorted. */
module ShardedScan {
  import opened ByteStrings
  import opened KeyEncoding
  import opened MvccStore
  import opened MvccIterator
  import opened ShardRouting

  type Pair = (Bytes, Bytes)

  // ---- Lists of rows ----

  ghost predicate Ascending(s: seq<Pair>) {
    forall i, j :: 0 <= i < j < |s| ==> Less(s[i].0, s[j].0)
  }

  ghost predicate Distinct(s: seq<Pair>) {
    forall i, j :: 0 <= i < j < |s| ==> s[i].0 != s[j].0
  }

  /** An ascending list is determined by what is in it. */
  lemma {:induction false} AscendingUnique(a: seq<Pair>, b: seq<Pair>)
    requires Ascending(a) && Ascending(b) && forall p :: p in a <==> p in b
    ensures a == b
  {
    assert |a| > 0 ==> a[0] in a;
    assert |b| > 0 ==> b[0] in b;
    if a != [] {
      SameHead(a, b);
      forall p ensures p in a[1..] <==> p in b[1..] { InTail(a, p); InTail(b, p); }
      AscendingUnique(a[1..], b[1..]);
    }
  }

  lemma SameHead(a: seq<Pair>, b: seq<Pair>)
    requires a != [] && b != [] && Ascending(a) && Ascending(b) && a[0] in b && b[0] in a
    ensures a[0] == b[0]
  {
    var i :| 0 <= i < |b| && b[i] == a[0];
    var j :| 0 <= j < |a| && a[j] == b[0];
    Trichotomy(a[0].0, b[0].0);
  }

  lemma InTail(a: seq<Pair>, p: Pair)
    requires a != [] && Ascending(a)
    ensures p in a[1..] <==> p in a && p != a[0]
  {
    Irreflexive(a[0].0);
    if p in a && p != a[0] {
      var i :| 0 <= i < |a| && a[i] == p;
      assert a[1..][i - 1] == p;
    }
    if p in a[1..] {
      var i :| 0 <= i < |a[1..]| && a[1..][i] == p;
      assert a[i + 1] == p;
    }
  }

  function Insert(p: Pair, s: seq<Pair>): seq<Pair> {
    if s == [] then [p]
    else if Less(p.0, s[0].0) then [p] + s
    else [s[0]] + Insert(p, s[1..])
  }

  /** Sorted by key. */
  function Sort(s: seq<Pair>): seq<Pair> {
    if s == [] then [] else Insert(s[|s| - 1], Sort(s[..|s| - 1]))
  }

  lemma {:induction false} InsertHas(p: Pair, s: seq<Pair>, q: Pair)
    ensures q in Insert(p, s) <==> q == p || q in s
  {
    if s != [] && !Less(p.0, s[0].0) {
      InsertHas(p, s[1..], q);
      assert s == [s[0]] + s[1..];
    }
  }

  lemma {:induction false} InsertAscends(p: Pair, s: seq<Pair>)
    requires Ascending(s) && forall q :: q in s ==> q.0 != p.0
    ensures Ascending(Insert(p, s))
  {
    if s != [] {
      assert s[0] in s;
      Trichotomy(p.0, s[0].0);
      if Less(p.0, s[0].0) {
        forall i | 0 <= i < |s| ensures Less(p.0, s[i].0) { if i > 0 { Transitive(p.0, s[0].0, s[i].0); } }
      } else {
        InsertAscends(p, s[1..]);
        var rest := Insert(p, s[1..]);
        forall i | 0 <= i < |rest| ensures Less(s[0].0, rest[i].0) {
          assert rest[i] in rest;
          InsertHas(p, s[1..], rest[i]);
          assert rest[i] == p || exists j :: 0 <= j < |s[1..]| && s[1..][j] == rest[i];
        }
      }
    }
  }

  lemma {:induction false} SortHas(s: seq<Pair>, q: Pair)
    ensures q in Sort(s) <==> q in s
  {
    if s != [] {
      SortHas(s[..|s| - 1], q);
      InsertHas(s[|s| - 1], Sort(s[..|s| - 1]), q);
      assert s == s[..|s| - 1] + [s[|s| - 1]];
    }
  }

  lemma {:induction false} SortAscends(s: seq<Pair>)
    requires Distinct(s)
    ensures Ascending(Sort(s))
  {
    if s != [] {
      var n := |s| - 1;
      SortAscends(s[..n]);
      forall q | q in Sort(s[..n]) ensures q.0 != s[n].0 {
        SortHas(s[..n], q);
        var i :| 0 <= i < n && s[i] == q;
      }
      InsertAscends(s[n], Sort(s[..n]));
    }
  }

  // ---- One store and many ----

  /** Every row lies on the shard its key is routed to. */
  ghost predicate Placed(shards: seq<seq<Row>>) {
    forall s, t: U32, pk: Bytes, ts: U64, v: Bytes {:trigger Holds(shards[s], t, pk, ts, v)} ::
      0 <= s < |shards| && Holds(shards[s], t, pk, ts, v) ==> Route(pk, |shards|) == s
  }

  /** One store with the rows of all the shards. */
  ghost predicate Merged(all: seq<Row>, shards: seq<seq<Row>>) {
    && |shards| > 0
    && forall t: U32, pk: Bytes, ts: U64, v: Bytes :: Holds(all, t, pk, ts, v) <==>
       Holds(shards[Route(pk, |shards|)], t, pk, ts, v)
  }

  lemma VisibleThere(all: seq<Row>, shards: seq<seq<Row>>, r: Range, e: Entry)
    requires Merged(all, shards)
    ensures Visible(all, r, e) <==> Visible(shards[Route(e.pk, |shards|)], r, e)
  {
    var rows := shards[Route(e.pk, |shards|)];
    forall ts: U64, v: Bytes ensures Holds(all, r.table, e.pk, ts, v) <==> Holds(rows, r.table, e.pk, ts, v) {}
  }

  lemma VisibleOnce(shards: seq<seq<Row>>, r: Range, e: Entry, s: nat)
    requires Placed(shards) && s < |shards| && Visible(shards[s], r, e)
    ensures s == Route(e.pk, |shards|)
  {
    assert Holds(shards[s], r.table, e.pk, e.ts, e.value);
  }

  function PairsOf(es: seq<Entry>): (ps: seq<Pair>)
    ensures |ps| == |es| && forall i :: 0 <= i < |es| ==> ps[i] == (es[i].pk, es[i].value)
  {
    if es == [] then [] else [(es[0].pk, es[0].value)] + PairsOf(es[1..])
  }

  /** The rows p stands for. */
  ghost predicate Shown(rows: seq<Row>, r: Range, p: Pair) {
    exists ts: U64 :: Visible(rows, r, Entry(p.0, ts, p.1))
  }

  /** What a scan of one store lists. */
  ghost predicate IsScan(rows: seq<Row>, r: Range, ps: seq<Pair>) {
    Ascending(ps) && forall p :: p in ps <==> Shown(rows, r, p)
  }

  lemma ScanPairs(rows: seq<Row>, r: Range, es: seq<Entry>)
    requires (forall n, m :: 0 <= n < m < |es| ==> Less(es[n].pk, es[m].pk)) && forall e :: e in es <==>
             Visible(rows, r, e)
    ensures IsScan(rows, r, PairsOf(es))
  {
    var ps := PairsOf(es);
    forall p ensures p in ps <==> Shown(rows, r, p) {
      if p in ps {
        var i :| 0 <= i < |ps| && ps[i] == p;
        assert es[i] in es;
        assert Visible(rows, r, Entry(p.0, es[i].ts, p.1));
      }
      if Shown(rows, r, p) {
        var ts: U64 :| Visible(rows, r, Entry(p.0, ts, p.1));
        assert Entry(p.0, ts, p.1) in es;
        var i :| 0 <= i < |es| && es[i] == Entry(p.0, ts, p.1);
        assert ps[i] == p;
      }
    }
  }

  /** What has been gathered from the first n shards. */
  ghost predicate Gathered(shards: seq<seq<Row>>, r: Range, ps: seq<Pair>, n: nat) {
    && Distinct(ps)
    && forall p {:trigger p in ps} :: p in ps <==> exists s :: 0 <= s < n && s < |shards| && Shown(shards[s], r, p)
  }

  lemma GatherNext(shards: seq<seq<Row>>, r: Range, ps: seq<Pair>, n: nat, more: seq<Pair>)
    requires Placed(shards) && n < |shards| && Gathered(shards, r, ps, n) && IsScan(shards[n], r, more)
    ensures Gathered(shards, r, ps + more, n + 1)
  {
    var out := ps + more;
    forall i, j | 0 <= i < |ps| && 0 <= j < |more|
      ensures ps[i].0 != more[j].0
    { ElsewhereOnly(shards, r, ps, n, more, i, j); }
    forall i, j | 0 <= i < j < |out| ensures out[i].0 != out[j].0 {
      if i >= |ps| { Irreflexive(more[i - |ps|].0); }
    }
    forall p ensures p in out <==> exists s :: 0 <= s < n + 1 && s < |shards| && Shown(shards[s], r, p) {
      assert p in out <==> p in ps || p in more;
    }
  }

  lemma ElsewhereOnly(shards: seq<seq<Row>>, r: Range, ps: seq<Pair>, n: nat, more: seq<Pair>, i: nat, j: nat)
    requires Placed(shards) && n < |shards| && Gathered(shards, r, ps, n) && IsScan(shards[n], r, more)
    requires i < |ps| && j < |more|
    ensures ps[i].0 != more[j].0
  {
    assert ps[i] in ps && more[j] in more;
    var s :| 0 <= s < n && s < |shards| && Shown(shards[s], r, ps[i]);
    var ts: U64 :| Visible(shards[s], r, Entry(ps[i].0, ts, ps[i].1));
    var ts': U64 :| Visible(shards[n], r, Entry(more[j].0, ts', more[j].1));
    VisibleOnce(shards, r, Entry(ps[i].0, ts, ps[i].1), s);
    VisibleOnce(shards, r, Entry(more[j].0, ts', more[j].1), n);
  }

  /** The coordinator's scan. For rows placed by routing it is the scan of one store that holds all of
      them. */
  method ScanShards(shards: seq<seq<Row>>, r: Range) returns (out: seq<Pair>)
    requires Placed(shards) && forall s :: 0 <= s < |shards| ==> Sorted(shards[s]) && PrefixFree(shards[s])
    ensures forall all :: Merged(all, shards) ==> IsScan(all, r, out)
  {
    out := [];
    for s := 0 to |shards|
      invariant Gathered(shards, r, out, s)
    {
      var es := Scan(shards[s], r);
      ScanPairs(shards[s], r, es);
      GatherNext(shards, r, out, s, PairsOf(es));
      out := out + PairsOf(es);
    }
    ghost var gathered := out;
    out := Sort(out);
    forall all | Merged(all, shards) ensures IsScan(all, r, out) { SortedIsScan(shards, r, gathered, all); }
  }

  lemma SortedIsScan(shards: seq<seq<Row>>, r: Range, gathered: seq<Pair>, all: seq<Row>)
    requires Placed(shards) && Gathered(shards, r, gathered, |shards|) && Merged(all, shards)
    ensures IsScan(all, r, Sort(gathered))
  {
    SortAscends(gathered);
    forall p ensures p in Sort(gathered) <==> Shown(all, r, p) {
      SortHas(gathered, p);
      ShownThere(all, shards, r, p);
    }
  }

  /** There is only one such list. */
  lemma OneScan(rows: seq<Row>, r: Range, a: seq<Pair>, b: seq<Pair>)
    requires IsScan(rows, r, a) && IsScan(rows, r, b)
    ensures a == b
  {
    forall p ensures p in a <==> p in b { assert p in a <==> Shown(rows, r, p); }
    AscendingUnique(a, b);
  }

  lemma ShownThere(all: seq<Row>, shards: seq<seq<Row>>, r: Range, p: Pair)
    requires Placed(shards) && Merged(all, shards)
    ensures Shown(all, r, p) <==> exists s :: 0 <= s < |shards| && Shown(shards[s], r, p)
  {
    var home := Route(p.0, |shards|);
    forall ts: U64 ensures Visible(all, r, Entry(p.0, ts, p.1)) <==> Visible(shards[home], r, Entry(p.0, ts, p.1)) {
      VisibleThere(all, shards, r, Entry(p.0, ts, p.1));
    }
    forall s | 0 <= s < |shards| && Shown(shards[s], r, p) ensures s == home {
      var ts: U64 :| Visible(shards[s], r, Entry(p.0, ts, p.1));
      VisibleOnce(shards, r, Entry(p.0, ts, p.1), s);
    }
  }
}
