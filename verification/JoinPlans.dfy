/** The join plans: hash join on a shard, broadcast of the smaller side and shuffle by join key. */
module JoinPlans {
  import opened ByteStrings
  import opened RowCodec
  import opened JoinSpec

  // ---- The hash join of one shard ----

  /** Does a row decode to the right number of columns? */
  function Decodes(columns: nat): Bytes -> bool { (row: Bytes) => DecodeRow(row, columns) != [] }

  /** The bucket of a key: its rows, in order. */
  function Bucket(rows: seq<Keyed>, key: Bytes): seq<Bytes> {
    if rows == [] then []
    else
      var b, x := Bucket(rows[..|rows| - 1], key), rows[|rows| - 1];
      if x.key == key then b + [x.row] else b
  }

  /** Output pairs have the left row first; flip says that the build side is the right one. */
  function Oriented(flip: bool, build: Bytes, probe: Bytes): Pair {
    if flip then (probe, build) else (build, probe)
  }

  function Emitted(flip: bool, bucket: seq<Bytes>, ok: Bytes -> bool, probe: Bytes): seq<Pair> {
    if bucket == [] then []
    else
      var e, b := Emitted(flip, bucket[..|bucket| - 1], ok, probe), bucket[|bucket| - 1];
      if ok(b) then e + [Oriented(flip, b, probe)] else e
  }

  function Sided(flip: bool, build: seq<Keyed>, probe: seq<Keyed>): multiset<Pair> {
    if flip then Join(probe, build) else Join(build, probe)
  }

  function SidedOne(flip: bool, build: seq<Keyed>, p: Keyed): multiset<Pair> {
    if flip then RowJoin(p, build) else ColJoin(build, p)
  }

  lemma SidedAdd(flip: bool, build: seq<Keyed>, probe: seq<Keyed>, p: Keyed)
    ensures Sided(flip, build, probe + [p]) == Sided(flip, build, probe) + SidedOne(flip, build, p)
  {
    if flip { AddLeft(probe, p, build); } else { AddRight(build, probe, p); }
  }

  lemma SidedOneAdd(flip: bool, build: seq<Keyed>, b: Keyed, p: Keyed)
    ensures SidedOne(flip, build + [b], p) ==
            SidedOne(flip, build, p) + if b.key == p.key then multiset{Oriented(flip, b.row, p.row)} else multiset{}
  {
    assert (build + [b])[..|build|] == build;
  }

  /** What a probe row emits are its partners. */
  lemma {:induction false} EmittedIs(flip: bool, build: seq<Keyed>, ok: Bytes -> bool, p: Keyed)
    ensures multiset(Emitted(flip, Bucket(build, p.key), ok, p.row)) == SidedOne(flip, Kept(build, ok), p)
  {
    if build != [] {
      var n := |build| - 1;
      var b := build[n];
      EmittedIs(flip, build[..n], ok, p);
      var bucket := Bucket(build[..n], p.key);
      if b.key == p.key { assert (bucket + [b.row])[..|bucket|] == bucket; }
      SidedOneAdd(flip, Kept(build[..n], ok), b, p);
    }
  }

  /** The build table: every bucket. */
  ghost predicate Built(table: map<Bytes, seq<Bytes>>, rows: seq<Keyed>) {
    forall k :: (if k in table then table[k] else []) == Bucket(rows, k)
  }

  method BuildTable(build: seq<Keyed>) returns (table: map<Bytes, seq<Bytes>>)
    ensures Built(table, build)
  {
    table := map[];
    for i := 0 to |build|
      invariant Built(table, build[..i])
    {
      var x := build[i];
      assert build[..i + 1][..i] == build[..i];
      table := table[x.key := (if x.key in table then table[x.key] else []) + [x.row]];
    }
    assert build[..|build|] == build;
  }

  method EmitBucket(flip: bool, bucket: seq<Bytes>, columns: nat, probe: Bytes) returns (out: seq<Pair>)
    ensures out == Emitted(flip, bucket, Decodes(columns), probe)
  {
    out := [];
    for i := 0 to |bucket|
      invariant out == Emitted(flip, bucket[..i], Decodes(columns), probe)
    {
      assert bucket[..i + 1][..i] == bucket[..i];
      var cells := DecodeRow(bucket[i], columns);
      if cells != [] { out := out + [Oriented(flip, bucket[i], probe)]; }
    }
    assert bucket[..|bucket|] == bucket;
  }

  /** The shard's hash join gives the join of the rows that decode. */
  method LocalHashJoin(flip: bool, build: seq<Keyed>, probe: seq<Keyed>, buildColumns: nat, probeColumns: nat)
      returns (out: seq<Pair>)
    ensures multiset(out) == Sided(flip, Kept(build, Decodes(buildColumns)), Kept(probe, Decodes(probeColumns)))
  {
    var table := BuildTable(build);
    ghost var b := Kept(build, Decodes(buildColumns));
    out := [];
    EmptyRight(b);
    for j := 0 to |probe|
      invariant multiset(out) == Sided(flip, b, Kept(probe[..j], Decodes(probeColumns)))
    {
      assert probe[..j + 1][..j] == probe[..j];
      var p := probe[j];
      EmittedIs(flip, build, Decodes(buildColumns), p);
      SidedAdd(flip, b, Kept(probe[..j], Decodes(probeColumns)), p);
      var cells := DecodeRow(p.row, probeColumns);
      assert Decodes(probeColumns)(p.row) <==> cells != [];
      if p.key in table && cells != [] {
        var more := EmitBucket(flip, table[p.key], buildColumns, p.row);
        out := out + more;
      } else if cells != [] {
        assert Bucket(build, p.key) == [];
      }
    }
    assert probe[..|probe|] == probe;
  }

  // ---- Rows with their join keys ----

  ghost predicate AllWell(t: Table, rows: seq<Bytes>) {
    forall i :: 0 <= i < |rows| ==> WellFormed(t, rows[i])
  }

  /** The cell of column c. */
  function CellAt(c: nat): Bytes -> Bytes { (row: Bytes) => if c < |Deserialize(row)| then Deserialize(row)[c] else [] }

  lemma WellDecodes(t: Table, rows: seq<Bytes>)
    requires AllWell(t, rows)
    ensures forall i :: 0 <= i < |rows| ==> Decodes(|t.columns|)(rows[i])
  {
    forall i | 0 <= i < |rows| ensures Decodes(|t.columns|)(rows[i]) { DecodesAlike(t, rows[i]); }
  }

  lemma WellKept(t: Table, rows: seq<Bytes>, c: nat)
    requires AllWell(t, rows)
    ensures Kept(WithKeys(rows, CellAt(c)), Decodes(|t.columns|)) == WithKeys(rows, CellAt(c))
  {
    WellDecodes(t, rows);
    AllKept(WithKeys(rows, CellAt(c)), Decodes(|t.columns|));
  }

  /** Column c of the table, by its qualified name. */
  ghost predicate Names(t: Table, name: string, c: nat) {
    ValidTable(t) && c < |t.columns| && name == Qualified(t, t.columns[c])
  }

  /** The coordinator attaches the join keys. */
  method KeyRows(t: Table, rows: seq<Bytes>, name: string, ghost c: nat) returns (ks: seq<Keyed>)
    requires Names(t, name, c) && AllWell(t, rows)
    ensures ks == WithKeys(rows, CellAt(c))
  {
    ks := [];
    for i := 0 to |rows|
      invariant ks == WithKeys(rows[..i], CellAt(c))
    {
      assert rows[..i + 1][..i] == rows[..i];
      var key := CellForColumn(t, rows[i], name);
      assert key == CellAt(c)(rows[i]);
      ks := ks + [Keyed(rows[i], key)];
    }
    assert rows[..|rows|] == rows;
  }

  /** So does a shard for the probe rows it scans itself. */
  method KeyProbes(t: Table, rows: seq<Bytes>, name: string, ghost c: nat) returns (ks: seq<Keyed>)
    requires Names(t, name, c) && AllWell(t, rows)
    ensures ks == WithKeys(rows, CellAt(c))
  {
    var idx := ColumnIndex(t.columns, name);
    BaseOfQualified(t.name, t.columns[c]);
    ks := [];
    for i := 0 to |rows|
      invariant ks == WithKeys(rows[..i], CellAt(c))
    {
      assert rows[..i + 1][..i] == rows[..i];
      DecodesAlike(t, rows[i]);
      var cells := DecodeRow(rows[i], |t.columns|);
      if cells != [] && idx < |cells| {
        assert cells[idx] == CellAt(c)(rows[i]);
        ks := ks + [Keyed(rows[i], cells[idx])];
      }
    }
    assert rows[..|rows|] == rows;
  }

  // ---- Broadcast ----

  function Flat(parts: seq<seq<Bytes>>): seq<Bytes> {
    if parts == [] then [] else Flat(parts[..|parts| - 1]) + parts[|parts| - 1]
  }

  lemma SidedConcat(flip: bool, build: seq<Keyed>, a: seq<Keyed>, b: seq<Keyed>)
    ensures Sided(flip, build, a + b) == Sided(flip, build, a) + Sided(flip, build, b)
  {
    if flip { SplitLeft(a, b, build); } else { SplitRight(build, a, b); }
  }

  lemma SidedPermutes(flip: bool, build: seq<Keyed>, a: seq<Keyed>, b: seq<Keyed>)
    requires multiset(a) == multiset(b)
    ensures Sided(flip, build, a) == Sided(flip, build, b)
  {
    if flip { PermuteLeft(a, b, build); } else { PermuteRight(build, a, b); }
  }

  /** Every shard joins the whole build side with the probe rows it has. */
  method RunBroadcastJoin(flip: bool, bt: Table, pt: Table, bname: string, pname: string,
                          build: seq<Bytes>, probeShards: seq<seq<Bytes>>,
                          ghost bc: nat, ghost pc: nat) returns (out: seq<Pair>)
    requires Names(bt, bname, bc) && AllWell(bt, build) && Names(pt, pname, pc)
    requires forall s :: 0 <= s < |probeShards| ==> AllWell(pt, probeShards[s])
    ensures multiset(out) == Sided(flip, WithKeys(build, CellAt(bc)), WithKeys(Flat(probeShards), CellAt(pc)))
  {
    var b := KeyRows(bt, build, bname, bc);
    WellKept(bt, build, bc);
    out := [];
    EmptyRight(b);
    for s := 0 to |probeShards|
      invariant multiset(out) == Sided(flip, b, WithKeys(Flat(probeShards[..s]), CellAt(pc)))
    {
      assert probeShards[..s + 1][..s] == probeShards[..s];
      var p := KeyProbes(pt, probeShards[s], pname, pc);
      WellKept(pt, probeShards[s], pc);
      var more := LocalHashJoin(flip, b, p, |bt.columns|, |pt.columns|);
      KeysConcat(Flat(probeShards[..s]), probeShards[s], CellAt(pc));
      SidedConcat(flip, b, WithKeys(Flat(probeShards[..s]), CellAt(pc)), p);
      out := out + more;
    }
    assert probeShards[..|probeShards|] == probeShards;
  }

  // ---- Shuffle ----

  method PartRows(ks: seq<Keyed>, hash: Bytes -> nat, n: nat) returns (parts: seq<seq<Keyed>>)
    requires forall k :: hash(k) < n
    ensures |parts| == n && Parted(ks, hash, parts)
  {
    parts := seq(n, _ => []);
    for i := 0 to |ks|
      invariant |parts| == n && Parted(ks[..i], hash, parts)
    {
      var h := hash(ks[i].key);
      PartedAdd(ks[..i], ks[i], hash, parts);
      assert ks[..i + 1] == ks[..i] + [ks[i]];
      parts := parts[h := parts[h] + [ks[i]]];
    }
    assert ks[..|ks|] == ks;
  }

  /** Both sides are parted by a hash of the join key and every part is joined on its shard. */
  method RunShuffleJoin(lt: Table, rt: Table, lname: string, rname: string, left: seq<Bytes>, right: seq<Bytes>,
                        hash: Bytes -> nat, n: nat, ghost lc: nat, ghost rc: nat) returns (out: seq<Pair>)
    requires forall k :: hash(k) < n
    requires Names(lt, lname, lc) && AllWell(lt, left) && Names(rt, rname, rc) && AllWell(rt, right)
    ensures multiset(out) == Join(WithKeys(left, CellAt(lc)), WithKeys(right, CellAt(rc)))
  {
    var l := KeyRows(lt, left, lname, lc);
    var r := KeyRows(rt, right, rname, rc);
    var lefts := PartRows(l, hash, n);
    var rights := PartRows(r, hash, n);
    WellDecodes(lt, left);
    WellDecodes(rt, right);
    out := [];
    for s := 0 to n
      invariant multiset(out) == JoinAll(lefts[..s], rights[..s])
    {
      PartKept(l, hash, s, Decodes(|lt.columns|));
      PartKept(r, hash, s, Decodes(|rt.columns|));
      var more := LocalHashJoin(false, lefts[s], rights[s], |lt.columns|, |rt.columns|);
      assert lefts[..s + 1][..s] == lefts[..s] && rights[..s + 1][..s] == rights[..s];
      out := out + more;
    }
    assert lefts[..n] == lefts && rights[..n] == rights;
    PartsAreWhole(l, r, hash, lefts, rights);
  }
}
