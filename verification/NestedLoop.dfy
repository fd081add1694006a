/** The executor's nested-loop join over maps from column names to cells, and the planner: whatever plan
    it picks, the result is the nested loop's. */
module NestedLoop {
  import opened ByteStrings
  import opened RowCodec
  import opened JoinSpec
  import opened JoinPlans

  type RowMap = map<string, Bytes>

  /** Enter the first i cells under their plain and their qualified column names. */
  function Bind(m: RowMap, t: Table, cells: seq<Bytes>, i: nat): RowMap
    requires i <= |t.columns| && i <= |cells|
  {
    if i == 0 then m
    else
      var c := t.columns[i - 1];
      Bind(m, t, cells, i - 1)[c := cells[i - 1]][Qualified(t, c) := cells[i - 1]]
  }

  method BindRow(m: RowMap, t: Table, cells: seq<Bytes>) returns (out: RowMap)
    requires |cells| == |t.columns|
    ensures out == Bind(m, t, cells, |cells|)
  {
    out := m;
    for i := 0 to |cells|
      invariant out == Bind(m, t, cells, i)
    {
      out := out[t.columns[i] := cells[i]][Qualified(t, t.columns[i]) := cells[i]];
    }
  }

  /** The qualified name of a column finds its cell. */
  lemma {:induction false} BindFinds(m: RowMap, t: Table, cells: seq<Bytes>, i: nat, c: nat)
    requires ValidTable(t) && c < i <= |t.columns| && i <= |cells|
    ensures var q := Qualified(t, t.columns[c]); q in Bind(m, t, cells, i) && Bind(m, t, cells, i)[q] == cells[c]
  {
    var q := Qualified(t, t.columns[c]);
    assert q[|t.name|] == '.';
    if c < i - 1 {
      BindFinds(m, t, cells, i - 1, c);
      if Qualified(t, t.columns[i - 1]) == q { QualifiedApart(t.name, t.columns[i - 1], t.name, t.columns[c]); }
    }
  }

  /** A qualified name of another table keeps its cell. */
  lemma {:induction false} BindKeeps(m: RowMap, t: Table, cells: seq<Bytes>, i: nat, other: Table, column: string)
    requires ValidTable(t) && i <= |t.columns| && i <= |cells| && other.name != t.name && '.' !in column
    requires Qualified(other, column) in m
    ensures var q := Qualified(other, column); q in Bind(m, t, cells, i) && Bind(m, t, cells, i)[q] == m[q]
  {
    var q := Qualified(other, column);
    assert q[|other.name|] == '.';
    if i > 0 {
      BindKeeps(m, t, cells, i - 1, other, column);
      if Qualified(t, t.columns[i - 1]) == q { QualifiedApart(t.name, t.columns[i - 1], other.name, column); }
    }
  }

  ghost predicate Joinable(lt: Table, rt: Table, lname: string, rname: string, lc: nat, rc: nat) {
    lt.name != rt.name && Names(lt, lname, lc) && Names(rt, rname, rc)
  }

  /** The join condition on the combined map compares the two join cells. */
  lemma ConditionIs(lt: Table, rt: Table, lname: string, rname: string, lc: nat, rc: nat, l: Bytes, r: Bytes)
    requires Joinable(lt, rt, lname, rname, lc, rc) && WellFormed(lt, l) && WellFormed(rt, r)
    ensures var base := Bind(map[], lt, Deserialize(l), |lt.columns|);
            var joined := Bind(base, rt, Deserialize(r), |rt.columns|);
            lname in joined && rname in joined && joined[lname] == CellAt(lc)(l) && joined[rname] == CellAt(rc)(r)
  {
    var base := Bind(map[], lt, Deserialize(l), |lt.columns|);
    BindFinds(map[], lt, Deserialize(l), |lt.columns|, lc);
    BindKeeps(base, rt, Deserialize(r), |rt.columns|, lt, lt.columns[lc]);
    BindFinds(base, rt, Deserialize(r), |rt.columns|, rc);
  }

  /** Combine one left row with one right row; not ok if the right row does not decode. */
  method Combine(base: RowMap, rt: Table, lname: string, rname: string, r: Bytes,
                 ghost lt: Table, ghost l: Bytes, ghost lc: nat, ghost rc: nat) returns (ok: bool, matched: bool)
    requires Joinable(lt, rt, lname, rname, lc, rc) && WellFormed(lt, l)
    requires base == Bind(map[], lt, Deserialize(l), |lt.columns|)
    ensures ok <==> Well(rt)(r)
    ensures ok ==> (matched <==> CellAt(lc)(l) == CellAt(rc)(r))
  {
    var cells := DeserializeRow(r);
    ok, matched := |cells| == |rt.columns|, false;
    if ok {
      var joined := BindRow(base, rt, cells);
      matched := lname in joined && rname in joined && joined[lname] == joined[rname];
      if WellFormed(rt, r) { ConditionIs(lt, rt, lname, rname, lc, rc, l, r); }
    }
  }

  function Well(t: Table): Bytes -> bool { (row: Bytes) => WellFormed(t, row) }

  /** The first n rows are good. */
  ghost predicate GoodUpTo(good: Bytes -> bool, rows: seq<Bytes>, n: nat) {
    forall i :: 0 <= i < n && i < |rows| ==> good(rows[i])
  }

  lemma GoodNext(good: Bytes -> bool, rows: seq<Bytes>, n: nat)
    requires n < |rows| && GoodUpTo(good, rows, n) && good(rows[n])
    ensures GoodUpTo(good, rows, n + 1)
  {}

  lemma AllGood(t: Table, rows: seq<Bytes>)
    ensures GoodUpTo(Well(t), rows, |rows|) <==> AllWell(t, rows)
  {
    forall i | 0 <= i < |rows| ensures Well(t)(rows[i]) <==> WellFormed(t, rows[i]) {}
  }

  lemma NextRight(l: Keyed, right: seq<Bytes>, key: Bytes -> Bytes, i: nat)
    requires i < |right|
    ensures RowJoin(l, WithKeys(right[..i + 1], key)) ==
            RowJoin(l, WithKeys(right[..i], key)) + Match(l, Keyed(right[i], key(right[i])))
  {
    assert WithKeys(right[..i + 1], key) == WithKeys(right[..i], key) + [Keyed(right[i], key(right[i]))];
    AddRow(l, WithKeys(right[..i], key), Keyed(right[i], key(right[i])));
  }

  lemma NextLeft(left: seq<Bytes>, key: Bytes -> Bytes, i: nat, right: seq<Keyed>)
    requires i < |left|
    ensures Join(WithKeys(left[..i + 1], key), right) ==
            Join(WithKeys(left[..i], key), right) + RowJoin(Keyed(left[i], key(left[i])), right)
  {
    assert WithKeys(left[..i + 1], key) == WithKeys(left[..i], key) + [Keyed(left[i], key(left[i]))];
    AddLeft(WithKeys(left[..i], key), Keyed(left[i], key(left[i])), right);
  }

  /** One left row against all right rows; stops at a right row that does not decode. */
  method LoopRight(base: RowMap, l: Bytes, rt: Table, lname: string, rname: string, right: seq<Bytes>,
                   ghost lt: Table, ghost lc: nat, ghost rc: nat) returns (ok: bool, out: seq<Pair>)
    requires Joinable(lt, rt, lname, rname, lc, rc) && WellFormed(lt, l)
    requires base == Bind(map[], lt, Deserialize(l), |lt.columns|)
    ensures ok <==> GoodUpTo(Well(rt), right, |right|)
    ensures ok ==> multiset(out) == RowJoin(Keyed(l, CellAt(lc)(l)), WithKeys(right, CellAt(rc)))
  {
    ok, out := true, [];
    ghost var k, key := Keyed(l, CellAt(lc)(l)), CellAt(rc);
    for i := 0 to |right|
      invariant ok && GoodUpTo(Well(rt), right, i)
      invariant multiset(out) == RowJoin(k, WithKeys(right[..i], key))
    {
      NextRight(k, right, key, i);
      var good, matched := Combine(base, rt, lname, rname, right[i], lt, l, lc, rc);
      if !good { ok := false; return; }
      GoodNext(Well(rt), right, i);
      if matched { out := out + [(l, right[i])]; }
    }
    assert right[..|right|] == right;
  }

  /** One left row, unless it does not decode. */
  method LoopLeft(l: Bytes, lt: Table, rt: Table, lname: string, rname: string, right: seq<Bytes>,
                  ghost lc: nat, ghost rc: nat) returns (ok: bool, out: seq<Pair>)
    requires Joinable(lt, rt, lname, rname, lc, rc)
    ensures ok <==> Well(lt)(l) && GoodUpTo(Well(rt), right, |right|)
    ensures ok ==> multiset(out) == RowJoin(Keyed(l, CellAt(lc)(l)), WithKeys(right, CellAt(rc)))
  {
    var cells := DeserializeRow(l);
    if |cells| != |lt.columns| { return false, []; }
    var base := BindRow(map[], lt, cells);
    ok, out := LoopRight(base, l, rt, lname, rname, right, lt, lc, rc);
  }

  /** The nested loop gives the join of rows that decode, and an error if one it looks at does not: right
      rows are only looked at for the sake of a left one. */
  method NestedLoopJoin(lt: Table, rt: Table, lname: string, rname: string, left: seq<Bytes>, right: seq<Bytes>,
                        ghost lc: nat, ghost rc: nat) returns (ok: bool, out: seq<Pair>)
    requires Joinable(lt, rt, lname, rname, lc, rc)
    ensures ok <==> left == [] || (AllWell(lt, left) && AllWell(rt, right))
    ensures ok ==> multiset(out) == Join(WithKeys(left, CellAt(lc)), WithKeys(right, CellAt(rc)))
  {
    ok, out := true, [];
    AllGood(lt, left);
    AllGood(rt, right);
    ghost var key, r := CellAt(lc), WithKeys(right, CellAt(rc));
    for i := 0 to |left|
      invariant ok && GoodUpTo(Well(lt), left, i) && (i > 0 ==> GoodUpTo(Well(rt), right, |right|))
      invariant multiset(out) == Join(WithKeys(left[..i], key), r)
    {
      NextLeft(left, key, i, r);
      var good, more := LoopLeft(left[i], lt, rt, lname, rname, right, lc, rc);
      if !good { ok := false; return; }
      GoodNext(Well(lt), left, i);
      out := out + more;
    }
    assert left[..|left|] == left;
  }

  // ---- The planner ----

  datatype PhysicalOp = Auto | Broadcast | Shuffle

  const BROADCAST_ROW_THRESHOLD := 128

  function ResolveOp(requested: PhysicalOp, left: nat, right: nat): (op: PhysicalOp)
    ensures requested != Auto ==> op == requested
    ensures requested == Auto ==>
            op == if left <= BROADCAST_ROW_THRESHOLD || right <= BROADCAST_ROW_THRESHOLD then Broadcast else Shuffle
  {
    if requested != Auto then requested
    else if (if left <= right then left else right) <= BROADCAST_ROW_THRESHOLD then Broadcast
    else Shuffle
  }

  /** Whatever plan is asked for or picked, and whichever side is broadcast, the result is the join: the
      same multiset of row pairs as the nested loop. The coordinator's scans see what the shards hold. */
  method ExecuteInnerJoin(requested: PhysicalOp, lt: Table, rt: Table, lname: string, rname: string,
                          left: seq<Bytes>, right: seq<Bytes>,
                          leftShards: seq<seq<Bytes>>, rightShards: seq<seq<Bytes>>,
                          hash: Bytes -> nat, n: nat, ghost lc: nat, ghost rc: nat) returns (out: seq<Pair>)
    requires Joinable(lt, rt, lname, rname, lc, rc) && AllWell(lt, left) && AllWell(rt, right)
    requires forall s :: 0 <= s < |leftShards| ==> AllWell(lt, leftShards[s])
    requires forall s :: 0 <= s < |rightShards| ==> AllWell(rt, rightShards[s])
    requires multiset(Flat(leftShards)) == multiset(left) && multiset(Flat(rightShards)) == multiset(right)
    requires forall k :: hash(k) < n
    ensures multiset(out) == Join(WithKeys(left, CellAt(lc)), WithKeys(right, CellAt(rc)))
  {
    ghost var l, r := WithKeys(left, CellAt(lc)), WithKeys(right, CellAt(rc));
    if ResolveOp(requested, |left|, |right|) == Broadcast {
      if |left| <= |right| {
        out := RunBroadcastJoin(false, lt, rt, lname, rname, left, rightShards, lc, rc);
        KeysPermute(Flat(rightShards), right, CellAt(rc));
        SidedPermutes(false, l, WithKeys(Flat(rightShards), CellAt(rc)), r);
      } else {
        out := RunBroadcastJoin(true, rt, lt, rname, lname, right, leftShards, rc, lc);
        KeysPermute(Flat(leftShards), left, CellAt(lc));
        SidedPermutes(true, r, WithKeys(Flat(leftShards), CellAt(lc)), l);
      }
    } else {
      out := RunShuffleJoin(lt, rt, lname, rname, left, right, hash, n, lc, rc);
    }
  }
}
