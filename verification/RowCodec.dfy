/** Stored rows as lists of cells, and the cell a join column names. */
module RowCodec {
  import opened ByteStrings
  import opened Framing
  import opened Cursor

  // ---- Cells ----

  function Cell(): Taker<Bytes> { (b: Bytes) => TakeBytes(b) }

  function CellBytes(): Bytes -> Bytes { (c: Bytes) => AddSize(c) }

  function Short(): Bytes -> bool { (c: Bytes) => |c| < 0x1_0000_0000 }

  /** A 16-bit count, then every cell behind its length. */
  function Serialize(cells: seq<Bytes>): Bytes { Le(2, |cells|) + EncodeAll(CellBytes(), cells) }

  /** The cells of a row; none if it is cut short. */
  function Deserialize(b: Bytes): seq<Bytes> {
    if |b| < 2 then []
    else match TakeMany(Cell(), FromLe(b[..2]), b[2..])
      case None => []
      case Some(cells) => cells
  }

  /** The shard's decoder also checks the number of columns. */
  function DecodeRow(b: Bytes, columns: nat): seq<Bytes> {
    if |b| < 2 || FromLe(b[..2]) != columns then [] else Deserialize(b)
  }

  method DeserializeRow(b: Bytes) returns (cells: seq<Bytes>)
    ensures cells == Deserialize(b)
  {
    if |b| < 2 { return []; }
    var r := UnpackMany(Cell(), FromLe(b[..2]), b[2..]);
    cells := if r.None? then [] else r.value;
  }

  lemma CellsUndone()
    ensures Undoes(Cell(), CellBytes(), Short())
  {
    forall c: Bytes, tail: Bytes { TookBytes(c, tail); }
  }

  lemma Low16Same(v: nat)
    ensures FromLe(Le(2, v)) == v <==> v < 0x1_0000
  {
    LeRoundTrip(2, v);
    assert Pow256(2) == 256 * Pow256(1);
  }

  /** A row reads back exactly when it has fewer than 2^16 cells, each shorter than 2^32 bytes. */
  lemma RowBackIff(cells: seq<Bytes>)
    ensures Deserialize(Serialize(cells)) == cells <==> |cells| < 0x1_0000 && forall i :: 0 <= i < |cells| ==>
            |cells[i]| < 0x1_0000_0000
  {
    var b := Serialize(cells);
    assert b[..2] == Le(2, |cells|) && b[2..] == EncodeAll(CellBytes(), cells);
    CellsUndone();
    Low16Same(|cells|);
    CountedAt(Cell(), CellBytes(), Short(), cells, FromLe(b[..2]));
    assert (forall i :: 0 <= i < |cells| ==> Short()(cells[i])) <==>
      (forall i :: 0 <= i < |cells| ==> |cells[i]| < 0x1_0000_0000);
  }

  // ---- Tables and columns ----

  datatype Table = Table(name: string, columns: seq<string>)

  /** Column names are distinct and have no dot in them. */
  ghost predicate ValidTable(t: Table) {
    && (forall i :: 0 <= i < |t.columns| ==> '.' !in t.columns[i])
    && (forall i, j :: 0 <= i < j < |t.columns| ==> t.columns[i] != t.columns[j])
  }

  /** A row of the table: as many cells as columns. */
  predicate WellFormed(t: Table, row: Bytes) {
    0 < |Deserialize(row)| == |t.columns|
  }

  lemma DecodesAlike(t: Table, row: Bytes)
    requires WellFormed(t, row)
    ensures DecodeRow(row, |t.columns|) == Deserialize(row)
  {
    TakenCount(Cell(), FromLe(row[..2]), row[2..]);
  }

  /** What follows the last dot. */
  function BaseName(name: string): string {
    if '.' in name then BaseName(name[1..]) else name
  }

  function Qualified(t: Table, column: string): string { t.name + "." + column }

  lemma {:induction false} BaseOfQualified(prefix: string, column: string)
    requires '.' !in column
    ensures BaseName(prefix + "." + column) == column
    decreases |prefix|
  {
    var q := prefix + "." + column;
    assert q[|prefix|] == '.';
    if prefix == [] {
      assert q[1..] == column;
    } else {
      assert q[1..] == prefix[1..] + "." + column;
      BaseOfQualified(prefix[1..], column);
    }
  }

  /** Without dots in the columns a qualified name tells table and column. */
  lemma QualifiedApart(a: string, c: string, b: string, d: string)
    requires '.' !in c && '.' !in d && a + "." + c == b + "." + d
    ensures a == b && c == d
  {
    BaseOfQualified(a, c);
    BaseOfQualified(b, d);
    assert |a| == |b|;
    assert a == (a + "." + c)[..|a|] && b == (b + "." + d)[..|b|];
  }

  /** The first column of that name, or the number of columns. */
  method ColumnIndex(columns: seq<string>, name: string) returns (i: nat)
    ensures i <= |columns| && (i < |columns| ==> columns[i] == BaseName(name)) && forall j :: 0 <= j < i ==>
            columns[j] != BaseName(name)
  {
    var base := BaseName(name);
    i := 0;
    while i < |columns| && columns[i] != base
      invariant 0 <= i <= |columns| && forall j :: 0 <= j < i ==> columns[j] != base
    {
      i := i + 1;
    }
  }

  /** The cell of a row that a join column names; empty if there is none. */
  method CellForColumn(t: Table, row: Bytes, name: string) returns (cell: Bytes)
    ensures forall c ::
              (0 <= c < |t.columns| && ValidTable(t) && WellFormed(t, row) && name == Qualified(t, t.columns[c])) ==>
              cell == Deserialize(row)[c]
  {
    var cells := DeserializeRow(row);
    var i := ColumnIndex(t.columns, name);
    cell := if i < |t.columns| && i < |cells| then cells[i] else [];
    forall c | 0 <= c < |t.columns| && ValidTable(t) && WellFormed(t, row) && name == Qualified(t, t.columns[c])
      ensures i == c
    {
      BaseOfQualified(t.name, t.columns[c]);
    }
  }
}
