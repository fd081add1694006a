/** Byte strings, and the rows that keys and locks name. */
module ByteStrings {
  type Byte = x: int | 0 <= x < 256
  type Bytes = seq<Byte>

  /** The machine's unsigned numbers. */
  type U32 = x: int | 0 <= x < 0x1_0000_0000
  type U64 = x: int | 0 <= x < 0x1_0000_0000_0000_0000

  datatype Option<T> = None | Some(value: T)

  /** A primary key within a table. */
  datatype Key = Key(table: nat, pk: Bytes)
}
