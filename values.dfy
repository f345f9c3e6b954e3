/** Column values and rows as the cursor hands them to Python code. */
module Values {

  newtype byte = b: int | 0 <= b < 256

  /** A value bound to a placeholder or read from a result column. `Blob` is any
      object that supports the buffer protocol (`bytes`, `bytearray`, `memoryview`):
      the only kind `memoryview(v)` accepts. */
  datatype Value =
    | Null
    | Integer(i: int)
    | Text(t: string)
    | Blob(bytes: seq<byte>)

  /** One fetched record, the tuple built column by column by `_fetch_tuple`. */
  type Row = seq<Value>

  /** The exceptions the modelled code lets reach its caller. The engine's message
      text (`q.lastError().text()`) is not modelled. */
  datatype PyError =
    | DatabaseError
    | ProgrammingError
    | TypeError
    | KeyError
    | AttributeError
    | StopIteration
}
