/** Small shared vocabulary: Java's nullable references, Java integer widths and URIs. */
module Common {

  /** A Java reference that may be null. */
  datatype Option<+T> = None | Some(value: T)

  /** Java `int` and `long`. */
  type Int32 = x: int | -0x8000_0000 <= x < 0x8000_0000
  type Int64 = x: int | -0x8000_0000_0000_0000 <= x < 0x8000_0000_0000_0000

  /** Java's wrap-around of an `int` result: the unique 32-bit value congruent to x modulo 2^32. */
  function Wrap32(x: int): (r: Int32)
    ensures -0x8000_0000 <= x < 0x8000_0000 ==> r == x
    ensures (x - r) % 0x1_0000_0000 == 0
  {
    if -0x8000_0000 <= x < 0x8000_0000 then x
    else (x + 0x8000_0000) % 0x1_0000_0000 - 0x8000_0000
  }

  /** Java's wrap-around of a `long` result. */
  function Wrap64(x: int): (r: Int64)
    ensures -0x8000_0000_0000_0000 <= x < 0x8000_0000_0000_0000 ==> r == x
    ensures (x - r) % 0x1_0000_0000_0000_0000 == 0
  {
    if -0x8000_0000_0000_0000 <= x < 0x8000_0000_0000_0000 then x
    else (x + 0x8000_0000_0000_0000) % 0x1_0000_0000_0000_0000 - 0x8000_0000_0000_0000
  }

  /** An android.net.Uri, kept as its string form (Uri.parse and toString are inverse here). */
  datatype Uri = Uri(text: string)

  /** A value in a SQLite column, as a ContentValues entry or a cursor cell holds it. */
  datatype SqlValue = SqlNull | SqlInt(i: int) | SqlText(s: string)

  /** The integer a cell holds; NULL (and, in this model, text) reads as 0. */
  function CellInt(v: SqlValue): int
  {
    if v.SqlInt? then v.i else 0
  }

  /** Cursor.getInt: the cell's integer cut to 32 bits. */
  function CellInt32(v: SqlValue): (r: Int32)
    ensures v.SqlInt? && -0x8000_0000 <= v.i < 0x8000_0000 ==> r == v.i
  {
    Wrap32(CellInt(v))
  }

  /** Cursor.getLong. */
  function CellInt64(v: SqlValue): (r: Int64)
    ensures v.SqlInt? && -0x8000_0000_0000_0000 <= v.i < 0x8000_0000_0000_0000 ==> r == v.i
  {
    Wrap64(CellInt(v))
  }

  /** Cursor.getString on a text cell; any other cell reads as the empty string in this model. */
  function CellText(v: SqlValue): (r: string)
    ensures v.SqlText? ==> r == v.s
  {
    if v.SqlText? then v.s else ""
  }

  /** Java's boolean-as-int encoding used by ContentValues and Parcel. */
  function BoolToInt(b: bool): (r: Int32)
    ensures (r == 1) == b && (r == 0) == !b
  {
    if b then 1 else 0
  }
}
