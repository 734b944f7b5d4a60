/** Identifiers, optional values and the faults the data-access layer can raise. */
module Common {

  /** A Guid. The model only needs equality and one distinguished value, Guid.Empty. */
  type Id = nat

  /** Guid.Empty: "no id", also what a NULL id column reads back as. */
  const Empty: Id := 0

  /** A C# reference that may be null (a string, a list, a byte array, an entity). */
  datatype Option<+T> = None | Some(value: T)

  /** One byte of a byte[] blob. */
  newtype byte = b: int | 0 <= b < 256

  /** Exceptions the source raises on inputs it does not guard against. */
  datatype Fault =
    | NullReference      // a member access on null
    | ArgumentOutOfRange // an index past the end of a list
    | NegativeTop        // SQL Server refuses a negative TOP (n)

  /** What a call does: returns a value or throws. */
  datatype Outcome<+T> = Returned(value: T) | Threw(fault: Fault)

  /** Guid columns are written as NULL when the id is Guid.Empty ... */
  function IdToColumn(id: Id): (c: Option<Id>)
    ensures c.None? <==> id == Empty
  {
    if id == Empty then None else Some(id)
  }

  /** ... and a NULL column is read back as Guid.Empty. */
  function IdFromColumn(c: Option<Id>): Id
  {
    match c
    case None => Empty
    case Some(id) => id
  }

  /** Writing an id to a nullable column and reading it back loses nothing. */
  lemma IdColumnRoundTrip(id: Id)
    ensures IdFromColumn(IdToColumn(id)) == id
  {
  }
}
