/**
 * The parts of JDBC the helper talks to: a forward-only result set over rows
 * of cells, its typed accessors, the exceptions that matter to the helper,
 * and the two library calls whose output the model takes as given.
 */
module Jdbc {
  import opened Wrappers
  import opened BlobHex

  /** An instant as java.util.Date holds it: milliseconds since the epoch. */
  type Moment = int

  /** One cell of a row, by the kind of value the driver holds for it. */
  datatype Value =
    | Null                        // SQL NULL
    | Text(chars: string)         // character data, and a number as the driver prints it
    | Flag(truth: bool)
    | Bytes(content: seq<JByte>)  // the content of a BLOB
    | Day(date: Moment)           // a java.sql.Date (a TIME column is read as one too)
    | Stamp(instant: Moment)      // a java.sql.Timestamp
    | Opaque(handle: nat)         // any other Java object

  // The typed accessors of ResultSet. An accessor applied to a cell of
  // another kind reads it as SQL NULL.

  /** getObject: null for SQL NULL, otherwise the cell itself. */
  function GetObject(v: Value): Option<Value>
  {
    if v.Null? then None else Some(v)
  }

  /** getBoolean: SQL NULL reads as false. */
  function GetBoolean(v: Value): bool
  {
    v.Flag? && v.truth
  }

  function GetString(v: Value): Option<string>
  {
    if v.Text? then Some(v.chars) else None
  }

  /** getClob followed by getSubString(1, length): the whole character content. */
  function GetClob(v: Value): Option<string>
  {
    if v.Text? then Some(v.chars) else None
  }

  /** getBlob followed by getBytes(1, length): the whole byte content. */
  function GetBlob(v: Value): Option<seq<JByte>>
  {
    if v.Bytes? then Some(v.content) else None
  }

  function GetDate(v: Value): Option<Moment>
  {
    if v.Day? then Some(v.date) else None
  }

  function GetTimestamp(v: Value): Option<Moment>
  {
    if v.Stamp? then Some(v.instant) else None
  }

  /**
   * The Java library calls the helper hands values to:
   * `new SimpleDateFormat(pattern).format(moment)` and `String.valueOf(object)`.
   */
  datatype Library = Library(format: (string, Moment) -> string, valueOf: Value -> string)

  /** The exceptions the helper lets through. */
  datatype Fault =
    | ClosedCursor   // SQLException: next() on a closed result set
    | NullFormatter  // NullPointerException: the time-zone formatter was never created

  /** A call that returns a value or throws. */
  datatype Result<T> = Ok(value: T) | Thrown(fault: Fault)

  /**
   * A forward-only result set: its column metadata, its rows, the cursor
   * position (-1 before the first row, |rows| after the last) and whether it
   * has been closed.
   */
  class Cursor {
    const columnNames: seq<string>
    const columnTypes: seq<int>
    const rows: seq<seq<Value>>
    var position: int
    var closed: bool

    ghost predicate Valid()
      reads this
    {
      |columnNames| == |columnTypes| &&
      (forall k :: 0 <= k < |rows| ==> |rows[k]| == |columnTypes|) &&
      -1 <= position <= |rows|
    }

    constructor (names: seq<string>, types: seq<int>, rows: seq<seq<Value>>)
      requires |names| == |types|
      requires forall k :: 0 <= k < |rows| ==> |rows[k]| == |types|
      ensures Valid()
      ensures columnNames == names && columnTypes == types && this.rows == rows
      ensures position == -1 && !closed
    {
      columnNames, columnTypes, this.rows := names, types, rows;
      position, closed := -1, false;
    }

    /** The cursor stands on a row that can be read. */
    predicate OnRow()
      reads this
    {
      !closed && 0 <= position < |rows|
    }

    /** The value of 1-based column `column` in the current row. */
    function Cell(column: nat): Value
      reads this
      requires Valid() && OnRow() && 1 <= column <= |columnTypes|
    {
      rows[position][column - 1]
    }

    /** ResultSet.next: moves to the following row and says whether there is one. */
    method Next() returns (r: Result<bool>)
      requires Valid()
      modifies this
      ensures Valid() && closed == old(closed)
      ensures old(closed) ==> r == Thrown(ClosedCursor) && position == old(position)
      ensures !old(closed) ==> r == Ok(old(position) + 1 < |rows|)
      ensures !old(closed) ==> position == if old(position) + 1 < |rows| then old(position) + 1 else |rows|
    {
      if closed {
        return Thrown(ClosedCursor);
      }
      if position + 1 < |rows| {
        position := position + 1;
        return Ok(true);
      }
      position := |rows|;
      return Ok(false);
    }

    /** ResultSet.close. */
    method Close()
      modifies this
      ensures closed && position == old(position)
    {
      closed := true;
    }
  }
}
