/**
 * ResultSetHelperService: classifies a result set's columns once, then turns
 * each row into strings, one per column, written into a single buffer that is
 * reused from row to row.
 */
module ResultSetHelper {
  import opened Wrappers
  import opened JavaText
  import opened BlobHex
  import opened JdbcTypes
  import opened Jdbc
  import opened RowSpec

  /** The two static default patterns, shared by every helper in the process. */
  class Defaults {
    var datePattern: string
    var timestampPattern: string

    constructor ()
      ensures datePattern == "yyyy-MM-dd" && timestampPattern == "yyyy-MM-dd HH:mm:ss.S"
    {
      datePattern := "yyyy-MM-dd";
      timestampPattern := "yyyy-MM-dd HH:mm:ss.S";
    }
  }

  /** What getColumnValues hands back: the row buffer, null at the end of the data, or an exception. */
  datatype Fetch = Row(buffer: array<Option<string>>) | NoMoreRows | Failed(fault: Fault)

  class ResultSetHelperService {
    const rs: Cursor
    const lib: Library
    const defaults: Defaults
    const columnCount: nat
    const columnNames: array<string>
    const columnTypes: array<string>
    const columnTypesI: array<int>
    const rowValue: array<Option<string>>
    /** The contents of columnTypes, which nothing writes after the constructor. */
    ghost const typeTags: seq<string>
    // The three formatters, each known by its pattern; None until created.
    var dateFormat: Option<string>
    var timeFormat: Option<string>
    var timeTZFormat: Option<string>

    /** The metadata arrays describe the cursor's columns, one entry per column, each tag classifying its code. */
    ghost predicate Valid()
      reads this, rs, columnNames, columnTypes, columnTypesI
    {
      rs.Valid() &&
      columnCount == |rs.columnTypes| &&
      rowValue.Length == columnCount && columnNames.Length == columnCount &&
      columnTypes.Length == columnCount && columnTypesI.Length == columnCount &&
      columnTypesI[..] == rs.columnTypes &&
      columnNames[..] == rs.columnNames &&
      |typeTags| == columnCount && (forall i :: 0 <= i < columnCount ==> columnTypes[i] == typeTags[i])
    }

    /** Each column's tag is the classification of its type code. */
    ghost predicate Classified()
      reads columnTypes, columnTypesI
    {
      columnTypes.Length == columnTypesI.Length &&
      forall i :: 0 <= i < columnTypes.Length ==> columnTypes[i] == Tag(Classify(columnTypesI[i]))
    }

    /** The formatter caches together with the shared defaults. */
    ghost function Formats(): FormatState
      reads this, defaults
    {
      FormatState(dateFormat, timeFormat, timeTZFormat, defaults.datePattern, defaults.timestampPattern)
    }

    /**
     * Reads the column metadata once: one name, one raw type code and one
     * classification tag per column, and a row buffer of as many null slots.
     */
    constructor (res: Cursor, lib: Library, defaults: Defaults)
      requires res.Valid()
      ensures Valid() && Classified()
      ensures rs == res && this.lib == lib && this.defaults == defaults
      ensures fresh(rowValue) && fresh(columnNames) && fresh(columnTypes) && fresh(columnTypesI)
      ensures forall i :: 0 <= i < columnCount ==> rowValue[i] == None
      ensures dateFormat == None && timeFormat == None && timeTZFormat == None
    {
      var n := |res.columnTypes|;
      var values := new Option<string>[n](_ => None);
      var names := new string[n];
      var types := new string[n];
      var typesI := new int[n];
      for i := 0 to n
        invariant typesI[..i] == res.columnTypes[..i]
        invariant names[..i] == res.columnNames[..i]
        invariant forall k :: 0 <= k < i ==> types[k] == Tag(Classify(typesI[k]))
        invariant forall k :: 0 <= k < n ==> values[k] == None
      {
        var code := res.columnTypes[i];
        var tag := Tag(Classify(code));
        typesI[i] := code;
        types[i] := tag;
        names[i] := res.columnNames[i];
      }
      rs := res;
      this.lib := lib;
      this.defaults := defaults;
      columnCount := n;
      rowValue := values;
      columnNames := names;
      columnTypes := types;
      columnTypesI := typesI;
      typeTags := types[..];
      dateFormat, timeFormat, timeTZFormat := None, None, None;
      assert typesI[..] == typesI[..n] && names[..] == names[..n];
    }

    /** handleDate: formats the column's date with the date formatter, creating it on first use. */
    method HandleDate(columnIndex: nat, dateFormatString: string) returns (r: Option<string>)
      requires Valid() && rs.OnRow() && 1 <= columnIndex <= columnCount
      modifies this, defaults
      ensures Valid()
      ensures Extracted(r, Formats()) == DateExtraction(rs.Cell(columnIndex), dateFormatString, old(Formats()), lib)
    {
      var date := GetDate(rs.Cell(columnIndex));
      if dateFormat == None {
        defaults.datePattern := dateFormatString;
        dateFormat := Some(dateFormatString);
      }
      r := if date == None then None else Some(lib.format(dateFormat.value, date.value));
    }

    /** handleTimestamp: formats the column's timestamp with the timestamp formatter, creating it on first use. */
    method HandleTimestamp(columnIndex: nat, timestampFormatString: string) returns (r: Option<string>)
      requires Valid() && rs.OnRow() && 1 <= columnIndex <= columnCount
      modifies this, defaults
      ensures Valid()
      ensures Extracted(r, Formats()) == TimestampExtraction(rs.Cell(columnIndex), timestampFormatString, old(Formats()), lib)
    {
      var timestamp := GetTimestamp(rs.Cell(columnIndex));
      if timeFormat == None {
        defaults.timestampPattern := timestampFormatString;
        timeFormat := Some(timestampFormatString);
      }
      r := if timestamp == None then None else Some(lib.format(timeFormat.value, timestamp.value));
    }

    /**
     * handleTimestampTZ: rebuilds the time-zone formatter while the plain
     * timestamp formatter is missing, then formats with it; throws when the
     * value is not null and there is no time-zone formatter.
     */
    method HandleTimestampTZ(columnIndex: nat, timestampFormatString: string) returns (r: Result<Option<string>>)
      requires Valid() && rs.OnRow() && 1 <= columnIndex <= columnCount
      modifies this
      ensures Valid()
      ensures match TimestampTZExtraction(rs.Cell(columnIndex), timestampFormatString, old(Formats()), lib)
              case Threw(f) => r == Thrown(f) && Formats() == old(Formats())
              case Extracted(raw, st) => r == Ok(raw) && Formats() == st
    {
      var timestamp := GetTimestamp(rs.Cell(columnIndex));
      if timeFormat == None {
        timeTZFormat := Some(timestampFormatString + " S");
      }
      if timestamp == None {
        return Ok(None);
      }
      if timeTZFormat == None {
        return Thrown(NullFormatter);
      }
      return Ok(Some(lib.format(timeTZFormat.value, timestamp.value)));
    }

    /**
     * getColumnValue: resets slot colIndex - 1 to "", fills it according to
     * the column's tag, then turns null into "" and trims if asked. Only that
     * slot and the format state change; an exception leaves the slot at "".
     */
    method GetColumnValue(colType: string, colIndex: nat, trim: bool, dateFormatString: string, timestampFormatString: string)
      returns (fault: Option<Fault>)
      requires Valid() && rs.OnRow() && 1 <= colIndex <= columnCount
      modifies this, rowValue, defaults
      ensures Valid()
      ensures forall k :: 0 <= k < rowValue.Length && k != colIndex - 1 ==> rowValue[k] == old(rowValue[k])
      ensures match Extract(colType, rs.Cell(colIndex), Request(trim, dateFormatString, timestampFormatString), old(Formats()), lib)
              case Threw(f) =>
                fault == Some(f) && Formats() == old(Formats()) && rowValue[colIndex - 1] == Some("")
              case Extracted(raw, st) =>
                fault == None && Formats() == st && rowValue[colIndex - 1] == Some(PostProcess(raw, trim))
    {
      var slot := colIndex - 1;
      var cell := rs.Cell(colIndex);
      ghost var e := Extract(colType, cell, Request(trim, dateFormatString, timestampFormatString), Formats(), lib);
      rowValue[slot] := Some("");
      var raw: Option<string>;
      match CaseOf(colType) {
        case ObjectCase =>
          raw := Some(HandleObject(GetObject(cell), lib));
        case BooleanCase =>
          var b := GetBoolean(cell);
          raw := Some(BooleanText(b));
        case BlobCase =>
          raw := Some("");
          var bl := GetBlob(cell);
          if bl != None {
            var hex := BlobToHex(bl.value);
            raw := Some(hex);
          }
        case ClobCase =>
          raw := Some("");
          var c := GetClob(cell);
          if c != None {
            raw := Some(c.value);
          }
        case DateCase =>
          raw := HandleDate(colIndex, dateFormatString);
        case TimestampCase =>
          raw := HandleTimestamp(colIndex, timestampFormatString);
        case TimestampTZCase =>
          var r := HandleTimestampTZ(colIndex, timestampFormatString);
          if r.Thrown? {
            return Some(r.fault);
          }
          raw := r.value;
        case DefaultCase =>
          raw := GetString(cell);
      }
      assert e == Extracted(raw, Formats());
      var value := raw;
      if value == None {
        value := Some("");
      }
      if trim {
        value := Some(Trim(value.value));
      }
      rowValue[slot] := value;
      return None;
    }

    /**
     * The buffer and formatters after the current row's columns were run in
     * ascending order, starting from the format state `st0` and the buffer
     * `before`: on success every slot holds its column's text; when column k
     * throws, the earlier slots hold their texts, slot k holds "" and the
     * later slots keep what they held before.
     */
    ghost predicate RowRead(r: Fetch, req: Request, st0: FormatState, before: seq<Option<string>>)
      reads this, rs, rowValue, defaults
    {
      0 <= rs.position < |rs.rows| &&
      |typeTags| == columnCount == |rs.rows[rs.position]| == rowValue.Length == |before| &&
      var p := Run(typeTags, rs.rows[rs.position], columnCount, req, st0, lib);
      Formats() == p.st &&
      match p.failedAt
      case None =>
        r == Row(rowValue) && forall j :: 0 <= j < columnCount ==> rowValue[j] == Some(p.values[j])
      case Some(k) =>
        r == Failed(NullFormatter) && rowValue[k] == Some("") &&
        (forall j :: 0 <= j < k ==> rowValue[j] == Some(p.values[j])) &&
        (forall j :: k < j < columnCount ==> rowValue[j] == before[j])
    }

    /**
     * What a call of getColumnValues did, given the state before it: on a
     * closed cursor it throws and changes nothing; past the last row it closes
     * the cursor and returns null, leaving the buffer and formatters alone;
     * otherwise it advances one row and reads that row's columns.
     */
    twostate predicate Fetched(new r: Fetch, req: Request)
      reads this, rs, rowValue, defaults
    {
      if old(rs.closed) then
        r == Failed(ClosedCursor) && rs.closed && rs.position == old(rs.position) &&
        rowValue[..] == old(rowValue[..]) && Formats() == old(Formats())
      else if old(rs.position) + 1 >= |rs.rows| then
        r == NoMoreRows && rs.closed && rs.position == |rs.rows| &&
        rowValue[..] == old(rowValue[..]) && Formats() == old(Formats())
      else
        !rs.closed && rs.position == old(rs.position) + 1 &&
        RowRead(r, req, old(Formats()), old(rowValue[..]))
    }

    /** getColumnValues(trim, dateFormatString, timeFormatString). */
    method GetColumnValues(trim: bool, dateFormatString: string, timeFormatString: string) returns (r: Fetch)
      requires Valid() && Classified()
      modifies this, rowValue, defaults, rs
      ensures Valid() && Classified()
      ensures Fetched(r, Request(trim, dateFormatString, timeFormatString))
    {
      var more := rs.Next();
      if more.Thrown? {
        return Failed(more.fault);
      }
      if !more.value {
        rs.Close();
        return NoMoreRows;
      }
      r := ReadColumns(trim, dateFormatString, timeFormatString);
    }

    /** The loop of getColumnValues: getColumnValue on each column of the current row, in ascending order. */
    method ReadColumns(trim: bool, dateFormatString: string, timeFormatString: string) returns (r: Fetch)
      requires Valid() && rs.OnRow()
      modifies this, rowValue, defaults
      ensures Valid() && rs.OnRow()
      ensures RowRead(r, Request(trim, dateFormatString, timeFormatString), old(Formats()), old(rowValue[..]))
    {
      ghost var req := Request(trim, dateFormatString, timeFormatString);
      ghost var tags := typeTags;
      ghost var cells := rs.rows[rs.position];
      ghost var st0 := Formats();
      ghost var before := rowValue[..];
      ghost var p := Run(tags, cells, 0, req, st0, lib);
      var i := 0;
      while i < columnCount
        invariant 0 <= i <= columnCount
        invariant Valid() && rs.OnRow()
        invariant p == Run(tags, cells, i, req, st0, lib) && p.failedAt.None?
        invariant forall j :: 0 <= j < i ==> rowValue[j] == Some(p.values[j])
        invariant forall j :: i <= j < columnCount ==> rowValue[j] == before[j]
        invariant Formats() == p.st
      {
        var fault := ReadColumn(i, trim, dateFormatString, timeFormatString, st0, before);
        if fault != None {
          return Failed(fault.value);
        }
        p := Run(tags, cells, i + 1, req, st0, lib);
        i := i + 1;
      }
      return Row(rowValue);
    }

    /**
     * One turn of that loop: getColumnValue on column i + 1 of the current
     * row. Either it extends the run of the row's first i columns by one
     * column, or the column throws and the row is read as far as it goes.
     */
    method ReadColumn(i: nat, trim: bool, dateFormatString: string, timeFormatString: string,
                      ghost st0: FormatState, ghost before: seq<Option<string>>)
      returns (fault: Option<Fault>)
      requires Valid() && rs.OnRow() && i < columnCount == |before|
      requires var p := Run(typeTags, rs.rows[rs.position], i, Request(trim, dateFormatString, timeFormatString), st0, lib);
               p.failedAt.None? && Formats() == p.st &&
               (forall j :: 0 <= j < i ==> rowValue[j] == Some(p.values[j])) &&
               (forall j :: i <= j < columnCount ==> rowValue[j] == before[j])
      modifies this, rowValue, defaults
      ensures Valid() && rs.OnRow()
      ensures fault.Some? ==> RowRead(Failed(fault.value), Request(trim, dateFormatString, timeFormatString), st0, before)
      ensures fault.None? ==>
                var q := Run(typeTags, rs.rows[rs.position], i + 1, Request(trim, dateFormatString, timeFormatString), st0, lib);
                q.failedAt.None? && Formats() == q.st &&
                (forall j :: 0 <= j < i + 1 ==> rowValue[j] == Some(q.values[j])) &&
                (forall j :: i + 1 <= j < columnCount ==> rowValue[j] == before[j])
    {
      ghost var req := Request(trim, dateFormatString, timeFormatString);
      ghost var tags := typeTags;
      ghost var cells := rs.rows[rs.position];
      assert columnTypes[i] == tags[i] && rs.Cell(i + 1) == cells[i];
      fault := GetColumnValue(columnTypes[i], i + 1, trim, dateFormatString, timeFormatString);
      if fault == None {
        RunExtends(tags, cells, i, req, st0, lib);
      } else {
        RunStopsAtFault(tags, cells, i + 1, columnCount, req, st0, lib);
      }
    }

    /** getColumnValues() and getColumnValues(trim): the same, with the shared default patterns (trim is true for the former). */
    method GetColumnValuesWithDefaults(trim: bool) returns (r: Fetch)
      requires Valid() && Classified()
      modifies this, rowValue, defaults, rs
      ensures Valid() && Classified()
      ensures Fetched(r, Request(trim, old(defaults.datePattern), old(defaults.timestampPattern)))
    {
      r := GetColumnValues(trim, defaults.datePattern, defaults.timestampPattern);
    }
  }
}
