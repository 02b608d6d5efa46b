/**
 * What materialising one row means, as functions: the per-column dispatch of
 * getColumnValue with its three lazily created date formatters, the
 * null-to-empty and trim post-processing, and the left-to-right run over a
 * row's columns, with the properties these guarantee.
 */
module RowSpec {
  import opened Wrappers
  import opened JavaText
  import opened BlobHex
  import opened JdbcTypes
  import opened Jdbc

  /**
   * The helper's three formatter caches, each known by its pattern (None while
   * not yet created), and the two process-wide default patterns.
   */
  datatype FormatState = FormatState(
    dateFormat: Option<string>,
    timeFormat: Option<string>,
    timeTZFormat: Option<string>,
    defaultDate: string,
    defaultTimestamp: string)

  /** The arguments of getColumnValues(trim, dateFormatString, timeFormatString). */
  datatype Request = Request(trim: bool, datePattern: string, timestampPattern: string)

  /** What one column yields before post-processing: the slot's text (None is null) and the new format state, or an exception. */
  datatype Extraction = Extracted(raw: Option<string>, st: FormatState) | Threw(fault: Fault)

  /** handleObject: the empty string for null, String.valueOf otherwise. */
  function HandleObject(obj: Option<Value>, lib: Library): (r: string)
    ensures obj.None? ==> r == ""
    ensures obj.Some? ==> r == lib.valueOf(obj.value)
  {
    if obj.None? then "" else lib.valueOf(obj.value)
  }

  /** handleDate: the date formatter is created from the first pattern seen, which also becomes the default. */
  function DateExtraction(cell: Value, pattern: string, st: FormatState, lib: Library): (e: Extraction)
    ensures e.Extracted? && e.st.dateFormat.Some? && DateFixedFirst(st, e.st, pattern)
    ensures e.st.timeFormat == st.timeFormat && e.st.timeTZFormat == st.timeTZFormat && e.st.defaultTimestamp == st.defaultTimestamp
    ensures match GetDate(cell)
            case None => e.raw.None?
            case Some(d) => e.raw == Some(lib.format(e.st.dateFormat.value, d))
  {
    var st' := if st.dateFormat.None? then st.(defaultDate := pattern, dateFormat := Some(pattern)) else st;
    match GetDate(cell)
    case None => Extracted(None, st')
    case Some(d) => Extracted(Some(lib.format(st'.dateFormat.value, d)), st')
  }

  /** handleTimestamp: as handleDate, with the timestamp formatter and default. */
  function TimestampExtraction(cell: Value, pattern: string, st: FormatState, lib: Library): (e: Extraction)
    ensures e.Extracted? && e.st.timeFormat.Some? && TimestampFixedFirst(st, e.st, pattern)
    ensures e.st.dateFormat == st.dateFormat && e.st.timeTZFormat == st.timeTZFormat && e.st.defaultDate == st.defaultDate
    ensures match GetTimestamp(cell)
            case None => e.raw.None?
            case Some(t) => e.raw == Some(lib.format(e.st.timeFormat.value, t))
  {
    var st' := if st.timeFormat.None? then st.(defaultTimestamp := pattern, timeFormat := Some(pattern)) else st;
    match GetTimestamp(cell)
    case None => Extracted(None, st')
    case Some(t) => Extracted(Some(lib.format(st'.timeFormat.value, t)), st')
  }

  /**
   * handleTimestampTZ: the time-zone formatter is (re)built from the pattern
   * plus " S" whenever the plain timestamp formatter does not exist yet; a
   * non-null value meeting no time-zone formatter throws.
   */
  function TimestampTZExtraction(cell: Value, pattern: string, st: FormatState, lib: Library): (e: Extraction)
    ensures e.Threw? <==> st.timeFormat.Some? && st.timeTZFormat.None? && GetTimestamp(cell).Some?
    ensures e.Extracted? ==>
              e.st.dateFormat == st.dateFormat && e.st.timeFormat == st.timeFormat &&
              e.st.defaultDate == st.defaultDate && e.st.defaultTimestamp == st.defaultTimestamp
    ensures e.Extracted? && st.timeFormat.None? ==> e.st.timeTZFormat == Some(pattern + " S")
    ensures e.Extracted? && st.timeFormat.Some? ==> e.st.timeTZFormat == st.timeTZFormat
    ensures e.Extracted? ==>
              match GetTimestamp(cell)
              case None => e.raw.None?
              case Some(t) => e.st.timeTZFormat.Some? && e.raw == Some(lib.format(e.st.timeTZFormat.value, t))
  {
    var st' := if st.timeFormat.None? then st.(timeTZFormat := Some(pattern + " S")) else st;
    match GetTimestamp(cell)
    case None => Extracted(None, st')
    case Some(t) =>
      if st'.timeTZFormat.None? then Threw(NullFormatter)
      else Extracted(Some(lib.format(st'.timeTZFormat.value, t)), st')
  }

  /** A blob's slot: its content in hex, or the empty string the slot was reset to. */
  function BlobText(cell: Value): (r: string)
    ensures GetBlob(cell).None? ==> r == ""
    ensures GetBlob(cell).Some? ==> |r| == 2 * |GetBlob(cell).value| && r == Hex(GetBlob(cell).value)
  {
    match GetBlob(cell)
    case None => ""
    case Some(bytes) => Hex(bytes)
  }

  /** The cases of the `switch` on a column's tag string in getColumnValue. */
  datatype SwitchCase = ObjectCase | BooleanCase | BlobCase | ClobCase | DateCase | TimestampCase | TimestampTZCase | DefaultCase

  /** The case a tag string selects; "time" shares the date case and every unknown tag falls to the default. */
  function CaseOf(colType: string): (r: SwitchCase)
  {
    if colType == "timestamptz" then TimestampTZCase
    else if colType == "timestamp" then TimestampCase
    else if colType == "date" || colType == "time" then DateCase
    else if colType == "clob" then ClobCase
    else if colType == "blob" then BlobCase
    else if colType == "boolean" then BooleanCase
    else if colType == "object" then ObjectCase
    else DefaultCase
  }

  /** The dispatch of getColumnValue on the column's tag. */
  function Extract(colType: string, cell: Value, req: Request, st: FormatState, lib: Library): (e: Extraction)
    ensures e.Threw? ==> CaseOf(colType) == TimestampTZCase && e.fault == NullFormatter
  {
    match CaseOf(colType)
    case ObjectCase => Extracted(Some(HandleObject(GetObject(cell), lib)), st)
    case BooleanCase => Extracted(Some(BooleanText(GetBoolean(cell))), st)
    case BlobCase => Extracted(Some(BlobText(cell)), st)
    case ClobCase => Extracted(Some(GetClob(cell).GetOr("")), st)
    case DateCase => DateExtraction(cell, req.datePattern, st, lib)
    case TimestampCase => TimestampExtraction(cell, req.timestampPattern, st, lib)
    case TimestampTZCase => TimestampTZExtraction(cell, req.timestampPattern, st, lib)
    case DefaultCase => Extracted(GetString(cell), st)
  }

  /** The last two steps for every column: null becomes "", then the value is trimmed if asked. */
  function PostProcess(raw: Option<string>, trim: bool): (s: string)
    ensures raw.None? ==> s == ""
    ensures trim ==> IsTrimmed(s) && s == Trim(raw.GetOr(""))
    ensures !trim ==> s == raw.GetOr("")
  {
    var v := raw.GetOr("");
    if trim then Trim(v) else v
  }

  /**
   * The columns of a row processed in ascending order up to column n: the
   * texts written so far, the format state, and the column whose extraction
   * threw, if one did (processing stops there).
   */
  datatype Progress = Progress(values: seq<string>, st: FormatState, failedAt: Option<nat>)

  function Run(tags: seq<string>, cells: seq<Value>, n: nat, req: Request, st0: FormatState, lib: Library): (p: Progress)
    requires n <= |tags| == |cells|
    ensures p.failedAt.None? ==> |p.values| == n
    ensures p.failedAt.Some? ==> p.failedAt.value < n && |p.values| == p.failedAt.value
  {
    if n == 0 then Progress([], st0, None)
    else
      var p := Run(tags, cells, n - 1, req, st0, lib);
      if p.failedAt.Some? then p
      else match Extract(tags[n - 1], cells[n - 1], req, p.st, lib)
        case Threw(_) => Progress(p.values, p.st, Some(n - 1))
        case Extracted(raw, st) => Progress(p.values + [PostProcess(raw, req.trim)], st, None)
  }

  // ---------------------------------------------------------------------
  // Properties of one row

  /**
   * Slot k of a row holds its own column's value: the column was extracted
   * from the state the columns before it left, without throwing, and the
   * slot is that extraction post-processed. Later columns do not touch it.
   */
  lemma {:induction false} RunSlot(tags: seq<string>, cells: seq<Value>, n: nat, req: Request, st0: FormatState, lib: Library, k: nat)
    requires n <= |tags| == |cells|
    requires k < |Run(tags, cells, n, req, st0, lib).values|
    ensures Run(tags, cells, k, req, st0, lib).failedAt.None?
    ensures var e := Extract(tags[k], cells[k], req, Run(tags, cells, k, req, st0, lib).st, lib);
            e.Extracted? &&
            Run(tags, cells, n, req, st0, lib).values[k] == PostProcess(e.raw, req.trim) &&
            Run(tags, cells, k + 1, req, st0, lib) == Progress(Run(tags, cells, k, req, st0, lib).values + [PostProcess(e.raw, req.trim)], e.st, None)
  {
    var p := Run(tags, cells, n - 1, req, st0, lib);
    if p.failedAt.None? && Extract(tags[n - 1], cells[n - 1], req, p.st, lib).Extracted? && k == n - 1 {
    } else {
      RunSlot(tags, cells, n - 1, req, st0, lib, k);
    }
  }

  /** Once a column throws, the run stops there: nothing after it is processed. */
  lemma {:induction false} RunStopsAtFault(tags: seq<string>, cells: seq<Value>, m: nat, n: nat, req: Request, st0: FormatState, lib: Library)
    requires m <= n <= |tags| == |cells|
    requires Run(tags, cells, m, req, st0, lib).failedAt.Some?
    ensures Run(tags, cells, n, req, st0, lib) == Run(tags, cells, m, req, st0, lib)
    decreases n - m
  {
    if m < n {
      RunStopsAtFault(tags, cells, m, n - 1, req, st0, lib);
    }
  }

  /** One more column that does not throw: its text is appended and its format state carried on. */
  lemma RunExtends(tags: seq<string>, cells: seq<Value>, n: nat, req: Request, st0: FormatState, lib: Library)
    requires n < |tags| == |cells|
    requires Run(tags, cells, n, req, st0, lib).failedAt.None?
    requires Extract(tags[n], cells[n], req, Run(tags, cells, n, req, st0, lib).st, lib).Extracted?
    ensures var p := Run(tags, cells, n, req, st0, lib);
            var e := Extract(tags[n], cells[n], req, p.st, lib);
            var q := Run(tags, cells, n + 1, req, st0, lib);
            q.failedAt.None? && q.st == e.st && |q.values| == n + 1 &&
            q.values[n] == PostProcess(e.raw, req.trim) &&
            forall j :: 0 <= j < n ==> q.values[j] == p.values[j]
  {
  }

  /** With trimming on, no slot of the row starts or ends with a character String.trim removes. */
  lemma RunTrimmed(tags: seq<string>, cells: seq<Value>, n: nat, req: Request, st0: FormatState, lib: Library)
    requires n <= |tags| == |cells| && req.trim
    ensures forall k :: 0 <= k < |Run(tags, cells, n, req, st0, lib).values| ==> IsTrimmed(Run(tags, cells, n, req, st0, lib).values[k])
  {
    forall k | 0 <= k < |Run(tags, cells, n, req, st0, lib).values|
      ensures IsTrimmed(Run(tags, cells, n, req, st0, lib).values[k])
    {
      RunSlot(tags, cells, n, req, st0, lib, k);
    }
  }

  /** The date cache and default, before and after: unchanged, or fixed from None to `pattern`. */
  predicate DateFixedFirst(before: FormatState, after: FormatState, pattern: string)
  {
    (after.dateFormat == before.dateFormat && after.defaultDate == before.defaultDate) ||
    (before.dateFormat.None? && after.dateFormat == Some(pattern) && after.defaultDate == pattern)
  }

  /** The timestamp cache and default, before and after: unchanged, or fixed from None to `pattern`. */
  predicate TimestampFixedFirst(before: FormatState, after: FormatState, pattern: string)
  {
    (after.timeFormat == before.timeFormat && after.defaultTimestamp == before.defaultTimestamp) ||
    (before.timeFormat.None? && after.timeFormat == Some(pattern) && after.defaultTimestamp == pattern)
  }

  /** One column fixes the date and timestamp formatters at most once each, from this call's patterns. */
  lemma ExtractFixesFirstPatterns(colType: string, cell: Value, req: Request, st: FormatState, lib: Library)
    ensures var e := Extract(colType, cell, req, st, lib);
            e.Extracted? ==> DateFixedFirst(st, e.st, req.datePattern) && TimestampFixedFirst(st, e.st, req.timestampPattern)
  {
  }

  /**
   * First pattern wins: over any prefix of a row, a created date or timestamp
   * formatter is never replaced, and one created during the row comes from
   * the pattern of this call, which also becomes the shared default.
   */
  lemma {:induction false} RunFixesFirstPatterns(tags: seq<string>, cells: seq<Value>, n: nat, req: Request, st0: FormatState, lib: Library)
    requires n <= |tags| == |cells|
    ensures DateFixedFirst(st0, Run(tags, cells, n, req, st0, lib).st, req.datePattern)
    ensures TimestampFixedFirst(st0, Run(tags, cells, n, req, st0, lib).st, req.timestampPattern)
  {
    if n > 0 {
      RunFixesFirstPatterns(tags, cells, n - 1, req, st0, lib);
      var p := Run(tags, cells, n - 1, req, st0, lib);
      ExtractFixesFirstPatterns(tags[n - 1], cells[n - 1], req, p.st, lib);
    }
  }

  /**
   * Once the timestamp formatter exists, every timestamp column is formatted
   * with its pattern, whatever pattern this call passes. (The date formatter
   * behaves the same way.)
   */
  lemma FixedTimestampPatternIsUsed(tags: seq<string>, cells: seq<Value>, n: nat, req: Request, st0: FormatState, lib: Library, k: nat, t: Moment)
    requires n <= |tags| == |cells|
    requires st0.timeFormat.Some?
    requires k < |Run(tags, cells, n, req, st0, lib).values|
    requires tags[k] == "timestamp" && cells[k] == Stamp(t)
    ensures Run(tags, cells, n, req, st0, lib).values[k] == PostProcess(Some(lib.format(st0.timeFormat.value, t)), req.trim)
  {
    assert CaseOf("timestamp") == TimestampCase;
    RunSlot(tags, cells, n, req, st0, lib, k);
    RunFixesFirstPatterns(tags, cells, k, req, st0, lib);
  }

  /** The date counterpart: once the date formatter exists, date and time columns use its pattern. */
  lemma FixedDatePatternIsUsed(tags: seq<string>, cells: seq<Value>, n: nat, req: Request, st0: FormatState, lib: Library, k: nat, d: Moment)
    requires n <= |tags| == |cells|
    requires st0.dateFormat.Some?
    requires k < |Run(tags, cells, n, req, st0, lib).values|
    requires (tags[k] == "date" || tags[k] == "time") && cells[k] == Day(d)
    ensures Run(tags, cells, n, req, st0, lib).values[k] == PostProcess(Some(lib.format(st0.dateFormat.value, d)), req.trim)
  {
    assert CaseOf("date") == DateCase && CaseOf("time") == DateCase;
    RunSlot(tags, cells, n, req, st0, lib, k);
    RunFixesFirstPatterns(tags, cells, k, req, st0, lib);
  }

  /**
   * Across two rows: when the first row reaches a timestamp column before any
   * timestamp formatter exists, the second row formats its timestamps with
   * the first row's pattern and ignores its own.
   */
  lemma FirstTimestampPatternWins(tags: seq<string>, row1: seq<Value>, row2: seq<Value>, req1: Request, req2: Request,
                                  st0: FormatState, lib: Library, j: nat, k: nat, t: Moment)
    requires |row1| == |row2| == |tags|
    requires st0.timeFormat.None?
    requires j < |Run(tags, row1, |tags|, req1, st0, lib).values| && tags[j] == "timestamp"
    requires k < |Run(tags, row2, |tags|, req2, Run(tags, row1, |tags|, req1, st0, lib).st, lib).values|
    requires tags[k] == "timestamp" && row2[k] == Stamp(t)
    ensures Run(tags, row2, |tags|, req2, Run(tags, row1, |tags|, req1, st0, lib).st, lib).values[k]
            == PostProcess(Some(lib.format(req1.timestampPattern, t)), req2.trim)
  {
    var st1 := Run(tags, row1, |tags|, req1, st0, lib).st;
    RunSlot(tags, row1, |tags|, req1, st0, lib, j);
    TimestampColumnCreatesFormatter(tags[j], row1[j], req1, Run(tags, row1, j, req1, st0, lib).st, lib);
    RunFixesFirstPatterns(tags, row1, j + 1, req1, st0, lib);
    RunSuffixKeepsPatterns(tags, row1, j + 1, |tags|, req1, st0, lib);
    FixedTimestampPatternIsUsed(tags, row2, |tags|, req2, st1, lib, k, t);
  }

  /** A timestamp column always leaves a timestamp formatter behind. */
  lemma TimestampColumnCreatesFormatter(colType: string, cell: Value, req: Request, st: FormatState, lib: Library)
    requires colType == "timestamp"
    ensures var e := Extract(colType, cell, req, st, lib); e.Extracted? && e.st.timeFormat.Some?
  {
    assert CaseOf("timestamp") == TimestampCase;
  }

  /** A formatter that exists after column m still exists, unchanged, after any later column. */
  lemma {:induction false} RunSuffixKeepsPatterns(tags: seq<string>, cells: seq<Value>, m: nat, n: nat, req: Request, st0: FormatState, lib: Library)
    requires m <= n <= |tags| == |cells|
    ensures var before, after := Run(tags, cells, m, req, st0, lib).st, Run(tags, cells, n, req, st0, lib).st;
            (before.dateFormat.Some? ==> after.dateFormat == before.dateFormat) &&
            (before.timeFormat.Some? ==> after.timeFormat == before.timeFormat)
    decreases n - m
  {
    if m < n {
      RunSuffixKeepsPatterns(tags, cells, m, n - 1, req, st0, lib);
      var p := Run(tags, cells, n - 1, req, st0, lib);
      ExtractFixesFirstPatterns(tags[n - 1], cells[n - 1], req, p.st, lib);
    }
  }

  // ---------------------------------------------------------------------
  // Properties of one column

  /**
   * A null cell yields the empty string in every column, whatever its tag,
   * except a boolean column, where getBoolean reads SQL NULL as false.
   */
  lemma NullCellText(colType: string, req: Request, st: FormatState, lib: Library)
    ensures Extract(colType, Null, req, st, lib).Extracted?
    ensures PostProcess(Extract(colType, Null, req, st, lib).raw, req.trim) == if colType == "boolean" then "false" else ""
  {
    var e := Extract(colType, Null, req, st, lib);
    if CaseOf(colType) == BooleanCase {
      assert e.raw == Some("false");
      TrimIsUnique("false", 0, 5);
    } else {
      assert e.Extracted? && e.raw.GetOr("") == "";
    }
  }

  /**
   * Each category of the classifier reaches its own branch of the dispatch:
   * booleans print as "true" or "false", numbers and strings pass the
   * driver's text through unchanged, objects through handleObject, blobs as
   * hex, clobs as their characters; only the temporal categories touch the
   * format state.
   */
  lemma DispatchFollowsCategory(c: Category, cell: Value, req: Request, st: FormatState, lib: Library)
    ensures var e := Extract(Tag(c), cell, req, st, lib);
      match c
      case Object => e == Extracted(Some(HandleObject(GetObject(cell), lib)), st)
      case Boolean => e == Extracted(Some(BooleanText(GetBoolean(cell))), st)
      case Number => e == Extracted(GetString(cell), st)
      case String => e == Extracted(GetString(cell), st)
      case Blob => e == Extracted(Some(BlobText(cell)), st)
      case Clob => e == Extracted(Some(GetClob(cell).GetOr("")), st)
      case Date => e == DateExtraction(cell, req.datePattern, st, lib)
      case Timestamp => e == TimestampExtraction(cell, req.timestampPattern, st, lib)
      case TimestampTZ => e == TimestampTZExtraction(cell, req.timestampPattern, st, lib)
  {
  }

  /** Without trimming, a number or string column's slot is exactly the driver's text ("" for null). */
  lemma PassThroughIsVerbatim(code: int, cell: Value, req: Request, st: FormatState, lib: Library)
    requires Classify(code) == Number || Classify(code) == String
    requires !req.trim
    ensures var e := Extract(Tag(Classify(code)), cell, req, st, lib);
            e.Extracted? && PostProcess(e.raw, req.trim) == GetString(cell).GetOr("")
  {
  }

  /** With trim on, a string column holding "  abc  " gives the slot "abc". */
  lemma TrimmedStringColumn(req: Request, st: FormatState, lib: Library)
    requires req.trim
    ensures var e := Extract(Tag(String), Text("  abc  "), req, st, lib);
            e.Extracted? && PostProcess(e.raw, req.trim) == "abc"
  {
    TrimExample();
  }

  /** A blob column's slot is two upper-case hex digits per byte, which read back as the blob. */
  lemma BlobSlotIsHex(cell: Value, req: Request, st: FormatState, lib: Library, bytes: seq<JByte>)
    requires cell == Bytes(bytes)
    ensures var e := Extract("blob", cell, req, st, lib);
            e.Extracted? && e.raw.Some? && e.raw.value == Hex(bytes) && |e.raw.value| == 2 * |bytes| && Unhex(e.raw.value) == bytes
  {
    assert CaseOf("blob") == BlobCase;
    assert BlobText(cell) == Hex(bytes);
    assert Extract("blob", cell, req, st, lib) == Extracted(Some(Hex(bytes)), st);
    UnhexOfHex(bytes);
  }

  // ---------------------------------------------------------------------
  // The time-zone formatter

  /**
   * A time-zone column throws exactly when the plain timestamp formatter
   * exists, the time-zone one does not, and the value is not null.
   */
  lemma TimeZoneFaultExactly(cell: Value, req: Request, st: FormatState, lib: Library)
    ensures Extract("timestamptz", cell, req, st, lib).Threw?
            <==> st.timeFormat.Some? && st.timeTZFormat.None? && GetTimestamp(cell).Some?
  {
    assert CaseOf("timestamptz") == TimestampTZCase;
  }

  /**
   * While no plain timestamp formatter exists, the time-zone formatter is
   * rebuilt on every call: the second of two calls uses its own pattern plus
   * " S", not the first call's, and neither call changes the default.
   */
  lemma TimeZonePatternIsNotFixed(c1: Value, req1: Request, req2: Request, st: FormatState, lib: Library, t: Moment)
    requires st.timeFormat.None?
    ensures var e1 := Extract("timestamptz", c1, req1, st, lib);
            e1.Extracted? && e1.st.defaultTimestamp == st.defaultTimestamp &&
            Extract("timestamptz", Stamp(t), req2, e1.st, lib)
              == Extracted(Some(lib.format(req2.timestampPattern + " S", t)), e1.st.(timeTZFormat := Some(req2.timestampPattern + " S")))
  {
    assert CaseOf("timestamptz") == TimestampTZCase;
  }

  /** The state of a fresh helper: no formatter created yet. */
  function Initial(defaultDate: string, defaultTimestamp: string): FormatState
  {
    FormatState(None, None, None, defaultDate, defaultTimestamp)
  }

  /**
   * A row whose TIMESTAMP column comes before a non-null vendor TIMESTAMPTZ
   * column throws at the second column on a fresh helper, even when the
   * timestamp itself is null.
   */
  lemma TimestampBeforeTimeZoneThrows(req: Request, lib: Library, t: Moment, dd: string, dt: string)
    ensures var tags := [Tag(Classify(TIMESTAMP)), Tag(Classify(VENDOR_TIMESTAMP_TZ))];
            Run(tags, [Null, Stamp(t)], 2, req, Initial(dd, dt), lib).failedAt == Some(1)
  {
    assert CaseOf("timestamp") == TimestampCase && CaseOf("timestamptz") == TimestampTZCase;
    var tags := [Tag(Classify(TIMESTAMP)), Tag(Classify(VENDOR_TIMESTAMP_TZ))];
    assert tags == ["timestamp", "timestamptz"];
    var cells := [Null, Stamp(t)];
    assert Run(tags, cells, 0, req, Initial(dd, dt), lib) == Progress([], Initial(dd, dt), None);
    var e := Extract(tags[0], cells[0], req, Initial(dd, dt), lib);
    assert e.Extracted? && e.st.timeFormat.Some? && e.st.timeTZFormat.None?;
    var first := Run(tags, cells, 1, req, Initial(dd, dt), lib);
    assert first.failedAt.None? && first.st == e.st;
  }

  /** The other order is harmless: the time-zone column comes first and formats with the pattern plus " S". */
  lemma TimeZoneBeforeTimestampSucceeds(req: Request, lib: Library, t: Moment, u: Moment, dd: string, dt: string)
    ensures var tags := [Tag(Classify(VENDOR_TIMESTAMP_TZ)), Tag(Classify(TIMESTAMP))];
            var p := Run(tags, [Stamp(t), Stamp(u)], 2, req, Initial(dd, dt), lib);
            p.failedAt.None? && p.values == [PostProcess(Some(lib.format(req.timestampPattern + " S", t)), req.trim),
                                            PostProcess(Some(lib.format(req.timestampPattern, u)), req.trim)]
  {
    assert CaseOf("timestamp") == TimestampCase && CaseOf("timestamptz") == TimestampTZCase;
    var tags := [Tag(Classify(VENDOR_TIMESTAMP_TZ)), Tag(Classify(TIMESTAMP))];
    assert tags == ["timestamptz", "timestamp"];
    var cells := [Stamp(t), Stamp(u)];
    assert Run(tags, cells, 0, req, Initial(dd, dt), lib) == Progress([], Initial(dd, dt), None);
    var e := Extract(tags[0], cells[0], req, Initial(dd, dt), lib);
    assert e.Extracted? && e.st.timeFormat.None?;
    var first := Run(tags, cells, 1, req, Initial(dd, dt), lib);
    assert first.failedAt.None? && first.st == e.st;
    assert first.values == [PostProcess(Some(lib.format(req.timestampPattern + " S", t)), req.trim)];
  }
}
