/**
 * The column classifier of ResultSetHelperService: a total map from a JDBC
 * type code (the constants of java.sql.Types plus three vendor codes) to one
 * of nine column categories, and the tag string the helper stores for each.
 */
module JdbcTypes {

  // The java.sql.Types codes the classifier names.
  const BIT: int := -7
  const TINYINT: int := -6
  const BIGINT: int := -5
  const NUMERIC: int := 2
  const DECIMAL: int := 3
  const INTEGER: int := 4
  const SMALLINT: int := 5
  const FLOAT: int := 6
  const REAL: int := 7
  const DOUBLE: int := 8
  const VARCHAR: int := 12
  const BOOLEAN: int := 16
  const DATE: int := 91
  const TIME: int := 92
  const TIMESTAMP: int := 93
  const JAVA_OBJECT: int := 2000
  const BLOB: int := 2004
  const CLOB: int := 2005
  const NCLOB: int := 2011

  // Vendor codes (Oracle's TIMESTAMPNS, TIMESTAMPTZ and TIMESTAMPLTZ).
  const VENDOR_TIMESTAMP: int := -100
  const VENDOR_TIMESTAMP_TZ: int := -101
  const VENDOR_TIMESTAMP_LTZ: int := -102

  datatype Category = Object | Boolean | Number | Date | Timestamp | TimestampTZ | Blob | Clob | String

  /** The classifying switch of the constructor; every code not listed is a string column. */
  function Classify(code: int): (c: Category)
    ensures c != String ==> code in Codes(c)
  {
    if code == BIT || code == JAVA_OBJECT then Object
    else if code == BOOLEAN then Boolean
    else if code == BIGINT || code == DECIMAL || code == DOUBLE || code == FLOAT || code == REAL
         || code == NUMERIC || code == INTEGER || code == TINYINT || code == SMALLINT then Number
    else if code == TIME || code == DATE then Date
    else if code == TIMESTAMP || code == VENDOR_TIMESTAMP then Timestamp
    else if code == VENDOR_TIMESTAMP_TZ || code == VENDOR_TIMESTAMP_LTZ then TimestampTZ
    else if code == BLOB then Blob
    else if code == NCLOB || code == CLOB then Clob
    else String
  }

  /** The tag string stored in `columnTypes` for a category. */
  function Tag(c: Category): (t: string)
    ensures t != "time"
  {
    match c
    case Object => "object"
    case Boolean => "boolean"
    case Number => "number"
    case Date => "date"
    case Timestamp => "timestamp"
    case TimestampTZ => "timestamptz"
    case Blob => "blob"
    case Clob => "clob"
    case String => "string"
  }

  /** The classification table written as data: the codes listed for each category. */
  function Codes(c: Category): set<int>
  {
    match c
    case Object => {BIT, JAVA_OBJECT}
    case Boolean => {BOOLEAN}
    case Number => {BIGINT, DECIMAL, DOUBLE, FLOAT, REAL, NUMERIC, INTEGER, TINYINT, SMALLINT}
    case Date => {TIME, DATE}
    case Timestamp => {TIMESTAMP, VENDOR_TIMESTAMP}
    case TimestampTZ => {VENDOR_TIMESTAMP_TZ, VENDOR_TIMESTAMP_LTZ}
    case Blob => {BLOB}
    case Clob => {NCLOB, CLOB}
    case String => {}
  }

  /**
   * Classification agrees with the table in both directions: a code is put in
   * a listed category exactly when the table lists it there, and in `String`
   * exactly when no category lists it.
   */
  lemma ClassifyByTable(code: int)
    ensures forall c :: c != String ==> (Classify(code) == c <==> code in Codes(c))
    ensures Classify(code) == String <==> forall c :: code !in Codes(c)
  {
    if Classify(code) != String {
      assert code in Codes(Classify(code));
    }
  }

  /** No code is listed twice, so the order of the switch's cases does not matter. */
  lemma TableIsDisjoint(c1: Category, c2: Category)
    requires c1 != c2
    ensures Codes(c1) * Codes(c2) == {}
  {
  }

  /** Tags name their category uniquely, so the dispatch on the tag recovers the category. */
  lemma TagsAreDistinct(c1: Category, c2: Category)
    ensures Tag(c1) == Tag(c2) <==> c1 == c2
  {
  }

  /** Codes the switch does not list, VARCHAR among them, are string columns. */
  lemma UnlistedCodesAreStrings()
    ensures Classify(VARCHAR) == String
    ensures Classify(0) == String
  {
  }
}
