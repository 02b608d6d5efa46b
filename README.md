# ResultSetHelperService in Dafny

A model of opencsv's `ResultSetHelperService`, the class that turns the rows
of a JDBC `ResultSet` into `String[]` rows for CSV export, with proofs of
what it guarantees.

The model has four parts.

- **Column classification.** The constructor reads the cursor's metadata once.
  It stores each column's name, raw type code and tag: `object`, `boolean`,
  `number`, `date`, `timestamp`, `timestamptz`, `blob`, `clob` or `string`.
  This is modelled by `JdbcTypes.Classify` and the constructor's loop.
- **Row materialisation.** `getColumnValues` advances the cursor. When the data
  is exhausted, it closes the cursor and returns null. Otherwise it rewrites
  the one reused `rowValue` buffer column by column, in ascending order.
  - Each column is dispatched on its tag, then null becomes `""`, then the text
    is trimmed if asked.
  - The pure specification is `RowSpec.Extract`, `RowSpec.PostProcess` and the
    left-to-right `RowSpec.Run`.
  - The class `ResultSetHelper.ResultSetHelperService` is proved against that
    specification: an array buffer, formatter fields, and methods with loop
    invariants.
- **Formatter caches.** The date and timestamp formatters are created from the
  first pattern seen, and that pattern also becomes the process-wide default.
  The time-zone formatter is different, because the guard at line 194 tests
  `timeFormat`, not `timeTZFormat`.
  - While `timeFormat` does not exist, each call rebuilds the time-zone
    formatter from its own pattern plus `" S"`.
  - Once `timeFormat` exists, the time-zone formatter is never built again. If
    it was never built, a non-null time-zone value dereferences null at line
    197 and throws a `NullPointerException`.

  The model keeps this behaviour, because it is what the code does.
- **Blob encoding.** The `StringBuilder` loop writes two zero-padded hex digits
  per byte, upper-cased at the end. It is proved equal to a specification
  `Hex`, and `Hex` is proved to lose nothing: `Unhex(Hex(b)) == b`.

JDBC is a `Cursor` class holding rows of tagged `Value`s, a position and a
`closed` flag. `SimpleDateFormat.format` and `String.valueOf(Object)` are the
two function fields of a `Library` value, taken as given. The static
`DEFAULT_DATE_FORMAT` and `DEFAULT_TIMESTAMP_FORMAT` live in a shared
`Defaults` object. A Java `null` slot is `None` in an `array<Option<string>>`,
so "no slot is null" can be stated.

A null cell gives `""` in every column except a boolean one. A null boolean
cell gives `"false"`, because `getBoolean` reads SQL NULL as false
(`RowSpec.NullCellText`).

A call after exhaustion calls `rs.next()` on the closed cursor, which throws
`SQLException` (`Fetched`, closed case).

## Model

| member | source | states |
|---|---|---|
| JdbcTypes.ClassifyByTable | src/com/opencsv/ResultSetHelperService.java:61-103 | A code gets a listed category exactly when the switch lists it under that category, and gets `string` exactly when no case lists it (classification is total). |
| JdbcTypes.TableIsDisjoint | src/com/opencsv/ResultSetHelperService.java:61-103 | No type code is listed under two categories, so the switch is a function of the code alone. |
| JdbcTypes.Classify | src/com/opencsv/ResultSetHelperService.java:61-103 | The constructor's switch on the type code: every category other than `string` is given only to codes its case lists, and unlisted codes fall to `string`. |
| JdbcTypes.Tag | src/com/opencsv/ResultSetHelperService.java:64-102 | The tag string stored for each category. No category is tagged `"time"`, so the `"time"` case of the dispatch (line 235) is unreachable from a classified column. |
| JdbcTypes.TagsAreDistinct | src/com/opencsv/ResultSetHelperService.java:64-102 | Distinct categories get distinct tags, so the dispatch on the tag recovers the category. |
| JdbcTypes.UnlistedCodesAreStrings | src/com/opencsv/ResultSetHelperService.java:101-102 | `VARCHAR` and the unlisted code 0 reach the `default` case and are string columns. |
| JavaText.Trim | src/com/opencsv/ResultSetHelperService.java:251 | `String.trim`: the result is an infix of the input, only characters at or below U+0020 are removed around it, and none is left at either end. |
| JavaText.TrimIsUnique | src/com/opencsv/ResultSetHelperService.java:251 | Any infix with no trimmable character at its ends and only trimmable characters around it is the trimmed string. |
| JavaText.TrimIsIdempotent | src/com/opencsv/ResultSetHelperService.java:251 | Trimming a trimmed slot changes nothing. |
| JavaText.TrimExample | src/com/opencsv/ResultSetHelperService.java:251 | `"  abc  "` trims to `"abc"`. |
| JavaText.BooleanText | src/com/opencsv/ResultSetHelperService.java:207-208 | `Boolean.valueOf(b).toString()` is `"true"` or `"false"`, and it is `"true"` exactly when `b` holds. |
| JavaText.ToUpperCase | src/com/opencsv/ResultSetHelperService.java:224 | `toUpperCase` keeps the length. It has no per-character contract of its own: `BlobHex.UpperHexOfLowerHex`, `PaddedByteHex` and `AppendedByteHex` state its effect on the hex digits it meets. |
| BlobHex.UpperHexOfLowerHex | src/com/opencsv/ResultSetHelperService.java:218-224 | Upper-casing the lower-case digit `Integer.toHexString` writes for a value below 16 gives the upper-case hex digit of that value, so `0`-`9` are kept and `a`-`f` become `A`-`F`. |
| JavaText.ToHexString | src/com/opencsv/ResultSetHelperService.java:218 | `Integer.toHexString` gives one digit below 16 and two digits for 16..255. |
| BlobHex.Unsigned | src/com/opencsv/ResultSetHelperService.java:217 | `src[i] & 0xFF` is in 0..255 and congruent to the signed byte modulo 256. |
| BlobHex.PaddedByteHex | src/com/opencsv/ResultSetHelperService.java:217-222 | One byte's padded, upper-cased `toHexString` is its two hex digits, high nibble first. |
| BlobHex.AppendedByteHex | src/com/opencsv/ResultSetHelperService.java:216-222 | One pass of the loop body, once upper-cased, appends exactly the byte's two hex digits. |
| BlobHex.BlobToHex | src/com/opencsv/ResultSetHelperService.java:215-224 | The `StringBuilder` loop followed by `toUpperCase` yields exactly `Hex(src)`, which has length 2n. |
| BlobHex.HexAt | src/com/opencsv/ResultSetHelperService.java:215-224 | Byte k is written at positions 2k and 2k+1, high nibble first, in upper-case hex. |
| BlobHex.UnhexOfHex | src/com/opencsv/ResultSetHelperService.java:215-224 | The blob text loses nothing: reading the digit pairs back gives the original bytes. |
| BlobHex.HexExample | src/com/opencsv/ResultSetHelperService.java:215-224 | Bytes 0x0A and 0xFF (signed -1) give `"0AFF"`. |
| Jdbc.Cursor.Next | src/com/opencsv/ResultSetHelperService.java:151 | `rs.next()` throws on a closed cursor; otherwise it moves to the following row and says whether one exists, or parks after the last row. |
| Jdbc.Cursor.Close | src/com/opencsv/ResultSetHelperService.java:152 | `rs.close()` closes the cursor and leaves its position alone. |
| RowSpec.HandleObject | src/com/opencsv/ResultSetHelperService.java:168-170 | `handleObject` gives `""` for a null object. A non-null object gives `String.valueOf`, which is taken as given. |
| RowSpec.DateExtraction | src/com/opencsv/ResultSetHelperService.java:173-180 | `handleDate` never throws and always leaves a date formatter. It creates a missing formatter, and the default, from this call's pattern and keeps an existing one. It touches nothing but the date formatter and default. It returns null exactly for a null date, and otherwise the date formatted with the formatter it leaves. |
| RowSpec.TimestampExtraction | src/com/opencsv/ResultSetHelperService.java:183-190 | `handleTimestamp` is the same as `handleDate`, with the timestamp formatter and default. |
| RowSpec.TimestampTZExtraction | src/com/opencsv/ResultSetHelperService.java:192-198 | `handleTimestampTZ` throws exactly when `timeFormat` exists, `timeTZFormat` does not and the value is not null. Otherwise it changes only the time-zone formatter. While `timeFormat` is missing, it rebuilds that formatter from the pattern plus `" S"`; once `timeFormat` exists, it keeps the formatter as it is. It returns null for a null value, and otherwise the value formatted with the time-zone formatter it leaves. |
| RowSpec.BlobText | src/com/opencsv/ResultSetHelperService.java:210-226 | A null blob leaves the slot at `""`. A blob of n bytes gives exactly `Hex` of its bytes, 2n characters, which `HexAt` describes digit by digit. |
| RowSpec.CaseOf | src/com/opencsv/ResultSetHelperService.java:202-246 | The case the string switch selects for a tag. It has no contract of its own: `DispatchFollowsCategory` proves that each classifier tag selects its category's branch. |
| RowSpec.Extract | src/com/opencsv/ResultSetHelperService.java:200-246 | The only column extraction that throws is a time-zone column, and it throws the formatter `NullPointerException`. |
| RowSpec.PostProcess | src/com/opencsv/ResultSetHelperService.java:248-251 | Null becomes `""`. With trim on, the slot is `String.trim` of that text, so it has no trimmable character at either end. With trim off, it is the extracted text itself. |
| RowSpec.Run | src/com/opencsv/ResultSetHelperService.java:155-157 | Processing n columns gives n texts, or stops at the first column that throws with exactly the texts before it. |
| RowSpec.RunSlot | src/com/opencsv/ResultSetHelperService.java:155-157 | Slot k holds its own column's post-processed extraction, computed from the state the earlier columns left; later columns do not touch it. |
| RowSpec.RunStopsAtFault | src/com/opencsv/ResultSetHelperService.java:155-157 | Once a column throws, no later column is processed: the run is unchanged to the end of the row. |
| RowSpec.RunExtends | src/com/opencsv/ResultSetHelperService.java:155-157 | A column that does not throw appends its text, keeps the earlier texts and carries its format state on. |
| RowSpec.RunTrimmed | src/com/opencsv/ResultSetHelperService.java:248-251 | With trim on, no slot of the row starts or ends with a trimmable character. |
| RowSpec.ExtractFixesFirstPatterns | src/com/opencsv/ResultSetHelperService.java:175-188 | One column either leaves the date and timestamp formatters and defaults alone, or creates a missing one from this call's pattern and makes it the default. |
| RowSpec.RunFixesFirstPatterns | src/com/opencsv/ResultSetHelperService.java:175-188 | The same over any prefix of a row: first pattern wins, an existing formatter is never replaced, and a created one comes from this call's pattern. |
| RowSpec.RunSuffixKeepsPatterns | src/com/opencsv/ResultSetHelperService.java:175-188 | A date or timestamp formatter that exists after column m is unchanged after every later column. |
| RowSpec.TimestampColumnCreatesFormatter | src/com/opencsv/ResultSetHelperService.java:183-188 | A timestamp column never throws and always leaves a timestamp formatter behind. |
| RowSpec.FixedTimestampPatternIsUsed | src/com/opencsv/ResultSetHelperService.java:183-189 | Once the timestamp formatter exists, every timestamp cell is formatted with its pattern, whatever pattern the call passes. |
| RowSpec.FixedDatePatternIsUsed | src/com/opencsv/ResultSetHelperService.java:173-179 | Once the date formatter exists, every date or time cell is formatted with its pattern, whatever pattern the call passes. |
| RowSpec.FirstTimestampPatternWins | src/com/opencsv/ResultSetHelperService.java:183-190 | Across two rows: after a first row with a timestamp column, the second row's timestamps use the first row's pattern and ignore their own. |
| RowSpec.NullCellText | src/com/opencsv/ResultSetHelperService.java:200-251 | A null cell never throws and yields `""` under every tag except `boolean`, which yields `"false"`. |
| RowSpec.DispatchFollowsCategory | src/com/opencsv/ResultSetHelperService.java:202-246 | Each category reaches its own branch: `handleObject`, the boolean text, `getString` verbatim for numbers and strings, hex for blobs, the characters for clobs, and the three formatter helpers. Only the temporal branches touch the format state. |
| RowSpec.PassThroughIsVerbatim | src/com/opencsv/ResultSetHelperService.java:244-245 | Without trim, a number or string column's slot is exactly the driver's text, or `""` for null. |
| RowSpec.TrimmedStringColumn | src/com/opencsv/ResultSetHelperService.java:244-251 | With trim on, a string column holding `"  abc  "` gives the slot `"abc"`. |
| RowSpec.BlobSlotIsHex | src/com/opencsv/ResultSetHelperService.java:210-225 | A blob of n bytes gives a slot that is exactly `Hex` of the bytes: 2n upper-case, zero-padded hex digits that read back as the blob. |
| RowSpec.TimeZoneFaultExactly | src/com/opencsv/ResultSetHelperService.java:192-198 | A time-zone column throws exactly when the plain timestamp formatter exists, the time-zone one does not, and the value is not null. |
| RowSpec.TimeZonePatternIsNotFixed | src/com/opencsv/ResultSetHelperService.java:192-198 | While no plain timestamp formatter exists, each call rebuilds the time-zone formatter from its own pattern plus `" S"`, and the default is not touched. |
| RowSpec.TimestampBeforeTimeZoneThrows | src/com/opencsv/ResultSetHelperService.java:192-198 | On a fresh helper, a TIMESTAMP column followed by a non-null vendor TIMESTAMPTZ column throws at the second column, even when the timestamp is null. |
| RowSpec.TimeZoneBeforeTimestampSucceeds | src/com/opencsv/ResultSetHelperService.java:192-198 | In the other order, the row succeeds: the time-zone value uses the pattern plus `" S"` and the timestamp uses the pattern. |
| ResultSetHelper.Defaults.constructor | src/com/opencsv/ResultSetHelperService.java:31-32 | The shared defaults start as `yyyy-MM-dd` and `yyyy-MM-dd HH:mm:ss.S`. |
| ResultSetHelper.ResultSetHelperService.constructor | src/com/opencsv/ResultSetHelperService.java:47-109 | Four fresh arrays of length `columnCount`. `columnTypesI` and `columnNames` copy the metadata, each tag is the classification of its code, every slot is null, and no formatter exists yet. |
| ResultSetHelper.ResultSetHelperService.HandleDate | src/com/opencsv/ResultSetHelperService.java:173-180 | `handleDate` returns and leaves exactly what `DateExtraction` specifies, including writing the first pattern to the shared default. |
| ResultSetHelper.ResultSetHelperService.HandleTimestamp | src/com/opencsv/ResultSetHelperService.java:183-190 | `handleTimestamp` returns and leaves exactly what `TimestampExtraction` specifies. |
| ResultSetHelper.ResultSetHelperService.HandleTimestampTZ | src/com/opencsv/ResultSetHelperService.java:192-198 | `handleTimestampTZ` returns, throws and leaves exactly what `TimestampTZExtraction` specifies. |
| ResultSetHelper.ResultSetHelperService.GetColumnValue | src/com/opencsv/ResultSetHelperService.java:200-252 | Only slot colIndex-1 changes. It holds the post-processed extraction, or `""` when the column throws, and the format state moves as `Extract` says. |
| ResultSetHelper.ResultSetHelperService.ReadColumn | src/com/opencsv/ResultSetHelperService.java:155-157 | One pass of the column loop. If the column does not throw, the buffer and formatters match the run of the row extended by that column, and later slots are untouched. If it throws, the row is read as far as `RowRead` says: earlier slots filled, that slot `""`, later slots untouched. |
| ResultSetHelper.ResultSetHelperService.ReadColumns | src/com/opencsv/ResultSetHelperService.java:155-159 | The loop leaves every slot holding its column's text in `Run` order, and returns the same buffer. If a column throws, the earlier slots are filled, that slot is `""` and the later slots are untouched. |
| ResultSetHelper.ResultSetHelperService.GetColumnValues | src/com/opencsv/ResultSetHelperService.java:149-160 | On a closed cursor it throws and changes nothing. Past the last row it closes the cursor and returns null, with the buffer and formatters unchanged. Otherwise it advances one row and reads it as `ReadColumns` says. Every tag still classifies its code afterwards. |
| ResultSetHelper.ResultSetHelperService.GetColumnValuesWithDefaults | src/com/opencsv/ResultSetHelperService.java:123-137 | The shorter overloads use the current shared default patterns. |

## Left out

- `setFetchSize`, `setFetchDirection` and `getMetaData` (lines 50-52): the cursor's column names, type codes and rows are constructor inputs.
- The one-argument constructor and `RESULT_FETCH_SIZE` (lines 30, 111-113) only supply a fetch size, which has no effect in the model.
- The `cost` timing with `System.nanoTime`: wall-clock instrumentation.
- `SimpleDateFormat` rendering and `String.valueOf(Object)`: these are the `Library` function fields, taken as given. An invalid pattern, which would throw in the constructor of `SimpleDateFormat`, is not modelled.
- `Blob.free` and `Clob.free`: resource release with no effect on the result.
- `String.intern`: names and tags are plain strings.
- Driver exceptions other than `next()` on a closed cursor (`SQLException` from the accessors, and `IOException`) are not modelled. So is a driver's conversion between kinds: an accessor applied to a cell of another kind reads it as SQL NULL.
- BlobHex.BlobToHex: the model has no `int` overflow and returns `Hex(src)` for every blob. In Java, `src.length * 2` at line 215 overflows for blobs of 2^30 bytes or more, and `new StringBuilder` then throws `NegativeArraySizeException`. The `(int) bl.length()` cast at line 213 is not modelled either.
- RowSpec.Extract: the `(int) c.length()` cast at line 230 is not modelled, so a clob longer than 2^31 - 1 characters is read whole instead of being cut short or failing.
- JavaText.ToUpperCase: its contract states only that the length is kept, and it maps only ASCII letters. Its effect on the hex digits it meets is stated by `BlobHex.UpperHexOfLowerHex`.
- ResultSetHelper.ResultSetHelperService: the public fields `columnCount`, `columnNames`, `columnTypes`, `columnTypesI` and `rowValue` (lines 33-37) are `const` in the model, and `Valid` fixes the contents of the first four at construction.
  - Writes to them from outside the class are not modelled, although Java allows them.
  - The model therefore does not capture a caller that replaces `rowValue` between calls, which changes the array line 159 returns.
  - It also does not capture a caller that stores a tag such as `"time"` into `columnTypes`.
- Concurrency: the class is not thread-safe, and the shared defaults are modelled as one object with no concurrent access.
