# FMS result report and CSV export, in Dafny

This project models the in-process logic of the FMS (egg test) result pages
of a small Flask board application (`app.py`):

- `fms_result` reads every row of the result table. It counts the rows as
  pass or fail from their free-text status column (`부적합여부`) and parses
  the egg weight (`종란무게`). It collects each positive weight into an
  overall list, a per-breed dict (`품종`) and a list of scatter points
  (`육계번호`, weight, breed).
- `export_fms` shapes the same table as CSV lines: a header from the first
  row's keys, then each row's values.

Modules, in dependency order:

- `Wrappers`: `Option`.
- `Text`: ASCII `str.strip()`, `str.lower()`, `str.replace(c, '')`.
- `Numerals`: digit strings, `str()` of an integer.
- `Values`: a column value (text, integer or NULL) and a row. A row is a
  dict: its keys in insertion order plus a key-to-value map. `dict.get`
  applies its default only when the key is absent.
- `Classifier`: the verdict of one row.
- `WeightParser`: the weight of one row. `float()` is read as an exact
  decimal over a plain grammar.
- `Aggregator`: the loop of `fms_result` as a method with loop invariants.
  Its step `Tally` holds the branches of the loop body. It is proved against
  reference folds over the rows read so far, and those folds carry the
  report's properties as lemmas.
- `CsvExport`: the shaping loop of `export_fms`, writing into a `Sink`
  object that stands for the `StringIO` buffer.

The database fetch is a parameter: `Some(rows)` when the query succeeded,
`None` when it raised.

## Model

| member | source | states |
|---|---|---|
| Text.TrimStartSpec | app.py:221 | left trimming drops exactly a leading run of whitespace and leaves a suffix starting with a non-space |
| Text.TrimEndSpec | app.py:221 | right trimming drops exactly a trailing run of whitespace and leaves a prefix ending with a non-space |
| Text.StripSpec | app.py:221 | `strip()` yields a contiguous slice of its input with no whitespace at either end |
| Text.StripAddsNothing | app.py:238 | stripping introduces no character absent from the input |
| Text.TrimStartPadded | app.py:221 | leading whitespace never survives left trimming |
| Text.TrimEndPadded | app.py:221 | trailing whitespace never survives right trimming |
| Text.TrimStartAppend | app.py:221 | left trimming a text followed by whitespace keeps that whitespace unless the text was all whitespace |
| Text.StripLeadingPadded | app.py:221 | whitespace put before a text does not change its strip |
| Text.StripTrailingPadded | app.py:221 | whitespace put after a text does not change its strip |
| Text.StripPadded | app.py:221 | whitespace on both sides never changes the stripped text |
| Text.StripTrimmed | app.py:221 | a text without whitespace at its ends is its own strip |
| Text.StripIdempotent | app.py:221 | stripping twice equals stripping once |
| Text.RemoveSpec | app.py:238 | `replace(c, '')` deletes every c and keeps every other character with its multiplicity |
| Text.RemoveAbsent | app.py:238 | deleting a character that does not occur changes nothing |
| Text.RemoveAppend | app.py:238 | deleting a character distributes over concatenation |
| Numerals.DigitsValue | app.py:238 | the value of a digit string is below 10 to the power of its length |
| Numerals.NatToText | app.py:238 | `str()` of a natural number is a non-empty digit string that starts with 0 only for 0 itself |
| Numerals.NatToTextValue | app.py:238 | reading back the digits `str()` writes gives the number |
| Values.ValuesCover | app.py:287 | every value a row stores is listed by `dict.values()`, at its key's position |
| Values.ValuesCount | app.py:287 | `dict.values()` lists exactly as many values as the row has entries |
| Classifier.LowerIsFail | app.py:224 | `lower()` gives "fail" exactly for the four letters f, a, i, l in any case |
| Classifier.VerdictFailIff | app.py:224-227 | a trimmed status fails exactly when it is `부적합` or any casing of "fail"; everything else passes |
| Classifier.ClassifyFailIff | app.py:221-227 | a row fails exactly when its stripped status column is `부적합` or a casing of "fail" |
| Classifier.MissingStatusPasses | app.py:221-227 | a row without the status column passes, through the default `''` |
| Classifier.NullStatusPasses | app.py:221-227 | a NULL status reads as "None" and passes |
| Classifier.StatusPaddingIgnored | app.py:221-227 | whitespace around the status never changes the verdict |
| WeightParser.CleanSpec | app.py:238 | the text handed to `float()` holds no 'g', no ',' and no whitespace at its ends |
| WeightParser.DotIndexSpec | app.py:238 | the first decimal point is found: nothing before it is a point |
| WeightParser.UnsignedSound | app.py:238 | an accepted unsigned number matches the decimal grammar |
| WeightParser.UnsignedComplete | app.py:238 | every text of the decimal grammar is accepted |
| WeightParser.UnsignedDefinedIff | app.py:238 | the unsigned parse succeeds exactly on the decimal grammar |
| WeightParser.ParseDefinedIff | app.py:238-240 | `float()` succeeds exactly on an optionally signed decimal |
| WeightParser.DecimalValue | app.py:238 | "a.b" parses to a plus b over 10 to the power of b's length |
| WeightParser.ParseDigits | app.py:238 | a digit string parses to the number it denotes |
| WeightParser.ParseSignedDigits | app.py:238 | a digit string, with or without a leading minus, parses to the signed number it denotes |
| WeightParser.ParseNatText | app.py:238 | the numeral of a natural number, with or without a minus, reads back as that signed number |
| WeightParser.ParseIntText | app.py:238 | `float(str(n))` is n for every integer n |
| WeightParser.CleanPlain | app.py:238 | text with no 'g', no ',' and no edge whitespace passes cleaning unchanged |
| WeightParser.CleanIntText | app.py:238 | `str()` of an integer passes cleaning unchanged |
| WeightParser.ParseWeightInt | app.py:232-240 | an integer column value weighs itself |
| WeightParser.MissingWeightIsZero | app.py:232-240 | a row without the weight column weighs 0, through the default 0 |
| WeightParser.NonzeroWeightWasDecimal | app.py:236-240 | a nonzero weight comes from text `float()` accepts, since rejected text weighs 0 |
| WeightParser.CleanIdempotent | app.py:238 | cleaning twice equals cleaning once |
| WeightParser.GramSuffix | app.py:238 | "<n>g" weighs n |
| WeightParser.DecimalGrams | app.py:238 | "<a>.<b>g" weighs the decimal a.b |
| WeightParser.CommaIgnored | app.py:238 | a comma anywhere in the weight text never changes the weight |
| WeightParser.ThousandsGrams | app.py:238 | "<a>,<b>.<c>g", such as "1,234.5g", weighs the decimal ab.c |
| WeightParser.BadLeadRejected | app.py:238-240 | text starting with anything but a digit, a sign or a point makes `float()` raise |
| WeightParser.WordWeighsZero | app.py:236-240 | a word `float()` rejects weighs 0 |
| WeightParser.NullWeighsZero | app.py:236-240 | a NULL weight (text "None") and the empty text weigh 0 |
| Aggregator.MapSeq | app.py:216 | the loop reads exactly one entry per row |
| Aggregator.MapAt | app.py:216 | the entry read at position j comes from row j |
| Aggregator.EntryAt | app.py:216-233 | entry j is row j's verdict, id, weight and breed, read with the source's defaults |
| Aggregator.Tally | app.py:224-253 | one loop iteration keeps the report equal to the reference folds over the rows seen, one row longer, and leaves the total alone |
| Aggregator.AddToBreed | app.py:245-247 | for a positive row, opening the breed's list on its first appearance and appending the weight keeps the dict equal to the reference breed order and lists |
| Aggregator.SkipKeepsGroups | app.py:242 | a row whose weight is not positive leaves the breed dict as the reference has it |
| Aggregator.Aggregate | app.py:214-253 | total is the row count, pass plus fail is the total, and counters, lists, breed order and breed dict are the reference folds over all rows; the dict's keys are exactly the listed breeds |
| Aggregator.FmsResult | app.py:201-260 | a failed fetch renders no rows and the zeroed report; otherwise the rows and the aggregated report |
| Aggregator.CountsAddUp | app.py:214-227 | pass plus fail equals the number of rows |
| Aggregator.UnseenBreedEmpty | app.py:245-246 | a breed not yet listed has collected no weight, so the new list starts empty |
| Aggregator.WeightsPositive | app.py:242-243 | every collected weight is positive |
| Aggregator.ScatterMatchesWeights | app.py:243-253 | one scatter point per collected weight, carrying that weight, in the same order |
| Aggregator.CountsAppend | app.py:224-227 | the counters for more rows are those for fewer plus those for the extra rows |
| Aggregator.ListsAppend | app.py:243-253 | the weight list and the scatter list for more rows extend those for fewer, by the extra rows' own |
| Aggregator.LightRowOnlyCounted | app.py:221-253 | a row with weight at most 0 adds one to the counter of its own verdict and leaves the weight list, the scatter list, the breed order and every breed's list as they were |
| Aggregator.HeavyRowCollected | app.py:242-253 | a row with positive weight appends its weight, its breed's weight and its point, and its breed becomes a key |
| Aggregator.MissingBreedIsUnknown | app.py:231-247 | a positive row without a breed column is grouped under "Unknown" |
| Aggregator.BreedOrderDistinct | app.py:245-246 | each breed is a key once |
| Aggregator.BreedListedIff | app.py:245-247 | a breed is a key exactly when it has collected a weight |
| Aggregator.GroupSizesSnoc | app.py:247 | one more entry lengthens only its own breed's list |
| Aggregator.GroupsPartitionWeights | app.py:243-247 | the lengths of the breed lists add up to the length of the overall list |
| Aggregator.BreedScanAppend | app.py:245-247 | later rows never reset a breed list; the list for more rows is the list for fewer, extended |
| Aggregator.BreedOrderGrows | app.py:245-246 | later rows never reorder or drop a breed; new breeds only come after |
| Aggregator.BreedWeightsFiltered | app.py:243-247 | a breed's list is the overall weight list restricted to that breed's rows, in scan order |
| Aggregator.RowCounted | app.py:221-227 | each row adds one to exactly one counter, to fail exactly when its status is `부적합` or a casing of "fail" |
| CsvExport.FieldReadsBack | app.py:287 | a field is empty exactly for NULL or empty text; a non-negative integer's field reads back as that integer, a negative one's is its absolute value's after a minus |
| CsvExport.CellsSpec | app.py:287 | a row's line has one field per key, field j being the value under key j |
| CsvExport.Sink.constructor | app.py:279-280 | the buffer starts empty |
| CsvExport.Sink.WriteRow | app.py:284-287 | `writerow` appends exactly one line |
| CsvExport.WriteTable | app.py:282-287 | no rows give no lines; otherwise the header is the first row's keys and line i + 1 is row i's values, in its own key order |
| CsvExport.ExportFms | app.py:274-297 | a failed fetch returns the error text; otherwise the CSV lines of the table |
| CsvExport.ColumnsAlign | app.py:282-287 | when every row has the header's keys in order, every line has the header's width and field j is that row's value for header column j |

## Left out

- The other routes are not part of this model. `index`, `create_post`, `view_post`, `edit_post`, `delete_post`, `add_comment` and `like_post` only issue SQL statements against the external database and build responses.
- The database connection, the cursors and the query are not modelled. The fetched rows are a parameter, `None` when the query raises.
- Flask responses are not modelled: `render_template`, `make_response` and the download headers. `FmsResult` returns the values the template receives, and `ExportFms` returns the CSV lines.
- CSV quoting, escaping and line terminators are `csv.writer` library behaviour. A line is modelled as its list of fields.
- `print` logging and the random secret key are I/O.
- An exception in the middle of the loop cannot arise for the column values modelled (text, integer, NULL): `get`, `str`, `strip`, `lower` and hashing a breed are total on them. The partial-report path therefore reduces to the failed fetch. Float, Decimal and array columns are not modelled. An array breed would be unhashable and would stop the loop part-way.
- WeightParser.ParseDecimal: Python's other `float()` forms are not accepted. These are `inf`, `nan`, exponents, underscores and non-ASCII digits. Weights are exact reals, not IEEE doubles, so rounding is not modelled.
- Text.Strip and Text.Lower work on ASCII only. Unicode whitespace and Unicode case folding are not modelled.
- The breed dict is modelled as its keys in insertion order plus a map from each key to its list. Python's dict is exactly these two together.
