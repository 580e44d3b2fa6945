# A verified model of the ClickHouse adapter

The adapter stores records of a tenant and scope in replacing tables and reads them back in
pages behind signed cursors. This project models four parts of it in Dafny and proves that they
fit together: no stored record is lost, and none is shown twice.

1. **Queries and live pagination.** `_SQLCompiler` is a class that numbers parameters while it
   prints conditions. The printed text is a sequence of tokens; a recursive-descent parser with the
   precedence of SQL reads it back (`Sql`), and three-valued evaluation gives it a meaning. Over
   that stand a reference semantics of filters that knows only operator names (`Conditions`), the
   completed order (`Sorts`) and what it means for two rows (`Orders`), the condition "after the
   cursor" (`Keysets`), the time window (`Windows`), the whole SELECT statement
   (`SelectStatements`), both compile entry points (`Translator`), result normalisation
   (`Cursors`), traversals over a table that changes between pages (`Traversals`), and the link
   from compiled pages to traversals and items (`Paging`).
2. **Nanosecond timestamps.** Parsing and the three printed spellings over signed 64-bit ticks,
   with a proleptic Gregorian calendar of its own (`Timestamps`, `Calendar`, `Decimal`).
3. **Append identity and storage.** Row preparation (`Ingestion`), layouts and their documents
   (`Layouts`, `LayoutDocuments`), and the replacing table as a state machine: concurrent
   deliveries, retries under the same token, deduplication that may or may not remember, broken
   connections, background merges and FINAL reads (`AppendStore`). The partition, key and version
   of that table are those that are read from the emitted definition. `EndToEnd` joins storage
   and pagination.
4. **Migration and verification.** The table definition as text (`Schema`), how an engine reads
   all of it (`Definitions`), the column types as a grammar (`ColumnTypes`), the probes and the
   advertised guarantee (`Probe`), and migrations that may stop before or after any client call
   (`Migrations`).

A function states what an operation computes; the method with the loops and fields of the
original is proved against it with code of its own; lemmas then prove what the operation is for.
Where both rest on one table or helper, a lemma says what that is without mentioning it.

## Reading the model

- Digests are an abstract function from JSON documents to text. Layout fingerprints only need it
  to be injective. Where digests also have their 64-digit form, the claims only assume that the
  finitely many documents hashed during one run do not collide.
- Cursors are unforgeable tokens of the fields that verification pins.
- A table is a set of rows; identical physical copies count once. The engine may keep or remove
  superseded rows at any time, but keeps a row of the last version of each key.
- ORDER BY with LIMIT returns selected rows in order and leaves none out before the limit; ties may
  come in any order. The proofs do not need more.
- The engine answers the statement as the reader understands it: ORDER BY columns, directions and
  LIMIT come from the emitted text. The driver returns one value for each selection, with integer
  ticks for the flagged aliases. Decoding of JSON columns is a parameter.
- An engine prints plain names in `sorting_key` bare, and anything else with a quote, bracket or
  operator.
- The fingerprint of an operation is a digest of the operation document, which contains the data
  to append; extracting that data is a parameter.

## Where code and documentation differ, or a promise has a limit

- The window check counts a range below OR, and then does not bound the query. An accepted input
  is `Windows.EscapingInput`; `Windows.OutsideWindow` says for every accepted filter and row
  exactly when a row outside the window is matched, and `Windows.WindowHolds` when the window
  holds for all. A caller can test beforehand that nothing is left without the range, in
  particular that only AND stands above it (`Windows.OnlyAndLeavesNothing`).
- NOT is printed without outer brackets. The null test of a NOT answers the opposite
  (`FilterReading.InvertedNullTest`), a NOT on the right of a comparison is refused by SQL
  (`FilterReading.NotOnTheRightIsRefused`), and `FilterReading.ReadBack` says exactly which trees
  are read as they are meant.
- Names are checked against fewer reserved names than the adapter uses. Physical column names are
  not checked against the hidden ones (`Ingestion.InsertColumnsUnique`,
  `Ingestion.ReservedNameAccepted`), logical names and aliases not against the aliases of sort
  columns and total (`Cursors.ItemLookup`, `Cursors.ReservedAliasAccepted`), and table names not
  against the metadata table (`Migrations.FreshKeysVerify`, `Migrations.FreshResourceVerifies`).
  Generated names never collide.
- RFC 3339 section 5.7 allows second 60; the code refuses it, and so does the model. The code
  accepts a space between date and time.
- A missing nullable array field is refused, because conversion of an array does not accept null
  (`Ingestion.RecordAccepted`).
- Layouts without the append-only marker lose records that agree on scope, timestamp and identity
  (`AppendStore.LegacyTableShowsAll`, `AppendStore.LegacyShowsLatest`), as docs/evidence-append.md says of release 1.1.2.

## Model

| member | source | states |
|---|---|---|
| Timestamps.SpellingParses | src/meridian_storage/adapters/clickhouse/_timestamps.py:16-30 | every grammatical spelling, with any offset and up to nine fractional digits, parses to the ticks of its UTC second plus the decimal value of its fraction, or is refused exactly when its date, its offset or its range is |
| Timestamps.FractionExact | src/meridian_storage/adapters/clickhouse/_timestamps.py:27 | a parsed instant lies past its second by exactly the digits of its fraction over ten to their number |
| Timestamps.TrailingZeros | src/meridian_storage/adapters/clickhouse/_timestamps.py:27 | appending zeros to a fraction changes neither acceptance nor the parsed ticks |
| Timestamps.CalendarExact | src/meridian_storage/adapters/clickhouse/_timestamps.py:23-26 | the seconds that the calendar covers are exactly those of its civil times |
| Timestamps.MatchedIsSpelling | src/meridian_storage/adapters/clickhouse/_timestamps.py:11-23 | every text that is not a syntax error is the rendering of a grammatical spelling with the same reading: the grammar is complete |
| Timestamps.ResultRoundTrip | src/meridian_storage/adapters/clickhouse/_timestamps.py:33-41 | for every signed 64-bit tick count, the printed result text parses back to the ticks |
| Timestamps.ParameterRoundTrip | src/meridian_storage/adapters/clickhouse/_timestamps.py:37-38 | the parameter text of every tick count, read as UTC, denotes the ticks |
| Timestamps.PrintOfParseIdempotent | src/meridian_storage/adapters/clickhouse/_timestamps.py:16-41 | printing what was parsed names the same ticks, and changes nothing exactly on texts that are themselves printed |
| Timestamps.ParameterOrder | src/meridian_storage/adapters/clickhouse/_timestamps.py:37-38 | parameter texts compare as text exactly like their ticks over the whole range, so no two ticks share one |
| Timestamps.DateTextOrder | src/meridian_storage/adapters/clickhouse/_timestamps.py:38 | printed civil times compare as text exactly like the civil times |
| Timestamps.SecondsOrder | src/meridian_storage/adapters/clickhouse/_timestamps.py:24-26 | seconds since the epoch order civil times and tell them apart |
| Calendar.DateRoundTrip | src/meridian_storage/adapters/clickhouse/_timestamps.py:24-36 | day number and proleptic Gregorian date are inverse on every valid date |
| Calendar.DayInCalendar | src/meridian_storage/adapters/clickhouse/_timestamps.py:36 | every day number between the first and last representable day has a valid date with that number |
| Calendar.YearOfDayContains | src/meridian_storage/adapters/clickhouse/_timestamps.py:36 | the computed year contains the day, through all four-, hundred- and four-hundred-year cycles |
| Calendar.DayNumberOrder | src/meridian_storage/adapters/clickhouse/_timestamps.py:25 | an earlier date has a smaller day number |
| Calendar.EpochIsFirstOfJanuary1970 | src/meridian_storage/adapters/clickhouse/_timestamps.py:9 | the epoch and the last day have the day numbers that the codec subtracts |
| Decimal.DigitsOrder | src/meridian_storage/adapters/clickhouse/_timestamps.py:38 | zero-padded digit fields of equal width compare as text like the numbers |
| Decimal.NumberOfDigits | src/meridian_storage/adapters/clickhouse/_timestamps.py:38 | a number printed at a sufficient width reads back |
| Decimal.DigitsOfNumber | src/meridian_storage/adapters/clickhouse/_timestamps.py:27 | every digit field is the printed form of its number |
| Base64.DecodeEncode | src/meridian_storage/adapters/clickhouse/query/compiler.py:952-953 | decoding the encoding of any bytes gives the bytes |
| Base64.StandardExamples | src/meridian_storage/adapters/clickhouse/query/compiler.py:952-953 | the encoding agrees with examples of section 10 of RFC 4648, padded and unpadded |
| RowFingerprint.FingerprintDecoding | src/meridian_storage/adapters/clickhouse/query/compiler.py:804-827 | a cursor value is accepted with a digest if and only if it is the raw or the canonical Base64 form of that stored digest |
| RowFingerprint.BothFormsAccepted | src/meridian_storage/adapters/clickhouse/query/compiler.py:807-811 | every 64-hex digest is recovered from both forms |
| RowFingerprint.DigestCharacters | src/meridian_storage/adapters/clickhouse/query/compiler.py:813-814 | stored digests are exactly the 64 characters long texts over the lower-case hexadecimal digits |
| Values.ValueRoundTrip | src/meridian_storage/adapters/clickhouse/ingestion/batch.py:160-242 | coercing, normalising and coercing again is stable for scalars and arrays with nulls, and normalising gives the input back exactly when it was canonical |
| Values.KindRoundTrip | src/meridian_storage/adapters/clickhouse/ingestion/batch.py:173-224 | the same for one non-null value of each kind that the adapter converts itself |
| Values.KindConverts | src/meridian_storage/adapters/clickhouse/ingestion/batch.py:173-224 | which values each kind accepts, with the ranges of the signed integers, and what it converts them to |
| Values.ManyConvert | src/meridian_storage/adapters/clickhouse/ingestion/batch.py:161-165 | a field of many values accepts exactly arrays whose items its type accepts, and converts them in order |
| Values.TypeForms | src/meridian_storage/adapters/clickhouse/ingestion/batch.py:166-172 | a logical type is a kind by name or an object that names it, and null passes under both |
| Values.NoTickLeaks | src/meridian_storage/adapters/clickhouse/query/compiler.py:927-938 | no tick integer appears anywhere in a normalised timestamp value, however deeply arrays are nested |
| Values.JsonColumn | src/meridian_storage/adapters/clickhouse/query/compiler.py:932-937 | a JSON column shows its text decoded, arrays item by item and nulls as they are |
| Cursors.CursorLossless | src/meridian_storage/adapters/clickhouse/query/compiler.py:207-212 | stored value, JSON in the cursor and bound parameter denote the same stored value, for timestamps, integers, booleans, text and the row fingerprint under both driver encodings |
| Cursors.TupleLossless | src/meridian_storage/adapters/clickhouse/query/compiler.py:440-443 | the same for whole sort tuples, which can always be bound |
| Cursors.NormalizeResult | src/meridian_storage/adapters/clickhouse/query/compiler.py:177-229 | the first page-size rows are returned as items, and a cursor at the last of them is issued exactly when more rows came back than fit |
| Cursors.ItemColumns | src/meridian_storage/adapters/clickhouse/query/compiler.py:193-202 | an item consists of exactly the selected aliases that are not reserved |
| Cursors.ItemLookup | src/meridian_storage/adapters/clickhouse/query/compiler.py:193-202 | a selected column appears in an item if and only if its alias is not reserved, and then with its own converted value |
| Cursors.ReservedAliasAccepted | src/meridian_storage/adapters/clickhouse/query/compiler.py:199-200 | construction accepts a column with the logical name of the total, and no item ever shows it |
| Cursors.IssuedTuple | src/meridian_storage/adapters/clickhouse/query/compiler.py:205-212 | the tuple in an issued cursor is the cursor form of the stored sort tuple of the row |
| SqlCompilers.SqlCompiler.constructor | src/meridian_storage/adapters/clickhouse/query/compiler.py:355-358 | a new compiler has bound nothing |
| SqlCompilers.SqlCompiler.Parameter | src/meridian_storage/adapters/clickhouse/query/compiler.py:360-363 | binds the next number to the converted value and leaves every earlier binding; a refused value binds nothing |
| SqlCompilers.SqlCompiler.Expression | src/meridian_storage/adapters/clickhouse/query/compiler.py:365-424 | succeeds exactly on accepted trees, and then emits the text and appends the bindings of the tree |
| SqlCompilers.SqlCompiler.BinaryExpression | src/meridian_storage/adapters/clickhouse/query/compiler.py:372-389 | the same for comparisons, whose literal right side takes the type of the left; what each operator name compares is Conditions.ComparisonMeans |
| SqlCompilers.SqlCompiler.BooleanExpression | src/meridian_storage/adapters/clickhouse/query/compiler.py:390-392 | the same for AND and OR |
| SqlCompilers.SqlCompiler.MembershipExpression | src/meridian_storage/adapters/clickhouse/query/compiler.py:400-408 | the same for membership, whose list is bound before the operand is printed |
| SqlCompilers.SqlCompiler.RangeExpression | src/meridian_storage/adapters/clickhouse/query/compiler.py:409-423 | the same for timestamp ranges |
| SqlCompilers.SqlCompiler.Keyset | src/meridian_storage/adapters/clickhouse/query/compiler.py:431-449 | succeeds exactly when every cursor value can be bound, and then emits the OR of AND branches and binds each value once |
| SqlCompilers.SqlCompiler.SimpleWhere | src/meridian_storage/adapters/clickhouse/query/compiler.py:451-508 | succeeds exactly on accepted mapping-first filters, and returns their text, bindings and recorded bounds |
| SqlCompilers.SqlCompiler.FieldConditions | src/meridian_storage/adapters/clickhouse/query/compiler.py:465-507 | the tests of one field in the order of their names, with the last lower and upper bound; what each test says is Conditions.WhereSays |
| SqlCompilers.ParameterMapNames | src/meridian_storage/adapters/clickhouse/query/compiler.py:360-363 | after n bindings the parameter names are exactly p0 to p(n-1) |
| SqlCompilers.ParameterMapLookup | src/meridian_storage/adapters/clickhouse/query/compiler.py:361-362 | each parameter holds the value that was bound at its number |
| SqlCompilers.EarlierBindingsStay | src/meridian_storage/adapters/clickhouse/query/compiler.py:360-363 | later bindings never change an earlier one |
| SqlCompilers.StripType | src/meridian_storage/adapters/clickhouse/query/compiler.py:830-836 | the type is the result under some number of nullable wrappers and at most one low-cardinality wrapper directly around it, and no nullable wrapper is left outside |
| SqlCompilers.StripsToOne | src/meridian_storage/adapters/clickhouse/query/compiler.py:830-836 | wrappers come off in one way only: any such decomposition gives the parameter type |
| MappingFirst.WhereOrderIndependent | src/meridian_storage/adapters/clickhouse/query/compiler.py:457 | a mapping-first filter compiles to the same conditions whatever order its fields are given in |
| FilterReading.TextReading | src/meridian_storage/adapters/clickhouse/query/compiler.py:365-424 | SQL reads the text of every accepted tree as one stated condition, also where NOT is unprotected |
| FilterReading.ReadBack | src/meridian_storage/adapters/clickhouse/query/compiler.py:396-399 | the text is read as the very condition of the tree if and only if no NOT stands directly under a null test or right of a comparison and no connective, list or range is empty |
| FilterReading.InvertedNullTest | src/meridian_storage/adapters/clickhouse/query/compiler.py:393-399 | where meaning is lost: the null test of a NOT is accepted and read, and on every row on which the operand is true, false or null, and on no other, its answer is the opposite of that of the tree |
| FilterReading.NotOnTheRightIsRefused | src/meridian_storage/adapters/clickhouse/query/compiler.py:372-389 | a NOT on the right of a comparison is accepted by the compiler and its text refused by SQL |
| FilterReading.CompilationPreservesMeaning | src/meridian_storage/adapters/clickhouse/query/compiler.py:365-424 | read back and evaluated with the recorded parameters, the text of a well-bracketed tree has the three-valued result of the tree on every row; Conditions.MeaningSays says what that is without the tables of the compiler |
| FilterReading.EvalMeaning | src/meridian_storage/adapters/clickhouse/query/compiler.py:365-424 | the condition of a tree evaluates, at any parameter offset, to the value of the tree |
| FilterReading.BoundLiteral | src/meridian_storage/adapters/clickhouse/query/compiler.py:839-843 | a literal bound under a column type denotes the same stored value |
| Conditions.ComparisonMeans | src/meridian_storage/adapters/clickhouse/query/compiler.py:379-389 | the six comparison names are exactly the accepted ones, and each stands for equality, difference or the order of values as its name says; a null on either side is neither true nor false |
| Conditions.MeaningSays | src/meridian_storage/adapters/clickhouse/query/compiler.py:365-424 | the value of every accepted tree is true, false or neither exactly as a reference semantics says that is written over operator names, with quantifiers for AND, OR, IN and NOT IN |
| Conditions.WhereSays | src/meridian_storage/adapters/clickhouse/query/compiler.py:451-508 | a mapping-first filter is accepted exactly when each test of each field is, and true of a row exactly when each test says so by its name; a plain value is an equality |
| Conditions.TruthInWords | src/meridian_storage/adapters/clickhouse/query/compiler.py:107 | conditions take truth values, and integers other than zero, such as the constant condition, as true |
| Conditions.LiteralUnder | src/meridian_storage/adapters/clickhouse/query/compiler.py:839-843 | a literal stands for an instant under timestamps, for text, truth values and integers under their own types, through any nullable wrappers and the dictionary of text, and null for null |
| Conditions.BindsUnder | src/meridian_storage/adapters/clickhouse/query/compiler.py:839-843 | a literal can be bound under a type of the grammar unless the type is a timestamp and the literal is text that is no instant |
| MappingReading.AtomsRead | src/meridian_storage/adapters/clickhouse/query/compiler.py:483-502 | each emitted mapping-first condition is read as that condition |
| MappingReading.WhereEval | src/meridian_storage/adapters/clickhouse/query/compiler.py:451-508 | the emitted mapping-first filter evaluates to the conjunction of its conditions |
| MappingReading.WhereTruth | src/meridian_storage/adapters/clickhouse/query/compiler.py:508 | a row passes exactly when every condition is true of it |
| Sql.AndReads | src/meridian_storage/adapters/clickhouse/query/compiler.py:391-392 | joined conditions are read as their conjunction |
| Sql.OrReads | src/meridian_storage/adapters/clickhouse/query/compiler.py:391-392 | joined conditions inside brackets are read as their disjunction |
| Translator.ScopeFirst | src/meridian_storage/adapters/clickhouse/query/compiler.py:112 | for every filter, also a top-level OR, and every cursor, the whole condition is read as scope AND filter AND keyset, alone and in front of ORDER BY |
| Translator.WirePredicateReads | src/meridian_storage/adapters/clickhouse/query/compiler.py:107-112 | the bracketed text of any accepted filter is one operand |
| Translator.MappingPredicateReads | src/meridian_storage/adapters/clickhouse/query/compiler.py:246-248 | the bracketed text of any mapping-first filter is one operand |
| SelectStatements.SelectIsRead | src/meridian_storage/adapters/clickhouse/query/compiler.py:540-554 | a whole emitted statement is read back as its selections, table, FINAL, condition, sort columns with directions and limit; it is refused exactly when its condition is |
| SelectStatements.OrderIsRead | src/meridian_storage/adapters/clickhouse/query/compiler.py:685-686 | the ORDER BY text gives back every sort column with its direction, in order |
| Translator.StatementIsRead | src/meridian_storage/adapters/clickhouse/query/compiler.py:518-554 | the statement of a compiled page selects every chosen column under its alias, then the sort aliases, from the table of the layout with FINAL as it asks, under scope AND filter AND keyset, in the completed order, with one row more than the page |
| Translator.SelectWire | src/meridian_storage/adapters/clickhouse/query/compiler.py:525-540 | a projection is accepted exactly when it names known fields of this resource under aliases that can be quoted; without one all columns are selected |
| Translator.SelectNamed | src/meridian_storage/adapters/clickhouse/query/compiler.py:279-284 | a field list of a mapping-first query is accepted exactly when every name is known and can be quoted, and each is shown under its own name |
| Translator.ChosenNames | src/meridian_storage/adapters/clickhouse/query/compiler.py:274-278 | an absent or empty field list means all columns in order; a list of non-empty texts those fields in order; anything else is refused |
| Translator.ReadLimit | src/meridian_storage/adapters/clickhouse/query/compiler.py:285-292 | without a limit the page holds 1 row for a get and 50 otherwise; a limit is accepted exactly when it is an integer from 1 to 500 |
| Translator.SelectionsInWords | src/meridian_storage/adapters/clickhouse/query/compiler.py:525-540 | each selected field, then each sort column under the prefix and its number, then the total exactly when it was asked for |
| Cursors.SortAliasesDiffer | src/meridian_storage/adapters/clickhouse/query/compiler.py:193-212 | the reserved aliases are the total and what begins with the prefix; sort columns have an alias each, and none is that of the total |
| Translator.ResultMetadata | src/meridian_storage/adapters/clickhouse/query/compiler.py:900-924 | flags exactly the aliases whose fields are timestamps, and those whose fields are JSON or references |
| Translator.KindNamed | src/meridian_storage/adapters/clickhouse/query/compiler.py:907-909 | the kind that decides is that of the logical type, given by name or inside an object |
| Translator.FlaggedByKind | src/meridian_storage/adapters/clickhouse/query/compiler.py:907-917 | with aliases of their own, each selected field is flagged by its own kind |
| Translator.CompileWire | src/meridian_storage/adapters/clickhouse/query/compiler.py:75-147 | compilation succeeds exactly when consistency, target, joins, schema pin, filter, window, order, cursor, projection and database are accepted, and gives the assembled statement, parameters and result metadata |
| Translator.CompileMapping | src/meridian_storage/adapters/clickhouse/query/compiler.py:232-351 | the same for mapping-first queries, with their field list and page limit |
| Translator.SelectionMeaning | src/meridian_storage/adapters/clickhouse/query/compiler.py:106-126 | a compiled query selects a row if and only if the row is in the scope, the filter is true of it and it is strictly after the cursor tuple |
| Paging.WireSelects | src/meridian_storage/adapters/clickhouse/query/compiler.py:106-126 | the first page of a compiled wire query selects a row if and only if it is in the scope and the filter says so in the reference semantics |
| Paging.MappingSelects | src/meridian_storage/adapters/clickhouse/query/compiler.py:246-248 | the same for mapping-first queries: every item of the filter says so by its name |
| Paging.EqualitySelects | src/meridian_storage/adapters/clickhouse/query/compiler.py:462-463 | a mapping-first query with one plain value selects exactly the rows of the scope that hold the very value that the literal denotes under the column type |
| Windows.ValidateRange | src/meridian_storage/adapters/clickhouse/query/compiler.py:770-773 | two bounds are accepted exactly when both are instants and the second is later by no more than the limit, in exact nanoseconds |
| Windows.CountedRanges | src/meridian_storage/adapters/clickhouse/query/compiler.py:734-755 | counted are exactly the ranges on the timestamp between two literals, one for each, below any nesting of connectives and in their order |
| Windows.RequireWireWindow | src/meridian_storage/adapters/clickhouse/query/compiler.py:719-730 | a get needs no window; anything else exactly one counted range that is accepted |
| Windows.RequireMappingWindow | src/meridian_storage/adapters/clickhouse/query/compiler.py:758-767 | a query or aggregate needs a lower and an upper bound on the timestamp that are accepted together; other operations need none |
| Windows.WireWindow | src/meridian_storage/adapters/clickhouse/query/compiler.py:719-772 | with only AND above the counted range, every matched row lies in one interval no wider than the limit, in exact nanoseconds |
| Windows.OutsideWindow | src/meridian_storage/adapters/clickhouse/query/compiler.py:734-755 | an accepted filter matches a row outside its one counted range if and only if the tree that is left when the range counts as false, computed from the tree alone, matches it |
| Windows.WindowHolds | src/meridian_storage/adapters/clickhouse/query/compiler.py:719-755 | when what is left does not name the timestamp, the window holds for all matched rows if and only if nothing is left, or nothing that any row matches |
| Windows.OnlyAndLeavesNothing | src/meridian_storage/adapters/clickhouse/query/compiler.py:749-754 | the test for callers: with only AND above the counted range nothing is left |
| Windows.AnyTimestampMatches | src/meridian_storage/adapters/clickhouse/query/compiler.py:749-754 | a row that matches what is left is matched with every other timestamp too |
| Windows.OrWindow | src/meridian_storage/adapters/clickhouse/query/compiler.py:749-754 | for OR lists of any length with the range at any position, the window holds if and only if every other operand, if none names the timestamp, is true of no row |
| Windows.EscapingInput | src/meridian_storage/adapters/clickhouse/query/compiler.py:749-754 | an accepted input for which the window fails: any accepted range OR a null test of another column matches a row with any timestamp whatever |
| Windows.MappingWindow | src/meridian_storage/adapters/clickhouse/query/compiler.py:758-772 | every row matched by an accepted mapping-first query lies in one interval no wider than the limit, also when gt and gte or lt and lte are both given |
| Keysets.KeysetReads | src/meridian_storage/adapters/clickhouse/query/compiler.py:431-449 | the keyset text is read as the disjunction of its branches, for any number of columns |
| Keysets.KeysetCorrect | src/meridian_storage/adapters/clickhouse/query/compiler.py:431-449 | the keyset condition is true of a row exactly when its tuple is strictly after the cursor in the order of ORDER BY, and false otherwise, never unknown |
| Keysets.FirstAfterIsBefore | src/meridian_storage/adapters/clickhouse/query/compiler.py:440-448 | some column is the first to differ, forwards, exactly in the lexicographic order |
| Keysets.TupleTotal | src/meridian_storage/adapters/clickhouse/query/compiler.py:685-686 | comparable tuples are ordered one way or equal |
| Keysets.TupleTransitive | src/meridian_storage/adapters/clickhouse/query/compiler.py:685-686 | the order of tuples is transitive |
| Sorts.CompleteWire | src/meridian_storage/adapters/clickhouse/query/compiler.py:607-623 | succeeds exactly when all entries are known non-nullable fields; the i-th sort is the column of the i-th entry in its direction, and every default that was not named follows |
| Sorts.CompleteMapping | src/meridian_storage/adapters/clickhouse/query/compiler.py:655-682 | the same for mapping-first orders, whose entries must have exactly a field and a direction; an entry descends if and only if its direction is desc |
| Sorts.CompletedCoversKey | src/meridian_storage/adapters/clickhouse/query/compiler.py:630-652 | whatever order is given, the completed one contains timestamp and identity, ends in the row fingerprint and covers the replacement key |
| Sorts.CompletedIsUnique | src/meridian_storage/adapters/clickhouse/query/compiler.py:607-682 | rows of one scope with equal sort tuples have equal replacement keys |
| Orders.CompletedPrecedes | src/meridian_storage/adapters/clickhouse/query/compiler.py:607-652 | in the completed order one row is before another if and only if the first entry on which they differ says so in its direction or, if they agree on all entries, the later timestamp, then the smaller identity fields in listed order, then the smaller row fingerprint |
| Orders.NewestFirst | src/meridian_storage/adapters/clickhouse/query/compiler.py:630-652 | without an order, of two rows the one with the later timestamp comes first |
| Paging.ShownInOrder | src/meridian_storage/adapters/clickhouse/query/compiler.py:685-686 | followed pages show rows in the order that the named fields and the defaults say |
| Paging.PageHoldsFirst | src/meridian_storage/adapters/clickhouse/query/compiler.py:540-554 | a page that does not show a matching row shows a full page of rows that do not come after it |
| Traversals.ShownAscending | src/meridian_storage/adapters/clickhouse/query/compiler.py:177-229 | whatever happens to the table between pages, the sort tuples shown strictly increase over the run, so nothing is shown twice |
| Traversals.PresentShownOnce | src/meridian_storage/adapters/clickhouse/query/compiler.py:190-220 | a tuple that a matching row carries in every view of a finished traversal is shown exactly once |
| Traversals.ShownMatches | src/meridian_storage/adapters/clickhouse/query/compiler.py:192-202 | every shown row is a matching row of the view of its page |
| Traversals.StaticTraversalExact | src/meridian_storage/adapters/clickhouse/query/compiler.py:190-220 | on an unchanging table a finished traversal shows exactly the matching rows in ORDER BY order |
| Traversals.StaticTraversalEnds | src/meridian_storage/adapters/clickhouse/query/compiler.py:191-204 | it takes max(1, ceil(n / size)) pages, and an unfinished one has not shown all rows |
| Traversals.ListingExists | src/meridian_storage/adapters/clickhouse/query/compiler.py:685-686 | every finite set of rows with comparable, distinct sort tuples has an ascending listing |
| Traversals.AnswerExists | src/meridian_storage/adapters/clickhouse/query/compiler.py:316-325 | ORDER BY with LIMIT has an answer over every orderly view, after any cursor |
| Paging.NextCursorAccepted | src/meridian_storage/adapters/clickhouse/query/compiler.py:203-220 | every issued cursor holds the tuple of the last row shown and is accepted by the next compile |
| Paging.WireResumes | src/meridian_storage/adapters/clickhouse/query/compiler.py:714-716 | the operation resumed at such a cursor is accepted and belongs to the same query, because its plan fingerprint ignores the cursor |
| Paging.MappingResumes | src/meridian_storage/adapters/clickhouse/query/compiler.py:296-318 | the same for mapping-first inputs, whose fingerprint puts a null in place of the cursor |
| Paging.CursorStaysWithQuery | src/meridian_storage/adapters/clickhouse/query/compiler.py:114-126 | an operation that carries a cursor is accepted if and only if, but for the cursor, it is the very operation that the cursor was issued for, in the same context |
| Paging.FollowedItems | src/meridian_storage/adapters/clickhouse/query/compiler.py:190-202 | every item that a followed query returns shows the stored row at its place: the unreserved aliases, each with the converted value of its own column |
| Paging.FollowedEnds | src/meridian_storage/adapters/clickhouse/query/compiler.py:177-229 | over every table that does not change, a followed query exists, ends after exactly as many pages as its rows need and shows their ascending listing |
| Paging.PageAnswers | src/meridian_storage/adapters/clickhouse/query/compiler.py:540-554 | what the engine returns for the text of a compiled page, with ORDER BY and LIMIT as they are read from it, is the ordered, limited list of matching rows after the cursor tuple |
| Paging.FollowedIsRun | src/meridian_storage/adapters/clickhouse/query/compiler.py:177-229 | following issued cursors through compile, engine and normalisation is a traversal |
| Paging.WireTraversal | src/meridian_storage/adapters/clickhouse/query/compiler.py:75-229 | for wire queries, from filter tree to items: every resumed compile is accepted, the tuples shown strictly increase, and each item shows its row |
| Paging.MappingTraversal | src/meridian_storage/adapters/clickhouse/query/compiler.py:232-351 | the same for mapping-first queries, with any accepted filter |
| Layouts.PostInit | src/meridian_storage/adapters/clickhouse/schema/layout.py:151-213 | construction succeeds exactly for acceptable layouts and yields the normal form |
| Layouts.CheckHeader | src/meridian_storage/adapters/clickhouse/schema/layout.py:152-159 | table name, profile, topology and both fingerprints are accepted exactly as the closed lists say |
| Layouts.CheckColumn | src/meridian_storage/adapters/clickhouse/schema/layout.py:78-94 | a column is accepted exactly with an unreserved logical name, a physical identifier and a type of the grammar |
| ColumnTypes.TypeGrammar | src/meridian_storage/adapters/clickhouse/schema/layout.py:374-386 | the accepted column types are exactly the spellings of a grammar of trees: eleven plain names, dictionaries of text, decimals of at most 76 digits with a scale no larger than the precision, arrays and nullables |
| Layouts.FingerprintExact | src/meridian_storage/adapters/clickhouse/_canonical.py:14-29 | a fingerprint is the prefix and a stored digest, and nothing else |
| Layouts.ConstructedContent | src/meridian_storage/adapters/clickhouse/schema/layout.py:160-213 | construction changes nothing but the order of columns and administrative profiles, which it sorts |
| Layouts.CanonicalInjective | src/meridian_storage/adapters/clickhouse/ingestion/batch.py:152 | canonical names tell resources apart whose catalogs have no colon and namespaces no slash |
| Layouts.CheckRoles | src/meridian_storage/adapters/clickhouse/schema/layout.py:165-177 | the role lists and the one size test accept exactly unique, known and pairwise disjoint roles |
| Layouts.RolesBySize | src/meridian_storage/adapters/clickhouse/schema/layout.py:172-177 | for lists without repetition the size test holds if and only if the roles are pairwise disjoint |
| Layouts.CheckColumns | src/meridian_storage/adapters/clickhouse/schema/layout.py:160-164 | the column tests accept exactly valid columns with unique logical and physical names |
| Layouts.CheckPolicy | src/meridian_storage/adapters/clickhouse/schema/layout.py:178-194 | retention, partition, version, catalog and profile tests |
| Layouts.CheckIndexes | src/meridian_storage/adapters/clickhouse/schema/layout.py:195-200 | the index loop accepts exactly valid names with known, unique fields |
| Layouts.Members | src/meridian_storage/adapters/clickhouse/schema/layout.py:351-363 | a member list is accepted exactly when it is unique, known and non-empty where required |
| Layouts.UniqueBySize | src/meridian_storage/adapters/clickhouse/schema/layout.py:161-164 | the size of the set equals the length of the list exactly when nothing repeats |
| Layouts.NormalIsValid | src/meridian_storage/adapters/clickhouse/schema/layout.py:201-213 | construction is idempotent |
| Layouts.OrderIndependent | src/meridian_storage/adapters/clickhouse/schema/layout.py:160 | the constructed layout does not depend on the order of columns and profiles |
| LayoutDocuments.DocumentRoundTrip | src/meridian_storage/adapters/clickhouse/schema/layout.py:250-342 | from_mapping(to_dict(l)) is l for every constructed layout |
| LayoutDocuments.DocumentAccepted | src/meridian_storage/adapters/clickhouse/schema/layout.py:278-342 | from_mapping gives a layout if and only if the document is one that an acceptable layout can be written as, columns and profiles in any order, with the fingerprint of the constructed layout |
| LayoutDocuments.LayoutFingerprintForm | src/meridian_storage/adapters/clickhouse/schema/layout.py:232-234 | layout fingerprints have the form that fingerprints must have |
| LayoutDocuments.DocumentInjective | src/meridian_storage/adapters/clickhouse/schema/layout.py:232-275 | different constructed layouts have different documents and fingerprints, also where the marker is omitted |
| LayoutDocuments.DocumentOrderIndependent | src/meridian_storage/adapters/clickhouse/schema/layout.py:250-275 | the document does not depend on the order of the input lists |
| Identifiers.QuotedNameIsRead | src/meridian_storage/adapters/clickhouse/_canonical.py:43-48 | a quoted name is read back whole from the text, whatever follows |
| Identifiers.UnquoteExact | src/meridian_storage/adapters/clickhouse/_canonical.py:43-48 | what is read as a quoted name is one: name and remainder determine the text |
| Identifiers.QuoteInjective | src/meridian_storage/adapters/clickhouse/_canonical.py:43-48 | different names have different quoted forms |
| Identifiers.IdentifierExact | src/meridian_storage/adapters/clickhouse/_canonical.py:15-40 | physical identifiers are exactly one to 127 letters, digits and underscores that do not begin with a digit |
| Identifiers.GeneratedWords | src/meridian_storage/adapters/clickhouse/schema/compiler.py:213-221 | two words with any other characters between them become those words in lower case joined by one underscore, behind the prefix if the name begins with a digit |
| Identifiers.LowerExact | src/meridian_storage/adapters/clickhouse/schema/compiler.py:217 | lower-casing moves each capital to its small letter and changes nothing else |
| Identifiers.GeneratedPlain | src/meridian_storage/adapters/clickhouse/schema/compiler.py:216-221 | a name without a word character takes the prefix alone |
| Identifiers.PhysicalNameIsIdentifier | src/meridian_storage/adapters/clickhouse/schema/compiler.py:213-221 | a generated name is a physical identifier, never starts with the reserved underscore and ends in its digest |
| Identifiers.JoinInjective | src/meridian_storage/adapters/clickhouse/probe/health.py:219-224 | two lists of plain names print the same key only if they are the same list |
| Ingestion.ScopeIsolation | src/meridian_storage/adapters/clickhouse/_canonical.py:51-64 | two callers share a stored scope digest if and only if tenant and scope agree |
| Ingestion.TokenIdentity | src/meridian_storage/adapters/clickhouse/ingestion/batch.py:145-157 | two requests have the same batch token if and only if binding, operation, resource, schema, scope and retry identity agree, where requests with keys agree when the keys do and requests without when the request ids do |
| Ingestion.RetryKeepsToken | src/meridian_storage/adapters/clickhouse/ingestion/batch.py:146 | a retry under the same non-empty key has the same token, whatever its request id |
| Ingestion.KeylessToken | src/meridian_storage/adapters/clickhouse/ingestion/batch.py:146 | without a key, or with an empty one, a repeated request has the same token if and only if its request id is the same |
| Ingestion.TokenForm | src/meridian_storage/adapters/clickhouse/ingestion/batch.py:147-157 | a token is the prefix and a digest, and the stored scope is a digest of 64 characters |
| Ingestion.PrepareRow | src/meridian_storage/adapters/clickhouse/ingestion/batch.py:109-142 | a record is accepted exactly when it has no unknown field, no missing required value and only convertible values, and yields hidden cells followed by one cell for each column |
| Ingestion.RecordAccepted | src/meridian_storage/adapters/clickhouse/ingestion/batch.py:109-130 | a record is accepted if and only if it has no unknown field, every field that it has is convertible, and every column that it lacks is nullable and no array |
| Ingestion.ReadRecords | src/meridian_storage/adapters/clickhouse/ingestion/batch.py:94-106 | reads back exactly what records can be written as, an array of them or one alone, and refuses every document that no records are written as |
| Ingestion.PrepareBatch | src/meridian_storage/adapters/clickhouse/ingestion/batch.py:70-91 | a batch is accepted exactly when it is non-empty, within both limits and every record is, and all its rows carry its token |
| Ingestion.Execute | src/meridian_storage/adapters/clickhouse/ingestion/batch.py:54-67 | one insert of all rows under the insert columns, with the batch token for deduplication, and a quorum exactly for the replicated topology |
| Ingestion.PreparedIsRowFor | src/meridian_storage/adapters/clickhouse/ingestion/batch.py:131-142 | a prepared tuple is stored under its column names as a row of its scope and canonical record |
| Ingestion.HiddenStored | src/meridian_storage/adapters/clickhouse/ingestion/batch.py:131-141 | a prepared tuple stores scope digest, tenant or empty text, token, fingerprint of the canonical record, resource, schema version and ingestion time under their reserved names |
| Ingestion.InsertColumnsUnique | src/meridian_storage/adapters/clickhouse/schema/layout.py:236-238 | insert columns are distinct exactly when no physical name is a hidden one |
| Ingestion.ReservedNameAccepted | src/meridian_storage/adapters/clickhouse/schema/layout.py:163-164 | construction accepts a layout that gives a column the physical name of a hidden one, and then insert columns repeat |
| Ingestion.KeyAgreement | src/meridian_storage/adapters/clickhouse/schema/layout.py:223-230 | rows share a replacement key exactly when scope, timestamp, identity and, if append-only, row fingerprint agree |
| Ingestion.KeyIsEntry | src/meridian_storage/adapters/clickhouse/ingestion/batch.py:131-137 | for append-only layouts two rows share a replacement key if and only if scope and canonical record are equal |
| Ingestion.LegacyKey | src/meridian_storage/adapters/clickhouse/schema/layout.py:223-230 | without the marker they share it if and only if scope and stored timestamp and identity are equal |
| AppendStore.SameKeySamePartition | src/meridian_storage/adapters/clickhouse/schema/compiler.py:294-305 | in the table that the emitted definition creates, with partition, key and version as an engine reads them from the text, rows with equal replacement keys lie in the same partition |
| AppendStore.PartitionInterval | src/meridian_storage/adapters/clickhouse/schema/compiler.py:294-298 | rows share a partition of the created table if and only if their timestamps share the hour, the day, or the year and month that their printed form shows, as the layout says |
| AppendStore.CreatedTable | src/meridian_storage/adapters/clickhouse/schema/compiler.py:253-319 | the table that the emitted text creates has the replacement key of the layout, and its partition expression reads a key column |
| AppendStore.StoredVersion | src/meridian_storage/adapters/clickhouse/schema/compiler.py:282-293 | the version of a prepared row in the created table is its ingestion time |
| AppendStore.RedeliverySkips | src/meridian_storage/adapters/clickhouse/ingestion/batch.py:145-157 | a delivery repeated under the same key with another request id can be skipped block by block once its blocks are remembered |
| AppendStore.StepKeepsInv | docs/evidence-append.md:11-24 | for any layout, every insert, retry, drop, acknowledgement, failure, merge and rewrite keeps the storage invariant, hence the last version of every key, and forgets nothing that landed |
| AppendStore.TraceKeepsInv | docs/evidence-append.md:11-24 | every state of every interleaving satisfies the invariant |
| AppendStore.SameTokenSameBlock | src/meridian_storage/adapters/clickhouse/ingestion/batch.py:145-157 | a remembered token stands for the same records, so a dropped block has landed |
| AppendStore.CanBeAcknowledged | src/meridian_storage/adapters/clickhouse/ingestion/batch.py:54-67 | from every reachable state every writable request can be delivered block by block and acknowledged, adding exactly its records |
| AppendStore.FinalOfHistory | docs/evidence-append.md:11-24 | for any layout, in every reachable state: whatever was merged before, a FINAL read of the table is a FINAL read of all rows that ever landed |
| AppendStore.FinalIsLatest | src/meridian_storage/adapters/clickhouse/schema/compiler.py:287-305 | for any layout, in every reachable state: for each row that ever landed FINAL has exactly one row of its key, of the last version that landed under the key |
| AppendStore.FinalTuplesDiffer | src/meridian_storage/adapters/clickhouse/query/compiler.py:607-652 | for any layout, FINAL rows of one scope differ in the tuple of every completed order |
| AppendStore.FinalExists | docs/evidence-append.md:11-24 | every table has a FINAL read |
| AppendStore.FinalIsExact | docs/evidence-append.md:11-24 | in every reachable state a FINAL read has exactly one row for each landed entry, hence for each acknowledged one, and nothing else |
| AppendStore.FinalInScope | docs/evidence-append.md:14-17 | the fingerprints that a FINAL read shows in a scope are those of the distinct records that landed in it |
| AppendStore.FinalShowsAll | src/meridian_storage/adapters/clickhouse/schema/compiler.py:287-305 | for any layout, a FINAL read loses nothing if and only if no two different entries share a replacement key |
| AppendStore.LegacyTableShowsAll | docs/evidence-append.md:5-9 | without the marker, in every reachable state, FINAL loses nothing if and only if no two different landed records of one scope agree on timestamp and identity |
| AppendStore.LegacyShowsLatest | docs/evidence-append.md:5-9 | without the marker, in every reachable state, FINAL has exactly one row for each landed combination of scope, timestamp and identity, of its last version |
| EndToEnd.AppendedShownOnce | src/meridian_storage/adapters/clickhouse/query/compiler.py:190-220 | interleaved with any appends, retries and merges, a finished traversal shows each wanted record that landed before its first page exactly once |
| EndToEnd.ShownIsWanted | src/meridian_storage/adapters/clickhouse/query/compiler.py:190-202 | every shown row belongs to a landed entry of the caller that the filter wants |
| EndToEnd.ShownAreGenuine | src/meridian_storage/adapters/clickhouse/query/compiler.py:190-202 | nothing else is ever shown: each shown row is a row of a landed, wanted entry of the caller |
| EndToEnd.TupleIsEntry | src/meridian_storage/adapters/clickhouse/query/compiler.py:607-652 | in one scope, rows with equal completed sort tuples are rows of the same entry |
| EndToEnd.ItemShowsEntry | src/meridian_storage/adapters/clickhouse/query/compiler.py:190-202 | an item for a row of an entry shows the record: each selected field of an own kind has the result spelling of the appended value, which is that value itself if and only if it was canonical |
| EndToEnd.WireEndToEnd | src/meridian_storage/adapters/clickhouse/query/compiler.py:75-229 | for wire queries, from accepted operation to items: every resumed operation is accepted and compiles to the same query, each wanted record that landed before the first page is shown exactly once with its own values, and every item shows a wanted record of the caller |
| EndToEnd.WireWanted | src/meridian_storage/adapters/clickhouse/query/compiler.py:365-424 | a wire query wants an entry if and only if its filter says so of the record in the reference semantics |
| EndToEnd.MappingWanted | src/meridian_storage/adapters/clickhouse/query/compiler.py:451-508 | a mapping-first query wants an entry if and only if every item of its filter says so of the record |
| EndToEnd.EqualityWanted | src/meridian_storage/adapters/clickhouse/query/compiler.py:462-463 | with one plain value: the entries whose record holds the value that the literal denotes |
| EndToEnd.WireQueryEnds | src/meridian_storage/adapters/clickhouse/query/compiler.py:75-229 | at every moment of every run, an accepted wire query over the table as it then is can be followed to its end, in exactly as many pages as its rows need |
| EndToEnd.MappingEndToEnd | src/meridian_storage/adapters/clickhouse/query/compiler.py:232-351 | the same for mapping-first queries, with any accepted filter |
| EndToEnd.MappingQueryEnds | src/meridian_storage/adapters/clickhouse/query/compiler.py:232-351 | and every accepted mapping-first query can be followed to its end |
| EndToEnd.CompiledIsCarried | src/meridian_storage/adapters/clickhouse/schema/compiler.py:162-177 | columns compiled from required scalar fields of the sortable kinds satisfy the condition that the end-to-end claims make on sort columns |
| EndToEnd.CompiledIsOwn | src/meridian_storage/adapters/clickhouse/schema/compiler.py:162-177 | every column compiled from a field of an own kind, nullable or not, with one value or many, is shown as the end-to-end claims say |
| Ingestion.TicksInside | src/meridian_storage/adapters/clickhouse/schema/compiler.py:164-169 | the column types that hold instants are the timestamps and nullables and arrays of them |
| Schema.EngineTypeValid | src/meridian_storage/adapters/clickhouse/schema/compiler.py:180-210 | every compiled type is inside the closed grammar of layouts |
| Schema.CompiledColumn | src/meridian_storage/adapters/clickhouse/schema/compiler.py:162-177 | a field compiles exactly when its name is unreserved and its precision supported, to a valid column with an unreserved physical name |
| Schema.CompiledType | src/meridian_storage/adapters/clickhouse/schema/compiler.py:164-169 | a compiled column has the type of its kind, nullable if the field is, and as an array of such items if it holds many values |
| Schema.CarriedKinds | src/meridian_storage/adapters/clickhouse/schema/compiler.py:183-201 | text, bytes, JSON and references are stored as text, durations as whole numbers, enums in a dictionary, points as pairs |
| Schema.DecimalReads | src/meridian_storage/adapters/clickhouse/schema/compiler.py:202-210 | the type of a decimal field spells its precision and its scale |
| Schema.LiteralTypeIsColumnType | src/meridian_storage/adapters/clickhouse/query/compiler.py:781-802 | literals of the plain kinds are bound under the column type of their kind, decimals with 18 places and all others as text |
| Definitions.TableIsRead | src/meridian_storage/adapters/clickhouse/schema/compiler.py:253-319 | the emitted definition, with commas, quotes and brackets, is read back as columns, indexes, engine with replica path and version column, partition expression, replacement key, retention and settings of the layout |
| Definitions.ReadsQuotedOnly | src/meridian_storage/adapters/clickhouse/_canonical.py:43-48 | the reader takes a quoted name exactly where one stands, doubled backticks included |
| Definitions.CreatedInWords | src/meridian_storage/adapters/clickhouse/schema/compiler.py:253-319 | the table that the text creates, with every reserved name, type, function and setting written out: hidden columns first, replacing engine, ingestion time as version, the partition function of the interval on the timestamp, the key, and deletion after the retention |
| Definitions.MetadataIsRead | src/meridian_storage/adapters/clickhouse/schema/compiler.py:224-250 | the metadata statement, with bare names and one bare key column, is read as the metadata table |
| Definitions.MetadataInWords | src/meridian_storage/adapters/clickhouse/schema/compiler.py:224-250 | the metadata table with its eight columns, engine, version column and key written out |
| Definitions.PathsDiffer | src/meridian_storage/adapters/clickhouse/schema/compiler.py:276-281 | replica paths of different databases or tables differ |
| Probe.ExpectedAreCreated | src/meridian_storage/adapters/clickhouse/probe/health.py:184-194 | the columns that the probe expects are the columns that are created |
| Probe.OrderNamesAreKey | src/meridian_storage/adapters/clickhouse/probe/health.py:219-223 | the order that the key check expects is the compiled replacement key |
| Probe.AppendOrderExact | src/meridian_storage/adapters/clickhouse/probe/health.py:213-226 | the key check passes if and only if the real replacement key is the compiled list |
| Probe.CreatedTableVerifies | src/meridian_storage/adapters/clickhouse/probe/health.py:171-226 | a table created from the emitted definition passes column, engine and key checks |
| Probe.GuaranteeIsBindingWide | src/meridian_storage/adapters/clickhouse/descriptor/__init__.py:141-151 | an advertised append-only guarantee survives added layouts if and only if they hold no evidence or would carry it alone |
| Probe.GuaranteesInWords | src/meridian_storage/adapters/clickhouse/descriptor/__init__.py:141-151 | the append guarantees are the three common ones, behind append-only exactly when there is an evidence layout and every evidence layout is append-only |
| Probe.ManifestPinsLayouts | src/meridian_storage/adapters/clickhouse/descriptor/__init__.py:221-242 | manifests agree on profile, engine version, append guarantees and layout set if and only if topology, engine version and the list of layouts are the same |
| Probe.VerifyReplicas | src/meridian_storage/adapters/clickhouse/probe/health.py:229-247 | passes exactly when all tables have healthy replicas and agree on their number, which is then at least two, with every replica active, writable and in session |
| Probe.ReplicasInWords | src/meridian_storage/adapters/clickhouse/probe/health.py:229-239 | the replica rows are accepted as those of the tables exactly when every table has one and every row has a table |
| Probe.VersionInWords | src/meridian_storage/adapters/clickhouse/probe/health.py:250-251 | a version is accepted exactly when it is the selected one or that followed by a dot and anything |
| Probe.ProbeAdapter | src/meridian_storage/adapters/clickhouse/probe/health.py:20-74 | passes exactly when one identity row, version, time zone, functions, engines, append-only keys and replicas agree with the settings, and reports the manifest, the identity row, both counts and the replica count of every table |
| Probe.AdvertisedIsReal | src/meridian_storage/adapters/clickhouse/probe/health.py:53-55 | an advertised append-only guarantee with a passed probe means that every evidence table has its compiled key, ending in the row fingerprint |
| Probe.VerifyPhysical | src/meridian_storage/adapters/clickhouse/probe/health.py:77-138 | passes exactly when every declared resource has its metadata row, columns, engine and key; the digest covers the evidence of all of them in the order of their names, and each is mapped to its qualified table |
| Probe.VerifyResource | src/meridian_storage/adapters/clickhouse/probe/health.py:90-116 | a resource passes exactly when its layout is known, its metadata row repeats the pins, and columns, engine and key are the compiled ones |
| Probe.QualifiedIsCreated | src/meridian_storage/adapters/clickhouse/schema/layout.py:240-242 | a mapping names the very table that the definition creates |
| Probe.DigestPinsEvidence | src/meridian_storage/adapters/clickhouse/probe/health.py:117-130 | equal digests stand for the same resources with the same registry fingerprints, the same tables and the very same layouts |
| Probe.VerifiedIsReal | src/meridian_storage/adapters/clickhouse/probe/health.py:154-168 | a passed verification pins each resource to a table with its compiled key and to the metadata of exactly its layout |
| Migrations.PlanInitial | src/meridian_storage/adapters/clickhouse/migrations.py:28-46 | succeeds exactly for named, non-empty plans with one topology, unique resources and one metadata statement, and gives the ordered bundle |
| Migrations.PlanInWords | src/meridian_storage/adapters/clickhouse/migrations.py:34-46 | any two planned layouts have different resources and stand in the order of their canonical names |
| Migrations.PlannedItem | src/meridian_storage/adapters/clickhouse/migrations.py:44-46 | behind the metadata statement each statement creates the table of the layout in its place, and every compilation is planned |
| Migrations.PlanOrderIndependent | src/meridian_storage/adapters/clickhouse/migrations.py:34 | the bundle does not depend on the order of the compilations |
| Migrations.OneDatabase | src/meridian_storage/adapters/clickhouse/migrations.py:41-43 | equal metadata statements name the same database |
| Migrations.RunExtends | src/meridian_storage/adapters/clickhouse/schema/compiler.py:307 | running creation statements never changes an existing table |
| Migrations.RunElsewhere | src/meridian_storage/adapters/clickhouse/schema/compiler.py:307 | statements for other databases change nothing |
| Migrations.EffectKeepsSafe | src/meridian_storage/adapters/clickhouse/migrations.py:56-98 | a migration, wherever it stops, keeps every metadata row safe |
| Migrations.MigrationsSafe | src/meridian_storage/adapters/clickhouse/migrations.py:56-98 | after any sequence of migrations, each possibly stopped at any step, every stored row naming an append-only layout refers to a table with its compiled key |
| Migrations.OldTableNotRelabelled | src/meridian_storage/adapters/clickhouse/migrations.py:63-66 | an old table with another key keeps its definition, and no metadata is written |
| Migrations.FreshTable | src/meridian_storage/adapters/clickhouse/migrations.py:44-62 | on a database without these tables each planned statement creates the table of its layout, unless the metadata table took its name |
| Migrations.FreshKeysVerify | src/meridian_storage/adapters/clickhouse/migrations.py:44-66 | on a database without these tables the keys of a planned bundle verify after its statements if and only if no append-only layout has the name of the metadata table, which is created first |
| Migrations.FreshResourceVerifies | src/meridian_storage/adapters/clickhouse/migrations.py:61-81 | after an unbroken first migration a resource passes physical verification against the metadata row that was written if and only if its table is not the metadata table |
| Migrations.GeneratedIsNotMetadata | src/meridian_storage/adapters/clickhouse/schema/compiler.py:213-221 | generated table names never are the name of the metadata table |
| Migrations.Database.Command | src/meridian_storage/adapters/clickhouse/migrations.py:61-62 | a call that may break before or after it is carried out creates the missing table or changes nothing |
| Migrations.Database.CheckAppendOrder | src/meridian_storage/adapters/clickhouse/migrations.py:64-66 | reads the key of a table and compares it |
| Migrations.Database.Insert | src/meridian_storage/adapters/clickhouse/migrations.py:82-97 | adds the metadata rows or, when dropped or lost, changes nothing |
| Migrations.Database.Optimize | src/meridian_storage/adapters/clickhouse/migrations.py:98 | keeps the newest rows of each resource |
| Migrations.NewestKept | src/meridian_storage/adapters/clickhouse/migrations.py:98 | optimising keeps a newest row of each resource and drops exactly the rows with a newer one |
| Migrations.RunStatements | src/meridian_storage/adapters/clickhouse/migrations.py:61-62 | the statements run in order, up to where the connection breaks |
| Migrations.VerifyKeys | src/meridian_storage/adapters/clickhouse/migrations.py:63-66 | passes on an unbroken connection exactly when every append-only key verifies |
| Migrations.RowsOf | src/meridian_storage/adapters/clickhouse/migrations.py:69-81 | one metadata row for each layout, with its resource, fingerprints, profile, table, layout fingerprint and version |
| Migrations.Apply | src/meridian_storage/adapters/clickhouse/migrations.py:56-98 | has an effect that keeps metadata safe wherever it stops, states the new tables and metadata on success, and on an unbroken connection succeeds exactly when settings and keys agree |

## Left out

- HTTP client, TLS, secrets, endpoint and settings parsing: I/O and library plumbing.
- `runtime.py`: error mapping, deadlines and leases would only add easy members.
- Aggregates, quantiles and the value of the total: string building without further state.
- Plans with an empty result and the identity check of `compile` around them: one constant statement.
- Aliases inside conditions: the engine may read a column name in WHERE as an alias of the same spelling; the reader takes it as the column.
- Selected aliases with the spelling of a sort alias: the engine refuses one alias for two expressions; where both name one column, sort values are taken as those of the sort column.
- Compile roles of `ClickHouseSchemaCompiler.compile`: the choice of default roles is a lookup in library types.
- Signatures and expiry of cursors, SHA-256 and canonical JSON: abstract tokens and digests, as stated above.
- Values.KindRoundTrip: floats, decimals, dates, UUIDs, JSON text and points are opaque, because their conversions belong to the driver and the standard library.
- Cursors.CursorLossless: sort columns of kind bytes are excluded, because sort aliases do not ask for byte decoding; opaque kinds likewise.
- EndToEnd.ItemShowsEntry: the value under an alias is stated when the aliases are distinct; fields of library kinds are shown as the driver and decoder give them.
- EndToEnd.WireEndToEnd: timestamp, identity and ordered fields must be required scalars of the kinds above; tables are read with FINAL from one replica and have no TTL.
- EndToEnd.MappingEndToEnd: under the same hypotheses.
- Paging.WireTraversal: filters must be well bracketed; other filters still compile, and `FilterReading.TextReading` says what is read.
- Traversals.PresentShownOnce: with `queryFinal` false, fully tied retry copies can exist; distinct sort tuples are then a hypothesis.
- Timestamps.SpellingParses: hour 24 is refused as in RFC 3339; recent versions of the standard library read it as the next midnight.
- Unicode digits, which the timestamp pattern also matches: the model takes ASCII digits.
- Backslashes inside quoted identifiers: only the doubled backtick is modelled.
- Lenient trailing bits of the library's Base64 decoder are modelled, its handling of non-ASCII input is not.
- Replica lag and quorum failures: one replica answers.
- TTL deletion and administrative deletion: the retention expression is proved to be the right one, but no run deletes rows.
- Partition expressions of the engine outside the calendar range of signed 64-bit ticks.
- Interleaving of two migrators inside one migration: each migration runs alone, but may stop anywhere.
- The order of resources in a plan is the text order of their canonical names.
