# pixkb: a model and its proofs

pixkb keeps a bundle of Markdown concept files (the source of truth) next to a bitemporal
PostgreSQL index derived from it, and answers questions over both. This project models the parts
of it that are decided by code rather than by a database, a file system or a language model, and
proves what they are for:

- **Epochs** (`Epoch*.dfy`): the runner that writes a batch to the bundle and to the tables in many
  separate steps under one mutex, any of which may fail or be the last before a crash. `EpochModel`
  gives each call its plan of single writes; `EpochStore` and `EpochRunner` are the code as classes,
  each method proved to perform a prefix of that plan; the other files prove what the plans do to the
  bundle, to the tables (row by row in `EpochTables`), to the history, and in every interleaving of
  several callers.
- **HQL** (`Hql*.dfy`, `Like.dfy`, `Numerals.dfy`, `FtsWhere.dfy`, `AsOfSearch.dfy`): the scanner, the
  recursive-descent parser, the SQL compiler, and the search clause the result is spliced into. A
  declarative grammar (`HqlGrammar`) says which texts are queries and of what; the parser is proved to
  accept those and no others. What a query means is said of its operators, literals and field names
  (`HqlMeaning`), without the compiler's tables. The
  emitted tokens are read back by a reader with SQL's operator precedence and evaluated in
  three-valued logic, so the parentheses the compiler writes are proved to suffice.
- **BR Code** (`Gf2`, `Crc`, `CrcStrength`, `Bytes`, `WhiteSpace`, `BrCode*.dfy`): the nested tag-length-value codec
  of Pix QR codes and its CRC-16, specified as a remainder of polynomials over GF(2).
- **Rank fusion** (`Fusion*.dfy`, `Strings.dfy`): reciprocal-rank fusion over maps iterated in any
  order and over searches that finish in any order.
- **LRU cache** (`Lru*.dfy`): the list and the map against a recency list, and the recency list
  against the history of calls.
- **Scanners and generators**: the JSON object in a model's reply (`Json*.dfy`), the index pages of
  the bundle (`BundleIndex.dfy`), the articles of a statute and their ids (`Statute*.dfy`), hygiene
  findings and the curation gate (`Hygiene*.dfy`, `Curate*.dfy`), and the paging of a time series
  (`Calendar.dfy`, `SeriesHistory.dfy`).

Code that works step by step is a method or a class here, proved against a function of its inputs or
its old state; what the code promises is proved about those functions. A function argument stands for
what the code cannot decide by itself: the digest, the embedding, the clock of a call, a regular
expression, the answer of a search or of a download.

What is assumed of the surroundings, and only where a lemma says so: the server's ILIKE folds letters
without touching `%`, `_` and `\`; a text column holds a text or NULL, and likewise for ids, dates and
tags; a time as the server compares it is a point of a line, and which texts are dates is a function;
a listing of the bundle names each file once; the concepts of one batch have distinct ids; white space
includes the line end and the blank but neither `A` nor the full stop; a heading pattern says of a
trimmed line what it is.

Check everything with `dafny verify dfyconfig.toml` (Dafny 4.11).

## Where the code differs from what it says

- A BR Code whose four check characters are themselves `6304` is well formed, but the search for the
  last `6304` finds the check value instead of its tag, so `Parse` reports a bad CRC and
  `ValidateCode` rejects it. The round trip and the validation of an encoded payload hold exactly
  when the check text is not `6304` (`RoundTrip`, `EncodedValidates`); `ExampleRejected` is a payload
  for which they fail.
- `FetchHistory` promises every point between its two dates. When the range starts later in the day
  than it ends and its last day is where a further window would begin, that day is never requested.
  `EveryDayOnce` states exactly which days are; `LastDayLostExample` is a range that loses one.
- A tag comparison with an empty list compiles to `()`, which the server cannot read. The parser
  never yields one (`ParsedListsNonempty`), but a query built by hand can
  (`ReadableIffNoEmptyTagList`).
- A search as of a time promises the state at that time, but looks only at versions whose transaction
  is still open: a concept rewritten since is not found. `AsOfTimeSelects` and `FoundIffNeverReplaced`
  state what is found, `RewrittenIsLost` a concept that is not.
- The index is meant to follow the bundle, but a call that stops right after the row, the embedding or
  the edges of a concept leaves a row that no open version matches, unless an open version already
  had that content. `StoppedAgreesIff` is the exact condition, `StoppedAgreesBefore` the same as it
  stands before the call, and `StoppedCallDisagrees` a run in which it fails.
- `Diff` reads twice without the mutex. For epochs older than the newest it shows the true difference
  (`DiffWithoutMutex`); a Diff that names the epoch being written need not (`DiffOfRunningEpoch`).
- Truncating the tables also restarts the epoch numbers, so statements about history hold from one
  Reindex to the next.

## Model

| member | source | states |
|---|---|---|
| Crc.CRC16 | internal/brcode/brcode.go:346-359 | The bit loop leaves the remainder of the message times x^16, its first sixteen coefficients complemented. |
| Crc.Crc16IsRemainder | internal/brcode/brcode.go:343-359 | A 16-bit string is that remainder if and only if it is the CRC: the loop computes it and nothing else satisfies it. |
| CrcStrength.BurstDetected | internal/brcode/brcode.go:346-359 | Two messages that differ only inside sixteen consecutive bits leave different registers, whatever the register was before. |
| CrcStrength.AdjacentBytesDetected | internal/brcode/brcode.go:346-359 | Equal-length strings that differ in one byte or in two adjacent bytes have different CRCs. |
| CrcStrength.OddErrorsDetected | internal/brcode/brcode.go:346-359 | Flipping an odd number of bits anywhere changes the CRC. |
| BrCode.ParseTLVs | internal/brcode/brcode.go:78-103 | The indexed loop returns what the recursive reading of the fields returns, errors included. |
| BrCode.EncodeTLVs | internal/brcode/brcode.go:106-115 | The appending loop returns the concatenated fields, or the error of the first value over 99 bytes. |
| BrCode.ParseOfEncode | internal/brcode/brcode.go:78-115 | Encoding fields with two-byte ids and values of at most 99 bytes succeeds, and decoding gives them back. |
| BrCode.EncodeOfParse | internal/brcode/brcode.go:78-115 | Every accepted string is the encoding of the fields it decodes to. |
| BrCode.AcceptedIffEncoding | internal/brcode/brcode.go:78-115 | The reader accepts exactly the encodings of well-framed fields. |
| BrCodeTheorems.FindAt | internal/brcode/brcode.go:118-126 | Of several fields with one id the first is found. |
| BrCodeDigits.LengthInDecimal | internal/brcode/brcode.go:84-113 | The length of a field is written in two decimal digits and read so. |
| BrCode.Encode | internal/brcode/brcode.go:259-319 | The field-by-field encoder produces the sealed text that the round trip is proved for, or the same error. |
| BrCodeTheorems.EncodesIffFits | internal/brcode/brcode.go:213-319 | Encode succeeds exactly when the payload is in order (one of key and URL, a name of at most 25 and a city of at most 15 that are not blank, an amount of digits with at most two decimals, printable ASCII) and every template fits in 99 bytes; each error is returned exactly when its condition holds and those of the errors before it do not. |
| BrCodeValidate.AmountAccepted | internal/brcode/brcode.go:323-344 | An amount is accepted if and only if it is digits, optionally followed by a point and one or two digits; too many decimals and bad amounts are told apart exactly. |
| BrCodeValidate.ValidatesIff | internal/brcode/brcode.go:194-240 | Validate accepts exactly the payloads in order, and returns each error exactly on its condition, the first that holds. |
| BrCodeLayout.EncodedText | internal/brcode/brcode.go:259-319 | The encoded text, byte by byte: the constant fields written out, the account, the amount, name, city and reference with their two-digit lengths, and the CRC of all before it in hexadecimal. |
| BrCodeTheorems.RoundTrip | internal/brcode/brcode.go:130-173 | Parse of an encoded payload is the payload normalised (empty TxID becomes three asterisks, a URL makes it dynamic and drops the description), with the CRC valid exactly when the check text is not 6304. |
| BrCodeTheorems.EncodedValidates | internal/brcode/brcode.go:246-255 | ValidateCode accepts an encoded payload if and only if its check text is not 6304. |
| BrCodeDigits.CheckInEitherCase | internal/brcode/brcode.go:165-171 | The letters among the last four characters of an encoded payload may be of either case: it reads and validates as before. |
| BrCodeDigits.FoldsLetterwise | internal/brcode/brcode.go:167-170 | The check text is compared letter by letter without regard to case. |
| BrCodeDigits.CheckInHex | internal/brcode/brcode.go:317-318 | The check text is the CRC in hexadecimal, the high digit first. |
| BrCodeValidate.PastedCode | internal/brcode/brcode.go:130-131 | White space around a code, a final line end for one, changes neither what Parse reads nor what ValidateCode says. |
| WhiteSpace.TrimmedIff | internal/brcode/brcode.go:130-131 | Trimming leaves the one text without white space at its ends that the given text is with white space around it. |
| WhiteSpace.SpacesAre | internal/brcode/brcode.go:130-131 | A white-space character is one of the 25 that Unicode gives that property, as UTF-8 writes it. |
| BrCodeTheorems.SealedMatches | internal/brcode/brcode.go:165-171 | Finding the last tag and recomputing the CRC matches the check field if and only if that field is not 6304. |
| BrCodeTheorems.CorruptedValueRejected | internal/brcode/brcode.go:246-255 | Changing one byte, or two adjacent ones, inside a value before field 63 of an encoded payload makes validation fail. |
| BrCodeTheorems.OddFlipsRejected | internal/brcode/brcode.go:246-255 | Flipping an odd number of bits spread over the values before field 63 makes validation fail. |
| BrCodeExample.ExampleRejected | internal/brcode/brcode.go:165-171 | A concrete payload encodes, and validation rejects its own encoding. |
| HqlLexer.LexString | internal/hql/lexer.go:106-123 | The quoted-string loop returns the value with doubled quotes undone and where it ends, or the unterminated error. |
| HqlLexer.Lex | internal/hql/lexer.go:46-89 | The scanner's loop returns the tokens that the text denotes, or its first error. |
| HqlScanned.TokensIff | internal/hql/lexer.go:46-123 | The scanner yields a list of tokens if and only if the text is those tokens written one after the other, with white space between them: words, numbers, either kind of quotes with doubled ones inside, symbols. |
| HqlParser.Parser.Next | internal/hql/parser.go:70-71 | Advances by one token and is only ever called before the EOF token, so the parser never moves past it. |
| HqlParser.Parser.ParseOrExpr | internal/hql/parser.go:84-98 | Stands where the grammar's OR chain ends and returns its left-associated tree, or the error; always with tokens left. |
| HqlParser.Parser.ParseAndExpr | internal/hql/parser.go:100-114 | The same for an AND chain. |
| HqlParser.Parser.ParseComparisonExpr | internal/hql/parser.go:144-191 | The same for one comparison: field, operator with its NOT forms, EMPTY, value or list. |
| HqlParser.Parser.ParseOneValue | internal/hql/parser.go:195-228 | The same for a value, function arguments nested to any depth and trailing commas included. |
| HqlParser.ParseText | internal/hql/parser.go:11-49 | Scanning, then parsing WHERE, ORDER BY and LIMIT, ends on every input and returns the query the text denotes, or the error. |
| HqlAccepted.ParsesIff | internal/hql/parser.go:11-280 | The parser accepts a list of tokens as a query if and only if the grammar derives that query from it, so the grammar is unambiguous: OR over AND over NOT, comparisons with their operators and lists, ORDER BY items with ASC, DESC or nothing, LIMIT. |
| HqlRoundTrip.ParseIff | internal/hql/parser.go:11-49 | Parsing gives a text this query if and only if the text is written for it by scanner's tokens and grammar. |
| HqlVariants.DescendingIff | internal/hql/parser.go:258-280 | Each field of an accepted order descends if and only if the word after it is DESC, in any letter case. |
| HqlVariants.AscendingIsDefault | internal/hql/parser.go:266-271 | An item with ASC after it is the item without it. |
| HqlVariants.SameQuery | internal/hql/lexer.go:46-123 | Texts that write the same query, whatever the case of keywords, the quotes and the white space, parse to it. |
| HqlVariants.FoldsLetterwise | internal/hql/parser.go:75-78 | Keywords are compared letter by letter without regard to case. |
| HqlVariants.LowerFolds | internal/hql/schema.go:45-48 | Field and function names are compared in lower case, which is the same comparison. |
| HqlVariants.InParentheses | internal/hql/parser.go:128-142 | Parentheses around the whole condition of a query change nothing. |
| HqlVariants.ParenthesesAnywhere | internal/hql/parser.go:116-142 | Nor do they around any part of a condition. |
| HqlVariants.TrailingComma | internal/hql/parser.go:195-256 | A comma may follow the last value of a list or call and changes nothing. |
| HqlRoundTrip.ParseOfPrint | internal/hql/parser.go:11-49 | For every query whose fields are words other than NOT, parsing its minimally parenthesised text gives the query back. |
| HqlImage.ParseImage | internal/hql/parser.go:84-280 | Whatever the parser accepts is such a query: words as fields, known operators, no empty list, a limit within range. |
| HqlImage.QueriesWithText | internal/hql/parser.go:11-49 | A query is the result of parsing some text if and only if it passes that test. |
| HqlImage.ReprintStable | internal/hql/parser.go:11-49 | Printing what was parsed and parsing again changes nothing, for every accepted text. |
| Like.MatchesEscaped | internal/hql/functions.go:125-127 | A pattern that begins with an escaped text matches exactly the strings that begin with the text and whose remainder matches the rest of the pattern. |
| Like.ContainsPattern | internal/hql/functions.go:125-127 | A percent sign, an escaped text and a percent sign match exactly the strings the text occurs in, whatever metacharacters it holds. |
| Like.ContainsPatternFolded | internal/hql/sql.go:155-164 | The same up to a case fold that keeps the metacharacters. |
| HqlSql.SqlBuilder.Ph | internal/hql/sql.go:44-47 | Appends one argument and returns the placeholder that numbers it. |
| HqlSql.SqlBuilder.Expr | internal/hql/sql.go:49-82 | The builder's recursion emits the tokens of the compiled condition and appends its arguments, in order, to those already there; the same error otherwise. |
| HqlSql.SqlBuilder.TextIdCmp | internal/hql/sql.go:152-200 | The same for text and id fields: equality, containment, lists, emptiness and their negations. |
| HqlSql.SqlBuilder.ScalarComparison | internal/hql/sql.go:202-218 | The same for date and int fields, dates resolved from the raw text only. |
| HqlSql.SqlBuilder.TagPrefixCmp | internal/hql/sql.go:235-269 | The same for tag-prefix fields, a list becoming one parenthesised chain of OR. |
| HqlSql.ToSQLAt | internal/hql/sql.go:23-34 | Condition, arguments and order of a whole query, numbered after the caller's arguments. |
| HqlErrors.CompileFails | internal/hql/sql.go:49-282 | A condition compiles if and only if none of its comparisons is wrong; otherwise the error is that of the leftmost wrong one: unknown field, operator not allowed for its kind, list or value that does not resolve. |
| HqlErrors.OrderNamed | internal/hql/sql.go:284-305 | The order names the column of each field with the direction asked for, or fails with the error of the first field that cannot be sorted by. |
| HqlErrors.QueryFails | internal/hql/sql.go:23-34 | A whole query fails with the error of its condition, else with that of its order, else not at all. |
| HqlLiterals.FieldNamed | internal/hql/schema.go:24-48 | A field is found by its name in any letter case, is of the kind of that name and kept in its column; a family of tags has its own name and a colon in front. |
| HqlLiterals.DurationUnits | internal/hql/functions.go:36-61 | A second is a thousand million nanoseconds, a minute 60 seconds, an hour 60 minutes, a day 24 hours, a week 7 days. |
| HqlLiterals.RelativeIff | internal/hql/functions.go:36-61 | A text is a relative duration if and only if it is an integer followed by one of the five units. |
| HqlLiterals.DaysAgo | internal/hql/functions.go:74-88 | A negative number of days is that many days before the clock. |
| HqlLiterals.AtoiSpells | internal/hql/functions.go:36-61 | A number is read if and only if it is spelled so, sign included, and a 64-bit integer holds it. |
| HqlLiterals.LiteralValue | internal/hql/functions.go:63-121 | What a literal resolves to, or the error: the functions by name in any letter case, without arguments, the rest as written. |
| HqlPreserved.OperatorReads | internal/hql/sql.go:202-218 | An ordering operator is emitted as it was written, and the server reads it as the relation it names. |
| HqlMeaning.PlaceholdersInOrder | internal/hql/sql.go:44-47 | The placeholders emitted are consecutive from left to right, one for each argument. |
| HqlMeaning.CompileShift | internal/hql/sql.go:49-82 | Starting at another number shifts every placeholder and leaves arguments and errors as they are. |
| HqlMeaning.SplicedSql | internal/hql/sql.go:23-34 | A query compiled after k arguments is the query compiled after none, shifted by k, with the same arguments and order. |
| HqlPreserved.CompiledReads | internal/hql/sql.go:49-82 | Read with SQL's precedence, the emitted text is one operand with the intended tree, whatever text follows it. |
| HqlPreserved.MeaningPreserved | internal/hql/sql.go:49-282 | Spliced between any other arguments, read and evaluated in three-valued logic, the emitted condition is true, false or unknown exactly as the filter is, for every row, NULLs included; what the filter is on a row is said of the text of its operators, of its literals and of its field names. |
| HqlPreserved.ReadableIffNoEmptyTagList | internal/hql/sql.go:235-269 | The server can read an emitted condition if and only if no tag list in the filter is empty. |
| HqlPreserved.ParsedListsNonempty | internal/hql/parser.go:230-256 | The query of an accepted text has no empty list, for whatever field. |
| HqlPreserved.ParsedMeaningPreserved | internal/hql/sql.go:13-34 | From text to truth: for every text that parses and compiles, the SQL selects what the text means. |
| FtsWhere.BuildFTSWhere | internal/store/postgres/search.go:190-223 | The clause built part by part, with the HQL fragment spliced in, is the one the next row speaks of. |
| FtsWhere.ClauseNumbered | internal/store/postgres/search.go:190-223 | For every filter the clause uses exactly the placeholders 1 to the number of arguments, each once, from left to right. |
| FtsWhere.ClauseIsConjunction | internal/store/postgres/search.go:190-263 | For every filter and row the clause is, in three-valued logic, the conjunction of its parts: full-text match, types, tag, excluded ids, domains, as-of bound, HQL. |
| FtsWhere.ClauseSelects | internal/store/postgres/search.go:190-263 | A row is selected if and only if the text matches, its type is the one asked for or one of those to include, it has the tag, its id is not excluded, its domain is listed, the as-of bound and the query hold, each where the filter asks for one. |
| AsOfSearch.BoundIsConjunct | internal/store/postgres/search.go:190-263 | A row is selected with an as-of bound if and only if it is selected without it and the bound is true of it. |
| AsOfSearch.AsOfEpochSelects | internal/store/postgres/search.go:248-254 | As of any epoch a search selects, of what it selects now, exactly the concepts that the batches up to the epoch had written. |
| AsOfSearch.AsOfNewestIsUnbounded | internal/evalkit/runners.go:153-185 | From tables in order, as of the newest epoch a search selects what it selects without the bound. |
| AsOfSearch.AsOfTimeSelects | internal/store/postgres/search.go:255-259 | As of a time a search selects, of what it selects now, exactly the concepts whose open version was valid by then. |
| AsOfSearch.FoundIffNeverReplaced | internal/store/postgres/search.go:255-259 | The version that was valid at a time is found for that time if and only if no later version has replaced it. |
| AsOfSearch.RewrittenIsLost | internal/store/postgres/search.go:255-259 | Any two UpsertBatch calls of one id on empty tables leave a first version that was valid at some time as of which the concept is not found. |
| EpochStore.Store.NextEpoch | internal/store/postgres/epoch.go:20-32 | A new row whose number is one more than the greatest, 0 when there is none, and a later clock; nothing changes on failure. |
| EpochStore.Store.RecordVersion | internal/store/postgres/fact.go:24-55 | Closes the open version and appends the new one, or, on failure, changes nothing. |
| EpochStore.Store.AsOf | internal/store/postgres/asof.go:25-90 | One version for each concept that has one at or before the epoch, and it is of the greatest such epoch. |
| EpochStore.Store.Truncate | internal/store/postgres/maintenance.go:11-17 | Empties every table, the epochs included, and leaves the clock running. |
| EpochRunner.NewAndChanged | internal/epoch/diff.go:16-36 | The ids only the new map has, and the ids both have with another SHA. |
| EpochRunner.Runner.ApplyConcept | internal/epoch/runner.go:172-189 | Performs a prefix of the five writes of a concept, all of them when it reports success. |
| EpochRunner.Runner.ReconcileBundle | internal/okf/writer.go:23-51 | Deletes exactly the concept files not to be kept, or a prefix of them on failure. |
| EpochRunner.Runner.Run | internal/epoch/runner.go:54-95 | Wherever it stops, what happened is a prefix of its plan; when it succeeds the plan is complete and the result is the epoch, the commit and the differences of its plan. |
| EpochRunner.Runner.UpsertBatch | internal/epoch/runner.go:146-167 | The same for UpsertBatch: nothing happens for an empty batch, and nothing is ever deleted. |
| EpochRunner.Runner.Reindex | internal/epoch/runner.go:259-288 | The same for Reindex, which reads the whole bundle before its first write. |
| EpochRunner.Runner.DiffEpochs | internal/epoch/runner.go:221-244 | The differences of the views as of the two epochs. |
| EpochTables.RunTables | internal/epoch/runner.go:54-98 | After a completed Run, from tables in order: each id of the batch has its content, the epoch as last and its first epoch kept, exactly one embedding, of its own text, at that epoch, its links as edges and a version opened then; every other id keeps its row, its edges, its versions and its embedding of greatest epoch, alone; the epoch row counts the ids that had no row, those with another SHA and the rows left out; one log line, one commit. |
| EpochTables.UpsertTables | internal/epoch/runner.go:146-167 | The same of a completed UpsertBatch, which counts all its concepts as changed. |
| EpochTables.UpsertFiles | internal/epoch/runner.go:146-202 | The files of its concepts hold their content, the new epoch and the stamp; no other file changes. |
| EpochTables.ReindexEpoch | internal/epoch/runner.go:259-288 | A completed Reindex leaves one epoch, 0, that counts the files, and neither logs nor commits. |
| EpochTables.TablesAlwaysDated | internal/store/postgres/maintenance.go:24-33 | In every reachable state, calls interleaved and failing anywhere, every epoch in the tables is below the next one, so the rows above hold of every completed call. |
| EpochRecovery.ReindexRebuilds | internal/epoch/runner.go:259-288 | From tables in any state, a completed Reindex leaves the tables that the bundle alone determines (one row, one embedding, one open version for each file, one epoch 0) and changes only the epoch of each file. |
| EpochRecovery.ReindexFailsIffUnreadable | internal/epoch/runner.go:259-268 | Reindex writes nothing at all if and only if some file of the bundle cannot be read. |
| EpochBundle.RunBundle | internal/okf/writer.go:23-51 | A completed Run leaves exactly its input in the bundle, whatever was there, unreadable files included. |
| EpochBundle.InterruptedRunBundle | internal/epoch/runner.go:54-95 | Wherever Run stops, every file is an old one or one of the batch, and a file is gone only when the batch leaves it out and the whole batch is on disk. |
| EpochBundle.ReindexAfterRun | internal/epoch/runner.go:259-288 | A Reindex after a completed Run cannot bring back what the Run left out. |
| EpochBundle.InterruptedReindexBundle | internal/epoch/runner.go:279-280 | Wherever Reindex stops, it has changed no file but its epoch. |
| EpochBundle.ReindexAgain | internal/epoch/runner.go:259-288 | A Reindex after one that was stopped anywhere gives the tables the first would have given. |
| EpochInvariants.WindowsDisjoint | internal/store/postgres/fact.go:24-55 | At no instant do two versions of one concept count, and at most one is open. |
| EpochInvariants.CallKeepsInv | internal/epoch/runner.go:54-288 | Wherever any call stops, the tables keep the invariant that makes those windows disjoint. |
| EpochInvariants.ReindexEstablishesInv | internal/epoch/runner.go:259-288 | Reindex establishes that invariant from any tables whatever with its first write and keeps it wherever it stops. |
| EpochCurrent.CallKeepsSynced | internal/epoch/runner.go:54-189 | When open versions and rows agree before a call they agree after it, and wherever it stops at most one concept is behind. |
| EpochCurrent.ReindexEstablishesSynced | internal/epoch/runner.go:259-288 | A completed Reindex makes open versions and rows agree, whatever the tables were. |
| EpochStops.StoppedAgreesIff | internal/epoch/runner.go:172-189 | Wherever a call stops, from agreement: rows and open versions agree if and only if its last write was not the row, the embedding or the edges of a concept, or an open version already has that content; and only that concept can disagree. |
| EpochStops.StoppedAgreesBefore | internal/epoch/runner.go:54-189 | For a Run or an UpsertBatch of distinct ids the condition is on the open versions before the call. |
| EpochStops.StoppedReindexAgreesIff | internal/epoch/runner.go:259-288 | A Reindex stopped after its first write, whatever the tables were, leaves agreement if and only if it stops between two concepts. |
| EpochHistory.AsOfIsOverwrite | internal/store/postgres/asof.go:25-90 | The view as of an epoch is the left-to-right overwrite of the batches up to it. |
| EpochHistory.AsOfLatestIsCurrent | internal/store/postgres/search.go:248-263 | As of the newest epoch the view selects exactly the current concepts. |
| EpochHistory.CurrentIsOverwrite | internal/store/postgres/shas.go:11-30 | The current SHAs are the overwrite of all batches. |
| EpochHistory.FreshHolds | internal/store/postgres/epoch.go:20-32 | Tables as the migrations leave them hold the empty history, so what follows speaks of the first batch too. |
| EpochHistory.ReindexBegins | internal/epoch/runner.go:259-288 | A completed Reindex starts a history whose one batch is the bundle. |
| EpochHistory.WholeHistory | internal/epoch/runner.go:54-167 | After any completed calls the view as of any epoch is the overwrite of the batches up to it. |
| EpochHistory.DiffOfEpochs | internal/epoch/runner.go:221-244 | Between an epoch and a later one nothing is removed; added and changed are exactly those of the batches between. |
| EpochHistory.RunReportsDiff | internal/epoch/runner.go:54-95 | A Run at epoch n reports as added and changed exactly what the difference of epochs n-1 and n shows, then or after any later calls. |
| EpochViews.ViewsEverywhere | internal/store/postgres/asof.go:25-90 | In every reachable state, calls failing anywhere and Reindexes included, the view as of an epoch is the overwrite of what the epochs up to it have recorded. |
| EpochViews.DiffWithoutMutex | internal/epoch/runner.go:221-244 | A Diff of epochs older than the newest at each read, with no Reindex from the first read on, shows the difference of the overwrites as any later state has them, whatever runs in between. |
| EpochViews.DiffOfRunningEpoch | internal/epoch/runner.go:221-244 | A Diff of the epoch in progress with itself can show a concept as added. |
| EpochSchedule.Serializable | internal/epoch/runner.go:31-56 | In every interleaving, with failures and crashes anywhere, the calls have the effects and the results of the serial order in which they got the mutex. |
| EpochSchedule.TablesAlwaysInOrder | internal/store/postgres/fact.go:24-55 | In every reachable state the versions of each concept have disjoint windows, one open at most, and the epochs have no gaps. |
| EpochSchedule.QuietTablesAgree | internal/epoch/runner.go:31-56 | From a complete Reindex or from agreement on, calls failing anywhere: as long as each leaves no concept half written that an open version does not match, rows and open versions agree whenever no call is in progress and differ in one concept at most during a call. |
| EpochLog.LogWorld | internal/epoch/runner.go:31-56 | In every interleaving, tables and bundle are what one list of writes makes of the first ones. |
| EpochLog.BehindEverywhere | internal/epoch/runner.go:54-288 | In every reachable state, whatever failed: every row has its open version, but for those written since their last version and since the last Truncate. |
| EpochLog.AgreesUnlessWritten | internal/epoch/runner.go:54-288 | The same of each concept, from tables of which nothing is known. |
| EpochLog.StopReachable | internal/epoch/runner.go:54-288 | Any call may come to any of its writes and fail there: every prefix of every plan is reached. |
| EpochLog.StoppedCallDisagrees | internal/epoch/runner.go:47-53 | A run of one call on empty tables that stops once the row is written and leaves rows and versions in disagreement. |
| EpochSchedule.EpochsDistinct | internal/store/postgres/epoch.go:20-32 | Calls with no Reindex between them cut different epochs, the later call the greater. |
| EpochSchedule.ReportedEpoch | internal/epoch/runner.go:54-167 | What a completed call reports is the result of the serial order, and its epoch is the one it cut. |
| LruCache.LRUCache.Get | internal/rag/cache.go:85-94 | Answers what the recency list holds and moves the key to its front; list and map stay in bijection. |
| LruCache.LRUCache.Put | internal/rag/cache.go:98-114 | Puts the entry in front of the recency list and drops the last one beyond capacity; list and map stay in bijection. |
| LruSpec.RunKeeps | internal/rag/cache.go:76-114 | After any calls the cache holds the most recently touched keys, latest first, as many as the capacity allows. |
| LruSpec.GetHits | internal/rag/cache.go:85-114 | After any calls a Get hits if and only if the key was put and fewer than capacity other keys were touched since it was, and it returns what was put last. |
| LruSpec.TouchedIffPut | internal/rag/cache.go:85-94 | A key counts as touched if and only if it was ever put: a Get that misses touches nothing. |
| Fusion.RankingUnique | internal/query/hybrid.go:276-284 | Score, then first sight, then id leave one ranking only, so neither map order nor the sort shows. |
| Fusion.Rank | internal/query/hybrid.go:262-284 | Taking the ids in any order and sorting them gives that ranking. |
| FusionTies.HybridTies | internal/query/hybrid.go:276-284 | Of two hits with the same score the one met first in the arms, the text arm before the vector arm, comes first. |
| FusionTies.MultiTies | internal/query/multi.go:118-130 | The same over the subqueries' lists in order. |
| FusionTies.SimilarTies | internal/similar/dispatch.go:123-135 | The same over the signals' lists in order. |
| Fusion.AheadScoresMore | internal/query/hybrid.go:227-256 | An id strictly ahead of another in every list that lists the other has the greater sum. |
| FusionHybrid.FilterFloor | internal/query/hybrid.go:203-211 | The compaction in place leaves exactly the hits at or above the floor, in their order. |
| FusionHybrid.KeptIs | internal/query/hybrid.go:203-211 | What is kept are exactly the hits at or above the floor. |
| FusionHybrid.TitleBoostBounds | internal/query/hybrid.go:84-105 | The title boost lies between 1 and 1.5 and is 1.5 exactly when the title has every token of a query that has any. |
| FusionHybrid.HybridCore | internal/query/hybrid.go:186-315 | Whatever the iteration orders, the hits and explanations are the ranking of the boosted sums of the two arms, cut at the limit. |
| FusionOrder.HybridUnique | internal/query/hybrid.go:186-315 | Two results of the same arms are equal: no iteration order shows. |
| FusionOrder.HybridShape | internal/query/hybrid.go:286-314 | Ranks are 1, 2, 3 and so on, scores never rise, no id comes twice, explanations go with their hits. |
| FusionOrder.AheadIsRankedFirst | internal/query/hybrid.go:213-314 | A hit strictly ahead of another in every arm that lists it, with equal boosts, comes before it. |
| FusionExplained.ExplanationExact | internal/query/hybrid.go:186-315 | Every hit and its explanation are what the arms say of the id: title, type and ranks, an official boost of 1.15 if and only if some hit of the id is official, a type weight of 1.15 for exactly the three canonical types, a title boost of 1 and half the share of the question's words in the title; the score is the sum of 1/(59 + rank) over the arms times the three. |
| FusionExplained.BetterIsRankedFirst | internal/query/hybrid.go:262-284 | Of two ids alike but for the official mark the official one is ranked first; likewise for a canonical type, a better title or a better rank, when nothing else speaks for the other. |
| FusionOrder.NoneMissing | internal/query/hybrid.go:262-314 | A result shorter than the limit has every id that either arm lists. |
| FusionOrder.FindsNothingIff | internal/query/hybrid.go:203-314 | A question finds nothing if and only if no text matches it and no vector hit reaches the floor. |
| FusionMulti.RunSearches | internal/query/multi.go:81-96 | However the bounded workers are scheduled, the slots hold what a serial loop would put there; a failing search fails the call. |
| FusionMulti.MultiHybrid | internal/query/multi.go:68-147 | The fused hits with the provenance of each, whatever the schedule and the map orders. |
| FusionMulti.MultiUnique | internal/query/multi.go:68-147 | Two results of the same answers are equal: neither completion order nor map order shows. |
| FusionMulti.ProvenanceExact | internal/query/multi.go:104-116 | The provenance of a hit is exactly its appearances in the subqueries' lists. |
| FusionTotals.ProvenanceInOrder | internal/query/multi.go:104-116 | The provenance records the appearances one by one, in the order of the subqueries and of their lists. |
| FusionTotals.MultiExact | internal/query/multi.go:98-146 | A fused hit is the first hit of its id, with the sum of one over 5 and its rank in each subquery that found it as its score. |
| FusionTotals.MultiNoneMissing | internal/query/multi.go:131-146 | At most the limit, 20 when none is given; a shorter result has exactly the ids that the subqueries found. |
| FusionMulti.MultiShape | internal/query/multi.go:118-146 | Contiguous ranks, scores that never rise, no id twice, each hit with its own provenance. |
| FusionMulti.MultiRespectsLists | internal/query/multi.go:98-146 | A hit strictly ahead of another in every subquery that found the other comes before it. |
| FusionMulti.HybridListsAreRanked | internal/query/multi.go:86-90 | What a subquery's hybrid search returns is a ranked list, as the row above asks of every subquery. |
| FusionSimilar.Fuse | internal/similar/dispatch.go:99-150 | The fused neighbours with all their reasons, whatever the map orders. |
| FusionSimilar.FusedUnique | internal/similar/dispatch.go:99-150 | Two results of the same lists are equal, hits and reasons. |
| FusionSimilar.FusedShape | internal/similar/dispatch.go:99-150 | Contiguous ranks, scores that never rise, no id twice. |
| FusionTotals.SimilarExact | internal/similar/dispatch.go:99-150 | A fused neighbour is the first of its id, with the sum of one over 60 and its rank by each signal that found it, and exactly the reasons these give. |
| FusionTotals.SimilarNoneMissing | internal/similar/dispatch.go:99-150 | The neighbours are exactly the ids that the signals found. |
| FusionSimilar.FusedRespectsLists | internal/similar/dispatch.go:99-150 | A neighbour strictly ahead of another by every signal that found the other comes before it. |
| JsonExtract.ExtractJSON | internal/rag/answer.go:108-145 | The trimmed, unfenced reply cut from its first brace to the one that closes it, or all of it when no brace is closed: the extraction the next rows speak of. |
| JsonObject.ObjectSpan | internal/rag/answer.go:120-145 | From its first brace the text of any JSON object is scanned to its last byte and no further, braces and escaped quotes in strings included. |
| JsonObject.PlainReply | internal/rag/answer.go:108-145 | Any JSON object after a text without a brace and before any text, with no code fence anywhere, is extracted to the byte. |
| JsonObject.FencedReply | internal/rag/answer.go:108-119 | The object inside the first code fence of a reply is extracted to the byte, whatever else the reply says. |
| JsonReplies.UnclosedReply | internal/rag/answer.go:110-119 | The same of a fence that is never closed. |
| JsonReplies.OneLineReply | internal/rag/answer.go:110-119 | The same of an object between two fences of one line. |
| JsonReplies.NothingClosed | internal/rag/answer.go:108-145 | A reply without a fence in which no brace is closed is returned as it is, trimmed. |
| JsonReplies.PaddedReply | internal/rag/answer.go:108-109 | White space around a reply does not matter. |
| BundleIndex.WriteIndexes | internal/okf/index.go:15-94 | One page for each directory that has a concept below it, listing exactly its concepts and its directories in order. |
| Strings.LessIff | internal/okf/index.go:60-78 | The order of the links: the first byte where two texts differ decides, and a text comes before those it begins. |
| BundleIndex.LinksResolve | internal/okf/index.go:53-124 | Every link of a written page leads to a concept or to a page that is written too. |
| BundleIndex.EveryConceptReachable | internal/okf/index.go:15-94 | From the root page every concept can be reached by following links. |
| StatuteText.JoinWrappedArt | internal/ingest/legislation.go:60-75 | The index loop repairs the text as the recursion over its lines does. |
| StatuteText.RepairedNoneWrapped | internal/ingest/legislation.go:53-75 | After the repair no article marker stands on one line and its number on the next. |
| StatuteText.RepairedUnchanged | internal/ingest/legislation.go:53-75 | A text without a wrapped marker is left exactly as it is, so repairing twice is repairing once. |
| StatuteRepair.MarkerJoined | internal/ingest/legislation.go:60-75 | A marker alone on its line and the number on the next, anywhere in a text, become one line: the marker, a space and what the next line has between its white space. |
| StatuteRepair.RepairKeepsInk | internal/ingest/legislation.go:60-75 | The repair adds, drops and moves nothing but white space. |
| StatuteText.ParseStatute | internal/ingest/legislation.go:77-182 | From the text to the sections with trimmed bodies: the repaired lines go through the loop that the next rows speak of, and a text that yields only an ementa yields nothing. |
| StatuteRepair.TrimmedIff | internal/ingest/legislation.go:87-88 | Trimming leaves the one text without white space at its ends that the given text is with white space around it. |
| StatuteRepair.BodyIsText | internal/ingest/legislation.go:84-99 | A section's text is its lines with a line break between them, without the white space around it. |
| StatuteSpans.EveryLineOnce | internal/ingest/legislation.go:77-182 | Every section is a stretch of the lines up to the next heading, the stretches ascend without overlap, each article carries at each level the name of the latest heading not reset by a later higher one, and a line is in a stretch if and only if it is not a heading other than an article's, not behind a structural heading, and not in an opening without text. |
| StatuteSpans.EveryArticleFound | internal/ingest/legislation.go:144-159 | Every article heading outside the anexos opens a section of its own with its number. |
| StatuteSpans.EveryAnexoFound | internal/ingest/legislation.go:77-182 | Every anexo heading has a section that begins on the next line, with its number, even when it is empty. |
| StatuteSpans.ParsedIff | internal/ingest/legislation.go:77-182 | A text yields sections if and only if it has an anexo or an article outside the anexos; then all of them. |
| Statute.NoArticleAfterAnexo | internal/ingest/legislation.go:77-182 | From the first anexo on, every section is an anexo. |
| StatuteIds.Disambiguate | internal/ingest/legislation.go:237-292 | The unbounded search for a free id ends, at the id itself or at the first numbered alternative that is free. |
| StatuteIds.AlternativeNames | internal/ingest/legislation.go:264-272 | The alternatives are named before the suffix: the stem, -dup, the number in decimal, .md. |
| StatuteIds.AssignedDistinct | internal/ingest/legislation.go:237-292 | No id comes twice in a file or repeats one of an earlier file. |
| StatuteIds.AssignFiles | internal/ingest/legislation.go:203-227 | Every file gets the ids that are fresh after all files before it, and no id comes twice in a whole source. |
| Hygiene.Scan | internal/hygiene/hygiene.go:143-252 | The scan with its shared maps reports what the maps at each concept's turn imply. |
| Hygiene.ErrorsAreOwn | internal/hygiene/hygiene.go:171-252 | The shared maps and the other ids only ever produce warnings: a concept's errors are its own. |
| Hygiene.ReportErrors | internal/hygiene/hygiene.go:143-167 | The errors reported on an id are those its concepts have each on their own. |
| HygieneExact.ReportExact | internal/hygiene/hygiene.go:143-252 | A finding is reported if and only if its check finds it in a concept with its id: a link that leads to no id of the set is a finding, one that does not is none; all but a missing type and a missing provenance can be repaired. |
| Curate.PickAgent | internal/curate/curate.go:153-161 | The agent of highest priority among those a concept needs. |
| Curate.RouteAll | internal/curate/curate.go:106-144 | One route for each concept some agent could repair, sorted by id, to the agent of highest priority with all its findings; skipped are exactly the other concepts with findings. |
| HygieneExact.RoutedTo | internal/curate/curate.go:75-161 | A concept goes to the deviation agent when it has a deviation to repair, else to the hygiene agent for a junk title, a broken link, a duplicate or sample data, else to the research agent for a stub; otherwise it is not routed. |
| Curate.Gate | internal/curate/curate.go:292-314 | The error findings on the proposal's id in the set with the proposal swapped in. |
| Curate.GateIffClean | internal/curate/curate.go:292-314 | The gate passes a proposal if and only if it has no error on its own, whatever set it is gated in. |
| Curate.Pass | internal/curate/curate.go:216-285 | For any fixer, the outcome and the accepted concepts are what each selected route comes to, a proposal being accepted exactly when it has no error of its own; routed is applied plus proposed plus rejected plus errors plus unchanged; accepted concepts are clean, distinct and of the bundle. |
| CurateExact.SelectedAre | internal/curate/curate.go:216-240 | The routes taken are the first by id of those asked for, as many as the limit allows, all of them when it is not positive. |
| CurateExact.TreatedExact | internal/curate/curate.go:240-285 | Every route is settled on its own, by what the fixer proposes and whether that has a fault, and what is accepted is what is kept, in order. |
| CurateExact.FaultyIff | internal/curate/curate.go:292-314 | A concept has an error of its own if and only if it has no type or no title but white space, or its text is specific to an implementation. |
| Curate.AppliedPass | internal/curate/curate.go:216-314 | After an apply pass no id is added or lost, no accepted concept has an error whatever else was accepted, and all other concepts have the errors they had. |
| SeriesHistory.FetchHistory | internal/econindex/client.go:64-100 | Requests the windows in order up to the first failure; without one, returns exactly the point fetched last for each date, dates strictly ascending; an inverted range is an error. |
| SeriesHistory.WindowsTile | internal/econindex/client.go:74-93 | Windows are non-empty, consecutive, within the range, and each ends before its start plus the allowed years; all but the last are as long as allowed. |
| SeriesHistory.EveryDayOnce | internal/econindex/client.go:74-93 | A day is requested if and only if it lies in the range and is not the lost last day, and then in one window only. |
| SeriesHistory.LastDayLostExample | internal/econindex/client.go:74-93 | A range of which no window holds the last day. |
| SeriesHistory.AscendingUnique | internal/econindex/client.go:95-99 | The order in which the map yields its points does not show in the result. |

## Left out

- The server and the libraries: FTS and vector ranking, YAML, git and SHA-256 are parameters or
  uninterpreted.
- Network clients, command line, HTTP and MCP handlers, QR images, the PDF, DOCX, XLSX, OpenAPI and
  CSV readers and the agents' prompts: they add plumbing, not properties.
- Regular expressions (hygiene checks, statute headings, wrapped article lines, relative durations,
  token folding) are arguments: predicates, a classification of lines, a function.
- Scores and embeddings are reals; rounding is not modelled. A stable sort is modelled by an insertion
  that keeps the same order.
- BR Code: upper-casing and case-insensitive comparison of the check field beyond ASCII letters.
- HQL: error messages and the byte offsets in them; the calendar behind dates and the overflow of a
  duration (a date literal resolves through an argument); how the driver types the text it gets for an
  int field; how the server compares text other than for equality, prefix and occurrence.
- Epochs: the generated index.md, log.md and README.md files and the pruning of empty directories are
  not in the bundle of the model (no concept id has one of those names); a file write and a
  transaction are atomic; the clock is a counter that grows with every write that reads it; edges of
  another kind that replacing a concept's links deletes are not tracked.
- EpochRunner.Runner.FinishEpoch: regenerating the index pages is not one of its steps, so neither is the failure it meets when another file of the bundle cannot be read.
- EpochRunner.Runner.Run: the class is one caller; the mutex and the interleavings of several callers are in EpochSchedule, over the plans this method is proved to perform.
- EpochRunner.Runner.ReconcileBundle: the directories that the deletions leave empty are not pruned in the model, whose bundle is a map of files.
- EpochRunner.DiffShas: the three lists of a difference are sets, so their sorting is not modelled.
- FusionHybrid.HybridCore: starts from the answers of the two searches; an embedder or a search that fails ends the call before it.
- FusionMulti.MultiHybrid: how a question is split into subqueries, and the answer of each search, are arguments.
- LruCache.LRUCache.Get: the doubly linked list is a sequence of list elements that are changed in place; the mutex around each call is not modelled.
- LruSpec.GetHits: says nothing about whether a cached answer is still right after a Reindex or under another type filter, which the key does not distinguish.
- JsonExtract.ExtractJSON: what the JSON decoder makes of the extracted text.
- StatuteText.ParseStatute: the heading patterns themselves, and the display titles of the sections, which repeat the number or the heading line.
- EpochStore.Store.AsOf: the bounds by time, type, tag and number of rows; the bound by time is modelled where a search uses it.
- FtsWhere.ClauseIsConjunction: the full-text match is one uninterpreted condition; the two as-of subqueries are interpreted in AsOfSearch.
- Hygiene.Scan: the wording of a finding and the final sort of the report; the intent-term deviations are a number per concept.
- Curate.Pass: the commit and the Reindex that follow an apply pass, and the fixer itself, which is any function.
- SeriesHistory.FetchHistory: time zones whose days are not 24 hours long, and the time each point was fetched.
