# Logger and LMS data import, modelled in Dafny

This project models the logging library `LoggerUtil` and the import side of
`DataImport`, and proves properties of the model.

The logging side has these parts:

- **`LoggingManager`**: a process-wide event bus. It keeps three tables
  (message, start, stop) from a `LogEnvironment` to a multicast delegate.
  The model is the `Logging.Bus` class. A delegate is an ordered list of
  handler ids. Each dispatch returns its delivery trace: the ordered list
  of (handler, sender environment, event) calls it makes.
- **`ToLogString`**, the `LogMessageFormat` strings and the test-only
  `StringLogger`.
- **The `LoggerHelper` rules**: when to log an error or a success, and when
  to throw. Each call's result is the list of messages it publishes plus
  the exception it throws, if any.
- **The file sink `FileLogger`**: a writer on one log file (modelled as its
  list of lines), the owner bit of the log-file mutex, and the three
  handlers the sink subscribes. The sink methods run the deliveries of a
  trace that are addressed to the sink's own handlers.

The import side has these parts:

- **Header detection**: the search for the report's header line, which
  gives the number of preamble lines to skip.
- **`TextFileReader`**: the read loop over CsvHelper's rows, with the
  bad-record flag, the error list, `SkipLines` and the `Dispose` guard.
- **Four validation attributes**: `ValidSelectOption`, `ValidCurrency`,
  `HasItems` and `ValidRequired`.

Behaviour of the code worth knowing, which the model keeps:

- `-=` removes the *last* occurrence of a handler, not the first.
- `AddMessage(env, …)` on an environment that was never registered fails with
  the dictionary's `KeyNotFoundException`. It is not a no-op.
- `Start` walks the live start table without a null check. It fails at the
  first null delegate, after the earlier environments have been called.
  Only `Stop` works on a copy and skips null delegates.
- The stop handler of the file sink does not guard its steps.
- `ListToString` puts a newline after every element, including the last.
- `LogMessage` with `needThrow == false` still logs the error path: two Error
  messages and no Info message.

Files:

- `wrappers.dfy`: `Option` and `Result`.
- `logging.dfy`: the bus and `StringLogger`.
- `logger_helper.dfy`: the `LoggerHelper` rules.
- `file_sink.dfy`: the file sink.
- `chars.dfy`: .NET white space, `String.Trim` and the regex tail `.*$`.
- `text_reader.dfy`: the text readers and header detection.
- `csv_reader.dfy`: `TextFileReader`.
- `validation.dfy`: the validation attributes.

## Model

| member | source | states |
|---|---|---|
| Logging.ToLogString | LoggerUtil/Logger.cs:34-48 | The label is empty exactly for `None`. For the other four levels it is the level's name followed by `:`. |
| Logging.ToLogStringInjective | LoggerUtil/Logger.cs:34-48 | Distinct levels get distinct labels, so a label identifies its level. |
| Logging.LastIndex | LoggerUtil/Logger.cs:105 | The position of the last occurrence of a handler in a delegate's list, or -1 exactly when the handler is absent. |
| Logging.RemoveLast | LoggerUtil/Logger.cs:101-107 | Delegate subtraction. No change when the handler is absent. Otherwise the list is one shorter and loses exactly one occurrence (multiset difference). |
| Logging.RemoveLastKeepsPrefix | LoggerUtil/Logger.cs:105 | The occurrence removed is the last one. The survivors keep their order. |
| Logging.Table.Add | LoggerUtil/Logger.cs:86-96 | `AddEvent` appends the handler at the end of the environment's list and creates the key if it is absent. Other environments are unchanged. Enumeration order grows only for a new key. |
| Logging.Table.Remove | LoggerUtil/Logger.cs:101-107 | The environment's list loses its last occurrence of the handler. Keys, order and other environments are unchanged. |
| Logging.RemoveOneLogger | LoggerUtil/Logger.cs:121-133 | Subtracting every delegate of the invocation list leaves the environment with no handlers. The key, the enumeration order and every other environment are kept. |
| Logging.ShouldDeliver | LoggerUtil/Logger.cs:137-138 | A message passes the verbosity filter iff the mode is Verbose, or the mode is Normal and the priority is not Diagnostic. |
| Logging.FanOut | LoggerUtil/Logger.cs:143-145 | Invoking a delegate calls each handler of its invocation list once, in order, with the same sender and event. |
| Logging.BroadcastDelivers | LoggerUtil/Logger.cs:147-153 | A broadcast over a list of keys makes a delivery iff its sender is one of the keys, its handler is subscribed to that sender, and it carries the broadcast's event. |
| Logging.OccurrencesFanOut | LoggerUtil/Logger.cs:143-145 | A delegate calls a handler once per occurrence in its invocation list. |
| Logging.OccurrencesBroadcast | LoggerUtil/Logger.cs:180-190 | Over distinct keys, a handler subscribed under one environment only is called as often as it occurs in that environment's delegate. |
| Logging.FirstNull | LoggerUtil/Logger.cs:159-165 | The first key whose start delegate is null, or the key count. Every earlier key has a non-null delegate. |
| Logging.StartStopsAt | LoggerUtil/Logger.cs:159-165 | `Start` stops at the first null start delegate, and runs to the end exactly when every delegate in the table is non-null. |
| Logging.Bus.constructor | LoggerUtil/Logger.cs:67-75 | All three tables start empty. The verbosity mode starts as Normal and the format as `TimeFormat`. |
| Logging.Bus.AddLogger | LoggerUtil/Logger.cs:97-100 | The message table becomes `Add(env, h)` of the old one. The start and stop tables and the settings are unchanged. |
| Logging.Bus.AddStart | LoggerUtil/Logger.cs:154-157 | The start table becomes `Add(env, h)` of the old one. Everything else is unchanged. |
| Logging.Bus.AddStop | LoggerUtil/Logger.cs:167-170 | The stop table becomes `Add(env, h)` of the old one. Everything else is unchanged. |
| Logging.Bus.RemoveLogger | LoggerUtil/Logger.cs:101-107 | Only the message table changes. It loses the last occurrence of the handler under that environment. It is a no-op when the key or the handler is absent. |
| Logging.Bus.RemoveLoggerAll | LoggerUtil/Logger.cs:109-114 | The environment has no handlers left in any of the three tables. Keys, enumeration order, other environments and settings are unchanged. |
| Logging.Bus.AddMessageTo | LoggerUtil/Logger.cs:135-146 | A filtered-out message delivers nothing. Otherwise a never-registered environment fails with the key-not-found message. A registered environment's handlers are called in order; a null delegate calls none. The event carries `NoneFormat` for priority None and the global format otherwise. |
| Logging.Bus.AddMessage | LoggerUtil/Logger.cs:147-153 | The trace is the broadcast of the filtered message over every message-table key in enumeration order, or empty when the filter drops it. |
| Logging.Bus.Start | LoggerUtil/Logger.cs:159-165 | The environments before the first null start delegate are called in order, with no filter. The call succeeds iff no start delegate is null. |
| Logging.Bus.Stop | LoggerUtil/Logger.cs:180-190 | Every non-null stop delegate of the table as it was when `Stop` was called is invoked, in key order, with no filter. |
| Logging.TranscriptAppend | LoggerUtil/Logger.cs:221-225 | The string logger's text for consecutive traces is the concatenation of their texts. |
| Logging.AddressedTo | LoggerUtil/Logger.cs:221-225 | The deliveries a handler receives: exactly the trace's deliveries addressed to it. |
| Logging.TranscriptAddressedTo | LoggerUtil/Logger.cs:221-225 | A handler's transcript ignores the deliveries addressed to other handlers. |
| Logging.StringLogger.constructor | LoggerUtil/Logger.cs:218 | The buffer starts empty. |
| Logging.StringLogger.Init | LoggerUtil/Logger.cs:219-226 | The logger's handler is appended to the Console message delegate. Nothing else on the bus changes. |
| Logging.StringLogger.Reset | LoggerUtil/Logger.cs:228-231 | The buffer is emptied. |
| Logging.StringLogger.LogInfo | LoggerUtil/Logger.cs:233-236 | The getter returns the whole buffer, so after `Reset` and `Receive` it is the transcript of the deliveries made to the logger. |
| Logging.StringLogger.Receive | LoggerUtil/Logger.cs:221-225 | The buffer gains the transcript of the deliveries addressed to this logger, in order. |
| LoggerHelper.LogErrors | LoggerUtil/LoggerHelper.cs:68-77 | Exactly two Error messages, the title then the detail. The helper throws iff asked to, with the title as message. |
| LoggerHelper.LogMessage | LoggerUtil/LoggerHelper.cs:50-60 | The success path publishes exactly one Info message, the good title, and never throws. The error path is `LogErrors`: only Error messages, no good title, and a throw iff `needThrow`. |
| LoggerHelper.ThrownIsLoggedFirst | LoggerUtil/LoggerHelper.cs:50-77 | Whatever is thrown has first been published at Error severity. |
| LoggerHelper.JoinLinesAppend | LoggerUtil/LoggerHelper.cs:79-87 | Joining two lists in sequence is the concatenation of their joins. |
| LoggerHelper.JoinLinesLength | LoggerUtil/LoggerHelper.cs:79-87 | The joined text holds every element plus one newline per element. |
| LoggerHelper.ListToString | LoggerUtil/LoggerHelper.cs:79-87 | The builder ends up with each element followed by a newline, in order. It is empty exactly for the empty list. |
| LoggerHelper.StringLoggerText | LoggerUtil/Logger.cs:219-236 | For deliveries made to the string logger, its text is `label + " " + message` per delivery, each followed by a newline and in delivery order. That is the text `ListToString` builds from the rendered messages. |
| LoggerHelper.StringLoggerTranscript | LoggerUtil/Logger.cs:219-236 | For any trace, such as the one `AddMessage` returns, the string logger's text is `label + " " + message` plus a newline for each delivery addressed to it, in trace order. |
| LoggerHelper.LogMessagesIfAnyError | LoggerUtil/LoggerHelper.cs:19-22 | The error path is taken iff the list is non-empty, with the joined list as the detail. Otherwise one Info message is published. It throws iff the list is non-empty and `needThrow` holds. |
| LoggerHelper.LogMessagesIfNoneError | LoggerUtil/LoggerHelper.cs:32-35 | The error path is taken iff the list is empty, with an empty detail. |
| LoggerHelper.LogMessagesIfNullError | LoggerUtil/LoggerHelper.cs:37-40 | The error path is taken iff the item is null, with an empty detail. |
| FileSink.FormatLine | LoggerUtil/FileLooger.cs:41-59 | A line is written iff the format is one of the five known ones. `NoneFormat` gives the message. `GeneralFormat` gives label, space, message. The three time formats give timestamp, space, label, space, message. |
| FileSink.LabelledLine | LoggerUtil/FileLooger.cs:41-59 | Every labelled format writes a prefix (nothing for `GeneralFormat`, the time stamp and a space otherwise), then the label, a space and the message. |
| FileSink.FormatLineEndsWithMessage | LoggerUtil/FileLooger.cs:41-59 | Every written line ends with the message. Every labelled line ends with label, space, message. |
| FileSink.FormatLineDecodes | LoggerUtil/FileLooger.cs:41-59 | With the format and the time stamp known, a written line determines the message. In every labelled format it also determines the level. |
| FileSink.LabelledLineDecodes | LoggerUtil/FileLooger.cs:41-59 | After a fixed prefix, the label, the space and the message can be read back from the line. |
| FileSink.LineOf | LoggerUtil/FileLooger.cs:41-59 | An event adds one line in a known format and none otherwise. |
| FileSink.AddConfined | LoggerUtil/FileLooger.cs:16-28 | Subscribing a handler under File confines it to File. It adds exactly one occurrence there and moves no other handler. |
| FileSink.Subscribe | LoggerUtil/FileLooger.cs:20-38 | `InitBase` appends the message, start and stop handlers under File, one per table. Each is confined to its own table, the stop handler occurs exactly once, and the settings are unchanged. |
| FileSink.FileLogger.constructor | LoggerUtil/FileLooger.cs:16-39 | `InitBase` opens the file, then adds exactly one File handler to each of the message, start and stop tables. The sink owns the mutex and has released it zero times. |
| FileSink.FileLogger.Create | LoggerUtil/FileLooger.cs:86-94 | A failed mutex wait throws the timeout message before anything is opened or subscribed. A successful one runs `InitBase`. |
| FileSink.FileLogger.SetFileSource | LoggerUtil/FileLooger.cs:60-78 | The previous writer is disposed first. The new writer opens the path in append mode with the file's lines when it exists, or creates it empty. |
| FileSink.FileLogger.WriteEvent | LoggerUtil/FileLooger.cs:22-29 | The message and start handlers append the event's line to the open writer and change nothing else. |
| FileSink.FileLogger.OnStop | LoggerUtil/FileLooger.cs:30-37 | The stop handler writes the final line, unsubscribes every File handler in all three tables, closes the writer and releases the mutex. Other environments are untouched. |
| FileSink.FileLogger.Deliver | LoggerUtil/FileLooger.cs:22-37 | Invoking one closure: the sink's message or start handler appends the event's line; its stop handler also closes the writer, releases the mutex once and empties File in all three tables; any other closure leaves the sink alone. Other environments and the settings never change. |
| FileSink.FileLogger.Run | LoggerUtil/FileLooger.cs:16-39 | Running a trace appends the sink's lines in order. The mutex is released once per stop delivery, and writer and mutex close together. The bus is untouched without a stop delivery. With one, File is emptied in every table. |
| FileSink.StopBroadcast | LoggerUtil/FileLooger.cs:30-37 | A `Stop` broadcast reaches exactly the stop handlers subscribed when it began. The sink releases the mutex once if subscribed and not at all otherwise, so never twice. |
| FileSink.MessageBroadcast | LoggerUtil/FileLooger.cs:22-25 | An `AddMessage` broadcast appends the sink's lines. It leaves the bus, the writer's state and the mutex unchanged. |
| FileSink.LogBroadcastAdmissible | LoggerUtil/FileLooger.cs:22-25 | A message broadcast never reaches the sink's stop handler, so the sink still owns the mutex at every write it makes. |
| FileSink.StartBroadcast | LoggerUtil/FileLooger.cs:26-29 | A `Start` broadcast appends the sink's start line when it gets that far. It leaves the bus and the mutex unchanged. |
| Chars.Trim | DataImport/ValidationAttributes/ValidCurrency.cs:21 | `String.Trim` removes the leading white-space run and a trailing one. The result is empty iff the text is all white space, and otherwise starts and ends with a non-space. |
| Chars.LeadingSpaces | DataImport/ValidationAttributes/ValidCurrency.cs:21 | The length of the leading white-space run. Every character before it is white space, and the character at it is not. |
| Chars.TrailingSpaces | DataImport/ValidationAttributes/ValidCurrency.cs:21 | The length of the trailing white-space run. Every character in it is white space, and the character before it is not. |
| Chars.TrimFindsCore | DataImport/ValidationAttributes/ValidCurrency.cs:21 | Any split into white space, a core that is blank or bounded by non-spaces, and white space is the one `Trim` finds. |
| Chars.TrimIgnoresPadding | DataImport/ValidationAttributes/ValidCurrency.cs:21 | White space added on either side does not change the trimmed text. |
| Chars.DotStarEnd | DataImport/ValidationAttributes/ValidRegExpFormat.cs:14 | The regex tail `.*$` matches iff no line feed comes before the last character. |
| TextReader.ShapeMeansMatch | DataImport/TextFileReaderHelper.cs:13 | Taking the whole white-space run finds a match of `^first\s+second.+` whenever one exists. |
| TextReader.MatchGivesShape | DataImport/TextFileReaderHelper.cs:13 | Whatever split the regex engine picks for `^first\s+second.+`, the line has the shape the greedy white-space run finds. |
| TextReader.IsHeaderMeansMatch | DataImport/TextFileReaderHelper.cs:13 | `IsHeader` accepts exactly the lines the header regex matches. |
| TextReader.LmsTextReader.constructor | DataImport/TextFileReaderHelper.cs:14-22 | A new reader stands at the first line and has not been disposed. |
| TextReader.LmsTextReader.ReadLine | DataImport/TextFileReaderHelper.cs:30 | `ReadLine` returns the next line and advances, or returns null at the end without moving. A disposed reader throws `Cannot read from a closed TextReader.` and does not move. |
| TextReader.LmsTextReader.Dispose | DataImport/CsvReader.cs:138 | Disposing a reader counts one disposal and leaves its position where it was. |
| TextReader.LmsTextReader.GetSkipLines | DataImport/TextFileReaderHelper.cs:51-73 | The file reader counts lines on a second reader opened on the file, so it succeeds even when disposed, and its own position is unchanged. The stream reader counts from where it stands, then rewinds to the start. A disposed stream reader fails with the closed-reader message and does not move. |
| TextReader.HeaderIndex | DataImport/TextFileReaderHelper.cs:26-39 | The index of the first header line, or the line count when there is none. Every earlier line fails the header test. |
| TextReader.HeaderIndexIsFirst | DataImport/TextFileReaderHelper.cs:26-39 | Any index of a header line, with no header line before it, is the one `HeaderIndex` gives. |
| TextReader.ScanForHeader | DataImport/TextFileReaderHelper.cs:26-39 | The count of lines read before the header, not counting the header. The reader is left just past the header, or at the end. On a disposed reader the first read fails with the closed-reader message. |
| CsvImport.ExceptionMessage | DataImport/CsvReader.cs:50 | The logged message is `Exception: ` followed by the inner exception's message. |
| CsvImport.FirstAbort | DataImport/CsvReader.cs:69-94 | The first row that ends the read with an exception, or the row count. |
| CsvImport.FirstAbortIsFirst | DataImport/CsvReader.cs:76-91 | Any index of a row that aborts, with no aborting row before it, is the one `FirstAbort` gives. |
| CsvImport.KeptRow | DataImport/CsvReader.cs:78-84 | A row contributes at most one record: its own, exactly when it is a record and the flag is clear when it arrives. |
| CsvImport.BadData | DataImport/CsvReader.cs:42-45 | One Error message per bad field, in order, each carrying the field. |
| CsvImport.SkippedTextIsJoin | DataImport/CsvReader.cs:96-106 | The text `SkipLines(n)` returns is the first `n` lines, each followed by a newline. Missing lines read as empty. |
| CsvImport.KeptAndErrorsCount | DataImport/CsvReader.cs:52-84 | Without a stale flag, kept records plus error entries equal the rows read. |
| CsvImport.KeptAppend | DataImport/CsvReader.cs:79-84 | Rows are filtered independently, because the flag is reset after every row. A bad row never drops a later good one. |
| CsvImport.StaleFlagDropsFirst | DataImport/CsvReader.cs:48-84 | A flag left set by an earlier aborted read drops the first record of the next read. With the flag clear, that record is kept. |
| CsvImport.ReadAllPrefix | DataImport/CsvReader.cs:76-91 | The read handles the rows before the first aborting row and leaves the rest unread. Without an aborting row it returns the kept records with every row's errors and messages. With one, it fails with `ReadCSFile: ` plus that row's message, after publishing that message at Error severity. |
| CsvImport.ReadAllSucceeds | DataImport/CsvReader.cs:76-91 | The read succeeds iff no row aborts. A successful read from a clear flag accounts for every row, as a kept record or as an error entry. |
| CsvImport.TextFileReader.OnFile | DataImport/CsvReader.cs:14-20 | The import reads through a new file reader at the first line. The error list is empty and the flag is clear. |
| CsvImport.TextFileReader.OnStream | DataImport/CsvReader.cs:22-28 | The import reads through a new stream reader at the first line. The error list is empty and the flag is clear. |
| CsvImport.TextFileReader.ReadingExceptionOccurred | DataImport/CsvReader.cs:46-62 | The flag is set. With an inner exception, one Error entry and one Error message carry `Exception: ` plus its message, and CsvHelper is told not to throw. Without one, a null-reference exception is thrown and nothing is recorded. |
| CsvImport.TextFileReader.SkipLines | DataImport/CsvReader.cs:96-106 | It consumes `n` lines, or the rest of the text if that is shorter, and returns them joined with newlines. On a disposed line reader with `n > 0` it fails with the closed-reader message and consumes nothing. |
| CsvImport.TextFileReader.ReadCSFile | DataImport/CsvReader.cs:69-94 | After `Dispose` it publishes `Cannot read from a closed TextReader.` and fails with `ReadCSFile: ` plus that message, changing nothing else. Otherwise the reader is left at the header line. With no aborting row the result is the kept records in input order, with one error entry and message per reading exception. The first aborting row publishes its message and fails with `ReadCSFile: ` plus that message. |
| CsvImport.TextFileReader.Rethrow | DataImport/CsvReader.cs:87-91 | The handler publishes the escaping message at Error severity and fails with `ReadCSFile: ` plus that message. Records, errors, rows and the flag are unchanged. |
| CsvImport.TextFileReader.ReadRecords | DataImport/CsvReader.cs:76-91 | The read loop and its handler leave the reader's result, error list, published messages, remaining rows and flag as the whole read `ReadAll` gives them. |
| CsvImport.TextFileReader.ReadNext | DataImport/CsvReader.cs:76-91 | One turn of the loop consumes a row. It either carries the account of the read one row further, or publishes the escaping message and ends the read with the result the whole read has. |
| CsvImport.TextFileReader.ReadRow | DataImport/CsvReader.cs:42-84 | One `Read` and `GetRecord` with its callbacks. A record publishes its bad fields, is kept iff the flag was clear, and clears the flag. A handled reading exception records its error and clears the flag. A reading exception without an inner one, or an exception thrown past the callbacks, escapes with its message and records nothing. |
| CsvImport.TextFileReader.Dispose | DataImport/CsvReader.cs:123-127 | The line reader is disposed exactly when the reader was not disposed before, so at most once. |
| CsvImport.TextFileReader.Finalize | DataImport/CsvReader.cs:144-147 | The finalizer marks the reader disposed without disposing the line reader. |
| CsvImport.TextFileReader.DisposeCore | DataImport/CsvReader.cs:129-142 | Only the first call does anything, and only an explicit dispose releases the line reader. |
| Validation.BlankToEndIsAllSpace | DataImport/ValidationAttributes/ValidRegExpFormat.cs:14-15 | `^\s*$` matches exactly the all-white-space strings, the empty string included. |
| Validation.RequiredPatternIsRegex | DataImport/ValidationAttributes/ValidRegExpFormat.cs:14 | The decided required pattern accepts exactly what `(^\d{2}.*$)\|(^\s*$)` matches. |
| Validation.OptionalPatternIsRegex | DataImport/ValidationAttributes/ValidRegExpFormat.cs:15 | The decided optional pattern accepts exactly what `(^\d{1,2}.*$)\|(^\s*$)` matches. |
| Validation.RequiredIsStricter | DataImport/ValidationAttributes/ValidRegExpFormat.cs:14-15 | Every string accepted in required mode is accepted in optional mode. |
| Validation.SingleDigitOnlyWhenOptional | DataImport/ValidationAttributes/ValidRegExpFormat.cs:14-15 | A one-digit option passes only in optional mode, so the converse fails. |
| Validation.SingleLineSelectOption | DataImport/ValidationAttributes/ValidRegExpFormat.cs:14-15 | On one line, required mode means "two leading digits or blank" and optional mode means "a leading digit or blank". |
| Validation.SelectOptionIsValid | DataImport/ValidationAttributes/ValidRegExpFormat.cs:17-33 | Null is valid. A string is valid iff the current mode's regex matches it. Any other value fails the cast `(string)value` with the message that names its runtime type. |
| Validation.CastMessage | DataImport/ValidationAttributes/ValidRegExpFormat.cs:24 | The cast failure reads `Unable to cast object of type '`, the type name, then `' to type 'System.String'.` |
| Validation.ValidSelectOption.constructor | DataImport/ValidationAttributes/ValidRegExpFormat.cs:17-33 | A new attribute has not seen a string yet. |
| Validation.ValidSelectOption.IsValid | DataImport/ValidationAttributes/ValidRegExpFormat.cs:17-33 | The result is `SelectOptionIsValid`. The attribute remembers the last string it was given. |
| Validation.SelectOptionErrorMessage | DataImport/ValidationAttributes/ValidRegExpFormat.cs:35-38 | The message is `The `, the name, then ` field could not be parsed to a valid Select Field.` |
| Validation.RemoveDollars | DataImport/ValidationAttributes/ValidCurrency.cs:21 | The result has no dollar sign and is unchanged when there was none. |
| Validation.RemoveDollarsAppend | DataImport/ValidationAttributes/ValidCurrency.cs:21 | Removing dollar signs works piecewise over a concatenation. |
| Validation.CurrencyIsValid | DataImport/ValidationAttributes/ValidCurrency.cs:12-32 | Null and non-strings are valid. A string that is blank without its dollar signs is valid. Otherwise the string is valid iff the parser accepts its trimmed, dollar-free text. |
| Validation.DollarSignIgnored | DataImport/ValidationAttributes/ValidCurrency.cs:21 | Inserting a dollar sign anywhere never changes validity. |
| Validation.DollarRemoved | DataImport/ValidationAttributes/ValidCurrency.cs:21 | A dollar sign inserted anywhere is removed again. |
| Validation.PaddingIgnored | DataImport/ValidationAttributes/ValidCurrency.cs:21 | White space around the amount never changes validity. |
| Validation.CurrencyErrorMessage | DataImport/ValidationAttributes/ValidCurrency.cs:34-37 | The message is `Field: [`, the name, then `] can not be parsed to a valid currency type.` |
| Validation.HasItemsIsValid | DataImport/ValidationAttributes/HasItems.cs:14-33 | A value is invalid exactly when it is an empty collection or an empty enumerable of objects. Null, strings and everything else pass. |
| Validation.RequiredAttributeIsValid | DataImport/ValidationAttributes/ValidRequired.cs:19 | With empty strings disallowed, a value is valid iff it is not null and not a blank string. |
| Validation.RequiredIsValid | DataImport/ValidationAttributes/ValidRequired.cs:12-20 | With the configuration off, every value passes. With it on, a value passes iff it is not null and not a blank string. So the values accepted with the configuration on are a subset of those accepted with it off. |
| Validation.BlankSelectOptionIsMissing | DataImport/ValidationAttributes/ValidRequired.cs:12-20 | With required fields configured, a blank select option passes `ValidSelectOption` but fails `ValidRequired`. |

## Left out

- Console output: `ConsoleLogger` writes to standard error. It is I/O and not part of this model.
- The commented-out `AppSupportLogger` is dead code.
- Handler closures are opaque ids, and a dispatch returns its delivery trace. The sinks run the deliveries afterwards. This loses nothing for `Stop`, which works on a copy. Message and start handlers never change the bus, so their live iteration gives the same trace.
- `LoggerHelper` publishes through `LoggingManager.AddMessage(priority, msg)`. The model returns the published messages and the exception as an `Outcome` value rather than sending them to a `Bus`. List elements are given by their `ToString` text.
- `StringLogger` keeps a static buffer. The model makes it an object with its own buffer and handler id.
- `Logging.ToLogString`: enumeration values outside the five declared levels ("Not a valid format") cannot occur in the model.
- Process-wide statics become explicit objects: the bus tables, `LoggerType`, `MessageFormat` and the mutex.
- The mutex wait, its 10-minute timeout and thread affinity are concurrency. Only the wait's outcome (`waitSucceeded`) and an owner bit are modelled.
- Files are lists of lines, and `File.Exists` is the `existing` input. Buffering, encodings and write failures are not modelled.
- `DateTime.Now` and its rendering are a `timestamp` string, one per broadcast.
- Null file paths, null lists and null list elements are not modelled. On a null list, `LogMessagesIfAnyError` and `LogMessagesIfNoneError` throw `ArgumentNullException` from `Any()`.
- `Dictionary` enumeration order is given as the key-insertion order. Keys are never removed.
- CsvHelper is not part of this model. What it makes of the lines after the header is given as a sequence of `Row` outcomes: configuration, class map, trimming, comments, missing fields and header validation are left out. A row either reports bad fields or raises a reading exception, never both, although CsvHelper can do both for one row. CsvHelper's own buffering is not modelled: after `Dispose`, the model's first `csvReader.Read()` reads the closed line reader and fails.
- `CsvImport.TextFileReader.ReadCSFile`: reading rows does not move the line reader. The `ApplicationException` that wraps the escaping exception is represented by its message.
- Stream readers split text into lines before the model starts; `ReadLine`'s handling of `\r`, `\n` and `\r\n` is not modelled.
- `decimal.TryParse` depends on the culture. It is the parameter `tryParse`.
- `ValidationConfig.NeedRequiredConfig` is a parameter.
- Regex `\d` is restricted to ASCII digits. .NET also accepts other Unicode decimal digits.
- A validated value is given by what the runtime type tests see (`Value`), plus the full name of its runtime type for non-strings. It is not given by a .NET type.
- Platform: the model assumes .NET Framework on Windows. `Logging.NewLine` is `"\r\n"`, which reaches `Logging.StringLine`, `Logging.Transcript`, `Logging.StringLogger.Receive`, `LoggerHelper.JoinLines`, `LoggerHelper.ListToString`, `LoggerHelper.StringLoggerText`, `CsvImport.SkippedText` and `CsvImport.TextFileReader.SkipLines`. `Logging.KeyNotFoundMessage` is that runtime's text, which reaches the `Err` of `Logging.Bus.AddMessageTo`. On other platforms the newline is `"\n"`, and on .NET Core the missing-key message names the key.
