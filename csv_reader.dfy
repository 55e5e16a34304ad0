/**
 * `TextFileReader`: reads the tab-separated LMS report. It skips the
 * preamble before the header line, then keeps every record CsvHelper reads
 * without a reading exception; each reading exception becomes an `LmsError`
 * and an Error message on the logging bus.
 *
 * CsvHelper itself is not part of this model: what it makes of the lines
 * after the header is given as a sequence of `Row` values.
 */
module CsvImport {
  import opened Wrappers
  import Logging
  import LoggerHelper
  import TextReader

  datatype ErrorType = Error
  datatype LmsError = LmsError(errorType: ErrorType, message: string)

  datatype CSRecord = CSRecord(
    userId: string, agencySubelement: string, trainingTitle: string,
    trainingType: string, trainingTypeCode: string, trainingSubType: string)

  /**
   * What one `Read` and `GetRecord` round of CsvHelper does: produce a record
   * (calling `BadDataFound` once per field in `badFields`), raise a reading
   * exception that goes to `ReadingExceptionOccurred` (with the message of its
   * inner exception, or none), or throw past the callbacks.
   */
  datatype Row =
    | Record(record: CSRecord, badFields: seq<string>)
    | ReadingException(inner: Option<string>)
    | Thrown(message: string)

  /** The message of the `NullReferenceException` the reading-exception callback throws when there is no inner exception. */
  const NullReferenceMessage := "Object reference not set to an instance of an object."

  function ExceptionMessage(inner: string): (r: string)
    ensures |r| == 11 + |inner| && r[..11] == "Exception: " && r[11..] == inner
  {
    "Exception: " + inner
  }

  /** A row that ends `ReadCSFile` with an exception. */
  predicate Aborts(row: Row) {
    row.Thrown? || (row.ReadingException? && row.inner.None?)
  }

  /** The message of the exception an aborting row raises. */
  function AbortMessage(row: Row): string
    requires Aborts(row)
  {
    if row.Thrown? then row.message else NullReferenceMessage
  }

  /** The index of the first aborting row, or `|rows|` when none aborts. */
  function FirstAbort(rows: seq<Row>): (k: nat)
    ensures k <= |rows|
    ensures forall j :: 0 <= j < k ==> !Aborts(rows[j])
    ensures k < |rows| ==> Aborts(rows[k])
  {
    if rows == [] || Aborts(rows[0]) then 0 else 1 + FirstAbort(rows[1..])
  }

  lemma FirstAbortIsFirst(rows: seq<Row>, k: nat)
    requires k <= |rows|
    requires forall j :: 0 <= j < k ==> !Aborts(rows[j])
    requires k < |rows| ==> Aborts(rows[k])
    ensures FirstAbort(rows) == k
  {
  }

  /** The record one row contributes when the bad-record flag stands at `bad` as it arrives. */
  function KeptRow(row: Row, bad: bool): (r: seq<CSRecord>)
    ensures |r| <= 1
    ensures r != [] <==> row.Record? && !bad
    ensures r != [] ==> r[0] == row.record
  {
    if row.Record? && !bad then [row.record] else []
  }

  /**
   * The records kept from rows that do not abort, given the bad-record flag
   * as it stood before the first row: a record is kept unless the flag is
   * set when it arrives, and the flag is cleared after every row.
   */
  function Kept(rows: seq<Row>, bad: bool): seq<CSRecord> {
    if rows == [] then [] else KeptRow(rows[0], bad) + Kept(rows[1..], false)
  }

  /** The `ErrorList` entry the reading-exception callback adds for one handled row. */
  function RowErrors(row: Row): seq<LmsError> {
    if row.ReadingException? && row.inner.Some?
    then [LmsError(ErrorType.Error, ExceptionMessage(row.inner.value))] else []
  }

  /** The `ErrorList` entries the reading-exception callback adds for `rows`. */
  function Errors(rows: seq<Row>): seq<LmsError> {
    if rows == [] then [] else RowErrors(rows[0]) + Errors(rows[1..])
  }

  /** The bad-data messages `BadDataFound` publishes for one row. */
  function BadData(fields: seq<string>): (r: seq<(Logging.Level, string)>)
    ensures |r| == |fields|
    ensures forall j :: 0 <= j < |r| ==> r[j] == (Logging.Level.Error, fields[j])
  {
    seq(|fields|, j requires 0 <= j < |fields| => (Logging.Level.Error, fields[j]))
  }

  /** The Error messages the callbacks publish for one row that does not abort. */
  function RowPublished(row: Row): seq<(Logging.Level, string)> {
    match row
    case Record(_, badFields) => BadData(badFields)
    case ReadingException(inner) =>
      if inner.Some? then [(Logging.Level.Error, ExceptionMessage(inner.value))] else []
    case Thrown(_) => []
  }

  /** The Error messages the callbacks publish for `rows`, in order. */
  function Published(rows: seq<Row>): seq<(Logging.Level, string)> {
    if rows == [] then [] else RowPublished(rows[0]) + Published(rows[1..])
  }

  /** What `SkipLines(n)` returns: `n` lines, each followed by a newline, a missing line read as empty. */
  function SkippedText(rest: seq<string>, n: nat): string {
    if n == 0 then ""
    else SkippedText(rest, n - 1) + (if n - 1 < |rest| then rest[n - 1] else "") + Logging.NewLine
  }

  /** The first `n` lines, padded with empty lines when the text runs out. */
  function Padded(rest: seq<string>, n: nat): (r: seq<string>)
    ensures |r| == n
    ensures forall j :: 0 <= j < n ==> r[j] == if j < |rest| then rest[j] else ""
  {
    seq(n, j requires 0 <= j < n => if j < |rest| then rest[j] else "")
  }

  /** The skipped text is the padded lines joined as `LoggerHelper.ListToString` joins them. */
  lemma {:induction false} SkippedTextIsJoin(rest: seq<string>, n: nat)
    ensures SkippedText(rest, n) == LoggerHelper.JoinLines(Padded(rest, n))
    ensures n <= |rest| ==> SkippedText(rest, n) == LoggerHelper.JoinLines(rest[..n])
  {
    if n > 0 {
      SkippedTextIsJoin(rest, n - 1);
      assert Padded(rest, n)[..n - 1] == Padded(rest, n - 1);
    }
    if n <= |rest| {
      assert Padded(rest, n) == rest[..n];
    }
  }

  /** Without a stale flag, every record row is kept and every handled reading exception is an error: nothing is lost or counted twice. */
  lemma {:induction false} KeptAndErrorsCount(rows: seq<Row>)
    requires forall j :: 0 <= j < |rows| ==> !Aborts(rows[j])
    ensures |Kept(rows, false)| + |Errors(rows)| == |rows|
  {
    if rows != [] {
      KeptAndErrorsCount(rows[1..]);
    }
  }

  /** Rows are filtered independently: a bad row never costs a neighbouring record its place. */
  lemma {:induction false} KeptAppend(a: seq<Row>, b: seq<Row>, bad: bool)
    requires a != []
    ensures Kept(a + b, bad) == Kept(a, bad) + Kept(b, false)
  {
    assert (a + b)[0] == a[0];
    assert (a + b)[1..] == a[1..] + b;
    if a[1..] == [] {
      assert Kept(a, bad) == KeptRow(a[0], bad);
    } else {
      KeptAppend(a[1..], b, false);
    }
  }

  /** A flag left set by an earlier aborted read drops the first record of the next read. */
  lemma StaleFlagDropsFirst(rows: seq<Row>)
    requires rows != [] && rows[0].Record?
    ensures Kept(rows, true) == Kept(rows[1..], false)
    ensures Kept(rows, false) == [rows[0].record] + Kept(rows[1..], false)
  {
  }

  /** What reading a sequence of rows leaves behind: the result and what was added to the error list, the bus and the reader. */
  datatype ReadOutcome = ReadOutcome(
    result: Result<seq<CSRecord>>, errors: seq<LmsError>, messages: seq<(Logging.Level, string)>,
    rest: seq<Row>, flag: bool)

  /** `o` preceded by rows that kept `records`, added `errors` and published `messages` without aborting. */
  function Resume(records: seq<CSRecord>, errors: seq<LmsError>, messages: seq<(Logging.Level, string)>, o: ReadOutcome): ReadOutcome {
    ReadOutcome(if o.result.Ok? then Ok(records + o.result.value) else o.result,
                errors + o.errors, messages + o.messages, o.rest, o.flag)
  }

  lemma ResumeNothing(o: ReadOutcome)
    ensures Resume([], [], [], o) == o
  {
    assert [] + o.errors == o.errors && [] + o.messages == o.messages;
    if o.result.Ok? {
      assert [] + o.result.value == o.result.value;
    }
  }

  lemma ResumeResume(records: seq<CSRecord>, errors: seq<LmsError>, messages: seq<(Logging.Level, string)>,
                     records': seq<CSRecord>, errors': seq<LmsError>, messages': seq<(Logging.Level, string)>, o: ReadOutcome)
    ensures Resume(records, errors, messages, Resume(records', errors', messages', o))
         == Resume(records + records', errors + errors', messages + messages', o)
  {
    assert errors + (errors' + o.errors) == errors + errors' + o.errors;
    assert messages + (messages' + o.messages) == messages + messages' + o.messages;
    if o.result.Ok? {
      assert records + (records' + o.result.value) == records + records' + o.result.value;
    }
  }

  /**
   * The read loop and its exception handler over `rows`, starting with the
   * bad-record flag `bad`, one row at a time: a row that does not abort adds
   * its record, errors and messages and clears the flag; the first aborting
   * row publishes its message and ends the read.
   */
  function ReadAll(rows: seq<Row>, bad: bool): ReadOutcome {
    if rows == [] then ReadOutcome(Ok([]), [], [], [], bad)
    else if Aborts(rows[0]) then
      ReadOutcome(Err("ReadCSFile: " + AbortMessage(rows[0])), [], [(Logging.Level.Error, AbortMessage(rows[0]))],
                  rows[1..], rows[0].ReadingException? || bad)
    else
      Resume(KeptRow(rows[0], bad), RowErrors(rows[0]), RowPublished(rows[0]), ReadAll(rows[1..], false))
  }

  /**
   * The read as a whole: the rows before the first aborting one are handled
   * and the rows after it are left unread; without an aborting row every
   * row is handled and the kept records are the result.
   */
  lemma {:induction false} ReadAllPrefix(rows: seq<Row>, bad: bool)
    ensures var k := FirstAbort(rows); var o := ReadAll(rows, bad);
      && (k == |rows| ==> o == ReadOutcome(Ok(Kept(rows, bad)), Errors(rows), Published(rows), [], rows == [] && bad))
      && (k < |rows| ==> o == ReadOutcome(Err("ReadCSFile: " + AbortMessage(rows[k])), Errors(rows[..k]),
                                          Published(rows[..k]) + [(Logging.Level.Error, AbortMessage(rows[k]))],
                                          rows[k + 1..], rows[k].ReadingException? || (k == 0 && bad)))
  {
    if rows != [] && !Aborts(rows[0]) {
      ReadAllPrefix(rows[1..], false);
      var k := FirstAbort(rows);
      if k < |rows| {
        assert rows[..k][0] == rows[0] && rows[..k][1..] == rows[1..][..k - 1];
        assert rows[1..][k - 1 + 1..] == rows[k + 1..];
      }
    }
  }

  /**
   * The read succeeds iff no row aborts; a successful read from a clear flag
   * accounts for every row, as a kept record or as an error entry.
   */
  lemma ReadAllSucceeds(rows: seq<Row>, bad: bool)
    ensures ReadAll(rows, bad).result.Ok? <==> forall j :: 0 <= j < |rows| ==> !Aborts(rows[j])
    ensures ReadAll(rows, bad).result.Ok? && !bad ==>
      |ReadAll(rows, bad).result.value| + |ReadAll(rows, bad).errors| == |rows|
  {
    ReadAllPrefix(rows, bad);
    if FirstAbort(rows) == |rows| {
      KeptAndErrorsCount(rows);
    }
  }

  class TextFileReader {
    const fileReader: TextReader.LmsTextReader
    /** The rows CsvHelper has still to read. */
    var rows: seq<Row>
    var isRecordBad: bool
    var errorList: seq<LmsError>
    /** The `AddMessage` calls made so far, in order, all at Error severity. */
    var published: seq<(Logging.Level, string)>
    var alreadyDisposed: bool

    /** The line reader is disposed at most once, and only through `Dispose`. */
    ghost predicate Valid()
      reads this, fileReader
    {
      fileReader.Valid() && fileReader.disposeCount <= (if alreadyDisposed then 1 else 0)
    }

    /** `TextFileReader(string)`: a reader on a file. */
    constructor OnFile(lines: seq<string>, rows: seq<Row>)
      ensures Valid() && fresh(fileReader)
      ensures fileReader.source == TextReader.FromFile && fileReader.lines == lines && fileReader.pos == 0
      ensures this.rows == rows && !isRecordBad && errorList == [] && published == [] && !alreadyDisposed
    {
      fileReader := new TextReader.LmsTextReader(TextReader.FromFile, lines);
      this.rows := rows;
      isRecordBad := false;
      errorList := [];
      published := [];
      alreadyDisposed := false;
    }

    /** `TextFileReader(Stream)`: a reader on an in-memory stream. */
    constructor OnStream(lines: seq<string>, rows: seq<Row>)
      ensures Valid() && fresh(fileReader)
      ensures fileReader.source == TextReader.FromStream && fileReader.lines == lines && fileReader.pos == 0
      ensures this.rows == rows && !isRecordBad && errorList == [] && published == [] && !alreadyDisposed
    {
      fileReader := new TextReader.LmsTextReader(TextReader.FromStream, lines);
      this.rows := rows;
      isRecordBad := false;
      errorList := [];
      published := [];
      alreadyDisposed := false;
    }

    /**
     * The `ReadingExceptionOccurred` callback: mark the record bad, then record
     * and publish the inner exception's message and tell CsvHelper not to
     * throw. Without an inner exception it throws a `NullReferenceException`
     * after setting the flag and before recording anything.
     */
    method ReadingExceptionOccurred(inner: Option<string>) returns (r: Result<bool>)
      modifies this
      ensures isRecordBad
      ensures inner.None? ==> r == Err(NullReferenceMessage) && errorList == old(errorList) && published == old(published)
      ensures inner.Some? ==> r == Ok(false)
      ensures inner.Some? ==> errorList == old(errorList) + [LmsError(ErrorType.Error, ExceptionMessage(inner.value))]
      ensures inner.Some? ==> published == old(published) + [(Logging.Level.Error, ExceptionMessage(inner.value))]
      ensures rows == old(rows) && alreadyDisposed == old(alreadyDisposed)
    {
      isRecordBad := true;
      if inner.None? {
        return Err(NullReferenceMessage);
      }
      var msg := ExceptionMessage(inner.value);
      errorList := errorList + [LmsError(ErrorType.Error, msg)];
      published := published + [(Logging.Level.Error, msg)];
      return Ok(false);
    }

    /**
     * `SkipLines`: read `noLines` lines and return them, each followed by a
     * newline. On a disposed line reader the first `ReadLine` throws.
     */
    method SkipLines(noLines: nat) returns (ignoredLines: Result<string>)
      requires fileReader.Valid()
      modifies fileReader
      ensures fileReader.Valid() && fileReader.disposeCount == old(fileReader.disposeCount)
      ensures fileReader.disposeCount > 0 && noLines > 0 ==>
        ignoredLines == Err(TextReader.ClosedReaderMessage) && fileReader.pos == old(fileReader.pos)
      ensures fileReader.disposeCount == 0 || noLines == 0 ==>
        && ignoredLines == Ok(SkippedText(old(fileReader.lines[fileReader.pos..]), noLines))
        && fileReader.pos == old(fileReader.pos) + Min(noLines, old(|fileReader.lines| - fileReader.pos))
    {
      ghost var start := fileReader.pos;
      ghost var rest := fileReader.lines[start..];
      var text := "";
      for i := 0 to noLines
        invariant fileReader.Valid() && fileReader.disposeCount == old(fileReader.disposeCount)
        invariant text == SkippedText(rest, i)
        invariant fileReader.pos == start + Min(i, |rest|)
        invariant fileReader.disposeCount > 0 ==> i == 0
      {
        var line := fileReader.ReadLine();
        if line.Err? {
          return Err(line.message);
        }
        text := text + line.value.GetOr("") + Logging.NewLine;
      }
      return Ok(text);
    }

    /**
     * `ReadCSFile`: skip the preamble, then read every row. Without an
     * aborting row the result is the kept records; the first aborting row
     * publishes its message and ends the read with "ReadCSFile: " and that
     * message, leaving the rows after it unread. After `Dispose` the first
     * read of the closed line reader fails in the same way.
     */
    method ReadCSFile() returns (r: Result<seq<CSRecord>>)
      requires Valid()
      modifies this, fileReader
      ensures Valid() && alreadyDisposed == old(alreadyDisposed)
      ensures fileReader.disposeCount == old(fileReader.disposeCount)
      ensures fileReader.disposeCount > 0 ==>
        && r == Err("ReadCSFile: " + TextReader.ClosedReaderMessage)
        && published == old(published) + [(Logging.Level.Error, TextReader.ClosedReaderMessage)]
        && errorList == old(errorList) && rows == old(rows) && isRecordBad == old(isRecordBad)
        && fileReader.pos == old(fileReader.pos)
      ensures fileReader.disposeCount == 0 && fileReader.source == TextReader.FromFile ==>
        fileReader.pos == old(fileReader.pos) + Min(TextReader.HeaderIndex(fileReader.lines), old(|fileReader.lines| - fileReader.pos))
      ensures fileReader.disposeCount == 0 && fileReader.source == TextReader.FromStream ==>
        fileReader.pos == TextReader.HeaderIndex(old(fileReader.lines[fileReader.pos..]))
      ensures fileReader.disposeCount == 0 ==> var o := ReadAll(old(rows), old(isRecordBad));
        && r == o.result && rows == o.rest && isRecordBad == o.flag
        && errorList == old(errorList) + o.errors && published == old(published) + o.messages
    {
      var skipLines := fileReader.GetSkipLines();
      if skipLines.Err? {
        r := Rethrow(skipLines.message);
        return;
      }
      var skipped := SkipLines(skipLines.value);
      if skipped.Err? {
        r := Rethrow(skipped.message);
        return;
      }
      if fileReader.disposeCount > 0 {
        // With no preamble to skip, the first `csvReader.Read()` reads the closed line reader.
        r := Rethrow(TextReader.ClosedReaderMessage);
        return;
      }
      r := ReadRecords();
    }

    /** The handler of `ReadCSFile`: publish the escaping message, then throw it prefixed with "ReadCSFile: ". */
    method Rethrow(message: string) returns (r: Result<seq<CSRecord>>)
      modifies this
      ensures r == Err("ReadCSFile: " + message)
      ensures published == old(published) + [(Logging.Level.Error, message)]
      ensures errorList == old(errorList) && rows == old(rows) && isRecordBad == old(isRecordBad)
      ensures alreadyDisposed == old(alreadyDisposed)
    {
      published := published + [(Logging.Level.Error, message)];
      r := Err("ReadCSFile: " + message);
    }

    /** The `while (csvReader.Read())` loop of `ReadCSFile` and its exception handler. */
    method ReadRecords() returns (r: Result<seq<CSRecord>>)
      modifies this
      ensures alreadyDisposed == old(alreadyDisposed)
      ensures var o := ReadAll(old(rows), old(isRecordBad));
        && r == o.result && rows == o.rest && isRecordBad == o.flag
        && errorList == old(errorList) + o.errors && published == old(published) + o.messages
    {
      var records: seq<CSRecord> := [];
      ghost var errors: seq<LmsError> := [];
      ghost var messages: seq<(Logging.Level, string)> := [];
      ResumeNothing(ReadAll(rows, isRecordBad));
      while rows != []
        invariant ReadAll(old(rows), old(isRecordBad)) == Resume(records, errors, messages, ReadAll(rows, isRecordBad))
        invariant errorList == old(errorList) + errors && published == old(published) + messages
        invariant alreadyDisposed == old(alreadyDisposed)
        decreases |rows|
      {
        var abort;
        records, errors, messages, abort := ReadNext(ReadAll(old(rows), old(isRecordBad)), old(errorList), old(published), records, errors, messages);
        if abort.Some? {
          return Err("ReadCSFile: " + abort.value);
        }
      }
      assert records + [] == records && errors + [] == errors && messages + [] == messages;
      return Ok(records);
    }

    /**
     * One turn of the read loop: read the next row and carry the loop's
     * account of the read one row further; an exception that escapes the
     * callbacks has its message published, as the handler does, and ends the read.
     */
    method ReadNext(ghost all: ReadOutcome, ghost errors0: seq<LmsError>, ghost published0: seq<(Logging.Level, string)>,
                    records: seq<CSRecord>, ghost errors: seq<LmsError>, ghost messages: seq<(Logging.Level, string)>)
      returns (records': seq<CSRecord>, ghost errors': seq<LmsError>, ghost messages': seq<(Logging.Level, string)>, abort: Option<string>)
      requires rows != []
      requires all == Resume(records, errors, messages, ReadAll(rows, isRecordBad))
      requires errorList == errors0 + errors && published == published0 + messages
      modifies this
      ensures |rows| < old(|rows|) && alreadyDisposed == old(alreadyDisposed)
      ensures abort.None? ==>
        && all == Resume(records', errors', messages', ReadAll(rows, isRecordBad))
        && errorList == errors0 + errors' && published == published0 + messages'
      ensures abort.Some? ==>
        && all.result == Err("ReadCSFile: " + abort.value) && all.rest == rows && all.flag == isRecordBad
        && errorList == errors0 + all.errors && published == published0 + all.messages
    {
      var row := rows[0];
      rows := rows[1..];
      var kept;
      kept, abort := ReadRow(row);
      records', errors', messages' := records + kept, errors + RowErrors(row), messages + RowPublished(row);
      if abort.Some? {
        published := published + [(Logging.Level.Error, abort.value)];
        assert errorList == errors0 + (errors + []);
        assert published == published0 + (messages + [(Logging.Level.Error, abort.value)]);
      } else {
        ResumeResume(records, errors, messages, kept, RowErrors(row), RowPublished(row), ReadAll(rows, isRecordBad));
      }
    }

    /**
     * One `Read` and `GetRecord` round with its callbacks: the record kept, if
     * any, or the message of the exception that escapes them.
     */
    method ReadRow(row: Row) returns (kept: seq<CSRecord>, abort: Option<string>)
      modifies this
      ensures abort.Some? <==> Aborts(row)
      ensures abort.Some? ==> abort.value == AbortMessage(row) && isRecordBad == (row.ReadingException? || old(isRecordBad))
      ensures abort.Some? ==> errorList == old(errorList) && published == old(published)
      ensures abort.None? ==> kept == KeptRow(row, old(isRecordBad)) && !isRecordBad
      ensures abort.None? ==> errorList == old(errorList) + RowErrors(row) && published == old(published) + RowPublished(row)
      ensures rows == old(rows) && alreadyDisposed == old(alreadyDisposed)
    {
      kept, abort := [], None;
      match row {
      case Record(record, badFields) =>
        published := published + BadData(badFields);
        if !isRecordBad {
          kept := [record];
        }
        isRecordBad := false;
      case ReadingException(inner) =>
        var handled := ReadingExceptionOccurred(inner);
        if handled.Err? {
          abort := Some(handled.message);
        } else {
          isRecordBad := false;
        }
      case Thrown(message) =>
        abort := Some(message);
      }
    }

    /** `Dispose()`: dispose the line reader, unless this reader was disposed before. */
    method Dispose()
      requires Valid()
      modifies this, fileReader
      ensures Valid() && alreadyDisposed
      ensures fileReader.disposeCount == old(fileReader.disposeCount) + (if old(alreadyDisposed) then 0 else 1)
      ensures rows == old(rows) && errorList == old(errorList) && published == old(published)
    {
      DisposeCore(true);
    }

    /** The finalizer: marks the reader disposed without touching the line reader. */
    method Finalize()
      requires Valid()
      modifies this
      ensures Valid() && alreadyDisposed
      ensures rows == old(rows) && errorList == old(errorList) && published == old(published)
    {
      DisposeCore(false);
    }

    /** `Dispose(bool)`: only the first call does anything, and only an explicit dispose releases the line reader. */
    method DisposeCore(isDisposing: bool)
      requires Valid()
      modifies this, if isDisposing then {fileReader} else {}
      ensures Valid() && alreadyDisposed
      ensures fileReader.disposeCount == old(fileReader.disposeCount) + (if !old(alreadyDisposed) && isDisposing then 1 else 0)
      ensures rows == old(rows) && errorList == old(errorList) && published == old(published)
    {
      if alreadyDisposed {
        return;
      }
      if isDisposing {
        fileReader.Dispose();
      }
      alreadyDisposed := true;
    }
  }

  function Min(a: int, b: int): int {
    if a <= b then a else b
  }
}
