/**
 * The LMS text readers: a line reader over the lines of a report and the
 * search for the column-header line, which tells how many preamble lines to
 * skip before the tab-separated records start.
 */
module TextReader {
  import opened Wrappers
  import opened Chars

  const UserIdColumn := "User - User ID"
  const AgencyColumn := "Transcript - Agency Sub Element Code"

  /**
   * The header test `^User - User ID\s+Transcript - Agency Sub Element Code.+`:
   * the first column name, at least one white-space character, the second
   * column name, then at least one more character that is not a line feed.
   */
  predicate IsHeader(line: string) {
    HeaderShape(line, UserIdColumn, AgencyColumn)
  }

  /** `^first\s+second.+`, taking the whole white-space run after `first`. */
  predicate HeaderShape(line: string, first: string, second: string) {
    && |line| >= |first|
    && line[..|first|] == first
    && var rest := line[|first|..];
       var n := LeadingSpaces(rest);
       && n >= 1
       && |rest| > n + |second|
       && rest[n..n + |second|] == second
       && rest[n + |second|] != '\n'
  }

  /**
   * A match of `^first\s+second.+` with the white-space run ending at `k` and
   * the `.+` tail ending at `m`, spelled out as the regex reads.
   */
  ghost predicate RegexMatch(line: string, first: string, second: string, k: int, m: int) {
    && |first| < k && k + |second| < m <= |line|
    && line[..|first|] == first
    && (forall i :: |first| <= i < k ==> IsSpace(line[i]))
    && line[k..k + |second|] == second
    && (forall i :: k + |second| <= i < m ==> line[i] != '\n')
  }

  /** The regex engine may choose any split; the greedy one `HeaderShape` takes exists whenever some split does. */
  lemma ShapeMeansMatch(line: string, first: string, second: string)
    requires second != [] && !IsSpace(second[0])
    ensures HeaderShape(line, first, second) <==> exists k, m :: RegexMatch(line, first, second, k, m)
  {
    if HeaderShape(line, first, second) {
      var n := LeadingSpaces(line[|first|..]);
      assert RegexMatch(line, first, second, |first| + n, |first| + n + |second| + 1);
    }
    if k, m :| RegexMatch(line, first, second, k, m) {
      MatchGivesShape(line, first, second, k, m);
    }
  }

  /** Any split of a regex match has the whole white-space run before `second`. */
  lemma MatchGivesShape(line: string, first: string, second: string, k: int, m: int)
    requires second != [] && !IsSpace(second[0])
    requires RegexMatch(line, first, second, k, m)
    ensures HeaderShape(line, first, second)
  {
    var p := |first|;
    var rest := line[p..];
    assert line[k] == second[0];
    assert rest[k - p] == line[k];
    forall i | 0 <= i < k - p ensures IsSpace(rest[i]) {
      assert rest[i] == line[p + i];
    }
    LeadingSpacesExact(rest, k - p);
    var n := LeadingSpaces(rest);
    assert rest[n..n + |second|] == line[k..k + |second|];
    assert rest[n + |second|] == line[k + |second|];
  }

  /** `IsHeader` accepts exactly the lines the header regex matches. */
  lemma IsHeaderMeansMatch(line: string)
    ensures IsHeader(line) <==> exists k, m :: RegexMatch(line, UserIdColumn, AgencyColumn, k, m)
  {
    assert !IsSpace(AgencyColumn[0]);
    ShapeMeansMatch(line, UserIdColumn, AgencyColumn);
  }

  /** The message of the `ObjectDisposedException` a disposed reader throws on a read. */
  const ClosedReaderMessage := "Cannot read from a closed TextReader."

  /** How a reader was opened: on a file path, or on a stream that can be rewound. */
  datatype Source = FromFile | FromStream

  /**
   * A text reader over the lines of a report: `FileTextReader` or
   * `MemoryTextReader`, and also the plain reader `File.OpenText` returns.
   * `pos` is the index of the next line to read.
   */
  class LmsTextReader {
    const source: Source
    const lines: seq<string>
    var pos: nat
    var disposeCount: nat

    ghost predicate Valid()
      reads this
    {
      pos <= |lines|
    }

    constructor (source: Source, lines: seq<string>)
      ensures Valid()
      ensures this.source == source && this.lines == lines && pos == 0 && disposeCount == 0
    {
      this.source := source;
      this.lines := lines;
      pos := 0;
      disposeCount := 0;
    }

    /**
     * `ReadLine`: the next line and advance, or null (`None`) at the end. A
     * disposed reader throws `ObjectDisposedException` instead.
     */
    method ReadLine() returns (line: Result<Option<string>>)
      requires Valid()
      modifies this
      ensures Valid() && disposeCount == old(disposeCount)
      ensures disposeCount > 0 ==> line == Err(ClosedReaderMessage) && pos == old(pos)
      ensures disposeCount == 0 && old(pos) < |lines| ==> line == Ok(Some(lines[old(pos)])) && pos == old(pos) + 1
      ensures disposeCount == 0 && old(pos) == |lines| ==> line == Ok(None) && pos == old(pos)
    {
      if disposeCount > 0 {
        line := Err(ClosedReaderMessage);
      } else if pos < |lines| {
        line := Ok(Some(lines[pos]));
        pos := pos + 1;
      } else {
        line := Ok(None);
      }
    }

    method Dispose()
      modifies this
      ensures disposeCount == old(disposeCount) + 1 && pos == old(pos)
    {
      disposeCount := disposeCount + 1;
    }

    /**
     * The number of preamble lines: a file reader scans a second reader opened
     * on the same file and keeps its own position; a stream reader scans from
     * where it stands and then rewinds to the start, and fails when it has
     * been disposed.
     */
    method GetSkipLines() returns (skipLines: Result<nat>)
      requires Valid()
      modifies this
      ensures Valid() && disposeCount == old(disposeCount)
      ensures source == FromFile ==> skipLines == Ok(HeaderIndex(lines)) && pos == old(pos)
      ensures source == FromStream && disposeCount > 0 ==> skipLines == Err(ClosedReaderMessage) && pos == old(pos)
      ensures source == FromStream && disposeCount == 0 ==> skipLines == Ok(HeaderIndex(old(lines[pos..]))) && pos == 0
    {
      if source == FromFile {
        var fileReader := new LmsTextReader(FromFile, lines);
        skipLines := ScanForHeader(fileReader);
        fileReader.Dispose();
      } else {
        skipLines := ScanForHeader(this);
        if skipLines.Ok? {
          pos := 0;
        }
      }
    }
  }

  /** The index of the first header line in `lines`, or `|lines|` when there is none. */
  function HeaderIndex(lines: seq<string>): (k: nat)
    ensures k <= |lines|
    ensures forall i :: 0 <= i < k ==> !IsHeader(lines[i])
    ensures k < |lines| ==> IsHeader(lines[k])
  {
    if lines == [] || IsHeader(lines[0]) then 0 else 1 + HeaderIndex(lines[1..])
  }

  /**
   * `GetSkipLines(TextReader)`: read lines until the header and count those
   * before it. The reader is left just past the header, or at the end. On a
   * disposed reader the first `ReadLine` throws.
   */
  method ScanForHeader(stream: LmsTextReader) returns (ignoredLines: Result<nat>)
    requires stream.Valid()
    modifies stream
    ensures stream.Valid() && stream.disposeCount == old(stream.disposeCount)
    ensures stream.disposeCount > 0 ==> ignoredLines == Err(ClosedReaderMessage) && stream.pos == old(stream.pos)
    ensures stream.disposeCount == 0 ==> ignoredLines == Ok(HeaderIndex(old(stream.lines[stream.pos..])))
    ensures stream.disposeCount == 0 ==>
      stream.pos == old(stream.pos) + ignoredLines.value + (if ignoredLines.value < old(|stream.lines| - stream.pos) then 1 else 0)
  {
    ghost var start := stream.pos;
    ghost var rest := stream.lines[start..];
    var count := 0;
    var line := stream.ReadLine();
    if line.Err? {
      return Err(line.message);
    }
    while line.value.Some?
      invariant stream.Valid() && stream.disposeCount == old(stream.disposeCount) == 0 && line.Ok?
      invariant count < |rest| ==> stream.pos == start + count + 1 && line.value == Some(rest[count])
      invariant count == |rest| ==> stream.pos == start + count && line.value == None
      invariant count <= |rest|
      invariant forall i :: 0 <= i < count ==> !IsHeader(rest[i])
      decreases |rest| - count
    {
      if IsHeader(line.value.value) {
        break;
      }
      count := count + 1;
      line := stream.ReadLine();
    }
    HeaderIndexIsFirst(rest, count);
    return Ok(count);
  }

  /** The first-header property determines the index. */
  lemma HeaderIndexIsFirst(lines: seq<string>, k: nat)
    requires k <= |lines|
    requires forall i :: 0 <= i < k ==> !IsHeader(lines[i])
    requires k < |lines| ==> IsHeader(lines[k])
    ensures HeaderIndex(lines) == k
  {
  }
}
