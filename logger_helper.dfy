/**
 * `LoggerHelper`: the conditional-logging helpers. Each call publishes a
 * few messages through `AddMessage(priority, msg)` and may throw; both are
 * returned as an `Outcome` value.
 */
module LoggerHelper {
  import opened Wrappers
  import Logging

  /** The `AddMessage(priority, msg)` calls a helper makes, in order, and the exception it throws after them, if any. */
  datatype Outcome = Outcome(emitted: seq<(Logging.Level, string)>, thrown: Option<string>)

  /** `LogErrors`: two Error messages, title then detail, then throw the title when asked to. */
  function LogErrors(msg: string, errDetail: string, needThrow: bool): (r: Outcome)
    ensures |r.emitted| == 2
    ensures r.emitted[0] == (Logging.Level.Error, msg) && r.emitted[1] == (Logging.Level.Error, errDetail)
    ensures r.thrown.Some? <==> needThrow
    ensures r.thrown.Some? ==> r.thrown.value == msg
  {
    Outcome([(Logging.Level.Error, msg), (Logging.Level.Error, errDetail)], if needThrow then Some(msg) else None)
  }

  /** `LogMessage`: the error path through `LogErrors`, or one Info message with the good title. */
  function LogMessage(isError: bool, errTitle: string, errDetail: string, goodTitle: string, needThrow: bool): (r: Outcome)
    ensures !isError ==> r.emitted == [(Logging.Level.Info, goodTitle)] && r.thrown == None
    ensures isError ==> r == LogErrors(errTitle, errDetail, needThrow)
    ensures isError ==> forall i :: 0 <= i < |r.emitted| ==> r.emitted[i].0 == Logging.Level.Error
    ensures r.thrown.Some? <==> isError && needThrow
  {
    if isError then LogErrors(errTitle, errDetail, needThrow)
    else Outcome([(Logging.Level.Info, goodTitle)], None)
  }

  /** Whatever a helper throws has already been published at Error severity. */
  lemma ThrownIsLoggedFirst(isError: bool, errTitle: string, errDetail: string, goodTitle: string, needThrow: bool)
    ensures var r := LogMessage(isError, errTitle, errDetail, goodTitle, needThrow);
      r.thrown.Some? ==> r.emitted[0] == (Logging.Level.Error, r.thrown.value)
  {
  }

  /** The text `ListToString` builds: every element followed by a newline. */
  function JoinLines(items: seq<string>): string {
    if items == [] then ""
    else JoinLines(items[..|items| - 1]) + items[|items| - 1] + Logging.NewLine
  }

  /** Joining consecutive lists is concatenation, so every element keeps its own newline. */
  lemma {:induction false} JoinLinesAppend(a: seq<string>, b: seq<string>)
    ensures JoinLines(a + b) == JoinLines(a) + JoinLines(b)
  {
    if b == [] {
      assert a + b == a;
    } else {
      assert (a + b)[..|a + b| - 1] == a + b[..|b| - 1];
      JoinLinesAppend(a, b[..|b| - 1]);
    }
  }

  /** The length of the joined text: every element and one newline per element. */
  lemma {:induction false} JoinLinesLength(items: seq<string>)
    ensures |JoinLines(items)| == |items| * |Logging.NewLine| + SumLengths(items)
  {
    if items != [] {
      JoinLinesLength(items[..|items| - 1]);
    }
  }

  function SumLengths(items: seq<string>): nat {
    if items == [] then 0 else SumLengths(items[..|items| - 1]) + |items[|items| - 1]|
  }

  /** `ListToString`: append each element and a newline to a builder. */
  method ListToString(list: seq<string>) returns (output: string)
    ensures output == JoinLines(list)
    ensures list == [] <==> output == ""
  {
    output := "";
    var i := 0;
    while i < |list|
      invariant 0 <= i <= |list|
      invariant output == JoinLines(list[..i])
    {
      assert list[..i + 1][..i] == list[..i];
      output := output + list[i] + Logging.NewLine;
      i := i + 1;
    }
    assert list[..i] == list;
    if list != [] {
      JoinLinesLength(list);
    }
  }

  /**
   * The closed form of what the string logger accumulates: for deliveries
   * made to it, the rendered messages `label + " " + message`, each followed
   * by a newline, in delivery order.
   */
  lemma {:induction false} StringLoggerText(trace: seq<Logging.Delivery>, id: Logging.HandlerId)
    requires forall i :: 0 <= i < |trace| ==> trace[i].handler == id
    ensures Logging.Transcript(trace, id) ==
      JoinLines(seq(|trace|, i requires 0 <= i < |trace| =>
        Logging.ToLogString(trace[i].args.priority) + " " + trace[i].args.message))
  {
    if trace != [] {
      var front := trace[..|trace| - 1];
      StringLoggerText(front, id);
      var rendered := seq(|trace|, i requires 0 <= i < |trace| =>
        Logging.ToLogString(trace[i].args.priority) + " " + trace[i].args.message);
      assert rendered[..|rendered| - 1] == seq(|front|, i requires 0 <= i < |front| =>
        Logging.ToLogString(front[i].args.priority) + " " + front[i].args.message);
      var line := rendered[|rendered| - 1];
      assert Logging.Transcript(trace, id) == Logging.Transcript(front, id) + (line + Logging.NewLine);
      assert JoinLines(rendered) == JoinLines(rendered[..|rendered| - 1]) + line + Logging.NewLine;
    }
  }

  /**
   * The string logger's text for any trace, such as one a broadcast returns:
   * the deliveries addressed to the logger, rendered and joined in order.
   */
  lemma StringLoggerTranscript(trace: seq<Logging.Delivery>, id: Logging.HandlerId)
    ensures var own := Logging.AddressedTo(trace, id);
      Logging.Transcript(trace, id) ==
      JoinLines(seq(|own|, i requires 0 <= i < |own| =>
        Logging.ToLogString(own[i].args.priority) + " " + own[i].args.message))
  {
    Logging.TranscriptAddressedTo(trace, id);
    StringLoggerText(Logging.AddressedTo(trace, id), id);
  }

  /**
   * `LogMessagesIfAnyError`: the error path iff the list has an element, with
   * the joined list as the detail. Elements are given by their `ToString` text.
   */
  method LogMessagesIfAnyError(errList: seq<string>, errMsg: string, goodMsg: string, needThrow: bool) returns (r: Outcome)
    ensures errList == [] ==> r.emitted == [(Logging.Level.Info, goodMsg)] && r.thrown == None
    ensures errList != [] ==> r.emitted == [(Logging.Level.Error, errMsg), (Logging.Level.Error, JoinLines(errList))]
    ensures r.thrown.Some? <==> errList != [] && needThrow
    ensures r.thrown.Some? ==> r.thrown.value == errMsg
  {
    var detail := ListToString(errList);
    r := LogMessage(|errList| > 0, errMsg, detail, goodMsg, needThrow);
  }

  /** `LogMessagesIfNoneError`: the error path iff the list is empty, with an empty detail. */
  function LogMessagesIfNoneError<T>(recList: seq<T>, errMsg: string, goodMsg: string, needThrow: bool): (r: Outcome)
    ensures recList != [] ==> r.emitted == [(Logging.Level.Info, goodMsg)] && r.thrown == None
    ensures recList == [] ==> r.emitted == [(Logging.Level.Error, errMsg), (Logging.Level.Error, "")]
    ensures r.thrown.Some? <==> recList == [] && needThrow
  {
    LogMessage(!(|recList| > 0), errMsg, "", goodMsg, needThrow)
  }

  /** `LogMessagesIfNullError`: the error path iff the item is null (`None`). */
  function LogMessagesIfNullError<T>(item: Option<T>, errMsg: string, goodMsg: string, needThrow: bool): (r: Outcome)
    ensures item.Some? ==> r.emitted == [(Logging.Level.Info, goodMsg)] && r.thrown == None
    ensures item.None? ==> r.emitted == [(Logging.Level.Error, errMsg), (Logging.Level.Error, "")]
    ensures r.thrown.Some? <==> item.None? && needThrow
  {
    LogMessage(item == None, errMsg, "", goodMsg, needThrow)
  }
}
