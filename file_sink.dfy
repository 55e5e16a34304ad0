/**
 * The file sink (`FileLoggerBase` and `FileLogger`): a writer on one log
 * file, the owner bit of the process-wide log-file mutex, and the three
 * handlers the sink subscribes to the File environment.
 *
 * A file is its list of lines. Whether the file exists, whether the mutex
 * wait succeeded and the rendered time stamp are inputs.
 */
module FileSink {
  import opened Wrappers
  import opened Logging

  /** A `StreamWriter`: the file it writes, that file's lines, and whether it is still open. */
  datatype Writer = Writer(path: string, lines: seq<string>, open: bool)

  /** The message of the exception thrown when the mutex wait times out. */
  const WaitTimeoutMessage: string := "Wait for file over 10 minutes"

  predicate IsKnownFormat(format: string) {
    format == NoneFormat || format == GeneralFormat
    || format == TimeFormat || format == DateFormat || format == DateTimeFormat
  }

  /**
   * `LogFileMessageFormat`: the line written for one event, if its format is
   * one of the five known ones. `timestamp` is the current time already
   * rendered with the format's date/time pattern.
   */
  function FormatLine(format: string, level: Level, msg: string, timestamp: string): (r: Option<string>)
    ensures r.Some? <==> IsKnownFormat(format)
    ensures format == NoneFormat ==> r == Some(msg)
    ensures format == GeneralFormat ==> r == Some(ToLogString(level) + " " + msg)
    ensures format == TimeFormat || format == DateFormat || format == DateTimeFormat ==>
      r == Some(timestamp + " " + ToLogString(level) + " " + msg)
  {
    if format == NoneFormat then Some(msg)
    else if format == GeneralFormat then Some(ToLogString(level) + " " + msg)
    else if format == TimeFormat || format == DateFormat || format == DateTimeFormat then
      Some(timestamp + " " + ToLogString(level) + " " + msg)
    else Option.None
  }

  /** Every written line ends with the message, and every labelled line carries the level's label right before it. */
  lemma FormatLineEndsWithMessage(format: string, level: Level, msg: string, timestamp: string)
    requires IsKnownFormat(format)
    ensures var line := FormatLine(format, level, msg, timestamp).value;
      && |line| >= |msg| && line[|line| - |msg|..] == msg
      && (format != NoneFormat ==>
            var tail := ToLogString(level) + " " + msg;
            |line| >= |tail| && line[|line| - |tail|..] == tail)
  {
    if format != NoneFormat {
      LabelledLine(format, level, msg, timestamp);
      var line := FormatLine(format, level, msg, timestamp).value;
      var tail := ToLogString(level) + " " + msg;
      assert line == LinePrefix(format, timestamp) + tail;
      assert line[|line| - |tail|..] == tail;
      assert line[|line| - |msg|..] == tail[|tail| - |msg|..] == msg;
    }
  }

  /**
   * A written line can be read back: with the format and the time stamp
   * known, it determines the message, and in every labelled format also the
   * level, since the labels start with distinct characters and the empty
   * label of `None` leaves a space in their place.
   */
  lemma FormatLineDecodes(format: string, a: Level, b: Level, m1: string, m2: string, timestamp: string)
    requires IsKnownFormat(format)
    requires FormatLine(format, a, m1, timestamp) == FormatLine(format, b, m2, timestamp)
    ensures m1 == m2
    ensures format != NoneFormat ==> a == b
  {
    if format != NoneFormat {
      LabelledLine(format, a, m1, timestamp);
      LabelledLine(format, b, m2, timestamp);
      LabelledLineDecodes(LinePrefix(format, timestamp), a, b, m1, m2);
    }
  }

  /** What a labelled format writes before the label: nothing, or the time stamp and a space. */
  function LinePrefix(format: string, timestamp: string): string {
    if format == GeneralFormat then "" else timestamp + " "
  }

  lemma LabelledLine(format: string, level: Level, msg: string, timestamp: string)
    requires IsKnownFormat(format) && format != NoneFormat
    ensures FormatLine(format, level, msg, timestamp) == Some(LinePrefix(format, timestamp) + ToLogString(level) + " " + msg)
  {
    if format == GeneralFormat {
      assert "" + ToLogString(level) == ToLogString(level);
    }
  }

  /** After a known prefix, a label, a space and a message determine the level and the message. */
  lemma LabelledLineDecodes(p: string, a: Level, b: Level, m1: string, m2: string)
    requires p + ToLogString(a) + " " + m1 == p + ToLogString(b) + " " + m2
    ensures a == b && m1 == m2
  {
    var l1 := p + ToLogString(a) + " " + m1;
    var l2 := p + ToLogString(b) + " " + m2;
    assert l1[|p|] == LabelHead(a) && l2[|p|] == LabelHead(b);
    LabelHeadInjective(a, b);
    var q := p + ToLogString(a) + " ";
    assert l1[|q|..] == m1 && l2[|q|..] == m2;
  }

  /** The first character of a label followed by a space. */
  function LabelHead(l: Level): (c: char)
    ensures c == (ToLogString(l) + " ")[0]
  {
    if l == Level.None then ' ' else LevelName(l)[0]
  }

  lemma LabelHeadInjective(a: Level, b: Level)
    requires LabelHead(a) == LabelHead(b)
    ensures a == b
  {
  }

  /** The lines one event adds to the file: one line for a known format, none otherwise. */
  function LineOf(args: LoggerEvent, timestamp: string): (r: seq<string>)
    ensures |r| == if IsKnownFormat(args.messageFormat) then 1 else 0
  {
    match FormatLine(args.messageFormat, args.priority, args.message, timestamp)
    case Some(line) => [line]
    case None => []
  }

  /** Handler `h` occurs in no delegate of `t`, except, when `onFile` holds, in that of File. */
  ghost predicate Confined(t: Table, h: HandlerId, onFile: bool) {
    forall e :: h in t.Of(e) ==> onFile && e == File
  }

  /** A closure not yet subscribed anywhere on the bus. */
  ghost predicate Unsubscribed(bus: Bus, h: HandlerId)
    reads bus
  {
    Confined(bus.logHandlers, h, false) && Confined(bus.startHandlers, h, false) && Confined(bus.stopHandlers, h, false)
  }

  /** Subscribing `h` under File confines `h` to File and leaves every other handler where it was. */
  lemma AddConfined(t: Table, h: HandlerId, x: HandlerId, onFile: bool)
    requires t.Valid() && Confined(t, x, onFile)
    ensures x != h ==> Confined(t.Add(File, h), x, onFile)
    ensures x == h ==> Confined(t.Add(File, h), x, true)
    ensures multiset(t.Add(File, h).Of(File))[x] == multiset(t.Of(File))[x] + (if x == h then 1 else 0)
  {
  }

  /** Subscribing `h` under File, with `h`, `x` and `y` subscribed nowhere before: `h` sits once under File, `x` and `y` still nowhere. */
  lemma SubscribeOne(t: Table, h: HandlerId, x: HandlerId, y: HandlerId)
    requires t.Valid() && h != x && h != y
    requires Confined(t, h, false) && Confined(t, x, false) && Confined(t, y, false)
    ensures Confined(t.Add(File, h), h, true) && Confined(t.Add(File, h), x, false) && Confined(t.Add(File, h), y, false)
    ensures multiset(t.Add(File, h).Of(File))[h] == 1
  {
    AddConfined(t, h, h, false);
    AddConfined(t, h, x, false);
    AddConfined(t, h, y, false);
  }

  /** The subscriptions of `InitBase`: the message, start and stop handlers, each under File in its own table. */
  method Subscribe(bus: Bus, messageId: HandlerId, startId: HandlerId, stopId: HandlerId)
    requires bus.Valid()
    requires messageId != startId && startId != stopId && messageId != stopId
    requires Unsubscribed(bus, messageId) && Unsubscribed(bus, startId) && Unsubscribed(bus, stopId)
    modifies bus
    ensures bus.Valid()
    ensures bus.logHandlers == old(bus.logHandlers).Add(File, messageId)
    ensures bus.startHandlers == old(bus.startHandlers).Add(File, startId)
    ensures bus.stopHandlers == old(bus.stopHandlers).Add(File, stopId)
    ensures bus.loggerType == old(bus.loggerType) && bus.messageFormat == old(bus.messageFormat)
    ensures Confined(bus.logHandlers, messageId, true) && Confined(bus.startHandlers, messageId, false) && Confined(bus.stopHandlers, messageId, false)
    ensures Confined(bus.startHandlers, startId, true) && Confined(bus.logHandlers, startId, false) && Confined(bus.stopHandlers, startId, false)
    ensures Confined(bus.stopHandlers, stopId, true) && Confined(bus.logHandlers, stopId, false) && Confined(bus.startHandlers, stopId, false)
    ensures multiset(bus.stopHandlers.Of(File))[stopId] == 1
  {
    ghost var log0, start0, stop0 := bus.logHandlers, bus.startHandlers, bus.stopHandlers;
    bus.AddLogger(File, messageId);
    bus.AddStart(File, startId);
    bus.AddStop(File, stopId);
    SubscribeOne(log0, messageId, startId, stopId);
    SubscribeOne(start0, startId, messageId, stopId);
    SubscribeOne(stop0, stopId, messageId, startId);
  }

  /** A snapshot of a sink and its bus: the writer, the mutex bookkeeping and the three tables. */
  datatype SinkState = SinkState(
    writer: Writer, releases: nat, ownsMutex: bool, fileSource: string, retired: seq<Writer>,
    log: Table, start: Table, stop: Table, loggerType: LogType, messageFormat: string)

  class FileLogger {
    const bus: Bus
    /** The three closures `InitBase` subscribes: message, start and stop. */
    const messageId: HandlerId
    const startId: HandlerId
    const stopId: HandlerId

    var fileSource: string
    var writer: Option<Writer>
    /** Writers disposed by reassigning `FileSource`, oldest first. */
    var retired: seq<Writer>
    /** Owner bit of the shared log-file mutex, and how often this sink released it. */
    var ownsMutex: bool
    var releases: nat

    /**
     * The sink's handlers sit only in their own table, under File; while any
     * is subscribed the sink owns the mutex; the stop handler is subscribed at
     * most once; and the mutex is released at most once.
     */
    ghost predicate Valid()
      reads this, bus
    {
      && bus.Valid()
      && messageId != startId && startId != stopId && messageId != stopId
      && Confined(bus.logHandlers, messageId, true)
      && Confined(bus.startHandlers, messageId, false) && Confined(bus.stopHandlers, messageId, false)
      && Confined(bus.startHandlers, startId, true)
      && Confined(bus.logHandlers, startId, false) && Confined(bus.stopHandlers, startId, false)
      && Confined(bus.stopHandlers, stopId, true)
      && Confined(bus.logHandlers, stopId, false) && Confined(bus.startHandlers, stopId, false)
      && multiset(bus.stopHandlers.Of(File))[stopId] <= (if ownsMutex then 1 else 0)
      && (messageId in bus.logHandlers.Of(File) || startId in bus.startHandlers.Of(File) ==> ownsMutex)
      && writer.Some?
      && (ownsMutex ==> writer.value.open)
      && releases + (if ownsMutex then 1 else 0) == 1
    }

    /**
     * `InitBase`, entered once the mutex wait has succeeded: open the file,
     * then subscribe one handler to each of the three File tables.
     */
    constructor (bus: Bus, logFile: string, existing: Option<seq<string>>,
                 messageId: HandlerId, startId: HandlerId, stopId: HandlerId)
      requires bus.Valid()
      requires messageId != startId && startId != stopId && messageId != stopId
      requires Unsubscribed(bus, messageId) && Unsubscribed(bus, startId) && Unsubscribed(bus, stopId)
      modifies bus
      ensures Valid()
      ensures this.bus == bus && this.messageId == messageId && this.startId == startId && this.stopId == stopId
      ensures fileSource == logFile && writer == Some(Writer(logFile, existing.GetOr([]), true)) && retired == []
      ensures ownsMutex && releases == 0
      ensures bus.logHandlers == old(bus.logHandlers).Add(File, messageId)
      ensures bus.startHandlers == old(bus.startHandlers).Add(File, startId)
      ensures bus.stopHandlers == old(bus.stopHandlers).Add(File, stopId)
      ensures bus.loggerType == old(bus.loggerType) && bus.messageFormat == old(bus.messageFormat)
    {
      this.bus := bus;
      this.messageId, this.startId, this.stopId := messageId, startId, stopId;
      fileSource, writer, retired := "", Option.None, [];
      ownsMutex, releases := true, 0;
      new;
      SetFileSource(logFile, existing);
      Subscribe(bus, messageId, startId, stopId);
    }

    /**
     * `FileLogger(logFile)`: wait for the log-file mutex; on a timeout throw
     * before anything is opened or subscribed.
     */
    static method Create(bus: Bus, logFile: string, existing: Option<seq<string>>, waitSucceeded: bool,
                         messageId: HandlerId, startId: HandlerId, stopId: HandlerId)
      returns (r: Result<FileLogger>)
      requires bus.Valid()
      requires messageId != startId && startId != stopId && messageId != stopId
      requires Unsubscribed(bus, messageId) && Unsubscribed(bus, startId) && Unsubscribed(bus, stopId)
      modifies bus
      ensures !waitSucceeded ==> r == Err(WaitTimeoutMessage) && unchanged(bus)
      ensures waitSucceeded ==> r.Ok? && fresh(r.value) && r.value.bus == bus && r.value.Valid()
      ensures waitSucceeded ==> r.value.ownsMutex && r.value.writer == Some(Writer(logFile, existing.GetOr([]), true))
      ensures waitSucceeded ==>
        && bus.logHandlers == old(bus.logHandlers).Add(File, messageId)
        && bus.startHandlers == old(bus.startHandlers).Add(File, startId)
        && bus.stopHandlers == old(bus.stopHandlers).Add(File, stopId)
    {
      if !waitSucceeded {
        return Err(WaitTimeoutMessage);
      }
      var fl := new FileLogger(bus, logFile, existing, messageId, startId, stopId);
      r := Ok(fl);
    }

    /**
     * The `FileSource` setter: dispose the previous writer, then open the file
     * in append mode when it exists (`existing` holds its lines), else create it empty.
     */
    method SetFileSource(path: string, existing: Option<seq<string>>)
      modifies this
      ensures fileSource == path && writer == Some(Writer(path, existing.GetOr([]), true))
      ensures retired == old(retired) + (if old(writer).Some? then [old(writer).value.(open := false)] else [])
      ensures ownsMutex == old(ownsMutex) && releases == old(releases)
      ensures old(Valid()) ==> Valid()
    {
      if writer.Some? {
        retired := retired + [writer.value.(open := false)];
      }
      fileSource := path;
      match existing {
        case Some(lines) => writer := Some(Writer(path, lines, true));
        case None => writer := Some(Writer(path, [], true));
      }
    }

    /** The message and start handlers: write the event's line to the open writer. */
    method WriteEvent(args: LoggerEvent, timestamp: string)
      requires writer.Some? && writer.value.open
      modifies this
      ensures writer == Some(old(writer.value).(lines := old(writer.value.lines) + LineOf(args, timestamp)))
      ensures fileSource == old(fileSource) && retired == old(retired)
      ensures ownsMutex == old(ownsMutex) && releases == old(releases)
    {
      var w := writer.value;
      writer := Some(w.(lines := w.lines + LineOf(args, timestamp)));
    }

    /**
     * The stop handler: write the final line, unsubscribe every File handler,
     * close the writer, release the mutex.
     */
    method OnStop(args: LoggerEvent, timestamp: string)
      requires Valid() && ownsMutex
      modifies this, bus
      ensures Valid()
      ensures writer == Some(old(writer.value).(lines := old(writer.value.lines) + LineOf(args, timestamp), open := false))
      ensures !ownsMutex && releases == old(releases) + 1
      ensures fileSource == old(fileSource) && retired == old(retired)
      ensures bus.logHandlers.Of(File) == [] && bus.startHandlers.Of(File) == [] && bus.stopHandlers.Of(File) == []
      ensures forall e :: e != File ==>
        && bus.logHandlers.Of(e) == old(bus.logHandlers.Of(e))
        && bus.startHandlers.Of(e) == old(bus.startHandlers.Of(e))
        && bus.stopHandlers.Of(e) == old(bus.stopHandlers.Of(e))
      ensures bus.loggerType == old(bus.loggerType) && bus.messageFormat == old(bus.messageFormat)
    {
      WriteEvent(args, timestamp);
      bus.RemoveLoggerAll(File);
      writer := Some(writer.value.(open := false));
      ownsMutex := false;
      releases := releases + 1;
    }

    /** The lines this sink's handlers write for a trace, in order. */
    function OwnLines(trace: seq<Delivery>, timestamp: string): seq<string> {
      if trace == [] then [] else OwnLine(trace[0], timestamp) + OwnLines(trace[1..], timestamp)
    }

    /** The lines one delivery adds to the file: its line if it goes to one of this sink's handlers. */
    function OwnLine(d: Delivery, timestamp: string): seq<string> {
      if d.handler in {messageId, startId, stopId} then LineOf(d.args, timestamp) else []
    }

    /**
     * A trace this sink can run: it calls the stop handler at most as often
     * as the sink still owns the mutex, and the message and start handlers
     * only while it does, before any stop call.
     */
    ghost predicate Admissible(trace: seq<Delivery>)
      reads this
    {
      AdmissibleWith(trace, ownsMutex)
    }

    /** `Admissible` for a sink whose owner bit is `owns`. */
    ghost predicate AdmissibleWith(trace: seq<Delivery>, owns: bool) {
      && Occurrences(trace, stopId) <= (if owns then 1 else 0)
      && forall j :: 0 <= j < |trace| && (trace[j].handler == messageId || trace[j].handler == startId) ==>
           owns && Occurrences(trace[..j], stopId) == 0
    }

    /** Run this sink's handlers for the deliveries of a trace addressed to them. */
    method Run(trace: seq<Delivery>, timestamp: string)
      requires Valid() && Admissible(trace)
      modifies this, bus
      ensures Valid()
      ensures writer.value.path == old(writer.value.path)
      ensures writer.value.lines == old(writer.value.lines) + OwnLines(trace, timestamp)
      ensures writer.value.open == (old(writer.value.open) && Occurrences(trace, stopId) == 0)
      ensures releases == old(releases) + Occurrences(trace, stopId)
      ensures ownsMutex == (old(ownsMutex) && Occurrences(trace, stopId) == 0)
      ensures fileSource == old(fileSource) && retired == old(retired)
      ensures Occurrences(trace, stopId) == 0 ==>
        bus.logHandlers == old(bus.logHandlers) && bus.startHandlers == old(bus.startHandlers)
        && bus.stopHandlers == old(bus.stopHandlers)
      ensures Occurrences(trace, stopId) > 0 ==>
        bus.logHandlers.Of(File) == [] && bus.startHandlers.Of(File) == [] && bus.stopHandlers.Of(File) == []
      ensures forall e :: e != File ==>
        && bus.logHandlers.Of(e) == old(bus.logHandlers.Of(e))
        && bus.startHandlers.Of(e) == old(bus.startHandlers.Of(e))
        && bus.stopHandlers.Of(e) == old(bus.stopHandlers.Of(e))
      ensures bus.loggerType == old(bus.loggerType) && bus.messageFormat == old(bus.messageFormat)
    {
      ghost var s0 := SinkState(writer.value, releases, ownsMutex, fileSource, retired,
                                bus.logHandlers, bus.startHandlers, bus.stopHandlers, bus.loggerType, bus.messageFormat);
      assert writer.value.lines + [] == writer.value.lines;
      var i := 0;
      while i < |trace|
        invariant 0 <= i <= |trace|
        invariant Valid() && Admissible(trace[i..]) && RanFrom(s0, trace[..i], timestamp)
      {
        assert trace[i..] == [trace[i]] + trace[i + 1..];
        RunStep(s0, trace[..i], trace[i], trace[i + 1..], timestamp);
        assert trace[..i + 1] == trace[..i] + [trace[i]];
        i := i + 1;
      }
      assert trace[..i] == trace;
    }

    /** What `Run` promises after running `done` from the state `s0`. */
    ghost predicate RanFrom(s0: SinkState, done: seq<Delivery>, timestamp: string)
      reads this, bus
    {
      var stopped := Occurrences(done, stopId) > 0;
      && writer.Some? && writer.value.path == s0.writer.path
      && writer.value.lines == s0.writer.lines + OwnLines(done, timestamp)
      && writer.value.open == (s0.writer.open && !stopped)
      && releases == s0.releases + Occurrences(done, stopId)
      && ownsMutex == (s0.ownsMutex && !stopped)
      && fileSource == s0.fileSource && retired == s0.retired
      && (!stopped ==> bus.logHandlers == s0.log && bus.startHandlers == s0.start && bus.stopHandlers == s0.stop)
      && (stopped ==> bus.logHandlers.Of(File) == [] && bus.startHandlers.Of(File) == [] && bus.stopHandlers.Of(File) == [])
      && (forall e :: e != File ==>
            && bus.logHandlers.Of(e) == s0.log.Of(e) && bus.startHandlers.Of(e) == s0.start.Of(e)
            && bus.stopHandlers.Of(e) == s0.stop.Of(e))
      && bus.loggerType == s0.loggerType && bus.messageFormat == s0.messageFormat
    }

    /** One turn of `Run`: deliver the next event and carry `RanFrom` one delivery further. */
    method RunStep(ghost s0: SinkState, ghost done: seq<Delivery>, d: Delivery, ghost rest: seq<Delivery>, timestamp: string)
      requires Valid() && Admissible([d] + rest) && RanFrom(s0, done, timestamp)
      modifies this, bus
      ensures Valid() && Admissible(rest) && RanFrom(s0, done + [d], timestamp)
    {
      AdmissibleStep([d] + rest, ownsMutex);
      assert ([d] + rest)[1..] == rest;
      OwnLinesSnoc(done, d, timestamp);
      OccurrencesAppend(done, [d], stopId);
      Deliver(d, timestamp);
    }

    /** One invocation of one of this sink's handlers, or of another closure, which leaves the sink alone. */
    method Deliver(d: Delivery, timestamp: string)
      requires Valid()
      requires d.handler == stopId || d.handler == messageId || d.handler == startId ==> ownsMutex
      modifies this, bus
      ensures Valid()
      ensures writer.value.path == old(writer.value.path)
      ensures writer.value.lines == old(writer.value.lines) + OwnLine(d, timestamp)
      ensures writer.value.open == (old(writer.value.open) && d.handler != stopId)
      ensures releases == old(releases) + (if d.handler == stopId then 1 else 0)
      ensures ownsMutex == (old(ownsMutex) && d.handler != stopId)
      ensures fileSource == old(fileSource) && retired == old(retired)
      ensures d.handler != stopId ==>
        bus.logHandlers == old(bus.logHandlers) && bus.startHandlers == old(bus.startHandlers)
        && bus.stopHandlers == old(bus.stopHandlers)
      ensures d.handler == stopId ==>
        bus.logHandlers.Of(File) == [] && bus.startHandlers.Of(File) == [] && bus.stopHandlers.Of(File) == []
      ensures forall e :: e != File ==>
        && bus.logHandlers.Of(e) == old(bus.logHandlers.Of(e))
        && bus.startHandlers.Of(e) == old(bus.startHandlers.Of(e))
        && bus.stopHandlers.Of(e) == old(bus.stopHandlers.Of(e))
      ensures bus.loggerType == old(bus.loggerType) && bus.messageFormat == old(bus.messageFormat)
    {
      if d.handler == stopId {
        OnStop(d.args, timestamp);
      } else if d.handler == messageId || d.handler == startId {
        WriteEvent(d.args, timestamp);
      }
    }

    lemma AdmissibleStep(trace: seq<Delivery>, owns: bool)
      requires AdmissibleWith(trace, owns) && trace != []
      ensures trace[0].handler == stopId || trace[0].handler == messageId || trace[0].handler == startId ==> owns
      ensures AdmissibleWith(trace[1..], owns && trace[0].handler != stopId)
    {
      var t := trace[1..];
      forall j | 0 <= j < |t| && (t[j].handler == messageId || t[j].handler == startId)
        ensures owns && trace[0].handler != stopId && Occurrences(t[..j], stopId) == 0
      {
        assert trace[j + 1] == t[j];
        assert trace[..j + 1][1..] == t[..j];
      }
    }

    lemma OwnLinesSnoc(trace: seq<Delivery>, d: Delivery, timestamp: string)
      ensures OwnLines(trace + [d], timestamp) == OwnLines(trace, timestamp) + OwnLine(d, timestamp)
    {
      if trace == [] {
        assert [d][1..] == [];
      } else {
        assert (trace + [d])[1..] == trace[1..] + [d];
        OwnLinesSnoc(trace[1..], d, timestamp);
      }
    }
  }

  /** Facts about the deliveries of a broadcast over a valid table. */
  lemma BroadcastOfTable(t: Table, args: LoggerEvent, h: HandlerId, onFile: bool)
    requires t.Valid() && Confined(t, h, onFile)
    ensures forall d :: d in Broadcast(t.order, t.handlers, args) ==> d.handler in t.Of(d.sender)
    ensures Occurrences(Broadcast(t.order, t.handlers, args), h) == multiset(t.Of(File))[h]
  {
    forall d | d in Broadcast(t.order, t.handlers, args) ensures d.handler in t.Of(d.sender) {
      BroadcastDelivers(t.order, t.handlers, args, d);
    }
    forall i | 0 <= i < |t.order| && t.order[i] != File ensures h !in t.handlers[t.order[i]] {
      assert t.Of(t.order[i]) == t.handlers[t.order[i]];
    }
    OccurrencesBroadcast(t.order, t.handlers, args, File, h);
    if File !in t.order {
      assert t.Of(File) == [];
    }
  }

  /** A prefix of a broadcast over a valid table: the deliveries `Start` makes before a failure. */
  lemma BroadcastPrefix(t: Table, k: nat, args: LoggerEvent, d: Delivery)
    requires t.Valid() && k <= |t.order|
    requires d in Broadcast(t.order[..k], t.handlers, args)
    ensures d.handler in t.Of(d.sender)
  {
    BroadcastDelivers(t.order[..k], t.handlers, args, d);
  }

  /**
   * `LoggingManager.Stop` while the sink may be subscribed: the deliveries
   * are those of the stop table as it was when `Stop` was called, even though
   * the sink's stop handler unsubscribes every File handler during the
   * broadcast; the mutex is released once if the sink was subscribed and not
   * at all otherwise.
   */
  method StopBroadcast(fl: FileLogger, priority: Level, msg: string, timestamp: string) returns (trace: seq<Delivery>)
    requires fl.Valid()
    modifies fl, fl.bus
    ensures fl.Valid()
    ensures trace == Broadcast(old(fl.bus.stopHandlers.order), old(fl.bus.stopHandlers.handlers),
                               LoggerEvent(priority, msg, old(fl.bus.messageFormat)))
    ensures fl.releases == old(fl.releases) + (if fl.stopId in old(fl.bus.stopHandlers.Of(File)) then 1 else 0)
    ensures fl.stopId in old(fl.bus.stopHandlers.Of(File)) ==>
      fl.bus.stopHandlers.Of(File) == [] && fl.releases == 1 && !fl.ownsMutex && !fl.writer.value.open
    ensures fl.stopId !in old(fl.bus.stopHandlers.Of(File)) ==>
      && fl.bus.logHandlers == old(fl.bus.logHandlers) && fl.bus.startHandlers == old(fl.bus.startHandlers)
      && fl.bus.stopHandlers == old(fl.bus.stopHandlers)
    ensures fl.bus.loggerType == old(fl.bus.loggerType) && fl.bus.messageFormat == old(fl.bus.messageFormat)
    ensures fl.stopId !in old(fl.bus.stopHandlers.Of(File)) ==>
      fl.ownsMutex == old(fl.ownsMutex) && fl.writer.value.open == old(fl.writer.value.open)
    ensures fl.writer.value.lines == old(fl.writer.value.lines) + fl.OwnLines(trace, timestamp)
  {
    var bus := fl.bus;
    trace := bus.Stop(priority, msg);
    BroadcastOfTable(bus.stopHandlers, LoggerEvent(priority, msg, bus.messageFormat), fl.stopId, true);
    BroadcastOfTable(bus.stopHandlers, LoggerEvent(priority, msg, bus.messageFormat), fl.messageId, false);
    BroadcastOfTable(bus.stopHandlers, LoggerEvent(priority, msg, bus.messageFormat), fl.startId, false);
    assert fl.Admissible(trace);
    assert Occurrences(trace, fl.stopId) == (if fl.stopId in bus.stopHandlers.Of(File) then 1 else 0);
    fl.Run(trace, timestamp);
    assert fl.stopId in old(fl.bus.stopHandlers.Of(File)) ==> fl.bus.stopHandlers.Of(File) == [];
  }

  /**
   * `LoggingManager.AddMessage(priority, msg)` while the sink may be
   * subscribed: the file gains one line per delivery to the sink's message
   * handler in a known format, and nothing else changes.
   */
  method MessageBroadcast(fl: FileLogger, priority: Level, msg: string, timestamp: string) returns (trace: seq<Delivery>)
    requires fl.Valid()
    modifies fl, fl.bus
    ensures fl.bus.logHandlers == old(fl.bus.logHandlers) && fl.bus.startHandlers == old(fl.bus.startHandlers)
    ensures fl.bus.stopHandlers == old(fl.bus.stopHandlers)
    ensures fl.bus.loggerType == old(fl.bus.loggerType) && fl.bus.messageFormat == old(fl.bus.messageFormat)
    ensures fl.Valid()
    ensures trace == if ShouldDeliver(fl.bus.loggerType, priority)
      then Broadcast(fl.bus.logHandlers.order, fl.bus.logHandlers.handlers, MessageArgs(priority, msg, fl.bus.messageFormat))
      else []
    ensures fl.writer == Some(old(fl.writer.value).(lines := old(fl.writer.value.lines) + fl.OwnLines(trace, timestamp)))
    ensures fl.ownsMutex == old(fl.ownsMutex) && fl.releases == old(fl.releases)
  {
    var bus := fl.bus;
    trace := bus.AddMessage(priority, msg);
    LogBroadcastAdmissible(fl, MessageArgs(priority, msg, bus.messageFormat));
    fl.Run(trace, timestamp);
  }

  /** A message broadcast never calls the sink's stop handler, and calls its message handler only while the sink owns the mutex. */
  lemma LogBroadcastAdmissible(fl: FileLogger, args: LoggerEvent)
    requires fl.Valid()
    ensures var trace := Broadcast(fl.bus.logHandlers.order, fl.bus.logHandlers.handlers, args);
      fl.Admissible(trace) && Occurrences(trace, fl.stopId) == 0
    ensures fl.Admissible([]) && Occurrences([], fl.stopId) == 0
  {
    var t := fl.bus.logHandlers;
    var trace := Broadcast(t.order, t.handlers, args);
    BroadcastOfTable(t, args, fl.stopId, false);
    forall j | 0 <= j < |trace| && (trace[j].handler == fl.messageId || trace[j].handler == fl.startId)
      ensures fl.ownsMutex && Occurrences(trace[..j], fl.stopId) == 0
    {
      BroadcastOfTable(t, args, fl.messageId, true);
      assert trace[j] in trace;
      assert trace == trace[..j] + trace[j..];
      OccurrencesAppend(trace[..j], trace[j..], fl.stopId);
    }
  }

  /**
   * `LoggingManager.Start(priority, msg)` while the sink may be subscribed:
   * the sink's start handler writes its line, or nothing happens to the sink
   * when an earlier null start delegate made `Start` throw.
   */
  method StartBroadcast(fl: FileLogger, priority: Level, msg: string, timestamp: string) returns (trace: seq<Delivery>, ok: bool)
    requires fl.Valid()
    modifies fl, fl.bus
    ensures fl.bus.logHandlers == old(fl.bus.logHandlers) && fl.bus.startHandlers == old(fl.bus.startHandlers)
    ensures fl.bus.stopHandlers == old(fl.bus.stopHandlers)
    ensures fl.bus.loggerType == old(fl.bus.loggerType) && fl.bus.messageFormat == old(fl.bus.messageFormat)
    ensures fl.Valid()
    ensures var k := FirstNull(fl.bus.startHandlers.order, fl.bus.startHandlers.handlers);
      && ok == (k == |fl.bus.startHandlers.order|)
      && trace == Broadcast(fl.bus.startHandlers.order[..k], fl.bus.startHandlers.handlers,
                            LoggerEvent(priority, msg, fl.bus.messageFormat))
    ensures fl.writer == Some(old(fl.writer.value).(lines := old(fl.writer.value.lines) + fl.OwnLines(trace, timestamp)))
    ensures fl.ownsMutex == old(fl.ownsMutex) && fl.releases == old(fl.releases)
  {
    var bus := fl.bus;
    trace, ok := bus.Start(priority, msg);
    var args := LoggerEvent(priority, msg, bus.messageFormat);
    var k := FirstNull(bus.startHandlers.order, bus.startHandlers.handlers);
    forall d | d in trace ensures d.handler in bus.startHandlers.Of(d.sender) {
      BroadcastPrefix(bus.startHandlers, k, args, d);
    }
    NoneInTrace(trace, fl.stopId);
    forall j | 0 <= j < |trace| && (trace[j].handler == fl.messageId || trace[j].handler == fl.startId)
      ensures fl.ownsMutex && Occurrences(trace[..j], fl.stopId) == 0
    {
      assert trace[j] in trace;
      NoneInTrace(trace[..j], fl.stopId);
    }
    assert Occurrences(trace, fl.stopId) == 0;
    fl.Run(trace, timestamp);
  }

  /** A trace none of whose deliveries goes to `h` calls it zero times. */
  lemma {:induction false} NoneInTrace(trace: seq<Delivery>, h: HandlerId)
    requires forall d :: d in trace ==> d.handler != h
    ensures Occurrences(trace, h) == 0
  {
    if trace != [] {
      assert trace[0] in trace;
      NoneInTrace(trace[1..], h);
    }
  }
}
