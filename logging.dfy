/**
 * The logging event bus: severity levels, message formats, the three
 * per-environment handler tables of `LoggingManager`, its dispatch
 * operations, and the test-only `StringLogger` sink.
 *
 * A handler (a C# closure) is represented by an opaque `HandlerId`.
 * Invoking a multicast delegate is represented by the list of deliveries it
 * makes; the sinks (`StringLogger` here, `FileSink.FileLogger`) apply the
 * effect of the deliveries addressed to their own handlers.
 */
module Logging {
  import Wrappers

  datatype Env = Console | File | Event | Database

  /** Global verbosity: `None` suppresses every message. */
  datatype LogType = Normal | Verbose | None

  datatype Level = Diagnostic | Info | Warning | Error | None

  /** The enumeration name of a level, as C#'s `Enum.ToString` prints it. */
  function LevelName(l: Level): string {
    match l
    case Diagnostic => "Diagnostic"
    case Info => "Info"
    case Warning => "Warning"
    case Error => "Error"
    case None => "None"
  }

  /** The label written before a message: empty for `None`, otherwise the name and a colon. */
  function ToLogString(l: Level): (r: string)
    ensures r == "" <==> l == Level.None
    ensures l != Level.None ==> |r| > 1 && r[|r| - 1] == ':' && r[..|r| - 1] == LevelName(l)
  {
    match l
    case Diagnostic | Info | Warning | Error => LevelName(l) + ":"
    case None => ""
  }

  /** Distinct levels get distinct labels, so a label identifies its level. */
  lemma ToLogStringInjective(a: Level, b: Level)
    ensures ToLogString(a) == ToLogString(b) ==> a == b
  {
  }

  // The message-format strings of `LogMessageFormat`.
  const NoneFormat: string := "{0}"
  const GeneralFormat: string := "{0} {1}"
  const TimeFormat: string := "{0:H:mm:ss} {1} {2}"
  const DateFormat: string := "{0:MM/dd/yyyy} {1} {2}"
  const DateTimeFormat: string := "{0:MM/dd/yyyy H:mm:ss} {1} {2}"

  /** `Environment.NewLine` on the Windows platform the library targets. */
  const NewLine: string := "\r\n"

  /** What `Dictionary` throws when an absent key is read. */
  const KeyNotFoundMessage: string := "The given key was not present in the dictionary."

  /** `LoggerEventArgs`: the payload every handler receives. */
  datatype LoggerEvent = LoggerEvent(priority: Level, message: string, messageFormat: string)

  type HandlerId = nat

  /** One handler invocation: the handler, the environment passed as sender, and the payload. */
  datatype Delivery = Delivery(handler: HandlerId, sender: Env, args: LoggerEvent)

  /** Index of the last occurrence of `h` in `s`, or -1. */
  function LastIndex(s: seq<HandlerId>, h: HandlerId): (k: int)
    ensures -1 <= k < |s|
    ensures k == -1 <==> h !in s
    ensures k >= 0 ==> s[k] == h && h !in s[k + 1..]
  {
    if s == [] then -1
    else if s[|s| - 1] == h then |s| - 1
    else LastIndex(s[..|s| - 1], h)
  }

  /** Delegate subtraction: drops the last occurrence of `h`, if any. */
  function RemoveLast(s: seq<HandlerId>, h: HandlerId): (r: seq<HandlerId>)
    ensures h !in s ==> r == s
    ensures h in s ==> |r| == |s| - 1
    ensures multiset(r) == multiset(s) - multiset{h}
  {
    var k := LastIndex(s, h);
    if k < 0 then s
    else
      assert s == s[..k] + [s[k]] + s[k + 1..];
      s[..k] + s[k + 1..]
  }

  /** The order of the survivors is kept: removing the last `h` keeps every earlier element in place. */
  lemma RemoveLastKeepsPrefix(s: seq<HandlerId>, h: HandlerId)
    requires h in s
    ensures var k := LastIndex(s, h);
      RemoveLast(s, h) == s[..k] + s[k + 1..] && h !in RemoveLast(s, h)[k..]
  {
    var k := LastIndex(s, h);
    assert RemoveLast(s, h)[k..] == s[k + 1..];
  }

  /**
   * One of the three `Dictionary<LogEnvironment, EventHandler>` tables.
   * `order` is the key-insertion order in which `Dictionary` enumerates
   * (keys are never removed); a key present with the empty list holds a null delegate.
   */
  datatype Table = Table(order: seq<Env>, handlers: map<Env, seq<HandlerId>>) {

    ghost predicate Valid() {
      && (forall i, j :: 0 <= i < j < |order| ==> order[i] != order[j])
      && (forall e :: e in handlers <==> e in order)
    }

    /** The handlers of `env`, treating an absent key like a null delegate. */
    function Of(env: Env): seq<HandlerId> {
      if env in handlers then handlers[env] else []
    }

    /** `AddEvent`: combine `h` onto the delegate of `env`, adding the key if it is absent. */
    function Add(env: Env, h: HandlerId): (r: Table)
      requires Valid()
      ensures r.Valid()
      ensures r.handlers.Keys == handlers.Keys + {env}
      ensures r.Of(env) == Of(env) + [h]
      ensures forall e :: e != env ==> r.Of(e) == Of(e)
      ensures r.order == if env in handlers then order else order + [env]
    {
      if env in handlers then Table(order, handlers[env := handlers[env] + [h]])
      else Table(order + [env], handlers[env := [h]])
    }

    /** `table[env] -= h` guarded by `ContainsKey(env)`. */
    function Remove(env: Env, h: HandlerId): (r: Table)
      requires Valid()
      ensures r.Valid() && r.order == order && r.handlers.Keys == handlers.Keys
      ensures r.Of(env) == RemoveLast(Of(env), h)
      ensures forall e :: e != env ==> r.Of(e) == Of(e)
    {
      if env in handlers then Table(order, handlers[env := RemoveLast(handlers[env], h)]) else this
    }
  }

  const EmptyTable: Table := Table([], map[])

  /**
   * `RemoveOneLogger`: subtract, one by one, every delegate of the invocation
   * list of `env` from the table entry. The key stays, now with a null delegate.
   */
  method RemoveOneLogger(t: Table, env: Env) returns (r: Table)
    requires t.Valid()
    ensures r.Valid() && r.order == t.order && r.handlers.Keys == t.handlers.Keys
    ensures r.Of(env) == []
    ensures forall e :: e != env ==> r.Of(e) == t.Of(e)
  {
    r := t;
    if env in t.handlers && t.handlers[env] != [] {
      var invocationList := t.handlers[env];
      var i := 0;
      while i < |invocationList|
        invariant 0 <= i <= |invocationList|
        invariant r.Valid() && r.order == t.order && r.handlers.Keys == t.handlers.Keys
        invariant forall e :: e != env ==> r.Of(e) == t.Of(e)
        invariant multiset(r.Of(env)) == multiset(invocationList[i..])
      {
        RemoveNext(r.Of(env), invocationList, i);
        r := r.Remove(env, invocationList[i]);
        i := i + 1;
      }
      assert |multiset(r.Of(env))| == 0;
    }
  }

  /** Subtracting the next delegate of the invocation list leaves the ones after it. */
  lemma RemoveNext(s: seq<HandlerId>, invocationList: seq<HandlerId>, i: nat)
    requires i < |invocationList| && multiset(s) == multiset(invocationList[i..])
    ensures multiset(RemoveLast(s, invocationList[i])) == multiset(invocationList[i + 1..])
  {
    assert invocationList[i..] == [invocationList[i]] + invocationList[i + 1..];
    assert invocationList[i] in multiset(s);
  }

  /** The verbosity filter `AddMessage` applies; `Start` and `Stop` do not apply it. */
  function ShouldDeliver(loggerType: LogType, priority: Level): (r: bool)
    ensures r <==> loggerType == Verbose || (loggerType == Normal && priority != Diagnostic)
  {
    !(loggerType == LogType.None || (loggerType == Normal && priority == Diagnostic))
  }

  /** The payload `AddMessage` builds: `NoneFormat` for priority `None`, else the global format. */
  function MessageArgs(priority: Level, msg: string, format: string): LoggerEvent {
    LoggerEvent(priority, msg, if priority == Level.None then NoneFormat else format)
  }

  /** Invoking a multicast delegate whose invocation list is `hs`. */
  function FanOut(hs: seq<HandlerId>, sender: Env, args: LoggerEvent): (r: seq<Delivery>)
    ensures |r| == |hs|
    ensures forall i :: 0 <= i < |hs| ==> r[i] == Delivery(hs[i], sender, args)
  {
    seq(|hs|, i requires 0 <= i < |hs| => Delivery(hs[i], sender, args))
  }

  /** Invoking, in the order of `keys`, the delegate of every key. */
  function Broadcast(keys: seq<Env>, handlers: map<Env, seq<HandlerId>>, args: LoggerEvent): seq<Delivery>
    requires forall i :: 0 <= i < |keys| ==> keys[i] in handlers
  {
    if keys == [] then []
    else
      var last := keys[|keys| - 1];
      Broadcast(keys[..|keys| - 1], handlers, args) + FanOut(handlers[last], last, args)
  }

  lemma BroadcastStep(keys: seq<Env>, handlers: map<Env, seq<HandlerId>>, args: LoggerEvent, i: nat)
    requires forall j :: 0 <= j < |keys| ==> keys[j] in handlers
    requires i < |keys|
    ensures Broadcast(keys[..i + 1], handlers, args) == Broadcast(keys[..i], handlers, args) + FanOut(handlers[keys[i]], keys[i], args)
  {
    assert keys[..i + 1][..i] == keys[..i];
  }

  /** A broadcast makes exactly the deliveries of the listed environments' handlers, and no other. */
  lemma {:induction false} BroadcastDelivers(keys: seq<Env>, handlers: map<Env, seq<HandlerId>>, args: LoggerEvent, d: Delivery)
    requires forall i :: 0 <= i < |keys| ==> keys[i] in handlers
    ensures d in Broadcast(keys, handlers, args)
      <==> d.sender in keys && d.handler in handlers[d.sender] && d.args == args
  {
    if keys != [] {
      var last := keys[|keys| - 1];
      var front := keys[..|keys| - 1];
      BroadcastDelivers(front, handlers, args, d);
      assert keys == front + [last];
      var fan := FanOut(handlers[last], last, args);
      if d.sender == last && d.handler in handlers[last] && d.args == args {
        var i :| 0 <= i < |handlers[last]| && handlers[last][i] == d.handler;
        assert fan[i] == d;
      }
      if d in fan {
        var i :| 0 <= i < |fan| && fan[i] == d;
        assert d.handler == handlers[last][i];
      }
    }
  }

  /** How many deliveries of a trace go to handler `h`. */
  function Occurrences(trace: seq<Delivery>, h: HandlerId): nat {
    if trace == [] then 0
    else (if trace[0].handler == h then 1 else 0) + Occurrences(trace[1..], h)
  }

  lemma {:induction false} OccurrencesAppend(a: seq<Delivery>, b: seq<Delivery>, h: HandlerId)
    ensures Occurrences(a + b, h) == Occurrences(a, h) + Occurrences(b, h)
  {
    if a == [] {
      assert a + b == b;
    } else {
      assert (a + b)[1..] == a[1..] + b;
      OccurrencesAppend(a[1..], b, h);
    }
  }

  /** A multicast invocation calls `h` once per occurrence in the invocation list. */
  lemma {:induction false} OccurrencesFanOut(hs: seq<HandlerId>, sender: Env, args: LoggerEvent, h: HandlerId)
    ensures Occurrences(FanOut(hs, sender, args), h) == multiset(hs)[h]
  {
    if hs != [] {
      assert FanOut(hs, sender, args)[1..] == FanOut(hs[1..], sender, args);
      assert hs == [hs[0]] + hs[1..];
      OccurrencesFanOut(hs[1..], sender, args, h);
    }
  }

  /**
   * A broadcast over distinct keys calls a handler that is registered only
   * under `env` exactly as often as it occurs in the delegate of `env`.
   */
  lemma {:induction false} OccurrencesBroadcast(keys: seq<Env>, handlers: map<Env, seq<HandlerId>>, args: LoggerEvent, env: Env, h: HandlerId)
    requires forall i :: 0 <= i < |keys| ==> keys[i] in handlers
    requires forall i, j :: 0 <= i < j < |keys| ==> keys[i] != keys[j]
    requires forall i :: 0 <= i < |keys| && keys[i] != env ==> h !in handlers[keys[i]]
    ensures Occurrences(Broadcast(keys, handlers, args), h) == if env in keys then multiset(handlers[env])[h] else 0
  {
    if keys != [] {
      var last := keys[|keys| - 1];
      var front := keys[..|keys| - 1];
      assert keys == front + [last];
      OccurrencesBroadcast(front, handlers, args, env, h);
      OccurrencesAppend(Broadcast(front, handlers, args), FanOut(handlers[last], last, args), h);
      OccurrencesFanOut(handlers[last], last, args, h);
      if last == env {
        assert env !in front;
      } else {
        assert h !in handlers[last];
        assert (env in keys) == (env in front);
      }
    }
  }

  /** Position of the first key whose delegate is null, or `|keys|` when there is none. */
  function FirstNull(keys: seq<Env>, handlers: map<Env, seq<HandlerId>>): (k: nat)
    requires forall i :: 0 <= i < |keys| ==> keys[i] in handlers
    ensures k <= |keys|
    ensures forall j :: 0 <= j < k ==> handlers[keys[j]] != []
    ensures k < |keys| ==> handlers[keys[k]] == []
  {
    if keys == [] then 0
    else if handlers[keys[0]] == [] then 0
    else 1 + FirstNull(keys[1..], handlers)
  }

  /** Where `Start` stops: at the first null delegate, and at the end exactly when every delegate is non-null. */
  lemma StartStopsAt(t: Table, k: nat)
    requires t.Valid() && k <= |t.order|
    requires forall j :: 0 <= j < k ==> t.handlers[t.order[j]] != []
    requires k < |t.order| ==> t.handlers[t.order[k]] == []
    ensures FirstNull(t.order, t.handlers) == k
    ensures k == |t.order| <==> forall e :: e in t.handlers ==> t.handlers[e] != []
  {
    if k < |t.order| {
      assert t.order[k] in t.handlers;
    } else {
      forall e | e in t.handlers ensures t.handlers[e] != [] {
        var j :| 0 <= j < |t.order| && t.order[j] == e;
      }
    }
  }

  /** `LoggingManager`: the process-wide registry, made an explicit object. */
  class Bus {
    var logHandlers: Table
    var startHandlers: Table
    var stopHandlers: Table
    var loggerType: LogType
    var messageFormat: string

    ghost predicate Valid()
      reads this
    {
      logHandlers.Valid() && startHandlers.Valid() && stopHandlers.Valid()
    }

    constructor()
      ensures Valid()
      ensures logHandlers == EmptyTable && startHandlers == EmptyTable && stopHandlers == EmptyTable
      ensures loggerType == Normal && messageFormat == TimeFormat
    {
      logHandlers, startHandlers, stopHandlers := EmptyTable, EmptyTable, EmptyTable;
      loggerType, messageFormat := Normal, TimeFormat;
    }

    method AddLogger(env: Env, h: HandlerId)
      requires Valid()
      modifies this
      ensures Valid()
      ensures logHandlers == old(logHandlers).Add(env, h)
      ensures startHandlers == old(startHandlers) && stopHandlers == old(stopHandlers)
      ensures loggerType == old(loggerType) && messageFormat == old(messageFormat)
    {
      logHandlers := logHandlers.Add(env, h);
    }

    method AddStart(env: Env, h: HandlerId)
      requires Valid()
      modifies this
      ensures Valid()
      ensures startHandlers == old(startHandlers).Add(env, h)
      ensures logHandlers == old(logHandlers) && stopHandlers == old(stopHandlers)
      ensures loggerType == old(loggerType) && messageFormat == old(messageFormat)
    {
      startHandlers := startHandlers.Add(env, h);
    }

    method AddStop(env: Env, h: HandlerId)
      requires Valid()
      modifies this
      ensures Valid()
      ensures stopHandlers == old(stopHandlers).Add(env, h)
      ensures logHandlers == old(logHandlers) && startHandlers == old(startHandlers)
      ensures loggerType == old(loggerType) && messageFormat == old(messageFormat)
    {
      stopHandlers := stopHandlers.Add(env, h);
    }

    /** Unsubscribe one message handler; only the message table is touched. */
    method RemoveLogger(env: Env, h: HandlerId)
      requires Valid()
      modifies this
      ensures Valid()
      ensures logHandlers == old(logHandlers).Remove(env, h)
      ensures startHandlers == old(startHandlers) && stopHandlers == old(stopHandlers)
      ensures loggerType == old(loggerType) && messageFormat == old(messageFormat)
    {
      logHandlers := logHandlers.Remove(env, h);
    }

    /** Unsubscribe every handler of `env` in all three tables, keeping the keys. */
    method RemoveLoggerAll(env: Env)
      requires Valid()
      modifies this
      ensures Valid()
      ensures logHandlers.order == old(logHandlers.order) && logHandlers.handlers.Keys == old(logHandlers.handlers.Keys)
      ensures startHandlers.order == old(startHandlers.order) && startHandlers.handlers.Keys == old(startHandlers.handlers.Keys)
      ensures stopHandlers.order == old(stopHandlers.order) && stopHandlers.handlers.Keys == old(stopHandlers.handlers.Keys)
      ensures logHandlers.Of(env) == [] && startHandlers.Of(env) == [] && stopHandlers.Of(env) == []
      ensures forall e :: e != env ==>
        && logHandlers.Of(e) == old(logHandlers.Of(e))
        && startHandlers.Of(e) == old(startHandlers.Of(e))
        && stopHandlers.Of(e) == old(stopHandlers.Of(e))
      ensures loggerType == old(loggerType) && messageFormat == old(messageFormat)
    {
      logHandlers := RemoveOneLogger(logHandlers, env);
      startHandlers := RemoveOneLogger(startHandlers, env);
      stopHandlers := RemoveOneLogger(stopHandlers, env);
    }

    /**
     * `AddMessage(system, priority, msg)`: after the verbosity filter, the
     * dictionary lookup fails for a key never added; a null delegate delivers nothing.
     */
    method AddMessageTo(env: Env, priority: Level, msg: string) returns (r: Wrappers.Result<seq<Delivery>>)
      ensures r.Err? <==> ShouldDeliver(loggerType, priority) && env !in logHandlers.handlers
      ensures r.Err? ==> r.message == KeyNotFoundMessage
      ensures r.Ok? && ShouldDeliver(loggerType, priority) ==>
        r.value == FanOut(logHandlers.Of(env), env, MessageArgs(priority, msg, messageFormat))
      ensures !ShouldDeliver(loggerType, priority) ==> r == Wrappers.Ok([])
    {
      if loggerType == LogType.None || (loggerType == Normal && priority == Diagnostic) {
        return Wrappers.Ok([]);
      }
      if env !in logHandlers.handlers {
        return Wrappers.Err(KeyNotFoundMessage);
      }
      var eh := logHandlers.handlers[env];
      if priority == Level.None {
        r := Wrappers.Ok(FanOut(eh, env, LoggerEvent(priority, msg, NoneFormat)));
      } else {
        r := Wrappers.Ok(FanOut(eh, env, LoggerEvent(priority, msg, messageFormat)));
      }
    }

    /** `AddMessage(priority, msg)`: the single-environment variant for every key, in key order. */
    method AddMessage(priority: Level, msg: string) returns (trace: seq<Delivery>)
      requires Valid()
      ensures trace ==
        if ShouldDeliver(loggerType, priority)
        then Broadcast(logHandlers.order, logHandlers.handlers, MessageArgs(priority, msg, messageFormat))
        else []
    {
      trace := [];
      var keys := logHandlers.order;
      var i := 0;
      while i < |keys|
        invariant 0 <= i <= |keys|
        invariant trace ==
          if ShouldDeliver(loggerType, priority)
          then Broadcast(keys[..i], logHandlers.handlers, MessageArgs(priority, msg, messageFormat))
          else []
      {
        var r := AddMessageTo(keys[i], priority, msg);
        BroadcastStep(keys, logHandlers.handlers, MessageArgs(priority, msg, messageFormat), i);
        assert keys[i] in logHandlers.handlers;
        trace := trace + r.value;
        i := i + 1;
      }
      assert keys[..i] == keys;
    }

    /**
     * `Start`: invokes every start delegate without a null check, so the first
     * null delegate throws after the earlier environments were called.
     */
    method Start(priority: Level, msg: string) returns (trace: seq<Delivery>, ok: bool)
      requires Valid()
      ensures var k := FirstNull(startHandlers.order, startHandlers.handlers);
        && ok == (k == |startHandlers.order|)
        && trace == Broadcast(startHandlers.order[..k], startHandlers.handlers, LoggerEvent(priority, msg, messageFormat))
      ensures ok <==> forall e :: e in startHandlers.handlers ==> startHandlers.handlers[e] != []
    {
      var keys, handlers := startHandlers.order, startHandlers.handlers;
      var args := LoggerEvent(priority, msg, messageFormat);
      trace := [];
      var i := 0;
      while i < |keys|
        invariant 0 <= i <= |keys|
        invariant forall j :: 0 <= j < i ==> handlers[keys[j]] != []
        invariant trace == Broadcast(keys[..i], handlers, args)
      {
        var hs := handlers[keys[i]];
        if hs == [] {
          StartStopsAt(startHandlers, i);
          ok := false;
          return;
        }
        BroadcastStep(keys, handlers, args, i);
        trace := trace + FanOut(hs, keys[i], args);
        i := i + 1;
      }
      assert keys[..i] == keys;
      StartStopsAt(startHandlers, i);
      ok := true;
    }

    /**
     * `Stop`: invokes every non-null stop delegate of a copy of the table taken
     * before the first call. The deliveries depend only on that copy, so a stop
     * handler that unsubscribes handlers cannot change who is called.
     */
    method Stop(priority: Level, msg: string) returns (trace: seq<Delivery>)
      requires Valid()
      ensures trace == Broadcast(stopHandlers.order, stopHandlers.handlers, LoggerEvent(priority, msg, messageFormat))
    {
      var snapshot := stopHandlers;
      var args := LoggerEvent(priority, msg, messageFormat);
      trace := [];
      var i := 0;
      while i < |snapshot.order|
        invariant 0 <= i <= |snapshot.order|
        invariant trace == Broadcast(snapshot.order[..i], snapshot.handlers, args)
      {
        var env := snapshot.order[i];
        assert snapshot.order[..i + 1][..i] == snapshot.order[..i];
        if snapshot.handlers[env] != [] {
          trace := trace + FanOut(snapshot.handlers[env], env, args);
        }
        i := i + 1;
      }
      assert snapshot.order[..i] == snapshot.order;
    }
  }

  /** The text the string logger appends for one event: `GeneralFormat`, then a newline. */
  function StringLine(args: LoggerEvent): string {
    ToLogString(args.priority) + " " + args.message + NewLine
  }

  /** The texts `f` gives the elements of `s`, concatenated in order. */
  function ConcatMap<T>(s: seq<T>, f: T -> string): string {
    if s == [] then "" else ConcatMap(s[..|s| - 1], f) + f(s[|s| - 1])
  }

  lemma {:induction false} ConcatMapAppend<T>(a: seq<T>, b: seq<T>, f: T -> string)
    ensures ConcatMap(a + b, f) == ConcatMap(a, f) + ConcatMap(b, f)
  {
    if b == [] {
      assert a + b == a;
    } else {
      assert (a + b)[..|a + b| - 1] == a + b[..|b| - 1];
      ConcatMapAppend(a, b[..|b| - 1], f);
    }
  }

  /** The text one delivery adds to the handler `id`: its line if addressed to `id`, else nothing. */
  function LineFor(d: Delivery, id: HandlerId): string {
    if d.handler == id then StringLine(d.args) else ""
  }

  /** What the handler `id` appends for a trace: one line per delivery addressed to it, in order. */
  function Transcript(trace: seq<Delivery>, id: HandlerId): string {
    ConcatMap(trace, d => LineFor(d, id))
  }

  /** The transcript of consecutive traces is the concatenation of their transcripts. */
  lemma TranscriptAppend(a: seq<Delivery>, b: seq<Delivery>, id: HandlerId)
    ensures Transcript(a + b, id) == Transcript(a, id) + Transcript(b, id)
  {
    ConcatMapAppend(a, b, d => LineFor(d, id));
  }

  /** The deliveries of a trace that are addressed to the handler `id`, in trace order. */
  function AddressedTo(trace: seq<Delivery>, id: HandlerId): (r: seq<Delivery>)
    ensures forall i :: 0 <= i < |r| ==> r[i].handler == id
    ensures forall d :: d in r <==> d in trace && d.handler == id
  {
    if trace == [] then []
    else AddressedTo(trace[..|trace| - 1], id) + (if trace[|trace| - 1].handler == id then [trace[|trace| - 1]] else [])
  }

  /** A handler's transcript ignores the deliveries addressed to other handlers. */
  lemma {:induction false} TranscriptAddressedTo(trace: seq<Delivery>, id: HandlerId)
    ensures Transcript(trace, id) == Transcript(AddressedTo(trace, id), id)
  {
    if trace != [] {
      var front, d := trace[..|trace| - 1], trace[|trace| - 1];
      var own := if d.handler == id then [d] else [];
      TranscriptAddressedTo(front, id);
      assert trace == front + [d];
      TranscriptAppend(front, [d], id);
      TranscriptAppend(AddressedTo(front, id), own, id);
      assert Transcript([d], id) == Transcript(own, id) by {
        assert [d][..0] == [];
        if d.handler == id {
          assert own == [d];
        } else {
          assert own == [];
        }
      }
    }
  }

  /** `StringLogger`: the test sink that accumulates rendered messages in a buffer. */
  class StringLogger {
    const id: HandlerId
    var buffer: string

    constructor(id: HandlerId)
      ensures this.id == id && buffer == ""
    {
      this.id := id;
      buffer := "";
    }

    /** `Init`: subscribe the logger to Console messages. */
    method Init(bus: Bus)
      requires bus.Valid()
      modifies bus
      ensures bus.Valid()
      ensures bus.logHandlers == old(bus.logHandlers).Add(Console, id)
      ensures bus.startHandlers == old(bus.startHandlers) && bus.stopHandlers == old(bus.stopHandlers)
      ensures bus.loggerType == old(bus.loggerType) && bus.messageFormat == old(bus.messageFormat)
    {
      bus.AddLogger(Console, id);
    }

    method Reset()
      modifies this
      ensures buffer == ""
    {
      buffer := "";
    }

    /** `LogInfo`: the text accumulated since the last `Reset`. */
    function LogInfo(): (r: string)
      reads this
      ensures r == buffer
    {
      buffer
    }

    /** Run this logger's handler for each delivery addressed to it. */
    method Receive(trace: seq<Delivery>)
      modifies this
      ensures buffer == old(buffer) + Transcript(trace, id)
    {
      var i := 0;
      while i < |trace|
        invariant 0 <= i <= |trace|
        invariant buffer == old(buffer) + Transcript(trace[..i], id)
      {
        assert trace[..i + 1][..i] == trace[..i];
        if trace[i].handler == id {
          buffer := buffer + StringLine(trace[i].args);
        }
        i := i + 1;
      }
      assert trace[..i] == trace;
    }
  }
}
