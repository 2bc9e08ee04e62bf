/** The report readers: stack frames, threads and the whole native stack trace. */
module Readers {
  import opened Numerals
  import opened Json
  import opened JsonAccess

  // Stack frames

  datatype StackTraceElement = StackTraceElement(className: string, methodName: string, fileName: string, lineNumber: int)

  const UNKNOWN: string := "<unknown>"

  function ElementOf(frame: seq<Member>): StackTraceElement {
    StackTraceElement(
      "0x" + SignedHex(OptLong(frame, "address", OptLong(frame, "so_base", -1))),
      OptString(frame, "sym_name", "???"),
      OptString(frame, "so_path", "0x" + SignedHex(OptLong(frame, "so_base", -1))),
      OptInt(frame, "lineNumber", -2))
  }

  /**
   * What the reader makes of a frame, key by key: an integer address is shown up to the range of a long, the base
   * stands in for a missing one; a missing symbol and a missing path have their defaults, the path's again the base.
   */
  lemma ElementFields(frame: seq<Member>)
    ensures var e := ElementOf(frame);
      var base := AsLong(Lookup(frame, "so_base"));
      && e.lineNumber == (match AsInt(Lookup(frame, "lineNumber")) case Some(n) => n case None => -2)
      && (match AsLong(Lookup(frame, "address"))
          case Some(n) => e.className == "0x" + SignedHex(n)
          case None => base.Some? ==> e.className == "0x" + SignedHex(base.value))
      && (AsLong(Lookup(frame, "address")).None? && base.None? ==> e.className == "0x-1")
      && (match Lookup(frame, "sym_name") case Some(v) => e.methodName == TextOf(v) case None => e.methodName == "???")
      && (match Lookup(frame, "so_path")
          case Some(v) => e.fileName == TextOf(v)
          case None => e.fileName == "0x" + (if base.Some? then SignedHex(base.value) else "-1"))
  {
    assert SignedHex(-1) == "-1" by { assert Numeral(1, 16) == "1"; }
    hide AsLong, AsInt, Lookup, SignedHex, TextOf;
  }

  /** The element of an entry: the frame's for an object, nothing for null, the unknown one for the rest. */
  lemma StackEntryCases(item: Json)
    ensures StackEntry(item) == None <==> item == Null
    ensures item.Object? ==> StackEntry(item) == Some(ElementOf(item.members))
    ensures !item.Object? && item != Null ==> StackEntry(item) == Some(StackTraceElement("<unknown>", "<unknown>", "<unknown>", -2))
  {
    hide ElementOf;
  }

  class NativeStackFrame {
    var delegate: StackTraceElement

    constructor (className: string := "<native>")
      ensures delegate == StackTraceElement(className, UNKNOWN, UNKNOWN, -2)
    {
      delegate := StackTraceElement(className, UNKNOWN, UNKNOWN, -2);
    }

    method FromJson(frame: seq<Member>)
      modifies this
      ensures delegate == ElementOf(frame)
    {
      delegate := StackTraceElement(
        "0x" + SignedHex(OptLong(frame, "address", OptLong(frame, "so_base", -1))),
        OptString(frame, "sym_name", "???"),
        OptString(frame, "so_path", "0x" + SignedHex(OptLong(frame, "so_base", -1))),
        OptInt(frame, "lineNumber", -2));
    }
  }

  /** The element an entry of a stack array becomes; a null entry stays null. */
  function StackEntry(item: Json): Option<StackTraceElement> {
    match item
    case Null => None
    case Object(members) => Some(ElementOf(members))
    case _ => Some(StackTraceElement(UNKNOWN, UNKNOWN, UNKNOWN, -2))
  }

  function StackOf(items: seq<Json>): (r: seq<Option<StackTraceElement>>)
    ensures |r| == |items| && forall i :: 0 <= i < |r| ==> r[i] == StackEntry(items[i])
  {
    seq(|items|, i requires 0 <= i < |items| => StackEntry(items[i]))
  }

  // Threads

  /** What a thread of the report holds. */
  datatype ThreadView = ThreadView(
    crashed: bool, state: string, threadId: int, threadName: string, threadPriority: int,
    stackTrace: seq<Option<StackTraceElement>>)

  function ThreadOf(thread: seq<Member>): ThreadView {
    ThreadView(
      OptBoolean(thread, "crashed", false),
      OptString(thread, "state", ""),
      OptLong(thread, "threadNumber", 0),
      OptString(thread, "threadId", ""),
      OptInt(thread, "priority", -1),
      StackOf(Or(AsArray(Lookup(thread, "stack")), [])))
  }

  /** What the reader makes of a thread, key by key. */
  lemma ThreadFields(thread: seq<Member>)
    ensures var t := ThreadOf(thread);
      && (t.crashed <==> Lookup(thread, "crashed") == Some(Bool(true)))
      && (match Lookup(thread, "state") case Some(v) => t.state == TextOf(v) case None => t.state == "")
      && (match AsLong(Lookup(thread, "threadNumber")) case Some(n) => t.threadId == n case None => t.threadId == 0)
      && (match Lookup(thread, "threadId") case Some(v) => t.threadName == TextOf(v) case None => t.threadName == "")
      && (match AsInt(Lookup(thread, "priority")) case Some(n) => t.threadPriority == n case None => t.threadPriority == -1)
      && (match Lookup(thread, "stack")
          case Some(Array(items)) =>
            |t.stackTrace| == |items| && forall i :: 0 <= i < |items| ==> t.stackTrace[i] == StackEntry(items[i])
          case _ => t.stackTrace == [])
  {
    hide StackEntry, AsLong, AsInt, TextOf, Lookup;
  }

  class NativeThreadInfo {
    var crashed: bool
    var state: string
    var threadId: int
    var threadName: string
    var threadPriority: int
    var stackTrace: seq<Option<StackTraceElement>>

    function View(): ThreadView
      reads this
    {
      ThreadView(crashed, state, threadId, threadName, threadPriority, stackTrace)
    }

    constructor ()
    {
    }

    method FromJsonObject(thread: Option<seq<Member>>)
      modifies this
      ensures View() == if thread.Some? then ThreadOf(thread.value) else old(View())
    {
      if thread.Some? {
        crashed := OptBoolean(thread.value, "crashed", false);
        state := OptString(thread.value, "state", "");
        threadId := OptLong(thread.value, "threadNumber", 0);
        threadName := OptString(thread.value, "threadId", "");
        threadPriority := OptInt(thread.value, "priority", -1);
        stackTrace := StackTraceFromJson(AsArray(Lookup(thread.value, "stack")));
      }
    }

    method StackTraceFromJson(frames: Option<seq<Json>>) returns (trace: seq<Option<StackTraceElement>>)
      ensures trace == StackOf(Or(frames, []))
    {
      hide ElementOf;
      var stack := new Option<StackTraceElement>[0];
      if frames.Some? {
        stack := new Option<StackTraceElement>[|frames.value|](_ => None);
        for i := 0 to |frames.value|
          invariant stack.Length == |frames.value|
          invariant forall k :: 0 <= k < i ==> stack[k] == StackEntry(frames.value[k])
          invariant forall k :: i <= k < stack.Length ==> stack[k] == None
          invariant fresh(stack)
        {
          if !frames.value[i].Null? {
            if frames.value[i].Object? {
              var frame := new NativeStackFrame();
              frame.FromJson(frames.value[i].members);
              stack[i] := Some(frame.delegate);
            } else {
              stack[i] := Some(StackTraceElement(UNKNOWN, UNKNOWN, UNKNOWN, -2));
            }
          }
        }
      }
      trace := stack[..];
    }
  }

  /** An entry of the thread array, printed and parsed again; anything but an object is refused. */
  function ThreadEntry(item: Json): Option<ThreadView> {
    match AsObject(ParseText(TextOf(item))) case Some(members) => Some(ThreadOf(members)) case None => None
  }

  /** The threads of the entries that are not null, or nothing when one of them is refused. */
  function ThreadsOf(items: seq<Json>): Option<seq<ThreadView>> {
    if |items| == 0 then Some([])
    else
      var init := ThreadsOf(items[..|items| - 1]);
      var last := items[|items| - 1];
      if init.None? then None
      else if last.Null? then init
      else match ThreadEntry(last) case None => None case Some(thread) => Some(init.value + [thread])
  }

  /** Of a well-formed array, the entries that are not null and no strings are threads exactly when they are objects. */
  lemma ThreadEntryIff(item: Json)
    requires WellFormed(item) && !item.String?
    ensures ThreadEntry(item) == if item.Object? then Some(ThreadOf(item.members)) else None
  {
    TextReads(item);
    hide ParseText, TextOf, ThreadOf;
  }

  function NonNulls(items: seq<Json>): seq<Json> {
    if |items| == 0 then []
    else NonNulls(items[..|items| - 1]) + (if items[|items| - 1].Null? then [] else [items[|items| - 1]])
  }

  /** All the entries that are not null, in order, or nothing at all when one of them is refused. */
  lemma {:induction false} ThreadsIff(items: seq<Json>)
    ensures ThreadsOf(items).Some? <==> forall i :: 0 <= i < |NonNulls(items)| ==> ThreadEntry(NonNulls(items)[i]).Some?
    ensures ThreadsOf(items).Some? ==>
      (|ThreadsOf(items).value| == |NonNulls(items)|
        && forall i :: 0 <= i < |NonNulls(items)| ==> ThreadEntry(NonNulls(items)[i]) == Some(ThreadsOf(items).value[i]))
  {
    hide ThreadEntry;
    if |items| > 0 {
      var init, last := items[..|items| - 1], items[|items| - 1];
      ThreadsIff(init);
      if last.Null? {
        assert NonNulls(items) == NonNulls(init);
      } else {
        var entries := NonNulls(items);
        assert entries == NonNulls(init) + [last] && entries[|entries| - 1] == last;
        assert forall i :: 0 <= i < |entries| - 1 ==> entries[i] == NonNulls(init)[i];
      }
    }
  }

  ghost predicate Shows(threads: seq<NativeThreadInfo>, views: seq<ThreadView>)
    reads threads
  {
    |threads| == |views| && forall i :: 0 <= i < |threads| ==> threads[i].View() == views[i]
  }

  /** Answers nothing when an entry is not an object: the exception leaves the loop. */
  method AllThreads(items: seq<Json>) returns (r: Option<seq<NativeThreadInfo>>)
    ensures r.Some? <==> ThreadsOf(items).Some?
    ensures r.Some? ==> fresh(r.value) && Shows(r.value, ThreadsOf(items).value)
  {
    var threads: seq<NativeThreadInfo> := [];
    for i := 0 to |items|
      invariant ThreadsOf(items[..i]).Some? && fresh(threads) && Shows(threads, ThreadsOf(items[..i]).value)
    {
      assert items[..i + 1][..i] == items[..i];
      if !items[i].Null? {
        var thread := AsObject(ParseText(TextOf(items[i])));
        if thread.None? {
          Refused(items, i + 1);
          return None;
        }
        var info := new NativeThreadInfo();
        info.FromJsonObject(thread);
        threads := threads + [info];
      }
    }
    assert items[..|items|] == items;
    return Some(threads);
  }

  lemma {:induction false} Refused(items: seq<Json>, k: nat)
    requires k <= |items| && ThreadsOf(items[..k]).None?
    ensures ThreadsOf(items).None?
    decreases |items| - k
  {
    if k < |items| {
      assert items[..k + 1][..k] == items[..k];
      Refused(items, k + 1);
    } else {
      assert items[..k] == items;
    }
  }

  // The native stack trace

  const DEFAULT_MESSAGE: string := "Native exception"

  /** The message, set in two steps: the second one needs the whole signal description. */
  function MessageOf(backtrace: seq<Member>): string {
    match AsObject(Lookup(backtrace, "exception"))
    case None => DEFAULT_MESSAGE
    case Some(exception) =>
      var cause := OptString(exception, "cause", "");
      match AsString(Lookup(exception, "name"))
      case None => DEFAULT_MESSAGE
      case Some(name) => Or(SignalMessage(AsObject(Lookup(exception, "signalInfo")), cause), name + ": " + cause)
  }

  function SignalMessage(signal: Option<seq<Member>>, cause: string): Option<string> {
    if signal.None? then None
    else match (AsString(Lookup(signal.value, "signalName")), AsInt(Lookup(signal.value, "signalCode")), AsLong(Lookup(signal.value, "faultAddress")))
      case (Some(name), Some(code), Some(address)) =>
        Some(name + " (code " + Decimal(code) + ") " + cause + " at " + ("0x" + SignedHex(address)))
      case _ => None
  }

  /** The message in each case: a whole signal description, an exception with a name, or neither. */
  lemma MessageCases(backtrace: seq<Member>)
    ensures AsObject(Lookup(backtrace, "exception")).None? ==> MessageOf(backtrace) == "Native exception"
    ensures match Lookup(backtrace, "exception")
      case Some(Object(exception)) =>
        var cause := match Lookup(exception, "cause") case Some(v) => TextOf(v) case None => "";
        (match Lookup(exception, "name")
         case None => MessageOf(backtrace) == "Native exception"
         case Some(name) =>
           match Lookup(exception, "signalInfo")
           case Some(Object(signal)) =>
             var n, c, a := Lookup(signal, "signalName"), AsInt(Lookup(signal, "signalCode")), AsLong(Lookup(signal, "faultAddress"));
             if n.Some? && c.Some? && a.Some?
               then MessageOf(backtrace) == TextOf(n.value) + " (code " + Decimal(c.value) + ") " + cause + " at " + ("0x" + SignedHex(a.value))
               else MessageOf(backtrace) == TextOf(name) + ": " + cause
           case _ => MessageOf(backtrace) == TextOf(name) + ": " + cause)
      case _ => true
  {
    hide Lookup, TextOf, AsInt, AsLong, Decimal, SignedHex;
  }

  function ThreadViews(backtrace: seq<Member>): seq<ThreadView> {
    match AsArray(Lookup(backtrace, "threads")) case None => [] case Some(items) => Or(ThreadsOf(items), [])
  }

  class NativeStackTrace {
    var crashedThread: NativeThreadInfo?
    var threads: seq<NativeThreadInfo>
    var exceptionMessage: string

    constructor ()
      ensures crashedThread == null && threads == [] && exceptionMessage == DEFAULT_MESSAGE
    {
      crashedThread, threads, exceptionMessage := null, [], DEFAULT_MESSAGE;
    }

    /**
     * `ok` is false when the text is not a JSON object: the parser's exception is not caught here. `refusal` is the
     * message of the exception for a backtrace that is missing or no object.
     */
    method TransformText(text: string, refusal: string) returns (ok: bool)
      requires crashedThread == null && threads == [] && exceptionMessage == DEFAULT_MESSAGE
      modifies this
      ensures ok <==> AsObject(ParseText(text)).Some?
      ensures ok ==> var report := AsObject(ParseText(text)).value;
        var backtrace := AsObject(Lookup(report, "backtrace"));
        && (backtrace.Some? ==> exceptionMessage == MessageOf(backtrace.value) && Shows(threads, ThreadViews(backtrace.value)))
        && (backtrace.None? ==> exceptionMessage == refusal && threads == [])
        && IsFirstCrashed(crashedThread, threads)
    {
      var report := AsObject(ParseText(text));
      if report.None? {
        return false;
      }
      Transform(report.value, refusal);
      return true;
    }

    method Transform(report: seq<Member>, refusal: string)
      requires crashedThread == null && threads == [] && exceptionMessage == DEFAULT_MESSAGE
      modifies this
      ensures var backtrace := AsObject(Lookup(report, "backtrace"));
        && (backtrace.Some? ==> exceptionMessage == MessageOf(backtrace.value) && Shows(threads, ThreadViews(backtrace.value)))
        && (backtrace.None? ==> exceptionMessage == refusal && threads == [])
        && IsFirstCrashed(crashedThread, threads)
    {
      hide SignalMessage, ThreadsOf, TextOf, Lookup, OptString;
      var backtrace := AsObject(Lookup(report, "backtrace"));
      if backtrace.None? {
        exceptionMessage := refusal;
        return;
      }
      var exception := AsObject(Lookup(backtrace.value, "exception"));
      if exception.Some? {
        var cause := OptString(exception.value, "cause", "");
        var name := AsString(Lookup(exception.value, "name"));
        if name.Some? {
          exceptionMessage := name.value + ": " + cause;
          var message := SignalMessage(AsObject(Lookup(exception.value, "signalInfo")), cause);
          if message.Some? {
            exceptionMessage := message.value;
          }
        }
      }
      var items := AsArray(Lookup(backtrace.value, "threads"));
      if items.Some? {
        var all := AllThreads(items.value);
        if all.Some? {
          threads := all.value;
          crashedThread := Find(threads);
        }
      }
    }
  }

  /** The first thread marked as crashed, or none. */
  ghost predicate IsFirstCrashed(r: NativeThreadInfo?, threads: seq<NativeThreadInfo>)
    reads threads
  {
    if r == null then forall k :: 0 <= k < |threads| ==> !threads[k].crashed
    else exists i :: 0 <= i < |threads| && threads[i] == r && threads[i].crashed && forall k :: 0 <= k < i ==> !threads[k].crashed
  }

  method Find(threads: seq<NativeThreadInfo>) returns (r: NativeThreadInfo?)
    ensures IsFirstCrashed(r, threads)
  {
    for i := 0 to |threads|
      invariant forall k :: 0 <= k < i ==> !threads[k].crashed
    {
      if threads[i].crashed {
        return threads[i];
      }
    }
    return null;
  }
}
