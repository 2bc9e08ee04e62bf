/** What the readers recover from an emitted report. */
module RoundTrip {
  import opened Numerals
  import opened Json
  import opened Report
  import opened Emitter
  import opened ReportValue
  import opened Readability
  import opened Readers
  import opened JsonAccess

  /** An address in the report: exact below 2^63, else the largest `long`. */
  function AddressText(w: Word): string { "0x" + Numeral(Clamp(w, LONG_LIMIT), 16) }

  function RecoveredFrame(f: StackFrame): StackTraceElement {
    StackTraceElement(
      AddressText(f.address),
      if f.symName != "" then f.symName else "???",
      if f.soPath != "" then f.soPath else AddressText(f.soBase),
      -2)
  }

  function RecoveredStack(frames: seq<StackFrame>): (r: seq<Option<StackTraceElement>>)
    ensures |r| == |frames| && forall i :: 0 <= i < |r| ==> r[i] == Some(RecoveredFrame(frames[i]))
  {
    seq(|frames|, i requires 0 <= i < |frames| => Some(RecoveredFrame(frames[i])))
  }

  function RecoveredThread(t: ThreadInfo, linker: Linker): ThreadView
    requires linker.pathMax > 0
  {
    ThreadView(t.crashed, t.state, t.tid, t.name, t.priority, RecoveredStack(FramesOf(t, linker)))
  }

  function RecoveredThreads(threads: seq<ThreadInfo>, linker: Linker): (r: seq<ThreadView>)
    requires linker.pathMax > 0
    ensures |r| == |threads| && forall i :: 0 <= i < |r| ==> r[i] == RecoveredThread(threads[i], linker)
  {
    seq(|threads|, i requires 0 <= i < |threads| => RecoveredThread(threads[i], linker))
  }

  function RecoveredMessage(s: SignalInfo): string {
    s.name + " (code " + Decimal(s.code) + ") " + s.cause + " at " + AddressText(s.address)
  }

  /** The address a frame prints is the address the reader shows, exactly below 2^63. */
  lemma AddressPreserved(w: Word)
    ensures AllDigits(AddressText(w)[2..], 16)
    ensures NumeralValue(AddressText(w)[2..], 16) == w <==> w < LONG_LIMIT
  {
    NumeralRoundTrip(Clamp(w, LONG_LIMIT), 16);
    assert AddressText(w)[2..] == Numeral(Clamp(w, LONG_LIMIT), 16);
  }

  lemma FrameShape(f: StackFrame)
    ensures var ms := FrameMembers(f);
      && |ms| == 7 + (if f.soPath != "" then 1 else 0) + (if f.symName != "" then 1 else 0)
      && ms[0] == Member("cstr", String(FrameLabel(f))) && ms[1] == Member("index", NumberOf(f.index))
      && ms[2] == Member("address", NumberOf(f.address)) && ms[3] == Member("pc", NumberOf(f.pc))
      && ms[4] == Member("so_base", NumberOf(f.soBase)) && ms[5] == Member("sym_addr", NumberOf(f.symAddr))
      && ms[6] == Member("sym_addr_offset", NumberOf(f.symAddrOffset))
      && (f.soPath != "" ==> ms[7] == Member("so_path", String(f.soPath)))
      && (f.symName != "" ==> ms[|ms| - 1] == Member("sym_name", String(f.symName)))
  {
    hide FrameLabel, NumberOf;
  }

  lemma FrameLookups(f: StackFrame)
    ensures Lookup(FrameMembers(f), "address") == Some(NumberOf(f.address))
    ensures Lookup(FrameMembers(f), "so_base") == Some(NumberOf(f.soBase))
    ensures Lookup(FrameMembers(f), "lineNumber") == None
    ensures Lookup(FrameMembers(f), "so_path") == if f.soPath != "" then Some(String(f.soPath)) else None
    ensures Lookup(FrameMembers(f), "sym_name") == if f.symName != "" then Some(String(f.symName)) else None
  {
    hide *;
    FrameShape(f);
    var ms := FrameMembers(f);
    LookupAt(ms, 2, "address");
    LookupAt(ms, 4, "so_base");
    if f.soPath != "" { LookupAt(ms, 7, "so_path"); } else { LookupMissing(ms, "so_path"); }
    if f.symName != "" { LookupAt(ms, |ms| - 1, "sym_name"); } else { LookupMissing(ms, "sym_name"); }
    LookupMissing(ms, "lineNumber");
  }

  /** The fields no reader asks for are there all the same. */
  lemma OtherLookups(f: StackFrame)
    ensures Lookup(FrameMembers(f), "cstr") == Some(String(FrameLabel(f)))
    ensures Lookup(FrameMembers(f), "index") == Some(NumberOf(f.index))
    ensures Lookup(FrameMembers(f), "pc") == Some(NumberOf(f.pc))
    ensures Lookup(FrameMembers(f), "sym_addr") == Some(NumberOf(f.symAddr))
    ensures Lookup(FrameMembers(f), "sym_addr_offset") == Some(NumberOf(f.symAddrOffset))
  {
    hide *;
    FrameShape(f);
    var ms := FrameMembers(f);
    LookupAt(ms, 0, "cstr");
    LookupAt(ms, 1, "index");
    LookupAt(ms, 3, "pc");
    LookupAt(ms, 5, "sym_addr");
    LookupAt(ms, 6, "sym_addr_offset");
  }

  lemma FrameRecovered(f: StackFrame)
    ensures ElementOf(FrameMembers(f)) == RecoveredFrame(f)
  {
    FrameLookups(f);
    hide FrameMembers, Lookup, NumberOf, AsLong, Clamp, Numeral;
    WordRead(f.address);
    WordRead(f.soBase);
  }

  lemma WordRead(w: Word)
    ensures AsLong(Some(NumberOf(w))) == Some(Clamp(w, LONG_LIMIT)) && Clamp(w, LONG_LIMIT) >= 0
  {
    PrintedInteger(w);
  }

  lemma IntRead(n: Int32)
    ensures AsLong(Some(NumberOf(n))) == Some(n) && AsInt(Some(NumberOf(n))) == Some(n)
  {
    PrintedInteger(n);
  }

  lemma StackRecovered(frames: seq<StackFrame>)
    ensures StackOf(FrameValues(frames)) == RecoveredStack(frames)
  {
    hide FrameMembers, ElementOf, RecoveredFrame;
    forall i | 0 <= i < |frames| ensures StackOf(FrameValues(frames))[i] == RecoveredStack(frames)[i] {
      FrameRecovered(frames[i]);
    }
  }

  lemma ThreadLookups(t: ThreadInfo, linker: Linker)
    requires linker.pathMax > 0
    ensures var ms := ThreadMembers(t, linker);
      && Lookup(ms, "threadNumber") == Some(NumberOf(t.tid)) && Lookup(ms, "threadId") == Some(String(t.name))
      && Lookup(ms, "state") == Some(String(t.state)) && Lookup(ms, "priority") == Some(NumberOf(t.priority))
      && Lookup(ms, "crashed") == Some(Bool(t.crashed)) && Lookup(ms, "stack") == Some(Array(FrameValues(FramesOf(t, linker))))
  {
    hide FrameValues, FramesOf, NumberOf, Lookup;
    var ms := ThreadMembers(t, linker);
    LookupAt(ms, 0, "threadNumber");
    LookupAt(ms, 1, "threadId");
    LookupAt(ms, 2, "state");
    LookupAt(ms, 3, "priority");
    LookupAt(ms, 4, "crashed");
    LookupAt(ms, 5, "stack");
  }

  lemma ThreadRead(t: ThreadInfo, linker: Linker)
    requires linker.pathMax > 0
    ensures ThreadOf(ThreadMembers(t, linker)) == RecoveredThread(t, linker)
  {
    ThreadLookups(t, linker);
    IntRead(t.tid);
    IntRead(t.priority);
    StackRecovered(FramesOf(t, linker));
    hide ThreadMembers, FrameValues, FramesOf, StackOf, RecoveredStack, NumberOf, Lookup, AsLong, AsInt;
  }

  lemma ThreadRecovered(t: ThreadInfo, linker: Linker)
    requires linker.pathMax > 0
    ensures ThreadEntry(Object(ThreadMembers(t, linker))) == Some(RecoveredThread(t, linker))
  {
    ThreadWellFormed(t, linker);
    TextRoundTrip(Object(ThreadMembers(t, linker)));
    ThreadRead(t, linker);
    hide ThreadMembers, ThreadOf, RecoveredThread, Print, ParseText, WellFormed;
  }

  lemma {:induction false} ThreadsRecovered(threads: seq<ThreadInfo>, linker: Linker)
    requires linker.pathMax > 0
    ensures ThreadsOf(ThreadValues(threads, linker)) == Some(RecoveredThreads(threads, linker))
  {
    hide ThreadMembers, RecoveredThread, ThreadEntry;
    if |threads| > 0 {
      var init, last := threads[..|threads| - 1], threads[|threads| - 1];
      ThreadsRecovered(init, linker);
      ThreadRecovered(last, linker);
      assert ThreadValues(threads, linker)[..|threads| - 1] == ThreadValues(init, linker);
      assert RecoveredThreads(threads, linker) == RecoveredThreads(init, linker) + [RecoveredThread(last, linker)];
    }
  }

  lemma SignalRecovered(s: SignalInfo)
    ensures SignalMessage(Some(SignalInfoMembers(s)), s.cause) == Some(RecoveredMessage(s))
  {
    hide IsInteger, IntegerValue, AsLong, AsInt, NumberOf, Numeral, Decimal, Clamp;
    var signal := SignalInfoMembers(s);
    LookupAt(signal, 0, "signalName");
    LookupAt(signal, 1, "signalCode");
    LookupAt(signal, 2, "faultAddress");
    IntRead(s.code);
    WordRead(s.address);
  }

  lemma MessageRecovered(s: SignalInfo, backtrace: seq<Member>)
    requires Lookup(backtrace, "exception") == Some(Object(ExceptionMembers(s)))
    ensures MessageOf(backtrace) == RecoveredMessage(s)
  {
    hide SignalMessage, RecoveredMessage, SignalInfoMembers;
    var ms := ExceptionMembers(s);
    LookupAt(ms, 1, "cause");
    LookupAt(ms, 0, "name");
    LookupAt(ms, 2, "signalInfo");
    SignalRecovered(s);
  }

  /** The threads and the message a reader gets out of a text, if the text is a report at all. */
  function ReadReport(text: string): Option<(seq<ThreadView>, string)> {
    match AsObject(ParseText(text))
    case None => None
    case Some(report) =>
      match AsObject(Lookup(report, "backtrace"))
      case None => None
      case Some(backtrace) => Some((ThreadViews(backtrace), MessageOf(backtrace)))
  }

  lemma ContextKeysDiffer(b: Backtrace)
    ensures |ContextMembers(b)| == 10
    ensures forall j :: 0 <= j < 10 ==> ContextMembers(b)[j].key != "exception" && ContextMembers(b)[j].key != "threads"
  {
    hide NumberOf;
  }

  lemma ReportMember(members: seq<Member>)
    ensures Lookup([Member("backtrace", Object(members))], "backtrace") == Some(Object(members))
  {
    LookupAt([Member("backtrace", Object(members))], 0, "backtrace");
  }

  lemma ProcessShape(b: Backtrace)
    requires b.linker.pathMax > 0
    ensures var ms := BacktraceMembers(b);
      && ContextMembers(b) <= ms && |ContextMembers(b)| == 10
      && |ms| == (if b.registers.None? then 10 else 13)
      && (b.registers.Some? ==>
            && ms[10] == Member("registers", Object(RegisterMembers(b.registers.value)))
            && ms[11].key == "exception" && ms[12].key == "threads")
  {
    hide NumberOf, ThreadValues, RegisterMembers, ExceptionMembers;
  }

  lemma ContextShape(b: Backtrace)
    ensures var ms := ContextMembers(b);
      && |ms| == 10 && ms[0] == Member("name", String(b.processName)) && ms[1] == Member("description", String(b.description))
      && ms[2] == Member("timestamp", NumberOf(b.timestamp)) && ms[3] == Member("abi", String(b.arch))
      && ms[4] == Member("pid", NumberOf(b.pid)) && ms[5] == Member("ppid", NumberOf(b.ppid))
      && ms[6] == Member("uid", NumberOf(b.uid)) && ms[7] == Member("buildid", String(b.buildId))
      && ms[8] == Member("sessionid", String(b.sessionId)) && ms[9] == Member("platform", String("android"))
  {
    hide NumberOf;
  }

  /** What follows the process fields has other keys. */
  lemma PastContext(b: Backtrace, i: nat, key: string)
    requires b.linker.pathMax > 0 && i < 10 && |ContextMembers(b)| == 10 && ContextMembers(b)[i].key == key
    requires key != "registers" && key != "exception" && key != "threads"
    requires forall j :: i < j < 10 ==> ContextMembers(b)[j].key != key
    ensures Lookup(BacktraceMembers(b), key) == Some(ContextMembers(b)[i].value)
  {
    hide *;
    ProcessShape(b);
    LookupAt(BacktraceMembers(b), i, key);
  }

  lemma TextLookups(b: Backtrace)
    requires b.linker.pathMax > 0
    ensures var ms := BacktraceMembers(b);
      && Lookup(ms, "name") == Some(String(b.processName)) && Lookup(ms, "description") == Some(String(b.description))
      && Lookup(ms, "abi") == Some(String(b.arch)) && Lookup(ms, "buildid") == Some(String(b.buildId))
      && Lookup(ms, "sessionid") == Some(String(b.sessionId)) && Lookup(ms, "platform") == Some(String("android"))
  {
    hide *;
    ContextShape(b);
    PastContext(b, 0, "name");
    PastContext(b, 1, "description");
    PastContext(b, 3, "abi");
    PastContext(b, 7, "buildid");
    PastContext(b, 8, "sessionid");
    PastContext(b, 9, "platform");
  }

  lemma NumberLookups(b: Backtrace)
    requires b.linker.pathMax > 0
    ensures var ms := BacktraceMembers(b);
      && Lookup(ms, "timestamp") == Some(NumberOf(b.timestamp)) && Lookup(ms, "pid") == Some(NumberOf(b.pid))
      && Lookup(ms, "ppid") == Some(NumberOf(b.ppid)) && Lookup(ms, "uid") == Some(NumberOf(b.uid))
  {
    hide *;
    ContextShape(b);
    PastContext(b, 2, "timestamp");
    PastContext(b, 4, "pid");
    PastContext(b, 5, "ppid");
    PastContext(b, 6, "uid");
  }

  lemma RegistersLookup(b: Backtrace)
    requires b.linker.pathMax > 0
    ensures Lookup(BacktraceMembers(b), "registers")
         == if b.registers.Some? then Some(Object(RegisterMembers(b.registers.value))) else None
  {
    hide *;
    ContextShape(b);
    ProcessShape(b);
    var ms := BacktraceMembers(b);
    if b.registers.Some? {
      LookupAt(ms, 10, "registers");
    } else {
      assert ms == ContextMembers(b);
      LookupMissing(ms, "registers");
    }
  }

  /** The fields of the process, by their keys, with or without a context. */
  lemma ProcessLookups(b: Backtrace)
    requires b.linker.pathMax > 0
    ensures var ms := BacktraceMembers(b);
      && Lookup(ms, "name") == Some(String(b.processName)) && Lookup(ms, "description") == Some(String(b.description))
      && Lookup(ms, "timestamp") == Some(NumberOf(b.timestamp)) && Lookup(ms, "abi") == Some(String(b.arch))
      && Lookup(ms, "pid") == Some(NumberOf(b.pid)) && Lookup(ms, "ppid") == Some(NumberOf(b.ppid))
      && Lookup(ms, "uid") == Some(NumberOf(b.uid)) && Lookup(ms, "buildid") == Some(String(b.buildId))
      && Lookup(ms, "sessionid") == Some(String(b.sessionId)) && Lookup(ms, "platform") == Some(String("android"))
      && Lookup(ms, "registers") == (if b.registers.Some? then Some(Object(RegisterMembers(b.registers.value))) else None)
  {
    hide *;
    TextLookups(b);
    NumberLookups(b);
    RegistersLookup(b);
  }

  /** Each register is found by its name, unless a later one has the same. */
  lemma RegisterLookups(registers: seq<Register>, i: nat)
    requires i < |registers| && forall j :: i < j < |registers| ==> registers[j].name != registers[i].name
    ensures Lookup(RegisterMembers(registers), registers[i].name) == Some(match registers[i]
      case TextRegister(_, text) => String(text)
      case NumberRegister(_, n) => NumberOf(n))
  {
    hide NumberOf;
    LookupAt(RegisterMembers(registers), i, registers[i].name);
  }

  lemma BacktraceLookups(b: Backtrace)
    requires b.linker.pathMax > 0 && b.registers.Some?
    ensures Lookup(BacktraceMembers(b), "exception") == Some(Object(ExceptionMembers(b.signal)))
    ensures Lookup(BacktraceMembers(b), "threads") == Some(Array(ThreadValues(b.threads, b.linker)))
  {
    ContextKeysDiffer(b);
    hide ContextMembers, ExceptionMembers, RegisterMembers, ThreadValues;
    LookupAt(BacktraceMembers(b), 11, "exception");
    LookupAt(BacktraceMembers(b), 12, "threads");
  }

  lemma ValueRecovered(b: Backtrace)
    requires b.linker.pathMax > 0 && b.registers.Some?
    requires ParseText(Emitted(b)) == Some(BacktraceValue(b))
    ensures ReadReport(Emitted(b)) == Some((RecoveredThreads(b.threads, b.linker), RecoveredMessage(b.signal)))
  {
    hide BacktraceMembers, ExceptionMembers, ThreadValues, Emitted, MessageOf, RecoveredThreads, RecoveredMessage, ThreadsOf, Lookup;
    ReportMember(BacktraceMembers(b));
    BacktraceLookups(b);
    ThreadsRecovered(b.threads, b.linker);
    MessageRecovered(b.signal, BacktraceMembers(b));
  }

  /**
   * The report reads back if and only if it fits: the same threads in the same order, each stack's frames in
   * order, and the message of the signal.
   */
  lemma ReportRoundTrip(b: Backtrace)
    requires FieldWidths(b) && CleanBacktrace(b) && b.registers.Some?
    ensures ReadReport(Emitted(b)) == if ReportFits(b)
      then Some((RecoveredThreads(b.threads, b.linker), RecoveredMessage(b.signal)))
      else None
  {
    assert b.linker.pathMax > 0;
    hide RecoveredThreads, RecoveredMessage, Emitted, BacktraceValue, ReportFits, CleanBacktrace, FieldWidths;
    ReadableIffFits(b);
    if ReportFits(b) { ValueRecovered(b); }
  }

  /** Where paths have at most 1745 characters nothing is left to assume about lengths. */
  lemma ShortPathRoundTrip(b: Backtrace)
    requires FieldWidths(b) && CleanBacktrace(b) && b.registers.Some? && b.linker.pathMax <= PATH_FITS
    ensures ReadReport(Emitted(b)) == Some((RecoveredThreads(b.threads, b.linker), RecoveredMessage(b.signal)))
  {
    assert b.linker.pathMax > 0;
    hide RecoveredThreads, RecoveredMessage, Emitted, ReportFits, CleanBacktrace, FieldWidths, ReadReport;
    ShortPathsFit(b);
    ReportRoundTrip(b);
  }

  /** A null context costs the reader every thread and the signal, but not the parse. */
  lemma NullContextRoundTrip(b: Backtrace)
    requires FieldWidths(b) && CleanProcess(b) && b.registers.None?
    ensures ReadReport(Emitted(b)) == Some(([], DEFAULT_MESSAGE))
  {
    hide Emitted, ContextMembers, Lookup, FieldWidths, CleanProcess, Print, ParseText;
    NullContextReadable(b);
    ReportMember(ContextMembers(b));
    NullContextLookups(b);
  }

  lemma NullContextLookups(b: Backtrace)
    ensures Lookup(ContextMembers(b), "exception") == None && Lookup(ContextMembers(b), "threads") == None
  {
    ContextKeysDiffer(b);
    hide ContextMembers;
    LookupMissing(ContextMembers(b), "exception");
    LookupMissing(ContextMembers(b), "threads");
  }
}
