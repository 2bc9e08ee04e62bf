/** The report printer: bounded formatted pieces, single quotes, trailing-comma trimming, quotes translated at the end. */
module Emitter {
  import opened Numerals
  import opened Json
  import opened Report

  /** The growing `std::string` the emitters append to. */
  class TextBuffer {
    var chars: string

    constructor ()
      ensures chars == ""
    {
      chars := "";
    }

    method Append(s: string)
      modifies this
      ensures chars == old(chars) + s
    {
      chars := chars + s;
    }

    method PopBack()
      requires chars != ""
      modifies this
      ensures chars == old(chars)[..|old(chars)| - 1]
    {
      chars := chars[..|chars| - 1];
    }

    /** `std::replace` over the whole text. */
    method ReplaceQuotes()
      modifies this
      ensures chars == Requoted(old(chars))
    {
      var i := 0;
      while i < |chars|
        invariant 0 <= i <= |chars| == |old(chars)|
        invariant forall k :: 0 <= k < i ==> chars[k] == Requoted(old(chars))[k]
        invariant forall k :: i <= k < |chars| ==> chars[k] == old(chars)[k]
      {
        if chars[i] == '\'' {
          chars := chars[i := '"'];
        }
        i := i + 1;
      }
    }
  }

  function Requoted(s: string): (r: string)
    ensures |r| == |s|
  {
    seq(|s|, i requires 0 <= i < |s| => if s[i] == '\'' then '"' else s[i])
  }

  // What the format strings write

  const PIECE_MAX: nat := 2047

  /** `vsnprintf` into a buffer of 2048 characters. */
  function Capped(s: string): string { if |s| <= PIECE_MAX then s else s[..PIECE_MAX] }

  /** What `vsnprintf` leaves of a text in 2048 characters, the last one being the terminator. */
  lemma CappedPrefix(s: string)
    ensures Capped(s) <= s && |Capped(s)| == if |s| < 2048 then |s| else 2047
  {
  }

  function KeyText(key: string): string { "'" + key + "':" }

  function StringText(key: string, value: string): string { KeyText(key) + ("'" + value + "'") }

  function NumberText(key: string, n: int): string { KeyText(key) + Decimal(n) }

  function BoolText(key: string, b: bool): string { KeyText(key) + (if b then "true" else "false") }

  /** A null-terminated argument list, joined with commas: a null argument ends it early. */
  function Listed(args: seq<Option<string>>): string {
    if |args| == 0 || args[0].None? then ""
    else if |args| == 1 || args[1].None? then args[0].value
    else args[0].value + "," + Listed(args[1..])
  }

  lemma ListedOne(arg: string)
    ensures Listed([Some(arg)]) == arg
  {
  }

  function NameText(name: Option<string>): string {
    if name.Some? then Capped(KeyText(name.value)) else ""
  }

  function ObjectText(name: Option<string>, body: string): string { NameText(name) + ("{" + body + "}") }

  function ArrayText(name: Option<string>, body: string): string { NameText(name) + ("[" + body + "]") }

  method EmitF(state: TextBuffer, formatted: string)
    modifies state
    ensures state.chars == old(state.chars) + Capped(formatted)
  {
    state.Append(Capped(formatted));
  }

  /** The body `_EMIT_E` and `_EMIT_A` share between their brackets. */
  method EmitList(state: TextBuffer, args: seq<Option<string>>)
    modifies state
    ensures state.chars == old(state.chars) + Listed(args)
  {
    var i := 0;
    while i < |args| && args[i].Some?
      invariant 0 <= i <= |args|
      invariant state.chars + Listed(args[i..]) == old(state.chars) + Listed(args)
    {
      state.Append(args[i].value);
      i := i + 1;
      if i < |args| && args[i].Some? {
        state.Append(",");
      }
    }
  }

  method EmitE(state: TextBuffer, name: Option<string>, args: seq<Option<string>>)
    modifies state
    ensures state.chars == old(state.chars) + ObjectText(name, Listed(args))
  {
    if name.Some? {
      EmitF(state, KeyText(name.value));
    }
    state.Append("{");
    EmitList(state, args);
    state.Append("}");
  }

  method EmitA(state: TextBuffer, name: Option<string>, args: seq<Option<string>>)
    modifies state
    ensures state.chars == old(state.chars) + ArrayText(name, Listed(args))
  {
    if name.Some? {
      EmitF(state, KeyText(name.value));
    }
    state.Append("[");
    EmitList(state, args);
    state.Append("]");
  }

  /** Items each followed by a comma, as the loops leave them before the last comma is popped. */
  function Terminated(items: seq<string>): string {
    if |items| == 0 then "" else Terminated(items[..|items| - 1]) + items[|items| - 1] + ","
  }

  function Commas(items: seq<string>): string {
    if |items| == 0 then "" else if |items| == 1 then items[0] else items[0] + "," + Commas(items[1..])
  }

  lemma {:induction false} CommasAppend(items: seq<string>, item: string)
    requires |items| > 0
    ensures Commas(items + [item]) == Commas(items) + "," + item
  {
    if |items| == 1 {
      assert (items + [item])[1..] == [item];
    } else {
      assert (items + [item])[1..] == items[1..] + [item];
      CommasAppend(items[1..], item);
    }
  }

  /** Popping the trailing comma leaves the items joined. */
  lemma {:induction false} PopTerminated(items: seq<string>)
    requires |items| > 0
    ensures Terminated(items) != ""
    ensures Terminated(items)[..|Terminated(items)| - 1] == Commas(items)
  {
    var init, last := items[..|items| - 1], items[|items| - 1];
    if |init| > 0 {
      PopTerminated(init);
      CommasAppend(init, last);
      assert Terminated(init) == Commas(init) + ",";
      assert items == init + [last];
    }
  }

  // Frames

  function FrameLabel(f: StackFrame): string {
    Capped("#" + ZeroPadded(Decimal(f.index), 2) + " pc " + ZeroPadded(Numeral(LowHalf(f.pc), 16), 16) + " " + f.soPath)
    + (if f.symName != "" then Capped(" (" + f.symName + "+" + Decimal(LowSigned(f.symAddrOffset)) + ")") else "")
  }

  function FrameBody(f: StackFrame): string {
    Capped(StringText("cstr", FrameLabel(f)) + ",")
    + Capped(NumberText("index", f.index) + ",")
    + Capped(NumberText("address", f.address) + ",")
    + Capped(NumberText("pc", f.pc) + ",")
    + Capped(NumberText("so_base", f.soBase) + ",")
    + Capped(NumberText("sym_addr", f.symAddr) + ",")
    + Capped(NumberText("sym_addr_offset", f.symAddrOffset))
    + (if f.soPath != "" then Capped("," + StringText("so_path", f.soPath)) else "")
    + (if f.symName != "" then Capped("," + StringText("sym_name", f.symName)) else "")
  }

  function FrameText(f: StackFrame): string { ObjectText(None, FrameBody(f)) }

  method FrameToString(f: StackFrame, frame: TextBuffer)
    modifies frame
    ensures frame.chars == old(frame.chars) + FrameLabel(f)
  {
    hide ZeroPadded, Decimal, Numeral, LowHalf, LowSigned, Capped;
    EmitF(frame, "#" + ZeroPadded(Decimal(f.index), 2) + " pc " + ZeroPadded(Numeral(LowHalf(f.pc), 16), 16) + " " + f.soPath);
    if f.symName != "" {
      EmitF(frame, " (" + f.symName + "+" + Decimal(LowSigned(f.symAddrOffset)) + ")");
    }
  }

  method FrameToJson(f: StackFrame, state: TextBuffer)
    modifies state
    ensures state.chars == old(state.chars) + FrameText(f)
  {
    hide StringText, NumberText, BoolText, KeyText, Capped, NameText, ObjectText, ArrayText, FrameLabel;
    var frame := new TextBuffer();
    var cstr := new TextBuffer();
    FrameToString(f, cstr);
    assert cstr.chars == FrameLabel(f);
    EmitF(frame, StringText("cstr", cstr.chars) + ",");
    assert frame.chars == Capped(StringText("cstr", FrameLabel(f)) + ",");
    EmitF(frame, NumberText("index", f.index) + ",");
    EmitF(frame, NumberText("address", f.address) + ",");
    EmitF(frame, NumberText("pc", f.pc) + ",");
    EmitF(frame, NumberText("so_base", f.soBase) + ",");
    EmitF(frame, NumberText("sym_addr", f.symAddr) + ",");
    EmitF(frame, NumberText("sym_addr_offset", f.symAddrOffset));
    ghost var numbers := frame.chars;
    if f.soPath != "" {
      EmitF(frame, "," + StringText("so_path", f.soPath));
    }
    assert frame.chars == numbers + (if f.soPath != "" then Capped("," + StringText("so_path", f.soPath)) else "");
    if f.symName != "" {
      EmitF(frame, "," + StringText("sym_name", f.symName));
    }
    assert frame.chars == FrameBody(f);
    ListedOne(frame.chars);
    EmitE(state, None, [Some(frame.chars)]);
  }

  function FrameTexts(frames: seq<StackFrame>): (r: seq<string>)
    ensures |r| == |frames| && forall i :: 0 <= i < |r| ==> r[i] == FrameText(frames[i])
  {
    seq(|frames|, i requires 0 <= i < |frames| => FrameText(frames[i]))
  }

  function CallstackText(frames: seq<StackFrame>): string {
    ArrayText(Some("stack"), Commas(FrameTexts(frames)))
  }

  method EmitCallstack(t: ThreadInfo, linker: Linker, state: TextBuffer)
    requires linker.pathMax > 0
    modifies state
    ensures state.chars == old(state.chars) + CallstackText(FramesOf(t, linker))
  {
    hide FrameText, StackFrameOf, ArrayText, Capped;
    var callstack := new TextBuffer();
    ghost var texts := FrameTexts(FramesOf(t, linker));
    if t.frames.Some? {
      var i := 0;
      while i < |t.frames.value|
        invariant 0 <= i <= |t.frames.value| == |texts|
        invariant callstack.chars == Terminated(texts[..i])
        invariant fresh(callstack) && state.chars == old(state.chars)
      {
        var cstr := new TextBuffer();
        FrameToJson(StackFrameOf(i, t.frames.value[i], linker), cstr);
        callstack.Append(cstr.chars);
        callstack.Append(",");
        assert texts[..i + 1][..i] == texts[..i];
        i := i + 1;
      }
      assert texts[..i] == texts;
      if |texts| > 0 { PopTerminated(texts); }
      if callstack.chars != "" {
        callstack.PopBack();
      }
    }
    ListedOne(callstack.chars);
    EmitA(state, Some("stack"), [Some(callstack.chars)]);
  }

  // Threads

  function ThreadBody(t: ThreadInfo, linker: Linker): string
    requires linker.pathMax > 0
  {
    Capped(NumberText("threadNumber", t.tid) + ",")
    + Capped(StringText("threadId", t.name) + ",")
    + Capped(StringText("state", t.state) + ",")
    + Capped(NumberText("priority", t.priority) + ",")
    + Capped(BoolText("crashed", t.crashed) + ",")
    + CallstackText(FramesOf(t, linker))
  }

  function ThreadText(t: ThreadInfo, linker: Linker): string
    requires linker.pathMax > 0
  {
    ObjectText(None, ThreadBody(t, linker))
  }

  method EmitThreadInfo(t: ThreadInfo, linker: Linker, state: TextBuffer)
    requires linker.pathMax > 0
    modifies state
    ensures state.chars == old(state.chars) + ThreadText(t, linker)
  {
    hide StringText, NumberText, BoolText, KeyText, Capped, NameText, ObjectText, ArrayText, FrameLabel;
    var tstate := new TextBuffer();
    var callstack := new TextBuffer();
    EmitF(tstate, NumberText("threadNumber", t.tid) + ",");
    EmitF(tstate, StringText("threadId", t.name) + ",");
    EmitF(tstate, StringText("state", t.state) + ",");
    EmitF(tstate, NumberText("priority", t.priority) + ",");
    EmitF(tstate, BoolText("crashed", t.crashed) + ",");
    EmitCallstack(t, linker, callstack);
    tstate.Append(callstack.chars);
    assert tstate.chars == ThreadBody(t, linker);
    ListedOne(tstate.chars);
    EmitE(state, None, [Some(tstate.chars)]);
  }

  function ThreadTexts(threads: seq<ThreadInfo>, linker: Linker): (r: seq<string>)
    requires linker.pathMax > 0
    ensures |r| == |threads| && forall i :: 0 <= i < |r| ==> r[i] == ThreadText(threads[i], linker)
  {
    seq(|threads|, i requires 0 <= i < |threads| => ThreadText(threads[i], linker))
  }

  function ThreadsText(b: Backtrace): string
    requires b.linker.pathMax > 0
  {
    ArrayText(Some("threads"), Commas(ThreadTexts(b.threads, b.linker)))
  }

  method EmitThreadState(b: Backtrace, state: TextBuffer)
    requires b.linker.pathMax > 0
    modifies state
    ensures state.chars == old(state.chars) + ThreadsText(b)
  {
    hide ThreadText, ArrayText, Capped;
    var threads := new TextBuffer();
    ghost var texts := ThreadTexts(b.threads, b.linker);
    var i := 0;
    while i < |b.threads|
      invariant 0 <= i <= |b.threads|
      invariant threads.chars == Terminated(texts[..i])
      invariant fresh(threads) && state.chars == old(state.chars)
    {
      var tstr := new TextBuffer();
      EmitThreadInfo(b.threads[i], b.linker, tstr);
      threads.Append(tstr.chars);
      threads.Append(",");
      assert texts[..i + 1][..i] == texts[..i];
      i := i + 1;
    }
    assert texts[..i] == texts;
    if |texts| > 0 { PopTerminated(texts); }
    if threads.chars != "" {
      threads.PopBack();
    }
    ListedOne(threads.chars);
    EmitA(state, Some("threads"), [Some(threads.chars)]);
  }

  // Context, registers, signal

  function ContextText(b: Backtrace): string {
    Capped(StringText("name", b.processName) + ",")
    + Capped(StringText("description", b.description) + ",")
    + Capped(NumberText("timestamp", b.timestamp) + ",")
    + Capped(StringText("abi", b.arch) + ",")
    + Capped(NumberText("pid", b.pid) + ",")
    + Capped(NumberText("ppid", b.ppid) + ",")
    + Capped(NumberText("uid", b.uid) + ",")
    + Capped(StringText("buildid", b.buildId) + ",")
    + Capped(StringText("sessionid", b.sessionId) + ",")
    + Capped(StringText("platform", "android"))
  }

  method EmitContext(b: Backtrace, state: TextBuffer)
    modifies state
    ensures state.chars == old(state.chars) + ContextText(b)
  {
    hide StringText, NumberText, BoolText, KeyText, Capped, NameText, ObjectText, ArrayText, FrameLabel;
    EmitF(state, StringText("name", b.processName) + ",");
    EmitF(state, StringText("description", b.description) + ",");
    EmitF(state, NumberText("timestamp", b.timestamp) + ",");
    EmitF(state, StringText("abi", b.arch) + ",");
    EmitF(state, NumberText("pid", b.pid) + ",");
    EmitF(state, NumberText("ppid", b.ppid) + ",");
    EmitF(state, NumberText("uid", b.uid) + ",");
    EmitF(state, StringText("buildid", b.buildId) + ",");
    EmitF(state, StringText("sessionid", b.sessionId) + ",");
    EmitF(state, StringText("platform", "android"));
  }

  function RegisterText(r: Register): string {
    match r case TextRegister(name, text) => StringText(name, text) case NumberRegister(name, n) => NumberText(name, n)
  }

  /** One formatted piece per register; all but the last carry their comma. */
  function RegisterPieces(registers: seq<Register>): string {
    if |registers| == 0 then ""
    else if |registers| == 1 then Capped(RegisterText(registers[0]))
    else Capped(RegisterText(registers[0]) + ",") + RegisterPieces(registers[1..])
  }

  function RegistersText(registers: seq<Register>): string {
    ObjectText(Some("registers"), RegisterPieces(registers))
  }

  /** Answers null, and emits nothing, for a null context. */
  method EmitRegisters(registers: Option<seq<Register>>, state: TextBuffer) returns (r: Option<string>)
    requires state.chars == ""
    modifies state
    ensures r == if registers.Some? then Some(RegistersText(registers.value)) else None
    ensures state.chars == if registers.Some? then RegistersText(registers.value) else ""
  {
    hide RegisterText, ObjectText, Capped;
    if registers.None? {
      return None;
    }
    var text := new TextBuffer();
    var i := 0;
    while i < |registers.value|
      invariant 0 <= i <= |registers.value|
      invariant text.chars + RegisterPieces(registers.value[i..]) == RegisterPieces(registers.value)
      invariant fresh(text) && state.chars == ""
    {
      EmitF(text, RegisterText(registers.value[i]) + (if i + 1 < |registers.value| then "," else ""));
      assert RegisterText(registers.value[i]) + "" == RegisterText(registers.value[i]);
      i := i + 1;
    }
    assert text.chars == RegisterPieces(registers.value);
    ListedOne(text.chars);
    EmitE(state, Some("registers"), [Some(text.chars)]);
    assert state.chars == RegistersText(registers.value);
    return Some(state.chars);
  }

  function SignalBody(s: SignalInfo): string {
    Capped(StringText("signalName", s.name) + ",")
    + Capped(NumberText("signalCode", s.code) + ",")
    + Capped(NumberText("faultAddress", s.address))
  }

  function SignalText(s: SignalInfo): string {
    ObjectText(Some("exception"),
      Capped(StringText("name", "Native exception") + ",")
      + Capped(StringText("cause", s.cause) + ",")
      + ObjectText(Some("signalInfo"), SignalBody(s)))
  }

  method EmitSignalContext(s: SignalInfo, state: TextBuffer)
    modifies state
    ensures state.chars == old(state.chars) + SignalText(s)
  {
    hide StringText, NumberText, BoolText, KeyText, Capped, NameText, ObjectText, ArrayText, FrameLabel;
    var exception := new TextBuffer();
    var csiginfo := new TextBuffer();
    EmitF(exception, StringText("name", "Native exception") + ",");
    assert exception.chars == Capped(StringText("name", "Native exception") + ",");
    EmitF(exception, StringText("cause", s.cause) + ",");
    EmitF(csiginfo, StringText("signalName", s.name) + ",");
    EmitF(csiginfo, NumberText("signalCode", s.code) + ",");
    EmitF(csiginfo, NumberText("faultAddress", s.address));
    assert csiginfo.chars == SignalBody(s);
    ListedOne(csiginfo.chars);
    EmitE(exception, Some("signalInfo"), [Some(csiginfo.chars)]);
    ListedOne(exception.chars);
    EmitE(state, Some("exception"), [Some(exception.chars)]);
  }

  // The whole report

  function BacktraceArguments(b: Backtrace): seq<Option<string>>
    requires b.linker.pathMax > 0
  {
    [Some(ContextText(b)),
     if b.registers.Some? then Some(RegistersText(b.registers.value)) else None,
     Some(SignalText(b.signal)),
     Some(ThreadsText(b))]
  }

  /** The report before its quotes are translated. */
  function BacktraceText(b: Backtrace): string
    requires b.linker.pathMax > 0
  {
    "{" + ObjectText(Some("backtrace"), Listed(BacktraceArguments(b))) + "}"
  }

  function Emitted(b: Backtrace): string
    requires b.linker.pathMax > 0
  {
    Requoted(BacktraceText(b))
  }

  method EmitBacktrace(b: Backtrace) returns (state: TextBuffer)
    requires b.linker.pathMax > 0
    ensures fresh(state) && state.chars == Emitted(b)
  {
    hide ContextText, RegistersText, SignalText, ThreadsText, ObjectText, Listed, Requoted;
    state := new TextBuffer();
    var context := new TextBuffer();
    var threads := new TextBuffer();
    var regs := new TextBuffer();
    var sig := new TextBuffer();
    state.Append("{");
    EmitContext(b, context);
    assert context.chars == ContextText(b);
    var registers := EmitRegisters(b.registers, regs);
    EmitSignalContext(b.signal, sig);
    EmitThreadState(b, threads);
    assert sig.chars == SignalText(b.signal) && threads.chars == ThreadsText(b);
    assert [Some(context.chars), registers, Some(sig.chars), Some(threads.chars)] == BacktraceArguments(b);
    EmitE(state, Some("backtrace"), [Some(context.chars), registers, Some(sig.chars), Some(threads.chars)]);
    state.Append("}");
    assert state.chars == BacktraceText(b);
    state.ReplaceQuotes();
  }
}
