/** From the emitted text to a report file: the bounded copy, the length measured again, the write. */
module Storage {
  import opened Numerals
  import opened Json
  import opened Report
  import opened Emitter

  const NUL: char := '\0'

  // C strings

  function StrLen(s: seq<char>): (n: nat)
    ensures n <= |s| && NUL !in s[..n]
    ensures n < |s| ==> s[n] == NUL
  {
    if s == [] || s[0] == NUL then 0
    else
      var n := StrLen(s[1..]);
      assert s[..1 + n] == [s[0]] + s[1..][..n];
      1 + n
  }

  /** The buffer starts with `text` and a terminator. */
  predicate Holds(contents: seq<char>, text: string) {
    |text| < |contents| && text + [NUL] <= contents
  }

  lemma {:induction false} HeldLength(contents: seq<char>, text: string)
    requires Holds(contents, text) && NUL !in text
    ensures StrLen(contents) == |text|
  {
    var n := StrLen(contents);
    assert contents[|text|] == NUL;
    forall i | 0 <= i < n ensures contents[i] != NUL { assert contents[..n][i] in contents[..n]; }
    forall i | 0 <= i < |text| ensures contents[i] != NUL { assert text[i] in text; }
  }

  method MeasureString(buffer: array<char>) returns (n: nat)
    requires NUL in buffer[..]
    ensures n == StrLen(buffer[..])
  {
    n := 0;
    while n < buffer.Length && buffer[n] != NUL
      invariant n <= buffer.Length && NUL !in buffer[..n]
    {
      assert buffer[..n + 1] == buffer[..n] + [buffer[n]];
      n := n + 1;
    }
    assert buffer[..buffer.Length] == buffer[..];
    Measured(buffer[..], n);
  }

  lemma Measured(s: seq<char>, n: nat)
    requires n < |s| && NUL !in s[..n] && s[n] == NUL
    ensures StrLen(s) == n
  {
    assert Holds(s, s[..n]);
    HeldLength(s, s[..n]);
  }

  // The bounded copy

  /** What of a text fits a buffer that keeps two characters back. */
  function Copied(text: string, maxSize: nat): string
    requires maxSize >= 2
  {
    if |text| <= maxSize - 2 then text else text[..maxSize - 2]
  }

  /** The end of `collect_backtrace`; `whole` is its answer. The buffer's last character is never written. */
  method CollectBacktrace(buffer: array<char>, maxSize: nat, b: Backtrace) returns (whole: bool)
    requires 2 <= maxSize <= buffer.Length && b.linker.pathMax > 0
    modifies buffer
    ensures whole <==> |Emitted(b)| <= maxSize - 2
    ensures Holds(buffer[..], Copied(Emitted(b), maxSize))
    ensures forall i :: |Copied(Emitted(b), maxSize)| < i < buffer.Length ==> buffer[i] == old(buffer[i])
  {
    hide Emitted;
    var state := EmitBacktrace(b);
    var text := state.chars;
    var copySize := if |text| < maxSize - 2 then |text| else maxSize - 2;
    var i := 0;
    while i < copySize
      invariant 0 <= i <= copySize && buffer[..i] == text[..i]
      invariant forall k :: i <= k < buffer.Length ==> buffer[k] == old(buffer[k])
    {
      buffer[i] := text[i];
      i := i + 1;
    }
    buffer[copySize] := NUL;
    assert text[..copySize] == Copied(text, maxSize);
    assert buffer[..copySize] == text[..copySize];
    return copySize == |text|;
  }

  // The write

  datatype StoredFile = StoredFile(content: string, modified: int)

  /** The directory the reports are left in. */
  class ReportsDirectory {
    var files: map<string, StoredFile>

    constructor ()
      ensures files == map[]
    {
      files := map[];
    }
  }

  /** The part of a payload that is written: no more than asked for, and nothing from its terminator on. */
  function Payload(contents: seq<char>, size: nat): string {
    contents[..if size < StrLen(contents) then size else StrLen(contents)]
  }

  /** A stored report is whole exactly when the caller's size covers it: its length or the buffer's do. */
  lemma PayloadWhole(contents: seq<char>, text: string, size: nat)
    requires Holds(contents, text) && NUL !in text
    ensures Payload(contents, size) == text <==> size >= |text|
  {
    HeldLength(contents, text);
    assert contents[..|text|] == text;
  }

  /** Answers false, and leaves the directory alone, when the file cannot be opened. */
  method ToStorage(dir: ReportsDirectory, name: string, opens: bool, now: int, payload: array<char>, size: nat) returns (ok: bool)
    requires NUL in payload[..]
    modifies dir
    ensures ok <==> opens
    ensures dir.files == if opens
      then old(dir.files)[name := StoredFile(Payload(payload[..], size), now)]
      else old(dir.files)
  {
    var length := MeasureString(payload);
    var payloadSize := if size < length then size else length;
    if opens {
      dir.files := dir.files[name := StoredFile(payload[..payloadSize], now)];
      assert payload[..payloadSize] == Payload(payload[..], size);
    }
    return opens;
  }

  /** Strings taken from C hold no terminator. */
  predicate Terminates(b: Backtrace) {
    && NUL !in b.processName && NUL !in b.description && NUL !in b.arch && NUL !in b.buildId && NUL !in b.sessionId
    && NUL !in b.signal.cause && NUL !in b.signal.name
    && (b.registers.Some? ==> forall i :: 0 <= i < |b.registers.value| ==> RegisterTerminates(b.registers.value[i]))
    && (forall i :: 0 <= i < |b.threads| ==> NUL !in b.threads[i].name && NUL !in b.threads[i].state)
    && LinkerTerminates(b.linker)
  }

  predicate RegisterTerminates(r: Register) { NUL !in r.name && (r.TextRegister? ==> NUL !in r.text) }

  predicate LinkerTerminates(linker: Linker) {
    && linker.pathMax > 0
    && forall a :: a in linker.symbols ==>
      && (linker.symbols[a].path.Some? ==> NUL !in linker.symbols[a].path.value)
      && (linker.symbols[a].symbol.Some? ==> NUL !in linker.symbols[a].symbol.value)
  }

  // No terminator in the middle of a report

  lemma {:induction false} NumeralTerminates(n: nat, base: nat)
    requires IsBase(base)
    ensures NUL !in Numeral(n, base)
    decreases n
  {
    if n >= base { NumeralTerminates(n / base, base); }
  }

  lemma PiecesTerminate(key: string, n: int, b: bool, value: string)
    requires NUL !in key && NUL !in value
    ensures NUL !in NumberText(key, n) && NUL !in StringText(key, value) && NUL !in BoolText(key, b)
  {
    NumeralTerminates(if n < 0 then -n else n, 10);
  }

  lemma CappedTerminates(s: string)
    requires NUL !in s
    ensures NUL !in Capped(s)
  {
  }

  lemma {:induction false} CommasTerminate(items: seq<string>)
    requires forall i :: 0 <= i < |items| ==> NUL !in items[i]
    ensures NUL !in Commas(items)
  {
    if |items| > 1 { CommasTerminate(items[1..]); }
  }

  lemma ObjectTerminates(name: Option<string>, body: string)
    requires NUL !in body && (name.Some? ==> NUL !in name.value)
    ensures NUL !in ObjectText(name, body) && NUL !in ArrayText(name, body)
  {
    if name.Some? { CappedTerminates(KeyText(name.value)); }
    hide Capped;
  }

  lemma NumberPiece(key: string, n: int)
    requires NUL !in key
    ensures NUL !in Capped(NumberText(key, n) + ",") && NUL !in Capped(NumberText(key, n))
  {
    PiecesTerminate(key, n, true, "");
    hide NumberText;
  }

  lemma StringPiece(key: string, value: string)
    requires NUL !in key && NUL !in value
    ensures NUL !in Capped(StringText(key, value) + ",") && NUL !in Capped("," + StringText(key, value))
    ensures NUL !in Capped(StringText(key, value))
  {
    PiecesTerminate(key, 0, true, value);
    hide StringText;
  }

  lemma ZeroPaddedTerminates(s: string, width: nat)
    requires NUL !in s
    ensures NUL !in ZeroPadded(s, width)
  {
  }

  lemma LabelPartsTerminate(index: string, pc: string, path: string, symbol: string, offset: string)
    requires NUL !in index && NUL !in pc && NUL !in path && NUL !in symbol && NUL !in offset
    ensures NUL !in Capped("#" + index + " pc " + pc + " " + path)
    ensures NUL !in Capped(" (" + symbol + "+" + offset + ")")
  {
    CappedTerminates("#" + index + " pc " + pc + " " + path);
    CappedTerminates(" (" + symbol + "+" + offset + ")");
    hide Capped;
  }

  lemma DecimalTerminates(n: int)
    ensures NUL !in Decimal(n)
  {
    NumeralTerminates(if n < 0 then -n else n, 10);
  }

  lemma LabelTerminates(f: StackFrame)
    requires NUL !in f.soPath && NUL !in f.symName
    ensures NUL !in FrameLabel(f)
  {
    hide ZeroPadded, LowHalf, LowSigned, Numeral, Decimal, Capped;
    DecimalTerminates(f.index);
    NumeralTerminates(LowHalf(f.pc), 16);
    DecimalTerminates(LowSigned(f.symAddrOffset));
    ZeroPaddedTerminates(Decimal(f.index), 2);
    ZeroPaddedTerminates(Numeral(LowHalf(f.pc), 16), 16);
    LabelPartsTerminate(ZeroPadded(Decimal(f.index), 2), ZeroPadded(Numeral(LowHalf(f.pc), 16), 16), f.soPath, f.symName,
      Decimal(LowSigned(f.symAddrOffset)));
  }

  lemma FrameTerminates(f: StackFrame)
    requires NUL !in f.soPath && NUL !in f.symName
    ensures NUL !in FrameText(f)
  {
    hide Capped, StringText, NumberText, FrameLabel, ObjectText;
    LabelTerminates(f);
    StringPiece("cstr", FrameLabel(f));
    NumberPiece("index", f.index);
    NumberPiece("address", f.address);
    NumberPiece("pc", f.pc);
    NumberPiece("so_base", f.soBase);
    NumberPiece("sym_addr", f.symAddr);
    NumberPiece("sym_addr_offset", f.symAddrOffset);
    StringPiece("so_path", f.soPath);
    StringPiece("sym_name", f.symName);
    ObjectTerminates(None, FrameBody(f));
  }

  lemma ThreadTerminates(t: ThreadInfo, linker: Linker)
    requires LinkerTerminates(linker) && NUL !in t.name && NUL !in t.state
    ensures NUL !in ThreadText(t, linker)
  {
    hide Capped, StringText, NumberText, BoolText, FrameText, ObjectText, ArrayText;
    var frames := FramesOf(t, linker);
    forall i | 0 <= i < |frames| ensures NUL !in FrameTexts(frames)[i] { FrameTerminates(frames[i]); }
    CommasTerminate(FrameTexts(frames));
    ObjectTerminates(Some("stack"), Commas(FrameTexts(frames)));
    NumberPiece("threadNumber", t.tid);
    StringPiece("threadId", t.name);
    StringPiece("state", t.state);
    NumberPiece("priority", t.priority);
    PiecesTerminate("crashed", 0, t.crashed, "");
    CappedTerminates(BoolText("crashed", t.crashed) + ",");
    ObjectTerminates(None, ThreadBody(t, linker));
  }

  lemma ThreadsTerminate(b: Backtrace)
    requires Terminates(b)
    ensures NUL !in ThreadsText(b)
  {
    assert b.linker.pathMax > 0;
    hide ThreadText, ArrayText, LinkerTerminates;
    var texts := ThreadTexts(b.threads, b.linker);
    forall i | 0 <= i < |texts| ensures NUL !in texts[i] { ThreadTerminates(b.threads[i], b.linker); }
    CommasTerminate(texts);
    ObjectTerminates(Some("threads"), Commas(texts));
  }

  lemma ContextTerminates(b: Backtrace)
    requires Terminates(b)
    ensures NUL !in ContextText(b)
  {
    hide Capped, StringText, NumberText;
    StringPiece("name", b.processName);
    StringPiece("description", b.description);
    NumberPiece("timestamp", b.timestamp);
    StringPiece("abi", b.arch);
    NumberPiece("pid", b.pid);
    NumberPiece("ppid", b.ppid);
    NumberPiece("uid", b.uid);
    StringPiece("buildid", b.buildId);
    StringPiece("sessionid", b.sessionId);
    StringPiece("platform", "android");
  }

  lemma {:induction false} RegistersTerminate(registers: seq<Register>)
    requires forall i :: 0 <= i < |registers| ==> RegisterTerminates(registers[i])
    ensures NUL !in RegisterPieces(registers)
  {
    hide Capped, StringText, NumberText;
    if |registers| > 0 {
      match registers[0] {
        case TextRegister(name, text) => StringPiece(name, text);
        case NumberRegister(name, n) => NumberPiece(name, n);
      }
      RegistersTerminate(registers[1..]);
    }
  }

  lemma SignalTerminates(s: SignalInfo)
    requires NUL !in s.cause && NUL !in s.name
    ensures NUL !in SignalText(s)
  {
    hide Capped, StringText, NumberText, ObjectText;
    StringPiece("name", "Native exception");
    StringPiece("cause", s.cause);
    StringPiece("signalName", s.name);
    NumberPiece("signalCode", s.code);
    NumberPiece("faultAddress", s.address);
    ObjectTerminates(Some("signalInfo"), SignalBody(s));
    ObjectTerminates(Some("exception"),
      Capped(StringText("name", "Native exception") + ",") + Capped(StringText("cause", s.cause) + ",")
      + ObjectText(Some("signalInfo"), SignalBody(s)));
  }

  lemma {:induction false} ListedTerminates(args: seq<Option<string>>)
    requires forall i :: 0 <= i < |args| && args[i].Some? ==> NUL !in args[i].value
    ensures NUL !in Listed(args)
  {
    if |args| > 0 { ListedTerminates(args[1..]); }
  }

  lemma RegistersTextTerminates(registers: seq<Register>)
    requires forall i :: 0 <= i < |registers| ==> RegisterTerminates(registers[i])
    ensures NUL !in RegistersText(registers)
  {
    hide RegisterPieces, ObjectText;
    RegistersTerminate(registers);
    ObjectTerminates(Some("registers"), RegisterPieces(registers));
  }

  lemma ArgumentsTerminate(b: Backtrace)
    requires Terminates(b)
    ensures NUL !in Listed(BacktraceArguments(b))
  {
    hide ContextText, RegistersText, SignalText, ThreadsText, Listed;
    ContextTerminates(b);
    if b.registers.Some? { RegistersTextTerminates(b.registers.value); }
    SignalTerminates(b.signal);
    ThreadsTerminate(b);
    ListedTerminates(BacktraceArguments(b));
  }

  lemma RequotedTerminates(s: string)
    requires NUL !in s
    ensures NUL !in Requoted(s)
  {
    forall i | 0 <= i < |s| ensures Requoted(s)[i] != NUL { assert s[i] in s; }
  }

  lemma BracesTerminate(listed: string)
    requires NUL !in listed
    ensures NUL !in "{" + ObjectText(Some("backtrace"), listed) + "}"
  {
    ObjectTerminates(Some("backtrace"), listed);
    hide ObjectText;
  }

  /** C strings in, a C string out: the report holds no terminator of its own. */
  lemma ReportTerminates(b: Backtrace)
    requires Terminates(b)
    ensures NUL !in Emitted(b)
  {
    PathMax(b);
    ArgumentsTerminate(b);
    hide BacktraceArguments, ObjectText, Listed, Requoted, Terminates;
    BracesTerminate(Listed(BacktraceArguments(b)));
    RequotedTerminates(BacktraceText(b));
  }

  // The callers

  /** The file a caller leaves: the emitted report itself, or none when it was cut or the file cannot be opened. */
  function Left(files: map<string, StoredFile>, name: string, opens: bool, now: int, b: Backtrace): map<string, StoredFile>
    requires b.linker.pathMax > 0
  {
    if opens && |Emitted(b)| <= BACKTRACE_SIZE_MAX - 2 then files[name := StoredFile(Emitted(b), now)] else files
  }

  /** The crash interceptor measures the text and passes its length. */
  method StoreCrash(dir: ReportsDirectory, name: string, opens: bool, now: int, b: Backtrace)
    requires Terminates(b)
    modifies dir
    ensures dir.files == Left(old(dir.files), name, opens, now, b)
  {
    hide Emitted, Terminates, StrLen;
    assert b.linker.pathMax > 0 by { PathMax(b); }
    var buffer := new char[BACKTRACE_SIZE_MAX];
    var whole := CollectBacktrace(buffer, BACKTRACE_SIZE_MAX, b);
    if whole {
      ReportTerminates(b);
      assert buffer[|Emitted(b)|] == NUL;
      var length := MeasureString(buffer);
      HeldLength(buffer[..], Emitted(b));
      PayloadWhole(buffer[..], Emitted(b), length);
      var _ := ToStorage(dir, name, opens, now, buffer, length);
    }
  }

  /** The ANR interceptor keeps one buffer, may have none, and passes the buffer's size. */
  method StoreAnr(reportBuffer: array?<char>, dir: ReportsDirectory, name: string, opens: bool, now: int, b: Backtrace)
    requires Terminates(b) && (reportBuffer != null ==> reportBuffer.Length == BACKTRACE_SIZE_MAX)
    modifies dir, reportBuffer
    ensures dir.files == if reportBuffer == null then old(dir.files) else Left(old(dir.files), name, opens, now, b)
  {
    hide Emitted, Terminates, StrLen;
    assert b.linker.pathMax > 0 by { PathMax(b); }
    if reportBuffer != null {
      var whole := CollectBacktrace(reportBuffer, BACKTRACE_SIZE_MAX, b);
      if whole {
        ReportTerminates(b);
        assert reportBuffer[|Emitted(b)|] == NUL;
        PayloadWhole(reportBuffer[..], Emitted(b), BACKTRACE_SIZE_MAX);
        var _ := ToStorage(dir, name, opens, now, reportBuffer, BACKTRACE_SIZE_MAX);
      }
    }
  }

  lemma PathMax(b: Backtrace)
    requires Terminates(b)
    ensures b.linker.pathMax > 0
  {
  }
}
