/** How long an emitted report can get. */
module SizeBound {
  import opened Numerals
  import opened Json
  import opened Report
  import opened Emitter
  import ReportValue

  const FRAME_MAX: nat := 4560
  const STACK_MAX: nat := 456_100
  const THREAD_MAX: nat := 190

  lemma NumberLength(key: string, n: int)
    requires -WORD / 2 <= n < WORD
    ensures |Capped(NumberText(key, n) + ",")| <= |key| + 25 && |Capped(NumberText(key, n))| <= |key| + 24
  {
    WordLength(if n < 0 then -n else n);
  }

  lemma StringLength(key: string, value: string)
    ensures |Capped(StringText(key, value) + ",")| <= |key| + |value| + 6
    ensures |Capped(StringText(key, value))| <= |key| + |value| + 5
    ensures |Capped("," + StringText(key, value))| <= |key| + |value| + 6
  {
  }

  lemma CappedLength(s: string)
    ensures |Capped(s)| <= PIECE_MAX
  {
  }

  lemma FrameLength(f: StackFrame)
    requires FrameWidths(f)
    ensures |FrameText(f)| <= FRAME_MAX
  {
    hide NumberText, StringText, Capped, FrameLabel;
    CappedLength(StringText("cstr", FrameLabel(f)) + ",");
    NumberLength("index", f.index);
    NumberLength("address", f.address);
    NumberLength("pc", f.pc);
    NumberLength("so_base", f.soBase);
    NumberLength("sym_addr", f.symAddr);
    NumberLength("sym_addr_offset", f.symAddrOffset);
    CappedLength("," + StringText("so_path", f.soPath));
    StringLength("sym_name", f.symName);
  }

  // The kilobyte a frame is said to be limited to

  const FRAME_LIMIT: nat := 1024

  /** What a frame takes when nothing is cut: path and symbol twice, its printed numbers, keys and quotes. */
  function FrameCost(f: StackFrame): nat {
    2 + (ReportValue.LabelCost(f) + 10)
    + (9 + |Decimal(f.index)|) + (11 + |Decimal(f.address)|) + (6 + |Decimal(f.pc)|) + (11 + |Decimal(f.soBase)|)
    + (12 + |Decimal(f.symAddr)|) + (18 + |Decimal(f.symAddrOffset)|)
    + (if f.soPath != "" then 13 + |f.soPath| else 0) + (if f.symName != "" then 14 + |f.symName| else 0)
  }

  lemma PieceLength(key: string, n: int, value: string)
    ensures |NumberText(key, n)| == |key| + 3 + |Decimal(n)| && |StringText(key, value)| == |key| + 5 + |value|
  {
  }

  lemma UncutLength(f: StackFrame)
    requires FrameWidths(f) && ReportValue.Fits(f)
    ensures |FrameText(f)| == FrameCost(f)
  {
    ReportValue.LabelLength(f);
    NumberLength("index", f.index);
    NumberLength("address", f.address);
    NumberLength("pc", f.pc);
    NumberLength("so_base", f.soBase);
    NumberLength("sym_addr", f.symAddr);
    NumberLength("sym_addr_offset", f.symAddrOffset);
    PieceLength("index", f.index, "");
    PieceLength("address", f.address, "");
    PieceLength("pc", f.pc, "");
    PieceLength("so_base", f.soBase, "");
    PieceLength("sym_addr", f.symAddr, "");
    PieceLength("sym_addr_offset", f.symAddrOffset, "");
    PieceLength("cstr", 0, FrameLabel(f));
    PieceLength("so_path", 0, f.soPath);
    PieceLength("sym_name", 0, f.symName);
    hide FrameLabel, NumberText, StringText, Decimal;
  }

  lemma CutLength(f: StackFrame)
    requires FrameWidths(f) && !ReportValue.Fits(f)
    ensures |FrameText(f)| > PIECE_MAX && FrameCost(f) > PIECE_MAX
  {
    ReportValue.LabelLength(f);
    PieceLength("cstr", 0, FrameLabel(f));
    hide FrameLabel, NumberText, StringText, Decimal;
  }

  /** A frame is within the kilobyte exactly when its parts add up to one, cut or not. */
  lemma FrameLimitIff(f: StackFrame)
    requires FrameWidths(f)
    ensures |FrameText(f)| <= FRAME_LIMIT <==> FrameCost(f) <= FRAME_LIMIT
  {
    if ReportValue.Fits(f) { UncutLength(f); } else { CutLength(f); }
    hide FrameText, FrameCost;
  }

  lemma WholeField(c: char, n: nat, size: nat)
    requires n < size && IsClean(c)
    ensures FieldCopy(seq(n, _ => c), size) == seq(n, _ => c) && Clean(seq(n, _ => c))
  {
  }

  lemma CostAtLeast(f: StackFrame)
    ensures FrameCost(f) >= 2 * |f.soPath|
    ensures |f.soPath| <= 1024 && f.symName == "" ==> ReportValue.Fits(f)
  {
    hide Decimal, LowSigned;
  }

  /** A file whose path has 600 characters is enough, even where paths end at 1024. */
  lemma FrameLimitExceeded() returns (linker: Linker, f: StackFrame)
    ensures linker.pathMax == 1024 && f == StackFrameOf(0, 1, linker)
    ensures FrameWidths(f) && CleanFrame(f) && ReportValue.Fits(f)
    ensures |FrameText(f)| > FRAME_LIMIT
  {
    var path := seq(600, _ => 'p');
    linker := Linker(1024, map[1 := SymbolInfo(Some(path), None, 0, 0)]);
    f := StackFrame(0, 1, 1, path, "", 0, 0, 0);
    WholeField('p', 600, 1024);
    assert f == StackFrameOf(0, 1, linker);
    assert FrameWidths(f) && CleanFrame(f);
    hide *;
    CostAtLeast(f);
    FrameLimitIff(f);
  }

  // Stacks, threads, the report

  lemma {:induction false} CommasLength(texts: seq<string>, limit: nat)
    requires forall i :: 0 <= i < |texts| ==> |texts[i]| <= limit
    ensures |Commas(texts)| <= |texts| * (limit + 1)
  {
    if |texts| > 1 {
      CommasLength(texts[1..], limit);
      assert |texts| * (limit + 1) == (|texts| - 1) * (limit + 1) + (limit + 1);
    }
  }

  lemma FramesLength(frames: seq<StackFrame>)
    requires |frames| <= FRAMES_MAX && forall i :: 0 <= i < |frames| ==> FrameWidths(frames[i])
    ensures |Commas(FrameTexts(frames))| <= STACK_MAX
  {
    hide FrameText, FrameWidths;
    var texts := FrameTexts(frames);
    forall i | 0 <= i < |texts| ensures |texts[i]| <= FRAME_MAX { FrameLength(frames[i]); }
    CommasLength(texts, FRAME_MAX);
  }

  lemma StackLength(t: ThreadInfo, linker: Linker)
    requires linker.pathMax > 0 && ThreadWidths(t)
    ensures |CallstackText(FramesOf(t, linker))| <= 10 + (if t.frames.Some? then STACK_MAX else 0)
  {
    hide FrameTexts;
    FramesLength(FramesOf(t, linker));
    assert FrameTexts([]) == [] by { NoFrames(); }
  }

  lemma NoFrames()
    ensures FrameTexts([]) == []
  {
  }

  lemma ThreadLength(t: ThreadInfo, linker: Linker)
    requires linker.pathMax > 0 && ThreadWidths(t)
    ensures |ThreadText(t, linker)| <= THREAD_MAX + (if t.frames.Some? then STACK_MAX else 0)
  {
    hide NumberText, StringText, CallstackText;
    NumberLength("threadNumber", t.tid);
    StringLength("threadId", t.name);
    StringLength("state", t.state);
    NumberLength("priority", t.priority);
    StackLength(t, linker);
  }

  /** How many threads carry a stack. */
  function Carriers(threads: seq<ThreadInfo>): nat {
    if |threads| == 0 then 0 else (if threads[0].frames.Some? then 1 else 0) + Carriers(threads[1..])
  }

  lemma {:induction false} ThreadsLength(threads: seq<ThreadInfo>, linker: Linker)
    requires linker.pathMax > 0 && forall i :: 0 <= i < |threads| ==> ThreadWidths(threads[i])
    ensures |Commas(ThreadTexts(threads, linker))| <= |threads| * (THREAD_MAX + 1) + Carriers(threads) * STACK_MAX
  {
    hide ThreadText, ThreadWidths;
    if |threads| > 0 {
      ThreadLength(threads[0], linker);
      ThreadsLength(threads[1..], linker);
      assert ThreadTexts(threads, linker)[1..] == ThreadTexts(threads[1..], linker);
    }
  }

  lemma ContextLength(b: Backtrace)
    requires FieldWidths(b)
    ensures |ContextText(b)| <= 2000
  {
    hide NumberText, StringText, Capped;
    StringLength("name", b.processName);
    StringLength("description", b.description);
    NumberLength("timestamp", b.timestamp);
    StringLength("abi", b.arch);
    NumberLength("pid", b.pid);
    NumberLength("ppid", b.ppid);
    NumberLength("uid", b.uid);
    StringLength("buildid", b.buildId);
    StringLength("sessionid", b.sessionId);
    StringLength("platform", "android");
  }

  lemma {:induction false} RegistersLength(registers: seq<Register>)
    requires forall i :: 0 <= i < |registers| ==> RegisterWidths(registers[i])
    ensures |RegisterPieces(registers)| <= |registers| * 60
  {
    if |registers| > 0 {
      var r := registers[0];
      match r {
        case TextRegister(name, text) => StringLength(name, text);
        case NumberRegister(name, n) => NumberLength(name, n);
      }
      if |registers| > 1 { RegistersLength(registers[1..]); }
    }
  }

  lemma SignalLength(s: SignalInfo)
    requires |s.cause| < 128 && |s.name| < 128
    ensures |SignalText(s)| <= 600
  {
    hide NumberText, StringText;
    StringLength("name", "Native exception");
    StringLength("cause", s.cause);
    StringLength("signalName", s.name);
    NumberLength("signalCode", s.code);
    NumberLength("faultAddress", s.address);
  }

  /** The whole report: what its threads need, and less than seven thousand characters besides. */
  lemma ReportLength(b: Backtrace)
    requires FieldWidths(b)
    ensures |Emitted(b)| <= 7000 + |b.threads| * (THREAD_MAX + 1) + Carriers(b.threads) * STACK_MAX
  {
    hide ContextText, RegisterPieces, SignalText, ThreadTexts;
    ContextLength(b);
    if b.registers.Some? { RegistersLength(b.registers.value); }
    SignalLength(b.signal);
    ThreadsLength(b.threads, b.linker);
    ArgumentsLength(b);
  }

  lemma ArgumentsLength(b: Backtrace)
    requires b.linker.pathMax > 0
    ensures |Emitted(b)| <= |ContextText(b)| + (if b.registers.Some? then |RegisterPieces(b.registers.value)| else 0)
      + |SignalText(b.signal)| + |Commas(ThreadTexts(b.threads, b.linker))| + 100
  {
    hide ContextText, RegisterPieces, SignalText, ThreadTexts, Listed, BacktraceArguments;
    ReportValue.ArgumentsSplit(b);
  }

  /**
   * At most a hundred threads of which at most one carries a stack (even two would do): the report is
   * copied whole into a buffer of the full size.
   */
  lemma ReportFitsBuffer(b: Backtrace)
    requires FieldWidths(b) && |b.threads| <= THREADS_MAX && Carriers(b.threads) <= 2
    ensures |Emitted(b)| <= BACKTRACE_SIZE_MAX - 2
  {
    ReportLength(b);
    hide Emitted;
  }

  // Why one carrier: with three, the same widths allow a report that is cut

  lemma {:induction false} CommasAtLeast(texts: seq<string>, least: nat)
    requires forall i :: 0 <= i < |texts| ==> |texts[i]| >= least
    ensures |Commas(texts)| >= |texts| * least
  {
    if |texts| > 1 {
      CommasAtLeast(texts[1..], least);
      assert |texts| * least == (|texts| - 1) * least + least;
    }
  }

  /** A path that fills its pieces: the label and the path of the frame are cut at their caps. */
  lemma LongFrame(f: StackFrame)
    requires |f.soPath| >= PIECE_MAX
    ensures |FrameText(f)| >= 2 * PIECE_MAX
  {
    hide ZeroPadded, Decimal, Numeral, NumberText;
    assert |FrameLabel(f)| >= PIECE_MAX;
    assert |Capped(StringText("cstr", FrameLabel(f)) + ",")| == PIECE_MAX;
    assert |Capped("," + StringText("so_path", f.soPath))| == PIECE_MAX;
    hide Capped, StringText, FrameLabel;
  }

  /** As many frames as a stack can have, each in a file with a path that fills its pieces. */
  predicate LongStack(t: ThreadInfo, linker: Linker)
    requires linker.pathMax > 0
  {
    t.frames.Some? && |t.frames.value| == FRAMES_MAX
    && forall i :: 0 <= i < |FramesOf(t, linker)| ==> |FramesOf(t, linker)[i].soPath| >= PIECE_MAX
  }

  lemma LongThread(t: ThreadInfo, linker: Linker)
    requires linker.pathMax > 0 && LongStack(t, linker)
    ensures |ThreadText(t, linker)| >= FRAMES_MAX * (2 * PIECE_MAX)
  {
    hide FrameText, Capped, StringText, NumberText, BoolText;
    var frames := FramesOf(t, linker);
    forall i | 0 <= i < |frames| ensures |FrameTexts(frames)[i]| >= 2 * PIECE_MAX { LongFrame(frames[i]); }
    CommasAtLeast(FrameTexts(frames), 2 * PIECE_MAX);
  }

  /** The widths allow such a stack. */
  lemma LongStackPossible(tid: Int32) returns (t: ThreadInfo, linker: Linker)
    ensures linker.pathMax > 0 && t.tid == tid && ThreadWidths(t) && LongStack(t, linker)
  {
    linker := Linker(4096, map[1 := SymbolInfo(Some(seq(PIECE_MAX, _ => 'p')), None, 0, 0)]);
    t := ThreadInfo(tid, "", true, "", 0, 0, Some(seq(FRAMES_MAX, _ => 1)));
    var frames := FramesOf(t, linker);
    forall i | 0 <= i < |frames| ensures |frames[i].soPath| >= PIECE_MAX {
      assert frames[i] == StackFrameOf(i, 1, linker);
    }
  }

  lemma AtLeastThreads(b: Backtrace)
    requires b.linker.pathMax > 0 && b.registers.Some?
    ensures |Emitted(b)| >= |Commas(ThreadTexts(b.threads, b.linker))|
  {
    hide ContextText, RegistersText, SignalText, ThreadTexts, Listed, BacktraceArguments;
    ReportValue.ArgumentsSplit(b);
  }

  lemma ThreeCarriersDoNotFit(b: Backtrace)
    requires b.linker.pathMax > 0 && b.registers.Some? && |b.threads| == 3
    requires forall i :: 0 <= i < 3 ==> LongStack(b.threads[i], b.linker)
    ensures |Emitted(b)| > BACKTRACE_SIZE_MAX
  {
    hide ThreadText, LongStack, Emitted;
    var texts := ThreadTexts(b.threads, b.linker);
    forall i | 0 <= i < |texts| ensures |texts[i]| >= FRAMES_MAX * (2 * PIECE_MAX) {
      LongThread(b.threads[i], b.linker);
    }
    CommasAtLeast(texts, FRAMES_MAX * (2 * PIECE_MAX));
    AtLeastThreads(b);
  }
}
