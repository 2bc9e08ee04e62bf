/** What a native report is made from: the collected state of the process, and its field widths. */
module Report {
  import opened Json
  import opened Numerals

  const WORD: int := 0x1_0000_0000_0000_0000

  const FRAMES_MAX: nat := 100
  const THREADS_MAX: nat := 100
  const BACKTRACE_SIZE_MAX: nat := 0x100000

  /** `uintptr_t` and `size_t`. */
  type Word = n: int | 0 <= n < WORD
  type Int32 = n: int | -INT_LIMIT <= n < INT_LIMIT
  type Int64 = n: int | -WORD / 2 <= n < WORD / 2

  /** The low half of a word passed where `%x` expects an `unsigned int`. */
  function LowHalf(w: Word): nat { w % (2 * INT_LIMIT) }

  /** The same half read as an `int` by `%d`. */
  function LowSigned(w: Word): Int32 {
    if LowHalf(w) >= INT_LIMIT then LowHalf(w) - 2 * INT_LIMIT else LowHalf(w)
  }

  /** `strncpy` into a zeroed field of `size` characters: the last one stays the terminator. */
  function FieldCopy(s: string, size: nat): (r: string)
    requires size > 0
    ensures r <= s && |r| < size
    ensures |s| < size ==> r == s
    ensures |s| >= size ==> |r| == size - 1
  {
    if |s| < size then s else s[..size - 1]
  }

  /** What the dynamic linker knows of an address; an address without an entry is not resolved. */
  datatype SymbolInfo = SymbolInfo(path: Option<string>, symbol: Option<string>, base: Word, address: Word)

  datatype Linker = Linker(pathMax: nat, symbols: map<Word, SymbolInfo>)

  datatype StackFrame = StackFrame(
    index: nat, address: Word, pc: Word, soPath: string, symName: string,
    soBase: Word, symAddr: Word, symAddrOffset: Word)

  const SYMBOL_SIZE: nat := 255

  function StackFrameOf(index: nat, address: Word, linker: Linker): StackFrame
    requires linker.pathMax > 0
  {
    if address !in linker.symbols then StackFrame(index, address, 0, "", "", 0, 0, 0)
    else
      var info := linker.symbols[address];
      StackFrame(
        index, address, (address - info.base) % WORD,
        if info.path.Some? then FieldCopy(info.path.value, linker.pathMax) else "",
        if info.symbol.Some? then FieldCopy(info.symbol.value, SYMBOL_SIZE) else "",
        info.base, info.address,
        if info.address != 0 then (address - info.address) % WORD else 0)
  }

  /** The halves as they are congruent to the word: one counts from zero, the other one is signed. */
  lemma LowHalves(w: Word)
    ensures 0 <= LowHalf(w) < 0x1_0000_0000 && (w - LowHalf(w)) % 0x1_0000_0000 == 0
    ensures -0x8000_0000 <= LowSigned(w) < 0x8000_0000 && (w - LowSigned(w)) % 0x1_0000_0000 == 0
  {
  }

  /** The empty string for a missing one, else as much of it as the field holds. */
  predicate InField(r: string, s: Option<string>, size: nat) {
    match s
    case None => r == ""
    case Some(text) => r <= text && |r| == if |text| < size then |text| else size - 1
  }

  /**
   * A resolved frame: base and program counter add up to the address, and so do symbol address and offset, unless
   * the linker knows no symbol address; path and symbol are the linker's, cut to their fields.
   */
  lemma FrameResolved(index: nat, address: Word, linker: Linker)
    requires linker.pathMax > 0 && address in linker.symbols
    ensures var f, info := StackFrameOf(index, address, linker), linker.symbols[address];
      && f.index == index && f.address == address
      && f.soBase == info.base && (f.pc + info.base) % WORD == address
      && f.symAddr == info.address
      && (info.address != 0 ==> (f.symAddr + f.symAddrOffset) % WORD == address)
      && (info.address == 0 ==> f.symAddrOffset == 0)
      && InField(f.soPath, info.path, linker.pathMax) && InField(f.symName, info.symbol, 255)
  {
    hide FieldCopy;
    Relative(address, linker.symbols[address].base);
    Relative(address, linker.symbols[address].address);
  }

  lemma Relative(address: Word, base: Word)
    ensures ((address - base) % WORD + base) % WORD == address
  {
  }

  lemma FrameUnresolved(index: nat, address: Word, linker: Linker)
    requires linker.pathMax > 0 && address !in linker.symbols
    ensures var f := StackFrameOf(index, address, linker);
      && f.index == index && f.address == address && f.pc == 0 && f.soPath == "" && f.symName == ""
      && f.soBase == 0 && f.symAddr == 0 && f.symAddrOffset == 0
  {
  }

  /** A register is printed as quoted text or, like the trap number, as a number. */
  datatype Register = TextRegister(name: string, text: string) | NumberRegister(name: string, n: Int32)

  datatype SignalInfo = SignalInfo(cause: string, name: string, code: Int32, address: Word)

  /** `frames` is what the thread's backtrace state points to, if it points to one. */
  datatype ThreadInfo = ThreadInfo(
    tid: Int32, name: string, crashed: bool, state: string, priority: Int32, stack: Word,
    frames: Option<seq<Word>>)

  /** `registers` is absent when the context handed to the collector is null. */
  datatype Backtrace = Backtrace(
    processName: string, description: string, timestamp: Int64, arch: string,
    pid: Int32, ppid: Int32, uid: Int32, buildId: string, sessionId: string,
    registers: Option<seq<Register>>, signal: SignalInfo, threads: seq<ThreadInfo>, linker: Linker)

  function FramesOf(t: ThreadInfo, linker: Linker): (r: seq<StackFrame>)
    requires linker.pathMax > 0
  {
    if t.frames.None? then []
    else seq(|t.frames.value|, i requires 0 <= i < |t.frames.value| => StackFrameOf(i, t.frames.value[i], linker))
  }

  /** The stack of a thread frame by frame: each with its place and its recorded address, none without a backtrace state. */
  lemma FramesInOrder(t: ThreadInfo, linker: Linker)
    requires linker.pathMax > 0
    ensures |FramesOf(t, linker)| == if t.frames.Some? then |t.frames.value| else 0
    ensures t.frames.Some? ==> forall i :: 0 <= i < |t.frames.value| ==>
      FramesOf(t, linker)[i].index == i && FramesOf(t, linker)[i].address == t.frames.value[i]
  {
  }

  // Field widths: what the C structures and tables can hold

  predicate FrameWidths(f: StackFrame) { f.index < FRAMES_MAX && |f.symName| < SYMBOL_SIZE }

  predicate RegisterWidths(r: Register) {
    |r.name| <= 16 && (r.TextRegister? ==> |r.text| <= 32)
  }

  predicate ThreadWidths(t: ThreadInfo) {
    |t.name| < 32 && |t.state| < 16 && (t.frames.Some? ==> |t.frames.value| <= FRAMES_MAX)
  }

  predicate FieldWidths(b: Backtrace) {
    && b.linker.pathMax > 0
    && |b.processName| < 1024 && |b.description| < 128 && |b.arch| < 16
    && |b.buildId| < 40 && |b.sessionId| < 40
    && |b.signal.cause| < 128 && |b.signal.name| < 128
    && (b.registers.Some? ==>
        |b.registers.value| <= 64 && forall i :: 0 <= i < |b.registers.value| ==> RegisterWidths(b.registers.value[i]))
    && forall i :: 0 <= i < |b.threads| ==> ThreadWidths(b.threads[i])
  }

  // Clean strings: none of the characters the report has no escape for

  predicate IsClean(c: char) { IsPlain(c) && c != '\'' }

  predicate Clean(s: string) { forall i :: 0 <= i < |s| ==> IsClean(s[i]) }

  predicate CleanFrame(f: StackFrame) { Clean(f.soPath) && Clean(f.symName) }

  predicate CleanRegister(r: Register) { Clean(r.name) && (r.TextRegister? ==> Clean(r.text)) }

  predicate CleanThread(t: ThreadInfo, linker: Linker)
    requires linker.pathMax > 0
  {
    Clean(t.name) && Clean(t.state) &&
    forall i :: 0 <= i < |FramesOf(t, linker)| ==> CleanFrame(FramesOf(t, linker)[i])
  }

  predicate CleanProcess(b: Backtrace) {
    Clean(b.processName) && Clean(b.description) && Clean(b.arch) && Clean(b.buildId) && Clean(b.sessionId)
  }

  predicate CleanRegisters(registers: seq<Register>) {
    forall i :: 0 <= i < |registers| ==> CleanRegister(registers[i])
  }

  predicate CleanContext(b: Backtrace) {
    CleanProcess(b) && Clean(b.signal.cause) && Clean(b.signal.name) && (b.registers.Some? ==> CleanRegisters(b.registers.value))
  }

  predicate CleanBacktrace(b: Backtrace)
    requires b.linker.pathMax > 0
  {
    CleanContext(b) && forall i :: 0 <= i < |b.threads| ==> CleanThread(b.threads[i], b.linker)
  }
}
