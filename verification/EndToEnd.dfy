/** From the unwinder's callbacks and the task directory to what the app reads back at its next launch. */
module EndToEnd {
  import opened Json
  import opened Report
  import opened Emitter
  import opened ReportValue
  import opened Readers
  import opened RoundTrip
  import opened SizeBound
  import opened Unwinder
  import opened ThreadCollector
  import opened Storage
  import ReportStore
  import ReportNames

  /** The backtrace as collected: `base` is everything but its threads. */
  function CollectedReport(base: Backtrace, entries: seq<TaskEntry>, self: Int32, frames: seq<Word>): Backtrace {
    base.(threads := Collected(entries, self, frames))
  }

  /** Everything of a process but its threads. */
  function Bare(base: Backtrace): Backtrace { base.(threads := []) }

  predicate CleanSymbols(linker: Linker) {
    forall a :: a in linker.symbols ==>
      && (linker.symbols[a].path.Some? ==> Clean(linker.symbols[a].path.value))
      && (linker.symbols[a].symbol.Some? ==> Clean(linker.symbols[a].symbol.value))
  }

  /** What is left to assume of a process whose report reads back: thread names, states, counts and stacks need nothing. */
  predicate Ordinary(base: Backtrace, entries: seq<TaskEntry>) {
    FieldWidths(Bare(base)) && CleanContext(base) && CleanSymbols(base.linker) && DistinctIds(Tasks(entries))
  }

  lemma CleanCopy(s: string, size: nat)
    requires size > 0 && Clean(s)
    ensures Clean(FieldCopy(s, size))
  {
  }

  lemma SymbolsMakeCleanFrames(t: ThreadInfo, linker: Linker)
    requires linker.pathMax > 0 && CleanSymbols(linker)
    ensures forall i :: 0 <= i < |FramesOf(t, linker)| ==> CleanFrame(FramesOf(t, linker)[i])
  {
    hide FieldCopy, Clean;
    assert Clean("") by { NoCharacters(); }
    var frames := FramesOf(t, linker);
    forall i | 0 <= i < |frames| ensures CleanFrame(frames[i]) {
      var address := t.frames.value[i];
      if address in linker.symbols {
        var info := linker.symbols[address];
        if info.path.Some? { CleanCopy(info.path.value, linker.pathMax); }
        if info.symbol.Some? { CleanCopy(info.symbol.value, SYMBOL_SIZE); }
      }
    }
  }

  lemma CleanHasNoTerminator(s: string)
    requires Clean(s)
    ensures NUL !in s
  {
  }

  /** Whatever characters its strings hold. */
  lemma CollectedWidths(base: Backtrace, entries: seq<TaskEntry>, self: Int32, frames: seq<Word>)
    requires FieldWidths(Bare(base)) && DistinctIds(Tasks(entries)) && |frames| <= FRAMES_MAX
    ensures var r := CollectedReport(base, entries, self, frames);
      && FieldWidths(r) && |r.threads| <= THREADS_MAX && Carriers(r.threads) <= 1
      && |Emitted(r)| <= BACKTRACE_SIZE_MAX - 2
  {
    hide Collected, Clean, ThreadWidths, Emitted, DistinctIds;
    CollectedShape(entries, self, frames);
    CollectedCarriers(entries, self, frames);
    ReportFitsBuffer(CollectedReport(base, entries, self, frames));
  }

  lemma CollectedClean(base: Backtrace, entries: seq<TaskEntry>, self: Int32, frames: seq<Word>)
    requires base.linker.pathMax > 0 && CleanContext(base) && CleanSymbols(base.linker) && |frames| <= FRAMES_MAX
    ensures CleanBacktrace(CollectedReport(base, entries, self, frames))
  {
    hide Collected, Clean, ThreadWidths, CleanFrame, FramesOf, CleanSymbols;
    CollectedShape(entries, self, frames);
    var r := CollectedReport(base, entries, self, frames);
    forall i | 0 <= i < |r.threads| ensures CleanThread(r.threads[i], r.linker) {
      SymbolsMakeCleanFrames(r.threads[i], r.linker);
    }
  }

  /** What is clean holds no terminator. */
  lemma CleanTerminates(base: Backtrace)
    requires CleanContext(base) && base.linker.pathMax > 0 && CleanSymbols(base.linker)
    ensures Terminates(Bare(base))
  {
    hide Clean;
    CleanHasNoTerminator(base.processName);
    CleanHasNoTerminator(base.description);
    CleanHasNoTerminator(base.arch);
    CleanHasNoTerminator(base.buildId);
    CleanHasNoTerminator(base.sessionId);
    CleanHasNoTerminator(base.signal.cause);
    CleanHasNoTerminator(base.signal.name);
    if base.registers.Some? {
      forall i | 0 <= i < |base.registers.value| ensures RegisterTerminates(base.registers.value[i]) {
        CleanHasNoTerminator(base.registers.value[i].name);
        if base.registers.value[i].TextRegister? { CleanHasNoTerminator(base.registers.value[i].text); }
      }
    }
    forall a | a in base.linker.symbols
      ensures base.linker.symbols[a].path.Some? ==> NUL !in base.linker.symbols[a].path.value
      ensures base.linker.symbols[a].symbol.Some? ==> NUL !in base.linker.symbols[a].symbol.value
    {
      if base.linker.symbols[a].path.Some? { CleanHasNoTerminator(base.linker.symbols[a].path.value); }
      if base.linker.symbols[a].symbol.Some? { CleanHasNoTerminator(base.linker.symbols[a].symbol.value); }
    }
  }

  lemma CollectedTerminates(base: Backtrace, entries: seq<TaskEntry>, self: Int32, frames: seq<Word>)
    requires Terminates(Bare(base)) && |frames| <= FRAMES_MAX
    ensures Terminates(CollectedReport(base, entries, self, frames))
  {
    hide Collected, Clean, ThreadWidths, LinkerTerminates, RegisterTerminates;
    CollectedShape(entries, self, frames);
    var r := CollectedReport(base, entries, self, frames);
    forall i | 0 <= i < |r.threads| ensures NUL !in r.threads[i].name && NUL !in r.threads[i].state {
      CleanHasNoTerminator(r.threads[i].name);
      CleanHasNoTerminator(r.threads[i].state);
    }
  }

  /** The frames of the crash, given how many callbacks ran: none with a null context. */
  function CrashFrames(context: Option<Word>, ips: seq<Word>, arch: Arch): seq<Word> {
    match context case Some(crash) => Recorded(ips, crash, arch) case None => []
  }

  lemma CrashFramesBound(context: Option<Word>, ips: seq<Word>, arch: Arch)
    ensures |CrashFrames(context, ips, arch)| <= FRAMES_MAX
  {
    if context.Some? { RecordedBound(ips, context.value, arch); }
  }

  /** The interceptor from end to end: whatever a process made of C strings looks like, its whole report is stored. */
  method InterceptCrash(
    arch: Arch, context: Option<Word>, stream: seq<Word>, base: Backtrace, entries: seq<TaskEntry>, self: Int32,
    dir: ReportsDirectory, name: string, opens: bool, now: int) returns (consumed: nat)
    requires FieldWidths(Bare(base)) && DistinctIds(Tasks(entries)) && Terminates(Bare(base))
    modifies dir
    ensures consumed <= |stream|
    ensures base.linker.pathMax > 0
    ensures dir.files == if opens
      then old(dir.files)[name := StoredFile(
        Emitted(CollectedReport(base, entries, self, CrashFrames(context, stream[..consumed], arch))), now)]
      else old(dir.files)
  {
    hide Recorded, Emitted, Collected, Terminates, CleanContext, CleanSymbols, DistinctIds;
    var state := new BacktraceState(arch);
    consumed := state.Unwind(context, stream);
    var frames := state.frames[..state.frameCnt];
    assert frames == CrashFrames(context, stream[..consumed], arch);
    CrashFramesBound(context, stream[..consumed], arch);
    var threads := CollectThreadState(entries, self, frames);
    var report := base.(threads := threads);
    CollectedWidths(base, entries, self, frames);
    CollectedTerminates(base, entries, self, frames);
    StoreCrash(dir, name, opens, now, report);
  }

  /** What a flush hands the listener, read back. */
  method ReadStored(text: string, refusal: string) returns (trace: NativeStackTrace, ok: bool)
    ensures fresh(trace)
    ensures ReadReport(text).Some? ==>
      && ok
      && Shows(trace.threads, ReadReport(text).value.0) && trace.exceptionMessage == ReadReport(text).value.1
      && IsFirstCrashed(trace.crashedThread, trace.threads)
    ensures ReadReport(text).None? && ok ==>
      trace.threads == [] && trace.crashedThread == null && trace.exceptionMessage == refusal
  {
    trace := new NativeStackTrace();
    ok := trace.TransformText(text, refusal);
  }

  /** The stored report reads back exactly when it fits, whatever the threads are called. */
  lemma StoredReportReads(base: Backtrace, entries: seq<TaskEntry>, self: Int32, frames: seq<Word>)
    requires Ordinary(base, entries) && base.registers.Some? && |frames| <= FRAMES_MAX
    ensures var r := CollectedReport(base, entries, self, frames);
      && base.linker.pathMax > 0
      && ReadReport(Emitted(r)) == if ReportFits(r)
        then Some((RecoveredThreads(r.threads, r.linker), RecoveredMessage(r.signal)))
        else None
  {
    hide Emitted, Collected, ReportFits, RecoveredThreads, RecoveredMessage, ReadReport;
    CollectedWidths(base, entries, self, frames);
    CollectedClean(base, entries, self, frames);
    hide CleanBacktrace, FieldWidths;
    ReportRoundTrip(CollectedReport(base, entries, self, frames));
  }

  /**
   * A crash and the next launch: the interceptor stores the report of an ordinary process, and what is stored is
   * read back as its threads, in order, and the message of its signal, if the report fits.
   */
  method CrashThenRead(
    arch: Arch, crash: Word, stream: seq<Word>, base: Backtrace, entries: seq<TaskEntry>, self: Int32,
    dir: ReportsDirectory, name: string, now: int, refusal: string) returns (trace: NativeStackTrace, consumed: nat)
    requires Ordinary(base, entries) && base.registers.Some?
    modifies dir
    ensures fresh(trace) && consumed <= |stream| && base.linker.pathMax > 0
    ensures var r := CollectedReport(base, entries, self, Recorded(stream[..consumed], crash, arch));
      && name in dir.files && dir.files[name].content == Emitted(r)
      && (ReportFits(r) ==>
            && Shows(trace.threads, RecoveredThreads(r.threads, r.linker))
            && trace.exceptionMessage == RecoveredMessage(r.signal)
            && IsFirstCrashed(trace.crashedThread, trace.threads))
  {
    OrdinaryMeans(base, entries);
    CleanTerminates(base);
    hide Recorded, Emitted, Collected, Terminates, CleanContext, CleanSymbols, DistinctIds, ReadReport, ReportFits, FieldWidths,
      RecoveredThreads, RecoveredMessage, Ordinary;
    consumed := InterceptCrash(arch, Some(crash), stream, base, entries, self, dir, name, true, now);
    ghost var frames := Recorded(stream[..consumed], crash, arch);
    RecordedBound(stream[..consumed], crash, arch);
    StoredReportReads(base, entries, self, frames);
    var ok: bool;
    trace, ok := ReadStored(dir.files[name].content, refusal);
  }

  lemma OrdinaryMeans(base: Backtrace, entries: seq<TaskEntry>)
    requires Ordinary(base, entries)
    ensures FieldWidths(Bare(base)) && CleanContext(base) && CleanSymbols(base.linker) && DistinctIds(Tasks(entries))
    ensures base.linker.pathMax > 0
  {
  }

  /** Once the crash address has been seen, it heads the stack that is read back for the crashed thread. */
  lemma CrashAddressHeadsStack(
    base: Backtrace, entries: seq<TaskEntry>, self: Int32, ips: seq<Word>, crash: Word, arch: Arch, i: nat)
    requires base.linker.pathMax > 0 && crash in ips
    requires i < |Collected(entries, self, Recorded(ips, crash, arch))|
    ensures var t := Collected(entries, self, Recorded(ips, crash, arch))[i];
      var stack := RecoveredThread(t, base.linker).stackTrace;
      if t.tid == self
        then |stack| == |Recorded(ips, crash, arch)| > 0
          && exists a: Word :: Cleared(a, crash, arch) && stack[0].Some? && stack[0].value.className == AddressText(a)
        else stack == []
  {
    hide Recorded, InfoOf, Strtol, Cleared, AddressText;
    RecordedShape(ips, crash, arch);
    var frames := Recorded(ips, crash, arch);
    var tasks := Tasks(entries);
    InfoShape(TaskId(tasks[i]), self, ReadStat(tasks[i].file));
    var t := Collected(entries, self, frames)[i];
    assert t == TaskInfo(tasks[i], self, frames);
    if t.tid == self { assert Cleared(frames[0], crash, arch); }
  }

  lemma CollectedThread(entries: seq<TaskEntry>, self: Int32, frames: seq<Word>, i: nat)
    requires i < |Tasks(entries)| && i < THREADS_MAX
    ensures i < |Collected(entries, self, frames)|
    ensures Collected(entries, self, frames)[i].crashed <==> TaskId(Tasks(entries)[i]) == self
  {
    hide InfoOf, Strtol, ReadStat;
    var tasks := Tasks(entries);
    InfoShape(TaskId(tasks[i]), self, ReadStat(tasks[i].file));
    assert Collected(entries, self, frames)[i] == TaskInfo(tasks[i], self, frames);
  }

  lemma CollectedCount(entries: seq<TaskEntry>, self: Int32, frames: seq<Word>)
    ensures |Collected(entries, self, frames)| == if |Tasks(entries)| <= THREADS_MAX then |Tasks(entries)| else THREADS_MAX
  {
  }

  /** The crashed thread is in the report exactly when its directory entry is among the first hundred. */
  lemma CrashedThreadListed(entries: seq<TaskEntry>, self: Int32, frames: seq<Word>, linker: Linker)
    requires linker.pathMax > 0
    ensures var tasks, threads := Tasks(entries), RecoveredThreads(Collected(entries, self, frames), linker);
      (exists i :: 0 <= i < |threads| && threads[i].crashed)
        <==> exists i :: 0 <= i < |tasks| && i < 100 && TaskId(tasks[i]) == self
  {
    CollectedCount(entries, self, frames);
    hide Collected, Tasks, TaskId, FramesOf, RecoveredStack;
    var tasks, threads := Tasks(entries), RecoveredThreads(Collected(entries, self, frames), linker);
    forall i | 0 <= i < |threads| ensures threads[i].crashed <==> TaskId(tasks[i]) == self {
      CollectedThread(entries, self, frames, i);
    }
    if i :| 0 <= i < |tasks| && i < 100 && TaskId(tasks[i]) == self {
      assert threads[i].crashed;
    }
  }

  /**
   * From the crash to the listener: a stored report, reached by a flush that can read it, is handed to the crash
   * handler word for word; that of an ordinary process reads back as its threads and message when it fits.
   */
  lemma CrashReachesListener(
    base: Backtrace, entries: seq<TaskEntry>, self: Int32, frames: seq<Word>, t: ReportNames.WallTime,
    s: ReportStore.Store, period: int, names: seq<string>, replies: map<string, ReportStore.Reply>, i: nat, written: int)
    requires |frames| <= FRAMES_MAX && base.linker.pathMax > 0
    requires ReportStore.Replied(names, replies) && ReportStore.Distinct(names)
    requires i < ReportStore.Reached(s, true, names, replies) && replies[names[i]].readable
    requires names[i] == ReportNames.FileName(ReportStore.Crash, t) && names[i] in s.files
    requires s.files[names[i]] == StoredFile(Emitted(CollectedReport(base, entries, self, frames)), written)
    ensures var r := CollectedReport(base, entries, self, frames);
      var offer := ReportStore.Offer(names[i], ReportStore.Crash, Emitted(r), replies[names[i]].answer == ReportStore.Accepts);
      && offer in ReportStore.FlushAll(s, true, period, names, replies).offers
      && (Ordinary(base, entries) && base.registers.Some? && ReportFits(r) ==>
            ReadReport(offer.content) == Some((RecoveredThreads(r.threads, r.linker), RecoveredMessage(r.signal))))
  {
    hide Emitted, Collected, ReportFits, RecoveredThreads, RecoveredMessage, ReadReport, Ordinary;
    if Ordinary(base, entries) && base.registers.Some? { StoredReportReads(base, entries, self, frames); }
    ReportNames.KindRecovered(ReportStore.Crash, t);
    hide ReportStore.KindOf, ReportNames.FileName, ReportStore.FlushAll, ReportStore.OffersOf, ReportStore.Reached;
    var reached := names[..ReportStore.Reached(s, true, names, replies)];
    ReportStore.FlushOffers(s, true, period, names, replies);
    ReportStore.OfferedAmong(s, true, reached, replies, i);
  }
}
