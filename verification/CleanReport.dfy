/** A report's value is clean exactly when the strings it is made of are. */
module CleanReport {
  import opened Numerals
  import opened Json
  import opened Report
  import opened Emitter
  import opened RawText
  import opened ReportValue

  lemma MemberClean(members: seq<Member>, i: nat)
    requires i < |members| && MembersClean(members)
    ensures Clean(members[i].key) && AllClean(members[i].value)
  {
  }

  lemma ConcatClean(a: seq<Member>, b: seq<Member>)
    ensures MembersClean(a + b) <==> MembersClean(a) && MembersClean(b)
  {
    if MembersClean(a + b) {
      forall i | 0 <= i < |a| ensures Clean(a[i].key) && AllClean(a[i].value) { assert (a + b)[i] == a[i]; }
      forall i | 0 <= i < |b| ensures Clean(b[i].key) && AllClean(b[i].value) { assert (a + b)[|a| + i] == b[i]; }
    }
  }

  lemma OneClean(m: Member)
    ensures MembersClean([m]) <==> Clean(m.key) && AllClean(m.value)
  {
    assert [m][0] == m;
  }

  lemma NoneClean()
    ensures MembersClean([])
  {
  }

  /** Numbers and truth values have nothing to clean. */
  lemma StringClean(key: string, value: string)
    requires IsKey(key)
    ensures MembersClean([Member(key, String(value))]) <==> Clean(value)
  {
    OneClean(Member(key, String(value)));
    hide Clean;
  }

  lemma NumberClean(key: string, n: int)
    requires IsKey(key)
    ensures MembersClean([Member(key, NumberOf(n))])
  {
    OneClean(Member(key, NumberOf(n)));
    hide Clean;
  }

  lemma NumbersClean(f: StackFrame)
    ensures MembersClean(NumberMembers(f))
  {
    FrameKeys();
    hide Clean;
  }

  lemma OptionalClean(key: string, value: string)
    requires IsKey(key)
    ensures MembersClean(if value != "" then [Member(key, String(value))] else []) <==> Clean(value)
  {
    NoneClean();
    StringClean(key, value);
    assert value == "" ==> Clean(value);
    hide MembersClean;
  }

  lemma FrameNumbersClean(f: StackFrame)
    ensures MembersClean(FrameNumbers(f)) <==> Clean(FrameLabel(f))
  {
    FrameKeys();
    hide FrameLabel, IsKey, Clean, MembersClean;
    StringClean("cstr", FrameLabel(f));
    NumbersClean(f);
    ConcatClean([Member("cstr", String(FrameLabel(f)))], NumberMembers(f));
    assert [Member("cstr", String(FrameLabel(f)))] + NumberMembers(f) == FrameNumbers(f);
  }

  lemma FramePathClean(f: StackFrame)
    ensures MembersClean(FramePathMembers(f)) <==> Clean(FrameLabel(f)) && Clean(f.soPath)
  {
    FrameKeys();
    hide FrameLabel, IsKey, Clean, MembersClean, FrameNumbers;
    FrameNumbersClean(f);
    OptionalClean("so_path", f.soPath);
    ConcatClean(FrameNumbers(f), if f.soPath != "" then [Member("so_path", String(f.soPath))] else []);
  }

  lemma FrameMembersClean(f: StackFrame)
    ensures MembersClean(FrameMembers(f)) <==> Clean(FrameLabel(f)) && Clean(f.soPath) && Clean(f.symName)
  {
    FrameKeys();
    hide FrameLabel, IsKey, Clean, MembersClean, FramePathMembers;
    FramePathClean(f);
    OptionalClean("sym_name", f.symName);
    ConcatClean(FramePathMembers(f), if f.symName != "" then [Member("sym_name", String(f.symName))] else []);
  }

  lemma FrameCleanIff(f: StackFrame)
    requires FrameWidths(f)
    ensures AllClean(FrameValue(f)) <==> CleanFrame(f)
  {
    if CleanFrame(f) { LabelShape(f); }
    hide FrameLabel, Clean, MembersClean, AllClean, FrameMembers, FrameWidths;
    FrameMembersClean(f);
    ObjectClean(FrameMembers(f));
  }

  lemma ObjectClean(members: seq<Member>)
    ensures AllClean(Object(members)) <==> MembersClean(members)
  {
  }

  lemma ArrayClean(items: seq<Json>)
    ensures AllClean(Array(items)) <==> ItemsClean(items)
  {
  }

  lemma FramesCleanIff(frames: seq<StackFrame>)
    requires forall i :: 0 <= i < |frames| ==> FrameWidths(frames[i])
    ensures AllClean(Array(FrameValues(frames))) <==> forall i :: 0 <= i < |frames| ==> CleanFrame(frames[i])
  {
    hide FrameWidths, FrameValue, CleanFrame;
    var items := FrameValues(frames);
    forall i | 0 <= i < |frames| ensures AllClean(items[i]) <==> CleanFrame(frames[i]) { FrameCleanIff(frames[i]); }
    hide AllClean;
    ArrayClean(items);
    if ItemsClean(items) {
      forall i | 0 <= i < |frames| ensures CleanFrame(frames[i]) { assert AllClean(items[i]); }
    }
  }

  lemma ThreadHeadClean(t: ThreadInfo)
    ensures MembersClean(ThreadHead(t)) <==> Clean(t.name) && Clean(t.state)
  {
    ThreadKeys();
    hide Clean, Decimal;
    var ms := ThreadHead(t);
    if MembersClean(ms) {
      MemberClean(ms, 1);
      MemberClean(ms, 2);
    }
  }

  lemma ThreadCleanIff(t: ThreadInfo, linker: Linker)
    requires linker.pathMax > 0 && ThreadWidths(t)
    ensures AllClean(Object(ThreadMembers(t, linker))) <==> CleanThread(t, linker)
  {
    FramesWidths(t, linker);
    ThreadKeys();
    hide ThreadHead, FrameValues, Clean, MembersClean, AllClean, FrameWidths, CleanFrame;
    ThreadHeadClean(t);
    var frames := FramesOf(t, linker);
    FramesCleanIff(frames);
    OneClean(Member("stack", Array(FrameValues(frames))));
    ConcatClean(ThreadHead(t), [Member("stack", Array(FrameValues(frames)))]);
    ObjectClean(ThreadMembers(t, linker));
  }

  lemma ThreadsCleanIff(threads: seq<ThreadInfo>, linker: Linker)
    requires linker.pathMax > 0 && forall i :: 0 <= i < |threads| ==> ThreadWidths(threads[i])
    ensures AllClean(Array(ThreadValues(threads, linker))) <==> forall i :: 0 <= i < |threads| ==> CleanThread(threads[i], linker)
  {
    hide ThreadWidths, ThreadMembers, CleanThread;
    var items := ThreadValues(threads, linker);
    forall i | 0 <= i < |threads| ensures AllClean(items[i]) <==> CleanThread(threads[i], linker) { ThreadCleanIff(threads[i], linker); }
    hide AllClean;
    ArrayClean(items);
    if ItemsClean(items) {
      forall i | 0 <= i < |threads| ensures CleanThread(threads[i], linker) { assert AllClean(items[i]); }
    }
  }

  lemma ProcessCleanIff(b: Backtrace)
    ensures MembersClean(ContextMembers(b)) <==> CleanProcess(b)
  {
    ContextKeys();
    hide Clean, Decimal;
    var ms := ContextMembers(b);
    if MembersClean(ms) {
      MemberClean(ms, 0);
      MemberClean(ms, 1);
      MemberClean(ms, 3);
      MemberClean(ms, 7);
      MemberClean(ms, 8);
    }
  }

  lemma RegistersCleanIff(registers: seq<Register>)
    ensures AllClean(Object(RegisterMembers(registers))) <==> CleanRegisters(registers)
  {
    hide Clean;
    var ms := RegisterMembers(registers);
    if MembersClean(ms) {
      forall i | 0 <= i < |registers| ensures CleanRegister(registers[i]) { MemberClean(ms, i); }
    }
  }

  lemma ExceptionCleanIff(s: SignalInfo)
    ensures AllClean(Object(ExceptionMembers(s))) <==> Clean(s.cause) && Clean(s.name)
  {
    SignalKeys();
    hide Clean, Decimal;
    var inner := SignalInfoMembers(s);
    assert MembersClean(inner) <==> Clean(s.name) by {
      if MembersClean(inner) { MemberClean(inner, 0); }
    }
    ObjectClean(inner);
    var ms := ExceptionMembers(s);
    hide AllClean, SignalInfoMembers;
    ExceptionMembersClean(s);
    ObjectClean(ms);
  }

  lemma ExceptionMembersClean(s: SignalInfo)
    ensures MembersClean(ExceptionMembers(s)) <==> Clean(s.cause) && AllClean(Object(SignalInfoMembers(s)))
  {
    SignalKeys();
    hide Clean, SignalInfoMembers;
    var ms := ExceptionMembers(s);
    if MembersClean(ms) {
      MemberClean(ms, 1);
      MemberClean(ms, 2);
    }
  }

  /** A null context leaves everything but the process's own fields out of the report. */
  predicate CleanAsReported(b: Backtrace)
    requires b.linker.pathMax > 0
  {
    if b.registers.Some? then CleanBacktrace(b) else CleanProcess(b)
  }

  lemma MembersCleanIff(b: Backtrace)
    requires FieldWidths(b)
    ensures MembersClean(BacktraceMembers(b)) <==> CleanAsReported(b)
  {
    hide Clean, MembersClean, AllClean, ContextMembers, ExceptionMembers, RegisterMembers, ThreadValues, RegisterWidths, ThreadWidths,
      CleanProcess, CleanThread, CleanRegisters, IsKey;
    ProcessCleanIff(b);
    if b.registers.Some? {
      SignalKeys();
      ThreadKeys();
      RegistersCleanIff(b.registers.value);
      ExceptionCleanIff(b.signal);
      ThreadsCleanIff(b.threads, b.linker);
      var r := Member("registers", Object(RegisterMembers(b.registers.value)));
      var e := Member("exception", Object(ExceptionMembers(b.signal)));
      var t := Member("threads", Array(ThreadValues(b.threads, b.linker)));
      ThreeClean(ContextMembers(b), r, e, t);
      KeysClean();
    }
  }

  lemma KeysClean()
    ensures Clean("registers") && Clean("exception") && Clean("threads") && Clean("backtrace")
  {
  }

  lemma ThreeClean(ms: seq<Member>, r: Member, e: Member, t: Member)
    ensures MembersClean(ms + [r, e, t]) <==>
      MembersClean(ms) && MembersClean([r]) && MembersClean([e]) && MembersClean([t])
    ensures forall m :: m in {r, e, t} ==> (MembersClean([m]) <==> Clean(m.key) && AllClean(m.value))
  {
    ConcatClean(ms, [r, e, t]);
    assert [r, e, t] == [r] + ([e] + [t]);
    ConcatClean([r], [e] + [t]);
    ConcatClean([e], [t]);
    OneClean(r);
    OneClean(e);
    OneClean(t);
    hide MembersClean, AllClean, Clean;
  }

  /** Which strings count: all that are reported. */
  lemma ValueCleanIff(b: Backtrace)
    requires FieldWidths(b)
    ensures AllClean(BacktraceValue(b)) <==> CleanAsReported(b)
  {
    MembersCleanIff(b);
    KeysClean();
    hide MembersClean, AllClean, BacktraceMembers, CleanAsReported, Clean;
    ObjectClean(BacktraceMembers(b));
    OneClean(Member("backtrace", Object(BacktraceMembers(b))));
    ObjectClean([Member("backtrace", Object(BacktraceMembers(b)))]);
  }
}
