/** The JSON value a backtrace stands for, and the proof that the emitter prints exactly that value. */
module ReportValue {
  import opened Numerals
  import opened Json
  import opened Report
  import opened Emitter
  import opened RawText

  // Values

  function NumberOf(n: int): Json { Number(Decimal(n)) }

  function FrameNumbers(f: StackFrame): seq<Member> {
    [Member("cstr", String(FrameLabel(f))),
     Member("index", NumberOf(f.index)),
     Member("address", NumberOf(f.address)),
     Member("pc", NumberOf(f.pc)),
     Member("so_base", NumberOf(f.soBase)),
     Member("sym_addr", NumberOf(f.symAddr)),
     Member("sym_addr_offset", NumberOf(f.symAddrOffset))]
  }

  function FramePathMembers(f: StackFrame): seq<Member> {
    FrameNumbers(f) + (if f.soPath != "" then [Member("so_path", String(f.soPath))] else [])
  }

  function FrameMembers(f: StackFrame): seq<Member> {
    FramePathMembers(f) + (if f.symName != "" then [Member("sym_name", String(f.symName))] else [])
  }

  function FrameValue(f: StackFrame): Json { Object(FrameMembers(f)) }

  function FrameValues(frames: seq<StackFrame>): (r: seq<Json>)
    ensures |r| == |frames| && forall i :: 0 <= i < |r| ==> r[i] == FrameValue(frames[i])
  {
    seq(|frames|, i requires 0 <= i < |frames| => FrameValue(frames[i]))
  }

  function ThreadHead(t: ThreadInfo): seq<Member> {
    [Member("threadNumber", NumberOf(t.tid)),
     Member("threadId", String(t.name)),
     Member("state", String(t.state)),
     Member("priority", NumberOf(t.priority)),
     Member("crashed", Bool(t.crashed))]
  }

  function ThreadMembers(t: ThreadInfo, linker: Linker): seq<Member>
    requires linker.pathMax > 0
  {
    ThreadHead(t) + [Member("stack", Array(FrameValues(FramesOf(t, linker))))]
  }

  function ThreadValues(threads: seq<ThreadInfo>, linker: Linker): (r: seq<Json>)
    requires linker.pathMax > 0
    ensures |r| == |threads| && forall i :: 0 <= i < |r| ==> r[i] == Object(ThreadMembers(threads[i], linker))
  {
    seq(|threads|, i requires 0 <= i < |threads| => Object(ThreadMembers(threads[i], linker)))
  }

  function ContextMembers(b: Backtrace): seq<Member> {
    [Member("name", String(b.processName)),
     Member("description", String(b.description)),
     Member("timestamp", NumberOf(b.timestamp)),
     Member("abi", String(b.arch)),
     Member("pid", NumberOf(b.pid)),
     Member("ppid", NumberOf(b.ppid)),
     Member("uid", NumberOf(b.uid)),
     Member("buildid", String(b.buildId)),
     Member("sessionid", String(b.sessionId)),
     Member("platform", String("android"))]
  }

  function RegisterMember(r: Register): Member {
    match r
    case TextRegister(name, text) => Member(name, String(text))
    case NumberRegister(name, n) => Member(name, NumberOf(n))
  }

  function RegisterMembers(registers: seq<Register>): (r: seq<Member>)
    ensures |r| == |registers| && forall i :: 0 <= i < |r| ==> r[i] == RegisterMember(registers[i])
  {
    seq(|registers|, i requires 0 <= i < |registers| => RegisterMember(registers[i]))
  }

  function SignalInfoMembers(s: SignalInfo): seq<Member> {
    [Member("signalName", String(s.name)),
     Member("signalCode", NumberOf(s.code)),
     Member("faultAddress", NumberOf(s.address))]
  }

  function ExceptionMembers(s: SignalInfo): seq<Member> {
    [Member("name", String("Native exception")),
     Member("cause", String(s.cause)),
     Member("signalInfo", Object(SignalInfoMembers(s)))]
  }

  /** A null context cuts the argument list short: only the process's own fields are reported. */
  function BacktraceMembers(b: Backtrace): seq<Member>
    requires b.linker.pathMax > 0
  {
    if b.registers.None? then ContextMembers(b)
    else ContextMembers(b) + [
      Member("registers", Object(RegisterMembers(b.registers.value))),
      Member("exception", Object(ExceptionMembers(b.signal))),
      Member("threads", Array(ThreadValues(b.threads, b.linker)))]
  }

  function BacktraceValue(b: Backtrace): Json
    requires b.linker.pathMax > 0
  {
    Object([Member("backtrace", Object(BacktraceMembers(b)))])
  }

  // Translated pieces

  lemma KeyPiece(key: string)
    ensures Requoted(KeyText(key)) == RawQuoted(key) + ":"
    ensures Clean(key) ==> Requoted(KeyText(key)) == Quoted(key) + ":"
  {
    RequotedConcat("'", key);
    RequotedConcat("'" + key, "':");
    if Clean(key) { RawQuotedClean(key); }
    hide Quoted, Clean;
  }

  lemma QuotedPiece(value: string)
    ensures Requoted("'" + value + "'") == RawQuoted(value)
  {
    RequotedConcat("'", value);
    RequotedConcat("'" + value, "'");
  }

  lemma StringPiece(key: string, value: string)
    ensures Requoted(StringText(key, value)) == RawMember(Member(key, String(value)))
    ensures |StringText(key, value)| == |key| + |value| + 5
  {
    KeyPiece(key);
    QuotedPiece(value);
    RequotedConcat(KeyText(key), "'" + value + "'");
    hide Clean, Requoted, Quoted, RawQuoted;
  }

  lemma DecimalClean(n: int)
    ensures Clean(Decimal(n))
  {
    NumeralIsDigits(if n < 0 then -n else n, 10);
  }

  lemma NumberPiece(key: string, n: int)
    ensures Requoted(NumberText(key, n)) == RawMember(Member(key, NumberOf(n)))
    ensures |NumberText(key, n)| == |key| + 3 + |Decimal(n)|
  {
    KeyPiece(key);
    DecimalClean(n);
    RequotedClean(Decimal(n));
    RequotedConcat(KeyText(key), Decimal(n));
  }

  /** Every integer the agent prints, with its key and comma, is far below the cap. */
  lemma IntegerPiece(key: string, n: int)
    requires |key| <= 16
    requires -WORD / 2 <= n < WORD
    ensures Requoted(NumberText(key, n)) == RawMember(Member(key, NumberOf(n)))
    ensures |NumberText(key, n)| <= |key| + 24
  {
    NumberPiece(key, n);
    WordLength(if n < 0 then -n else n);
  }

  lemma BoolPiece(key: string, b: bool)
    ensures Requoted(BoolText(key, b)) == RawMember(Member(key, Bool(b)))
    ensures |BoolText(key, b)| <= |key| + 8
  {
    KeyPiece(key);
    RequotedConcat(KeyText(key), if b then "true" else "false");
  }

  // Joining pieces

  lemma {:induction false} MembersConcat(a: seq<Member>, b: seq<Member>)
    requires |a| > 0 && |b| > 0
    ensures RawMembers(a + b) == RawMembers(a) + "," + RawMembers(b)
  {
    if |a| == 1 {
      assert (a + b)[1..] == b;
    } else {
      assert (a + b)[1..] == a[1..] + b;
      MembersConcat(a[1..], b);
      Assoc(RawMember(a[0]) + ",", RawMembers(a[1..]), "," + RawMembers(b));
    }
  }

  /** The text so far prints the members so far and a comma. */
  ghost predicate Pending(text: string, members: seq<Member>) {
    |members| > 0 && Requoted(text) == RawMembers(members) + ","
  }

  ghost predicate Prints(text: string, members: seq<Member>) {
    |members| > 0 && Requoted(text) == RawMembers(members)
  }

  lemma FirstPiece(piece: string, m: Member)
    requires Requoted(piece) == RawMember(m) && |piece| < PIECE_MAX
    ensures Pending(Capped(piece + ","), [m])
  {
    hide Requoted, RawMember;
    Punctuation();
    RequotedConcat(piece, ",");
  }

  lemma NextPiece(text: string, members: seq<Member>, piece: string, m: Member)
    requires Pending(text, members)
    requires Requoted(piece) == RawMember(m) && |piece| < PIECE_MAX
    ensures Pending(text + Capped(piece + ","), members + [m])
    ensures Prints(text + Capped(piece), members + [m])
  {
    hide Requoted, RawMember;
    Punctuation();
    RequotedConcat(text, piece);
    RequotedConcat(text + piece, ",");
    Assoc(text, piece, ",");
    MembersConcat(members, [m]);
  }

  lemma LeadingPiece(text: string, members: seq<Member>, piece: string, m: Member)
    requires Prints(text, members)
    requires Requoted(piece) == RawMember(m) && |piece| < PIECE_MAX
    ensures Prints(text + Capped("," + piece), members + [m])
  {
    hide Requoted, RawMember;
    Punctuation();
    RequotedConcat(",", piece);
    RequotedConcat(text, "," + piece);
    MembersConcat(members, [m]);
  }

  lemma PrintedObject(name: Option<string>, text: string, members: seq<Member>)
    requires Requoted(text) == RawMembers(members)
    requires name.Some? ==> IsKey(name.value)
    ensures name.None? ==> Requoted(ObjectText(name, text)) == Raw(Object(members))
    ensures name.Some? ==> Requoted(ObjectText(name, text)) == RawMember(Member(name.value, Object(members)))
  {
    hide Requoted;
    Punctuation();
    RequotedConcat("{", text);
    RequotedConcat("{" + text, "}");
    RequotedConcat(NameText(name), "{" + text + "}");
    if name.Some? { KeyPiece(name.value); }
  }

  lemma PrintedArray(name: string, text: string, items: seq<Json>)
    requires Requoted(text) == RawItems(items)
    requires IsKey(name)
    ensures Requoted(ArrayText(Some(name), text)) == RawMember(Member(name, Array(items)))
  {
    hide Requoted;
    Punctuation();
    RequotedConcat("[", text);
    RequotedConcat("[" + text, "]");
    RequotedConcat(NameText(Some(name)), "[" + text + "]");
    KeyPiece(name);
  }

  lemma {:induction false} PrintedCommas(texts: seq<string>, items: seq<Json>)
    requires |texts| == |items|
    requires forall i :: 0 <= i < |texts| ==> Requoted(texts[i]) == Raw(items[i])
    ensures Requoted(Commas(texts)) == RawItems(items)
  {
    hide Requoted;
    Punctuation();
    if |texts| > 1 {
      PrintedCommas(texts[1..], items[1..]);
      RequotedConcat(texts[0], ",");
      RequotedConcat(texts[0] + ",", Commas(texts[1..]));
    }
  }

  // The parts of the report

  /** How long the label of a frame is before it is cut. */
  function LabelCost(f: StackFrame): nat {
    24 + |f.soPath| + (if f.symName != "" then 4 + |f.symName| + |Decimal(LowSigned(f.symAddrOffset))| else 0)
  }

  /** The first piece of a frame, its label with key and quotes, is within one formatted buffer. */
  predicate Fits(f: StackFrame) { LabelCost(f) + 10 <= PIECE_MAX }

  function LabelHead(f: StackFrame): string {
    "#" + ZeroPadded(Decimal(f.index), 2) + " pc " + ZeroPadded(Numeral(LowHalf(f.pc), 16), 16) + " " + f.soPath
  }

  lemma LabelHeadLength(f: StackFrame)
    requires FrameWidths(f)
    ensures |LabelHead(f)| == 24 + |f.soPath|
  {
    assert Power(10, 2) == 100;
    NumeralLength(f.index, 10, 2);
    HexLength(LowHalf(f.pc));
  }

  /** `s` is a numeral that reads as `n`. */
  predicate Reads(s: string, base: nat, n: nat)
    requires IsBase(base)
  {
    AllDigits(s, base) && NumeralValue(s, base) == n
  }

  lemma HeadNumbers(f: StackFrame)
    requires FrameWidths(f)
    ensures |ZeroPadded(Decimal(f.index), 2)| == 2 && Reads(ZeroPadded(Decimal(f.index), 2), 10, f.index)
    ensures |ZeroPadded(Numeral(LowHalf(f.pc), 16), 16)| == 16
    ensures Reads(ZeroPadded(Numeral(LowHalf(f.pc), 16), 16), 16, LowHalf(f.pc))
  {
    NumeralRoundTrip(f.index, 10);
    NumeralRoundTrip(LowHalf(f.pc), 16);
    PaddedReads(Decimal(f.index), 2, 10);
    PaddedReads(Numeral(LowHalf(f.pc), 16), 16, 16);
    assert Power(10, 2) == 100;
    NumeralLength(f.index, 10, 2);
    HexLength(LowHalf(f.pc));
    hide ZeroPadded, Numeral, NumeralValue, AllDigits, LowHalf;
  }

  /**
   * What a label that fits tells: the index in two digits, the low half of the relative program counter in sixteen,
   * the path, and with a symbol the symbol and the low half of its offset, signed.
   */
  lemma LabelTells(f: StackFrame) returns (index: string, pc: string, offset: int)
    requires FrameWidths(f) && Fits(f)
    ensures FrameLabel(f) == "#" + index + " pc " + pc + " " + f.soPath
      + (if f.symName == "" then "" else " (" + f.symName + "+" + Decimal(offset) + ")")
    ensures |index| == 2 && Reads(index, 10, f.index)
    ensures |pc| == 16 && Reads(pc, 16, f.pc % 0x1_0000_0000)
    ensures -0x8000_0000 <= offset < 0x8000_0000 && (f.symAddrOffset - offset) % 0x1_0000_0000 == 0
  {
    index, pc := ZeroPadded(Decimal(f.index), 2), ZeroPadded(Numeral(LowHalf(f.pc), 16), 16);
    offset := LowSigned(f.symAddrOffset);
    HeadNumbers(f);
    LowHalves(f.symAddrOffset);
    assert LowHalf(f.pc) == f.pc % 0x1_0000_0000;
    LabelHeadLength(f);
    IntLength(offset);
    LabelUnfold(f);
    hide FrameLabel, ZeroPadded, Numeral, Decimal, LowHalf, LowSigned, Reads;
  }

  lemma CleanConcat(a: string, b: string)
    ensures Clean(a + b) <==> Clean(a) && Clean(b)
  {
    if Clean(a + b) {
      forall i | 0 <= i < |a| ensures IsClean(a[i]) { assert (a + b)[i] == a[i]; }
      forall i | 0 <= i < |b| ensures IsClean(b[i]) { assert (a + b)[|a| + i] == b[i]; }
    }
  }

  lemma PaddedClean(s: string, width: nat)
    requires Clean(s)
    ensures Clean(ZeroPadded(s, width))
  {
  }

  lemma HexClean(n: nat)
    ensures Clean(Numeral(n, 16))
  {
    NumeralIsDigits(n, 16);
    hide Numeral;
  }

  lemma LabelWordsClean()
    ensures Clean("#") && Clean(" pc ") && Clean(" ") && Clean(" (") && Clean("+") && Clean(")")
  {
  }

  lemma LabelHeadShape(f: StackFrame)
    requires FrameWidths(f) && CleanFrame(f)
    ensures Clean(LabelHead(f)) && |LabelHead(f)| == 24 + |f.soPath|
  {
    LabelHeadLength(f);
    hide ZeroPadded, Decimal, Numeral, LowHalf, Clean;
    LabelWordsClean();
    DecimalClean(f.index);
    PaddedClean(Decimal(f.index), 2);
    HexClean(LowHalf(f.pc));
    PaddedClean(Numeral(LowHalf(f.pc), 16), 16);
    var index, pc := ZeroPadded(Decimal(f.index), 2), ZeroPadded(Numeral(LowHalf(f.pc), 16), 16);
    CleanConcat("#", index);
    CleanConcat("#" + index, " pc ");
    CleanConcat("#" + index + " pc ", pc);
    CleanConcat("#" + index + " pc " + pc, " ");
    CleanConcat("#" + index + " pc " + pc + " ", f.soPath);
  }

  function LabelSymbol(f: StackFrame): string { " (" + f.symName + "+" + Decimal(LowSigned(f.symAddrOffset)) + ")" }

  lemma LabelSymbolShape(f: StackFrame)
    requires FrameWidths(f) && CleanFrame(f)
    ensures Clean(LabelSymbol(f)) && |LabelSymbol(f)| <= 270
    ensures |LabelSymbol(f)| == 4 + |f.symName| + |Decimal(LowSigned(f.symAddrOffset))|
  {
    DecimalClean(LowSigned(f.symAddrOffset));
    IntLength(LowSigned(f.symAddrOffset));
  }

  lemma LabelUnfold(f: StackFrame)
    ensures FrameLabel(f) == Capped(LabelHead(f)) + (if f.symName != "" then Capped(LabelSymbol(f)) else "")
  {
  }

  lemma LabelLength(f: StackFrame)
    requires FrameWidths(f)
    ensures if Fits(f) then |FrameLabel(f)| == LabelCost(f) else |FrameLabel(f)| + 10 > PIECE_MAX
  {
    LabelHeadLength(f);
    LabelUnfold(f);
    IntLength(LowSigned(f.symAddrOffset));
    hide FrameLabel, LabelHead, Decimal, LowSigned;
  }

  /** A label is clean, and fits exactly when its frame does. */
  lemma LabelShape(f: StackFrame)
    requires FrameWidths(f) && CleanFrame(f)
    ensures Clean(FrameLabel(f))
    ensures |FrameLabel(f)| + 10 <= PIECE_MAX <==> Fits(f)
  {
    LabelUnfold(f);
    hide LabelHead, LabelSymbol, FrameLabel;
    LabelHeadShape(f);
    LabelSymbolShape(f);
  }

  predicate IsKey(key: string) { Clean(key) && |key| <= 16 }

  lemma FirstNumber(key: string, n: int)
    requires IsKey(key) && -WORD / 2 <= n < WORD
    ensures Pending(Capped(NumberText(key, n) + ","), [Member(key, NumberOf(n))])
  {
    hide NumberText, Pending;
    IntegerPiece(key, n);
    FirstPiece(NumberText(key, n), Member(key, NumberOf(n)));
  }

  lemma FirstString(key: string, value: string)
    requires IsKey(key) && |value| + |key| + 5 < PIECE_MAX
    ensures Pending(Capped(StringText(key, value) + ","), [Member(key, String(value))])
  {
    hide StringText, Pending;
    StringPiece(key, value);
    FirstPiece(StringText(key, value), Member(key, String(value)));
  }

  lemma NextNumber(text: string, members: seq<Member>, key: string, n: int)
    requires Pending(text, members)
    requires IsKey(key) && -WORD / 2 <= n < WORD
    ensures Pending(text + Capped(NumberText(key, n) + ","), members + [Member(key, NumberOf(n))])
    ensures Prints(text + Capped(NumberText(key, n)), members + [Member(key, NumberOf(n))])
  {
    hide NumberText, Pending, Prints;
    IntegerPiece(key, n);
    NextPiece(text, members, NumberText(key, n), Member(key, NumberOf(n)));
  }

  lemma NextString(text: string, members: seq<Member>, key: string, value: string)
    requires Pending(text, members)
    requires IsKey(key) && |value| < 2000
    ensures Pending(text + Capped(StringText(key, value) + ","), members + [Member(key, String(value))])
    ensures Prints(text + Capped(StringText(key, value)), members + [Member(key, String(value))])
  {
    hide StringText, Pending, Prints;
    StringPiece(key, value);
    NextPiece(text, members, StringText(key, value), Member(key, String(value)));
  }

  lemma NextBool(text: string, members: seq<Member>, key: string, b: bool)
    requires Pending(text, members)
    requires IsKey(key)
    ensures Pending(text + Capped(BoolText(key, b) + ","), members + [Member(key, Bool(b))])
  {
    hide BoolText, Pending, Prints;
    BoolPiece(key, b);
    NextPiece(text, members, BoolText(key, b), Member(key, Bool(b)));
  }

  lemma FrameKeys()
    ensures IsKey("cstr") && IsKey("index") && IsKey("address") && IsKey("pc") && IsKey("so_base")
    ensures IsKey("sym_addr") && IsKey("sym_addr_offset") && IsKey("so_path") && IsKey("sym_name")
  {
  }

  lemma ThreadKeys()
    ensures IsKey("threadNumber") && IsKey("threadId") && IsKey("state") && IsKey("priority") && IsKey("crashed")
    ensures IsKey("stack") && IsKey("threads")
  {
  }

  lemma ContextKeys()
    ensures IsKey("name") && IsKey("description") && IsKey("timestamp") && IsKey("abi") && IsKey("pid") && IsKey("ppid")
    ensures IsKey("uid") && IsKey("buildid") && IsKey("sessionid") && IsKey("platform") && Clean("android")
  {
  }

  lemma SignalKeys()
    ensures IsKey("name") && IsKey("cause") && IsKey("signalName") && IsKey("signalCode") && IsKey("faultAddress")
    ensures IsKey("signalInfo") && IsKey("exception") && IsKey("registers") && IsKey("backtrace")
    ensures Clean("Native exception")
  {
  }

  function NumberMembers(f: StackFrame): seq<Member> {
    [Member("index", NumberOf(f.index)),
     Member("address", NumberOf(f.address)),
     Member("pc", NumberOf(f.pc)),
     Member("so_base", NumberOf(f.soBase)),
     Member("sym_addr", NumberOf(f.symAddr)),
     Member("sym_addr_offset", NumberOf(f.symAddrOffset))]
  }

  /** The six numbers of a frame, after whatever comes before them. */
  function WithNumbers(first: string, f: StackFrame): string {
    first
    + Capped(NumberText("index", f.index) + ",")
    + Capped(NumberText("address", f.address) + ",")
    + Capped(NumberText("pc", f.pc) + ",")
    + Capped(NumberText("so_base", f.soBase) + ",")
    + Capped(NumberText("sym_addr", f.symAddr) + ",")
    + Capped(NumberText("sym_addr_offset", f.symAddrOffset))
  }

  function FrameNumbersText(f: StackFrame): string { WithNumbers(Capped(StringText("cstr", FrameLabel(f)) + ","), f) }

  lemma NumbersPrint(first: string, members: seq<Member>, f: StackFrame)
    requires Pending(first, members) && FrameWidths(f)
    ensures Prints(WithNumbers(first, f), members + NumberMembers(f))
  {
    hide NumberText, Capped, Pending, Prints, NumberOf;
    FrameKeys();
    hide IsKey;
    var t, ms := first, members;
    NextNumber(t, ms, "index", f.index);
    t, ms := t + Capped(NumberText("index", f.index) + ","), ms + [Member("index", NumberOf(f.index))];
    NextNumber(t, ms, "address", f.address);
    t, ms := t + Capped(NumberText("address", f.address) + ","), ms + [Member("address", NumberOf(f.address))];
    NextNumber(t, ms, "pc", f.pc);
    t, ms := t + Capped(NumberText("pc", f.pc) + ","), ms + [Member("pc", NumberOf(f.pc))];
    NextNumber(t, ms, "so_base", f.soBase);
    t, ms := t + Capped(NumberText("so_base", f.soBase) + ","), ms + [Member("so_base", NumberOf(f.soBase))];
    NextNumber(t, ms, "sym_addr", f.symAddr);
    t, ms := t + Capped(NumberText("sym_addr", f.symAddr) + ","), ms + [Member("sym_addr", NumberOf(f.symAddr))];
    NextNumber(t, ms, "sym_addr_offset", f.symAddrOffset);
    assert ms + [Member("sym_addr_offset", NumberOf(f.symAddrOffset))] == members + NumberMembers(f);
  }

  lemma FrameNumbersPrint(f: StackFrame)
    requires FrameWidths(f) && Fits(f)
    ensures Prints(FrameNumbersText(f), FrameNumbers(f))
  {
    hide StringText, NumberText, FrameLabel, Capped, Pending, Prints, NumberOf;
    LabelLength(f);
    FrameKeys();
    hide IsKey, Clean;
    FirstString("cstr", FrameLabel(f));
    NumbersPrint(Capped(StringText("cstr", FrameLabel(f)) + ","), [Member("cstr", String(FrameLabel(f)))], f);
    assert [Member("cstr", String(FrameLabel(f)))] + NumberMembers(f) == FrameNumbers(f);
  }

  /** A field the emitter leaves out when it is empty. */
  lemma OptionalString(text: string, members: seq<Member>, key: string, value: string)
    requires Prints(text, members)
    requires IsKey(key) && |value| < 2020
    ensures Prints(text + (if value != "" then Capped("," + StringText(key, value)) else ""),
                   members + (if value != "" then [Member(key, String(value))] else []))
  {
    hide StringText, Prints;
    if value != "" {
      StringPiece(key, value);
      LeadingPiece(text, members, StringText(key, value), Member(key, String(value)));
    } else {
      assert text + "" == text && members + [] == members;
    }
  }

  function FramePathText(f: StackFrame): string {
    FrameNumbersText(f) + (if f.soPath != "" then Capped("," + StringText("so_path", f.soPath)) else "")
  }

  lemma FramePathPrints(f: StackFrame)
    requires FrameWidths(f) && Fits(f)
    ensures Prints(FramePathText(f), FramePathMembers(f))
  {
    hide Prints;
    FrameNumbersPrint(f);
    assert |f.soPath| < 2020;
    FrameKeys();
    hide StringText, FrameNumbersText, FrameNumbers, IsKey, Clean, Fits, Capped;
    OptionalString(FrameNumbersText(f), FrameNumbers(f), "so_path", f.soPath);
  }

  lemma FrameBodyPrints(f: StackFrame)
    requires FrameWidths(f) && Fits(f)
    ensures Prints(FrameBody(f), FrameMembers(f))
  {
    hide Prints, FramePathText, FramePathMembers, FrameBody, StringText, Capped, Fits, Clean, IsKey;
    FramePathPrints(f);
    FrameBodyUnfold(f);
    FrameKeys();
    OptionalString(FramePathText(f), FramePathMembers(f), "sym_name", f.symName);
  }

  lemma FramePrints(f: StackFrame)
    requires FrameWidths(f) && Fits(f)
    ensures Requoted(FrameText(f)) == Raw(FrameValue(f))
  {
    FrameBodyPrints(f);
    PrintsObject(FrameBody(f), FrameMembers(f));
  }

  lemma FrameBodyUnfold(f: StackFrame)
    ensures FrameBody(f) == FramePathText(f)
      + (if f.symName != "" then Capped("," + StringText("sym_name", f.symName)) else "")
  {
    hide StringText, NumberText, FrameLabel, Capped;
  }

  lemma PrintsObject(text: string, members: seq<Member>)
    requires Prints(text, members)
    ensures Requoted(ObjectText(None, text)) == Raw(Object(members))
  {
    PrintedObject(None, text, members);
  }

  lemma FramesWidths(t: ThreadInfo, linker: Linker)
    requires linker.pathMax > 0 && ThreadWidths(t)
    ensures forall i :: 0 <= i < |FramesOf(t, linker)| ==> FrameWidths(FramesOf(t, linker)[i])
  {
  }

  predicate FramesFit(t: ThreadInfo, linker: Linker)
    requires linker.pathMax > 0
  {
    forall i :: 0 <= i < |FramesOf(t, linker)| ==> Fits(FramesOf(t, linker)[i])
  }

  lemma CallstackPrints(frames: seq<StackFrame>)
    requires forall i :: 0 <= i < |frames| ==> FrameWidths(frames[i]) && Fits(frames[i])
    ensures Requoted(CallstackText(frames)) == RawMember(Member("stack", Array(FrameValues(frames))))
  {
    hide FrameText, FrameWidths, CleanFrame, Fits, ArrayText, Raw, IsKey;
    ThreadKeys();
    var texts, items := FrameTexts(frames), FrameValues(frames);
    forall i | 0 <= i < |frames| ensures Requoted(texts[i]) == Raw(items[i]) { FramePrints(frames[i]); }
    PrintedCommas(texts, items);
    PrintedArray("stack", Commas(texts), items);
  }

  function ThreadHeadText(t: ThreadInfo): string {
    Capped(NumberText("threadNumber", t.tid) + ",")
    + Capped(StringText("threadId", t.name) + ",")
    + Capped(StringText("state", t.state) + ",")
    + Capped(NumberText("priority", t.priority) + ",")
    + Capped(BoolText("crashed", t.crashed) + ",")
  }

  lemma ThreadHeadPrints(t: ThreadInfo)
    requires ThreadWidths(t)
    ensures Pending(ThreadHeadText(t), ThreadHead(t))
  {
    hide StringText, NumberText, BoolText, Capped, Pending, Prints, NumberOf, IsKey, Clean;
    ThreadKeys();
    var ms := [Member("threadNumber", NumberOf(t.tid))];
    FirstNumber("threadNumber", t.tid);
    var s := Capped(NumberText("threadNumber", t.tid) + ",");
    NextString(s, ms, "threadId", t.name);
    s, ms := s + Capped(StringText("threadId", t.name) + ","), ms + [Member("threadId", String(t.name))];
    NextString(s, ms, "state", t.state);
    s, ms := s + Capped(StringText("state", t.state) + ","), ms + [Member("state", String(t.state))];
    NextNumber(s, ms, "priority", t.priority);
    s, ms := s + Capped(NumberText("priority", t.priority) + ","), ms + [Member("priority", NumberOf(t.priority))];
    NextBool(s, ms, "crashed", t.crashed);
    assert ms + [Member("crashed", Bool(t.crashed))] == ThreadHead(t);
  }

  lemma PendingThen(text: string, members: seq<Member>, piece: string, m: Member)
    requires Pending(text, members) && Requoted(piece) == RawMember(m)
    ensures Prints(text + piece, members + [m])
  {
    RequotedConcat(text, piece);
    MembersConcat(members, [m]);
  }

  lemma ThreadPrints(t: ThreadInfo, linker: Linker)
    requires linker.pathMax > 0 && ThreadWidths(t) && FramesFit(t, linker)
    ensures Requoted(ThreadText(t, linker)) == Raw(Object(ThreadMembers(t, linker)))
  {
    hide ThreadHeadText, ThreadHead, CallstackText, Pending, Prints, Raw;
    FramesWidths(t, linker);
    CallstackPrints(FramesOf(t, linker));
    ThreadHeadPrints(t);
    ThreadBodyUnfold(t, linker);
    PendingThen(ThreadHeadText(t), ThreadHead(t), CallstackText(FramesOf(t, linker)),
      Member("stack", Array(FrameValues(FramesOf(t, linker)))));
    PrintsObject(ThreadBody(t, linker), ThreadMembers(t, linker));
  }

  lemma ThreadBodyUnfold(t: ThreadInfo, linker: Linker)
    requires linker.pathMax > 0
    ensures ThreadBody(t, linker) == ThreadHeadText(t) + CallstackText(FramesOf(t, linker))
  {
    hide StringText, NumberText, BoolText, Capped, CallstackText;
  }

  /** Every formatted piece of every frame fits its buffer. */
  predicate ReportFits(b: Backtrace)
    requires b.linker.pathMax > 0
  {
    forall k :: 0 <= k < |b.threads| ==> FramesFit(b.threads[k], b.linker)
  }

  lemma ThreadsPrint(b: Backtrace)
    requires FieldWidths(b) && ReportFits(b)
    ensures Requoted(ThreadsText(b)) == RawMember(Member("threads", Array(ThreadValues(b.threads, b.linker))))
  {
    hide ThreadText, ThreadWidths, CleanThread, FramesFit, ArrayText, Raw, CleanContext, IsKey, RegisterWidths;
    ThreadKeys();
    var texts, items := ThreadTexts(b.threads, b.linker), ThreadValues(b.threads, b.linker);
    forall i | 0 <= i < |b.threads| ensures Requoted(texts[i]) == Raw(items[i]) {
      ThreadPrints(b.threads[i], b.linker);
    }
    PrintedCommas(texts, items);
    PrintedArray("threads", Commas(texts), items);
  }

  lemma ContextPrints(b: Backtrace)
    requires FieldWidths(b)
    ensures Prints(ContextText(b), ContextMembers(b))
  {
    hide StringText, NumberText, Capped, Pending, Prints, NumberOf, IsKey, Clean;
    ContextKeys();
    var ms := [Member("name", String(b.processName))];
    FirstString("name", b.processName);
    var s := Capped(StringText("name", b.processName) + ",");
    NextString(s, ms, "description", b.description);
    s, ms := s + Capped(StringText("description", b.description) + ","), ms + [Member("description", String(b.description))];
    NextNumber(s, ms, "timestamp", b.timestamp);
    s, ms := s + Capped(NumberText("timestamp", b.timestamp) + ","), ms + [Member("timestamp", NumberOf(b.timestamp))];
    NextString(s, ms, "abi", b.arch);
    s, ms := s + Capped(StringText("abi", b.arch) + ","), ms + [Member("abi", String(b.arch))];
    NextNumber(s, ms, "pid", b.pid);
    s, ms := s + Capped(NumberText("pid", b.pid) + ","), ms + [Member("pid", NumberOf(b.pid))];
    NextNumber(s, ms, "ppid", b.ppid);
    s, ms := s + Capped(NumberText("ppid", b.ppid) + ","), ms + [Member("ppid", NumberOf(b.ppid))];
    NextNumber(s, ms, "uid", b.uid);
    s, ms := s + Capped(NumberText("uid", b.uid) + ","), ms + [Member("uid", NumberOf(b.uid))];
    NextString(s, ms, "buildid", b.buildId);
    s, ms := s + Capped(StringText("buildid", b.buildId) + ","), ms + [Member("buildid", String(b.buildId))];
    NextString(s, ms, "sessionid", b.sessionId);
    s, ms := s + Capped(StringText("sessionid", b.sessionId) + ","), ms + [Member("sessionid", String(b.sessionId))];
    NextString(s, ms, "platform", "android");
    assert ms + [Member("platform", String("android"))] == ContextMembers(b);
  }

  lemma RegisterPrints(r: Register)
    requires RegisterWidths(r)
    ensures Requoted(RegisterText(r)) == RawMember(RegisterMember(r)) && |RegisterText(r)| <= 60
  {
    match r
    case TextRegister(name, text) => StringPiece(name, text);
    case NumberRegister(name, n) => IntegerPiece(name, n);
  }

  lemma {:induction false} RegistersPrint(registers: seq<Register>)
    requires forall i :: 0 <= i < |registers| ==> RegisterWidths(registers[i])
    ensures Requoted(RegisterPieces(registers)) == RawMembers(RegisterMembers(registers))
  {
    hide RegisterText, RegisterMember, RegisterWidths, CleanRegister;
    if |registers| > 0 {
      RegisterPrints(registers[0]);
      if |registers| > 1 {
        RegistersPrint(registers[1..]);
        assert RegisterMembers(registers)[1..] == RegisterMembers(registers[1..]);
        RequotedConcat(RegisterText(registers[0]), ",");
        RequotedConcat(RegisterText(registers[0]) + ",", RegisterPieces(registers[1..]));
      }
    }
  }

  lemma SignalInfoPrints(s: SignalInfo)
    requires |s.name| < 128
    ensures Requoted(SignalBody(s)) == RawMembers(SignalInfoMembers(s))
  {
    hide StringText, NumberText, Capped, NumberOf, Pending, IsKey, Clean;
    SignalKeys();
    var ms := [Member("signalName", String(s.name))];
    FirstString("signalName", s.name);
    var t := Capped(StringText("signalName", s.name) + ",");
    NextNumber(t, ms, "signalCode", s.code);
    t, ms := t + Capped(NumberText("signalCode", s.code) + ","), ms + [Member("signalCode", NumberOf(s.code))];
    NextNumber(t, ms, "faultAddress", s.address);
    assert ms + [Member("faultAddress", NumberOf(s.address))] == SignalInfoMembers(s);
  }

  function SignalHead(s: SignalInfo): seq<Member> {
    [Member("name", String("Native exception")), Member("cause", String(s.cause))]
  }

  function SignalHeadText(s: SignalInfo): string {
    Capped(StringText("name", "Native exception") + ",") + Capped(StringText("cause", s.cause) + ",")
  }

  lemma SignalHeadPrints(s: SignalInfo)
    requires |s.cause| < 128
    ensures Pending(SignalHeadText(s), SignalHead(s))
  {
    hide StringText, Capped, Pending, IsKey, Clean;
    SignalKeys();
    FirstString("name", "Native exception");
    NextString(Capped(StringText("name", "Native exception") + ","), [Member("name", String("Native exception"))], "cause", s.cause);
    assert [Member("name", String("Native exception"))] + [Member("cause", String(s.cause))] == SignalHead(s);
  }

  lemma SignalPrints(s: SignalInfo)
    requires |s.name| < 128 && |s.cause| < 128
    ensures Requoted(SignalText(s)) == RawMember(Member("exception", Object(ExceptionMembers(s))))
  {
    hide StringText, NumberText, Capped, ObjectText, SignalBody, SignalInfoMembers, Pending, IsKey, Clean, RawMember, Requoted;
    SignalKeys();
    SignalInfoPrints(s);
    PrintedObject(Some("signalInfo"), SignalBody(s), SignalInfoMembers(s));
    SignalHeadPrints(s);
    var member := Member("signalInfo", Object(SignalInfoMembers(s)));
    PendingThen(SignalHeadText(s), SignalHead(s), ObjectText(Some("signalInfo"), SignalBody(s)), member);
    assert SignalHead(s) + [member] == ExceptionMembers(s);
    PrintedObject(Some("exception"), SignalHeadText(s) + ObjectText(Some("signalInfo"), SignalBody(s)), ExceptionMembers(s));
  }

  /** What the argument list of the report prints, threads last. */
  lemma TailPrints(b: Backtrace)
    requires FieldWidths(b) && b.registers.Some?
    ensures Requoted(RegistersText(b.registers.value)) == RawMember(Member("registers", Object(RegisterMembers(b.registers.value))))
    ensures Requoted(SignalText(b.signal)) == RawMember(Member("exception", Object(ExceptionMembers(b.signal))))
    ensures Prints(ContextText(b), ContextMembers(b))
  {
    hide IsKey, RegisterWidths, CleanRegister, ContextText, ContextMembers, SignalText, ObjectText, Prints;
    SignalKeys();
    RegistersPrint(b.registers.value);
    PrintedObject(Some("registers"), RegisterPieces(b.registers.value), RegisterMembers(b.registers.value));
    SignalPrints(b.signal);
    ContextPrints(b);
  }

  /** The arguments before the threads, each with its comma. */
  function BeforeThreads(b: Backtrace): string
    requires b.registers.Some?
  {
    ContextText(b) + "," + RegistersText(b.registers.value) + "," + SignalText(b.signal) + ","
  }

  function MembersBeforeThreads(b: Backtrace): seq<Member>
    requires b.registers.Some?
  {
    ContextMembers(b) + [
      Member("registers", Object(RegisterMembers(b.registers.value))),
      Member("exception", Object(ExceptionMembers(b.signal)))]
  }

  lemma BeforeThreadsPrints(b: Backtrace)
    requires FieldWidths(b) && b.registers.Some?
    ensures Pending(BeforeThreads(b), MembersBeforeThreads(b))
  {
    hide ContextText, RegistersText, SignalText, ContextMembers, RegisterMembers, ExceptionMembers, Requoted, RawMember, Prints, Pending;
    TailPrints(b);
    var m1 := Member("registers", Object(RegisterMembers(b.registers.value)));
    var m2 := Member("exception", Object(ExceptionMembers(b.signal)));
    var text := ContextText(b);
    PrintsComma(text, ContextMembers(b));
    PendingThen(text + ",", ContextMembers(b), RegistersText(b.registers.value), m1);
    text := text + "," + RegistersText(b.registers.value);
    PrintsComma(text, ContextMembers(b) + [m1]);
    PendingThen(text + ",", ContextMembers(b) + [m1], SignalText(b.signal), m2);
    text := text + "," + SignalText(b.signal);
    PrintsComma(text, ContextMembers(b) + [m1] + [m2]);
    assert ContextMembers(b) + [m1] + [m2] == MembersBeforeThreads(b);
  }

  lemma PrintsComma(text: string, members: seq<Member>)
    requires Prints(text, members)
    ensures Pending(text + ",", members)
  {
    hide Requoted, RawMembers;
    Punctuation();
    RequotedConcat(text, ",");
  }

  lemma ArgumentsSplit(b: Backtrace)
    requires b.linker.pathMax > 0
    ensures b.registers.Some? ==> Listed(BacktraceArguments(b)) == BeforeThreads(b) + ThreadsText(b)
    ensures b.registers.None? ==> Listed(BacktraceArguments(b)) == ContextText(b)
  {
    hide ContextText, RegistersText, SignalText, ThreadsText;
    var args := BacktraceArguments(b);
    if b.registers.Some? {
      assert args[1..][1..][1..] == [args[3]];
      assert Listed(args[1..][1..]) == args[2].value + "," + args[3].value;
      assert Listed(args[1..]) == args[1].value + "," + (args[2].value + "," + args[3].value);
      assert Listed(args) == args[0].value + "," + (args[1].value + "," + (args[2].value + "," + args[3].value));
    }
  }

  /** The emitter writes exactly the value of the backtrace, without escapes, when no piece is cut. */
  lemma BacktracePrints(b: Backtrace)
    requires FieldWidths(b)
    requires b.registers.None? || ReportFits(b)
    ensures Emitted(b) == Raw(BacktraceValue(b))
  {
    hide Prints, Pending, Listed, BacktraceArguments, Requoted, RawMember, ContextText, ContextMembers;
    ArgumentsSplit(b);
    if b.registers.None? {
      ContextPrints(b);
    } else {
      BeforeThreadsPrints(b);
      ThreadsPrint(b);
      hide ThreadsText, BeforeThreads, ThreadValues;
      PendingThen(BeforeThreads(b), MembersBeforeThreads(b), ThreadsText(b), Member("threads", Array(ThreadValues(b.threads, b.linker))));
      assert BacktraceMembers(b) == MembersBeforeThreads(b) + [Member("threads", Array(ThreadValues(b.threads, b.linker)))];
    }
    ReportPrints(b);
  }

  lemma ReportPrints(b: Backtrace)
    requires b.linker.pathMax > 0
    requires Prints(Listed(BacktraceArguments(b)), BacktraceMembers(b))
    ensures Emitted(b) == Raw(BacktraceValue(b))
  {
    hide BacktraceArguments, BacktraceMembers, ObjectText, Requoted, RawMember, IsKey, Clean, Listed;
    SignalKeys();
    var text := ObjectText(Some("backtrace"), Listed(BacktraceArguments(b)));
    var m := Member("backtrace", Object(BacktraceMembers(b)));
    PrintedObject(Some("backtrace"), Listed(BacktraceArguments(b)), BacktraceMembers(b));
    assert Requoted(text) == RawMember(m);
    RequotedConcat("{", text);
    RequotedConcat("{" + text, "}");
    Punctuation();
    assert RawMembers([m]) == RawMember(m);
  }

  // The value is one RFC 8259 can carry

  lemma {:induction false} DigitSpanOfNumeral(s: string)
    requires AllDigits(s, 10)
    ensures DigitSpan(s) == |s|
  {
    if s != "" { DigitSpanOfNumeral(s[1..]); }
  }

  lemma DecimalIsNumber(n: int)
    ensures IsNumber(Decimal(n))
  {
    var m := if n < 0 then -n else n;
    NumeralIsDigits(m, 10);
    DigitSpanOfNumeral(Numeral(m, 10));
    var t := Numeral(m, 10);
    assert ("-" + t)[1..] == t;
    assert t[|t|..] == "";
  }

  lemma FrameWellFormed(f: StackFrame)
    ensures WellFormed(FrameValue(f))
  {
    hide FrameLabel, NumberOf;
    NumberWellFormed(f.index);
    NumberWellFormed(f.address);
    NumberWellFormed(f.pc);
    NumberWellFormed(f.soBase);
    NumberWellFormed(f.symAddr);
    NumberWellFormed(f.symAddrOffset);
  }

  lemma ThreadWellFormed(t: ThreadInfo, linker: Linker)
    requires linker.pathMax > 0
    ensures WellFormed(Object(ThreadMembers(t, linker)))
  {
    hide FrameValue, IsNumber;
    DecimalIsNumber(t.tid);
    DecimalIsNumber(t.priority);
    forall i | 0 <= i < |FramesOf(t, linker)| ensures WellFormed(FrameValues(FramesOf(t, linker))[i]) {
      FrameWellFormed(FramesOf(t, linker)[i]);
    }
  }

  lemma RegistersWellFormed(registers: seq<Register>)
    ensures WellFormed(Object(RegisterMembers(registers)))
  {
    hide IsNumber;
    forall i | 0 <= i < |registers| ensures WellFormed(RegisterMembers(registers)[i].value) {
      if registers[i].NumberRegister? { DecimalIsNumber(registers[i].n); }
    }
  }

  lemma NumberWellFormed(n: int)
    ensures WellFormed(NumberOf(n))
  {
    DecimalIsNumber(n);
    hide IsNumber, Decimal;
  }

  lemma ProcessWellFormed(b: Backtrace)
    ensures MembersWellFormed(ContextMembers(b))
  {
    hide NumberOf;
    NumberWellFormed(b.timestamp);
    NumberWellFormed(b.pid);
    NumberWellFormed(b.ppid);
    NumberWellFormed(b.uid);
  }

  lemma ExceptionWellFormed(s: SignalInfo)
    ensures WellFormed(Object(ExceptionMembers(s)))
  {
    hide NumberOf;
    NumberWellFormed(s.code);
    NumberWellFormed(s.address);
    assert WellFormed(Object(SignalInfoMembers(s)));
    hide SignalInfoMembers;
  }

  lemma ContextWellFormed(b: Backtrace)
    ensures MembersWellFormed(ContextMembers(b))
    ensures WellFormed(Object(ExceptionMembers(b.signal)))
  {
    hide *;
    ProcessWellFormed(b);
    ExceptionWellFormed(b.signal);
  }

  lemma BacktraceWellFormed(b: Backtrace)
    requires b.linker.pathMax > 0
    ensures WellFormed(BacktraceValue(b))
  {
    ContextWellFormed(b);
    hide ContextMembers, ExceptionMembers, RegisterMembers, ThreadMembers;
    if b.registers.Some? {
      RegistersWellFormed(b.registers.value);
      forall i | 0 <= i < |b.threads| ensures WellFormed(ThreadValues(b.threads, b.linker)[i]) {
        ThreadWellFormed(b.threads[i], b.linker);
      }
      assert WellFormed(Array(ThreadValues(b.threads, b.linker)));
    }
    assert MembersWellFormed(BacktraceMembers(b));
    assert WellFormed(Object(BacktraceMembers(b)));
  }
}
