/**
 * Exactly when a report reads back as the value it was made from: a value needs as many characters as its text without
 * escapes has, and a report with a cut piece is shorter than that.
 */
module ExactReport {
  import opened Numerals
  import opened Json
  import opened Report
  import opened Emitter
  import opened RawText
  import opened ReportValue
  import opened CleanReport
  import opened Readability

  // Parsing a value takes at least the characters of its text without escapes

  lemma {:induction false} StringNeeds(s: string)
    ensures var r := ParseStringBody(s); r.Ok? ==> |r.rest| + |r.value| + 1 <= |s|
    decreases |s|
  {
    if s != "" && s[0] != '"' {
      if IsPlain(s[0]) {
        StringNeeds(s[1..]);
      } else if s[0] == '\\' && ParseEscape(s[1..]).Ok? {
        StringNeeds(ParseEscape(s[1..]).rest);
      }
    }
  }

  lemma RawSizes(v: Json)
    ensures v.String? ==> |Raw(v)| == |v.s| + 2
    ensures v.Number? ==> Raw(v) == v.lexeme
    ensures v.Array? ==> |Raw(v)| == |RawItems(v.items)| + 2
    ensures v.Object? ==> |Raw(v)| == |RawMembers(v.members)| + 2
    ensures v.Null? ==> |Raw(v)| == 4
    ensures v.Bool? ==> |Raw(v)| == if v.b then 4 else 5
  {
  }

  lemma MoreItems(item: Json, items: seq<Json>)
    ensures |RawItems([item])| == |Raw(item)|
    ensures |items| > 0 ==> |RawItems([item] + items)| == |Raw(item)| + 1 + |RawItems(items)|
  {
    assert ([item] + items)[1..] == items;
  }

  lemma MoreMembers(m: Member, members: seq<Member>)
    ensures |RawMembers([m])| == |RawMember(m)|
    ensures |members| > 0 ==> |RawMembers([m] + members)| == |RawMember(m)| + 1 + |RawMembers(members)|
  {
    assert ([m] + members)[1..] == members;
  }

  lemma MemberSize(m: Member)
    ensures |RawMember(m)| == |m.key| + 3 + |Raw(m.value)|
  {
  }

  lemma ScalarNeeds(t: string)
    requires t != ""
    ensures var r := ParseScalar(t); r.Ok? ==> |r.rest| + |Raw(r.value)| <= |t|
  {
    StringNeeds(t[1..]);
    if ParseScalar(t).Ok? { RawSizes(ParseScalar(t).value); }
    hide Raw, ParseStringBody;
  }

  lemma {:induction false} ValueNeeds(s: string)
    ensures var r := ParseValue(s); r.Ok? ==> |r.rest| + |Raw(r.value)| <= |s|
    decreases |s|, 2
  {
    var t := SkipSpace(s);
    hide Raw;
    if t != "" {
      if t[0] == '{' || t[0] == '[' {
        var u := SkipSpace(t[1..]);
        hide ParseItems, ParseMembers, SkipSpace;
        RawSizes(Array([]));
        RawSizes(Object([]));
        if t[0] == '{' { MembersNeed(u); } else { ItemsNeed(u); }
        if ParseValue(s).Ok? { RawSizes(ParseValue(s).value); }
      } else {
        ScalarNeeds(t);
        hide ParseScalar;
      }
    }
  }

  lemma {:induction false} ItemsNeed(s: string)
    ensures var r := ParseItems(s); r.Ok? ==> |r.value| > 0 && |r.rest| + |RawItems(r.value)| + 1 <= |s|
    decreases |s|, 3
  {
    hide RawItems, Raw;
    ValueNeeds(s);
    var r := ParseValue(s);
    if r.Ok? {
      var t := SkipSpace(r.rest);
      MoreItems(r.value, []);
      if t != "" && t[0] == ',' {
        ItemsNeed(t[1..]);
        var q := ParseItems(t[1..]);
        if q.Ok? { MoreItems(r.value, q.value); }
      }
    }
    hide ParseValue, SkipSpace;
  }

  lemma {:induction false} MembersNeed(s: string)
    ensures var r := ParseMembers(s); r.Ok? ==> |r.value| > 0 && |r.rest| + |RawMembers(r.value)| + 1 <= |s|
    decreases |s|, 2
  {
    hide RawMembers, RawMember;
    MemberNeeds(s);
    var r := ParseMember(s);
    if r.Ok? {
      var t := SkipSpace(r.rest);
      MoreMembers(r.value, []);
      if t != "" && t[0] == ',' {
        MembersNeed(t[1..]);
        var q := ParseMembers(t[1..]);
        if q.Ok? { MoreMembers(r.value, q.value); }
      }
    }
    hide ParseMember, SkipSpace;
  }

  lemma {:induction false} MemberNeeds(s: string)
    ensures var r := ParseMember(s); r.Ok? ==> |r.rest| + |RawMember(r.value)| <= |s|
    decreases |s|, 1
  {
    hide RawMember, Raw;
    var t := SkipSpace(s);
    if t != "" && t[0] == '"' {
      StringNeeds(t[1..]);
      var k := ParseStringBody(t[1..]);
      if k.Ok? {
        var u := SkipSpace(k.rest);
        if u != "" && u[0] == ':' {
          ValueNeeds(u[1..]);
          if ParseMember(s).Ok? { MemberSize(ParseMember(s).value); }
        }
      }
    }
    hide ParseValue, SkipSpace, ParseStringBody;
  }

  lemma TextNeeds(text: string, v: Json)
    requires ParseText(text) == Some(v)
    ensures |Raw(v)| <= |text|
  {
    ValueNeeds(text);
    hide ParseValue, Raw;
  }

  // A cut piece leaves the text shorter than that

  lemma NumberSizes(key: string, n: int)
    ensures |NumberText(key, n)| == |RawMember(Member(key, NumberOf(n)))|
  {
    hide Decimal;
    MemberSize(Member(key, NumberOf(n)));
  }

  lemma StringSizes(key: string, value: string)
    ensures |StringText(key, value)| == |RawMember(Member(key, String(value)))| == |key| + |value| + 5
  {
    MemberSize(Member(key, String(value)));
  }

  lemma CappedIsShorter(s: string)
    ensures |Capped(s)| <= |s| && (|s| > PIECE_MAX ==> |Capped(s)| < |s|)
  {
  }

  lemma OneMore(members: seq<Member>, m: Member)
    requires |members| > 0
    ensures |RawMembers(members + [m])| == |RawMembers(members)| + 1 + |RawMember(m)|
  {
    MembersConcat(members, [m]);
  }

  function NumberSize(key: string, n: int): nat { |NumberText(key, n)| + 1 }

  lemma WithNumber(members: seq<Member>, key: string, n: int)
    requires |members| > 0
    ensures |RawMembers(members + [Member(key, NumberOf(n))])| == |RawMembers(members)| + NumberSize(key, n)
  {
    NumberSizes(key, n);
    hide NumberText, RawMember;
    OneMore(members, Member(key, NumberOf(n)));
    hide RawMembers;
  }

  function NumbersSize(f: StackFrame): nat {
    NumberSize("index", f.index) + NumberSize("address", f.address) + NumberSize("pc", f.pc)
    + NumberSize("so_base", f.soBase) + NumberSize("sym_addr", f.symAddr)
    + NumberSize("sym_addr_offset", f.symAddrOffset)
  }

  lemma NumbersInTurn(f: StackFrame)
    ensures FrameNumbers(f) == [Member("cstr", String(FrameLabel(f)))] + [Member("index", NumberOf(f.index))]
      + [Member("address", NumberOf(f.address))] + [Member("pc", NumberOf(f.pc))] + [Member("so_base", NumberOf(f.soBase))]
      + [Member("sym_addr", NumberOf(f.symAddr))] + [Member("sym_addr_offset", NumberOf(f.symAddrOffset))]
  {
    hide FrameLabel, NumberOf;
  }

  lemma FrameNumbersSize(f: StackFrame)
    ensures |RawMembers(FrameNumbers(f))| == |FrameLabel(f)| + 9 + NumbersSize(f)
  {
    hide FrameNumbers, NumberSize, NumberOf, FrameLabel, RawMembers, RawMember;
    NumbersInTurn(f);
    var ms := [Member("cstr", String(FrameLabel(f)))];
    MoreMembers(ms[0], []);
    StringSizes("cstr", FrameLabel(f));
    WithNumber(ms, "index", f.index);
    ms := ms + [Member("index", NumberOf(f.index))];
    WithNumber(ms, "address", f.address);
    ms := ms + [Member("address", NumberOf(f.address))];
    WithNumber(ms, "pc", f.pc);
    ms := ms + [Member("pc", NumberOf(f.pc))];
    WithNumber(ms, "so_base", f.soBase);
    ms := ms + [Member("so_base", NumberOf(f.soBase))];
    WithNumber(ms, "sym_addr", f.symAddr);
    ms := ms + [Member("sym_addr", NumberOf(f.symAddr))];
    WithNumber(ms, "sym_addr_offset", f.symAddrOffset);
  }

  function OptionalSize(key: string, value: string): nat {
    if value != "" then |StringText(key, value)| + 1 else 0
  }

  lemma WithOptional(members: seq<Member>, key: string, value: string)
    requires |members| > 0
    ensures |RawMembers(members + (if value != "" then [Member(key, String(value))] else []))|
         == |RawMembers(members)| + OptionalSize(key, value)
  {
    StringSizes(key, value);
    OneMore(members, Member(key, String(value)));
    hide RawMembers, RawMember, StringText;
    assert members + [] == members;
  }

  lemma FrameSize(f: StackFrame)
    ensures |Raw(FrameValue(f))| == |FrameLabel(f)| + 11 + NumbersSize(f)
      + OptionalSize("so_path", f.soPath) + OptionalSize("sym_name", f.symName)
  {
    FrameNumbersSize(f);
    assert |FrameNumbers(f)| > 0;
    hide FrameLabel, NumbersSize, FrameNumbers, OptionalSize, RawMembers, Raw;
    WithOptional(FrameNumbers(f), "so_path", f.soPath);
    WithOptional(FramePathMembers(f), "sym_name", f.symName);
    RawSizes(FrameValue(f));
  }

  lemma OptionalCut(key: string, value: string)
    ensures |if value != "" then Capped("," + StringText(key, value)) else ""| <= OptionalSize(key, value)
  {
  }

  lemma NumberCut(key: string, n: int)
    ensures |Capped(NumberText(key, n) + ",")| <= NumberSize(key, n) && |Capped(NumberText(key, n))| < NumberSize(key, n)
  {
  }

  lemma LabelCut(f: StackFrame)
    requires FrameWidths(f)
    ensures |Capped(StringText("cstr", FrameLabel(f)) + ",")| <= |FrameLabel(f)| + 10
    ensures !Fits(f) ==> |Capped(StringText("cstr", FrameLabel(f)) + ",")| < |FrameLabel(f)| + 10
  {
    LabelLength(f);
    StringSizes("cstr", FrameLabel(f));
    hide FrameLabel, Fits, StringText;
  }

  lemma FrameTextSize(f: StackFrame)
    requires FrameWidths(f)
    ensures |FrameText(f)| <= |Raw(FrameValue(f))| && (!Fits(f) ==> |FrameText(f)| < |Raw(FrameValue(f))|)
  {
    FrameSize(f);
    LabelCut(f);
    hide FrameValue, Raw, Fits, FrameLabel, FrameWidths, Capped, NumberText, StringText, NumberSize, OptionalSize;
    NumberCut("index", f.index);
    NumberCut("address", f.address);
    NumberCut("pc", f.pc);
    NumberCut("so_base", f.soBase);
    NumberCut("sym_addr", f.symAddr);
    NumberCut("sym_addr_offset", f.symAddrOffset);
    OptionalCut("so_path", f.soPath);
    OptionalCut("sym_name", f.symName);
  }

  /** Texts no longer than their items, and one of them shorter. */
  lemma {:induction false} CommasSize(texts: seq<string>, items: seq<Json>)
    requires |texts| == |items| && forall i :: 0 <= i < |texts| ==> |texts[i]| <= |Raw(items[i])|
    ensures |Commas(texts)| <= |RawItems(items)|
    ensures (exists i :: 0 <= i < |texts| && |texts[i]| < |Raw(items[i])|) ==> |Commas(texts)| < |RawItems(items)|
  {
    hide Raw;
    if |texts| > 1 {
      CommasSize(texts[1..], items[1..]);
      forall i | 0 < i < |texts| && |texts[i]| < |Raw(items[i])| ensures |Commas(texts[1..])| < |RawItems(items[1..])| {
        assert texts[1..][i - 1] == texts[i] && items[1..][i - 1] == items[i];
      }
    }
  }

  lemma ListSize(head: seq<Member>, key: string, items: seq<Json>)
    requires |head| > 0
    ensures |Raw(Object(head + [Member(key, Array(items))]))| == |RawMembers(head)| + |key| + |RawItems(items)| + 8
  {
    var m := Member(key, Array(items));
    RawSizes(Object(head + [m]));
    RawSizes(Array(items));
    MemberSize(m);
    OneMore(head, m);
    hide *;
  }

  lemma QuotedLength(key: string)
    requires IsKey(key)
    ensures |Quoted(key)| == |key| + 2
  {
    RequotedClean(key);
    hide Escaped;
  }

  lemma KeyLengths()
    ensures |Quoted("backtrace")| == 11 && |Quoted("threads")| == 9 && |Quoted("stack")| == 7
  {
    hide *;
    ThreadKeys();
    SignalKeys();
    QuotedLength("backtrace");
    QuotedLength("threads");
    QuotedLength("stack");
  }

  lemma ThreadTextLength(t: ThreadInfo, linker: Linker)
    requires linker.pathMax > 0 && ThreadWidths(t)
    ensures |ThreadText(t, linker)| == |RawMembers(ThreadHead(t))| + |Commas(FrameTexts(FramesOf(t, linker)))| + 13
  {
    hide *;
    KeyLengths();
    ThreadHeadPrints(t);
    ThreadTextShape(t, linker, "");
  }

  lemma ThreadSize(t: ThreadInfo, linker: Linker)
    requires linker.pathMax > 0
    ensures |Raw(Object(ThreadMembers(t, linker)))|
         == |RawMembers(ThreadHead(t))| + |RawItems(FrameValues(FramesOf(t, linker)))| + 13
  {
    assert |ThreadHead(t)| > 0;
    hide ThreadHead, FramesOf, Raw, RawMembers, RawItems;
    ListSize(ThreadHead(t), "stack", FrameValues(FramesOf(t, linker)));
  }

  lemma FramesSize(frames: seq<StackFrame>)
    requires forall i :: 0 <= i < |frames| ==> FrameWidths(frames[i])
    ensures |Commas(FrameTexts(frames))| <= |RawItems(FrameValues(frames))|
    ensures (exists i :: 0 <= i < |frames| && !Fits(frames[i])) ==>
      |Commas(FrameTexts(frames))| < |RawItems(FrameValues(frames))|
  {
    hide *;
    var texts, items := FrameTexts(frames), FrameValues(frames);
    forall i | 0 <= i < |frames|
      ensures |texts[i]| <= |Raw(items[i])| && (!Fits(frames[i]) ==> |texts[i]| < |Raw(items[i])|)
    {
      FrameTextSize(frames[i]);
    }
    CommasSize(texts, items);
  }

  lemma ThreadTextSize(t: ThreadInfo, linker: Linker)
    requires linker.pathMax > 0 && ThreadWidths(t)
    ensures |ThreadText(t, linker)| <= |Raw(Object(ThreadMembers(t, linker)))|
    ensures !FramesFit(t, linker) ==> |ThreadText(t, linker)| < |Raw(Object(ThreadMembers(t, linker)))|
  {
    hide *;
    FramesWidths(t, linker);
    FramesSize(FramesOf(t, linker));
    ThreadTextLength(t, linker);
    ThreadSize(t, linker);
    assert FramesFit(t, linker) || exists i :: 0 <= i < |FramesOf(t, linker)| && !Fits(FramesOf(t, linker)[i]) by {
      if !FramesFit(t, linker) { CutFrame(t, linker); }
    }
  }

  lemma CutFrame(t: ThreadInfo, linker: Linker)
    requires linker.pathMax > 0 && !FramesFit(t, linker)
    ensures exists i :: 0 <= i < |FramesOf(t, linker)| && !Fits(FramesOf(t, linker)[i])
  {
  }

  lemma ReportSize(b: Backtrace)
    requires b.linker.pathMax > 0 && b.registers.Some?
    ensures |Raw(BacktraceValue(b))|
         == |RawMembers(MembersBeforeThreads(b))| + |RawItems(ThreadValues(b.threads, b.linker))| + 29
  {
    var items := ThreadValues(b.threads, b.linker);
    var m := Member("threads", Array(items));
    var inner := Object(BacktraceMembers(b));
    assert BacktraceMembers(b) == MembersBeforeThreads(b) + [m];
    assert |MembersBeforeThreads(b)| > 0;
    hide MembersBeforeThreads, ThreadValues, BacktraceMembers, Raw, RawMembers, RawMember;
    ListSize(MembersBeforeThreads(b), "threads", items);
    MoreMembers(Member("backtrace", inner), []);
    MemberSize(Member("backtrace", inner));
    RawSizes(BacktraceValue(b));
  }

  lemma ReportTextLength(b: Backtrace)
    requires FieldWidths(b) && b.registers.Some? && b.linker.pathMax > 0
    ensures |Emitted(b)| == |RawMembers(MembersBeforeThreads(b))| + |Commas(ThreadTexts(b.threads, b.linker))| + 29
  {
    hide *;
    KeyLengths();
    BeforeThreadsPrints(b);
    ReportTextShape(b);
  }

  lemma ThreadsSize(threads: seq<ThreadInfo>, linker: Linker)
    requires linker.pathMax > 0 && forall i :: 0 <= i < |threads| ==> ThreadWidths(threads[i])
    ensures (exists i :: 0 <= i < |threads| && !FramesFit(threads[i], linker)) ==>
      |Commas(ThreadTexts(threads, linker))| < |RawItems(ThreadValues(threads, linker))|
  {
    hide *;
    var texts, items := ThreadTexts(threads, linker), ThreadValues(threads, linker);
    forall i | 0 <= i < |threads|
      ensures |texts[i]| <= |Raw(items[i])| && (!FramesFit(threads[i], linker) ==> |texts[i]| < |Raw(items[i])|)
    {
      ThreadTextSize(threads[i], linker);
    }
    CommasSize(texts, items);
  }

  lemma ReportTextSize(b: Backtrace)
    requires FieldWidths(b) && b.registers.Some? && b.linker.pathMax > 0 && !ReportFits(b)
    ensures |Emitted(b)| < |Raw(BacktraceValue(b))|
  {
    hide ThreadWidths, FramesFit, RegisterWidths;
    assert forall i :: 0 <= i < |b.threads| ==> ThreadWidths(b.threads[i]);
    hide *;
    var j := FirstCutThread(b);
    ThreadsSize(b.threads, b.linker);
    ReportSize(b);
    ReportTextLength(b);
  }

  /**
   * For every backtrace: the report reads back as the value it was made from if and only if the strings that go
   * into it are clean and none of its pieces is cut. Without a context there is no piece that could be.
   */
  lemma ReadsBackIff(b: Backtrace)
    requires FieldWidths(b)
    ensures b.linker.pathMax > 0
    ensures ParseText(Emitted(b)) == Some(BacktraceValue(b))
       <==> CleanAsReported(b) && (b.registers.Some? ==> ReportFits(b))
  {
    PathMaxPositive(b);
    hide *;
    if b.registers.Some? && !ReportFits(b) {
      ReportTextSize(b);
      if ParseText(Emitted(b)) == Some(BacktraceValue(b)) { TextNeeds(Emitted(b), BacktraceValue(b)); }
    } else {
      ReadsBackIffClean(b);
    }
  }
}
