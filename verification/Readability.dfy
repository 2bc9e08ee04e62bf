/** When the emitted report is JSON: exactly when no frame's first piece is cut by the formatting buffer. */
module Readability {
  import opened Numerals
  import opened Json
  import opened Report
  import opened Emitter
  import opened ReportValue
  import opened RawText
  import opened CleanReport

  // Failures travel outwards: what surrounds a text that does not parse cannot parse either

  ghost predicate Unreadable(text: string) {
    forall rest :: ParseValue(text + rest) == Fail
  }

  /** A string that ends before something other than a separator ends the object it is in. */
  lemma BrokenString(key: string, p: string, x: char, tail: string)
    requires Clean(p) && !IsSpace(x) && x != ',' && x != '}'
    ensures ParseMembers(Quoted(key) + (":" + ("\"" + (p + ("\"" + ([x] + tail)))))) == Fail
  {
    var rest := [x] + tail;
    RequotedClean(p);
    var value := "\"" + (p + ("\"" + rest));
    StringBodyRoundTrip(p, rest);
    assert value[1..] == p + ("\"" + rest);
    ValueStart(value);
    KeyThenValue(key, value);
    SkipNothing(rest);
  }

  lemma ObjectFails(s: string)
    requires s != "" && s[0] == '"' && ParseMembers(s) == Fail
    ensures ParseValue("{" + s) == Fail
  {
    ValueStart("{" + s);
    assert ("{" + s)[1..] == s;
    SkipNothing(s);
  }

  lemma {:induction false} MembersFail(members: seq<Member>, tail: string)
    requires MembersWellFormed(members) && |members| > 0 && ParseMembers(tail) == Fail
    ensures ParseMembers(PrintMembers(members) + ("," + tail)) == Fail
  {
    hide PrintMember, ParseMember;
    var next := if |members| == 1 then tail else PrintMembers(members[1..]) + ("," + tail);
    if |members| > 1 { MembersFail(members[1..], tail); }
    ParsePrintMember(members[0], "," + next);
    MemberThenMembers(members[0], next);
    if |members| > 1 { Joined(PrintMember(members[0]), PrintMembers(members[1..]), "," + tail); }
  }

  lemma ArrayMemberFails(key: string, body: string, rest: string)
    requires body != "" && body[0] == '{' && ParseItems(body + rest) == Fail
    ensures ParseMembers(Quoted(key) + (":" + ("[" + (body + rest)))) == Fail
  {
    var value := "[" + (body + rest);
    KeyThenValue(key, value);
    ValueStart(value);
    assert value[1..] == body + rest;
    SkipNothing(body + rest);
  }

  lemma {:induction false} ItemsFail(texts: seq<string>, items: seq<Json>, j: nat, rest: string)
    requires j < |texts| == |items|
    requires forall i :: 0 <= i < j ==> Requoted(texts[i]) == Print(items[i]) && WellFormed(items[i])
    requires Unreadable(Requoted(texts[j]))
    ensures ParseItems(Requoted(Commas(texts)) + rest) == Fail
    decreases j
  {
    hide Requoted, Print, ParseValue, Unreadable, WellFormed;
    Punctuation();
    var first := Requoted(texts[0]);
    var after := if |texts| == 1 then rest else "," + (Requoted(Commas(texts[1..])) + rest);
    assert Requoted(Commas(texts)) + rest == first + after by {
      if |texts| > 1 {
        RequotedConcat(texts[0], ",");
        RequotedConcat(texts[0] + ",", Commas(texts[1..]));
        Joined(first, Requoted(Commas(texts[1..])), rest);
      }
    }
    if j == 0 {
      UseUnreadable(first, after);
    } else {
      ItemsFail(texts[1..], items[1..], j - 1, rest);
      ParsePrint(items[0], after);
      ItemThenItems(items[0], Requoted(Commas(texts[1..])) + rest);
    }
  }

  lemma UseUnreadable(text: string, rest: string)
    requires Unreadable(text)
    ensures ParseValue(text + rest) == Fail && ParseItems(text + rest) == Fail
  {
  }

  // A frame whose first piece is cut

  /** The pieces after the first one: they begin with the quoted key of the index. */
  lemma FrameBodyTail(f: StackFrame) returns (tail: string)
    ensures FrameBody(f) == Capped(StringText("cstr", FrameLabel(f)) + ",") + tail
    ensures |tail| >= 2 && tail[0] == '\'' && tail[1] == 'i'
  {
    hide StringText, FrameLabel, NumberText, Capped;
    var c := Capped(StringText("cstr", FrameLabel(f)) + ",");
    tail := Capped(NumberText("index", f.index) + ",");
    IndexPiece(f);
    tail := Longer(c, tail, Capped(NumberText("address", f.address) + ","));
    tail := Longer(c, tail, Capped(NumberText("pc", f.pc) + ","));
    tail := Longer(c, tail, Capped(NumberText("so_base", f.soBase) + ","));
    tail := Longer(c, tail, Capped(NumberText("sym_addr", f.symAddr) + ","));
    tail := Longer(c, tail, Capped(NumberText("sym_addr_offset", f.symAddrOffset)));
    tail := Longer(c, tail, if f.soPath != "" then Capped("," + StringText("so_path", f.soPath)) else "");
    tail := Longer(c, tail, if f.symName != "" then Capped("," + StringText("sym_name", f.symName)) else "");
  }

  lemma IndexPiece(f: StackFrame)
    ensures var i := Capped(NumberText("index", f.index) + ","); |i| >= 2 && i[0] == '\'' && i[1] == 'i'
  {
  }

  lemma Longer(c: string, tail: string, piece: string) returns (r: string)
    requires |tail| >= 2
    ensures c + r == c + tail + piece
    ensures |r| >= 2 && r[0] == tail[0] && r[1] == tail[1]
  {
    r := tail + piece;
    Assoc(c, tail, piece);
  }

  /** The first piece, cut inside the label or right after its closing quote. */
  lemma CutPiece(labelText: string)
    requires |labelText| + 10 > PIECE_MAX
    ensures |labelText| > PIECE_MAX - 9 ==>
      Capped(StringText("cstr", labelText) + ",") == KeyText("cstr") + ("'" + labelText[..PIECE_MAX - 8])
    ensures |labelText| == PIECE_MAX - 9 ==>
      Capped(StringText("cstr", labelText) + ",") == KeyText("cstr") + ("'" + (labelText + "'"))
  {
  }

  lemma CutFrameText(f: StackFrame) returns (p: string, x: char, tail: string)
    requires FrameWidths(f) && CleanFrame(f) && !Fits(f)
    ensures Clean(p) && !IsSpace(x) && x != ',' && x != '}'
    ensures Requoted(FrameBody(f)) == Quoted("cstr") + (":" + ("\"" + (p + ("\"" + ([x] + tail)))))
  {
    hide FrameBody, Fits, Capped, StringText;
    LabelShape(f);
    var labelText := FrameLabel(f);
    hide FrameLabel, FrameWidths, CleanFrame;
    var t := FrameBodyTail(f);
    CutPiece(labelText);
    FrameKeys();
    KeyPiece("cstr");
    hide KeyText, IsKey;
    if |labelText| == PIECE_MAX - 9 {
      p, x, tail := labelText, '"', Requoted(t[1..]);
      CutAfterQuote(labelText, t);
    } else {
      p, x, tail := labelText[..PIECE_MAX - 8], 'i', Requoted(t[2..]);
      assert Requoted(t)[1] == 'i';
      CutInLabel(p, t);
    }
  }

  lemma QuoteMarks()
    ensures Requoted("'") == "\""
  {
  }

  lemma CutAfterQuote(p: string, t: string)
    requires Clean(p) && t != "" && t[0] == '\''
    requires Requoted(KeyText("cstr")) == Quoted("cstr") + ":"
    ensures Requoted(KeyText("cstr") + ("'" + (p + "'")) + t)
         == Quoted("cstr") + (":" + ("\"" + (p + ("\"" + ("\"" + Requoted(t[1..]))))))
  {
    RequotedClean(p);
    QuoteMarks();
    hide KeyText, Quoted, Clean, Requoted;
    RequotedConcat(KeyText("cstr") + ("'" + (p + "'")), t);
    RequotedConcat(KeyText("cstr"), "'" + (p + "'"));
    RequotedConcat("'", p + "'");
    RequotedConcat(p, "'");
    RequotedConcat("'", t[1..]);
    assert t == "'" + t[1..];
    Regroup(Quoted("cstr"), p + "\"", "\"" + Requoted(t[1..]));
    Assoc(p, "\"", "\"" + Requoted(t[1..]));
  }

  lemma Regroup(key: string, value: string, rest: string)
    ensures key + ":" + ("\"" + value) + rest == key + (":" + ("\"" + (value + rest)))
  {
  }

  lemma QuoteStart(t: string)
    requires |t| >= 2 && (t[0] == '\'' || t[0] == '"')
    ensures |Requoted(t)| == |t| && Requoted(t) == "\"" + ([Requoted(t)[1]] + Requoted(t[2..]))
  {
    assert t == t[..2] + t[2..];
    RequotedConcat(t[..2], t[2..]);
    assert Requoted(t[..2]) == "\"" + [Requoted(t)[1]];
  }

  /** A quotation mark after a clean beginning `p` of the label ends the string there, whatever it was meant for. */
  lemma CutInLabel(p: string, t: string)
    requires Clean(p) && |t| >= 2 && (t[0] == '\'' || t[0] == '"')
    requires Requoted(KeyText("cstr")) == Quoted("cstr") + ":"
    ensures Requoted(KeyText("cstr") + ("'" + p) + t)
         == Quoted("cstr") + (":" + ("\"" + (p + ("\"" + ([Requoted(t)[1]] + Requoted(t[2..]))))))
  {
    hide *;
    RequotedClean(p);
    QuoteMarks();
    QuoteStart(t);
    RequotedConcat(KeyText("cstr") + ("'" + p), t);
    RequotedConcat(KeyText("cstr"), "'" + p);
    RequotedConcat("'", p);
    Regroup(Quoted("cstr"), p, Requoted(t));
  }

  lemma BrokenBodyUnreadable(f: StackFrame, p: string, x: char, tail: string)
    requires Clean(p) && !IsSpace(x) && x != ',' && x != '}'
    requires Requoted(FrameBody(f)) == Quoted("cstr") + (":" + ("\"" + (p + ("\"" + ([x] + tail)))))
    ensures Unreadable(Requoted(FrameText(f)))
  {
    hide FrameBody;
    forall rest ensures ParseValue(Requoted(FrameText(f)) + rest) == Fail {
      var s := Quoted("cstr") + (":" + ("\"" + (p + ("\"" + ([x] + (tail + "}" + rest))))));
      BrokenString("cstr", p, x, tail + "}" + rest);
      ObjectFails(s);
      FrameTextShape(f, p, x, tail, rest);
    }
  }

  lemma CutFrameUnreadable(f: StackFrame)
    requires FrameWidths(f) && CleanFrame(f) && !Fits(f)
    ensures Unreadable(Requoted(FrameText(f)))
  {
    var p, x, tail := CutFrameText(f);
    hide FrameBody, Fits, FrameWidths, CleanFrame;
    BrokenBodyUnreadable(f, p, x, tail);
  }

  /** A quotation mark after a clean beginning of the label, followed by nothing that separates JSON members. */
  predicate BreakingQuote(f: StackFrame, k: nat) {
    && k + 1 < |FrameLabel(f)| && k + 10 <= PIECE_MAX
    && Clean(FrameLabel(f)[..k]) && (FrameLabel(f)[k] == '\'' || FrameLabel(f)[k] == '"')
    && !IsSpace(FrameLabel(f)[k + 1]) && FrameLabel(f)[k + 1] != ',' && FrameLabel(f)[k + 1] != '}'
  }

  /** A quotation mark in the path or the symbol (a demangled `'lambda'`, say) makes the frame unreadable. */
  lemma QuoteInLabelUnreadable(f: StackFrame, k: nat)
    requires BreakingQuote(f, k)
    ensures Unreadable(Requoted(FrameText(f)))
  {
    hide FrameLabel, FrameBody;
    var text := FrameLabel(f);
    var p := text[..k];
    var tail := FrameBodyTail(f);
    var rest := FirstPieceSplit(text, k);
    FrameKeys();
    KeyPiece("cstr");
    hide KeyText, IsKey, Unreadable, StringText, Capped;
    var t := rest + tail;
    Assoc(KeyText("cstr") + ("'" + p), rest, tail);
    CutInLabel(p, t);
    BrokenBodyUnreadable(f, p, Requoted(t)[1], Requoted(t[2..]));
  }

  lemma CappedSplit(head: string, tail: string) returns (rest: string)
    requires |head| + 2 <= PIECE_MAX && |tail| >= 2
    ensures Capped(head + tail) == head + rest
    ensures |rest| >= 2 && rest[0] == tail[0] && rest[1] == tail[1]
  {
    if |head + tail| <= PIECE_MAX {
      rest := tail;
    } else {
      rest := tail[..PIECE_MAX - |head|];
      assert (head + tail)[..PIECE_MAX] == head + rest;
    }
  }

  lemma QuotedSplit(key: string, text: string, k: nat)
    requires k <= |text|
    ensures StringText(key, text) + "," == KeyText(key) + ("'" + text[..k]) + (text[k..] + "',")
  {
    hide KeyText;
    assert text == text[..k] + text[k..];
  }

  lemma FirstPieceSplit(text: string, k: nat) returns (rest: string)
    requires k + 1 < |text| && k + 10 <= PIECE_MAX
    ensures Capped(StringText("cstr", text) + ",") == KeyText("cstr") + ("'" + text[..k]) + rest
    ensures |rest| >= 2 && rest[0] == text[k] && rest[1] == text[k + 1]
  {
    QuotedSplit("cstr", text, k);
    hide Capped;
    rest := CappedSplit(KeyText("cstr") + ("'" + text[..k]), text[k..] + "',");
  }

  lemma FrameTextShape(f: StackFrame, p: string, x: char, tail: string, rest: string)
    requires Requoted(FrameBody(f)) == Quoted("cstr") + (":" + ("\"" + (p + ("\"" + ([x] + tail)))))
    ensures Requoted(FrameText(f)) + rest
         == "{" + (Quoted("cstr") + (":" + ("\"" + (p + ("\"" + ([x] + (tail + "}" + rest)))))))
  {
    hide FrameBody, Quoted, Requoted;
    Punctuation();
    RequotedConcat("{", FrameBody(f));
    RequotedConcat("{" + FrameBody(f), "}");
    assert FrameText(f) == "{" + FrameBody(f) + "}";
    var k, d := Quoted("cstr"), ([x] + tail) + ("}" + rest);
    Nested(k, p, [x] + tail, "}" + rest);
    Assoc([x], tail, "}" + rest);
    Assoc("{" + Requoted(FrameBody(f)), "}", rest);
    Assoc("{", Requoted(FrameBody(f)), "}" + rest);
    assert tail + ("}" + rest) == tail + "}" + rest;
  }

  lemma Nested(k: string, p: string, t: string, rest: string)
    ensures (k + (":" + ("\"" + (p + ("\"" + t))))) + rest == k + (":" + ("\"" + (p + ("\"" + (t + rest)))))
  {
    Assoc(k, ":" + ("\"" + (p + ("\"" + t))), rest);
    Assoc(":", "\"" + (p + ("\"" + t)), rest);
    Assoc("\"", p + ("\"" + t), rest);
    Assoc(p, "\"" + t, rest);
    Assoc("\"", t, rest);
  }

  // Quotes that separate

  /** A path that ends the string it is in, and goes on with a member of its own. */
  function TwoMembers(p: string, key: string, v: string): string { p + ("','" + (key + ("':'" + v))) }

  /** The label of a frame without a symbol, before its path. */
  function LabelStart(f: StackFrame): string {
    "#" + ZeroPadded(Decimal(f.index), 2) + " pc " + ZeroPadded(Numeral(LowHalf(f.pc), 16), 16) + " "
  }

  /** The fields such a frame is read with: the path cut short, and twice a member that no frame has. */
  function WrittenMembers(f: StackFrame, p: string, key: string, v: string): seq<Member> {
    [Member("cstr", String(LabelStart(f) + p)), Member(key, String(v))] + NumberMembers(f)
    + [Member("so_path", String(p))] + [Member(key, String(v))]
  }

  lemma TwoMembersText(name: string, start: string, p: string, key: string, v: string)
    ensures StringText(name, start + TwoMembers(p, key, v)) == StringText(name, start + p) + ("," + StringText(key, v))
  {
  }

  lemma LabelStartShape(f: StackFrame)
    requires FrameWidths(f)
    ensures Clean(LabelStart(f)) && |LabelStart(f)| == 24
    ensures f.symName == "" && Fits(f) ==> FrameLabel(f) == LabelStart(f) + f.soPath
  {
    var bare := f.(soPath := "", symName := "");
    assert CleanFrame(bare);
    LabelHeadShape(bare);
    LabelHeadLength(f);
    LabelUnfold(f);
    hide FrameLabel, ZeroPadded, Decimal, Numeral, LowHalf;
    assert LabelHead(bare) == LabelStart(f) + "" && LabelHead(f) == LabelStart(f) + f.soPath;
    hide LabelStart, Clean;
    assert LabelHead(bare) == LabelStart(f);
  }

  lemma FirstTwoPrint(f: StackFrame, p: string, key: string, v: string)
    requires FrameWidths(f) && Fits(f) && f.symName == "" && f.soPath == TwoMembers(p, key, v)
    requires Clean(p) && Clean(v) && IsKey(key)
    ensures Pending(Capped(StringText("cstr", FrameLabel(f)) + ","), [Member("cstr", String(LabelStart(f) + p)), Member(key, String(v))])
  {
    LabelStartShape(f);
    FrameKeys();
    var start := LabelStart(f) + p;
    assert Clean(start);
    hide FrameLabel, LabelStart, Clean;
    TwoMembersText("cstr", LabelStart(f), p, key, v);
    StringPiece("cstr", start);
    StringPiece(key, v);
    hide StringText, TwoMembers, IsKey, Pending, Prints;
    FirstPiece(StringText("cstr", start), Member("cstr", String(start)));
    NextPiece(StringText("cstr", start) + ",", [Member("cstr", String(start))], StringText(key, v), Member(key, String(v)));
    Assoc(StringText("cstr", start), ",", StringText(key, v));
    Assoc(StringText("cstr", start) + ",", StringText(key, v), ",");
    assert [Member("cstr", String(start))] + [Member(key, String(v))] == [Member("cstr", String(start)), Member(key, String(v))];
  }

  lemma PathTwoPrint(text: string, members: seq<Member>, p: string, key: string, v: string)
    requires Prints(text, members) && |TwoMembers(p, key, v)| < 2020
    requires Clean(p) && Clean(v) && IsKey(key)
    ensures Prints(text + Capped("," + StringText("so_path", TwoMembers(p, key, v))),
      members + [Member("so_path", String(p))] + [Member(key, String(v))])
  {
    FrameKeys();
    TwoMembersText("so_path", "", p, key, v);
    assert "" + p == p && "" + TwoMembers(p, key, v) == TwoMembers(p, key, v);
    StringPiece("so_path", p);
    StringPiece(key, v);
    hide StringText, TwoMembers, IsKey, Prints, Clean;
    LeadingPiece(text, members, StringText("so_path", p), Member("so_path", String(p)));
    LeadingPiece(text + ("," + StringText("so_path", p)), members + [Member("so_path", String(p))], StringText(key, v), Member(key, String(v)));
    Assoc(",", StringText("so_path", p), "," + StringText(key, v));
    Assoc(text, "," + StringText("so_path", p), "," + StringText(key, v));
  }

  lemma WrittenClean(f: StackFrame, p: string, key: string, v: string)
    requires FrameWidths(f) && Clean(p) && Clean(v) && IsKey(key)
    ensures AllClean(Object(WrittenMembers(f, p, key, v)))
  {
    LabelStartShape(f);
    FrameKeys();
    assert Clean(LabelStart(f) + p);
    hide LabelStart, Clean, MembersClean;
    StringClean("cstr", LabelStart(f) + p);
    StringClean(key, v);
    StringClean("so_path", p);
    NumbersClean(f);
    hide IsKey, NumberMembers;
    var a, b, c := Member("cstr", String(LabelStart(f) + p)), Member(key, String(v)), Member("so_path", String(p));
    ConcatClean([a], [b]);
    assert [a] + [b] == [a, b];
    ConcatClean([a, b], NumberMembers(f));
    ConcatClean([a, b] + NumberMembers(f), [c]);
    ConcatClean([a, b] + NumberMembers(f) + [c], [b]);
    ObjectClean(WrittenMembers(f, p, key, v));
  }

  /**
   * Quotes that do separate members leave the frame readable, but as another one: its path ends at the first
   * quote, and what follows is read as fields.
   */
  lemma QuotesWriteMembers(f: StackFrame, p: string, key: string, v: string)
    requires FrameWidths(f) && Fits(f) && f.symName == "" && f.soPath == TwoMembers(p, key, v)
    requires Clean(p) && Clean(v) && IsKey(key)
    ensures Requoted(FrameText(f)) == Print(Object(WrittenMembers(f, p, key, v)))
  {
    WrittenClean(f, p, key, v);
    RawIsPrint(Object(WrittenMembers(f, p, key, v)));
    hide Print, Raw;
    hide FrameLabel, StringText, Capped, NumberText, IsKey, Clean, Pending, Prints, NumberMembers;
    FirstTwoPrint(f, p, key, v);
    var first := Capped(StringText("cstr", FrameLabel(f)) + ",");
    var head := [Member("cstr", String(LabelStart(f) + p)), Member(key, String(v))];
    NumbersPrint(first, head, f);
    hide LabelStart;
    PathTwoPrint(WithNumbers(first, f), head + NumberMembers(f), p, key, v);
    FrameBodyUnfold(f);
    hide FrameBody, WithNumbers;
    assert f.soPath != "" by { assert |TwoMembers(p, key, v)| >= 3; }
    assert FrameBody(f) == WithNumbers(first, f) + Capped("," + StringText("so_path", f.soPath));
    PrintsObject(FrameBody(f), WrittenMembers(f, p, key, v));
  }

  // The whole report

  /** A frame that prints as the JSON object of its fields. */
  predicate CleanFit(f: StackFrame) { FrameWidths(f) && CleanFrame(f) && Fits(f) }

  lemma FramePrinted(f: StackFrame)
    requires CleanFit(f)
    ensures Requoted(FrameText(f)) == Print(FrameValue(f))
  {
    hide *;
    assert FrameWidths(f) && CleanFrame(f) && Fits(f) by { CleanFitMeans(f); }
    FramePrints(f);
    FrameCleanIff(f);
    RawIsPrint(FrameValue(f));
  }

  lemma CleanFitMeans(f: StackFrame)
    requires CleanFit(f)
    ensures FrameWidths(f) && CleanFrame(f) && Fits(f)
  {
  }

  lemma ThreadPrinted(t: ThreadInfo, linker: Linker)
    requires linker.pathMax > 0 && ThreadWidths(t) && CleanThread(t, linker) && FramesFit(t, linker)
    ensures Requoted(ThreadText(t, linker)) == Print(Object(ThreadMembers(t, linker)))
  {
    hide *;
    ThreadPrints(t, linker);
    ThreadCleanIff(t, linker);
    RawIsPrint(Object(ThreadMembers(t, linker)));
  }

  /** The first frame that does not print makes its thread unreadable, if it is so itself. */
  lemma FrameBreaksThread(t: ThreadInfo, linker: Linker, j: nat)
    requires linker.pathMax > 0 && ThreadWidths(t) && Clean(t.name) && Clean(t.state)
    requires j < |FramesOf(t, linker)| && forall i :: 0 <= i < j ==> CleanFit(FramesOf(t, linker)[i])
    requires Unreadable(Requoted(FrameText(FramesOf(t, linker)[j])))
    ensures Unreadable(Requoted(ThreadText(t, linker)))
  {
    var frames := FramesOf(t, linker);
    hide FrameText, FrameWidths, CleanFrame, Fits, ThreadHeadText, ThreadHead;
    var texts, items := FrameTexts(frames), FrameValues(frames);
    forall i | 0 <= i < j ensures Requoted(texts[i]) == Print(items[i]) && WellFormed(items[i]) {
      FramePrinted(frames[i]);
      FrameWellFormed(frames[i]);
    }
    forall rest ensures ParseValue(Requoted(ThreadText(t, linker)) + rest) == Fail {
      ItemsFail(texts, items, j, "]" + ("}" + rest));
      CommasStart(frames);
      ThreadFails(t, linker, rest);
    }
  }

  /** A thread with a cut frame cannot be read, nor anything around it. */
  lemma CutThreadUnreadable(t: ThreadInfo, linker: Linker)
    requires linker.pathMax > 0 && ThreadWidths(t) && CleanThread(t, linker) && !FramesFit(t, linker)
    ensures Unreadable(Requoted(ThreadText(t, linker)))
  {
    var frames := FramesOf(t, linker);
    FramesWidths(t, linker);
    var j := FirstCut(frames);
    hide FrameText, FrameWidths, CleanFrame, Fits;
    CutFrameUnreadable(frames[j]);
    FrameBreaksThread(t, linker, j);
  }

  lemma FirstCut(frames: seq<StackFrame>) returns (j: nat)
    requires exists i :: 0 <= i < |frames| && !Fits(frames[i])
    ensures j < |frames| && !Fits(frames[j]) && forall i :: 0 <= i < j ==> Fits(frames[i])
  {
    hide Fits;
    j := 0;
    while Fits(frames[j])
      invariant j < |frames| && forall i :: 0 <= i < j ==> Fits(frames[i])
      invariant exists i :: j <= i < |frames| && !Fits(frames[i])
      decreases |frames| - j
    {
      j := j + 1;
    }
  }

  lemma CommasStart(frames: seq<StackFrame>)
    requires |frames| > 0
    ensures Requoted(Commas(FrameTexts(frames))) != "" && Requoted(Commas(FrameTexts(frames)))[0] == '{'
  {
    hide FrameBody;
    assert FrameTexts(frames)[0][0] == '{';
    assert Commas(FrameTexts(frames))[0] == FrameTexts(frames)[0][0];
  }

  lemma ThreadFails(t: ThreadInfo, linker: Linker, rest: string)
    requires linker.pathMax > 0 && ThreadWidths(t) && Clean(t.name) && Clean(t.state)
    requires var body := Requoted(Commas(FrameTexts(FramesOf(t, linker))));
      body != "" && body[0] == '{' && ParseItems(body + ("]" + ("}" + rest))) == Fail
    ensures ParseValue(Requoted(ThreadText(t, linker)) + rest) == Fail
  {
    var commas := Commas(FrameTexts(FramesOf(t, linker)));
    var body := Requoted(commas);
    var tail := Quoted("stack") + (":" + ("[" + (body + ("]" + ("}" + rest)))));
    ArrayMemberFails("stack", body, "]" + ("}" + rest));
    ThreadHeadPrints(t);
    ThreadHeadClean(t);
    RawMembersArePrint(ThreadHead(t));
    ThreadHeadWellFormed(t);
    MembersFail(ThreadHead(t), tail);
    var s := PrintMembers(ThreadHead(t)) + ("," + tail);
    assert s[0] == '"' by { MembersStart(ThreadHead(t)); }
    ObjectFails(s);
    ThreadBodyUnfold(t, linker);
    ThreadTextShape(t, linker, rest);
  }

  lemma ThreadHeadWellFormed(t: ThreadInfo)
    ensures MembersWellFormed(ThreadHead(t))
  {
    DecimalIsNumber(t.tid);
    DecimalIsNumber(t.priority);
    hide IsNumber;
  }

  lemma ArrayTextShape(key: string, commas: string)
    requires IsKey(key)
    ensures Requoted(ArrayText(Some(key), commas)) == Quoted(key) + (":" + ("[" + (Requoted(commas) + "]")))
  {
    KeyPiece(key);
    hide Requoted, Quoted, KeyText;
    Punctuation();
    RequotedConcat("[", commas);
    RequotedConcat("[" + commas, "]");
    RequotedConcat(KeyText(key), "[" + commas + "]");
    Assoc("[", Requoted(commas), "]");
    Assoc(Quoted(key), ":", "[" + (Requoted(commas) + "]"));
  }

  lemma ThreadTextShape(t: ThreadInfo, linker: Linker, rest: string)
    requires linker.pathMax > 0 && Pending(ThreadHeadText(t), ThreadHead(t))
    ensures Requoted(ThreadText(t, linker)) + rest == "{" + (RawMembers(ThreadHead(t)) + ("," +
      (Quoted("stack") + (":" + ("[" + (Requoted(Commas(FrameTexts(FramesOf(t, linker)))) + ("]" + ("}" + rest))))))))
  {
    ThreadKeys();
    ThreadBodyUnfold(t, linker);
    hide ThreadHeadText, ThreadHead, FrameTexts, IsKey;
    var commas := Commas(FrameTexts(FramesOf(t, linker)));
    ArrayTextShape("stack", commas);
    ObjectShape(ThreadHeadText(t), ThreadHead(t), "stack", commas, "}" + rest);
    assert ThreadText(t, linker) == "{" + ThreadBody(t, linker) + "}";
    hide Requoted, Quoted, ArrayText, ThreadBody;
    Punctuation();
    RequotedConcat("{", ThreadBody(t, linker));
    RequotedConcat("{" + ThreadBody(t, linker), "}");
    Assoc("{" + Requoted(ThreadBody(t, linker)), "}", rest);
    Assoc("{", Requoted(ThreadBody(t, linker)), "}" + rest);
  }

  lemma ObjectShape(head: string, members: seq<Member>, key: string, commas: string, rest: string)
    requires Pending(head, members) && IsKey(key)
    ensures Requoted(head + ArrayText(Some(key), commas)) + rest
         == RawMembers(members) + ("," + (Quoted(key) + (":" + ("[" + (Requoted(commas) + ("]" + rest))))))
  {
    ArrayTextShape(key, commas);
    hide Requoted, Quoted, ArrayText, RawMembers, IsKey;
    RequotedConcat(head, ArrayText(Some(key), commas));
    var q, b := Quoted(key), Requoted(commas);
    Assoc(RawMembers(members) + ",", q + (":" + ("[" + (b + "]"))), rest);
    Assoc(RawMembers(members), ",", (q + (":" + ("[" + (b + "]")))) + rest);
    Assoc(q, ":" + ("[" + (b + "]")), rest);
    Assoc(":", "[" + (b + "]"), rest);
    Assoc("[", b + "]", rest);
    Assoc(b, "]", rest);
  }

  /** The first thread that does not print makes the report unreadable, if it is so itself. */
  lemma ThreadBreaksReport(b: Backtrace, j: nat)
    requires FieldWidths(b) && CleanContext(b) && b.registers.Some? && j < |b.threads|
    requires forall i :: 0 <= i < j ==> CleanThread(b.threads[i], b.linker) && FramesFit(b.threads[i], b.linker)
    requires Unreadable(Requoted(ThreadText(b.threads[j], b.linker)))
    ensures ParseText(Emitted(b)) == None
  {
    hide ThreadText, ThreadWidths, CleanThread, FramesFit, RegisterWidths, CleanContext, Unreadable;
    var texts, items := ThreadTexts(b.threads, b.linker), ThreadValues(b.threads, b.linker);
    forall i | 0 <= i < j ensures Requoted(texts[i]) == Print(items[i]) && WellFormed(items[i]) {
      ThreadPrinted(b.threads[i], b.linker);
      ThreadWellFormed(b.threads[i], b.linker);
    }
    ItemsFail(texts, items, j, "]}}");
    ThreadsStart(b);
    BeforeThreadsPrints(b);
    ReportFails(b);
  }

  lemma CutReportUnreadable(b: Backtrace)
    requires FieldWidths(b) && CleanBacktrace(b) && b.registers.Some? && !ReportFits(b)
    ensures ParseText(Emitted(b)) == None
  {
    hide ThreadText, ThreadWidths, CleanThread, FramesFit, RegisterWidths, CleanContext, Unreadable;
    var j := FirstCutThread(b);
    CutThreadUnreadable(b.threads[j], b.linker);
    ThreadBreaksReport(b, j);
  }

  /**
   * One breaking quote, in the first frame of the report that does not print, and nothing of the report can be
   * read, whatever the frames and threads after it are.
   */
  lemma QuoteReportUnreadable(b: Backtrace, j: nat, i: nat, k: nat)
    requires FieldWidths(b) && CleanContext(b) && b.registers.Some? && j < |b.threads|
    requires forall m :: 0 <= m < j ==> CleanThread(b.threads[m], b.linker) && FramesFit(b.threads[m], b.linker)
    requires Clean(b.threads[j].name) && Clean(b.threads[j].state) && i < |FramesOf(b.threads[j], b.linker)|
    requires forall m :: 0 <= m < i ==> CleanFit(FramesOf(b.threads[j], b.linker)[m])
    requires BreakingQuote(FramesOf(b.threads[j], b.linker)[i], k)
    ensures ParseText(Emitted(b)) == None
  {
    hide FrameText, ThreadText, ThreadWidths, CleanThread, FramesFit, RegisterWidths, CleanContext, Unreadable, CleanFit,
      BreakingQuote, FramesOf, Clean;
    QuoteInLabelUnreadable(FramesOf(b.threads[j], b.linker)[i], k);
    FrameBreaksThread(b.threads[j], b.linker, i);
    ThreadBreaksReport(b, j);
  }

  lemma FirstCutThread(b: Backtrace) returns (j: nat)
    requires b.linker.pathMax > 0 && !ReportFits(b)
    ensures j < |b.threads| && !FramesFit(b.threads[j], b.linker)
    ensures forall i :: 0 <= i < j ==> FramesFit(b.threads[i], b.linker)
  {
    hide FramesFit;
    j := 0;
    while FramesFit(b.threads[j], b.linker)
      invariant j < |b.threads| && forall i :: 0 <= i < j ==> FramesFit(b.threads[i], b.linker)
      invariant exists i :: j <= i < |b.threads| && !FramesFit(b.threads[i], b.linker)
      decreases |b.threads| - j
    {
      j := j + 1;
    }
  }

  lemma ThreadsStart(b: Backtrace)
    requires b.linker.pathMax > 0 && |b.threads| > 0
    ensures var commas := Requoted(Commas(ThreadTexts(b.threads, b.linker))); commas != "" && commas[0] == '{'
  {
    hide ThreadBody;
    assert ThreadTexts(b.threads, b.linker)[0][0] == '{';
    assert Commas(ThreadTexts(b.threads, b.linker))[0] == ThreadTexts(b.threads, b.linker)[0][0];
  }

  lemma MembersBeforeWellFormed(b: Backtrace)
    requires b.registers.Some?
    ensures MembersWellFormed(MembersBeforeThreads(b))
  {
    ContextWellFormed(b);
    RegistersWellFormed(b.registers.value);
    hide ContextMembers, RegisterMembers, ExceptionMembers;
  }

  lemma MembersBeforeClean(b: Backtrace)
    requires b.registers.Some? && CleanContext(b)
    ensures MembersClean(MembersBeforeThreads(b))
  {
    ProcessCleanIff(b);
    RegistersCleanIff(b.registers.value);
    ExceptionCleanIff(b.signal);
    KeysClean();
    hide ContextMembers, RegisterMembers, ExceptionMembers, MembersClean, AllClean, Clean;
    var r := Member("registers", Object(RegisterMembers(b.registers.value)));
    var e := Member("exception", Object(ExceptionMembers(b.signal)));
    OneClean(r);
    OneClean(e);
    ConcatClean([r], [e]);
    ConcatClean(ContextMembers(b), [r, e]);
    assert [r] + [e] == [r, e];
  }

  lemma ReportFails(b: Backtrace)
    requires b.linker.pathMax > 0 && b.registers.Some? && CleanContext(b)
    requires Pending(BeforeThreads(b), MembersBeforeThreads(b))
    requires var body := Requoted(Commas(ThreadTexts(b.threads, b.linker)));
      body != "" && body[0] == '{' && ParseItems(body + "]}}") == Fail
    ensures ParseText(Emitted(b)) == None
  {
    hide BeforeThreads, MembersBeforeThreads, ThreadTexts;
    var commas := Commas(ThreadTexts(b.threads, b.linker));
    var body := Requoted(commas);
    var tail := Quoted("threads") + (":" + ("[" + (body + "]}}")));
    ArrayMemberFails("threads", body, "]}}");
    MembersBeforeWellFormed(b);
    MembersBeforeClean(b);
    RawMembersArePrint(MembersBeforeThreads(b));
    MembersFail(MembersBeforeThreads(b), tail);
    var inner := PrintMembers(MembersBeforeThreads(b)) + ("," + tail);
    MembersStart(MembersBeforeThreads(b));
    ObjectFails(inner);
    KeyThenValue("backtrace", "{" + inner);
    var outer := Quoted("backtrace") + (":" + ("{" + inner));
    ObjectFails(outer);
    ReportTextShape(b);
  }

  lemma ReportTextShape(b: Backtrace)
    requires b.linker.pathMax > 0 && b.registers.Some?
    requires Pending(BeforeThreads(b), MembersBeforeThreads(b))
    ensures Emitted(b) == "{" + (Quoted("backtrace") + (":" + ("{" + (RawMembers(MembersBeforeThreads(b)) + ("," +
      (Quoted("threads") + (":" + ("[" + (Requoted(Commas(ThreadTexts(b.threads, b.linker))) + "]}}")))))))))
  {
    hide BeforeThreads, MembersBeforeThreads, ThreadTexts, IsKey, Requoted, Quoted, Listed, BacktraceArguments, ArrayText,
      RawMembers, Emitted, Pending;
    ThreadKeys();
    ArgumentsSplit(b);
    EmittedShape(b);
    var commas := Commas(ThreadTexts(b.threads, b.linker));
    ObjectShape(BeforeThreads(b), MembersBeforeThreads(b), "threads", commas, "}}");
    assert "]" + "}}" == "]}}";
  }

  lemma EmittedShape(b: Backtrace)
    requires b.linker.pathMax > 0
    ensures Emitted(b) == "{" + (Quoted("backtrace") + (":" + ("{" + (Requoted(Listed(BacktraceArguments(b))) + "}}"))))
  {
    hide IsKey, Requoted, Quoted, Listed, BacktraceArguments;
    SignalKeys();
    KeyPiece("backtrace");
    Punctuation();
    var arguments := Listed(BacktraceArguments(b));
    var braced := "{" + arguments + "}";
    var key := KeyText("backtrace");
    assert BacktraceText(b) == "{" + (key + braced) + "}";
    hide KeyText, BacktraceText;
    RequotedConcat("{" + (key + braced), "}");
    RequotedConcat("{", key + braced);
    RequotedConcat(key, braced);
    RequotedConcat("{" + arguments, "}");
    RequotedConcat("{", arguments);
    EndShape(Quoted("backtrace"), Requoted(arguments));
  }

  lemma EndShape(key: string, inner: string)
    ensures "{" + (key + ":" + ("{" + inner + "}")) + "}" == "{" + (key + (":" + ("{" + (inner + "}}"))))
  {
  }

  /** The report is JSON exactly when it fits, and then it is the value of the backtrace. */
  lemma ReadableIffFits(b: Backtrace)
    requires FieldWidths(b) && CleanBacktrace(b) && b.registers.Some?
    ensures ParseText(Emitted(b)).Some? <==> ReportFits(b)
    ensures ReportFits(b) ==> ParseText(Emitted(b)) == Some(BacktraceValue(b))
  {
    if ReportFits(b) {
      ReadsBackIffClean(b);
    } else {
      CutReportUnreadable(b);
    }
  }

  /**
   * What unclean strings cost, for every backtrace whose pieces fit: the report reads back as the value it was
   * made from if and only if all strings that go into it are clean.
   */
  lemma ReadsBackIffClean(b: Backtrace)
    requires FieldWidths(b) && (b.registers.Some? ==> ReportFits(b))
    ensures ParseText(Emitted(b)) == Some(BacktraceValue(b)) <==> CleanAsReported(b)
  {
    PathMaxPositive(b);
    hide *;
    BacktracePrints(b);
    BacktraceWellFormed(b);
    RawReadsBackIff(BacktraceValue(b));
    ValueCleanIff(b);
  }

  lemma PathMaxPositive(b: Backtrace)
    requires FieldWidths(b)
    ensures b.linker.pathMax > 0
  {
  }

  // How long paths may be

  /** The longest path buffer with which no label is ever cut. */
  const PATH_FITS: nat := 1745

  lemma ShortPathFits(index: nat, address: Word, linker: Linker)
    requires 0 < linker.pathMax <= PATH_FITS
    ensures Fits(StackFrameOf(index, address, linker))
  {
    var f := StackFrameOf(index, address, linker);
    assert |f.soPath| < linker.pathMax && |f.symName| < SYMBOL_SIZE;
    IntLength(LowSigned(f.symAddrOffset));
    hide StackFrameOf, Decimal;
  }

  lemma ShortPathsFit(b: Backtrace)
    requires 0 < b.linker.pathMax <= PATH_FITS
    ensures ReportFits(b)
  {
    hide Fits, StackFrameOf;
    forall k | 0 <= k < |b.threads| ensures FramesFit(b.threads[k], b.linker) {
      var t := b.threads[k];
      forall i | 0 <= i < |FramesOf(t, b.linker)| ensures Fits(FramesOf(t, b.linker)[i]) {
        ShortPathFits(i, t.frames.value[i], b.linker);
      }
    }
  }

  function Repeated(c: char, n: nat): (s: string)
    ensures |s| == n && (IsClean(c) ==> Clean(s))
  {
    seq(n, _ => c)
  }

  const LONG_ADDRESS: Word := INT_LIMIT + 1

  /** A path and a symbol that fill their buffers, at an offset that needs eleven characters. */
  function LongNames(pathMax: nat): Linker
    requires pathMax > 0
  {
    Linker(pathMax, map[LONG_ADDRESS := SymbolInfo(Some(Repeated('p', pathMax - 1)), Some(Repeated('s', SYMBOL_SIZE - 1)), 0, 1)])
  }

  function LongNamesReport(pathMax: nat): Backtrace
    requires pathMax > 0
  {
    Backtrace("", "", 0, "", 0, 0, 0, "", "", Some([]), SignalInfo("", "", 0, 0),
      [ThreadInfo(0, "", true, "", 0, 0, Some([LONG_ADDRESS]))], LongNames(pathMax))
  }

  lemma LongestOffset()
    ensures |Decimal(-INT_LIMIT)| == 11
  {
    assert Power(10, 9) == 1000000000 by { assert Power(10, 4) == 10000; }
    NumeralAtLeast(INT_LIMIT, 9);
    IntLength(-INT_LIMIT);
  }

  lemma {:induction false} NumeralAtLeast(n: nat, k: nat)
    requires n >= Power(10, k)
    ensures |Numeral(n, 10)| > k
    decreases k
  {
    if k > 0 {
      assert Power(10, k) == 10 * Power(10, k - 1);
      assert Power(10, k - 1) > 0 by { PowerPositive(k - 1); }
      NumeralAtLeast(n / 10, k - 1);
    }
  }

  lemma {:induction false} PowerPositive(k: nat)
    ensures Power(10, k) > 0
  {
    if k > 0 { PowerPositive(k - 1); }
  }

  lemma LongFrame(pathMax: nat)
    requires pathMax > PATH_FITS
    ensures StackFrameOf(0, LONG_ADDRESS, LongNames(pathMax))
         == StackFrame(0, LONG_ADDRESS, LONG_ADDRESS, Repeated('p', pathMax - 1), Repeated('s', SYMBOL_SIZE - 1), 0, 1, INT_LIMIT)
  {
    hide Repeated;
    assert INT_LIMIT % WORD == INT_LIMIT && LONG_ADDRESS % WORD == LONG_ADDRESS;
  }

  lemma LongFrameDoesNotFit(pathMax: nat)
    requires pathMax > PATH_FITS
    ensures var f := StackFrameOf(0, LONG_ADDRESS, LongNames(pathMax)); CleanFrame(f) && !Fits(f)
  {
    LongFrame(pathMax);
    hide StackFrameOf, Repeated, LongNames;
    assert LowSigned(INT_LIMIT) == -INT_LIMIT;
    LongestOffset();
    hide Decimal, LowSigned;
  }

  lemma LongNamesCut(pathMax: nat)
    requires pathMax > PATH_FITS
    ensures var b := LongNamesReport(pathMax);
      && b.linker.pathMax == pathMax && FieldWidths(b) && CleanBacktrace(b) && b.registers.Some?
      && !ReportFits(b) && ParseText(Emitted(b)) == None
  {
    var b := LongNamesReport(pathMax);
    var t := b.threads[0];
    LongFrameDoesNotFit(pathMax);
    hide StackFrameOf, Fits, CleanFrame, LongNames, Emitted, ParseText;
    assert FramesOf(t, b.linker)[0] == StackFrameOf(0, LONG_ADDRESS, b.linker);
    assert CleanThread(t, b.linker) && !FramesFit(t, b.linker);
    hide FramesOf, FramesFit, CleanThread;
    CutReportUnreadable(b);
  }

  /**
   * What a build decides: every report of clean strings is JSON if and only if the path buffer is at most 1745
   * characters; with the default of 1024 all are.
   */
  lemma AllReadableIff(pathMax: nat)
    requires pathMax > 0
    ensures pathMax <= PATH_FITS <==>
      forall b: Backtrace :: b.linker.pathMax == pathMax && FieldWidths(b) && CleanBacktrace(b) && b.registers.Some? ==>
        ParseText(Emitted(b)).Some?
  {
    hide FieldWidths, CleanBacktrace, ReportFits, Emitted, ParseText;
    if pathMax <= PATH_FITS {
      forall b: Backtrace | b.linker.pathMax == pathMax && FieldWidths(b) && CleanBacktrace(b) && b.registers.Some?
        ensures ParseText(Emitted(b)).Some?
      {
        ShortPathsFit(b);
        ReadableIffFits(b);
      }
    } else {
      LongNamesCut(pathMax);
      var b := LongNamesReport(pathMax);
      assert ParseText(Emitted(b)).None?;
    }
  }

  /** Where paths have at most 1745 characters cleanliness is all there is to it. */
  lemma ShortPathsReadBackIffClean(b: Backtrace)
    requires FieldWidths(b) && b.linker.pathMax <= PATH_FITS
    ensures ParseText(Emitted(b)) == Some(BacktraceValue(b)) <==> CleanAsReported(b)
  {
    PathMaxPositive(b);
    hide *;
    ShortPathsFit(b);
    ReadsBackIffClean(b);
  }

  /** Without a register context nothing can be cut, and the report carries no threads. */
  lemma NullContextReadable(b: Backtrace)
    requires FieldWidths(b) && CleanProcess(b) && b.registers.None?
    ensures ParseText(Emitted(b)) == Some(Object([Member("backtrace", Object(ContextMembers(b)))]))
  {
    ReadsBackIffClean(b);
    hide Emitted, ParseText, ContextMembers, CleanProcess;
  }
}
