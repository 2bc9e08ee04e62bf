/** Values printed without escapes, as the emitter prints them, and what of them reads back. */
module RawText {
  import opened Json
  import opened Report
  import opened Emitter

  // Translated text

  lemma RequotedConcat(a: string, b: string)
    ensures Requoted(a + b) == Requoted(a) + Requoted(b)
  {
  }

  lemma Punctuation()
    ensures Requoted(",") == "," && Requoted("{") == "{" && Requoted("}") == "}" && Requoted("[") == "[" && Requoted("]") == "]"
  {
  }

  lemma {:induction false} RequotedClean(s: string)
    requires Clean(s)
    ensures Requoted(s) == s && Escaped(s) == s
  {
    if s != "" {
      RequotedClean(s[1..]);
      assert [s[0]] + s[1..] == s;
    }
  }

  // Printing without escapes

  function RawQuoted(s: string): string { "\"" + Requoted(s) + "\"" }

  function Raw(v: Json): string
    decreases v
  {
    match v
    case Null => "null"
    case Bool(b) => if b then "true" else "false"
    case Number(lexeme) => lexeme
    case String(s) => RawQuoted(s)
    case Array(items) => "[" + RawItems(items) + "]"
    case Object(members) => "{" + RawMembers(members) + "}"
  }

  function RawItems(items: seq<Json>): string
    decreases items
  {
    if |items| == 0 then ""
    else if |items| == 1 then Raw(items[0])
    else Raw(items[0]) + "," + RawItems(items[1..])
  }

  function RawMember(m: Member): string
    decreases m
  {
    RawQuoted(m.key) + ":" + Raw(m.value)
  }

  function RawMembers(members: seq<Member>): string
    decreases members
  {
    if |members| == 0 then ""
    else if |members| == 1 then RawMember(members[0])
    else RawMember(members[0]) + "," + RawMembers(members[1..])
  }

  /** All its strings, keys included, are clean. */
  predicate AllClean(v: Json)
    decreases v
  {
    match v
    case String(s) => Clean(s)
    case Array(items) => forall i :: 0 <= i < |items| ==> AllClean(items[i])
    case Object(members) => forall i :: 0 <= i < |members| ==> Clean(members[i].key) && AllClean(members[i].value)
    case _ => true
  }

  predicate ItemsClean(items: seq<Json>) { forall i :: 0 <= i < |items| ==> AllClean(items[i]) }

  predicate MembersClean(members: seq<Member>) {
    forall i :: 0 <= i < |members| ==> Clean(members[i].key) && AllClean(members[i].value)
  }

  lemma RawQuotedClean(s: string)
    requires Clean(s)
    ensures RawQuoted(s) == Quoted(s)
  {
    RequotedClean(s);
  }

  /** Clean values need no escapes. */
  lemma {:induction false} RawIsPrint(v: Json)
    requires AllClean(v)
    ensures Raw(v) == Print(v)
    decreases v
  {
    hide Clean;
    match v
    case String(s) => RawQuotedClean(s);
    case Array(items) => RawItemsArePrint(items);
    case Object(members) => RawMembersArePrint(members);
    case _ =>
  }

  lemma {:induction false} RawItemsArePrint(items: seq<Json>)
    requires ItemsClean(items)
    ensures RawItems(items) == PrintItems(items)
    decreases items
  {
    if |items| > 0 {
      RawIsPrint(items[0]);
      if |items| > 1 { RawItemsArePrint(items[1..]); }
    }
  }

  lemma RawMemberIsPrint(m: Member)
    requires Clean(m.key) && AllClean(m.value)
    ensures RawMember(m) == PrintMember(m)
    decreases m
  {
    RawQuotedClean(m.key);
    RawIsPrint(m.value);
    hide RawQuoted, Quoted, Raw, Print;
  }

  lemma {:induction false} RawMembersArePrint(members: seq<Member>)
    requires MembersClean(members)
    ensures RawMembers(members) == PrintMembers(members)
    decreases members
  {
    hide RawMember, PrintMember, Clean;
    if |members| > 0 {
      RawMemberIsPrint(members[0]);
      if |members| > 1 { RawMembersArePrint(members[1..]); }
    }
  }

  // A string that reads back as itself

  predicate IsQuote(c: char) { c == '"' || c == '\'' }

  predicate NoQuotes(s: string, j: nat, p: nat)
    requires j <= p <= |s|
  {
    forall m :: j <= m < p ==> !IsQuote(s[m])
  }

  lemma NoQuotesJoin(s: string, j: nat, p: nat, q: nat)
    requires j < p <= q <= |s| && NoQuotes(s, j, p) && NoQuotes(s, p, q)
    ensures NoQuotes(s, j + 1, q) && s[j] != '"'
  {
  }

  lemma NoQuotesNext(s: string, j: nat, p: nat)
    requires j < p < |s| && NoQuotes(s, j, p) && !IsQuote(s[p])
    ensures NoQuotes(s, j, p + 1) && NoQuotes(s, j + 1, p + 1)
  {
  }

  /** What the reader still has before it: the text of `s` from `p` on, the closing quote, and the rest. */
  function Ahead(s: string, p: nat, rest: string): string
    requires p <= |s|
  {
    Requoted(s[p..]) + ("\"" + rest)
  }

  lemma AheadEnd(s: string, rest: string)
    ensures Ahead(s, |s|, rest) == "\"" + rest
  {
  }

  lemma AheadNext(s: string, p: nat, rest: string)
    requires p < |s|
    ensures Ahead(s, p, rest) == [if s[p] == '\'' then '"' else s[p]] + Ahead(s, p + 1, rest)
  {
    assert Requoted(s[p..])[1..] == Requoted(s[p + 1..]);
    assert Requoted(s[p..]) == [Requoted(s[p..])[0]] + Requoted(s[p + 1..]);
    hide Requoted;
  }

  lemma AheadDrop(s: string, p: nat, n: nat, rest: string)
    requires p + n <= |s|
    ensures |Ahead(s, p, rest)| >= n && Ahead(s, p, rest)[n..] == Ahead(s, p + n, rest)
    ensures forall i :: 0 <= i < n ==> Ahead(s, p, rest)[i] == if s[p + i] == '\'' then '"' else s[p + i]
  {
    assert Ahead(s, p, rest)[n..] == Requoted(s[p..])[n..] + ("\"" + rest);
    assert Requoted(s[p..])[n..] == Requoted(s[p + n..]);
  }

  lemma ClosingQuote(s: string, p: nat, rest: string)
    requires p <= |s|
    ensures |Ahead(s, p, rest)| > |s| - p && Ahead(s, p, rest)[|s| - p] == '"'
  {
  }

  lemma HexInside(s: string, p: nat, rest: string)
    requires p < |s| && |Ahead(s, p, rest)| >= 5 && forall i :: 1 <= i < 5 ==> IsHexDigit(Ahead(s, p, rest)[i])
    ensures p + 5 <= |s|
  {
    ClosingQuote(s, p, rest);
    hide Ahead;
  }

  /** An escape takes one or five characters; none of them is a quotation mark unless it stands for one. */
  lemma EscapeShape(t: string) returns (n: nat)
    requires ParseEscape(t).Ok? && ParseEscape(t).value != '"'
    ensures (n == 1 || n == 5) && n <= |t| && ParseEscape(t).rest == t[n..]
    ensures t[0] != '"' && (n == 5 ==> forall i :: 1 <= i < 5 ==> IsHexDigit(t[i]))
  {
    n := if t[0] == 'u' then 5 else 1;
  }

  lemma AheadNoQuotes(s: string, p: nat, n: nat, rest: string)
    requires p + n <= |s| && n <= |Ahead(s, p, rest)| && forall i :: 0 <= i < n ==> Ahead(s, p, rest)[i] != '"'
    ensures NoQuotes(s, p, p + n)
  {
    AheadDrop(s, p, n, rest);
    var t := Ahead(s, p, rest);
    hide Ahead;
    forall m | p <= m < p + n ensures !IsQuote(s[m]) { assert t[m - p] != '"'; }
  }

  lemma HexIsNoQuote(t: string, n: nat)
    requires n <= |t| && n > 0 && t[0] != '"' && forall i :: 1 <= i < n ==> IsHexDigit(t[i])
    ensures forall i :: 0 <= i < n ==> t[i] != '"'
  {
  }

  /** So an escape that stands for anything else stays inside the string, and lets no quotation mark pass. */
  lemma EscapeTakes(s: string, p: nat, rest: string) returns (n: nat)
    requires p <= |s| && ParseEscape(Ahead(s, p, rest)).Ok? && ParseEscape(Ahead(s, p, rest)).value != '"'
    ensures n > 0 && p + n <= |s| && ParseEscape(Ahead(s, p, rest)).rest == Ahead(s, p + n, rest)
    ensures NoQuotes(s, p, p + n)
  {
    hide *;
    var t := Ahead(s, p, rest);
    n := EscapeShape(t);
    ClosingQuote(s, p, rest);
    if n == 5 { HexInside(s, p, rest); }
    AheadDrop(s, p, n, rest);
    HexIsNoQuote(t, n);
    AheadNoQuotes(s, p, n, rest);
  }

  /** The characters read make up the string from `j` on. */
  predicate ReadsTail(r: Parsed<string>, s: string, j: nat)
    requires j <= |s|
  {
    r.Ok? && r.value == s[j..]
  }

  /** A first character put before the rest makes up a string only if it is its first, and the rest its rest. */
  lemma Tail(s: string, j: nat, c: char, r: Parsed<string>)
    requires j < |s|
    ensures ReadsTail(Prepend(c, r), s, j) ==> c == s[j] && ReadsTail(r, s, j + 1)
  {
    if ReadsTail(Prepend(c, r), s, j) {
      assert s[j..][0] == s[j] && s[j..][1..] == s[j + 1..];
      assert ([c] + r.value)[0] == c && ([c] + r.value)[1..] == r.value;
    }
  }

  /** A string is over at a quotation mark, but this one goes on. */
  lemma EndsEarly(s: string, j: nat, tail: string)
    requires j < |s|
    ensures !ReadsTail(ParseStringBody("\"" + tail), s, j)
  {
    BodyEnd(tail);
    hide ParseStringBody;
  }

  lemma BodyRefuses(c: char, tail: string)
    requires !IsPlain(c) && c != '"' && c != '\\'
    ensures ParseStringBody([c] + tail) == Fail
  {
  }

  /** What follows a reverse solidus, and the rest of the string. */
  function AfterBackslash(t: string): Parsed<string> {
    match ParseEscape(t) case Fail => Fail case Ok(c, rest) => Prepend(c, ParseStringBody(rest))
  }

  lemma BodyBackslash(tail: string)
    ensures ParseStringBody("\\" + tail) == AfterBackslash(tail)
  {
    assert ("\\" + tail)[1..] == tail;
  }

  lemma EscapeTail(t: string, s: string, j: nat)
    requires j < |s|
    ensures ReadsTail(AfterBackslash(t), s, j) ==>
      var e := ParseEscape(t); e.Ok? && e.value == s[j] && ReadsTail(ParseStringBody(e.rest), s, j + 1)
  {
    var e := ParseEscape(t);
    if e.Ok? { Tail(s, j, e.value, ParseStringBody(e.rest)); }
    hide ParseEscape, ParseStringBody;
  }

  /** Once the decoded characters lag behind those that were read, they never make up the string. */
  lemma {:induction false} LaggingNeverReadsBack(s: string, j: nat, p: nat, rest: string)
    requires j < p <= |s| && NoQuotes(s, j, p)
    ensures !ReadsTail(ParseStringBody(Ahead(s, p, rest)), s, j)
    decreases |s| - p
  {
    hide NoQuotes, ReadsTail;
    if p == |s| {
      AheadEnd(s, rest);
      EndsEarly(s, j, rest);
    } else {
      AheadNext(s, p, rest);
      var c := if s[p] == '\'' then '"' else s[p];
      var after := Ahead(s, p + 1, rest);
      hide Ahead;
      if c == '"' {
        EndsEarly(s, j, after);
      } else {
        NoQuotesNext(s, j, p);
        if IsPlain(c) {
          BodyPlain(c, after);
          LaggingNeverReadsBack(s, j + 1, p + 1, rest);
          Tail(s, j, c, ParseStringBody(after));
        } else if c == '\\' {
          BodyBackslash(after);
          LaggingEscape(s, j, p + 1, rest);
        } else {
          BodyRefuses(c, after);
          NotFail(s, j);
        }
      }
    }
  }

  lemma NotFail(s: string, j: nat)
    requires j <= |s|
    ensures !ReadsTail(Fail, s, j)
  {
  }

  /** Nor do they after an escape, which takes at least one character more than it stands for. */
  lemma LaggingEscape(s: string, j: nat, q: nat, rest: string)
    requires j < q <= |s| && NoQuotes(s, j, q)
    ensures !ReadsTail(AfterBackslash(Ahead(s, q, rest)), s, j)
    decreases |s| - q
  {
    hide *;
    var t := Ahead(s, q, rest);
    EscapeTail(t, s, j);
    NoQuotesNone(s, q);
    NoQuotesJoin(s, j, q, q);
    if ParseEscape(t).Ok? && ParseEscape(t).value == s[j] {
      var n := EscapeTakes(s, q, rest);
      NoQuotesJoin(s, j, q, q + n);
      LaggingNeverReadsBack(s, j + 1, q + n, rest);
    }
  }

  lemma NoQuotesNone(s: string, q: nat)
    requires q <= |s|
    ensures NoQuotes(s, q, q)
  {
  }

  lemma {:induction false} SelfReadFrom(s: string, p: nat, rest: string)
    requires p <= |s| && ReadsTail(ParseStringBody(Ahead(s, p, rest)), s, p)
    ensures forall i :: p <= i < |s| ==> IsClean(s[i])
    decreases |s| - p
  {
    if p < |s| {
      AheadNext(s, p, rest);
      var c := if s[p] == '\'' then '"' else s[p];
      var after := Ahead(s, p + 1, rest);
      hide Ahead, ReadsTail;
      if c == '"' {
        EndsEarly(s, p, after);
        assert false;
      } else if IsPlain(c) {
        BodyPlain(c, after);
        Tail(s, p, c, ParseStringBody(after));
        SelfReadFrom(s, p + 1, rest);
      } else if c == '\\' {
        BodyBackslash(after);
        assert NoQuotes(s, p, p + 1);
        LaggingEscape(s, p, p + 1, rest);
        assert false;
      } else {
        BodyRefuses(c, after);
        NotFail(s, p);
        assert false;
      }
    }
  }

  /** A string written without escapes reads back as itself only if it is clean. */
  lemma SelfRead(s: string, rest: string)
    requires var r := ParseStringBody(Requoted(s) + ("\"" + rest)); r.Ok? && r.value == s
    ensures Clean(s)
  {
    assert s[0..] == s;
    SelfReadFrom(s, 0, rest);
  }

  // A value that reads back as itself

  lemma RawStart(v: Json)
    requires WellFormed(v)
    ensures Raw(v) != "" && !IsSpace(Raw(v)[0]) && Raw(v)[0] != ']' && Raw(v)[0] != '}'
  {
    if v.Number? { NumberChars(v.lexeme); }
    hide IsNumber;
  }

  lemma RawQuotedThen(s: string, rest: string)
    ensures RawQuoted(s) + rest == "\"" + (Requoted(s) + ("\"" + rest))
    ensures (RawQuoted(s) + rest)[0] == '"' && (RawQuoted(s) + rest)[1..] == Requoted(s) + ("\"" + rest)
  {
  }

  lemma StringReadBack(s: string, rest: string)
    requires var r := ParseValue(RawQuoted(s) + rest); r.Ok? && r.value == String(s)
    ensures Clean(s)
  {
    RawQuotedThen(s, rest);
    var t := RawQuoted(s) + rest;
    hide RawQuoted, Requoted;
    ValueStart(t);
    hide ParseValue;
    SelfRead(s, rest);
  }

  lemma ArrayReadBack(items: seq<Json>, rest: string)
    requires AllWellFormed(items) && |items| > 0
    requires var r := ParseValue(Raw(Array(items)) + rest); r.Ok? && r.value == Array(items)
    ensures var q := ParseItems(RawItems(items) + ("]" + rest)); q.Ok? && q.value == items
  {
    Brackets("[", RawItems(items), "]", rest);
    var u := RawItems(items) + ("]" + rest);
    RawStart(items[0]);
    assert u[0] == Raw(items[0])[0];
    hide RawItems;
    ValueStart("[" + u);
    SkipNothing(u);
    hide ParseValue, ParseItems;
  }

  lemma RawMembersStart(members: seq<Member>)
    requires |members| > 0
    ensures RawMembers(members) != "" && RawMembers(members)[0] == '"'
  {
    var m := members[0];
    RawQuotedThen(m.key, ":" + Raw(m.value));
    assert RawMember(m)[0] == '"';
    hide RawMember, Raw, RawQuoted;
    assert RawMembers(members)[0] == RawMember(m)[0];
  }

  lemma ObjectBody(u: string, members: seq<Member>)
    requires u != "" && u[0] == '"'
    requires var r := ParseObject(u); r.Ok? && r.value == Object(members)
    ensures var q := ParseMembers(u); q.Ok? && q.value == members
  {
    SkipNothing(u);
    hide ParseMembers;
  }

  lemma ObjectReadBack(members: seq<Member>, rest: string)
    requires MembersWellFormed(members) && |members| > 0
    requires var r := ParseValue(Raw(Object(members)) + rest); r.Ok? && r.value == Object(members)
    ensures var q := ParseMembers(RawMembers(members) + ("}" + rest)); q.Ok? && q.value == members
  {
    Brackets("{", RawMembers(members), "}", rest);
    var u := RawMembers(members) + ("}" + rest);
    RawMembersStart(members);
    hide RawMembers;
    ValueStart("{" + u);
    hide ParseValue, ParseMembers, ParseObject, MembersWellFormed;
    ObjectBody(u, members);
  }

  lemma FirstItem(text: string, items: seq<Json>)
    requires |items| > 0
    requires var q := ParseItems(text); q.Ok? && q.value == items
    ensures var r := ParseValue(text); r.Ok? && r.value == items[0]
  {
    hide ParseValue;
  }

  lemma FirstMember(text: string, members: seq<Member>)
    requires |members| > 0
    requires var q := ParseMembers(text); q.Ok? && q.value == members
    ensures var r := ParseMember(text); r.Ok? && r.value == members[0]
  {
    hide ParseMember;
  }

  lemma ItemsSplit(items: seq<Json>, rest: string)
    requires |items| > 0
    ensures RawItems(items) + ("]" + rest)
         == Raw(items[0]) + (if |items| == 1 then "]" + rest else "," + (RawItems(items[1..]) + ("]" + rest)))
  {
    if |items| > 1 { Joined(Raw(items[0]), RawItems(items[1..]), "]" + rest); }
    hide Raw;
  }

  lemma MembersSplit(members: seq<Member>, rest: string)
    requires |members| > 0
    ensures RawMembers(members) + ("}" + rest)
         == RawMember(members[0]) + (if |members| == 1 then "}" + rest else "," + (RawMembers(members[1..]) + ("}" + rest)))
  {
    if |members| > 1 { Joined(RawMember(members[0]), RawMembers(members[1..]), "}" + rest); }
    hide RawMember;
  }

  lemma {:induction false} ItemsReadBack(items: seq<Json>, rest: string)
    requires AllWellFormed(items) && |items| > 0
    requires var q := ParseItems(RawItems(items) + ("]" + rest)); q.Ok? && q.value == items
    ensures ItemsClean(items)
    decreases items, 0
  {
    hide Raw, Print, RawItems, ParseItems, ParseValue, WellFormed, AllClean;
    ItemsSplit(items, rest);
    var tail := if |items| == 1 then "]" + rest else "," + (RawItems(items[1..]) + ("]" + rest));
    FirstItem(Raw(items[0]) + tail, items);
    ReadsBackClean(items[0], tail);
    if |items| > 1 {
      RawIsPrint(items[0]);
      ParsePrint(items[0], tail);
      var next := RawItems(items[1..]) + ("]" + rest);
      ItemThenItems(items[0], next);
      assert items[1..] == ParseItems(next).value;
      ItemsReadBack(items[1..], rest);
    }
  }

  lemma {:induction false} MembersReadBack(members: seq<Member>, rest: string)
    requires MembersWellFormed(members) && |members| > 0
    requires var q := ParseMembers(RawMembers(members) + ("}" + rest)); q.Ok? && q.value == members
    ensures MembersClean(members)
    decreases members, 0
  {
    hide RawMember, PrintMember, RawMembers, ParseMembers, ParseMember, WellFormed, AllClean, Clean;
    MembersSplit(members, rest);
    var tail := if |members| == 1 then "}" + rest else "," + (RawMembers(members[1..]) + ("}" + rest));
    FirstMember(RawMember(members[0]) + tail, members);
    MemberReadsBack(members[0], tail);
    if |members| > 1 {
      RawMemberIsPrint(members[0]);
      ParsePrintMember(members[0], tail);
      var next := RawMembers(members[1..]) + ("}" + rest);
      MemberThenMembers(members[0], next);
      assert members[1..] == ParseMembers(next).value;
      MembersReadBack(members[1..], rest);
    }
  }

  lemma KeyOf(t: string, m: Member)
    requires t != "" && t[0] == '"'
    requires var r := ParseMember(t); r.Ok? && r.value == m
    ensures var k := ParseStringBody(t[1..]); k.Ok? && k.value == m.key
  {
    SkipNothing(t);
    hide ParseValue, ParseStringBody;
  }

  lemma MemberSplit(m: Member, rest: string)
    ensures RawMember(m) + rest == RawQuoted(m.key) + (":" + (Raw(m.value) + rest))
  {
    hide Raw, RawQuoted;
    Assoc(RawQuoted(m.key) + ":", Raw(m.value), rest);
    Assoc(RawQuoted(m.key), ":", Raw(m.value) + rest);
  }

  lemma KeyReadsBack(m: Member, rest: string)
    requires var r := ParseMember(RawMember(m) + rest); r.Ok? && r.value == m
    ensures Clean(m.key)
  {
    MemberSplit(m, rest);
    hide RawMember, Raw, Clean, ParseMember, ParseStringBody;
    var tail := ":" + (Raw(m.value) + rest);
    RawQuotedThen(m.key, tail);
    hide RawQuoted, Requoted;
    KeyOf(RawQuoted(m.key) + tail, m);
    SelfRead(m.key, tail);
  }

  lemma {:induction false} MemberReadsBack(m: Member, rest: string)
    requires WellFormed(m.value)
    requires var r := ParseMember(RawMember(m) + rest); r.Ok? && r.value == m
    ensures Clean(m.key) && AllClean(m.value)
    decreases m
  {
    KeyReadsBack(m, rest);
    RawQuotedClean(m.key);
    MemberSplit(m, rest);
    hide RawMember, Raw, RawQuoted, Quoted, ParseMember, ParseValue, WellFormed, AllClean, Clean;
    KeyThenValue(m.key, Raw(m.value) + rest);
    ReadsBackClean(m.value, rest);
  }

  /** A value printed without escapes reads back as itself only if it is clean, keys and all. */
  lemma {:induction false} ReadsBackClean(v: Json, rest: string)
    requires WellFormed(v)
    requires var r := ParseValue(Raw(v) + rest); r.Ok? && r.value == v
    ensures AllClean(v)
    decreases v
  {
    match v
    case String(s) => StringReadBack(s, rest);
    case Array(items) =>
      if |items| > 0 {
        ArrayReadBack(items, rest);
        hide Raw, RawItems, ParseItems, WellFormed;
        ItemsReadBack(items, rest);
      }
    case Object(members) =>
      if |members| > 0 {
        ObjectReadBack(members, rest);
        hide Raw, RawMembers, ParseMembers, WellFormed;
        MembersReadBack(members, rest);
      }
    case _ =>
  }

  /** The text of a well-formed value, written without escapes, is that value's exactly when the value is clean. */
  lemma RawReadsBackIff(v: Json)
    requires WellFormed(v)
    ensures ParseText(Raw(v)) == Some(v) <==> AllClean(v)
  {
    assert Raw(v) + "" == Raw(v);
    if AllClean(v) {
      RawIsPrint(v);
      TextRoundTrip(v);
    }
    hide Raw, ParseValue, WellFormed, AllClean, Print;
    if ParseText(Raw(v)) == Some(v) { ReadsBackClean(v, ""); }
  }
}
