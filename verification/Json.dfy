/** JSON texts (RFC 8259): values, the text of a value, and a parser for the whole grammar. */
module Json {
  import opened Numerals

  datatype Option<+T> = None | Some(value: T)

  datatype Json =
    | Null
    | Bool(b: bool)
    | Number(lexeme: string)
    | String(s: string)
    | Array(items: seq<Json>)
    | Object(members: seq<Member>)

  datatype Member = Member(key: string, value: Json)

  // Characters

  predicate IsSpace(c: char) { c == ' ' || c == '\t' || c == '\n' || c == '\r' }

  predicate IsDec(c: char) { '0' <= c <= '9' }

  predicate IsNumberChar(c: char) { IsDec(c) || c == '-' || c == '+' || c == '.' || c == 'e' || c == 'E' }

  /** Section 7: the characters that stand for themselves inside a string. */
  predicate IsPlain(c: char) { c >= ' ' && c != '"' && c != '\\' }

  // Numbers (section 6)

  function DigitSpan(s: string): (k: nat)
    ensures k <= |s|
    ensures forall i :: 0 <= i < k ==> IsDec(s[i])
  {
    if s == "" || !IsDec(s[0]) then 0 else 1 + DigitSpan(s[1..])
  }

  predicate IsNumber(s: string) {
    var t := if s != "" && s[0] == '-' then s[1..] else s;
    var k := DigitSpan(t);
    k >= 1 && (k > 1 ==> t[0] != '0') && IsFraction(t[k..])
  }

  predicate IsFraction(s: string) {
    if s != "" && s[0] == '.' then
      var k := DigitSpan(s[1..]);
      k >= 1 && IsExponent(s[1 + k..])
    else IsExponent(s)
  }

  predicate IsExponent(s: string) {
    s == "" ||
    ((s[0] == 'e' || s[0] == 'E') &&
     var t := if |s| > 1 && (s[1] == '+' || s[1] == '-') then s[2..] else s[1..];
     t != "" && DigitSpan(t) == |t|)
  }

  function NumberSpan(s: string): (k: nat)
    ensures k <= |s|
  {
    if s == "" || !IsNumberChar(s[0]) then 0 else 1 + NumberSpan(s[1..])
  }

  // Printing

  function Escaped(s: string): string {
    if s == "" then ""
    else (if IsPlain(s[0]) then [s[0]] else ['\\'] + EscapeOf(s[0])) + Escaped(s[1..])
  }

  function EscapeOf(c: char): string
    requires !IsPlain(c)
  {
    if c == '"' || c == '\\' then [c]
    else "u00" + [DigitOf(c as int / 16), DigitOf(c as int % 16)]
  }

  function Quoted(s: string): string { "\"" + Escaped(s) + "\"" }

  /** The text of a value, without insignificant white space. */
  function Print(v: Json): string
    decreases v
  {
    match v
    case Null => "null"
    case Bool(b) => if b then "true" else "false"
    case Number(lexeme) => lexeme
    case String(s) => Quoted(s)
    case Array(items) => "[" + PrintItems(items) + "]"
    case Object(members) => "{" + PrintMembers(members) + "}"
  }

  function PrintItems(items: seq<Json>): string
    decreases items
  {
    if |items| == 0 then ""
    else if |items| == 1 then Print(items[0])
    else Print(items[0]) + "," + PrintItems(items[1..])
  }

  function PrintMember(m: Member): string
    decreases m
  {
    Quoted(m.key) + ":" + Print(m.value)
  }

  function PrintMembers(members: seq<Member>): string
    decreases members
  {
    if |members| == 0 then ""
    else if |members| == 1 then PrintMember(members[0])
    else PrintMember(members[0]) + "," + PrintMembers(members[1..])
  }

  /** Values whose number lexemes are numbers; every other value has a text already. */
  predicate WellFormed(v: Json)
    decreases v
  {
    match v
    case Number(lexeme) => IsNumber(lexeme)
    case Array(items) => forall i :: 0 <= i < |items| ==> WellFormed(items[i])
    case Object(members) => forall i :: 0 <= i < |members| ==> WellFormed(members[i].value)
    case _ => true
  }

  predicate AllWellFormed(items: seq<Json>) { forall i :: 0 <= i < |items| ==> WellFormed(items[i]) }

  predicate MembersWellFormed(members: seq<Member>) {
    forall i :: 0 <= i < |members| ==> WellFormed(members[i].value)
  }

  // Parsing

  datatype Parsed<+T> = Fail | Ok(value: T, rest: string)

  function SkipSpace(s: string): (r: string)
    ensures |r| <= |s|
    ensures r != "" ==> !IsSpace(r[0])
  {
    if s != "" && IsSpace(s[0]) then SkipSpace(s[1..]) else s
  }

  function ParseValue(s: string): (r: Parsed<Json>)
    ensures r.Ok? ==> |r.rest| < |s|
    decreases |s|, 2
  {
    var t := SkipSpace(s);
    if t == "" then Fail
    else if t[0] == '{' then ParseObject(t[1..])
    else if t[0] == '[' then ParseArray(t[1..])
    else ParseScalar(t)
  }

  function ParseObject(s: string): (r: Parsed<Json>)
    ensures r.Ok? ==> |r.rest| < |s|
    decreases |s|, 4
  {
    var u := SkipSpace(s);
    if u != "" && u[0] == '}' then Ok(Object([]), u[1..])
    else match ParseMembers(u) case Fail => Fail case Ok(members, rest) => Ok(Object(members), rest)
  }

  function ParseArray(s: string): (r: Parsed<Json>)
    ensures r.Ok? ==> |r.rest| < |s|
    decreases |s|, 4
  {
    var u := SkipSpace(s);
    if u != "" && u[0] == ']' then Ok(Array([]), u[1..])
    else match ParseItems(u) case Fail => Fail case Ok(items, rest) => Ok(Array(items), rest)
  }

  function ParseScalar(t: string): (r: Parsed<Json>)
    requires t != ""
    ensures r.Ok? ==> |r.rest| < |t|
  {
    if t[0] == '"' then
      match ParseStringBody(t[1..]) case Fail => Fail case Ok(str, rest) => Ok(String(str), rest)
    else if "null" <= t then Ok(Null, t[4..])
    else if "true" <= t then Ok(Bool(true), t[4..])
    else if "false" <= t then Ok(Bool(false), t[5..])
    else ParseNumber(t)
  }

  function ParseNumber(t: string): (r: Parsed<Json>)
    ensures r.Ok? ==> |r.rest| < |t|
  {
    var k := NumberSpan(t);
    if IsNumber(t[..k]) then Ok(Number(t[..k]), t[k..]) else Fail
  }

  /** Array items up to and including the closing bracket. */
  function ParseItems(s: string): (r: Parsed<seq<Json>>)
    ensures r.Ok? ==> |r.rest| < |s|
    decreases |s|, 3
  {
    match ParseValue(s)
    case Fail => Fail
    case Ok(item, rest) =>
      var t := SkipSpace(rest);
      if t == "" then Fail
      else if t[0] == ']' then Ok([item], t[1..])
      else if t[0] != ',' then Fail
      else (match ParseItems(t[1..]) case Fail => Fail case Ok(items, rest') => Ok([item] + items, rest'))
  }

  /** Object members up to and including the closing brace. */
  function ParseMembers(s: string): (r: Parsed<seq<Member>>)
    ensures r.Ok? ==> |r.rest| < |s|
    decreases |s|, 2
  {
    match ParseMember(s)
    case Fail => Fail
    case Ok(member, rest) =>
      var t := SkipSpace(rest);
      if t == "" then Fail
      else if t[0] == '}' then Ok([member], t[1..])
      else if t[0] != ',' then Fail
      else (match ParseMembers(t[1..]) case Fail => Fail case Ok(members, rest') => Ok([member] + members, rest'))
  }

  function ParseMember(s: string): (r: Parsed<Member>)
    ensures r.Ok? ==> |r.rest| < |s|
    decreases |s|, 1
  {
    var t := SkipSpace(s);
    if t == "" || t[0] != '"' then Fail
    else match ParseStringBody(t[1..])
      case Fail => Fail
      case Ok(key, rest) =>
        var u := SkipSpace(rest);
        if u == "" || u[0] != ':' then Fail
        else (match ParseValue(u[1..]) case Fail => Fail case Ok(value, rest') => Ok(Member(key, value), rest'))
  }

  predicate IsHexDigit(c: char) { IsDigit(c, 16) || 'A' <= c <= 'F' }

  function HexDigitValue(c: char): (d: nat)
    requires IsHexDigit(c)
    ensures d < 16
  {
    if 'A' <= c <= 'F' then c as int - 'A' as int + 10 else DigitValue(c)
  }

  function Prepend(c: char, r: Parsed<string>): Parsed<string> {
    match r case Fail => Fail case Ok(str, rest) => Ok([c] + str, rest)
  }

  /** What follows a reverse solidus. A lone half of a surrogate pair is no character here. */
  function ParseEscape(s: string): (r: Parsed<char>)
    ensures r.Ok? ==> |r.rest| < |s|
  {
    if s == "" then Fail
    else if s[0] == '"' || s[0] == '\\' || s[0] == '/' then Ok(s[0], s[1..])
    else if s[0] == 'b' then Ok(8 as char, s[1..])
    else if s[0] == 'f' then Ok(12 as char, s[1..])
    else if s[0] == 'n' then Ok('\n', s[1..])
    else if s[0] == 'r' then Ok('\r', s[1..])
    else if s[0] == 't' then Ok('\t', s[1..])
    else if s[0] == 'u' && |s| >= 5 && forall i :: 1 <= i < 5 ==> IsHexDigit(s[i]) then
      var code := ((HexDigitValue(s[1]) * 16 + HexDigitValue(s[2])) * 16 + HexDigitValue(s[3])) * 16 + HexDigitValue(s[4]);
      if 0xD800 <= code < 0xE000 then Fail else Ok(code as char, s[5..])
    else Fail
  }

  /** The characters of a string up to and including the closing quotation mark. */
  function ParseStringBody(s: string): (r: Parsed<string>)
    ensures r.Ok? ==> |r.rest| < |s|
  {
    if s == "" then Fail
    else if s[0] == '"' then Ok("", s[1..])
    else if IsPlain(s[0]) then Prepend(s[0], ParseStringBody(s[1..]))
    else if s[0] != '\\' then Fail
    else match ParseEscape(s[1..])
      case Fail => Fail
      case Ok(c, rest) => Prepend(c, ParseStringBody(rest))
  }

  /** A JSON text: one value with white space around it (section 2). */
  function ParseText(s: string): Option<Json> {
    match ParseValue(s)
    case Fail => None
    case Ok(v, rest) => if SkipSpace(rest) == "" then Some(v) else None
  }

  // Reading back what was printed

  /** A number's lexeme ends here. */
  predicate Stops(rest: string) { rest == "" || !IsNumberChar(rest[0]) }

  lemma Assoc(a: string, b: string, c: string)
    ensures (a + b) + c == a + (b + c)
  {
  }

  lemma {:induction false} StringBodyRoundTrip(s: string, rest: string)
    ensures ParseStringBody(Escaped(s) + ("\"" + rest)) == Ok(s, rest)
  {
    if s == "" {
      BodyEnd(rest);
      assert Escaped(s) + ("\"" + rest) == "\"" + rest;
    } else {
      var tail := Escaped(s[1..]) + ("\"" + rest);
      StringBodyRoundTrip(s[1..], rest);
      if IsPlain(s[0]) {
        BodyPlain(s[0], tail);
        Assoc([s[0]], Escaped(s[1..]), "\"" + rest);
      } else {
        BodyEscape(s[0], tail);
        Assoc(['\\'] + EscapeOf(s[0]), Escaped(s[1..]), "\"" + rest);
        Assoc(['\\'], EscapeOf(s[0]), tail);
      }
      assert [s[0]] + s[1..] == s;
    }
  }

  lemma BodyEnd(tail: string)
    ensures ParseStringBody("\"" + tail) == Ok("", tail)
  {
    assert ("\"" + tail)[1..] == tail;
  }

  lemma BodyPlain(c: char, tail: string)
    requires IsPlain(c)
    ensures ParseStringBody([c] + tail) == Prepend(c, ParseStringBody(tail))
  {
    assert ([c] + tail)[1..] == tail;
  }

  lemma BodyEscape(c: char, tail: string)
    requires !IsPlain(c)
    ensures ParseStringBody(['\\'] + (EscapeOf(c) + tail)) == Prepend(c, ParseStringBody(tail))
  {
    EscapeRoundTrip(c, tail);
    assert (['\\'] + (EscapeOf(c) + tail))[1..] == EscapeOf(c) + tail;
  }

  lemma EscapeRoundTrip(c: char, tail: string)
    requires !IsPlain(c)
    ensures ParseEscape(EscapeOf(c) + tail) == Ok(c, tail)
  {
    var e := EscapeOf(c) + tail;
    if c == '"' || c == '\\' {
      assert e[0] == c && e[1..] == tail;
    } else {
      var hi, lo := c as int / 16, c as int % 16;
      DigitOfValue(hi);
      DigitOfValue(lo);
      assert e[0] == 'u' && e[1] == '0' && e[2] == '0' && e[3] == DigitOf(hi) && e[4] == DigitOf(lo);
      assert HexDigitValue(e[1]) == 0 && HexDigitValue(e[2]) == 0;
      assert HexDigitValue(e[3]) == hi && HexDigitValue(e[4]) == lo;
      assert e[5..] == tail;
      assert hi * 16 + lo == c as int;
    }
  }

  lemma {:induction false} NumberSpanStops(s: string, rest: string)
    requires Stops(rest)
    requires forall i :: 0 <= i < |s| ==> IsNumberChar(s[i])
    ensures NumberSpan(s + rest) == |s|
  {
    if s == "" {
      assert s + rest == rest;
    } else {
      assert (s + rest)[1..] == s[1..] + rest;
      NumberSpanStops(s[1..], rest);
    }
  }

  lemma NumberParts(s: string) returns (t: string, k: nat)
    requires IsNumber(s)
    ensures s != "" && (t == s || (s[0] == '-' && t == s[1..]))
    ensures 1 <= k <= |t| && (forall i :: 0 <= i < k ==> IsDec(t[i])) && IsFraction(t[k..])
  {
    t := if s != "" && s[0] == '-' then s[1..] else s;
    k := DigitSpan(t);
    hide IsFraction;
  }

  lemma {:induction false} PartsChars(t: string, k: nat)
    requires k <= |t| && (forall i :: 0 <= i < k ==> IsDec(t[i])) && IsFraction(t[k..])
    ensures forall i :: 0 <= i < |t| ==> IsNumberChar(t[i])
  {
    var tail := t[k..];
    FractionChars(tail);
    hide IsFraction;
    forall i | 0 <= i < |t| ensures IsNumberChar(t[i]) {
      if i >= k { assert t[i] == tail[i - k]; }
    }
  }

  lemma NumberChars(s: string)
    requires IsNumber(s)
    ensures s != "" && (IsDec(s[0]) || s[0] == '-')
    ensures forall i :: 0 <= i < |s| ==> IsNumberChar(s[i])
  {
    var t, k := NumberParts(s);
    hide IsNumber, IsFraction;
    PartsChars(t, k);
    if t != s {
      forall i | 0 <= i < |s| ensures IsNumberChar(s[i]) {
        if i > 0 { assert s[i] == t[i - 1]; }
      }
    }
  }

  lemma FractionChars(s: string)
    requires IsFraction(s)
    ensures forall i :: 0 <= i < |s| ==> IsNumberChar(s[i])
  {
    if s != "" && s[0] == '.' {
      var k := DigitSpan(s[1..]);
      ExponentChars(s[1 + k..]);
      assert s == [s[0]] + s[1..][..k] + s[1 + k..];
    } else {
      ExponentChars(s);
    }
  }

  lemma ExponentChars(s: string)
    requires IsExponent(s)
    ensures forall i :: 0 <= i < |s| ==> IsNumberChar(s[i])
  {
    if s != "" {
      var k := if |s| > 1 && (s[1] == '+' || s[1] == '-') then 2 else 1;
      assert s == s[..k] + s[k..];
    }
  }

  /** The first character of a value's text tells the kinds apart. */
  lemma PrintStart(v: Json)
    requires WellFormed(v)
    ensures Print(v) != "" && !IsSpace(Print(v)[0]) && Print(v)[0] !in {']', '}', ',', ':'}
  {
    if v.Number? { NumberChars(v.lexeme); }
  }

  lemma SkipNothing(s: string)
    requires s == "" || !IsSpace(s[0])
    ensures SkipSpace(s) == s
  {
  }

  lemma QuotedRoundTrip(str: string, rest: string)
    ensures ParseScalar(Quoted(str) + rest) == Ok(String(str), rest)
  {
    StringBodyRoundTrip(str, rest);
    QuotedThen(str, rest);
    assert ("\"" + (Escaped(str) + ("\"" + rest)))[1..] == Escaped(str) + ("\"" + rest);
  }

  lemma QuotedThen(str: string, rest: string)
    ensures Quoted(str) + rest == "\"" + (Escaped(str) + ("\"" + rest))
  {
  }

  lemma NumberRoundTrip(lexeme: string, rest: string)
    requires IsNumber(lexeme) && Stops(rest)
    ensures lexeme != "" && ParseScalar(lexeme + rest) == Ok(Number(lexeme), rest)
  {
    NumberChars(lexeme);
    NumberSpanStops(lexeme, rest);
    var s := lexeme + rest;
    assert s[..|lexeme|] == lexeme && s[|lexeme|..] == rest;
    assert s[0] == lexeme[0];
  }

  lemma ScalarRoundTrip(v: Json, rest: string)
    requires !v.Array? && !v.Object?
    requires WellFormed(v) && Stops(rest)
    ensures Print(v) != "" && ParseScalar(Print(v) + rest) == Ok(v, rest)
  {
    var s := Print(v) + rest;
    match v
    case Null => assert s[..4] == "null" && s[4..] == rest;
    case Bool(b) =>
      if b { assert s[..4] == "true" && s[4..] == rest; } else { assert s[..5] == "false" && s[5..] == rest; }
    case Number(lexeme) => NumberRoundTrip(lexeme, rest);
    case String(str) => QuotedRoundTrip(str, rest);
  }

  lemma ValueStart(s: string)
    requires s != "" && !IsSpace(s[0])
    ensures ParseValue(s) == if s[0] == '{' then ParseObject(s[1..]) else if s[0] == '[' then ParseArray(s[1..]) else ParseScalar(s)
  {
    SkipNothing(s);
  }

  /** Parsing undoes printing, for every value and whatever follows it. */
  lemma {:induction false} ParsePrint(v: Json, rest: string)
    requires WellFormed(v) && Stops(rest)
    ensures ParseValue(Print(v) + rest) == Ok(v, rest)
    decreases v
  {
    PrintStart(v);
    ValueStart(Print(v) + rest);
    match v
    case Array(items) =>
      ParsePrintArray(items, rest);
      Brackets("[", PrintItems(items), "]", rest);
    case Object(members) =>
      ParsePrintObject(members, rest);
      Brackets("{", PrintMembers(members), "}", rest);
    case _ =>
      ScalarRoundTrip(v, rest);
  }

  lemma Brackets(open: string, body: string, close: string, rest: string)
    requires |open| == 1
    ensures (open + body + close) + rest == open + (body + (close + rest))
    ensures (open + (body + (close + rest)))[1..] == body + (close + rest)
  {
  }

  lemma ItemsStart(items: seq<Json>)
    requires AllWellFormed(items) && |items| > 0
    ensures PrintItems(items) != "" && !IsSpace(PrintItems(items)[0]) && PrintItems(items)[0] != ']'
  {
    PrintStart(items[0]);
    hide Print, IsSpace;
    assert PrintItems(items)[0] == Print(items[0])[0];
  }

  lemma MembersStart(members: seq<Member>)
    requires |members| > 0
    ensures PrintMembers(members) != "" && PrintMembers(members)[0] == '"'
  {
    MemberStart(members[0]);
    hide PrintMember;
    assert PrintMembers(members)[0] == PrintMember(members[0])[0];
  }

  lemma MemberStart(m: Member)
    ensures PrintMember(m) != "" && PrintMember(m)[0] == '"'
  {
    hide Print, Escaped;
  }

  /** An array's or an object's text, without its opening bracket. */
  lemma ArrayThen(u: string)
    requires u != "" && !IsSpace(u[0])
    ensures u[0] == ']' ==> ParseArray(u) == Ok(Array([]), u[1..])
    ensures u[0] != ']' ==> ParseArray(u) == match ParseItems(u) case Fail => Fail case Ok(items, rest) => Ok(Array(items), rest)
  {
    SkipNothing(u);
    hide ParseItems;
  }

  lemma ObjectThen(u: string)
    requires u != "" && !IsSpace(u[0])
    ensures u[0] == '}' ==> ParseObject(u) == Ok(Object([]), u[1..])
    ensures u[0] != '}' ==> ParseObject(u) == match ParseMembers(u) case Fail => Fail case Ok(members, rest) => Ok(Object(members), rest)
  {
    SkipNothing(u);
    hide ParseMembers;
  }

  lemma {:induction false} ParsePrintArray(items: seq<Json>, rest: string)
    requires AllWellFormed(items)
    ensures ParseArray(PrintItems(items) + ("]" + rest)) == Ok(Array(items), rest)
    decreases items, 1
  {
    hide ParseArray, ParseItems, AllWellFormed;
    var s := PrintItems(items) + ("]" + rest);
    if |items| == 0 {
      assert s == "]" + rest;
      assert s[0] == ']' && s[1..] == rest;
    } else {
      ItemsStart(items);
      hide PrintItems;
      assert s[0] == PrintItems(items)[0];
      ParsePrintItems(items, rest);
    }
    ArrayThen(s);
  }

  lemma {:induction false} ParsePrintObject(members: seq<Member>, rest: string)
    requires MembersWellFormed(members)
    ensures ParseObject(PrintMembers(members) + ("}" + rest)) == Ok(Object(members), rest)
    decreases members, 1
  {
    hide ParseObject, ParseMembers, MembersWellFormed;
    var s := PrintMembers(members) + ("}" + rest);
    if |members| == 0 {
      assert s == "}" + rest;
      assert s[0] == '}' && s[1..] == rest;
    } else {
      MembersStart(members);
      hide PrintMembers;
      assert s[0] == '"';
      ParsePrintMembers(members, rest);
    }
    ObjectThen(s);
  }

  lemma {:induction false} ParsePrintItems(items: seq<Json>, rest: string)
    requires AllWellFormed(items) && |items| > 0
    ensures ParseItems(PrintItems(items) + ("]" + rest)) == Ok(items, rest)
    decreases items, 0
  {
    if |items| == 1 {
      ParsePrint(items[0], "]" + rest);
      LastItem(items[0], rest);
      assert items == [items[0]];
    } else {
      var tail := PrintItems(items[1..]) + ("]" + rest);
      ParsePrintItems(items[1..], rest);
      ParsePrint(items[0], "," + tail);
      ItemThenItems(items[0], tail);
      Joined(Print(items[0]), PrintItems(items[1..]), "]" + rest);
      assert [items[0]] + items[1..] == items;
    }
  }

  lemma Joined(a: string, b: string, rest: string)
    ensures (a + "," + b) + rest == a + ("," + (b + rest))
  {
  }

  lemma LastItem(item: Json, rest: string)
    requires ParseValue(Print(item) + ("]" + rest)) == Ok(item, "]" + rest)
    ensures ParseItems(Print(item) + ("]" + rest)) == Ok([item], rest)
  {
    SkipNothing("]" + rest);
    assert ("]" + rest)[1..] == rest;
  }

  /** One printed item and a comma only prepend that item, whether what follows parses or not. */
  lemma ItemThenItems(item: Json, tail: string)
    requires ParseValue(Print(item) + ("," + tail)) == Ok(item, "," + tail)
    ensures ParseItems(Print(item) + ("," + tail))
         == match ParseItems(tail) case Fail => Fail case Ok(items, rest) => Ok([item] + items, rest)
  {
    SkipNothing("," + tail);
    assert ("," + tail)[1..] == tail;
  }

  lemma {:induction false} ParsePrintMember(m: Member, rest: string)
    requires WellFormed(m.value) && Stops(rest)
    ensures ParseMember(PrintMember(m) + rest) == Ok(m, rest)
    decreases m
  {
    KeyThenValue(m.key, Print(m.value) + rest);
    ParsePrint(m.value, rest);
    Assoc(Quoted(m.key) + ":", Print(m.value), rest);
    Assoc(Quoted(m.key), ":", Print(m.value) + rest);
  }

  /** A printed key and a colon leave the verdict on the member to its value. */
  lemma KeyThenValue(key: string, tail: string)
    ensures ParseMember(Quoted(key) + (":" + tail))
         == match ParseValue(tail) case Fail => Fail case Ok(value, rest) => Ok(Member(key, value), rest)
  {
    var s := Quoted(key) + (":" + tail);
    QuotedThen(key, ":" + tail);
    StringBodyRoundTrip(key, ":" + tail);
    assert s[0] == '"';
    SkipNothing(s);
    assert s[1..] == Escaped(key) + ("\"" + (":" + tail));
    SkipNothing(":" + tail);
    assert (":" + tail)[1..] == tail;
  }

  lemma {:induction false} ParsePrintMembers(members: seq<Member>, rest: string)
    requires MembersWellFormed(members) && |members| > 0
    ensures ParseMembers(PrintMembers(members) + ("}" + rest)) == Ok(members, rest)
    decreases members, 0
  {
    if |members| == 1 {
      ParsePrintMember(members[0], "}" + rest);
      LastMember(members[0], rest);
      assert members == [members[0]];
    } else {
      var tail := PrintMembers(members[1..]) + ("}" + rest);
      ParsePrintMembers(members[1..], rest);
      ParsePrintMember(members[0], "," + tail);
      MemberThenMembers(members[0], tail);
      Joined(PrintMember(members[0]), PrintMembers(members[1..]), "}" + rest);
      assert [members[0]] + members[1..] == members;
    }
  }

  lemma LastMember(m: Member, rest: string)
    requires ParseMember(PrintMember(m) + ("}" + rest)) == Ok(m, "}" + rest)
    ensures ParseMembers(PrintMember(m) + ("}" + rest)) == Ok([m], rest)
  {
    SkipNothing("}" + rest);
    assert ("}" + rest)[1..] == rest;
  }

  lemma MemberThenMembers(m: Member, tail: string)
    requires ParseMember(PrintMember(m) + ("," + tail)) == Ok(m, "," + tail)
    ensures ParseMembers(PrintMember(m) + ("," + tail))
         == match ParseMembers(tail) case Fail => Fail case Ok(members, rest) => Ok([m] + members, rest)
  {
    SkipNothing("," + tail);
    assert ("," + tail)[1..] == tail;
  }

  lemma TextRoundTrip(v: Json)
    requires WellFormed(v)
    ensures ParseText(Print(v)) == Some(v)
  {
    ParsePrint(v, "");
    assert Print(v) + "" == Print(v);
  }
}
