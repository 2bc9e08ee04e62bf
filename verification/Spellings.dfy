/** The parser takes every spelling section 7 of RFC 8259 has for a string, and white space as section 2 says. */
module Spellings {
  import opened Numerals
  import opened Json

  /** A character as it is, its two-character escape, or four hexadecimal digits in either case. */
  datatype Spelling = Itself | Short | Code(upper: bool)

  /** The two-character escapes. */
  function ShortOf(c: char): Option<char> {
    match c
    case '"' => Some('"')
    case '\\' => Some('\\')
    case '/' => Some('/')
    case '\n' => Some('n')
    case '\r' => Some('r')
    case '\t' => Some('t')
    case _ => if c as int == 8 then Some('b') else if c as int == 12 then Some('f') else None
  }

  function HexOf(d: nat, upper: bool): char
    requires d < 16
  {
    if upper then "0123456789ABCDEF"[d] else "0123456789abcdef"[d]
  }

  function CodeOf(c: char, upper: bool): string
    requires c as int < 0x10000
  {
    var n := c as int;
    [HexOf(n / 4096, upper), HexOf(n / 256 % 16, upper), HexOf(n / 16 % 16, upper), HexOf(n % 16, upper)]
  }

  predicate Spells(how: Spelling, c: char) {
    match how
    case Itself => c as int >= 0x20 && c != '"' && c != '\\'
    case Short => ShortOf(c).Some?
    case Code(_) => c as int < 0x10000
  }

  function SpelledChar(c: char, how: Spelling): string
    requires Spells(how, c)
  {
    match how
    case Itself => [c]
    case Short => ['\\', ShortOf(c).value]
    case Code(upper) => ['\\', 'u'] + CodeOf(c, upper)
  }

  function Spelled(s: string, how: seq<Spelling>): string
    requires |how| == |s| && forall i :: 0 <= i < |s| ==> Spells(how[i], s[i])
  {
    if s == "" then "" else SpelledChar(s[0], how[0]) + Spelled(s[1..], how[1..])
  }

  lemma HexReads(d: nat, upper: bool)
    requires d < 16
    ensures IsHexDigit(HexOf(d, upper)) && HexDigitValue(HexOf(d, upper)) == d
  {
  }

  lemma FourDigits(n: nat)
    requires n < 0x10000
    ensures n / 4096 < 16
    ensures ((n / 4096 * 16 + n / 256 % 16) * 16 + n / 16 % 16) * 16 + n % 16 == n
  {
    assert n / 4096 == n / 256 / 16 && n / 256 == n / 16 / 16;
  }

  lemma CodeReads(c: char, upper: bool, rest: string)
    requires c as int < 0x10000
    ensures ParseEscape("u" + CodeOf(c, upper) + rest) == Ok(c, rest)
  {
    var n := c as int;
    FourDigits(n);
    HexReads(n / 4096, upper);
    HexReads(n / 256 % 16, upper);
    HexReads(n / 16 % 16, upper);
    HexReads(n % 16, upper);
    var t := "u" + CodeOf(c, upper) + rest;
    assert t[0] == 'u' && t[1] == HexOf(n / 4096, upper) && t[2] == HexOf(n / 256 % 16, upper);
    assert t[3] == HexOf(n / 16 % 16, upper) && t[4] == HexOf(n % 16, upper) && t[5..] == rest;
    hide HexOf, HexDigitValue, IsHexDigit;
  }

  lemma ShortReads(c: char, rest: string)
    requires ShortOf(c).Some?
    ensures ParseEscape([ShortOf(c).value] + rest) == Ok(c, rest)
  {
    assert ([ShortOf(c).value] + rest)[1..] == rest;
  }

  lemma CharReads(c: char, how: Spelling, rest: string)
    requires Spells(how, c)
    ensures ParseStringBody(SpelledChar(c, how) + rest) == Prepend(c, ParseStringBody(rest))
  {
    var t := SpelledChar(c, how) + rest;
    match how {
      case Itself => assert t[1..] == rest;
      case Short =>
        ShortReads(c, rest);
        assert t[0] == '\\' && t[1..] == [ShortOf(c).value] + rest;
        hide ShortOf, ParseEscape;
      case Code(upper) =>
        CodeReads(c, upper, rest);
        assert t[0] == '\\' && t[1..] == "u" + CodeOf(c, upper) + rest;
        hide CodeOf, ParseEscape;
    }
  }

  /** Every spelling of a string reads as the string. */
  lemma {:induction false} SpellingReads(s: string, how: seq<Spelling>, rest: string)
    requires |how| == |s| && forall i :: 0 <= i < |s| ==> Spells(how[i], s[i])
    ensures ParseStringBody(Spelled(s, how) + ("\"" + rest)) == Ok(s, rest)
  {
    if s == "" {
      assert Spelled(s, how) + ("\"" + rest) == "\"" + rest && ("\"" + rest)[1..] == rest;
    } else {
      hide Spells, SpelledChar, ParseStringBody;
      var tail := Spelled(s[1..], how[1..]) + ("\"" + rest);
      SpellingReads(s[1..], how[1..], rest);
      CharReads(s[0], how[0], tail);
      Assoc(SpelledChar(s[0], how[0]), Spelled(s[1..], how[1..]), "\"" + rest);
      assert [s[0]] + s[1..] == s;
    }
  }

  predicate IsBlank(c: char) { c as int == 32 || c as int == 9 || c as int == 10 || c as int == 13 }

  lemma {:induction false} BlanksSkipped(blanks: string, s: string)
    requires forall i :: 0 <= i < |blanks| ==> IsBlank(blanks[i])
    ensures SkipSpace(blanks + s) == SkipSpace(s)
  {
    if blanks != "" {
      assert (blanks + s)[1..] == blanks[1..] + s;
      BlanksSkipped(blanks[1..], s);
    } else {
      assert blanks + s == s;
    }
  }

  /** White space around a text does not change its value. */
  lemma BlanksAround(before: string, v: Json, after: string)
    requires WellFormed(v) && forall i :: 0 <= i < |before| ==> IsBlank(before[i])
    requires forall i :: 0 <= i < |after| ==> IsBlank(after[i])
    ensures ParseText(before + (Print(v) + after)) == Some(v)
  {
    BlanksSkipped(before, Print(v) + after);
    BlanksSkipped(after, "");
    assert after + "" == after;
    assert Stops(after);
    ParsePrint(v, after);
    hide Print, ParseArray, ParseObject, ParseScalar;
  }

  lemma NestedIsNotNull(t: string)
    requires t != "" && (t[0] == '"' || t[0] == '{' || t[0] == '[')
    ensures ParseValue(t).Ok? ==> ParseValue(t).value != Null
  {
    assert SkipSpace(t) == t;
    if t[0] == '{' {
      hide ParseMembers, ParseItems, ParseStringBody;
      assert ParseValue(t) == ParseObject(t[1..]);
    } else if t[0] == '[' {
      hide ParseMembers, ParseItems, ParseStringBody;
      assert ParseValue(t) == ParseArray(t[1..]);
    } else {
      assert ParseValue(t) == ParseScalar(t);
      hide ParseStringBody;
    }
  }

  /** No other character is white space: before a literal name it makes the text unreadable. */
  lemma OnlyBlanks(c: char)
    ensures ParseText([c] + "null") == Some(Null) <==> IsBlank(c)
  {
    var t := [c] + "null";
    assert t[1..] == "null" && "null" <= "null" && "null"[4..] == "";
    if IsBlank(c) {
      assert SkipSpace(t) == "null";
    } else if c == '"' || c == '{' || c == '[' {
      NestedIsNotNull(t);
      hide ParseValue;
    } else {
      assert SkipSpace(t) == t && t[1] == 'n';
    }
  }
}
