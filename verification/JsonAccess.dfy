/** The accessors of `org.json` that the readers use, on the values the parser yields. */
module JsonAccess {
  import opened Numerals
  import opened Json

  const LONG_LIMIT: int := 0x8000_0000_0000_0000

  /** A repeated key keeps its last value. */
  function Lookup(members: seq<Member>, key: string): Option<Json> {
    if |members| == 0 then None
    else if members[|members| - 1].key == key then Some(members[|members| - 1].value)
    else Lookup(members[..|members| - 1], key)
  }

  lemma {:induction false} LookupAt(members: seq<Member>, i: nat, key: string)
    requires i < |members| && members[i].key == key
    requires forall j :: i < j < |members| ==> members[j].key != key
    ensures Lookup(members, key) == Some(members[i].value)
    decreases |members|
  {
    if i < |members| - 1 { LookupAt(members[..|members| - 1], i, key); }
  }

  lemma {:induction false} LookupMissing(members: seq<Member>, key: string)
    requires forall j :: 0 <= j < |members| ==> members[j].key != key
    ensures Lookup(members, key) == None
  {
    if |members| > 0 { LookupMissing(members[..|members| - 1], key); }
  }

  predicate IsLast(members: seq<Member>, key: string, i: nat) {
    i < |members| && members[i].key == key && forall j :: i < j < |members| ==> members[j].key != key
  }

  /** A key is found exactly when some member has it, and then it is the last such member's value. */
  lemma LookupIff(members: seq<Member>, key: string)
    ensures Lookup(members, key).None? <==> forall j :: 0 <= j < |members| ==> members[j].key != key
    ensures forall i: nat :: IsLast(members, key, i) ==> Lookup(members, key) == Some(members[i].value)
  {
    forall i: nat | IsLast(members, key, i) ensures Lookup(members, key) == Some(members[i].value) { LookupAt(members, i, key); }
    if k :| 0 <= k < |members| && members[k].key == key {
      var i := LastWith(members, key, k);
    } else {
      LookupMissing(members, key);
    }
  }

  lemma LastWith(members: seq<Member>, key: string, k: nat) returns (i: nat)
    requires k < |members| && members[k].key == key
    ensures IsLast(members, key, i)
    decreases |members| - k
  {
    i := k;
    if j :| k < j < |members| && members[j].key == key { i := LastWith(members, key, j); }
  }

  predicate IsInteger(lexeme: string) {
    var digits := if lexeme != "" && lexeme[0] == '-' then lexeme[1..] else lexeme;
    digits != "" && AllDigits(digits, 10)
  }

  function IntegerValue(lexeme: string): int
    requires IsInteger(lexeme)
  {
    if lexeme[0] == '-' then 0 - NumeralValue(lexeme[1..], 10) else NumeralValue(lexeme, 10)
  }

  function Clamp(n: int, limit: int): int
    requires limit > 0
  {
    if n >= limit then limit - 1 else if n < -limit then -limit else n
  }

  /** Numbers beyond 64 bits are held as doubles, which convert to the nearest `long`. */
  function AsLong(v: Option<Json>): Option<int> {
    match v
    case Some(Number(lexeme)) => if IsInteger(lexeme) then Some(Clamp(IntegerValue(lexeme), LONG_LIMIT)) else None
    case _ => None
  }

  /** A `long` keeps its low 32 bits, a double converts to the nearest `int`. */
  function AsInt(v: Option<Json>): Option<int> {
    match v
    case Some(Number(lexeme)) =>
      if !IsInteger(lexeme) then None
      else
        var n := IntegerValue(lexeme);
        if -LONG_LIMIT <= n < LONG_LIMIT then Some((n + INT_LIMIT) % (2 * INT_LIMIT) - INT_LIMIT)
        else Some(Clamp(n, INT_LIMIT))
    case _ => None
  }

  /** `toString()` of a value: a string is its own characters, anything else its JSON text. */
  function TextOf(v: Json): string {
    if v.String? then v.s else Print(v)
  }

  function AsString(v: Option<Json>): Option<string> {
    match v case Some(value) => Some(TextOf(value)) case None => None
  }

  function AsObject(v: Option<Json>): Option<seq<Member>> {
    match v case Some(Object(members)) => Some(members) case _ => None
  }

  function AsArray(v: Option<Json>): Option<seq<Json>> {
    match v case Some(Array(items)) => Some(items) case _ => None
  }

  function Or<T>(v: Option<T>, fallback: T): T { match v case Some(value) => value case None => fallback }

  function OptLong(members: seq<Member>, key: string, fallback: int): int { Or(AsLong(Lookup(members, key)), fallback) }

  function OptInt(members: seq<Member>, key: string, fallback: int): int { Or(AsInt(Lookup(members, key)), fallback) }

  function OptString(members: seq<Member>, key: string, fallback: string): string {
    Or(AsString(Lookup(members, key)), fallback)
  }

  function OptBoolean(members: seq<Member>, key: string, fallback: bool): bool {
    match Lookup(members, key) case Some(Bool(b)) => b case _ => fallback
  }

  lemma IntegerOfDecimal(n: int)
    ensures IsInteger(Decimal(n)) && IntegerValue(Decimal(n)) == n
  {
    var m := if n < 0 then -n else n;
    var digits := Numeral(m, 10);
    NumeralIsDigits(m, 10);
    NumeralRoundTrip(m, 10);
    assert digits[0] != '-' by { assert IsDigit(digits[0], 10); }
    assert ("-" + digits)[1..] == digits;
  }

  /** Printed integers come back whole, up to the range of the type they are read into. */
  lemma PrintedInteger(n: int)
    ensures AsLong(Some(Number(Decimal(n)))) == Some(Clamp(n, LONG_LIMIT))
    ensures -LONG_LIMIT <= n < LONG_LIMIT ==> AsLong(Some(Number(Decimal(n)))) == Some(n)
    ensures -INT_LIMIT <= n < INT_LIMIT ==> AsInt(Some(Number(Decimal(n)))) == Some(n)
  {
    IntegerOfDecimal(n);
    hide IsInteger, IntegerValue, Decimal;
  }

  /** A `long` read as an `int` keeps its low half; beyond a `long` it is the nearest `int`. */
  lemma PrintedInt(n: int)
    ensures var i := AsInt(Some(Number(Decimal(n))));
      && i.Some? && -0x8000_0000 <= i.value < 0x8000_0000
      && (-LONG_LIMIT <= n < LONG_LIMIT ==> (n - i.value) % 0x1_0000_0000 == 0)
      && (n >= LONG_LIMIT ==> i.value == 0x7FFF_FFFF) && (n < -LONG_LIMIT ==> i.value == -0x8000_0000)
  {
    IntegerOfDecimal(n);
    hide IsInteger, IntegerValue, Decimal;
  }

  /** The text of a string is the string; that of any other well-formed value parses to it. */
  lemma TextReads(v: Json)
    requires WellFormed(v)
    ensures if v.String? then TextOf(v) == v.s else ParseText(TextOf(v)) == Some(v)
  {
    TextRoundTrip(v);
    hide Print, ParseText;
  }
}
