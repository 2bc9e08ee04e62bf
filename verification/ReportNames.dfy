/** The names of the report files: a prefix for the kind, the local time to the second, the milliseconds. */
module ReportNames {
  import opened Numerals
  import opened Json
  import opened ReportStore

  /** A broken-down local time; the milliseconds come from the same clock reading. */
  datatype WallTime = WallTime(year: nat, month: nat, day: nat, hour: nat, minute: nat, second: nat, millis: nat)

  /** The year has four digits; nothing else matters here of what a calendar allows. */
  predicate IsWallTime(t: WallTime) {
    1000 <= t.year < 10000 && t.month < 100 && t.day < 100 && t.hour < 100 && t.minute < 100 && t.second < 100 && t.millis < 1000
  }

  function PrefixOf(kind: Kind): string {
    match kind case Crash => CRASH_PREFIX case Exception => EXCEPTION_PREFIX case Anr => ANR_PREFIX
  }

  function Padded(n: nat, width: nat): string { ZeroPadded(Numeral(n, 10), width) }

  /** `%Y%m%d%H%M%S`. */
  function DateText(t: WallTime): string {
    Numeral(t.year, 10) + (Padded(t.month, 2) + (Padded(t.day, 2) + (Padded(t.hour, 2) + (Padded(t.minute, 2) + Padded(t.second, 2)))))
  }

  function FileName(kind: Kind, t: WallTime): string { PrefixOf(kind) + (DateText(t) + Padded(t.millis, 3)) }

  /** The name built piece by piece, as the stream inserts it. */
  method GenerateTmpFilename(dir: string, kind: Kind, t: WallTime) returns (name: string)
    ensures name == dir + ("/" + FileName(kind, t))
  {
    hide DateText, Padded;
    name := dir;
    name := name + "/";
    name := name + PrefixOf(kind);
    name := name + DateText(t);
    name := name + Padded(t.millis, 3);
    assert name == dir + ("/" + (PrefixOf(kind) + (DateText(t) + Padded(t.millis, 3))));
  }

  // Order of strings and of times

  predicate Less(a: string, b: string) {
    if b == "" then false else if a == "" then true else a[0] < b[0] || (a[0] == b[0] && Less(a[1..], b[1..]))
  }

  predicate Earlier(s: WallTime, t: WallTime) {
    s.year < t.year || (s.year == t.year &&
    (s.month < t.month || (s.month == t.month &&
    (s.day < t.day || (s.day == t.day &&
    (s.hour < t.hour || (s.hour == t.hour &&
    (s.minute < t.minute || (s.minute == t.minute &&
    (s.second < t.second || (s.second == t.second && s.millis < t.millis)))))))))))
  }

  lemma {:induction false} LessConcat(a: string, b: string, x: string, y: string)
    requires |a| == |b|
    ensures Less(a + x, b + y) <==> Less(a, b) || (a == b && Less(x, y))
    decreases |a|
  {
    if a == "" {
      assert a + x == x && b + y == y;
    } else {
      assert (a + x)[1..] == a[1..] + x && (b + y)[1..] == b[1..] + y;
      LessConcat(a[1..], b[1..], x, y);
      assert a == [a[0]] + a[1..] && b == [b[0]] + b[1..];
    }
  }

  // Fixed-width numbers

  function Digits(n: nat, width: nat): (s: string)
    ensures |s| == width
    decreases width
  {
    if width == 0 then "" else Digits(n / 10, width - 1) + [DigitOf(n % 10)]
  }

  lemma {:induction false} DigitsOfZero(width: nat)
    ensures Digits(0, width) == seq(width, _ => '0')
    decreases width
  {
    if width > 0 { DigitsOfZero(width - 1); }
  }

  lemma OneDigit(n: nat, width: nat)
    requires n < 10 && width > 0
    ensures Padded(n, width) == Digits(n, width)
  {
    DigitsOfZero(width - 1);
    assert Digits(n, width) == Digits(0, width - 1) + [DigitOf(n)];
    assert Padded(n, width) == seq(width - 1, _ => '0') + [DigitOf(n)];
  }

  lemma PaddedAppend(m: string, c: char, width: nat)
    requires |m| <= width
    ensures ZeroPadded(m + [c], width + 1) == ZeroPadded(m, width) + [c]
  {
  }

  /** Padding a numeral that fits gives all its digits at a fixed width. */
  lemma {:induction false} PaddedIsDigits(n: nat, width: nat)
    requires n < Power(10, width) && width > 0
    ensures Padded(n, width) == Digits(n, width)
    decreases width
  {
    if n < 10 {
      OneDigit(n, width);
    } else {
      assert Power(10, width) == 10 * Power(10, width - 1);
      assert Power(10, 0) == 1;
      PaddedIsDigits(n / 10, width - 1);
      NumeralLength(n / 10, 10, width - 1);
      hide ZeroPadded, DigitOf, Power;
      PaddedAppend(Numeral(n / 10, 10), DigitOf(n % 10), width - 1);
    }
  }

  lemma {:induction false} DigitsOrder(m: nat, n: nat, width: nat)
    requires m < Power(10, width) && n < Power(10, width)
    ensures Less(Digits(m, width), Digits(n, width)) <==> m < n
    ensures Digits(m, width) == Digits(n, width) <==> m == n
    decreases width
  {
    if width > 0 {
      assert Power(10, width) == 10 * Power(10, width - 1);
      DigitsOrder(m / 10, n / 10, width - 1);
      LessConcat(Digits(m / 10, width - 1), Digits(n / 10, width - 1), [DigitOf(m % 10)], [DigitOf(n % 10)]);
      DigitOrder(m % 10, n % 10);
      var a, b := Digits(m, width), Digits(n, width);
      assert a[..width - 1] == Digits(m / 10, width - 1) && a[width - 1] == DigitOf(m % 10);
      assert b[..width - 1] == Digits(n / 10, width - 1) && b[width - 1] == DigitOf(n % 10);
    }
  }

  lemma DigitOrder(a: nat, b: nat)
    requires a < 10 && b < 10
    ensures Less([DigitOf(a)], [DigitOf(b)]) <==> a < b
    ensures DigitOf(a) == DigitOf(b) <==> a == b
  {
    assert [DigitOf(a)][1..] == "" && [DigitOf(b)][1..] == "";
  }

  // Names

  lemma Powers()
    ensures Power(10, 2) == 100 && Power(10, 3) == 1000 && Power(10, 4) == 10000
  {
  }

  lemma YearIsDigits(year: nat)
    requires 1000 <= year < 10000
    ensures Numeral(year, 10) == Digits(year, 4)
  {
    Powers();
    PaddedIsDigits(year, 4);
    assert |Numeral(year, 10)| == |Numeral(year / 10, 10)| + 1;
    assert |Numeral(year / 10, 10)| == |Numeral(year / 10 / 10, 10)| + 1;
    assert |Numeral(year / 10 / 10, 10)| == |Numeral(year / 10 / 10 / 10, 10)| + 1;
  }

  /** A number at its width decides first, what follows it second. */
  lemma LeadingNumber(m: nat, n: nat, width: nat, x: string, y: string)
    requires m < Power(10, width) && n < Power(10, width)
    ensures Less(Digits(m, width) + x, Digits(n, width) + y) <==> m < n || (m == n && Less(x, y))
    ensures Digits(m, width) + x == Digits(n, width) + y <==> m == n && x == y
  {
    DigitsOrder(m, n, width);
    hide Less, Power;
    LessConcat(Digits(m, width), Digits(n, width), x, y);
    var a, b := Digits(m, width), Digits(n, width);
    hide Digits;
    assert (a + x)[..|a|] == a && (a + x)[|a|..] == x && (b + y)[..|b|] == b && (b + y)[|b|..] == y;
  }

  lemma PaddedNumber(m: nat, n: nat, width: nat, x: string, y: string)
    requires m < Power(10, width) && n < Power(10, width) && width > 0
    ensures Less(Padded(m, width) + x, Padded(n, width) + y) <==> m < n || (m == n && Less(x, y))
    ensures Padded(m, width) + x == Padded(n, width) + y <==> m == n && x == y
  {
    PaddedIsDigits(m, width);
    PaddedIsDigits(n, width);
    hide Padded, Less, Power, Digits;
    LeadingNumber(m, n, width, x, y);
  }

  lemma YearNumber(m: nat, n: nat, x: string, y: string)
    requires 1000 <= m < 10000 && 1000 <= n < 10000
    ensures Less(Numeral(m, 10) + x, Numeral(n, 10) + y) <==> m < n || (m == n && Less(x, y))
    ensures Numeral(m, 10) + x == Numeral(n, 10) + y <==> m == n && x == y
  {
    Powers();
    YearIsDigits(m);
    YearIsDigits(n);
    hide Numeral, Less, Power, Digits;
    LeadingNumber(m, n, 4, x, y);
  }

  /** Date and milliseconds, nested to the right. */
  function Stamp(t: WallTime): string {
    Numeral(t.year, 10) + (Padded(t.month, 2) + (Padded(t.day, 2) + (Padded(t.hour, 2)
    + (Padded(t.minute, 2) + (Padded(t.second, 2) + (Padded(t.millis, 3) + ""))))))
  }

  lemma StampIs(t: WallTime)
    ensures DateText(t) + Padded(t.millis, 3) == Stamp(t)
  {
    hide Numeral, Padded;
  }

  lemma StampsOrdered(s: WallTime, t: WallTime)
    requires IsWallTime(s) && IsWallTime(t)
    ensures Less(Stamp(s), Stamp(t)) <==> Earlier(s, t)
    ensures Stamp(s) == Stamp(t) <==> s == t
  {
    assert !Less("", "");
    Powers();
    hide Power, Padded, Numeral, Less;
    PaddedNumber(s.millis, t.millis, 3, "", "");
    var x, y := Padded(s.millis, 3) + "", Padded(t.millis, 3) + "";
    PaddedNumber(s.second, t.second, 2, x, y);
    x, y := Padded(s.second, 2) + x, Padded(t.second, 2) + y;
    PaddedNumber(s.minute, t.minute, 2, x, y);
    x, y := Padded(s.minute, 2) + x, Padded(t.minute, 2) + y;
    PaddedNumber(s.hour, t.hour, 2, x, y);
    x, y := Padded(s.hour, 2) + x, Padded(t.hour, 2) + y;
    PaddedNumber(s.day, t.day, 2, x, y);
    x, y := Padded(s.day, 2) + x, Padded(t.day, 2) + y;
    PaddedNumber(s.month, t.month, 2, x, y);
    x, y := Padded(s.month, 2) + x, Padded(t.month, 2) + y;
    YearNumber(s.year, t.year, x, y);
  }

  /** Names of one kind are ordered as their times are, and equal only for the same millisecond. */
  lemma NamesOrdered(kind: Kind, s: WallTime, t: WallTime)
    requires IsWallTime(s) && IsWallTime(t)
    ensures Less(FileName(kind, s), FileName(kind, t)) <==> Earlier(s, t)
    ensures FileName(kind, s) == FileName(kind, t) <==> s == t
  {
    StampsOrdered(s, t);
    StampIs(s);
    StampIs(t);
    var p := PrefixOf(kind);
    LessConcat(p, p, Stamp(s), Stamp(t));
    LessIrreflexive(p);
    hide Stamp, Less, Earlier, DateText, Padded;
    assert (p + Stamp(s))[|p|..] == Stamp(s) && (p + Stamp(t))[|p|..] == Stamp(t);
  }

  lemma {:induction false} DigitsRead(n: nat, width: nat)
    requires n < Power(10, width)
    ensures AllDigits(Digits(n, width), 10) && NumeralValue(Digits(n, width), 10) == n
    decreases width
  {
    if width > 0 {
      assert Power(10, width) == 10 * Power(10, width - 1);
      DigitsRead(n / 10, width - 1);
      DigitOfValue(n % 10);
      ValueOfAppend(Digits(n / 10, width - 1), DigitOf(n % 10), 10);
    }
  }

  /** `s` is the number in so many digits. */
  predicate Field(s: string, width: nat, n: nat) { |s| == width && AllDigits(s, 10) && NumeralValue(s, 10) == n }

  lemma PaddedField(n: nat, width: nat)
    requires n < Power(10, width) && width > 0
    ensures Field(Padded(n, width), width, n)
  {
    PaddedIsDigits(n, width);
    DigitsRead(n, width);
    hide Power, Padded, Digits;
  }

  lemma YearField(year: nat)
    requires 1000 <= year < 10000
    ensures Field(Numeral(year, 10), 4, year)
  {
    Powers();
    YearIsDigits(year);
    DigitsRead(year, 4);
    hide Power, Numeral, Digits;
  }

  /** A name tells its kind and its time: the prefix, and seven fields of fixed width. */
  lemma TimeRecovered(kind: Kind, t: WallTime)
    returns (year: string, month: string, day: string, hour: string, minute: string, second: string, millis: string)
    requires IsWallTime(t)
    ensures FileName(kind, t) == (match kind case Crash => "crash-" case Exception => "ex-" case Anr => "anr-")
      + (year + (month + (day + (hour + (minute + (second + millis))))))
    ensures Field(year, 4, t.year) && Field(month, 2, t.month) && Field(day, 2, t.day) && Field(hour, 2, t.hour)
    ensures Field(minute, 2, t.minute) && Field(second, 2, t.second) && Field(millis, 3, t.millis)
  {
    Powers();
    YearField(t.year);
    PaddedField(t.month, 2);
    PaddedField(t.day, 2);
    PaddedField(t.hour, 2);
    PaddedField(t.minute, 2);
    PaddedField(t.second, 2);
    PaddedField(t.millis, 3);
    year, month, day, hour := Numeral(t.year, 10), Padded(t.month, 2), Padded(t.day, 2), Padded(t.hour, 2);
    minute, second, millis := Padded(t.minute, 2), Padded(t.second, 2), Padded(t.millis, 3);
    StampIs(t);
    assert millis + "" == millis;
    hide Numeral, Padded, Power, Field, DateText;
  }

  lemma {:induction false} LessIrreflexive(s: string)
    ensures !Less(s, s)
  {
    if s != "" { LessIrreflexive(s[1..]); }
  }

  /** A name is read back as the kind it was written for, whatever the time; so no two kinds share one. */
  lemma KindRecovered(kind: Kind, t: WallTime)
    ensures KindOf(FileName(kind, t)) == Some(kind)
  {
    hide DateText, Padded;
    var p, name := PrefixOf(kind), FileName(kind, t);
    assert forall i :: 0 <= i < |p| ==> name[i] == p[i];
    assert HasPrefix(name, p);
    PrefixesDisjoint(name);
  }

  lemma KindsDisjoint(k: Kind, l: Kind, s: WallTime, t: WallTime)
    requires k != l
    ensures FileName(k, s) != FileName(l, t)
  {
    hide FileName, KindOf;
    KindRecovered(k, s);
    KindRecovered(l, t);
  }

  /** Beyond four digits the order is lost: the year ten thousand sorts first. */
  lemma FiveDigitYear(kind: Kind, t: WallTime, u: WallTime)
    requires t.year == 9999 && u.year == 10000
    ensures Earlier(t, u) && !Less(FileName(kind, t), FileName(kind, u))
  {
    assert Earlier(t, u);
    var p := PrefixOf(kind);
    StampIs(t);
    StampIs(u);
    LessConcat(p, p, Stamp(t), Stamp(u));
    LessIrreflexive(p);
    FirstOfYear();
    hide Padded, Numeral;
    assert Stamp(t)[0] == Numeral(9999, 10)[0] && Stamp(u)[0] == Numeral(10000, 10)[0];
  }

  lemma FirstOfYear()
    ensures |Numeral(9999, 10)| > 0 && Numeral(9999, 10)[0] == '9'
    ensures |Numeral(10000, 10)| > 0 && Numeral(10000, 10)[0] == '1'
  {
    assert Numeral(9, 10) == "9" && Numeral(99, 10) == Numeral(9, 10) + "9" && Numeral(999, 10) == Numeral(99, 10) + "9";
    assert Numeral(9999, 10) == Numeral(999, 10) + "9";
    assert Numeral(1, 10) == "1" && Numeral(10, 10) == Numeral(1, 10) + "0" && Numeral(100, 10) == Numeral(10, 10) + "0";
    assert Numeral(1000, 10) == Numeral(100, 10) + "0" && Numeral(10000, 10) == Numeral(1000, 10) + "0";
  }
}
