/** Thread state out of /proc: the tokeniser of a thread's stat line, and the walk over the task directory. */
module ThreadCollector {
  import opened Numerals
  import opened Json
  import opened Report
  import opened SizeBound

  // The C library on strings

  function Skip(s: string, delim: char): (r: string)
    ensures |r| <= |s|
  {
    if s != "" && s[0] == delim then Skip(s[1..], delim) else s
  }

  function SpanTo(s: string, delim: char): (k: nat)
    ensures k <= |s|
  {
    if s == "" || s[0] == delim then 0 else 1 + SpanTo(s[1..], delim)
  }

  /** `strtok_r` with one delimiter: the next token, if any, and where to go on. */
  function Strtok(s: string, delim: char): (Option<string>, string) {
    var t := Skip(s, delim);
    if t == "" then (None, "")
    else
      var k := SpanTo(t, delim);
      (Some(t[..k]), if k < |t| then t[k + 1..] else "")
  }

  lemma {:induction false} SkipSplits(s: string, delim: char) returns (k: nat)
    ensures k <= |s| && Skip(s, delim) == s[k..] && (forall i :: 0 <= i < k ==> s[i] == delim)
    ensures k < |s| ==> s[k] != delim
  {
    if s != "" && s[0] == delim {
      k := SkipSplits(s[1..], delim);
      k := k + 1;
    } else {
      k := 0;
    }
  }

  lemma {:induction false} SpanLess(s: string, delim: char)
    ensures forall i :: 0 <= i < SpanTo(s, delim) ==> s[i] != delim
    ensures SpanTo(s, delim) < |s| ==> s[SpanTo(s, delim)] == delim
  {
    if s != "" && s[0] != delim { SpanLess(s[1..], delim); }
  }

  /**
   * What a token is: the first run of characters that are not the delimiter, with only delimiters before it, and
   * the cursor goes past the one that ends it; there is none exactly when nothing but delimiters is left.
   */
  lemma TokenSplits(s: string, delim: char) returns (k: nat)
    ensures k <= |s| && forall i :: 0 <= i < k ==> s[i] == delim
    ensures match Strtok(s, delim)
      case (None, rest) => k == |s| && rest == ""
      case (Some(token), rest) =>
        var end := k + |token|;
        && 0 < |token| && end <= |s| && s[k..end] == token && delim !in token
        && (if end == |s| then rest == "" else s[end] == delim && rest == s[end + 1..])
  {
    k := SkipSplits(s, delim);
    SpanLess(s[k..], delim);
  }

  function DigitCount(s: string): (k: nat)
    ensures k <= |s| && AllDigits(s[..k], 10)
  {
    if s == "" || !IsDigit(s[0], 10) then 0
    else
      var k := DigitCount(s[1..]);
      assert s[..1 + k] == [s[0]] + s[1..][..k];
      1 + k
  }

  function SkipBlank(s: string): string {
    if s != "" && (s[0] == ' ' || '\t' <= s[0] <= '\r') then SkipBlank(s[1..]) else s
  }

  /** Sign and digits at the start of a number, before any clamping. */
  function Scanned(s: string): (bool, nat) {
    var t := SkipBlank(s);
    var negative := t != "" && t[0] == '-';
    var digits := if t != "" && (t[0] == '-' || t[0] == '+') then t[1..] else t;
    (negative, NumeralValue(digits[..DigitCount(digits)], 10))
  }

  /** `strtol`, stored in an `int`. */
  function Strtol(s: string): Int32 {
    var (negative, n) := Scanned(s);
    var value := if negative then (if n > WORD / 2 then -WORD / 2 else 0 - n) else (if n >= WORD / 2 then WORD / 2 - 1 else n);
    (value + INT_LIMIT) % (2 * INT_LIMIT) - INT_LIMIT
  }

  function Strtoull(s: string): Word {
    var (negative, n) := Scanned(s);
    if n >= WORD then WORD - 1 else if negative then (WORD - n) % WORD else n
  }

  // The fields

  predicate IsNameChar(c: char) {
    'A' <= c <= 'Z' || 'a' <= c <= 'z' || '0' <= c <= '9' || c == ' ' || c == '_' || c == '.' || c == ':' || c == '-'
  }

  function NameSpan(s: string): (k: nat)
    ensures k <= |s| && forall i :: 0 <= i < k ==> IsNameChar(s[i])
  {
    if s == "" || !IsNameChar(s[0]) then 0 else 1 + NameSpan(s[1..])
  }

  /** `sscanf` with an opening parenthesis and a non-empty run of name characters. */
  function ScanName(token: string): string {
    if token != "" && token[0] == '(' then token[1..][..NameSpan(token[1..])] else ""
  }

  function StateWord(c: char): string {
    if c == 'r' || c == 'R' then "RUNNING"
    else if c == 's' || c == 'S' || c == 'd' || c == 'D' then "SLEEPING"
    else if c == 'z' || c == 'Z' then "ZOMBIE"
    else if c == 't' || c == 'T' then "STOPPED"
    else if c == 'x' || c == 'X' then "DEAD"
    else if c == 'w' || c == 'W' then "WAKING"
    else if c == 'k' || c == 'K' then "WAKE KILL"
    else if c == 'p' || c == 'P' then "PARKED"
    else "unknown"
  }

  /** The letters each word answers to, in either case; `unknown` answers to all others. */
  predicate Answers(word: string, c: char) {
    && (word == "RUNNING" <==> c in {'r', 'R'})
    && (word == "SLEEPING" <==> c in {'s', 'S', 'd', 'D'})
    && (word == "ZOMBIE" <==> c in {'z', 'Z'})
    && (word == "STOPPED" <==> c in {'t', 'T'})
    && (word == "DEAD" <==> c in {'x', 'X'})
    && (word == "WAKING" <==> c in {'w', 'W'})
    && (word == "WAKE KILL" <==> c in {'k', 'K'})
    && (word == "PARKED" <==> c in {'p', 'P'})
    && (word == "unknown" <==> c !in "rRsSdDzZtTxXwWkKpP")
  }

  lemma StateWords(c: char)
    ensures Answers(StateWord(c), c)
  {
    assert forall d :: d in "rRsSdDzZtTxXwWkKpP" <==>
      d in {'r', 'R', 's', 'S', 'd', 'D', 'z', 'Z', 't', 'T', 'x', 'X', 'w', 'W', 'k', 'K', 'p', 'P'};
  }

  /** The characters of a name, by their codes: letters, digits, and the blank, `_`, `.`, `:` and `-`. */
  lemma NameCharCodes(c: char)
    ensures IsNameChar(c) <==>
      (65 <= c as int <= 90 || 97 <= c as int <= 122 || 48 <= c as int <= 57 || c as int in {32, 95, 46, 58, 45})
  {
  }

  const NAME_SIZE: nat := 32
  const STATE_SIZE: nat := 16

  /** The cursor after `k` more tokens. */
  function After(s: string, k: nat): string
    decreases k
  {
    if k == 0 then s else Strtok(After(s, k - 1), ' ').1
  }

  function TokenAt(s: string, k: nat): Option<string> { Strtok(After(s, k), ' ').0 }

  function Blank(tid: Int32, self: Int32): ThreadInfo { ThreadInfo(tid, "", tid == self, "", 0, 0, None) }

  /** The collected fields, by the position of their tokens: the process id, the name, the state and those after it. */
  function InfoOf(tid: Int32, self: Int32, stat: string): ThreadInfo {
    var (pid, rest) := Strtok(stat, ' ');
    if pid.None? then Blank(tid, self)
    else
      var (name, rest) := Strtok(rest, ')');
      var (state, rest) := Strtok(rest, ' ');
      var priority, stack := TokenAt(rest, 14), TokenAt(rest, 24);
      ThreadInfo(
        tid,
        if name.Some? then FieldCopy(ScanName(name.value), NAME_SIZE) else "",
        tid == self,
        if state.Some? && state.value != "" then FieldCopy(StateWord(state.value[0]), STATE_SIZE) else "",
        if priority.Some? then Strtol(priority.value) else 0,
        if stack.Some? then Strtoull(stack.value) else 0,
        None)
  }

  lemma NoToken(delim: char)
    ensures Strtok("", delim) == (None, "")
  {
  }

  method NextToken(pos: string, delim: char) returns (token: Option<string>, rest: string)
    ensures (token, rest) == Strtok(pos, delim)
  {
    var (t, r) := Strtok(pos, delim);
    return t, r;
  }

  /** The token `k` places after the state. */
  method NextField(pos: string, ghost start: string, ghost k: nat) returns (token: Option<string>, rest: string)
    requires pos == After(start, k)
    ensures token == TokenAt(start, k) && rest == After(start, k + 1)
  {
    token, rest := NextToken(pos, ' ');
  }

  /** The numeric fields after the state, of which two are kept. */
  method ScanFields(start: string) returns (priority: Option<string>, stack: Option<string>)
    ensures priority == TokenAt(start, 14) && stack == TokenAt(start, 24)
  {
    assert start == After(start, 0);
    hide After, TokenAt;
    var token, pos := NextField(start, start, 0);  // ppid
    token, pos := NextField(pos, start, 1);  // pgrp
    token, pos := NextField(pos, start, 2);  // session id
    token, pos := NextField(pos, start, 3);  // tty_nr
    token, pos := NextField(pos, start, 4);  // tty_pgrp
    token, pos := NextField(pos, start, 5);  // flags
    token, pos := NextField(pos, start, 6);  // min_fault
    token, pos := NextField(pos, start, 7);  // cmin_fault
    token, pos := NextField(pos, start, 8);  // maj_fault
    token, pos := NextField(pos, start, 9);  // cmaj_fault
    token, pos := NextField(pos, start, 10);  // utime
    token, pos := NextField(pos, start, 11);  // stime
    token, pos := NextField(pos, start, 12);  // cutime
    token, pos := NextField(pos, start, 13);  // cstime
    token, pos := NextField(pos, start, 14);  // priority
    priority := token;
    token, pos := NextField(pos, start, 15);  // nice
    token, pos := NextField(pos, start, 16);  // num threads
    token, pos := NextField(pos, start, 17);  // itrealvalue
    token, pos := NextField(pos, start, 18);  // start time
    token, pos := NextField(pos, start, 19);  // vsize
    token, pos := NextField(pos, start, 20);  // rss
    token, pos := NextField(pos, start, 21);  // rss limit
    token, pos := NextField(pos, start, 22);  // start code
    token, pos := NextField(pos, start, 23);  // end code
    token, pos := NextField(pos, start, 24);  // start stack
    stack := token;
  }

  method CollectThreadInfo(tid: Int32, self: Int32, stat: string) returns (info: ThreadInfo)
    ensures info == InfoOf(tid, self, stat)
  {
    hide Strtok, ScanName, StateWord, Strtol, Strtoull, FieldCopy, TokenAt;
    NoToken(' ');
    info := Blank(tid, self);
    if stat != "" {
      var token, pos := NextToken(stat, ' ');
      if token.Some? {
        token, pos := NextToken(pos, ')');
        if token.Some? {
          info := info.(name := FieldCopy(ScanName(token.value), NAME_SIZE));
        }
        token, pos := NextToken(pos, ' ');
        if token.Some? && token.value != "" {
          info := info.(state := FieldCopy(StateWord(token.value[0]), STATE_SIZE));
        }
        var priority, stack := ScanFields(pos);
        if priority.Some? {
          info := info.(priority := Strtol(priority.value));
        }
        if stack.Some? {
          info := info.(stack := Strtoull(stack.value));
        }
      }
    }
  }

  // The stat line of proc(5)

  /** `fields` are the fields from the fourth on; the whole line has 52 of them. */
  datatype StatRecord = StatRecord(pid: string, comm: string, state: string, fields: seq<string>)

  predicate IsToken(s: string) { s != "" && forall i :: 0 <= i < |s| ==> s[i] != ' ' }

  predicate IsRecord(r: StatRecord) {
    IsToken(r.pid) && IsToken(r.state) && |r.fields| == 49 && forall i :: 0 <= i < |r.fields| ==> IsToken(r.fields[i])
  }

  function Spaced(fields: seq<string>): string {
    if |fields| == 0 then "" else if |fields| == 1 then fields[0] else fields[0] + (" " + Spaced(fields[1..]))
  }

  function StatLine(r: StatRecord): string {
    r.pid + (" " + ("(" + (r.comm + (")" + (" " + (r.state + (" " + Spaced(r.fields))))))))
  }

  lemma {:induction false} SpanOfToken(token: string, delim: char, tail: string)
    requires forall i :: 0 <= i < |token| ==> token[i] != delim
    ensures SpanTo(token + ([delim] + tail), delim) == |token| && SpanTo(token, delim) == |token|
  {
    if token != "" {
      assert (token + ([delim] + tail))[1..] == token[1..] + ([delim] + tail);
      SpanOfToken(token[1..], delim, tail);
    } else {
      assert token + ([delim] + tail) == [delim] + tail;
    }
  }

  lemma TokenThen(token: string, delim: char, tail: string)
    requires token != "" && forall i :: 0 <= i < |token| ==> token[i] != delim
    ensures Strtok(token + ([delim] + tail), delim) == (Some(token), tail)
    ensures Strtok(token, delim) == (Some(token), "")
  {
    SpanOfToken(token, delim, tail);
    var s := token + ([delim] + tail);
    assert s[0] == token[0];
    assert s[..|token|] == token && s[|token| + 1..] == tail;
    assert token[..|token|] == token;
  }

  lemma SpaceThen(delim: char, s: string)
    requires s == "" || s[0] != delim
    ensures Strtok([delim] + s, delim) == Strtok(s, delim)
  {
    assert ([delim] + s)[1..] == s;
  }

  lemma {:induction false} AfterFields(fields: seq<string>, k: nat)
    requires k < |fields| && forall i :: 0 <= i < |fields| ==> IsToken(fields[i])
    ensures After(Spaced(fields), k) == Spaced(fields[k..])
    ensures TokenAt(Spaced(fields), k) == Some(fields[k])
    decreases k
  {
    hide Strtok;
    if k > 0 {
      AfterFields(fields, k - 1);
      FieldToken(fields[k - 1..]);
      assert fields[k - 1..][1..] == fields[k..];
    }
    FieldToken(fields[k..]);
  }

  lemma FieldToken(fields: seq<string>)
    requires |fields| > 0 && IsToken(fields[0])
    ensures Strtok(Spaced(fields), ' ') == (Some(fields[0]), if |fields| > 1 then Spaced(fields[1..]) else "")
  {
    TokenThen(fields[0], ' ', if |fields| > 1 then Spaced(fields[1..]) else "");
  }

  /** The text of the name token: everything up to the first closing parenthesis. */
  function BeforeParen(comm: string): string { comm[..SpanTo(comm, ')')] }

  /** What follows the name's closing parenthesis. */
  function AfterName(r: StatRecord): string { " " + (r.state + (" " + Spaced(r.fields))) }

  lemma ParenToken(comm: string, end: string) returns (rest: string)
    ensures Strtok("(" + (comm + (")" + end)), ')') == (Some("(" + BeforeParen(comm)), rest)
    ensures (forall i :: 0 <= i < |comm| ==> comm[i] != ')') ==> BeforeParen(comm) == comm && rest == end
  {
    var k := SpanTo(comm, ')');
    SpanLess(comm, ')');
    var token := "(" + comm[..k];
    if k < |comm| {
      rest := comm[k + 1..] + (")" + end);
      assert comm + (")" + end) == comm[..k] + ([')'] + rest);
    } else {
      rest := end;
      assert comm[..k] == comm;
    }
    assert "(" + (comm + (")" + end)) == token + ([')'] + rest);
    hide Strtok;
    TokenThen(token, ')', rest);
  }

  lemma NameToken(r: StatRecord) returns (rest: string)
    requires IsRecord(r)
    ensures Strtok(StatLine(r), ' ').0 == Some(r.pid)
    ensures Strtok(Strtok(StatLine(r), ' ').1, ')') == (Some("(" + BeforeParen(r.comm)), rest)
    ensures (forall i :: 0 <= i < |r.comm| ==> r.comm[i] != ')') ==> BeforeParen(r.comm) == r.comm && rest == AfterName(r)
  {
    hide Strtok, AfterName, BeforeParen;
    TokenThen(r.pid, ' ', "(" + (r.comm + (")" + AfterName(r))));
    assert StatLine(r) == r.pid + (" " + ("(" + (r.comm + (")" + AfterName(r))))) by { LineShape(r); }
    rest := ParenToken(r.comm, AfterName(r));
  }

  lemma LineShape(r: StatRecord)
    ensures StatLine(r) == r.pid + (" " + ("(" + (r.comm + (")" + AfterName(r)))))
  {
  }

  lemma {:induction false} NameSpanAll(s: string)
    ensures NameSpan(s) == |s| <==> forall i :: 0 <= i < |s| ==> IsNameChar(s[i])
  {
    if s != "" {
      NameSpanAll(s[1..]);
      assert forall i :: 1 <= i < |s| ==> s[i] == s[1..][i - 1];
      assert forall i :: 0 <= i < |s| - 1 ==> s[1..][i] == s[i + 1];
    }
  }

  /** The name that is scanned and copied is the whole one exactly when it is accepted and fits. */
  lemma NameCopied(comm: string)
    ensures FieldCopy(ScanName("(" + BeforeParen(comm)), NAME_SIZE) == comm
      <==> |comm| < NAME_SIZE && forall i :: 0 <= i < |comm| ==> IsNameChar(comm[i])
  {
    var before := BeforeParen(comm);
    assert ("(" + before)[1..] == before;
    SpanLess(comm, ')');
    NameSpanAll(comm);
    NameSpanAll(before);
    if |before| < |comm| {
      assert comm[|before|] == ')' && !IsNameChar(')');
    } else {
      assert before == comm;
      assert before[..NameSpan(before)] == before <==> NameSpan(before) == |before|;
    }
  }

  lemma InfoName(tid: Int32, self: Int32, stat: string, name: string)
    requires Strtok(stat, ' ').0.Some? && Strtok(Strtok(stat, ' ').1, ')').0 == Some(name)
    ensures InfoOf(tid, self, stat).name == FieldCopy(ScanName(name), NAME_SIZE)
  {
    hide Strtok, ScanName, StateWord, Strtol, Strtoull, TokenAt, FieldCopy;
  }

  /** The name comes back exactly when it is made of the accepted characters and fits its field. */
  lemma NameRecovered(r: StatRecord, tid: Int32, self: Int32)
    requires IsRecord(r)
    ensures InfoOf(tid, self, StatLine(r)).name == r.comm
      <==> |r.comm| < 32 && forall i :: 0 <= i < |r.comm| ==> IsNameChar(r.comm[i])
  {
    assert NAME_SIZE == 32;
    hide *;
    var rest := NameToken(r);
    InfoName(tid, self, StatLine(r), "(" + BeforeParen(r.comm));
    NameCopied(r.comm);
  }

  lemma InfoOfTokens(tid: Int32, self: Int32, stat: string, afterPid: string, name: string, afterName: string, state: string, fields: string)
    requires Strtok(stat, ' ').0.Some? && Strtok(stat, ' ').1 == afterPid
    requires Strtok(afterPid, ')') == (Some(name), afterName) && Strtok(afterName, ' ') == (Some(state), fields) && state != ""
    ensures var info := InfoOf(tid, self, stat);
      && info.tid == tid && (info.crashed <==> tid == self)
      && info.state == FieldCopy(StateWord(state[0]), STATE_SIZE)
      && (TokenAt(fields, 14).Some? ==> info.priority == Strtol(TokenAt(fields, 14).value))
      && (TokenAt(fields, 24).Some? ==> info.stack == Strtoull(TokenAt(fields, 24).value))
  {
    hide Strtok, ScanName, Strtol, Strtoull, TokenAt, StateWord, FieldCopy;
  }

  /** State, priority and stack are the third, the eighteenth and the twenty-eighth field, whatever the name, but for `)`. */
  lemma FieldsRecovered(r: StatRecord, tid: Int32, self: Int32)
    requires IsRecord(r) && forall i :: 0 <= i < |r.comm| ==> r.comm[i] != ')'
    ensures var info := InfoOf(tid, self, StatLine(r));
      && info.tid == tid && (info.crashed <==> tid == self)
      && Answers(info.state, r.state[0])
      && info.priority == Strtol(r.fields[18 - 4])
      && info.stack == Strtoull(r.fields[28 - 4])
  {
    var rest := NameToken(r);
    hide StatLine, InfoOf, Strtol, Strtoull, After, TokenAt, StateWord, FieldCopy, BeforeParen;
    SpaceThen(' ', r.state + (" " + Spaced(r.fields)));
    TokenThen(r.state, ' ', Spaced(r.fields));
    hide Strtok, Spaced;
    AfterFields(r.fields, 14);
    AfterFields(r.fields, 24);
    StateWordShape(r.state[0]);
    StateWords(r.state[0]);
    hide Answers;
    InfoOfTokens(tid, self, StatLine(r), Strtok(StatLine(r), ' ').1, "(" + BeforeParen(r.comm), rest, r.state, Spaced(r.fields));
  }

  lemma StateWordShape(c: char)
    ensures |StateWord(c)| < STATE_SIZE && Clean(StateWord(c)) && FieldCopy(StateWord(c), STATE_SIZE) == StateWord(c)
  {
  }

  lemma ScanNameShape(token: string)
    ensures Clean(FieldCopy(ScanName(token), NAME_SIZE))
  {
  }

  lemma {:induction false} DigitCountAll(s: string)
    requires AllDigits(s, 10)
    ensures DigitCount(s) == |s|
  {
    if s != "" { DigitCountAll(s[1..]); }
  }

  lemma ScannedDecimal(n: int)
    ensures Scanned(Decimal(n)) == (n < 0, if n < 0 then -n else n)
  {
    var m := if n < 0 then -n else n;
    var digits := Numeral(m, 10);
    NumeralIsDigits(m, 10);
    NumeralRoundTrip(m, 10);
    DigitCountAll(digits);
    assert digits[..|digits|] == digits;
    assert IsDigit(digits[0], 10);
    if n < 0 { assert ("-" + digits)[1..] == digits; }
  }

  /** Reading the kernel's numbers back. */
  lemma NumbersRecovered(priority: Int32, stack: Word)
    ensures Strtol(Decimal(priority)) == priority
    ensures Strtoull(Decimal(stack)) == stack
  {
    ScannedDecimal(priority);
    ScannedDecimal(stack);
    hide Scanned, Decimal;
  }

  lemma {:induction false} DigitCountThen(s: string, rest: string)
    requires AllDigits(s, 10) && (rest == "" || !IsDigit(rest[0], 10))
    ensures DigitCount(s + rest) == |s|
  {
    if s != "" {
      assert (s + rest)[1..] == s[1..] + rest;
      DigitCountThen(s[1..], rest);
    } else {
      assert s + rest == rest;
    }
  }

  lemma {:induction false} BlanksSkipped(blanks: string, s: string)
    requires forall i :: 0 <= i < |blanks| ==> blanks[i] == ' ' || '\t' <= blanks[i] <= '\r'
    requires s != "" && s[0] > ' '
    ensures SkipBlank(blanks + s) == s
  {
    if blanks != "" {
      assert (blanks + s)[1..] == blanks[1..] + s;
      BlanksSkipped(blanks[1..], s);
    } else {
      assert blanks + s == s;
    }
  }

  lemma ScannedDigits(s: string, t: string, digits: string, rest: string)
    requires SkipBlank(s) == t && AllDigits(digits, 10) && digits != "" && (rest == "" || !IsDigit(rest[0], 10))
    ensures t == digits + rest ==> Scanned(s) == (false, NumeralValue(digits, 10))
    ensures t == "-" + (digits + rest) ==> Scanned(s) == (true, NumeralValue(digits, 10))
  {
    DigitCountThen(digits, rest);
    assert (digits + rest)[..|digits|] == digits && ("-" + (digits + rest))[1..] == digits + rest;
    assert IsDigit(digits[0], 10) && (digits + rest)[0] == digits[0];
    hide NumeralValue, AllDigits, SkipBlank;
  }

  /** White space before a number and what follows its digits do not matter. */
  lemma ScannedAmid(blanks: string, n: int, rest: string)
    requires forall i :: 0 <= i < |blanks| ==> blanks[i] == ' ' || '\t' <= blanks[i] <= '\r'
    requires rest == "" || !IsDigit(rest[0], 10)
    ensures Scanned(blanks + (Decimal(n) + rest)) == (n < 0, if n < 0 then -n else n)
  {
    var m := if n < 0 then -n else n;
    var digits := Numeral(m, 10);
    NumeralIsDigits(m, 10);
    NumeralRoundTrip(m, 10);
    assert IsDigit(digits[0], 10);
    hide Scanned, Numeral, NumeralValue, SkipBlank;
    if n < 0 { Assoc("-", digits, rest); }
    var t := Decimal(n) + rest;
    assert t[0] == (if n < 0 then '-' else digits[0]);
    BlanksSkipped(blanks, t);
    ScannedDigits(blanks + t, t, digits, rest);
  }

  lemma Halves(v: int)
    ensures var r := (v + INT_LIMIT) % (2 * INT_LIMIT) - INT_LIMIT; (v - r) % 0x1_0000_0000 == 0
  {
  }

  /** `strtol` keeps the low half of a `long`, which is what a number beyond it is clamped to. */
  lemma StrtolReads(blanks: string, n: int, rest: string)
    requires forall i :: 0 <= i < |blanks| ==> blanks[i] == ' ' || '\t' <= blanks[i] <= '\r'
    requires rest == "" || !IsDigit(rest[0], 10)
    ensures var r := Strtol(blanks + (Decimal(n) + rest));
      && (-WORD / 2 <= n < WORD / 2 ==> (n - r) % 0x1_0000_0000 == 0)
      && (n >= WORD / 2 ==> r == -1) && (n < -WORD / 2 ==> r == 0)
  {
    ScannedAmid(blanks, n, rest);
    hide Scanned, Decimal;
    Halves(n);
    StrtolOf(blanks + (Decimal(n) + rest), n);
  }

  lemma StrtolOf(s: string, n: int)
    requires Scanned(s) == (n < 0, if n < 0 then -n else n)
    ensures -WORD / 2 <= n < WORD / 2 ==> Strtol(s) == (n + INT_LIMIT) % (2 * INT_LIMIT) - INT_LIMIT
    ensures n >= WORD / 2 ==> Strtol(s) == -1
    ensures n < -WORD / 2 ==> Strtol(s) == 0
  {
    hide Scanned;
  }

  lemma StrtoullReads(blanks: string, n: int, rest: string)
    requires forall i :: 0 <= i < |blanks| ==> blanks[i] == ' ' || '\t' <= blanks[i] <= '\r'
    requires rest == "" || !IsDigit(rest[0], 10)
    ensures var r := Strtoull(blanks + (Decimal(n) + rest));
      if -WORD < n < WORD then (r - n) % WORD == 0 else r == WORD - 1
  {
    ScannedAmid(blanks, n, rest);
    hide Scanned, Decimal;
  }

  // Reading the file

  const LINE_MAX: nat := 1023

  /** `fgets` into 1024 characters. */
  function FirstLine(file: string): string {
    var k := SpanTo(file, '\n');
    var line := if k < |file| then file[..k + 1] else file;
    if |line| <= LINE_MAX then line else line[..LINE_MAX]
  }

  predicate IsTrailing(c: char) { c == '\n' || c == '\r' || c == '\t' || c == ' ' }

  function Trimmed(s: string): string {
    if |s| > 1 && IsTrailing(s[|s| - 1]) then Trimmed(s[..|s| - 1]) else s
  }

  function ReadStat(file: string): string { Trimmed(FirstLine(file)) }

  /** The kernel's line, when it fits the read buffer, is what the tokeniser sees. */
  lemma StatRead(line: string)
    requires line != "" && |line| < LINE_MAX && !IsTrailing(line[|line| - 1])
    requires forall i :: 0 <= i < |line| ==> line[i] != '\n'
    ensures ReadStat(line + "\n") == line
  {
    SpanOfToken(line, '\n', "");
    assert line + (['\n'] + "") == line + "\n";
    assert (line + "\n")[..|line| + 1] == line + "\n";
    assert (line + "\n")[..|line|] == line && (line + "\n")[|line|] == '\n';
    assert FirstLine(line + "\n") == line + "\n";
    assert Trimmed(line) == line;
  }

  lemma {:induction false} TrimmedSays(s: string)
    ensures Trimmed(s) <= s && (|Trimmed(s)| > 1 ==> !IsTrailing(Trimmed(s)[|Trimmed(s)| - 1]))
    ensures forall i :: |Trimmed(s)| <= i < |s| ==> IsTrailing(s[i])
  {
    if |s| > 1 && IsTrailing(s[|s| - 1]) { TrimmedSays(s[..|s| - 1]); }
  }

  lemma FirstLineSays(file: string)
    ensures var line := FirstLine(file);
      && line <= file && |line| <= 1023 && (forall i :: 0 <= i < |line| - 1 ==> file[i] != '\n')
      && (|line| < |file| && |line| < 1023 ==> |line| > 0 && file[|line| - 1] == '\n')
  {
    SpanLess(file, '\n');
  }

  lemma Trailing(c: char)
    ensures IsTrailing(c) <==> c in {' ', '\t', '\r', '\n'}
  {
  }

  /**
   * Of any file the tokeniser sees the first line, up to 1023 characters of it, less the white space at its end; one
   * character always stays.
   */
  lemma StatSeen(file: string)
    ensures var r := ReadStat(file);
      && r <= file && |r| <= 1023 && (|r| > 1 ==> r[|r| - 1] !in {' ', '\t', '\r', '\n'})
      && (forall i :: 0 <= i < |r| - 1 ==> r[i] != '\n')
      && (forall i :: |r| <= i < |file| && i < 1023 && (forall j :: 0 <= j < i ==> file[j] != '\n') ==> file[i] in {' ', '\t', '\r', '\n'})
  {
    var line, r := FirstLine(file), ReadStat(file);
    assert r == Trimmed(line);
    hide *;
    TrimmedSays(line);
    FirstLineSays(file);
    assert |line| > 0 ==> line[|line| - 1] == file[|line| - 1];
    forall c: char ensures IsTrailing(c) <==> c in {' ', '\t', '\r', '\n'} { Trailing(c); }
    forall i | |r| <= i < |file| && i < 1023 && (forall j :: 0 <= j < i ==> file[j] != '\n')
      ensures file[i] in {' ', '\t', '\r', '\n'}
    {
      assert IsTrailing(line[i]);
    }
  }

  // The task directory

  /** A directory entry and the content of its stat file, empty when it could not be read. */
  datatype TaskEntry = TaskEntry(name: string, file: string)

  predicate IsTask(e: TaskEntry) { e.name != "" && IsDigit(e.name[0], 10) }

  function TaskId(e: TaskEntry): Int32 { Strtol(e.name) }

  /** The stack goes to the crashed thread, if the unwinder recorded any frame. */
  function TaskInfo(e: TaskEntry, self: Int32, frames: seq<Word>): ThreadInfo {
    var info := InfoOf(TaskId(e), self, ReadStat(e.file));
    if info.crashed && |frames| > 0 then info.(frames := Some(frames)) else info
  }

  // From the kernel's record to the thread's info

  /** The fields hold no blanks of any kind, as the kernel prints them. */
  predicate IsPrinted(r: StatRecord) {
    && IsRecord(r) && '\n' !in r.pid && '\n' !in r.comm && '\n' !in r.state
    && forall i :: 0 <= i < |r.fields| ==> '\n' !in r.fields[i] && !IsTrailing(r.fields[i][|r.fields[i]| - 1])
  }

  lemma {:induction false} SpacedEnd(fields: seq<string>)
    requires |fields| > 0 && forall i :: 0 <= i < |fields| ==> IsToken(fields[i]) && '\n' !in fields[i]
    ensures '\n' !in Spaced(fields) && Spaced(fields) != ""
    ensures var last := fields[|fields| - 1]; last != "" && Spaced(fields)[|Spaced(fields)| - 1] == last[|last| - 1]
  {
    if |fields| > 1 { SpacedEnd(fields[1..]); }
  }

  lemma LineEnd(r: StatRecord)
    requires IsPrinted(r)
    ensures '\n' !in StatLine(r) && StatLine(r) != "" && !IsTrailing(StatLine(r)[|StatLine(r)| - 1])
  {
    SpacedEnd(r.fields);
    hide Spaced;
    assert StatLine(r)[|StatLine(r)| - 1] == Spaced(r.fields)[|Spaced(r.fields)| - 1];
  }

  /** What the tokeniser reads in the file of a record is the record's line. */
  lemma RecordRead(r: StatRecord)
    requires IsPrinted(r) && |StatLine(r)| < LINE_MAX
    ensures ReadStat(StatLine(r) + "\n") == StatLine(r)
  {
    LineEnd(r);
    var line := StatLine(r);
    hide StatLine, ReadStat;
    forall i | 0 <= i < |line| ensures line[i] != '\n' { assert line[i] in line; }
    StatRead(line);
  }

  lemma NoParenInName(comm: string)
    requires forall i :: 0 <= i < |comm| ==> IsNameChar(comm[i])
    ensures forall i :: 0 <= i < |comm| ==> comm[i] != ')'
  {
  }

  /** The stat file the kernel prints for a thread gives exactly the thread's info, for every accepted name. */
  lemma TaskRecovered(r: StatRecord, tid: Int32, priority: Int32, stack: Word, self: Int32, frames: seq<Word>)
    requires IsPrinted(r) && |StatLine(r)| < LINE_MAX
    requires |r.comm| < NAME_SIZE && forall i :: 0 <= i < |r.comm| ==> IsNameChar(r.comm[i])
    requires r.fields[18 - 4] == Decimal(priority) && r.fields[28 - 4] == Decimal(stack)
    ensures var info := TaskInfo(TaskEntry(Decimal(tid), StatLine(r) + "\n"), self, frames);
      && info == ThreadInfo(tid, r.comm, tid == self, info.state, priority, stack,
           if tid == self && |frames| > 0 then Some(frames) else None)
      && Answers(info.state, r.state[0])
  {
    RecordRead(r);
    NumbersRecovered(tid, stack);
    NumbersRecovered(priority, stack);
    NoParenInName(r.comm);
    hide StatLine, ReadStat, InfoOf, StateWord, Answers, Strtol, Strtoull, Decimal, IsPrinted, IsNameChar;
    assert IsRecord(r) by { PrintedIsRecord(r); }
    NameRecovered(r, tid, self);
    FieldsRecovered(r, tid, self);
    InfoShape(tid, self, StatLine(r));
  }

  lemma PrintedIsRecord(r: StatRecord)
    requires IsPrinted(r)
    ensures IsRecord(r)
  {
  }

  function Tasks(entries: seq<TaskEntry>): seq<TaskEntry> {
    if |entries| == 0 then []
    else Tasks(entries[..|entries| - 1]) + (if IsTask(entries[|entries| - 1]) then [entries[|entries| - 1]] else [])
  }

  lemma {:induction false} TasksJoin(a: seq<TaskEntry>, b: seq<TaskEntry>)
    ensures Tasks(a + b) == Tasks(a) + Tasks(b)
  {
    if |b| == 0 {
      assert a + b == a;
    } else {
      assert (a + b)[..|a + b| - 1] == a + b[..|b| - 1];
      TasksJoin(a, b[..|b| - 1]);
    }
  }

  /** The walk takes the entries whose names begin with a digit, and each where it stands. */
  lemma TasksAre(before: seq<TaskEntry>, e: TaskEntry, after: seq<TaskEntry>)
    ensures Tasks(before + [e] + after)
         == Tasks(before) + (if e.name != "" && '0' <= e.name[0] <= '9' then [e] else []) + Tasks(after)
  {
    TasksJoin(before + [e], after);
    TasksJoin(before, [e]);
    assert Tasks([e][..0]) == [];
  }

  function TaskInfos(tasks: seq<TaskEntry>, self: Int32, frames: seq<Word>): (r: seq<ThreadInfo>)
    ensures |r| == |tasks| && forall i :: 0 <= i < |r| ==> r[i] == TaskInfo(tasks[i], self, frames)
  {
    seq(|tasks|, i requires 0 <= i < |tasks| => TaskInfo(tasks[i], self, frames))
  }

  lemma TaskInfosAppend(tasks: seq<TaskEntry>, task: TaskEntry, self: Int32, frames: seq<Word>)
    ensures TaskInfos(tasks + [task], self, frames) == TaskInfos(tasks, self, frames) + [TaskInfo(task, self, frames)]
  {
    hide TaskInfo;
  }

  function Collected(entries: seq<TaskEntry>, self: Int32, frames: seq<Word>): seq<ThreadInfo> {
    var tasks := Tasks(entries);
    TaskInfos(if |tasks| <= THREADS_MAX then tasks else tasks[..THREADS_MAX], self, frames)
  }

  method CollectThreadState(entries: seq<TaskEntry>, self: Int32, frames: seq<Word>) returns (threads: seq<ThreadInfo>)
    ensures threads == Collected(entries, self, frames)
  {
    hide InfoOf, Strtol, ReadStat, TaskInfos;
    assert TaskInfos([], self, frames) == [];
    threads := [];
    var i := 0;
    while i < |entries| && |threads| < THREADS_MAX
      invariant 0 <= i <= |entries| && |threads| <= THREADS_MAX
      invariant threads == TaskInfos(Tasks(entries[..i]), self, frames)
    {
      assert entries[..i + 1][..i] == entries[..i];
      if entries[i].name != "" && IsDigit(entries[i].name[0], 10) {
        var tid := Strtol(entries[i].name);
        var info := CollectThreadInfo(tid, self, ReadStat(entries[i].file));
        if info.crashed && |frames| > 0 {
          info := info.(frames := Some(frames));
        }
        TaskInfosAppend(Tasks(entries[..i]), entries[i], self, frames);
        threads := threads + [info];
      }
      i := i + 1;
    }
    TasksPrefix(entries, i);
    assert entries[..|entries|] == entries;
  }

  lemma {:induction false} TasksPrefix(entries: seq<TaskEntry>, k: nat)
    requires k <= |entries|
    ensures Tasks(entries[..k]) <= Tasks(entries)
    decreases |entries| - k
  {
    if k < |entries| {
      assert entries[..k + 1][..k] == entries[..k];
      TasksPrefix(entries, k + 1);
    } else {
      assert entries[..k] == entries;
    }
  }

  // What every collected state satisfies

  predicate DistinctIds(tasks: seq<TaskEntry>) {
    forall i, j :: 0 <= i < j < |tasks| ==> TaskId(tasks[i]) != TaskId(tasks[j])
  }

  lemma InfoShape(tid: Int32, self: Int32, stat: string)
    ensures var info := InfoOf(tid, self, stat);
      && |info.name| < NAME_SIZE && |info.state| < STATE_SIZE
      && info.frames.None? && info.tid == tid && (info.crashed <==> tid == self)
      && Clean(info.name) && Clean(info.state)
  {
    hide Strtok, Strtol, Strtoull, After, ScanName, StateWord, Clean;
    assert Clean("") by { NoCharacters(); }
    var (pid, rest) := Strtok(stat, ' ');
    var (name, rest') := Strtok(rest, ')');
    var (state, rest'') := Strtok(rest', ' ');
    if name.Some? { ScanNameShape(name.value); }
    if state.Some? && state.value != "" { StateWordShape(state.value[0]); }
  }

  lemma NoCharacters()
    ensures Clean("")
  {
  }

  /** Names and states need no assumption: the tokeniser only lets clean, bounded ones through. */
  lemma CollectedShape(entries: seq<TaskEntry>, self: Int32, frames: seq<Word>)
    requires |frames| <= FRAMES_MAX
    ensures |Collected(entries, self, frames)| <= 100
    ensures forall i :: 0 <= i < |Collected(entries, self, frames)| ==>
      ThreadWidths(Collected(entries, self, frames)[i])
      && Clean(Collected(entries, self, frames)[i].name) && Clean(Collected(entries, self, frames)[i].state)
  {
    hide InfoOf, Clean;
    var threads := Collected(entries, self, frames);
    var tasks := Tasks(entries);
    forall i | 0 <= i < |threads| ensures ThreadWidths(threads[i]) && Clean(threads[i].name) && Clean(threads[i].state) {
      InfoShape(TaskId(tasks[i]), self, ReadStat(tasks[i].file));
    }
  }

  lemma {:induction false} NoCarrier(threads: seq<ThreadInfo>)
    requires forall i :: 0 <= i < |threads| ==> threads[i].frames.None?
    ensures Carriers(threads) == 0
  {
    if |threads| > 0 { NoCarrier(threads[1..]); }
  }

  lemma {:induction false} OneCarrier(threads: seq<ThreadInfo>, self: Int32)
    requires forall i, j :: 0 <= i < j < |threads| ==> threads[i].tid != threads[j].tid
    requires forall i :: 0 <= i < |threads| && threads[i].frames.Some? ==> threads[i].tid == self
    ensures Carriers(threads) <= 1
  {
    if |threads| > 0 {
      if threads[0].frames.Some? { NoCarrier(threads[1..]); } else { OneCarrier(threads[1..], self); }
    }
  }

  /** Thread ids being distinct, only the crashed thread carries the stack. */
  lemma CollectedCarriers(entries: seq<TaskEntry>, self: Int32, frames: seq<Word>)
    requires DistinctIds(Tasks(entries))
    ensures Carriers(Collected(entries, self, frames)) <= 1
  {
    hide InfoOf, Strtol;
    var threads := Collected(entries, self, frames);
    var tasks := Tasks(entries);
    forall i | 0 <= i < |threads| ensures threads[i].tid == TaskId(tasks[i]) && (threads[i].frames.Some? ==> threads[i].tid == self) {
      InfoShape(TaskId(tasks[i]), self, ReadStat(tasks[i].file));
    }
    OneCarrier(threads, self);
  }
}
