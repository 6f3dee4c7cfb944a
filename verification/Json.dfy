/** The JSON printer and parser: strings are copied as they are, without escapes. */
module Json {
  import opened Options
  import opened Decimals

  datatype Value =
    | Undefined
    | Null
    | Boolean(b: bool)
    | Number(n: int)
    | Numeral(text: string)  // the double that the C library reads from `text`
    | Text(s: string)
    | List(items: seq<Value>)
    | Record(members: seq<Member>)

  datatype Member = Member(key: string, value: Value)

  // ------------------------------------------------------------------ printing

  /** What the C library prints for the double that it reads from a text. */
  type Shown = string -> string

  function PrintInt(n: int): string {
    if n < 0 then "-" + Decimal(-n) else Decimal(n)
  }

  function Print(g: Shown, v: Value): (s: string)
    decreases v
  {
    match v
    case Undefined => "null"
    case Null => "null"
    case Boolean(b) => if b then "true" else "false"
    case Number(n) => PrintInt(n)
    case Numeral(text) => g(text)
    case Text(s) => "\"" + s + "\""
    case List(items) => "[" + PrintItems(g, items, true) + "]"
    case Record(members) => "{" + PrintMembers(g, members, true) + "}"
  }

  function PrintItems(g: Shown, items: seq<Value>, first: bool): string
    decreases items
  {
    if |items| == 0 then ""
    else (if first then "" else ",") + Print(g, items[0]) + PrintItems(g, items[1..], false)
  }

  function PrintMembers(g: Shown, ms: seq<Member>, first: bool): string
    decreases ms
  {
    if |ms| == 0 then ""
    else
      (if first then "" else ",") + "\"" + ms[0].key + "\":" + Print(g, ms[0].value)
      + PrintMembers(g, ms[1..], false)
  }

  // ------------------------------------------------------------------- parsing

  predicate IsSpace(c: char) { c == ' ' || c == '\n' || c == '\r' || c == '\t' }

  function SkipSpace(s: string): (r: string)
    ensures |r| <= |s| && (r == "" || !IsSpace(r[0]))
  {
    if |s| > 0 && IsSpace(s[0]) then SkipSpace(s[1..]) else s
  }

  function SkipColon(s: string): (r: string)
    ensures |r| <= |s|
  {
    if |s| > 0 && (s[0] == ' ' || s[0] == ':') then SkipColon(s[1..]) else s
  }

  /** Characters before the next quote. */
  function ToQuote(s: string): (n: nat)
    ensures n <= |s| && (n < |s| ==> s[n] == '"')
  {
    if |s| == 0 || s[0] == '"' then 0 else 1 + ToQuote(s[1..])
  }

  /** A quoted text and what follows it; a missing closing quote is tolerated. */
  function Quoted(s: string): (r: (string, string))
    ensures |r.1| <= |s|
  {
    var n := ToQuote(s);
    (s[..n], if n < |s| then s[n + 1..] else "")
  }

  predicate StartsWith(s: string, w: string) { |w| <= |s| && s[..|w|] == w }

  // ------------------------------------------------------------------- numbers

  predicate IsHex(c: char) { IsDigit(c) || 'a' <= Lower(c) <= 'f' }

  function Lower(c: char): char { if 'A' <= c <= 'Z' then c - 'A' + 'a' else c }

  /** Text that begins with the word `w`, in upper or lower case. */
  predicate StartsLike(s: string, w: string) {
    |w| <= |s| && forall i :: 0 <= i < |w| ==> Lower(s[i]) == w[i]
  }

  /** How many characters at the beginning are digits. */
  function DigitRun(s: string, hex: bool): (n: nat)
    ensures n <= |s| && (n > 0 <==> |s| > 0 && (IsDigit(s[0]) || (hex && IsHex(s[0]))))
  {
    if |s| > 0 && (IsDigit(s[0]) || (hex && IsHex(s[0]))) then 1 + DigitRun(s[1..], hex) else 0
  }

  /** Digits with at most one point among them or around them; none if there is no digit. */
  function Mantissa(s: string, hex: bool): (n: nat)
    ensures n <= |s|
  {
    var n := DigitRun(s, hex);
    if n < |s| && s[n] == '.' && (n > 0 || DigitRun(s[1..], hex) > 0) then n + 1 + DigitRun(s[n + 1..], hex) else n
  }

  /** The letter, a sign perhaps, and at least one digit. */
  function Exponent(s: string, letter: char): (n: nat)
    ensures n <= |s|
  {
    if |s| > 0 && Lower(s[0]) == letter then
      var k := if |s| > 1 && (s[1] == '+' || s[1] == '-') then 2 else 1;
      var n := DigitRun(s[k..], false);
      if n > 0 then k + n else 0
    else 0
  }

  function NameRun(s: string): (n: nat)
    ensures n <= |s|
  {
    if |s| > 0 && (IsDigit(s[0]) || 'a' <= Lower(s[0]) <= 'z' || s[0] == '_') then 1 + NameRun(s[1..]) else 0
  }

  /** The name in brackets that may follow `nan`. */
  function Payload(s: string): (n: nat)
    ensures n <= |s|
  {
    if |s| > 0 && s[0] == '(' then
      var n := NameRun(s[1..]);
      if n + 1 < |s| && s[n + 1] == ')' then n + 2 else 0
    else 0
  }

  /** How many characters `strtod` takes, behind the sign. */
  function Unsigned(s: string): (n: nat)
    ensures n <= |s|
  {
    if StartsLike(s, "infinity") then 8
    else if StartsLike(s, "inf") then 3
    else if StartsLike(s, "nan") then 3 + Payload(s[3..])
    else
      var m := if StartsLike(s, "0x") then Mantissa(s[2..], true) else 0;
      if m > 0 then 2 + m + Exponent(s[2 + m..], 'p')
      else
        var n := Mantissa(s, false);
        if n > 0 then n + Exponent(s[n..], 'e') else 0
  }

  /** How many characters `strtod` takes; nothing, the sign included, where no number begins. */
  function Span(s: string): (n: nat)
    ensures n <= |s|
  {
    if |s| > 0 && s[0] == '-' then
      var n := Unsigned(s[1..]);
      if n > 0 then 1 + n else 0
    else Unsigned(s)
  }

  /** The number that a text is: an integer if it is nothing but digits and a sign. */
  function Reading(s: string): Value {
    var digits := if |s| > 0 && s[0] == '-' then s[1..] else s;
    if DigitRun(digits, false) == |digits| then
      var n := ReadDigits(digits, 0).0;
      Number(if |s| > 0 && s[0] == '-' then 0 - n as int else n as int)
    else Numeral(s)
  }

  /** Text with which a number begins, behind its sign. */
  predicate BeginsNumber(s: string) {
    || StartsLike(s, "inf") || StartsLike(s, "nan")
    || (|s| > 0 && IsDigit(s[0]))
    || (|s| > 1 && s[0] == '.' && IsDigit(s[1]))
  }

  lemma DigitBegins(s: string)
    ensures |s| > 0 && IsDigit(s[0]) ==> BeginsNumber(s)
  {
  }

  lemma UnsignedIff(s: string)
    ensures Unsigned(s) > 0 <==> BeginsNumber(s)
  {
  }

  /** `Hangs` is a loop that goes on without taking a character, `Overruns` a step beyond
      the end of the text. */
  datatype Outcome = Done(v: Value, rest: string) | Hangs | Overruns

  /** Where no number begins, the result is zero and nothing is taken. */
  function ParseNumber(s: string): (r: Outcome)
    ensures r.Done? && |r.rest| <= |s|
  {
    var n := Span(s);
    if n == 0 then Done(Number(0), s) else Done(Reading(s[..n]), s[n..])
  }

  /** Puts a member into an object, in place of one with the same key. */
  function Put(ms: seq<Member>, key: string, value: Value): seq<Member> {
    if |ms| == 0 then [Member(key, value)]
    else if ms[0].key == key then [Member(key, value)] + ms[1..]
    else [ms[0]] + Put(ms[1..], key, value)
  }

  function Parse(s: string): (r: Outcome)
    ensures r.Done? ==> |r.rest| <= |s|
    decreases |s|, 2
  {
    var t := SkipSpace(s);
    if |t| == 0 then Done(Undefined, t)
    else if t[0] == '{' then ParseMembers([], t[1..])
    else if t[0] == '[' then ParseItems([], t[1..])
    else if t[0] == '"' then Done(Text(Quoted(t[1..]).0), Quoted(t[1..]).1)
    else if StartsWith(t, "true") then Done(Boolean(true), t[4..])
    else if StartsWith(t, "false") then Done(Boolean(false), t[5..])
    else if StartsWith(t, "null") then Done(Null, t[4..])
    else if IsDigit(t[0]) || t[0] == '-' then ParseNumber(t)
    else Done(Undefined, t)
  }

  function ParseItems(items: seq<Value>, s: string): (r: Outcome)
    ensures r.Done? ==> |r.rest| <= |s|
    decreases |s|, 3
  {
    var t := SkipSpace(s);
    if |s| == 0 then Done(List(items), s)
    else if |t| == 0 then Done(List(items + [Undefined]), t)
    else if t[0] == ']' then Done(List(items), t[1..])
    else if t[0] == ',' then ParseItems(items, t[1..])
    else
      var r := Parse(t);
      if !r.Done? then r
      else if |r.rest| == |t| then Hangs
      else ParseItems(items + [r.v], r.rest)
  }

  function ParseMembers(ms: seq<Member>, s: string): (r: Outcome)
    ensures r.Done? ==> |r.rest| <= |s|
    decreases |s|, 3
  {
    var t := SkipSpace(s);
    if |s| == 0 then Done(Record(ms), s)
    else if |t| == 0 then Overruns
    else if t[0] == '}' then Done(Record(ms), t[1..])
    else if t[0] == '"' then
      var (key, after) := Quoted(t[1..]);
      var r := Parse(SkipColon(after));
      if !r.Done? then r else ParseMembers(Put(ms, key, r.v), r.rest)
    else ParseMembers(ms, t[1..])
  }

  // ---------------------------------------------------------------- round trip

  /** Texts that the format can carry. */
  predicate Plain(s: string) { '"' !in s && '\0' !in s }

  predicate DistinctKeys(ms: seq<Member>) {
    forall i, j :: 0 <= i < j < |ms| ==> ms[i].key != ms[j].key
  }

  predicate Printable(v: Value) {
    match v
    case Numeral(_) => false
    case Text(s) => Plain(s)
    case List(items) => forall i :: 0 <= i < |items| ==> Printable(items[i])
    case Record(ms) => DistinctKeys(ms) && forall i :: 0 <= i < |ms| ==> Plain(ms[i].key) && Printable(ms[i].value)
    case _ => true
  }

  /** What is left of a value: `undefined` is printed as `null`. */
  function Norm(v: Value): Value
    decreases v
  {
    match v
    case Undefined => Null
    case List(items) => List(NormItems(items))
    case Record(ms) => Record(NormMembers(ms))
    case _ => v
  }

  function NormItems(items: seq<Value>): seq<Value>
    decreases items
  {
    if |items| == 0 then [] else [Norm(items[0])] + NormItems(items[1..])
  }

  function NormMembers(ms: seq<Member>): (r: seq<Member>)
    ensures |r| == |ms| && forall i :: 0 <= i < |ms| ==> r[i].key == ms[i].key
    decreases ms
  {
    if |ms| == 0 then [] else [Member(ms[0].key, Norm(ms[0].value))] + NormMembers(ms[1..])
  }

  /** Characters with which the C library would continue an integer. */
  predicate Continues(s: string) {
    |s| > 0 && (IsDigit(s[0]) || s[0] in {'.', 'e', 'E', 'x', 'X'})
  }

  lemma {:induction false} RunOf(s: string, rest: string)
    requires (forall i :: 0 <= i < |s| ==> IsDigit(s[i])) && (rest == "" || !IsDigit(rest[0]))
    ensures DigitRun(s + rest, false) == |s|
  {
    if |s| == 0 {
      assert s + rest == rest;
    } else {
      assert (s + rest)[1..] == s[1..] + rest;
      RunOf(s[1..], rest);
    }
  }

  lemma NotNamed(s: string)
    requires |s| > 0 && IsDigit(s[0])
    ensures !StartsLike(s, "infinity") && !StartsLike(s, "inf") && !StartsLike(s, "nan")
    ensures StartsLike(s, "0x") ==> Lower(s[1]) == 'x'
  {
    assert Lower(s[0]) == s[0];
  }

  lemma DigitsOnly(s: string, n: nat)
    requires 0 < n == DigitRun(s, false) && !Continues(s[n..]) && (|s| > 1 ==> Lower(s[1]) != 'x')
    ensures Unsigned(s) == n
  {
    hide StartsLike, DigitRun;
    NotNamed(s);
    assert n < |s| ==> s[n] == s[n..][0];
  }

  lemma SpanOf(m: nat, rest: string)
    requires !Continues(rest)
    ensures Unsigned(Decimal(m) + rest) == |Decimal(m)|
  {
    hide Decimal, Unsigned, DigitRun;
    var d, s := Decimal(m), Decimal(m) + rest;
    AllDigits(m);
    RunOf(d, rest);
    assert |s| > 1 ==> s[1] == if |d| > 1 then d[1] else rest[0];
    assert s[|d|..] == rest;
    DigitsOnly(s, |d|);
  }

  lemma IntReading(n: int)
    ensures Reading(PrintInt(n)) == Number(n)
  {
    hide ReadDigits, Decimal;
    var m: nat := if n < 0 then -n else n;
    AllDigits(m);
    RunOf(Decimal(m), "");
    ReadDecimal(m, "");
    assert Decimal(m) + "" == Decimal(m) && ReadDigits("", m).0 == m by { NoDigits(m); }
    if n < 0 { assert PrintInt(n)[1..] == Decimal(m); }
  }

  lemma NoDigits(m: nat)
    ensures ReadDigits("", m) == (m, "")
  {
  }

  lemma IntTrip(n: int, rest: string)
    requires !Continues(rest)
    ensures ParseNumber(PrintInt(n) + rest) == Done(Number(n), rest)
  {
    hide Unsigned, Reading, Continues, Decimal;
    var m: nat := if n < 0 then -n else n;
    var s := PrintInt(n) + rest;
    SpanOf(m, rest);
    IntReading(n);
    assert s[0] == PrintInt(n)[0];
    if n < 0 { assert s[1..] == Decimal(m) + rest; }
    assert s[..|PrintInt(n)|] == PrintInt(n) && s[|PrintInt(n)|..] == rest;
  }

  lemma {:induction false} QuotedTrip(s: string, rest: string)
    requires Plain(s)
    ensures ToQuote(s + "\"" + rest) == |s|
    ensures Quoted(s + "\"" + rest) == (s, rest)
  {
    var t := s + "\"" + rest;
    if |s| > 0 {
      assert t[0] == s[0] && t[1..] == s[1..] + "\"" + rest;
      assert s[0] in s && forall c :: c in s[1..] ==> c in s;
      QuotedTrip(s[1..], rest);
    }
    assert t[..|s|] == s && t[|s| + 1..] == rest;
  }

  /** Printed values begin with a character that no loop of the parser skips. */
  lemma PrintStart(g: Shown, v: Value)
    requires !v.Numeral?
    ensures |Print(g, v)| > 0 && !IsSpace(Print(g, v)[0]) && Print(g, v)[0] !in {',', ']', '}', ':'}
  {
  }

  lemma WordTrip(g: Shown, v: Value, rest: string)
    requires v.Undefined? || v.Null? || v.Boolean?
    ensures Parse(Print(g, v) + rest) == Done(Norm(v), rest)
  {
    hide ParseItems, ParseMembers, ParseNumber, Quoted;
    var t := Print(g, v) + rest;
    var n := |Print(g, v)|;
    assert t[0] == Print(g, v)[0] && SkipSpace(t) == t;
    assert t[..n] == Print(g, v) && t[n..] == rest;
  }

  lemma TextTrip(s: string, rest: string)
    requires Plain(s)
    ensures Parse("\"" + s + "\"" + rest) == Done(Text(s), rest)
  {
    var t := "\"" + s + "\"" + rest;
    QuotedTrip(s, rest);
    hide ParseItems, ParseMembers, ParseNumber, Quoted;
    assert t[0] == '"' && t[1..] == s + "\"" + rest;
  }

  lemma NumberTrip(n: int, rest: string)
    requires !Continues(rest)
    ensures Parse(PrintInt(n) + rest) == Done(Number(n), rest)
  {
    hide ParseItems, ParseMembers, ParseNumber, Quoted, PrintInt;
    var t := PrintInt(n) + rest;
    IntTrip(n, rest);
    IntStart(n);
    assert t[0] == PrintInt(n)[0];
    assert |t| >= 4 ==> t[..4][0] == t[0];
    assert |t| >= 5 ==> t[..5][0] == t[0];
  }

  lemma IntStart(n: int)
    ensures |PrintInt(n)| > 0 && (PrintInt(n)[0] == '-' || IsDigit(PrintInt(n)[0]))
  {
  }

  lemma BracketTrip(s: string)
    ensures Parse("[" + s) == ParseItems([], s) && Parse("{" + s) == ParseMembers([], s)
  {
    hide ParseItems, ParseMembers;
    assert ("[" + s)[1..] == s && ("{" + s)[1..] == s;
    assert SkipSpace("[" + s) == "[" + s && SkipSpace("{" + s) == "{" + s;
  }

  /** Parsing undoes printing, and stops exactly where the printed text ends. */
  lemma {:induction false} RoundTrip(g: Shown, v: Value, rest: string)
    requires Printable(v) && (v.Number? ==> !Continues(rest))
    ensures Parse(Print(g, v) + rest) == Done(Norm(v), rest)
    decreases v, 1
  {
    hide Parse, ParseItems, ParseMembers, PrintItems, PrintMembers, PrintInt;
    match v
    case Undefined => WordTrip(g, v, rest);
    case Null => WordTrip(g, v, rest);
    case Boolean(b) => WordTrip(g, v, rest);
    case Number(n) => NumberTrip(n, rest);
    case Text(s) => TextTrip(s, rest);
    case List(items) =>
      ItemsTrip(g, [], items, true, rest);
      ListText(g, items, rest);
    case Record(ms) =>
      assert [] + ms == ms;
      MembersTrip(g, [], ms, true, rest);
      RecordText(g, ms, rest);
  }

  lemma ListText(g: Shown, items: seq<Value>, rest: string)
    ensures Parse(Print(g, List(items)) + rest) == ParseItems([], PrintItems(g, items, true) + "]" + rest)
    ensures [] + NormItems(items) == NormItems(items)
  {
    hide Parse, ParseItems, PrintItems;
    Regroup("[", PrintItems(g, items, true), "]", rest);
    BracketTrip(PrintItems(g, items, true) + "]" + rest);
  }

  lemma RecordText(g: Shown, ms: seq<Member>, rest: string)
    ensures Parse(Print(g, Record(ms)) + rest) == ParseMembers([], PrintMembers(g, ms, true) + "}" + rest)
    ensures [] + NormMembers(ms) == NormMembers(ms)
  {
    hide Parse, ParseMembers, PrintMembers;
    Regroup("{", PrintMembers(g, ms, true), "}", rest);
    BracketTrip(PrintMembers(g, ms, true) + "}" + rest);
  }

  lemma ItemsComma(done: seq<Value>, s: string)
    ensures ParseItems(done, "," + s) == ParseItems(done, s)
  {
    assert ("," + s)[1..] == s && SkipSpace("," + s) == "," + s;
  }

  lemma ItemsNext(g: Shown, done: seq<Value>, v: Value, s: string, more: string)
    requires !v.Numeral? && s == Print(g, v) + more && Parse(s) == Done(Norm(v), more)
    ensures ParseItems(done, s) == ParseItems(done + [Norm(v)], more)
  {
    PrintStart(g, v);
    hide Parse, Print;
    assert s[0] == Print(g, v)[0] && SkipSpace(s) == s && |more| < |s|;
  }

  lemma {:induction false} ItemsTrip(g: Shown, done: seq<Value>, items: seq<Value>, first: bool, rest: string)
    requires forall i :: 0 <= i < |items| ==> Printable(items[i])
    ensures ParseItems(done, PrintItems(g, items, first) + "]" + rest) == Done(List(done + NormItems(items)), rest)
    decreases items, 0
  {
    hide Parse, ParseItems, Print, PrintItems;
    if |items| == 0 {
      ItemsEnd(g, done, first, rest);
    } else {
      var v, more := items[0], PrintItems(g, items[1..], false) + "]" + rest;
      var t := Print(g, v) + more;
      ItemsSplit(g, items, first, rest);
      ItemsStart(g, items[1..], rest);
      if first { assert "" + t == t; } else { ItemsComma(done, t); }
      RoundTrip(g, v, more);
      ItemsNext(g, done, v, t, more);
      ItemsTrip(g, done + [Norm(v)], items[1..], false, rest);
      assert done + [Norm(v)] + NormItems(items[1..]) == done + NormItems(items);
    }
  }

  lemma ItemsEnd(g: Shown, done: seq<Value>, first: bool, rest: string)
    ensures ParseItems(done, PrintItems(g, [], first) + "]" + rest) == Done(List(done + NormItems([])), rest)
  {
    var s := PrintItems(g, [], first) + "]" + rest;
    assert s[0] == ']' && s[1..] == rest && done + [] == done;
  }

  lemma ItemsSplit(g: Shown, items: seq<Value>, first: bool, rest: string)
    requires |items| > 0
    ensures var t := Print(g, items[0]) + (PrintItems(g, items[1..], false) + "]" + rest);
            PrintItems(g, items, first) + "]" + rest == (if first then "" else ",") + t
  {
    var sep, p, q := if first then "" else ",", Print(g, items[0]), PrintItems(g, items[1..], false);
    assert PrintItems(g, items, first) == sep + p + q;
    hide Print, PrintItems;
    Joined(sep, p, q, "]", rest);
  }

  lemma ItemsStart(g: Shown, items: seq<Value>, rest: string)
    ensures var s := PrintItems(g, items, false) + "]" + rest; s[0] == ',' || s[0] == ']'
  {
  }

  lemma MembersStart(g: Shown, ms: seq<Member>, rest: string)
    ensures var s := PrintMembers(g, ms, false) + "}" + rest; s[0] == ',' || s[0] == '}'
  {
  }

  lemma MembersComma(done: seq<Member>, s: string)
    ensures ParseMembers(done, "," + s) == ParseMembers(done, s)
  {
    assert ("," + s)[1..] == s && SkipSpace("," + s) == "," + s;
  }

  lemma MembersRead(done: seq<Member>, key: string, t: string, v: Value, more: string)
    requires Plain(key) && Parse(t) == Done(v, more) && |t| > 0 && t[0] != ' ' && t[0] != ':'
    ensures ParseMembers(done, "\"" + key + "\":" + t) == ParseMembers(Put(done, key, v), more)
  {
    hide Parse, Put;
    var s := "\"" + key + "\":" + t;
    assert s[0] == '"' && SkipSpace(s) == s;
    assert s[1..] == key + "\"" + (":" + t);
    QuotedTrip(key, ":" + t);
    assert (":" + t)[1..] == t;
    assert SkipColon(":" + t) == SkipColon(t) == t;
  }

  lemma MembersNext(g: Shown, done: seq<Member>, m: Member, more: string)
    requires !m.value.Numeral? && Plain(m.key) && Parse(Print(g, m.value) + more) == Done(Norm(m.value), more)
    ensures ParseMembers(done, "\"" + m.key + "\":" + (Print(g, m.value) + more))
            == ParseMembers(Put(done, m.key, Norm(m.value)), more)
  {
    hide Parse, Print, ParseMembers, Norm;
    var t := Print(g, m.value) + more;
    PrintStart(g, m.value);
    assert t[0] == Print(g, m.value)[0];
    MembersRead(done, m.key, t, Norm(m.value), more);
  }

  lemma {:induction false} PutNew(ms: seq<Member>, key: string, value: Value)
    requires forall i :: 0 <= i < |ms| ==> ms[i].key != key
    ensures Put(ms, key, value) == ms + [Member(key, value)]
  {
    if |ms| > 0 {
      PutNew(ms[1..], key, value);
      assert [ms[0]] + (ms[1..] + [Member(key, value)]) == ms + [Member(key, value)];
    }
  }

  lemma {:induction false} MembersTrip(g: Shown, done: seq<Member>, ms: seq<Member>, first: bool, rest: string)
    requires forall i :: 0 <= i < |ms| ==> Plain(ms[i].key) && Printable(ms[i].value)
    requires DistinctKeys(done + ms)
    ensures ParseMembers(done, PrintMembers(g, ms, first) + "}" + rest) == Done(Record(done + NormMembers(ms)), rest)
    decreases ms, 0
  {
    if |ms| == 0 {
      MembersEnd(g, done, first, rest);
    } else {
      var m, more := ms[0], PrintMembers(g, ms[1..], false) + "}" + rest;
      var done' := done + [Member(m.key, Norm(m.value))];
      MembersStart(g, ms[1..], rest);
      hide Parse, ParseMembers, Print, PrintMembers, DistinctKeys, Norm;
      KeysStay(done, ms, Norm(m.value));
      RoundTrip(g, m.value, more);
      MembersOne(g, done, ms, first, rest);
      MembersTrip(g, done', ms[1..], false, rest);
      MembersJoin(done, ms);
    }
  }

  lemma MembersJoin(done: seq<Member>, ms: seq<Member>)
    requires |ms| > 0
    ensures done + [Member(ms[0].key, Norm(ms[0].value))] + NormMembers(ms[1..]) == done + NormMembers(ms)
  {
    hide Norm, NormMembers;
    NormFirst(ms);
    MembersAssoc(done, [Member(ms[0].key, Norm(ms[0].value))], NormMembers(ms[1..]));
  }

  lemma NormFirst(ms: seq<Member>)
    requires |ms| > 0
    ensures NormMembers(ms) == [Member(ms[0].key, Norm(ms[0].value))] + NormMembers(ms[1..])
  {
  }

  lemma MembersAssoc(a: seq<Member>, b: seq<Member>, c: seq<Member>)
    ensures a + b + c == a + (b + c)
  {
  }

  lemma MembersOne(g: Shown, done: seq<Member>, ms: seq<Member>, first: bool, rest: string)
    requires |ms| > 0 && !ms[0].value.Numeral? && Plain(ms[0].key)
    requires forall i :: 0 <= i < |done| ==> done[i].key != ms[0].key
    requires var more := PrintMembers(g, ms[1..], false) + "}" + rest;
             Parse(Print(g, ms[0].value) + more) == Done(Norm(ms[0].value), more)
    ensures ParseMembers(done, PrintMembers(g, ms, first) + "}" + rest)
            == ParseMembers(done + [Member(ms[0].key, Norm(ms[0].value))], PrintMembers(g, ms[1..], false) + "}" + rest)
  {
    hide Parse, ParseMembers, Print, PrintMembers, Put, Norm;
    var m, more := ms[0], PrintMembers(g, ms[1..], false) + "}" + rest;
    var t := "\"" + m.key + "\":" + (Print(g, m.value) + more);
    MembersSplit(g, ms, first, rest);
    if first { assert "" + t == t; } else { MembersComma(done, t); }
    MembersNext(g, done, m, more);
    PutNew(done, m.key, Norm(m.value));
  }

  lemma MembersEnd(g: Shown, done: seq<Member>, first: bool, rest: string)
    ensures ParseMembers(done, PrintMembers(g, [], first) + "}" + rest) == Done(Record(done + NormMembers([])), rest)
  {
    var s := PrintMembers(g, [], first) + "}" + rest;
    assert s[0] == '}' && s[1..] == rest && done + [] == done;
  }

  lemma MembersSplit(g: Shown, ms: seq<Member>, first: bool, rest: string)
    requires |ms| > 0
    ensures var more := PrintMembers(g, ms[1..], false) + "}" + rest;
            var t := "\"" + ms[0].key + "\":" + (Print(g, ms[0].value) + more);
            PrintMembers(g, ms, first) + "}" + rest == (if first then "" else ",") + t
  {
    var sep, k, p, q := if first then "" else ",", ms[0].key, Print(g, ms[0].value), PrintMembers(g, ms[1..], false);
    assert PrintMembers(g, ms, first) == sep + "\"" + k + "\":" + p + q;
    hide Print, PrintMembers;
    Joined(sep + "\"" + k + "\":", p, q, "}", rest);
    Joined(sep, "\"", k, "\":", p + (q + "}" + rest));
    Regroup("\"", k, "\":", p + (q + "}" + rest));
  }

  lemma Regroup(a: string, b: string, c: string, d: string)
    ensures a + b + c + d == a + (b + c + d)
  {
  }

  lemma Joined(a: string, b: string, c: string, d: string, e: string)
    ensures a + b + c + d + e == a + (b + (c + d + e))
  {
  }

  lemma KeysStay(done: seq<Member>, ms: seq<Member>, v: Value)
    requires |ms| > 0 && DistinctKeys(done + ms)
    ensures DistinctKeys(done + [Member(ms[0].key, v)] + ms[1..])
    ensures forall i :: 0 <= i < |done| ==> done[i].key != ms[0].key
  {
    forall i | 0 <= i < |done| ensures done[i].key != ms[0].key {
      assert (done + ms)[i] == done[i] && (done + ms)[|done|] == ms[0];
    }
    var a, b := done + ms, done + [Member(ms[0].key, v)] + ms[1..];
    assert |a| == |b|;
    assert forall i :: 0 <= i < |a| ==> a[i].key == b[i].key;
  }

  // ------------------------------------------------------------- texts with gaps

  /** A text with its layout: white space before and after the separators, before the closing
      brackets, and after the colons; before a colon only blanks. */
  datatype Doc =
    | Leaf(v: Value)
    | ListDoc(items: seq<ItemDoc>, last: string)
    | RecordDoc(members: seq<MemberDoc>, last: string)

  datatype ItemDoc = ItemDoc(before: string, after: string, doc: Doc)

  datatype MemberDoc = MemberDoc(before: string, after: string, key: string, blanks: string, gap: string, doc: Doc)

  predicate Gap(s: string) { forall i :: 0 <= i < |s| ==> s[i] in {' ', '\n', '\r', '\t'} }

  predicate Blanks(s: string) { forall i :: 0 <= i < |s| ==> s[i] == ' ' }

  predicate WellSpaced(d: Doc)
    decreases d
  {
    match d
    case Leaf(v) => v.Undefined? || v.Null? || v.Boolean? || v.Number? || (v.Text? && Plain(v.s))
    case ListDoc(items, last) =>
      Gap(last) && forall i :: 0 <= i < |items| ==>
        Gap(items[i].before) && Gap(items[i].after) && WellSpaced(items[i].doc)
    case RecordDoc(ms, last) =>
      Gap(last) && forall i :: 0 <= i < |ms| ==>
        && Gap(ms[i].before) && Gap(ms[i].after) && Plain(ms[i].key)
        && Blanks(ms[i].blanks) && Gap(ms[i].gap) && WellSpaced(ms[i].doc)
  }

  /** The characters of the text. */
  function Chars(d: Doc): string
    decreases d
  {
    match d
    case Leaf(v) => if v.Number? then PrintInt(v.n) else if v.Text? then "\"" + v.s + "\"" else Word(v)
    case ListDoc(items, last) => "[" + (ItemChars(items, true) + (last + "]"))
    case RecordDoc(ms, last) => "{" + (MemberChars(ms, true) + (last + "}"))
  }

  function Word(v: Value): string {
    if v == Boolean(true) then "true" else if v == Boolean(false) then "false" else "null"
  }

  function Comma(first: bool): string { if first then "" else "," }

  function ItemChars(items: seq<ItemDoc>, first: bool): string
    decreases items
  {
    if |items| == 0 then ""
    else items[0].before + (Comma(first) + (items[0].after + (Chars(items[0].doc) + ItemChars(items[1..], false))))
  }

  function MemberChars(ms: seq<MemberDoc>, first: bool): string
    decreases ms
  {
    if |ms| == 0 then ""
    else
      var m := ms[0];
      m.before + (Comma(first) + (m.after + ("\"" + m.key + "\"" + (m.blanks + (":" + (m.gap +
        (Chars(m.doc) + MemberChars(ms[1..], false))))))))
  }

  /** The value that the text stands for: of members with the same key, the last counts. */
  function Meaning(d: Doc): Value
    decreases d
  {
    match d
    case Leaf(v) => if v.Undefined? then Null else v
    case ListDoc(items, _) => List(seq(|items|, i requires 0 <= i < |items| => Meaning(items[i].doc)))
    case RecordDoc(ms, _) => Record(Members([], ms))
  }

  function Members(done: seq<Member>, ms: seq<MemberDoc>): seq<Member>
    decreases ms
  {
    if |ms| == 0 then done else Members(Put(done, ms[0].key, Meaning(ms[0].doc)), ms[1..])
  }

  lemma {:induction false} SkipGap(gap: string, s: string)
    requires Gap(gap)
    ensures SkipSpace(gap + s) == SkipSpace(s)
  {
    if |gap| == 0 {
      assert gap + s == s;
    } else {
      assert (gap + s)[1..] == gap[1..] + s;
      SkipGap(gap[1..], s);
    }
  }

  lemma {:induction false} SkipBlanks(blanks: string, s: string)
    requires Blanks(blanks)
    ensures SkipColon(blanks + s) == SkipColon(s)
  {
    if |blanks| == 0 {
      assert blanks + s == s;
    } else {
      assert (blanks + s)[1..] == blanks[1..] + s;
      SkipBlanks(blanks[1..], s);
    }
  }

  /** After the colon, blanks are skipped as part of the separator, the rest as white space. */
  lemma {:induction false} SkipBoth(gap: string, s: string)
    requires Gap(gap) && |s| > 0 && s[0] != ':' && !IsSpace(s[0])
    ensures SkipSpace(SkipColon(gap + s)) == s
  {
    if |gap| == 0 {
      assert gap + s == s;
    } else {
      assert (gap + s)[1..] == gap[1..] + s;
      if gap[0] == ' ' { SkipBoth(gap[1..], s); } else { SkipGap(gap, s); }
    }
  }

  lemma ParseSkips(s: string)
    ensures Parse(s) == Parse(SkipSpace(s))
  {
    hide ParseItems, ParseMembers, Quoted, ParseNumber;
    SkipTwice(s);
  }

  lemma ItemsGap(done: seq<Value>, gap: string, s: string)
    requires Gap(gap) && |s| > 0
    ensures ParseItems(done, gap + s) == ParseItems(done, s)
  {
    hide Parse, SkipSpace;
    SkipGap(gap, s);
  }

  lemma MembersGap(done: seq<Member>, gap: string, s: string)
    requires Gap(gap) && |s| > 0
    ensures ParseMembers(done, gap + s) == ParseMembers(done, s)
  {
    hide Parse, SkipSpace, Quoted;
    SkipGap(gap, s);
  }

  lemma ItemsRead(done: seq<Value>, t: string, v: Value, more: string)
    requires Parse(t) == Done(v, more) && |more| < |t| && !IsSpace(t[0]) && t[0] != ']' && t[0] != ','
    ensures ParseItems(done, t) == ParseItems(done + [v], more)
  {
    hide Parse;
    assert SkipSpace(t) == t;
  }

  lemma CharsStart(d: Doc)
    ensures |Chars(d)| > 0 && !IsSpace(Chars(d)[0]) && Chars(d)[0] !in {',', ']', '}', ':'}
  {
    hide ItemChars, MemberChars;
    if d.Leaf? && d.v.Number? { IntStart(d.v.n); }
  }

  lemma LeafTrip(v: Value, rest: string)
    requires WellSpaced(Leaf(v)) && (v.Number? ==> !Continues(rest))
    ensures Parse(Chars(Leaf(v)) + rest) == Done(Meaning(Leaf(v)), rest)
  {
    hide Parse;
    if v.Number? {
      NumberTrip(v.n, rest);
    } else if v.Text? {
      TextTrip(v.s, rest);
    } else {
      WordTrip(text => text, v, rest);
    }
  }

  /** Parsing a text gives what it stands for, wherever there is white space in it. */
  lemma {:induction false} SpacedTrip(d: Doc, rest: string)
    requires WellSpaced(d) && (d.Leaf? && d.v.Number? ==> !Continues(rest))
    ensures Parse(Chars(d) + rest) == Done(Meaning(d), rest)
    decreases d, 1
  {
    hide Parse, ParseItems, ParseMembers, ItemChars, MemberChars, Members;
    match d
    case Leaf(v) => LeafTrip(v, rest);
    case ListDoc(items, last) =>
      Three("[", ItemChars(items, true), last + "]", rest);
      BracketTrip(ItemChars(items, true) + (last + "]" + rest));
      ListTrip([], items, true, last, rest);
      assert [] + Meanings(items) == Meanings(items);
    case RecordDoc(ms, last) =>
      Three("{", MemberChars(ms, true), last + "}", rest);
      BracketTrip(MemberChars(ms, true) + (last + "}" + rest));
      RecordTrip([], ms, true, last, rest);
  }

  lemma Three(a: string, b: string, c: string, rest: string)
    ensures a + (b + c) + rest == a + (b + (c + rest))
  {
  }

  function Meanings(items: seq<ItemDoc>): (vs: seq<Value>)
    ensures |vs| == |items| && forall i :: 0 <= i < |vs| ==> vs[i] == Meaning(items[i].doc)
  {
    seq(|items|, i requires 0 <= i < |items| => Meaning(items[i].doc))
  }

  /** What follows an item or member does not continue a number. */
  lemma ItemsFollow(items: seq<ItemDoc>, last: string, rest: string)
    requires Gap(last) && forall i :: 0 <= i < |items| ==> Gap(items[i].before)
    ensures var s := ItemChars(items, false) + (last + "]" + rest); |s| > 0 && !Continues(s)
  {
    hide Chars;
    var s := ItemChars(items, false) + (last + "]" + rest);
    if |items| == 0 {
      assert s == last + "]" + rest;
      assert s[0] == (last + "]")[0];
    } else {
      assert s[0] == (items[0].before + ",")[0];
    }
  }

  lemma ItemsLast(done: seq<Value>, first: bool, last: string, rest: string)
    requires Gap(last)
    ensures ParseItems(done, ItemChars([], first) + (last + "]" + rest)) == Done(List(done + Meanings([])), rest)
  {
    hide Parse;
    var s := "]" + rest;
    assert ItemChars([], first) + (last + "]" + rest) == last + s && done + [] == done;
    ItemsGap(done, last, s);
    assert s[0] == ']' && s[1..] == rest;
  }

  lemma ItemPieces(it: ItemDoc, first: bool, chars: string, more: string, tail: string)
    ensures it.before + (Comma(first) + (it.after + (chars + more))) + tail
            == it.before + (Comma(first) + (it.after + (chars + (more + tail))))
  {
    hide Comma;
  }

  lemma ItemRound(done: seq<Value>, it: ItemDoc, first: bool, s: string)
    requires Gap(it.before) && Gap(it.after) && |s| > 0
    ensures ParseItems(done, it.before + (Comma(first) + (it.after + s))) == ParseItems(done, s)
  {
    hide ParseItems;
    ItemsGap(done, it.before, Comma(first) + (it.after + s));
    if first { assert "" + (it.after + s) == it.after + s; } else { ItemsComma(done, it.after + s); }
    ItemsGap(done, it.after, s);
  }

  lemma {:induction false} ListTrip(done: seq<Value>, items: seq<ItemDoc>, first: bool, last: string, rest: string)
    requires Gap(last) && forall i :: 0 <= i < |items| ==>
               Gap(items[i].before) && Gap(items[i].after) && WellSpaced(items[i].doc)
    ensures ParseItems(done, ItemChars(items, first) + (last + "]" + rest)) == Done(List(done + Meanings(items)), rest)
    decreases items, 0
  {
    hide Parse, ParseItems, Chars, Meaning, WellSpaced, Gap;
    if |items| == 0 {
      ItemsLast(done, first, last, rest);
    } else {
      var it, tail, more := items[0], last + "]" + rest, ItemChars(items[1..], false);
      var v, t := Meaning(it.doc), Chars(it.doc) + (more + tail);
      ItemPieces(it, first, Chars(it.doc), more, tail);
      ItemsFollow(items[1..], last, rest);
      CharsStart(it.doc);
      assert t[0] == Chars(it.doc)[0];
      ItemRound(done, it, first, t);
      SpacedTrip(it.doc, more + tail);
      ItemsRead(done, t, v, more + tail);
      ListTrip(done + [v], items[1..], false, last, rest);
      assert done + [v] + Meanings(items[1..]) == done + Meanings(items);
    }
  }

  lemma MembersFollow(ms: seq<MemberDoc>, last: string, rest: string)
    requires Gap(last) && forall i :: 0 <= i < |ms| ==> Gap(ms[i].before)
    ensures var s := MemberChars(ms, false) + (last + "}" + rest); |s| > 0 && !Continues(s)
  {
    hide Chars;
    var s := MemberChars(ms, false) + (last + "}" + rest);
    if |ms| == 0 {
      assert s == last + "}" + rest;
      assert s[0] == (last + "}")[0];
    } else {
      assert s[0] == (ms[0].before + ",")[0];
    }
  }

  lemma MembersLast(done: seq<Member>, first: bool, last: string, rest: string)
    requires Gap(last)
    ensures ParseMembers(done, MemberChars([], first) + (last + "}" + rest)) == Done(Record(done), rest)
  {
    hide Parse, Quoted;
    var s := "}" + rest;
    assert MemberChars([], first) + (last + "}" + rest) == last + s;
    MembersGap(done, last, s);
    assert s[0] == '}' && s[1..] == rest;
  }

  lemma MemberRound(done: seq<Member>, m: MemberDoc, first: bool, s: string)
    requires Gap(m.before) && Gap(m.after) && |s| > 0
    ensures ParseMembers(done, m.before + (Comma(first) + (m.after + s))) == ParseMembers(done, s)
  {
    hide ParseMembers;
    MembersGap(done, m.before, Comma(first) + (m.after + s));
    if first { assert "" + (m.after + s) == m.after + s; } else { MembersComma(done, m.after + s); }
    MembersGap(done, m.after, s);
  }

  /** A key, its colon and a value, with white space around the colon. */
  lemma MemberRead(done: seq<Member>, key: string, blanks: string, gap: string, t: string, v: Value, more: string)
    requires Plain(key) && Blanks(blanks) && Gap(gap)
    requires Parse(t) == Done(v, more) && |t| > 0 && t[0] != ':' && !IsSpace(t[0])
    ensures ParseMembers(done, "\"" + key + "\"" + (blanks + (":" + (gap + t))))
            == ParseMembers(Put(done, key, v), more)
  {
    hide Parse, Put, Blanks, Gap, SkipColon;
    var after := blanks + (":" + (gap + t));
    var s := "\"" + key + "\"" + after;
    assert s[0] == '"' && s[1..] == key + "\"" + after;
    assert SkipSpace(s) == s;
    QuotedTrip(key, after);
    ColonSkipped(blanks, gap, t);
    ParseSkips(SkipColon(after));
  }

  lemma ColonSkipped(blanks: string, gap: string, t: string)
    requires Blanks(blanks) && Gap(gap) && |t| > 0 && t[0] != ':' && !IsSpace(t[0])
    ensures SkipSpace(SkipColon(blanks + (":" + (gap + t)))) == t
  {
    var s := ":" + (gap + t);
    SkipBlanks(blanks, s);
    assert s[1..] == gap + t;
    assert SkipColon(s) == SkipColon(gap + t);
    SkipBoth(gap, t);
  }

  lemma {:induction false} RecordTrip(done: seq<Member>, ms: seq<MemberDoc>, first: bool, last: string, rest: string)
    requires Gap(last) && forall i :: 0 <= i < |ms| ==>
               && Gap(ms[i].before) && Gap(ms[i].after) && Plain(ms[i].key)
               && Blanks(ms[i].blanks) && Gap(ms[i].gap) && WellSpaced(ms[i].doc)
    ensures ParseMembers(done, MemberChars(ms, first) + (last + "}" + rest)) == Done(Record(Members(done, ms)), rest)
    decreases ms, 0
  {
    hide Parse, ParseMembers, Chars, Meaning, WellSpaced, Gap, Blanks, Plain, Put;
    if |ms| == 0 {
      MembersLast(done, first, last, rest);
    } else {
      var m, tail, more := ms[0], last + "}" + rest, MemberChars(ms[1..], false);
      var v, t := Meaning(m.doc), Chars(m.doc) + (more + tail);
      MemberPieces(m, first, Chars(m.doc), more, tail);
      MembersFollow(ms[1..], last, rest);
      CharsStart(m.doc);
      assert t[0] == Chars(m.doc)[0];
      MemberRound(done, m, first, "\"" + m.key + "\"" + (m.blanks + (":" + (m.gap + t))));
      SpacedTrip(m.doc, more + tail);
      MemberRead(done, m.key, m.blanks, m.gap, t, v, more + tail);
      RecordTrip(Put(done, m.key, v), ms[1..], false, last, rest);
    }
  }

  lemma MemberPieces(m: MemberDoc, first: bool, chars: string, more: string, tail: string)
    ensures m.before + (Comma(first) + (m.after + ("\"" + m.key + "\"" +
              (m.blanks + (":" + (m.gap + (chars + more))))))) + tail
            == m.before + (Comma(first) + (m.after + ("\"" + m.key + "\"" +
              (m.blanks + (":" + (m.gap + (chars + (more + tail))))))))
  {
    hide Comma;
  }
  /** The text of a value without any white space. */
  function Tight(v: Value): Doc
    decreases v
  {
    match v
    case List(items) => ListDoc(TightItems(items), "")
    case Record(ms) => RecordDoc(TightMembers(ms), "")
    case _ => Leaf(v)
  }

  function TightItems(items: seq<Value>): seq<ItemDoc>
    decreases items
  {
    if |items| == 0 then [] else [ItemDoc("", "", Tight(items[0]))] + TightItems(items[1..])
  }

  function TightMembers(ms: seq<Member>): seq<MemberDoc>
    decreases ms
  {
    if |ms| == 0 then [] else [MemberDoc("", "", ms[0].key, "", "", Tight(ms[0].value))] + TightMembers(ms[1..])
  }

  /** That is what is printed. */
  lemma {:induction false} PrintIsTight(g: Shown, v: Value)
    requires Printable(v)
    ensures Print(g, v) == Chars(Tight(v))
    decreases v, 1
  {
    hide ItemChars, MemberChars, PrintItems, PrintMembers, PrintInt;
    match v
    case List(items) =>
      ItemsTight(g, items, true);
      assert "" + "]" == "]" && "[" + PrintItems(g, items, true) + "]" == "[" + (PrintItems(g, items, true) + "]");
    case Record(ms) =>
      MembersTight(g, ms, true);
      assert "" + "}" == "}" && "{" + PrintMembers(g, ms, true) + "}" == "{" + (PrintMembers(g, ms, true) + "}");
    case _ =>
  }

  lemma {:induction false} ItemsTight(g: Shown, items: seq<Value>, first: bool)
    requires forall i :: 0 <= i < |items| ==> Printable(items[i])
    ensures PrintItems(g, items, first) == ItemChars(TightItems(items), first)
    decreases items, 0
  {
    hide Print, Chars, Tight, Printable;
    if |items| > 0 {
      PrintIsTight(g, items[0]);
      ItemsTight(g, items[1..], false);
      var ds := TightItems(items);
      assert ds[0] == ItemDoc("", "", Tight(items[0])) && ds[1..] == TightItems(items[1..]);
      var c, more := Chars(Tight(items[0])), ItemChars(ds[1..], false);
      assert "" + (Comma(first) + ("" + (c + more))) == Comma(first) + c + more;
    }
  }

  lemma {:induction false} MembersTight(g: Shown, ms: seq<Member>, first: bool)
    requires forall i :: 0 <= i < |ms| ==> Printable(ms[i].value)
    ensures PrintMembers(g, ms, first) == MemberChars(TightMembers(ms), first)
    decreases ms, 0
  {
    hide Print, Chars, Tight, Printable;
    if |ms| > 0 {
      PrintIsTight(g, ms[0].value);
      MembersTight(g, ms[1..], false);
      var ds := TightMembers(ms);
      assert ds[0] == MemberDoc("", "", ms[0].key, "", "", Tight(ms[0].value)) && ds[1..] == TightMembers(ms[1..]);
      TightText(Comma(first), ms[0].key, Chars(Tight(ms[0].value)), MemberChars(ds[1..], false));
    }
  }

  lemma TightText(sep: string, key: string, c: string, more: string)
    ensures sep + "\"" + key + "\":" + c + more
            == "" + (sep + ("" + ("\"" + key + "\"" + ("" + (":" + ("" + (c + more)))))))
  {
    assert "\":" == "\"" + ":";
    assert "" + (c + more) == c + more && "" + (":" + (c + more)) == ":" + (c + more);
    var k, q := "\"" + key + "\"", ":" + (c + more);
    assert "" + (k + q) == k + q && "" + (sep + (k + q)) == sep + (k + q);
  }

  // ------------------------------------------------- where parsing does not end

  predicate BeginsWord(t: string) { StartsWith(t, "true") || StartsWith(t, "false") || StartsWith(t, "null") }

  /** Text that begins with a value. */
  predicate BeginsValue(t: string) {
    && |t| > 0
    && (|| t[0] in {'{', '[', '"'} || BeginsWord(t) || IsDigit(t[0])
        || (t[0] == '-' && BeginsNumber(t[1..])))
  }

  /** Exactly where no value begins the parser returns without taking anything. */
  lemma TakesNothingIff(t: string)
    requires t == "" || !IsSpace(t[0])
    ensures Parse(t).Done? && Parse(t).rest == t <==> !BeginsValue(t)
    ensures Parse(t).Done? && BeginsValue(t) ==> |Parse(t).rest| < |t|
  {
    hide ParseItems, ParseMembers, Quoted, Unsigned, Reading, BeginsNumber;
    assert SkipSpace(t) == t;
    if |t| > 0 { UnsignedIff(if t[0] == '-' then t[1..] else t); }
    assert |t| > 0 && IsDigit(t[0]) ==> BeginsNumber(t) by { DigitBegins(t); }
  }

  /** The loops that the parser is in, the innermost first. */
  datatype Loop = InList | InRecord

  /** The beginning of a round: the loop, and the text from the next character on that
      is no white space. */
  datatype Round = Round(loop: Loop, text: string) {
    /** A list goes round for ever where an element should begin and none does. */
    predicate Hanging() {
      loop.InList? && text != "" && text[0] != ']' && text[0] != ',' && !BeginsValue(text)
    }

    /** A record steps over the end of the text if only white space is left. */
    predicate Overrunning() { loop.InRecord? && text == "" }
  }

  /** One value taken at `t`: another loop entered, or a simple value passed. */
  function Enter(loops: seq<Loop>, t: string): (r: (seq<Loop>, string))
    ensures |r.1| <= |t| && (BeginsValue(t) ==> |r.1| < |t|)
  {
    if |t| == 0 then (loops, t)
    else if t[0] == '{' then ([InRecord] + loops, t[1..])
    else if t[0] == '[' then ([InList] + loops, t[1..])
    else if t[0] == '"' then (loops, Quoted(t[1..]).1)
    else if StartsWith(t, "true") then (loops, t[4..])
    else if StartsWith(t, "false") then (loops, t[5..])
    else if StartsWith(t, "null") then (loops, t[4..])
    else if IsDigit(t[0]) || t[0] == '-' then
      UnsignedIff(if t[0] == '-' then t[1..] else t);
      (loops, t[Span(t)..])
    else (loops, t)
  }

  /** One round of the innermost loop; nothing if it does not end within the text. */
  function Advance(loops: seq<Loop>, t: string): (r: Option<(seq<Loop>, string)>)
    requires |loops| > 0
    ensures r.Some? ==> |r.value.1| < |t| || (|r.value.1| == |t| && |r.value.0| < |loops|)
  {
    match loops[0]
    case InList =>
      if t == "" then Some((loops[1..], t))
      else if t[0] == ']' then Some((loops[1..], t[1..]))
      else if t[0] == ',' then Some((loops, t[1..]))
      else if BeginsValue(t) then Some(Enter(loops, t))
      else None
    case InRecord =>
      if t == "" then None
      else if t[0] == '}' then Some((loops[1..], t[1..]))
      else if t[0] == '"' then Some(Enter(loops, SkipSpace(SkipColon(Quoted(t[1..]).1))))
      else Some((loops, t[1..]))
  }

  /** The rounds that are begun from inside `loops` on, in order. */
  function Rounds(loops: seq<Loop>, s: string): seq<Round>
    decreases |s|, |loops|
  {
    if |loops| == 0 then []
    else if |s| == 0 then Rounds(loops[1..], s)
    else
      var t := SkipSpace(s);
      var next := Advance(loops, t);
      [Round(loops[0], t)] + if next.None? then [] else Rounds(next.value.0, next.value.1)
  }

  /** The rounds that follow a step. */
  function From(next: Option<(seq<Loop>, string)>): seq<Round> {
    if next.None? then [] else Rounds(next.value.0, next.value.1)
  }

  /** All rounds of a parse. */
  function AllRounds(s: string): seq<Round> { From(Some(Enter([], SkipSpace(s)))) }

  ghost predicate Hung(rs: seq<Round>) { exists i :: 0 <= i < |rs| && rs[i].Hanging() }

  ghost predicate Overran(rs: seq<Round>) { exists i :: 0 <= i < |rs| && rs[i].Overrunning() }

  /** The rounds `rs` of a part of the parse with outcome `r` inside `loops` tell it, or
      leave it to the rounds after that part. */
  ghost predicate Tells(rs: seq<Round>, r: Outcome, loops: seq<Loop>) {
    match r
    case Done(v, rest) => (Hung(rs) <==> Hung(Rounds(loops, rest))) && (Overran(rs) <==> Overran(Rounds(loops, rest)))
    case Hangs => Hung(rs) && !Overran(rs)
    case Overruns => Overran(rs) && !Hung(rs)
  }

  lemma RoundTells(loops: seq<Loop>, s: string)
    requires |loops| > 0 && |s| > 0
    ensures var r, rs := Round(loops[0], SkipSpace(s)), From(Advance(loops, SkipSpace(s)));
            && (Hung(Rounds(loops, s)) <==> r.Hanging() || Hung(rs))
            && (Overran(Rounds(loops, s)) <==> r.Overrunning() || Overran(rs))
  {
    hide Round.Hanging, Round.Overrunning, Advance, SkipSpace;
    var r, rs := Round(loops[0], SkipSpace(s)), From(Advance(loops, SkipSpace(s)));
    var all := [r] + rs;
    assert Rounds(loops, s) == all;
    assert all[0] == r && forall i :: 0 <= i < |rs| ==> all[i + 1] == rs[i];
  }

  lemma RoundsEnd(loops: seq<Loop>)
    requires |loops| > 0
    ensures Rounds(loops, "") == Rounds(loops[1..], "")
  {
  }

  lemma NoLoops(s: string)
    ensures Rounds([], s) == [] && !Hung([]) && !Overran([])
  {
  }

  lemma {:induction false} ValueTells(s: string, loops: seq<Loop>)
    ensures Tells(From(Some(Enter(loops, SkipSpace(s)))), Parse(s), loops)
    decreases |s|, 2
  {
    hide Rounds, Quoted, ParseItems, ParseMembers, Span, Reading, SkipSpace, Hung, Overran;
    var t := SkipSpace(s);
    NoRounds();
    if |t| > 0 && t[0] == '{' {
      MembersTell([], t[1..], loops);
    } else if |t| > 0 && t[0] == '[' {
      ItemsTell([], t[1..], loops);
    }
  }

  lemma NoRounds()
    ensures !Hung([]) && !Overran([])
  {
  }

  lemma {:induction false} ItemsTell(items: seq<Value>, s: string, loops: seq<Loop>)
    ensures Tells(Rounds([InList] + loops, s), ParseItems(items, s), loops)
    decreases |s|, 3
  {
    hide Rounds, Hung, Overran, Parse, SkipSpace, Enter, BeginsValue;
    var inside, t := [InList] + loops, SkipSpace(s);
    assert inside[0] == InList && inside[1..] == loops;
    NoRounds();
    RoundsEnd(inside);
    if |s| > 0 {
      RoundTells(inside, s);
      if t != "" && t[0] == ',' {
        ItemsTell(items, t[1..], loops);
      } else if t != "" && t[0] != ']' {
        TakesNothingIff(t);
        SkipTwice(s);
        ValueTells(t, inside);
        var r := Parse(t);
        if r.Done? && |r.rest| < |t| { ItemsTell(items + [r.v], r.rest, loops); }
      }
    }
  }

  lemma {:induction false} MembersTell(ms: seq<Member>, s: string, loops: seq<Loop>)
    ensures Tells(Rounds([InRecord] + loops, s), ParseMembers(ms, s), loops)
    decreases |s|, 3
  {
    hide Rounds, Hung, Overran, Parse, SkipSpace, SkipColon, Quoted, Enter, BeginsValue, Put;
    var inside, t := [InRecord] + loops, SkipSpace(s);
    assert inside[0] == InRecord && inside[1..] == loops;
    NoRounds();
    RoundsEnd(inside);
    if |s| > 0 {
      RoundTells(inside, s);
      if t != "" && t[0] == '"' {
        var (key, after) := Quoted(t[1..]);
        var r := Parse(SkipColon(after));
        ValueTells(SkipColon(after), inside);
        if r.Done? { MembersTell(Put(ms, key, r.v), r.rest, loops); }
      } else if t != "" && t[0] != '}' {
        MembersTell(ms, t[1..], loops);
      }
    }
  }

  /** The parser goes round for ever exactly if a list comes to a place where an element
      should begin and no value does. */
  lemma HangsIff(s: string)
    ensures Parse(s) == Hangs <==> Hung(AllRounds(s))
  {
    hide Parse, Rounds, Enter, Hung, Overran;
    ValueTells(s, []);
    if Parse(s).Done? { NoLoops(Parse(s).rest); }
  }

  /** The parser runs over the end of the text exactly if a record comes to a place with
      nothing but white space behind it. */
  lemma OverrunsIff(s: string)
    ensures Parse(s) == Overruns <==> Overran(AllRounds(s))
  {
    hide Parse, Rounds, Enter, Hung, Overran;
    ValueTells(s, []);
    if Parse(s).Done? { NoLoops(Parse(s).rest); }
  }

  lemma HalfSpan(rest: string)
    requires !Continues(rest)
    ensures Span("1.5" + rest) == 3 && Reading("1.5") == Numeral("1.5")
  {
    hide ReadDigits;
    var s := "1.5" + rest;
    assert s[0] == '1' && s[1] == '.' && s[2] == '5' && s[3..] == rest;
    assert s[1..][0] == '.' && s[2..][0] == '5' && s[2..][1..] == rest;
    assert DigitRun(s, false) == 1 && DigitRun(s[2..], false) == 1;
    assert "1.5"[1..][0] == '.' && DigitRun("1.5", false) == 1;
  }

  lemma OneAndAHalf(rest: string)
    requires !Continues(rest)
    ensures Parse("1.5" + rest) == Done(Numeral("1.5"), rest)
  {
    hide ParseItems, ParseMembers, Quoted, Span, Reading;
    HalfSpan(rest);
    var s := "1.5" + rest;
    assert s[0] == '1' && s[3..] == rest && s[..3] == "1.5";
    assert |s| >= 4 ==> s[..4][0] == '1';
    assert |s| >= 5 ==> s[..5][0] == '1';
  }

  lemma ListStops(items: seq<Value>)
    ensures ParseItems(items, "tx") == Hangs
  {
    hide Parse, BeginsValue;
    assert SkipSpace("tx") == "tx" && !BeginsValue("tx") by { NoValue(); }
    TakesNothingIff("tx");
  }

  lemma NoValue()
    ensures !BeginsValue("tx")
  {
  }

  lemma RecordStops(ms: seq<Member>)
    ensures ParseMembers(ms, " ") == Overruns
  {
    assert " "[1..] == "" && SkipSpace(" ") == "";
  }

  lemma HalfInList()
    ensures ParseItems([], "1.5,tx") == Hangs
  {
    hide Parse;
    OneAndAHalf(",tx");
    assert "1.5" + ",tx" == "1.5,tx" && "," + "tx" == ",tx" && [] + [Numeral("1.5")] == [Numeral("1.5")];
    assert SkipSpace("1.5,tx") == "1.5,tx";
    ItemsComma([Numeral("1.5")], "tx");
    ListStops([Numeral("1.5")]);
  }

  lemma HalfInRecord()
    ensures ParseMembers([], "\"a\":1.5 ") == Overruns
  {
    hide Parse, ParseMembers, Put;
    OneAndAHalf(" ");
    assert "\"" + "a" + "\":" + ("1.5" + " ") == "\"a\":1.5 ";
    MembersRead([], "a", "1.5" + " ", Numeral("1.5"), " ");
    RecordStops(Put([], "a", Numeral("1.5")));
  }

  /** Lists that are broken, and records that are cut off, at once or behind a fraction. */
  lemma Endless()
    ensures Parse("[tx") == Hangs && Parse("{ ") == Overruns
    ensures Parse("[1.5,tx") == Hangs && Parse("{\"a\":1.5 ") == Overruns
  {
    hide Parse, ParseItems, ParseMembers;
    ListStops([]);
    RecordStops([]);
    HalfInList();
    HalfInRecord();
    BracketTrip("tx");
    BracketTrip(" ");
    BracketTrip("1.5,tx");
    BracketTrip("\"a\":1.5 ");
    assert "[" + "tx" == "[tx" && "{" + " " == "{ ";
    assert "[" + "1.5,tx" == "[1.5,tx" && "{" + "\"a\":1.5 " == "{\"a\":1.5 ";
  }

  // ----------------------------------------------------------- reader and writer

  function ItemText(g: Shown, v: Value, first: bool): string { (if first then "" else ",") + Print(g, v) }

  function MemberText(g: Shown, m: Member): string { "\"" + m.key + "\":" + Print(g, m.value) }

  lemma Prepend(a: string, b: string, c: string)
    ensures a + (b + c) == a + b + c
  {
  }

  lemma NoItems(g: Shown, items: seq<Value>)
    ensures items == [] ==> PrintItems(g, items, true) == PrintItems(g, items, false) == ""
  {
  }

  lemma NoMembers(g: Shown, ms: seq<Member>)
    ensures ms == [] ==> PrintMembers(g, ms, true) == PrintMembers(g, ms, false) == ""
  {
  }

  lemma ItemStep(g: Shown, items: seq<Value>, i: nat)
    requires i < |items|
    ensures PrintItems(g, items[i..], i == 0) == ItemText(g, items[i], i == 0) + PrintItems(g, items[i + 1..], false)
  {
    hide Print;
    assert items[i..][1..] == items[i + 1..] && items[i..][0] == items[i];
  }

  lemma MemberStep(g: Shown, ms: seq<Member>, i: nat)
    requires i < |ms|
    ensures PrintMembers(g, ms[i..], i == 0)
            == (if i == 0 then "" else ",") + MemberText(g, ms[i]) + PrintMembers(g, ms[i + 1..], false)
  {
    hide Print;
    var sep, m := if i == 0 then "" else ",", ms[i];
    assert ms[i..][1..] == ms[i + 1..] && ms[i..][0] == m;
    Regroup4(sep, "\"", m.key, "\":", Print(g, m.value));
  }

  lemma Regroup4(a: string, b: string, c: string, d: string, e: string)
    ensures a + b + c + d + e == a + (b + c + d + e)
  {
  }

  /** The printer, which appends to a buffer. */
  class Writer {
    const g: Shown
    var buffer: string

    constructor (g: Shown)
      ensures this.g == g && buffer == ""
    {
      this.g, buffer := g, "";
    }

    method Write(v: Value)
      modifies this
      ensures buffer == old(buffer) + Print(g, v)
      decreases v, 0
    {
      hide PrintItems, PrintMembers, PrintInt;
      match v
      case Undefined => buffer := buffer + "null";
      case Null => buffer := buffer + "null";
      case Boolean(b) => buffer := buffer + if b then "true" else "false";
      case Number(n) => buffer := buffer + PrintInt(n);
      case Numeral(text) => buffer := buffer + g(text);
      case Text(s) =>
        ghost var was := buffer;
        buffer := buffer + "\"";
        buffer := buffer + s;
        buffer := buffer + "\"";
        Regroup(was, "\"", s, "\"");
      case List(items) =>
        ghost var was := buffer;
        buffer := buffer + "[";
        WriteItems(items);
        buffer := buffer + "]";
        Regroup(was, "[", PrintItems(g, items, true), "]");
      case Record(ms) =>
        ghost var was := buffer;
        buffer := buffer + "{";
        WriteMembers(ms);
        buffer := buffer + "}";
        Regroup(was, "{", PrintMembers(g, ms, true), "}");
    }

    method WriteItem(v: Value, first: bool)
      modifies this
      ensures buffer == old(buffer) + ItemText(g, v, first)
      decreases v, 1
    {
      hide Print;
      ghost var b := buffer;
      if !first {
        buffer := buffer + ",";
      }
      Write(v);
      Prepend(b, if first then "" else ",", Print(g, v));
    }

    method WriteItems(items: seq<Value>)
      modifies this
      ensures buffer == old(buffer) + PrintItems(g, items, true)
      decreases items, 0
    {
      hide Print, PrintItems, ItemText;
      assert items[0..] == items;
      for i := 0 to |items|
        invariant old(buffer) + PrintItems(g, items, true) == buffer + PrintItems(g, items[i..], i == 0)
      {
        ghost var b := buffer;
        ItemStep(g, items, i);
        WriteItem(items[i], i == 0);
        Prepend(b, ItemText(g, items[i], i == 0), PrintItems(g, items[i + 1..], false));
      }
      NoItems(g, items[|items|..]);
    }

    method WriteMember(m: Member)
      modifies this
      ensures buffer == old(buffer) + MemberText(g, m)
      decreases m, 0
    {
      hide Print;
      buffer := buffer + "\"";
      buffer := buffer + m.key;
      buffer := buffer + "\":";
      ghost var b := old(buffer);
      assert buffer == b + ("\"" + m.key + "\":");
      Write(m.value);
      Prepend(b, "\"" + m.key + "\":", Print(g, m.value));
    }

    method WriteMembers(ms: seq<Member>)
      modifies this
      ensures buffer == old(buffer) + PrintMembers(g, ms, true)
      decreases ms, 0
    {
      hide Print, PrintMembers, MemberText;
      assert ms[0..] == ms;
      for i := 0 to |ms|
        invariant old(buffer) + PrintMembers(g, ms, true) == buffer + PrintMembers(g, ms[i..], i == 0)
      {
        ghost var b, sep := buffer, if i == 0 then "" else ",";
        MemberStep(g, ms, i);
        if i > 0 {
          buffer := buffer + ",";
        }
        assert buffer == b + sep;
        WriteMember(ms[i]);
        Prepend(b, sep, MemberText(g, ms[i]));
        Prepend(b, sep + MemberText(g, ms[i]), PrintMembers(g, ms[i + 1..], false));
      }
      NoMembers(g, ms[|ms|..]);
    }
  }

  /** The parser, which advances a position in the text. */
  class Reader {
    const text: string
    var pos: nat

    constructor (text: string)
      ensures this.text == text && pos == 0
    {
      this.text, pos := text, 0;
    }

    ghost predicate Valid()
      reads this
    {
      pos <= |text|
    }

    ghost function Rest(): string
      reads this
      requires Valid()
    {
      text[pos..]
    }

    method Skip()
      requires Valid()
      modifies this
      ensures Valid() && old(pos) <= pos && Rest() == SkipSpace(old(Rest()))
    {
      while pos < |text| && IsSpace(text[pos])
        invariant Valid() && old(pos) <= pos && SkipSpace(old(Rest())) == SkipSpace(Rest())
      {
        assert Rest()[1..] == text[pos + 1..];
        pos := pos + 1;
      }
    }

    /** Reads up to and over the closing quote. */
    method ReadQuoted() returns (s: string)
      requires Valid()
      modifies this
      ensures Valid() && old(pos) <= pos && (s, Rest()) == Quoted(old(Rest()))
    {
      var start := pos;
      while pos < |text| && text[pos] != '"'
        invariant start <= pos <= |text| && ToQuote(text[start..]) == pos - start + ToQuote(Rest())
      {
        assert Rest()[1..] == text[pos + 1..];
        pos := pos + 1;
      }
      s := text[start..pos];
      assert text[start..][..pos - start] == s;
      if pos < |text| {
        assert text[start..][pos - start + 1..] == text[pos + 1..];
        pos := pos + 1;
      }
    }

    method Read() returns (r: Outcome)
      requires Valid()
      modifies this
      ensures Valid() && r == Parse(old(Rest())) && (r.Done? ==> Rest() == r.rest)
      decreases |text| - pos, 2
    {
      hide ParseItems, ParseMembers, SkipSpace, Quoted, Span, Reading;
      Skip();
      ghost var t := Rest();
      if pos == |text| {
        return Done(Undefined, text[pos..]);
      }
      var c := text[pos];
      assert t[1..] == text[pos + 1..];
      if c == '{' {
        pos := pos + 1;
        r := ReadMembers();
      } else if c == '[' {
        pos := pos + 1;
        r := ReadItems();
      } else if c == '"' {
        pos := pos + 1;
        var s := ReadQuoted();
        r := Done(Text(s), text[pos..]);
      } else if StartsWith(text[pos..], "true") {
        pos := pos + 4;
        r := Done(Boolean(true), text[pos..]);
      } else if StartsWith(text[pos..], "false") {
        pos := pos + 5;
        r := Done(Boolean(false), text[pos..]);
      } else if StartsWith(text[pos..], "null") {
        pos := pos + 4;
        r := Done(Null, text[pos..]);
      } else if IsDigit(c) || c == '-' {
        var n := Span(text[pos..]);
        r := if n == 0 then Done(Number(0), text[pos..]) else Done(Reading(text[pos..][..n]), text[pos + n..]);
        pos := pos + n;
      } else {
        r := Done(Undefined, text[pos..]);
      }
    }

    method ReadItems() returns (r: Outcome)
      requires Valid()
      modifies this
      ensures Valid() && r == ParseItems([], old(Rest())) && (r.Done? ==> Rest() == r.rest)
      decreases |text| - pos, 3
    {
      hide Parse, SkipSpace;
      var items := [];
      while pos < |text|
        invariant Valid() && old(pos) <= pos && ParseItems([], old(Rest())) == ParseItems(items, Rest())
        decreases |text| - pos
      {
        ghost var s := Rest();
        Skip();
        ghost var t := Rest();
        SkipTwice(s);
        if pos < |text| && text[pos] == ']' {
          assert t[1..] == text[pos + 1..];
          pos := pos + 1;
          return Done(List(items), text[pos..]);
        }
        if pos < |text| && text[pos] == ',' {
          assert t[1..] == text[pos + 1..];
          pos := pos + 1;
          continue;
        }
        if pos == |text| {
          return Done(List(items + [Undefined]), text[pos..]);
        }
        var was := pos;
        var v := Read();
        if !v.Done? {
          return v;
        }
        if pos == was {
          return Hangs;
        }
        items := items + [v.v];
      }
      r := Done(List(items), text[pos..]);
    }

    method ReadMembers() returns (r: Outcome)
      requires Valid()
      modifies this
      ensures Valid() && r == ParseMembers([], old(Rest())) && (r.Done? ==> Rest() == r.rest)
      decreases |text| - pos, 3
    {
      hide Parse, SkipSpace, SkipColon, Quoted, Put;
      var ms := [];
      while pos < |text|
        invariant Valid() && old(pos) <= pos && ParseMembers([], old(Rest())) == ParseMembers(ms, Rest())
        decreases |text| - pos
      {
        Skip();
        if pos == |text| {
          return Overruns;
        }
        var c := text[pos];
        ghost var t := Rest();
        assert t[1..] == text[pos + 1..];
        pos := pos + 1;
        if c == '}' {
          return Done(Record(ms), text[pos..]);
        }
        if c == '"' {
          var key := ReadQuoted();
          SkipSeparator();
          var v := Read();
          if !v.Done? {
            return v;
          }
          ms := Put(ms, key, v.v);
        }
      }
      r := Done(Record(ms), text[pos..]);
    }

    method SkipSeparator()
      requires Valid()
      modifies this
      ensures Valid() && old(pos) <= pos && Rest() == SkipColon(old(Rest()))
    {
      while pos < |text| && (text[pos] == ' ' || text[pos] == ':')
        invariant Valid() && old(pos) <= pos && SkipColon(old(Rest())) == SkipColon(Rest())
      {
        assert Rest()[1..] == text[pos + 1..];
        pos := pos + 1;
      }
    }
  }

  lemma {:induction false} SkipTwice(s: string)
    ensures SkipSpace(SkipSpace(s)) == SkipSpace(s)
  {
    if |s| > 0 && IsSpace(s[0]) { SkipTwice(s[1..]); }
  }
}
