/** The file format of compiled programs: a header, the constants, the instructions and the
    function table, in little-endian order. */
module ProgramFile {
  import opened Options

  type Bytes = seq<int>

  const U32 := 0x1_0000_0000
  const HEADER := 20
  const MAGIC: Bytes := [67, 66, 67, 0]

  /** A constant is a string, or a value that is kept as eight bytes. */
  datatype Constant = Text(chars: Bytes) | Word(low: int, high: int)

  datatype Function = Function(offset: int, registers: int, params: int, isAsync: bool)

  datatype Program = Program(constants: seq<Constant>, code: seq<int>, functions: seq<Function>)

  predicate IsU32(n: int) { 0 <= n < U32 }

  predicate AreBytes(s: Bytes) { forall i :: 0 <= i < |s| ==> 0 <= s[i] < 256 }

  predicate FitsConstant(c: Constant) {
    match c
    case Text(chars) => AreBytes(chars) && IsU32(|chars|)
    case Word(low, high) => IsU32(low) && IsU32(high)
  }

  predicate FitsFunction(f: Function) { IsU32(f.offset) && IsU32(f.registers) && IsU32(f.params) }

  /** Everything has the width the format gives it. */
  predicate Fits(p: Program) {
    && IsU32(|p.constants|) && IsU32(|p.code|) && IsU32(|p.functions|)
    && (forall i :: 0 <= i < |p.constants| ==> FitsConstant(p.constants[i]))
    && (forall i :: 0 <= i < |p.code| ==> IsU32(p.code[i]))
    && (forall i :: 0 <= i < |p.functions| ==> FitsFunction(p.functions[i]))
  }

  // ------------------------------------------------------------------- writing

  function Put32(n: int): (b: Bytes)
    ensures |b| == 4
  {
    [n % 256, n / 0x100 % 256, n / 0x1_0000 % 256, n / 0x100_0000 % 256]
  }

  function PutConstant(c: Constant): Bytes {
    match c
    case Text(chars) => [1] + Put32(|chars|) + chars
    case Word(low, high) => [0] + Put32(low) + Put32(high)
  }

  function PutConstants(cs: seq<Constant>): Bytes {
    if |cs| == 0 then [] else PutConstant(cs[0]) + PutConstants(cs[1..])
  }

  function PutCode(code: seq<int>): Bytes {
    if |code| == 0 then [] else Put32(code[0]) + PutCode(code[1..])
  }

  function PutFunction(f: Function): Bytes { Put32(f.offset) + Put32(f.registers) + Put32(f.params) }

  function PutFunctions(fs: seq<Function>): Bytes {
    if |fs| == 0 then [] else PutFunction(fs[0]) + PutFunctions(fs[1..])
  }

  function Body(p: Program): Bytes {
    PutConstants(p.constants) + (PutCode(p.code) + PutFunctions(p.functions))
  }

  function Serialize(p: Program): Bytes {
    MAGIC + (Put32(1) + (Put32(|p.constants|) + (Put32(|p.code|) + (Put32(|p.functions|) + Body(p)))))
  }

  /** The size computed before anything is written. */
  function Total(p: Program): nat {
    HEADER + ConstantSizes(p.constants) + 4 * |p.code| + 12 * |p.functions|
  }

  function ConstantSizes(cs: seq<Constant>): nat {
    if |cs| == 0 then 0 else 1 + (if cs[0].Text? then 4 + |cs[0].chars| else 8) + ConstantSizes(cs[1..])
  }

  // ------------------------------------------------------------------- reading

  /** `Overruns` is a read beyond the end, which the original does not guard against. */
  datatype Read<T> = Got(value: T, rest: Bytes) | Overruns

  function Get32(b: Bytes): (r: Read<int>)
    ensures r.Got? ==> |r.rest| < |b|
  {
    if |b| < 4 then Overruns
    else Got(b[0] + b[1] * 0x100 + b[2] * 0x1_0000 + b[3] * 0x100_0000, b[4..])
  }

  function GetConstant(b: Bytes): (r: Read<Constant>)
    ensures r.Got? ==> |r.rest| < |b|
  {
    if |b| == 0 then Overruns
    else if b[0] == 1 then
      var n := Get32(b[1..]);
      if n.Overruns? || n.value < 0 || |n.rest| < n.value then Overruns
      else Got(Text(n.rest[..n.value]), n.rest[n.value..])
    else
      var low := Get32(b[1..]);
      if low.Overruns? then Overruns
      else
        var high := Get32(low.rest);
        if high.Overruns? then Overruns else Got(Word(low.value, high.value), high.rest)
  }

  function GetConstants(n: nat, b: Bytes): Read<seq<Constant>> {
    if n == 0 then Got([], b)
    else
      var c := GetConstant(b);
      if c.Overruns? then Overruns
      else
        var cs := GetConstants(n - 1, c.rest);
        if cs.Overruns? then Overruns else Got([c.value] + cs.value, cs.rest)
  }

  function GetCode(n: nat, b: Bytes): Read<seq<int>> {
    if n == 0 then Got([], b)
    else
      var w := Get32(b);
      if w.Overruns? then Overruns
      else
        var ws := GetCode(n - 1, w.rest);
        if ws.Overruns? then Overruns else Got([w.value] + ws.value, ws.rest)
  }

  function GetFunction(b: Bytes): Read<Function> {
    if |b| < 12 then Overruns
    else Got(Function(Get32(b).value, Get32(b[4..]).value, Get32(b[8..]).value, false), b[12..])
  }

  function GetFunctions(n: nat, b: Bytes): Read<seq<Function>> {
    if n == 0 then Got([], b)
    else
      var f := GetFunction(b);
      if f.Overruns? then Overruns
      else
        var fs := GetFunctions(n - 1, f.rest);
        if fs.Overruns? then Overruns else Got([f.value] + fs.value, fs.rest)
  }

  /** None if the header is short, or has another magic number or version. */
  function Deserialize(b: Bytes): Option<Read<Program>> {
    if |b| < HEADER || b[..4] != MAGIC || Get32(b[4..]).value != 1 then None
    else
      var c, k, f := Get32(b[8..]).value, Get32(b[12..]).value, Get32(b[16..]).value;
      if c < 0 || k < 0 || f < 0 then None else Some(GetBody(c, k, f, b[HEADER..]))
  }

  function GetBody(c: nat, k: nat, f: nat, b: Bytes): Read<Program> {
    var cs := GetConstants(c, b);
    if cs.Overruns? then Overruns
    else
      var code := GetCode(k, cs.rest);
      if code.Overruns? then Overruns
      else
        var fs := GetFunctions(f, code.rest);
        if fs.Overruns? then Overruns else Got(Program(cs.value, code.value, fs.value), fs.rest)
  }

  // ---------------------------------------------------------------- round trip

  lemma Trip32(n: int, rest: Bytes)
    requires IsU32(n)
    ensures Get32(Put32(n) + rest) == Got(n, rest)
  {
    var b := Put32(n) + rest;
    assert b[4..] == rest && b[..4] == Put32(n);
    assert b[0] == n % 256 && b[1] == n / 0x100 % 256 && b[2] == n / 0x1_0000 % 256 && b[3] == n / 0x100_0000 % 256;
    Recompose(n);
    hide Put32;
  }

  lemma Recompose(n: int)
    requires IsU32(n)
    ensures n % 256 + n / 0x100 % 256 * 0x100 + n / 0x1_0000 % 256 * 0x1_0000 + n / 0x100_0000 % 256 * 0x100_0000 == n
  {
    var n1 := n / 0x100;
    var n2 := n1 / 0x100;
    assert n == n1 * 0x100 + n % 256;
    assert n1 == n2 * 0x100 + n1 % 256 && n2 == n / 0x1_0000;
    assert n2 == n2 / 0x100 * 0x100 + n2 % 256 && n2 / 0x100 == n / 0x100_0000;
  }

  lemma TripConstant(c: Constant, rest: Bytes)
    requires FitsConstant(c)
    ensures GetConstant(PutConstant(c) + rest) == Got(c, rest)
  {
    hide Put32, Get32;
    var b := PutConstant(c) + rest;
    match c
    case Text(chars) =>
      assert b[0] == 1 && b[1..] == Put32(|chars|) + (chars + rest);
      Trip32(|chars|, chars + rest);
      assert (chars + rest)[..|chars|] == chars && (chars + rest)[|chars|..] == rest;
    case Word(low, high) =>
      assert b[0] == 0 && b[1..] == Put32(low) + (Put32(high) + rest);
      Trip32(low, Put32(high) + rest);
      Trip32(high, rest);
  }

  lemma {:induction false} TripConstants(cs: seq<Constant>, rest: Bytes)
    requires forall i :: 0 <= i < |cs| ==> FitsConstant(cs[i])
    ensures GetConstants(|cs|, PutConstants(cs) + rest) == Got(cs, rest)
  {
    hide PutConstant, GetConstant;
    if |cs| == 0 {
      assert PutConstants(cs) + rest == rest;
    } else {
      var more := PutConstants(cs[1..]) + rest;
      assert PutConstants(cs) + rest == PutConstant(cs[0]) + more;
      TripConstant(cs[0], more);
      TripConstants(cs[1..], rest);
      assert [cs[0]] + cs[1..] == cs;
    }
  }

  lemma {:induction false} TripCode(code: seq<int>, rest: Bytes)
    requires forall i :: 0 <= i < |code| ==> IsU32(code[i])
    ensures GetCode(|code|, PutCode(code) + rest) == Got(code, rest)
  {
    hide Put32, Get32;
    if |code| == 0 {
      assert PutCode(code) + rest == rest;
    } else {
      var more := PutCode(code[1..]) + rest;
      assert PutCode(code) + rest == Put32(code[0]) + more;
      Trip32(code[0], more);
      TripCode(code[1..], rest);
      assert [code[0]] + code[1..] == code;
    }
  }

  /** The flag of asynchronous functions is not written. */
  function Stored(f: Function): Function { f.(isAsync := false) }

  function StoredAll(fs: seq<Function>): seq<Function> {
    if |fs| == 0 then [] else [Stored(fs[0])] + StoredAll(fs[1..])
  }

  lemma TripFunction(f: Function, rest: Bytes)
    requires FitsFunction(f)
    ensures GetFunction(PutFunction(f) + rest) == Got(Stored(f), rest)
  {
    hide Put32, Get32;
    var b := PutFunction(f) + rest;
    var b1 := Put32(f.registers) + (Put32(f.params) + rest);
    assert b == Put32(f.offset) + b1 && b[4..] == b1 && b[8..] == Put32(f.params) + rest && b[12..] == rest;
    Trip32(f.offset, b1);
    Trip32(f.registers, Put32(f.params) + rest);
    Trip32(f.params, rest);
  }

  lemma {:induction false} TripFunctions(fs: seq<Function>, rest: Bytes)
    requires forall i :: 0 <= i < |fs| ==> FitsFunction(fs[i])
    ensures GetFunctions(|fs|, PutFunctions(fs) + rest) == Got(StoredAll(fs), rest)
  {
    hide PutFunction, GetFunction;
    if |fs| == 0 {
      assert PutFunctions(fs) + rest == rest;
    } else {
      var more := PutFunctions(fs[1..]) + rest;
      assert PutFunctions(fs) + rest == PutFunction(fs[0]) + more;
      TripFunction(fs[0], more);
      TripFunctions(fs[1..], rest);
    }
  }

  lemma TripBody(p: Program)
    requires Fits(p)
    ensures GetBody(|p.constants|, |p.code|, |p.functions|, Body(p)) == Got(p.(functions := StoredAll(p.functions)), [])
  {
    hide PutConstants, PutCode, PutFunctions, GetConstants, GetCode, GetFunctions;
    var fs := PutFunctions(p.functions);
    TripConstants(p.constants, PutCode(p.code) + fs);
    TripCode(p.code, fs);
    assert fs + [] == fs;
    TripFunctions(p.functions, []);
  }

  lemma TripHeader(p: Program)
    requires Fits(p)
    ensures var b := Serialize(p);
            && |b| >= HEADER && b[..4] == MAGIC && b[HEADER..] == Body(p) && Get32(b[4..]).value == 1
            && Get32(b[8..]).value == |p.constants| && Get32(b[12..]).value == |p.code|
            && Get32(b[16..]).value == |p.functions|
  {
    hide Put32, Get32, Body;
    var b4 := Put32(|p.functions|) + Body(p);
    var b3 := Put32(|p.code|) + b4;
    var b2 := Put32(|p.constants|) + b3;
    var b1, b := Put32(1) + b2, Serialize(p);
    assert b == MAGIC + b1;
    assert b[4..] == b1 && b[..4] == MAGIC;
    assert b[8..] == b1[4..] == b2;
    assert b[12..] == b2[4..] == b3;
    assert b[16..] == b3[4..] == b4;
    assert b[20..] == b4[4..] == Body(p);
    Trip32(1, b2);
    Trip32(|p.constants|, b3);
    Trip32(|p.code|, b4);
    Trip32(|p.functions|, Body(p));
  }

  /** Reading a written program gives it back, except that no function is asynchronous. */
  lemma RoundTrip(p: Program)
    requires Fits(p)
    ensures Deserialize(Serialize(p)) == Some(Got(p.(functions := StoredAll(p.functions)), []))
  {
    hide Serialize, GetBody, Get32, Body;
    TripHeader(p);
    TripBody(p);
  }

  /** The 32-bit number at position `k`, its lowest byte first. */
  function NumberAt(b: Bytes, k: nat): int
    requires k + 4 <= |b|
  {
    b[k] + 0x100 * b[k + 1] + 0x1_0000 * b[k + 2] + 0x100_0000 * b[k + 3]
  }

  lemma NumberIs(b: Bytes, k: nat, n: int)
    requires k + 4 <= |b| && b[k..k + 4] == Put32(n) && IsU32(n)
    ensures NumberAt(b, k) == n
  {
    Recompose(n);
    var w := b[k..k + 4];
    assert w[0] == b[k] && w[1] == b[k + 1] && w[2] == b[k + 2] && w[3] == b[k + 3];
  }

  lemma {:induction false} CodeAt(code: seq<int>, i: nat)
    requires i < |code|
    ensures 4 * i + 4 <= |PutCode(code)| && PutCode(code)[4 * i..4 * i + 4] == Put32(code[i])
  {
    hide Put32;
    CodeSize(code);
    if i > 0 {
      CodeAt(code[1..], i - 1);
      assert PutCode(code)[4 * i..4 * i + 4] == PutCode(code[1..])[4 * (i - 1)..4 * (i - 1) + 4];
    }
  }

  lemma {:induction false} FunctionAt(fs: seq<Function>, i: nat)
    requires i < |fs|
    ensures 12 * i + 12 <= |PutFunctions(fs)| && PutFunctions(fs)[12 * i..12 * i + 12] == PutFunction(fs[i])
  {
    hide PutFunction;
    FunctionsSize(fs);
    assert |PutFunction(fs[0])| == 12 by { FunctionSize(fs[0]); }
    if i > 0 {
      FunctionAt(fs[1..], i - 1);
      assert PutFunctions(fs)[12 * i..12 * i + 12] == PutFunctions(fs[1..])[12 * (i - 1)..12 * (i - 1) + 12];
    }
  }

  lemma FunctionSize(f: Function)
    ensures |PutFunction(f)| == 12
  {
  }

  /** The header: the letters CBC and a zero, the version, and three counts. */
  lemma HeaderLayout(p: Program)
    requires Fits(p)
    ensures var b := Serialize(p);
            && |b| >= 20 && b[..4] == ['C' as int, 'B' as int, 'C' as int, 0] && NumberAt(b, 4) == 1
            && NumberAt(b, 8) == |p.constants| && NumberAt(b, 12) == |p.code| && NumberAt(b, 16) == |p.functions|
  {
    hide Put32, Body, NumberAt;
    var b := Serialize(p);
    assert b[4..8] == Put32(1) && b[8..12] == Put32(|p.constants|);
    assert b[12..16] == Put32(|p.code|) && b[16..20] == Put32(|p.functions|);
    NumberIs(b, 4, 1);
    NumberIs(b, 8, |p.constants|);
    NumberIs(b, 12, |p.code|);
    NumberIs(b, 16, |p.functions|);
  }

  /** The instructions come behind the constants, four bytes each. */
  lemma CodeLayout(p: Program, i: nat)
    requires Fits(p) && i < |p.code|
    ensures var b, at := Serialize(p), 20 + ConstantSizes(p.constants) + 4 * i;
            at + 4 <= |b| && NumberAt(b, at) == p.code[i]
  {
    hide Put32, PutCode, PutConstants, PutFunctions, NumberAt, ConstantSizes, Serialize;
    var b, c := Serialize(p), 20 + ConstantSizes(p.constants);
    ConstantsSize(p.constants);
    CodeSize(p.code);
    Sections(p);
    CodeAt(p.code, i);
    Slice(b, c, c + 4 * |p.code|, 4 * i, 4);
    NumberIs(b, c + 4 * i, p.code[i]);
  }

  /** The functions come behind the instructions, with their offset, register count and
      parameter count. */
  lemma FunctionLayout(p: Program, j: nat)
    requires Fits(p) && j < |p.functions|
    ensures var b, at := Serialize(p), 20 + ConstantSizes(p.constants) + 4 * |p.code| + 12 * j;
            && at + 12 <= |b| && NumberAt(b, at) == p.functions[j].offset
            && NumberAt(b, at + 4) == p.functions[j].registers && NumberAt(b, at + 8) == p.functions[j].params
  {
    hide Put32, PutCode, PutConstants, PutFunctions, NumberAt, ConstantSizes, Serialize;
    var b, f := Serialize(p), 20 + ConstantSizes(p.constants) + 4 * |p.code|;
    ConstantsSize(p.constants);
    CodeSize(p.code);
    FunctionsSize(p.functions);
    Sections(p);
    FunctionAt(p.functions, j);
    var k, fn := f + 12 * j, p.functions[j];
    assert b[f..] == b[f..|b|];
    Slice(b, f, |b|, 12 * j, 12);
    Slice(b, k, k + 12, 0, 4);
    Slice(b, k, k + 12, 4, 4);
    Slice(b, k, k + 12, 8, 4);
    FunctionParts(fn);
    NumberIs(b, k, fn.offset);
    NumberIs(b, k + 4, fn.registers);
    NumberIs(b, k + 8, fn.params);
  }

  lemma FunctionParts(f: Function)
    ensures var w := PutFunction(f);
            |w| == 12 && w[0..4] == Put32(f.offset) && w[4..8] == Put32(f.registers) && w[8..12] == Put32(f.params)
  {
    hide Put32;
    var a, b, c := Put32(f.offset), Put32(f.registers), Put32(f.params);
    assert (a + b + c)[0..4] == a && (a + b + c)[4..8] == b && (a + b + c)[8..12] == c;
  }

  lemma Slice(b: Bytes, lo: nat, hi: nat, k: nat, n: nat)
    requires lo + k + n <= hi <= |b|
    ensures b[lo..hi][k..k + n] == b[lo + k..lo + k + n]
  {
    var x, y := b[lo..hi][k..k + n], b[lo + k..lo + k + n];
    forall i | 0 <= i < n ensures x[i] == y[i] { assert x[i] == b[lo..hi][k + i]; }
  }

  lemma Sections(p: Program)
    ensures var b, c := Serialize(p), 20 + |PutConstants(p.constants)|;
            var f := c + |PutCode(p.code)|;
            && f <= |b| && b[20..c] == PutConstants(p.constants)
            && b[c..f] == PutCode(p.code) && b[f..] == PutFunctions(p.functions)
  {
    hide PutCode, PutConstants, PutFunctions;
    var head := MAGIC + Put32(1) + Put32(|p.constants|) + Put32(|p.code|) + Put32(|p.functions|);
    assert Serialize(p) == head + Body(p) && |head| == 20;
  }

  /** The writer fills exactly the size that was computed. */
  lemma SizeExact(p: Program)
    ensures |Serialize(p)| == Total(p)
  {
    ConstantsSize(p.constants);
    CodeSize(p.code);
    FunctionsSize(p.functions);
  }

  lemma {:induction false} ConstantsSize(cs: seq<Constant>)
    ensures |PutConstants(cs)| == ConstantSizes(cs)
  {
    if |cs| > 0 { ConstantsSize(cs[1..]); }
  }

  lemma {:induction false} CodeSize(code: seq<int>)
    ensures |PutCode(code)| == 4 * |code|
  {
    if |code| > 0 { CodeSize(code[1..]); }
  }

  lemma {:induction false} FunctionsSize(fs: seq<Function>)
    ensures |PutFunctions(fs)| == 12 * |fs|
  {
    if |fs| > 0 { FunctionsSize(fs[1..]); }
  }

  // ----------------------------------------------------------- writer and reader

  /** The writer: header, constants, code, functions, each in a loop. */
  method Write(p: Program) returns (b: Bytes)
    ensures b == Serialize(p) && |b| == Total(p)
  {
    hide Put32, PutConstants, PutCode, PutFunctions;
    SizeExact(p);
    var cs := WriteConstants(p.constants);
    var code := WriteCode(p.code);
    var fs := WriteFunctions(p.functions);
    b := MAGIC + (Put32(1) + (Put32(|p.constants|) + (Put32(|p.code|) + (Put32(|p.functions|) + (cs + (code + fs))))));
  }

  method WriteConstants(cs: seq<Constant>) returns (b: Bytes)
    ensures b == PutConstants(cs)
  {
    hide PutConstant;
    b := [];
    for i := 0 to |cs|
      invariant PutConstants(cs) == b + PutConstants(cs[i..])
    {
      assert cs[i..][1..] == cs[i + 1..];
      b := b + PutConstant(cs[i]);
    }
  }

  method WriteCode(code: seq<int>) returns (b: Bytes)
    ensures b == PutCode(code)
  {
    hide Put32;
    b := [];
    for i := 0 to |code|
      invariant PutCode(code) == b + PutCode(code[i..])
    {
      assert code[i..][1..] == code[i + 1..];
      b := b + Put32(code[i]);
    }
  }

  method WriteFunctions(fs: seq<Function>) returns (b: Bytes)
    ensures b == PutFunctions(fs)
  {
    hide PutFunction;
    b := [];
    for i := 0 to |fs|
      invariant PutFunctions(fs) == b + PutFunctions(fs[i..])
    {
      assert fs[i..][1..] == fs[i + 1..];
      b := b + PutFunction(fs[i]);
    }
  }

  function Onto<T>(done: seq<T>, r: Read<seq<T>>): Read<seq<T>> {
    if r.Got? then Got(done + r.value, r.rest) else Overruns
  }

  lemma OntoNone<T>(done: seq<T>, r: Read<seq<T>>, rest: Bytes)
    ensures Onto([], r) == r && Onto(done, Got([], rest)) == Got(done, rest)
  {
    assert done + [] == done;
    if r.Got? { assert [] + r.value == r.value; }
  }

  lemma OntoOne<T>(done: seq<T>, x: T, r: Read<seq<T>>)
    ensures Onto(done, if r.Got? then Got([x] + r.value, r.rest) else Overruns) == Onto(done + [x], r)
  {
    if r.Got? { assert done + ([x] + r.value) == done + [x] + r.value; }
  }

  method ReadConstants(n: nat, b: Bytes) returns (r: Read<seq<Constant>>)
    ensures r == GetConstants(n, b)
  {
    hide GetConstant;
    var cs, rest := [], b;
    OntoNone(cs, GetConstants(n, b), b);
    for i := 0 to n
      invariant GetConstants(n, b) == Onto(cs, GetConstants(n - i, rest))
    {
      var c := GetConstant(rest);
      if c.Overruns? {
        return Overruns;
      }
      OntoOne(cs, c.value, GetConstants(n - i - 1, c.rest));
      cs, rest := cs + [c.value], c.rest;
    }
    OntoNone(cs, GetConstants(0, rest), rest);
    r := Got(cs, rest);
  }

  method ReadCode(n: nat, b: Bytes) returns (r: Read<seq<int>>)
    ensures r == GetCode(n, b)
  {
    hide Get32;
    var code, rest := [], b;
    OntoNone(code, GetCode(n, b), b);
    for i := 0 to n
      invariant GetCode(n, b) == Onto(code, GetCode(n - i, rest))
    {
      var w := Get32(rest);
      if w.Overruns? {
        return Overruns;
      }
      OntoOne(code, w.value, GetCode(n - i - 1, w.rest));
      code, rest := code + [w.value], w.rest;
    }
    OntoNone(code, GetCode(0, rest), rest);
    r := Got(code, rest);
  }

  method ReadFunctions(n: nat, b: Bytes) returns (r: Read<seq<Function>>)
    ensures r == GetFunctions(n, b)
  {
    hide GetFunction;
    var fs, rest := [], b;
    OntoNone(fs, GetFunctions(n, b), b);
    for i := 0 to n
      invariant GetFunctions(n, b) == Onto(fs, GetFunctions(n - i, rest))
    {
      var f := GetFunction(rest);
      if f.Overruns? {
        return Overruns;
      }
      OntoOne(fs, f.value, GetFunctions(n - i - 1, f.rest));
      fs, rest := fs + [f.value], f.rest;
    }
    OntoNone(fs, GetFunctions(0, rest), rest);
    r := Got(fs, rest);
  }

  method ReadProgram(b: Bytes) returns (r: Option<Read<Program>>)
    ensures r == Deserialize(b)
  {
    hide GetConstants, GetCode, GetFunctions;
    if |b| < HEADER || b[..4] != MAGIC || Get32(b[4..]).value != 1 {
      return None;
    }
    var c, k, f := Get32(b[8..]).value, Get32(b[12..]).value, Get32(b[16..]).value;
    if c < 0 || k < 0 || f < 0 {
      return None;
    }
    var cs := ReadConstants(c, b[HEADER..]);
    if cs.Overruns? {
      return Some(Overruns);
    }
    var code := ReadCode(k, cs.rest);
    if code.Overruns? {
      return Some(Overruns);
    }
    var fs := ReadFunctions(f, code.rest);
    if fs.Overruns? {
      return Some(Overruns);
    }
    r := Some(Got(Program(cs.value, code.value, fs.value), fs.rest));
  }
}
