/** The expression parser: one function per precedence level, over tokens. */
module ParserLadder {
  datatype BinOp =
    | Or | Nullish | And | BitOr | BitXor | BitAnd
    | Eq | Ne | EqLoose | NeLoose | Lt | Le | Gt | Ge | In | InstanceOf
    | Shl | Shr | Ushr | Add | Sub | Mul | Div | Mod | Pow

  datatype PreOp = Neg | Not | BitNot | TypeOf | Void | Delete | Await | PreInc | PreDec

  datatype Expr =
    | Atom(name: string)
    | Unary(pre: PreOp, arg: Expr)
    | Postfix(inc: bool, arg: Expr)
    | Binary(op: BinOp, left: Expr, right: Expr)
    | Ternary(cond: Expr, thn: Expr, els: Expr)
    | Assign(compound: nat, target: Expr, value: Expr)
    | Sequence(items: seq<Expr>)

  datatype Token =
    | TAtom(name: string) | TBin(op: BinOp) | TPre(pre: PreOp) | TIncDec(inc: bool)
    | TQuestion | TColon | TAssign(compound: nat) | TComma | TLeft | TRight | TOther

  // Levels of the ladder; those from OR to MUL are left-associative binary operators.
  const SEQUENCE := 0
  const ASSIGN := 1
  const TERNARY := 2
  const OR := 3
  const MUL := 12
  const POW := 13
  const UNARY := 14
  const POSTFIX := 15
  const PRIMARY := 16

  function OpLevel(op: BinOp): (l: int)
    ensures OR <= l <= POW && (l == POW <==> op == Pow)
  {
    match op
    case Or => 3 case Nullish => 3
    case And => 4 case BitOr => 5 case BitXor => 6 case BitAnd => 7
    case Eq => 8 case Ne => 8 case EqLoose => 8 case NeLoose => 8
    case Lt => 9 case Le => 9 case Gt => 9 case Ge => 9 case In => 9 case InstanceOf => 9
    case Shl => 10 case Shr => 10 case Ushr => 10
    case Add => 11 case Sub => 11
    case Mul => 12 case Div => 12 case Mod => 12
    case Pow => 13
  }

  /** The prefix operator a token stands for, at the start of an operand. */
  function Prefix(t: Token): (r: seq<PreOp>)
    ensures |r| <= 1
  {
    match t
    case TBin(op) => if op == Sub then [Neg] else []
    case TPre(pre) => if pre in {Neg, PreInc, PreDec} then [] else [pre]
    case TIncDec(inc) => [if inc then PreInc else PreDec]
    case _ => []
  }

  datatype Result = Ok(e: Expr, rest: seq<Token>) | Fail

  /** Parses at the given level: an operand of the next level, then what may follow it. */
  function Parse(level: nat, ts: seq<Token>): (r: Result)
    requires level <= PRIMARY
    ensures r.Ok? ==> |r.rest| < |ts|
    decreases |ts|, PRIMARY - level, 1
  {
    if level == PRIMARY then ParsePrimary(ts)
    else if level == UNARY && |ts| > 0 && Prefix(ts[0]) != [] then
      var r := Parse(UNARY, ts[1..]);
      if r.Ok? then Ok(Unary(Prefix(ts[0])[0], r.e), r.rest) else Fail
    else
      var r := Parse(level + 1, ts);
      if r.Ok? then Tail(level, r.e, r.rest) else Fail
  }

  function ParsePrimary(ts: seq<Token>): (r: Result)
    ensures r.Ok? ==> |r.rest| < |ts|
    decreases |ts|, 0, 0
  {
    if |ts| == 0 then Fail
    else if ts[0].TAtom? then NoCall(Ok(Atom(ts[0].name), ts[1..]))
    else if ts[0].TLeft? then
      var r := Parse(SEQUENCE, ts[1..]);
      if r.Ok? && |r.rest| > 0 && r.rest[0].TRight? then NoCall(Ok(r.e, r.rest[1..])) else Fail
    else Fail
  }

  /** Calls are not part of this model. */
  function NoCall(r: Result): (r': Result)
    ensures r' == r || r' == Fail
  {
    if r.Ok? && |r.rest| > 0 && r.rest[0].TLeft? then Fail else r
  }

  /** What a level does once it has its first operand. */
  function Tail(level: nat, e: Expr, ts: seq<Token>): (r: Result)
    requires level < PRIMARY
    ensures r.Ok? ==> |r.rest| <= |ts|
    decreases |ts|, PRIMARY + 1, 1
  {
    if |ts| == 0 then Ok(e, ts)
    else if OR <= level <= MUL && ts[0].TBin? && OpLevel(ts[0].op) == level then
      var r := Parse(level + 1, ts[1..]);
      if r.Ok? then Tail(level, Binary(ts[0].op, e, r.e), r.rest) else Fail
    else if level == POW && ts[0] == TBin(Pow) then
      var r := Parse(POW, ts[1..]);
      if r.Ok? then Ok(Binary(Pow, e, r.e), r.rest) else Fail
    else if level == TERNARY && ts[0].TQuestion? then
      var r := Parse(ASSIGN, ts[1..]);
      if r.Fail? || |r.rest| == 0 || !r.rest[0].TColon? then Fail
      else
        var f := Parse(TERNARY, r.rest[1..]);
        if f.Ok? then Ok(Ternary(e, r.e, f.e), f.rest) else Fail
    else if level == ASSIGN && ts[0].TAssign? then
      var r := Parse(ASSIGN, ts[1..]);
      if r.Ok? then Ok(Assign(ts[0].compound, e, r.e), r.rest) else Fail
    else if level == SEQUENCE && ts[0].TComma? then TailItems([e], ts)
    else if level == POSTFIX && ts[0].TIncDec? then Ok(Postfix(ts[0].inc, e), ts[1..])
    else Ok(e, ts)
  }

  function TailItems(items: seq<Expr>, ts: seq<Token>): (r: Result)
    ensures r.Ok? ==> |r.rest| <= |ts|
    decreases |ts|, PRIMARY + 1, 0
  {
    if |ts| > 0 && ts[0].TComma? then
      var r := Parse(ASSIGN, ts[1..]);
      if r.Ok? then TailItems(items + [r.e], r.rest) else Fail
    else Ok(Sequence(items), ts)
  }

  // ------------------------------------------------------------------ printing

  function Level(e: Expr): nat {
    match e
    case Atom(_) => PRIMARY
    case Unary(_, _) => UNARY
    case Postfix(_, _) => POSTFIX
    case Binary(op, _, _) => OpLevel(op)
    case Ternary(_, _, _) => TERNARY
    case Assign(_, _, _) => ASSIGN
    case Sequence(_) => SEQUENCE
  }

  /** The trees the parser can build: sequences have at least two items. */
  predicate Proper(e: Expr) {
    match e
    case Atom(_) => true
    case Unary(_, a) => Proper(a)
    case Postfix(_, a) => Proper(a)
    case Binary(_, l, r) => Proper(l) && Proper(r)
    case Ternary(c, t, f) => Proper(c) && Proper(t) && Proper(f)
    case Assign(_, t, v) => Proper(t) && Proper(v)
    case Sequence(items) => |items| >= 2 && forall i :: 0 <= i < |items| ==> Proper(items[i])
  }

  function PreToken(pre: PreOp): Token {
    match pre
    case Neg => TBin(Sub)
    case PreInc => TIncDec(true)
    case PreDec => TIncDec(false)
    case _ => TPre(pre)
  }

  /** The tokens of an operand at the given level, in parentheses only if it must be. */
  function Print(e: Expr, level: nat): seq<Token>
    decreases e, 1
  {
    if Level(e) < level then [TLeft] + Bare(e) + [TRight] else Bare(e)
  }

  function Bare(e: Expr): seq<Token>
    decreases e, 0
  {
    match e
    case Atom(name) => [TAtom(name)]
    case Unary(pre, a) => [PreToken(pre)] + Print(a, UNARY)
    case Postfix(inc, a) => Print(a, PRIMARY) + [TIncDec(inc)]
    case Binary(op, l, r) =>
      if op == Pow then Print(l, UNARY) + [TBin(Pow)] + Print(r, POW)
      else Print(l, OpLevel(op)) + [TBin(op)] + Print(r, OpLevel(op) + 1)
    case Ternary(c, t, f) => Print(c, OR) + [TQuestion] + Print(t, ASSIGN) + [TColon] + Print(f, TERNARY)
    case Assign(compound, t, v) => Print(t, TERNARY) + [TAssign(compound)] + Print(v, ASSIGN)
    case Sequence(items) => if |items| == 0 then [] else Print(items[0], ASSIGN) + PrintItems(items[1..])
  }

  function PrintItems(items: seq<Expr>): seq<Token>
    decreases items, 0
  {
    if |items| == 0 then [] else [TComma] + Print(items[0], ASSIGN) + PrintItems(items[1..])
  }

  // --------------------------------------------------------------- round trip

  /** The level whose tail takes a token, above which it ends an operand. */
  function TokenLevel(t: Token): int {
    match t
    case TBin(op) => OpLevel(op)
    case TQuestion => TERNARY
    case TAssign(_) => ASSIGN
    case TComma => SEQUENCE
    case TIncDec(_) => POSTFIX
    case TLeft => PRIMARY + 1
    case _ => -1
  }

  /** The next token is not taken by a tail of the given level or a tighter one. */
  predicate Stops(level: int, ts: seq<Token>) {
    |ts| == 0 || TokenLevel(ts[0]) < level
  }

  /** What may follow an operand printed at a level: for left-associative operators, one of
      the same level. */
  function Need(level: nat): nat {
    if level <= TERNARY || level == POW || level == POSTFIX then level else level + 1
  }

  function After(level: nat, e: Expr, rest: seq<Token>): Result
    requires level <= PRIMARY
  {
    if level == PRIMARY then Ok(e, rest) else Tail(level, e, rest)
  }

  lemma TailStops(level: nat, e: Expr, ts: seq<Token>)
    requires level < PRIMARY && (|ts| == 0 || TokenLevel(ts[0]) != level)
    ensures Tail(level, e, ts) == Ok(e, ts)
  {
  }

  /** A level that finds nothing of its own gives what the tighter level gave. */
  lemma {:induction false} Climb(level: nat, from: nat, ts: seq<Token>, e: Expr, rest: seq<Token>)
    requires level <= from <= PRIMARY && Parse(from, ts) == Ok(e, rest) && Stops(level, rest)
    requires |ts| > 0 && (level <= UNARY < from ==> Prefix(ts[0]) == [])
    ensures Parse(level, ts) == Ok(e, rest)
    decreases from - level
  {
    if level < from {
      TailStops(from - 1, e, rest);
      Climb(level, from - 1, ts, e, rest);
    }
  }

  lemma Descend(level: nat, ts: seq<Token>, e: Expr, rest: seq<Token>)
    requires level < PRIMARY && Parse(level + 1, ts) == Ok(e, rest) && |ts| > 0
    requires level == UNARY ==> Prefix(ts[0]) == []
    ensures Parse(level, ts) == Tail(level, e, rest)
  {
  }

  lemma {:induction false} FirstToken(e: Expr, level: nat)
    requires Proper(e)
    ensures |Print(e, level)| > 0 && |Bare(e)| > 0
    ensures level >= POSTFIX ==> Prefix(Print(e, level)[0]) == []
    ensures Level(e) >= POSTFIX ==> Prefix(Bare(e)[0]) == []
    decreases e
  {
    match e
    case Atom(_) =>
    case Unary(_, _) =>
    case Postfix(_, a) => FirstToken(a, PRIMARY);
    case Binary(op, l, _) => FirstToken(l, if op == Pow then UNARY else OpLevel(op));
    case Ternary(c, _, _) => FirstToken(c, OR);
    case Assign(_, t, _) => FirstToken(t, TERNARY);
    case Sequence(items) => FirstToken(items[0], ASSIGN);
  }

  /** Parsing the printed tokens at a level gives the tree, and goes on with the rest. */
  lemma {:induction false} PrintTrip(e: Expr, level: nat, rest: seq<Token>)
    requires Proper(e) && level <= PRIMARY && Stops(Need(level), rest)
    ensures Parse(level, Print(e, level) + rest) == After(level, e, rest)
    decreases e, 1
  {
    hide Parse, Tail, Bare;
    var m, ts := Level(e), Print(e, level) + rest;
    FirstToken(e, level);
    assert ts[0] == Print(e, level)[0];
    if m < level {
      var inner := Bare(e) + ([TRight] + rest);
      BareTrip(e, [TRight] + rest);
      TailStops(m, e, [TRight] + rest);
      Climb(SEQUENCE, m, inner, e, [TRight] + rest);
      assert ts == [TLeft] + inner;
      Grouped(inner, e, rest);
      Settle(level, PRIMARY, ts, e, rest);
    } else {
      assert Print(e, level) == Bare(e);
      BareTrip(e, rest);
      if m > level {
        if m < PRIMARY { TailStops(m, e, rest); }
        Settle(level, m, ts, e, rest);
      }
    }
  }

  /** From a tight level down to the tail of a loose one. */
  lemma Settle(level: nat, from: nat, ts: seq<Token>, e: Expr, rest: seq<Token>)
    requires level <= from <= PRIMARY && Parse(from, ts) == Ok(e, rest) && Stops(level + 1, rest)
    requires |ts| > 0 && (level <= UNARY < from ==> Prefix(ts[0]) == [])
    ensures level < from ==> Parse(level, ts) == Tail(level, e, rest)
  {
    hide Parse, Tail;
    if level < from {
      Climb(level + 1, from, ts, e, rest);
      Descend(level, ts, e, rest);
    }
  }

  lemma Grouped(inner: seq<Token>, e: Expr, rest: seq<Token>)
    requires Parse(SEQUENCE, inner) == Ok(e, [TRight] + rest) && Stops(PRIMARY + 1, rest)
    ensures Parse(PRIMARY, [TLeft] + inner) == Ok(e, rest)
  {
    assert ([TLeft] + inner)[1..] == inner && ([TRight] + rest)[1..] == rest;
  }

  /** The same for a tree without parentheses, at its own level. */
  lemma {:induction false} BareTrip(e: Expr, rest: seq<Token>)
    requires Proper(e) && Stops(Need(Level(e)), rest)
    ensures Parse(Level(e), Bare(e) + rest) == After(Level(e), e, rest)
    decreases e, 0
  {
    match e
    case Atom(name) => assert ([TAtom(name)] + rest)[1..] == rest;
    case Unary(pre, a) => UnaryTrip(e, rest);
    case Postfix(inc, a) => PostfixTrip(e, rest);
    case Binary(op, l, r) => if op == Pow { PowTrip(e, rest); } else { BinaryTrip(e, rest); }
    case Ternary(c, t, f) => TernaryTrip(e, rest);
    case Assign(_, t, v) => AssignTrip(e, rest);
    case Sequence(items) => SequenceTrip(e, rest);
  }

  lemma {:induction false} UnaryTrip(e: Expr, rest: seq<Token>)
    requires e.Unary? && Proper(e) && Stops(POSTFIX, rest)
    ensures Parse(UNARY, Bare(e) + rest) == Tail(UNARY, e, rest)
    decreases e.arg, 2
  {
    var ts := Print(e.arg, UNARY) + rest;
    PrintTrip(e.arg, UNARY, rest);
    TailStops(UNARY, e.arg, rest);
    TailStops(UNARY, e, rest);
    assert (Bare(e) + rest)[0] == PreToken(e.pre) && (Bare(e) + rest)[1..] == ts;
    hide Tail, Bare, Print;
  }

  lemma {:induction false} PostfixTrip(e: Expr, rest: seq<Token>)
    requires e.Postfix? && Proper(e) && Stops(POSTFIX, rest)
    ensures Parse(POSTFIX, Bare(e) + rest) == Tail(POSTFIX, e, rest)
    decreases e.arg, 2
  {
    var ts := Print(e.arg, PRIMARY) + ([TIncDec(e.inc)] + rest);
    PrintTrip(e.arg, PRIMARY, [TIncDec(e.inc)] + rest);
    FirstToken(e.arg, PRIMARY);
    assert Bare(e) + rest == ts;
    Descend(POSTFIX, ts, e.arg, [TIncDec(e.inc)] + rest);
    assert ([TIncDec(e.inc)] + rest)[1..] == rest;
    TailStops(POSTFIX, e, rest);
    hide Parse, Bare, Print;
  }

  lemma TailBinary(e: Expr, right: seq<Token>, rest: seq<Token>)
    requires e.Binary? && e.op != Pow && Parse(OpLevel(e.op) + 1, right) == Ok(e.right, rest)
    ensures Tail(OpLevel(e.op), e.left, [TBin(e.op)] + right) == Tail(OpLevel(e.op), e, rest)
  {
    hide Parse;
    assert ([TBin(e.op)] + right)[1..] == right;
  }

  lemma {:induction false} BinaryTrip(e: Expr, rest: seq<Token>)
    requires e.Binary? && e.op != Pow && Proper(e) && Stops(OpLevel(e.op) + 1, rest)
    ensures Parse(OpLevel(e.op), Bare(e) + rest) == Tail(OpLevel(e.op), e, rest)
    decreases e, -1
  {
    var k := OpLevel(e.op);
    var right := Print(e.right, k + 1) + rest;
    assert Bare(e) + rest == Print(e.left, k) + ([TBin(e.op)] + right);
    hide Parse, Bare, Print, Tail, OpLevel;
    PrintTrip(e.left, k, [TBin(e.op)] + right);
    PrintTrip(e.right, k + 1, rest);
    TailStops(k + 1, e.right, rest);
    TailBinary(e, right, rest);
  }

  lemma {:induction false} PowTrip(e: Expr, rest: seq<Token>)
    requires e.Binary? && e.op == Pow && Proper(e) && Stops(POW, rest)
    ensures Parse(POW, Bare(e) + rest) == Tail(POW, e, rest)
    decreases e, -1
  {
    var right := Print(e.right, POW) + rest;
    var after := [TBin(Pow)] + right;
    assert Bare(e) + rest == Print(e.left, UNARY) + after;
    FirstToken(e.left, UNARY);
    hide Parse, Bare, Print;
    PrintTrip(e.left, UNARY, after);
    TailStops(UNARY, e.left, after);
    PrintTrip(e.right, POW, rest);
    TailStops(POW, e.right, rest);
    Descend(POW, Print(e.left, UNARY) + after, e.left, after);
    TailStops(POW, e, rest);
    assert after[1..] == right;
  }

  lemma TailTernary(e: Expr, thn: seq<Token>, els: seq<Token>, rest: seq<Token>)
    requires e.Ternary? && Parse(ASSIGN, thn) == Ok(e.thn, [TColon] + els) && Parse(TERNARY, els) == Ok(e.els, rest)
    ensures Tail(TERNARY, e.cond, [TQuestion] + thn) == Ok(e, rest)
  {
    hide Parse;
    assert ([TQuestion] + thn)[1..] == thn && ([TColon] + els)[1..] == els;
  }

  lemma {:induction false} TernaryTrip(e: Expr, rest: seq<Token>)
    requires e.Ternary? && Proper(e) && Stops(TERNARY, rest)
    ensures Parse(TERNARY, Bare(e) + rest) == Tail(TERNARY, e, rest)
    decreases e, -1
  {
    var els := Print(e.els, TERNARY) + rest;
    var thn := Print(e.thn, ASSIGN) + ([TColon] + els);
    var after := [TQuestion] + thn;
    assert Bare(e) + rest == Print(e.cond, OR) + after;
    FirstToken(e.cond, OR);
    hide Parse, Bare, Print, Tail;
    PrintTrip(e.cond, OR, after);
    TailStops(OR, e.cond, after);
    PrintTrip(e.thn, ASSIGN, [TColon] + els);
    TailStops(ASSIGN, e.thn, [TColon] + els);
    PrintTrip(e.els, TERNARY, rest);
    TailStops(TERNARY, e.els, rest);
    Descend(TERNARY, Print(e.cond, OR) + after, e.cond, after);
    TailTernary(e, thn, els, rest);
    TailStops(TERNARY, e, rest);
  }

  lemma {:induction false} AssignTrip(e: Expr, rest: seq<Token>)
    requires e.Assign? && Proper(e) && Stops(ASSIGN, rest)
    ensures Parse(ASSIGN, Bare(e) + rest) == Tail(ASSIGN, e, rest)
    decreases e, -1
  {
    var value := Print(e.value, ASSIGN) + rest;
    var after := [TAssign(e.compound)] + value;
    assert Bare(e) + rest == Print(e.target, TERNARY) + after;
    FirstToken(e.target, TERNARY);
    hide Parse, Bare, Print;
    PrintTrip(e.target, TERNARY, after);
    TailStops(TERNARY, e.target, after);
    PrintTrip(e.value, ASSIGN, rest);
    TailStops(ASSIGN, e.value, rest);
    Descend(ASSIGN, Print(e.target, TERNARY) + after, e.target, after);
    TailStops(ASSIGN, e, rest);
    assert after[1..] == value;
  }

  lemma {:induction false} SequenceTrip(e: Expr, rest: seq<Token>)
    requires e.Sequence? && Proper(e) && Stops(SEQUENCE, rest)
    ensures Parse(SEQUENCE, Bare(e) + rest) == Tail(SEQUENCE, e, rest)
    decreases e, -1
  {
    var first, more := e.items[0], PrintItems(e.items[1..]) + rest;
    var ts := Print(first, ASSIGN) + more;
    assert more[0] == TComma;
    PrintTrip(first, ASSIGN, more);
    TailStops(ASSIGN, first, more);
    FirstToken(first, ASSIGN);
    assert Bare(e) + rest == ts;
    Descend(SEQUENCE, ts, first, more);
    ItemsTrip([first], e.items[1..], rest);
    assert [first] + e.items[1..] == e.items;
    TailStops(SEQUENCE, e, rest);
    hide Parse, Bare, Print;
  }

  lemma ItemsStep(done: seq<Expr>, ts: seq<Token>, e: Expr, rest: seq<Token>)
    requires Parse(ASSIGN, ts) == Ok(e, rest)
    ensures TailItems(done, [TComma] + ts) == TailItems(done + [e], rest)
  {
    hide Parse;
    assert ([TComma] + ts)[1..] == ts;
  }

  lemma ItemsShape(items: seq<Expr>)
    ensures if |items| == 0 then PrintItems(items) == []
            else PrintItems(items) == [TComma] + Print(items[0], ASSIGN) + PrintItems(items[1..])
    ensures |items| > 0 ==> PrintItems(items)[0] == TComma
  {
    hide Print;
  }

  lemma ItemsText(items: seq<Expr>, rest: seq<Token>)
    requires |items| > 0
    ensures PrintItems(items) + rest == [TComma] + (Print(items[0], ASSIGN) + (PrintItems(items[1..]) + rest))
  {
    hide Print, PrintItems;
    ItemsShape(items);
    Regroup([TComma], Print(items[0], ASSIGN), PrintItems(items[1..]), rest);
  }

  lemma ItemsStop(items: seq<Expr>, rest: seq<Token>)
    requires Stops(SEQUENCE, rest)
    ensures Stops(ASSIGN, PrintItems(items) + rest)
  {
    hide Print, PrintItems;
    ItemsShape(items);
    Leads(PrintItems(items), rest);
  }

  lemma Leads<T>(a: seq<T>, b: seq<T>)
    ensures |a| > 0 ==> (a + b)[0] == a[0]
    ensures |a| == 0 ==> a + b == b
  {
  }

  lemma Regroup<T>(a: seq<T>, b: seq<T>, c: seq<T>, d: seq<T>)
    ensures a + b + c + d == a + (b + (c + d))
  {
  }

  lemma Shifted<T>(a: seq<T>, b: seq<T>)
    requires |b| > 0
    ensures a + [b[0]] + b[1..] == a + b
  {
  }

  lemma {:induction false} ItemsTrip(done: seq<Expr>, items: seq<Expr>, rest: seq<Token>)
    requires (forall i :: 0 <= i < |items| ==> Proper(items[i])) && Stops(SEQUENCE, rest)
    ensures TailItems(done, PrintItems(items) + rest) == Ok(Sequence(done + items), rest)
    decreases items, 2
  {
    if |items| == 0 {
      assert done + items == done && PrintItems(items) + rest == rest;
    } else {
      var more := PrintItems(items[1..]) + rest;
      ItemsText(items, rest);
      ItemsStop(items[1..], rest);
      hide Parse, Tail, Print, PrintItems, TailItems;
      PrintTrip(items[0], ASSIGN, more);
      TailStops(ASSIGN, items[0], more);
      ItemsStep(done, Print(items[0], ASSIGN) + more, items[0], more);
      ItemsTrip(done + [items[0]], items[1..], rest);
      Shifted(done, items);
    }
  }

  /** Parsing undoes printing, and takes exactly the printed tokens. */
  lemma ParsePrint(e: Expr, rest: seq<Token>)
    requires Proper(e) && Stops(SEQUENCE, rest)
    ensures Parse(SEQUENCE, Print(e, SEQUENCE) + rest) == Ok(e, rest)
  {
    PrintTrip(e, SEQUENCE, rest);
    TailStops(SEQUENCE, e, rest);
  }

  // ----------------------------------------------------------------- precedence

  /** The binary operators, from the loosest to the tightest. */
  const CLASSES: seq<set<BinOp>> := [
    {Or, Nullish}, {And}, {BitOr}, {BitXor}, {BitAnd}, {Eq, Ne, EqLoose, NeLoose},
    {Lt, Le, Gt, Ge, In, InstanceOf}, {Shl, Shr, Ushr}, {Add, Sub}, {Mul, Div, Mod}, {Pow}]

  lemma LevelOfClass(op: BinOp, i: nat)
    requires i < |CLASSES|
    ensures op in CLASSES[i] <==> OpLevel(op) == OR + i
  {
  }

  ghost function ClassOf(op: BinOp): (i: nat)
    ensures i < |CLASSES| && op in CLASSES[i] && OpLevel(op) == OR + i
  {
    LevelOfClass(op, OpLevel(op) - OR);
    var i: nat :| i < |CLASSES| && op in CLASSES[i];
    LevelOfClass(op, i);
    i
  }

  /** Where a chain of operators divides: at the last of the loosest ones, or, if all are
      powers, at the first. */
  ghost function Divide(ops: seq<BinOp>): (k: nat)
    requires |ops| > 0
    ensures k < |ops|
  {
    var n := |ops| - 1;
    if n == 0 then 0
    else
      var k := Divide(ops[..n]);
      if ops[n] != Pow && ClassOf(ops[n]) <= ClassOf(ops[k]) then n else k
  }

  lemma {:induction false} DivideLoosest(ops: seq<BinOp>, i: nat)
    requires i < |ops|
    ensures var k := Divide(ops);
            && OpLevel(ops[k]) <= OpLevel(ops[i])
            && if ops[k] == Pow then k == 0 else k < i ==> OpLevel(ops[k]) < OpLevel(ops[i])
    decreases |ops|
  {
    hide ClassOf, OpLevel, CLASSES;
    var n := |ops| - 1;
    if n > 0 {
      var m := Divide(ops[..n]);
      assert ops[..n][m] == ops[m];
      DivideLoosest(ops[..n], m);
      if i < n {
        assert ops[..n][i] == ops[i];
        DivideLoosest(ops[..n], i);
      }
    }
  }

  /** The tree of a chain of operands and operators. */
  ghost function Chain(es: seq<Expr>, ops: seq<BinOp>): Expr
    requires |es| == |ops| + 1
    decreases |ops|
  {
    if |ops| == 0 then es[0]
    else
      var k := Divide(ops);
      Binary(ops[k], Chain(es[..k + 1], ops[..k]), Chain(es[k + 1..], ops[k + 1..]))
  }

  function ChainTokens(es: seq<Expr>, ops: seq<BinOp>): seq<Token>
    requires |es| == |ops| + 1
    decreases |ops|
  {
    if |ops| == 0 then Bare(es[0]) else Bare(es[0]) + [TBin(ops[0])] + ChainTokens(es[1..], ops[1..])
  }

  lemma {:induction false} ChainTokensSplit(es: seq<Expr>, ops: seq<BinOp>, k: nat)
    requires |es| == |ops| + 1 && k < |ops|
    ensures ChainTokens(es, ops)
            == ChainTokens(es[..k + 1], ops[..k]) + [TBin(ops[k])] + ChainTokens(es[k + 1..], ops[k + 1..])
    decreases k
  {
    hide Bare;
    var front, back := ChainTokens(es[..k + 1], ops[..k]), ChainTokens(es[k + 1..], ops[k + 1..]);
    if k > 0 {
      ChainTokensSplit(es[1..], ops[1..], k - 1);
      assert es[1..][..k] == es[..k + 1][1..] && ops[1..][..k - 1] == ops[..k][1..];
      assert es[1..][k..] == es[k + 1..] && ops[1..][k..] == ops[k + 1..];
      var rest := ChainTokens(es[..k + 1][1..], ops[..k][1..]);
      assert front == Bare(es[0]) + [TBin(ops[0])] + rest;
      TokensAssoc(Bare(es[0]) + [TBin(ops[0])], rest, [TBin(ops[k])], back);
    }
  }

  lemma TokensAssoc(a: seq<Token>, b: seq<Token>, c: seq<Token>, d: seq<Token>)
    ensures a + (b + c + d) == a + b + c + d
  {
  }

  /** Operands of a chain: atoms, groups and what has only prefix or postfix operators. */
  predicate Operands(es: seq<Expr>) {
    forall i :: 0 <= i < |es| ==> Proper(es[i]) && Level(es[i]) >= UNARY
  }

  /** No parentheses are needed around operands that bind tighter. */
  lemma JoinBare(op: BinOp, l: Expr, r: Expr)
    requires Level(l) >= if op == Pow then UNARY else OpLevel(op)
    requires Level(r) >= if op == Pow then POW else OpLevel(op) + 1
    ensures Bare(Binary(op, l, r)) == Bare(l) + [TBin(op)] + Bare(r)
  {
  }

  /** Both parts of a divided chain bind tighter than the operator between them. */
  lemma LeftLevel(ops: seq<BinOp>, k: nat)
    requires 0 < k < |ops| && k == Divide(ops)
    ensures ops[k] != Pow && OpLevel(ops[..k][Divide(ops[..k])]) >= OpLevel(ops[k])
  {
    hide OpLevel, Divide;
    var m := Divide(ops[..k]);
    assert ops[..k][m] == ops[m];
    DivideLoosest(ops, m);
  }

  lemma RightLevel(ops: seq<BinOp>, k: nat)
    requires k + 1 < |ops| && k == Divide(ops)
    ensures OpLevel(ops[k + 1..][Divide(ops[k + 1..])]) >= if ops[k] == Pow then POW else OpLevel(ops[k]) + 1
  {
    hide OpLevel, Divide;
    var m := Divide(ops[k + 1..]);
    assert ops[k + 1..][m] == ops[k + 1 + m];
    DivideLoosest(ops, k + 1 + m);
  }

  lemma ChainSingle(es: seq<Expr>)
    requires |es| == 1 && Operands(es)
    ensures var e := Chain(es, []); Proper(e) && Bare(e) == ChainTokens(es, []) && Level(e) >= UNARY
  {
  }

  lemma ChainDivided(es: seq<Expr>, ops: seq<BinOp>, k: nat)
    requires |es| == |ops| + 1 && |ops| > 0 && k == Divide(ops) && Operands(es)
    ensures Operands(es[..k + 1]) && Operands(es[k + 1..])
    ensures var l, r := Chain(es[..k + 1], ops[..k]), Chain(es[k + 1..], ops[k + 1..]);
            Chain(es, ops) == Binary(ops[k], l, r) && (Proper(l) && Proper(r) ==> Proper(Chain(es, ops)))
  {
    hide Divide;
  }

  lemma {:induction false} ChainBare(es: seq<Expr>, ops: seq<BinOp>)
    requires |es| == |ops| + 1 && Operands(es)
    ensures var e := Chain(es, ops);
            && Proper(e) && Bare(e) == ChainTokens(es, ops)
            && if |ops| == 0 then Level(e) >= UNARY else Level(e) == OpLevel(ops[Divide(ops)])
    decreases |ops|
  {
    hide Divide, Bare, OpLevel, Chain, ChainTokens, Operands, Proper;
    if |ops| == 0 {
      ChainSingle(es);
    } else {
      var k := Divide(ops);
      ChainDivided(es, ops, k);
      ChainBare(es[..k + 1], ops[..k]);
      ChainBare(es[k + 1..], ops[k + 1..]);
      if k > 0 { LeftLevel(ops, k); }
      if k + 1 < |ops| { RightLevel(ops, k); }
      ChainTokensSplit(es, ops, k);
      JoinBare(ops[k], Chain(es[..k + 1], ops[..k]), Chain(es[k + 1..], ops[k + 1..]));
    }
  }

  /** Operators bind as the list of classes says: looser ones divide the chain first, equal
      ones from the right end on, so that they associate to the left, and powers to the
      right. */
  lemma Precedence(es: seq<Expr>, ops: seq<BinOp>)
    requires |es| == |ops| + 1 && Operands(es)
    ensures Parse(SEQUENCE, ChainTokens(es, ops)) == Ok(Chain(es, ops), [])
  {
    hide Parse, Bare, Chain, ChainTokens, Proper;
    ChainBare(es, ops);
    var e := Chain(es, ops);
    assert Print(e, SEQUENCE) == Bare(e);
    ParsePrint(e, []);
    assert Bare(e) + [] == Bare(e);
  }

  /** Two operators: the tighter one is inside; of one class, the first, except for powers. */
  lemma TwoOperators(a: string, op1: BinOp, b: string, op2: BinOp, c: string, i: nat, j: nat)
    requires i < |CLASSES| && op1 in CLASSES[i] && j < |CLASSES| && op2 in CLASSES[j]
    ensures Parse(SEQUENCE, [TAtom(a), TBin(op1), TAtom(b), TBin(op2), TAtom(c)]) ==
            Ok(if i < j || op1 == op2 == Pow then Binary(op1, Atom(a), Binary(op2, Atom(b), Atom(c)))
               else Binary(op2, Binary(op1, Atom(a), Atom(b)), Atom(c)), [])
  {
    hide Parse, Bare, ChainTokens, Chain;
    var es, ops := [Atom(a), Atom(b), Atom(c)], [op1, op2];
    LevelOfClass(op1, i);
    LevelOfClass(op2, j);
    Precedence(es, ops);
    ThreeAtoms(a, op1, b, op2, c);
    TwoDivided(Atom(a), op1, Atom(b), op2, Atom(c));
    DivideLoosest(ops, 0);
    DivideLoosest(ops, 1);
    assert ops[0] == op1 && ops[1] == op2;
  }

  lemma ThreeAtoms(a: string, op1: BinOp, b: string, op2: BinOp, c: string)
    ensures ChainTokens([Atom(a), Atom(b), Atom(c)], [op1, op2])
            == [TAtom(a), TBin(op1), TAtom(b), TBin(op2), TAtom(c)]
  {
    var es, ops := [Atom(a), Atom(b), Atom(c)], [op1, op2];
    assert es[1..] == [Atom(b), Atom(c)] && [Atom(b), Atom(c)][1..] == [Atom(c)];
    assert ops[1..] == [op2] && [op2][1..] == [];
    assert ChainTokens([Atom(c)], []) == [TAtom(c)];
    assert ChainTokens([Atom(b), Atom(c)], [op2]) == [TAtom(b)] + [TBin(op2)] + [TAtom(c)];
  }

  lemma TwoDivided(a: Expr, op1: BinOp, b: Expr, op2: BinOp, c: Expr)
    ensures Chain([a, b, c], [op1, op2]) ==
            if Divide([op1, op2]) == 0 then Binary(op1, a, Binary(op2, b, c)) else Binary(op2, Binary(op1, a, b), c)
  {
    hide Divide;
    var es, ops := [a, b, c], [op1, op2];
    OneOperator(b, op2, c);
    OneOperator(a, op1, b);
    assert es[..1] == [a] && ops[..0] == [] && es[1..] == [b, c] && ops[1..] == [op2];
    assert es[..2] == [a, b] && ops[..1] == [op1] && es[2..] == [c] && ops[2..] == [];
  }

  lemma ParseBare(e: Expr, ts: seq<Token>)
    requires Proper(e) && Bare(e) == ts
    ensures Parse(SEQUENCE, ts) == Ok(e, [])
  {
    hide Parse, Bare, Proper;
    assert Print(e, SEQUENCE) == Bare(e) && Bare(e) + [] == Bare(e);
    ParsePrint(e, []);
  }

  lemma AtomTokens(a: string)
    ensures forall l: nat :: l <= PRIMARY ==> Print(Atom(a), l) == [TAtom(a)]
  {
  }

  /** What the other tokens build. */
  lemma OtherShapes(a: string, b: string, c: string, k: nat, m: nat)
    ensures Parse(SEQUENCE, [TAtom(a), TQuestion, TAtom(b), TColon, TAtom(c)])
            == Ok(Ternary(Atom(a), Atom(b), Atom(c)), [])
    ensures Parse(SEQUENCE, [TAtom(a), TAssign(k), TAtom(b), TAssign(m), TAtom(c)])
            == Ok(Assign(k, Atom(a), Assign(m, Atom(b), Atom(c))), [])
    ensures Parse(SEQUENCE, [TAtom(a), TComma, TAtom(b)]) == Ok(Sequence([Atom(a), Atom(b)]), [])
    ensures Parse(SEQUENCE, [TAtom(a), TIncDec(true)]) == Ok(Postfix(true, Atom(a)), [])
    ensures Parse(SEQUENCE, [TAtom(a), TIncDec(false)]) == Ok(Postfix(false, Atom(a)), [])
  {
    hide Parse;
    AtomTokens(a);
    AtomTokens(b);
    AtomTokens(c);
    ParseBare(Ternary(Atom(a), Atom(b), Atom(c)), [TAtom(a), TQuestion, TAtom(b), TColon, TAtom(c)]);
    var inner := Assign(m, Atom(b), Atom(c));
    assert Bare(inner) == Print(Atom(b), TERNARY) + [TAssign(m)] + Print(Atom(c), ASSIGN);
    assert Print(inner, ASSIGN) == Bare(inner) == [TAtom(b), TAssign(m), TAtom(c)];
    ParseBare(Assign(k, Atom(a), Assign(m, Atom(b), Atom(c))),
              [TAtom(a), TAssign(k), TAtom(b), TAssign(m), TAtom(c)]);
    assert [Atom(a), Atom(b)][1..] == [Atom(b)] && [Atom(b)][1..] == [];
    assert PrintItems([Atom(b)]) == [TComma, TAtom(b)];
    ParseBare(Sequence([Atom(a), Atom(b)]), [TAtom(a), TComma, TAtom(b)]);
    ParseBare(Postfix(true, Atom(a)), [TAtom(a), TIncDec(true)]);
    ParseBare(Postfix(false, Atom(a)), [TAtom(a), TIncDec(false)]);
  }

  lemma PrefixShapes(a: string, pre: PreOp)
    ensures Parse(SEQUENCE, [TBin(Sub), TAtom(a)]) == Ok(Unary(Neg, Atom(a)), [])
    ensures Parse(SEQUENCE, [TIncDec(true), TAtom(a)]) == Ok(Unary(PreInc, Atom(a)), [])
    ensures Parse(SEQUENCE, [TIncDec(false), TAtom(a)]) == Ok(Unary(PreDec, Atom(a)), [])
    ensures pre in {Not, BitNot, TypeOf, Void, Delete, Await} ==>
              Parse(SEQUENCE, [TPre(pre), TAtom(a)]) == Ok(Unary(pre, Atom(a)), [])
  {
    hide Parse;
    AtomTokens(a);
    ParseBare(Unary(Neg, Atom(a)), [TBin(Sub), TAtom(a)]);
    ParseBare(Unary(PreInc, Atom(a)), [TIncDec(true), TAtom(a)]);
    ParseBare(Unary(PreDec, Atom(a)), [TIncDec(false), TAtom(a)]);
    if pre in {Not, BitNot, TypeOf, Void, Delete, Await} {
      ParseBare(Unary(pre, Atom(a)), [TPre(pre), TAtom(a)]);
    }
  }

  lemma OneOperator(a: Expr, op: BinOp, b: Expr)
    ensures Chain([a, b], [op]) == Binary(op, a, b)
  {
    assert [a, b][..1] == [a] && [op][..0] == [] && [a, b][1..] == [b] && [op][1..] == [];
  }

  // ---------------------------------------------------------------- the parser

  /** What a method that left the cursor before `rest` has parsed. */
  predicate Gives(r: Result, ok: bool, e: Expr, rest: seq<Token>) {
    ok == r.Ok? && (ok ==> e == r.e && rest == r.rest)
  }

  /** The parser proper, which advances a cursor over the tokens. */
  class Parser {
    const tokens: seq<Token>
    var pos: nat

    constructor (tokens: seq<Token>)
      ensures this.tokens == tokens && pos == 0
    {
      this.tokens, pos := tokens, 0;
    }

    ghost function Rest(): seq<Token>
      reads this
      requires pos <= |tokens|
    {
      tokens[pos..]
    }

    method Parsed(level: nat) returns (ok: bool, e: Expr)
      requires level <= PRIMARY && pos <= |tokens|
      modifies this
      ensures pos <= |tokens| && Gives(Parse(level, old(Rest())), ok, e, Rest())
      decreases |tokens| - pos, PRIMARY - level, 1
    {
      hide Tail, ParsePrimary;
      if level == PRIMARY {
        ok, e := ParsedPrimary();
      } else if level == UNARY && pos < |tokens| && Prefix(tokens[pos]) != [] {
        var pre := Prefix(tokens[pos])[0];
        assert Rest()[1..] == tokens[pos + 1..];
        pos := pos + 1;
        ok, e := Parsed(UNARY);
        e := Unary(pre, e);
      } else {
        ghost var was := pos;
        ok, e := Parsed(level + 1);
        if ok {
          assert |Rest()| < |tokens[was..]|;
          ok, e := ParsedTail(level, e);
        }
      }
    }

    method ParsedPrimary() returns (ok: bool, e: Expr)
      requires pos <= |tokens|
      modifies this
      ensures pos <= |tokens| && Gives(ParsePrimary(old(Rest())), ok, e, Rest())
      decreases |tokens| - pos, 0, 0
    {
      hide Parse;
      ok, e := false, Atom("");
      if pos < |tokens| {
        var t := tokens[pos];
        assert Rest()[1..] == tokens[pos + 1..];
        pos := pos + 1;
        if t.TAtom? {
          ok, e := true, Atom(t.name);
        } else if t.TLeft? {
          ok, e := Parsed(SEQUENCE);
          ok := ok && pos < |tokens| && tokens[pos].TRight?;
          if ok {
            assert Rest()[1..] == tokens[pos + 1..];
            pos := pos + 1;
          }
        }
        ok := ok && (pos == |tokens| || !tokens[pos].TLeft?);
      }
    }

    method ParsedTail(level: nat, first: Expr) returns (ok: bool, e: Expr)
      requires level < PRIMARY && pos <= |tokens|
      modifies this
      ensures pos <= |tokens| && Gives(Tail(level, first, old(Rest())), ok, e, Rest())
      decreases |tokens| - pos, PRIMARY + 1, 1
    {
      ok, e := true, first;
      if OR <= level <= MUL {
        ok, e := ParsedOperators(level, first);
      } else if pos < |tokens| {
        var t := tokens[pos];
        assert Rest()[1..] == tokens[pos + 1..];
        if level == SEQUENCE && t.TComma? {
          ok, e := ParsedItems(first);
        } else if level == TERNARY && t.TQuestion? {
          pos := pos + 1;
          ok, e := ParsedBranches(first);
        } else if (level == POW && t == TBin(Pow)) || (level == ASSIGN && t.TAssign?) {
          pos := pos + 1;
          ok, e := Parsed(level);
          e := if level == POW then Binary(Pow, first, e) else Assign(t.compound, first, e);
        } else if level == POSTFIX && t.TIncDec? {
          pos := pos + 1;
          e := Postfix(t.inc, first);
        }
      }
    }

    /** Operators of one left-associative level. */
    method ParsedOperators(level: nat, first: Expr) returns (ok: bool, e: Expr)
      requires OR <= level <= MUL && pos <= |tokens|
      modifies this
      ensures pos <= |tokens| && Gives(Tail(level, first, old(Rest())), ok, e, Rest())
      decreases |tokens| - pos, PRIMARY + 1, 0
    {
      hide Parse;
      ok, e := true, first;
      while pos < |tokens| && tokens[pos].TBin? && OpLevel(tokens[pos].op) == level
        invariant old(pos) <= pos <= |tokens| && ok && Tail(level, first, old(Rest())) == Tail(level, e, Rest())
        decreases |tokens| - pos
      {
        var op := tokens[pos].op;
        assert Rest()[1..] == tokens[pos + 1..];
        ghost var was := pos;
        pos := pos + 1;
        var right;
        ok, right := Parsed(level + 1);
        if !ok {
          return;
        }
        assert |Rest()| < |tokens[was + 1..]|;
        e := Binary(op, e, right);
      }
    }

    /** Both branches of a conditional expression, after the question mark. */
    method ParsedBranches(cond: Expr) returns (ok: bool, e: Expr)
      requires 0 < pos <= |tokens| && tokens[pos - 1].TQuestion?
      modifies this
      ensures pos <= |tokens| && Gives(Tail(TERNARY, cond, [TQuestion] + old(Rest())), ok, e, Rest())
      decreases |tokens| - pos, PRIMARY + 2, 0
    {
      hide Parse;
      assert ([TQuestion] + Rest())[1..] == Rest();
      ghost var was := pos;
      var thn, els;
      e := cond;
      ok, thn := Parsed(ASSIGN);
      if !ok || pos == |tokens| || !tokens[pos].TColon? {
        return false, e;
      }
      assert |Rest()| < |tokens[was..]| && Rest()[1..] == tokens[pos + 1..];
      pos := pos + 1;
      ok, els := Parsed(TERNARY);
      e := Ternary(cond, thn, els);
    }

    /** The items of a sequence after the first. */
    method ParsedItems(first: Expr) returns (ok: bool, e: Expr)
      requires pos <= |tokens|
      modifies this
      ensures pos <= |tokens| && Gives(TailItems([first], old(Rest())), ok, e, Rest())
      decreases |tokens| - pos, PRIMARY + 1, 0
    {
      hide Parse;
      var items := [first];
      ok, e := true, first;
      while pos < |tokens| && tokens[pos].TComma?
        invariant old(pos) <= pos <= |tokens| && ok && TailItems([first], old(Rest())) == TailItems(items, Rest())
        decreases |tokens| - pos
      {
        assert Rest()[1..] == tokens[pos + 1..];
        ghost var was := pos;
        pos := pos + 1;
        ok, e := Parsed(ASSIGN);
        if !ok {
          return;
        }
        assert |Rest()| < |tokens[was + 1..]|;
        items := items + [e];
      }
      e := Sequence(items);
    }
  }
}
