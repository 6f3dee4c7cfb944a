/** Lexical addressing: which variables live in heap environments, and where. The resolver
    builds the scopes and decides what is captured; the code generator then turns a name
    into a number of environments to go up and a slot. */
module LexicalAddressing {
  import opened Options

  /** What the resolver sees of a program: uses and declarations in nested scopes. A
      function resolves its parameters and their defaults before its body. */
  datatype Item =
    | Use(name: string)
    | Declare(name: string)
    | Block(body: seq<Item>)
    | Function(params: seq<Item>, fname: Option<string>, body: seq<Item>)

  datatype Symbol = Symbol(name: string, captured: bool, slot: int)

  /** `early` says that the scope lies in a parameter default of its parent. */
  datatype Scope = Scope(symbols: seq<Symbol>, parent: int, isFunction: bool, captures: nat, early: bool)

  /** Scopes refer to their parents by position; position 0 is the global scope. */
  type Scopes = seq<Scope>

  predicate Nested(s: Scopes) {
    |s| > 0 && s[0].isFunction && s[0].parent == -1 && forall i :: 0 < i < |s| ==> 0 <= s[i].parent < i
  }

  function Fresh(parent: int, isFunction: bool, early: bool): Scope {
    Scope([], parent, isFunction, 0, early)
  }

  function IndexOf(symbols: seq<Symbol>, x: string): (k: nat)
    ensures k <= |symbols|
    ensures k < |symbols| ==> symbols[k].name == x
    ensures forall i :: 0 <= i < k ==> symbols[i].name != x
  {
    if |symbols| == 0 || symbols[0].name == x then 0 else 1 + IndexOf(symbols[1..], x)
  }

  function AddSymbol(s: Scopes, c: int, x: string): Scopes
    requires 0 <= c < |s|
  {
    if IndexOf(s[c].symbols, x) < |s[c].symbols| then s
    else s[c := s[c].(symbols := s[c].symbols + [Symbol(x, false, -1)])]
  }

  /** The scope of the function that scope `c` belongs to. */
  function Enclosing(s: Scopes, c: int): (f: int)
    requires Nested(s) && 0 <= c < |s|
    ensures 0 <= f <= c && s[f].isFunction
    decreases c
  {
    if s[c].isFunction then c else Enclosing(s, s[c].parent)
  }

  datatype Found = Found(at: int, k: int, depth: int)

  /** The symbol that `x` means in scope `c`, and how many functions are left on the way. */
  function LookupResolve(s: Scopes, c: int, x: string): (r: Option<Found>)
    requires Nested(s) && -1 <= c < |s|
    ensures r.Some? ==> 0 <= r.value.at <= c && 0 <= r.value.k < |s[r.value.at].symbols| && r.value.depth >= 0
    decreases c
  {
    if c == -1 then None
    else if IndexOf(s[c].symbols, x) < |s[c].symbols| then Some(Found(c, IndexOf(s[c].symbols, x), 0))
    else
      var r := LookupResolve(s, s[c].parent, x);
      if r.Some? && s[c].isFunction then Some(r.value.(depth := r.value.depth + 1)) else r
  }

  /** The same for the code generator, which counts scopes that have an environment. */
  function LookupCodegen(s: Scopes, c: int, x: string): (r: Option<Found>)
    requires Nested(s) && -1 <= c < |s|
    ensures r.Some? ==> 0 <= r.value.at <= c && 0 <= r.value.k < |s[r.value.at].symbols| && r.value.depth >= 0
    decreases c
  {
    if c == -1 then None
    else if IndexOf(s[c].symbols, x) < |s[c].symbols| then Some(Found(c, IndexOf(s[c].symbols, x), 0))
    else
      var r := LookupCodegen(s, s[c].parent, x);
      if r.Some? && s[c].captures > 0 then Some(r.value.(depth := r.value.depth + 1)) else r
  }

  /** Gives symbol `k` of scope `d` the next slot of its function's environment. */
  function Capture(s: Scopes, d: int, k: int): Scopes
    requires Nested(s) && 0 <= d < |s| && 0 <= k < |s[d].symbols|
  {
    var f := Enclosing(s, d);
    var sym := s[d].symbols[k].(captured := true, slot := s[f].captures);
    var s1 := s[d := s[d].(symbols := s[d].symbols[k := sym])];
    s1[f := s1[f].(captures := s[f].captures + 1)]
  }

  function ResolveUse(s: Scopes, c: int, x: string): Scopes
    requires Nested(s) && 0 <= c < |s|
  {
    match LookupResolve(s, c, x)
    case None => s
    case Some(r) => if r.depth > 0 && !s[r.at].symbols[r.k].captured then Capture(s, r.at, r.k) else s
  }

  /** The scopes after the items have been resolved in scope `c`. */
  function Resolve(items: seq<Item>, s: Scopes, c: int, early: bool): (s': Scopes)
    requires Nested(s) && 0 <= c < |s|
    ensures Nested(s') && |s| <= |s'|
    decreases items
  {
    if |items| == 0 then s
    else Resolve(items[1..], ResolveItem(items[0], s, c, early), c, early)
  }

  function ResolveItem(item: Item, s: Scopes, c: int, early: bool): (s': Scopes)
    requires Nested(s) && 0 <= c < |s|
    ensures Nested(s') && |s| <= |s'|
    decreases item
  {
    match item
    case Use(x) => ResolveUse(s, c, x)
    case Declare(x) => AddSymbol(s, c, x)
    case Block(body) => Resolve(body, s + [Fresh(c, false, early)], |s|, false)
    case Function(params, fname, body) =>
      var s1 := Resolve(params, s + [Fresh(c, true, early)], |s|, true);
      var s2 := if fname.Some? then AddSymbol(s1, c, fname.value) else s1;
      Resolve(body, s2, |s|, false)
  }

  // ---------------------------------------------------------------- slots

  predicate Captured(s: Scopes, d: int, k: int) {
    0 <= d < |s| && 0 <= k < |s[d].symbols| && s[d].symbols[k].captured
  }

  /** Symbol `k` of scope `d` is captured in slot `j` of the environment of function `f`. */
  predicate HasSlot(s: Scopes, d: int, k: int, f: int, j: int)
    requires Nested(s)
  {
    Captured(s, d, k) && Enclosing(s, d) == f && s[d].symbols[k].slot == j
  }

  ghost predicate Filled(s: Scopes, f: int, j: int)
    requires Nested(s)
  {
    exists d, k :: HasSlot(s, d, k, f, j)
  }

  /** Only functions have environments, and the captured symbols of a function fill the
      slots of its environment, one each. */
  ghost predicate Slotted(s: Scopes) {
    && Nested(s)
    && (forall c :: 0 <= c < |s| && s[c].captures > 0 ==> s[c].isFunction)
    && (forall d, k :: Captured(s, d, k) ==> 0 <= s[d].symbols[k].slot < s[Enclosing(s, d)].captures)
    && (forall d, k, d', k', f, j :: HasSlot(s, d, k, f, j) && HasSlot(s, d', k', f, j) ==> d == d' && k == k')
    && (forall f, j :: 0 <= f < |s| && 0 <= j < s[f].captures ==> Filled(s, f, j))
  }

  /** The first scopes of `s'` are nested as those of `s`. */
  predicate SameNesting(s: Scopes, s': Scopes) {
    |s| <= |s'| && forall i :: 0 <= i < |s| ==>
      s'[i].parent == s[i].parent && s'[i].isFunction == s[i].isFunction && s'[i].early == s[i].early
  }

  lemma {:induction false} EnclosingSame(s: Scopes, s': Scopes, c: int)
    requires Nested(s) && Nested(s') && SameNesting(s, s') && 0 <= c < |s|
    ensures Enclosing(s', c) == Enclosing(s, c)
    decreases c
  {
    if !s[c].isFunction { EnclosingSame(s, s', s[c].parent); }
  }

  /** New scopes and symbols are not captured. */
  lemma SlottedGrows(s: Scopes, s': Scopes)
    requires Slotted(s) && Nested(s') && SameNesting(s, s')
    requires forall d, k :: Captured(s', d, k) <==> Captured(s, d, k)
    requires forall d, k :: Captured(s, d, k) && Captured(s', d, k) ==> s'[d].symbols[k].slot == s[d].symbols[k].slot
    requires forall i :: 0 <= i < |s'| ==> s'[i].captures == if i < |s| then s[i].captures else 0
    ensures Slotted(s')
  {
    forall d | 0 <= d < |s| ensures Enclosing(s', d) == Enclosing(s, d) { EnclosingSame(s, s', d); }
    forall d, k, f, j ensures HasSlot(s', d, k, f, j) <==> HasSlot(s, d, k, f, j) { }
    forall f, j | 0 <= f < |s'| && 0 <= j < s'[f].captures
      ensures Filled(s', f, j)
    {
      assert Filled(s, f, j);
      var d, k :| HasSlot(s, d, k, f, j);
      assert HasSlot(s', d, k, f, j);
    }
  }

  /** What capturing a symbol changes. */
  lemma CaptureEffect(s: Scopes, d: int, k: int)
    requires Nested(s) && 0 <= d < |s| && 0 <= k < |s[d].symbols| && !s[d].symbols[k].captured
    ensures var s', f := Capture(s, d, k), Enclosing(s, d);
            && Nested(s') && SameNesting(s, s') && |s'| == |s|
            && (forall i :: 0 <= i < |s| ==> Enclosing(s', i) == Enclosing(s, i))
            && (forall i :: 0 <= i < |s| ==> s'[i].captures == s[i].captures + if i == f then 1 else 0)
            && (forall e, m :: Captured(s', e, m) <==> Captured(s, e, m) || (e == d && m == k))
            && (forall e, m :: Captured(s', e, m) ==>
                  s'[e].symbols[m].slot == if e == d && m == k then s[f].captures else s[e].symbols[m].slot)
  {
    var s', f := Capture(s, d, k), Enclosing(s, d);
    CaptureAt(s, d, k);
    hide Capture, Enclosing;
    forall i | 0 <= i < |s| ensures Enclosing(s', i) == Enclosing(s, i) { EnclosingSame(s, s', i); }
    forall e, m
      ensures Captured(s', e, m) <==> Captured(s, e, m) || (e == d && m == k)
    {
      if 0 <= e < |s| { assert s'[e].captures >= 0; }
    }
    forall e, m | Captured(s', e, m)
      ensures s'[e].symbols[m].slot == if e == d && m == k then s[f].captures else s[e].symbols[m].slot
    {
      assert s'[e].captures >= 0;
    }
  }

  lemma CaptureAt(s: Scopes, d: int, k: int)
    requires Nested(s) && 0 <= d < |s| && 0 <= k < |s[d].symbols|
    ensures var s', f := Capture(s, d, k), Enclosing(s, d);
            && Nested(s') && SameNesting(s, s') && |s'| == |s|
            && (forall i :: 0 <= i < |s| ==> s'[i].captures == s[i].captures + if i == f then 1 else 0)
            && (forall i :: 0 <= i < |s| && i != d ==> s'[i].symbols == s[i].symbols)
            && s'[d].symbols == s[d].symbols[k := Symbol(s[d].symbols[k].name, true, s[f].captures)]
  {
    hide Enclosing, Capture;
    var s' := Capture(s, d, k);
    CaptureOne(s, d, k, d);
    forall i | 0 <= i < |s|
      ensures s'[i].captures == s[i].captures + if i == Enclosing(s, d) then 1 else 0
      ensures i != d ==> s'[i].symbols == s[i].symbols
      ensures s'[i].parent == s[i].parent && s'[i].isFunction == s[i].isFunction && s'[i].early == s[i].early
    {
      CaptureOne(s, d, k, i);
    }
  }

  lemma CaptureOne(s: Scopes, d: int, k: int, i: int)
    requires Nested(s) && 0 <= d < |s| && 0 <= k < |s[d].symbols| && 0 <= i < |s|
    ensures |Capture(s, d, k)| == |s|
    ensures var sc, f := Capture(s, d, k)[i], Enclosing(s, d);
            && sc.parent == s[i].parent && sc.isFunction == s[i].isFunction && sc.early == s[i].early
            && sc.captures == s[i].captures + (if i == f then 1 else 0)
            && sc.symbols == if i == d then s[d].symbols[k := Symbol(s[d].symbols[k].name, true, s[f].captures)]
                             else s[i].symbols
  {
    hide Enclosing;
  }

  /** A newly captured symbol takes the first free slot. */
  lemma SlottedCapture(s: Scopes, d: int, k: int)
    requires Slotted(s) && 0 <= d < |s| && 0 <= k < |s[d].symbols| && !s[d].symbols[k].captured
    ensures Slotted(Capture(s, d, k))
  {
    CaptureEffect(s, d, k);
    hide Capture, Enclosing, SameNesting;
    var s', f, n := Capture(s, d, k), Enclosing(s, d), s[Enclosing(s, d)].captures;
    forall e, m, g, j
      ensures HasSlot(s', e, m, g, j) <==> HasSlot(s, e, m, g, j) || (e == d && m == k && g == f && j == n)
    {
    }
    forall g, j | 0 <= g < |s'| && 0 <= j < s'[g].captures
      ensures Filled(s', g, j)
    {
      if g == f && j == n {
        assert HasSlot(s', d, k, g, j);
      } else {
        assert Filled(s, g, j);
        var e, m :| HasSlot(s, e, m, g, j);
        assert HasSlot(s', e, m, g, j);
      }
    }
  }

  lemma SlottedUse(s: Scopes, c: int, x: string)
    requires Slotted(s) && 0 <= c < |s|
    ensures Slotted(ResolveUse(s, c, x))
  {
    var r := LookupResolve(s, c, x);
    if r.Some? && r.value.depth > 0 && !s[r.value.at].symbols[r.value.k].captured {
      SlottedCapture(s, r.value.at, r.value.k);
    }
  }

  lemma SlottedAdd(s: Scopes, c: int, x: string)
    requires Slotted(s) && 0 <= c < |s|
    ensures Slotted(AddSymbol(s, c, x))
  {
    SlottedGrows(s, AddSymbol(s, c, x));
  }

  lemma SlottedNew(s: Scopes, sc: Scope)
    requires Slotted(s) && 0 <= sc.parent < |s| && sc == Fresh(sc.parent, sc.isFunction, sc.early)
    ensures Slotted(s + [sc])
  {
    SlottedGrows(s, s + [sc]);
  }

  /** Resolving keeps the slots in order, whatever the program. */
  lemma {:induction false} SlottedResolve(items: seq<Item>, s: Scopes, c: int, early: bool)
    requires Slotted(s) && 0 <= c < |s|
    ensures Slotted(Resolve(items, s, c, early))
    decreases items
  {
    if |items| > 0 {
      SlottedItem(items[0], s, c, early);
      SlottedResolve(items[1..], ResolveItem(items[0], s, c, early), c, early);
    }
  }

  lemma {:induction false} SlottedItem(item: Item, s: Scopes, c: int, early: bool)
    requires Slotted(s) && 0 <= c < |s|
    ensures Slotted(ResolveItem(item, s, c, early))
    decreases item
  {
    hide Slotted, Nested;
    match item
    case Use(x) => SlottedUse(s, c, x);
    case Declare(x) => SlottedAdd(s, c, x);
    case Block(body) =>
      SlottedNew(s, Fresh(c, false, early));
      SlottedResolve(body, s + [Fresh(c, false, early)], |s|, false);
    case Function(params, fname, body) =>
      SlottedNew(s, Fresh(c, true, early));
      SlottedResolve(params, s + [Fresh(c, true, early)], |s|, true);
      var s1 := Resolve(params, s + [Fresh(c, true, early)], |s|, true);
      if fname.Some? { SlottedAdd(s1, c, fname.value); }
      SlottedResolve(body, if fname.Some? then AddSymbol(s1, c, fname.value) else s1, |s|, false);
  }

  // ------------------------------------------------------- symbols over time

  function Names(sc: Scope): set<string> {
    set i | 0 <= i < |sc.symbols| :: sc.symbols[i].name
  }

  /** Scope `b` is scope `a` with symbols added and perhaps more of them captured. */
  predicate Keeps(a: Scope, b: Scope) {
    && |a.symbols| <= |b.symbols|
    && forall k :: 0 <= k < |a.symbols| ==>
         && b.symbols[k].name == a.symbols[k].name
         && (a.symbols[k].captured ==> b.symbols[k].captured)
  }

  /** `t` comes after `s`, and scopes from `lo` on have got no more symbols. */
  predicate Leads(s: Scopes, t: Scopes, lo: int) {
    && SameNesting(s, t) && (forall i :: 0 <= i < |s| ==> Keeps(s[i], t[i]))
    && (forall i :: 0 <= i < |s| && lo <= i ==> |t[i].symbols| == |s[i].symbols|)
  }

  /** What resolving in scope `c` does: only that scope and new ones get symbols. */
  predicate Ran(s: Scopes, t: Scopes, c: int, added: set<string>)
    requires 0 <= c < |s|
  {
    && Leads(s, t, |s|) && (forall i :: 0 <= i < |s| && i != c ==> |t[i].symbols| == |s[i].symbols|)
    && Names(t[c]) == Names(s[c]) + added
  }

  function Direct(items: seq<Item>): set<string>
    decreases items
  {
    if |items| == 0 then {} else DirectItem(items[0]) + Direct(items[1..])
  }

  function DirectItem(item: Item): set<string> {
    match item
    case Declare(x) => {x}
    case Function(_, fname, _) => if fname.Some? then {fname.value} else {}
    case Use(_) => {}
    case Block(_) => {}
  }

  lemma SameNames(a: Scope, b: Scope)
    requires Keeps(a, b) && |a.symbols| == |b.symbols|
    ensures Names(a) == Names(b)
  {
    forall x | x in Names(a) ensures x in Names(b) {
      var i :| 0 <= i < |a.symbols| && a.symbols[i].name == x;
      assert b.symbols[i].name == x;
    }
    forall x | x in Names(b) ensures x in Names(a) {
      var i :| 0 <= i < |b.symbols| && b.symbols[i].name == x;
      assert a.symbols[i].name == x;
    }
  }

  lemma RanTrans(s: Scopes, t: Scopes, u: Scopes, c: int, a: set<string>, b: set<string>)
    requires 0 <= c < |s| && Ran(s, t, c, a) && 0 <= c < |t| && Ran(t, u, c, b)
    ensures Ran(s, u, c, a + b)
  {
    assert Leads(t, u, |t|);
    forall i | 0 <= i < |s|
      ensures Keeps(s[i], u[i])
    {
      assert Keeps(s[i], t[i]) && Keeps(t[i], u[i]);
    }
  }

  lemma RanSame(s: Scopes, c: int)
    requires 0 <= c < |s|
    ensures Ran(s, s, c, {})
  {
  }

  lemma RanUse(s: Scopes, c: int, x: string)
    requires Nested(s) && 0 <= c < |s|
    ensures Ran(s, ResolveUse(s, c, x), c, {})
  {
    var r := LookupResolve(s, c, x);
    if r.Some? && r.value.depth > 0 && !s[r.value.at].symbols[r.value.k].captured {
      var d, k := r.value.at, r.value.k;
      CaptureAt(s, d, k);
      hide Capture, LookupResolve;
      var t := Capture(s, d, k);
      assert forall i :: 0 <= i < |s| ==> Keeps(s[i], t[i]);
      SameNames(s[c], t[c]);
    }
  }

  lemma RanAdd(s: Scopes, c: int, x: string)
    requires Nested(s) && 0 <= c < |s|
    ensures Ran(s, AddSymbol(s, c, x), c, {x}) && |AddSymbol(s, c, x)| == |s|
  {
    var t := AddSymbol(s, c, x);
    if t == s {
      assert s[c].symbols[IndexOf(s[c].symbols, x)].name == x;
    } else {
      var n := |s[c].symbols|;
      assert t[c].symbols[n].name == x;
      forall y | y in Names(s[c]) ensures y in Names(t[c]) {
        var i :| 0 <= i < n && s[c].symbols[i].name == y;
        assert t[c].symbols[i].name == y;
      }
    }
  }

  /** Resolving in a new scope leaves the present one alone. */
  lemma RanNew(s: Scopes, c: int, sc: Scope, t: Scopes, added: set<string>)
    requires 0 <= c < |s| && Ran(s + [sc], t, |s|, added)
    ensures Ran(s, t, c, {})
  {
    var s1 := s + [sc];
    assert Leads(s1, t, |s1|);
    forall i | 0 <= i < |s|
      ensures Keeps(s[i], t[i]) && |t[i].symbols| == |s[i].symbols|
    {
      assert s1[i] == s[i] && Keeps(s1[i], t[i]);
    }
    SameNames(s[c], t[c]);
  }

  lemma {:induction false} RanResolve(items: seq<Item>, s: Scopes, c: int, early: bool)
    requires Nested(s) && 0 <= c < |s|
    ensures Ran(s, Resolve(items, s, c, early), c, Direct(items))
    decreases items, 0
  {
    if |items| == 0 {
      RanSame(s, c);
    } else {
      var t := ResolveItem(items[0], s, c, early);
      RanItem(items[0], s, c, early);
      RanResolve(items[1..], t, c, early);
      RanTrans(s, t, Resolve(items, s, c, early), c, DirectItem(items[0]), Direct(items[1..]));
    }
  }

  lemma {:induction false} RanItem(item: Item, s: Scopes, c: int, early: bool)
    requires Nested(s) && 0 <= c < |s|
    ensures Ran(s, ResolveItem(item, s, c, early), c, DirectItem(item))
    decreases item, 1
  {
    hide Ran;
    match item
    case Use(x) => RanUse(s, c, x);
    case Declare(x) => RanAdd(s, c, x);
    case Block(body) =>
      var sc := Fresh(c, false, early);
      RanResolve(body, s + [sc], |s|, false);
      RanNew(s, c, sc, ResolveItem(item, s, c, early), Direct(body));
    case Function(_, _, _) => RanFunction(item, s, c, early);
  }

  /** The scopes after the parameters of a function, and after its name as well. */
  function AfterParams(item: Item, s: Scopes, c: int, early: bool): (s': Scopes)
    requires Nested(s) && 0 <= c < |s| && item.Function?
    ensures Nested(s') && |s| < |s'|
  {
    Resolve(item.params, s + [Fresh(c, true, early)], |s|, true)
  }

  function AfterName(item: Item, s: Scopes, c: int, early: bool): (s': Scopes)
    requires Nested(s) && 0 <= c < |s| && item.Function?
    ensures Nested(s') && |s'| == |AfterParams(item, s, c, early)|
  {
    var s1 := AfterParams(item, s, c, early);
    if item.fname.Some? then AddSymbol(s1, c, item.fname.value) else s1
  }

  /** The three stages of resolving a function. */
  lemma {:induction false} RanFunction(item: Item, s: Scopes, c: int, early: bool)
    requires Nested(s) && 0 <= c < |s| && item.Function?
    ensures var s1, s2 := AfterParams(item, s, c, early), AfterName(item, s, c, early);
            && Ran(s + [Fresh(c, true, early)], s1, |s|, Direct(item.params))
            && Ran(s1, s2, c, DirectItem(item))
            && Ran(s2, ResolveItem(item, s, c, early), |s|, Direct(item.body))
            && Ran(s, s2, c, DirectItem(item)) && Ran(s, ResolveItem(item, s, c, early), c, DirectItem(item))
    decreases item, 0
  {
    var sc, n := Fresh(c, true, early), |s|;
    RanResolve(item.params, s + [sc], n, true);
    var s1, s2 := AfterParams(item, s, c, early), AfterName(item, s, c, early);
    RanNew(s, c, sc, s1, Direct(item.params));
    if item.fname.Some? { RanAdd(s1, c, item.fname.value); } else { RanSame(s1, c); }
    RanResolve(item.body, s2, n, false);
    RanTrans(s, s1, s2, c, {}, DirectItem(item));
    assert {} + DirectItem(item) == DirectItem(item);
    RanBeside(s, s2, ResolveItem(item, s, c, early), c, n, DirectItem(item), Direct(item.body));
  }

  /** Resolving in a newer scope after resolving in scope `c`. */
  lemma RanBeside(s: Scopes, t: Scopes, u: Scopes, c: int, n: int, a: set<string>, b: set<string>)
    requires 0 <= c < |s| <= n < |t| && Ran(s, t, c, a) && Ran(t, u, n, b)
    ensures Ran(s, u, c, a)
  {
    assert Leads(t, u, |t|);
    forall i | 0 <= i < |s|
      ensures Keeps(s[i], u[i]) && (i != c ==> |u[i].symbols| == |s[i].symbols|)
    {
      assert Keeps(s[i], t[i]) && Keeps(t[i], u[i]);
    }
    SameNames(t[c], u[c]);
  }

  // ------------------------------------------- declaration before use

  /** Names a scope has when an item is resolved, and names it will get later. */
  datatype Level = Level(declared: set<string>, later: set<string>)

  /** A use of `x` finds what it will find when all names are declared. */
  predicate UseFits(levels: seq<Level>, x: string) {
    |levels| == 0 || x in levels[0].declared || (x !in levels[0].later && UseFits(levels[1..], x))
  }

  /** Names are declared before they are used, level by level. */
  predicate Ordered(items: seq<Item>, declared: set<string>, later: set<string>, outer: seq<Level>)
    decreases items
  {
    |items| == 0 ||
    (&& OrderedItem(items[0], [Level(declared, Direct(items[1..]) + later)] + outer)
     && Ordered(items[1..], declared + DirectItem(items[0]), later, outer))
  }

  predicate OrderedItem(item: Item, levels: seq<Level>)
    requires |levels| > 0
    decreases item
  {
    match item
    case Use(x) => UseFits(levels, x)
    case Declare(_) => true
    case Block(body) => Ordered(body, {}, {}, levels)
    case Function(params, _, body) =>
      && Ordered(params, {}, Direct(body), Deferred(item, levels))
      && Ordered(body, Direct(params), {}, Declared(item, levels))
  }

  /** The name of a function is declared between its parameters and its body. */
  function Deferred(item: Item, levels: seq<Level>): seq<Level>
    requires |levels| > 0
  {
    [levels[0].(later := levels[0].later + DirectItem(item))] + levels[1..]
  }

  function Declared(item: Item, levels: seq<Level>): seq<Level>
    requires |levels| > 0
  {
    [levels[0].(declared := levels[0].declared + DirectItem(item))] + levels[1..]
  }

  /** The levels describe the scopes from `c` outwards, now and in the end. */
  predicate Describes(levels: seq<Level>, s: Scopes, t: Scopes, c: int)
    requires Nested(s) && Nested(t) && |s| <= |t| && -1 <= c < |s|
    decreases c
  {
    if c == -1 then levels == []
    else
      && |levels| > 0 && Names(s[c]) == levels[0].declared
      && Names(t[c]) <= levels[0].declared + levels[0].later
      && Describes(levels[1..], s, t, s[c].parent)
  }

  lemma {:induction false} DescribesKept(levels: seq<Level>, s: Scopes, s': Scopes, t: Scopes, c: int)
    requires Nested(s) && Nested(s') && Nested(t) && |s| <= |s'| <= |t| && -1 <= c < |s|
    requires SameNesting(s, s') && Describes(levels, s, t, c)
    requires forall i :: 0 <= i <= c ==> Names(s'[i]) == Names(s[i])
    ensures Describes(levels, s', t, c)
    decreases c
  {
    if c != -1 { DescribesKept(levels[1..], s, s', t, s[c].parent); }
  }

  lemma FindKept(a: Scope, b: Scope, x: string)
    requires Keeps(a, b)
    ensures IndexOf(a.symbols, x) < |a.symbols| ==> IndexOf(b.symbols, x) == IndexOf(a.symbols, x)
    ensures IndexOf(a.symbols, x) < |a.symbols| <==> x in Names(a)
  {
    var i := IndexOf(a.symbols, x);
    if i < |a.symbols| {
      var j := IndexOf(b.symbols, x);
      assert a.symbols[i].name == x && b.symbols[i].name == x;
    }
  }

  /** A name that is declared before it is used means the same in the end. */
  lemma {:induction false} LookupStable(levels: seq<Level>, s: Scopes, t: Scopes, c: int, x: string)
    requires Nested(s) && Nested(t) && Leads(s, t, |s|) && -1 <= c < |s|
    requires Describes(levels, s, t, c) && UseFits(levels, x)
    ensures LookupResolve(t, c, x) == LookupResolve(s, c, x)
    decreases c
  {
    if c != -1 {
      FindKept(s[c], t[c], x);
      FindKept(t[c], t[c], x);
      if x !in levels[0].declared { LookupStable(levels[1..], s, t, s[c].parent, x); }
    }
  }

  // ------------------------------------------------------ what is captured

  /** A use of a name in scope `c`; `early` uses lie in a parameter default. */
  datatype UseAt = UseAt(c: int, name: string, early: bool)

  /** The uses in the items, with the scopes the code generator looks them up in. */
  function UsesOf(items: seq<Item>, s: Scopes, c: int, early: bool): seq<UseAt>
    requires Nested(s) && 0 <= c < |s|
    decreases items
  {
    if |items| == 0 then []
    else UsesItem(items[0], s, c, early) + UsesOf(items[1..], ResolveItem(items[0], s, c, early), c, early)
  }

  function UsesItem(item: Item, s: Scopes, c: int, early: bool): seq<UseAt>
    requires Nested(s) && 0 <= c < |s|
    decreases item
  {
    match item
    case Use(x) => [UseAt(c, x, early)]
    case Declare(_) => []
    case Block(body) => UsesOf(body, s + [Fresh(c, false, early)], |s|, false)
    case Function(params, _, body) =>
      UsesOf(params, s + [Fresh(c, true, early)], |s|, true) + UsesOf(body, AfterName(item, s, c, early), |s|, false)
  }

  /** Use `u` means symbol `k` of scope `d`, which belongs to an outer function. */
  predicate Crosses(t: Scopes, u: UseAt, d: int, k: int)
    requires Nested(t)
  {
    && 0 <= u.c < |t|
    && var r := LookupResolve(t, u.c, u.name);
       r.Some? && r.value.at == d && r.value.k == k && r.value.depth > 0
  }

  /** From `s` to `s'`, exactly the symbols that `uses` use across functions are captured. */
  ghost predicate Accounted(uses: seq<UseAt>, s: Scopes, s': Scopes, t: Scopes)
    requires Nested(t)
  {
    && (forall u, d, k :: u in uses && Crosses(t, u, d, k) ==> Captured(s', d, k))
    && (forall d, k :: Captured(s', d, k) && !Captured(s, d, k) ==> UsedAcross(uses, t, d, k))
    && (forall d, k :: Captured(s, d, k) ==> Captured(s', d, k))
  }

  ghost predicate UsedAcross(uses: seq<UseAt>, t: Scopes, d: int, k: int)
    requires Nested(t)
  {
    exists u :: u in uses && Crosses(t, u, d, k)
  }

  lemma AccountedBoth(us: seq<UseAt>, vs: seq<UseAt>, s: Scopes, s1: Scopes, s2: Scopes, t: Scopes)
    requires Nested(t) && Accounted(us, s, s1, t) && Accounted(vs, s1, s2, t)
    ensures Accounted(us + vs, s, s2, t)
  {
    hide Crosses;
    forall d, k | Captured(s2, d, k) && !Captured(s, d, k)
      ensures UsedAcross(us + vs, t, d, k)
    {
      if Captured(s1, d, k) {
        assert UsedAcross(us, t, d, k);
      } else {
        assert UsedAcross(vs, t, d, k);
      }
    }
  }

  lemma AccountedUse(levels: seq<Level>, s: Scopes, t: Scopes, c: int, x: string, early: bool)
    requires Nested(s) && Nested(t) && 0 <= c < |s| && Leads(s, t, |s|)
    requires Describes(levels, s, t, c) && UseFits(levels, x)
    ensures Accounted([UseAt(c, x, early)], s, ResolveUse(s, c, x), t)
  {
    LookupStable(levels, s, t, c, x);
    var u, r := UseAt(c, x, early), LookupResolve(s, c, x);
    assert u in [u];
    if r.Some? && r.value.depth > 0 {
      var d, k := r.value.at, r.value.k;
      assert Crosses(t, u, d, k) && UsedAcross([u], t, d, k);
      if !s[d].symbols[k].captured { CaptureEffect(s, d, k); }
    }
  }

  lemma AccountedAdd(s: Scopes, c: int, x: string, t: Scopes)
    requires Nested(t) && 0 <= c < |s|
    ensures Accounted([], s, AddSymbol(s, c, x), t)
  {
  }

  lemma AccountedNew(uses: seq<UseAt>, s: Scopes, sc: Scope, s': Scopes, t: Scopes)
    requires Nested(t) && sc.symbols == [] && Accounted(uses, s + [sc], s', t)
    ensures Accounted(uses, s, s', t)
  {
    assert forall d, k :: Captured(s + [sc], d, k) <==> Captured(s, d, k);
  }

  /** The next item sees what the last one declared. */
  lemma DescribesAfter(item: Item, levels: seq<Level>, s: Scopes, s': Scopes, t: Scopes, c: int)
    requires Nested(s) && Nested(s') && Nested(t) && 0 <= c < |s| && |s'| <= |t| && |levels| > 0
    requires Ran(s, s', c, DirectItem(item)) && Describes(Deferred(item, levels), s, t, c)
    ensures Describes(Declared(item, levels), s', t, c)
  {
    forall i | 0 <= i < c ensures Names(s'[i]) == Names(s[i]) { SameNames(s[i], s'[i]); }
    assert Deferred(item, levels)[1..] == levels[1..] == Declared(item, levels)[1..];
    DescribesKept(levels[1..], s, s', t, s[c].parent);
  }

  lemma DescribesNew(levels: seq<Level>, s: Scopes, t: Scopes, c: int, sc: Scope, later: set<string>)
    requires Nested(s) && Nested(t) && 0 <= c < |s| < |t| && sc.parent == c && sc.symbols == []
    requires Describes(levels, s, t, c) && Names(t[|s|]) <= later
    ensures Nested(s + [sc]) && Describes([Level({}, later)] + levels, s + [sc], t, |s|)
  {
    assert Nested(s + [sc]);
    DescribesKept(levels, s, s + [sc], t, c);
    assert ([Level({}, later)] + levels)[1..] == levels;
  }

  lemma LeadsBack(s: Scopes, s': Scopes, t: Scopes, c: int, added: set<string>, lo: int)
    requires 0 <= c < |s| && c < lo && Ran(s, s', c, added) && Leads(s', t, lo)
    ensures Leads(s, t, lo)
  {
    assert Leads(s, s', |s|);
    forall i | 0 <= i < |s|
      ensures Keeps(s[i], t[i])
    {
      assert Keeps(s[i], s'[i]) && Keeps(s'[i], t[i]);
    }
  }

  lemma LeadsWeaker(s: Scopes, t: Scopes, lo: int, hi: int)
    requires Leads(s, t, lo) && lo <= hi
    ensures Leads(s, t, hi)
  {
  }

  lemma NestedNew(s: Scopes, sc: Scope)
    requires Nested(s) && 0 <= sc.parent < |s|
    ensures Nested(s + [sc])
  {
  }

  /** The uses in the items account for what is captured while they are resolved. */
  lemma {:induction false} Accounting(items: seq<Item>, s: Scopes, c: int, early: bool, t: Scopes,
                                      declared: set<string>, later: set<string>, outer: seq<Level>)
    requires Nested(s) && Nested(t) && 0 <= c < |s| && Leads(Resolve(items, s, c, early), t, |s|)
    requires Ordered(items, declared, later, outer)
    requires |s| <= |t| && Describes([Level(declared, Direct(items) + later)] + outer, s, t, c)
    ensures Accounted(UsesOf(items, s, c, early), s, Resolve(items, s, c, early), t)
    decreases items, 0
  {
    if |items| > 0 {
      hide Leads, Describes, Accounted, Ran, Nested;
      var item, rest, s' := items[0], items[1..], Resolve(items, s, c, early);
      var s1 := ResolveItem(item, s, c, early);
      var levels := [Level(declared, Direct(rest) + later)] + outer;
      RanItem(item, s, c, early);
      RanResolve(rest, s1, c, early);
      LeadsBack(s1, s', t, c, Direct(rest), |s|);
      LeadsLength(s1, t, |s|);
      assert Deferred(item, levels) == [Level(declared, Direct(items) + later)] + outer by {
        assert Direct(rest) + later + DirectItem(item) == Direct(items) + later;
        assert levels[1..] == outer;
      }
      AccountingItem(item, s, c, early, t, levels);
      DescribesAfter(item, levels, s, s1, t, c);
      assert Declared(item, levels) == [Level(declared + DirectItem(item), Direct(rest) + later)] + outer by {
        assert levels[1..] == outer;
      }
      LeadsWeaker(s', t, |s|, |s1|);
      Accounting(rest, s1, c, early, t, declared + DirectItem(item), later, outer);
      AccountedBoth(UsesItem(item, s, c, early), UsesOf(rest, s1, c, early), s, s1, s', t);
    }
  }

  lemma LeadsLength(s: Scopes, t: Scopes, lo: int)
    requires Leads(s, t, lo)
    ensures |s| <= |t|
  {
  }

  lemma {:induction false} AccountingItem(item: Item, s: Scopes, c: int, early: bool, t: Scopes, levels: seq<Level>)
    requires Nested(s) && Nested(t) && 0 <= c < |s| && Leads(ResolveItem(item, s, c, early), t, |s|)
    requires |s| <= |t| && |levels| > 0 && OrderedItem(item, levels) && Describes(Deferred(item, levels), s, t, c)
    ensures Accounted(UsesItem(item, s, c, early), s, ResolveItem(item, s, c, early), t)
    decreases item, 1
  {
    hide Leads, Describes, Accounted, Ran, Nested;
    RanItem(item, s, c, early);
    LeadsBack(s, ResolveItem(item, s, c, early), t, c, DirectItem(item), |s|);
    match item
    case Use(x) =>
      assert Deferred(item, levels) == levels by { assert levels[0].later + {} == levels[0].later; }
      AccountedUse(levels, s, t, c, x, early);
    case Declare(x) => AccountedAdd(s, c, x, t);
    case Block(_) =>
      assert Deferred(item, levels) == levels by { assert levels[0].later + {} == levels[0].later; }
      AccountingBlock(item, s, c, early, t, levels);
    case Function(_, _, _) => AccountingFunction(item, s, c, early, t, levels);
  }

  lemma {:induction false} AccountingBlock(item: Item, s: Scopes, c: int, early: bool, t: Scopes, levels: seq<Level>)
    requires Nested(s) && Nested(t) && 0 <= c < |s| && item.Block? && Leads(ResolveItem(item, s, c, early), t, |s|)
    requires |s| <= |t| && |levels| > 0 && OrderedItem(item, levels) && Describes(levels, s, t, c)
    ensures Accounted(UsesItem(item, s, c, early), s, ResolveItem(item, s, c, early), t)
    decreases item, 0
  {
    var sc, s', body := Fresh(c, false, early), ResolveItem(item, s, c, early), item.body;
    NestedNew(s, sc);
    RanResolve(body, s + [sc], |s|, false);
    assert Names((s + [sc])[|s|]) == {};
    SameNames(s'[|s|], t[|s|]);
    DescribesNew(levels, s, t, c, sc, Direct(body));
    hide Describes, Accounted, Ran, Nested, Leads;
    assert Direct(body) + {} == Direct(body);
    LeadsWeaker(s', t, |s|, |s| + 1);
    Accounting(body, s + [sc], |s|, false, t, {}, {}, levels);
    AccountedNew(UsesItem(item, s, c, early), s, sc, s', t);
  }

  lemma {:induction false} AccountingFunction(item: Item, s: Scopes, c: int, early: bool, t: Scopes, levels: seq<Level>)
    requires Nested(s) && Nested(t) && 0 <= c < |s| && item.Function? && Leads(ResolveItem(item, s, c, early), t, |s|)
    requires |s| <= |t| && |levels| > 0 && OrderedItem(item, levels) && Describes(Deferred(item, levels), s, t, c)
    ensures Accounted(UsesItem(item, s, c, early), s, ResolveItem(item, s, c, early), t)
    decreases item, 0
  {
    hide Describes, Accounted, Ran, Nested, Leads, Resolve, Direct, AddSymbol, Names;
    var sc, n := Fresh(c, true, early), |s|;
    var s1, s2, s3 := AfterParams(item, s, c, early), AfterName(item, s, c, early), ResolveItem(item, s, c, early);
    NestedNew(s, sc);
    FunctionNames(item, s, c, early, t);
    RanFunction(item, s, c, early);
    LeadsWeaker(s3, t, n, n + 1);
    LeadsBack(s2, s3, t, n, Direct(item.body), n + 1);
    LeadsLength(s2, t, n + 1);
    LeadsBack(s1, s2, t, c, DirectItem(item), n + 1);
    DescribesNew(Deferred(item, levels), s, t, c, sc, Direct(item.params) + Direct(item.body));
    Accounting(item.params, s + [sc], n, true, t, {}, Direct(item.body), Deferred(item, levels));
    DescribesAfter(item, levels, s, s2, t, c);
    DescribesBody(item, s, s2, t, c, Declared(item, levels));
    LeadsWeaker(s3, t, n, |s2|);
    Accounting(item.body, s2, n, false, t, Direct(item.params), {}, Declared(item, levels));
    AccountedName(item, s, c, early, t);
    var us, vs := UsesOf(item.params, s + [sc], n, true), UsesOf(item.body, s2, n, false);
    AccountedNew(us, s, sc, s1, t);
    AccountedBoth(us, [], s, s1, s2, t);
    assert us + [] == us;
    AccountedBoth(us, vs, s, s2, s3, t);
  }

  lemma AccountedName(item: Item, s: Scopes, c: int, early: bool, t: Scopes)
    requires Nested(s) && Nested(t) && 0 <= c < |s| && item.Function?
    ensures Accounted([], AfterParams(item, s, c, early), AfterName(item, s, c, early), t)
  {
    if item.fname.Some? { AccountedAdd(AfterParams(item, s, c, early), c, item.fname.value, t); }
  }

  /** A function's scope gets the names of its parameters, then those of its body. */
  lemma FunctionNames(item: Item, s: Scopes, c: int, early: bool, t: Scopes)
    requires Nested(s) && Nested(t) && 0 <= c < |s| && item.Function? && Leads(ResolveItem(item, s, c, early), t, |s|)
    ensures Names(AfterName(item, s, c, early)[|s|]) == Direct(item.params)
    ensures |s| < |t| && Names(t[|s|]) == Direct(item.params) + Direct(item.body)
    ensures AfterName(item, s, c, early)[|s|].parent == c
  {
    var n, sc := |s|, Fresh(c, true, early);
    var s1, s2, s3 := AfterParams(item, s, c, early), AfterName(item, s, c, early), ResolveItem(item, s, c, early);
    RanFunction(item, s, c, early);
    assert (s + [sc])[n] == sc && Names(sc) == {};
    SameNames(s1[n], s2[n]);
    SameNames(s3[n], t[n]);
  }

  lemma DescribesBody(item: Item, s: Scopes, s2: Scopes, t: Scopes, c: int, levels: seq<Level>)
    requires Nested(s2) && Nested(t) && 0 <= c < |s| < |s2| <= |t| && item.Function? && Describes(levels, s2, t, c)
    requires Names(s2[|s|]) == Direct(item.params) && s2[|s|].parent == c
    requires Names(t[|s|]) == Direct(item.params) + Direct(item.body)
    ensures Describes([Level(Direct(item.params), Direct(item.body) + {})] + levels, s2, t, |s|)
  {
    assert ([Level(Direct(item.params), Direct(item.body) + {})] + levels)[1..] == levels;
  }

  const START: Scopes := [Fresh(-1, true, false)]

  /** The scopes of a whole program. */
  function ProgramScopes(items: seq<Item>): (t: Scopes)
    ensures Nested(t)
  {
    Resolve(items, START, 0, false)
  }

  function ProgramUses(items: seq<Item>): seq<UseAt> {
    UsesOf(items, START, 0, false)
  }

  /** In every program, the captured symbols of a function fill its environment. */
  lemma ProgramSlots(items: seq<Item>)
    ensures Slotted(ProgramScopes(items))
  {
    assert Slotted(START);
    SlottedResolve(items, START, 0, false);
  }

  /** In a program that declares before it uses, a symbol is captured exactly if it is
      used across a function boundary. */
  lemma CapturedIffUsedAcross(items: seq<Item>, d: int, k: int)
    requires Ordered(items, {}, {}, [])
    ensures var t := ProgramScopes(items); Captured(t, d, k) <==> UsedAcross(ProgramUses(items), t, d, k)
  {
    var t := ProgramScopes(items);
    RanResolve(items, START, 0, false);
    assert Names(START[0]) == {};
    assert Direct(items) + {} == Direct(items);
    assert ([Level({}, Direct(items) + {})] + [])[1..] == [];
    assert Describes([Level({}, Direct(items) + {})] + [], START, t, 0);
    assert Leads(t, t, 1);
    Accounting(items, START, 0, false, t, {}, {}, []);
    assert !Captured(START, d, k);
  }

  // --------------------------------------------------- environments at run time

  /** The scopes from `c` outwards that have an environment. */
  function Static(s: Scopes, c: int): seq<int>
    requires Nested(s) && -1 <= c < |s|
    decreases c
  {
    if c == -1 then []
    else if s[c].captures > 0 then [c] + Static(s, s[c].parent)
    else Static(s, s[c].parent)
  }

  /** The chain of environments when code of scope `c` runs, innermost first: a function
      makes its own after its parameter defaults, onto the one where it was created. */
  function Chain(s: Scopes, c: int, early: bool): seq<int>
    requires Nested(s) && -1 <= c < |s|
    decreases c
  {
    if c == -1 then []
    else if s[c].isFunction && s[c].captures > 0 && !early then [c] + Chain(s, s[c].parent, s[c].early)
    else Chain(s, s[c].parent, s[c].early)
  }

  /** Some environment between `c` and that of `f` is not there yet: the code belongs to
      the parameter defaults of a function that has one. */
  predicate Bypassed(s: Scopes, c: int, early: bool, f: int)
    requires Nested(s) && -1 <= c < |s|
    decreases c
  {
    0 <= f <= c && ((early && s[c].captures > 0) || Bypassed(s, s[c].parent, s[c].early, f))
  }

  predicate Falling(r: seq<int>, c: int) {
    && (forall i :: 0 <= i < |r| ==> 0 <= r[i] <= c)
    && (forall i, j :: 0 <= i < j < |r| ==> r[i] > r[j])
  }

  lemma FallingPush(r: seq<int>, p: int, c: int)
    requires Falling(r, p) && p < c && c >= 0
    ensures Falling([c] + r, c)
  {
    forall i, j | 0 <= i < j < |r| + 1 ensures ([c] + r)[i] > ([c] + r)[j] {
      if i > 0 { assert r[i - 1] > r[j - 1]; }
    }
  }

  lemma {:induction false} ChainFalls(s: Scopes, c: int, early: bool)
    requires Nested(s) && -1 <= c < |s|
    ensures Falling(Chain(s, c, early), c)
    decreases c
  {
    if c != -1 {
      ChainFalls(s, s[c].parent, s[c].early);
      FallingPush(Chain(s, s[c].parent, s[c].early), s[c].parent, c);
    }
  }

  /** Going up `depth` environments leads to that of `f` exactly if none is missing. */
  lemma {:induction false} ChainAt(s: Scopes, c: int, early: bool, depth: nat, f: int)
    requires Slotted(s) && 0 <= c < |s| && depth < |Static(s, c)| && Static(s, c)[depth] == f
    ensures var r := Chain(s, c, early);
            && (Bypassed(s, c, early, f) ==> depth >= |r| || r[depth] < f)
            && (!Bypassed(s, c, early, f) ==> depth < |r| && r[depth] == f)
    decreases c
  {
    var p, e := s[c].parent, s[c].early;
    ChainFalls(s, p, e);
    StaticBelow(s, c, depth);
    var r := Chain(s, p, e);
    if s[c].captures == 0 {
      ChainAt(s, p, e, depth, f);
      StaticBelow(s, p, depth);
    } else if depth > 0 {
      assert Static(s, p)[depth - 1] == f;
      ChainAt(s, p, e, depth - 1, f);
      StaticBelow(s, p, depth - 1);
      assert Chain(s, c, early) == if early then r else [c] + r;
      if early {
        assert Bypassed(s, c, early, f);
        assert depth < |r| ==> r[depth] < r[depth - 1] <= f;
      } else {
        assert Bypassed(s, c, early, f) <==> Bypassed(s, p, e, f);
      }
    } else {
      assert f == c && p < c && !Bypassed(s, p, e, f);
      assert Chain(s, c, early) == if early then r else [c] + r;
    }
  }

  lemma {:induction false} StaticBelow(s: Scopes, c: int, i: nat)
    requires Nested(s) && -1 <= c < |s| && i < |Static(s, c)|
    ensures 0 <= Static(s, c)[i] <= c
    decreases c
  {
    var p := s[c].parent;
    if s[c].captures > 0 {
      if i > 0 { StaticBelow(s, p, i - 1); }
    } else {
      StaticBelow(s, p, i);
    }
  }

  /** The number of environments the generator counts leads to the symbol's function. */
  lemma {:induction false} StaticDepth(s: Scopes, c: int, x: string)
    requires Slotted(s) && 0 <= c < |s| && LookupCodegen(s, c, x).Some?
    requires var r := LookupCodegen(s, c, x).value; Captured(s, r.at, r.k)
    ensures var r := LookupCodegen(s, c, x).value;
            r.depth < |Static(s, c)| && Static(s, c)[r.depth] == Enclosing(s, r.at)
    decreases c
  {
    if IndexOf(s[c].symbols, x) < |s[c].symbols| {
      StaticHead(s, c);
    } else {
      StaticDepth(s, s[c].parent, x);
    }
  }

  lemma {:induction false} StaticHead(s: Scopes, c: int)
    requires Slotted(s) && 0 <= c < |s| && s[Enclosing(s, c)].captures > 0
    ensures |Static(s, c)| > 0 && Static(s, c)[0] == Enclosing(s, c)
    decreases c
  {
    if !s[c].isFunction { StaticHead(s, s[c].parent); }
  }

  lemma {:induction false} SameSymbol(s: Scopes, c: int, x: string)
    requires Nested(s) && -1 <= c < |s|
    ensures var r, g := LookupResolve(s, c, x), LookupCodegen(s, c, x);
            (r.Some? <==> g.Some?) && (r.Some? ==> g.value.at == r.value.at && g.value.k == r.value.k)
    decreases c
  {
    if c != -1 { SameSymbol(s, s[c].parent, x); }
  }

  /** In every program: the address the generator gives a captured symbol selects that
      symbol's slot at run time exactly if the use is not bypassed. */
  lemma AddressIff(items: seq<Item>, u: UseAt)
    requires 0 <= u.c < |ProgramScopes(items)| && LookupCodegen(ProgramScopes(items), u.c, u.name).Some?
    requires var s := ProgramScopes(items);
             var g := LookupCodegen(s, u.c, u.name).value; Captured(s, g.at, g.k)
    ensures var s := ProgramScopes(items);
            var g := LookupCodegen(s, u.c, u.name).value;
            var slot, env := s[g.at].symbols[g.k].slot, Chain(s, u.c, u.early);
            (g.depth < |env| && HasSlot(s, g.at, g.k, env[g.depth], slot) && 0 <= slot < s[env[g.depth]].captures)
            <==> !Bypassed(s, u.c, u.early, Enclosing(s, g.at))
  {
    var s := ProgramScopes(items);
    var g := LookupCodegen(s, u.c, u.name).value;
    ProgramSlots(items);
    StaticDepth(s, u.c, u.name);
    ChainFalls(s, u.c, u.early);
    ChainAt(s, u.c, u.early, g.depth, Enclosing(s, g.at));
  }

  /** A symbol that is not captured is in a register, and only its own function uses it. */
  lemma UncapturedIsLocal(items: seq<Item>, u: UseAt)
    requires Ordered(items, {}, {}, []) && u in ProgramUses(items) && 0 <= u.c < |ProgramScopes(items)|
    requires LookupCodegen(ProgramScopes(items), u.c, u.name).Some?
    requires var s := ProgramScopes(items);
             var g := LookupCodegen(s, u.c, u.name).value; !Captured(s, g.at, g.k)
    ensures var s := ProgramScopes(items);
            Enclosing(s, u.c) == Enclosing(s, LookupCodegen(s, u.c, u.name).value.at)
  {
    var s := ProgramScopes(items);
    SameSymbol(s, u.c, u.name);
    var r := LookupResolve(s, u.c, u.name).value;
    CapturedIffUsedAcross(items, r.at, r.k);
    assert r.depth > 0 ==> Crosses(s, u, r.at, r.k);
    SameFunction(s, u.c, u.name);
  }

  lemma {:induction false} SameFunction(s: Scopes, c: int, x: string)
    requires Nested(s) && 0 <= c < |s| && LookupResolve(s, c, x).Some? && LookupResolve(s, c, x).value.depth == 0
    ensures Enclosing(s, LookupResolve(s, c, x).value.at) == Enclosing(s, c)
    decreases c
  {
    if IndexOf(s[c].symbols, x) >= |s[c].symbols| { SameFunction(s, s[c].parent, x); }
  }

  const INNER := Function([], None, [Use("p")])
  const OUTER := Function([Declare("p"), Use("x")], Some("f"), [INNER])

  /** The scope of `OUTER`, before and after its parameter is captured. */
  const FRESH_OUTER := Scope([Symbol("p", false, -1)], 0, true, 0, false)
  const FULL_OUTER := Scope([Symbol("p", true, 0)], 0, true, 1, false)

  /** The global scope with the captured variable `x` and the function. */
  const GLOBALS := Scope([Symbol("x", true, 0), Symbol("f", false, -1)], -1, true, 1, false)

  lemma ExampleParams(s: Scopes)
    requires s == [Scope([Symbol("x", false, -1)], -1, true, 0, false), Fresh(0, true, false)]
    ensures Resolve(OUTER.params, s, 1, true) == [Scope([Symbol("x", true, 0)], -1, true, 1, false), FRESH_OUTER]
    ensures UsesOf(OUTER.params, s, 1, true) == [UseAt(1, "x", true)]
  {
    var ps := OUTER.params;
    assert [] + [Symbol("p", false, -1)] == [Symbol("p", false, -1)];
    var s1 := AddSymbol(s, 1, "p");
    assert s1 == [s[0], FRESH_OUTER];
    assert LookupResolve(s1, 0, "x") == Some(Found(0, 0, 0));
    assert LookupResolve(s1, 1, "x") == Some(Found(0, 0, 1));
    assert s1[0].symbols[0 := Symbol("x", true, 0)] == [Symbol("x", true, 0)];
    var s2 := Capture(s1, 0, 0);
    assert s2 == [Scope([Symbol("x", true, 0)], -1, true, 1, false), FRESH_OUTER];
    assert ps[1..] == [Use("x")];
    SingleItem(Use("x"), s1, 1, true);
    assert Resolve(ps, s, 1, true) == Resolve(ps[1..], s1, 1, true);
    assert UsesOf(ps, s, 1, true) == [] + UsesOf(ps[1..], s1, 1, true);
  }

  lemma SingleItem(item: Item, s: Scopes, c: int, early: bool)
    requires Nested(s) && 0 <= c < |s|
    ensures Resolve([item], s, c, early) == ResolveItem(item, s, c, early)
    ensures UsesOf([item], s, c, early) == UsesItem(item, s, c, early)
  {
    assert [item][1..] == [];
  }

  lemma ExampleBody(s: Scopes)
    requires s == [GLOBALS, FRESH_OUTER]
    ensures Resolve(OUTER.body, s, 1, false) == [GLOBALS, FULL_OUTER, Fresh(1, true, false)]
  {
    SingleItem(INNER, s, 1, false);
    var s1 := s + [Fresh(1, true, false)];
    assert s1 == [GLOBALS, FRESH_OUTER, Fresh(1, true, false)];
    assert AfterName(INNER, s, 1, false) == s1;
    assert LookupResolve(s1, 1, "p") == Some(Found(1, 0, 0));
    assert LookupResolve(s1, 2, "p") == Some(Found(1, 0, 1));
    assert s1[1].symbols[0 := Symbol("p", true, 0)] == [Symbol("p", true, 0)];
    assert Capture(s1, 1, 0) == [GLOBALS, FULL_OUTER, Fresh(1, true, false)];
    SingleItem(Use("p"), s1, 2, false);
  }

  lemma ExampleProgram()
    ensures var items := [Declare("x"), OUTER];
            && ProgramScopes(items) == [GLOBALS, FULL_OUTER, Fresh(1, true, false)]
            && UseAt(1, "x", true) in ProgramUses(items)
  {
    var items, s := [Declare("x"), OUTER], [Scope([Symbol("x", false, -1)], -1, true, 0, false)];
    assert [] + [Symbol("x", false, -1)] == [Symbol("x", false, -1)];
    assert AddSymbol(START, 0, "x") == s;
    assert items[1..] == [OUTER];
    SingleItem(OUTER, s, 0, false);
    ExampleParams(s + [Fresh(0, true, false)]);
    hide Resolve, UsesOf;
    var s1 := AfterParams(OUTER, s, 0, false);
    assert s1[0].symbols + [Symbol("f", false, -1)] == GLOBALS.symbols;
    assert AddSymbol(s1, 0, "f") == [GLOBALS, FRESH_OUTER];
    ExampleBody([GLOBALS, FRESH_OUTER]);
    assert ResolveItem(OUTER, s, 0, false) == [GLOBALS, FULL_OUTER, Fresh(1, true, false)];
    assert UsesItem(OUTER, s, 0, false)[0] == UseAt(1, "x", true);
    TwoItems(Declare("x"), OUTER, START, 0);
  }

  lemma TwoItems(a: Item, b: Item, s: Scopes, c: int)
    requires Nested(s) && 0 <= c < |s|
    ensures var s1 := ResolveItem(a, s, c, false);
            && Resolve([a, b], s, c, false) == ResolveItem(b, s1, c, false)
            && UsesOf([a, b], s, c, false) == UsesItem(a, s, c, false) + UsesItem(b, s1, c, false)
  {
    assert [a, b][1..] == [b];
    SingleItem(b, ResolveItem(a, s, c, false), c, false);
  }

  lemma ExampleOrdered()
    ensures Ordered([Declare("x"), OUTER], {}, {}, [])
  {
    var items := [Declare("x"), OUTER];
    var l := [Level({} + {"x"}, Direct([]) + {})] + [];
    var ps, lp, lb := OUTER.params, Deferred(OUTER, l), Declared(OUTER, l);
    assert ps[1..] == [Use("x")] && ps[1..][1..] == [] && items[1..] == [OUTER] && items[1..][1..] == [];
    assert lp[0].declared == {"x"} && lb[0].declared == {"x", "f"};
    assert UseFits([Level({} + {"p"}, Direct([]) + Direct(OUTER.body))] + lp, "x") by {
      assert Direct(OUTER.body) == {} by { assert OUTER.body[1..] == []; }
    }
    assert Ordered(ps[1..], {} + {"p"}, Direct(OUTER.body), lp);
    assert Ordered(ps, {}, Direct(OUTER.body), lp);
    assert INNER.body[1..] == [] && OUTER.body[1..] == [];
    var li := [Level(Direct(ps), Direct([]) + {})] + lb;
    assert Direct(ps) == {"p"} by { assert Direct(ps[1..]) == {}; }
    assert UseFits([Level(Direct([]), Direct([]) + {})] + Declared(INNER, li), "p");
    assert Ordered(INNER.body, Direct([]), {}, Declared(INNER, li));
    assert OrderedItem(INNER, li);
    assert Ordered(OUTER.body, Direct(ps), {}, lb);
    assert OrderedItem(OUTER, l);
    assert Ordered(items[1..], {} + {"x"}, {}, []);
  }

  /** Such a use exists: with `let x; function f(p = x) { () => p }`, the default looks for
      `x` one environment too far out. */
  lemma DefaultIsBypassed()
    ensures var items := [Declare("x"), OUTER];
            var s, u := ProgramScopes(items), UseAt(1, "x", true);
            && Ordered(items, {}, {}, []) && u in ProgramUses(items) && |s| == 3 && Captured(s, 0, 0)
            && LookupCodegen(s, 1, "x") == Some(Found(0, 0, 1)) && Chain(s, 1, true) == [0]
  {
    ExampleProgram();
    ExampleOrdered();
    hide Ordered, UsesOf, Resolve;
    var t := [GLOBALS, FULL_OUTER, Fresh(1, true, false)];
    assert LookupCodegen(t, 0, "x") == Some(Found(0, 0, 0));
    assert Chain(t, -1, false) == [];
    assert Chain(t, 0, false) == [0];
  }

  // ------------------------------------------------------------ the resolver

  function Deeper(r: Option<Found>, depth: nat): Option<Found> {
    if r.Some? then Some(r.value.(depth := r.value.depth + depth)) else r
  }

  /** One scope of a lookup. */
  lemma LookupStep(s: Scopes, c: int, x: string)
    requires Nested(s) && 0 <= c < |s|
    ensures var k, p := IndexOf(s[c].symbols, x), s[c].parent;
            if k < |s[c].symbols| then
              LookupResolve(s, c, x) == LookupCodegen(s, c, x) == Some(Found(c, k, 0))
            else
              && LookupResolve(s, c, x) == Deeper(LookupResolve(s, p, x), if s[c].isFunction then 1 else 0)
              && LookupCodegen(s, c, x) == Deeper(LookupCodegen(s, p, x), if s[c].captures > 0 then 1 else 0)
  {
  }

  lemma LookupOutside(s: Scopes, x: string)
    requires Nested(s)
    ensures LookupResolve(s, -1, x) == LookupCodegen(s, -1, x) == None
  {
  }

  /** The resolver, which grows and updates the scopes in place. */
  class Resolver {
    var scopes: Scopes

    constructor ()
      ensures scopes == START
    {
      scopes := START;
    }

    method FindSymbol(c: int, x: string) returns (k: nat)
      requires 0 <= c < |scopes|
      ensures k == IndexOf(scopes[c].symbols, x)
    {
      k := 0;
      while k < |scopes[c].symbols| && scopes[c].symbols[k].name != x
        invariant k <= |scopes[c].symbols|
        invariant IndexOf(scopes[c].symbols, x) == k + IndexOf(scopes[c].symbols[k..], x)
      {
        assert scopes[c].symbols[k..][1..] == scopes[c].symbols[k + 1..];
        k := k + 1;
      }
    }

    method Lookup(at: int, x: string) returns (r: Option<Found>)
      requires Nested(scopes) && 0 <= at < |scopes|
      ensures r == LookupResolve(scopes, at, x)
    {
      hide LookupResolve;
      var c, depth := at, 0;
      while c != -1
        invariant -1 <= c < |scopes| && depth >= 0
        invariant LookupResolve(scopes, at, x) == Deeper(LookupResolve(scopes, c, x), depth)
        decreases c
      {
        var k := FindSymbol(c, x);
        LookupStep(scopes, c, x);
        if k < |scopes[c].symbols| {
          return Some(Found(c, k, depth));
        }
        if scopes[c].isFunction {
          depth := depth + 1;
        }
        c := scopes[c].parent;
      }
      LookupOutside(scopes, x);
      r := None;
    }

    method LookupForCode(at: int, x: string) returns (r: Option<Found>)
      requires Nested(scopes) && 0 <= at < |scopes|
      ensures r == LookupCodegen(scopes, at, x)
    {
      hide LookupCodegen;
      var c, depth := at, 0;
      while c != -1
        invariant -1 <= c < |scopes| && depth >= 0
        invariant LookupCodegen(scopes, at, x) == Deeper(LookupCodegen(scopes, c, x), depth)
        decreases c
      {
        var k := FindSymbol(c, x);
        LookupStep(scopes, c, x);
        if k < |scopes[c].symbols| {
          return Some(Found(c, k, depth));
        }
        if scopes[c].captures > 0 {
          depth := depth + 1;
        }
        c := scopes[c].parent;
      }
      LookupOutside(scopes, x);
      r := None;
    }

    method EnclosingFunction(at: int) returns (f: int)
      requires Nested(scopes) && 0 <= at < |scopes|
      ensures f == Enclosing(scopes, at)
    {
      f := at;
      while !scopes[f].isFunction
        invariant 0 <= f < |scopes| && Enclosing(scopes, at) == Enclosing(scopes, f)
        decreases f
      {
        f := scopes[f].parent;
      }
    }

    method DeclareName(c: int, x: string)
      requires Nested(scopes) && 0 <= c < |scopes|
      modifies this
      ensures scopes == AddSymbol(old(scopes), c, x)
    {
      var k := FindSymbol(c, x);
      if k == |scopes[c].symbols| {
        scopes := scopes[c := scopes[c].(symbols := scopes[c].symbols + [Symbol(x, false, -1)])];
      }
    }

    method UseName(c: int, x: string)
      requires Nested(scopes) && 0 <= c < |scopes|
      modifies this
      ensures scopes == ResolveUse(old(scopes), c, x)
    {
      var r := Lookup(c, x);
      if r.Some? && r.value.depth > 0 {
        var d, k := r.value.at, r.value.k;
        var sym := scopes[d].symbols[k];
        if !sym.captured {
          var f := EnclosingFunction(d);
          var moved := sym.(captured := true, slot := scopes[f].captures);
          scopes := scopes[d := scopes[d].(symbols := scopes[d].symbols[k := moved])];
          scopes := scopes[f := scopes[f].(captures := scopes[f].captures + 1)];
        }
      }
    }

    /** Resolves the items in scope `c`. */
    method ResolveAll(items: seq<Item>, c: int, early: bool)
      requires Nested(scopes) && 0 <= c < |scopes|
      modifies this
      ensures scopes == Resolve(items, old(scopes), c, early)
      decreases items
    {
      var i := 0;
      while i < |items|
        invariant 0 <= i <= |items| && Nested(scopes) && c < |scopes|
        invariant Resolve(items, old(scopes), c, early) == Resolve(items[i..], scopes, c, early)
      {
        assert items[i..][1..] == items[i + 1..];
        ResolveOne(items[i], c, early);
        i := i + 1;
      }
    }

    method ResolveOne(item: Item, c: int, early: bool)
      requires Nested(scopes) && 0 <= c < |scopes|
      modifies this
      ensures scopes == ResolveItem(item, old(scopes), c, early)
      decreases item
    {
      match item
      case Use(x) => UseName(c, x);
      case Declare(x) => DeclareName(c, x);
      case Block(body) =>
        var inner := |scopes|;
        scopes := scopes + [Fresh(c, false, early)];
        ResolveAll(body, inner, false);
      case Function(params, fname, body) =>
        var inner := |scopes|;
        scopes := scopes + [Fresh(c, true, early)];
        ResolveAll(params, inner, true);
        if fname.Some? {
          DeclareName(c, fname.value);
        }
        ResolveAll(body, inner, false);
    }
  }
}
