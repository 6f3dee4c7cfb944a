/** The TypeScript stripper: one scan that overwrites interfaces and type aliases with
    spaces, outside strings and comments. */
module TypeStripper {
  import opened Options

  /** Where the scanner is: in code, in a string with the given quote, or in a comment. */
  datatype Mode = Code | InString(quote: char) | LineComment | BlockComment

  predicate IsQuote(c: char) { c == '\'' || c == '"' || c == '`' }

  predicate IsGap(c: char) { c == ' ' || c == '\n' || c == '\t' }

  function Blank(c: char): char { if c == '\n' || c == '\r' then c else ' ' }

  function BlankAll(s: string): (r: string)
    ensures |r| == |s| && forall i :: 0 <= i < |s| ==> r[i] == Blank(s[i])
  {
    seq(|s|, i requires 0 <= i < |s| => Blank(s[i]))
  }

  predicate StartsWith(s: string, w: string) { |w| <= |s| && s[..|w|] == w }

  /** How far a `while` loop over the source goes until one of two characters. */
  function Until(s: string, a: char, b: char): (n: nat)
    ensures n <= |s|
  {
    if |s| == 0 || s[0] == a || s[0] == b then 0 else 1 + Until(s[1..], a, b)
  }

  /** Characters up to the brace that closes `depth` open ones. */
  function ToClose(s: string, depth: int): (n: nat)
    ensures n <= |s|
  {
    if |s| == 0 || depth <= 0 then 0
    else 1 + ToClose(s[1..], depth + (if s[0] == '{' then 1 else 0) - (if s[0] == '}' then 1 else 0))
  }

  const INTERFACE := "interface "
  const TYPE := "type "

  /** Length of the declaration that begins the text, or 0 if none does. */
  function Declaration(s: string): (n: nat)
    ensures n <= |s| && (n > 0 ==> s[0] == 'i' || s[0] == 't')
  {
    if |s| > 10 && StartsWith(s, INTERFACE) then
      var k := 10 + Until(s[10..], '{', ';');
      if k < |s| && s[k] == '{' then k + 1 + ToClose(s[k + 1..], 1) else k
    else if |s| > 5 && StartsWith(s, TYPE) then
      var k := 5 + Until(s[5..], ';', '\n');
      if k < |s| && s[k] == ';' then k + 1 else k
    else 0
  }

  /** One round of the scan: how many characters it takes, whether it blanks them, and the
      mode it leaves. */
  datatype Round = Round(n: nat, blank: bool, mode: Mode)

  function Scan(before: string, s: string, mode: Mode): (r: Round)
    requires |s| > 0
    ensures 0 < r.n <= |s| && (r.blank ==> mode == Code && r.mode == Code)
  {
    match mode
    case Code =>
      if StartsWith(s, "//") then Round(2, false, LineComment)
      else if StartsWith(s, "/*") then Round(2, false, BlockComment)
      else if IsQuote(s[0]) then Round(1, false, InString(s[0]))
      else if (before == "" || IsGap(before[|before| - 1])) && Declaration(s) > 0 then
        Round(Declaration(s), true, Code)
      else Round(1, false, Code)
    case LineComment => Round(1, false, if s[0] == '\n' then Code else LineComment)
    case BlockComment => if StartsWith(s, "*/") then Round(2, false, Code) else Round(1, false, BlockComment)
    case InString(q) =>
      if s[0] == '\\' then Round(if |s| == 1 then 1 else 2, false, mode)
      else Round(1, false, if s[0] == q then Code else mode)
  }

  /** What a round leaves of the characters that it takes. */
  function Head(s: string, r: Round): (head: string)
    requires r.n <= |s|
    ensures |head| == r.n
  {
    if r.blank then BlankAll(s[..r.n]) else s[..r.n]
  }

  /** What the scan makes of `s`, once the text before it has become `before`. */
  function Strip(before: string, s: string, mode: Mode): (out: string)
    ensures |out| == |s|
    decreases |s|
  {
    if |s| == 0 then ""
    else
      var r := Scan(before, s, mode);
      var head := Head(s, r);
      head + Strip(before + head, s[r.n..], r.mode)
  }

  /** Only blanks are written, and line breaks stay where they are. */
  lemma {:induction false} OnlyBlanks(before: string, s: string, mode: Mode, i: nat)
    requires i < |s|
    ensures var out := Strip(before, s, mode);
            (out[i] == s[i] || out[i] == ' ') && (s[i] == '\n' || s[i] == '\r' ==> out[i] == s[i])
            && (out[i] == '\n' || out[i] == '\r' ==> out[i] == s[i])
    decreases |s|
  {
    var r := Scan(before, s, mode);
    var head := Head(s, r);
    var rest := Strip(before + head, s[r.n..], r.mode);
    assert Strip(before, s, mode) == head + rest;
    if i >= r.n { OnlyBlanks(before + head, s[r.n..], r.mode, i - r.n); }
  }

  /** Whether the scan is inside a string or comment when it takes character `i`. */
  predicate Quoted(before: string, s: string, mode: Mode, i: nat)
    requires i < |s|
    decreases |s|
  {
    var r := Scan(before, s, mode);
    var head := Head(s, r);
    if i < r.n then mode != Code || r.mode != Code else Quoted(before + head, s[r.n..], r.mode, i - r.n)
  }

  /** Characters of strings and comments are never changed. */
  lemma {:induction false} QuotedKept(before: string, s: string, mode: Mode, i: nat)
    requires i < |s| && Quoted(before, s, mode, i)
    ensures Strip(before, s, mode)[i] == s[i]
    decreases |s|
  {
    var r := Scan(before, s, mode);
    var head := Head(s, r);
    var rest := Strip(before + head, s[r.n..], r.mode);
    assert Strip(before, s, mode) == head + rest;
    if i >= r.n { QuotedKept(before + head, s[r.n..], r.mode, i - r.n); }
  }

  lemma OneBlank(before: string, c: char, s: string)
    requires c in {' ', '\n', '\r'}
    ensures Strip(before, [c] + s, Code) == [c] + Strip(before + [c], s, Code)
  {
    var all := [c] + s;
    assert all[0] == c && all[..1] == [c] && all[1..] == s;
    assert Scan(before, all, Code) == Round(1, false, Code);
  }

  lemma {:induction false} SkipBlanks(before: string, blanks: string, s: string)
    requires forall i :: 0 <= i < |blanks| ==> blanks[i] in {' ', '\n', '\r'}
    ensures Strip(before, blanks + s, Code) == blanks + Strip(before + blanks, s, Code)
    decreases |blanks|
  {
    hide Strip;
    if |blanks| == 0 {
      assert blanks + s == s && before + blanks == before;
    } else {
      var b, more := [blanks[0]], blanks[1..];
      assert blanks == b + more;
      assert blanks + s == b + (more + s) && before + blanks == before + b + more;
      OneBlank(before, blanks[0], more + s);
      SkipBlanks(before + b, more, s);
    }
  }

  predicate IsLetter(c: char) { 'a' <= c <= 'z' }

  /** A character that follows a word is not blanked. */
  lemma {:induction false} AfterWord(before: string, s: string, k: nat)
    requires before != "" && !IsGap(before[|before| - 1]) && k < |s| && forall j :: 0 <= j < k ==> IsLetter(s[j])
    ensures Strip(before, s, Code)[k] == s[k]
    decreases k
  {
    hide Strip;
    StripRound(before, s, Code);
    var r := Scan(before, s, Code);
    if k > 0 {
      LetterRound(before, s);
      AfterWord(before + s[..1], s[1..], k - 1);
    }
  }

  lemma LetterRound(before: string, s: string)
    requires before != "" && !IsGap(before[|before| - 1]) && |s| > 0 && IsLetter(s[0])
    ensures Scan(before, s, Code) == Round(1, false, Code)
  {
    hide Declaration;
  }

  /** No keyword appears that was not there. */
  lemma NoNewKeyword(before: string, s: string, word: string)
    requires |s| > |word| > 1 && word[|word| - 1] == ' ' && forall j :: 0 <= j < |word| - 1 ==> IsLetter(word[j])
    requires Scan(before, s, Code) == Round(1, false, Code) && StartsWith(Strip(before, s, Code), word)
    ensures StartsWith(s, word)
  {
    hide Strip, Scan;
    NextHead(before, s, Code);
    var out, n := Strip(before, s, Code), |word| - 1;
    forall j | 0 <= j < |word|
      ensures out[j] == word[j]
    {
      assert out[..|word|][j] == word[j];
    }
    forall j | 0 <= j < n
      ensures s[j] == word[j]
    {
      OnlyBlanks(before, s, Code, j);
    }
    AfterWord(before + s[..1], s[1..], n - 1);
    assert out[n] == s[n];
    assert s[..|word|] == word;
  }

  lemma NoNewDeclaration(before: string, s: string)
    requires |s| > 0 && Scan(before, s, Code) == Round(1, false, Code) && Declaration(Strip(before, s, Code)) > 0
    ensures Declaration(s) > 0
  {
    hide Strip, Scan, Until, ToClose;
    var out := Strip(before, s, Code);
    if |s| > 10 && StartsWith(out, INTERFACE) { NoNewKeyword(before, s, INTERFACE); }
    if |s| > 5 && StartsWith(out, TYPE) { NoNewKeyword(before, s, TYPE); }
  }

  /** The scan of the result goes as the scan of the source did. */
  lemma ScanSame(before: string, s: string, mode: Mode)
    requires |s| > 0 && !Scan(before, s, mode).blank
    ensures Scan(before, Strip(before, s, mode), mode) == Scan(before, s, mode)
  {
    hide Strip, Declaration;
    StripRound(before, s, mode);
    var r, out := Scan(before, s, mode), Strip(before, s, mode);
    assert out[..r.n] == s[..r.n];
    assert out[0] == out[..r.n][0] == s[0];
    if |s| > 1 { OnlyBlanks(before, s, mode, 1); }
    assert r.n == 2 ==> out[1] == out[..r.n][1] == s[1];
    if mode == Code && r == Round(1, false, Code) {
      if Declaration(out) > 0 { NoNewDeclaration(before, s); }
      PairSame(s, out, "//");
      PairSame(s, out, "/*");
    } else if mode == BlockComment {
      PairSame(s, out, "*/");
    } else if mode == Code {
      PairSame(s, out, "//");
      PairSame(s, out, "/*");
    }
  }

  lemma PairSame(s: string, out: string, pair: string)
    requires |pair| == 2 && ' ' !in pair && |out| == |s| > 0 && out[0] == s[0]
    requires |s| > 1 ==> out[1] == s[1] || out[1] == ' '
    requires StartsWith(s, pair) ==> |s| > 1 && out[1] == s[1]
    ensures StartsWith(out, pair) <==> StartsWith(s, pair)
  {
    if |s| > 1 {
      assert out[..2] == [out[0], out[1]] && s[..2] == [s[0], s[1]] && pair == [pair[0], pair[1]];
      assert pair[1] in pair;
    }
  }

  /** Stripping twice is stripping once. */
  lemma {:induction false} Idempotent(before: string, s: string, mode: Mode)
    ensures Strip(before, Strip(before, s, mode), mode) == Strip(before, s, mode)
    decreases |s|
  {
    if |s| > 0 {
      var r, out := Scan(before, s, mode), Strip(before, s, mode);
      var head := Head(s, r);
      var rest := Strip(before + head, s[r.n..], r.mode);
      assert out == head + rest;
      Idempotent(before + head, s[r.n..], r.mode);
      if r.blank {
        SkipBlanks(before, head, rest);
      } else {
        ScanSame(before, s, mode);
        assert out[..r.n] == head && out[r.n..] == rest;
      }
    }
  }

  // -------------------------------------------------- what is stripped, and what not

  function Delta(c: char): int { if c == '{' then 1 else if c == '}' then -1 else 0 }

  /** Braces opened minus braces closed. */
  function Depth(s: string): int { if |s| == 0 then 0 else Delta(s[0]) + Depth(s[1..]) }

  /** No brace is closed that was not opened. */
  predicate Open(s: string) { forall j :: 0 <= j <= |s| ==> Depth(s[..j]) >= 0 }

  predicate Balanced(s: string) { Open(s) && Depth(s) == 0 }

  /** `n` characters up to and with the brace that closes what is open, or all of them. */
  ghost predicate Braced(s: string, n: nat) {
    n <= |s| && ((n > 0 && s[n - 1] == '}' && Balanced(s[..n - 1])) || (n == |s| && Open(s)))
  }

  predicate Free(s: string, a: char, b: char) { forall i :: 0 <= i < |s| ==> s[i] != a && s[i] != b }

  /** The first `n` characters are an interface: the keyword, text without brace or semicolon
      up to `k`, and a body in braces, if there is one. */
  ghost predicate InterfaceTo(s: string, n: nat, k: nat) {
    && 10 <= k <= n <= |s| && Free(s[10..k], '{', ';')
    && if k < n then s[k] == '{' && Braced(s[k + 1..], n - k - 1) else n == |s| || s[n] == ';'
  }

  ghost predicate IsInterface(s: string, n: nat) {
    |s| > 10 && s[..10] == "interface " && exists k :: InterfaceTo(s, n, k)
  }

  /** The first `n` characters are a type alias: the keyword and the rest of the line, up to
      and with the first semicolon, which is at `k` if there is one. */
  ghost predicate AliasTo(s: string, n: nat, k: nat) {
    && 5 <= k <= n <= |s| && Free(s[5..k], ';', '\n')
    && if k < n then s[k] == ';' && n == k + 1 else n == |s| || s[n] == '\n'
  }

  ghost predicate IsAlias(s: string, n: nat) {
    |s| > 5 && s[..5] == "type " && exists k :: AliasTo(s, n, k)
  }

  ghost predicate IsDeclaration(s: string, n: nat) { IsInterface(s, n) || IsAlias(s, n) }

  lemma {:induction false} UntilIs(s: string, a: char, b: char, k: nat)
    requires k <= |s|
    ensures Until(s, a, b) == k <==> Free(s[..k], a, b) && (k == |s| || s[k] == a || s[k] == b)
  {
    if |s| > 0 && s[0] != a && s[0] != b {
      if k > 0 {
        assert s[1..][..k - 1] == s[..k][1..];
        UntilIs(s[1..], a, b, k - 1);
        assert Free(s[..k], a, b) <==> Free(s[..k][1..], a, b) by { FreeFirst(s[..k], a, b); }
      }
    } else if k > 0 {
      assert s[..k][0] == s[0];
    }
  }

  lemma FreeFirst(s: string, a: char, b: char)
    requires |s| > 0 && s[0] != a && s[0] != b
    ensures Free(s, a, b) <==> Free(s[1..], a, b)
  {
    if Free(s[1..], a, b) {
      forall i | 0 <= i < |s| ensures s[i] != a && s[i] != b { if i > 0 { assert s[1..][i - 1] == s[i]; } }
    }
  }

  /** With `d` braces open, no prefix closes the last of them. */
  ghost predicate Above(s: string, d: int) { forall j :: 0 <= j <= |s| ==> d + Depth(s[..j]) >= 1 }

  lemma AboveFirst(s: string, d: int)
    requires |s| > 0 && d >= 1
    ensures Above(s, d) <==> Above(s[1..], d + Delta(s[0]))
    ensures d + Depth(s) == d + Delta(s[0]) + Depth(s[1..])
  {
    forall j | 0 < j <= |s| ensures Depth(s[..j]) == Delta(s[0]) + Depth(s[1..][..j - 1]) {
      assert s[..j][1..] == s[1..][..j - 1];
    }
    if Above(s, d) {
      forall j | 0 <= j <= |s| - 1
        ensures d + Delta(s[0]) + Depth(s[1..][..j]) >= 1
      {
        assert d + Depth(s[..j + 1]) >= 1;
      }
    }
    if Above(s[1..], d + Delta(s[0])) {
      forall j | 0 <= j <= |s|
        ensures d + Depth(s[..j]) >= 1
      {
        if j > 0 { assert d + Delta(s[0]) + Depth(s[1..][..j - 1]) >= 1; }
      }
    }
  }

  ghost predicate Closes(s: string, d: int, n: nat) {
    && n <= |s|
    && ((n > 0 && s[n - 1] == '}' && Above(s[..n - 1], d) && d + Depth(s[..n - 1]) == 1) || (n == |s| && Above(s, d)))
  }

  lemma {:induction false} ToCloseIs(s: string, d: int, n: nat)
    requires d >= 1 && n <= |s|
    ensures ToClose(s, d) == n <==> Closes(s, d, n)
    decreases |s|
  {
    if |s| == 0 {
      assert s[..0] == "";
    } else {
      ClosesFirst(s, d, n);
      var e := d + Delta(s[0]);
      if e >= 1 && n > 0 { ToCloseIs(s[1..], e, n - 1); }
    }
  }

  /** The first character closes the last brace, or is passed. */
  lemma ClosesFirst(s: string, d: int, n: nat)
    requires |s| > 0 && d >= 1 && n <= |s|
    ensures Closes(s, d, n) <==>
            n > 0 && if d + Delta(s[0]) >= 1 then Closes(s[1..], d + Delta(s[0]), n - 1) else n == 1
  {
    var e := d + Delta(s[0]);
    assert s[..0] == "" && Depth("") == 0;
    assert s[..1][1..] == "" && Depth(s[..1]) == Delta(s[0]);
    AboveFirst(s, d);
    if n > 1 {
      AboveFirst(s[..n - 1], d);
      assert s[..n - 1][1..] == s[1..][..n - 2] && s[n - 1] == s[1..][n - 2];
    }
    assert Above("", d) by { assert ""[..0] == ""; }
    if n == 1 { assert s[1..][..0] == ""; }
    if e < 1 {
      assert e == 0 && s[0] == '}' && d == 1;
      assert !Above(s, d);
      if n > 1 { assert !Above(s[..n - 1], d) by { assert s[..n - 1][..1] == s[..1]; } }
    }
  }

  lemma BracedIs(s: string, n: nat)
    requires n <= |s|
    ensures ToClose(s, 1) == n <==> Braced(s, n)
  {
    ToCloseIs(s, 1, n);
    forall u: string ensures Above(u, 1) <==> Open(u) { }
  }

  lemma InterfaceIs(s: string, n: nat)
    requires |s| > 10 && StartsWith(s, INTERFACE)
    ensures Declaration(s) == n <==> IsInterface(s, n)
  {
    hide Until, ToClose, Braced, Free, Declaration;
    var m := 10 + Until(s[10..], '{', ';');
    InterfaceAt(s, m);
    UntilIs(s[10..], '{', ';', m - 10);
    assert s[10..][..m - 10] == s[10..m];
    if m < |s| { BracedIs(s[m + 1..], ToClose(s[m + 1..], 1)); }
    if Declaration(s) == n { assert InterfaceTo(s, n, m); }
    if k: nat :| InterfaceTo(s, n, k) {
      UntilIs(s[10..], '{', ';', k - 10);
      assert s[10..][..k - 10] == s[10..k];
      assert k == m;
      if k < n { BracedIs(s[k + 1..], n - k - 1); }
    }
  }

  lemma AliasIs(s: string, n: nat)
    requires |s| > 5 && StartsWith(s, TYPE) && !(|s| > 10 && StartsWith(s, INTERFACE))
    ensures Declaration(s) == n <==> IsAlias(s, n)
  {
    hide Until, ToClose, Free, Declaration;
    var m := 5 + Until(s[5..], ';', '\n');
    TypeAt(s, m);
    UntilIs(s[5..], ';', '\n', m - 5);
    assert s[5..][..m - 5] == s[5..m];
    if Declaration(s) == n { assert AliasTo(s, n, m); }
    if k: nat :| AliasTo(s, n, k) {
      UntilIs(s[5..], ';', '\n', k - 5);
      assert s[5..][..k - 5] == s[5..k];
      assert k == m;
    }
  }

  /** The scanner finds a declaration of `n` characters exactly where there is one. */
  lemma DeclarationIff(s: string, n: nat)
    requires n > 0
    ensures Declaration(s) == n <==> IsDeclaration(s, n)
  {
    hide Until, ToClose, Declaration, InterfaceTo, AliasTo;
    assert |s| > 10 && s[..10] == "interface " ==> s[0] == 'i' by { if |s| > 10 { assert s[..10][0] == s[0]; } }
    assert |s| > 5 && s[..5] == "type " ==> s[0] == 't' by { if |s| > 5 { assert s[..5][0] == s[0]; } }
    if |s| > 10 && StartsWith(s, INTERFACE) {
      InterfaceIs(s, n);
    } else if |s| > 5 && StartsWith(s, TYPE) {
      AliasIs(s, n);
    } else {
      NothingAt(s);
    }
  }

  // ---------------------------------------------------------- positions of a scan

  /** The mode in which a round begins at position `k`, if one does. */
  function At(before: string, s: string, mode: Mode, k: nat): Option<Mode>
    decreases |s|
  {
    if k == 0 then Some(mode)
    else if |s| == 0 then None
    else
      var r := Scan(before, s, mode);
      var head := Head(s, r);
      if k < r.n then None else At(before + head, s[r.n..], r.mode, k - r.n)
  }

  lemma AtRound(before: string, s: string, mode: Mode, k: nat)
    requires 0 < k && |s| > 0
    ensures var r := Scan(before, s, mode);
            At(before, s, mode, k) == if k < r.n then None else At(before + Head(s, r), s[r.n..], r.mode, k - r.n)
  {
    hide Scan;
  }

  lemma NextHead(before: string, s: string, mode: Mode)
    requires |s| > 0
    ensures var r := Scan(before, s, mode);
            Strip(before, s, mode) == Head(s, r) + Strip(before + Head(s, r), s[r.n..], r.mode)
  {
    hide Scan;
  }

  /** Positions behind the first part of a text, its result, and what was before. */
  lemma Behind(before: string, s: string, head: string, rest: string, k: nat)
    requires |head| <= k <= |s| && |head| + |rest| == |s|
    ensures (head + rest)[k..] == rest[k - |head|..] && s[k..] == s[|head|..][k - |head|..]
    ensures before + (head + rest)[..k] == before + head + rest[..k - |head|]
  {
  }

  lemma AtStart(before: string, s: string, out: string, mode: Mode)
    ensures before + out[..0] == before && s[0..] == s && out[0..] == out && At(before, s, mode, 0) == Some(mode)
  {
  }

  /** From such a position on the text is stripped by itself. */
  lemma {:induction false} StripAt(before: string, s: string, mode: Mode, k: nat)
    requires k <= |s| && At(before, s, mode, k).Some?
    ensures var out := Strip(before, s, mode);
            out[k..] == Strip(before + out[..k], s[k..], At(before, s, mode, k).value)
    decreases |s|
  {
    hide Scan, Strip, Head, At;
    if k == 0 {
      AtStart(before, s, Strip(before, s, mode), mode);
    } else {
      AtRound(before, s, mode, k);
      NextHead(before, s, mode);
      var r := Scan(before, s, mode);
      var head := Head(s, r);
      StripAt(before + head, s[r.n..], r.mode, k - r.n);
      Behind(before, s, head, Strip(before + head, s[r.n..], r.mode), k);
    }
  }

  lemma {:induction false} AtMore(before: string, s: string, mode: Mode, k: nat, m: nat)
    requires k <= |s| && At(before, s, mode, k).Some?
    ensures At(before, s, mode, k + m)
            == At(before + Strip(before, s, mode)[..k], s[k..], At(before, s, mode, k).value, m)
    decreases |s|
  {
    hide Scan, Strip, Head, At;
    if k == 0 {
      AtStart(before, s, Strip(before, s, mode), mode);
    } else {
      AtRound(before, s, mode, k);
      AtRound(before, s, mode, k + m);
      NextHead(before, s, mode);
      var r := Scan(before, s, mode);
      var head := Head(s, r);
      AtMore(before + head, s[r.n..], r.mode, k - r.n, m);
      Behind(before, s, head, Strip(before + head, s[r.n..], r.mode), k);
    }
  }

  /** A declaration that begins the text comes out blank, and what follows it is stripped
      from its own beginning. */
  lemma DeclarationGone(before: string, s: string, n: nat)
    requires (before == "" || IsGap(before[|before| - 1])) && n > 0 && IsDeclaration(s, n)
    ensures n <= |s| && At(before, s, Code, n) == Some(Code)
    ensures Strip(before, s, Code) == BlankAll(s[..n]) + Strip(before + BlankAll(s[..n]), s[n..], Code)
  {
    hide IsInterface, IsAlias, Declaration, Strip;
    DeclarationIff(s, n);
    assert Scan(before, s, Code) == Round(n, true, Code) by { ScanDeclaration(before, s, n); }
    StripRound(before, s, Code);
  }

  lemma ScanDeclaration(before: string, s: string, n: nat)
    requires (before == "" || IsGap(before[|before| - 1])) && n > 0 && Declaration(s) == n
    ensures n <= |s| && Scan(before, s, Code) == Round(n, true, Code)
  {
    hide Declaration;
    assert |s| > 1 ==> s[..2][0] == s[0];
  }

  /** In any text: a declaration at the beginning or behind a gap, where the scan is in
      code, comes out blank, and the scan goes on behind it in code. */
  lemma Stripped(s: string, k: nat, n: nat)
    requires k <= |s| && At("", s, Code, k) == Some(Code) && (k == 0 || IsGap(s[k - 1]))
    requires n > 0 && IsDeclaration(s[k..], n)
    ensures var out := Strip("", s, Code);
            && k + n <= |s| && At("", s, Code, k + n) == Some(Code)
            && (forall i :: k <= i < k + n ==> out[i] == Blank(s[i]))
            && out[k + n..] == Strip(out[..k + n], s[k + n..], Code)
  {
    hide IsDeclaration, Strip, At;
    var out := Strip("", s, Code);
    if k > 0 { OnlyBlanks("", s, Code, k - 1); }
    var before := "" + out[..k];
    DeclarationGone(before, s[k..], n);
    StripAt("", s, Code, k);
    AtMore("", s, Code, k, n);
    StripAt("", s, Code, k + n);
    assert "" + out[..k + n] == out[..k + n];
    forall i | k <= i < k + n
      ensures out[i] == Blank(s[i])
    {
      assert out[i] == out[k..][i - k] && s[k..][..n][i - k] == s[i];
    }
  }

  /** Conversely, a character changes only in such a declaration. */
  lemma {:induction false} ChangedInside(before: string, s: string, mode: Mode, i: nat) returns (k: nat, n: nat)
    requires i < |s| && Strip(before, s, mode)[i] != s[i]
    ensures k <= i < k + n <= |s| && At(before, s, mode, k) == Some(Code) && IsDeclaration(s[k..], n)
    ensures var all := before + Strip(before, s, mode)[..k]; all == "" || IsGap(all[|all| - 1])
    decreases |s|
  {
    hide IsDeclaration, Declaration, Strip, Scan, At, Head;
    NextHead(before, s, mode);
    var r := Scan(before, s, mode);
    var head := Head(s, r);
    var rest := Strip(before + head, s[r.n..], r.mode);
    if i < r.n {
      k, n := 0, r.n;
      assert head[i] != s[..r.n][i];
      ChangedRound(before, s, mode);
      AtStart(before, s, Strip(before, s, mode), mode);
    } else {
      assert (head + rest)[i] == rest[i - r.n] && s[i] == s[r.n..][i - r.n];
      var m;
      m, n := ChangedInside(before + head, s[r.n..], r.mode, i - r.n);
      k := r.n + m;
      Behind(before, s, head, rest, k);
      AtRound(before, s, mode, k);
    }
  }

  lemma ChangedRound(before: string, s: string, mode: Mode)
    requires |s| > 0 && Head(s, Scan(before, s, mode)) != s[..Scan(before, s, mode).n]
    ensures mode == Code && IsDeclaration(s, Scan(before, s, mode).n)
    ensures before == "" || IsGap(before[|before| - 1])
  {
    hide IsDeclaration, Declaration;
    DeclarationIff(s, Scan(before, s, mode).n);
  }

  /** A whole interface: keyword, name, and a body with balanced braces. */
  lemma InterfaceGone(before: string, name: string, body: string, post: string)
    requires before == "" || IsGap(before[|before| - 1])
    requires Free(name, '{', ';') && Balanced(body)
    ensures var decl := "interface " + name + "{" + body + "}";
            Strip(before, decl + post, Code) == BlankAll(decl) + Strip(before + BlankAll(decl), post, Code)
  {
    hide Strip, BlankAll, Free, Balanced;
    var decl := "interface " + name + "{" + body + "}";
    var s, n, k := decl + post, |decl|, 10 + |name|;
    assert s[..n] == decl && s[n..] == post && s[10..k] == name && s[k] == '{';
    assert s[k + 1..][..|body|] == body && s[k + 1..][|body|] == '}';
    assert s[..10] == "interface ";
    assert InterfaceTo(s, n, k);
    DeclarationGone(before, s, n);
  }

  /** A whole type alias, up to its semicolon. */
  lemma AliasGone(before: string, text: string, post: string)
    requires (before == "" || IsGap(before[|before| - 1])) && Free(text, ';', '\n')
    ensures var decl := "type " + text + ";";
            Strip(before, decl + post, Code) == BlankAll(decl) + Strip(before + BlankAll(decl), post, Code)
  {
    hide Strip, BlankAll, Free;
    var decl := "type " + text + ";";
    var s, n, k := decl + post, |decl|, 5 + |text|;
    assert s[..n] == decl && s[n..] == post && s[5..k] == text && s[k] == ';';
    assert s[..5] == "type ";
    assert AliasTo(s, n, k);
    DeclarationGone(before, s, n);
  }

  // --------------------------------------------------------- strings and comments

  /** Text inside quotes `q`: any character but the quote, or a backslash and any character. */
  predicate Inner(s: string, q: char) {
    || |s| == 0
    || (|s| > 1 && s[0] == '\\' && Inner(s[2..], q))
    || (s[0] != '\\' && s[0] != q && Inner(s[1..], q))
  }

  /** The first `n` characters are taken as they are. */
  lemma Takes(before: string, a: string, s: string, mode: Mode, next: Mode)
    requires |a| > 0 && Scan(before, a + s, mode) == Round(|a|, false, next)
    ensures Strip(before, a + s, mode) == a + Strip(before + a, s, next)
  {
    hide Scan;
    NextHead(before, a + s, mode);
    assert (a + s)[..|a|] == a && (a + s)[|a|..] == s;
  }

  lemma Joined(before: string, a: string, b: string, s: string)
    ensures a + b + s == a + (b + s) && before + (a + b) == before + a + b
  {
  }

  lemma {:induction false} InnerKept(before: string, inner: string, q: char, post: string)
    requires Inner(inner, q) && q != '\\'
    ensures Strip(before, inner + ([q] + post), InString(q))
            == inner + ([q] + Strip(before + inner + [q], post, Code))
    decreases |inner|
  {
    hide Strip;
    if |inner| == 0 {
      assert inner + ([q] + post) == [q] + post && before + inner == before;
      Takes(before, [q], post, InString(q), Code);
    } else {
      var n := if inner[0] == '\\' then 2 else 1;
      var a, more := inner[..n], inner[n..];
      assert inner == a + more;
      Joined(before, a, more, [q] + post);
      Takes(before, a, more + ([q] + post), InString(q), InString(q));
      InnerKept(before + a, more, q, post);
      Joined(before, a, more, [q] + Strip(before + a + more + [q], post, Code));
    }
  }

  /** A string in code, with any of the three quotes, is kept. */
  lemma StringKept(before: string, q: char, inner: string, post: string)
    requires q in {'\'', '"', '`'} && Inner(inner, q)
    ensures Strip(before, [q] + (inner + ([q] + post)), Code)
            == [q] + (inner + ([q] + Strip(before + [q] + inner + [q], post, Code)))
  {
    hide Strip, Inner;
    var s := [q] + (inner + ([q] + post));
    assert |s| > 1 && s[..2][0] == q;
    Takes(before, [q], inner + ([q] + post), Code, InString(q));
    InnerKept(before + [q], inner, q, post);
  }

  lemma {:induction false} LineKept(before: string, text: string, post: string)
    requires '\n' !in text
    ensures Strip(before, text + ("\n" + post), LineComment)
            == text + ("\n" + Strip(before + text + "\n", post, Code))
    decreases |text|
  {
    hide Strip;
    if |text| == 0 {
      assert text + ("\n" + post) == "\n" + post && before + text == before;
      Takes(before, "\n", post, LineComment, Code);
    } else {
      var a, more := text[..1], text[1..];
      assert text == a + more && text[0] in text && a[0] == text[0];
      Joined(before, a, more, "\n" + post);
      Takes(before, a, more + ("\n" + post), LineComment, LineComment);
      LineKept(before + a, more, post);
      Joined(before, a, more, "\n" + Strip(before + a + more + "\n", post, Code));
    }
  }

  /** A comment to the end of the line is kept. */
  lemma LineCommentKept(before: string, text: string, post: string)
    requires '\n' !in text
    ensures Strip(before, "//" + (text + ("\n" + post)), Code)
            == "//" + (text + ("\n" + Strip(before + "//" + text + "\n", post, Code)))
  {
    hide Strip;
    var s := "//" + (text + ("\n" + post));
    assert s[..2] == "//";
    Takes(before, "//", text + ("\n" + post), Code, LineComment);
    LineKept(before + "//", text, post);
  }

  /** No end of a comment begins in the text. */
  predicate Unended(s: string) { forall i :: 0 <= i < |s| - 1 ==> !(s[i] == '*' && s[i + 1] == '/') }

  lemma {:induction false} BlockKept(before: string, text: string, post: string)
    requires Unended(text + "*")
    ensures Strip(before, text + ("*/" + post), BlockComment)
            == text + ("*/" + Strip(before + text + "*/", post, Code))
    decreases |text|
  {
    hide Strip;
    if |text| == 0 {
      assert text + ("*/" + post) == "*/" + post && before + text == before;
      assert ("*/" + post)[..2] == "*/";
      Takes(before, "*/", post, BlockComment, Code);
    } else {
      var a, more := text[..1], text[1..];
      assert text == a + more;
      var s := a + (more + ("*/" + post));
      assert s[0] == (text + "*")[0] && s[1] == (text + "*")[1] && s[..2] == [s[0], s[1]];
      Joined(before, a, more, "*/" + post);
      Takes(before, a, more + ("*/" + post), BlockComment, BlockComment);
      assert Unended(more + "*") by {
        assert forall i :: 0 <= i < |more + "*"| ==> (more + "*")[i] == (text + "*")[i + 1];
      }
      BlockKept(before + a, more, post);
      Joined(before, a, more, "*/" + Strip(before + a + more + "*/", post, Code));
    }
  }

  /** A comment up to its end mark is kept. */
  lemma BlockCommentKept(before: string, text: string, post: string)
    requires Unended(text + "*")
    ensures Strip(before, "/*" + (text + ("*/" + post)), Code)
            == "/*" + (text + ("*/" + Strip(before + "/*" + text + "*/", post, Code)))
  {
    hide Strip, Unended;
    var s := "/*" + (text + ("*/" + post));
    assert s[..2] == "/*";
    Takes(before, "/*", text + ("*/" + post), Code, BlockComment);
    BlockKept(before + "/*", text, post);
  }

  // ------------------------------------------------------------- the scanner

  /** Strips the text in place. */
  method StripInPlace(source: array<char>)
    modifies source
    ensures source[..] == Strip("", old(source[..]), Code)
  {
    hide Scan, Strip, Head;
    ghost var goal := Strip("", source[..], Code);
    var i, mode := 0, Code;
    assert source[..0] == "" && source[0..] == source[..];
    while i < source.Length
      invariant 0 <= i <= source.Length
      invariant goal == source[..i] + Strip(source[..i], source[i..], mode)
      decreases source.Length - i
    {
      ghost var before, rest := source[..i], source[i..];
      ghost var r := Scan(before, rest, mode);
      StripRound(before, rest, mode);
      var n;
      n, mode := TakeRound(source, i, mode);
      Moved(source[..], before, rest, Head(rest, r), i, n);
      i := i + n;
    }
    StripNothing(source[..i], mode);
    assert source[i..] == "" && source[..i] == source[..];
  }

  /** One round at position `i`: finds what it takes, and blanks it if it is a declaration. */
  method TakeRound(source: array<char>, i: nat, mode: Mode) returns (n: nat, next: Mode)
    requires i < source.Length
    modifies source
    ensures var r := Scan(old(source[..i]), old(source[i..]), mode);
            && n == r.n && next == r.mode
            && source[..] == old(source[..i]) + Head(old(source[i..]), r) + old(source[i..])[n..]
  {
    hide Scan;
    ghost var before, rest := source[..i], source[i..];
    var blank;
    n, blank, next := NextRound(source, i, mode);
    assert source[i..i + n] == rest[..n] && source[i + n..] == rest[n..];
    if blank {
      BlankOut(source, i, n);
    }
  }

  /** The scan takes a round and goes on. */
  lemma StripRound(before: string, s: string, mode: Mode)
    requires |s| > 0
    ensures var r := Scan(before, s, mode);
            var head := Head(s, r);
            && 0 < r.n <= |s| && Strip(before, s, mode) == head + Strip(before + head, s[r.n..], r.mode)
            && before + Strip(before, s, mode) == before + head + Strip(before + head, s[r.n..], r.mode)
  {
    hide Scan;
  }

  lemma StripNothing(before: string, mode: Mode)
    ensures Strip(before, "", mode) == ""
  {
  }

  lemma Moved(now: string, before: string, rest: string, head: string, i: nat, n: nat)
    requires i == |before| && n == |head| <= |rest| && now == before + head + rest[n..]
    ensures now[..i + n] == before + head && now[i + n..] == rest[n..]
  {
  }

  /** One round of the scan at position `i`. */
  method NextRound(source: array<char>, i: nat, mode: Mode) returns (n: nat, blank: bool, next: Mode)
    requires i < source.Length
    ensures Scan(source[..i], source[i..], mode) == Round(n, blank, next)
  {
    var c := source[i];
    var d := if i + 1 < source.Length then source[i + 1] else '\0';
    ghost var s := source[i..];
    assert s[0] == c && (|s| > 1 ==> s[1] == d);
    assert |s| > 1 ==> s[..2] == [c, d];
    n, blank, next := 1, false, mode;
    match mode
    case Code =>
      if c == '/' && d == '/' {
        n, next := 2, LineComment;
      } else if c == '/' && d == '*' {
        n, next := 2, BlockComment;
      } else if IsQuote(c) {
        next := InString(c);
      } else if i == 0 || IsGap(source[i - 1]) {
        var k := DeclarationAt(source, i);
        if k > 0 {
          n, blank := k, true;
        }
      }
    case LineComment =>
      if c == '\n' {
        next := Code;
      }
    case BlockComment =>
      if c == '*' && d == '/' {
        n, next := 2, Code;
      }
    case InString(q) =>
      if c == '\\' {
        n := if i + 1 < source.Length then 2 else 1;
      } else if c == q {
        next := Code;
      }
  }

  /** Length of the declaration at position `i`, found as the source finds its end. */
  method DeclarationAt(source: array<char>, i: nat) returns (n: nat)
    requires i < source.Length
    ensures n == Declaration(source[i..])
  {
    hide Until, ToClose, Declaration;
    ghost var s := source[i..];
    Window(source[..], i, 10);
    Window(source[..], i, 5);
    var j := i;
    if i + 10 < source.Length && source[i..i + 10] == INTERFACE {
      j := FindEither(source, i + 10, '{', ';');
      InterfaceAt(s, j - i);
      if j < source.Length && source[j] == '{' {
        assert s[j - i + 1..] == source[j + 1..];
        j := FindClose(source, j + 1);
      }
    } else if i + 5 < source.Length && source[i..i + 5] == TYPE {
      j := FindEither(source, i + 5, ';', '\n');
      TypeAt(s, j - i);
      if j < source.Length && source[j] == ';' {
        j := j + 1;
      }
    } else {
      NothingAt(s);
    }
    n := j - i;
  }

  lemma Window(source: string, i: nat, n: nat)
    requires i <= |source|
    ensures i + n <= |source| ==> source[i..][..n] == source[i..i + n] && source[i..][n..] == source[i + n..]
  {
  }

  // The declaration that begins `s`, once its end has been looked for.

  lemma InterfaceAt(s: string, k: nat)
    requires |s| > 10 && StartsWith(s, INTERFACE) && k == 10 + Until(s[10..], '{', ';')
    ensures Declaration(s) == if k < |s| && s[k] == '{' then k + 1 + ToClose(s[k + 1..], 1) else k
  {
    hide Until, ToClose;
  }

  lemma TypeAt(s: string, k: nat)
    requires |s| > 5 && StartsWith(s, TYPE) && !(|s| > 10 && StartsWith(s, INTERFACE))
    requires k == 5 + Until(s[5..], ';', '\n')
    ensures Declaration(s) == if k < |s| && s[k] == ';' then k + 1 else k
  {
    hide Until, ToClose;
  }

  lemma NothingAt(s: string)
    requires !(|s| > 10 && StartsWith(s, INTERFACE)) && !(|s| > 5 && StartsWith(s, TYPE))
    ensures Declaration(s) == 0
  {
    hide Until, ToClose;
  }

  method FindEither(source: array<char>, from: nat, a: char, b: char) returns (j: nat)
    requires from <= source.Length
    ensures j == from + Until(source[from..], a, b) <= source.Length
  {
    j := from;
    while j < source.Length && source[j] != a && source[j] != b
      invariant from <= j <= source.Length && Until(source[from..], a, b) == j - from + Until(source[j..], a, b)
    {
      assert source[j..][1..] == source[j + 1..];
      j := j + 1;
    }
  }

  method FindClose(source: array<char>, from: nat) returns (j: nat)
    requires from <= source.Length
    ensures j == from + ToClose(source[from..], 1) <= source.Length
  {
    var depth := 1;
    j := from;
    while j < source.Length && depth > 0
      invariant from <= j <= source.Length && ToClose(source[from..], 1) == j - from + ToClose(source[j..], depth)
    {
      assert source[j..][1..] == source[j + 1..];
      if source[j] == '{' {
        depth := depth + 1;
      }
      if source[j] == '}' {
        depth := depth - 1;
      }
      j := j + 1;
    }
  }

  method BlankOut(source: array<char>, from: nat, n: nat)
    requires from + n <= source.Length
    modifies source
    ensures source[..] == old(source[..from]) + BlankAll(old(source[from..from + n])) + old(source[from + n..])
  {
    for j := from to from + n
      invariant forall k :: 0 <= k < source.Length ==>
                  source[k] == if from <= k < j then Blank(old(source[k])) else old(source[k])
    {
      if source[j] != '\n' && source[j] != '\r' {
        source[j] := ' ';
      }
    }
  }
}
