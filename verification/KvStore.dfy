/** The key-value store: an in-memory index and the append-only log it is rebuilt from. */
module KvStore {
  import opened Options
  import opened Decimals

  // ------------------------------------------------------------------ the index

  /** An index node; a node without value stands for a deleted key. */
  datatype Node = Node(key: string, value: Option<string>)

  function Position(nodes: seq<Node>, key: string): (i: nat)
    ensures i <= |nodes|
    ensures i < |nodes| ==> nodes[i].key == key
    ensures forall j :: 0 <= j < i ==> nodes[j].key != key
  {
    if |nodes| == 0 || nodes[0].key == key then 0 else 1 + Position(nodes[1..], key)
  }

  /** The index after a key is set, or deleted if there is no value. */
  function SetNode(nodes: seq<Node>, key: string, value: Option<string>): seq<Node> {
    var i := Position(nodes, key);
    if i < |nodes| then nodes[i := Node(key, value)]
    else if value.Some? then [Node(key, value)] + nodes
    else nodes
  }

  function GetNode(nodes: seq<Node>, key: string): Option<string> {
    var i := Position(nodes, key);
    if i < |nodes| then nodes[i].value else None
  }

  datatype Op = Op(key: string, value: Option<string>)

  /** A buffer as C string functions see it, up to the first NUL. */
  function CString(s: string): (c: string)
    ensures |c| <= |s| && c == s[..|c|]
  {
    if |s| == 0 || s[0] == '\0' then "" else [s[0]] + CString(s[1..])
  }

  /** The value that an operation leaves in the index. */
  function Stored(op: Op): Option<string> {
    if op.value.Some? then Some(CString(op.value.value)) else None
  }

  function Effect(nodes: seq<Node>, op: Op): seq<Node> {
    SetNode(nodes, CString(op.key), Stored(op))
  }

  function RunFrom(nodes: seq<Node>, ops: seq<Op>): seq<Node>
    decreases |ops|
  {
    if |ops| == 0 then nodes else RunFrom(Effect(nodes, ops[0]), ops[1..])
  }

  // -------------------------------------------------------------------- the log

  predicate IsSpace(c: char) { c == ' ' || '\t' <= c <= '\r' }

  function ValueText(op: Op): string { if op.value.Some? then op.value.value else "" }

  function Header(op: Op): string {
    [if op.value.Some? then 'S' else 'D'] + Lengths(op)
  }

  function Lengths(op: Op): string {
    " " + Decimal(|op.key|) + " " + Decimal(|ValueText(op)|) + " "
  }

  function Body(op: Op): string { op.key + ValueText(op) }

  /** The record that is appended for an operation. */
  function Record(op: Op): string { Header(op) + Body(op) + "\n" }

  function Log(ops: seq<Op>): string {
    if |ops| == 0 then "" else Record(ops[0]) + Log(ops[1..])
  }

  // ----------------------------------------------------------------- the replay

  function SkipSpace(s: string): (r: string)
    ensures |r| <= |s|
  {
    if |s| > 0 && IsSpace(s[0]) then SkipSpace(s[1..]) else s
  }

  /** A number as `%d` scans it: after white space, with an optional sign. */
  function ScanInt(s: string): (r: Option<(int, string)>)
    ensures r.Some? ==> |r.value.1| <= |s|
  {
    var t := SkipSpace(s);
    var u := if |t| > 0 && (t[0] == '-' || t[0] == '+') then t[1..] else t;
    if |u| == 0 || !IsDigit(u[0]) then None
    else
      var (n, rest) := ReadDigits(u, 0);
      Some((if t[0] == '-' then 0 - n as int else n as int, rest))
  }

  /** The scan of both lengths; it also skips the white space behind them. */
  function ScanLengths(s: string): (r: Option<(int, int, string)>)
    ensures r.Some? ==> |r.value.2| <= |s|
  {
    var a := ScanInt(s);
    if a.None? then None
    else
      var b := ScanInt(a.value.1);
      if b.None? then None else Some((a.value.0, b.value.0, SkipSpace(b.value.1)))
  }

  /** The index built from a file; reading stops at the first record that is not whole. */
  function Replay(file: string, nodes: seq<Node>): seq<Node>
    decreases |file|
  {
    if |file| == 0 then nodes
    else if file[0] == '\n' then Replay(file[1..], nodes)
    else if file[0] != 'S' && file[0] != 'D' then nodes
    else
      var r := ScanLengths(file[1..]);
      if r.None? then nodes
      else
        var (k, v, rest) := r.value;
        if k < 0 || |rest| < k then nodes
        else if file[0] == 'D' then Replay(rest[k..], Effect(nodes, Op(rest[..k], None)))
        else if v < 0 || |rest| < k + v then nodes
        else Replay(rest[k + v..], Effect(nodes, Op(rest[..k], Some(rest[k..k + v]))))
  }

  /** What the format can carry: no record body begins with white space. */
  predicate Fits(op: Op) {
    Body(op) != "" ==> !IsSpace(Body(op)[0])
  }

  // ------------------------------------------------------------ numbers and spaces

  /** Scanning a printed number gives the number and leaves what follows. */
  lemma ScanDec(n: nat, rest: string)
    requires rest == "" || !IsDigit(rest[0])
    ensures ScanInt(" " + Decimal(n) + rest) == Some((n, rest))
  {
    var s, t := " " + Decimal(n) + rest, Decimal(n) + rest;
    assert s[1..] == t && t[0] == Decimal(n)[0];
    assert SkipSpace(s) == SkipSpace(t) == t;
    ReadDecimal(n, rest);
  }

  /** A prefix of a printed number is a printed number, zero only for zero. */
  lemma {:induction false} DecPrefix(n: nat, m: nat) returns (w: nat)
    requires 0 < m <= |Decimal(n)|
    ensures Decimal(n)[..m] == Decimal(w) && (n > 0 ==> w > 0) && (m == |Decimal(n)| ==> w == n)
  {
    if m == |Decimal(n)| {
      w := n;
    } else {
      w := DecPrefix(n / 10, m);
    }
  }

  lemma ScanBoth(op: Op, rest: string)
    ensures ScanLengths(Lengths(op) + rest) == Some((|op.key|, |ValueText(op)|, SkipSpace(rest)))
  {
    var k, v := Decimal(|op.key|), Decimal(|ValueText(op)|);
    var tail := " " + rest;
    assert Lengths(op) + rest == " " + k + (" " + v + tail);
    ScanDec(|op.key|, " " + v + tail);
    ScanDec(|ValueText(op)|, tail);
    assert tail[1..] == rest;
  }

  // ------------------------------------------------------------------- whole logs

  /** One round of the replay. */
  lemma ReplayOne(file: string, nodes: seq<Node>, op: Op, tail: string, after: string)
    requires file == Header(op) + tail && SkipSpace(tail) == Body(op) + after
    ensures Replay(file, nodes) == Replay(after, Effect(nodes, op))
  {
    var k, v, rest := |op.key|, |ValueText(op)|, SkipSpace(tail);
    assert file[1..] == Lengths(op) + tail;
    ScanBoth(op, tail);
    hide Effect, Decimal, SkipSpace, ScanLengths, Lengths;
    assert rest[..k] == op.key && rest[k..k + v] == ValueText(op) && rest[k + v..] == after;
    assert Op(op.key, op.value) == op;
    if op.value.None? {
      assert rest[k..] == after;
    } else {
      assert Op(rest[..k], Some(rest[k..k + v])) == op;
    }
  }

  /** Replaying a whole record has the effect of its operation. */
  lemma ReplayRecord(op: Op, rest: string, nodes: seq<Node>)
    requires Fits(op) && (rest == "" || !IsSpace(rest[0]))
    ensures Replay(Record(op) + rest, nodes) == Replay(rest, Effect(nodes, op))
  {
    hide Effect, Decimal, ScanLengths, Lengths, Header;
    var file, tail := Record(op) + rest, Body(op) + ("\n" + rest);
    assert file == Header(op) + tail;
    assert ("\n" + rest)[1..] == rest;
    if Body(op) == "" {
      assert tail == "\n" + rest;
      assert SkipSpace(tail) == SkipSpace(rest) == rest;
      assert Body(op) + rest == rest;
      ReplayOne(file, nodes, op, tail, rest);
    } else {
      assert tail[0] == Body(op)[0];
      ReplayOne(file, nodes, op, tail, "\n" + rest);
      assert Replay("\n" + rest, Effect(nodes, op)) == Replay(rest, Effect(nodes, op));
    }
  }

  lemma LogStart(ops: seq<Op>)
    ensures Log(ops) == "" || !IsSpace(Log(ops)[0])
  {
  }

  /** Replaying the log of any run of operations rebuilds the index exactly. */
  lemma {:induction false} ReplayLog(ops: seq<Op>, nodes: seq<Node>)
    requires forall i :: 0 <= i < |ops| ==> Fits(ops[i])
    ensures Replay(Log(ops), nodes) == RunFrom(nodes, ops)
    decreases |ops|
  {
    if |ops| > 0 {
      LogStart(ops[1..]);
      ReplayRecord(ops[0], Log(ops[1..]), nodes);
      ReplayLog(ops[1..], Effect(nodes, ops[0]));
    }
  }

  // ----------------------------------------------------------------- cut-off logs

  lemma ScanNothing(s: string)
    requires s == "" || s == " "
    ensures ScanInt(s) == None
  {
    if s == " " { assert s[1..] == ""; }
  }

  /** Scanning lengths that are cut off fails, or gives the first length in full. */
  lemma PartLengths(op: Op, m: nat)
    requires m < |Lengths(op)|
    ensures var r := ScanLengths(Lengths(op)[..m]);
            r.None? ||
            (&& r.value.0 == |op.key| && r.value.2 == ""
             && (if |ValueText(op)| == 0 then r.value.1 == 0 else r.value.1 > 0))
  {
    var k, v := Decimal(|op.key|), Decimal(|ValueText(op)|);
    var p := Lengths(op)[..m];
    ScanNothing("");
    ScanNothing(" ");
    if m <= 1 {
      assert p == "" || p == " ";
    } else if m <= 1 + |k| {
      var w := DecPrefix(|op.key|, m - 1);
      assert p == " " + Decimal(w) + "";
      ScanDec(w, "");
    } else {
      var j := m - 2 - |k|;
      if j == 0 {
        assert p == " " + k + " ";
        ScanDec(|op.key|, " ");
      } else {
        var w := DecPrefix(|ValueText(op)|, j);
        assert p == " " + k + (" " + Decimal(w) + "");
        ScanDec(|op.key|, " " + Decimal(w) + "");
        ScanDec(w, "");
      }
    }
  }

  /** A record that is cut off has no effect, unless only its end is missing. */
  lemma PartRecord(op: Op, i: nat, nodes: seq<Node>)
    requires Fits(op) && i < |Record(op)|
    ensures Replay(Record(op)[..i], nodes) == nodes || Replay(Record(op)[..i], nodes) == Effect(nodes, op)
  {
    hide Lengths, Decimal, ScanLengths, Replay, Effect;
    if i >= |Header(op)| {
      var m := i - |Header(op)|;
      assert Record(op)[..i] == Header(op) + Body(op)[..m];
      PartBody(op, m, nodes);
    } else if i > 0 {
      assert Record(op)[..i][1..] == Lengths(op)[..i - 1];
      PartHeader(op, Record(op)[..i], i - 1, nodes);
    } else {
      ReplayNothing(nodes);
    }
  }

  lemma PartHeader(op: Op, file: string, m: nat, nodes: seq<Node>)
    requires m < |Lengths(op)| && |file| > 0 && file[0] == Header(op)[0] && file[1..] == Lengths(op)[..m]
    ensures Replay(file, nodes) == nodes || Replay(file, nodes) == Effect(nodes, op)
  {
    PartLengths(op, m);
    hide Effect, ScanLengths, Lengths, Decimal;
    assert ""[..0] == "" && ""[0..] == "";
    if |op.key| == 0 && |ValueText(op)| == 0 {
      assert op == Op("", None) || op == Op("", Some(""));
    }
  }

  lemma PartBody(op: Op, m: nat, nodes: seq<Node>)
    requires Fits(op) && m <= |Body(op)|
    ensures var file := Header(op) + Body(op)[..m];
            Replay(file, nodes) == if m < |Body(op)| then nodes else Effect(nodes, op)
  {
    var part, file := Body(op)[..m], Header(op) + Body(op)[..m];
    assert part == "" || part[0] == Body(op)[0];
    assert SkipSpace(part) == part;
    if m == |Body(op)| {
      assert part == Body(op) + "";
      ReplayOne(file, nodes, op, part, "");
    } else {
      assert file[1..] == Lengths(op) + part;
      ScanBoth(op, part);
      hide Effect, ScanLengths, Lengths, Decimal, SkipSpace;
    }
  }

  /** Replaying a log that is cut off anywhere gives the index after some of the operations. */
  lemma {:induction false} ReplayCutOff(ops: seq<Op>, n: nat, nodes: seq<Node>) returns (j: nat)
    requires n <= |Log(ops)| && forall i :: 0 <= i < |ops| ==> Fits(ops[i])
    ensures j <= |ops| && Replay(Log(ops)[..n], nodes) == RunFrom(nodes, ops[..j])
    decreases |ops|
  {
    hide Record, Replay, Effect;
    ReplayNothing(nodes);
    j := 0;
    if |ops| > 0 {
      var r, rest := Record(ops[0]), Log(ops[1..]);
      if n < |r| {
        assert Log(ops)[..n] == r[..n];
        PartRecord(ops[0], n, nodes);
        if Replay(r[..n], nodes) != nodes {
          j := 1;
          assert ops[..1][1..] == [] && ops[..1][0] == ops[0];
        }
      } else {
        var cut := rest[..n - |r|];
        assert Log(ops)[..n] == r + cut;
        LogStart(ops[1..]);
        assert cut == "" || cut[0] == rest[0];
        ReplayRecord(ops[0], cut, nodes);
        j := ReplayCutOff(ops[1..], n - |r|, Effect(nodes, ops[0]));
        assert ops[..j + 1][1..] == ops[1..][..j] && ops[..j + 1][0] == ops[0];
        j := j + 1;
      }
    }
  }

  // --------------------------------------------------------- appending to any file

  /** Reading stops at the beginning of `file`, before its end. */
  predicate Broken(file: string) {
    && |file| > 0 && file[0] != '\n'
    && (file[0] == 'S' || file[0] == 'D' ==>
          var r := ScanLengths(file[1..]);
          || r.None? || r.value.0 < 0 || |r.value.2| < r.value.0
          || (file[0] == 'S' && (r.value.1 < 0 || |r.value.2| < r.value.0 + r.value.1)))
  }

  /** What the first round leaves of a file. */
  function Behind(file: string): (rest: string)
    requires |file| > 0 && !Broken(file)
    ensures |rest| < |file|
  {
    if file[0] == '\n' then file[1..]
    else
      var (k, v, rest) := ScanLengths(file[1..]).value;
      rest[if file[0] == 'S' then k + v else k..]
  }

  /** Reading goes on to the end of the file. */
  predicate ReadsToEnd(file: string)
    decreases |file|
  {
    |file| == 0 || (!Broken(file) && ReadsToEnd(Behind(file)))
  }

  /** Text that begins like a record. */
  predicate Opens(t: string) { |t| > 0 && (t[0] == 'S' || t[0] == 'D') }

  lemma {:induction false} SkipAppend(s: string, t: string)
    requires Opens(t)
    ensures SkipSpace(s + t) == SkipSpace(s) + t
  {
    if |s| > 0 && IsSpace(s[0]) {
      assert (s + t)[1..] == s[1..] + t;
      SkipAppend(s[1..], t);
    } else {
      assert (s + t)[0] == if |s| > 0 then s[0] else t[0];
    }
  }

  lemma {:induction false} DigitsAppend(s: string, n: nat, t: string)
    requires Opens(t)
    ensures ReadDigits(s + t, n) == (ReadDigits(s, n).0, ReadDigits(s, n).1 + t)
  {
    if |s| == 0 {
      assert s + t == t;
    } else {
      assert (s + t)[1..] == s[1..] + t;
      if IsDigit(s[0]) { DigitsAppend(s[1..], 10 * n + (s[0] - '0') as nat, t); }
    }
  }

  lemma IntAppend(s: string, t: string)
    requires Opens(t)
    ensures var r := ScanInt(s); ScanInt(s + t) == if r.None? then None else Some((r.value.0, r.value.1 + t))
  {
    hide SkipSpace, ReadDigits;
    SkipAppend(s, t);
    var a := SkipSpace(s);
    if |a| > 0 && (a[0] == '-' || a[0] == '+') {
      assert (a + t)[1..] == a[1..] + t;
      DigitsAppend(a[1..], 0, t);
    } else {
      DigitsAppend(a, 0, t);
    }
  }

  /** What is appended does not change how the lengths before it are read. */
  lemma LengthsAppend(s: string, t: string)
    requires Opens(t)
    ensures var r := ScanLengths(s);
            ScanLengths(s + t) == if r.None? then None else Some((r.value.0, r.value.1, r.value.2 + t))
  {
    hide ScanInt;
    IntAppend(s, t);
    if ScanInt(s).Some? {
      IntAppend(ScanInt(s).value.1, t);
      if ScanInt(ScanInt(s).value.1).Some? { SkipAppend(ScanInt(ScanInt(s).value.1).value.1, t); }
    }
  }

  /** The index after the first round. */
  function Passed(file: string, nodes: seq<Node>): seq<Node>
    requires |file| > 0 && !Broken(file)
  {
    if file[0] == '\n' then nodes
    else
      var (k, v, rest) := ScanLengths(file[1..]).value;
      Effect(nodes, Op(rest[..k], if file[0] == 'S' then Some(rest[k..k + v]) else None))
  }

  lemma RoundAppend(file: string, t: string, nodes: seq<Node>)
    requires |file| > 0 && !Broken(file) && Opens(t)
    ensures Replay(file, nodes) == Replay(Behind(file), Passed(file, nodes))
    ensures Replay(file + t, nodes) == Replay(Behind(file) + t, Passed(file, nodes))
  {
    hide ScanLengths, Effect;
    assert (file + t)[1..] == file[1..] + t;
    if file[0] != '\n' {
      LengthsAppend(file[1..], t);
      var (k, v, rest) := ScanLengths(file[1..]).value;
      assert (rest + t)[..k] == rest[..k];
      if file[0] == 'D' {
        assert (rest + t)[k..] == rest[k..] + t;
      } else {
        assert (rest + t)[k..k + v] == rest[k..k + v] && (rest + t)[k + v..] == rest[k + v..] + t;
      }
    }
  }

  /** A record behind a file that is read to its end has its effect. */
  lemma {:induction false} ReplayAppend(file: string, op: Op, nodes: seq<Node>)
    requires ReadsToEnd(file) && Fits(op)
    ensures Replay(file + Record(op), nodes) == Effect(Replay(file, nodes), op)
    decreases |file|
  {
    hide Record, Effect, Broken, Behind, Passed;
    if |file| == 0 {
      assert file + Record(op) == Record(op) + "";
      ReplayRecord(op, "", nodes);
    } else {
      RecordOpens(op);
      RoundAppend(file, Record(op), nodes);
      ReplayAppend(Behind(file), op, Passed(file, nodes));
    }
  }

  lemma RecordOpens(op: Op)
    ensures Opens(Record(op))
  {
  }

  function Letters(n: nat): (s: string)
    ensures |s| == n && forall i :: 0 <= i < n ==> s[i] == 'a'
  {
    seq(n, i => 'a')
  }

  /** The operation that gives a key of `n` letters an empty value. */
  function Mark(n: nat): (op: Op)
    ensures Fits(op)
  {
    Op(Letters(n), Some(""))
  }

  lemma {:induction false} Whole(s: string)
    requires forall i :: 0 <= i < |s| ==> s[i] != '\0'
    ensures CString(s) == s
  {
    if |s| > 0 { Whole(s[1..]); }
  }

  lemma MarkEffect(nodes: seq<Node>, n: nat)
    requires forall i :: 0 <= i < |nodes| ==> |nodes[i].key| < n
    ensures GetNode(Effect(nodes, Mark(n)), Letters(n)) == Some("") && GetNode(nodes, Letters(n)) == None
  {
    Whole(Letters(n));
    GetSet(nodes, Letters(n), Some(""), Letters(n));
  }

  lemma {:induction false} LongerThanAll(nodes: seq<Node>, m: nat) returns (n: nat)
    ensures n >= m && forall i :: 0 <= i < |nodes| ==> |nodes[i].key| < n
  {
    n := m;
    if |nodes| > 0 {
      n := LongerThanAll(nodes[1..], if |nodes[0].key| < m then m else |nodes[0].key| + 1);
      assert forall i :: 1 <= i < |nodes| ==> nodes[i] == nodes[1..][i - 1];
    }
  }

  /** Reading stops anywhere inside a marking record. */
  lemma InsideMark(n: nat, j: nat)
    requires 0 < j <= n
    ensures var t := Record(Mark(n)); j < |t| && t[j] != '\n' && t[j] != 'S' && t[j] != 'D'
  {
    AllDigits(n);
    AllDigits(0);
    var t, d := Record(Mark(n)), Decimal(n);
    assert t == "S" + " " + d + " " + Decimal(0) + " " + Letters(n) + "\n";
  }

  /** Where reading stops, a marking record that is long enough is lost. */
  lemma BrokenLoses(file: string, nodes: seq<Node>) returns (n: nat)
    requires Broken(file)
    ensures Replay(file + Record(Mark(n)), nodes) != Effect(Replay(file, nodes), Mark(n))
  {
    hide ScanLengths, Effect, Record;
    var r := if file[0] == 'S' || file[0] == 'D' then ScanLengths(file[1..]) else None;
    var need := if r.None? || r.value.0 < 0 then 0 else if r.value.1 < 0 then r.value.0 else r.value.0 + r.value.1;
    n := LongerThanAll(nodes, need + 1);
    MarkEffect(nodes, n);
    assert Replay(file, nodes) == nodes;
    var t := Record(Mark(n));
    RecordOpens(Mark(n));
    assert (file + t)[1..] == file[1..] + t && (file + t)[0] == file[0];
    LengthsAppend(file[1..], t);
    if r.None? {
      assert Replay(file + t, nodes) == nodes;
    } else {
      BrokenBody(file, nodes, n, r.value.0, r.value.1, r.value.2);
    }
  }

  lemma BrokenBody(file: string, nodes: seq<Node>, n: nat, k: int, v: int, rest: string)
    requires Broken(file) && (file[0] == 'S' || file[0] == 'D')
    requires ScanLengths(file[1..]) == Some((k, v, rest))
    requires ScanLengths((file + Record(Mark(n)))[1..]) == Some((k, v, rest + Record(Mark(n))))
    requires k >= 0 ==> n > k && n > k + v
    ensures GetNode(Replay(file + Record(Mark(n)), nodes), Letters(n)) == GetNode(nodes, Letters(n))
  {
    hide ScanLengths, Effect, Record;
    var t := Record(Mark(n));
    var body := rest + t;
    var need := if file[0] == 'S' then k + v else k;
    if k >= 0 && |body| >= k && (file[0] == 'S' ==> v >= 0 && |body| >= k + v) {
      InsideMark(n, need - |rest|);
      var after := body[need..];
      assert after[0] == t[need - |rest|];
      var op := Op(body[..k], if file[0] == 'S' then Some(body[k..k + v]) else None);
      assert Replay(file + t, nodes) == Replay(after, Effect(nodes, op)) == Effect(nodes, op);
      OtherKey(nodes, op, n);
    }
  }

  lemma OtherKey(nodes: seq<Node>, op: Op, n: nat)
    requires |op.key| < n
    ensures GetNode(Effect(nodes, op), Letters(n)) == GetNode(nodes, Letters(n))
  {
    GetSet(nodes, CString(op.key), Stored(op), Letters(n));
  }

  lemma {:induction false} UnreadLoses(file: string, nodes: seq<Node>) returns (n: nat)
    requires !ReadsToEnd(file)
    ensures Replay(file + Record(Mark(n)), nodes) != Effect(Replay(file, nodes), Mark(n))
    decreases |file|
  {
    hide Record, Effect, Broken, Behind, Passed, Replay;
    if Broken(file) {
      n := BrokenLoses(file, nodes);
    } else {
      n := UnreadLoses(Behind(file), Passed(file, nodes));
      RecordOpens(Mark(n));
      RoundAppend(file, Record(Mark(n)), nodes);
    }
  }

  /** For any file: every record appended to it has its effect on a replay if and only if
      the replay of the file reads it to its end. */
  lemma AppendIff(file: string, nodes: seq<Node>)
    ensures (forall op :: Fits(op) ==> Replay(file + Record(op), nodes) == Effect(Replay(file, nodes), op))
            <==> ReadsToEnd(file)
  {
    hide Record, Effect, Replay, ReadsToEnd, Fits;
    if ReadsToEnd(file) {
      forall op | Fits(op)
        ensures Replay(file + Record(op), nodes) == Effect(Replay(file, nodes), op)
      {
        ReplayAppend(file, op, nodes);
      }
    } else {
      var n := UnreadLoses(file, nodes);
      assert Fits(Mark(n));
    }
  }

  /** A log cut off at `n` ends with a whole record, but for the newline or, if the record
      carries nothing, the blank before it. */
  predicate CutsClean(ops: seq<Op>, n: nat)
    decreases |ops|
  {
    if |ops| == 0 then n == 0
    else
      var size := |Record(ops[0])|;
      if n >= size then CutsClean(ops[1..], n - size)
      else n == 0 || n == size - 1 || (Body(ops[0]) == "" && n == size - 2)
  }

  lemma BehindOne(file: string, op: Op, tail: string, after: string)
    requires file == Header(op) + tail && SkipSpace(tail) == Body(op) + after
    ensures |file| > 0 && !Broken(file) && Behind(file) == after
  {
    assert file[1..] == Lengths(op) + tail;
    ScanBoth(op, tail);
    hide Decimal, SkipSpace, ScanLengths, Lengths;
    var rest := SkipSpace(tail);
    assert rest[|op.key| + |ValueText(op)|..] == after;
  }

  lemma ReadsRecord(op: Op, rest: string)
    requires Fits(op) && (rest == "" || !IsSpace(rest[0]))
    ensures ReadsToEnd(Record(op) + rest) <==> ReadsToEnd(rest)
  {
    hide Decimal, ScanLengths, Lengths, Header, Broken, Behind;
    var file, tail := Record(op) + rest, Body(op) + ("\n" + rest);
    assert file == Header(op) + tail;
    assert ("\n" + rest)[1..] == rest;
    if Body(op) == "" {
      assert tail == "\n" + rest;
      assert SkipSpace(tail) == SkipSpace(rest) == rest;
      assert Body(op) + rest == rest;
      BehindOne(file, op, tail, rest);
    } else {
      assert tail[0] == Body(op)[0];
      BehindOne(file, op, tail, "\n" + rest);
      ReadsNewline(rest);
    }
  }

  lemma ReadsNewline(rest: string)
    ensures ReadsToEnd("\n" + rest) <==> ReadsToEnd(rest)
  {
    assert ("\n" + rest)[1..] == rest;
  }

  /** When both lengths are zero, the blank behind them may be missing, but no more. */
  lemma EmptyLengths(op: Op, m: nat)
    requires Body(op) == "" && m < |Lengths(op)|
    ensures |Lengths(op)| == 5 && (ScanLengths(Lengths(op)[..m]).Some? <==> m == 4)
  {
    assert Lengths(op) == " 0 0 ";
    ScanNothing("");
    ScanNothing(" ");
    if m <= 1 {
      assert Lengths(op)[..m] == "" || Lengths(op)[..m] == " ";
    } else if m == 4 {
      assert Lengths(op)[..m] == " " + Decimal(0) + (" " + Decimal(0) + "");
      ScanDec(0, " " + Decimal(0) + "");
      ScanDec(0, "");
    } else {
      var r := if m == 2 then "" else " ";
      assert Lengths(op)[..m] == " " + Decimal(0) + r;
      ScanDec(0, r);
    }
  }

  lemma PartReads(op: Op, i: nat)
    requires Fits(op) && 0 < i < |Record(op)|
    ensures ReadsToEnd(Record(op)[..i]) <==> i == |Record(op)| - 1 || (Body(op) == "" && i == |Record(op)| - 2)
  {
    hide Lengths, Decimal, ScanLengths, Broken, Behind;
    if i >= |Header(op)| {
      assert Record(op)[..i] == Header(op) + Body(op)[..i - |Header(op)|];
      PartBodyReads(op, i - |Header(op)|);
    } else {
      assert Record(op)[..i][1..] == Lengths(op)[..i - 1];
      PartHeaderReads(op, Record(op)[..i], i - 1);
    }
  }

  lemma PartBodyReads(op: Op, m: nat)
    requires Fits(op) && m <= |Body(op)|
    ensures ReadsToEnd(Header(op) + Body(op)[..m]) <==> m == |Body(op)|
  {
    var part, file := Body(op)[..m], Header(op) + Body(op)[..m];
    assert part == "" || part[0] == Body(op)[0];
    assert SkipSpace(part) == part;
    if m == |Body(op)| {
      assert part == Body(op) + "";
      BehindOne(file, op, part, "");
    } else {
      assert file[1..] == Lengths(op) + part;
      ScanBoth(op, part);
      hide ScanLengths, Lengths, Decimal, SkipSpace;
      assert Broken(file);
    }
  }

  lemma PartHeaderReads(op: Op, file: string, m: nat)
    requires m < |Lengths(op)| && |file| > 0 && file[0] == Header(op)[0] && file[1..] == Lengths(op)[..m]
    ensures ReadsToEnd(file) <==> Body(op) == "" && m == |Lengths(op)| - 1
  {
    PartLengths(op, m);
    if Body(op) == "" { EmptyLengths(op, m); }
    hide Lengths, Decimal, ScanLengths;
    if !Broken(file) { assert Behind(file) == "" && ReadsToEnd(""); }
  }

  lemma {:induction false} CutReads(ops: seq<Op>, n: nat)
    requires n <= |Log(ops)| && forall i :: 0 <= i < |ops| ==> Fits(ops[i])
    ensures ReadsToEnd(Log(ops)[..n]) <==> CutsClean(ops, n)
    decreases |ops|
  {
    hide Record, Broken, Behind, Body;
    if |ops| > 0 {
      RecordOpens(ops[0]);
      assert n == 0 ==> Log(ops)[..n] == "";
    }
    if |ops| > 0 && n > 0 {
      var r, rest := Record(ops[0]), Log(ops[1..]);
      if n < |r| {
        assert Log(ops)[..n] == r[..n];
        PartReads(ops[0], n);
      } else {
        var cut := rest[..n - |r|];
        assert Log(ops)[..n] == r + cut;
        LogStart(ops[1..]);
        assert cut == "" || cut[0] == rest[0];
        ReadsRecord(ops[0], cut);
        CutReads(ops[1..], n - |r|);
      }
    }
  }

  /** For a log cut off anywhere: every record appended to it is replayed if and only if
      the cut is at the end of a record, up to the white space there. */
  lemma AppendAfterCut(ops: seq<Op>, n: nat, nodes: seq<Node>)
    requires n <= |Log(ops)| && forall i :: 0 <= i < |ops| ==> Fits(ops[i])
    ensures (forall op :: Fits(op) ==>
               Replay(Log(ops)[..n] + Record(op), nodes) == Effect(Replay(Log(ops)[..n], nodes), op))
            <==> CutsClean(ops, n)
  {
    hide Record, Effect, Replay, ReadsToEnd, Fits, CutsClean, Log;
    CutReads(ops, n);
    AppendIff(Log(ops)[..n], nodes);
  }

  /** Recovery does not cut off the broken end: a record appended to a log that ends in a
      lone type byte is lost. */
  lemma LostAfterCutOff(op: Op, nodes: seq<Node>)
    ensures Replay("S" + Record(op), nodes) == nodes
  {
    var file := "S" + Record(op);
    assert file[1..] == Record(op) && Record(op)[0] == Header(op)[0];
  }

  // ------------------------------------------------------- what a record can carry

  /** A record has its effect, whatever the index, exactly if its body does not begin with
      white space, which the scan of the lengths would skip. */
  lemma RestoredIff(op: Op)
    ensures (forall nodes :: Replay(Record(op), nodes) == Effect(nodes, op)) <==> Fits(op)
  {
    hide Record, Effect, Replay, Fits;
    if Fits(op) {
      assert Record(op) + "" == Record(op);
      forall nodes ensures Replay(Record(op), nodes) == Effect(nodes, op) {
        ReplayRecord(op, "", nodes);
        assert Replay("", Effect(nodes, op)) == Effect(nodes, op) by { ReplayNothing(Effect(nodes, op)); }
      }
    } else {
      var nodes := NotRestored(op);
    }
  }

  lemma ReplayNothing(nodes: seq<Node>)
    ensures Replay("", nodes) == nodes
  {
  }

  /** An index that shows the difference: one that has the key if it is deleted. */
  lemma NotRestored(op: Op) returns (nodes: seq<Node>)
    requires !Fits(op)
    ensures Replay(Record(op), nodes) != Effect(nodes, op)
  {
    hide Record, Replay, Effect;
    nodes := if op.value.Some? then [] else [Node(CString(op.key), Some(""))];
    assert GetNode(nodes, CString(op.key)) == if op.value.Some? then None else Some("");
    HasEffect(nodes, op);
    if Replay(Record(op), nodes) != nodes {
      var read := Misread(op, nodes);
      OtherEffect(nodes, op, read);
    }
  }

  /** What is read instead, if anything, begins with another character. */
  lemma Misread(op: Op, nodes: seq<Node>) returns (read: Op)
    requires !Fits(op) && Replay(Record(op), nodes) != nodes
    ensures |read.key| == |op.key| && |ValueText(read)| == |ValueText(op)| && (read.value.Some? <==> op.value.Some?)
    ensures Body(op) != "" && !IsSpace(Body(read)[0]) && Replay(Record(op), nodes) == Effect(nodes, read)
  {
    var k, v, tail := |op.key|, |ValueText(op)|, Body(op) + "\n";
    var rest := SkipSpace(tail);
    assert Record(op)[1..] == Lengths(op) + tail;
    ScanBoth(op, tail);
    Skips(tail);
    hide Lengths, Decimal, ScanLengths, SkipSpace, Effect;
    assert |rest| >= k + v;
    assert rest == tail[1..] && rest[k + v..] == "" && !IsSpace(rest[0]);
    read := Op(rest[..k], if op.value.Some? then Some(rest[k..k + v]) else None);
    assert Body(read)[0] == rest[0];
  }

  lemma HasEffect(nodes: seq<Node>, op: Op)
    requires GetNode(nodes, CString(op.key)) == if op.value.Some? then None else Some("")
    ensures GetNode(Effect(nodes, op), CString(op.key)) == Stored(op) && Effect(nodes, op) != nodes
  {
    GetSet(nodes, CString(op.key), Stored(op), CString(op.key));
  }

  lemma OtherEffect(nodes: seq<Node>, op: Op, read: Op)
    requires GetNode(nodes, CString(op.key)) == if op.value.Some? then None else Some("")
    requires |read.key| == |op.key| && |ValueText(read)| == |ValueText(op)| && (read.value.Some? <==> op.value.Some?)
    requires Body(op) != "" && IsSpace(Body(op)[0]) && !IsSpace(Body(read)[0])
    ensures Effect(nodes, read) != Effect(nodes, op)
  {
    HasEffect(nodes, op);
    GetSet(nodes, CString(read.key), Stored(read), CString(op.key));
    if |op.key| > 0 {
      assert Body(op)[0] == op.key[0] && Body(read)[0] == read.key[0];
      FirstOf(op.key, read.key);
    } else {
      assert Body(op) == ValueText(op) && Body(read) == ValueText(read);
      FirstOf(op.value.value, read.value.value);
    }
  }

  lemma {:induction false} Skips(s: string)
    ensures SkipSpace(s) == "" || !IsSpace(SkipSpace(s)[0])
    ensures s != "" && IsSpace(s[0]) ==> |SkipSpace(s)| < |s| && (|SkipSpace(s)| == |s| - 1 ==> SkipSpace(s) == s[1..])
  {
    if |s| > 0 && IsSpace(s[0]) { Skips(s[1..]); }
  }

  lemma FirstOf(a: string, b: string)
    requires |a| > 0 && |b| > 0 && IsSpace(a[0]) && !IsSpace(b[0])
    ensures CString(a) != CString(b)
  {
  }

  // ------------------------------------------------------------------- compaction

  predicate Distinct(nodes: seq<Node>) {
    forall i, j :: 0 <= i < j < |nodes| ==> nodes[i].key != nodes[j].key
  }

  predicate KeptNode(n: Node) {
    CString(n.key) == n.key && (n.value.Some? ==> CString(n.value.value) == n.value.value)
  }

  /** What holds of every index: each key once, and no text goes beyond a NUL. */
  predicate Kept(nodes: seq<Node>) {
    Distinct(nodes) && forall i :: 0 <= i < |nodes| ==> KeptNode(nodes[i])
  }

  lemma GetSet(nodes: seq<Node>, key: string, value: Option<string>, x: string)
    ensures GetNode(SetNode(nodes, key, value), x) == if x == key then value else GetNode(nodes, x)
  {
    var i, nodes' := Position(nodes, key), SetNode(nodes, key, value);
    if i < |nodes| {
      SamePosition(nodes, nodes', x);
    } else if value.Some? {
      assert nodes'[1..] == nodes;
    }
  }

  lemma {:induction false} SamePosition(nodes: seq<Node>, nodes': seq<Node>, x: string)
    requires |nodes| == |nodes'| && forall i :: 0 <= i < |nodes| ==> nodes'[i].key == nodes[i].key
    ensures Position(nodes', x) == Position(nodes, x)
  {
    if |nodes| > 0 && nodes[0].key != x { SamePosition(nodes[1..], nodes'[1..], x); }
  }

  lemma {:induction false} CStringTwice(s: string)
    ensures CString(CString(s)) == CString(s)
  {
    if |s| > 0 && s[0] != '\0' {
      CStringTwice(s[1..]);
      assert CString(s)[1..] == CString(s[1..]);
    }
  }

  lemma EffectKept(nodes: seq<Node>, op: Op)
    requires Kept(nodes)
    ensures Kept(Effect(nodes, op))
  {
    CStringTwice(op.key);
    CStringTwice(ValueText(op));
  }

  lemma {:induction false} ReplayKept(file: string, nodes: seq<Node>)
    requires Kept(nodes)
    ensures Kept(Replay(file, nodes))
    decreases |file|
  {
    hide Kept, Effect, ScanLengths;
    if |file| > 0 && !Broken(file) {
      if file[0] == '\n' {
        ReplayKept(file[1..], nodes);
      } else {
        var (k, v, rest) := ScanLengths(file[1..]).value;
        var op := Op(rest[..k], if file[0] == 'S' then Some(rest[k..k + v]) else None);
        EffectKept(nodes, op);
        ReplayKept(Behind(file), Effect(nodes, op));
      }
    }
  }

  /** What compaction writes: one operation for every key that has a value. */
  function Compacted(nodes: seq<Node>): (ops: seq<Op>)
  {
    if |nodes| == 0 then []
    else (if nodes[0].value.Some? then [Op(nodes[0].key, nodes[0].value)] else []) + Compacted(nodes[1..])
  }

  /** The compacted operations set every key to what the index has for it. */
  lemma {:induction false} CompactedRun(nodes: seq<Node>, acc: seq<Node>, x: string)
    requires Kept(nodes)
    ensures GetNode(RunFrom(acc, Compacted(nodes)), x)
            == if GetNode(nodes, x).Some? then GetNode(nodes, x) else GetNode(acc, x)
    decreases |nodes|
  {
    if |nodes| > 0 {
      var n, rest := nodes[0], nodes[1..];
      assert forall i :: 0 <= i < |rest| ==> rest[i] == nodes[i + 1];
      var acc' := if n.value.Some? then Effect(acc, Op(n.key, n.value)) else acc;
      RunSplit(acc, if n.value.Some? then [Op(n.key, n.value)] else [], Compacted(rest));
      CompactedRun(rest, acc', x);
      if n.value.Some? { GetSet(acc, n.key, n.value, x); }
      assert x == n.key ==> Position(rest, x) == |rest|;
      assert KeptNode(n);
    }
  }

  lemma {:induction false} RunSplit(nodes: seq<Node>, ops: seq<Op>, more: seq<Op>)
    ensures RunFrom(nodes, ops + more) == RunFrom(RunFrom(nodes, ops), more)
    decreases |ops|
  {
    if |ops| == 0 {
      assert ops + more == more;
    } else {
      assert (ops + more)[1..] == ops[1..] + more;
      RunSplit(Effect(nodes, ops[0]), ops[1..], more);
    }
  }

  lemma {:induction false} LogSplit(ops: seq<Op>, more: seq<Op>)
    ensures Log(ops + more) == Log(ops) + Log(more)
    decreases |ops|
  {
    if |ops| == 0 {
      assert ops + more == more;
    } else {
      assert (ops + more)[1..] == ops[1..] + more;
      LogSplit(ops[1..], more);
    }
  }

  // -------------------------------------------------------------------- the store

  /** Two indexes give the same values. */
  ghost predicate Agree(a: seq<Node>, b: seq<Node>) {
    forall x :: GetNode(a, x) == GetNode(b, x)
  }

  /** What every key with a value is written as can be read back. */
  predicate AllFit(nodes: seq<Node>) {
    forall i :: 0 <= i < |nodes| && nodes[i].value.Some? ==> Fits(Op(nodes[i].key, nodes[i].value))
  }

  class Store {
    var nodes: seq<Node>
    var file: string

    ghost predicate Valid()
      reads this
    {
      Kept(nodes)
    }

    /** A replay of the file would read all of it and give what the index gives. */
    ghost predicate InStep()
      reads this
    {
      ReadsToEnd(file) && Agree(nodes, Replay(file, []))
    }

    /** The store over any file, whatever it holds. */
    constructor (file: string)
      ensures Valid() && this.file == file && nodes == Replay(file, [])
      ensures InStep() <==> ReadsToEnd(file)
    {
      this.file := file;
      nodes := [];
      new;
      Load();
      ReplayKept(file, []);
    }

    /** Builds the index from the file, record by record. */
    method Load()
      requires nodes == []
      modifies this`nodes
      ensures nodes == Replay(file, [])
    {
      hide ScanLengths, CString, SetNode;
      var rest := file;
      while |rest| > 0
        invariant Replay(rest, nodes) == Replay(file, [])
        decreases |rest|
      {
        var kind := rest[0];
        rest := rest[1..];
        if kind == '\n' {
          continue;
        }
        if kind != 'S' && kind != 'D' {
          break;
        }
        var r := ScanLengths(rest);
        if r.None? {
          break;
        }
        var (k, v, body) := r.value;
        if k < 0 || |body| < k {
          break;
        }
        if kind == 'S' {
          if v < 0 || |body| < k + v {
            break;
          }
          SetInMemory(CString(body[..k]), Some(CString(body[k..k + v])));
          rest := body[k + v..];
        } else {
          SetInMemory(CString(body[..k]), None);
          rest := body[k..];
        }
      }
    }

    method SetInMemory(key: string, value: Option<string>)
      modifies this`nodes
      ensures nodes == SetNode(old(nodes), key, value)
    {
      var i := Find(key);
      if i < |nodes| {
        nodes := nodes[i := Node(key, value)];
      } else if value.Some? {
        nodes := [Node(key, value)] + nodes;
      }
    }

    method Find(key: string) returns (i: nat)
      ensures i == Position(nodes, key)
    {
      i := 0;
      while i < |nodes| && nodes[i].key != key
        invariant i <= |nodes| && Position(nodes, key) == i + Position(nodes[i..], key)
      {
        assert nodes[i..][1..] == nodes[i + 1..];
        i := i + 1;
      }
    }

    method Get(key: string) returns (value: Option<string>)
      ensures value == GetNode(nodes, CString(key))
      ensures InStep() ==> value == GetNode(Replay(file, []), CString(key))
    {
      var i := Find(CString(key));
      value := if i < |nodes| then nodes[i].value else None;
    }

    /** Sets a key, or deletes it if there is no value: first in the file, then in memory. */
    method Write(op: Op)
      requires Valid()
      modifies this
      ensures Valid() && file == old(file) + Record(op) && nodes == Effect(old(nodes), op)
      ensures forall x :: GetNode(nodes, x) == if x == CString(op.key) then Stored(op) else GetNode(old(nodes), x)
      ensures old(InStep()) && Fits(op) ==> InStep()
    {
      hide Kept, Replay, Record, Agree, ReadsToEnd, Fits;
      file := file + Record(op);
      SetInMemory(CString(op.key), Stored(op));
      EffectKept(old(nodes), op);
      forall x
        ensures GetNode(nodes, x) == if x == CString(op.key) then Stored(op) else GetNode(old(nodes), x)
      {
        GetSet(old(nodes), CString(op.key), Stored(op), x);
      }
      if old(InStep()) && Fits(op) {
        ReplayAppend(old(file), op, []);
        ReadsAppend(old(file), op);
        EffectAgree(old(nodes), Replay(old(file), []), op);
      }
    }

    /** Replaces the file by one record for every key that has a value. */
    method Compact()
      requires Valid()
      modifies this`file
      ensures Valid() && file == Log(Compacted(nodes))
      ensures AllFit(nodes) ==> InStep()
    {
      hide Record, Log, Compacted, Agree, Kept, AllFit, ReadsToEnd, Replay;
      file := WriteLive();
      if AllFit(nodes) { CompactedReplay(nodes); }
    }

    method WriteLive() returns (text: string)
      ensures text == Log(Compacted(nodes))
    {
      hide Record;
      text := "";
      var i := 0;
      while i < |nodes|
        invariant 0 <= i <= |nodes| && Log(Compacted(nodes)) == text + Log(Compacted(nodes[i..]))
      {
        var n := nodes[i];
        var rest := nodes[i..];
        assert rest[1..] == nodes[i + 1..] && rest[0] == n;
        if n.value.Some? {
          var op := Op(n.key, n.value);
          LogSplit([op], Compacted(rest[1..]));
          LogOne(op);
          text := text + Record(op);
        } else {
          assert [] + Compacted(rest[1..]) == Compacted(rest[1..]);
        }
        i := i + 1;
      }
    }
  }

  lemma EffectAgree(a: seq<Node>, b: seq<Node>, op: Op)
    requires Agree(a, b)
    ensures Agree(Effect(a, op), Effect(b, op))
  {
    forall x
      ensures GetNode(Effect(a, op), x) == GetNode(Effect(b, op), x)
    {
      GetSet(a, CString(op.key), Stored(op), x);
      GetSet(b, CString(op.key), Stored(op), x);
    }
  }

  lemma {:induction false} ReadsAppend(file: string, op: Op)
    requires ReadsToEnd(file) && Fits(op)
    ensures ReadsToEnd(file + Record(op))
    decreases |file|
  {
    hide Record, Broken, Behind;
    if |file| == 0 {
      assert file + Record(op) == Record(op) + "";
      ReadsRecord(op, "");
    } else {
      RecordOpens(op);
      BehindAppend(file, Record(op));
      ReadsAppend(Behind(file), op);
    }
  }

  lemma BehindAppend(file: string, t: string)
    requires |file| > 0 && !Broken(file) && Opens(t)
    ensures !Broken(file + t) && Behind(file + t) == Behind(file) + t
  {
    hide ScanLengths;
    assert (file + t)[1..] == file[1..] + t && (file + t)[0] == file[0];
    if file[0] != '\n' { LengthsAppend(file[1..], t); }
  }

  lemma {:induction false} CompactedFits(nodes: seq<Node>)
    requires AllFit(nodes)
    ensures forall i :: 0 <= i < |Compacted(nodes)| ==> Fits(Compacted(nodes)[i])
  {
    hide Fits;
    if |nodes| > 0 {
      assert forall i :: 0 <= i < |nodes[1..]| ==> nodes[1..][i] == nodes[i + 1];
      CompactedFits(nodes[1..]);
    }
  }

  lemma {:induction false} LogReads(ops: seq<Op>)
    requires forall i :: 0 <= i < |ops| ==> Fits(ops[i])
    ensures ReadsToEnd(Log(ops))
  {
    hide Record, Broken, Behind, Fits;
    if |ops| > 0 {
      LogStart(ops[1..]);
      ReadsRecord(ops[0], Log(ops[1..]));
      LogReads(ops[1..]);
    }
  }

  /** A replay of the compacted file gives every key what the index has for it. */
  lemma CompactedReplay(nodes: seq<Node>)
    requires Kept(nodes) && AllFit(nodes)
    ensures var file := Log(Compacted(nodes)); ReadsToEnd(file) && Agree(nodes, Replay(file, []))
  {
    hide Compacted, Kept, AllFit, Fits, Log, Replay, ReadsToEnd;
    CompactedFits(nodes);
    LogReads(Compacted(nodes));
    ReplayLog(Compacted(nodes), []);
    forall x
      ensures GetNode(nodes, x) == GetNode(RunFrom([], Compacted(nodes)), x)
    {
      CompactedRun(nodes, [], x);
      assert GetNode([], x) == None;
    }
  }

  lemma LogOne(op: Op)
    ensures Log([op]) == Record(op)
  {
    assert Log([op]) == Record(op) + Log([op][1..]) && [op][1..] == [];
  }
}
