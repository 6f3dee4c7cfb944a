/** Base64 as in section 4 of RFC 4648: the encoder takes the bytes three at a time, the
    decoder collects six bits per character in a 32-bit word. */
module Base64 {
  import opened Division

  const WORD := 0x1_0000_0000

  predicate IsByte(b: int) { 0 <= b < 256 }

  /** The alphabet: upper case, lower case, digits, plus and slash. */
  function Symbol(d: int): (c: char)
    requires 0 <= d < 64
  {
    if d < 26 then 'A' + d as char
    else if d < 52 then 'a' + (d - 26) as char
    else if d < 62 then '0' + (d - 52) as char
    else if d == 62 then '+'
    else '/'
  }

  const UPPER := "ABCDEFGHIJKLMNOPQRSTUVWXYZ"
  const LOWER := "abcdefghijklmnopqrstuvwxyz"
  const DIGITS := "0123456789"

  /** The alphabet as section 4 of RFC 4648 lists it. */
  const ALPHABET := UPPER + LOWER + DIGITS + "+/"

  lemma LetterAt(k: nat)
    ensures |UPPER| == |LOWER| == 26 && |DIGITS| == 10
    ensures k < 26 ==> UPPER[k] == 'A' + k as char && LOWER[k] == 'a' + k as char
    ensures k < 10 ==> DIGITS[k] == '0' + k as char
  {
  }

  lemma SymbolAt(d: nat)
    requires d < 64
    ensures |ALPHABET| == 64 && Symbol(d) == ALPHABET[d]
  {
    hide UPPER, LOWER, DIGITS;
    LetterAt(d);
    LetterAt(if d < 26 then 0 else d - 26);
    LetterAt(if d < 52 then 0 else d - 52);
  }

  /** The position of a character in the table, whose end counts as 64, or -1. */
  function DigitOf(c: char): int {
    if 'A' <= c <= 'Z' then (c - 'A') as int
    else if 'a' <= c <= 'z' then (c - 'a') as int + 26
    else if '0' <= c <= '9' then (c - '0') as int + 52
    else if c == '+' then 62
    else if c == '/' then 63
    else if c == '\0' then 64
    else -1
  }

  lemma SymbolsDecode(d: int)
    requires 0 <= d < 64
    ensures DigitOf(Symbol(d)) == d && Symbol(d) != '='
  {
  }

  /** The four characters of three bytes; missing bytes count as zero. */
  function Quad(a: int, b: int, c: int): (s: string)
    requires IsByte(a) && IsByte(b) && IsByte(c)
    ensures |s| == 4
  {
    var (p, q, r, t) := Sextets(a * 0x1_0000 + b * 0x100 + c);
    [Symbol(p), Symbol(q), Symbol(r), Symbol(t)]
  }

  /** The last twenty-four bits of a number, six at a time. */
  function Sextets(n: nat): (r: (int, int, int, int))
    ensures 0 <= r.0 < 64 && 0 <= r.1 < 64 && 0 <= r.2 < 64 && 0 <= r.3 < 64
  {
    (n / 0x4_0000 % 64, n / 0x1000 % 64, n / 64 % 64, n % 64)
  }

  ghost predicate Bytes(s: seq<int>) { forall i :: 0 <= i < |s| ==> IsByte(s[i]) }

  ghost function Encode(s: seq<int>): string
    requires Bytes(s)
  {
    if |s| == 0 then ""
    else if |s| == 1 then Quad(s[0], 0, 0)[..2] + "=="
    else if |s| == 2 then Quad(s[0], s[1], 0)[..3] + "="
    else Quad(s[0], s[1], s[2]) + Encode(s[3..])
  }

  /** The decoder's word, its number of bits not yet written, and the bytes written. */
  datatype State = State(w: int, bits: int, out: seq<int>)

  /** `w << 6 | d`: the bit of 64 meets the lowest one of `w`. */
  function Joined(w: int, d: int): int {
    w * 64 + if d < 64 then d else if w % 2 == 1 then 0 else 64
  }

  function Feed(st: State, d: int): State {
    var w := Joined(st.w, d) % WORD;
    if st.bits + 6 >= 8
    then State(w, st.bits - 2, st.out + [w / Power(st.bits - 2) % 256])
    else State(w, st.bits + 6, st.out)
  }

  /** Powers of two, for the shifts the decoder makes. */
  function Power(n: int): (p: int)
    ensures p > 0
  {
    if n <= 0 then 1 else if n == 2 then 4 else if n == 4 then 16 else 2 * Power(n - 1)
  }

  function DecodeFrom(st: State, s: string): State
    decreases |s|
  {
    if |s| == 0 || s[0] == '=' then st
    else if DigitOf(s[0]) < 0 then DecodeFrom(st, s[1..])
    else DecodeFrom(Feed(st, DigitOf(s[0])), s[1..])
  }

  function Decode(s: string): seq<int> { DecodeFrom(State(0, 0, []), s).out }

  /** The four digits of three bytes. */
  function Digits(a: int, b: int, c: int): (r: (int, int, int, int))
    requires IsByte(a) && IsByte(b) && IsByte(c)
    ensures 0 <= r.0 < 64 && 0 <= r.1 < 64 && 0 <= r.2 < 64 && 0 <= r.3 < 64
  {
    (a / 4, a % 4 * 16 + b / 16, b % 16 * 4 + c / 64, c % 64)
  }

  lemma QuadDigits(a: int, b: int, c: int)
    requires IsByte(a) && IsByte(b) && IsByte(c)
    ensures var (p, q, r, t) := Digits(a, b, c); Quad(a, b, c) == [Symbol(p), Symbol(q), Symbol(r), Symbol(t)]
  {
    hide Symbol, Sextets, Digits;
    SextetsOfBytes(a, b, c, a * 0x1_0000 + b * 0x100 + c);
  }

  lemma SextetsOfBytes(a: int, b: int, c: int, triple: nat)
    requires IsByte(a) && IsByte(b) && IsByte(c) && triple == a * 0x1_0000 + b * 0x100 + c
    ensures Sextets(triple) == Digits(a, b, c)
  {
    FirstTwo(a, b, c, triple);
    LastTwo(a, b, c, triple);
    var s, d := Sextets(triple), Digits(a, b, c);
    assert s.0 == d.0;
    assert s.1 == d.1;
    assert s.2 == d.2;
    assert s.3 == d.3;
  }

  lemma FirstTwo(a: int, b: int, c: int, triple: int)
    requires IsByte(a) && IsByte(b) && IsByte(c) && triple == a * 0x1_0000 + b * 0x100 + c
    ensures triple / 0x4_0000 % 64 == a / 4 && triple / 0x1000 % 64 == a % 4 * 16 + b / 16
  {
    var ah, al, bh, bl := a / 4, a % 4, b / 16, b % 16;
    Quotient(triple, 0x4_0000, ah, al * 0x1_0000 + b * 0x100 + c);
    Quotient(ah, 64, 0, ah);
    Quotient(triple, 0x1000, ah * 64 + (al * 16 + bh), bl * 0x100 + c);
    Quotient(ah * 64 + (al * 16 + bh), 64, ah, al * 16 + bh);
  }

  lemma LastTwo(a: int, b: int, c: int, triple: int)
    requires IsByte(a) && IsByte(b) && IsByte(c) && triple == a * 0x1_0000 + b * 0x100 + c
    ensures triple / 64 % 64 == b % 16 * 4 + c / 64 && triple % 64 == c % 64
  {
    var bh, bl, ch, cl := b / 16, b % 16, c / 64, c % 64;
    var high, low := a * 16 + bh, bl * 4 + ch;
    Quotient(triple, 64, high * 64 + low, cl);
    Quotient(high * 64 + low, 64, high, low);
  }

  /** Dropping the bits beyond 32 does not touch the last twelve. */
  lemma Shift(w: int, d: int)
    requires 0 <= w < WORD && 0 <= d < 64
    ensures (w * 64 + d) % WORD % 4096 == w % 64 * 64 + d
  {
    var k, r := w / 64, w % 64;
    Low(w * 64 + d);
    Quotient(w * 64 + d, 4096, k, r * 64 + d);
  }

  lemma Low(x: int)
    requires x >= 0
    ensures x % WORD % 4096 == x % 4096
  {
    var k, y := x / WORD, x % WORD;
    var m, z := y / 4096, y % 4096;
    Quotient(x, 4096, k * 0x10_0000 + m, z);
  }

  // What the decoder writes depends on the last twelve bits of its word only.

  lemma Written4(w: int)
    requires w >= 0
    ensures w / 16 % 256 == w % 4096 / 16
  {
    var k, r := w / 4096, w % 4096;
    var h, l := r / 16, r % 16;
    Quotient(w, 16, k * 256 + h, l);
    Quotient(k * 256 + h, 256, k, h);
  }

  lemma Written2(w: int, q: int, d: int)
    requires w >= 0 && w % 4096 == q * 64 + d && 0 <= q < 64 && 0 <= d < 64
    ensures w / 4 % 256 == q % 16 * 16 + d / 4
  {
    var k, qh, ql, dh, dl := w / 4096, q / 16, q % 16, d / 4, d % 4;
    var high, low := k * 4 + qh, ql * 16 + dh;
    Quotient(w, 4, high * 256 + low, dl);
    Quotient(high * 256 + low, 256, high, low);
  }

  lemma Written0(w: int, q: int, d: int)
    requires w >= 0 && w % 4096 == q * 64 + d && 0 <= q < 64 && 0 <= d < 64
    ensures w % 256 == q % 4 * 64 + d
  {
    var k, qh, ql := w / 4096, q / 4, q % 4;
    Quotient(w, 256, k * 16 + qh, ql * 64 + d);
  }

  /** Two digits give the first byte, three the second, four the third. */
  lemma FeedQuad(w: int, out: seq<int>, a: int, b: int, c: int)
    requires 0 <= w < WORD && IsByte(a) && IsByte(b) && IsByte(c)
    ensures var (p, q, r, t) := Digits(a, b, c);
            var s2 := Feed(Feed(State(w, 0, out), p), q);
            var s3 := Feed(s2, r);
            var s4 := Feed(s3, t);
            && s2.out == out + [a] && s3.out == out + [a] + [b]
            && s4.out == out + [a] + [b] + [c] && s4.bits == 0 && 0 <= s4.w < WORD
  {
    hide Digits, Feed;
    var (p, q, r, t) := Digits(a, b, c);
    var s2 := FeedTwo(w, out, p, q);
    var s3 := FeedOne(s2, 4, r);
    var s4 := FeedOne(s3, 2, t);
    Joins(a, b, c);
    assert s2.out == out + [a];
    assert s3.out == s2.out + [b];
    assert s4.out == s3.out + [c];
  }

  lemma Joins(a: int, b: int, c: int)
    requires IsByte(a) && IsByte(b) && IsByte(c)
    ensures var (p, q, r, t) := Digits(a, b, c);
            p * 4 + q / 16 == a && q % 16 * 16 + r / 4 == b && r % 4 * 64 + t == c
  {
    Quotient(a % 4 * 16 + b / 16, 16, a % 4, b / 16);
    Quotient(b % 16 * 4 + c / 64, 4, b % 16, c / 64);
  }

  lemma FeedTwo(w: int, out: seq<int>, p: int, q: int) returns (s: State)
    requires 0 <= w < WORD && 0 <= p < 64 && 0 <= q < 64
    ensures s == Feed(Feed(State(w, 0, out), p), q) && s.bits == 4 && 0 <= s.w < WORD && s.w % 64 == q
    ensures s.out == out + [p * 4 + q / 16]
  {
    var s1 := Feed(State(w, 0, out), p);
    Shift(w, p);
    SixOf(s1.w, w % 64, p);
    s := Feed(s1, q);
    Shift(s1.w, q);
    SixOf(s.w, p, q);
    Written4(s.w);
    Quotient(p * 64 + q, 16, p * 4 + q / 16, q % 16);
  }

  /** One more digit, with four or two bits left over. */
  lemma FeedOne(s: State, bits: int, d: int) returns (s': State)
    requires s.bits == bits && (bits == 4 || bits == 2) && 0 <= s.w < WORD && 0 <= d < 64
    ensures s' == Feed(s, d) && s'.bits == bits - 2 && 0 <= s'.w < WORD && s'.w % 64 == d
    ensures var q := s.w % 64;
            s'.out == s.out + [if bits == 4 then q % 16 * 16 + d / 4 else q % 4 * 64 + d]
  {
    var q := s.w % 64;
    s' := Feed(s, d);
    Shift(s.w, d);
    SixOf(s'.w, q, d);
    Written2(s'.w, q, d);
    Written0(s'.w, q, d);
    hide Power;
    PowerSmall();
  }

  lemma PowerSmall()
    ensures Power(0) == 1 && Power(2) == 4 && Power(4) == 16
  {
  }

  lemma SixOf(w: int, q: int, d: int)
    requires w >= 0 && w % 4096 == q * 64 + d && 0 <= d < 64
    ensures w % 64 == d
  {
    Quotient(w, 64, w / 4096 * 64 + q, d);
  }

  lemma DecodeSymbol(st: State, d: int, s: string)
    requires 0 <= d < 64
    ensures DecodeFrom(st, [Symbol(d)] + s) == DecodeFrom(Feed(st, d), s)
  {
    SymbolsDecode(d);
    assert ([Symbol(d)] + s)[1..] == s;
  }

  lemma DecodePad(st: State, s: string)
    ensures DecodeFrom(st, "=" + s) == st
  {
  }

  lemma DecodeTwo(st: State, p: int, q: int, s: string)
    requires 0 <= p < 64 && 0 <= q < 64
    ensures DecodeFrom(st, [Symbol(p), Symbol(q)] + s) == DecodeFrom(Feed(Feed(st, p), q), s)
  {
    hide Feed, Symbol, DecodeFrom;
    assert [Symbol(p), Symbol(q)] + s == [Symbol(p)] + ([Symbol(q)] + s);
    DecodeSymbol(st, p, [Symbol(q)] + s);
    DecodeSymbol(Feed(st, p), q, s);
  }

  lemma DecodeThree(st: State, p: int, q: int, r: int, s: string)
    requires 0 <= p < 64 && 0 <= q < 64 && 0 <= r < 64
    ensures DecodeFrom(st, [Symbol(p), Symbol(q), Symbol(r)] + s) == DecodeFrom(Feed(Feed(Feed(st, p), q), r), s)
  {
    hide Feed, Symbol, DecodeFrom;
    assert [Symbol(p), Symbol(q), Symbol(r)] + s == [Symbol(p), Symbol(q)] + ([Symbol(r)] + s);
    DecodeTwo(st, p, q, [Symbol(r)] + s);
    DecodeSymbol(Feed(Feed(st, p), q), r, s);
  }

  lemma DecodeFour(st: State, p: int, q: int, r: int, t: int, s: string)
    requires 0 <= p < 64 && 0 <= q < 64 && 0 <= r < 64 && 0 <= t < 64
    ensures DecodeFrom(st, [Symbol(p), Symbol(q), Symbol(r), Symbol(t)] + s)
            == DecodeFrom(Feed(Feed(Feed(Feed(st, p), q), r), t), s)
  {
    hide Feed, Symbol, DecodeFrom;
    assert [Symbol(p), Symbol(q), Symbol(r), Symbol(t)] + s == [Symbol(p), Symbol(q), Symbol(r)] + ([Symbol(t)] + s);
    DecodeThree(st, p, q, r, [Symbol(t)] + s);
    DecodeSymbol(Feed(Feed(Feed(st, p), q), r), t, s);
  }

  /** Decoding undoes encoding, whatever the word held before. */
  lemma {:induction false} DecodeEncode(s: seq<int>, st: State)
    requires Bytes(s) && st.bits == 0 && 0 <= st.w < WORD
    ensures DecodeFrom(st, Encode(s)).out == st.out + s
    decreases |s|
  {
    hide Feed, Symbol, DecodeFrom, Quad;
    if |s| == 0 {
      assert st.out + s == st.out;
      DecodeNothing(st);
    } else {
      var a, b, c := s[0], if |s| > 1 then s[1] else 0, if |s| > 2 then s[2] else 0;
      var (p, q, r, t) := Digits(a, b, c);
      QuadDigits(a, b, c);
      FeedQuad(st.w, st.out, a, b, c);
      assert State(st.w, 0, st.out) == st;
      if |s| == 1 {
        assert Encode(s) == [Symbol(p), Symbol(q)] + "==" && s == [a];
        DecodeTwo(st, p, q, "==");
        DecodePad(Feed(Feed(st, p), q), "=");
        assert "==" == "=" + "=";
      } else if |s| == 2 {
        assert Encode(s) == [Symbol(p), Symbol(q), Symbol(r)] + "=" && s == [a] + [b];
        DecodeThree(st, p, q, r, "=");
        DecodePad(Feed(Feed(Feed(st, p), q), r), "");
        assert "=" == "=" + "";
        assert st.out + [a] + [b] == st.out + s;
      } else {
        DecodeFour(st, p, q, r, t, Encode(s[3..]));
        DecodeEncode(s[3..], Feed(Feed(Feed(Feed(st, p), q), r), t));
        assert st.out + [a] + [b] + [c] + s[3..] == st.out + s;
      }
    }
  }

  lemma DecodeNothing(st: State)
    ensures DecodeFrom(st, "") == st
  {
  }

  /** The round trip, for every sequence of bytes. */
  lemma RoundTrip(s: seq<int>)
    requires Bytes(s)
    ensures Decode(Encode(s)) == s
  {
    DecodeEncode(s, State(0, 0, []));
  }

  // ------------------------------------------------------------ encoder, decoder

  lemma EncodeNothing(s: seq<int>)
    requires Bytes(s)
    ensures s == [] ==> Encode(s) == ""
  {
  }

  lemma FullQuad(src: seq<int>, i: nat, text: string)
    requires Bytes(src) && i + 3 <= |src| && Encode(src) == text + Encode(src[i..])
    ensures Encode(src) == text + Quad(src[i], src[i + 1], src[i + 2]) + Encode(src[i + 3..])
  {
    var rest := src[i..];
    assert rest[3..] == src[i + 3..];
    assert Encode(rest) == Quad(src[i], src[i + 1], src[i + 2]) + Encode(src[i + 3..]);
    hide Quad, Encode;
  }

  lemma LastQuad(src: seq<int>, i: nat, text: string)
    requires Bytes(src) && i < |src| < i + 3 && i % 3 == 0 && Encode(src) == text + Encode(src[i..])
    ensures var quad := Quad(src[i], if i + 1 < |src| then src[i + 1] else 0, 0);
            var full := text + quad;
            if |src| % 3 == 1 then Encode(src) == full[..|full| - 2] + "=="
            else |src| % 3 == 2 && Encode(src) == full[..|full| - 1] + "="
  {
    hide Quad;
    var quad := Quad(src[i], if i + 1 < |src| then src[i + 1] else 0, 0);
    var full, rest := text + quad, src[i..];
    assert full[..|full| - 2] == text + quad[..2] && full[..|full| - 1] == text + quad[..3];
    assert text + (quad[..2] + "==") == text + quad[..2] + "==" && text + (quad[..3] + "=") == text + quad[..3] + "=";
  }

  /** The encoder fills a buffer with quads and then overwrites the end with padding. */
  method EncodeBytes(src: seq<int>) returns (text: string)
    requires Bytes(src)
    ensures text == Encode(src)
  {
    hide Quad, Encode;
    text := "";
    var i := 0;
    assert src[0..] == src;
    while i < |src|
      invariant 0 <= i <= |src| && (i == |src| || i % 3 == 0)
      invariant i % 3 == 0 ==> Encode(src) == text + Encode(src[i..])
      invariant i % 3 == 1 ==> |text| >= 2 && Encode(src) == text[..|text| - 2] + "=="
      invariant i % 3 == 2 ==> |text| >= 1 && Encode(src) == text[..|text| - 1] + "="
    {
      var b := if i + 1 < |src| then src[i + 1] else 0;
      var c := if i + 2 < |src| then src[i + 2] else 0;
      var quad := Quad(src[i], b, c);
      if i + 3 <= |src| {
        FullQuad(src, i, text);
        i := i + 3;
      } else {
        LastQuad(src, i, text);
        i := |src|;
      }
      text := text + quad;
    }
    EncodeNothing(src[i..]);
    if |src| % 3 == 1 {
      text := text[..|text| - 2] + "==";
    } else if |src| % 3 == 2 {
      text := text[..|text| - 1] + "=";
    }
  }

  method DecodeText(s: string) returns (out: seq<int>)
    ensures out == Decode(s)
  {
    hide Feed;
    var st := State(0, 0, []);
    var i := 0;
    while i < |s| && s[i] != '='
      invariant 0 <= i <= |s| && DecodeFrom(State(0, 0, []), s) == DecodeFrom(st, s[i..])
    {
      assert s[i..][1..] == s[i + 1..];
      var d := DigitOf(s[i]);
      if d >= 0 {
        st := Feed(st, d);
      }
      i := i + 1;
    }
    out := st.out;
  }
}
