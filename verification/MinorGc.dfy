/** The minor collection: live nursery blocks are copied to the old space, and every
    traced word that referred to one is redirected through a forwarding pointer. */
module MinorCollection {
  import opened Heaps
  import opened OldSpaces
  import opened Marking

  /** The words of a block that the copying traversal updates, in order. */
  function Slots(b: Block): (s: seq<nat>)
    requires WellFormed(b)
    ensures forall i :: 0 <= i < |s| ==> s[i] < |b.words|
  {
    match b.kind
    case Object => [1]
    case Array => [1]
    case Set => [1]
    case ObjectData => UpTo(0, |b.words| / 2 * 2)
    case ArrayData => UpTo(0, |b.words|)
    case Function => [3, 4, 5, 6]
    case NativeFunction => [3, 4, 6]
    case Environment => [0] + UpTo(2, 2 + b.count)
    case Promise => [1, 2]
    case IteratorHelper => [0, 1, 3]
    case Error => [1, 2, 4]
    case _ => []
  }

  /** The word of a block that refers to its separate data block, if it has one. */
  function DataSlot(kind: Kind): (k: int)
    ensures k < 0 || k < Fixed(kind)
  {
    match kind
    case Object => 1
    case Array => 1
    case Set => 1
    case Function => 6
    case NativeFunction => 6
    case Error => 4
    case _ => -1
  }

  lemma DataSlotExact(kind: Kind, k: nat)
    ensures DataSlot(kind) == k <==> k < |Fields(kind)| && Fields(kind)[k] == Data
  {
  }

  predicate IsData(kind: Kind) { kind.ArrayData? || kind.ObjectData? }

  /** Where the nursery and the old space lie. */
  datatype Layout = Layout(lo: int, hi: int, start: int, end: int) {
    predicate Young(w: Word) { w.Ptr? && lo <= w.at < hi }
    predicate Old(w: Word) { w.Ptr? && start <= w.at < end }
    predicate Valid() { lo <= hi <= start <= end }
  }

  /** A word after redirection. */
  function Fix(fwd: map<int, int>, w: Word): Word {
    if w.Ptr? && w.at in fwd then Ptr(fwd[w.at]) else w
  }

  ghost predicate Traced(b: Block, k: int) {
    WellFormed(b) && exists i :: 0 <= i < |Slots(b)| && Slots(b)[i] == k
  }

  /** Words that the program can read and the copying traversal passes over: the data of
      half-float arrays, the texts of symbols and regular expressions, the name of an
      error, the slab of a buffer. */
  predicate Overlooked(kind: Kind, k: int) {
    match kind
    case Float16Array => k == 1
    case Symbol => k == 0
    case RegExp => k == 0 || k == 1
    case Error => k == 0
    case Buffer => k == 3
    case _ => false
  }

  predicate Refreshed(b: Block, k: int) { Readable(b, k) && !Overlooked(b.kind, k) }

  /** The traversal updates exactly the words that the program can read, but for those. */
  lemma SlotsExact(b: Block, k: int)
    requires WellFormed(b)
    ensures Traced(b, k) <==> Refreshed(b, k)
  {
    var s := Slots(b);
    if Refreshed(b, k) {
      var i := match b.kind
        case ArrayData => k
        case ObjectData => k
        case Function => k - 3
        case NativeFunction => if k == 6 then 2 else k - 3
        case Environment => if k == 0 then 0 else k - 1
        case Promise => k - 1
        case IteratorHelper => if k == 3 then 2 else k
        case Error => if k == 4 then 2 else k - 1
        case _ => 0;
      assert s[i] == k;
    }
  }

  /** `c` is the block `o` with some of its traced words redirected and unused words at the end. */
  ghost predicate Version(fwd: map<int, int>, o: Block, c: Block) {
    && c.kind == o.kind && c.count == o.count && |o.words| <= |c.words|
    && (forall k {:trigger c.words[k]} :: 0 <= k < |o.words| ==>
          c.words[k] == o.words[k] || (Traced(c, k) && c.words[k] == Fix(fwd, o.words[k])))
    && (forall k {:trigger c.words[k]} :: |o.words| <= k < |c.words| ==> c.words[k] == Raw(0))
  }

  /** No traced word of `b` points into the nursery. */
  ghost predicate Clean(l: Layout, b: Block)
    requires WellFormed(b)
  {
    forall i :: 0 <= i < |Slots(b)| ==> !l.Young(b.words[Slots(b)[i]])
  }

  /** The heap before the collection: nursery blocks and old blocks. The traversal begins
      in `wanted`, which is closed under references. */
  datatype Before = Before(l: Layout, young: Heap, tenured: Heap, wanted: set<int>) {
    ghost function All(): Heap { young + tenured }

    ghost predicate Valid() {
      Sound() && forall x :: x in All() && x in wanted ==> Wants(All()[x])
    }

    /** Wanted blocks are well formed and refer to blocks; data blocks have their types. */
    ghost predicate Sound() {
      && l.Valid()
      && (forall p :: p in young ==> l.lo <= p < l.hi)
      && (forall q :: q in tenured ==> l.start <= q < l.end)
      && (forall p :: p in young && p in wanted && young[p].kind.ObjectData? ==> |young[p].words| % 2 == 0)
      && (forall x :: x in All() && x in wanted ==> WellFormed(All()[x]) && Refers(All()[x]))
    }

    /** A word that points into the heap points to a block. */
    ghost predicate Known(w: Word) {
      (l.Young(w) ==> w.at in young) && (l.Old(w) ==> w.at in tenured)
    }

    /** The same, and the block is wanted. */
    ghost predicate Live(w: Word) {
      Known(w) && (w.Ptr? && w.at in All() ==> w.at in wanted)
    }

    ghost predicate Wants(b: Block)
      requires WellFormed(b)
    {
      forall i :: 0 <= i < |Slots(b)| && b.words[Slots(b)[i]].Ptr? && b.words[Slots(b)[i]].at in All() ==>
        b.words[Slots(b)[i]].at in wanted
    }

    ghost predicate Refers(b: Block)
      requires WellFormed(b)
    {
      && (forall i :: 0 <= i < |Slots(b)| ==> Known(b.words[Slots(b)[i]]))
      && (DataSlot(b.kind) >= 0 ==>
            var w := b.words[DataSlot(b.kind)];
            && Known(w) && (l.Young(w) ==> IsData(young[w.at].kind)) && (l.Old(w) ==> IsData(tenured[w.at].kind)))
    }
  }

  /** The heap during the collection; `fwd` maps copied blocks to their copies, `done`
      holds the old blocks that have been traced. */
  datatype During = During(young: Heap, tenured: Heap, fwd: map<int, int>, done: set<int>)

  ghost predicate Forwards(b: Before, s: During) {
    && s.young.Keys == b.young.Keys && s.fwd.Keys <= b.young.Keys && s.fwd.Keys <= b.wanted
    && (forall p :: p in s.fwd ==> |s.young[p].words| > 0 && s.young[p].words[0] == Ptr(s.fwd[p]))
    && (forall p :: p in b.young && p !in s.fwd ==> s.young[p] == b.young[p])
    && (forall p :: p in s.fwd ==> s.fwd[p] in s.tenured && s.fwd[p] !in b.tenured)
    && (forall p, q :: p in s.fwd && q in s.fwd && s.fwd[p] == s.fwd[q] ==> p == q)
  }

  ghost predicate Copied(fwd: map<int, int>, q: int) {
    exists p :: p in fwd && fwd[p] == q
  }

  ghost predicate Copies(b: Before, s: During)
    requires s.fwd.Keys <= b.young.Keys && (forall p :: p in s.fwd ==> s.fwd[p] in s.tenured)
  {
    && b.tenured.Keys <= s.tenured.Keys
    && (forall q :: q in s.tenured ==> q in b.tenured || Copied(s.fwd, q))
    && (forall q :: q in s.tenured ==> b.l.start <= q < b.l.end)
    && (forall q :: q in b.tenured ==>
          Version(s.fwd, b.tenured[q], s.tenured[q]) && |s.tenured[q].words| == |b.tenured[q].words|)
    && (forall p :: p in s.fwd ==> Version(s.fwd, b.young[p], s.tenured[s.fwd[p]]))
  }

  ghost predicate Inv(b: Before, s: During) {
    && b.Valid() && Forwards(b, s) && Copies(b, s)
    && (forall q :: q in s.done ==> q in s.tenured && WellFormed(s.tenured[q]) && Clean(b.l, s.tenured[q]))
  }

  /** Blocks stay forwarded, traced and clean. */
  ghost predicate Grown(l: Layout, s: During, t: During) {
    && (forall p :: p in s.fwd ==> p in t.fwd && t.fwd[p] == s.fwd[p])
    && s.done <= t.done
    && (forall q :: q in s.tenured ==> q in t.tenured && Cleaner(l, s.tenured[q], t.tenured[q]))
  }

  /** What every part of the traversal does: what it copies is traced when it ends. */
  ghost predicate Later(l: Layout, s: During, t: During) {
    Grown(l, s, t) && forall p :: p in t.fwd && p !in s.fwd ==> t.fwd[p] in t.done
  }

  ghost predicate Cleaner(l: Layout, c: Block, d: Block) {
    && d.kind == c.kind && d.count == c.count && |d.words| == |c.words|
    && forall k {:trigger d.words[k]} :: 0 <= k < |c.words| ==>
         d.words[k] == c.words[k] || (l.Young(c.words[k]) && !l.Young(d.words[k]))
  }

  lemma LaterTrans(l: Layout, s: During, t: During, u: During)
    requires Later(l, s, t) && Later(l, t, u)
    ensures Later(l, s, u)
  {
    forall q | q in s.tenured
      ensures q in u.tenured && Cleaner(l, s.tenured[q], u.tenured[q])
    {
      assert q in t.tenured && Cleaner(l, s.tenured[q], t.tenured[q]);
      assert q in u.tenured && Cleaner(l, t.tenured[q], u.tenured[q]);
    }
  }

  /** The block before the collection that an old block now stands for. */
  lemma Origin(b: Before, s: During, q: int) returns (o: Block)
    requires Inv(b, s) && q in s.tenured && (q in b.tenured ==> q in b.wanted)
    ensures WellFormed(o) && b.Refers(o) && Version(s.fwd, o, s.tenured[q]) && WellFormed(s.tenured[q])
    ensures q in b.tenured ==> o == b.tenured[q] && |s.tenured[q].words| == |o.words|
    ensures if q in b.tenured then o == b.tenured[q] else exists p :: p in s.fwd && s.fwd[p] == q && o == b.young[p]
    ensures b.Wants(o)
    ensures o.kind.ObjectData? ==> |s.tenured[q].words| == |o.words| || |o.words| % 2 == 0
  {
    if q in b.tenured {
      o := b.tenured[q];
      assert q in b.All() && b.All()[q] == o;
    } else {
      assert Copied(s.fwd, q);
      var p :| p in s.fwd && s.fwd[p] == q;
      o := b.young[p];
      assert p !in b.tenured;
      assert p in b.All() && b.All()[p] == o;
    }
  }

  /** A traced word of the current heap points into the nursery only at a block. */
  lemma SlotWord(b: Before, s: During, q: int, i: nat)
    requires Inv(b, s) && q in s.tenured && WellFormed(s.tenured[q]) && i < |Slots(s.tenured[q])|
    requires q in b.tenured ==> q in b.wanted
    ensures var w := s.tenured[q].words[Slots(s.tenured[q])[i]];
            b.l.Young(w) ==> w.at in b.young && w.at in b.wanted
  {
    hide Slots, Inv, WellFormed;
    var o := Origin(b, s, q);
    SlotsMatch(b, s, q, o);
    var k := Slots(s.tenured[q])[i];
    if i < |Slots(o)| {
      assert b.Known(o.words[k]);
      FixedOnce(b, s, o.words[k]);
    }
  }

  /** The data block of a traced block is an old block of a data type. */
  lemma DataBlock(b: Before, s: During, q: int)
    requires Inv(b, s) && q in s.tenured && WellFormed(s.tenured[q]) && DataSlot(s.tenured[q].kind) >= 0
    requires q in b.tenured ==> q in b.wanted
    ensures var w := s.tenured[q].words[DataSlot(s.tenured[q].kind)];
            b.l.Old(w) ==>
              && !b.l.Young(w) && w.at in s.tenured && IsData(s.tenured[w.at].kind)
              && (w.at in b.tenured ==> w.at in b.wanted)
  {
    var o := Origin(b, s, q);
    var k := DataSlot(o.kind);
    var w, u := s.tenured[q].words[k], o.words[k];
    if b.l.Old(w) {
      DataIsTraced(o);
      if w == u {
        assert b.Known(u) && w.at in b.All();
      } else {
        assert b.Known(u) && Version(s.fwd, b.young[u.at], s.tenured[w.at]);
      }
    }
  }

  lemma DataIsTraced(o: Block)
    requires WellFormed(o) && DataSlot(o.kind) >= 0
    ensures exists i :: 0 <= i < |Slots(o)| && Slots(o)[i] == DataSlot(o.kind)
  {
    var i := match o.kind case Function => 3 case NativeFunction => 2 case Error => 2 case _ => 0;
    assert Slots(o)[i] == DataSlot(o.kind);
  }

  lemma FixedOnce(b: Before, s: During, w: Word)
    requires Inv(b, s)
    ensures Fix(s.fwd, Fix(s.fwd, w)) == Fix(s.fwd, w)
    ensures Fix(s.fwd, w) != w ==> !b.l.Young(Fix(s.fwd, w))
  {
    if w.Ptr? && w.at in s.fwd {
      assert s.fwd[w.at] in s.tenured;
    }
  }

  /** `t` is `s` with word `k` of block `q` redirected. */
  ghost predicate Redirected(b: Before, s: During, q: int, k: nat, t: During) {
    && q in s.tenured && k < |s.tenured[q].words| && Traced(s.tenured[q], k)
    && var v := Fix(s.fwd, s.tenured[q].words[k]);
       && !b.l.Young(v)
       && t == s.(tenured := s.tenured[q := s.tenured[q].(words := s.tenured[q].words[k := v])])
  }

  lemma RedirectVersion(b: Before, s: During, q: int, k: nat, t: During, o: Block)
    requires Inv(b, s) && Redirected(b, s, q, k, t) && Version(s.fwd, o, s.tenured[q])
    ensures Version(t.fwd, o, t.tenured[q])
  {
    if k < |o.words| { FixedOnce(b, s, o.words[k]); }
    forall j ensures Traced(t.tenured[q], j) <==> Traced(s.tenured[q], j) {
      assert WellFormed(s.tenured[q]) ==> Slots(t.tenured[q]) == Slots(s.tenured[q]);
    }
    hide Traced, Inv;
  }

  lemma RedirectCopies(b: Before, s: During, q: int, k: nat, t: During)
    requires Inv(b, s) && Redirected(b, s, q, k, t)
    ensures Forwards(b, t) && Copies(b, t)
  {
    forall o | Version(s.fwd, o, s.tenured[q])
      ensures Version(t.fwd, o, t.tenured[q])
    {
      RedirectVersion(b, s, q, k, t, o);
    }
    assert t.tenured.Keys == s.tenured.Keys;
    hide Version, Clean, WellFormed, Copied, Before.Valid;
  }

  /** Redirecting one word keeps the invariant. */
  lemma Redirect(b: Before, s: During, q: int, k: nat, t: During)
    requires Inv(b, s) && Redirected(b, s, q, k, t)
    ensures Inv(b, t) && Later(b.l, s, t)
  {
    RedirectCopies(b, s, q, k, t);
    FixWord(b, s, s.tenured[q].words[k]);
    assert Cleaner(b.l, s.tenured[q], t.tenured[q]);
    hide Forwards, Copies, Before.Valid, Clean, WellFormed;
    forall x | x in t.done
      ensures WellFormed(t.tenured[x]) && Clean(b.l, t.tenured[x])
    {
      StaysClean(b.l, s.tenured[x], t.tenured[x]);
    }
  }

  lemma StaysClean(l: Layout, c: Block, d: Block)
    requires WellFormed(c) && Clean(l, c) && Cleaner(l, c, d)
    ensures WellFormed(d) && Clean(l, d)
  {
    assert Slots(c) == Slots(d);
  }

  /** The copy of a nursery block, in a block with `n` words of payload. */
  function Padded(c: Block, n: nat): Block {
    if n <= |c.words| then c else c.(words := c.words + seq(n - |c.words|, i => Raw(0)))
  }

  /** `t` is `s` with block `p` copied to `q`, and a forwarding pointer left behind. */
  ghost predicate Forwarded(b: Before, s: During, p: int, q: int, n: nat, t: During) {
    && p in b.young && p in b.wanted && p in s.young && p !in s.fwd && q !in s.tenured && b.l.start <= q < b.l.end
    && t.young == s.young[p := s.young[p].(words := Front(s.young[p].words, Ptr(q)))]
    && t.tenured == s.tenured[q := Padded(s.young[p], n)] && t.fwd == s.fwd[p := q] && t.done == s.done
  }

  lemma ForwardMap(b: Before, s: During, p: int, q: int, n: nat, t: During)
    requires b.Valid() && Forwards(b, s) && Copies(b, s) && Forwarded(b, s, p, q, n, t)
    ensures Forwards(b, t)
  {
    assert p in b.All() && WellFormed(b.All()[p]) && b.All()[p] == b.young[p];
    hide Version, Before.Refers, Before.Valid, Copied, Padded;
  }

  lemma ForwardCopies(b: Before, s: During, p: int, q: int, n: nat, t: During)
    requires Forwards(b, s) && Copies(b, s) && Forwards(b, t) && Forwarded(b, s, p, q, n, t)
    ensures Copies(b, t)
  {
    forall x | x in t.tenured && x !in b.tenured
      ensures Copied(t.fwd, x)
    {
      if x == q {
        assert t.fwd[p] == q;
      } else {
        var r :| r in s.fwd && s.fwd[r] == x;
        assert t.fwd[r] == x;
      }
    }
    hide Version, Copied, Padded;
    forall o, c | Version(s.fwd, o, c) ensures Version(t.fwd, o, c) { VersionGrows(s.fwd, t.fwd, o, c); }
    VersionPadded(t.fwd, b.young[p], n);
  }

  /** Copying a block keeps the invariant. */
  lemma Forward(b: Before, s: During, p: int, q: int, n: nat, t: During)
    requires Inv(b, s) && Forwarded(b, s, p, q, n, t)
    ensures Inv(b, t) && Grown(b.l, s, t) && q !in b.tenured
  {
    ForwardMap(b, s, p, q, n, t);
    ForwardCopies(b, s, p, q, n, t);
    hide Forwards, Copies, Before.Valid, Clean, WellFormed;
  }

  lemma VersionGrows(f: map<int, int>, g: map<int, int>, o: Block, c: Block)
    requires Version(f, o, c) && forall p :: p in f ==> p in g && g[p] == f[p]
    ensures Version(g, o, c)
  {
    assert forall w :: Fix(f, w) == w || Fix(g, w) == Fix(f, w);
  }

  lemma VersionPadded(f: map<int, int>, o: Block, n: nat)
    ensures Version(f, o, Padded(o, n))
  {
    hide Traced;
  }

  function Front(ws: seq<Word>, w: Word): seq<Word> {
    if |ws| == 0 then ws else ws[0 := w]
  }

  /** A copied block fills the block that was handed out for it. */
  lemma StoredClaim(heap: Heap, h: Headers, bs: seq<int>, k: nat, b: Block)
    requires Tiled(h, bs) && Stored(heap, h, bs) && WellFormed(b)
    requires k < |bs| - 1 && Fitting(h, bs, k, Total(8 * |b.words|))
    ensures var total := Total(8 * |b.words|);
            var h', bs', q := Claim(h, bs[k], total), ClaimWalk(h, bs, k, total), bs[k] + HEADER;
            && Tiled(h', bs') && bs[k] in h' && q !in heap && bs[0] < q < bs[|bs| - 1]
            && var n := h'[bs[k]].size / 8 - 1; n >= |b.words| && Stored(heap[q := Padded(b, n)], h', bs')
  {
    var total := Total(8 * |b.words|);
    hide Claim, ClaimWalk, Tiled, Padded, Remainder, Shifted, Total;
    ClaimAllocated(h, bs, k, total);
    ClaimSize(h, bs, k, b);
    forall x | x in heap
      ensures x - HEADER in Claim(h, bs[k], total) && Claim(h, bs[k], total)[x - HEADER] == h[x - HEADER]
    {
      var i :| 0 <= i < |bs| - 1 && !h[bs[i]].free && bs[i] == x - HEADER;
      ClaimKeeps(h, bs, k, total, i);
    }
    PaddedSize(b, Claim(h, bs[k], total)[bs[k]].size / 8 - 1);
  }

  lemma PaddedSize(b: Block, n: nat)
    requires n >= |b.words|
    ensures |Padded(b, n).words| == n
  {
  }

  /** The block handed out for `b` has whole words, at least as many as `b`. */
  lemma ClaimSize(h: Headers, bs: seq<int>, k: nat, b: Block)
    requires Tiled(h, bs) && k < |bs| - 1 && Fitting(h, bs, k, Total(8 * |b.words|)) && WellFormed(b)
    ensures var h' := Claim(h, bs[k], Total(8 * |b.words|));
            && bs[k] in h' && h'[bs[k]].size == 8 + 8 * (h'[bs[k]].size / 8 - 1)
            && h'[bs[k]].size / 8 - 1 >= |b.words|
    ensures bs[0] < bs[k] + HEADER < bs[|bs| - 1]
  {
    assert Tile(h, bs, k);
    if k > 0 { Increasing(h, bs, 0, k); }
    if k + 1 < |bs| - 1 { Increasing(h, bs, k + 1, |bs| - 1); }
  }

  lemma YoungIntact(b: Before, s: During, p: int)
    requires Inv(b, s) && p in b.young && p in b.wanted && p !in s.fwd
    ensures p in s.young && s.young[p] == b.young[p] && WellFormed(b.young[p])
  {
    assert p in b.All() && p !in b.tenured;
  }

  lemma LaterSame(l: Layout, s: During)
    ensures Later(l, s, s)
  {
  }

  /** What redirection does to a word, by where it points. */
  lemma FixWord(b: Before, s: During, w: Word)
    requires Inv(b, s)
    ensures !b.l.Young(w) ==> Fix(s.fwd, w) == w
    ensures w.Ptr? && w.at in s.fwd ==>
              && w.at in s.young && |s.young[w.at].words| > 0 && s.young[w.at].words[0] == Fix(s.fwd, w)
              && !b.l.Young(Fix(s.fwd, w))
  {
    if w.Ptr? && w.at in s.fwd { assert s.fwd[w.at] in s.tenured; }
  }

  lemma LaterForward(l: Layout, s: During, t: During, u: During, p: int, q: int)
    requires Grown(l, s, t) && t.fwd == s.fwd[p := q] && Later(l, t, u) && q in u.done
    ensures Later(l, s, u) && p in u.fwd && u.fwd[p] == q
  {
    forall x | x in s.tenured
      ensures x in u.tenured && Cleaner(l, s.tenured[x], u.tenured[x])
    {
      assert x in t.tenured && Cleaner(l, s.tenured[x], t.tenured[x]);
      assert x in u.tenured && Cleaner(l, t.tenured[x], u.tenured[x]);
    }
  }

  /** Block `q` is traced, and so is the old block that holds its data. */
  ghost predicate TracedWithData(l: Layout, s: During, q: int) {
    && q in s.done && q in s.tenured && WellFormed(s.tenured[q])
    && (DataSlot(s.tenured[q].kind) >= 0 ==>
          var w := s.tenured[q].words[DataSlot(s.tenured[q].kind)]; l.Old(w) ==> w.at in s.done)
  }

  lemma TraceEnds(l: Layout, t: During, u: During, q: int)
    requires q in t.done && q in t.tenured && WellFormed(t.tenured[q]) && Later(l, t, u)
    requires DataSlot(t.tenured[q].kind) >= 0
    requires var w := t.tenured[q].words[DataSlot(t.tenured[q].kind)]; w.Ptr? && !l.Young(w) && w.at in u.done
    ensures TracedWithData(l, u, q)
  {
    assert Cleaner(l, t.tenured[q], u.tenured[q]);
  }

  lemma FewerLeft(young: Heap, fwd: map<int, int>, p: int, q: int)
    requires p in young && p !in fwd
    ensures |young.Keys - fwd[p := q].Keys| < |young.Keys - fwd.Keys|
  {
    Fewer(young.Keys, fwd.Keys, p);
    assert fwd[p := q].Keys == fwd.Keys + {p};
  }

  /** The first `i` traced words of block `c` are redirected. */
  ghost predicate Scanned(l: Layout, c: Block, slots: seq<nat>, i: nat)
    requires WellFormed(c) && slots == Slots(c) && i <= |slots|
  {
    forall j :: 0 <= j < i ==> !l.Young(c.words[slots[j]])
  }

  lemma WellTraced(b: Before, s: During, q: int)
    requires Inv(b, s) && q in s.tenured && (q in b.tenured ==> q in b.wanted)
    ensures WellFormed(s.tenured[q]) && Scanned(b.l, s.tenured[q], Slots(s.tenured[q]), 0)
  {
    var o := Origin(b, s, q);
  }

  /** A block whose traced words are all redirected is done. */
  lemma Finish(b: Before, s: During, q: int)
    requires Inv(b, s) && q in s.tenured && WellFormed(s.tenured[q])
    requires Scanned(b.l, s.tenured[q], Slots(s.tenured[q]), |Slots(s.tenured[q])|)
    ensures Inv(b, s.(done := s.done + {q})) && Later(b.l, s, s.(done := s.done + {q}))
  {
    var t := s.(done := s.done + {q});
    assert Clean(b.l, s.tenured[q]);
    assert Forwards(b, t) && Copies(b, t);
    hide Forwards, Copies, Before.Valid, Clean, WellFormed;
  }

  lemma StillScanned(l: Layout, s: During, t: During, q: int, slots: seq<nat>, i: nat)
    requires Later(l, s, t) && q in s.tenured && WellFormed(s.tenured[q]) && slots == Slots(s.tenured[q])
    requires i <= |slots| && Scanned(l, s.tenured[q], slots, i)
    ensures q in t.tenured && WellFormed(t.tenured[q]) && Slots(t.tenured[q]) == slots
    ensures t.tenured[q].kind == s.tenured[q].kind && Scanned(l, t.tenured[q], slots, i)
  {
    assert Cleaner(l, s.tenured[q], t.tenured[q]);
  }

  lemma ScanOne(l: Layout, s: During, t: During, q: int, slots: seq<nat>, i: nat)
    requires Later(l, s, t) && q in s.tenured && WellFormed(s.tenured[q]) && slots == Slots(s.tenured[q])
    requires i < |slots| && Scanned(l, s.tenured[q], slots, i)
    requires q in t.tenured && WellFormed(t.tenured[q]) && Slots(t.tenured[q]) == slots
    requires !l.Young(t.tenured[q].words[slots[i]])
    ensures t.tenured[q].kind == s.tenured[q].kind && Scanned(l, t.tenured[q], slots, i + 1)
  {
    StillScanned(l, s, t, q, slots, i);
  }

  /** Tracing elsewhere may redirect a word meanwhile, but not to another place. */
  lemma SameWord(b: Before, s: During, t: During, q: int, k: nat)
    requires Inv(b, s) && Inv(b, t) && Later(b.l, s, t) && q in s.tenured && k < |s.tenured[q].words|
    requires q in b.tenured ==> q in b.wanted
    ensures q in t.tenured && k < |t.tenured[q].words|
    ensures Fix(t.fwd, t.tenured[q].words[k]) == Fix(t.fwd, s.tenured[q].words[k])
  {
    assert Cleaner(b.l, s.tenured[q], t.tenured[q]);
    var o := Origin(b, s, q);
    VersionGrows(s.fwd, t.fwd, o, s.tenured[q]);
    assert Version(t.fwd, o, t.tenured[q]) by { SameOrigin(b, s, t, q, o); }
    if k < |o.words| { FixedOnce(b, t, o.words[k]); }
  }

  lemma SameOrigin(b: Before, s: During, t: During, q: int, o: Block)
    requires Inv(b, s) && Inv(b, t) && Later(b.l, s, t) && q in s.tenured
    requires if q in b.tenured then o == b.tenured[q] else exists p :: p in s.fwd && s.fwd[p] == q && o == b.young[p]
    ensures q in t.tenured && Version(t.fwd, o, t.tenured[q])
  {
    if q !in b.tenured {
      var p :| p in s.fwd && s.fwd[p] == q && o == b.young[p];
      assert p in t.fwd && t.fwd[p] == q;
    }
  }

  lemma StoredSame(heap: Heap, heap': Heap, h: Headers, bs: seq<int>, q: int)
    requires Tiled(h, bs) && Stored(heap, h, bs) && q in heap && heap'.Keys == heap.Keys
    requires forall x :: x in heap ==> |heap'[x].words| == |heap[x].words|
    ensures Stored(heap', h, bs)
  {
  }

  lemma LaterShrinks(b: Before, s: During, t: During)
    requires Later(b.l, s, t)
    ensures |b.young.Keys - t.fwd.Keys| <= |b.young.Keys - s.fwd.Keys|
  {
    assert forall p :: p in s.fwd.Keys ==> p in t.fwd.Keys;
    Shrinks(b.young.Keys, s.fwd.Keys, t.fwd.Keys);
  }

  /** The `i`-th traced word of the block that `w` points to. */
  ghost function Next(h: Heap, w: Word, i: nat): Word {
    if w.Ptr? && w.at in h && WellFormed(h[w.at]) && i < |Slots(h[w.at])|
    then h[w.at].words[Slots(h[w.at])[i]]
    else Raw(0)
  }

  /** The word reached from `w` by taking one traced word after the other. */
  ghost function Follow(h: Heap, w: Word, path: seq<nat>): Word {
    if |path| == 0 then w else Next(h, Follow(h, w, path[..|path| - 1]), path[|path| - 1])
  }

  ghost predicate Reaches(h: Heap, ws: seq<Word>, x: int) {
    exists w, path :: w in ws && Follow(h, w, path) == Ptr(x)
  }

  ghost function Wanted(h: Heap, ws: seq<Word>): set<int> {
    set x | x in h && Reaches(h, ws, x)
  }

  /** Block `q` is remembered, or holds the data of a remembered block. */
  ghost predicate Remembers(b: Before, rem: set<int>, q: int) {
    || q in rem
    || exists r :: r in rem && r in b.tenured && DataOf(b.tenured[r], q)
  }

  ghost predicate DataOf(c: Block, q: int) {
    WellFormed(c) && DataSlot(c.kind) >= 0 && c.words[DataSlot(c.kind)] == Ptr(q)
  }

  /** All references from wanted old blocks into the nursery are remembered. */
  ghost predicate Barred(b: Before, rem: set<int>) {
    forall q :: q in b.tenured && q in b.wanted && WellFormed(b.tenured[q]) ==>
      Clean(b.l, b.tenured[q]) || Remembers(b, rem, q)
  }

  /** The traversal has been through everything it must. */
  ghost predicate Finished(b: Before, s: During, rem: set<int>) {
    && Inv(b, s) && Barred(b, rem)
    && (forall p :: p in s.fwd ==> s.fwd[p] in s.done)
    && (forall r :: r in rem ==> r in b.tenured && r in b.wanted && TracedWithData(b.l, s, r))
  }

  /** No traced word of a wanted or copied block points into the nursery. */
  lemma AllClean(b: Before, s: During, rem: set<int>, q: int)
    requires Finished(b, s, rem) && q in s.tenured && (q in b.tenured ==> q in b.wanted)
    ensures WellFormed(s.tenured[q]) && Clean(b.l, s.tenured[q])
  {
    var o := Origin(b, s, q);
    if q in b.tenured {
      if Clean(b.l, o) {
        SlotsMatch(b, s, q, o);
        forall i | 0 <= i < |Slots(s.tenured[q])|
          ensures !b.l.Young(s.tenured[q].words[Slots(s.tenured[q])[i]])
        {
          FixedOnce(b, s, o.words[Slots(o)[i]]);
        }
      } else if q !in rem {
        var r :| r in rem && r in b.tenured && DataOf(b.tenured[r], q);
        DataKept(b, s, r, q);
      }
    }
  }

  /** A reference to an old data block is not redirected. */
  lemma DataKept(b: Before, s: During, r: int, q: int)
    requires Inv(b, s) && r in b.tenured && r in b.wanted && q in b.tenured && DataOf(b.tenured[r], q)
    requires TracedWithData(b.l, s, r)
    ensures q in s.done
  {
    var o := Origin(b, s, r);
    FixWord(b, s, Ptr(q));
  }

  /** Traced words keep their places; those of unused space come after them. */
  lemma SlotsMatch(b: Before, s: During, q: int, o: Block)
    requires Inv(b, s) && q in s.tenured && WellFormed(o) && Version(s.fwd, o, s.tenured[q])
    requires o.kind.ObjectData? ==> |s.tenured[q].words| == |o.words| || |o.words| % 2 == 0
    ensures WellFormed(s.tenured[q])
    ensures var sl, sl' := Slots(o), Slots(s.tenured[q]);
            && |sl| <= |sl'| && (forall i :: 0 <= i < |sl| ==> sl'[i] == sl[i])
            && (forall i :: |sl| <= i < |sl'| ==> sl'[i] >= |o.words|)
            && (|s.tenured[q].words| == |o.words| ==> sl' == sl)
  {
    hide Inv;
  }

  /** Taking one step commutes with redirection. */
  lemma NextFix(b: Before, s: During, rem: set<int>, v: Word, i: nat)
    requires Finished(b, s, rem) && b.Live(v) && !b.l.Young(Fix(s.fwd, v))
    ensures var w := Next(b.All(), v, i);
            && Next(s.tenured, Fix(s.fwd, v), i) == Fix(s.fwd, w)
            && b.Live(w) && !b.l.Young(Fix(s.fwd, w))
  {
    FixWord(b, s, v);
    if v.Ptr? && v.at in b.All() {
      var q := Fix(s.fwd, v).at;
      assert v.at in b.young ==> v.at in s.fwd;
      StepFix(b, s, rem, v.at, q, i);
    } else {
      assert v.Ptr? ==> v.at !in s.tenured;
    }
  }

  lemma StepFix(b: Before, s: During, rem: set<int>, x: int, q: int, i: nat)
    requires Finished(b, s, rem) && x in b.All() && x in b.wanted
    requires q in s.tenured && if x in b.tenured then q == x else x in s.fwd && s.fwd[x] == q
    ensures var w := Next(b.All(), Ptr(x), i);
            Next(s.tenured, Ptr(q), i) == Fix(s.fwd, w) && b.Live(w) && !b.l.Young(Fix(s.fwd, w))
  {
    var o, c := b.All()[x], s.tenured[q];
    assert WellFormed(o) && b.Refers(o) && b.Wants(o) && Version(s.fwd, o, c);
    assert o.kind.ObjectData? ==> |c.words| == |o.words| || |o.words| % 2 == 0;
    AllClean(b, s, rem, q);
    SlotsMatch(b, s, q, o);
    if i < |Slots(o)| {
      var u := o.words[Slots(o)[i]];
      assert b.Known(u) && !b.l.Young(c.words[Slots(c)[i]]);
      FixWord(b, s, u);
    }
  }

  /** The graph is preserved: whatever path is taken from a word, the redirected word
      leads along the same path to the redirected end, sharing and cycles included. */
  lemma {:induction false} FollowFix(b: Before, s: During, rem: set<int>, w: Word, path: seq<nat>)
    requires Finished(b, s, rem) && b.Live(w) && !b.l.Young(Fix(s.fwd, w))
    ensures var v := Follow(b.All(), w, path);
            && Follow(s.tenured, Fix(s.fwd, w), path) == Fix(s.fwd, v)
            && b.Live(v) && !b.l.Young(Fix(s.fwd, v))
  {
    if |path| > 0 {
      var front := path[..|path| - 1];
      FollowFix(b, s, rem, w, front);
      NextFix(b, s, rem, Follow(b.All(), w, front), path[|path| - 1]);
    }
  }

  lemma ReachesNext(h: Heap, ws: seq<Word>, x: int, i: nat)
    requires x in h && WellFormed(h[x]) && i < |Slots(h[x])| && h[x].words[Slots(h[x])[i]].Ptr? && Reaches(h, ws, x)
    ensures Reaches(h, ws, h[x].words[Slots(h[x])[i]].at)
  {
    var w: Word, path: seq<nat> :| w in ws && Follow(h, w, path) == Ptr(x);
    var longer := path + [i];
    assert longer[..|longer| - 1] == path;
    assert Follow(h, w, longer) == h[x].words[Slots(h[x])[i]];
  }

  /** What can be reached is closed under references. */
  lemma WantedClosed(b: Before, ws: seq<Word>)
    requires b.Sound() && b.wanted == Wanted(b.All(), ws)
    ensures b.Valid()
  {
    hide Slots, Reaches, Before.Refers;
    var h := b.All();
    forall x | x in h && x in b.wanted
      ensures b.Wants(h[x])
    {
      forall i | 0 <= i < |Slots(h[x])| && h[x].words[Slots(h[x])[i]].Ptr? && h[x].words[Slots(h[x])[i]].at in h
        ensures h[x].words[Slots(h[x])[i]].at in b.wanted
      {
        ReachesNext(h, ws, x, i);
      }
    }
  }

  lemma WantedGrows(h: Heap, ws: seq<Word>, more: seq<Word>)
    ensures Wanted(h, ws) <= Wanted(h, ws + more)
  {
  }

  lemma RootWanted(b: Before, ws: seq<Word>, w: Word)
    requires b.wanted == Wanted(b.All(), ws) && w in ws && w.Ptr? && w.at in b.All()
    ensures w.at in b.wanted
  {
    assert Follow(b.All(), w, []) == Ptr(w.at);
  }

  lemma RootLive(b: Before, ws: seq<Word>, w: Word)
    requires b.wanted == Wanted(b.All(), ws) && w in ws && b.Known(w)
    ensures b.Live(w)
  {
    if w.Ptr? && w.at in b.All() { RootWanted(b, ws, w); }
  }

  /** Exactly the nursery blocks that can be reached are copied. */
  lemma CopiesExactly(b: Before, s: During, rem: set<int>, ws: seq<Word>)
    requires Finished(b, s, rem) && b.wanted == Wanted(b.All(), ws)
    requires forall w :: w in ws ==> b.Known(w) && !b.l.Young(Fix(s.fwd, w))
    ensures s.fwd.Keys == set p | p in b.young && Reaches(b.All(), ws, p)
  {
    forall p | p in b.young && Reaches(b.All(), ws, p)
      ensures p in s.fwd
    {
      var w: Word, path: seq<nat> :| w in ws && Follow(b.All(), w, path) == Ptr(p);
      RootLive(b, ws, w);
      FollowFix(b, s, rem, w, path);
      assert b.l.lo <= p < b.l.hi;
    }
  }

  /** A block is left with a pointer into the nursery exactly if one of the words that
      the collection does not trace held one before. */
  lemma DanglingIff(b: Before, s: During, rem: set<int>, q: int, o: Block)
    requires Finished(b, s, rem) && q in s.tenured && (q in b.tenured ==> q in b.wanted)
    requires Version(s.fwd, o, s.tenured[q])
    ensures var c := s.tenured[q];
            (exists k :: 0 <= k < |c.words| && b.l.Young(c.words[k])) <==>
            (exists k :: 0 <= k < |o.words| && b.l.Young(o.words[k]) && !Traced(c, k))
  {
    var c := s.tenured[q];
    AllClean(b, s, rem, q);
    if k :| 0 <= k < |c.words| && b.l.Young(c.words[k]) {
      assert !Traced(c, k);
      assert o.words[k] == c.words[k];
    }
    if k :| 0 <= k < |o.words| && b.l.Young(o.words[k]) && !Traced(c, k) {
      assert c.words[k] == o.words[k];
    }
  }

  lemma StillTenured(b: Before, s: During, q: int)
    requires Inv(b, s) && q in b.tenured
    ensures q in s.tenured
  {
  }

  /** Before anything is copied, the invariant holds. */
  lemma Begin(b: Before, ws: seq<Word>)
    requires b.Sound() && b.wanted == Wanted(b.All(), ws)
    ensures Inv(b, During(b.young, b.tenured, map[], {}))
  {
    WantedClosed(b, ws);
    hide Before.Valid, Traced;
    assert forall q :: q in b.tenured ==> Version(map[], b.tenured[q], b.tenured[q]);
  }

  /** What is sound for more blocks is sound for fewer. */
  lemma SameShape(b: Before, c: Before, rem: set<int>)
    requires b.Sound() && Barred(b, rem) && c == b.(wanted := c.wanted) && c.wanted <= b.wanted
    ensures c.Sound() && Barred(c, rem) && forall w :: c.Known(w) <==> b.Known(w)
  {
    assert c.All() == b.All();
    forall x | x in c.All() && x in c.wanted
      ensures WellFormed(c.All()[x]) && c.Refers(c.All()[x])
    {
      assert b.Refers(b.All()[x]);
    }
    hide Before.Sound, Clean;
    forall q | q in c.tenured && q in c.wanted && WellFormed(c.tenured[q]) && !Clean(c.l, c.tenured[q])
      ensures Remembers(c, rem, q)
    {
      assert Remembers(b, rem, q);
    }
  }

  lemma EarlyWanted(b: Before, roots: seq<Word>, remembered: seq<Word>)
    requires b.wanted == Wanted(b.All(), roots + remembered)
    requires forall w :: w in roots ==> b.Known(w)
    requires forall w :: w in remembered && w.Ptr? ==> w.at in b.tenured
    ensures forall w :: w in roots && b.l.Young(w) ==> w.at in b.young && w.at in b.wanted
    ensures forall w :: w in remembered && w.Ptr? ==> w.at in b.wanted
  {
    hide Wanted;
    forall w | (w in roots || w in remembered) && w.Ptr? && w.at in b.All()
      ensures w.at in b.wanted
    {
      RootWanted(b, roots + remembered, w);
    }
  }

  lemma FinishEarly(b: Before, s: During, t: During, remembered: seq<Word>)
    requires s.fwd == map[] && Later(b.l, s, t) && Inv(b, t) && Barred(b, PointersOf(remembered))
    requires forall w :: w in remembered && w.Ptr? ==> w.at in b.tenured && w.at in b.wanted
    requires forall r :: r in PointersOf(remembered) ==> TracedWithData(b.l, t, r)
    ensures Finished(b, t, PointersOf(remembered))
  {
    hide Inv, Barred, TracedWithData;
  }

  lemma FixAllStable(b: Before, s: During, t: During, ws: seq<Word>)
    requires Inv(b, t) && Later(b.l, s, t) && forall w :: w in FixAll(s.fwd, ws) ==> !b.l.Young(w)
    ensures FixAll(t.fwd, ws) == FixAll(s.fwd, ws)
  {
    hide Inv, Later;
    forall i | 0 <= i < |ws|
      ensures Fix(t.fwd, ws[i]) == Fix(s.fwd, ws[i])
    {
      assert FixAll(s.fwd, ws)[i] in FixAll(s.fwd, ws);
      FixStable(b, s, t, ws[i]);
    }
  }

  /** The nursery blocks that can be reached from `ws`. */
  ghost function LiveYoung(b: Before, ws: seq<Word>): set<int> {
    set p | p in b.young && Reaches(b.All(), ws, p)
  }

  /** What a collection from `ws` that makes the moves `fwd` must achieve. */
  ghost predicate Preserved(b: Before, tenured: Heap, fwd: map<int, int>, ws: seq<Word>) {
    && fwd.Keys == LiveYoung(b, ws)
    && (forall p :: p in fwd ==> fwd[p] in tenured && fwd[p] !in b.tenured)
    && (forall p, q :: p in fwd && q in fwd && fwd[p] == fwd[q] ==> p == q)
    && (forall q :: q in tenured && (q in b.tenured ==> Reaches(b.All(), ws, q)) ==>
          WellFormed(tenured[q]) && Clean(b.l, tenured[q]))
    && (forall w :: w in ws ==> !b.l.Young(Fix(fwd, w)))
    && (forall w, path :: w in ws ==> Follow(tenured, Fix(fwd, w), path) == Fix(fwd, Follow(b.All(), w, path)))
    && (forall q :: q in b.tenured ==> q in tenured && Version(fwd, b.tenured[q], tenured[q]))
    && (forall p :: p in fwd ==> Version(fwd, b.young[p], tenured[fwd[p]]))
  }

  /** A finished traversal has preserved the graph. */
  lemma FinishedPreserves(b: Before, s: During, rem: set<int>, ws: seq<Word>)
    requires Finished(b, s, rem) && b.wanted == Wanted(b.All(), ws)
    requires forall w :: w in ws ==> b.Known(w) && !b.l.Young(Fix(s.fwd, w))
    ensures Preserved(b, s.tenured, s.fwd, ws)
  {
    CopiesExactly(b, s, rem, ws);
    forall q | q in s.tenured && (q in b.tenured ==> Reaches(b.All(), ws, q))
      ensures WellFormed(s.tenured[q]) && Clean(b.l, s.tenured[q])
    {
      AllClean(b, s, rem, q);
    }
    forall w, path | w in ws
      ensures Follow(s.tenured, Fix(s.fwd, w), path) == Fix(s.fwd, Follow(b.All(), w, path))
    {
      RootLive(b, ws, w);
      FollowFix(b, s, rem, w, path);
    }
  }

  // ----------------------------------------------------- what the program can get at

  /** The program can get from block `x` to block `y`. */
  ghost predicate Gets(h: Heap, x: int, y: int) {
    x in h && y in h && exists k :: Refreshed(h[x], k) && h[x].words[k] == Ptr(y)
  }

  ghost predicate Way(h: Heap, p: seq<int>) {
    |p| > 0 && p[0] in h && forall i :: 0 < i < |p| ==> Gets(h, p[i - 1], p[i])
  }

  ghost predicate Seen(h: Heap, ws: seq<Word>, x: int) {
    exists p :: Way(h, p) && Ptr(p[0]) in ws && p[|p| - 1] == x
  }

  lemma {:induction false} SeenWanted(b: Before, ws: seq<Word>, p: seq<int>)
    requires b.Sound() && b.wanted == Wanted(b.All(), ws) && Way(b.All(), p) && Ptr(p[0]) in ws
    ensures p[|p| - 1] in b.wanted && p[|p| - 1] in b.All()
  {
    var h, n := b.All(), |p|;
    if n == 1 {
      RootWanted(b, ws, Ptr(p[0]));
    } else {
      assert Way(h, p[..n - 1]) && p[..n - 1][0] == p[0];
      SeenWanted(b, ws, p[..n - 1]);
      assert Gets(h, p[n - 2], p[n - 1]);
      WantedNext(b, ws, p[n - 2], p[n - 1]);
    }
  }

  lemma WantedNext(b: Before, ws: seq<Word>, x: int, y: int)
    requires b.Sound() && b.wanted == Wanted(b.All(), ws) && x in b.wanted && Gets(b.All(), x, y)
    ensures y in b.wanted
  {
    hide Slots, Fields, Trailing, Follow;
    var h := b.All();
    var k :| Refreshed(h[x], k) && h[x].words[k] == Ptr(y);
    SlotsExact(h[x], k);
    var i :| 0 <= i < |Slots(h[x])| && Slots(h[x])[i] == k;
    ReachesNext(h, ws, x, i);
  }

  lemma SeenStep(h: Heap, ws: seq<Word>, x: int, y: int)
    requires Seen(h, ws, x) && Gets(h, x, y)
    ensures Seen(h, ws, y)
  {
    hide Gets;
    var p :| Way(h, p) && Ptr(p[0]) in ws && p[|p| - 1] == x;
    var q := p + [y];
    forall i | 0 < i < |q|
      ensures Gets(h, q[i - 1], q[i])
    {
      if i < |p| { assert Gets(h, p[i - 1], p[i]); }
    }
    assert Way(h, q) && q[0] == p[0] && q[|q| - 1] == y;
  }

  lemma {:induction false} FollowSeen(h: Heap, ws: seq<Word>, w: Word, path: seq<nat>)
    requires w in ws
    ensures var v := Follow(h, w, path); v.Ptr? && v.at in h ==> Seen(h, ws, v.at)
  {
    var v := Follow(h, w, path);
    if v.Ptr? && v.at in h {
      if |path| == 0 {
        assert Way(h, [v.at]) && Ptr([v.at][0]) in ws;
      } else {
        var u, i := Follow(h, w, path[..|path| - 1]), path[|path| - 1];
        FollowSeen(h, ws, w, path[..|path| - 1]);
        hide Slots, Seen, Fields, Trailing, Follow;
        SlotsExact(h[u.at], Slots(h[u.at])[i]);
        assert Gets(h, u.at, v.at);
        SeenStep(h, ws, u.at, v.at);
      }
    }
  }

  /** What the traversal wants is what the program can get at. */
  lemma SeenIff(b: Before, ws: seq<Word>, x: int)
    requires b.Sound() && b.wanted == Wanted(b.All(), ws)
    ensures x in b.wanted <==> x in b.All() && Seen(b.All(), ws, x)
  {
    if x in b.wanted {
      var w: Word, path: seq<nat> :| w in ws && Follow(b.All(), w, path) == Ptr(x);
      FollowSeen(b.All(), ws, w, path);
    }
    if Seen(b.All(), ws, x) {
      var p :| Way(b.All(), p) && Ptr(p[0]) in ws && p[|p| - 1] == x;
      SeenWanted(b, ws, p);
    }
  }

  /** `c` is `o` with every refreshed word redirected and all others as they were. */
  ghost predicate Copy(l: Layout, fwd: map<int, int>, o: Block, c: Block) {
    && c.kind == o.kind && c.count == o.count && |o.words| <= |c.words|
    && forall k {:trigger c.words[k]} :: 0 <= k < |o.words| ==>
         if Refreshed(o, k) then c.words[k] == Fix(fwd, o.words[k]) && !l.Young(c.words[k])
         else c.words[k] == o.words[k]
  }

  /** After a collection: exactly the nursery blocks that the program can get at have moved,
      and all blocks that it can get at have their contents. */
  ghost predicate Intact(b: Before, tenured: Heap, fwd: map<int, int>, ws: seq<Word>) {
    && (forall p :: p in fwd <==> p in b.young && Seen(b.All(), ws, p))
    && (forall x :: x in b.All() && Seen(b.All(), ws, x) ==>
          var q := if x in fwd then fwd[x] else x;
          q in tenured && Copy(b.l, fwd, b.All()[x], tenured[q]))
  }

  lemma RefreshedCopy(b: Before, s: During, rem: set<int>, x: int, q: int)
    requires Finished(b, s, rem) && x in b.All() && x in b.wanted
    requires q in s.tenured && if x in b.tenured then q == x else x in s.fwd && s.fwd[x] == q
    ensures Copy(b.l, s.fwd, b.All()[x], s.tenured[q])
  {
    var o, c := b.All()[x], s.tenured[q];
    assert WellFormed(o) && b.Refers(o) && Version(s.fwd, o, c);
    assert o.kind.ObjectData? ==> |c.words| == |o.words| || |o.words| % 2 == 0;
    AllClean(b, s, rem, q);
    hide Finished, Version, Slots, Clean, Before.Refers;
    assert Version(s.fwd, o, c);
    CopyOf(b, s, o, c);
  }

  lemma CopyOf(b: Before, s: During, o: Block, c: Block)
    requires Inv(b, s) && WellFormed(o) && WellFormed(c) && Version(s.fwd, o, c) && Clean(b.l, c)
    requires o.kind.ObjectData? ==> |c.words| == |o.words| || |o.words| % 2 == 0
    ensures Copy(b.l, s.fwd, o, c)
  {
    hide Inv, Slots, WellFormed;
    forall k | 0 <= k < |o.words|
      ensures if Refreshed(o, k) then c.words[k] == Fix(s.fwd, o.words[k]) && !b.l.Young(c.words[k])
              else c.words[k] == o.words[k]
    {
      SlotsExact(c, k);
      FixWord(b, s, o.words[k]);
      assert Refreshed(c, k) <==> Refreshed(o, k);
    }
  }

  lemma FinishedIntact(b: Before, s: During, rem: set<int>, ws: seq<Word>)
    requires Finished(b, s, rem) && b.wanted == Wanted(b.All(), ws) && Preserved(b, s.tenured, s.fwd, ws)
    ensures Intact(b, s.tenured, s.fwd, ws)
  {
    hide Finished, Preserved, Wanted, Copy, Seen, Before.Sound, Inv;
    MovedPlaces(b, s, rem, ws);
    forall p ensures p in s.fwd <==> p in b.young && Seen(b.All(), ws, p) { SeenIff(b, ws, p); }
    forall x | x in b.All() && Seen(b.All(), ws, x)
      ensures var q := if x in s.fwd then s.fwd[x] else x;
              q in s.tenured && Copy(b.l, s.fwd, b.All()[x], s.tenured[q])
    {
      SeenIff(b, ws, x);
      RefreshedCopy(b, s, rem, x, if x in s.fwd then s.fwd[x] else x);
    }
  }

  lemma MovedPlaces(b: Before, s: During, rem: set<int>, ws: seq<Word>)
    requires Finished(b, s, rem) && b.wanted == Wanted(b.All(), ws) && Preserved(b, s.tenured, s.fwd, ws)
    ensures b.Sound() && s.fwd.Keys == b.young.Keys * b.wanted
    ensures forall p :: p in s.fwd ==> s.fwd[p] in s.tenured
    ensures forall q :: q in b.tenured ==> q in s.tenured
    ensures forall p :: p in b.young ==> p !in b.tenured
  {
    hide Wanted, Version, Clean, Follow, LiveYoung, Barred, TracedWithData;
    SoundNow(b, s);
    LiveGoal(b, ws);
  }

  lemma FinishedLater(b: Before, s: During, t: During, rem: set<int>)
    requires Finished(b, s, rem) && Inv(b, t) && Later(b.l, s, t)
    ensures Finished(b, t, rem)
  {
    hide Inv, Barred, TracedWithData;
    forall r | r in rem ensures TracedWithData(b.l, t, r) { TracedStays(b, s, t, r); }
  }

  /** More may be wanted than was at first. */
  lemma Widen(b: Before, c: Before, s: During, rem: set<int>, ws: seq<Word>, late: seq<Word>)
    requires Finished(b, s, rem) && c.Sound() && Barred(c, rem)
    requires b == c.(wanted := Wanted(c.All(), ws)) && c.wanted == Wanted(c.All(), ws + late)
    requires forall w :: w in late ==> c.Known(w)
    ensures Finished(c, s, rem) && Inv(c, s)
    ensures forall w :: w in late && c.l.Young(w) ==> w.at in c.young && w.at in c.wanted
  {
    hide Before.Valid, Before.Sound, Barred, Version, TracedWithData, Clean, Wanted;
    WantedClosed(c, ws + late);
    WantedGrows(c.All(), ws, late);
    assert Forwards(c, s) && Copies(c, s);
    forall w | w in late && c.l.Young(w)
      ensures w.at in c.young && w.at in c.wanted
    {
      RootWanted(c, ws + late, w);
    }
  }

  lemma KnownWords(b: Before, roots: seq<Word>, remembered: seq<Word>, late: seq<Word>)
    requires b.Sound()
    requires forall w :: w in roots || w in late ==> b.Known(w)
    requires forall w :: w in remembered && w.Ptr? ==> w.at in b.tenured
    ensures forall w :: w in roots + remembered + late ==> b.Known(w)
  {
    hide Before.Refers;
  }

  /** Neither remembered nor redirected words point into the nursery. */
  lemma NoneYoung(b: Before, s: During, roots: seq<Word>, remembered: seq<Word>)
    requires Inv(b, s)
    requires forall w :: w in remembered && w.Ptr? ==> w.at in b.tenured
    requires forall w :: w in FixAll(s.fwd, roots) ==> !b.l.Young(w)
    ensures forall w :: w in roots + remembered ==> !b.l.Young(Fix(s.fwd, w))
  {
    forall w | w in roots + remembered
      ensures !b.l.Young(Fix(s.fwd, w))
    {
      if w in remembered {
        FixWord(b, s, w);
      } else {
        var i :| 0 <= i < |roots| && roots[i] == w;
        assert FixAll(s.fwd, roots)[i] == Fix(s.fwd, w);
      }
    }
  }

  lemma ReachedEarly(b0: Before, b: Before, s: During, remembered: seq<Word>, roots: seq<Word>, ws: seq<Word>)
    requires ws == roots + remembered && b == b0.(wanted := Wanted(b0.All(), ws))
    requires Finished(b, s, PointersOf(remembered))
    requires forall w :: w in remembered && w.Ptr? ==> w.at in b.tenured
    requires forall w :: w in ws ==> b0.Known(w)
    requires forall w :: w in FixAll(s.fwd, roots) ==> !b.l.Young(w)
    ensures s.fwd.Keys == LiveYoung(b0, ws)
  {
    hide Wanted, Fix, Follow, Inv;
    NoneYoung(b, s, roots, remembered);
    assert forall w :: w in ws ==> b.Known(w);
    CopiesExactly(b, s, PointersOf(remembered), ws);
    assert b.All() == b0.All();
  }

  lemma PreservedAll(c: Before, s: During, rem: set<int>, roots: seq<Word>, remembered: seq<Word>, late: seq<Word>)
    requires Finished(c, s, rem) && c.wanted == Wanted(c.All(), roots + remembered + late)
    requires forall w :: w in remembered && w.Ptr? ==> w.at in c.tenured
    requires forall w :: w in roots + remembered + late ==> c.Known(w)
    requires forall w :: w in FixAll(s.fwd, roots) || w in FixAll(s.fwd, late) ==> !c.l.Young(w)
    ensures Preserved(c, s.tenured, s.fwd, roots + remembered + late)
  {
    hide Wanted, Fix, Follow, Inv, Version, Preserved;
    var ws := roots + remembered + late;
    NoneYoung(c, s, roots, remembered);
    NoneYoung(c, s, late, []);
    assert late + [] == late;
    FinishedPreserves(c, s, rem, ws);
  }

  /** A block that is kept refers, when all is done, to old blocks only. */
  lemma StillRefers(b: Before, s: During, rem: set<int>, n: Before, q: int)
    requires Finished(b, s, rem) && q in s.tenured && (q in b.tenured ==> q in b.wanted)
    requires n.l == b.l && n.young == map[] && n.tenured == s.tenured
    ensures WellFormed(s.tenured[q]) && Clean(b.l, s.tenured[q]) && n.Refers(s.tenured[q])
  {
    AllClean(b, s, rem, q);
    var c := s.tenured[q];
    var o := Origin(b, s, q);
    SlotsMatch(b, s, q, o);
    forall i | 0 <= i < |Slots(c)|
      ensures n.Known(c.words[Slots(c)[i]])
    {
      if i < |Slots(o)| {
        var u := o.words[Slots(o)[i]];
        FixWord(b, s, u);
        assert b.Known(u);
      }
    }
    if DataSlot(c.kind) >= 0 {
      DataBlock(b, s, q);
      DataIsTraced(c);
    }
  }

  /** What can be reached in the end stands for something that could be reached before. */
  lemma StillWanted(b: Before, s: During, rem: set<int>, ws: seq<Word>, kept: seq<Word>, x: int)
    requires Finished(b, s, rem) && b.wanted == Wanted(b.All(), ws)
    requires forall w :: w in ws ==> b.Known(w) && !b.l.Young(Fix(s.fwd, w))
    requires forall w :: w in kept ==> exists v :: v in ws && w == Fix(s.fwd, v)
    requires x in s.tenured && Reaches(s.tenured, kept, x)
    ensures x in b.tenured ==> x in b.wanted
  {
    var w: Word, path: seq<nat> :| w in kept && Follow(s.tenured, w, path) == Ptr(x);
    var v :| v in ws && w == Fix(s.fwd, v);
    RootLive(b, ws, v);
    FollowFix(b, s, rem, v, path);
    hide Follow, Wanted;
    var u := Follow(b.All(), v, path);
    if u.at in s.fwd { assert s.fwd[u.at] !in b.tenured; }
  }

  lemma KeptWords(b: Before, s: During, roots: seq<Word>, remembered: seq<Word>, late: seq<Word>, n: Before)
    requires Inv(b, s) && n.l == b.l && n.young == map[] && n.tenured == s.tenured
    requires forall w :: w in roots + remembered + late ==> b.Known(w)
    requires forall w :: w in FixAll(s.fwd, roots) || w in FixAll(s.fwd, late) ==> !b.l.Young(w)
    ensures forall w :: w in FixAll(s.fwd, roots) || w in FixAll(s.fwd, late) ==>
              n.Known(w) && exists v :: v in roots + remembered + late && w == Fix(s.fwd, v)
  {
    forall w | w in FixAll(s.fwd, roots) || w in FixAll(s.fwd, late)
      ensures n.Known(w) && exists v :: v in roots + remembered + late && w == Fix(s.fwd, v)
    {
      var v :| v in roots + late && w == Fix(s.fwd, v);
      assert v in roots + remembered + late;
      FixWord(b, s, v);
    }
  }

  /** After a collection all is as the next one needs it. */
  lemma ReadyAgain(b: Before, s: During, rem: set<int>, roots: seq<Word>, remembered: seq<Word>, late: seq<Word>,
                   n: Before)
    requires Finished(b, s, rem) && b.wanted == Wanted(b.All(), roots + remembered + late)
    requires forall w :: w in remembered && w.Ptr? ==> w.at in b.tenured
    requires forall w :: w in roots + remembered + late ==> b.Known(w)
    requires forall w :: w in FixAll(s.fwd, roots) || w in FixAll(s.fwd, late) ==> !b.l.Young(w)
    requires n.l == b.l && n.young == map[] && n.tenured == s.tenured
    requires n.wanted == Wanted(map[] + s.tenured, FixAll(s.fwd, roots) + [] + FixAll(s.fwd, late))
    ensures n.Sound() && Barred(n, {})
    ensures forall w :: w in FixAll(s.fwd, roots) || w in FixAll(s.fwd, late) ==> n.Known(w)
  {
    hide Clean, WellFormed, Version, Fix, Follow, Before.Refers, Before.Valid, TracedWithData, Before.Known;
    var ws, kept := roots + remembered + late, FixAll(s.fwd, roots) + [] + FixAll(s.fwd, late);
    KeptWords(b, s, roots, remembered, late, n);
    NoneYoung(b, s, roots, remembered);
    NoneYoung(b, s, late, []);
    assert map[] + s.tenured == s.tenured;
    forall x | x in s.tenured && x in n.wanted
      ensures WellFormed(s.tenured[x]) && Clean(b.l, s.tenured[x]) && n.Refers(s.tenured[x])
    {
      StillWanted(b, s, rem, ws, kept, x);
      StillRefers(b, s, rem, n, x);
    }
    assert b.Sound() by { SoundNow(b, s); }
  }

  lemma SoundNow(b: Before, s: During)
    requires Inv(b, s)
    ensures b.Sound() && forall q :: q in s.tenured ==> b.l.start <= q < b.l.end
  {
  }

  /** The blocks that will be wanted are well formed. */
  lemma GoalBlocks(b: Before)
    requires b.Sound()
    ensures forall p :: p in b.young && p in b.wanted ==> |b.young[p].words| > 0
  {
    forall p | p in b.young && p in b.wanted
      ensures |b.young[p].words| > 0
    {
      assert p in b.All() && p !in b.tenured && b.All()[p] == b.young[p];
    }
  }

  lemma LiveGoal(b: Before, ws: seq<Word>)
    requires b.wanted == Wanted(b.All(), ws)
    ensures LiveYoung(b, ws) == b.young.Keys * b.wanted
  {
  }

  lemma StuckMore(b: Before, c: Before, h: Headers, bs: seq<int>)
    requires Stuck(b, h, bs) && b == c.(wanted := b.wanted) && b.wanted <= c.wanted
    ensures Stuck(c, h, bs)
  {
    hide Full;
  }

  lemma StuckLive(b: Before, ws: seq<Word>, h: Headers, bs: seq<int>)
    requires Stuck(b, h, bs) && b.wanted == Wanted(b.All(), ws)
    ensures exists p :: p in LiveYoung(b, ws) && p in b.young && Full(h, bs, Total(8 * |b.young[p].words|))
  {
    hide Full;
    LiveGoal(b, ws);
  }

  lemma MovesStay(l: Layout, s: During, t: During)
    requires Later(l, s, t)
    ensures forall p :: p in s.fwd ==> p in t.fwd && t.fwd[p] == s.fwd[p]
  {
  }

  /** What is left of the table of interned strings points out of the nursery. */
  lemma {:induction false} StillThereOld(b: Before, s: During, ws: seq<Word>)
    requires Inv(b, s)
    ensures forall w :: w in StillThere(b.l, s.fwd, ws) ==> !b.l.Young(w)
    decreases |ws|
  {
    hide Inv;
    if |ws| > 0 {
      StillThereOld(b, s, ws[..|ws| - 1]);
      FixWord(b, s, ws[|ws| - 1]);
    }
  }

  lemma FixStable(b: Before, s: During, t: During, w: Word)
    requires Inv(b, t) && Later(b.l, s, t) && !b.l.Young(Fix(s.fwd, w))
    ensures Fix(t.fwd, w) == Fix(s.fwd, w)
  {
    FixWord(b, t, w);
  }

  lemma TracedStays(b: Before, s: During, t: During, q: int)
    requires Inv(b, s) && Later(b.l, s, t) && TracedWithData(b.l, s, q)
    ensures TracedWithData(b.l, t, q)
  {
    assert Cleaner(b.l, s.tenured[q], t.tenured[q]) && Clean(b.l, s.tenured[q]);
    if DataSlot(s.tenured[q].kind) >= 0 { DataIsTraced(s.tenured[q]); }
  }

  ghost function FixAll(fwd: map<int, int>, ws: seq<Word>): (out: seq<Word>)
    ensures |out| == |ws| && forall i :: 0 <= i < |ws| ==> out[i] == Fix(fwd, ws[i])
  {
    seq(|ws|, i requires 0 <= i < |ws| => Fix(fwd, ws[i]))
  }

  /** The entries that are still there: old ones, and copied ones at their new places. */
  ghost function StillThere(l: Layout, fwd: map<int, int>, ws: seq<Word>): seq<Word> {
    if |ws| == 0 then []
    else
      var w := ws[|ws| - 1];
      StillThere(l, fwd, ws[..|ws| - 1]) +
      if !l.Young(w) then [w] else if w.at in fwd then [Fix(fwd, w)] else []
  }

  ghost function PointersOf(ws: seq<Word>): set<int> {
    set i | 0 <= i < |ws| && ws[i].Ptr? :: ws[i].at
  }

  lemma NoPointers()
    ensures PointersOf([]) == {}
  {
  }

  /** `c` is `b` with `v` stored in word `k` of the old block `q`. */
  ghost predicate Stores(b: Before, q: int, k: nat, v: Word, c: Before) {
    && q in b.tenured && Traced(b.tenured[q], k) && k < |b.tenured[q].words|
    && c == b.(tenured := b.tenured[q := b.tenured[q].(words := b.tenured[q].words[k := v])], wanted := c.wanted)
  }

  /** Old block `x` needs no entry, or has one. */
  ghost predicate Covered(b: Before, rem: set<int>, x: int) {
    x in b.tenured && x in b.wanted && WellFormed(b.tenured[x]) ==> Clean(b.l, b.tenured[x]) || Remembers(b, rem, x)
  }

  /** A store into a traced word of an old block keeps all references remembered exactly
      if the block is remembered when it gets a reference into the nursery, the data block
      that it gives up is covered without it, and so is what only the store made live. */
  lemma StoreBarred(b: Before, rem: set<int>, q: int, k: nat, v: Word, c: Before)
    requires Barred(b, rem) && Stores(b, q, k, v, c)
    ensures Barred(c, rem) <==>
            && (q in c.wanted && b.l.Young(v) ==> Remembers(c, rem, q))
            && (k == DataSlot(b.tenured[q].kind) && b.tenured[q].words[k].Ptr? ==>
                  Covered(c, rem, b.tenured[q].words[k].at))
            && (forall x :: x in c.tenured && x !in b.wanted ==> Covered(c, rem, x))
  {
    StoreCleans(b, q, k, v, c);
    hide Clean, Traced;
    forall x | x in b.tenured && Remembers(b, rem, x) && !Remembers(c, rem, x)
      ensures k == DataSlot(b.tenured[q].kind) && b.tenured[q].words[k] == Ptr(x)
    {
      var r :| r in rem && r in b.tenured && DataOf(b.tenured[r], x);
      assert !DataOf(c.tenured[r], x);
    }
  }

  lemma StoreCleans(b: Before, q: int, k: nat, v: Word, c: Before)
    requires Stores(b, q, k, v, c)
    ensures WellFormed(c.tenured[q]) && WellFormed(b.tenured[q]) && Slots(c.tenured[q]) == Slots(b.tenured[q])
    ensures b.l.Young(v) ==> !Clean(c.l, c.tenured[q])
    ensures !b.l.Young(v) && Clean(b.l, b.tenured[q]) ==> Clean(c.l, c.tenured[q])
  {
    assert Slots(c.tenured[q]) == Slots(b.tenured[q]);
    var i :| 0 <= i < |Slots(b.tenured[q])| && Slots(b.tenured[q])[i] == k;
  }

  /** Word `w` does not point to a block outside `live`. */
  ghost predicate Within(h: Heap, live: set<int>, w: Word) {
    w.Ptr? && w.at in h ==> w.at in live
  }

  ghost predicate Encloses(h: Heap, ws: seq<Word>, live: set<int>) {
    && (forall w :: w in ws ==> Within(h, live, w))
    && (forall x, i :: x in h && x in live && WellFormed(h[x]) && 0 <= i < |Slots(h[x])| ==>
          Within(h, live, h[x].words[Slots(h[x])[i]]))
  }

  lemma {:induction false} FollowWithin(h: Heap, ws: seq<Word>, live: set<int>, w: Word, path: seq<nat>)
    requires Encloses(h, ws, live) && w in ws
    ensures Within(h, live, Follow(h, w, path))
  {
    if |path| > 0 {
      FollowWithin(h, ws, live, w, path[..|path| - 1]);
      assert Within(h, live, Follow(h, w, path[..|path| - 1]));
    }
  }

  lemma WantedWithin(h: Heap, ws: seq<Word>, live: set<int>)
    requires Encloses(h, ws, live)
    ensures Wanted(h, ws) <= live
  {
    forall x | x in Wanted(h, ws)
      ensures x in live
    {
      var w: Word, path: seq<nat> :| w in ws && Follow(h, w, path) == Ptr(x);
      FollowWithin(h, ws, live, w, path);
    }
  }

  lemma WantedEncloses(h: Heap, ws: seq<Word>)
    ensures Encloses(h, ws, Wanted(h, ws))
  {
    forall w | w in ws && w.Ptr? && w.at in h
      ensures w.at in Wanted(h, ws)
    {
      assert Follow(h, w, []) == Ptr(w.at);
    }
    forall x, i | x in h && x in Wanted(h, ws) && WellFormed(h[x]) && 0 <= i < |Slots(h[x])|
      ensures Within(h, Wanted(h, ws), h[x].words[Slots(h[x])[i]])
    {
      if h[x].words[Slots(h[x])[i]].Ptr? { ReachesNext(h, ws, x, i); }
    }
  }

  /** Storing a live word makes nothing else live; the last condition then holds. */
  lemma StoreLive(b: Before, rem: set<int>, q: int, k: nat, v: Word, c: Before, ws: seq<Word>)
    requires Barred(b, rem) && Stores(b, q, k, v, c)
    requires b.wanted == Wanted(b.All(), ws) && c.wanted == Wanted(c.All(), ws) && Within(b.All(), b.wanted, v)
    ensures c.wanted <= b.wanted
    ensures Barred(c, rem) <==>
            && (q in c.wanted && b.l.Young(v) ==> Remembers(c, rem, q))
            && (k == DataSlot(b.tenured[q].kind) && b.tenured[q].words[k].Ptr? ==>
                  Covered(c, rem, b.tenured[q].words[k].at))
  {
    hide Barred, Wanted, Remembers, Clean, DataSlot;
    StoreBarred(b, rem, q, k, v, c);
    StoreEncloses(b, q, k, v, c, ws, b.wanted) by { WantedEncloses(b.All(), ws); }
    WantedWithin(c.All(), ws, b.wanted);
  }

  lemma StoreEncloses(b: Before, q: int, k: nat, v: Word, c: Before, ws: seq<Word>, live: set<int>)
    requires Stores(b, q, k, v, c) && Encloses(b.All(), ws, live) && Within(b.All(), live, v)
    ensures Encloses(c.All(), ws, live)
  {
    StoreCleans(b, q, k, v, c);
    var g, h := b.All(), c.All();
    assert g.Keys == h.Keys;
    assert forall w :: Within(h, live, w) <==> Within(g, live, w);
    forall x, i | x in h && x in live && WellFormed(h[x]) && 0 <= i < |Slots(h[x])|
      ensures Within(h, live, h[x].words[Slots(h[x])[i]])
    {
      if x == q {
        assert Within(g, live, g[x].words[Slots(g[x])[i]]);
      }
    }
  }

  /** No root and no live block but `q`, in word `k`, refers to block `x`. */
  ghost predicate SoleOwner(h: Heap, ws: seq<Word>, live: set<int>, q: int, k: nat, x: int) {
    && Ptr(x) !in ws
    && forall y, i ::
         y in h && y in live && WellFormed(h[y]) && 0 <= i < |Slots(h[y])| && h[y].words[Slots(h[y])[i]] == Ptr(x) ==>
           y == q && Slots(h[y])[i] == k
  }

  /** The word of `b` that refers to its data block. */
  ghost function DataWord(b: Block): Word {
    if 0 <= DataSlot(b.kind) < |b.words| then b.words[DataSlot(b.kind)] else Raw(0)
  }

  /** The old block `q` outgrows its data block and gets the new one `d`, which nothing
      refers to yet and which holds live words only. */
  ghost predicate Grows(b: Before, ws: seq<Word>, q: int, d: int, c: Before) {
    var h := b.All();
    && b.Sound() && b.wanted == Wanted(h, ws) && c.wanted == Wanted(c.All(), ws)
    && Ptr(q) in ws && q in b.tenured && DataSlot(b.tenured[q].kind) >= 0
    && Stores(b, q, DataSlot(b.tenured[q].kind), Ptr(d), c)
    && d in h && d !in b.wanted && WellFormed(h[d])
    && (forall i :: 0 <= i < |Slots(h[d])| ==> Kept(b, q, h[d].words[Slots(h[d])[i]]))
    && (forall x :: DataWord(b.tenured[q]) == Ptr(x) && x in h ==>
          SoleOwner(h, ws, b.wanted, q, DataSlot(b.tenured[q].kind), x))
  }

  /** `w` does not point to a dead block, nor to the data block that `q` gives up. */
  ghost predicate Kept(b: Before, q: int, w: Word)
    requires q in b.tenured
  {
    Within(b.All(), b.wanted, w) && (w.Ptr? && w.at in b.All() ==> w != DataWord(b.tenured[q]))
  }

  /** What can be live when the data block has been replaced. */
  ghost function GrownLive(b: Before, q: int, d: int): set<int>
    requires q in b.tenured
  {
    set x | x in b.wanted + {d} && DataWord(b.tenured[q]) != Ptr(x)
  }

  lemma GrowthLive(b: Before, ws: seq<Word>, q: int, d: int, c: Before)
    requires Grows(b, ws, q, d, c)
    ensures c.wanted <= GrownLive(b, q, d)
  {
    hide Wanted, Before.Sound, Traced, Slots, WellFormed, DataSlot, DataWord;
    var g, live := c.All(), GrownLive(b, q, d);
    assert g.Keys == b.All().Keys;
    WantedEncloses(b.All(), ws);
    GrowthData(b, ws, q, d, c);
    forall w | w in ws
      ensures Within(g, live, w)
    {
      assert Within(b.All(), b.wanted, w);
    }
    forall y, i | y in g && y in live && WellFormed(g[y]) && 0 <= i < |Slots(g[y])|
      ensures Within(g, live, g[y].words[Slots(g[y])[i]])
    {
      GrowthWord(b, ws, q, d, c, y, i);
    }
    WantedWithin(g, ws, live);
  }

  lemma GrowthData(b: Before, ws: seq<Word>, q: int, d: int, c: Before)
    requires Grows(b, ws, q, d, c)
    ensures q in b.wanted && d != q && d in GrownLive(b, q, d)
  {
    RootWanted(b, ws, Ptr(q));
    WantedEncloses(b.All(), ws);
    hide Wanted;
    DataIsTraced(b.tenured[q]);
    var i :| 0 <= i < |Slots(b.tenured[q])| && Slots(b.tenured[q])[i] == DataSlot(b.tenured[q].kind);
    assert b.All()[q] == b.tenured[q];
    assert Within(b.All(), b.wanted, DataWord(b.tenured[q]));
  }

  lemma GrowthWord(b: Before, ws: seq<Word>, q: int, d: int, c: Before, y: int, i: nat)
    requires Grows(b, ws, q, d, c) && y in c.All() && y in GrownLive(b, q, d) && WellFormed(c.All()[y])
    requires i < |Slots(c.All()[y])|
    ensures Within(c.All(), GrownLive(b, q, d), c.All()[y].words[Slots(c.All()[y])[i]])
  {
    GrowthData(b, ws, q, d, c);
    WantedEncloses(b.All(), ws);
    StoreCleans(b, q, DataSlot(b.tenured[q].kind), Ptr(d), c);
    hide Wanted, Before.Sound, Traced, Slots, WellFormed, DataSlot, DataWord;
    var h := b.All();
    var k := Slots(h[y])[i];
    assert c.All().Keys == h.Keys;
    if y != q || k != DataSlot(b.tenured[q].kind) {
      var w := h[y].words[k];
      assert c.All()[y].words[k] == w;
      if y == d {
        assert Kept(b, q, w);
      } else {
        assert Within(h, b.wanted, w);
      }
    }
  }

  /** Growth keeps all references remembered exactly if the block that grows is remembered
      afterwards, or the new data block is old and holds no reference into the nursery. */
  lemma GrowthBarred(b: Before, rem: set<int>, ws: seq<Word>, q: int, d: int, c: Before, rem': set<int>)
    requires Barred(b, rem) && Grows(b, ws, q, d, c) && rem <= b.wanted && rem <= rem' <= rem + {q}
    ensures Barred(c, rem') <==> q in rem' || (d in b.tenured && Clean(b.l, b.tenured[d]))
  {
    hide Wanted, Traced, Slots, WellFormed, Clean;
    var k := DataSlot(b.tenured[q].kind);
    MoreBarred(b, rem, rem');
    GrowthData(b, ws, q, d, c);
    GrowthLive(b, ws, q, d, c);
    StoreBarred(b, rem', q, k, Ptr(d), c);
    GrowthRemembers(b, rem', ws, q, d, c);
  }

  lemma MoreBarred(b: Before, rem: set<int>, rem': set<int>)
    requires Barred(b, rem) && rem <= rem'
    ensures Barred(b, rem')
  {
    hide Clean;
    assert forall x :: Remembers(b, rem, x) ==> Remembers(b, rem', x);
  }

  /** A block other than `q` that is live does not have `q` or `d` as its data block. */
  lemma GrowthOthers(b: Before, ws: seq<Word>, q: int, d: int, c: Before, r: int)
    requires Grows(b, ws, q, d, c) && r in b.tenured && r in b.wanted
    ensures !DataOf(b.tenured[r], q) && !DataOf(b.tenured[r], d)
  {
    GrowthData(b, ws, q, d, c);
    WantedEncloses(b.All(), ws);
    hide Wanted, Slots, WellFormed, Stores, SoleOwner;
    var o := b.tenured[r];
    assert b.All()[r] == o && b.Refers(o);
    assert b.l.Old(Ptr(q));
    if DataSlot(o.kind) >= 0 {
      DataIsTraced(o);
      assert Within(b.All(), b.wanted, o.words[DataSlot(o.kind)]);
    }
  }

  lemma GrowthRemembers(b: Before, rem: set<int>, ws: seq<Word>, q: int, d: int, c: Before)
    requires Grows(b, ws, q, d, c) && rem <= b.wanted
    ensures q in c.wanted && d in c.wanted
    ensures Remembers(c, rem, q) <==> q in rem
    ensures Remembers(c, rem, d) <==> q in rem
  {
    GrowthReached(b, ws, q, d, c);
    hide Wanted, Slots, WellFormed, Before.Sound, SoleOwner, Traced;
    assert d !in rem && DataOf(c.tenured[q], d);
    forall r | r in rem && r in c.tenured && r != q
      ensures !DataOf(c.tenured[r], q) && !DataOf(c.tenured[r], d)
    {
      GrowthOthers(b, ws, q, d, c, r);
    }
  }

  lemma GrowthReached(b: Before, ws: seq<Word>, q: int, d: int, c: Before)
    requires Grows(b, ws, q, d, c)
    ensures q in c.wanted && d in c.wanted && WellFormed(c.tenured[q])
  {
    var k := DataSlot(b.tenured[q].kind);
    StoreCleans(b, q, k, Ptr(d), c);
    assert c.All().Keys == b.All().Keys && c.All()[q] == c.tenured[q];
    RootWanted(c, ws, Ptr(q));
    WantedEncloses(c.All(), ws);
    hide Wanted;
    DataIsTraced(c.tenured[q]);
    assert Within(c.All(), c.wanted, c.tenured[q].words[k]);
  }

  /** An old array whose elements are at `data`, with blocks for them in both spaces. */
  ghost function OneArray(data: int): Before {
    var young := map[16 := Block(ArrayData, 2, [Raw(7), Raw(8)])];
    var tenured := map[208 := Block(Array, 1, [Raw(1), Ptr(data)]), 232 := Block(ArrayData, 1, [Raw(7)])];
    Before(Layout(8, 100, 200, 400), young, tenured, Wanted(young + tenured, [Ptr(208)]))
  }

  lemma OneArraySlots(data: int)
    ensures var h := OneArray(data).All();
            h.Keys == {16, 208, 232} && Slots(h[208]) == [1] && Slots(h[232]) == [0] && Slots(h[16]) == [0, 1]
  {
    hide Wanted;
  }

  lemma OneArrayLive()
    ensures OneArray(232).wanted <= {208, 232}
  {
    hide Wanted, Slots;
    var b := OneArray(232);
    OneArraySlots(232);
    WantedWithin(b.All(), [Ptr(208)], {208, 232});
  }

  lemma OneArrayOld()
    ensures var b := OneArray(232); b.Sound() && Barred(b, {})
  {
    hide Wanted, Slots;
    var b := OneArray(232);
    OneArraySlots(232);
    OneArrayLive();
    forall x | x in b.All() && x in b.wanted
      ensures WellFormed(b.All()[x]) && b.Refers(b.All()[x])
    {
      assert x == 208 || x == 232;
    }
    assert Clean(b.l, b.tenured[208]) && Clean(b.l, b.tenured[232]);
  }

  /** An old array that nothing remembers is grown into the nursery to take a number:
      its elements are then known to no one. */
  lemma GrowthForgotten()
    ensures var b, c := OneArray(232), OneArray(16);
            Barred(b, {}) && Grows(b, [Ptr(208)], 208, 16, c) && 16 in b.young && !Barred(c, {})
  {
    hide Wanted, Slots, Before.Sound, Barred;
    OneArrayOld();
    OneArrayLive();
    OneArraySlots(232);
    var b, c := OneArray(232), OneArray(16);
    assert Slots(b.tenured[208])[0] == 1;
    assert c.tenured[208].words == b.tenured[208].words[1 := Ptr(16)];
    assert c.tenured == b.tenured[208 := b.tenured[208].(words := b.tenured[208].words[1 := Ptr(16)])];
    GrowthBarred(b, {}, [Ptr(208)], 208, 16, c, {});
  }

  const MAX_REMEMBERED := 16384

  /** The table after the barrier for `value` stored in `target`. */
  function Recorded(l: Layout, remembered: seq<Word>, target: Word, value: Word): seq<Word> {
    if l.Old(target) && l.Young(value) && target !in remembered && |remembered| < MAX_REMEMBERED
    then remembered + [target]
    else remembered
  }

  lemma RecordedPointers(l: Layout, remembered: seq<Word>, q: int, v: Word)
    ensures PointersOf(remembered) <= PointersOf(Recorded(l, remembered, Ptr(q), v))
    ensures l.Old(Ptr(q)) && l.Young(v) && |remembered| < MAX_REMEMBERED ==>
              q in PointersOf(Recorded(l, remembered, Ptr(q), v))
    ensures |remembered| >= MAX_REMEMBERED ==> Recorded(l, remembered, Ptr(q), v) == remembered
    ensures !l.Young(v) ==> Recorded(l, remembered, Ptr(q), v) == remembered
  {
    var more := Recorded(l, remembered, Ptr(q), v);
    forall x | x in PointersOf(remembered)
      ensures x in PointersOf(more)
    {
      var i :| 0 <= i < |remembered| && remembered[i].Ptr? && remembered[i].at == x;
      assert more[i] == remembered[i];
    }
    if |remembered| < MAX_REMEMBERED && l.Old(Ptr(q)) && l.Young(v) {
      var i :| 0 <= i < |more| && more[i] == Ptr(q);
    }
  }

  /** A store of a live word followed by the barrier keeps all references remembered exactly
      if a live block that is given a young word is remembered already or the table has
      room, and a data block that is given up is covered. */
  lemma BarrierIff(b: Before, remembered: seq<Word>, q: int, k: nat, v: Word, c: Before, ws: seq<Word>)
    requires b.Sound() && Barred(b, PointersOf(remembered)) && Stores(b, q, k, v, c)
    requires b.wanted == Wanted(b.All(), ws) && c.wanted == Wanted(c.All(), ws) && Within(b.All(), b.wanted, v)
    ensures var after := PointersOf(Recorded(b.l, remembered, Ptr(q), v));
            Barred(c, after) <==>
            && (q in c.wanted && b.l.Young(v) ==>
                  Remembers(c, PointersOf(remembered), q) || |remembered| < MAX_REMEMBERED)
            && (k == DataSlot(b.tenured[q].kind) && b.tenured[q].words[k].Ptr? ==>
                  Covered(c, after, b.tenured[q].words[k].at))
  {
    var rem, after := PointersOf(remembered), PointersOf(Recorded(b.l, remembered, Ptr(q), v));
    RecordedPointers(b.l, remembered, q, v);
    assert b.l.Old(Ptr(q));
    hide Barred, Wanted, PointersOf, Recorded, Before.Sound, DataSlot, Traced, Clean;
    MoreBarred(b, rem, after);
    StoreLive(b, after, q, k, v, c, ws);
    assert Remembers(c, rem, q) ==> Remembers(c, after, q);
  }

  /** Old promises, all but the last of which fill the table, and a string in the nursery;
      the last promise has the given result. */
  ghost function Crowd(result: Word): Before {
    var tenured := map x | x in CrowdAddresses() :: Settled(if x == LAST then result else Raw(0));
    var young := map[64 := Block(String, 0, [Raw(0)])];
    Before(Layout(8, 800, 800, LAST + 32), young, tenured, Wanted(young + tenured, [Ptr(LAST), Ptr(64)]))
  }

  ghost function CrowdAddresses(): (s: set<int>)
    ensures LAST in s && forall x :: x in s ==> 800 <= x <= LAST
  {
    assert LAST == 800 + 32 * MAX_REMEMBERED;
    set i | 0 <= i <= MAX_REMEMBERED :: 800 + 32 * i
  }

  ghost function CrowdTable(): (table: seq<Word>)
    ensures |table| == MAX_REMEMBERED && forall i :: 0 <= i < |table| ==> table[i] == Ptr(800 + 32 * i)
  {
    seq(MAX_REMEMBERED, i => Ptr(800 + 32 * i))
  }

  const LAST := 800 + 32 * MAX_REMEMBERED

  function Settled(result: Word): Block { Block(Promise, 0, [Raw(0), result, Raw(0)]) }

  lemma CrowdBlocks(result: Word)
    ensures var b := Crowd(result);
            && b.l == Layout(8, 800, 800, LAST + 32) && b.young == map[64 := Block(String, 0, [Raw(0)])]
            && b.wanted == Wanted(b.All(), [Ptr(LAST), Ptr(64)]) && LAST in b.tenured
            && (forall x :: x in b.tenured ==>
                  800 <= x < LAST + 32 && b.tenured[x] == Settled(if x == LAST then result else Raw(0)))
            && b.tenured.Keys == CrowdAddresses()
  {
    hide Wanted, CrowdAddresses;
  }

  lemma SimpleSlots(result: Word)
    ensures WellFormed(Settled(result)) && Slots(Settled(result)) == [1, 2]
    ensures WellFormed(Block(String, 0, [Raw(0)])) && Slots(Block(String, 0, [Raw(0)])) == []
  {
  }

  lemma CrowdSound()
    ensures var b := Crowd(Raw(0)); b.Sound() && Barred(b, PointersOf(CrowdTable()))
  {
    hide Wanted, Slots, PointersOf, Crowd, CrowdTable;
    var b := Crowd(Raw(0));
    CrowdBlocks(Raw(0));
    SimpleSlots(Raw(0));
    forall x | x in b.All()
      ensures WellFormed(b.All()[x]) && b.Refers(b.All()[x])
    {
      assert b.All()[x] == if x == 64 then Block(String, 0, [Raw(0)]) else Settled(Raw(0));
    }
  }

  lemma NotListed()
    ensures LAST !in PointersOf(CrowdTable())
  {
  }

  /** With the table full, the last promise is settled with a young string: the barrier runs
      and the reference is forgotten. */
  lemma FullTable()
    ensures var b, c := Crowd(Raw(0)), Crowd(Ptr(64));
            && Barred(b, PointersOf(CrowdTable())) && Stores(b, LAST, 1, Ptr(64), c)
            && !Barred(c, PointersOf(Recorded(b.l, CrowdTable(), Ptr(LAST), Ptr(64))))
  {
    hide Wanted, Slots, Recorded, PointersOf, Crowd, Barred, Before.Sound;
    var b, c, ws := Crowd(Raw(0)), Crowd(Ptr(64)), [Ptr(LAST), Ptr(64)];
    CrowdSound();
    CrowdBlocks(Raw(0));
    CrowdBlocks(Ptr(64));
    SimpleSlots(Raw(0));
    NotListed();
    assert Slots(b.tenured[LAST])[0] == 1;
    assert c.tenured[LAST].words == b.tenured[LAST].words[1 := Ptr(64)];
    assert c.tenured == b.tenured[LAST := b.tenured[LAST].(words := b.tenured[LAST].words[1 := Ptr(64)])];
    RootWanted(b, ws, Ptr(64));
    RootWanted(c, ws, Ptr(LAST));
    BarrierIff(b, CrowdTable(), LAST, 1, Ptr(64), c, ws);
  }

  // ------------------------------------------------------------- room for copies

  /** Bytes of the old-space blocks for the copies of `left`. */
  ghost function Needed(young: Heap, left: set<int>): int
    requires left <= young.Keys
  {
    if exists p :: p in left then
      var p :| p in left;
      Total(8 * |young[p].words|) + Needed(young, left - {p})
    else 0
  }

  lemma {:induction false} NeededWithout(young: Heap, left: set<int>, p: int)
    requires left <= young.Keys && p in left
    ensures Needed(young, left) == Total(8 * |young[p].words|) + Needed(young, left - {p})
    decreases left
  {
    hide Total;
    var q :| q in left && Needed(young, left) == Total(8 * |young[q].words|) + Needed(young, left - {q});
    if q != p {
      NeededWithout(young, left - {q}, p);
      NeededWithout(young, left - {p}, q);
      assert left - {q} - {p} == left - {p} - {q};
    }
  }

  lemma {:induction false} NeededSplits(young: Heap, left: set<int>)
    requires left <= young.Keys && forall p :: p in left ==> |young[p].words| > 0
    ensures Needed(young, left) == 0 || Needed(young, left) >= SPLIT
    decreases left
  {
    if p :| p in left {
      NeededWithout(young, left, p);
      NeededSplits(young, left - {p});
    }
  }

  /** One free block is as large as all the blocks `left` together. */
  ghost predicate Roomy(young: Heap, left: set<int>, h: Headers, bs: seq<int>) {
    left <= young.Keys && Room(h, bs, Needed(young, left))
  }

  /** There is no room for the copy of some wanted nursery block. */
  ghost predicate Stuck(b: Before, h: Headers, bs: seq<int>) {
    exists p :: p in b.young && p in b.wanted && Full(h, bs, Total(8 * |b.young[p].words|))
  }

  lemma StuckAt(b: Before, p: int, h: Headers, bs: seq<int>)
    requires p in b.young && p in b.wanted && Full(h, bs, Total(8 * |b.young[p].words|))
    ensures Stuck(b, h, bs)
  {
  }

  /** The copy of `p` finds room and leaves room for the others. */
  lemma RoomLeft(young: Heap, left: set<int>, p: int, h: Headers, bs: seq<int>, k: int)
    requires Roomy(young, left, h, bs) && p in left && forall x :: x in left ==> |young[x].words| > 0
    ensures var total := Total(8 * |young[p].words|);
            && Tiled(h, bs) && !Full(h, bs, total)
            && (0 <= k < |bs| - 1 && Fitting(h, bs, k, total) ==>
                  Roomy(young, left - {p}, Claim(h, bs[k], total), ClaimWalk(h, bs, k, total)))
  {
    hide Needed, Claim, ClaimWalk, Room, Full;
    var total, n := Total(8 * |young[p].words|), Needed(young, left - {p});
    NeededWithout(young, left, p);
    NeededSplits(young, left - {p});
    RoomNotFull(h, bs, total, n);
    if 0 <= k < |bs| - 1 && Fitting(h, bs, k, total) { ClaimRoom(h, bs, k, total, n); }
  }

  class MinorCollector {
    const space: OldSpace
    const lo: int
    const hi: int
    var young: Heap
    var tenured: Heap
    var forwarded: set<int>    // nursery blocks whose mark says that they moved
    var roots: seq<Word>
    var lateRoots: seq<Word>   // thread pool, sockets and event loop: visited last
    var remembered: seq<Word>  // old blocks that were given references into the nursery
    var interned: seq<Word>
    ghost var before: Before
    ghost var fwd: map<int, int>
    ghost var done: set<int>
    ghost var goal: set<int>   // all nursery blocks that the collection will want

    constructor (space: OldSpace, lo: int, hi: int)
      requires space.Valid() && space.CursorOnBlock() && Allocated(space.headers, space.walk) == {}
      requires 0 < lo <= hi <= space.start
      ensures this.space == space && this.lo == lo && this.hi == hi && Ready()
      ensures young == map[] && tenured == map[] && roots == [] && lateRoots == [] && remembered == [] && interned == []
    {
      this.space, this.lo, this.hi := space, lo, hi;
      young, tenured, forwarded := map[], map[], {};
      roots, lateRoots, remembered, interned := [], [], [], [];
    }

    /** Called when `value` is stored in the old object `target`. */
    method WriteBarrier(target: Word, value: Word)
      modifies this`remembered
      ensures remembered == Recorded(Layout(lo, hi, space.start, space.end), old(remembered), target, value)
    {
      if target.Raw? || value.Raw? {
        return;
      }
      if space.start <= target.at < space.end {
        if lo <= value.at < hi {
          if |remembered| < MAX_REMEMBERED && target !in remembered {
            remembered := remembered + [target];
          }
        }
      }
    }

    ghost function Now(): During
      reads this
    {
      During(young, tenured, fwd, done)
    }

    ghost predicate Held()
      reads this, space
    {
      && space.Valid() && space.CursorOnBlock()
      && Tiled(space.headers, space.walk) && Stored(tenured, space.headers, space.walk)
      && before.l == Layout(lo, hi, space.start, space.end)
    }

    ghost predicate Valid()
      reads this, space
    {
      && Held() && Inv(before, Now()) && forwarded == fwd.Keys
      && before.young.Keys * before.wanted <= goal <= before.young.Keys
      && (forall p :: p in goal ==> |before.young[p].words| > 0)
    }

    /** One free block is as large as all blocks that are still to be copied. */
    ghost predicate HasRoom()
      reads this`before, this`goal, this`fwd, space
    {
      Roomy(before.young, goal - fwd.Keys, space.headers, space.walk)
    }

    /** Puts a copy of `b` into the old space; 0 if there is no room for it. */
    method Place(b: Block) returns (q: int, n: nat, ghost k: nat)
      requires Held() && WellFormed(b)
      modifies this`tenured, space
      ensures q == 0 <==> old(Full(space.headers, space.walk, Total(8 * |b.words|)))
      ensures q == 0 ==> space.headers == old(space.headers) && space.walk == old(space.walk)
      ensures q != 0 ==>
                && Held() && q !in old(tenured) && tenured == old(tenured)[q := Padded(b, n)]
                && before.l.start <= q < before.l.end
                && k < |old(space.walk)| - 1 && Fitting(old(space.headers), old(space.walk), k, Total(8 * |b.words|))
                && space.headers == Claim(old(space.headers), old(space.walk)[k], Total(8 * |b.words|))
                && space.walk == ClaimWalk(old(space.headers), old(space.walk), k, Total(8 * |b.words|))
    {
      hide Claim, ClaimWalk, Tiled, Stored, FreeBytes, Padded, Allocated, Remainder, Fitting, WellFormed, Total;
      ghost var h, bs := space.headers, space.walk;
      ghost var c;
      q, c, k := space.Alloc(8 * |b.words|);
      n := 0;
      if q != 0 {
        StoredClaim(tenured, h, bs, k, b);
        n := space.headers[q - HEADER].size / 8 - 1;
        tenured := tenured[q := Padded(b, n)];
      }
    }

    /** Moves block `p` to the old space; 0 if there is no room for it. */
    method Promote(p: int) returns (q: int)
      requires Valid() && p in before.young && p in before.wanted && p !in forwarded
      modifies this`young, this`tenured, this`forwarded, this`fwd, space
      ensures q == 0 <==> old(Full(space.headers, space.walk, Total(8 * |before.young[p].words|)))
      ensures q == 0 ==> space.headers == old(space.headers) && space.walk == old(space.walk)
      ensures q != 0 ==>
                && Valid() && Grown(before.l, old(Now()), Now()) && fwd == old(fwd)[p := q] && q in tenured
                && q !in before.tenured
      ensures old(HasRoom()) ==> q != 0 && HasRoom()
    {
      hide Inv, Claim, ClaimWalk, Tiled, Stored, Padded, Grown, OldSpace.Valid, OldSpace.CursorOnBlock, Roomy, Full,
           Fitting, WellFormed, Total;
      ghost var s, h, bs := Now(), space.headers, space.walk;
      YoungIntact(before, s, p);
      var b := young[p];
      ghost var left := goal - fwd.Keys;
      var n;
      ghost var k;
      q, n, k := Place(b);
      if Roomy(before.young, left, h, bs) { RoomLeft(before.young, left, p, h, bs, k); }
      if q == 0 {
        return;
      }
      forwarded := forwarded + {p};
      young := young[p := b.(words := Front(b.words, Ptr(q)))];
      fwd := fwd[p := q];
      assert goal - fwd.Keys == left - {p};
      Forward(before, s, p, q, n, Now());
    }

    /** The word to put in place of `w`; what it refers to is copied and traced first. */
    method CopyValue(w: Word) returns (ok: bool, v: Word)
      requires Valid() && (before.l.Young(w) ==> w.at in before.young && w.at in before.wanted)
      modifies this`young, this`tenured, this`forwarded, this`fwd, this`done, space
      ensures ok ==> Valid() && Later(before.l, old(Now()), Now()) && v == Fix(fwd, w) && !before.l.Young(v)
      ensures !ok ==> Stuck(before, space.headers, space.walk)
      ensures old(HasRoom()) ==> ok && HasRoom()
      decreases |before.young.Keys - fwd.Keys|, 0, 1
    {
      hide Inv, Stored, Tiled, FreeBytes, Allocated, Later, Grown, OnBlock, OldSpace.Valid, MinorCollector.HasRoom,
           Stuck;
      ghost var s := Now();
      FixWord(before, s, w);
      v := w;
      if w.Raw? || w.at < lo || w.at >= hi {
        LaterSame(before.l, s);
        return true, w;
      }
      var p := w.at;
      if p in forwarded {
        LaterSame(before.l, s);
        return true, young[p].words[0];
      }
      var q;
      ok, q := CopyBlock(p);
      if ok {
        FixWord(before, Now(), w);
      }
      v := Ptr(q);
    }

    /** Copies block `p` and traces the copy. */
    method CopyBlock(p: int) returns (ok: bool, q: int)
      requires Valid() && p in before.young && p in before.wanted && p !in fwd
      modifies this`young, this`tenured, this`forwarded, this`fwd, this`done, space
      ensures ok ==> Valid() && Later(before.l, old(Now()), Now()) && p in fwd && fwd[p] == q
      ensures !ok ==> Stuck(before, space.headers, space.walk)
      ensures old(HasRoom()) ==> ok && HasRoom()
      decreases |before.young.Keys - fwd.Keys|, 0, 0
    {
      hide Inv, Stored, Tiled, FreeBytes, Allocated, Later, Grown, OnBlock, TracedWithData, OldSpace.Valid,
           MinorCollector.HasRoom, Stuck;
      ghost var s := Now();
      q := Promote(p);
      if q == 0 {
        StuckAt(before, p, space.headers, space.walk);
        return false, 0;
      }
      ghost var t := Now();
      FewerLeft(before.young, s.fwd, p, q);
      ok := Trace(q);
      if ok {
        LaterForward(before.l, s, t, Now(), p, q);
      }
    }

    /** Redirects the traced words of block `q`, and those of its data block. */
    method Trace(q: int) returns (ok: bool)
      requires Valid() && q in tenured && (q in before.tenured ==> q in before.wanted)
      modifies this`young, this`tenured, this`forwarded, this`fwd, this`done, space
      ensures ok ==> Valid() && Later(before.l, old(Now()), Now()) && TracedWithData(before.l, Now(), q) && q in done
      ensures !ok ==> Stuck(before, space.headers, space.walk)
      ensures old(HasRoom()) ==> ok && HasRoom()
      decreases |before.young.Keys - fwd.Keys|, if IsData(tenured[q].kind) then 1 else 2, 1
    {
      hide Inv, Stored, Tiled, FreeBytes, Allocated, Grown, OnBlock, Later, OldSpace.Valid, MinorCollector.HasRoom,
           Stuck;
      ghost var s := Now();
      ok := TraceSlots(q);
      if !ok {
        return;
      }
      ghost var t := Now();
      var data := DataSlot(tenured[q].kind);
      if data >= 0 {
        DataBlock(before, t, q);
        var w := tenured[q].words[data];
        if w.Ptr? && space.start <= w.at < space.end {
          LaterShrinks(before, s, t);
          ok := Trace(w.at);
          if ok {
            LaterTrans(before.l, s, t, Now());
            TraceEnds(before.l, t, Now(), q);
          }
        }
      }
    }

    /** Redirects the traced words of block `q`. */
    method TraceSlots(q: int) returns (ok: bool)
      requires Valid() && q in tenured && (q in before.tenured ==> q in before.wanted)
      modifies this`young, this`tenured, this`forwarded, this`fwd, this`done, space
      ensures ok ==>
                && Valid() && Later(before.l, old(Now()), Now()) && q in done && q in tenured
                && tenured[q].kind == old(tenured)[q].kind && WellFormed(tenured[q])
      ensures !ok ==> Stuck(before, space.headers, space.walk)
      ensures old(HasRoom()) ==> ok && HasRoom()
      decreases |before.young.Keys - fwd.Keys|, if IsData(tenured[q].kind) then 1 else 2, 0
    {
      hide Inv, Stored, Tiled, FreeBytes, Allocated, Grown, OnBlock, Later, OldSpace.Valid, Slots, WellFormed,
           Scanned, MinorCollector.HasRoom, Stuck;
      ghost var s := Now();
      LaterSame(before.l, s);
      WellTraced(before, s, q);
      var slots := Slots(tenured[q]);
      ok := ScanSlots(q, slots, s);
      if ok {
        ghost var t := Now();
        done := done + {q};
        Finish(before, t, q);
        LaterTrans(before.l, s, t, Now());
      }
    }

    /** The first `i` traced words of block `q` have been redirected since `s`. */
    ghost predicate Scanning(s: During, q: int, slots: seq<nat>, i: nat)
      reads this, space
    {
      && Valid() && Later(before.l, s, Now()) && (q in before.tenured ==> q in before.wanted)
      && q in tenured && q in s.tenured && WellFormed(tenured[q]) && Slots(tenured[q]) == slots
      && tenured[q].kind == s.tenured[q].kind && i <= |slots| && Scanned(before.l, tenured[q], slots, i)
    }

    method ScanSlots(q: int, slots: seq<nat>, ghost s: During) returns (ok: bool)
      requires Scanning(s, q, slots, 0)
      modifies this`young, this`tenured, this`forwarded, this`fwd, this`done, space
      ensures ok ==> Scanning(s, q, slots, |slots|)
      ensures !ok ==> Stuck(before, space.headers, space.walk)
      ensures old(HasRoom()) ==> ok && HasRoom()
      decreases |before.young.Keys - s.fwd.Keys|, 0, 4
    {
      hide MinorCollector.Scanning, MinorCollector.HasRoom, Stuck;
      ok := true;
      for i := 0 to |slots|
        invariant ok && Scanning(s, q, slots, i) && (old(HasRoom()) ==> HasRoom())
      {
        ok := ScanSlot(q, slots, i, s);
        if !ok {
          return;
        }
      }
    }

    method ScanSlot(q: int, slots: seq<nat>, i: nat, ghost s: During) returns (ok: bool)
      requires i < |slots| && Scanning(s, q, slots, i)
      modifies this`young, this`tenured, this`forwarded, this`fwd, this`done, space
      ensures ok ==> Scanning(s, q, slots, i + 1)
      ensures !ok ==> Stuck(before, space.headers, space.walk)
      ensures old(HasRoom()) ==> ok && HasRoom()
      decreases |before.young.Keys - s.fwd.Keys|, 0, 3
    {
      hide Inv, Stored, Tiled, FreeBytes, Allocated, Grown, OnBlock, Later, OldSpace.Valid, Slots, WellFormed,
           Scanned, MinorCollector.HasRoom, Stuck;
      ghost var t := Now();
      LaterShrinks(before, s, t);
      ok := TraceSlot(q, slots, i);
      if ok {
        ScanOne(before.l, t, Now(), q, slots, i);
        LaterTrans(before.l, s, t, Now());
      }
    }

    /** Redirects one traced word of block `q`. */
    method TraceSlot(q: int, slots: seq<nat>, i: nat) returns (ok: bool)
      requires Valid() && q in tenured && (q in before.tenured ==> q in before.wanted)
      requires WellFormed(tenured[q]) && Slots(tenured[q]) == slots && i < |slots|
      modifies this`young, this`tenured, this`forwarded, this`fwd, this`done, space
      ensures ok ==>
                && Valid() && Later(before.l, old(Now()), Now()) && q in tenured
                && WellFormed(tenured[q]) && Slots(tenured[q]) == slots
                && !before.l.Young(tenured[q].words[slots[i]])
      ensures !ok ==> Stuck(before, space.headers, space.walk)
      ensures old(HasRoom()) ==> ok && HasRoom()
      decreases |before.young.Keys - fwd.Keys|, 0, 2
    {
      hide Inv, Stored, Tiled, FreeBytes, Allocated, Later, Grown, OnBlock, OldSpace.Valid, Slots, WellFormed,
           MinorCollector.HasRoom, Stuck;
      ghost var s := Now();
      var k := slots[i];
      SlotWord(before, s, q, i);
      var v;
      ok, v := CopyValue(tenured[q].words[k]);
      if !ok {
        return;
      }
      ghost var t := Now();
      SameWord(before, s, t, q, k);
      StillScanned(before.l, s, t, q, slots, 0);
      assert Slots(tenured[q])[i] == k;
      tenured := tenured[q := tenured[q].(words := tenured[q].words[k := v])];
      StoredSame(t.tenured, tenured, space.headers, space.walk, q);
      Redirect(before, t, q, k, Now());
      LaterTrans(before.l, s, t, Now());
      StillScanned(before.l, s, Now(), q, slots, 0);
    }

    /** Copies what the words `ws` point to; `out` are the words to put in their place. */
    method CopyAll(ws: seq<Word>) returns (ok: bool, out: seq<Word>)
      requires Valid() && forall w :: w in ws && before.l.Young(w) ==> w.at in before.young && w.at in before.wanted
      modifies this`young, this`tenured, this`forwarded, this`fwd, this`done, space
      ensures ok ==> Valid() && Later(before.l, old(Now()), Now()) && out == FixAll(fwd, ws)
      ensures ok ==> forall w :: w in out ==> !before.l.Young(w)
      ensures !ok ==> Stuck(before, space.headers, space.walk)
      ensures old(HasRoom()) ==> ok && HasRoom()
    {
      hide Inv, Stored, Tiled, FreeBytes, Allocated, Later, Grown, OnBlock, OldSpace.Valid, Fix,
           MinorCollector.HasRoom, Stuck;
      ghost var s := Now();
      LaterSame(before.l, s);
      ok, out := true, [];
      for i := 0 to |ws|
        invariant ok && Valid() && Later(before.l, s, Now()) && |out| == i && (old(HasRoom()) ==> HasRoom())
        invariant forall j :: 0 <= j < i ==> out[j] == Fix(fwd, ws[j]) && !before.l.Young(out[j])
      {
        ghost var t := Now();
        var v;
        ok, v := CopyValue(ws[i]);
        if !ok {
          return;
        }
        LaterTrans(before.l, s, t, Now());
        forall j | 0 <= j < i ensures Fix(fwd, ws[j]) == Fix(t.fwd, ws[j]) { FixStable(before, t, Now(), ws[j]); }
        out := out + [v];
      }
    }

    /** Traces the remembered blocks. */
    method TraceAll(ws: seq<Word>) returns (ok: bool)
      requires Valid() && forall w :: w in ws && w.Ptr? ==> w.at in before.tenured && w.at in before.wanted
      modifies this`young, this`tenured, this`forwarded, this`fwd, this`done, space
      ensures ok ==> Valid() && Later(before.l, old(Now()), Now())
      ensures ok ==> forall r :: r in PointersOf(ws) ==> TracedWithData(before.l, Now(), r)
      ensures !ok ==> Stuck(before, space.headers, space.walk)
      ensures old(HasRoom()) ==> ok && HasRoom()
    {
      hide Inv, Stored, Tiled, FreeBytes, Allocated, Later, Grown, OnBlock, OldSpace.Valid, TracedWithData,
           MinorCollector.HasRoom, Stuck;
      ghost var s := Now();
      LaterSame(before.l, s);
      ok := true;
      for i := 0 to |ws|
        invariant ok && Valid() && Later(before.l, s, Now()) && (old(HasRoom()) ==> HasRoom())
        invariant forall j :: 0 <= j < i && ws[j].Ptr? ==> TracedWithData(before.l, Now(), ws[j].at)
      {
        if ws[i].Ptr? {
          ghost var t := Now();
          assert ws[i] in ws;
          StillTenured(before, t, ws[i].at);
          ok := Trace(ws[i].at);
          if !ok {
            return;
          }
          LaterTrans(before.l, s, t, Now());
          forall j | 0 <= j < i && ws[j].Ptr?
            ensures TracedWithData(before.l, Now(), ws[j].at)
          {
            TracedStays(before, t, Now(), ws[j].at);
          }
        }
      }
    }

    /** Brings the table of interned strings up to date; strings that did not move go. */
    method UpdateInterned(ws: seq<Word>) returns (out: seq<Word>)
      requires Valid()
      ensures out == StillThere(before.l, fwd, ws)
    {
      out := [];
      for i := 0 to |ws|
        invariant out == StillThere(before.l, fwd, ws[..i])
      {
        assert ws[..i + 1][..i] == ws[..i];
        FixWord(before, Now(), ws[i]);
        if ws[i].Ptr? && lo <= ws[i].at < hi {
          if ws[i].at in forwarded {
            out := out + [young[ws[i].at].words[0]];
          }
        } else {
          out := out + [ws[i]];
        }
      }
      assert ws[..|ws|] == ws;
    }

    /** The heap as it is, with what can be reached from `ws`. */
    ghost function Start(ws: seq<Word>): Before
      reads this, space
    {
      Before(Layout(lo, hi, space.start, space.end), young, tenured, Wanted(young + tenured, ws))
    }

    /** Everything the collection begins from. */
    ghost function Sources(): seq<Word>
      reads this
    {
      roots + remembered + lateRoots
    }

    /** What the mutator must have seen to: references from what can be reached lead to
        blocks, and those from the old space into the nursery are remembered. */
    ghost predicate Ready()
      reads this, space
    {
      && space.Valid() && space.CursorOnBlock() && Tiled(space.headers, space.walk)
      && Stored(tenured, space.headers, space.walk) && forwarded == {}
      && Start(Sources()).Sound() && Barred(Start(Sources()), PointersOf(remembered))
      && (forall w :: w in roots || w in lateRoots ==> Start(Sources()).Known(w))
      && (forall w :: w in remembered && w.Ptr? ==> w.at in tenured)
    }

    /** Copies from the roots and the remembered blocks. */
    method CopyEarly(ghost all: Before) returns (ok: bool)
      requires Ready() && all == Start(Sources())
      modifies this`before, this`young, this`tenured, this`forwarded, this`roots, this`fwd, this`done, this`goal, space
      ensures before == old(Start(roots + remembered)) && goal == old(young).Keys * all.wanted
      ensures ok ==>
                && Valid() && Finished(before, Now(), PointersOf(remembered))
                && roots == FixAll(fwd, old(roots)) && (forall w :: w in roots ==> !before.l.Young(w))
      ensures !ok ==> Stuck(before, space.headers, space.walk)
      ensures Roomy(old(young), goal, old(space.headers), old(space.walk)) ==> ok && HasRoom()
    {
      hide Inv, Stored, Tiled, Later, OldSpace.Valid, OldSpace.CursorOnBlock, Before.Sound, Before.Known, Barred,
           Wanted, TracedWithData, PointersOf, Fix, FixAll, Roomy, Stuck;
      ghost var ws := roots + remembered;
      before, fwd, done := Start(ws), map[], {};
      goal := young.Keys * all.wanted;
      ghost var b := before;
      WantedGrows(b.All(), ws, lateRoots);
      SameShape(all, b, PointersOf(remembered));
      Begin(b, ws);
      GoalBlocks(all);
      EarlyWanted(b, roots, remembered);
      ghost var s := Now();
      ghost var was := roots;
      assert goal - fwd.Keys == goal;
      ok, roots := CopyAll(roots);
      if !ok {
        return;
      }
      ghost var t := Now();
      ok := TraceAll(remembered);
      if ok {
        LaterTrans(b.l, s, t, Now());
        FinishEarly(b, s, Now(), remembered);
        FixAllStable(b, t, Now(), was);
      }
    }

    /** Copies from the late roots what the others do not reach. */
    method CopyLate(ghost all: Before, ghost was: seq<Word>) returns (ok: bool)
      requires Valid() && Finished(before, Now(), PointersOf(remembered))
      requires before == all.(wanted := Wanted(all.All(), was + remembered))
      requires all.wanted == Wanted(all.All(), was + remembered + lateRoots) && goal == all.young.Keys * all.wanted
      requires all.Sound() && Barred(all, PointersOf(remembered)) && forall w :: w in lateRoots ==> all.Known(w)
      requires roots == FixAll(fwd, was) && forall w :: w in roots ==> !all.l.Young(w)
      modifies this`before, this`young, this`tenured, this`forwarded, this`lateRoots, this`fwd, this`done, space
      ensures before == all
      ensures ok ==>
                && Valid() && Finished(all, Now(), PointersOf(remembered))
                && lateRoots == FixAll(fwd, old(lateRoots)) && (forall w :: w in lateRoots ==> !all.l.Young(w))
                && roots == FixAll(fwd, was) && (forall p :: p in old(fwd) ==> p in fwd && fwd[p] == old(fwd)[p])
      ensures !ok ==> Stuck(all, space.headers, space.walk)
      ensures old(HasRoom()) ==> ok
    {
      hide Inv, Stored, Tiled, OldSpace.Valid, OldSpace.CursorOnBlock, Later, Before.Sound, Barred, Wanted,
           PointersOf, Fix, Finished, Roomy, Stuck;
      ghost var s, rem := Now(), PointersOf(remembered);
      Widen(before, all, s, rem, was + remembered, lateRoots);
      before := all;
      ok, lateRoots := CopyAll(lateRoots);
      if ok {
        FixAllStable(all, s, Now(), was);
        FinishedLater(all, s, Now(), rem);
        MovesStay(all.l, s, Now());
      }
    }

    /** All the copying, with the table of interned strings updated on the way. */
    method CopyLive(ghost all: Before) returns (ok: bool, ghost early: map<int, int>)
      requires Ready() && all == Start(Sources())
      modifies this, space
      ensures ok ==>
                && Valid() && Finished(all, Now(), PointersOf(remembered)) && remembered == old(remembered)
                && roots == FixAll(fwd, old(roots)) && lateRoots == FixAll(fwd, old(lateRoots))
                && (forall w :: w in roots || w in lateRoots || w in interned ==> !all.l.Young(w))
                && interned == StillThere(all.l, early, old(interned))
                && early.Keys == LiveYoung(all, old(roots + remembered))
                && (forall p :: p in early ==> p in fwd && fwd[p] == early[p])
      ensures ok ==> before == all
      ensures !ok ==> Stuck(all, space.headers, space.walk)
      ensures Roomy(all.young, all.young.Keys * all.wanted, old(space.headers), old(space.walk)) ==> ok
    {
      hide Inv, Stored, Tiled, OnBlock, OldSpace.Valid, OldSpace.CursorOnBlock, Before.Sound, Before.Known, Barred,
           Wanted, TracedWithData, PointersOf, Fix, FixAll, Finished, LiveYoung, StillThere, Roomy, Stuck;
      early := map[];
      ghost var was, ws := roots, roots + remembered;
      WantedGrows(all.All(), ws, lateRoots);
      KnownWords(all, roots, remembered, lateRoots);
      ok := CopyEarly(all);
      if !ok {
        StuckMore(before, all, space.headers, space.walk);
        return;
      }
      early := fwd;
      ReachedEarly(all, before, Now(), remembered, was, ws);
      StillThereOld(before, Now(), interned);
      interned := UpdateInterned(interned);
      ok := CopyLate(all, was);
    }

    /** The whole collection. It succeeds if one free block is as large as all live nursery
        blocks together, and fails only if no free block can hold some live one. `early`
        are the moves made when the table of interned strings is updated, `moved` those
        made in the end. Afterwards the next collection may follow. */
    method Collect() returns (ok: bool, ghost early: map<int, int>, ghost moved: map<int, int>)
      requires Ready()
      modifies this, space
      ensures ok ==>
                && Ready() && young == map[] && remembered == []
                && roots == FixAll(moved, old(roots)) && lateRoots == FixAll(moved, old(lateRoots))
                && interned == StillThere(old(Start(Sources())).l, early, old(interned))
                && early.Keys == LiveYoung(old(Start(Sources())), old(roots + remembered))
                && (forall p :: p in early ==> p in moved && moved[p] == early[p])
                && (forall w :: w in interned ==> !old(Start(Sources())).l.Young(w))
                && Preserved(old(Start(Sources())), tenured, moved, old(Sources()))
                && Intact(old(Start(Sources())), tenured, moved, old(Sources()))
      ensures !ok ==> exists p :: p in LiveYoung(old(Start(Sources())), old(Sources())) && p in old(young)
                             && Full(space.headers, space.walk, Total(8 * |old(young)[p].words|))
      ensures old(Roomy(young, LiveYoung(Start(Sources()), Sources()), space.headers, space.walk)) ==> ok
    {
      hide Inv, Stored, Tiled, OldSpace.Valid, OldSpace.CursorOnBlock, Before.Sound, Before.Known, Barred, Wanted,
           PointersOf, Fix, FixAll, Finished, Preserved, Intact, LiveYoung, StillThere, Roomy, Stuck;
      moved := map[];
      ghost var all, rem := Start(Sources()), PointersOf(remembered);
      ghost var sources, was, late := Sources(), roots, lateRoots;
      LiveGoal(all, sources);
      KnownWords(all, roots, remembered, lateRoots);
      ok, early := CopyLive(all);
      if !ok {
        StuckLive(all, sources, space.headers, space.walk);
        return;
      }
      moved := fwd;
      PreservedAll(all, Now(), rem, was, remembered, late);
      FinishedIntact(all, Now(), rem, sources);
      ghost var n := Before(all.l, map[], tenured, Wanted(map[] + tenured, roots + [] + lateRoots));
      ReadyAgain(all, Now(), rem, was, remembered, late, n);
      NoPointers();
      remembered, young, forwarded := [], map[], {};
    }
  }

  /** A nursery with an error and the string that is its name. */
  function NamedError(): Heap {
    map[16 := Block(Error, 0, [Ptr(64), Raw(0), Raw(0), Raw(0), Raw(0)]), 64 := Block(String, 0, [Raw(0)])]
  }

  ghost function ErrorOnly(): Before {
    Before(Layout(8, 800, 800, 1200), NamedError(), map[], Wanted(NamedError() + map[], [Ptr(16)] + [] + []))
  }

  lemma ErrorOnlyLive()
    ensures ErrorOnly().wanted == {16} && LiveYoung(ErrorOnly(), [Ptr(16)] + [] + []) == {16}
    ensures Needed(NamedError(), {16}) == 48
  {
    hide Wanted, LiveYoung, Needed;
    var b, ws := ErrorOnly(), [Ptr(16)] + [] + [];
    assert b.All() == NamedError();
    assert Slots(b.All()[16]) == [1, 2, 4];
    WantedWithin(b.All(), ws, {16});
    RootWanted(b, ws, Ptr(16));
    LiveGoal(b, ws);
    NeededWithout(NamedError(), {16}, 16);
    NeededNone(NamedError(), {16} - {16});
  }

  lemma NeededNone(young: Heap, left: set<int>)
    requires left == {}
    ensures Needed(young, left) == 0
  {
  }

  lemma ErrorOnlySound()
    ensures ErrorOnly().Sound() && Barred(ErrorOnly(), {}) && ErrorOnly().Known(Ptr(16))
  {
    hide Wanted, Slots, LiveYoung, Needed;
    ErrorOnlyLive();
    var b := ErrorOnly();
    assert b.All() == NamedError();
    ErrorSlots();
    forall x | x in b.All() && x in b.wanted
      ensures WellFormed(b.All()[x]) && b.Refers(b.All()[x])
    {
      assert x == 16;
    }
  }

  lemma ErrorSlots()
    ensures WellFormed(NamedError()[16]) && Slots(NamedError()[16]) == [1, 2, 4]
  {
  }

  lemma NameLeft(moved: map<int, int>, c: Block)
    requires Version(moved, NamedError()[16], c)
    ensures c.kind.Error? && |c.words| >= 5 && c.words[0] == Ptr(64)
  {
  }

  /** The name of an error is not traced: after the collection the error is in the old
      space, and its name still points to where the nursery had it. */
  method DanglingName() returns (m: MinorCollector)
    ensures m.lo <= 64 < m.hi && m.young == map[]
    ensures |m.roots| == 1 && m.roots[0].Ptr? && m.roots[0].at in m.tenured
    ensures var c := m.tenured[m.roots[0].at]; c.kind.Error? && |c.words| >= 5 && c.words[0] == Ptr(64)
  {
    hide Wanted, LiveYoung, Needed, Slots, WellFormed, Follow, Version, StillThere, Before.Sound, Barred;
    var space := new OldSpace(800, 400);
    m := new MinorCollector(space, 8, 800);
    m.young, m.roots := NamedError(), [Ptr(16)];
    ghost var b := m.Start(m.Sources());
    assert m.Sources() == [Ptr(16)];
    ErrorOnlyLive();
    ErrorOnlySound();
    assert b == ErrorOnly();
    NoPointers();
    assert Fitting(space.headers, space.walk, 0, 48);
    var ok, early, moved := m.Collect();
    NameLeft(moved, m.tenured[moved[16]]);
  }

  /** A nursery with a string that only a late root reaches. */
  function LateString(): Heap { map[64 := Block(String, 0, [Raw(0)])] }

  ghost function StringOnly(): Before {
    Before(Layout(8, 800, 800, 1200), LateString(), map[], Wanted(LateString() + map[], [] + [] + [Ptr(64)]))
  }

  lemma StringOnlyLive()
    ensures StringOnly().wanted == {64} && LiveYoung(StringOnly(), [] + [] + [Ptr(64)]) == {64}
    ensures LiveYoung(StringOnly(), [] + []) == {} && Needed(LateString(), {64}) == 16
  {
    hide Wanted, Needed;
    var b, ws := StringOnly(), [] + [] + [Ptr(64)];
    assert b.All() == LateString();
    RootWanted(b, ws, Ptr(64));
    assert b.wanted <= {64} by { WantedInside(b.All(), ws); }
    LiveGoal(b, ws);
    NeededWithout(LateString(), {64}, 64);
    NeededNone(LateString(), {64} - {64});
  }

  lemma WantedInside(h: Heap, ws: seq<Word>)
    ensures Wanted(h, ws) <= h.Keys
  {
  }

  lemma StringOnlySound()
    ensures StringOnly().Sound() && Barred(StringOnly(), {}) && StringOnly().Known(Ptr(64))
  {
    hide Wanted;
    assert StringOnly().All() == LateString();
  }

  lemma StringLeft(moved: map<int, int>, c: Block)
    requires Version(moved, LateString()[64], c)
    ensures c.kind.String?
  {
  }

  lemma TableLeft(l: Layout, early: map<int, int>)
    requires l.Young(Ptr(64)) && early.Keys == {}
    ensures StillThere(l, early, [Ptr(64)]) == []
  {
    assert [Ptr(64)][..0] == [];
  }

  method StringCollector() returns (m: MinorCollector)
    ensures fresh(m) && fresh(m.space) && m.Ready() && m.Start(m.Sources()) == StringOnly()
    ensures m.roots == [] && m.remembered == [] && m.lateRoots == [Ptr(64)] && m.interned == [Ptr(64)]
    ensures m.young == LateString() && Roomy(LateString(), {64}, m.space.headers, m.space.walk)
  {
    hide Wanted, LiveYoung, Needed, Slots, WellFormed, Follow, Version, StillThere, Before.Sound, Barred;
    var space := new OldSpace(800, 400);
    m := new MinorCollector(space, 8, 800);
    m.young, m.lateRoots, m.interned := LateString(), [Ptr(64)], [Ptr(64)];
    StringOnlyLive();
    StringOnlySound();
    assert m.Start(m.Sources()) == StringOnly();
    NoPointers();
    assert Fitting(space.headers, space.walk, 0, 16);
  }

  /** Interned strings are looked through before the late roots are visited: the string
      survives the collection, in the old space, and the table has lost it. */
  method ForgottenString() returns (m: MinorCollector)
    ensures |m.lateRoots| == 1 && m.lateRoots[0].Ptr? && m.lateRoots[0].at in m.tenured
    ensures m.tenured[m.lateRoots[0].at].kind.String? && m.interned == []
  {
    hide Roomy, MinorCollector.Ready, LiveYoung, WellFormed, Follow, Version, StillThere, Clean;
    m := StringCollector();
    StringOnlyLive();
    var ok, early, moved := m.Collect();
    StringLeft(moved, m.tenured[moved[64]]);
    TableLeft(StringOnly().l, early);
  }
}
