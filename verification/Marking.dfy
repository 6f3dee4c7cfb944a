/** The major collection: depth-first marking from the roots, then the sweep. */
module Marking {
  import opened Heaps
  import opened OldSpaces

  /** The words of a block that marking follows, in order. */
  function MarkSlots(b: Block): (s: seq<nat>)
    requires WellFormed(b)
    ensures forall i :: 0 <= i < |s| ==> s[i] < |b.words|
  {
    match b.kind
    case Array => [1]
    case Object => [1]
    case Set => [1]
    case Float16Array => [1]
    case ArrayData => UpTo(0, |b.words|)
    case ObjectData => UpTo(0, |b.words| / 2 * 2)
    case Function => [3, 4, 5, 6]
    case NativeFunction => [3, 4, 6]
    case Environment => [0] + UpTo(2, 2 + b.count)
    case Promise => [1, 2]
    case IteratorHelper => [0, 1, 3]
    case Symbol => [0]
    case RegExp => [0, 1]
    case Error => [0, 1, 2, 4]
    case Buffer => [3]
    case _ => []
  }

  function Followed(b: Block): (ws: seq<Word>)
    requires WellFormed(b)
    ensures |ws| == |MarkSlots(b)|
    ensures forall i :: 0 <= i < |ws| ==> ws[i] == b.words[MarkSlots(b)[i]]
  {
    seq(|MarkSlots(b)|, i requires 0 <= i < |MarkSlots(b)| => b.words[MarkSlots(b)[i]])
  }

  predicate HasData(b: Block) { b.kind.Array? || b.kind.Object? || b.kind.Set? }

  /** The data block of a container with elements: all its elements lie in followed slots. */
  predicate DataFits(h: Heap, b: Block)
    requires WellFormed(b) && HasData(b)
  {
    && b.words[1].Ptr? && b.words[1].at in h
    && var d := h[b.words[1].at];
       && WellFormed(d) && b.count <= |d.words|
       && (if b.kind.Object? then d.kind.ObjectData? && b.count % 2 == 0 else d.kind.ArrayData?)
  }

  /** Blocks hold what their type calls for. */
  predicate Sound(h: Heap) {
    forall x :: x in h ==> WellFormed(h[x]) && (HasData(h[x]) && h[x].count > 0 ==> DataFits(h, h[x]))
  }

  /** Everything the collector may dereference is a block of the heap. */
  ghost predicate Closed(h: Heap, lo: int, hi: int) {
    Sound(h) && forall x :: x in h ==> Traceable(h, lo, hi, Followed(h[x]))
  }

  ghost predicate Traceable(h: Heap, lo: int, hi: int, ws: seq<Word>) {
    forall i :: 0 <= i < |ws| && ws[i].Ptr? && lo <= ws[i].at < hi ==> ws[i].at in h
  }

  /** The elements of a container, which the marker visits once more through the container. */
  function Elements(h: Heap, b: Block): seq<Word>
    requires WellFormed(b) && (HasData(b) && b.count > 0 ==> DataFits(h, b))
  {
    if HasData(b) && b.count > 0 then h[b.words[1].at].words[..b.count] else []
  }

  /** The words the marker visits from block `x`. */
  function Children(h: Heap, x: int): seq<Word>
    requires Sound(h) && x in h
  {
    Followed(h[x]) + Elements(h, h[x])
  }

  /** The program can get from block `x` to block `y`. */
  ghost predicate Edge(h: Heap, x: int, y: int) {
    x in h && y in h && WellFormed(h[x]) && exists k :: Readable(h[x], k) && h[x].words[k] == Ptr(y)
  }

  /** Marking follows exactly the words that the program can read. */
  lemma FollowedExact(b: Block, k: int)
    requires WellFormed(b)
    ensures Readable(b, k) <==> exists i :: 0 <= i < |MarkSlots(b)| && MarkSlots(b)[i] == k
  {
    var s := MarkSlots(b);
    if Readable(b, k) {
      var i := match b.kind
        case ArrayData => k
        case ObjectData => k
        case Function => k - 3
        case NativeFunction => if k == 6 then 2 else k - 3
        case Environment => if k == 0 then 0 else k - 1
        case Promise => k - 1
        case IteratorHelper => if k == 3 then 2 else k
        case RegExp => k
        case Error => if k == 4 then 3 else k
        case _ => 0;
      assert s[i] == k;
    }
  }

  lemma EdgeIff(h: Heap, x: int, y: int)
    requires x in h && y in h && WellFormed(h[x])
    ensures Edge(h, x, y) <==> Ptr(y) in Followed(h[x])
  {
    hide MarkSlots, Fields, Trailing;
    if Edge(h, x, y) {
      var k :| Readable(h[x], k) && h[x].words[k] == Ptr(y);
      FollowedExact(h[x], k);
      var i :| 0 <= i < |MarkSlots(h[x])| && MarkSlots(h[x])[i] == k;
      assert Followed(h[x])[i] == Ptr(y);
    }
    if Ptr(y) in Followed(h[x]) {
      var i :| 0 <= i < |Followed(h[x])| && Followed(h[x])[i] == Ptr(y);
      FollowedExact(h[x], MarkSlots(h[x])[i]);
    }
  }

  ghost predicate Path(h: Heap, p: seq<int>) {
    |p| > 0 && p[0] in h && forall i :: 0 < i < |p| ==> Edge(h, p[i - 1], p[i])
  }

  /** `x` can be reached from one of the words `ws`. */
  ghost predicate Reachable(h: Heap, ws: seq<Word>, x: int) {
    exists p :: Path(h, p) && Ptr(p[0]) in ws && p[|p| - 1] == x
  }

  /** The blocks marked once the pending words `ws` are worked off, most recent first. */
  ghost function Mark(h: Heap, ws: seq<Word>, marked: set<int>): (r: set<int>)
    requires Sound(h)
    ensures marked <= r
    decreases |h.Keys - marked|, |ws|
  {
    if |ws| == 0 then marked
    else if ws[0].Raw? || ws[0].at !in h || ws[0].at in marked then Mark(h, ws[1..], marked)
    else
      var x := ws[0].at;
      assert h.Keys - (marked + {x}) == h.Keys - marked - {x};
      Mark(h, Children(h, x) + ws[1..], marked + {x})
  }

  lemma MarkStep(h: Heap, ws: seq<Word>, marked: set<int>)
    requires Sound(h)
    ensures |ws| == 0 ==> Mark(h, ws, marked) == marked
    ensures |ws| > 0 && (ws[0].Raw? || ws[0].at !in h || ws[0].at in marked) ==>
              Mark(h, ws, marked) == Mark(h, ws[1..], marked)
    ensures |ws| > 0 && !(ws[0].Raw? || ws[0].at !in h || ws[0].at in marked) ==>
              Mark(h, ws, marked) == Mark(h, Children(h, ws[0].at) + ws[1..], marked + {ws[0].at})
  {
  }

  /** Working off two lists one after the other is working off their concatenation. */
  lemma {:induction false} MarkAppend(h: Heap, ws: seq<Word>, rest: seq<Word>, marked: set<int>)
    requires Sound(h)
    ensures Mark(h, ws + rest, marked) == Mark(h, rest, Mark(h, ws, marked))
    decreases |h.Keys - marked|, |ws|
  {
    hide Children, Sound, Mark;
    MarkStep(h, ws + rest, marked);
    MarkStep(h, ws, marked);
    if |ws| == 0 {
      assert ws + rest == rest;
    } else {
      assert (ws + rest)[0] == ws[0] && (ws + rest)[1..] == ws[1..] + rest;
      if ws[0].Raw? || ws[0].at !in h || ws[0].at in marked {
        MarkAppend(h, ws[1..], rest, marked);
      } else {
        var x := ws[0].at;
        var inner := Children(h, x);
        assert h.Keys - (marked + {x}) == h.Keys - marked - {x};
        assert inner + (ws[1..] + rest) == inner + ws[1..] + rest;
        MarkAppend(h, inner + ws[1..], rest, marked + {x});
      }
    }
  }

  /** Every edge out of a marked block leads to a marked block or to a pending word. */
  ghost predicate Covered(h: Heap, marked: set<int>, ws: seq<Word>) {
    forall x, y :: x in marked && Edge(h, x, y) ==> y in marked || Ptr(y) in ws
  }

  /** Marking leaves no edge from a marked to an unmarked block. */
  lemma {:induction false} MarkComplete(h: Heap, ws: seq<Word>, marked: set<int>)
    requires Sound(h) && Covered(h, marked, ws)
    ensures Covered(h, Mark(h, ws, marked), [])
    ensures forall y :: y in h && Ptr(y) in ws ==> y in Mark(h, ws, marked)
    decreases |h.Keys - marked|, |ws|
  {
    if |ws| > 0 {
      assert forall w :: w in ws ==> w == ws[0] || w in ws[1..];
      if ws[0].Raw? || ws[0].at !in h || ws[0].at in marked {
        MarkComplete(h, ws[1..], marked);
      } else {
        var x := ws[0].at;
        var next := Children(h, x) + ws[1..];
        assert forall w :: w in ws[1..] ==> w in next;
        assert forall w :: w in Followed(h[x]) ==> w in next;
        forall y | Edge(h, x, y) ensures Ptr(y) in next { EdgeIff(h, x, y); }
        assert h.Keys - (marked + {x}) == h.Keys - marked - {x};
        MarkComplete(h, next, marked + {x});
      }
    }
  }

  lemma ReachableStep(h: Heap, roots: seq<Word>, x: int, y: int)
    requires Reachable(h, roots, x) && Edge(h, x, y)
    ensures Reachable(h, roots, y)
  {
    var p :| Path(h, p) && Ptr(p[0]) in roots && p[|p| - 1] == x;
    var q := p + [y];
    forall i | 0 < i < |q|
      ensures Edge(h, q[i - 1], q[i])
    {
      if i < |p| { assert Edge(h, p[i - 1], p[i]); }
    }
    assert Path(h, q) && q[0] == p[0] && q[|q| - 1] == y;
  }

  lemma ReachableRoot(h: Heap, roots: seq<Word>, x: int)
    requires x in h && Ptr(x) in roots
    ensures Reachable(h, roots, x)
  {
    assert Path(h, [x]) && Ptr([x][0]) in roots;
  }

  /** The elements of a container are reached through its data block. */
  lemma ElementsReachable(h: Heap, roots: seq<Word>, x: int, y: int)
    requires Sound(h) && x in h && Reachable(h, roots, x) && y in h && Ptr(y) in Elements(h, h[x])
    ensures Reachable(h, roots, y)
  {
    var d := h[x].words[1].at;
    assert Readable(h[x], 1);
    assert Edge(h, x, d);
    ReachableStep(h, roots, x, d);
    var i :| 0 <= i < h[x].count && h[d].words[i] == Ptr(y);
    assert Readable(h[d], i);
    assert Edge(h, d, y);
    ReachableStep(h, roots, d, y);
  }

  /** Marking marks nothing but what can be reached. */
  lemma {:induction false} MarkSound(h: Heap, roots: seq<Word>, ws: seq<Word>, marked: set<int>)
    requires Sound(h)
    requires forall y :: y in h && Ptr(y) in ws ==> Reachable(h, roots, y)
    requires forall y :: y in marked ==> Reachable(h, roots, y)
    ensures forall y :: y in Mark(h, ws, marked) ==> Reachable(h, roots, y)
    decreases |h.Keys - marked|, |ws|
  {
    if |ws| > 0 {
      assert forall w :: w in ws[1..] ==> w in ws;
      if ws[0].Raw? || ws[0].at !in h || ws[0].at in marked {
        MarkSound(h, roots, ws[1..], marked);
      } else {
        var x := ws[0].at;
        var next := Children(h, x) + ws[1..];
        forall y | y in h && Ptr(y) in next
          ensures Reachable(h, roots, y)
        {
          if Ptr(y) in Followed(h[x]) {
            EdgeIff(h, x, y);
            ReachableStep(h, roots, x, y);
          } else if Ptr(y) in Elements(h, h[x]) {
            ElementsReachable(h, roots, x, y);
          }
        }
        assert h.Keys - (marked + {x}) == h.Keys - marked - {x};
        MarkSound(h, roots, next, marked + {x});
      }
    }
  }

  lemma {:induction false} PathStaysIn(h: Heap, marked: set<int>, p: seq<int>)
    requires Covered(h, marked, []) && Path(h, p) && p[0] in marked
    ensures p[|p| - 1] in marked
  {
    if |p| > 1 {
      var q := p[..|p| - 1];
      PathStaysIn(h, marked, q);
      assert Edge(h, p[|p| - 2], p[|p| - 1]);
    }
  }

  /** From clear marks, marking marks exactly the reachable blocks, on any graph. */
  lemma MarkExact(h: Heap, roots: seq<Word>)
    requires Sound(h)
    ensures forall x :: x in Mark(h, roots, {}) <==> Reachable(h, roots, x)
  {
    hide Mark;
    var marked := Mark(h, roots, {});
    forall y | y in h && Ptr(y) in roots ensures Reachable(h, roots, y) { ReachableRoot(h, roots, y); }
    MarkSound(h, roots, roots, {});
    MarkComplete(h, roots, {});
    forall x | Reachable(h, roots, x)
      ensures x in marked
    {
      var p :| Path(h, p) && Ptr(p[0]) in roots && p[|p| - 1] == x;
      PathStaysIn(h, marked, p);
    }
  }

  /** Sets the clear marks of the blocks with payloads at `s`. */
  ghost function Paint(h: Headers, s: set<int>): Headers {
    map b | b in h :: if h[b].mark == 0 && b + HEADER in s then h[b].(mark := 1) else h[b]
  }

  ghost function Marked(h: Headers, heap: Heap): set<int> {
    set x | x in heap && x - HEADER in h && h[x - HEADER].mark != 0
  }

  /** The heap is what the allocated blocks hold. */
  ghost predicate Stored(heap: Heap, h: Headers, bs: seq<int>)
    requires Tiled(h, bs)
  {
    && (forall x :: x in heap <==> x - HEADER in Allocated(h, bs))
    && (forall x :: x in heap ==> x - HEADER in h && h[x - HEADER].size == HEADER + 8 * |heap[x].words|)
  }

  lemma StoredInside(heap: Heap, h: Headers, bs: seq<int>, x: int)
    requires Tiled(h, bs) && Stored(heap, h, bs) && Sound(heap) && x in heap
    ensures bs[0] < x < bs[|bs| - 1]
  {
    assert x - HEADER in Allocated(h, bs);
    var i :| 0 <= i < |bs| - 1 && bs[i] == x - HEADER;
    NextBlock(h, bs, i);
    if i > 0 { Increasing(h, bs, 0, i); }
    if i + 1 < |bs| - 1 { Increasing(h, bs, i + 1, |bs| - 1); }
  }

  lemma PaintNothing(h: Headers, heap: Heap)
    ensures Paint(h, Marked(h, heap)) == h
  {
  }

  lemma PaintTwice(h: Headers, s: set<int>, t: set<int>)
    requires s <= t
    ensures Paint(Paint(h, s), t) == Paint(h, t)
  {
  }

  lemma Shrinks(all: set<int>, s: set<int>, t: set<int>)
    requires s <= t
    ensures |all - t| <= |all - s|
  {
    assert all - s == (all - t) + (all * t - s);
  }

  lemma Fewer(all: set<int>, s: set<int>, x: int)
    requires x in all && x !in s
    ensures |all - (s + {x})| < |all - s|
  {
    assert all - s == (all - (s + {x})) + {x};
  }

  lemma InHeap(heap: Heap, h: Headers, bs: seq<int>, p: int)
    requires Tiled(h, bs) && Stored(heap, h, bs) && p in heap
    ensures p - HEADER in h
  {
  }

  /** A word that is no pointer into the space marks nothing. */
  lemma MarkOutside(heap: Heap, h: Headers, bs: seq<int>, w: Word, m: set<int>)
    requires Tiled(h, bs) && Stored(heap, h, bs) && Sound(heap)
    requires w.Raw? || w.at < bs[0] || w.at >= bs[|bs| - 1]
    ensures Mark(heap, [w], m) == m
  {
    if w.Ptr? && w.at in heap { StoredInside(heap, h, bs, w.at); }
    MarkStep(heap, [w], m);
    MarkStep(heap, [w][1..], m);
  }

  lemma MarkOne(heap: Heap, p: int, m: set<int>)
    requires Sound(heap) && p in heap
    ensures if p in m then Mark(heap, [Ptr(p)], m) == m
            else Mark(heap, [Ptr(p)], m) == Mark(heap, Elements(heap, heap[p]), Mark(heap, Followed(heap[p]), m + {p}))
  {
    MarkStep(heap, [Ptr(p)], m);
    var rest := [Ptr(p)][1..];
    MarkStep(heap, rest, m);
    assert Children(heap, p) + rest == Followed(heap[p]) + Elements(heap, heap[p]);
    if p !in m { MarkAppend(heap, Followed(heap[p]), Elements(heap, heap[p]), m + {p}); }
  }

  lemma MarkHeader(h: Headers, heap: Heap, p: int)
    requires p in heap && p - HEADER in h
    ensures p in Marked(h, heap) <==> h[p - HEADER].mark != 0
    ensures h[p - HEADER].mark == 0 ==>
              var h' := h[p - HEADER := h[p - HEADER].(mark := 1)];
              Marked(h', heap) == Marked(h, heap) + {p} && h' == Paint(h, Marked(h, heap) + {p})
  {
  }

  lemma StoredStays(heap: Heap, h: Headers, h': Headers, bs: seq<int>)
    requires Tiled(h, bs) && Stored(heap, h, bs) && SameBlocks(h, h')
    ensures Tiled(h', bs) && Stored(heap, h', bs)
  {
    MarksAreFree(h, h', bs, |bs| - 1);
  }

  lemma OneTraceable(heap: Heap, lo: int, hi: int, w: Word)
    requires Traceable(heap, lo, hi, [w]) && w.Ptr? && lo <= w.at < hi
    ensures w.at in heap
  {
    assert [w][0] == w;
  }

  lemma FollowedTraceable(heap: Heap, lo: int, hi: int, p: int)
    requires Closed(heap, lo, hi) && p in heap
    ensures WellFormed(heap[p]) && (HasData(heap[p]) && heap[p].count > 0 ==> DataFits(heap, heap[p]))
    ensures Traceable(heap, lo, hi, Followed(heap[p])) && Traceable(heap, lo, hi, Elements(heap, heap[p]))
  {
    var b := heap[p];
    if HasData(b) && b.count > 0 {
      var d := b.words[1].at;
      forall i | 0 <= i < b.count
        ensures Elements(heap, b)[i] == Followed(heap[d])[i]
      {
        assert MarkSlots(heap[d])[i] == i;
      }
    }
  }

  ghost function Reached(h: Heap, roots: seq<Word>): Heap {
    map x | x in h && Reachable(h, roots, x) :: h[x]
  }

  /** The entries of `s` that are in `live`, in order. */
  ghost function Only(s: seq<int>, live: set<int>): seq<int> {
    if |s| == 0 then []
    else Only(s[..|s| - 1], live) + if s[|s| - 1] in live then [s[|s| - 1]] else []
  }

  ghost predicate Merged(h: Headers, bs: seq<int>)
    requires Tiled(h, bs)
  {
    forall j :: 0 < j < |bs| - 1 ==> !h[bs[j - 1]].free || !h[bs[j]].free
  }

  /** Marking in two rounds marks what either round can reach. */
  lemma MarkedReached(h: Heap, roots: seq<Word>, late: seq<Word>)
    requires Sound(h)
    ensures Mark(h, roots, {}) == Reached(h, roots).Keys
    ensures Mark(h, late, Mark(h, roots, {})) == Reached(h, roots + late).Keys
  {
    hide Mark;
    MarkExact(h, roots);
    MarkExact(h, roots + late);
    MarkAppend(h, roots, late, {});
    ReachedKeys(h, roots, Mark(h, roots, {}));
    ReachedKeys(h, roots + late, Mark(h, roots + late, {}));
  }

  lemma ReachedKeys(h: Heap, roots: seq<Word>, m: set<int>)
    requires forall x :: x in m <==> Reachable(h, roots, x)
    ensures m == Reached(h, roots).Keys
  {
    forall x | x in m ensures x in Reached(h, roots).Keys { InReach(h, roots, x); }
  }

  lemma InReach(h: Heap, ws: seq<Word>, x: int)
    requires Reachable(h, ws, x)
    ensures x in h
  {
    var p :| Path(h, p) && Ptr(p[0]) in ws && p[|p| - 1] == x;
    if |p| > 1 { assert Edge(h, p[|p| - 2], p[|p| - 1]); }
  }

  /** What can be reached refers only to what can be reached. */
  lemma ReachedClosed(h: Heap, roots: seq<Word>, lo: int, hi: int)
    requires Closed(h, lo, hi)
    ensures Closed(Reached(h, roots), lo, hi)
  {
    hide MarkSlots, Path, Reachable, Edge;
    var g := Reached(h, roots);
    forall x | x in g
      ensures Traceable(g, lo, hi, Followed(g[x]))
    {
      forall y | y in h && Ptr(y) in Followed(h[x])
        ensures y in g
      {
        EdgeIff(h, x, y);
        ReachableStep(h, roots, x, y);
      }
    }
    forall x | x in g && HasData(g[x]) && g[x].count > 0
      ensures DataFits(g, g[x])
    {
      DataEdge(h, x);
      ReachableStep(h, roots, x, h[x].words[1].at);
    }
  }

  lemma DataEdge(h: Heap, x: int)
    requires Sound(h) && x in h && HasData(h[x]) && h[x].count > 0
    ensures h[x].words[1].Ptr? && Edge(h, x, h[x].words[1].at)
  {
    assert Readable(h[x], 1);
  }

  lemma {:induction false} OnlyThose(s: seq<int>, live: set<int>)
    ensures forall x :: x in Only(s, live) ==> x in live
  {
    if |s| > 0 { OnlyThose(s[..|s| - 1], live); }
  }

  /** The sweep leaves the marked part of the heap in place. */
  lemma SweptHeap(heap: Heap, h: Headers, bs: seq<int>, live: Heap)
    requires Tiled(h, bs) && Stored(heap, h, bs)
    requires live == map x | x in heap && x in Marked(h, heap) :: heap[x]
    ensures var n := |bs| - 1;
            var g, out := Swept(h, bs, n), Kept(h, bs, n) + [bs[n]];
            && Tiled(g, out) && Stored(live, g, out) && Marked(g, live) == {} && Merged(g, out)
            && (forall x :: x in live ==> g[x - HEADER] == Header(h[x - HEADER].size, false, 0))
  {
    hide Swept, Kept, Garbage, FreeBytes, Stored, Marked;
    SweepExact(h, bs);
    var n := |bs| - 1;
    LiveStored(heap, h, bs, live, Swept(h, bs, n), Kept(h, bs, n) + [bs[n]]);
  }

  lemma LiveStored(heap: Heap, h: Headers, bs: seq<int>, live: Heap, g: Headers, out: seq<int>)
    requires Tiled(h, bs) && Stored(heap, h, bs) && Tiled(g, out)
    requires live == map x | x in heap && x in Marked(h, heap) :: heap[x]
    requires Allocated(g, out) == (set b | b in Allocated(h, bs) && h[b].mark != 0)
    requires forall b :: b in Allocated(g, out) ==> b in h && b in g && g[b] == Header(h[b].size, false, 0)
    ensures Stored(live, g, out) && Marked(g, live) == {}
    ensures forall x :: x in live ==>
              x - HEADER in h && x - HEADER in g && g[x - HEADER] == Header(h[x - HEADER].size, false, 0)
  {
    hide Tiled, Allocated;
  }

  /** What survives keeps everything that the program can get at through it. */
  lemma KeepsReadable(h: Heap, roots: seq<Word>, x: int, k: int)
    requires Sound(h) && x in Reached(h, roots) && Readable(h[x], k) && h[x].words[k].Ptr? && h[x].words[k].at in h
    ensures h[x].words[k].at in Reached(h, roots)
  {
    hide Fields, Trailing, Reachable;
    ReachableStep(h, roots, x, h[x].words[k].at);
  }

  lemma InReached(h: Heap, roots: seq<Word>, x: int)
    requires x in Reached(h, roots)
    ensures x in h && Reached(h, roots)[x] == h[x]
  {
  }

  lemma SoundOf(h: Heap, lo: int, hi: int)
    requires Closed(h, lo, hi)
    ensures Sound(h)
  {
  }

  lemma LiveIsReached(heap: Heap, roots: seq<Word>, live: Heap, m: set<int>)
    requires m == Reached(heap, roots).Keys && live == map x | x in heap && x in m :: heap[x]
    ensures live == Reached(heap, roots)
  {
  }

  lemma PaintedSizes(h: Headers, s: set<int>, x: int)
    requires x - HEADER in Paint(h, s)
    ensures x - HEADER in h && Paint(h, s)[x - HEADER].size == h[x - HEADER].size
  {
  }

  class MajorCollector {
    const space: OldSpace
    var blocks: Heap
    var roots: seq<Word>
    var lateRoots: seq<Word>  // thread pool, sockets and event loop: visited last
    var interned: seq<int>

    ghost predicate Valid()
      reads this, space
    {
      && space.Valid() && Stored(blocks, space.headers, space.walk)
      && Closed(blocks, space.start, space.end)
    }

    /** An empty heap over `space`. */
    constructor (space: OldSpace)
      requires space.Valid() && Allocated(space.headers, space.walk) == {}
      ensures Valid() && this.space == space && blocks == map[] && roots == [] && lateRoots == [] && interned == []
    {
      this.space := space;
      blocks, roots, lateRoots, interned := map[], [], [], [];
    }

    method MarkValue(w: Word)
      requires Valid() && Traceable(blocks, space.start, space.end, [w])
      modifies space`headers
      ensures Valid() && space.walk == old(space.walk)
      ensures Marked(space.headers, blocks) == Mark(blocks, [w], old(Marked(space.headers, blocks)))
      ensures space.headers == Paint(old(space.headers), Marked(space.headers, blocks))
      decreases |blocks.Keys - Marked(space.headers, blocks)|, 0
    {
      hide Mark, Paint, Marked, Stored, Tiled, FreeBytes, Sound, WellFormed, DataFits, Followed, Elements, Traceable;
      ghost var h, m := space.headers, Marked(space.headers, blocks);
      if w.Ptr? && space.start <= w.at < space.end { OneTraceable(blocks, space.start, space.end, w); }
      PaintNothing(h, blocks);
      if w.Raw? || w.at < space.start || w.at >= space.end {
        MarkOutside(blocks, space.headers, space.walk, w, m);
        return;
      }
      var p := w.at;
      InHeap(blocks, space.headers, space.walk, p);
      MarkOne(blocks, p, m);
      assert p in m <==> space.headers[p - HEADER].mark != 0 by { MarkHeader(space.headers, blocks, p); }
      if space.headers[p - HEADER].mark != 0 {
        return;
      }
      MarkBlock(p);
      Fewer(blocks.Keys, m, p);
      MarkChildren(p);
      PaintTwice(h, m + {p}, Marked(space.headers, blocks));
    }

    /** Sets the clear mark of the block at `p`. */
    method MarkBlock(p: int)
      requires Valid() && p in blocks && p !in Marked(space.headers, blocks)
      modifies space`headers
      ensures Valid()
      ensures Marked(space.headers, blocks) == old(Marked(space.headers, blocks)) + {p}
      ensures space.headers == Paint(old(space.headers), Marked(space.headers, blocks))
    {
      hide Paint, Marked, Stored, Tiled, FreeBytes, Closed;
      ghost var h := space.headers;
      InHeap(blocks, h, space.walk, p);
      MarkHeader(h, blocks, p);
      space.SetMark(p - HEADER, 1);
      StoredStays(blocks, h, space.headers, space.walk);
    }

    /** Marks what the block at `p` refers to. */
    method MarkChildren(p: int)
      requires Valid() && p in blocks
      modifies space`headers
      ensures Valid() && space.walk == old(space.walk)
      ensures Marked(space.headers, blocks) ==
              Mark(blocks, Elements(blocks, blocks[p]),
                   Mark(blocks, Followed(blocks[p]), old(Marked(space.headers, blocks))))
      ensures space.headers == Paint(old(space.headers), Marked(space.headers, blocks))
      decreases |blocks.Keys - Marked(space.headers, blocks)|, 2
    {
      FollowedTraceable(blocks, space.start, space.end, p);
      hide Mark, Paint, Marked, Stored, Tiled, FreeBytes, Sound, WellFormed, DataFits, Followed, Elements, Traceable;
      ghost var h, m := space.headers, Marked(space.headers, blocks);
      MarkWords(Followed(blocks[p]));
      ghost var m1 := Marked(space.headers, blocks);
      Shrinks(blocks.Keys, m, m1);
      MarkWords(Elements(blocks, blocks[p]));
      PaintTwice(h, m1, Marked(space.headers, blocks));
    }

    method MarkWords(ws: seq<Word>)
      requires Valid() && Traceable(blocks, space.start, space.end, ws)
      modifies space`headers
      ensures Valid() && space.walk == old(space.walk)
      ensures Marked(space.headers, blocks) == Mark(blocks, ws, old(Marked(space.headers, blocks)))
      ensures space.headers == Paint(old(space.headers), Marked(space.headers, blocks))
      decreases |blocks.Keys - Marked(space.headers, blocks)|, 1
    {
      hide Mark, Paint, Marked, Stored, Tiled, FreeBytes, Sound;
      ghost var h, m := space.headers, Marked(space.headers, blocks);
      PaintNothing(h, blocks);
      MarkStep(blocks, [], m);
      for i := 0 to |ws|
        invariant Valid() && space.walk == old(space.walk)
        invariant Marked(space.headers, blocks) == Mark(blocks, ws[..i], m)
        invariant space.headers == Paint(h, Marked(space.headers, blocks))
      {
        assert ws[..i + 1] == ws[..i] + [ws[i]];
        MarkAppend(blocks, ws[..i], [ws[i]], m);
        ghost var m1 := Marked(space.headers, blocks);
        assert |blocks.Keys - m1| <= |blocks.Keys - m| by { Shrinks(blocks.Keys, m, m1); }
        MarkValue(ws[i]);
        PaintTwice(h, m1, Marked(space.headers, blocks));
      }
      assert ws[..|ws|] == ws;
    }

    /** Drops the unmarked entries of the table of interned strings. */
    method ClearInterned()
      requires Valid() && forall x :: x in interned ==> x in blocks
      modifies this`interned
      ensures Valid() && interned == Only(old(interned), Marked(space.headers, blocks))
    {
      hide Tiled, FreeBytes, Closed;
      var kept := [];
      for i := 0 to |interned|
        invariant interned == old(interned) && kept == Only(interned[..i], Marked(space.headers, blocks))
      {
        assert interned[..i + 1][..i] == interned[..i];
        InHeap(blocks, space.headers, space.walk, interned[i]);
        if space.headers[interned[i] - HEADER].mark != 0 {
          kept := kept + [interned[i]];
        }
      }
      assert interned[..|interned|] == interned;
      interned := kept;
    }

    /** A full collection over a heap whose nursery is empty and whose marks are clear. */
    method Collect()
      requires Valid() && Marked(space.headers, blocks) == {}
      requires Traceable(blocks, space.start, space.end, roots) && Traceable(blocks, space.start, space.end, lateRoots)
      requires forall x :: x in interned ==> x in blocks
      modifies this`blocks, this`interned, space
      ensures Valid() && Marked(space.headers, blocks) == {}
      ensures blocks == Reached(old(blocks), roots + lateRoots)
      ensures forall x, k :: x in blocks && Readable(blocks[x], k) && blocks[x].words[k].Ptr? ==>
                blocks[x].words[k].at in old(blocks) ==> blocks[x].words[k].at in blocks
      ensures forall x :: x in blocks ==>
                space.headers[x - HEADER] == Header(old(space.headers)[x - HEADER].size, false, 0)
      ensures Merged(space.headers, space.walk)
      ensures interned == Only(old(interned), Reached(old(blocks), roots).Keys)
      ensures forall x :: x in interned ==> x in blocks
    {
      hide Mark, Paint, Marked, Stored, Tiled, FreeBytes, Closed, Only, Traceable, Merged, Swept, Kept, Reached;
      ghost var heap, h := blocks, space.headers;
      MarkBoth();
      ghost var painted, walk, m := space.headers, space.walk, Marked(space.headers, blocks);
      var live := Survivors();
      ReachedClosed(heap, roots + lateRoots, space.start, space.end);
      SweptHeap(heap, painted, walk, live);
      LiveIsReached(heap, roots + lateRoots, live, m);
      forall x | x in live
        ensures x - HEADER in painted && x - HEADER in h && painted[x - HEADER].size == h[x - HEADER].size
      {
        InHeap(heap, painted, walk, x);
        PaintedSizes(h, m, x);
      }
      forall x, k | x in live && Readable(live[x], k) && live[x].words[k].Ptr? && live[x].words[k].at in heap
        ensures live[x].words[k].at in live
      {
        SoundOf(heap, space.start, space.end);
        InReached(heap, roots + lateRoots, x);
        KeepsReadable(heap, roots + lateRoots, x, k);
      }
      space.Sweep();
      blocks := live;
    }

    /** Marks from all roots; the interned strings are looked at before the late ones. */
    method MarkBoth()
      requires Valid() && Marked(space.headers, blocks) == {}
      requires Traceable(blocks, space.start, space.end, roots) && Traceable(blocks, space.start, space.end, lateRoots)
      requires forall x :: x in interned ==> x in blocks
      modifies this`interned, space`headers
      ensures Valid() && Marked(space.headers, blocks) == Reached(blocks, roots + lateRoots).Keys
      ensures space.headers == Paint(old(space.headers), Marked(space.headers, blocks))
      ensures interned == Only(old(interned), Reached(blocks, roots).Keys)
      ensures forall x :: x in interned ==> x in Marked(space.headers, blocks)
    {
      hide Mark, Paint, Marked, Stored, Tiled, FreeBytes, Only, Traceable, Sound, Reached;
      ghost var h := space.headers;
      MarkWords(roots);
      ClearInterned();
      ghost var m := Marked(space.headers, blocks);
      OnlyThose(old(interned), m);
      MarkWords(lateRoots);
      PaintTwice(h, m, Marked(space.headers, blocks));
      MarkedReached(blocks, roots, lateRoots);
    }

    /** The marked part of the heap. */
    method Survivors() returns (live: Heap)
      requires Valid()
      ensures live == map x | x in blocks && x in Marked(space.headers, blocks) :: blocks[x]
    {
      live := map x | x in blocks && space.headers[x - HEADER].mark != 0 :: blocks[x];
    }
  }
}
