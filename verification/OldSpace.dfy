/** The old space of the heap: a next-fit allocator over blocks that tile a region,
    and the sweep that frees unmarked blocks and merges free neighbours. */
module OldSpaces {
  const HEADER := 8
  /** The smallest remainder worth a block of its own. */
  const SPLIT := HEADER + 8

  datatype Header = Header(size: int, free: bool, mark: int)

  type Headers = map<int, Header>

  /** Bytes of a block with a payload of `size` bytes: header added, rounded up to words. */
  function Total(size: nat): (t: int)
    ensures t % 8 == 0 && HEADER + size <= t < HEADER + size + 8
  {
    (HEADER + size + 7) / 8 * 8
  }

  /** Block `i` of the walk ends where the next one begins. */
  ghost predicate Tile(h: Headers, bs: seq<int>, i: int)
    requires 0 <= i < |bs| - 1 && bs[i] in h
  {
    h[bs[i]].size > 0 && h[bs[i]].size % 8 == 0 && bs[i] + h[bs[i]].size == bs[i + 1]
  }

  /** `bs` are the addresses met on a walk from block to block, the end included. */
  ghost predicate Tiled(h: Headers, bs: seq<int>) {
    && |bs| >= 2
    && (forall i :: 0 <= i < |bs| - 1 ==> bs[i] in h)
    && (forall i :: 0 <= i < |bs| - 1 ==> Tile(h, bs, i))
  }

  ghost predicate OnBlock(bs: seq<int>, p: int) {
    exists i :: 0 <= i < |bs| - 1 && bs[i] == p
  }

  /** Bytes in free blocks among the first `n` of the walk. */
  ghost function FreeBytes(h: Headers, bs: seq<int>, n: nat): int
    requires n <= |bs| && forall i :: 0 <= i < n ==> bs[i] in h
  {
    if n == 0 then 0
    else FreeBytes(h, bs, n - 1) + if h[bs[n - 1]].free then h[bs[n - 1]].size else 0
  }

  ghost function Allocated(h: Headers, bs: seq<int>): set<int>
    requires Tiled(h, bs)
  {
    set i | 0 <= i < |bs| - 1 && !h[bs[i]].free :: bs[i]
  }

  lemma {:induction false} Increasing(h: Headers, bs: seq<int>, i: nat, j: nat)
    requires Tiled(h, bs) && i < j < |bs|
    ensures bs[i] < bs[j]
  {
    if i + 1 < j { Increasing(h, bs, i, j - 1); }
    assert Tile(h, bs, j - 1);
  }

  lemma WithinEnd(h: Headers, bs: seq<int>)
    requires Tiled(h, bs)
    ensures forall i :: 0 <= i < |bs| - 1 ==> bs[i] < bs[|bs| - 1]
  {
    forall i | 0 <= i < |bs| - 1 ensures bs[i] < bs[|bs| - 1] { Increasing(h, bs, i, |bs| - 1); }
  }

  lemma NextBlock(h: Headers, bs: seq<int>, i: nat)
    requires Tiled(h, bs) && i < |bs| - 1
    ensures bs[i] + h[bs[i]].size == bs[i + 1]
  {
    assert Tile(h, bs, i);
  }

  /** Blocks of the walk are pairwise disjoint. */
  lemma Disjoint(h: Headers, bs: seq<int>, i: nat, j: nat)
    requires Tiled(h, bs) && i < |bs| - 1 && j < |bs| - 1 && i != j
    ensures bs[i] != bs[j]
    ensures bs[i] + h[bs[i]].size <= bs[j] || bs[j] + h[bs[j]].size <= bs[i]
  {
    assert Tile(h, bs, i) && Tile(h, bs, j);
    if i < j {
      if i + 1 < j { Increasing(h, bs, i + 1, j); }
    } else if j + 1 < i { Increasing(h, bs, j + 1, i); }
  }

  lemma {:induction false} SameFreeBytes(h: Headers, bs: seq<int>, h': Headers, bs': seq<int>, n: nat)
    requires n <= |bs| && n <= |bs'|
    requires forall i :: 0 <= i < n ==> bs[i] in h && bs'[i] == bs[i] && bs[i] in h' && h'[bs[i]] == h[bs[i]]
    ensures FreeBytes(h', bs', n) == FreeBytes(h, bs, n)
  {
    if n > 0 { SameFreeBytes(h, bs, h', bs', n - 1); }
  }

  ghost predicate Fitting(h: Headers, bs: seq<int>, i: int, total: int)
    requires Tiled(h, bs) && 0 <= i < |bs| - 1
  {
    h[bs[i]].free && h[bs[i]].size >= total
  }

  /** `k` is the first block from `c` on, around the end, that fits. */
  ghost predicate NextFit(h: Headers, bs: seq<int>, c: nat, k: nat, total: int)
    requires Tiled(h, bs) && c < |bs| - 1 && k < |bs| - 1
  {
    && Fitting(h, bs, k, total)
    && forall i :: 0 <= i < |bs| - 1 && Skipped(c, k, i) ==> !Fitting(h, bs, i, total)
  }

  /** Position `i` comes before `k` in the cyclic order that begins at `c`. */
  ghost predicate Skipped(c: int, k: int, i: int) {
    if c <= k then c <= i < k else i >= c || i < k
  }

  /** The headers after the free block `b` is handed out. */
  function Claim(h: Headers, b: int, total: int): Headers
    requires b in h
  {
    if h[b].size - total >= SPLIT
    then h[b + total := Header(h[b].size - total, true, 0)][b := Header(total, false, 0)]
    else h[b := Header(h[b].size, false, 0)]
  }

  ghost function ClaimWalk(h: Headers, bs: seq<int>, k: nat, total: int): seq<int>
    requires k < |bs| && bs[k] in h
  {
    if h[bs[k]].size - total >= SPLIT then bs[..k + 1] + [bs[k] + total] + bs[k + 1..] else bs
  }

  /** Bytes of the claimed block beyond those asked for. */
  ghost function Remainder(h: Headers, b: int, total: int): int
    requires b in h
  {
    if h[b].size - total >= SPLIT then 0 else h[b].size - total
  }

  /** The headers of all other blocks stay as they are. */
  lemma ClaimKeeps(h: Headers, bs: seq<int>, k: nat, total: int, i: nat)
    requires Tiled(h, bs) && k < |bs| - 1 && Fitting(h, bs, k, total) && total > 0
    requires i < |bs| - 1 && i != k
    ensures var h' := Claim(h, bs[k], total); bs[i] in h' && h'[bs[i]] == h[bs[i]]
  {
    Disjoint(h, bs, i, k);
    assert Tile(h, bs, k) && Tile(h, bs, i);
    assert h[bs[k]].size - total >= SPLIT ==> bs[i] != bs[k] + total;
  }

  /** Where the blocks are in the walk after block `k` is handed out. */
  ghost predicate Shifted(bs: seq<int>, bs': seq<int>, k: nat)
    requires |bs| <= |bs'|
  {
    forall i {:trigger bs[i]} :: 0 <= i < |bs| ==> bs'[if i <= k then i else i + (|bs'| - |bs|)] == bs[i]
  }

  /** Handing out a block keeps the tiling and every other block. */
  lemma ClaimTiled(h: Headers, bs: seq<int>, k: nat, total: int)
    requires Tiled(h, bs) && k < |bs| - 1 && Fitting(h, bs, k, total) && total > 0 && total % 8 == 0
    ensures var h', bs' := Claim(h, bs[k], total), ClaimWalk(h, bs, k, total);
            && Tiled(h', bs') && |bs| <= |bs'| <= |bs| + 1 && Shifted(bs, bs', k)
            && !h'[bs[k]].free && h'[bs[k]].size == total + Remainder(h, bs[k], total)
            && (|bs'| == |bs| ==> h'[bs[k]].size == h[bs[k]].size)
            && (|bs'| > |bs| ==> h'[bs'[k + 1]] == Header(h[bs[k]].size - total, true, 0)
                                 && Remainder(h, bs[k], total) == 0)
  {
    hide Claim, ClaimWalk, Tile;
    ClaimShape(h, bs, k, total);
    var bs' := ClaimWalk(h, bs, k, total);
    forall i | 0 <= i < |bs'| - 1
      ensures bs'[i] in Claim(h, bs[k], total) && Tile(Claim(h, bs[k], total), bs', i)
    {
      ClaimTile(h, bs, k, total, i);
    }
  }

  lemma ClaimTile(h: Headers, bs: seq<int>, k: nat, total: int, i: nat)
    requires Tiled(h, bs) && k < |bs| - 1 && Fitting(h, bs, k, total) && total > 0 && total % 8 == 0
    requires i < |ClaimWalk(h, bs, k, total)| - 1
    ensures var h', bs' := Claim(h, bs[k], total), ClaimWalk(h, bs, k, total); bs'[i] in h' && Tile(h', bs', i)
  {
    hide Claim, ClaimWalk, Shifted;
    ClaimShape(h, bs, k, total);
    var h', bs' := Claim(h, bs[k], total), ClaimWalk(h, bs, k, total);
    assert Tile(h, bs, k);
    var j := if i <= k then i else i + |bs| - |bs'|;
    if j != k {
      ShiftedAt(bs, bs', k, j);
      ShiftedAt(bs, bs', k, j + 1);
      ClaimKeeps(h, bs, k, total, j);
      assert Tile(h, bs, j);
    } else {
      ShiftedAt(bs, bs', k, k);
      ShiftedAt(bs, bs', k, k + 1);
    }
  }

  lemma ShiftedAt(bs: seq<int>, bs': seq<int>, k: nat, i: nat)
    requires |bs| <= |bs'| && Shifted(bs, bs', k) && i < |bs|
    ensures bs'[if i <= k then i else i + (|bs'| - |bs|)] == bs[i]
  {
  }

  /** Where the claimed block and its remainder are. */
  lemma ClaimShape(h: Headers, bs: seq<int>, k: nat, total: int)
    requires Tiled(h, bs) && k < |bs| - 1 && Fitting(h, bs, k, total) && total > 0
    ensures var h', bs' := Claim(h, bs[k], total), ClaimWalk(h, bs, k, total);
            && |bs| <= |bs'| <= |bs| + 1 && Shifted(bs, bs', k)
            && bs[k] in h' && !h'[bs[k]].free && h'[bs[k]].size == total + Remainder(h, bs[k], total)
            && (|bs'| == |bs| ==> bs' == bs && h'[bs[k]].size == h[bs[k]].size)
            && (|bs'| > |bs| ==>
                  && bs'[k + 1] == bs[k] + total && bs'[k + 1] in h'
                  && h'[bs'[k + 1]] == Header(h[bs[k]].size - total, true, 0)
                  && h[bs[k]].size - total >= SPLIT && Remainder(h, bs[k], total) == 0)
  {
  }

  /** One more block is allocated, namely the claimed one, which overlaps no live one. */
  lemma ClaimAllocated(h: Headers, bs: seq<int>, k: nat, total: int)
    requires Tiled(h, bs) && k < |bs| - 1 && Fitting(h, bs, k, total) && total > 0 && total % 8 == 0
    ensures Tiled(Claim(h, bs[k], total), ClaimWalk(h, bs, k, total))
    ensures bs[k] !in Allocated(h, bs)
    ensures Allocated(Claim(h, bs[k], total), ClaimWalk(h, bs, k, total)) == Allocated(h, bs) + {bs[k]}
    ensures forall b :: b in Allocated(h, bs) ==>
              b in h && (b + h[b].size <= bs[k] || bs[k] + h[bs[k]].size <= b)
  {
    hide Claim, ClaimWalk, Tile, Remainder;
    ClaimTiled(h, bs, k, total);
    var h', bs' := Claim(h, bs[k], total), ClaimWalk(h, bs, k, total);
    var d := |bs'| - |bs|;
    forall x | x in Allocated(h, bs)
      ensures x in Allocated(h', bs') && (x + h[x].size <= bs[k] || bs[k] + h[bs[k]].size <= x)
    {
      var i :| 0 <= i < |bs| - 1 && !h[bs[i]].free && bs[i] == x;
      ClaimKeeps(h, bs, k, total, i);
      Disjoint(h, bs, i, k);
      var j := if i <= k then i else i + d;
      assert bs'[j] == x;
    }
    forall x | x in Allocated(h', bs') && x != bs[k]
      ensures x in Allocated(h, bs)
    {
      var i :| 0 <= i < |bs'| - 1 && !h'[bs'[i]].free && bs'[i] == x;
      var j := if i <= k then i else i - d;
      if j != k {
        assert bs[j] == x;
        ClaimKeeps(h, bs, k, total, j);
      }
    }
    assert bs'[k] == bs[k];
  }

  /** No block can be handed out for `total` bytes. */
  ghost predicate Full(h: Headers, bs: seq<int>, total: int) {
    Tiled(h, bs) && forall i :: 0 <= i < |bs| - 1 ==> !Fitting(h, bs, i, total)
  }

  /** Some free block has `n` bytes, unless none are asked for. */
  ghost predicate Room(h: Headers, bs: seq<int>, n: int) {
    Tiled(h, bs) && (n == 0 || exists i :: 0 <= i < |bs| - 1 && Fitting(h, bs, i, n))
  }

  lemma RoomNotFull(h: Headers, bs: seq<int>, total: int, n: nat)
    requires Room(h, bs, total + n) && total > 0
    ensures Tiled(h, bs) && !Full(h, bs, total)
  {
    var i :| 0 <= i < |bs| - 1 && Fitting(h, bs, i, total + n);
    assert Fitting(h, bs, i, total);
  }

  /** Whichever block is handed out for `total` bytes, room for the rest is left. */
  lemma ClaimRoom(h: Headers, bs: seq<int>, k: nat, total: int, n: int)
    requires Room(h, bs, total + n) && k < |bs| - 1 && Fitting(h, bs, k, total) && total > 0 && total % 8 == 0
    requires n == 0 || n >= SPLIT
    ensures Room(Claim(h, bs[k], total), ClaimWalk(h, bs, k, total), n)
  {
    hide Claim, ClaimWalk, Tile, Remainder;
    ClaimTiled(h, bs, k, total);
    var h', bs' := Claim(h, bs[k], total), ClaimWalk(h, bs, k, total);
    if n > 0 {
      var j :| 0 <= j < |bs| - 1 && Fitting(h, bs, j, total + n);
      if j == k {
        ClaimSplits(h, bs, k, total);
        assert Fitting(h', bs', k + 1, n);
      } else {
        ClaimKeeps(h, bs, k, total, j);
        var i := if j <= k then j else j + (|bs'| - |bs|);
        assert bs'[i] == bs[j];
        assert Fitting(h', bs', i, n);
      }
    }
  }

  lemma ClaimSplits(h: Headers, bs: seq<int>, k: nat, total: int)
    requires Tiled(h, bs) && k < |bs| - 1 && h[bs[k]].size - total >= SPLIT
    ensures |ClaimWalk(h, bs, k, total)| == |bs| + 1
  {
  }

  /** The free bytes fall by the block handed out, its remainder included. */
  lemma {:induction false} ClaimFreeBytes(h: Headers, bs: seq<int>, k: nat, total: int, n: nat)
    requires Tiled(h, bs) && k < n < |bs| && Fitting(h, bs, k, total) && total > 0 && total % 8 == 0
    ensures var h', bs' := Claim(h, bs[k], total), ClaimWalk(h, bs, k, total);
            && Tiled(h', bs') && |bs'| >= |bs|
            && FreeBytes(h', bs', n + |bs'| - |bs|) == FreeBytes(h, bs, n) - total - Remainder(h, bs[k], total)
  {
    hide Claim, ClaimWalk, Tile;
    ClaimTiled(h, bs, k, total);
    var h', bs' := Claim(h, bs[k], total), ClaimWalk(h, bs, k, total);
    var d := |bs'| - |bs|;
    if n == k + 1 {
      forall i | 0 <= i < k
        ensures bs'[i] == bs[i] && bs[i] in h' && h'[bs[i]] == h[bs[i]]
      {
        ClaimKeeps(h, bs, k, total, i);
      }
      SameFreeBytes(h, bs, h', bs', k);
      assert bs'[k] == bs[k];
      assert FreeBytes(h', bs', k + 1) == FreeBytes(h', bs', k);
      assert d == 0 || FreeBytes(h', bs', k + 2) == FreeBytes(h', bs', k) + h[bs[k]].size - total;
      assert FreeBytes(h, bs, n) == FreeBytes(h, bs, k) + h[bs[k]].size;
    } else {
      ClaimFreeBytes(h, bs, k, total, n - 1);
      ClaimKeeps(h, bs, k, total, n - 1);
      assert bs'[n - 1 + d] == bs[n - 1];
    }
  }

  lemma Claimed(h: Headers, bs: seq<int>, k: nat, total: int)
    requires Tiled(h, bs) && k < |bs| - 1 && Fitting(h, bs, k, total) && total > 0 && total % 8 == 0
    ensures var h', bs', end := Claim(h, bs[k], total), ClaimWalk(h, bs, k, total), bs[|bs| - 1];
            && Tiled(h', bs') && |bs'| >= 2 && bs'[0] == bs[0] && bs'[|bs'| - 1] == end
            && (forall i :: 0 <= i < |bs'| - 1 ==> bs'[i] in h' && bs'[i] < end)
            && FreeBytes(h', bs', |bs'| - 1) == FreeBytes(h, bs, |bs| - 1) - total - Remainder(h, bs[k], total)
            && bs[k] in h && bs[k] in h' && OnBlock(bs', bs[0])
            && var next := bs[k] + h'[bs[k]].size; next == end || (next < end && OnBlock(bs', next))
  {
    hide Claim, ClaimWalk, FreeBytes, Remainder, Tile;
    ClaimTiled(h, bs, k, total);
    ClaimFreeBytes(h, bs, k, total, |bs| - 1);
    var h', bs' := Claim(h, bs[k], total), ClaimWalk(h, bs, k, total);
    assert bs'[0] == bs[0] && bs'[|bs'| - 1] == bs[|bs| - 1] && bs'[k] == bs[k];
    WithinEnd(h', bs');
    NextBlock(h', bs', k);
  }

  /** Block `i` is free once swept. */
  ghost predicate Freed(h: Headers, bs: seq<int>, i: int)
    requires 0 <= i < |bs| && bs[i] in h
  {
    h[bs[i]].free || h[bs[i]].mark == 0
  }

  /** Block `i` disappears into the free block before it. */
  ghost predicate Absorbed(h: Headers, bs: seq<int>, i: int)
    requires Tiled(h, bs) && 0 <= i < |bs| - 1
  {
    i > 0 && Freed(h, bs, i) && Freed(h, bs, i - 1)
  }

  /** The blocks that are left of the first `n`. */
  ghost function Kept(h: Headers, bs: seq<int>, n: nat): (out: seq<int>)
    requires Tiled(h, bs) && n < |bs|
    ensures n > 0 ==> |out| > 0 && out[0] == bs[0]
    ensures forall x :: x in out ==> x in bs[..n]
  {
    if n == 0 then []
    else if Absorbed(h, bs, n - 1) then Kept(h, bs, n - 1)
    else Kept(h, bs, n - 1) + [bs[n - 1]]
  }

  /** The headers once the first `n` blocks are swept. */
  ghost function Swept(h: Headers, bs: seq<int>, n: nat): Headers
    requires Tiled(h, bs) && n < |bs|
  {
    if n == 0 then h
    else
      var g, b := Swept(h, bs, n - 1), bs[n - 1];
      var g' := g[b := Header(h[b].size, Freed(h, bs, n - 1), 0)];
      if Absorbed(h, bs, n - 1)
      then var out := Kept(h, bs, n - 1); Enlarge(g', Last(out), h[b].size)
      else g'
  }

  ghost function Enlarge(h: Headers, p: int, size: int): Headers {
    if p in h then h[p := h[p].(size := h[p].size + size)] else h
  }

  /** Bytes of unmarked allocated blocks among the first `n`. */
  ghost function Garbage(h: Headers, bs: seq<int>, n: nat): int
    requires Tiled(h, bs) && n < |bs|
  {
    if n == 0 then 0
    else Garbage(h, bs, n - 1) + if !h[bs[n - 1]].free && h[bs[n - 1]].mark == 0 then h[bs[n - 1]].size else 0
  }

  ghost function Last(s: seq<int>): int
    requires |s| > 0
  {
    s[|s| - 1]
  }

  /** Blocks not reached yet are as they were. */
  lemma {:induction false} SweptRest(h: Headers, bs: seq<int>, n: nat, j: nat)
    requires Tiled(h, bs) && n <= j < |bs| - 1
    ensures bs[j] in Swept(h, bs, n) && Swept(h, bs, n)[bs[j]] == h[bs[j]]
  {
    if n > 0 {
      SweptRest(h, bs, n - 1, j);
      Disjoint(h, bs, n - 1, j);
      if Absorbed(h, bs, n - 1) {
        var out := Kept(h, bs, n - 1);
        assert out[|out| - 1] in bs[..n - 1];
        var m :| 0 <= m < n - 1 && bs[m] == out[|out| - 1];
        Disjoint(h, bs, m, j);
      }
    }
  }

  /** What holds after `n` blocks: the kept blocks tile the swept part, are unmarked,
      and no two neighbours are free. */
  ghost predicate SweptWell(h: Headers, bs: seq<int>, n: nat)
    requires Tiled(h, bs) && 0 < n < |bs|
  {
    var g, out := Swept(h, bs, n), Kept(h, bs, n);
    && Tiled(g, out + [bs[n]])
    && (forall j :: 0 <= j < |out| ==> out[j] in g)
    && g[out[|out| - 1]].free == Freed(h, bs, n - 1)
    && (forall j :: 0 <= j < |out| ==> g[out[j]].mark == 0)
    && (forall j :: 0 < j < |out| ==> !g[out[j - 1]].free || !g[out[j]].free)
  }

  lemma {:induction false} SweptIsWell(h: Headers, bs: seq<int>, n: nat)
    requires Tiled(h, bs) && 0 < n < |bs|
    ensures SweptWell(h, bs, n)
  {
    var g, out := Swept(h, bs, n), Kept(h, bs, n);
    assert Tile(h, bs, n - 1);
    if n == 1 {
      assert Kept(h, bs, 0) == [] && Swept(h, bs, 0) == h;
      assert Tile(g, out + [bs[1]], 0);
      return;
    }
    SweptIsWell(h, bs, n - 1);
    if Absorbed(h, bs, n - 1) {
      SweptAbsorb(h, bs, n);
    } else {
      SweptAppend(h, bs, n);
    }
  }

  lemma SweptAppend(h: Headers, bs: seq<int>, n: nat)
    requires Tiled(h, bs) && 1 < n < |bs| && SweptWell(h, bs, n - 1) && !Absorbed(h, bs, n - 1)
    ensures SweptWell(h, bs, n)
  {
    var g, out := Swept(h, bs, n), Kept(h, bs, n);
    var g0, out0 := Swept(h, bs, n - 1), Kept(h, bs, n - 1);
    assert Tile(h, bs, n - 1);
    forall j | 0 <= j < |out0|
      ensures out0[j] in g && out0[j] in g0 && g[out0[j]] == g0[out0[j]] && Tile(g, out + [bs[n]], j)
    {
      assert (out0 + [bs[n - 1]])[j] == out0[j];
      Increasing(g0, out0 + [bs[n - 1]], j, |out0|);
      assert Tile(g0, out0 + [bs[n - 1]], j);
    }
    assert Tile(g, out + [bs[n]], |out0|);
  }

  lemma SweptAbsorb(h: Headers, bs: seq<int>, n: nat)
    requires Tiled(h, bs) && 1 < n < |bs| && SweptWell(h, bs, n - 1) && Absorbed(h, bs, n - 1)
    ensures SweptWell(h, bs, n)
  {
    var g, out := Swept(h, bs, n), Kept(h, bs, n);
    var g0 := Swept(h, bs, n - 1);
    var k := |out| - 1;
    assert Tile(h, bs, n - 1);
    forall j | 0 <= j < |out|
      ensures out[j] in g && out[j] in g0 && (j < k ==> g[out[j]] == g0[out[j]]) && Tile(g, out + [bs[n]], j)
    {
      assert (out + [bs[n - 1]])[j] == out[j];
      Increasing(g0, out + [bs[n - 1]], j, |out|);
      if j < k {
        assert (out + [bs[n - 1]])[k] == out[k];
        Increasing(g0, out + [bs[n - 1]], j, k);
      }
      assert Tile(g0, out + [bs[n - 1]], j);
    }
  }

  /** What one round of the sweep relies on and leaves behind. */
  lemma SweepStep(h: Headers, bs: seq<int>, i: nat)
    requires Tiled(h, bs) && i < |bs| - 1 && bs[0] > 0
    ensures var g, g', out := Swept(h, bs, i), Swept(h, bs, i + 1), Kept(h, bs, i + 1);
            && bs[i] in h && bs[i] in g && g[bs[i]] == h[bs[i]] && bs[i] < Last(bs)
            && Last(out) in g' && Last(out) + g'[Last(out)].size == bs[i + 1]
    ensures i > 0 ==> var g, prev := Swept(h, bs, i), Last(Kept(h, bs, i));
                      prev in g && 0 < prev < bs[i] && g[prev].free == Freed(h, bs, i - 1)
  {
    SweptRest(h, bs, i, i);
    WithinEnd(h, bs);
    SweptIsWell(h, bs, i + 1);
    var out := Kept(h, bs, i + 1);
    NextBlock(Swept(h, bs, i + 1), out + [bs[i + 1]], |out| - 1);
    if i > 0 {
      SweptIsWell(h, bs, i);
      var out := Kept(h, bs, i);
      assert (out + [bs[i]])[|out| - 1] == Last(out);
      Increasing(Swept(h, bs, i), out + [bs[i]], |out| - 1, |out|);
      if |out| > 1 { Increasing(Swept(h, bs, i), out + [bs[i]], 0, |out| - 1); }
    }
  }

  /** A swept block is free exactly if it was free or unmarked; a survivor keeps its size. */
  lemma {:induction false} SweptBlock(h: Headers, bs: seq<int>, n: nat, i: nat)
    requires Tiled(h, bs) && i < n < |bs|
    ensures bs[i] in Swept(h, bs, n)
    ensures var b := Swept(h, bs, n)[bs[i]];
            b.free == Freed(h, bs, i) && (!Freed(h, bs, i) ==> b == Header(h[bs[i]].size, false, 0))
  {
    if i < n - 1 {
      SweptBlock(h, bs, n - 1, i);
      Disjoint(h, bs, i, n - 1);
      if Absorbed(h, bs, n - 1) { SweptIsWell(h, bs, n - 1); }
    } else if Absorbed(h, bs, n - 1) {
      KeptBefore(h, bs, i);
    }
  }

  lemma KeptBefore(h: Headers, bs: seq<int>, i: nat)
    requires Tiled(h, bs) && 0 < i < |bs| - 1
    ensures Last(Kept(h, bs, i)) != bs[i]
  {
    var out := Kept(h, bs, i);
    assert Last(out) in bs[..i];
    var m :| 0 <= m < i && bs[m] == Last(out);
    Disjoint(h, bs, m, i);
  }

  /** The blocks that go are those absorbed by a free block before them. */
  lemma {:induction false} KeptIff(h: Headers, bs: seq<int>, n: nat, i: nat)
    requires Tiled(h, bs) && i < n < |bs|
    ensures bs[i] in Kept(h, bs, n) <==> !Absorbed(h, bs, i)
  {
    if i < n - 1 {
      KeptIff(h, bs, n - 1, i);
      Disjoint(h, bs, i, n - 1);
    } else if bs[i] in Kept(h, bs, n - 1) {
      var m :| 0 <= m < n - 1 && bs[m] == bs[i];
      Disjoint(h, bs, m, i);
    }
  }

  /** Freed bytes are gained, whether or not their blocks are merged. */
  lemma {:induction false} SweptFreeBytes(h: Headers, bs: seq<int>, n: nat)
    requires Tiled(h, bs) && 0 < n < |bs|
    ensures SweptWell(h, bs, n)
    ensures var out := Kept(h, bs, n);
            FreeBytes(Swept(h, bs, n), out, |out|) == FreeBytes(h, bs, n) + Garbage(h, bs, n)
  {
    SweptIsWell(h, bs, n);
    var g, out := Swept(h, bs, n), Kept(h, bs, n);
    if n == 1 {
      assert Kept(h, bs, 0) == [] && Swept(h, bs, 0) == h;
      assert FreeBytes(g, out, 0) == 0 && FreeBytes(h, bs, 0) == 0;
      return;
    }
    SweptFreeBytes(h, bs, n - 1);
    var g0, out0 := Swept(h, bs, n - 1), Kept(h, bs, n - 1);
    var k := |out0| - 1;
    SweptPrefix(h, bs, n);
    SameFreeBytes(g0, out0, g, out, k);
    if !Absorbed(h, bs, n - 1) {
      var last := if Freed(h, bs, n - 1) then h[bs[n - 1]].size else 0;
      assert FreeBytes(g, out, |out|) == FreeBytes(g, out, k + 1) + last;
    }
  }

  /** Sweeping one block changes none of the kept ones, except to enlarge the last. */
  lemma SweptPrefix(h: Headers, bs: seq<int>, n: nat)
    requires Tiled(h, bs) && 1 < n < |bs| && SweptWell(h, bs, n - 1)
    ensures var g, out := Swept(h, bs, n), Kept(h, bs, n);
            var g0, out0 := Swept(h, bs, n - 1), Kept(h, bs, n - 1);
            && |out0| <= |out|
            && (forall j :: 0 <= j < |out0| ==> out0[j] in g && out0[j] in g0 && out[j] == out0[j])
            && (forall j :: 0 <= j < |out0| - 1 ==> g[out0[j]] == g0[out0[j]])
            && g[Last(out0)] == if Absorbed(h, bs, n - 1)
                                then g0[Last(out0)].(size := g0[Last(out0)].size + h[bs[n - 1]].size)
                                else g0[Last(out0)]
  {
    var g, out := Swept(h, bs, n), Kept(h, bs, n);
    var g0, out0 := Swept(h, bs, n - 1), Kept(h, bs, n - 1);
    var k := |out0| - 1;
    var w := out0 + [bs[n - 1]];
    forall j | 0 <= j < |out0|
      ensures out0[j] in g && out[j] == out0[j] && (j < k ==> g[out0[j]] == g0[out0[j]])
      ensures out0[j] != bs[n - 1]
    {
      assert w[j] == out0[j];
      Increasing(g0, w, j, |out0|);
      if j < k {
        assert w[k] == out0[k];
        Increasing(g0, w, j, k);
      }
    }
  }

  /** The sweep is exact: the marked blocks stay where they are, nothing else is left
      allocated, marks are cleared and no two free blocks are neighbours. */
  lemma SweepExact(h: Headers, bs: seq<int>)
    requires Tiled(h, bs)
    ensures var n := |bs| - 1;
            var g, out := Swept(h, bs, n), Kept(h, bs, n) + [bs[n]];
            && Tiled(g, out) && out[0] == bs[0]
            && Allocated(g, out) == (set b | b in Allocated(h, bs) && h[b].mark != 0)
            && (forall b :: b in Allocated(g, out) ==> b in h && g[b] == Header(h[b].size, false, 0))
            && (forall j :: 0 <= j < |out| - 1 ==> g[out[j]].mark == 0)
            && (forall j :: 0 < j < |out| - 1 ==> !g[out[j - 1]].free || !g[out[j]].free)
            && (forall i :: 0 <= i < n ==> (OnBlock(out, bs[i]) <==> !Absorbed(h, bs, i)))
            && FreeBytes(g, out, |out| - 1) == FreeBytes(h, bs, n) + Garbage(h, bs, n)
  {
    var n := |bs| - 1;
    var g, kept := Swept(h, bs, n), Kept(h, bs, n);
    var out := kept + [bs[n]];
    SweptFreeBytes(h, bs, n);
    hide Swept, Kept, Garbage, Tile;
    SameFreeBytes(g, kept, g, out, |kept|);
    forall i | 0 <= i < n
      ensures bs[i] in g && g[bs[i]].free == Freed(h, bs, i)
      ensures !Freed(h, bs, i) ==> g[bs[i]] == Header(h[bs[i]].size, false, 0)
      ensures OnBlock(out, bs[i]) <==> !Absorbed(h, bs, i)
    {
      SweptBlock(h, bs, n, i);
      KeptIff(h, bs, n, i);
      if bs[i] in kept {
        var j :| 0 <= j < |kept| && kept[j] == bs[i];
        assert out[j] == bs[i];
      }
    }
    forall b | b in Allocated(g, out)
      ensures b in Allocated(h, bs) && h[b].mark != 0 && g[b] == Header(h[b].size, false, 0)
    {
      var j :| 0 <= j < |out| - 1 && !g[out[j]].free && out[j] == b;
      assert kept[j] in bs[..n];
      var i :| 0 <= i < n && bs[i] == b;
    }
    forall b | b in Allocated(h, bs) && h[b].mark != 0
      ensures b in Allocated(g, out)
    {
      var i :| 0 <= i < n && !h[bs[i]].free && bs[i] == b;
      assert OnBlock(out, b);
    }
  }

  /** Headers that differ in their marks only. */
  ghost predicate SameBlocks(h: Headers, h': Headers) {
    h'.Keys == h.Keys && forall b :: b in h ==> h'[b].size == h[b].size && h'[b].free == h[b].free
  }

  lemma {:induction false} MarksAreFree(h: Headers, h': Headers, bs: seq<int>, n: nat)
    requires Tiled(h, bs) && SameBlocks(h, h') && n < |bs|
    ensures Tiled(h', bs) && Allocated(h', bs) == Allocated(h, bs)
    ensures FreeBytes(h', bs, n) == FreeBytes(h, bs, n)
  {
    forall i | 0 <= i < |bs| - 1
      ensures bs[i] in h' && Tile(h', bs, i) && h'[bs[i]].free == h[bs[i]].free
    {
      assert bs[i] in h && Tile(h, bs, i);
    }
    if n > 0 { MarksAreFree(h, h', bs, n - 1); }
  }

  class OldSpace {
    const start: int
    const end: int
    var headers: Headers
    var cursor: int         // where the next search begins; 0 before the first one
    var freeBytes: int
    ghost var walk: seq<int>
    ghost var slack: int    // remainders too small to split, summed over all allocations

    ghost predicate Valid()
      reads this
    {
      && 0 < start < end
      && Tiled(headers, walk) && walk[0] == start && walk[|walk| - 1] == end
      && (forall i :: 0 <= i < |walk| - 1 ==> walk[i] < end)
      && freeBytes == FreeBytes(headers, walk, |walk| - 1) + slack
    }

    ghost predicate CursorOnBlock()
      reads this
    {
      cursor == 0 || OnBlock(walk, cursor)
    }

    /** Where the search goes on after block `b`. */
    function Following(h: Headers, b: int): int
      requires b in h
    {
      if b + h[b].size >= end then start else b + h[b].size
    }

    constructor (start: int, bytes: int)
      requires start > 0 && bytes > 0 && bytes % 8 == 0
      ensures Valid() && CursorOnBlock() && fresh(this)
      ensures this.start == start && end == start + bytes && freeBytes == bytes && slack == 0
      ensures headers == map[start := Header(bytes, true, 0)] && walk == [start, end] && cursor == 0
    {
      this.start, end := start, start + bytes;
      headers := map[start := Header(bytes, true, 0)];
      cursor, freeBytes := 0, bytes;
      walk, slack := [start, start + bytes], 0;
      new;
      assert FreeBytes(headers, walk, 0) == 0;
    }

    /** Payload address of a new block for `size` bytes, or 0 if no free block is large
        enough; `k` is the position of the block in the walk, from position `c` on. */
    method Alloc(size: nat) returns (r: int, ghost c: nat, ghost k: nat)
      requires Valid() && CursorOnBlock()
      modifies this
      ensures Valid() && CursorOnBlock() && c < |old(walk)| - 1 && k < |old(walk)| - 1
      ensures old(walk)[c] == if old(cursor) == 0 then start else old(cursor)
      ensures r == 0 <==> forall i :: 0 <= i < |old(walk)| - 1 ==> !Fitting(old(headers), old(walk), i, Total(size))
      ensures r == 0 ==>
                headers == old(headers) && walk == old(walk) && freeBytes == old(freeBytes) && slack == old(slack)
      ensures r != 0 ==>
                && r == old(walk)[k] + HEADER && NextFit(old(headers), old(walk), c, k, Total(size))
                && headers == Claim(old(headers), old(walk)[k], Total(size))
                && cursor == Following(headers, old(walk)[k])
                && walk == ClaimWalk(old(headers), old(walk), k, Total(size))
                && freeBytes == old(freeBytes) - Total(size)
                && slack == old(slack) + Remainder(old(headers), old(walk)[k], Total(size))
    {
      var total := Total(size);
      if cursor == 0 {
        cursor := start;
      }
      var block := cursor;
      assert OnBlock(walk, cursor);
      c :| 0 <= c < |walk| - 1 && walk[c] == cursor;
      k := c;
      ghost var around := false;
      while true
        invariant headers == old(headers) && walk == old(walk) && 0 <= k < |walk| - 1 && block == walk[k]
        invariant if around then k < c else c <= k
        invariant forall i :: 0 <= i < |walk| - 1 && (if around then i >= c || i < k else c <= i < k)
                    ==> !Fitting(headers, walk, i, total)
        decreases !around, |walk| - k
      {
        if headers[block].free && headers[block].size >= total {
          assert NextFit(headers, walk, c, k, total);
          if k > 0 {
            Increasing(headers, walk, 0, k);
          }
          r := Take(block, total, k);
          return;
        }
        assert Tile(headers, walk, k);
        block := block + headers[block].size;
        if block >= end {
          block := start;
          around, k := true, 0;
        } else {
          k := k + 1;
        }
        if block == cursor {
          if k != c {
            Disjoint(headers, walk, k, c);
          }
          break;
        }
      }
      r := 0;
    }

    /** Hands out the free block at position `k` and moves the cursor behind it. */
    method Take(block: int, total: int, ghost k: nat) returns (r: int)
      requires Valid() && k < |walk| - 1 && block == walk[k] && total > 0 && total % 8 == 0
      requires Fitting(headers, walk, k, total)
      modifies this
      ensures Valid() && CursorOnBlock() && r == block + HEADER
      ensures block in headers && cursor == Following(headers, block)
      ensures headers == Claim(old(headers), block, total) && walk == ClaimWalk(old(headers), old(walk), k, total)
      ensures freeBytes == old(freeBytes) - total && slack == old(slack) + Remainder(old(headers), block, total)
    {
      hide Claim, ClaimWalk, FreeBytes, Remainder, Tiled, OnBlock;
      Claimed(headers, walk, k, total);
      slack := slack + Remainder(headers, block, total);
      walk := ClaimWalk(headers, walk, k, total);
      freeBytes := freeBytes - total;
      headers := Claim(headers, block, total);
      cursor := block + headers[block].size;
      if cursor >= end {
        cursor := start;
      }
      r := block + HEADER;
    }

    /** The search when the first block it looks at will do. The cursor need not be on a
        block of the walk. */
    method TakeAtCursor(size: nat) returns (r: int)
      requires cursor in headers && headers[cursor].free && headers[cursor].size >= Total(size)
      modifies this`headers, this`cursor, this`freeBytes
      ensures r == old(cursor) + HEADER && headers == Claim(old(headers), old(cursor), Total(size))
      ensures cursor == Following(headers, old(cursor)) && freeBytes == old(freeBytes) - Total(size)
    {
      var block, total := cursor, Total(size);
      freeBytes := freeBytes - total;
      headers := Claim(headers, block, total);
      cursor := block + headers[block].size;
      if cursor >= end {
        cursor := start;
      }
      r := block + HEADER;
    }

    method SetMark(b: int, mark: int)
      requires Valid() && b in headers
      modifies this`headers
      ensures Valid() && headers == old(headers)[b := old(headers)[b].(mark := mark)]
      ensures Allocated(headers, walk) == old(Allocated(headers, walk))
    {
      MarksAreFree(headers, headers[b := headers[b].(mark := mark)], walk, |walk| - 1);
      headers := headers[b := headers[b].(mark := mark)];
    }

    /** Frees every unmarked block, merges free neighbours and clears all marks.
        The cursor stays where it is. */
    method Sweep()
      requires Valid()
      modifies this`headers, this`walk, this`freeBytes
      ensures headers == Swept(old(headers), old(walk), |old(walk)| - 1)
      ensures walk == Kept(old(headers), old(walk), |old(walk)| - 1) + [end]
      ensures freeBytes == old(freeBytes) + Garbage(old(headers), old(walk), |old(walk)| - 1)
      ensures Valid()
    {
      ghost var h, bs := headers, walk;
      assert |bs| >= 2;
      hide Tiled, SweptWell, Kept, Garbage, FreeBytes;
      ghost var i := 0;
      var block, prev := start, 0;
      while block < end
        invariant 0 <= i < |bs| && block == bs[i]
        invariant prev == if i == 0 then 0 else Last(Kept(h, bs, i))
        invariant headers == Swept(h, bs, i) && freeBytes == old(freeBytes) + Garbage(h, bs, i)
        decreases |bs| - i
      {
        prev := SweepBlock(block, prev, h, bs, i);
        block := prev + headers[prev].size;
        i := i + 1;
      }
      walk := Kept(h, bs, |bs| - 1) + [end];
      SweepExact(h, bs);
      WithinEnd(headers, walk);
    }

    /** Sweeps one block; the result is the block that now holds it. */
    method SweepBlock(block: int, prev: int, ghost h: Headers, ghost bs: seq<int>, ghost i: nat) returns (last: int)
      requires Tiled(h, bs) && bs[0] > 0 && i < |bs| - 1 && block == bs[i] && headers == Swept(h, bs, i)
      requires prev == if i == 0 then 0 else Last(Kept(h, bs, i))
      modifies this`headers, this`freeBytes
      ensures headers == Swept(h, bs, i + 1)
      ensures freeBytes == old(freeBytes) + Garbage(h, bs, i + 1) - Garbage(h, bs, i)
      ensures last == Last(Kept(h, bs, i + 1)) && last in headers && last + headers[last].size == bs[i + 1]
    {
      SweepStep(h, bs, i);
      hide Tiled, SweptWell;
      last := block;
      if !headers[block].free {
        if headers[block].mark != 0 {
          headers := headers[block := headers[block].(mark := 0)];
        } else {
          headers := headers[block := headers[block].(free := true)];
          freeBytes := freeBytes + headers[block].size;
        }
      }
      if headers[block].free {
        headers := headers[block := headers[block].(mark := 0)];
        if prev != 0 && headers[prev].free {
          headers := headers[prev := headers[prev].(size := headers[prev].size + headers[block].size)];
          last := prev;
        }
      }
    }
  }

  /** A block in use that nothing marks, swept together with the free block behind it. */
  lemma TwoMerged(h: Headers, bs: seq<int>)
    requires h == map[24 := Header(32, true, 0), 8 := Header(16, false, 0)] && bs == [8, 24, 56] && Tiled(h, bs)
    ensures Swept(h, bs, 2) == map[8 := Header(48, true, 0), 24 := Header(32, true, 0)]
    ensures Kept(h, bs, 2) == [8] && Absorbed(h, bs, 1)
  {
    assert Absorbed(h, bs, 1) && Kept(h, bs, 0) == [] && Kept(h, bs, 1) == [8];
    assert Swept(h, bs, 0) == h;
    assert Swept(h, bs, 1) == map[8 := Header(16, true, 0), 24 := Header(32, true, 0)];
  }

  /** The cursor can be left inside a merged block: after one allocation and a sweep that
      frees it, the next search begins at a header that is no longer one. */
  method StaleCursor() returns (s: OldSpace)
    ensures fresh(s) && s.Valid() && !s.CursorOnBlock()
    ensures s.start in s.headers && s.headers[s.start].free && s.cursor in s.headers
    ensures s.start < s.cursor < s.start + s.headers[s.start].size
    ensures s.start == 8 && s.end == 56 && s.headers == map[8 := Header(48, true, 0), 24 := Header(32, true, 0)]
    ensures s.cursor == 24
  {
    s := new OldSpace(8, 48);
    assert Fitting(s.headers, s.walk, 0, Total(8));
    var r, c, k := s.Alloc(8);
    ghost var h, bs := s.headers, s.walk;
    assert h == map[24 := Header(32, true, 0), 8 := Header(16, false, 0)] && bs == [8, 24, 56];
    TwoMerged(h, bs);
    s.Sweep();
  }

  /** From there three more allocations hand out the same bytes twice: the block at `b` lies
      inside the block at `a`, and both are in use. */
  method OverlappingBlocks() returns (s: OldSpace, a: int, b: int)
    ensures a - HEADER in s.headers && b - HEADER in s.headers
    ensures !s.headers[a - HEADER].free && !s.headers[b - HEADER].free
    ensures a < b && b - HEADER + s.headers[b - HEADER].size <= a - HEADER + s.headers[a - HEADER].size
  {
    s := StaleCursor();
    b := s.TakeAtCursor(8);
    var c := s.TakeAtCursor(8);
    a := s.TakeAtCursor(40);
  }
}
