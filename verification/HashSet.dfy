/** The Set object: an open-addressing hash table with linear probing, which doubles when
    it is more than 0.7 full and re-hashes the rest of a cluster on deletion. */
module HashSets {
  /** The bit pattern of an empty slot, that of `undefined`. */
  const EMPTY := 0xFFFC_0000_0000_0000

  /** Steps from slot `a` to slot `b`, going up and around the end. */
  function Dist(a: int, b: int, cap: int): int {
    if b >= a then b - a else b - a + cap
  }

  function After(i: int, cap: int): int {
    if i + 1 == cap then 0 else i + 1
  }

  /** The slot where the search for `v` begins. */
  function Home(hash: int -> nat, v: int, cap: int): (h: int)
    requires cap > 0
    ensures 0 <= h < cap
  {
    hash(v) % cap
  }

  /** Every slot between the home of an element and the element is in use. */
  ghost predicate Probing(hash: int -> nat, t: seq<int>) {
    forall i, j :: 0 <= i < |t| && 0 <= j < |t| && t[i] != EMPTY && OnWay(hash, t, i, j) ==> t[j] != EMPTY
  }

  /** Slot `j` is met before slot `i` on the way from the home of the element in `i`. */
  ghost predicate OnWay(hash: int -> nat, t: seq<int>, i: int, j: int)
    requires 0 <= i < |t|
  {
    var h := Home(hash, t[i], |t|);
    Dist(h, j, |t|) < Dist(h, i, |t|)
  }

  ghost predicate Distinct(t: seq<int>) {
    forall i, j :: 0 <= i < |t| && 0 <= j < |t| && t[i] == t[j] && t[i] != EMPTY ==> i == j
  }

  ghost function Elements(t: seq<int>): set<int> {
    set i | 0 <= i < |t| && t[i] != EMPTY :: t[i]
  }

  ghost predicate PowerOfTwo(n: nat)
    decreases n
  {
    n == 1 || (n > 0 && n % 2 == 0 && PowerOfTwo(n / 2))
  }

  /** The search from the home of `v` stops at slot `s`: nothing before it is empty or `v`. */
  ghost predicate StopsAt(hash: int -> nat, t: seq<int>, v: int, s: int) {
    && 0 <= s < |t| && (t[s] == EMPTY || t[s] == v)
    && forall j :: 0 <= j < |t| && Dist(Home(hash, v, |t|), j, |t|) < Dist(Home(hash, v, |t|), s, |t|) ==>
         t[j] != EMPTY && t[j] != v
  }

  /** A search that stops at an empty slot was for something that is not there. */
  lemma Absent(hash: int -> nat, t: seq<int>, v: int, s: int)
    requires Probing(hash, t) && StopsAt(hash, t, v, s) && t[s] == EMPTY
    ensures v !in Elements(t)
  {
    if v in Elements(t) {
      var i :| 0 <= i < |t| && t[i] != EMPTY && t[i] == v;
      assert OnWay(hash, t, i, s);
    }
  }

  /** Putting an element where its search stops keeps the table well formed. */
  lemma Inserted(hash: int -> nat, t: seq<int>, v: int, s: int)
    requires Probing(hash, t) && Distinct(t) && StopsAt(hash, t, v, s) && t[s] == EMPTY && v != EMPTY
    ensures Probing(hash, t[s := v]) && Distinct(t[s := v]) && Elements(t[s := v]) == Elements(t) + {v}
  {
    Absent(hash, t, v, s);
    var u := t[s := v];
    forall i, j | 0 <= i < |u| && 0 <= j < |u| && u[i] != EMPTY && OnWay(hash, u, i, j)
      ensures u[j] != EMPTY
    {
      if i != s && j != s { assert OnWay(hash, t, i, j); }
    }
    forall x | x in Elements(t)
      ensures x in Elements(u)
    {
      var i :| 0 <= i < |t| && t[i] != EMPTY && t[i] == x;
      assert u[i] == x;
    }
    assert u[s] == v;
  }

  /** A table without empty slot holds as many elements as it has slots. */
  lemma {:induction false} Full(t: seq<int>)
    requires Distinct(t) && forall i :: 0 <= i < |t| ==> t[i] != EMPTY
    ensures |Elements(t)| == |t|
  {
    if |t| > 0 {
      var n := |t| - 1;
      Full(t[..n]);
      assert Elements(t) == Elements(t[..n]) + {t[n]};
    }
  }

  lemma HasEmpty(t: seq<int>) returns (e: int)
    requires Distinct(t) && |Elements(t)| < |t|
    ensures 0 <= e < |t| && t[e] == EMPTY
  {
    if forall i :: 0 <= i < |t| ==> t[i] != EMPTY { Full(t); }
    e :| 0 <= e < |t| && t[e] == EMPTY;
  }

  /** While the cluster after the deleted slot `d` is re-hashed up to slot `r`: only the
      elements not yet re-hashed, those from `r` up to the end `e` of the cluster, may
      have empty slots on their way, and these lie between `d` and `r`. */
  ghost predicate Rehashing(hash: int -> nat, t: seq<int>, d: int, r: int, e: int) {
    && 0 <= d < |t| && 0 <= r < |t| && 0 <= e < |t| && t[e] == EMPTY && d != e
    && 0 < Dist(d, r, |t|) <= Dist(d, e, |t|)
    && (forall i :: 0 <= i < |t| && Dist(r, i, |t|) < Dist(r, e, |t|) ==> t[i] != EMPTY)
    && (forall i, j :: 0 <= i < |t| && 0 <= j < |t| && t[i] != EMPTY && OnWay(hash, t, i, j) && t[j] == EMPTY ==>
          Dist(r, i, |t|) < Dist(r, e, |t|) && Dist(d, j, |t|) < Dist(d, r, |t|))
  }

  /** The empty slot that ends the cluster of slot `d`. */
  lemma ClusterEnd(t: seq<int>, d: int, far: int) returns (e: int)
    requires 0 <= d < |t| && 0 <= far < |t| && t[d] != EMPTY && t[far] == EMPTY
    ensures 0 <= e < |t| && t[e] == EMPTY && d != e
    ensures forall i :: 0 <= i < |t| && Dist(d, i, |t|) < Dist(d, e, |t|) ==> t[i] != EMPTY
    decreases Dist(d, far, |t|)
  {
    e := far;
    if i :| 0 <= i < |t| && Dist(d, i, |t|) < Dist(d, far, |t|) && t[i] == EMPTY {
      e := ClusterEnd(t, d, i);
    }
  }

  lemma RehashBegins(hash: int -> nat, t: seq<int>, d: int, e: int)
    requires Probing(hash, t) && 0 <= d < |t| && t[d] != EMPTY && 0 <= e < |t| && t[e] == EMPTY && d != e
    requires forall i :: 0 <= i < |t| && Dist(d, i, |t|) < Dist(d, e, |t|) ==> t[i] != EMPTY
    ensures Rehashing(hash, t[d := EMPTY], d, After(d, |t|), e)
  {
    var u, r := t[d := EMPTY], After(d, |t|);
    forall i, j | 0 <= i < |u| && 0 <= j < |u| && u[i] != EMPTY && OnWay(hash, u, i, j) && u[j] == EMPTY
      ensures Dist(r, i, |u|) < Dist(r, e, |u|) && Dist(d, j, |u|) < Dist(d, r, |u|)
    {
      assert OnWay(hash, t, i, j);
      assert !OnWay(hash, t, i, e);
    }
  }

  lemma RehashEnds(hash: int -> nat, t: seq<int>, d: int, r: int, e: int)
    requires Rehashing(hash, t, d, r, e) && t[r] == EMPTY
    ensures Probing(hash, t)
  {
    assert Dist(r, r, |t|) == 0;
  }

  /** Re-hashing one element stays within the part of the cluster already done. */
  lemma RehashOne(hash: int -> nat, t: seq<int>, d: int, r: int, e: int, s: int)
    requires Rehashing(hash, t, d, r, e) && t[r] != EMPTY
    requires StopsAt(hash, t[r := EMPTY], t[r], s) && t[r := EMPTY][s] == EMPTY
    ensures Rehashing(hash, t[r := EMPTY][s := t[r]], d, After(r, |t|), e)
    ensures Dist(After(r, |t|), e, |t|) < Dist(r, e, |t|)
  {
    var u, v, r' := t[r := EMPTY][s := t[r]], t[r], After(r, |t|);
    var h := Home(hash, v, |t|);
    assert t[r := EMPTY][r] == EMPTY;
    assert Dist(h, s, |t|) <= Dist(h, r, |t|);
    assert s == e ==> OnWay(hash, t, r, e);
    assert s != e && r != e;
    forall i, j | 0 <= i < |u| && 0 <= j < |u| && u[i] != EMPTY && OnWay(hash, u, i, j) && u[j] == EMPTY
      ensures Dist(r', i, |u|) < Dist(r', e, |u|) && Dist(d, j, |u|) < Dist(d, r', |u|)
    {
      if i != s {
        assert t[i] == u[i] && OnWay(hash, t, i, j);
        if j == r { assert OnWay(hash, t, i, e) ==> Dist(r, i, |t|) < Dist(r, e, |t|); }
      }
    }
  }

  /** Moving an element to another slot leaves the set as it is. */
  lemma Moved(t: seq<int>, r: int, s: int)
    requires Distinct(t) && 0 <= r < |t| && 0 <= s < |t| && t[r] != EMPTY && t[r := EMPTY][s] == EMPTY
    ensures Distinct(t[r := EMPTY][s := t[r]]) && Elements(t[r := EMPTY][s := t[r]]) == Elements(t)
    ensures t[r] !in Elements(t[r := EMPTY])
  {
    var u := t[r := EMPTY][s := t[r]];
    forall x | x in Elements(t)
      ensures x in Elements(u)
    {
      var i :| 0 <= i < |t| && t[i] != EMPTY && t[i] == x;
      assert u[if i == r then s else i] == x;
    }
    forall x | x in Elements(u)
      ensures x in Elements(t)
    {
      var i :| 0 <= i < |u| && u[i] != EMPTY && u[i] == x;
      assert t[if i == s then r else i] == x;
    }
  }

  lemma Removed(t: seq<int>, d: int)
    requires Distinct(t) && 0 <= d < |t| && t[d] != EMPTY
    ensures Distinct(t[d := EMPTY]) && Elements(t[d := EMPTY]) == Elements(t) - {t[d]}
  {
    var u := t[d := EMPTY];
    forall x | x in Elements(t) - {t[d]}
      ensures x in Elements(u)
    {
      var i :| 0 <= i < |t| && t[i] != EMPTY && t[i] == x;
      assert u[i] == x;
    }
  }

  lemma Stopped(hash: int -> nat, t: seq<int>, v: int, s: int)
    requires StopsAt(hash, t, v, s)
    ensures 0 <= s < |t| && (t[s] == EMPTY || (t[s] == v && v in Elements(t)))
    ensures EMPTY !in Elements(t)
  {
  }

  lemma SlotsAdd(t: seq<int>, i: nat)
    requires i < |t|
    ensures Elements(t[..i + 1]) == Elements(t[..i]) + ({t[i]} - {EMPTY})
  {
    forall x | x in Elements(t[..i + 1])
      ensures x in Elements(t[..i]) || x == t[i]
    {
      var j :| 0 <= j < i + 1 && t[..i + 1][j] != EMPTY && t[..i + 1][j] == x;
      if j < i { assert t[..i][j] == x; }
    }
    forall x | x in Elements(t[..i])
      ensures x in Elements(t[..i + 1])
    {
      var j :| 0 <= j < i && t[..i][j] != EMPTY && t[..i][j] == x;
      assert t[..i + 1][j] == x;
    }
    assert t[..i + 1][i] == t[i];
  }

  lemma {:induction false} PrefixSmall(t: seq<int>, i: nat)
    requires i <= |t|
    ensures |Elements(t[..i])| <= i
  {
    if i > 0 {
      PrefixSmall(t, i - 1);
      SlotsAdd(t, i - 1);
    } else {
      assert Elements(t[..0]) == {};
    }
  }

  lemma EmptyTable(hash: int -> nat, t: seq<int>)
    requires forall i :: 0 <= i < |t| ==> t[i] == EMPTY
    ensures Probing(hash, t) && Distinct(t) && Elements(t) == {}
  {
  }

  lemma NoSlots(t: seq<int>)
    ensures Elements(t[..0]) == {}
  {
  }

  lemma Doubled(n: nat)
    requires PowerOfTwo(n)
    ensures PowerOfTwo(2 * n)
  {
    assert 2 * n / 2 == n;
  }

  class HashSet {
    const hash: int -> nat
    var table: array<int>
    var count: nat

    ghost predicate Valid()
      reads this, table
    {
      && table.Length >= 8 && PowerOfTwo(table.Length)
      && Probing(hash, table[..]) && Distinct(table[..])
      && count == |Elements(table[..])| && count * 10 <= table.Length * 7
    }

    ghost function Contents(): set<int>
      reads this, table
    {
      Elements(table[..])
    }

    constructor (hash: int -> nat)
      ensures Valid() && Contents() == {} && fresh(table) && this.hash == hash
    {
      this.hash := hash;
      table := new int[8](_ => EMPTY);
      count := 0;
      new;
      assert PowerOfTwo(4);
      assert Elements(table[..]) == {};
    }

    /** Where the search for `v` stops. */
    method Probe(t: array<int>, v: int) returns (s: int)
      requires exists e :: 0 <= e < t.Length && t[e] == EMPTY
      ensures StopsAt(hash, t[..], v, s)
    {
      s := Home(hash, v, t.Length);
      ghost var e :| 0 <= e < t.Length && t[e] == EMPTY;
      ghost var h := s;
      while t[s] != EMPTY
        invariant 0 <= s < t.Length && Dist(h, s, t.Length) <= Dist(h, e, t.Length)
        invariant forall j :: 0 <= j < t.Length && Dist(h, j, t.Length) < Dist(h, s, t.Length) ==>
                    t[j] != EMPTY && t[j] != v
        decreases Dist(h, e, t.Length) - Dist(h, s, t.Length)
      {
        if t[s] == v {
          return;
        }
        s := After(s, t.Length);
      }
    }

    /** Puts `v` into table `t` unless it is there. */
    method AddInternal(t: array<int>, v: int) returns (added: bool, ghost s: int)
      requires exists e :: 0 <= e < t.Length && t[e] == EMPTY
      modifies t
      ensures StopsAt(hash, old(t[..]), v, s) && added == (old(t[..])[s] == EMPTY)
      ensures t[..] == if added then old(t[..])[s := v] else old(t[..])
    {
      var i := Probe(t, v);
      s := i;
      if t[i] != EMPTY {
        return false, s;
      }
      t[i] := v;
      added := true;
    }

    method Resize()
      requires Valid()
      modifies this`table
      ensures Valid() && fresh(table) && Contents() == old(Contents()) && table.Length == 2 * old(table.Length)
    {
      hide Probing, Distinct, Elements, StopsAt, PowerOfTwo;
      var elements := table;
      ghost var before := elements[..];
      table := new int[2 * elements.Length](_ => EMPTY);
      EmptyTable(hash, table[..]);
      NoSlots(before);
      for i := 0 to elements.Length
        invariant fresh(table) && table.Length == 2 * elements.Length && elements[..] == before
        invariant Probing(hash, table[..]) && Distinct(table[..])
        invariant Elements(table[..]) == Elements(before[..i])
      {
        SlotsAdd(before, i);
        PrefixSmall(before, i);
        var v := elements[i];
        if v != EMPTY {
          Reinsert(v);
        }
      }
      assert before[..elements.Length] == before;
      Doubled(elements.Length);
    }

    /** Puts an element into a table that has room for it. */
    method Reinsert(v: int)
      requires Probing(hash, table[..]) && Distinct(table[..]) && |Elements(table[..])| < table.Length && v != EMPTY
      modifies table
      ensures Probing(hash, table[..]) && Distinct(table[..])
      ensures Elements(table[..]) == old(Elements(table[..])) + {v}
    {
      hide Probing, Distinct, Elements, StopsAt;
      ghost var u := table[..];
      ghost var e := HasEmpty(u);
      assert table[e] == EMPTY;
      var added, s := AddInternal(table, v);
      Stopped(hash, u, v, s);
      if added {
        Inserted(hash, u, v, s);
      }
    }

    /** Adds `v`; true if the table has taken it. */
    method Add(v: int) returns (added: bool)
      requires Valid()
      modifies this, table
      ensures table == old(table) || fresh(table)
      ensures Contents() == old(Contents()) + ({v} - {EMPTY})
      ensures added <==> v !in old(Contents())
      ensures Valid() <==> v != EMPTY
    {
      hide Probing, Distinct, Elements, PowerOfTwo;
      if (count + 1) * 10 > table.Length * 7 {
        Resize();
      }
      added := Put(v);
    }

    /** Adds `v` to a table that does not have to grow. */
    method Put(v: int) returns (added: bool)
      requires Valid() && (count + 1) * 10 <= table.Length * 7
      modifies this`count, table
      ensures Contents() == old(Contents()) + ({v} - {EMPTY})
      ensures added <==> v !in old(Contents())
      ensures Valid() <==> v != EMPTY
    {
      hide Probing, Distinct, Elements, StopsAt, PowerOfTwo;
      ghost var u := table[..];
      ghost var e := HasEmpty(u);
      assert table[e] == EMPTY;
      ghost var s;
      added, s := AddInternal(table, v);
      Stopped(hash, u, v, s);
      if added {
        count := count + 1;
        Absent(hash, u, v, s);
        if v != EMPTY { Inserted(hash, u, v, s); } else { assert u[s := v] == u; }
      }
    }

    method Has(v: int) returns (found: bool)
      requires Valid()
      ensures found <==> v in Contents()
    {
      ghost var e := HasEmpty(table[..]);
      assert table[e] == EMPTY;
      var s := Probe(table, v);
      found := table[s] != EMPTY;
      if found { assert table[..][s] == v; } else { Absent(hash, table[..], v, s); }
    }

    method Delete(v: int) returns (found: bool)
      requires Valid()
      modifies this`count, table
      ensures Valid() && Contents() == old(Contents()) - {v}
      ensures found <==> v in old(Contents())
    {
      hide Probing, Distinct, Elements, StopsAt, PowerOfTwo, Rehashing;
      ghost var u := table[..];
      ghost var far := HasEmpty(u);
      assert table[far] == EMPTY;
      var d := Probe(table, v);
      Stopped(hash, u, v, d);
      if table[d] == EMPTY {
        Absent(hash, u, v, d);
        return false;
      }
      assert u[d] == v;
      ghost var e := ClusterEnd(u, d, far);
      RehashBegins(hash, u, d, e);
      Removed(u, d);
      table[d] := EMPTY;
      count := count - 1;
      assert table[..] == u[d := EMPTY];
      Rehash(d, e);
      found := true;
    }

    /** Re-hashes the rest of the cluster after the deleted slot. */
    method Rehash(d: int, ghost e: int)
      requires 0 <= d < table.Length && Rehashing(hash, table[..], d, After(d, table.Length), e) && Distinct(table[..])
      modifies table
      ensures Probing(hash, table[..]) && Distinct(table[..]) && Contents() == old(Contents())
    {
      var r := After(d, table.Length);
      while table[r] != EMPTY
        invariant 0 <= r < table.Length
        invariant Rehashing(hash, table[..], d, r, e) && Distinct(table[..]) && Contents() == old(Contents())
        decreases Dist(r, e, table.Length)
      {
        ghost var u := table[..];
        var v := table[r];
        table[r] := EMPTY;
        assert table[..] == u[r := EMPTY];
        var added, s := AddInternal(table, v);
        Moved(u, r, r);
        assert v !in Elements(u[r := EMPTY]);
        assert added;
        Moved(u, r, s);
        RehashOne(hash, u, d, r, e, s);
        r := After(r, table.Length);
      }
      RehashEnds(hash, table[..], d, r, e);
    }
  }
}
