/** The free list of umalloc.c as a sequence of blocks in address order.
    Addresses and sizes are in units of one Header (8 bytes). */
module FreeList {

  datatype Blk = Blk(addr: nat, size: nat) {
    function End(): nat { addr + size }
    predicate Has(u: nat) { addr <= u < addr + size }
  }

  /** L[0] is the static `base`, of size 0. The rest are in address order and
      no two touch: neighbours have been merged. */
  ghost predicate Wf(L: seq<Blk>)
  {
    && |L| >= 1 && L[0].size == 0
    && (forall i | 0 < i < |L| :: L[i].size > 0)
    && (forall i, k | 0 <= i && k == i + 1 && k < |L| :: L[i].End() < L[k].addr)
  }

  lemma {:induction false} Ordered(L: seq<Blk>, i: nat, k: nat)
    requires Wf(L) && i < k < |L|
    ensures L[i].End() < L[k].addr
  {
    if i + 1 < k {
      Ordered(L, i, k - 1);
    }
  }

  ghost predicate Covers(L: seq<Blk>, u: nat)
  {
    exists i | 0 <= i < |L| :: L[i].Has(u)
  }

  /** L with the d blocks from index k replaced by m. */
  ghost function Splice(L: seq<Blk>, k: nat, d: nat, m: Blk): (r: seq<Blk>)
    requires k + d <= |L|
    ensures |r| == |L| - d + 1
    ensures forall i | 0 <= i < |r| :: r[i] == if i < k then L[i] else if i == k then m else L[i + d - 1]
  {
    L[..k] + [m] + L[k + d..]
  }

  lemma SpliceWf(L: seq<Blk>, k: nat, d: nat, m: Blk)
    requires Wf(L) && 0 < k && k + d <= |L|
    requires m.size > 0 && L[k - 1].End() < m.addr
    requires k + d < |L| ==> m.End() < L[k + d].addr
    ensures Wf(Splice(L, k, d, m))
  {
  }

  lemma SpliceCovers(L: seq<Blk>, k: nat, d: nat, m: Blk, u: nat)
    requires k + d <= |L|
    ensures Covers(Splice(L, k, d, m), u) <==>
            m.Has(u) || exists i | 0 <= i < |L| && !(k <= i < k + d) :: L[i].Has(u)
  {
    var R := Splice(L, k, d, m);
    assert R[k] == m;
    if i :| 0 <= i < |L| && !(k <= i < k + d) && L[i].Has(u) {
      assert R[if i < k then i else i - d + 1].Has(u);
    }
  }

  /** The last block below address a. */
  ghost function Pred(L: seq<Blk>, a: nat): (j: nat)
    requires |L| >= 1 && L[0].addr < a
    ensures j < |L| && L[j].addr < a
    ensures j + 1 < |L| ==> a <= L[j + 1].addr
  {
    if L[|L| - 1].addr < a then |L| - 1 else Pred(L[..|L| - 1], a)
  }

  /** b lies in the gap after block j. */
  ghost predicate Fits(L: seq<Blk>, j: nat, b: Blk)
  {
    && Wf(L) && j < |L| && b.size > 0
    && L[j].End() <= b.addr && L[0].addr < b.addr
    && (j + 1 < |L| ==> b.End() <= L[j + 1].addr)
  }

  ghost predicate TouchesNext(L: seq<Blk>, j: nat, b: Blk)
    requires j < |L|
  {
    j + 1 < |L| && b.End() == L[j + 1].addr
  }

  /** What free() makes of the gap: b, merged with the neighbours it touches. */
  ghost function Merged(L: seq<Blk>, j: nat, b: Blk): Blk
    requires j < |L|
  {
    var size := if TouchesNext(L, j, b) then b.size + L[j + 1].size else b.size;
    if L[j].End() == b.addr then Blk(L[j].addr, L[j].size + size) else Blk(b.addr, size)
  }

  ghost function Insert(L: seq<Blk>, j: nat, b: Blk): seq<Blk>
    requires j < |L|
  {
    var from := if L[j].End() == b.addr then j else j + 1;
    var to := if TouchesNext(L, j, b) then j + 2 else j + 1;
    Splice(L, from, to - from, Merged(L, j, b))
  }

  lemma InsertWf(L: seq<Blk>, j: nat, b: Blk)
    requires Fits(L, j, b)
    ensures Wf(Insert(L, j, b)) && Insert(L, j, b)[0] == L[0]
  {
    var from := if L[j].End() == b.addr then j else j + 1;
    var to := if TouchesNext(L, j, b) then j + 2 else j + 1;
    SpliceWf(L, from, to - from, Merged(L, j, b));
  }

  lemma InsertCovers(L: seq<Blk>, j: nat, b: Blk, u: nat)
    requires Fits(L, j, b)
    ensures Covers(Insert(L, j, b), u) <==> Covers(L, u) || b.Has(u)
  {
    var from := if L[j].End() == b.addr then j else j + 1;
    var to := if TouchesNext(L, j, b) then j + 2 else j + 1;
    SpliceCovers(L, from, to - from, Merged(L, j, b), u);
    if from == j && Merged(L, j, b).Has(u) && !b.Has(u) && !L[j].Has(u) {
      assert L[j + 1].Has(u);
    }
  }

  /** What malloc() does with block k: give away its tail, or all of it. */
  ghost function Take(L: seq<Blk>, k: nat, n: nat): seq<Blk>
    requires k < |L| && n <= L[k].size
  {
    if L[k].size == n then L[..k] + L[k + 1..] else L[k := Blk(L[k].addr, L[k].size - n)]
  }

  ghost function Taken(L: seq<Blk>, k: nat, n: nat): Blk
    requires k < |L| && n <= L[k].size
  {
    Blk(L[k].End() - n, n)
  }

  lemma TakeWf(L: seq<Blk>, k: nat, n: nat)
    requires Wf(L) && 0 < k < |L| && 0 < n <= L[k].size
    ensures Wf(Take(L, k, n)) && Take(L, k, n)[0] == L[0]
  {
    var R := Take(L, k, n);
    if L[k].size == n && k < |R| {
      assert R[k] == L[k + 1];
    }
  }

  lemma TakeCovers(L: seq<Blk>, k: nat, n: nat, u: nat)
    requires Wf(L) && 0 < k < |L| && 0 < n <= L[k].size
    ensures Covers(L, u) <==> Covers(Take(L, k, n), u) || Taken(L, k, n).Has(u)
    ensures !(Covers(Take(L, k, n), u) && Taken(L, k, n).Has(u))
  {
    var R := Take(L, k, n);
    var gone := L[k].size == n;
    if Covers(L, u) && !Taken(L, k, n).Has(u) {
      var i :| 0 <= i < |L| && L[i].Has(u);
      assert R[if gone && i > k then i - 1 else i].Has(u);
    }
    if Covers(R, u) {
      var i :| 0 <= i < |R| && R[i].Has(u);
      var i' := if gone && i >= k then i + 1 else i;
      assert L[i'].Has(u);
      if i' < k {
        Ordered(L, i', k);
      } else if i' > k {
        Ordered(L, k, i');
      }
    }
    assert Taken(L, k, n).Has(u) ==> L[k].Has(u);
  }

  lemma PutBack(L: seq<Blk>, k: nat)
    requires k < |L|
    ensures Splice(L[..k] + L[k + 1..], k, 0, L[k]) == L
  {
    var R := L[..k] + L[k + 1..];
    assert R[..k] == L[..k] && R[k..] == L[k + 1..];
    assert L == L[..k] + [L[k]] + L[k + 1..];
  }

  lemma FitsOnlyThere(L: seq<Blk>, j: nat, b: Blk)
    requires Fits(L, j, b)
    ensures Pred(L, b.addr) == j
  {
    var k := Pred(L, b.addr);
    if k < j {
      assert L[k + 1].addr >= b.addr;
      if k + 1 < j {
        Ordered(L, k + 1, j);
      }
    } else if j + 1 < k {
      Ordered(L, j + 1, k);
    }
  }

  /** Freeing what Take took restores the list. */
  ghost predicate Undone(L: seq<Blk>, k: nat, n: nat)
    requires 0 < k < |L| && 0 < n <= L[k].size
  {
    var R, b := Take(L, k, n), Taken(L, k, n);
    |R| > 0 && R[0].addr < b.addr && Insert(R, Pred(R, b.addr), b) == L
  }

  /** A block taken whole is put back between its neighbours. */
  lemma UndoWhole(L: seq<Blk>, k: nat, R: seq<Blk>)
    requires Wf(L) && 0 < k < |L| && R == L[..k] + L[k + 1..]
    ensures Fits(R, k - 1, L[k]) && Insert(R, k - 1, L[k]) == L
  {
    TakeWf(L, k, L[k].size);
    Ordered(L, 0, k);
    assert R[k - 1] == L[k - 1] && (k < |R| ==> R[k] == L[k + 1]);
    PutBack(L, k);
  }

  lemma UndoTail(L: seq<Blk>, k: nat, n: nat)
    requires Wf(L) && 0 < k < |L| && 0 < n < L[k].size
    ensures Undone(L, k, n)
  {
    TakeWf(L, k, n);
    Ordered(L, 0, k);
    var R, b := Take(L, k, n), Taken(L, k, n);
    assert R[k].End() == b.addr && !TouchesNext(R, k, b) && Merged(R, k, b) == L[k];
    assert Splice(R, k, 1, L[k]) == L;
    FitsOnlyThere(R, k, b);
  }

  /** Freeing what was just allocated restores the free list exactly. */
  lemma FreeUndoesMalloc(L: seq<Blk>, k: nat, n: nat)
    requires Wf(L) && 0 < k < |L| && 0 < n <= L[k].size
    ensures Undone(L, k, n)
  {
    if L[k].size == n {
      var R := Take(L, k, n);
      UndoWhole(L, k, R);
      FitsOnlyThere(R, k - 1, L[k]);
    } else {
      UndoTail(L, k, n);
    }
  }

  /** Block j keeps its address, and it is no lower than base. */
  lemma PredStays(L: seq<Blk>, j: nat, b: Blk)
    requires Fits(L, j, b)
    ensures j < |Insert(L, j, b)| && Insert(L, j, b)[j].addr == L[j].addr >= L[0].addr
  {
    if 0 < j {
      Ordered(L, 0, j);
    }
  }

  /** The block that swallowed b is at least as big. */
  lemma GrownBlock(L: seq<Blk>, j: nat, b: Blk)
    requires Fits(L, j, b)
    ensures exists k | 0 < k < |Insert(L, j, b)| :: Insert(L, j, b)[k].size >= b.size
  {
    assert Insert(L, j, b)[if L[j].End() == b.addr then j else j + 1] == Merged(L, j, b);
  }

  /** A block clear of the free list fits in the gap at its address. */
  lemma GapFits(L: seq<Blk>, b: Blk)
    requires Wf(L) && b.size > 0 && L[0].addr < b.addr
    requires forall u | b.Has(u) :: !Covers(L, u)
    ensures Fits(L, Pred(L, b.addr), b)
  {
    var j := Pred(L, b.addr);
    if L[j].End() > b.addr {
      assert L[j].Has(b.addr) && b.Has(b.addr);
    }
    if j + 1 < |L| && b.End() > L[j + 1].addr {
      var u := L[j + 1].addr;
      assert L[j + 1].Has(u) && b.Has(u);
    }
  }
}

/** Which memory is free, which is in use: everything obtained from sbrk is
    exactly one of the two. */
module HeapSpace {
  import opened FreeList

  ghost predicate InUse(live: map<nat, nat>, u: nat)
  {
    exists a | a in live :: Blk(a, live[a]).Has(u)
  }

  ghost predicate Apart(a: Blk, b: Blk)
  {
    a.End() <= b.addr || b.End() <= a.addr
  }

  ghost predicate LiveApart(live: map<nat, nat>)
  {
    forall a, b | a in live && b in live && a != b :: Apart(Blk(a, live[a]), Blk(b, live[b]))
  }

  /** Free and live blocks partition the units in `owned`. */
  ghost predicate Partition(L: seq<Blk>, live: map<nat, nat>, owned: set<nat>)
  {
    && LiveApart(live) && (forall a | a in live :: live[a] > 0)
    && (forall u | u in owned :: Covers(L, u) || InUse(live, u))
    && (forall u | Covers(L, u) :: u in owned && !InUse(live, u))
    && (forall u | InUse(live, u) :: u in owned)
  }

  lemma FreePartition(L: seq<Blk>, live: map<nat, nat>, owned: set<nat>, j: nat, bp: nat)
    requires Partition(L, live, owned) && bp in live
    requires Fits(L, j, Blk(bp, live[bp]))
    ensures Partition(Insert(L, j, Blk(bp, live[bp])), live - {bp}, owned)
  {
    var b, rest := Blk(bp, live[bp]), live - {bp};
    var R := Insert(L, j, b);
    forall u ensures InUse(live, u) <==> InUse(rest, u) || b.Has(u) {
      if a :| a in live && Blk(a, live[a]).Has(u) {
        assert a != bp ==> a in rest && Blk(a, rest[a]).Has(u);
      }
      if a :| a in rest && Blk(a, rest[a]).Has(u) {
        assert a in live && Blk(a, live[a]).Has(u);
      }
    }
    forall u | b.Has(u) ensures !InUse(rest, u) {
      forall a | a in rest ensures !Blk(a, rest[a]).Has(u) { assert Apart(Blk(a, live[a]), b); }
    }
    forall u ensures Covers(R, u) <==> Covers(L, u) || b.Has(u) { InsertCovers(L, j, b, u); }
  }

  ghost function Units(b: Blk): set<nat>
  {
    set u: nat | u < b.End() && b.Has(u)
  }

  /** A fresh region joins the free list. */
  lemma GrowPartition(L: seq<Blk>, live: map<nat, nat>, owned: set<nat>, j: nat, b: Blk)
    requires Partition(L, live, owned)
    requires Fits(L, j, b) && forall u | b.Has(u) :: u !in owned
    ensures Partition(Insert(L, j, b), live, owned + Units(b))
  {
    var R := Insert(L, j, b);
    forall u: nat ensures Covers(R, u) <==> Covers(L, u) || b.Has(u) { InsertCovers(L, j, b, u); }
    forall u: nat ensures u in Units(b) <==> b.Has(u) {}
  }

  /** Every block lies below an address above everything owned. */
  lemma BlocksBelow(L: seq<Blk>, live: map<nat, nat>, owned: set<nat>, top: nat)
    requires Wf(L) && Partition(L, live, owned) && L[0].addr < top
    requires forall u | u in owned :: u < top
    ensures forall i | 0 <= i < |L| :: L[i].addr < top
    ensures forall a | a in live :: a < top
  {
    forall i | 0 < i < |L| ensures L[i].addr < top {
      assert L[i].Has(L[i].addr);
      assert Covers(L, L[i].addr);
    }
    forall a | a in live ensures a < top {
      assert Blk(a, live[a]).Has(a);
      assert InUse(live, a);
    }
  }

  /** No header is both in the free list and in use. */
  lemma HeadersApart(L: seq<Blk>, live: map<nat, nat>, owned: set<nat>)
    requires Wf(L) && Partition(L, live, owned)
    requires forall u | u in owned :: L[0].addr < u
    ensures forall a, i | a in live && 0 <= i < |L| :: L[i].addr != a
  {
    forall a, i | a in live && 0 <= i < |L| ensures L[i].addr != a {
      assert Blk(a, live[a]).Has(a);
      assert InUse(live, a);
      if i > 0 {
        assert L[i].Has(L[i].addr);
        assert Covers(L, L[i].addr);
      }
    }
  }

  /** A block, or its tail, passes from the free list to the caller. */
  lemma TakePartition(L: seq<Blk>, live: map<nat, nat>, owned: set<nat>, k: nat, n: nat)
    requires Partition(L, live, owned)
    requires Wf(L) && 0 < k < |L| && 0 < n <= L[k].size
    ensures Taken(L, k, n).addr !in live
    ensures Partition(Take(L, k, n), live[Taken(L, k, n).addr := n], owned)
  {
    var R, b := Take(L, k, n), Taken(L, k, n);
    var more := live[b.addr := n];
    forall u: nat ensures (Covers(L, u) <==> Covers(R, u) || b.Has(u)) && !(Covers(R, u) && b.Has(u)) {
      TakeCovers(L, k, n, u);
    }
    forall a | a in live ensures Apart(Blk(a, live[a]), b) && a != b.addr {
      if !Apart(Blk(a, live[a]), b) || a == b.addr {
        var u := if a <= b.addr then b.addr else a;
        assert b.Has(u) && Blk(a, live[a]).Has(u);
        assert Covers(L, u) && InUse(live, u);
      }
    }
    forall u: nat ensures InUse(more, u) <==> InUse(live, u) || b.Has(u) {
      if a :| a in live && Blk(a, live[a]).Has(u) {
        assert a in more && Blk(a, more[a]).Has(u);
      }
      assert Blk(b.addr, more[b.addr]) == b;
    }
  }
}

/** malloc, free and morecore of umalloc.c on the linked free list. */
module Umalloc {
  import opened FreeList
  import opened HeapSpace
  import opened Options

  const HEADER: nat := 8
  const TWO32: nat := 0x1_0000_0000

  /** malloc's request in Headers, one of them for the block's own header, in
      32-bit arithmetic. */
  function Units32(nbytes: nat): (n: nat)
    requires nbytes < TWO32
    ensures n >= 1
  {
    (nbytes + HEADER - 1) % TWO32 / HEADER + 1
  }

  /** The payload holds the request exactly when the sum does not wrap. */
  lemma PayloadHolds(nbytes: nat)
    requires nbytes < TWO32
    ensures (Units32(nbytes) - 1) * HEADER >= nbytes <==> nbytes + HEADER - 1 < TWO32
  {
  }

  function Next(n: nat, i: nat): nat
    requires i < n
  {
    if i + 1 == n then 0 else i + 1
  }

  /** The header of block i is in memory and points to the next block. */
  ghost predicate LinkedAt(ptr: map<nat, nat>, size: map<nat, nat>, L: seq<Blk>, i: nat)
    requires i < |L|
  {
    && L[i].addr in ptr && L[i].addr in size
    && size[L[i].addr] == L[i].size
    && ptr[L[i].addr] == L[Next(|L|, i)].addr
  }

  /** The headers in memory form the cycle L. */
  ghost predicate Linked(ptr: map<nat, nat>, size: map<nat, nat>, L: seq<Blk>)
  {
    forall i | 0 <= i < |L| :: LinkedAt(ptr, size, L, i)
  }

  lemma HeaderAt(ptr: map<nat, nat>, size: map<nat, nat>, L: seq<Blk>, i: nat)
    requires Linked(ptr, size, L) && i < |L|
    ensures LinkedAt(ptr, size, L, i)
  {
  }

  lemma Distinct(L: seq<Blk>, i: nat, k: nat)
    requires Wf(L) && i < |L| && k < |L| && i != k
    ensures L[i].addr != L[k].addr
  {
    if i < k {
      Ordered(L, i, k);
    } else {
      Ordered(L, k, i);
    }
  }

  lemma SameBlock(L: seq<Blk>, i: nat, k: nat)
    requires Wf(L) && i < |L| && k < |L| && L[i].addr == L[k].addr
    ensures i == k
  {
    if i != k {
      Distinct(L, i, k);
    }
  }

  ghost predicate SameAt(m: map<nat, nat>, m': map<nat, nat>, a: nat)
  {
    a in m ==> a in m' && m'[a] == m[a]
  }

  /** Relinking around a splice: only the new block and its predecessor change. */
  lemma LinkedSplice(ptr: map<nat, nat>, size: map<nat, nat>, L: seq<Blk>, k: nat, d: nat, m: Blk, ptr': map<nat,
                     nat>, size': map<nat, nat>)
    requires Wf(L) && Linked(ptr, size, L) && 0 < k && k + d <= |L|
    requires Wf(Splice(L, k, d, m))
    requires m.addr in ptr' && m.addr in size' && size'[m.addr] == m.size
    requires ptr'[m.addr] == if k + d < |L| then L[k + d].addr else L[0].addr
    requires L[k - 1].addr in ptr' && ptr'[L[k - 1].addr] == m.addr
    requires forall i | 0 <= i < |L| && L[i].addr != m.addr && i != k - 1 :: SameAt(ptr, ptr', L[i].addr)
    requires forall i | 0 <= i < |L| && L[i].addr != m.addr :: SameAt(size, size', L[i].addr)
    ensures Linked(ptr', size', Splice(L, k, d, m))
  {
    var R := Splice(L, k, d, m);
    forall i | 0 <= i < |R| ensures LinkedAt(ptr', size', R, i) {
      if i == k {
        assert k + 1 < |R| ==> R[k + 1] == L[k + d];
      } else {
        Distinct(R, i, k);
        var i0 := if i < k then i else i + d - 1;
        assert LinkedAt(ptr, size, L, i0);
        assert R[i] == L[i0];
        if i != k - 1 {
          assert R[Next(|R|, i)] == L[Next(|L|, i0)];
        }
      }
    }
  }

  /** malloc()'s updates: unlink block k, or shorten it. */
  lemma LinkedTake(ptr: map<nat, nat>, size: map<nat, nat>, L: seq<Blk>, k: nat, n: nat)
    requires Wf(L) && Linked(ptr, size, L) && 0 < k < |L| && 0 < n <= L[k].size
    ensures L[k - 1].addr in ptr && L[k].addr in ptr
    ensures L[k].size == n ==> Linked(ptr[L[k - 1].addr := ptr[L[k].addr]], size, Take(L, k, n))
    ensures L[k].size > n ==> Linked(ptr, size[L[k].addr := L[k].size - n][Taken(L, k, n).addr := n], Take(L, k, n))
  {
    assert LinkedAt(ptr, size, L, k - 1) && LinkedAt(ptr, size, L, k);
    if L[k].size == n {
      LinkedRemove(ptr, size, L, k);
    } else {
      LinkedShorten(ptr, size, L, k, n);
    }
  }

  /** The links of the cycle without the block, or with a shorter one. */
  lemma TakeLinks(ptr: map<nat, nat>, size: map<nat, nat>, L: seq<Blk>, k: nat, n: nat)
    requires Wf(L) && Linked(ptr, size, L) && 0 < k < |L| && 0 < n <= L[k].size
    ensures LinkedAt(ptr, size, L, k) && L[k - 1].addr in ptr
    ensures L[k].size == n ==> Linked(ptr[L[k - 1].addr := ptr[L[k].addr]], size, Take(L, k, n))
    ensures L[k].size > n ==> Linked(ptr, size[L[k].addr := L[k].size - n][Taken(L, k, n).addr := n], Take(L, k, n))
    ensures Wf(Take(L, k, n)) && Take(L, k, n)[0].addr == L[0].addr
    ensures k - 1 < |Take(L, k, n)| && Take(L, k, n)[k - 1].addr == L[k - 1].addr >= L[0].addr
  {
    TakeWf(L, k, n);
    LinkedTake(ptr, size, L, k, n);
    if 1 < k { Ordered(L, 0, k - 1); }
  }

  lemma LinkedRemove(ptr: map<nat, nat>, size: map<nat, nat>, L: seq<Blk>, k: nat)
    requires Wf(L) && Linked(ptr, size, L) && 0 < k < |L|
    requires L[k - 1].addr in ptr && L[k].addr in ptr
    ensures Linked(ptr[L[k - 1].addr := ptr[L[k].addr]], size, Take(L, k, L[k].size))
  {
    var R, ptr' := Take(L, k, L[k].size), ptr[L[k - 1].addr := ptr[L[k].addr]];
    assert LinkedAt(ptr, size, L, k);
    forall i | 0 <= i < |R| ensures LinkedAt(ptr', size, R, i) {
      var i0 := if i < k then i else i + 1;
      assert LinkedAt(ptr, size, L, i0);
      assert R[i] == L[i0];
      if i != k - 1 {
        Distinct(L, i0, k - 1);
        assert R[Next(|R|, i)] == L[Next(|L|, i0)];
      } else {
        assert R[Next(|R|, i)] == L[Next(|L|, k)];
      }
    }
  }

  lemma LinkedShorten(ptr: map<nat, nat>, size: map<nat, nat>, L: seq<Blk>, k: nat, n: nat)
    requires Wf(L) && Linked(ptr, size, L) && 0 < k < |L| && 0 < n < L[k].size
    ensures Linked(ptr, size[L[k].addr := L[k].size - n][Taken(L, k, n).addr := n], Take(L, k, n))
  {
    var R, b := Take(L, k, n), Taken(L, k, n);
    var size' := size[L[k].addr := L[k].size - n][b.addr := n];
    forall i | 0 <= i < |R| ensures LinkedAt(ptr, size', R, i) {
      assert LinkedAt(ptr, size, L, i);
      if i < k {
        Ordered(L, i, k);
      } else if k < i {
        Ordered(L, k, i);
      }
      assert R[Next(|R|, i)].addr == L[Next(|L|, i)].addr;
    }
  }

  /** free()'s first update: the new header, merged with the block above. */
  ghost predicate Upper(ptr: map<nat, nat>, size: map<nat, nat>, L: seq<Blk>, j: nat, b: Blk, ptr1: map<nat, nat>,
                        size1: map<nat, nat>)
    requires j < |L|
  {
    if TouchesNext(L, j, b) then
      ptr1 == ptr[b.addr := L[Next(|L|, j + 1)].addr] && size1 == size[b.addr := b.size + L[j + 1].size]
    else
      ptr1 == ptr[b.addr := L[Next(|L|, j)].addr] && size1 == size
  }

  /** Its second: the predecessor absorbs the block, or points to it. */
  lemma LowerMerge(ptr: map<nat, nat>, size: map<nat, nat>, L: seq<Blk>, j: nat, b: Blk, ptr1: map<nat, nat>,
                   size1: map<nat, nat>)
    requires Fits(L, j, b) && Linked(ptr, size, L) && b.addr in size && size[b.addr] == b.size
    requires forall i | 0 <= i < |L| :: L[i].addr != b.addr
    requires Upper(ptr, size, L, j, b, ptr1, size1) && L[j].End() == b.addr
    ensures Linked(ptr1[L[j].addr := ptr1[b.addr]], size1[L[j].addr := L[j].size + size1[b.addr]], Insert(L, j, b))
  {
    InsertWf(L, j, b);
    var d := if TouchesNext(L, j, b) then 2 else 1;
    assert LinkedAt(ptr, size, L, j) && LinkedAt(ptr, size, L, j - 1);
    Distinct(L, j - 1, j);
    LinkedSplice(ptr, size, L, j, d, Merged(L, j, b),
                 ptr1[L[j].addr := ptr1[b.addr]], size1[L[j].addr := L[j].size + size1[b.addr]]);
  }

  lemma LowerLink(ptr: map<nat, nat>, size: map<nat, nat>, L: seq<Blk>, j: nat, b: Blk, ptr1: map<nat, nat>,
                  size1: map<nat, nat>)
    requires Fits(L, j, b) && Linked(ptr, size, L) && b.addr in size && size[b.addr] == b.size
    requires forall i | 0 <= i < |L| :: L[i].addr != b.addr
    requires Upper(ptr, size, L, j, b, ptr1, size1) && L[j].End() != b.addr
    ensures Linked(ptr1[L[j].addr := b.addr], size1, Insert(L, j, b))
  {
    if TouchesNext(L, j, b) {
      LowerLinkMerged(ptr, size, L, j, b, ptr1, size1);
    } else {
      LowerLinkAlone(ptr, size, L, j, b, ptr1, size1);
    }
  }

  lemma LowerLinkMerged(ptr: map<nat, nat>, size: map<nat, nat>, L: seq<Blk>, j: nat, b: Blk,
                        ptr1: map<nat, nat>, size1: map<nat, nat>)
    requires Fits(L, j, b) && Linked(ptr, size, L) && b.addr in size && size[b.addr] == b.size
    requires forall i | 0 <= i < |L| :: L[i].addr != b.addr
    requires Upper(ptr, size, L, j, b, ptr1, size1) && L[j].End() != b.addr && TouchesNext(L, j, b)
    ensures Linked(ptr1[L[j].addr := b.addr], size1, Insert(L, j, b))
  {
    InsertWf(L, j, b);
    assert LinkedAt(ptr, size, L, j);
    forall i | 0 <= i < |L| && i != j ensures L[i].addr != L[j].addr { Distinct(L, i, j); }
    LinkedSplice(ptr, size, L, j + 1, 1, Merged(L, j, b), ptr1[L[j].addr := b.addr], size1);
  }

  lemma LowerLinkAlone(ptr: map<nat, nat>, size: map<nat, nat>, L: seq<Blk>, j: nat, b: Blk,
                       ptr1: map<nat, nat>, size1: map<nat, nat>)
    requires Fits(L, j, b) && Linked(ptr, size, L) && b.addr in size && size[b.addr] == b.size
    requires forall i | 0 <= i < |L| :: L[i].addr != b.addr
    requires Upper(ptr, size, L, j, b, ptr1, size1) && L[j].End() != b.addr && !TouchesNext(L, j, b)
    ensures Linked(ptr1[L[j].addr := b.addr], size1, Insert(L, j, b))
  {
    InsertWf(L, j, b);
    assert LinkedAt(ptr, size, L, j);
    forall i | 0 <= i < |L| && i != j ensures L[i].addr != L[j].addr { Distinct(L, i, j); }
    LinkedSplice(ptr, size, L, j + 1, 0, Merged(L, j, b), ptr1[L[j].addr := b.addr], size1);
  }

  datatype Links = Links(ptr: map<nat, nat>, size: map<nat, nat>)

  ghost predicate Readable(m: Links, p: nat, bp: nat)
  {
    bp in m.size && p in m.size && p in m.ptr && m.ptr[p] in m.ptr && m.ptr[p] in m.size
  }

  /** The link updates of free(), once it has found the predecessor p. */
  ghost function Unite(m: Links, p: nat, bp: nat): Links
    requires Readable(m, p, bp)
  {
    var nx := m.ptr[p];
    var m1 := if bp + m.size[bp] == nx then Links(m.ptr[bp := m.ptr[nx]], m.size[bp := m.size[bp] + m.size[nx]])
              else Links(m.ptr[bp := nx], m.size);
    if p + m1.size[p] == bp then Links(m1.ptr[p := m1.ptr[bp]], m1.size[p := m1.size[p] + m1.size[bp]])
    else Links(m1.ptr[p := bp], m1.size)
  }

  /** They turn the cycle L into the cycle with b inserted. */
  lemma UniteLinks(m: Links, L: seq<Blk>, j: nat, bp: nat)
    requires bp in m.size && Fits(L, j, Blk(bp, m.size[bp])) && Linked(m.ptr, m.size, L)
    requires forall i | 0 <= i < |L| :: L[i].addr != bp
    ensures Readable(m, L[j].addr, bp)
    ensures var m1 := Unite(m, L[j].addr, bp);
            Linked(m1.ptr, m1.size, Insert(L, j, Blk(bp, m.size[bp])))
  {
    var b, p := Blk(bp, m.size[bp]), L[j].addr;
    assert LinkedAt(m.ptr, m.size, L, j) && LinkedAt(m.ptr, m.size, L, Next(|L|, j));
    var nx := m.ptr[p];
    var up := bp + m.size[bp] == nx;
    assert up <==> TouchesNext(L, j, b);
    var ptr1 := m.ptr[bp := if up then m.ptr[nx] else nx];
    var size1 := if up then m.size[bp := m.size[bp] + m.size[nx]] else m.size;
    assert Upper(m.ptr, m.size, L, j, b, ptr1, size1);
    if L[j].End() == bp {
      LowerMerge(m.ptr, m.size, L, j, b, ptr1, size1);
    } else {
      LowerLink(m.ptr, m.size, L, j, b, ptr1, size1);
    }
  }

  /** How many steps along the cycle from index i to index j. */
  function Distance(n: nat, i: nat, j: nat): nat
    requires i < n && j < n
  {
    if i <= j then j - i else j - i + n
  }

  /** The index m steps along the cycle from f. */
  function At(n: nat, f: nat, m: nat): nat
    requires f < n && m <= n
  {
    if f + m < n then f + m else f + m - n
  }

  /** The m blocks after block f are too small for n units. */
  ghost predicate TooSmall(L: seq<Blk>, f: nat, m: nat, n: nat)
    requires f < |L| && m <= |L|
  {
    forall i | 1 <= i <= m :: L[At(|L|, f, i)].size < n
  }

  /** Some block of L has n units. */
  ghost predicate HasRoom(L: seq<Blk>, n: nat)
  {
    exists k | 0 <= k < |L| :: L[k].size >= n
  }

  /** Block f is at freep, the m blocks behind it are too small, and block k behind
      those has n units. */
  ghost predicate FirstFit(L: seq<Blk>, freep: nat, f: nat, m: nat, k: nat, n: nat)
  {
    && f < |L| && m < |L| && L[f].addr == freep && TooSmall(L, f, m, n)
    && 0 < k == At(|L|, f, m + 1) && L[k].size >= n
  }

  lemma NotBackYet(L: seq<Blk>, f: nat, m: nat, n: nat, m': nat)
    requires f < |L| && m < |L| && TooSmall(L, f, m, n) && m' == m + 1
    requires L[At(|L|, f, m')].size < n && L[At(|L|, f, m')].addr != L[f].addr
    ensures m' < |L| && TooSmall(L, f, m', n)
    ensures At(|L|, f, m' + 1) == Next(|L|, At(|L|, f, m'))
  {
  }

  lemma BackAtStart(L: seq<Blk>, f: nat, m: nat, n: nat)
    requires Wf(L) && f < |L| && m < |L| && TooSmall(L, f, m, n)
    requires L[At(|L|, f, m + 1)].size < n && L[At(|L|, f, m + 1)].addr == L[f].addr
    ensures forall k | 0 <= k < |L| :: L[k].size < n
  {
    SameBlock(L, At(|L|, f, m + 1), f);
    FullTurn(L, f, n);
  }

  lemma FullTurn(L: seq<Blk>, f: nat, n: nat)
    requires f < |L| && TooSmall(L, f, |L|, n)
    ensures forall k | 0 <= k < |L| :: L[k].size < n
  {
    forall k | 0 <= k < |L| ensures L[k].size < n {
      var i := if f < k then k - f else k - f + |L|;
      assert At(|L|, f, i) == k;
    }
  }

  lemma NextCloser(n: nat, i: nat, j: nat)
    requires i < n && j < n && i != j
    ensures Distance(n, Next(n, i), j) == Distance(n, i, j) - 1
  {
  }

  /** The test that ends free()'s search, at block i. */
  ghost predicate Stops(L: seq<Blk>, i: nat, bp: nat)
    requires i < |L|
  {
    var p, next := L[i].addr, L[Next(|L|, i)].addr;
    (p < bp < next) || (p >= next && (bp > p || bp < next))
  }

  lemma StopsAtPred(L: seq<Blk>, i: nat, bp: nat)
    requires Wf(L) && i < |L| && L[0].addr < bp
    requires forall k | 0 <= k < |L| :: L[k].addr != bp
    ensures Stops(L, i, bp) <==> i == Pred(L, bp)
  {
    var j := Pred(L, bp);
    if i < j {
      Ordered(L, i, j);
      if i + 1 < j {
        Ordered(L, i + 1, j);
      }
    } else if j < i {
      if j + 1 < i {
        Ordered(L, j + 1, i);
      }
    }
    if i + 1 < |L| {
      Ordered(L, i, i + 1);
    } else if 0 < i {
      Ordered(L, 0, i);
    }
  }

  class Heap {
    const base: nat
    var ptr: map<nat, nat>   // s.ptr of each header
    var size: map<nat, nat>  // s.size of each header
    var freep: nat           // 0 before the first malloc
    var brk: nat             // end of the process's memory

    ghost var list: seq<Blk>        // the free list in address order, base first
    ghost var live: map<nat, nat>   // blocks in use: header address to size
    ghost var owned: set<nat>       // every unit sbrk has granted
    ghost var sbrks: nat            // calls of sbrk so far

    ghost predicate Ready()
      reads this
    {
      && Wf(list) && list[0].addr == base && 0 < base
      && Linked(ptr, size, list)
      && exists f | 0 <= f < |list| :: list[f].addr == freep
    }

    /** The heap invariant. */
    ghost predicate Valid()
      reads this
    {
      && 0 < base < brk
      && (freep == 0 ==> list == [] && live == map[] && owned == {})
      && (freep != 0 ==> Ready())
      && Partition(list, live, owned)
      && (forall a | a in live :: a in size && size[a] == live[a])
      && (forall u | u in owned :: base < u < brk)
    }

    constructor (base: nat, brk: nat)
      requires 0 < base < brk
      ensures Valid() && this.base == base && this.brk == brk
      ensures freep == 0 && live == map[] && owned == {}
    {
      this.base, this.brk := base, brk;
      ptr, size, freep := map[], map[], 0;
      list, live, owned, sbrks := [], map[], {}, 0;
    }

    /** free()'s search: the free block after which bp belongs. It is found
        within one turn of the cycle. */
    method FindGap(bp: nat) returns (p: nat, ghost turns: nat)
      requires Wf(list) && list[0].addr == base < bp && Linked(ptr, size, list)
      requires exists f | 0 <= f < |list| :: list[f].addr == freep
      requires forall i | 0 <= i < |list| :: list[i].addr != bp
      ensures p == list[Pred(list, bp)].addr
      ensures turns < |list|
    {
      ghost var j := Pred(list, bp);
      ghost var i :| 0 <= i < |list| && list[i].addr == freep;
      ghost var d := Distance(|list|, i, j);
      p, turns := freep, 0;
      StopsAtPred(list, i, bp);
      assert LinkedAt(ptr, size, list, i);
      while !(p < bp && bp < ptr[p])
        invariant 0 <= i < |list| && list[i].addr == p && LinkedAt(ptr, size, list, i)
        invariant turns + Distance(|list|, i, j) == d
        invariant Stops(list, i, bp) <==> i == j
        decreases Distance(|list|, i, j)
      {
        if p >= ptr[p] && (bp > p || bp < ptr[p]) {
          break;
        }
        p := ptr[p];
        NextCloser(|list|, i, j);
        i := Next(|list|, i);
        turns := turns + 1;
        StopsAtPred(list, i, bp);
      }
    }

    /** free(), on a block that is not in the list: link it in at its address,
        merged with the neighbours it touches. */
    method LinkIn(bp: nat)
      requires Ready() && base < bp
      requires forall i | 0 <= i < |list| :: list[i].addr != bp
      requires bp in size && Fits(list, Pred(list, bp), Blk(bp, size[bp]))
      modifies this`ptr, this`size, this`freep, this`list
      ensures var j := Pred(old(list), bp);
              && list == Insert(old(list), j, Blk(bp, old(size)[bp]))
              && freep == old(list)[j].addr
      ensures Ready() && freep != 0
      ensures forall a | a in old(size) && a != bp && a != freep :: a in size && size[a] == old(size)[a]
    {
      ghost var L, j, b := list, Pred(list, bp), Blk(bp, size[bp]);
      var p, turns := FindGap(bp);
      assert Wf(Insert(L, j, b)) && Insert(L, j, b)[0] == L[0] by { InsertWf(L, j, b); }
      PredStays(L, j, b);
      UniteLinks(Links(ptr, size), L, j, bp);
      Relink(p, bp);
      freep := p;
      list := Insert(L, j, b);
    }

    method Relink(p: nat, bp: nat)
      requires Readable(Links(ptr, size), p, bp)
      modifies this`ptr, this`size
      ensures Links(ptr, size) == Unite(Links(old(ptr), old(size)), p, bp)
      ensures forall a | a in old(size) && a != bp && a != p :: a in size && size[a] == old(size)[a]
    {
      if bp + size[bp] == ptr[p] {
        size := size[bp := size[bp] + size[ptr[p]]];
        ptr := ptr[bp := ptr[ptr[p]]];
      } else {
        ptr := ptr[bp := ptr[p]];
      }
      if p + size[p] == bp {
        size := size[p := size[p] + size[bp]];
        ptr := ptr[p := ptr[bp]];
      } else {
        ptr := ptr[p := bp];
      }
    }

    /** What giving the block at header bp back does to the heap. */
    twostate predicate GaveBack(bp: nat)
      reads this
    {
      && bp in old(live) && |old(list)| > 0 && old(list)[0].addr < bp
      && list == Insert(old(list), Pred(old(list), bp), Blk(bp, old(live)[bp]))
      && live == old(live) - {bp}
      && owned == old(owned) && brk == old(brk) && sbrks == old(sbrks)
    }

    /** free(ap) for a pointer that malloc returned and that is still in use. */
    method Free(ap: nat)
      requires Valid() && ap >= 1 && ap - 1 in live
      modifies this
      ensures Valid() && GaveBack(ap - 1)
    {
      FreeHeader(ap - 1);
    }

    method FreeHeader(bp: nat)
      requires Valid() && bp in live
      modifies this
      ensures Valid() && GaveBack(bp)
    {
      LiveClear(bp);
      ghost var L, j, b, was := list, Pred(list, bp), Blk(bp, live[bp]), live;
      assert Fits(L, j, b) by { GapFits(L, b); }
      assert b == Blk(bp, size[bp]);
      LinkIn(bp);
      live := live - {bp};
      assert Partition(list, live, owned) by { FreePartition(L, was, owned, j, bp); }
    }

    /** A live block is above base and clear of the free list. */
    lemma LiveClear(bp: nat)
      requires Valid() && bp in live
      ensures base < bp && freep != 0
      ensures forall u | Blk(bp, live[bp]).Has(u) :: !Covers(list, u)
      ensures forall a, i | a in live && 0 <= i < |list| :: list[i].addr != a
    {
      assert Blk(bp, live[bp]).Has(bp);
      assert InUse(live, bp);
      forall u | Blk(bp, live[bp]).Has(u) ensures !Covers(list, u) { assert InUse(live, u); }
      HeadersApart(list, live, owned);
    }

    /** sbrk: extend the process's memory by n units, or fail.  Whether there is
        memory is the kernel's affair. */
    method Sbrk(n: nat) returns (r: Option<nat>)
      modifies this`brk, this`sbrks
      ensures sbrks == old(sbrks) + 1
      ensures if r.Some? then r.value == old(brk) && brk == old(brk) + n else brk == old(brk)
    {
      sbrks := sbrks + 1;
      var granted: bool := *;
      if granted {
        r := Some(brk);
        brk := brk + n;
      } else {
        r := None;
      }
    }

    /** morecore: get at least nu units from sbrk and free them. */
    method Morecore(nu: nat) returns (p: nat)
      requires Valid() && freep != 0 && nu > 0
      modifies this
      ensures Valid() && freep != 0 && live == old(live) && sbrks == old(sbrks) + 1
      ensures p == 0 ==> list == old(list) && freep == old(freep) && owned == old(owned) && brk == old(brk)
      ensures p != 0 ==> p == freep && HasRoom(list, nu)
      ensures old(owned) <= owned
    {
      var n := if nu < 4096 then 4096 else nu;
      var r := Sbrk(n);
      if r.None? {
        return 0;
      }
      var hp := r.value;
      BlocksBelow(list, live, owned, hp);
      ghost var size0 := size;
      size := size[hp := n];
      forall i | 0 <= i < |list| ensures LinkedAt(ptr, size, list, i) { assert LinkedAt(ptr, size0, list, i); }
      AddRegion(hp);
      p := freep;
    }

    /** The region at hp, just granted, joins the free list. */
    method AddRegion(hp: nat)
      requires base < hp && hp in size && size[hp] > 0 && hp + size[hp] <= brk
      requires Ready() && freep != 0 && Partition(list, live, owned)
      requires forall a | a in live :: a in size && size[a] == live[a]
      requires forall u | u in owned :: base < u < hp
      modifies this`ptr, this`size, this`freep, this`list, this`owned
      ensures Valid() && freep != 0
      ensures owned == old(owned) + Units(Blk(hp, old(size)[hp]))
      ensures exists k | 0 < k < |list| :: list[k].size >= old(size)[hp]
    {
      ghost var L, j, b := list, Pred(list, hp), Blk(hp, size[hp]);
      BlocksBelow(list, live, owned, hp);
      HeadersApart(list, live, owned);
      assert Fits(L, j, b) by {
        assert forall u | b.Has(u) :: u !in owned;
        GapFits(L, b);
      }
      LinkIn(hp);
      owned := owned + Units(b);
      assert Partition(list, live, owned) by { GrowPartition(L, live, old(owned), j, b); }
      GrownBlock(L, j, b);
    }

    /** The first malloc: the free list is base alone. */
    method Init()
      requires Valid() && freep == 0
      modifies this`ptr, this`size, this`freep, this`list
      ensures Valid() && freep == base && list == [Blk(base, 0)]
    {
      ptr, size, freep := ptr[base := base], size[base := 0], base;
      list := [Blk(base, 0)];
      assert LinkedAt(ptr, size, list, 0);
    }

    /** Unlink the block at p, or its last n units. */
    method CarveLinks(prevp: nat, p: nat, n: nat, ghost k: nat) returns (r: nat)
      requires Ready() && 0 < k < |list| && 0 < n <= list[k].size
      requires prevp == list[k - 1].addr && p == list[k].addr
      modifies this`ptr, this`size, this`freep, this`list
      ensures Ready() && freep == prevp != 0
      ensures list == Take(old(list), k, n) && r == Taken(old(list), k, n).addr
      ensures forall a | a in old(size) && a != p && a != r :: a in size && size[a] == old(size)[a]
      ensures r in size && size[r] == n
    {
      ghost var L := list;
      TakeLinks(ptr, size, L, k, n);
      r := p;
      if size[p] == n {
        ptr := ptr[prevp := ptr[p]];
      } else {
        size := size[p := size[p] - n];
        r := p + size[p];
        size := size[r := n];
      }
      freep := prevp;
      list := Take(L, k, n);
    }

    /** Allocate n units from the block at p, whose predecessor is prevp. */
    method Carve(prevp: nat, p: nat, n: nat, ghost f: nat, ghost m: nat, ghost k: nat) returns (ap: nat)
      requires Valid() && freep != 0 && 0 < n && FirstFit(list, freep, f, m, k, n)
      requires prevp == list[k - 1].addr && p == list[k].addr
      modifies this`ptr, this`size, this`freep, this`list, this`live
      ensures Valid() && freep == prevp != 0
      ensures ap != 0 && ap - 1 !in old(live) && live == old(live)[ap - 1 := n]
      ensures Served(old(list), old(freep), list, ap - 1, n)
    {
      HeadersApart(list, live, owned);
      TakePartition(list, live, owned, k, n);
      var r := CarveLinks(prevp, p, n, k);
      live := live[r := n];
      ap := r + 1;
      assert FirstFit(old(list), old(freep), f, m, k, n);
    }

    /** One turn of malloc's loop round the cycle, from the block after freep
        to freep itself: the first block with n units, if there is one. */
    method Turn(n: nat) returns (found: bool, prevp: nat, p: nat, ghost f: nat, ghost m: nat, ghost k: nat)
      requires Ready() && n > 0
      ensures found <==> HasRoom(list, n)
      ensures found ==> FirstFit(list, freep, f, m, k, n) && prevp == list[k - 1].addr && p == list[k].addr
    {
      f :| 0 <= f < |list| && list[f].addr == freep;
      m := 0;
      k := At(|list|, f, 1);
      prevp := freep;
      HeaderAt(ptr, size, list, f);
      p := ptr[prevp];
      while true
        invariant f < |list| && list[f].addr == freep && m < |list| && k == At(|list|, f, m + 1)
        invariant prevp == list[At(|list|, f, m)].addr && p == list[k].addr
        invariant TooSmall(list, f, m, n)
        decreases |list| - m
      {
        HeaderAt(ptr, size, list, k);
        if size[p] >= n {
          return true, prevp, p, f, m, k;
        }
        if p == freep {
          BackAtStart(list, f, m, n);
          return false, prevp, p, f, m, k;
        }
        ghost var m' := m + 1;
        NotBackYet(list, f, m, n, m');
        prevp, p := p, ptr[p];
        m, k := m', Next(|list|, k);
      }
    }

    /** malloc(nbytes): first fit, starting after freep. If a turn of the free
        list finds nothing the heap grows, once, and another turn is sure to
        succeed. The byte count passed to sbrk must fit its int argument. */
    method Malloc(nbytes: nat) returns (ap: nat)
      requires Valid() && nbytes < TWO32 && Units32(nbytes) * HEADER < 0x8000_0000
      modifies this
      ensures Valid() && old(owned) <= owned && sbrks <= old(sbrks) + 1
      ensures ap == 0 ==> live == old(live) && owned == old(owned) && !HasRoom(list, Units32(nbytes))
      ensures ap != 0 ==> ap - 1 !in old(live) && live == old(live)[ap - 1 := Units32(nbytes)]
      ensures HasRoom(old(list), Units32(nbytes)) ==>
                && ap != 0 && sbrks == old(sbrks) && owned == old(owned)
                && Served(old(list), old(freep), list, ap - 1, Units32(nbytes))
    {
      if freep == 0 {
        Init();
      }
      ap := AllocUnits(Units32(nbytes));
    }

    /** A turn round the cycle, and what malloc does if it finds a block. */
    method Serve(n: nat) returns (ap: nat)
      requires Valid() && freep != 0 && n > 0
      modifies this`ptr, this`size, this`freep, this`list, this`live
      ensures Valid() && freep != 0
      ensures ap == 0 ==> list == old(list) && freep == old(freep) && live == old(live) && !HasRoom(list, n)
      ensures ap != 0 ==> ap - 1 !in old(live) && live == old(live)[ap - 1 := n]
                          && Served(old(list), old(freep), list, ap - 1, n)
    {
      var found, prevp, p, f, m, k := Turn(n);
      if !found { return 0; }
      ap := Carve(prevp, p, n, f, m, k);
    }

    /** malloc's loop: first fit, starting after freep; after a turn without a fit
        the heap grows, and then the next turn finds one. */
    method AllocUnits(n: nat) returns (ap: nat)
      requires Valid() && freep != 0 && n > 0
      modifies this
      ensures Valid() && old(owned) <= owned && sbrks <= old(sbrks) + 1
      ensures ap == 0 ==> live == old(live) && owned == old(owned) && !HasRoom(list, n)
      ensures ap != 0 ==> ap - 1 !in old(live) && live == old(live)[ap - 1 := n]
      ensures HasRoom(old(list), n) ==>
                && ap != 0 && sbrks == old(sbrks) && owned == old(owned)
                && Served(old(list), old(freep), list, ap - 1, n)
    {
      var grown := false;
      while true
        invariant Valid() && freep != 0 && live == old(live) && old(owned) <= owned
        invariant sbrks == old(sbrks) + if grown then 1 else 0
        invariant if grown then HasRoom(list, n) && !HasRoom(old(list), n)
                  else list == old(list) && freep == old(freep) && owned == old(owned)
        decreases if grown then 0 else 1
      {
        ap := Serve(n);
        if ap != 0 { return; }
        var p := Morecore(n);
        if p == 0 { return; }
        grown := true;
      }
    }
  }

  /** The n units at r came out of the first fitting block of L behind freep, leaving R. */
  ghost predicate Served(L: seq<Blk>, freep: nat, R: seq<Blk>, r: int, n: nat)
  {
    exists f, m, k | FirstFit(L, freep, f, m, k, n) :: R == Take(L, k, n) && r == Taken(L, k, n).addr
  }
}
