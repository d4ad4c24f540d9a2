/** How many pages setupkvm and copyuvm (vm.c) take from the free list. */
module PageCounts {
  import opened PageTables
  import opened FreeVm

  predicate AtLeast(lo: nat, f: nat)
  {
    lo <= f
  }

  function Between(lo: nat, hi: nat): (r: set<nat>)
    ensures forall f :: f in r <==> lo <= f < hi
  {
    set f: nat | f < hi && AtLeast(lo, f)
  }

  lemma {:induction false} SubsetSize(a: set<nat>, b: set<nat>)
    requires a <= b
    ensures |a| <= |b|
  {
    if a != {} {
      var x :| x in a;
      SubsetSize(a - {x}, b - {x});
    }
  }

  /** A set with one more element than is there. */
  lemma OneMissing(a: set<nat>, x: nat, b: set<nat>)
    requires a <= b && x in b && x !in a
    ensures |a| < |b|
  {
    SubsetSize(a + {x}, b);
  }

  // ---------------------------------------------------------------
  // Tables.

  /** The directory indices of the pages from lo up to hi. */
  function Dirs(lo: nat, hi: nat): set<nat>
  {
    if lo >= hi then {} else Between(lo / 1024, (hi - 1) / 1024 + 1)
  }

  lemma DirsNext(lo: nat, v: nat)
    requires lo <= v
    ensures Dirs(lo, v + 1) == Dirs(lo, v) + {v / 1024}
  {
  }

  lemma DirsMore(lo: nat, v: nat, hi: nat)
    requires v <= hi
    ensures Dirs(lo, v) <= Dirs(lo, hi)
  {
  }

  /** mappages of one page takes a page from the free list just when the page's
      table is missing. */
  lemma MapTakes(m: Mem, spaces: set<nat>, others: set<nat>, d: nat, i: nat, j: nat, f: nat, flags: Flags)
    requires Inv(m, spaces, others) && d in spaces && i < NENTRIES && j < NENTRIES
    requires IsTable(m, d) && (forall k | 0 <= k < |m.free| :: m.free[k] < |m.frames|)
    requires MapPage(m, d, i, j, f, flags).Mapped?
    ensures var m' := MapPage(m, d, i, j, f, flags).mem;
            && Tables(m', d) == Tables(m, d) + {i}
            && |m'.free| == |m.free| - if i in Tables(m, d) then 0 else 1
  {
    Intact(m, spaces, others, d);
    var owner :| Split(m, spaces, others, owner);
    assert SlotOk(m, spaces, owner, Root(d));
    assert SlotOk(m, spaces, owner, Inner(d, i));
    var m1 := if Pde(m, d, i).Empty? then NewTable(m, d, i) else m;
    var t := Pde(m1, d, i).frame;
    assert t != d;
    var m' := SetEntry(m1, t, j, Present(f, flags));
    assert Entries(m', d) == Entries(m1, d);
    assert Entries(m1, d) == if Pde(m, d, i).Empty? then Entries(m, d)[i := Present(t, TABLE_FLAGS)] else Entries(m, d);
    assert Tables(m', d) == Tables(m, d) + {i};
  }

  /** Free pages and tables of d together. */
  ghost function Used(m: Mem, d: nat): nat
  {
    |m.free| + |Tables(m, d)|
  }

  lemma UsedSame(m: Mem, d: nat, i: nat, m': Mem)
    requires Tables(m', d) == Tables(m, d) + {i} && |m'.free| == |m.free| - if i in Tables(m, d) then 0 else 1
    ensures Used(m', d) == Used(m, d)
  {
    assert i in Tables(m, d) ==> Tables(m, d) + {i} == Tables(m, d);
  }

  lemma TablesSame(m: Mem, d: nat, m': Mem)
    requires SpaceSame(m, d, m')
    ensures Tables(m', d) == Tables(m, d)
  {
  }

  // ---------------------------------------------------------------
  // copyuvm.

  /** Pages and tables for copies of pages 1 to v - 1. */
  function Need(v: nat): nat
    requires 0 < v
  {
    v - 1 + if v == 1 then 0 else (v - 1) / 1024 + 1
  }

  /** With g pages left for pages 1 to l - 1, the last of them is taken for a page
      whose table is missing. */
  predicate Starved(g: nat, l: nat)
  {
    1 < l && (g == 1 || (0 < g && g % 1025 == 0 && 1024 * (g / 1025) < l))
  }

  lemma NeedIs(v: nat)
    requires 0 < v
    ensures v / 1024 in Dirs(1, v) <==> !(v == 1 || v % 1024 == 0)
    ensures Need(v + 1) == Need(v) + if v / 1024 in Dirs(1, v) then 1 else 2
  {
  }

  lemma NeedGrows(v: nat, l: nat)
    requires 0 < v < l
    ensures Need(v) < Need(l) && (v == 1 || v % 1024 == 0 ==> Need(v) + 1 < Need(l))
  {
  }

  /** No page left for page v. */
  lemma NoPageLeft(g: nat, v: nat, l: nat)
    requires 0 < v < l && g == Need(v)
    ensures g < Need(l) && !Starved(g, l)
  {
    NeedGrows(v, l);
    if v > 1 {
      var q, s := (v - 1) / 1024, (v - 1) % 1024;
      assert g == 1025 * q + (s + 1);
      assert g % 1025 == s + 1;
    }
  }

  lemma NeedAtTable(q: nat)
    requires 0 < q
    ensures Need(1024 * q) == 1025 * q - 1 && (1025 * q) % 1025 == 0 && (1025 * q) / 1025 == q
  {
    assert 1024 * q - 1 == 1024 * (q - 1) + 1023;
  }

  /** A page left for page v, but none for its table. */
  lemma NoTableLeft(g: nat, v: nat, l: nat)
    requires 0 < v < l && g == Need(v) + 1 && (v == 1 || v % 1024 == 0)
    ensures g < Need(l) && Starved(g, l)
  {
    NeedGrows(v, l);
    if v > 1 {
      var q := v / 1024;
      assert v == 1024 * q;
      NeedAtTable(q);
    }
  }

  lemma NotStarved(g: nat, l: nat)
    requires 0 < l && Need(l) <= g
    ensures !Starved(g, l)
  {
    var q := g / 1025;
    assert g % 1025 == 0 ==> g == 1025 * q;
  }

  /** The first page from v on that is not mapped, or n. */
  function FirstAbsent(m: Mem, d: nat, v: nat, n: nat): (r: nat)
    ensures v <= r && (r < n ==> !IsMapped(m, d, r)) && (r <= n || r == v)
    ensures forall u | v <= u < r :: IsMapped(m, d, u)
    decreases n - v
  {
    if v >= n || !IsMapped(m, d, v) then v else FirstAbsent(m, d, v + 1, n)
  }
}
