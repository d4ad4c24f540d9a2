/** deallocuvm and freevm (vm.c): which pages go back to the free list. */
module FreeVm {
  import opened PageTables

  // ---------------------------------------------------------------
  // The scan of deallocuvm.

  /** The pages in [v, hi) that deallocuvm looks at, when the directory has the
      tables in dirs.  From a page without a table it goes 1024 pages on. */
  function Scan(dirs: set<nat>, v: nat, hi: nat): (r: set<nat>)
    ensures forall u | u in r :: v <= u < hi && u / 1024 in dirs
    decreases if v < hi then hi - v else 0
  {
    if v >= hi then {}
    else if v / 1024 !in dirs then Scan(dirs, v + 1024, hi)
    else {v} + Scan(dirs, v + 1, hi)
  }

  lemma {:induction false} ScanAligned(dirs: set<nat>, v: nat, hi: nat, u: nat)
    requires v % 1024 == 0 || v / 1024 in dirs
    requires v <= u < hi && u / 1024 in dirs
    ensures u in Scan(dirs, v, hi)
    decreases hi - v
  {
    if v / 1024 !in dirs {
      assert u >= v + 1024;
      ScanAligned(dirs, v + 1024, hi, u);
    } else if u != v {
      assert (v + 1) % 1024 == 0 || (v + 1) / 1024 == v / 1024;
      ScanAligned(dirs, v + 1, hi, u);
    }
  }

  /** k is the first table behind index from. */
  ghost predicate FirstAfter(dirs: set<nat>, from: nat, k: nat)
  {
    from < k && k in dirs && forall l | from < l < k :: l !in dirs
  }

  /** From inside a stretch without a table the scan comes to the next table at the
      same offset, and has missed the pages before that offset. */
  ghost predicate Missed(dirs: set<nat>, lo: nat, hi: nat, u: nat)
  {
    && lo % 1024 != 0 && lo / 1024 !in dirs && FirstAfter(dirs, lo / 1024, u / 1024)
    && u % 1024 < lo % 1024 && u < hi
  }

  /** The missed pages are one interval: the start of the first table. */
  lemma MissedInterval(dirs: set<nat>, lo: nat, hi: nat, k: nat, u: nat)
    requires lo % 1024 != 0 && lo / 1024 !in dirs && FirstAfter(dirs, lo / 1024, k)
    ensures Missed(dirs, lo, hi, u) <==> k * 1024 <= u < hi && u < k * 1024 + lo % 1024
  {
    if FirstAfter(dirs, lo / 1024, u / 1024) {
      assert !(u / 1024 < k) && !(k < u / 1024);
    }
  }

  /** deallocuvm looks at all pages of its range that have a table, but for those. */
  lemma {:induction false} ScanExact(dirs: set<nat>, v: nat, hi: nat, u: nat)
    requires v <= u < hi && u / 1024 in dirs
    ensures u in Scan(dirs, v, hi) <==> !Missed(dirs, v, hi, u)
    decreases u - v
  {
    if v % 1024 == 0 || v / 1024 in dirs {
      ScanAligned(dirs, v, hi, u);
    } else {
      var v' := v + 1024;
      assert v' / 1024 == v / 1024 + 1 && v' % 1024 == v % 1024;
      if v' <= u {
        ScanExact(dirs, v', hi, u);
        assert v' / 1024 !in dirs ==> (FirstAfter(dirs, v / 1024, u / 1024) <==> FirstAfter(dirs, v' / 1024, u / 1024));
      } else {
        assert u / 1024 == v' / 1024 && u % 1024 < v % 1024;
        assert FirstAfter(dirs, v / 1024, u / 1024);
      }
    }
  }

  // ---------------------------------------------------------------
  // Pages given back.

  function Place(x: Slot): nat
    requires x.Page?
  {
    x.i * 1024 + x.j
  }

  predicate Among(x: Slot, d: nat, done: set<nat>)
  {
    x.Page? && x.d == d && Place(x) in done
  }

  function Cleared(ptes: seq<Pte>, base: nat, done: set<nat>): seq<Pte>
  {
    seq(|ptes|, j requires 0 <= j < |ptes| => if base + j in done then Empty else ptes[j])
  }

  /** What page f holds when the user pages of d at the places in done have been
      freed and their entries cleared. */
  function After(m: Mem, owner: map<nat, Slot>, d: nat, done: set<nat>, f: nat): Content
    requires f < |m.frames|
  {
    if f in owner && Among(owner[f], d, done) then Junk
    else if f in owner && owner[f].Inner? && owner[f].d == d && IsTable(m, f)
    then Table(Cleared(m.frames[f].ptes, owner[f].i * 1024, done))
    else m.frames[f]
  }

  ghost predicate FreeIs(m: Mem, owner: map<nat, Slot>, d: nat, done: set<nat>, m': Mem)
  {
    FreeOk(m') && forall f :: f in m'.free <==> f in m.free || (f in owner && Among(owner[f], d, done))
  }

  ghost predicate Given(m: Mem, owner: map<nat, Slot>, d: nat, done: set<nat>, m': Mem)
  {
    && |m'.frames| == |m.frames|
    && (forall f | 0 <= f < |m.frames| :: m'.frames[f] == After(m, owner, d, done, f))
    && FreeIs(m, owner, d, done, m')
  }

  lemma GivenNone(m: Mem, spaces: set<nat>, owner: map<nat, Slot>, d: nat)
    requires Owned(m, spaces, owner)
    ensures Given(m, owner, d, {}, m)
  {
    forall f | 0 <= f < |m.frames| ensures m.frames[f] == After(m, owner, d, {}, f) {
      if IsTable(m, f) && f in owner && owner[f].Inner? {
        assert Cleared(m.frames[f].ptes, owner[f].i * 1024, {}) == m.frames[f].ptes;
      }
    }
  }

  /** The directory and the entries not yet passed are as they were. */
  lemma GivenLookup(m: Mem, spaces: set<nat>, owner: map<nat, Slot>, d: nat, done: set<nat>, m': Mem, i: nat, j: nat)
    requires Owned(m, spaces, owner) && d in spaces && i < NENTRIES && j < NENTRIES && Given(m, owner, d, done, m')
    ensures IsTable(m', d) && Pde(m', d, i) == Pde(m, d, i)
    ensures Pde(m, d, i).Present? ==> IsTable(m', Pde(m, d, i).frame) && Pde(m, d, i).frame in owner
                                      && owner[Pde(m, d, i).frame] == Inner(d, i)
    ensures i * 1024 + j !in done ==> Lookup(m', d, i, j) == Lookup(m, d, i, j)
  {
    assert SlotOk(m, spaces, owner, Root(d));
    assert OwnerOk(m, spaces, owner, d);
    assert SlotOk(m, spaces, owner, Inner(d, i));
    if Pde(m, d, i).Present? { assert OwnerOk(m, spaces, owner, Pde(m, d, i).frame); }
  }

  lemma SamePlace(x: Slot, d: nat, i: nat, j: nat)
    requires x.Page? && x.d == d && x.j < NENTRIES && j < NENTRIES && Place(x) == i * 1024 + j
    ensures x == Page(d, i, j)
  {
  }

  /** Who is newly among the pages given back. */
  lemma NewlyAmong(m: Mem, spaces: set<nat>, owner: map<nat, Slot>, d: nat, done: set<nat>, i: nat, j: nat, g: nat)
    requires Owned(m, spaces, owner) && d in spaces && i < NUSER && j < NENTRIES && g in owner
    ensures Among(owner[g], d, done + {i * 1024 + j}) <==>
            Among(owner[g], d, done) || (Lookup(m, d, i, j).Present? && Lookup(m, d, i, j).frame == g)
  {
    assert OwnerOk(m, spaces, owner, g);
    assert SlotOk(m, spaces, owner, Page(d, i, j));
    if owner[g].Page? && owner[g].d == d && Place(owner[g]) == i * 1024 + j {
      SamePlace(owner[g], d, i, j);
    }
  }

  /** Clearing one more entry of one table. */
  lemma ClearOne(ptes: seq<Pte>, base: nat, done: set<nat>, i: nat, j: nat)
    requires |ptes| == NENTRIES && j < NENTRIES && base % 1024 == 0
    ensures base == i * 1024 ==> Cleared(ptes, base, done + {i * 1024 + j}) == Cleared(ptes, base, done)[j := Empty]
    ensures base != i * 1024 || ptes[j] == Empty ==>
              Cleared(ptes, base, done + {i * 1024 + j}) == Cleared(ptes, base, done)
  {
  }

  lemma SkipOne(m: Mem, spaces: set<nat>, owner: map<nat, Slot>, d: nat, done: set<nat>, i: nat, j: nat, m': Mem)
    requires Owned(m, spaces, owner) && d in spaces && i < NUSER && j < NENTRIES && Given(m, owner, d, done, m')
    requires Lookup(m, d, i, j).Empty?
    ensures Given(m, owner, d, done + {i * 1024 + j}, m')
  {
    var done' := done + {i * 1024 + j};
    forall g | g in owner ensures Among(owner[g], d, done') <==> Among(owner[g], d, done) {
      NewlyAmong(m, spaces, owner, d, done, i, j, g);
    }
    forall f | 0 <= f < |m.frames| ensures m'.frames[f] == After(m, owner, d, done', f) {
      assert OwnerOk(m, spaces, owner, f);
      if f in owner && owner[f].Inner? && owner[f].d == d {
        ClearOne(m.frames[f].ptes, owner[f].i * 1024, done, i, j);
      }
    }
  }

  /** Freeing the page at (i, j): it was not free, and its table still stands. */
  lemma GiveOne(m: Mem, spaces: set<nat>, owner: map<nat, Slot>, d: nat, done: set<nat>, i: nat, j: nat, m': Mem)
    requires Owned(m, spaces, owner) && d in spaces && i < NUSER && j < NENTRIES && Given(m, owner, d, done, m')
    requires Lookup(m, d, i, j).Present? && i * 1024 + j !in done
    ensures var f, t := Lookup(m, d, i, j).frame, Pde(m, d, i).frame;
            && f < |m'.frames| && f !in m'.free && f != t && IsTable(m', t)
            && Given(m, owner, d, done + {i * 1024 + j}, SetEntry(Kfree(m', f), t, j, Empty))
  {
    var f, t := Lookup(m, d, i, j).frame, Pde(m, d, i).frame;
    var done' := done + {i * 1024 + j};
    GivenLookup(m, spaces, owner, d, done, m', i, j);
    assert SlotOk(m, spaces, owner, Page(d, i, j));
    assert OwnerOk(m, spaces, owner, f);
    assert OwnerOk(m, spaces, owner, t);
    var m2 := SetEntry(Kfree(m', f), t, j, Empty);
    forall g | g in owner ensures Among(owner[g], d, done') <==> Among(owner[g], d, done) || g == f {
      NewlyAmong(m, spaces, owner, d, done, i, j, g);
    }
    forall g | 0 <= g < |m.frames| ensures m2.frames[g] == After(m, owner, d, done', g) {
      assert OwnerOk(m, spaces, owner, g);
      if g in owner && owner[g].Inner? && owner[g].d == d {
        ClearOne(m.frames[g].ptes, owner[g].i * 1024, done, i, j);
        assert SlotOk(m, spaces, owner, Inner(d, i));
      }
    }
  }

  // ---------------------------------------------------------------
  // The tables and the directory.

  /** The directory entries of d that have a table. */
  function Tables(m: Mem, d: nat): set<nat>
  {
    set i: nat | i < NENTRIES && Pde(m, d, i).Present?
  }

  /** User page u of d is mapped. */
  predicate IsMapped(m: Mem, d: nat, u: nat)
  {
    u < NUSER * 1024 && Lookup(m, d, u / 1024, u % 1024).Present?
  }

  /** Page u of d is mapped no more, and the page behind it is free. */
  predicate Freed(m: Mem, d: nat, u: nat, m': Mem)
    requires IsMapped(m, d, u)
  {
    !IsMapped(m', d, u) && Lookup(m, d, u / 1024, u % 1024).frame in m'.free
  }

  lemma FreedIfDone(m: Mem, spaces: set<nat>, owner: map<nat, Slot>, d: nat, done: set<nat>, m': Mem, u: nat)
    requires Owned(m, spaces, owner) && d in spaces && Given(m, owner, d, done, m') && IsMapped(m, d, u)
    ensures Freed(m, d, u, m') <==> u in done
  {
    var i, j := u / 1024, u % 1024;
    assert i * 1024 + j == u;
    GivenLookup(m, spaces, owner, d, done, m', i, j);
    assert SlotOk(m, spaces, owner, Page(d, i, j));
    assert OwnerOk(m, spaces, owner, Lookup(m, d, i, j).frame);
    assert OwnerOk(m, spaces, owner, Pde(m, d, i).frame);
  }

  /** deallocuvm frees every mapped page of its range if and only if no page that
      the scan misses is mapped. */
  lemma DeallocExact(m: Mem, spaces: set<nat>, owner: map<nat, Slot>, d: nat, lo: nat, hi: nat, m': Mem)
    requires Owned(m, spaces, owner) && d in spaces && Given(m, owner, d, Scan(Tables(m, d), lo, hi), m')
    ensures (forall u | lo <= u < hi && IsMapped(m, d, u) :: Freed(m, d, u, m')) <==>
            (forall u | Missed(Tables(m, d), lo, hi, u) :: !IsMapped(m, d, u))
  {
    var dirs := Tables(m, d);
    forall u | lo <= u < hi && IsMapped(m, d, u) ensures Freed(m, d, u, m') <==> !Missed(dirs, lo, hi, u) {
      FreedIfDone(m, spaces, owner, d, Scan(dirs, lo, hi), m', u);
      ScanExact(dirs, lo, hi, u);
    }
  }

  /** An address space with one user page, the first of its second table. */
  function Sparse(): Mem
  {
    Mem([Table(NoEntries()[1 := Present(1, TABLE_FLAGS)]), Table(NoEntries()[0 := Present(2, 7)]), Data([])], [])
  }

  lemma SparseInv()
    ensures Inv(Sparse(), {0}, {}) && Tables(Sparse(), 0) == {1}
  {
    var m, owner := Sparse(), map[0 := Root(0), 1 := Inner(0, 1), 2 := Page(0, 1, 0)];
    forall x ensures SlotOk(m, {0}, owner, x) {}
    forall f ensures OwnerOk(m, {0}, owner, f) {}
    forall f ensures FrameOk(m, owner, {}, f) {}
    assert Split(m, {0}, {}, owner);
  }

  /** From page 5 on deallocuvm does not come to it. */
  lemma DeallocMisses()
    ensures Inv(Sparse(), {0}, {}) && IsMapped(Sparse(), 0, 1024)
    ensures Missed(Tables(Sparse(), 0), 5, 2048, 1024) && 1024 !in Scan(Tables(Sparse(), 0), 5, 2048)
  {
    SparseInv();
    assert FirstAfter({1}, 0, 1);
    ScanExact({1}, 5, 2048, 1024);
  }

  /** Slots of d given back once its user pages and its first k tables are. */
  predicate Passed(x: Slot, d: nat, k: nat)
  {
    x.d == d && (x.Page? || (x.Inner? && x.i < k))
  }

  /** Only pages of d differ; its directory still stands; the free list has the
      pages of d that have been passed. */
  ghost predicate PartGone(m: Mem, owner: map<nat, Slot>, d: nat, k: nat, m': Mem)
  {
    && |m'.frames| == |m.frames| && d < |m.frames| && m'.frames[d] == m.frames[d]
    && (forall f | 0 <= f < |m.frames| && !(f in owner && owner[f].d == d) :: m'.frames[f] == m.frames[f])
    && FreeOk(m')
    && (forall f :: f in m'.free <==> f in m.free || (f in owner && Passed(owner[f], d, k)))
  }

  lemma UserGone(m: Mem, spaces: set<nat>, owner: map<nat, Slot>, d: nat, m': Mem, lo: nat, hi: nat)
    requires Owned(m, spaces, owner) && d in spaces && lo == 0 && hi == NUSER * 1024
    requires Given(m, owner, d, Scan(Tables(m, d), lo, hi), m')
    ensures PartGone(m, owner, d, 0, m')
  {
    var done := Scan(Tables(m, d), lo, hi);
    assert SlotOk(m, spaces, owner, Root(d));
    assert OwnerOk(m, spaces, owner, d);
    forall f | f in owner ensures Among(owner[f], d, done) <==> Passed(owner[f], d, 0) {
      assert OwnerOk(m, spaces, owner, f);
      if owner[f].Page? && owner[f].d == d {
        assert Place(owner[f]) / 1024 == owner[f].i;
        ScanAligned(Tables(m, d), lo, hi, Place(owner[f]));
      }
    }
  }

  lemma NextTable(m: Mem, spaces: set<nat>, owner: map<nat, Slot>, d: nat, k: nat, m': Mem)
    requires Owned(m, spaces, owner) && d in spaces && k < NENTRIES && PartGone(m, owner, d, k, m')
    ensures IsTable(m', d) && Pde(m', d, k) == Pde(m, d, k)
    ensures Pde(m, d, k).Empty? ==> PartGone(m, owner, d, k + 1, m')
    ensures Pde(m, d, k).Present? ==>
              var t := Pde(m, d, k).frame;
              t < |m'.frames| && t !in m'.free && PartGone(m, owner, d, k + 1, Kfree(m', t))
  {
    assert SlotOk(m, spaces, owner, Root(d));
    assert OwnerOk(m, spaces, owner, d);
    assert SlotOk(m, spaces, owner, Inner(d, k));
    if Pde(m, d, k).Present? { assert OwnerOk(m, spaces, owner, Pde(m, d, k).frame); }
    forall f | f in owner
      ensures Passed(owner[f], d, k + 1) <==>
              Passed(owner[f], d, k) || (Pde(m, d, k).Present? && Pde(m, d, k).frame == f)
    {
      assert OwnerOk(m, spaces, owner, f);
    }
  }

  /** After freevm: the free list has gained exactly the pages of d, each once, and
      every other page is as it was. */
  ghost predicate Gone(m: Mem, owner: map<nat, Slot>, d: nat, m': Mem)
  {
    && |m'.frames| == |m.frames|
    && (forall f | 0 <= f < |m.frames| && !(f in owner && owner[f].d == d) :: m'.frames[f] == m.frames[f])
    && FreeOk(m')
    && (forall f :: f in m'.free <==> f in m.free || (f in owner && owner[f].d == d))
  }

  lemma LastGone(m: Mem, spaces: set<nat>, owner: map<nat, Slot>, d: nat, m': Mem)
    requires Owned(m, spaces, owner) && d in spaces && PartGone(m, owner, d, NENTRIES, m')
    ensures d !in m'.free && Gone(m, owner, d, Kfree(m', d))
  {
    assert SlotOk(m, spaces, owner, Root(d));
    assert OwnerOk(m, spaces, owner, d);
    forall f | f in owner ensures owner[f].d == d <==> Passed(owner[f], d, NENTRIES) || f == d {
      assert OwnerOk(m, spaces, owner, f);
    }
  }

  lemma GoneSame(m: Mem, spaces: set<nat>, owner: map<nat, Slot>, d: nat, m': Mem, e: nat)
    requires Owned(m, spaces, owner) && Gone(m, owner, d, m') && e in spaces && e != d
    ensures SpaceSame(m, e, m')
  {
    assert SlotOk(m, spaces, owner, Root(e));
    assert Entries(m', e) == Entries(m, e);
    forall i | 0 <= i < NENTRIES && Pde(m, e, i).Present?
      ensures Entries(m', Pde(m, e, i).frame) == Entries(m, Pde(m, e, i).frame)
    {
      assert SlotOk(m, spaces, owner, Inner(e, i));
    }
  }

  /** The other address spaces and all other pages are untouched, and pages are
      still conserved. */
  lemma GoneInv(m: Mem, spaces: set<nat>, others: set<nat>, owner: map<nat, Slot>, d: nat, m': Mem)
    requires Split(m, spaces, others, owner) && d in spaces && Gone(m, owner, d, m')
    ensures Inv(m', spaces - {d}, others) && AllSame(m, spaces - {d}, m')
  {
    forall e | e in spaces - {d} ensures SpaceSame(m, e, m') { GoneSame(m, spaces, owner, d, m', e); }
    var owner' := map f | f in owner && owner[f].d != d :: owner[f];
    forall x | IsSlot(spaces - {d}, x) ensures At(m', x) == At(m, x) { assert SpaceSame(m, x.d, m'); }
    forall f ensures OwnerOk(m', spaces - {d}, owner', f) { assert OwnerOk(m, spaces, owner, f); }
    forall x ensures SlotOk(m', spaces - {d}, owner', x) { assert SlotOk(m, spaces, owner, x); }
    forall f ensures FrameOk(m', owner', others, f) { assert FrameOk(m, owner, others, f); }
    assert Split(m', spaces - {d}, others, owner');
  }
}
