/** The loops of vm.c over physical memory. */
module AddressSpaces {
  import opened Options
  import opened PageTables
  import opened FreeVm
  import opened PageCounts

  /** A row of kmap: count pages from page first on are mapped to physical pages
      from frame on. */
  datatype Region = Region(first: nat, count: nat, frame: nat, flags: Flags)

  predicate Covers(r: Region, v: nat)
  {
    r.first <= v < r.first + r.count
  }

  /** Rows map pages from KERNBASE to the end of the address space, none twice. */
  ghost predicate KmapOk(kmap: seq<Region>)
  {
    && (forall a | 0 <= a < |kmap| :: 0 < kmap[a].count && NUSER * 1024 <= kmap[a].first
                                      && kmap[a].first + kmap[a].count <= NENTRIES * 1024)
    && (forall a, b, v | 0 <= a < b < |kmap| && Covers(kmap[a], v) :: !Covers(kmap[b], v))
  }

  /** The entry of kernel page v. */
  function KernelPte(kmap: seq<Region>, v: nat): Pte
  {
    if kmap == [] then Empty
    else
      var r := kmap[|kmap| - 1];
      if Covers(r, v) then Present(r.frame + (v - r.first), r.flags) else KernelPte(kmap[..|kmap| - 1], v)
  }

  lemma {:induction false} KernelPteEmpty(kmap: seq<Region>, v: nat)
    requires forall a | 0 <= a < |kmap| :: !Covers(kmap[a], v)
    ensures KernelPte(kmap, v) == Empty
  {
    if kmap != [] {
      KernelPteEmpty(kmap[..|kmap| - 1], v);
    }
  }

  /** Rows of d that mappages has filled up to page v. */
  ghost predicate Filled(m: Mem, d: nat, r: Region, v: nat, m': Mem)
  {
    forall k, l | 0 <= k < NENTRIES && 0 <= l < NENTRIES ::
      Lookup(m', d, k, l) ==
        if r.first <= k * 1024 + l < v then Present(r.frame + (k * 1024 + l - r.first), r.flags) else Lookup(m, d, k, l)
  }

  lemma FilledMore(m: Mem, spaces: set<nat>, d: nat, r: Region, v: nat, m1: Mem, m2: Mem)
    requires Filled(m, d, r, v, m1) && d in spaces && r.first <= v < NENTRIES * 1024
    requires LookupSet(m1, spaces, d, v / 1024, v % 1024, Present(r.frame + (v - r.first), r.flags), m2)
    ensures Filled(m, d, r, v + 1, m2)
  {
    forall k, l | 0 <= k < NENTRIES && 0 <= l < NENTRIES
      ensures Lookup(m2, d, k, l) ==
                if r.first <= k * 1024 + l < v + 1 then Present(r.frame + (k * 1024 + l - r.first), r.flags)
                else Lookup(m, d, k, l)
    {
      assert k == v / 1024 && l == v % 1024 <==> k * 1024 + l == v;
    }
  }

  lemma AllSameTrans(m: Mem, spaces: set<nat>, m1: Mem, m2: Mem)
    requires AllSame(m, spaces, m1) && AllSame(m1, spaces, m2)
    ensures AllSame(m, spaces, m2)
  {
    forall e | e in spaces ensures SpaceSame(m, e, m2) { assert SpaceSame(m, e, m1) && SpaceSame(m1, e, m2); }
  }

  /** Data pages survive, and no page becomes free or a table that was a data page
      in use. */
  ghost predicate Kept(m: Mem, m': Mem)
  {
    && |m'.frames| == |m.frames| && (forall f | f in m'.free :: f in m.free)
    && (forall g | 0 <= g < |m.frames| && g !in m.free && !IsTable(m, g) :: m'.frames[g] == m.frames[g])
  }

  predicate WasFree(m: Mem, pages: set<nat>)
  {
    forall f | f in pages :: f in m.free
  }

  datatype Status = Ok | OutOfMemory | Panic

  /** The directory indices of the pages that kmap maps. */
  function KernelDirs(kmap: seq<Region>): set<nat>
  {
    if kmap == [] then {}
    else
      var r := kmap[|kmap| - 1];
      KernelDirs(kmap[..|kmap| - 1]) + Dirs(r.first, r.first + r.count)
  }

  /** The pages for a directory and the kernel's tables. */
  function KernelNeed(kmap: seq<Region>): nat
  {
    1 + |KernelDirs(kmap)|
  }

  lemma {:induction false} KernelDirsMore(kmap: seq<Region>, a: nat)
    requires a <= |kmap|
    ensures KernelDirs(kmap[..a]) <= KernelDirs(kmap)
  {
    if a < |kmap| {
      KernelDirsMore(kmap[..|kmap| - 1], a);
      assert kmap[..|kmap| - 1][..a] == kmap[..a];
    } else {
      assert kmap[..a] == kmap;
    }
  }

  lemma {:induction false} KernelDirsHigh(kmap: seq<Region>, i: nat)
    requires KmapOk(kmap) && i in KernelDirs(kmap)
    ensures NUSER <= i < NENTRIES
  {
    if i in KernelDirs(kmap[..|kmap| - 1]) {
      KernelDirsHigh(kmap[..|kmap| - 1], i);
    }
  }

  /** When page v finds no table, all of the row's tables are more than there is
      memory for. */
  lemma RowFails(tables: set<nat>, lo: nat, v: nat, hi: nat, now: set<nat>)
    requires lo <= v < hi && now == tables + Dirs(lo, v) && v / 1024 !in now
    ensures |now| < |tables + Dirs(lo, hi)|
  {
    DirsMore(lo, v, hi);
    DirsMore(lo, v + 1, hi);
    DirsNext(lo, v);
    OneMissing(now, v / 1024, tables + Dirs(lo, hi));
  }

  // ---------------------------------------------------------------
  // A row of kmap.

  /** Row r lies in the kernel's part and is not mapped yet. */
  ghost predicate RowFree(m: Mem, d: nat, r: Region)
  {
    && NUSER * 1024 <= r.first && 0 < r.count && r.first + r.count <= NENTRIES * 1024
    && forall k, l | 0 <= k < NENTRIES && 0 <= l < NENTRIES && Covers(r, k * 1024 + l) :: Lookup(m, d, k, l) == Empty
  }

  /** The tables of d once row r is mapped. */
  ghost function RowNeed(m: Mem, d: nat, r: Region): nat
  {
    |Tables(m, d) + Dirs(r.first, r.first + r.count)|
  }

  /** Row r of d is mapped up to page v; each new table took a free page. */
  ghost predicate RowInv(m: Mem, spaces: set<nat>, others: set<nat>, d: nat, r: Region, v: nat, m1: Mem)
  {
    && Inv(m1, spaces, others) && AllSame(m, spaces - {d}, m1) && Kept(m, m1) && Filled(m, d, r, v, m1)
    && Tables(m1, d) == Tables(m, d) + Dirs(r.first, v) && Used(m1, d) == Used(m, d)
  }

  /** One page more, unless a table is needed and no page is free. */
  lemma RowStep(m: Mem, spaces: set<nat>, others: set<nat>, d: nat, r: Region, v: nat, frame: nat, m1: Mem)
    requires RowFree(m, d, r) && Covers(r, v) && frame == r.frame + (v - r.first) && d in spaces
    requires RowInv(m, spaces, others, d, r, v, m1) && IsTable(m1, d) && FreeOk(m1)
    ensures var n := MapPage(m1, d, v / 1024, v % 1024, frame, r.flags);
            && !n.Remap? && (n.Mapped? ==> RowInv(m, spaces, others, d, r, v + 1, n.mem))
            && (n.NoMemory? ==> m1.free == [] && Used(m, d) < RowNeed(m, d, r))
  {
    var i, j := v / 1024, v % 1024;
    assert i * 1024 + j == v;
    MapKernel(m1, spaces, others, d, i, j, frame, r.flags);
    var n := MapPage(m1, d, i, j, frame, r.flags);
    if n.Mapped? {
      MapTakes(m1, spaces, others, d, i, j, frame, r.flags);
      UsedSame(m1, d, i, n.mem);
      DirsNext(r.first, v);
      FilledMore(m, spaces, d, r, v, m1, n.mem);
      AllSameTrans(m, spaces - {d}, m1, n.mem);
    } else {
      RowShort(m, d, r, v, m1);
    }
  }

  lemma RowShort(m: Mem, d: nat, r: Region, v: nat, m1: Mem)
    requires Covers(r, v) && v / 1024 !in Tables(m1, d) && m1.free == []
    requires Tables(m1, d) == Tables(m, d) + Dirs(r.first, v) && Used(m1, d) == Used(m, d)
    ensures Used(m, d) < RowNeed(m, d, r)
  {
    RowFails(Tables(m, d), r.first, v, r.first + r.count, Tables(m1, d));
  }

  lemma RowEnough(m: Mem, d: nat, r: Region, m1: Mem)
    requires Tables(m1, d) == Tables(m, d) + Dirs(r.first, r.first + r.count) && Used(m1, d) == Used(m, d)
    ensures RowNeed(m, d, r) <= Used(m, d)
  {
  }

  class Memory {
    var frames: seq<Content>
    var free: seq<nat>

    ghost function Now(): Mem
      reads this
    {
      Mem(frames, free)
    }

    /** Memory before kinit1: no page is free. */
    constructor (n: nat)
      ensures |frames| == n && Inv(Now(), {}, Between(0, n))
    {
      frames := seq(n, _ => Data([]));
      free := [];
      new;
      assert Split(Now(), {}, Between(0, n), map[]);
    }

    /** freerange: the pages from lo up to hi become free. */
    method Freerange(lo: nat, hi: nat, ghost spaces: set<nat>, ghost others: set<nat>)
      requires Inv(Now(), spaces, others) && forall f | lo <= f < hi :: f in others
      modifies this
      ensures Inv(Now(), spaces, others - Between(lo, hi)) && AllSame(old(Now()), spaces, Now())
    {
      ghost var m := Now();
      var p := lo;
      assert others - Between(lo, lo) == others;
      while p + 1 <= hi
        invariant lo <= p && (p <= hi || p == lo)
        invariant Inv(Now(), spaces, others - Between(lo, p)) && AllSame(m, spaces, Now())
      {
        ghost var m1, rest := Now(), others - Between(lo, p);
        var p' := p + 1;
        KfreeInv(m1, spaces, rest, p);
        FreePage(p);
        AllSameTrans(m, spaces, m1, Now());
        assert rest - {p} == others - Between(lo, p');
        p := p';
      }
      assert Between(lo, p) == Between(lo, hi);
    }

    /** kalloc, with the page filled at once. */
    method Kalloc(c: Content) returns (r: Option<nat>)
      requires FreeOk(Now())
      modifies this
      ensures r.None? <==> old(free) == []
      ensures r.None? ==> Now() == old(Now())
      ensures r.Some? ==> r.value == old(free)[0] && Now() == Take(old(Now()), c)
    {
      if free == [] { return None; }
      var f := free[0];
      free := free[1..];
      frames := frames[f := c];
      r := Some(f);
    }

    method FreePage(f: nat)
      requires f < |frames|
      modifies this
      ensures Now() == Kfree(old(Now()), f)
    {
      frames := frames[f := Junk];
      free := [f] + free;
    }

    /** The body of mappages' loop: walkpgdir, then the entry. */
    method MapOne(d: nat, v: nat, frame: nat, flags: Flags, ghost spaces: set<nat>, ghost others: set<nat>)
      returns (r: Status)
      requires Inv(Now(), spaces, others) && d in spaces && v < NENTRIES * 1024
      requires IsTable(Now(), d) && FreeOk(Now())
      modifies this
      ensures match MapPage(old(Now()), d, v / 1024, v % 1024, frame, flags)
              case Mapped(m) => r == Ok && Now() == m
              case NoMemory => r == OutOfMemory && Now() == old(Now())
              case Remap => r == Panic
    {
      var i, j := v / 1024, v % 1024;
      ghost var m := Now();
      Intact(m, spaces, others, d);
      var pde := frames[d].ptes[i];
      assert pde == Pde(m, d, i);
      if pde.Empty? {
        if free == [] { return OutOfMemory; }
        TakeInv(m, spaces, others, Table(NoEntries()));
        ghost var m1 := WalkTable(m, spaces, others, d, i);
        var t := Kalloc(Table(NoEntries()));
        pde := Present(t.value, TABLE_FLAGS);
        frames := frames[d := Table(frames[d].ptes[i := pde])];
        assert Now() == m1 && Pde(m1, d, i) == pde;
      }
      if frames[pde.frame].ptes[j].Present? { return Panic; }
      frames := frames[pde.frame := Table(frames[pde.frame].ptes[j := Present(frame, flags)])];
      r := Ok;
    }

    /** mappages for a row of kmap: all of it, or as much as there is memory for
        tables. */
    method MapRegion(d: nat, r: Region, ghost spaces: set<nat>, ghost others: set<nat>) returns (ok: bool,
                     ghost end: nat)
      requires Inv(Now(), spaces, others) && d in spaces && RowFree(Now(), d, r)
      modifies this
      ensures r.first <= end <= r.first + r.count && RowInv(old(Now()), spaces, others, d, r, end, Now())
      ensures if ok then end == r.first + r.count else free == []
      ensures ok <==> RowNeed(old(Now()), d, r) <= Used(old(Now()), d)
    {
      ghost var m := Now();
      var v, frame := r.first, r.frame;
      ok := true;
      while true
        invariant r.first <= v < r.first + r.count && frame == r.frame + (v - r.first)
        invariant RowInv(m, spaces, others, d, r, v, Now())
        decreases r.first + r.count - v
      {
        ghost var m1 := Now();
        Intact(m1, spaces, others, d);
        RowStep(m, spaces, others, d, r, v, frame, m1);
        var status := MapOne(d, v, frame, r.flags, spaces, others);
        if status == OutOfMemory { return false, v; }
        if v == r.first + r.count - 1 {
          RowEnough(m, d, r, Now());
          return true, v + 1;
        }
        v, frame := v + 1, frame + 1;
      }
    }

    /** setupkvm: a directory with the kernel's mappings and no user pages.  If
        memory runs out it returns none, and the pages of the unfinished address
        space, if there is one, are lost. */
    method Setupkvm(kmap: seq<Region>, ghost spaces: set<nat>, ghost others: set<nat>)
      returns (r: Option<nat>, ghost lost: set<nat>)
      requires Inv(Now(), spaces, others) && FreeOk(Now()) && KmapOk(kmap)
      modifies this
      ensures Kept(old(Now()), Now()) && AllSame(old(Now()), spaces, Now())
      ensures r.None? ==> lost <= set f | f in old(free) && f !in spaces
      ensures r.None? ==> |lost| <= 1 && Inv(Now(), spaces + lost, others) && (lost == {} <==> old(free) == [])
      ensures r.Some? ==> r.value !in spaces && r.value in old(free) && Inv(Now(), spaces + {r.value}, others)
      ensures r.Some? ==> KernelOnly(Now(), r.value, kmap)
      ensures r.Some? <==> KernelNeed(kmap) <= |old(free)|
      ensures if r.Some? then Tables(Now(), r.value) == KernelDirs(kmap) && |free| == |old(free)| - KernelNeed(kmap)
              else free == []
    {
      ghost var m := Now();
      lost := {};
      if free == [] { return None, {}; }
      NewRootInv(m, spaces, others);
      var root := Kalloc(Table(NoEntries()));
      var d := root.value;
      assert kmap[..0] == [];
      assert Tables(Now(), d) == {};
      var ok := MapRows(d, kmap, m, spaces, others);
      if ok { return Some(d), {}; }
      r, lost := None, {d};
    }

    /** The loop of setupkvm. */
    method MapRows(d: nat, kmap: seq<Region>, ghost m: Mem, ghost spaces: set<nat>, ghost others: set<nat>)
      returns (ok: bool)
      requires RowsInv(m, spaces, others, d, kmap, 0, |free|, Now()) && d !in spaces && KmapOk(kmap)
      modifies this
      ensures Inv(Now(), spaces + {d}, others) && AllSame(m, spaces, Now()) && Kept(m, Now())
      ensures ok ==> KernelOnly(Now(), d, kmap)
      ensures ok <==> |KernelDirs(kmap)| <= |old(free)|
      ensures if ok then Tables(Now(), d) == KernelDirs(kmap) && |free| == |old(free)| - |KernelDirs(kmap)|
              else free == []
    {
      var a := 0;
      while a < |kmap|
        invariant 0 <= a <= |kmap| && RowsInv(m, spaces, others, d, kmap, a, |old(free)|, Now())
      {
        ghost var m1 := Now();
        var a' := a + 1;
        RowEmpty(m1, d, kmap, a);
        ghost var end;
        ok, end := MapRegion(d, kmap[a], spaces + {d}, others);
        RowsStep(m, spaces, others, d, kmap, a, a', |old(free)|, m1, Now(), ok, end);
        if !ok { return; }
        a := a';
      }
      assert kmap[..a] == kmap;
      ok := true;
    }

    /** One page of deallocuvm's loop, in table pde. */
    method VisitPage(d: nat, v: nat, pde: Pte, ghost m: Mem, ghost spaces: set<nat>, ghost owner: map<nat, Slot>,
                     ghost done: set<nat>)
      requires Owned(m, spaces, owner) && d in spaces && v < NUSER * 1024 && v !in done
      requires pde == Pde(m, d, v / 1024) && pde.Present? && Given(m, owner, d, done, Now())
      modifies this
      ensures Given(m, owner, d, done + {v}, Now())
    {
      ghost var i := v / 1024;
      var j := v % 1024;
      assert i * 1024 + j == v;
      GivenLookup(m, spaces, owner, d, done, Now(), i, j);
      var pte := frames[pde.frame].ptes[j];
      assert pte == Lookup(m, d, i, j);
      if pte.Present? {
        GiveOne(m, spaces, owner, d, done, i, j, Now());
        FreePage(pte.frame);
        frames := frames[pde.frame := Table(frames[pde.frame].ptes[j := Empty])];
      } else {
        SkipOne(m, spaces, owner, d, done, i, j, Now());
      }
    }

    /** deallocuvm: the pages that the scan comes to are freed, each once; no freed
        page is read. */
    method Deallocuvm(d: nat, oldsz: nat, newsz: nat, ghost spaces: set<nat>, ghost owner: map<nat, Slot>)
      returns (size: nat)
      requires Owned(Now(), spaces, owner) && d in spaces && oldsz <= 0x8000_0000
      modifies this
      ensures size == if newsz >= oldsz then oldsz else newsz
      ensures newsz >= oldsz ==> Now() == old(Now())
      ensures newsz < oldsz ==>
                Given(old(Now()), owner, d, Scan(Tables(old(Now()), d), Pages(newsz), Pages(oldsz)), Now())
      ensures newsz < oldsz ==>
                ((forall u | Pages(newsz) <= u < Pages(oldsz) && IsMapped(old(Now()), d, u) ::
                    Freed(old(Now()), d, u, Now()))
                 <==> forall u | Missed(Tables(old(Now()), d), Pages(newsz), Pages(oldsz), u) ::
                        !IsMapped(old(Now()), d, u))
    {
      if newsz >= oldsz { return oldsz; }
      ghost var m, dirs, hi := Now(), Tables(Now(), d), Pages(oldsz);
      ghost var all := Scan(dirs, Pages(newsz), hi);
      ghost var done: set<nat> := {};
      GivenNone(m, spaces, owner, d);
      var v := Pages(newsz);
      assert Scanned(dirs, done, v, hi, all);
      while v * 4096 < oldsz
        invariant Given(m, owner, d, done, Now()) && Scanned(dirs, done, v, hi, all)
        decreases if v < 0x80000 then 0x80000 - v else 0
      {
        assert v < hi <= NUSER * 1024;
        GivenLookup(m, spaces, owner, d, done, Now(), v / 1024, 0);
        var pde := frames[d].ptes[v / 1024];
        assert pde == Pde(m, d, v / 1024);
        var v' := v + if pde.Empty? then 1024 else 1;
        ghost var done' := if pde.Empty? then done else done + {v};
        ScanNext(dirs, done, v, hi, all, v', done');
        if pde.Present? {
          VisitPage(d, v, pde, m, spaces, owner, done);
        }
        v, done := v', done';
      }
      ScanEnd(dirs, done, v, hi, all);
      DeallocExact(m, spaces, owner, d, Pages(newsz), hi, Now());
      size := newsz;
    }

    /** freevm's call of deallocuvm. */
    method FreeUser(d: nat, ghost spaces: set<nat>, ghost owner: map<nat, Slot>)
      requires Owned(Now(), spaces, owner) && d in spaces
      modifies this
      ensures PartGone(old(Now()), owner, d, 0, Now())
    {
      ghost var m := Now();
      var kernbase, zero := 0x8000_0000, 0;
      var _ := Deallocuvm(d, kernbase, zero, spaces, owner);
      UserGone(m, spaces, owner, d, Now(), Pages(zero), Pages(kernbase));
    }

    /** The second loop of freevm. */
    method FreeTables(d: nat, ghost m: Mem, ghost spaces: set<nat>, ghost owner: map<nat, Slot>)
      requires Owned(m, spaces, owner) && d in spaces && PartGone(m, owner, d, 0, Now())
      modifies this
      ensures PartGone(m, owner, d, NENTRIES, Now())
    {
      var i := 0;
      while i < NENTRIES
        invariant 0 <= i <= NENTRIES && PartGone(m, owner, d, i, Now())
      {
        NextTable(m, spaces, owner, d, i, Now());
        var i' := i + 1;
        var pde := frames[d].ptes[i];
        assert pde == Pde(m, d, i);
        if pde.Present? {
          FreePage(pde.frame);
        }
        i := i';
      }
    }

    /** freevm: exactly the pages of address space d go back to the free list. */
    method Freevm(d: nat, ghost spaces: set<nat>, ghost others: set<nat>, ghost owner: map<nat, Slot>)
      requires Split(Now(), spaces, others, owner) && d in spaces
      modifies this
      ensures Gone(old(Now()), owner, d, Now())
      ensures Inv(Now(), spaces - {d}, others) && AllSame(old(Now()), spaces - {d}, Now())
    {
      ghost var m := Now();
      FreeUser(d, spaces, owner);
      FreeTables(d, m, spaces, owner);
      LastGone(m, spaces, owner, d, Now());
      FreePage(d);
      GoneInv(m, spaces, others, owner, d, Now());
    }

    /** walkpgdir without allocation; a page without a table counts as absent. */
    method Walk(d: nat, v: nat, ghost spaces: set<nat>, ghost others: set<nat>) returns (pte: Pte)
      requires Inv(Now(), spaces, others) && d in spaces && v < NENTRIES * 1024
      ensures pte == Lookup(Now(), d, v / 1024, v % 1024)
    {
      Intact(Now(), spaces, others, d);
      var pde := frames[d].ptes[v / 1024];
      assert pde == Pde(Now(), d, v / 1024);
      if pde.Empty? { return Empty; }
      pte := frames[pde.frame].ptes[v % 1024];
    }

    /** The rest of a turn of copyuvm's loop: copy the page behind pte. */
    method CopyPage(d: nat, e: nat, v: nat, v': nat, pte: Pte, kmap: seq<Region>, ghost m0: Mem,
                    ghost spaces: set<nat>, ghost others: set<nat>)
      returns (r: PageResult, ghost lost: set<nat>)
      requires Inv(Now(), spaces + {e}, others) && FreeOk(Now()) && Copying(m0, spaces, d, e, kmap, v, pte, Now())
      requires v' == v + 1
      modifies this
      ensures AllSame(m0, spaces, Now()) && Kept(m0, Now())
      ensures r == Next ==> Inv(Now(), spaces + {e}, others) && CopiedTo(m0, d, Now(), e, kmap, v')
      ensures r == NoPage ==> Inv(Now(), spaces + {e}, others)
      ensures r != Absent && (r == NoPage <==> old(free) == [])
      ensures r == NoTable <==> |old(free)| == 1 && v / 1024 !in Tables(old(Now()), e)
      ensures r == Next ==> Tables(Now(), e) == Tables(old(Now()), e) + {v / 1024}
                            && |free| == |old(free)| - if v / 1024 in Tables(old(Now()), e) then 1 else 2
      ensures WasFree(m0, lost) && |lost| == if r == NoTable then 1 else 0
      ensures r == NoTable ==> Inv(Now(), spaces + {e}, others + lost)
    {
      lost := {};
      ghost var m := Now();
      if free == [] { return NoPage, {}; }
      CopyTaken(m0, spaces, others, d, e, kmap, v, pte, m);
      var mem := Kalloc(frames[pte.frame]);
      ghost var m1, more := Now(), others + {mem.value};
      CopyMapped(m0, spaces, others, d, e, kmap, v, pte, m, m1, mem.value);
      TablesSame(m, e, m1);
      var status := MapOne(e, v, mem.value, pte.flags, spaces + {e}, more);
      if status == OutOfMemory { return NoTable, {mem.value}; }
      MapTakes(m1, spaces + {e}, more, e, v / 1024, v % 1024, mem.value, pte.flags);
      r := Next;
    }

    /** A turn of copyuvm's loop. */
    method CopyTurn(d: nat, e: nat, v: nat, v': nat, kmap: seq<Region>, ghost m0: Mem,
                    ghost spaces: set<nat>, ghost others: set<nat>)
      returns (r: PageResult, ghost lost: set<nat>)
      requires Inv(m0, spaces, others) && d in spaces && KmapOk(kmap) && 0 < v < NUSER * 1024 && v' == v + 1
      requires CopyInv(m0, spaces, others, d, e, kmap, v, Now())
      modifies this
      ensures AllSame(m0, spaces, Now()) && Kept(m0, Now())
      ensures r == Absent <==> !IsMapped(m0, d, v)
      ensures r == Absent ==> Now() == old(Now())
      ensures r == Next ==> CopyInv(m0, spaces, others, d, e, kmap, v', Now())
      ensures r == NoPage ==> Inv(Now(), spaces + {e}, others) && KernelNeed(kmap) + Need(v) == |m0.free|
      ensures WasFree(m0, lost) && |lost| == if r == NoTable then 1 else 0
      ensures r == NoTable ==> Inv(Now(), spaces + {e}, others + lost)
      ensures r == NoTable ==> 1 + KernelNeed(kmap) + Need(v) == |m0.free| && (v == 1 || v % 1024 == 0)
    {
      lost := {};
      ghost var m := Now();
      UserDirs(kmap, v);
      var pte := Walk(d, v, spaces + {e}, others);
      assert SpaceSame(m0, d, m);
      if pte.Empty? { return Absent, {}; }
      UserPage(m0, spaces, others, d, v / 1024, v % 1024);
      Intact(m, spaces + {e}, others, e);
      r, lost := CopyPage(d, e, v, v', pte, kmap, m0, spaces, others);
      if r == Next { CopyCounts(m, e, kmap, v, |m0.free|, v', Now()); }
    }

    /** copyuvm's loop: it ends behind the last page, or at the first page v that is
        absent or finds no memory. */
    method CopyPages(d: nat, e: nat, sz: nat, kmap: seq<Region>, ghost m0: Mem,
                     ghost spaces: set<nat>, ghost others: set<nat>)
      returns (r: PageResult, v: nat, ghost lost: set<nat>)
      requires Inv(m0, spaces, others) && d in spaces && KmapOk(kmap) && sz <= 0x8000_0000
      requires CopyInv(m0, spaces, others, d, e, kmap, 1, Now())
      modifies this
      ensures AllSame(m0, spaces, Now()) && Kept(m0, Now())
      ensures r == Next ==> CopiedTo(m0, d, Now(), e, kmap, Pages(sz))
      ensures r == Absent ==> 0 < v < Pages(sz) && !IsMapped(m0, d, v)
      ensures WasFree(m0, lost) && (r != Absent ==> Inv(Now(), spaces + {e}, others + lost))
      ensures |lost| == (if r == NoTable then 1 else 0) && (r != NoTable ==> others + lost == others)
      ensures Counted(Result(r, e, v), |m0.free|, KernelNeed(kmap), FirstAbsent(m0, d, 1, Pages(sz)), Pages(sz))
    {
      ghost var total, kernel, n := |m0.free|, KernelNeed(kmap), Pages(sz);
      ghost var limit := FirstAbsent(m0, d, 1, n);
      v, lost := 1, {};
      assert others + lost == others;
      while v * 4096 < sz
        invariant v <= limit && (v == 1 || v <= n) && CopyInv(m0, spaces, others, d, e, kmap, v, Now())
      {
        var v' := v + 1;
        Reach(m0, d, v, n);
        r, lost := CopyTurn(d, e, v, v', kmap, m0, spaces, others);
        if r != Next {
          Stops(r, total, kernel, v, limit, n, |free|, e);
          assert lost == {} ==> others + lost == others;
          return;
        }
        v := v';
      }
      r, lost := Next, {};
      AllCopied(m0, d, Now(), e, kmap, v, n);
      StopsCopied(total, kernel, v, n, |free|, e);
    }

    /** The error path of copyuvm. */
    method Undo(e: nat, ghost m0: Mem, ghost spaces: set<nat>, ghost others: set<nat>, ghost lost: set<nat>)
      requires Inv(Now(), spaces + {e}, others + lost) && e !in spaces && Inv(m0, spaces, others)
      requires AllSame(m0, spaces, Now()) && Kept(m0, Now()) && WasFree(m0, lost)
      modifies this
      ensures Inv(Now(), spaces, others + lost) && AllSame(m0, spaces, Now()) && Returned(m0, lost, Now())
    {
      ghost var m, more := Now(), others + lost;
      ghost var owner :| Split(m, spaces + {e}, more, owner);
      assert spaces + {e} - {e} == spaces;
      Freevm(e, spaces + {e}, more, owner);
      AllSameTrans(m0, spaces, m, Now());
      UndoneFree(m0, spaces, others, lost, Now());
      UndoneData(m0, spaces, others, lost, e, owner, m, Now());
    }

    /** copyuvm.  A copy has the parent's bytes and flags in fresh pages.  If memory
        runs out, all pages come back, but for the page that found no table and for
        an unfinished kernel part. */
    method Copyuvm(d: nat, sz: nat, kmap: seq<Region>, ghost spaces: set<nat>, ghost others: set<nat>)
      returns (r: CopyResult, ghost lost: set<nat>)
      requires Inv(Now(), spaces, others) && FreeOk(Now()) && d in spaces && sz <= 0x8000_0000 && KmapOk(kmap)
      modifies this
      ensures AllSame(old(Now()), spaces, Now())
      ensures r.Copied? ==> Kept(old(Now()), Now()) && r.d !in spaces && Inv(Now(), spaces + {r.d}, others)
      ensures r.Copied? ==> CopiedTo(old(Now()), d, Now(), r.d, kmap, Pages(sz))
      ensures r.NoKernelPart? ==> Inv(Now(), spaces + lost, others) && |lost| <= 1 && free == []
                                  && (lost == {} <==> old(free) == [])
      ensures r.OutOfPages? ==> lost == {} && Inv(Now(), spaces, others) && Returned(old(Now()), lost, Now())
      ensures r.OutOfTables? ==> |lost| == 1 && Inv(Now(), spaces, others + lost) && Returned(old(Now()), lost, Now())
      ensures r.NotPresent? ==>
                0 < r.page < Pages(sz) && !IsMapped(old(Now()), d, r.page)
      ensures Counted(r, |old(free)|, KernelNeed(kmap), FirstAbsent(old(Now()), d, 1, Pages(sz)), Pages(sz))
    {
      ghost var m0 := Now();
      var root;
      root, lost := Setupkvm(kmap, spaces, others);
      if root.None? { return NoKernelPart, lost; }
      var e := root.value;
      NothingCopied(m0, spaces, others, d, Now(), e, kmap);
      var result, v;
      result, v, lost := CopyPages(d, e, sz, kmap, m0, spaces, others);
      if result == NoPage || result == NoTable {
        Undo(e, m0, spaces, others, lost);
      }
      r := Result(result, e, v);
    }
  }

  datatype CopyResult = Copied(d: nat) | NoKernelPart | OutOfPages | OutOfTables | NotPresent(page: nat)

  /** What copyuvm returns when its loop ends with r at page v of e. */
  function Result(r: PageResult, e: nat, v: nat): CopyResult
  {
    match r
    case Next => Copied(e)
    case Absent => NotPresent(v)
    case NoPage => OutOfPages
    case NoTable => OutOfTables
  }

  /** The result follows from the number of free pages, the number that the kernel
      part needs, the first page l that is not mapped, and the number n of pages. */
  ghost predicate Counted(r: CopyResult, free: nat, kernel: nat, l: nat, n: nat)
    requires 0 < l
  {
    && (r.NoKernelPart? <==> free < kernel)
    && (r.OutOfTables? <==> kernel <= free && Starved(free - kernel, l))
    && (r.OutOfPages? <==> kernel <= free && free - kernel < Need(l) && !Starved(free - kernel, l))
    && (r.NotPresent? <==> kernel <= free && Need(l) <= free - kernel && l < n)
    && (r.Copied? <==> kernel <= free && Need(l) <= free - kernel && n <= l)
    && (r.NotPresent? ==> r.page == l)
  }

  /** One user page, three free pages. */
  function Tight(): Mem
  {
    Mem([Table(NoEntries()[0 := Present(1, TABLE_FLAGS)]), Table(NoEntries()[1 := Present(2, 7)]),
         Data([]), Junk, Junk, Junk], [3, 4, 5])
  }

  const ONE_ROW := [Region(NUSER * 1024, 1, 0, 2)]

  lemma TightInv()
    ensures Inv(Tight(), {0}, {})
  {
    var m, owner := Tight(), map[0 := Root(0), 1 := Inner(0, 0), 2 := Page(0, 0, 1)];
    forall x ensures SlotOk(m, {0}, owner, x) {}
    forall f ensures OwnerOk(m, {0}, owner, f) {}
    forall f ensures FrameOk(m, owner, {}, f) {}
    assert Split(m, {0}, {}, owner);
  }

  /** copyuvm loses a page here: a directory and a kernel table leave one page for
      the copy and none for its table. */
  lemma CopyLosesPage(r: CopyResult)
    requires Counted(r, |Tight().free|, KernelNeed(ONE_ROW), FirstAbsent(Tight(), 0, 1, Pages(8192)), Pages(8192))
    ensures Inv(Tight(), {0}, {}) && KmapOk(ONE_ROW) && r.OutOfTables?
  {
    TightInv();
    assert KernelDirs(ONE_ROW) == {512};
    assert IsMapped(Tight(), 0, 1);
  }

  lemma Reach(m: Mem, d: nat, v: nat, n: nat)
    requires 0 < v < n && v <= FirstAbsent(m, d, 1, n)
    ensures v < FirstAbsent(m, d, 1, n) <==> IsMapped(m, d, v)
  {
  }

  lemma StopsAbsent(free: nat, kernel: nat, v: nat, n: nat, left: nat)
    requires 0 < v < n && left + kernel + Need(v) == free
    ensures Counted(NotPresent(v), free, kernel, v, n)
  {
    NotStarved(free - kernel, v);
  }

  lemma StopsNoPage(free: nat, kernel: nat, v: nat, l: nat, n: nat)
    requires 0 < v < l && kernel + Need(v) == free
    ensures Counted(OutOfPages, free, kernel, l, n)
  {
    NoPageLeft(free - kernel, v, l);
  }

  lemma StopsNoTable(free: nat, kernel: nat, v: nat, l: nat, n: nat)
    requires 0 < v < l && 1 + kernel + Need(v) == free && (v == 1 || v % 1024 == 0)
    ensures Counted(OutOfTables, free, kernel, l, n)
  {
    NoTableLeft(free - kernel, v, l);
  }

  lemma Stops(r: PageResult, free: nat, kernel: nat, v: nat, l: nat, n: nat, left: nat, e: nat)
    requires 0 < v <= l && v < n && r != Next && (r == Absent <==> v == l)
    requires r == Absent ==> left + kernel + Need(v) == free
    requires r == NoPage ==> kernel + Need(v) == free
    requires r == NoTable ==> 1 + kernel + Need(v) == free && (v == 1 || v % 1024 == 0)
    ensures Counted(Result(r, e, v), free, kernel, l, n)
  {
    if r == Absent { StopsAbsent(free, kernel, v, n, left); }
    if r == NoPage { StopsNoPage(free, kernel, v, l, n); }
    if r == NoTable { StopsNoTable(free, kernel, v, l, n); }
  }

  lemma AllCopied(m0: Mem, d: nat, m: Mem, e: nat, kmap: seq<Region>, v: nat, n: nat)
    requires CopiedTo(m0, d, m, e, kmap, v) && (v == n || (v == 1 && n <= v))
    ensures CopiedTo(m0, d, m, e, kmap, n)
  {
  }

  lemma StopsCopied(free: nat, kernel: nat, v: nat, n: nat, left: nat, e: nat)
    requires 0 < v && n <= v && left + kernel + Need(v) == free
    ensures Counted(Copied(e), free, kernel, v, n)
  {
    NotStarved(free - kernel, v);
  }

  /** Copies of pages 1 to v - 1 and the kernel part have taken their pages from
      total free ones. */
  ghost predicate CopyCount(m: Mem, e: nat, kmap: seq<Region>, v: nat, total: nat)
    requires 0 < v
  {
    Tables(m, e) == KernelDirs(kmap) + Dirs(1, v) && |m.free| + KernelNeed(kmap) + Need(v) == total
  }

  /** The start of a turn of copyuvm's loop: pages 1 to v - 1 are copied. */
  ghost predicate CopyInv(m0: Mem, spaces: set<nat>, others: set<nat>, d: nat, e: nat, kmap: seq<Region>, v: nat,
                          m: Mem)
  {
    && 0 < v <= NUSER * 1024 && e !in spaces && Inv(m, spaces + {e}, others)
    && AllSame(m0, spaces, m) && Kept(m0, m) && CopiedTo(m0, d, m, e, kmap, v) && CopyCount(m, e, kmap, v, |m0.free|)
  }

  /** User tables and kernel tables are different ones. */
  lemma UserDirs(kmap: seq<Region>, v: nat)
    requires KmapOk(kmap) && 0 < v < NUSER * 1024
    ensures v / 1024 in KernelDirs(kmap) + Dirs(1, v) <==> !(v == 1 || v % 1024 == 0)
    ensures Need(v + 1) == Need(v) + if v / 1024 in KernelDirs(kmap) + Dirs(1, v) then 1 else 2
  {
    NeedIs(v);
    if v / 1024 in KernelDirs(kmap) { KernelDirsHigh(kmap, v / 1024); }
  }

  lemma CopyCounts(m: Mem, e: nat, kmap: seq<Region>, v: nat, total: nat, v': nat, m': Mem)
    requires KmapOk(kmap) && 0 < v < NUSER * 1024 && v' == v + 1 && CopyCount(m, e, kmap, v, total)
    requires Tables(m', e) == Tables(m, e) + {v / 1024}
    requires |m'.free| == |m.free| - if v / 1024 in Tables(m, e) then 1 else 2
    ensures CopyCount(m', e, kmap, v', total)
  {
    UserDirs(kmap, v);
    DirsNext(1, v);
    WithOneMore(KernelDirs(kmap), Dirs(1, v), v / 1024);
  }

  lemma WithOneMore(a: set<nat>, b: set<nat>, x: nat)
    ensures a + b + {x} == a + (b + {x})
  {
  }

  /** The free pages are those of m0 but for the lost ones, and every page that was
      in use holds what it held. */
  ghost predicate Returned(m0: Mem, lost: set<nat>, m: Mem)
  {
    && |m.frames| == |m0.frames|
    && (forall f :: f in m.free <==> f in m0.free && f !in lost)
    && (forall g | 0 <= g < |m0.frames| && g !in m0.free && !IsTable(m0, g) :: m.frames[g] == m0.frames[g])
  }

  lemma NothingCopied(m0: Mem, spaces: set<nat>, others: set<nat>, d: nat, m: Mem, e: nat, kmap: seq<Region>)
    requires KmapOk(kmap) && KernelOnly(m, e, kmap) && AllSame(m0, spaces, m) && Kept(m0, m)
    requires e !in spaces && Inv(m, spaces + {e}, others)
    requires Tables(m, e) == KernelDirs(kmap) && |m.free| == |m0.free| - KernelNeed(kmap)
    ensures CopyInv(m0, spaces, others, d, e, kmap, 1, m)
  {
    NoUserPages(m0, d, m, e, kmap);
  }

  lemma NoUserPages(m0: Mem, d: nat, m: Mem, e: nat, kmap: seq<Region>)
    requires KmapOk(kmap) && KernelOnly(m, e, kmap)
    ensures CopiedTo(m0, d, m, e, kmap, 1)
  {
    forall k, l | 0 <= k < NUSER && 0 <= l < NENTRIES ensures Lookup(m, e, k, l) == Empty {
      KernelPteEmpty(kmap, k * 1024 + l);
    }
  }

  /** Pages are conserved: with the same address spaces, the same pages are free. */
  lemma UndoneFree(m0: Mem, spaces: set<nat>, others: set<nat>, lost: set<nat>, m: Mem)
    requires Inv(m0, spaces, others) && Inv(m, spaces, others + lost) && AllSame(m0, spaces, m)
    requires |m.frames| == |m0.frames| && WasFree(m0, lost)
    ensures forall f :: f in m.free <==> f in m0.free && f !in lost
  {
    var owner0 :| Split(m0, spaces, others, owner0);
    var owner :| Split(m, spaces, others + lost, owner);
    forall x | IsSlot(spaces, x) ensures At(m, x) == At(m0, x) { assert SpaceSame(m0, x.d, m); }
    forall f ensures f in m.free <==> f in m0.free && f !in lost {
      assert FrameOk(m0, owner0, others, f);
      assert FrameOk(m, owner, others + lost, f);
      assert OwnerOk(m0, spaces, owner0, f);
      assert OwnerOk(m, spaces, owner, f);
      assert f in owner0 ==> SlotOk(m, spaces, owner, owner0[f]);
      assert f in owner ==> SlotOk(m0, spaces, owner0, owner[f]);
    }
  }

  lemma UndoneData(m0: Mem, spaces: set<nat>, others: set<nat>, lost: set<nat>, e: nat, owner: map<nat, Slot>,
                   m: Mem, m': Mem)
    requires Inv(m0, spaces, others) && Split(m, spaces + {e}, others + lost, owner) && e !in spaces
    requires AllSame(m0, spaces, m) && Kept(m0, m) && Gone(m, owner, e, m')
    ensures forall g | 0 <= g < |m0.frames| && g !in m0.free && !IsTable(m0, g) :: m'.frames[g] == m0.frames[g]
  {
    var owner0: map<nat, Slot> :| Split(m0, spaces, others, owner0);
    forall g | 0 <= g < |m0.frames| && g !in m0.free && !IsTable(m0, g) ensures m'.frames[g] == m0.frames[g] {
      assert FrameOk(m0, owner0, others, g);
      assert OwnerOk(m0, spaces, owner0, g);
      if g in owner0 {
        assert SpaceSame(m0, owner0[g].d, m);
        assert SlotOk(m, spaces + {e}, owner, owner0[g]);
      }
      assert FrameOk(m, owner, others + lost, g);
    }
  }

  datatype PageResult = Next | Absent | NoPage | NoTable

  /** Page (k, l) of e is a copy of that of d: same bytes, same flags, in a page
      that was free. */
  ghost predicate CopyOf(m0: Mem, d: nat, m: Mem, e: nat, k: nat, l: nat)
    requires k < NENTRIES && l < NENTRIES
  {
    var (p, q) := (Lookup(m0, d, k, l), Lookup(m, e, k, l));
    && p.Present? && q.Present? && q.flags == p.flags
    && p.frame < |m0.frames| && q.frame < |m.frames| && m.frames[q.frame] == m0.frames[p.frame]
    && m.frames[q.frame].Data? && q.frame in m0.free && q.frame !in m.free
  }

  /** User pages 1 to v - 1 are copied, there are no others, and the kernel's are
      mapped as kmap says. */
  ghost predicate CopiedTo(m0: Mem, d: nat, m: Mem, e: nat, kmap: seq<Region>, v: nat)
  {
    forall k, l | 0 <= k < NENTRIES && 0 <= l < NENTRIES ::
      if k < NUSER && 1 <= k * 1024 + l < v then CopyOf(m0, d, m, e, k, l)
      else Lookup(m, e, k, l) == if k < NUSER then Empty else KernelPte(kmap, k * 1024 + l)
  }

  /** A user page holds data, and is not free. */
  lemma UserPage(m: Mem, spaces: set<nat>, others: set<nat>, d: nat, i: nat, j: nat)
    requires Inv(m, spaces, others) && d in spaces && i < NUSER && j < NENTRIES && Lookup(m, d, i, j).Present?
    ensures var f := Lookup(m, d, i, j).frame; f < |m.frames| && f !in m.free && m.frames[f].Data?
  {
    var owner :| Split(m, spaces, others, owner);
    assert SlotOk(m, spaces, owner, Page(d, i, j));
    assert OwnerOk(m, spaces, owner, Lookup(m, d, i, j).frame);
  }

  lemma AllSameTake(m0: Mem, spaces: set<nat>, e: nat, m: Mem, m1: Mem)
    requires AllSame(m0, spaces, m) && AllSame(m, spaces + {e}, m1)
    ensures AllSame(m0, spaces, m1)
  {
    forall x | x in spaces ensures SpaceSame(m0, x, m1) { assert SpaceSame(m0, x, m) && SpaceSame(m, x, m1); }
  }

  ghost predicate Copying(m0: Mem, spaces: set<nat>, d: nat, e: nat, kmap: seq<Region>, v: nat, pte: Pte, m: Mem)
  {
    && d in spaces && e !in spaces && 0 < v < NUSER * 1024
    && AllSame(m0, spaces, m) && Kept(m0, m) && CopiedTo(m0, d, m, e, kmap, v)
    && pte.Present? && pte == Lookup(m0, d, v / 1024, v % 1024)
    && pte.frame < |m0.frames| && pte.frame !in m0.free && m0.frames[pte.frame].Data?
  }

  ghost predicate CopyReady(m0: Mem, spaces: set<nat>, others: set<nat>, e: nat, v: nat, pte: Pte, m: Mem, m1: Mem,
                            g: nat)
    requires v < NUSER * 1024 && pte.Present? && pte.frame < |m0.frames|
  {
    && AllSame(m0, spaces, m1) && Kept(m0, m1) && Kept(m, m1) && SpaceSame(m, e, m1)
    && Inv(m1, spaces + {e}, others + {g}) && IsTable(m1, e) && FreeOk(m1)
    && g in m.free && g in m0.free && g !in others && g < |m1.frames| && g !in m1.free
    && m1.frames[g] == m0.frames[pte.frame]
    && Lookup(m1, e, v / 1024, v % 1024) == Empty
  }

  /** The new page holds the bytes of the old one. */
  lemma CopyTaken(m0: Mem, spaces: set<nat>, others: set<nat>, d: nat, e: nat, kmap: seq<Region>, v: nat, pte: Pte,
                  m: Mem)
    requires Copying(m0, spaces, d, e, kmap, v, pte, m) && Inv(m, spaces + {e}, others) && m.free != []
    ensures m.free[0] < |m.frames|
    ensures CopyReady(m0, spaces, others, e, v, pte, m, Take(m, m.frames[pte.frame]), m.free[0])
  {
    var g, m1 := m.free[0], Take(m, m.frames[pte.frame]);
    TakeInv(m, spaces + {e}, others, m.frames[pte.frame]);
    Intact(m1, spaces + {e}, others + {g}, e);
    Intact(m, spaces + {e}, others, e);
    AllSameTake(m0, spaces, e, m, m1);
    assert SpaceSame(m, e, m1);
    assert (v / 1024) * 1024 + v % 1024 == v;
  }

  lemma CopyMapped(m0: Mem, spaces: set<nat>, others: set<nat>, d: nat, e: nat, kmap: seq<Region>, v: nat, pte: Pte,
                   m: Mem, m1: Mem, g: nat)
    requires Copying(m0, spaces, d, e, kmap, v, pte, m) && CopyReady(m0, spaces, others, e, v, pte, m, m1, g)
    ensures var r := MapPage(m1, e, v / 1024, v % 1024, g, pte.flags);
            && !r.Remap?
            && (r.Mapped? ==> Inv(r.mem, spaces + {e}, others) && CopiedTo(m0, d, r.mem, e, kmap, v + 1)
                              && AllSame(m0, spaces, r.mem) && Kept(m0, r.mem))
  {
    var all, more := spaces + {e}, others + {g};
    MapUser(m1, all, more, e, v / 1024, v % 1024, g, pte.flags);
    var r := MapPage(m1, e, v / 1024, v % 1024, g, pte.flags);
    if r.Mapped? {
      assert all - {e} == spaces && more - {g} == others;
      CopyStep(m0, d, e, kmap, v, m, m1, g, all, r.mem);
      AllSameTrans(m0, spaces, m1, r.mem);
    }
  }

  lemma CopyStep(m0: Mem, d: nat, e: nat, kmap: seq<Region>, v: nat, m: Mem, m1: Mem, g: nat, all: set<nat>, m2: Mem)
    requires CopiedTo(m0, d, m, e, kmap, v) && 0 < v < NUSER * 1024 && e in all
    requires SpaceSame(m, e, m1) && Kept(m, m1) && Kept(m1, m2) && Kept(m0, m)
    requires Lookup(m0, d, v / 1024, v % 1024).Present?
    requires var p := Lookup(m0, d, v / 1024, v % 1024);
             && p.frame < |m0.frames| && m0.frames[p.frame].Data?
             && g < |m1.frames| && g in m.free && g !in m1.free && m1.frames[g] == m0.frames[p.frame]
             && LookupSet(m1, all, e, v / 1024, v % 1024, Present(g, p.flags), m2)
    ensures CopiedTo(m0, d, m2, e, kmap, v + 1)
  {
    forall k, l | 0 <= k < NENTRIES && 0 <= l < NENTRIES
      ensures if k < NUSER && 1 <= k * 1024 + l < v + 1 then CopyOf(m0, d, m2, e, k, l)
              else Lookup(m2, e, k, l) == if k < NUSER then Empty else KernelPte(kmap, k * 1024 + l)
    {
      assert k == v / 1024 && l == v % 1024 <==> k * 1024 + l == v;
      assert Lookup(m1, e, k, l) == Lookup(m, e, k, l);
      assert k < NUSER && 1 <= k * 1024 + l < v ==> CopyOf(m0, d, m, e, k, l);
    }
  }

  /** Of the pages in all, those in done are behind v and the rest is ahead. */
  ghost predicate Scanned(dirs: set<nat>, done: set<nat>, v: nat, hi: nat, all: set<nat>)
  {
    done + Scan(dirs, v, hi) == all && forall u | u in done :: u < v
  }

  lemma ScanNext(dirs: set<nat>, done: set<nat>, v: nat, hi: nat, all: set<nat>, v': nat, done': set<nat>)
    requires Scanned(dirs, done, v, hi, all) && v < hi
    requires v' == v + (if v / 1024 !in dirs then 1024 else 1)
    requires done' == if v / 1024 !in dirs then done else done + {v}
    ensures Scanned(dirs, done', v', hi, all) && v !in done
  {
  }

  lemma ScanEnd(dirs: set<nat>, done: set<nat>, v: nat, hi: nat, all: set<nat>)
    requires Scanned(dirs, done, v, hi, all) && v >= hi
    ensures done == all
  {
  }

  /** The number of pages that hold size bytes (PGROUNDUP over the page size). */
  function Pages(size: nat): nat
  {
    (size + 4095) / 4096
  }

  /** Directory d maps the kernel's pages as kmap says, and nothing else. */
  ghost predicate KernelOnly(m: Mem, d: nat, kmap: seq<Region>)
  {
    forall k, l | 0 <= k < NENTRIES && 0 <= l < NENTRIES :: Lookup(m, d, k, l) == KernelPte(kmap, k * 1024 + l)
  }

  lemma RowEmpty(m: Mem, d: nat, kmap: seq<Region>, a: nat)
    requires KmapOk(kmap) && a < |kmap| && KernelOnly(m, d, kmap[..a])
    ensures RowFree(m, d, kmap[a])
  {
    forall k, l | 0 <= k < NENTRIES && 0 <= l < NENTRIES && Covers(kmap[a], k * 1024 + l)
      ensures Lookup(m, d, k, l) == Empty
    {
      KernelPteEmpty(kmap[..a], k * 1024 + l);
    }
  }

  /** The first a rows of d are mapped, with tables from total free pages. */
  ghost predicate RowsInv(m: Mem, spaces: set<nat>, others: set<nat>, d: nat, kmap: seq<Region>, a: nat, total: nat,
                          m1: Mem)
    requires a <= |kmap|
  {
    && Inv(m1, spaces + {d}, others) && AllSame(m, spaces, m1) && Kept(m, m1) && KernelOnly(m1, d, kmap[..a])
    && Tables(m1, d) == KernelDirs(kmap[..a]) && Used(m1, d) == total
  }

  lemma RowsStep(m: Mem, spaces: set<nat>, others: set<nat>, d: nat, kmap: seq<Region>, a: nat, a': nat, total: nat,
                 m1: Mem, m2: Mem, ok: bool, end: nat)
    requires a' == a + 1 && a < |kmap| && d !in spaces && RowsInv(m, spaces, others, d, kmap, a, total, m1)
    requires RowInv(m1, spaces + {d}, others, d, kmap[a], end, m2) && (ok ==> end == kmap[a].first + kmap[a].count)
    requires ok <==> RowNeed(m1, d, kmap[a]) <= Used(m1, d)
    ensures Inv(m2, spaces + {d}, others) && AllSame(m, spaces, m2) && Kept(m, m2)
    ensures if ok then RowsInv(m, spaces, others, d, kmap, a', total, m2) else total < |KernelDirs(kmap)|
  {
    assert spaces + {d} - {d} == spaces;
    AllSameTrans(m, spaces, m1, m2);
    RowDirs(kmap, a, a');
    if ok { RowFilled(m1, d, kmap, a, a', m2); }
  }

  lemma RowDirs(kmap: seq<Region>, a: nat, a': nat)
    requires a' == a + 1 && a < |kmap|
    ensures KernelDirs(kmap[..a']) == KernelDirs(kmap[..a]) + Dirs(kmap[a].first, kmap[a].first + kmap[a].count)
    ensures |KernelDirs(kmap[..a'])| <= |KernelDirs(kmap)|
  {
    assert kmap[..a'][..a] == kmap[..a];
    KernelDirsMore(kmap, a');
    SubsetSize(KernelDirs(kmap[..a']), KernelDirs(kmap));
  }

  lemma RowFilled(m: Mem, d: nat, kmap: seq<Region>, a: nat, a': nat, m': Mem)
    requires a' == a + 1 && a < |kmap| && KernelOnly(m, d, kmap[..a])
    requires Filled(m, d, kmap[a], kmap[a].first + kmap[a].count, m')
    ensures KernelOnly(m', d, kmap[..a'])
  {
    assert kmap[..a'][..a] == kmap[..a];
  }
}
