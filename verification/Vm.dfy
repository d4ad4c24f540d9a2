/** Page tables (vm.c) over the page allocator (kalloc.c). */
module PageTables {
  import Blocks

  const NENTRIES: nat := 1024   // entries of a directory or a table
  const NUSER: nat := 512       // directory entries below KERNBASE

  type Flags = nat              // the permission bits of an entry

  /** A page directory or page table entry. */
  datatype Pte = Empty | Present(frame: nat, flags: Flags)

  /** What a page of physical memory holds.  kfree fills a page with junk, so a
      freed table is a table no more. */
  datatype Content = Junk | Data(bytes: seq<Blocks.Byte>) | Table(ptes: seq<Pte>)

  /** Physical memory, by page number, and the list of free pages. */
  datatype Mem = Mem(frames: seq<Content>, free: seq<nat>)

  function NoEntries(): (r: seq<Pte>)
    ensures |r| == NENTRIES && forall k | 0 <= k < NENTRIES :: r[k] == Empty
  {
    seq(NENTRIES, _ => Empty)
  }

  predicate IsTable(m: Mem, f: nat)
  {
    f < |m.frames| && m.frames[f].Table? && |m.frames[f].ptes| == NENTRIES
  }

  /** The entries of a table, or none. */
  function Entries(m: Mem, f: nat): (r: seq<Pte>)
    ensures |r| == NENTRIES
  {
    if IsTable(m, f) then m.frames[f].ptes else NoEntries()
  }

  /** Directory entry i of the address space with directory d. */
  function Pde(m: Mem, d: nat, i: nat): Pte
    requires i < NENTRIES
  {
    Entries(m, d)[i]
  }

  /** walkpgdir without allocation: the entry of the page with directory index i
      and table index j. */
  function Lookup(m: Mem, d: nat, i: nat, j: nat): Pte
    requires i < NENTRIES && j < NENTRIES
  {
    var pde := Pde(m, d, i);
    if pde.Empty? then Empty else Entries(m, pde.frame)[j]
  }

  // ---------------------------------------------------------------
  // Who owns a page.

  /** The uses of a page: the directory of an address space, one of its tables,
      or one of its user pages. */
  datatype Slot = Root(d: nat) | Inner(d: nat, i: nat) | Page(d: nat, i: nat, j: nat)

  predicate IsSlot(spaces: set<nat>, x: Slot)
  {
    && x.d in spaces
    && (x.Inner? ==> x.i < NENTRIES)
    && (x.Page? ==> x.i < NUSER && x.j < NENTRIES)
  }

  function At(m: Mem, x: Slot): Pte
    requires IsSlot({x.d}, x)
  {
    match x
    case Root(d) => Present(d, 0)
    case Inner(d, i) => Pde(m, d, i)
    case Page(d, i, j) => Lookup(m, d, i, j)
  }

  ghost predicate OwnerOk(m: Mem, spaces: set<nat>, owner: map<nat, Slot>, f: nat)
  {
    f in owner ==>
      && f < |m.frames| && f !in m.free
      && IsSlot(spaces, owner[f]) && At(m, owner[f]).Present? && At(m, owner[f]).frame == f
      && if owner[f].Page? then m.frames[f].Data? else IsTable(m, f)
  }

  ghost predicate SlotOk(m: Mem, spaces: set<nat>, owner: map<nat, Slot>, x: Slot)
  {
    IsSlot(spaces, x) && At(m, x).Present? ==> At(m, x).frame in owner && owner[At(m, x).frame] == x
  }

  ghost predicate FreeOk(m: Mem)
  {
    && (forall k | 0 <= k < |m.free| :: m.free[k] < |m.frames|)
    && (forall k, l | 0 <= k < l < |m.free| :: m.free[k] != m.free[l])
  }

  /** Every page is free or has at most one use, and directories and tables are
      intact. */
  ghost predicate Owned(m: Mem, spaces: set<nat>, owner: map<nat, Slot>)
  {
    && FreeOk(m)
    && (forall f :: OwnerOk(m, spaces, owner, f))
    && (forall x :: SlotOk(m, spaces, owner, x))
  }

  // ---------------------------------------------------------------
  // kalloc and kfree.

  /** Take the first free page for content c. */
  function Take(m: Mem, c: Content): Mem
    requires m.free != [] && m.free[0] < |m.frames|
  {
    Mem(m.frames[m.free[0] := c], m.free[1..])
  }

  function Kfree(m: Mem, f: nat): Mem
    requires f < |m.frames|
  {
    Mem(m.frames[f := Junk], [f] + m.free)
  }

  function SetEntry(m: Mem, t: nat, k: nat, pte: Pte): Mem
    requires IsTable(m, t) && k < NENTRIES
  {
    m.(frames := m.frames[t := Table(m.frames[t].ptes[k := pte])])
  }

  /** kalloc never hands out a page that is in use. */
  lemma TakenIsFree(m: Mem, spaces: set<nat>, owner: map<nat, Slot>)
    requires Owned(m, spaces, owner) && m.free != []
    ensures m.free[0] < |m.frames| && m.free[0] !in owner && m.free[0] !in m.free[1..]
  {
    assert OwnerOk(m, spaces, owner, m.free[0]);
  }

  /** A page that is taken but not yet put to use leaves all else as it is. */
  lemma TakeKeeps(m: Mem, spaces: set<nat>, owner: map<nat, Slot>, c: Content)
    requires Owned(m, spaces, owner) && m.free != [] && m.free[0] < |m.frames|
    ensures Owned(Take(m, c), spaces, owner) && AllSame(m, spaces, Take(m, c))
  {
    var m', f := Take(m, c), m.free[0];
    TakenIsFree(m, spaces, owner);
    forall x | IsSlot(spaces, x) && !x.Page? && At(m, x).Present? ensures At(m, x).frame != f {
      assert SlotOk(m, spaces, owner, x);
    }
    forall d | d in spaces ensures Entries(m', d) == Entries(m, d) {
      assert At(m, Root(d)).frame != f;
    }
    forall d, i, j | d in spaces && 0 <= i < NENTRIES && 0 <= j < NENTRIES
      ensures Lookup(m', d, i, j) == Lookup(m, d, i, j)
    {
      assert Pde(m', d, i) == Pde(m, d, i) == At(m, Inner(d, i));
    }
    forall g ensures OwnerOk(m', spaces, owner, g) { assert OwnerOk(m, spaces, owner, g); }
    forall y ensures SlotOk(m', spaces, owner, y) { assert SlotOk(m, spaces, owner, y); }
  }

  // ---------------------------------------------------------------
  // Putting a page to use.

  /** The flags of a directory entry: the table's entries restrict further. */
  const TABLE_FLAGS: Flags := 6

  ghost predicate Spare(m: Mem, owner: map<nat, Slot>, f: nat)
  {
    f < |m.frames| && f !in m.free && f !in owner
  }

  lemma PutOwned(m: Mem, spaces: set<nat>, owner: map<nat, Slot>, x: Slot, f: nat, m': Mem)
    requires Owned(m, spaces, owner) && Spare(m, owner, f) && IsSlot(spaces, x) && At(m, x).Empty?
    requires |m'.frames| == |m.frames| && m'.free == m.free
    requires At(m', x).Present? && At(m', x).frame == f
    requires if x.Page? then m'.frames[f].Data? else IsTable(m', f)
    requires forall y | IsSlot(spaces, y) && y != x :: At(m', y) == At(m, y)
    requires forall g | IsTable(m, g) :: IsTable(m', g)
    requires forall g | 0 <= g < |m.frames| && m.frames[g].Data? :: m'.frames[g] == m.frames[g]
    ensures Owned(m', spaces, owner[f := x])
  {
    var owner' := owner[f := x];
    forall g ensures OwnerOk(m', spaces, owner', g) { assert OwnerOk(m, spaces, owner, g); }
    forall y ensures SlotOk(m', spaces, owner', y) { assert SlotOk(m, spaces, owner, y); }
  }

  /** Entry j of the table behind directory entry i of d, and nothing else, is
      the entry of page (i, j) of d. */
  lemma SetEntryLookup(m: Mem, spaces: set<nat>, owner: map<nat, Slot>, d: nat, i: nat, j: nat, pte: Pte,
                       e: nat, k: nat, l: nat)
    requires Owned(m, spaces, owner) && d in spaces && e in spaces
    requires i < NENTRIES && j < NENTRIES && k < NENTRIES && l < NENTRIES
    requires Pde(m, d, i).Present? && IsTable(m, Pde(m, d, i).frame)
    ensures var m' := SetEntry(m, Pde(m, d, i).frame, j, pte);
            Pde(m', e, k) == Pde(m, e, k)
            && Lookup(m', e, k, l) == if e == d && k == i && l == j then pte else Lookup(m, e, k, l)
  {
    assert SlotOk(m, spaces, owner, Inner(d, i));
    assert SlotOk(m, spaces, owner, Root(e));
    assert SlotOk(m, spaces, owner, Inner(e, k));
  }

  ghost predicate LookupsSame(m: Mem, spaces: set<nat>, m': Mem)
  {
    forall d, i, j | d in spaces && 0 <= i < NENTRIES && 0 <= j < NENTRIES ::
      Lookup(m', d, i, j) == Lookup(m, d, i, j)
  }

  /** Address space e has the same tables and the same mappings. */
  ghost predicate SpaceSame(m: Mem, e: nat, m': Mem)
  {
    && (forall i | 0 <= i < NENTRIES :: Pde(m', e, i) == Pde(m, e, i))
    && (forall i, j | 0 <= i < NENTRIES && 0 <= j < NENTRIES :: Lookup(m', e, i, j) == Lookup(m, e, i, j))
  }

  ghost predicate AllSame(m: Mem, spaces: set<nat>, m': Mem)
  {
    forall e | e in spaces :: SpaceSame(m, e, m')
  }

  /** Only the entry of page (i, j) of d differs. */
  ghost predicate LookupSet(m: Mem, spaces: set<nat>, d: nat, i: nat, j: nat, pte: Pte, m': Mem)
  {
    forall e, k, l | e in spaces && 0 <= k < NENTRIES && 0 <= l < NENTRIES ::
      Lookup(m', e, k, l) == if e == d && k == i && l == j then pte else Lookup(m, e, k, l)
  }

  /** A user page f is mapped at (i, j). */
  lemma SetUser(m: Mem, spaces: set<nat>, owner: map<nat, Slot>, d: nat, i: nat, j: nat, f: nat, flags: Flags, m': Mem)
    requires Owned(m, spaces, owner) && Spare(m, owner, f) && d in spaces && i < NUSER && j < NENTRIES
    requires m.frames[f].Data?
    requires Pde(m, d, i).Present? && IsTable(m, Pde(m, d, i).frame) && Lookup(m, d, i, j).Empty?
    requires m' == SetEntry(m, Pde(m, d, i).frame, j, Present(f, flags))
    ensures Owned(m', spaces, owner[f := Page(d, i, j)])
    ensures LookupSet(m, spaces, d, i, j, Present(f, flags), m') && AllSame(m, spaces - {d}, m')
  {
    forall e, k, l | e in spaces && 0 <= k < NENTRIES && 0 <= l < NENTRIES
      ensures Lookup(m', e, k, l) == if e == d && k == i && l == j then Present(f, flags) else Lookup(m, e, k, l)
    {
      SetEntryLookup(m, spaces, owner, d, i, j, Present(f, flags), e, k, l);
    }
    forall e, k | e in spaces && 0 <= k < NENTRIES ensures Pde(m', e, k) == Pde(m, e, k) {
      SetEntryLookup(m, spaces, owner, d, i, j, Present(f, flags), e, k, 0);
    }
    PutOwned(m, spaces, owner, Page(d, i, j), f, m');
  }

  // ---------------------------------------------------------------
  // Conservation of pages.

  ghost predicate FrameOk(m: Mem, owner: map<nat, Slot>, others: set<nat>, f: nat)
  {
    && (f in others ==> Spare(m, owner, f))
    && (f < |m.frames| ==> f in m.free || f in owner || f in others)
  }

  ghost predicate Split(m: Mem, spaces: set<nat>, others: set<nat>, owner: map<nat, Slot>)
  {
    Owned(m, spaces, owner) && forall f :: FrameOk(m, owner, others, f)
  }

  /** Every page is free, or has exactly one use in exactly one address space, or
      is in use elsewhere. */
  ghost predicate Inv(m: Mem, spaces: set<nat>, others: set<nat>)
  {
    exists owner :: Split(m, spaces, others, owner)
  }

  /** Pages that are neither free nor tables keep their contents. */
  ghost predicate DataSame(m: Mem, m': Mem)
  {
    && |m'.frames| == |m.frames|
    && forall g | 0 <= g < |m.frames| && g !in m.free && !IsTable(m, g) :: m'.frames[g] == m.frames[g]
  }

  lemma Intact(m: Mem, spaces: set<nat>, others: set<nat>, d: nat)
    requires Inv(m, spaces, others) && d in spaces
    ensures FreeOk(m) && IsTable(m, d) && d !in m.free
    ensures forall i | 0 <= i < NENTRIES && Pde(m, d, i).Present? ::
              IsTable(m, Pde(m, d, i).frame) && Pde(m, d, i).frame !in m.free
  {
    var owner :| Split(m, spaces, others, owner);
    assert SlotOk(m, spaces, owner, Root(d));
    assert OwnerOk(m, spaces, owner, d);
    forall i | 0 <= i < NENTRIES && Pde(m, d, i).Present?
      ensures IsTable(m, Pde(m, d, i).frame) && Pde(m, d, i).frame !in m.free
    {
      assert SlotOk(m, spaces, owner, Inner(d, i));
      assert OwnerOk(m, spaces, owner, Pde(m, d, i).frame);
    }
  }

  /** kalloc: the page was in use nowhere. */
  lemma TakeInv(m: Mem, spaces: set<nat>, others: set<nat>, c: Content)
    requires Inv(m, spaces, others) && m.free != []
    ensures var f := m.free[0];
            && f < |m.frames| && f !in others && f !in spaces
            && Inv(Take(m, c), spaces, others + {f})
            && AllSame(m, spaces, Take(m, c)) && DataSame(m, Take(m, c))
  {
    var owner :| Split(m, spaces, others, owner);
    var f, m' := m.free[0], Take(m, c);
    TakenIsFree(m, spaces, owner);
    TakeKeeps(m, spaces, owner, c);
    assert FrameOk(m, owner, others, f);
    assert SlotOk(m, spaces, owner, Root(f));
    forall g ensures FrameOk(m', owner, others + {f}, g) {
      assert FrameOk(m, owner, others, g);
      assert g in m.free ==> g == f || g in m.free[1..];
    }
    assert Split(m', spaces, others + {f}, owner);
  }

  /** kfree of a page that is in no address space. */
  lemma KfreeInv(m: Mem, spaces: set<nat>, others: set<nat>, f: nat)
    requires Inv(m, spaces, others) && f in others
    ensures f < |m.frames| && f !in m.free
    ensures Inv(Kfree(m, f), spaces, others - {f}) && AllSame(m, spaces, Kfree(m, f))
  {
    var owner :| Split(m, spaces, others, owner);
    assert FrameOk(m, owner, others, f);
    var m' := Kfree(m, f);
    forall e | e in spaces ensures SpaceSame(m, e, m') {
      assert SlotOk(m, spaces, owner, Root(e));
      assert Entries(m', e) == Entries(m, e);
      forall i | 0 <= i < NENTRIES && Pde(m, e, i).Present?
        ensures Entries(m', Pde(m, e, i).frame) == Entries(m, Pde(m, e, i).frame)
      {
        assert SlotOk(m, spaces, owner, Inner(e, i));
      }
    }
    forall x | IsSlot(spaces, x) ensures At(m', x) == At(m, x) { assert SpaceSame(m, x.d, m'); }
    forall g ensures OwnerOk(m', spaces, owner, g) { assert OwnerOk(m, spaces, owner, g); }
    forall x ensures SlotOk(m', spaces, owner, x) { assert SlotOk(m, spaces, owner, x); }
    forall g ensures FrameOk(m', owner, others - {f}, g) { assert FrameOk(m, owner, others, g); }
    assert Split(m', spaces, others - {f}, owner);
  }

  lemma SetUserInv(m: Mem, spaces: set<nat>, others: set<nat>, d: nat, i: nat, j: nat, f: nat, flags: Flags, m': Mem)
    requires Inv(m, spaces, others) && f in others && d in spaces && i < NUSER && j < NENTRIES
    requires f < |m.frames| && m.frames[f].Data?
    requires Pde(m, d, i).Present? && IsTable(m, Pde(m, d, i).frame) && Lookup(m, d, i, j).Empty?
    requires m' == SetEntry(m, Pde(m, d, i).frame, j, Present(f, flags))
    ensures Inv(m', spaces, others - {f}) && LookupSet(m, spaces, d, i, j, Present(f, flags), m')
    ensures AllSame(m, spaces - {d}, m') && DataSame(m, m')
  {
    var owner :| Split(m, spaces, others, owner);
    assert FrameOk(m, owner, others, f);
    SetUser(m, spaces, owner, d, i, j, f, flags, m');
    var owner' := owner[f := Page(d, i, j)];
    forall g ensures FrameOk(m', owner', others - {f}, g) { assert FrameOk(m, owner, others, g); }
    assert Split(m', spaces, others - {f}, owner');
  }

  lemma SetKernelInv(m: Mem, spaces: set<nat>, others: set<nat>, d: nat, i: nat, j: nat, pte: Pte, m': Mem)
    requires Inv(m, spaces, others) && d in spaces && NUSER <= i < NENTRIES && j < NENTRIES
    requires Pde(m, d, i).Present? && IsTable(m, Pde(m, d, i).frame)
    requires m' == SetEntry(m, Pde(m, d, i).frame, j, pte)
    ensures Inv(m', spaces, others) && LookupSet(m, spaces, d, i, j, pte, m')
    ensures AllSame(m, spaces - {d}, m') && DataSame(m, m')
  {
    var owner :| Split(m, spaces, others, owner);
    forall e, k, l | e in spaces && 0 <= k < NENTRIES && 0 <= l < NENTRIES
      ensures Lookup(m', e, k, l) == if e == d && k == i && l == j then pte else Lookup(m, e, k, l)
    {
      SetEntryLookup(m, spaces, owner, d, i, j, pte, e, k, l);
    }
    forall e, k | e in spaces && 0 <= k < NENTRIES ensures Pde(m', e, k) == Pde(m, e, k) {
      SetEntryLookup(m, spaces, owner, d, i, j, pte, e, k, 0);
    }
    forall y | IsSlot(spaces, y) ensures At(m', y) == At(m, y) {}
    forall g ensures OwnerOk(m', spaces, owner, g) { assert OwnerOk(m, spaces, owner, g); }
    forall y ensures SlotOk(m', spaces, owner, y) { assert SlotOk(m, spaces, owner, y); }
    forall g ensures FrameOk(m', owner, others, g) { assert FrameOk(m, owner, others, g); }
    assert Split(m', spaces, others, owner);
  }

  /** A new directory, with no entries. */
  lemma NewRootInv(m: Mem, spaces: set<nat>, others: set<nat>)
    requires Inv(m, spaces, others) && m.free != [] && m.free[0] < |m.frames|
    ensures var d, m' := m.free[0], Take(m, Table(NoEntries()));
            && d !in spaces && Inv(m', spaces + {d}, others) && AllSame(m, spaces, m') && DataSame(m, m')
            && forall i, j | 0 <= i < NENTRIES && 0 <= j < NENTRIES :: Lookup(m', d, i, j) == Empty
  {
    var owner :| Split(m, spaces, others, owner);
    var d, m' := m.free[0], Take(m, Table(NoEntries()));
    TakeInv(m, spaces, others, Table(NoEntries()));
    TakeKeeps(m, spaces, owner, Table(NoEntries()));
    TakenIsFree(m, spaces, owner);
    var owner' := owner[d := Root(d)];
    forall g ensures OwnerOk(m', spaces + {d}, owner', g) { assert OwnerOk(m', spaces, owner, g); }
    forall y ensures SlotOk(m', spaces + {d}, owner', y) { assert SlotOk(m', spaces, owner, y); }
    forall g ensures FrameOk(m', owner', others, g) {
      assert FrameOk(m, owner, others, g);
      assert g in m.free ==> g == d || g in m.free[1..];
    }
    assert Split(m', spaces + {d}, others, owner');
  }

  // ---------------------------------------------------------------
  // walkpgdir with allocation, and mappages for one page.

  /** A new table for directory entry i of d. */
  function NewTable(m: Mem, d: nat, i: nat): Mem
    requires m.free != [] && m.free[0] < |m.frames| && IsTable(m, d) && i < NENTRIES
  {
    var m1 := Take(m, Table(NoEntries()));
    SetEntry(m1, d, i, Present(m.free[0], TABLE_FLAGS))
  }

  lemma NewTablePde(m: Mem, spaces: set<nat>, owner: map<nat, Slot>, d: nat, i: nat, t: nat, m': Mem, e: nat, k: nat)
    requires Owned(m, spaces, owner) && d in spaces && e in spaces && i < NENTRIES && k < NENTRIES
    requires Spare(m, owner, t) && IsTable(m, t) && Entries(m, t) == NoEntries() && Pde(m, d, i).Empty?
    requires IsTable(m, d) && m' == SetEntry(m, d, i, Present(t, TABLE_FLAGS))
    ensures Pde(m', e, k) == if e == d && k == i then Present(t, TABLE_FLAGS) else Pde(m, e, k)
    ensures forall l | 0 <= l < NENTRIES :: Lookup(m', e, k, l) == Lookup(m, e, k, l)
  {
    assert SlotOk(m, spaces, owner, Root(e));
    assert SlotOk(m, spaces, owner, Root(d));
    assert SlotOk(m, spaces, owner, Inner(e, k));
  }

  /** Putting a fresh table to use changes no mapping. */
  lemma LinkTable(m: Mem, spaces: set<nat>, others: set<nat>, d: nat, i: nat, t: nat, m': Mem)
    requires Inv(m, spaces, others) && d in spaces && i < NENTRIES && t in others
    requires IsTable(m, t) && Entries(m, t) == NoEntries() && Pde(m, d, i).Empty?
    requires IsTable(m, d) && m' == SetEntry(m, d, i, Present(t, TABLE_FLAGS))
    ensures Inv(m', spaces, others - {t}) && LookupsSame(m, spaces, m') && DataSame(m, m')
    ensures AllSame(m, spaces - {d}, m') && Pde(m', d, i).Present?
  {
    var owner :| Split(m, spaces, others, owner);
    assert FrameOk(m, owner, others, t);
    forall e, k | e in spaces && 0 <= k < NENTRIES
      ensures Pde(m', e, k) == if e == d && k == i then Present(t, TABLE_FLAGS) else Pde(m, e, k)
      ensures forall l | 0 <= l < NENTRIES :: Lookup(m', e, k, l) == Lookup(m, e, k, l)
    {
      NewTablePde(m, spaces, owner, d, i, t, m', e, k);
    }
    PutOwned(m, spaces, owner, Inner(d, i), t, m');
    var owner' := owner[t := Inner(d, i)];
    forall g ensures FrameOk(m', owner', others - {t}, g) { assert FrameOk(m, owner, others, g); }
    assert Split(m', spaces, others - {t}, owner');
  }

  lemma NewTableInv(m: Mem, spaces: set<nat>, others: set<nat>, d: nat, i: nat)
    requires Inv(m, spaces, others) && d in spaces && i < NENTRIES && Pde(m, d, i).Empty?
    requires m.free != [] && m.free[0] < |m.frames| && IsTable(m, d)
    ensures var m' := NewTable(m, d, i);
            && Inv(m', spaces, others) && LookupsSame(m, spaces, m') && DataSame(m, m')
            && AllSame(m, spaces - {d}, m') && Pde(m', d, i).Present?
  {
    var t, m1 := m.free[0], Take(m, Table(NoEntries()));
    TakeInv(m, spaces, others, Table(NoEntries()));
    assert Entries(m1, d) == Entries(m, d);
    LinkTable(m1, spaces, others + {t}, d, i, t, NewTable(m, d, i));
    assert others + {t} - {t} == others;
    DataTrans(m, m1, NewTable(m, d, i), t);
  }

  /** Contents survive two steps, if the second leaves a page that the first took
      from the free list to itself. */
  lemma DataTrans(m: Mem, m1: Mem, m2: Mem, t: nat)
    requires DataSame(m, m1) && DataSame(m1, m2) && forall g | g in m1.free :: g in m.free
    requires t in m.free && forall g | IsTable(m1, g) && g != t :: IsTable(m, g)
    ensures DataSame(m, m2)
  {
  }

  datatype MapResult = Mapped(mem: Mem) | NoMemory | Remap

  /** mappages for one page; Remap is a panic. */
  function MapPage(m: Mem, d: nat, i: nat, j: nat, frame: nat, flags: Flags): MapResult
    requires IsTable(m, d) && i < NENTRIES && j < NENTRIES
    requires forall k | 0 <= k < |m.free| :: m.free[k] < |m.frames|
  {
    if Pde(m, d, i).Empty? && m.free == [] then NoMemory
    else
      var m1 := if Pde(m, d, i).Empty? then NewTable(m, d, i) else m;
      if Lookup(m1, d, i, j).Present? || Pde(m1, d, i).Empty? || !IsTable(m1, Pde(m1, d, i).frame) then Remap
      else Mapped(SetEntry(m1, Pde(m1, d, i).frame, j, Present(frame, flags)))
  }

  ghost predicate MapOk(m: Mem, spaces: set<nat>, d: nat, i: nat, j: nat, pte: Pte, m': Mem)
  {
    LookupSet(m, spaces, d, i, j, pte, m') && AllSame(m, spaces - {d}, m') && DataSame(m, m')
  }

  lemma MapTrans(m: Mem, spaces: set<nat>, d: nat, i: nat, j: nat, pte: Pte, m1: Mem, m2: Mem)
    requires LookupsSame(m, spaces, m1) && AllSame(m, spaces - {d}, m1) && DataSame(m, m1)
    requires MapOk(m1, spaces, d, i, j, pte, m2)
    requires forall g | 0 <= g < |m.frames| && g !in m.free && !IsTable(m, g) :: g !in m1.free && !IsTable(m1, g)
    ensures MapOk(m, spaces, d, i, j, pte, m2)
  {
    forall e | e in spaces - {d} ensures SpaceSame(m, e, m2) {
      assert SpaceSame(m, e, m1) && SpaceSame(m1, e, m2);
    }
  }

  lemma WalkTable(m: Mem, spaces: set<nat>, others: set<nat>, d: nat, i: nat) returns (m1: Mem)
    requires Inv(m, spaces, others) && d in spaces && i < NENTRIES && IsTable(m, d)
    requires forall k | 0 <= k < |m.free| :: m.free[k] < |m.frames|
    requires Pde(m, d, i).Present? || m.free != []
    ensures m1 == if Pde(m, d, i).Empty? then NewTable(m, d, i) else m
    ensures Inv(m1, spaces, others) && LookupsSame(m, spaces, m1) && AllSame(m, spaces - {d}, m1) && DataSame(m, m1)
    ensures forall g | 0 <= g < |m.frames| && g !in m.free && !IsTable(m, g) :: g !in m1.free && !IsTable(m1, g)
    ensures Pde(m1, d, i).Present? && IsTable(m1, Pde(m1, d, i).frame)
  {
    m1 := m;
    if Pde(m, d, i).Empty? {
      NewTableInv(m, spaces, others, d, i);
      m1 := NewTable(m, d, i);
    }
    Intact(m1, spaces, others, d);
  }

  /** mappages of a user page that kalloc has just given out. */
  lemma MapUser(m: Mem, spaces: set<nat>, others: set<nat>, d: nat, i: nat, j: nat, f: nat, flags: Flags)
    requires Inv(m, spaces, others) && d in spaces && i < NUSER && j < NENTRIES && f in others
    requires f < |m.frames| && m.frames[f].Data? && f !in m.free
    requires IsTable(m, d) && (forall k | 0 <= k < |m.free| :: m.free[k] < |m.frames|)
    requires Lookup(m, d, i, j).Empty?
    ensures var r := MapPage(m, d, i, j, f, flags);
            && (r.NoMemory? <==> Pde(m, d, i).Empty? && m.free == []) && !r.Remap?
            && (r.Mapped? ==> Inv(r.mem, spaces, others - {f}) && MapOk(m, spaces, d, i, j, Present(f, flags), r.mem))
  {
    if Pde(m, d, i).Present? || m.free != [] {
      var m1 := WalkTable(m, spaces, others, d, i);
      var m2 := SetEntry(m1, Pde(m1, d, i).frame, j, Present(f, flags));
      SetUserInv(m1, spaces, others, d, i, j, f, flags, m2);
      MapTrans(m, spaces, d, i, j, Present(f, flags), m1, m2);
    }
  }

  /** mappages of a kernel page. */
  lemma MapKernel(m: Mem, spaces: set<nat>, others: set<nat>, d: nat, i: nat, j: nat, f: nat, flags: Flags)
    requires Inv(m, spaces, others) && d in spaces && NUSER <= i < NENTRIES && j < NENTRIES
    requires IsTable(m, d) && (forall k | 0 <= k < |m.free| :: m.free[k] < |m.frames|)
    requires Lookup(m, d, i, j).Empty?
    ensures var r := MapPage(m, d, i, j, f, flags);
            && (r.NoMemory? <==> Pde(m, d, i).Empty? && m.free == []) && !r.Remap?
            && (r.Mapped? ==> Inv(r.mem, spaces, others) && MapOk(m, spaces, d, i, j, Present(f, flags), r.mem))
  {
    if Pde(m, d, i).Present? || m.free != [] {
      var m1 := WalkTable(m, spaces, others, d, i);
      var m2 := SetEntry(m1, Pde(m1, d, i).frame, j, Present(f, flags));
      SetKernelInv(m1, spaces, others, d, i, j, Present(f, flags), m2);
      MapTrans(m, spaces, d, i, j, Present(f, flags), m1, m2);
    }
  }
}
