/** Link counts (sysfile.c: create, sys_link, sys_unlink; fs.c: dirlookup,
    dirlink). */
module Links {
  import opened Options

  const ROOT: nat := 1

  datatype Kind = Free | File | Dev | Dir

  /** A directory entry; inode number 0 marks an unused one. */
  datatype Entry = Entry(inum: nat, name: string)

  datatype Node = Node(kind: Kind, nlink: int, entries: seq<Entry>)

  datatype State = State(nodes: seq<Node>)

  /** A directory that still has a name. */
  predicate Linked(s: State, d: nat)
  {
    d < |s.nodes| && s.nodes[d].kind == Dir && s.nodes[d].nlink > 0
  }

  function Parent(s: State, d: nat): nat
    requires d < |s.nodes|
  {
    if |s.nodes[d].entries| > 1 then s.nodes[d].entries[1].inum else 0
  }

  // ---------------------------------------------------------------
  // Entries that name an inode.

  /** Entry k of linked directory d names inode i; "." (entry 0) does not count. */
  predicate IsRef(s: State, i: nat, d: nat, k: nat)
  {
    Linked(s, d) && 1 <= k < |s.nodes[d].entries| && s.nodes[d].entries[k].inum == i
  }

  ghost function Refs(s: State, i: nat): set<(nat, nat)>
  {
    set d: nat, k: nat | d < |s.nodes| && k < |s.nodes[d].entries| && IsRef(s, i, d, k) :: (d, k)
  }

  ghost predicate NlinkOk(s: State, i: nat)
  {
    0 < i < |s.nodes| ==> s.nodes[i].nlink == |Refs(s, i)|
  }

  /** Two used entries never have the same name. */
  ghost predicate Distinct(entries: seq<Entry>)
  {
    forall k, l | 0 <= k < l < |entries| && entries[k].inum != 0 && entries[l].inum != 0 ::
      entries[k].name != entries[l].name
  }

  /** "." and ".." are the first two entries of a linked directory, and its parent
      is linked and has an entry for it. */
  ghost predicate DirOk(s: State, d: nat)
  {
    Linked(s, d) ==>
      var entries := s.nodes[d].entries;
      && |entries| >= 2 && d != 0 && entries[0] == Entry(d, ".") && entries[1].name == ".." && Distinct(entries)
      && Linked(s, Parent(s, d)) && Parent(s, d) != 0
      && if d == ROOT then Parent(s, d) == ROOT
         else exists k :: k >= 2 && IsRef(s, d, Parent(s, d), k)
  }

  /** A name entry names an inode in use; a directory has one name, in its parent. */
  ghost predicate EntryOk(s: State, i: nat, d: nat, k: nat)
  {
    IsRef(s, i, d, k) && i != 0 && k >= 2 ==>
      && i < |s.nodes| && s.nodes[i].kind != Free
      && (s.nodes[i].kind == Dir ==> i != ROOT && Linked(s, i) && Parent(s, i) == d)
      && (s.nodes[i].kind == Dir ==> forall l | l >= 2 && IsRef(s, i, d, l) :: l == k)
  }

  ghost predicate Inv(s: State)
  {
    && Linked(s, ROOT)
    && (forall i :: NlinkOk(s, i))
    && (forall d :: DirOk(s, d))
    && (forall i, d, k :: EntryOk(s, i, d, k))
    && (forall i | 0 <= i < |s.nodes| && s.nodes[i].kind == Free :: s.nodes[i].nlink == 0)
  }

  // ---------------------------------------------------------------
  // dirlookup and dirlink.

  /** The first used entry with a name. */
  function Lookup(entries: seq<Entry>, name: string, from: nat): (r: Option<nat>)
    requires from <= |entries|
    ensures r.Some? ==> from <= r.value < |entries| && entries[r.value].inum != 0 && entries[r.value].name == name
    ensures forall k | from <= k < (if r.Some? then r.value else |entries|) && entries[k].inum != 0 ::
              entries[k].name != name
    decreases |entries| - from
  {
    if from == |entries| then None
    else if entries[from].inum != 0 && entries[from].name == name then Some(from)
    else Lookup(entries, name, from + 1)
  }

  /** The first unused entry, or the end. */
  function Slot(entries: seq<Entry>, from: nat): (k: nat)
    requires from <= |entries|
    ensures from <= k <= |entries| && (k < |entries| ==> entries[k].inum == 0)
    ensures forall l | from <= l < k :: entries[l].inum != 0
    decreases |entries| - from
  {
    if from == |entries| || entries[from].inum == 0 then from else Slot(entries, from + 1)
  }

  function PutAt(entries: seq<Entry>, k: nat, e: Entry): (r: seq<Entry>)
    requires k <= |entries|
    ensures |r| == (if k < |entries| then |entries| else |entries| + 1) && r[k] == e
    ensures forall l | 0 <= l < |entries| && l != k :: r[l] == entries[l]
  {
    if k < |entries| then entries[k := e] else entries + [e]
  }

  // ---------------------------------------------------------------
  // The system calls.

  function SetNode(s: State, i: nat, n: Node): State
    requires i < |s.nodes|
  {
    State(s.nodes[i := n])
  }

  /** dirlink of a name that is not there: the first unused entry gets it. */
  function AddEntry(s: State, d: nat, e: Entry): State
    requires d < |s.nodes|
  {
    var entries := s.nodes[d].entries;
    SetNode(s, d, s.nodes[d].(entries := PutAt(entries, Slot(entries, 0), e)))
  }

  function AddLinks(s: State, i: nat, n: int): State
    requires i < |s.nodes|
  {
    SetNode(s, i, s.nodes[i].(nlink := s.nodes[i].nlink + n))
  }

  /** sys_link once old is found as ip and the directory of new as d; None is its
      failure, which leaves the link count as it was. */
  function Link(s: State, ip: nat, d: nat, name: string): Option<State>
    requires ip < |s.nodes| && d < |s.nodes|
  {
    if s.nodes[ip].kind == Dir || Lookup(s.nodes[d].entries, name, 0).Some? then None
    else Some(AddEntry(AddLinks(s, ip, 1), d, Entry(ip, name)))
  }

  /** create of a new inode ip in directory d. */
  function Create(s: State, ip: nat, d: nat, name: string, kind: Kind): State
    requires ip < |s.nodes| && d < |s.nodes|
  {
    var dots := [Entry(ip, "."), Entry(d, "..")];
    if kind == Dir then
      var s1 := AddLinks(s, d, 1);
      AddEntry(SetNode(s1, ip, Node(Dir, 1, dots)), d, Entry(ip, name))
    else
      AddEntry(SetNode(s, ip, Node(kind, 1, [])), d, Entry(ip, name))
  }

  predicate IsEmpty(entries: seq<Entry>)
  {
    forall k | 2 <= k < |entries| :: entries[k].inum == 0
  }

  /** sys_unlink of entry k of directory d. */
  function Unlink(s: State, d: nat, k: nat): State
    requires d < |s.nodes| && k < |s.nodes[d].entries| && s.nodes[d].entries[k].inum < |s.nodes|
  {
    var ip := s.nodes[d].entries[k].inum;
    var s1 := SetNode(s, d, s.nodes[d].(entries := s.nodes[d].entries[k := Entry(0, "")]));
    var s2 := if s.nodes[ip].kind == Dir then AddLinks(s1, d, -1) else s1;
    AddLinks(s2, ip, -1)
  }

  /** iput of the last reference to an inode without links. */
  function Reclaim(s: State, i: nat): State
    requires i < |s.nodes|
  {
    SetNode(s, i, Node(Free, s.nodes[i].nlink, []))
  }

  // ---------------------------------------------------------------
  // What they keep.

  lemma SlotAfterDots(s: State, d: nat)
    requires Inv(s) && Linked(s, d)
    ensures Slot(s.nodes[d].entries, 0) >= 2
  {
    assert DirOk(s, d);
  }

  /** The references of t are those of s, and entry k of d to i. */
  ghost predicate Adds(s: State, t: State, i: nat, d: nat, k: nat)
  {
    && |t.nodes| == |s.nodes|
    && IsRef(t, i, d, k) && (forall j | j != 0 :: !IsRef(s, j, d, k))
    && forall j, e, l | j != 0 :: IsRef(t, j, e, l) <==> (j == i && e == d && l == k) || IsRef(s, j, e, l)
  }

  lemma RefsPlus(s: State, t: State, j: nat, d: nat, k: nat)
    requires forall e, l :: IsRef(t, j, e, l) <==> (e == d && l == k) || IsRef(s, j, e, l)
    requires !IsRef(s, j, d, k)
    ensures |Refs(t, j)| == |Refs(s, j)| + 1
  {
    assert (d, k) !in Refs(s, j);
    assert Refs(t, j) == Refs(s, j) + {(d, k)};
  }

  lemma RefsMinus(s: State, t: State, j: nat, d: nat, k: nat)
    requires forall e, l :: IsRef(t, j, e, l) <==> !(e == d && l == k) && IsRef(s, j, e, l)
    requires IsRef(s, j, d, k)
    ensures |Refs(t, j)| == |Refs(s, j)| - 1
  {
    assert (d, k) in Refs(s, j);
    assert Refs(t, j) == Refs(s, j) - {(d, k)};
  }

  lemma AddsRefs(s: State, t: State, i: nat, d: nat, k: nat, j: nat)
    requires Adds(s, t, i, d, k) && j != 0
    ensures |Refs(t, j)| == |Refs(s, j)| + if j == i then 1 else 0
  {
    if j == i { RefsPlus(s, t, j, d, k); } else { RefsSame(s, t, j); }
  }

  lemma RefsSame(s: State, t: State, j: nat)
    requires forall e, l :: IsRef(t, j, e, l) <==> IsRef(s, j, e, l)
    ensures Refs(t, j) == Refs(s, j)
  {
  }

  /** A new name keeps names distinct. */
  lemma PutDistinct(entries: seq<Entry>, e: Entry)
    requires Distinct(entries) && Lookup(entries, e.name, 0).None?
    ensures Distinct(PutAt(entries, Slot(entries, 0), e))
  {
  }

  lemma LinkAdds(s: State, ip: nat, d: nat, name: string)
    requires Inv(s) && Linked(s, d) && 0 < ip < |s.nodes| && Link(s, ip, d, name).Some?
    ensures Adds(s, Link(s, ip, d, name).value, ip, d, Slot(s.nodes[d].entries, 0))
  {
    SlotAfterDots(s, d);
  }

  lemma LinkKeeps(s: State, ip: nat, d: nat, name: string)
    requires Inv(s) && Linked(s, d) && 0 < ip < |s.nodes| && s.nodes[ip].kind != Free
    requires Link(s, ip, d, name).Some?
    ensures Inv(Link(s, ip, d, name).value)
  {
    var t, k := Link(s, ip, d, name).value, Slot(s.nodes[d].entries, 0);
    SlotAfterDots(s, d);
    LinkAdds(s, ip, d, name);
    forall i ensures NlinkOk(t, i) {
      assert NlinkOk(s, i);
      if i != 0 { AddsRefs(s, t, ip, d, k, i); }
    }
    forall e ensures DirOk(t, e) {
      assert DirOk(s, e);
      if e == d { PutDistinct(s.nodes[d].entries, Entry(ip, name)); }
    }
    forall i, e, l ensures EntryOk(t, i, e, l) {
      assert EntryOk(s, i, e, l);
    }
  }

  /** A free inode is named nowhere. */
  lemma FreeUnnamed(s: State, ip: nat)
    requires Inv(s) && 0 < ip < |s.nodes| && s.nodes[ip].nlink == 0
    ensures Refs(s, ip) == {} && forall e, l :: !IsRef(s, ip, e, l)
  {
    assert NlinkOk(s, ip);
    forall e: nat, l: nat ensures !IsRef(s, ip, e, l) {
      assert (e, l) !in Refs(s, ip);
    }
  }

  lemma CreateFileKeeps(s: State, ip: nat, d: nat, name: string, kind: Kind)
    requires Inv(s) && Linked(s, d) && 0 < ip < |s.nodes| && s.nodes[ip].kind == Free && kind in {File, Dev}
    requires Lookup(s.nodes[d].entries, name, 0).None?
    ensures Inv(Create(s, ip, d, name, kind))
  {
    var t, k := Create(s, ip, d, name, kind), Slot(s.nodes[d].entries, 0);
    SlotAfterDots(s, d);
    FreeUnnamed(s, ip);
    assert Adds(s, t, ip, d, k);
    forall i ensures NlinkOk(t, i) {
      assert NlinkOk(s, i);
      if i != 0 { AddsRefs(s, t, ip, d, k, i); }
    }
    forall e ensures DirOk(t, e) {
      assert DirOk(s, e);
      if e == d { PutDistinct(s.nodes[d].entries, Entry(ip, name)); }
    }
    forall i, e, l ensures EntryOk(t, i, e, l) {
      assert EntryOk(s, i, e, l);
    }
  }

  /** The references of t are those of s, the name of directory ip at entry k of d,
      and its "..". */
  ghost predicate AddsDir(s: State, t: State, ip: nat, d: nat, k: nat)
  {
    && ip != d && |t.nodes| == |s.nodes|
    && IsRef(t, ip, d, k) && (forall j | j != 0 :: !IsRef(s, j, d, k) && !IsRef(s, j, ip, 1))
    && forall j, e, l | j != 0 ::
         IsRef(t, j, e, l) <==> (j == ip && e == d && l == k) || (j == d && e == ip && l == 1) || IsRef(s, j, e, l)
  }

  lemma AddsDirRefs(s: State, t: State, ip: nat, d: nat, k: nat, j: nat)
    requires AddsDir(s, t, ip, d, k) && j != 0
    ensures |Refs(t, j)| == |Refs(s, j)| + if j == ip || j == d then 1 else 0
  {
    if j == ip {
      RefsPlus(s, t, j, d, k);
    } else if j == d {
      RefsPlus(s, t, j, ip, 1);
    } else {
      RefsSame(s, t, j);
    }
  }

  /** create of a directory, in terms of its nodes. */
  lemma CreateDirNodes(s: State, ip: nat, d: nat, name: string)
    requires Linked(s, d) && ip < |s.nodes| && ip != d
    ensures var t, entries := Create(s, ip, d, name, Dir), s.nodes[d].entries;
            && |t.nodes| == |s.nodes| && t.nodes[ip] == Node(Dir, 1, [Entry(ip, "."), Entry(d, "..")])
            && t.nodes[d] == Node(Dir, s.nodes[d].nlink + 1, PutAt(entries, Slot(entries, 0), Entry(ip, name)))
            && forall e | 0 <= e < |s.nodes| && e != ip && e != d :: t.nodes[e] == s.nodes[e]
  {
  }

  lemma CreateDirAdds(s: State, ip: nat, d: nat, name: string, t: State)
    requires Inv(s) && Linked(s, d) && 0 < ip < |s.nodes| && s.nodes[ip].kind == Free
    requires t == Create(s, ip, d, name, Dir)
    ensures AddsDir(s, t, ip, d, Slot(s.nodes[d].entries, 0))
  {
    SlotAfterDots(s, d);
    CreateDirNodes(s, ip, d, name);
  }

  lemma CreateDirKeeps(s: State, ip: nat, d: nat, name: string)
    requires Inv(s) && Linked(s, d) && 0 < ip < |s.nodes| && s.nodes[ip].kind == Free
    requires Lookup(s.nodes[d].entries, name, 0).None?
    ensures Inv(Create(s, ip, d, name, Dir))
  {
    var t, k := Create(s, ip, d, name, Dir), Slot(s.nodes[d].entries, 0);
    SlotAfterDots(s, d);
    FreeUnnamed(s, ip);
    CreateDirNodes(s, ip, d, name);
    CreateDirAdds(s, ip, d, name, t);
    forall i ensures NlinkOk(t, i) {
      assert NlinkOk(s, i);
      if i != 0 { AddsDirRefs(s, t, ip, d, k, i); }
    }
    forall e: nat ensures DirOk(t, e) {
      assert DirOk(s, e) && DirOk(s, d);
      if e == d { PutDistinct(s.nodes[d].entries, Entry(ip, name)); }
      if e == ip { assert IsRef(t, ip, d, k); }
    }
    forall i, e, l ensures EntryOk(t, i, e, l) {
      assert EntryOk(s, i, e, l);
    }
  }

  /** A used entry that is found by another name than "." and ".." comes after them. */
  lemma NameAfterDots(s: State, d: nat, k: nat)
    requires Inv(s) && Linked(s, d) && k < |s.nodes[d].entries|
    requires s.nodes[d].entries[k].name != "." && s.nodes[d].entries[k].name != ".."
    ensures k >= 2
  {
    assert DirOk(s, d);
  }

  /** The references of t are those of s without entry k of d. */
  ghost predicate Drops(s: State, t: State, d: nat, k: nat)
  {
    && |t.nodes| == |s.nodes|
    && forall j, e, l | j != 0 :: IsRef(t, j, e, l) <==> !(e == d && l == k) && IsRef(s, j, e, l)
  }

  /** What unlink finds: the inode is in use and has a link. */
  lemma Found(s: State, d: nat, k: nat, ip: nat)
    requires Inv(s) && ip != 0 && k >= 2 && IsRef(s, ip, d, k)
    ensures ip < |s.nodes| && s.nodes[ip].kind != Free && s.nodes[ip].nlink >= 1 && d != 0
    ensures s.nodes[ip].kind == Dir ==> ip != ROOT && Linked(s, ip) && Parent(s, ip) == d
  {
    assert EntryOk(s, ip, d, k);
    assert NlinkOk(s, ip);
    assert (d, k) in Refs(s, ip);
    assert DirOk(s, d);
  }

  lemma UnlinkFileKeeps(s: State, d: nat, k: nat, ip: nat)
    requires Inv(s) && ip != 0 && k >= 2 && IsRef(s, ip, d, k) && ip < |s.nodes| && s.nodes[ip].kind != Dir
    ensures Inv(Unlink(s, d, k))
  {
    var t := Unlink(s, d, k);
    Found(s, d, k, ip);
    assert Drops(s, t, d, k);
    forall i ensures NlinkOk(t, i) {
      assert NlinkOk(s, i);
      if i == ip { RefsMinus(s, t, i, d, k); } else if i != 0 { RefsSame(s, t, i); }
    }
    forall e ensures DirOk(t, e) { assert DirOk(s, e); }
    forall i, e, l ensures EntryOk(t, i, e, l) { assert EntryOk(s, i, e, l); }
  }

  /** An empty directory has one link: its name. */
  lemma EmptyHasOneLink(s: State, d: nat, k: nat, ip: nat)
    requires Inv(s) && 0 < ip < |s.nodes| && k >= 2 && IsRef(s, ip, d, k) && s.nodes[ip].kind == Dir
    requires IsEmpty(s.nodes[ip].entries)
    ensures Refs(s, ip) == {(d, k)} && s.nodes[ip].nlink == 1 && ip != d && ip != ROOT
    ensures forall e, l :: IsRef(s, ip, e, l) <==> e == d && l == k
  {
    Found(s, d, k, ip);
    assert NlinkOk(s, ip);
    assert EntryOk(s, ip, d, k);
    forall e: nat, l: nat | IsRef(s, ip, e, l) ensures e == d && l == k {
      assert DirOk(s, e);
      assert EntryOk(s, ip, e, l);
    }
  }

  /** The directory that loses a subdirectory still has a link. */
  lemma ParentStaysLinked(s: State, d: nat, ip: nat)
    requires Inv(s) && Linked(s, d) && Linked(s, ip) && Parent(s, ip) == d && ip != ROOT && ip != d
    ensures s.nodes[d].nlink >= 2 && IsRef(s, d, ip, 1)
  {
    assert DirOk(s, d);
    assert DirOk(s, ip);
    assert NlinkOk(s, d);
    assert (ip, 1) in Refs(s, d);
    var other: (nat, nat);
    if d == ROOT {
      assert IsRef(s, d, ROOT, 1);
      other := (ROOT, 1);
    } else {
      var k :| k >= 2 && IsRef(s, d, Parent(s, d), k);
      other := (Parent(s, d), k);
    }
    assert other in Refs(s, d) && other != (ip, 1);
    assert Refs(s, d) == {other, (ip, 1)} + (Refs(s, d) - {other, (ip, 1)});
  }

  /** The references of t are those of s without entry k of d and the ".." of ip. */
  ghost predicate DropsDir(s: State, t: State, ip: nat, d: nat, k: nat)
  {
    && |t.nodes| == |s.nodes|
    && forall j, e, l | j != 0 ::
         IsRef(t, j, e, l) <==> !(e == d && l == k) && !(e == ip && l == 1) && IsRef(s, j, e, l)
  }

  lemma UnlinkDirNodes(s: State, d: nat, k: nat, ip: nat)
    requires d < |s.nodes| && ip < |s.nodes| && ip != d && k < |s.nodes[d].entries|
    requires s.nodes[d].entries[k].inum == ip && s.nodes[ip].kind == Dir
    ensures var t := Unlink(s, d, k);
            && |t.nodes| == |s.nodes| && t.nodes[ip] == s.nodes[ip].(nlink := s.nodes[ip].nlink - 1)
            && t.nodes[d] == s.nodes[d].(nlink := s.nodes[d].nlink - 1,
                                         entries := s.nodes[d].entries[k := Entry(0, "")])
            && forall e | 0 <= e < |s.nodes| && e != ip && e != d :: t.nodes[e] == s.nodes[e]
  {
  }

  lemma UnlinkDirDrops(s: State, d: nat, k: nat, ip: nat, t: State)
    requires Inv(s) && 0 < ip < |s.nodes| && k >= 2 && IsRef(s, ip, d, k) && s.nodes[ip].kind == Dir
    requires IsEmpty(s.nodes[ip].entries) && t == Unlink(s, d, k)
    ensures DropsDir(s, t, ip, d, k) && s.nodes[d].nlink >= 2 && IsRef(s, d, ip, 1)
    ensures forall e :: Linked(t, e) <==> Linked(s, e) && e != ip
  {
    Found(s, d, k, ip);
    EmptyHasOneLink(s, d, k, ip);
    ParentStaysLinked(s, d, ip);
    UnlinkDirNodes(s, d, k, ip);
    assert DirOk(s, ip);
  }

  lemma DropsDirRefs(s: State, t: State, ip: nat, d: nat, k: nat, j: nat)
    requires DropsDir(s, t, ip, d, k) && j != 0 && ip != 0 && d != ip
    requires forall i :: IsRef(s, i, d, k) <==> i == ip
    requires forall i :: IsRef(s, i, ip, 1) <==> i == d
    ensures |Refs(t, j)| == |Refs(s, j)| - if j == ip || j == d then 1 else 0
  {
    if j == ip {
      RefsMinus(s, t, j, d, k);
    } else if j == d {
      RefsMinus(s, t, j, ip, 1);
    } else {
      RefsSame(s, t, j);
    }
  }

  /** Unlinking an empty directory takes its last link and its claim on its parent. */
  lemma UnlinkDirKeeps(s: State, d: nat, k: nat, ip: nat)
    requires Inv(s) && 0 < ip < |s.nodes| && k >= 2 && IsRef(s, ip, d, k) && s.nodes[ip].kind == Dir
    requires IsEmpty(s.nodes[ip].entries)
    ensures Inv(Unlink(s, d, k)) && Unlink(s, d, k).nodes[ip].nlink == 0
  {
    var t := Unlink(s, d, k);
    Found(s, d, k, ip);
    EmptyHasOneLink(s, d, k, ip);
    UnlinkDirNodes(s, d, k, ip);
    UnlinkDirDrops(s, d, k, ip, t);
    forall i: nat ensures NlinkOk(t, i) {
      assert NlinkOk(s, i);
      if i != 0 { DropsDirRefs(s, t, ip, d, k, i); }
    }
    forall e: nat ensures DirOk(t, e) {
      assert DirOk(s, e);
      if Linked(t, e) && e != ROOT {
        var l :| l >= 2 && IsRef(s, e, Parent(s, e), l);
        assert IsRef(t, e, Parent(s, e), l);
      }
    }
    forall i, e, l ensures EntryOk(t, i, e, l) { assert EntryOk(s, i, e, l); }
  }

  lemma ReclaimKeeps(s: State, i: nat)
    requires Inv(s) && 0 < i < |s.nodes| && s.nodes[i].nlink == 0
    ensures Inv(Reclaim(s, i))
  {
    var t := Reclaim(s, i);
    FreeUnnamed(s, i);
    assert forall j, e, l :: IsRef(t, j, e, l) <==> IsRef(s, j, e, l);
    forall j ensures NlinkOk(t, j) { assert NlinkOk(s, j); RefsSame(s, t, j); }
    forall e: nat ensures DirOk(t, e) {
      assert DirOk(s, e);
      if Linked(t, e) && e != ROOT {
        var l :| l >= 2 && IsRef(s, e, Parent(s, e), l);
        assert IsRef(t, e, Parent(s, e), l);
      }
    }
    forall j, e, l ensures EntryOk(t, j, e, l) { assert EntryOk(s, j, e, l); }
  }

  // ---------------------------------------------------------------
  // Any sequence of calls.

  datatype Call =
    | LinkCall(ip: nat, d: nat, name: string)
    | CreateCall(d: nat, name: string, kind: Kind)
    | UnlinkCall(d: nat, name: string)
    | PutCall(i: nat)

  /** Callers pass the inode they looked up and a directory that is still linked;
      iput drops the last reference. */
  predicate Callable(s: State, c: Call)
  {
    match c
    case LinkCall(ip, d, name) => 0 < ip < |s.nodes| && s.nodes[ip].kind != Free && Linked(s, d)
    case CreateCall(d, name, kind) => Linked(s, d) && kind != Free
    case UnlinkCall(d, name) => Linked(s, d)
    case PutCall(i) => 0 < i < |s.nodes|
  }

  /** ialloc: the first free inode from a number on. */
  function FirstFree(nodes: seq<Node>, from: nat): (i: nat)
    requires from <= |nodes|
    ensures from <= i <= |nodes| && (i < |nodes| ==> nodes[i].kind == Free)
    ensures forall j | from <= j < i :: nodes[j].kind != Free
    decreases |nodes| - from
  {
    if from == |nodes| || nodes[from].kind == Free then from else FirstFree(nodes, from + 1)
  }

  function DoCreate(s: State, d: nat, name: string, kind: Kind): State
    requires d < |s.nodes|
  {
    if Lookup(s.nodes[d].entries, name, 0).Some? || |s.nodes| == 0 then s
    else
      var ip := FirstFree(s.nodes, 1);
      if ip == |s.nodes| then s else Create(s, ip, d, name, kind)
  }

  function DoUnlink(s: State, d: nat, name: string): State
    requires d < |s.nodes|
  {
    if name == "." || name == ".." then s
    else
      match Lookup(s.nodes[d].entries, name, 0)
      case None => s
      case Some(k) =>
        var ip := s.nodes[d].entries[k].inum;
        if ip >= |s.nodes| || (s.nodes[ip].kind == Dir && !IsEmpty(s.nodes[ip].entries)) then s
        else Unlink(s, d, k)
  }

  function Do(s: State, c: Call): State
    requires Callable(s, c)
  {
    match c
    case LinkCall(ip, d, name) => var r := Link(s, ip, d, name); if r.None? then s else r.value
    case CreateCall(d, name, kind) => DoCreate(s, d, name, kind)
    case UnlinkCall(d, name) => DoUnlink(s, d, name)
    case PutCall(i) => if s.nodes[i].nlink == 0 then Reclaim(s, i) else s
  }

  lemma CreateKeeps(s: State, d: nat, name: string, kind: Kind)
    requires Inv(s) && Linked(s, d) && kind != Free
    ensures Inv(DoCreate(s, d, name, kind))
  {
    if Lookup(s.nodes[d].entries, name, 0).None? {
      var ip := FirstFree(s.nodes, 1);
      if ip < |s.nodes| {
        if kind == Dir { CreateDirKeeps(s, ip, d, name); } else { CreateFileKeeps(s, ip, d, name, kind); }
      }
    }
  }

  lemma UnlinkKeeps(s: State, d: nat, name: string)
    requires Inv(s) && Linked(s, d)
    ensures Inv(DoUnlink(s, d, name))
  {
    var r := Lookup(s.nodes[d].entries, name, 0);
    if name != "." && name != ".." && r.Some? {
      var k := r.value;
      var ip := s.nodes[d].entries[k].inum;
      NameAfterDots(s, d, k);
      Found(s, d, k, ip);
      if s.nodes[ip].kind != Dir {
        UnlinkFileKeeps(s, d, k, ip);
      } else if IsEmpty(s.nodes[ip].entries) {
        UnlinkDirKeeps(s, d, k, ip);
      }
    }
  }

  lemma CallKeeps(s: State, c: Call)
    requires Inv(s) && Callable(s, c)
    ensures Inv(Do(s, c))
  {
    match c
    case LinkCall(ip, d, name) =>
      if Link(s, ip, d, name).Some? { LinkKeeps(s, ip, d, name); }
    case CreateCall(d, name, kind) => CreateKeeps(s, d, name, kind);
    case UnlinkCall(d, name) => UnlinkKeeps(s, d, name);
    case PutCall(i) =>
      if s.nodes[i].nlink == 0 { ReclaimKeeps(s, i); }
  }

  /** The calls made, latest last, each with the state it was made in. */
  datatype Run = Begin | Step(prior: Run, state: State, call: Call)

  ghost predicate Runs(s: State, run: Run, t: State)
  {
    match run
    case Begin => s == t
    case Step(prior, u, c) => Runs(s, prior, u) && Callable(u, c) && t == Do(u, c)
  }

  /** mkfs's file system: inode 0 is not used, the root holds itself. */
  ghost predicate Fresh(s: State)
  {
    && |s.nodes| > 1
    && s.nodes[ROOT] == Node(Dir, 1, [Entry(ROOT, "."), Entry(ROOT, "..")])
    && forall i | 0 <= i < |s.nodes| && i != ROOT :: s.nodes[i] == Node(Free, 0, [])
  }

  lemma FreshInv(s: State)
    requires Fresh(s)
    ensures Inv(s)
  {
    forall i ensures NlinkOk(s, i) {
      if i == ROOT {
        assert IsRef(s, ROOT, ROOT, 1);
        assert Refs(s, i) == {(ROOT, 1)};
      } else {
        assert i > 0 ==> Refs(s, i) == {};
      }
    }
  }

  /** In every run, each link count is the number of entries that name the inode in
      linked directories, and "." and ".." stay where they are. */
  lemma {:induction false} RunKeeps(s: State, run: Run, t: State)
    requires Fresh(s) && Runs(s, run, t)
    ensures Inv(t)
  {
    match run
    case Begin => FreshInv(s);
    case Step(prior, u, c) =>
      RunKeeps(s, prior, u);
      CallKeeps(u, c);
  }
}
