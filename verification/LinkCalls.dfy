/** The loops and updates of sysfile.c's create, sys_link and sys_unlink. */
module LinkCalls {
  import opened Links
  import opened Options

  datatype Outcome = Ok | Fail | Panic

  class Inodes {
    var nodes: seq<Node>

    ghost function Now(): State
      reads this
    {
      State(nodes)
    }

    /** dirlookup: the index of the entry. */
    method Dirlookup(d: nat, name: string) returns (r: Option<nat>)
      requires d < |nodes|
      ensures r == Lookup(nodes[d].entries, name, 0)
    {
      var entries := nodes[d].entries;
      var k := 0;
      while k < |entries|
        invariant 0 <= k <= |entries| && Lookup(entries, name, 0) == Lookup(entries, name, k)
      {
        if entries[k].inum != 0 && entries[k].name == name { return Some(k); }
        k := k + 1;
      }
      r := None;
    }

    /** dirlink; false if the name is there already. */
    method Dirlink(d: nat, name: string, inum: nat) returns (ok: bool)
      requires d < |nodes|
      modifies this
      ensures ok <==> Lookup(old(nodes[d].entries), name, 0).None?
      ensures Now() == if ok then AddEntry(old(Now()), d, Entry(inum, name)) else old(Now())
    {
      var there := Dirlookup(d, name);
      if there.Some? { return false; }
      var entries := nodes[d].entries;
      var k := 0;
      while k < |entries| && entries[k].inum != 0
        invariant 0 <= k <= |entries| && Slot(entries, 0) == Slot(entries, k)
      {
        k := k + 1;
      }
      nodes := nodes[d := nodes[d].(entries := PutAt(entries, k, Entry(inum, name)))];
      ok := true;
    }

    method Isdirempty(d: nat) returns (empty: bool)
      requires d < |nodes|
      ensures empty <==> IsEmpty(nodes[d].entries)
    {
      var k := 2;
      while k < |nodes[d].entries|
        invariant 2 <= k && forall l | 2 <= l < k && l < |nodes[d].entries| :: nodes[d].entries[l].inum == 0
      {
        if nodes[d].entries[k].inum != 0 { return false; }
        k := k + 1;
      }
      empty := true;
    }

    /** ialloc's search; None where it panics. */
    method Ialloc() returns (r: Option<nat>)
      requires |nodes| > 0
      ensures var i := FirstFree(nodes, 1); r == if i < |nodes| then Some(i) else None
    {
      var inum := 1;
      while inum < |nodes|
        invariant 0 < inum <= |nodes| && FirstFree(nodes, 1) == FirstFree(nodes, inum)
      {
        if nodes[inum].kind == Free { return Some(inum); }
        inum := inum + 1;
      }
      r := None;
    }

    method ChangeLinks(i: nat, n: int)
      requires i < |nodes|
      modifies this
      ensures Now() == AddLinks(old(Now()), i, n)
    {
      nodes := nodes[i := nodes[i].(nlink := nodes[i].nlink + n)];
    }

    /** sys_link from inode ip and the directory of the new name; none stands for a
        path that was not found.  On failure the count is put back. */
    method SysLink(ip: nat, d: Option<nat>, name: string) returns (r: Outcome)
      requires Inv(Now()) && 0 < ip < |nodes| && nodes[ip].kind != Free
      requires d.Some? ==> Linked(Now(), d.value)
      modifies this
      ensures Inv(Now())
      ensures d.None? ==> r == Fail && Now() == old(Now())
      ensures d.Some? ==> Now() == Do(old(Now()), LinkCall(ip, d.value, name))
      ensures d.Some? ==> (r == Ok <==> Link(old(Now()), ip, d.value, name).Some?)
    {
      ghost var s := Now();
      if nodes[ip].kind == Dir { return Fail; }
      ChangeLinks(ip, 1);
      if d.Some? {
        var ok := Dirlink(d.value, name, ip);
        if ok {
          LinkKeeps(s, ip, d.value, name);
          return Ok;
        }
      }
      ChangeLinks(ip, -1);
      assert nodes == s.nodes;
      r := Fail;
    }

    /** sys_unlink of a name in directory d. */
    method SysUnlink(d: nat, name: string) returns (r: Outcome)
      requires Inv(Now()) && Linked(Now(), d)
      modifies this
      ensures Inv(Now()) && Now() == Do(old(Now()), UnlinkCall(d, name)) && r != Panic
      ensures r == Fail ==> Now() == old(Now())
    {
      ghost var s := Now();
      UnlinkKeeps(s, d, name);
      if name == "." || name == ".." { return Fail; }
      var found := Dirlookup(d, name);
      if found.None? { return Fail; }
      var k := found.value;
      var ip := nodes[d].entries[k].inum;
      NameAfterDots(s, d, k);
      Found(s, d, k, ip);
      if nodes[ip].nlink < 1 { return Panic; }
      if nodes[ip].kind == Dir {
        var empty := Isdirempty(ip);
        if !empty { return Fail; }
      }
      nodes := nodes[d := nodes[d].(entries := nodes[d].entries[k := Entry(0, "")])];
      if nodes[ip].kind == Dir {
        ChangeLinks(d, -1);
      }
      ChangeLinks(ip, -1);
      r := Ok;
    }

    /** create; the result is the inode, or none on failure. */
    method CreateInode(d: nat, name: string, kind: Kind) returns (r: Outcome, inum: nat)
      requires Inv(Now()) && Linked(Now(), d) && kind != Free
      modifies this
      ensures r != Panic ==> Inv(Now()) && Now() == Do(old(Now()), CreateCall(d, name, kind))
      ensures r == Panic <==> Lookup(old(nodes[d].entries), name, 0).None? && FirstFree(old(nodes), 1) == |old(nodes)|
      ensures r == Ok ==> inum < |nodes| && nodes[inum].kind == kind && Lookup(nodes[d].entries, name, 0).Some?
    {
      ghost var s := Now();
      CreateKeeps(s, d, name, kind);
      var found := Dirlookup(d, name);
      if found.Some? {
        inum := nodes[d].entries[found.value].inum;
        KnownInode(s, d, found.value, inum);
        if kind == File && nodes[inum].kind == File { return Ok, inum; }
        return Fail, 0;
      }
      var ip := Ialloc();
      if ip.None? { return Panic, 0; }
      inum := ip.value;
      r := MakeInode(inum, d, name, kind);
      EntryThere(s.nodes[d].entries, Entry(inum, name));
    }

    /** The entries "." and ".." of a new directory. */
    method MakeDots(ip: nat, d: nat) returns (ok: bool)
      requires 0 < ip < |nodes| && nodes[ip].entries == []
      modifies this
      ensures ok && Now() == SetNode(old(Now()), ip, old(nodes)[ip].(entries := [Entry(ip, "."), Entry(d, "..")]))
    {
      ghost var n := nodes[ip];
      var one := Dirlink(ip, ".", ip);
      assert one && nodes[ip] == n.(entries := [Entry(ip, ".")]);
      ghost var first := nodes[ip].entries;
      assert Lookup(first, "..", 1) == None && Slot(first, 1) == 1 && Slot(first, 0) == 1;
      var two := Dirlink(ip, "..", d);
      assert first + [Entry(d, "..")] == [Entry(ip, "."), Entry(d, "..")];
      assert two && nodes[ip] == n.(entries := first + [Entry(d, "..")]);
      assert nodes == old(nodes)[ip := old(nodes)[ip].(entries := [Entry(ip, "."), Entry(d, "..")])];
      ok := one && two;
    }

    /** The part of create that makes the inode and its entries. */
    method MakeInode(ip: nat, d: nat, name: string, kind: Kind) returns (r: Outcome)
      requires 0 < ip < |nodes| && d < |nodes| && ip != d && Lookup(nodes[d].entries, name, 0).None?
      modifies this
      ensures r == Ok && Now() == Create(old(Now()), ip, d, name, kind)
    {
      nodes := nodes[ip := Node(kind, 1, [])];
      if kind == Dir {
        ChangeLinks(d, 1);
        var dots := MakeDots(ip, d);
        if !dots { return Panic; }
        assert nodes == SetNode(AddLinks(old(Now()), d, 1), ip, Node(Dir, 1, [Entry(ip, "."), Entry(d, "..")])).nodes;
      }
      var ok := Dirlink(d, name, ip);
      if !ok { return Panic; }
      r := Ok;
    }
  }

  /** dirlookup finds what dirlink wrote. */
  lemma EntryThere(entries: seq<Entry>, e: Entry)
    requires e.inum != 0
    ensures Lookup(PutAt(entries, Slot(entries, 0), e), e.name, 0).Some?
  {
    var k := Slot(entries, 0);
    assert PutAt(entries, k, e)[k] == e;
  }

  /** A used entry of a linked directory names an inode of the table. */
  lemma KnownInode(s: State, d: nat, k: nat, i: nat)
    requires Inv(s) && Linked(s, d) && k < |s.nodes[d].entries| && i == s.nodes[d].entries[k].inum && i != 0
    ensures i < |s.nodes|
  {
    assert DirOk(s, d);
    assert EntryOk(s, i, d, k);
  }
}
