/** The loops of proc.c over ptable.proc, in place on the table, proved to
    compute the functions the step system in Sched uses. */
module ProcTable {
  import opened Options
  import opened Sched

  /** wakeup1. */
  method Wakeup1(ptable: array<Proc>, ch: Chan)
    modifies ptable
    ensures ptable[..] == WakeAll(old(ptable[..]), ch)
  {
    var p := 0;
    while p < ptable.Length
      invariant 0 <= p <= ptable.Length
      invariant forall j | 0 <= j < p :: ptable[j] == WakeOne(old(ptable[j]), ch)
      invariant forall j | p <= j < ptable.Length :: ptable[j] == old(ptable[j])
    {
      if ptable[p].state == SLEEPING && ptable[p].chan == ch {
        ptable[p] := ptable[p].(state := RUNNABLE);
      }
      p := p + 1;
    }
  }

  ghost function Adopted(p: Proc, me: nat, init: nat): Proc
  {
    if p.parent == Some(me) then p.(parent := Some(init)) else p
  }

  ghost function MaybeWoken(p: Proc, wake: bool, init: nat): Proc
  {
    if wake then WakeOne(p, Self(init)) else p
  }

  /** exit's loop: pass abandoned children to init, waking it for each one
      that is already a zombie. */
  method PassChildren(ptable: array<Proc>, me: nat, init: nat)
    modifies ptable
    ensures ptable[..] == Adopt(old(ptable[..]), me, init)
  {
    var p := 0;
    ghost var wake := false;
    ghost var was := old(ptable[..]);
    while p < ptable.Length
      invariant 0 <= p <= ptable.Length
      invariant wake == exists j | 0 <= j < p :: was[j].parent == Some(me) && was[j].state == ZOMBIE
      invariant forall j | 0 <= j < p :: ptable[j] == MaybeWoken(Adopted(was[j], me, init), wake, init)
      invariant forall j | p <= j < ptable.Length :: ptable[j] == MaybeWoken(was[j], wake, init)
    {
      if ptable[p].parent == Some(me) {
        ptable[p] := ptable[p].(parent := Some(init));
        if ptable[p].state == ZOMBIE {
          Wakeup1(ptable, Self(init));
          wake := true;
        }
      }
      p := p + 1;
    }
    assert wake == HasZombieChild(was, me);
  }

  /** wait's scan: the first zombie child, or whether there is any child. */
  method ScanChildren(ptable: array<Proc>, me: nat) returns (z: nat, havekids: bool)
    ensures z == FirstZombie(ptable[..], me, 0)
    ensures z == ptable.Length ==> havekids == HasChild(ptable[..], me)
  {
    havekids := false;
    z := 0;
    while z < ptable.Length
      invariant 0 <= z <= ptable.Length
      invariant FirstZombie(ptable[..], me, 0) == FirstZombie(ptable[..], me, z)
      invariant havekids == exists j | 0 <= j < z :: ptable[..][j].parent == Some(me)
    {
      if ptable[z].parent == Some(me) {
        havekids := true;
        if ptable[z].state == ZOMBIE {
          return;
        }
      }
      z := z + 1;
    }
  }

  /** allocproc's and scheduler's search for a process in a given state. */
  method FindState(ptable: array<Proc>, st: ProcState) returns (p: nat)
    ensures p == FirstIn(ptable[..], st, 0)
  {
    p := 0;
    while p < ptable.Length
      invariant 0 <= p <= ptable.Length
      invariant FirstIn(ptable[..], st, 0) == FirstIn(ptable[..], st, p)
    {
      if ptable[p].state == st {
        return;
      }
      p := p + 1;
    }
  }
}
