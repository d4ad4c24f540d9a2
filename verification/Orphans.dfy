/** Children and their parents (proc.c: fork, exit, texit, wait). */
module Orphans {
  import opened Options
  import opened Sched

  predicate Alive(st: ProcState)
  {
    st == SLEEPING || st == RUNNABLE || st == RUNNING
  }

  ghost predicate ParentOk(procs: seq<Proc>, q: nat)
    requires q < |procs|
  {
    && (procs[q].state == UNUSED ==> procs[q].parent == None)
    && (procs[q].parent.Some? ==> procs[q].parent.value < |procs| && Alive(procs[procs[q].parent.value].state))
  }

  /** No process has a parent that is unused or a zombie. */
  ghost predicate NoOrphans(s: State)
  {
    forall q | 0 <= q < |s.procs| :: ParentOk(s.procs, q)
  }

  /** A process becomes a zombie while it still has a child. */
  predicate Abandons(s: State, a: Action)
  {
    && a.KernelStep? && a.i < |s.cpus| && Runs(s, a.i)
    && s.procs[s.cpus[a.i].mode.p].pc.ExitZombie? && HasChild(s.procs, s.cpus[a.i].mode.p)
  }

  /** An entry changed in a way no relative can notice. */
  ghost predicate KinSame(q: Proc, r: Proc)
  {
    && r.parent == q.parent && (Alive(q.state) ==> Alive(r.state))
    && (r.state == UNUSED ==> q.state == UNUSED)
  }

  lemma KinKeeps(s: State, t: State)
    requires NoOrphans(s) && |t.procs| == |s.procs|
    requires forall q | 0 <= q < |s.procs| :: KinSame(s.procs[q], t.procs[q])
    ensures NoOrphans(t)
  {
    forall q | 0 <= q < |t.procs| ensures ParentOk(t.procs, q) {
      assert ParentOk(s.procs, q) && KinSame(s.procs[q], t.procs[q]);
      var f := s.procs[q].parent;
      assert f.Some? ==> KinSame(s.procs[f.value], t.procs[f.value]);
    }
  }

  /** One entry is rewritten: who it is the parent of must not matter. */
  lemma OneKeeps(s: State, q: nat, r: Proc)
    requires NoOrphans(s) && q < |s.procs|
    requires Alive(r.state) || !HasChild(s.procs, q)
    requires r.state == UNUSED ==> r.parent == None
    requires r.parent.Some? ==>
               r.parent.value < |s.procs| && Alive(s.procs[r.parent.value].state) && r.parent.value != q
    ensures NoOrphans(SetProc(s, q, r))
  {
    var t := SetProc(s, q, r);
    forall x | 0 <= x < |t.procs| ensures ParentOk(t.procs, x) { assert ParentOk(s.procs, x); }
  }

  lemma DeadHaveNoChild(s: State, q: nat)
    requires NoOrphans(s) && q < |s.procs| && !Alive(s.procs[q].state)
    ensures !HasChild(s.procs, q)
  {
    forall x | 0 <= x < |s.procs| ensures s.procs[x].parent != Some(q) { assert ParentOk(s.procs, x); }
  }

  lemma AdoptKeeps(s: State, p: nat)
    requires Inv(s) && NoOrphans(s) && p < |s.procs| && p != s.init
    ensures NoOrphans(s.(procs := Adopt(s.procs, p, s.init)))
  {
    var t := s.(procs := Adopt(s.procs, p, s.init));
    forall q | 0 <= q < |t.procs| ensures ParentOk(t.procs, q) { assert ParentOk(s.procs, q); }
  }

  lemma WaitKeeps(s: State, p: nat)
    requires Inv(s) && NoOrphans(s) && p < |s.procs| && Alive(s.procs[p].state)
    ensures NoOrphans(WaitStep(s, p))
  {
    var z := FirstZombie(s.procs, p, 0);
    if z < |s.procs| {
      DeadHaveNoChild(s, z);
      var u := SetProc(s, z, Reap(s.procs[z]));
      OneKeeps(s, z, Reap(s.procs[z]));
      KinKeeps(u, WaitStep(s, p));
    } else {
      KinKeeps(s, WaitStep(s, p));
    }
  }

  /** Becoming a zombie orphans exactly the children there are. */
  lemma ZombieOrphans(s: State, p: nat, t: State)
    requires NoOrphans(s) && p < |s.procs| && Alive(s.procs[p].state) && s.procs[p].parent != Some(p)
    requires t == SetProc(s, p, s.procs[p].(state := ZOMBIE, pc := Swtch(Dead)))
    ensures NoOrphans(t) <==> !HasChild(s.procs, p)
  {
    if HasChild(s.procs, p) {
      var q :| 0 <= q < |s.procs| && s.procs[q].parent == Some(p);
      assert !ParentOk(t.procs, q);
    } else {
      assert ParentOk(s.procs, p);
      OneKeeps(s, p, s.procs[p].(state := ZOMBIE, pc := Swtch(Dead)));
    }
  }

  lemma WakeKin(s: State, i: nat, p: nat, ch: Chan)
    requires NoOrphans(s) && i < |s.cpus| && p < |s.procs|
    ensures NoOrphans(Pay(SetPc(s.(procs := WakeAll(s.procs, ch)), p, Unlock(None)), i, ch))
  {
    KinKeeps(s, Pay(SetPc(s.(procs := WakeAll(s.procs, ch)), p, Unlock(None)), i, ch));
  }

  lemma AllocKin(s: State, p: nat)
    requires NoOrphans(s) && p < |s.procs|
    ensures NoOrphans(AllocStep(s, p))
  {
    KinKeeps(s, AllocStep(s, p));
  }

  lemma TableOrphans(s: State, i: nat, p: nat)
    requires Inv(s) && NoOrphans(s) && OnCpu(s, i, p) && OnTable(s.procs[p].pc)
    ensures NoOrphans(TableStep(s, i, p)) <==> !(s.procs[p].pc.ExitZombie? && HasChild(s.procs, p))
  {
    OnCpuFacts(s, i, p);
    var t := TableStep(s, i, p);
    var pc := s.procs[p].pc;
    if pc.ExitZombie? {
      ZombieOrphans(s, p, t);
    } else if pc.WaitScan? {
      WaitKeeps(s, p);
    } else if pc.Alloc? {
      AllocKin(s, p);
    } else if pc.Wakeup? {
      WakeKin(s, i, p, pc.ch);
    } else if pc.ExitAdopt? {
      AdoptKeeps(s, p);
      KinKeeps(s.(procs := Adopt(s.procs, p, s.init)), t);
    } else {
      KinKeeps(s, t);
    }
  }

  lemma OneKin(s: State, t: State, p: nat)
    requires NoOrphans(s) && p < |s.procs| == |t.procs| && t.procs == s.procs[p := t.procs[p]]
    requires KinSame(s.procs[p], t.procs[p])
    ensures NoOrphans(t)
  {
    KinKeeps(s, t);
  }

  lemma SleepOrphans(s: State, i: nat, p: nat, t: State)
    requires Inv(s) && NoOrphans(s) && OnCpu(s, i, p) && SleepStep(s, i, p) == Some(t)
    ensures NoOrphans(t)
  {
    OnCpuFacts(s, i, p);
    OneKin(s, t, p);
  }

  lemma SchedOrphans(s: State, i: nat, t: State)
    requires Inv(s) && NoOrphans(s) && i < |s.cpus| && SchedulerStep(s, i) == Some(t)
    ensures NoOrphans(t)
  {
    assert CpuOk(s, i);
    KinKeeps(s, t);
  }

  lemma HandlerOrphans(s: State, a: Action, t: State)
    requires NoOrphans(s) && Step(s, a) == Some(t) && !a.KernelStep? && !a.Begin? && !a.SchedStep?
    ensures NoOrphans(t)
  {
    KinKeeps(s, t);
  }

  lemma CallOrphans(s: State, i: nat, p: nat, call: Call, t: State)
    requires Inv(s) && NoOrphans(s) && OnCpu(s, i, p) && CallStep(s, i, p, call) == Some(t)
    ensures NoOrphans(t)
  {
    OnCpuFacts(s, i, p);
    if call.SetParent? {
      var e := s.procs[p].embryo.value;
      DeadHaveNoChild(s, e);
      OneKeeps(s, e, s.procs[e].(parent := Some(p)));
    } else if call.FreeChild? {
      var e := s.procs[p].embryo.value;
      DeadHaveNoChild(s, e);
      var u := SetProc(s, e, s.procs[e].(state := UNUSED));
      OneKeeps(s, e, s.procs[e].(state := UNUSED));
      KinKeeps(u, t);
    } else {
      KinKeeps(s, t);
    }
  }

  /** In every reachable state, a step leaves an orphan if and only if a process
      that still has a child becomes a zombie. */
  lemma OrphanStep(s: State, a: Action, t: State)
    requires Inv(s) && NoOrphans(s) && Step(s, a) == Some(t)
    ensures NoOrphans(t) <==> !Abandons(s, a)
  {
    match a
    case KernelStep(i) =>
      var p := s.cpus[i].mode.p;
      if OnTable(s.procs[p].pc) { TableOrphans(s, i, p); } else { SleepOrphans(s, i, p, t); }
    case Begin(i, call) => CallOrphans(s, i, s.cpus[i].mode.p, call, t);
    case SchedStep(i) => SchedOrphans(s, i, t);
    case _ => HandlerOrphans(s, a, t);
  }

  // ---------------------------------------------------------------
  // exit, as against texit.

  /** Nobody is in texit, and nobody about to become a zombie has a child. */
  ghost predicate Leaving(s: State)
  {
    forall p | 0 <= p < |s.procs| ::
      s.procs[p].pc != ExitWakeup(false) && (s.procs[p].pc.ExitZombie? ==> !HasChild(s.procs, p))
  }

  /** Entries keep their parent, lose it, or get one that is not exiting. */
  ghost predicate LeaveSame(s: State, t: State, q: nat)
    requires q < |s.procs| == |t.procs|
  {
    var (was, now) := (s.procs[q], t.procs[q]);
    && (now.pc == was.pc || !(now.pc.ExitZombie? || now.pc == ExitWakeup(false)))
    && (now.parent == was.parent || now.parent == None
        || (now.parent.value < |t.procs| && !t.procs[now.parent.value].pc.ExitZombie?))
  }

  lemma LeaveKeeps(s: State, t: State)
    requires Leaving(s) && |t.procs| == |s.procs| && forall q | 0 <= q < |s.procs| :: LeaveSame(s, t, q)
    ensures Leaving(t)
  {
    forall p | 0 <= p < |t.procs|
      ensures t.procs[p].pc != ExitWakeup(false) && (t.procs[p].pc.ExitZombie? ==> !HasChild(t.procs, p))
    {
      assert LeaveSame(s, t, p);
      forall q | 0 <= q < |t.procs| && t.procs[p].pc.ExitZombie? ensures t.procs[q].parent != Some(p) {
        assert LeaveSame(s, t, q);
      }
    }
  }

  lemma AdoptLeaves(s: State, p: nat)
    requires Inv(s) && Leaving(s) && p < |s.procs| && s.procs[p].pc.ExitAdopt?
    ensures Leaving(SetPc(s.(procs := Adopt(s.procs, p, s.init)), p, ExitZombie))
  {
    var t := SetPc(s.(procs := Adopt(s.procs, p, s.init)), p, ExitZombie);
    forall q | 0 <= q < |t.procs|
      ensures t.procs[q].pc != ExitWakeup(false) && (t.procs[q].pc.ExitZombie? ==> !HasChild(t.procs, q))
    {
      forall x | 0 <= x < |t.procs| && t.procs[q].pc.ExitZombie? ensures t.procs[x].parent != Some(q) {}
    }
  }

  lemma TableLeaves(s: State, i: nat, p: nat)
    requires Inv(s) && Leaving(s) && OnCpu(s, i, p) && OnTable(s.procs[p].pc)
    ensures Leaving(TableStep(s, i, p))
  {
    var pc := s.procs[p].pc;
    if pc.ExitAdopt? {
      AdoptLeaves(s, p);
    } else if pc.WaitScan? {
      WaitLeaves(s, p);
    } else if pc.Alloc? {
      AllocLeaves(s, p);
    } else {
      LeaveKeeps(s, TableStep(s, i, p));
    }
  }

  lemma WaitLeaves(s: State, p: nat)
    requires Leaving(s) && p < |s.procs|
    ensures Leaving(WaitStep(s, p))
  {
    LeaveKeeps(s, WaitStep(s, p));
  }

  lemma AllocLeaves(s: State, p: nat)
    requires Leaving(s) && p < |s.procs|
    ensures Leaving(AllocStep(s, p))
  {
    LeaveKeeps(s, AllocStep(s, p));
  }

  lemma StepLeaves(s: State, a: Action, t: State)
    requires Inv(s) && Leaving(s) && Step(s, a) == Some(t) && !(a.Begin? && a.call.Texit?)
    ensures Leaving(t)
  {
    if a.KernelStep? && OnTable(s.procs[s.cpus[a.i].mode.p].pc) {
      TableLeaves(s, a.i, s.cpus[a.i].mode.p);
    } else if a.KernelStep? {
      SleepLeaves(s, a.i, s.cpus[a.i].mode.p, t);
    } else if a.Begin? {
      CallLeaves(s, a.i, s.cpus[a.i].mode.p, a.call, t);
    } else {
      LeaveKeeps(s, t);
    }
  }

  lemma SleepLeaves(s: State, i: nat, p: nat, t: State)
    requires Leaving(s) && i < |s.cpus| && p < |s.procs| && SleepStep(s, i, p) == Some(t)
    ensures Leaving(t)
  {
    LeaveKeeps(s, t);
  }

  lemma CallLeaves(s: State, i: nat, p: nat, call: Call, t: State)
    requires Leaving(s) && i < |s.cpus| && p < |s.procs| && CallStep(s, i, p, call) == Some(t) && !call.Texit?
    ensures Leaving(t)
  {
    LeaveKeeps(s, t);
  }

  /** In every run without texit, every parent is alive. */
  lemma {:induction false} ExitLeavesNoOrphan(s: State, actions: seq<Action>, t: State)
    requires Boot(s) && After(s, actions) == Some(t)
    requires forall k | 0 <= k < |actions| :: !(actions[k].Begin? && actions[k].call.Texit?)
    ensures NoOrphans(t) && Leaving(t)
  {
    if actions != [] {
      var k := |actions| - 1;
      var u := After(s, actions[..k]).value;
      ExitLeavesNoOrphan(s, actions[..k], u);
      RunInv(s, actions[..k], u);
      OrphanStep(u, actions[k], t);
      StepLeaves(u, actions[k], t);
    }
  }
}
