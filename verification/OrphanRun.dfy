/** A run in which texit leaves an orphan: a zombie that no wait finds. */
module OrphanRun {
  import opened Options
  import opened Sched
  import opened Orphans

  ghost predicate Reached(s0: State, s: State)
  {
    exists actions :: After(s0, actions) == Some(s)
  }

  /** Every step keeps P.  The lemmas about parts of a run are for any such P. */
  ghost predicate Closed(P: State -> bool)
  {
    forall s, a :: P(s) && Step(s, a).Some? ==> P(Step(s, a).value)
  }

  lemma ReachedClosed(s0: State)
    ensures Closed((s: State) => Reached(s0, s))
  {
    forall s, a | Reached(s0, s) && Step(s, a).Some? ensures Reached(s0, Step(s, a).value) {
      Then(s0, s, a, Step(s, a).value);
    }
  }

  lemma Then(s0: State, s: State, a: Action, t: State)
    requires Reached(s0, s) && Step(s, a) == Some(t)
    ensures Reached(s0, t)
  {
    var actions :| After(s0, actions) == Some(s);
    assert (actions + [a])[..|actions|] == actions;
    assert After(s0, actions + [a]) == Some(t);
  }

  /** The one CPU is in its scheduler's loop, at entry at. */
  function Scanning(s: State, at: nat): State
  {
    s.(ptable := Some(0), cpus := [Cpu(None, Scan(at), 1, false, None, {}, {})])
  }

  /** The one CPU runs p, outside proc.c, with no lock held. */
  function Running(s: State, p: nat, r: Proc): State
    requires p < |s.procs|
  {
    SetProc(s, p, r).(ptable := None, cpus := [Cpu(Some(p), Run(p), 0, false, None, {}, {})])
  }

  function Current(r: Proc): Proc
  {
    r.(state := RUNNING, pc := Body, on := Some(0))
  }

  /** r is the state t, field by field. */
  ghost predicate Is(r: Option<State>, t: State)
  {
    && r.Some? && r.value.procs == t.procs && r.value.cpus == t.cpus && r.value.ptable == t.ptable
    && r.value.locks == t.locks && r.value.truth == t.truth && r.value.lockOf == t.lockOf && r.value.init == t.init
  }

  lemma SchedMoves(P: State -> bool, s: State, t: State)
    requires Closed(P)
    requires P(s) && |s.cpus| == 1 && s.cpus[0].irq == None && Is(SchedulerStep(s, 0), t)
    ensures P(t)
  {
    assert Step(s, SchedStep(0)) == Some(t);
  }

  lemma KernelMoves(P: State -> bool, s: State, p: nat, t: State)
    requires Closed(P)
    requires P(s) && |s.cpus| == 1 && Runs(s, 0) && s.cpus[0].mode.p == p && Is(ProcStep(s, 0, p), t)
    ensures P(t)
  {
    assert Step(s, KernelStep(0)) == Some(t);
  }

  lemma Calls(P: State -> bool, s: State, p: nat, call: Call, t: State)
    requires Closed(P)
    requires P(s) && |s.cpus| == 1 && Runs(s, 0) && s.cpus[0].mode.p == p && Is(CallStep(s, 0, p, call), t)
    ensures P(t)
  {
    assert Step(s, Begin(0, call)) == Some(t);
  }

  /** Process p is at pc, with ptable.lock held. */
  function Inside(s: State, p: nat, r: Proc): State
    requires p < |s.procs|
  {
    SetProc(s, p, r).(ptable := Some(0), cpus := [Cpu(Some(p), Run(p), 1, false, None, {}, {})])
  }

  /** The scheduler picks p and switches to it. */
  lemma Dispatch(P: State -> bool, s: State, p: nat, r: Proc)
    requires Closed(P)
    requires p < |s.procs| && s.procs[p].state == RUNNABLE && s.procs[p].pc == Parked(Release(None))
    requires P(Scanning(s, p)) && r == Current(s.procs[p])
    ensures P(Running(s, p, r))
  {
    var s1 := Scanning(s, p).(cpus := [Cpu(Some(p), Picked(p), 1, false, None, {}, {})]);
    SchedMoves(P, Scanning(s, p), s1);
    var s2 := SetProc(s1, p, s.procs[p].(state := RUNNING)).(cpus := [Cpu(Some(p), Switch(p), 1, false, None, {}, {})]);
    SchedMoves(P, s1, s2);
    SchedMoves(P, s2, Inside(s, p, r.(pc := Unlock(None))));
    Unlocks(P, s, p, r);
  }

  lemma Unlocks(P: State -> bool, s: State, p: nat, r: Proc)
    requires Closed(P)
    requires p < |s.procs| && r.pc == Body && P(Inside(s, p, r.(pc := Unlock(None))))
    ensures P(Running(s, p, r))
  {
    KernelMoves(P, Inside(s, p, r.(pc := Unlock(None))), p, Running(s, p, r));
  }

  lemma StillFirst(procs: seq<Proc>, p: nat, r: Proc, np: nat)
    requires p < |procs| && np < |procs| && p != np && r.state != UNUSED && np == FirstIn(procs, UNUSED, 0)
    ensures FirstIn(procs[p := r], UNUSED, 0) == np
  {
    var k := FirstIn(procs[p := r], UNUSED, 0);
    assert procs[p := r][np] == procs[np];
    assert !(k < np) && !(np < k);
  }

  /** A call that takes ptable.lock. */
  lemma Enters(P: State -> bool, s: State, p: nat, r: Proc, call: Call, pc: Pc)
    requires Closed(P)
    requires p < |s.procs| && r.pc == Body && P(Running(s, p, r))
    requires call in {Fork, Yield, Exit, Texit, Wait} && EntryPc(Running(s, p, r), 0, p, call) == Some(pc)
    ensures P(Inside(s, p, r.(pc := pc)))
  {
    Calls(P, Running(s, p, r), p, call, Inside(s, p, r.(pc := pc)));
  }

  function Embryo(r: Proc): Proc
  {
    r.(state := EMBRYO, pc := Parked(Release(None)))
  }

  lemma Allocates(P: State -> bool, s: State, p: nat, np: nat, r: Proc)
    requires Closed(P)
    requires p < |s.procs| && np < |s.procs| && np != p && np == FirstIn(s.procs, UNUSED, 0)
    requires r == s.procs[p] && r.state == RUNNING && P(Inside(s, p, r.(pc := Alloc)))
    ensures P(Inside(SetProc(s, np, Embryo(s.procs[np])), p, r.(pc := Unlock(None), embryo := Some(np))))
  {
    StillFirst(s.procs, p, r.(pc := Alloc), np);
    KernelMoves(P, Inside(s, p, r.(pc := Alloc)), p,
                Inside(SetProc(s, np, Embryo(s.procs[np])), p, r.(pc := Unlock(None), embryo := Some(np))));
  }

  lemma Adds(P: State -> bool, s: State, p: nat, np: nat, r: Proc)
    requires Closed(P)
    requires p < |s.procs| && np < |s.procs| && np != p && r.pc == Body && r.embryo == Some(np)
    requires P(Running(s, p, r))
    ensures P(Running(SetProc(s, np, s.procs[np].(parent := Some(p))), p, r))
  {
    Calls(P, Running(s, p, r), p, SetParent, Running(SetProc(s, np, s.procs[np].(parent := Some(p))), p, r));
  }

  lemma Starts(P: State -> bool, s: State, p: nat, np: nat, r: Proc)
    requires Closed(P)
    requires p < |s.procs| && np < |s.procs| && np != p && r.pc == Body && r.embryo == Some(np)
    requires P(Running(s, p, r))
    ensures P(Running(SetProc(s, np, s.procs[np].(state := RUNNABLE)), p, r.(embryo := None)))
  {
    Calls(P, Running(s, p, r), p, StartChild,
          Running(SetProc(s, np, s.procs[np].(state := RUNNABLE)), p, r.(embryo := None)));
  }

  function Child(r: Proc, p: nat): Proc
  {
    r.(state := RUNNABLE, pc := Parked(Release(None)), parent := Some(p))
  }

  /** fork by the process in slot p, into slot np. */
  lemma ForkChild(P: State -> bool, s: State, p: nat, np: nat, r: Proc)
    requires Closed(P)
    requires p < |s.procs| && np < |s.procs| && np != p && np == FirstIn(s.procs, UNUSED, 0)
    requires r == s.procs[p] == Current(r) && r.embryo == None && P(Running(s, p, r))
    ensures P(Running(SetProc(s, np, Child(s.procs[np], p)), p, r))
  {
    Enters(P, s, p, r, Fork, Alloc);
    Allocates(P, s, p, np, r);
    var r1 := r.(embryo := Some(np));
    var s1 := SetProc(s, np, Embryo(s.procs[np]));
    Unlocks(P, s1, p, r1);
    Adds(P, s1, p, np, r1);
    var s2 := SetProc(s1, np, s1.procs[np].(parent := Some(p)));
    Starts(P, s2, p, np, r1);
    assert SetProc(s2, np, s2.procs[np].(state := RUNNABLE)).procs == SetProc(s, np, Child(s.procs[np], p)).procs;
  }

  function BackFrom(s: State, p: nat, r: Proc): State
    requires p < |s.procs|
  {
    SetProc(s, p, r).(ptable := Some(0), cpus := [Cpu(Some(p), Back(p), 1, false, None, {}, {})])
  }

  lemma Switches(P: State -> bool, s: State, p: nat, r: Proc, k: Resume)
    requires Closed(P)
    requires p < |s.procs| && r.pc == Swtch(k) && P(Inside(s, p, r))
    ensures P(BackFrom(s, p, r.(pc := Parked(k), on := None)))
  {
    KernelMoves(P, Inside(s, p, r), p, BackFrom(s, p, r.(pc := Parked(k), on := None)));
  }

  /** p has switched to its scheduler, which goes on behind it. */
  lemma SwitchesOut(P: State -> bool, s: State, p: nat, r: Proc, k: Resume)
    requires Closed(P)
    requires p < |s.procs| && r.pc == Swtch(k) && P(Inside(s, p, r))
    ensures P(Scanning(SetProc(s, p, r.(pc := Parked(k), on := None)), p + 1))
  {
    Switches(P, s, p, r, k);
    GoesOn(P, s, p, r.(pc := Parked(k), on := None));
  }

  lemma GoesOn(P: State -> bool, s: State, p: nat, r: Proc)
    requires Closed(P)
    requires p < |s.procs| && P(BackFrom(s, p, r))
    ensures P(Scanning(SetProc(s, p, r), p + 1))
  {
    SchedMoves(P, BackFrom(s, p, r), Scanning(SetProc(s, p, r), p + 1));
  }

  function Waiting(r: Proc): Proc
  {
    r.(state := RUNNABLE, pc := Parked(Release(None)), on := None)
  }

  lemma YieldsCpu(P: State -> bool, s: State, p: nat, r: Proc)
    requires Closed(P)
    requires p < |s.procs| && r == s.procs[p] == Current(r) && P(Running(s, p, r))
    ensures P(Scanning(SetProc(s, p, Waiting(r)), p + 1))
  {
    Enters(P, s, p, r, Yield, YieldState(None));
    var r1 := r.(state := RUNNABLE, pc := Swtch(Release(None)));
    KernelMoves(P, Inside(s, p, r.(pc := YieldState(None))), p, Inside(s, p, r1));
    SwitchesOut(P, s, p, r1, Release(None));
  }

  ghost predicate NoSleeper(procs: seq<Proc>)
  {
    forall q | 0 <= q < |procs| :: procs[q].state != SLEEPING
  }

  lemma NobodyWakes(procs: seq<Proc>, ch: Chan)
    requires NoSleeper(procs)
    ensures WakeAll(procs, ch) == procs
  {
  }

  lemma NobodyAdopted(procs: seq<Proc>, p: nat, init: nat)
    requires NoSleeper(procs) && !HasChild(procs, p)
    ensures Adopt(procs, p, init) == procs
  {
  }

  lemma WakesParent(P: State -> bool, s: State, p: nat, r: Proc, adopt: bool)
    requires Closed(P)
    requires p < |s.procs| && r.state == RUNNING && NoSleeper(s.procs)
    requires P(Inside(s, p, r.(pc := ExitWakeup(adopt))))
    ensures P(Inside(s, p, r.(pc := if adopt then ExitAdopt else ExitZombie)))
  {
    var s1 := Inside(s, p, r.(pc := ExitWakeup(adopt)));
    if r.parent.Some? { NobodyWakes(s1.procs, Self(r.parent.value)); }
    KernelMoves(P, s1, p, Inside(s, p, r.(pc := if adopt then ExitAdopt else ExitZombie)));
  }

  lemma AdoptsNone(P: State -> bool, s: State, p: nat, r: Proc)
    requires Closed(P)
    requires p < |s.procs| && r == s.procs[p] && r.state == RUNNING && NoSleeper(s.procs) && !HasChild(s.procs, p)
    requires P(Inside(s, p, r.(pc := ExitAdopt)))
    ensures P(Inside(s, p, r.(pc := ExitZombie)))
  {
    var s1 := Inside(s, p, r.(pc := ExitAdopt));
    assert forall q | 0 <= q < |s.procs| :: s1.procs[q].parent == s.procs[q].parent;
    NobodyAdopted(s1.procs, p, s.init);
    KernelMoves(P, s1, p, Inside(s, p, r.(pc := ExitZombie)));
  }

  function Corpse(r: Proc): Proc
  {
    r.(state := ZOMBIE, pc := Parked(Dead), on := None)
  }

  /** exit or texit of p, when nobody sleeps; for exit, when p has no child. */
  lemma Dies(P: State -> bool, s: State, p: nat, r: Proc, adopt: bool)
    requires Closed(P)
    requires p < |s.procs| && r == s.procs[p] == Current(r) && r.embryo == None && p != s.init
    requires NoSleeper(s.procs) && (adopt ==> !HasChild(s.procs, p)) && P(Running(s, p, r))
    ensures P(Scanning(SetProc(s, p, Corpse(r)), p + 1))
  {
    Enters(P, s, p, r, if adopt then Exit else Texit, ExitWakeup(adopt));
    WakesParent(P, s, p, r, adopt);
    if adopt { AdoptsNone(P, s, p, r); }
    var r1 := r.(state := ZOMBIE, pc := Swtch(Dead));
    KernelMoves(P, Inside(s, p, r.(pc := ExitZombie)), p, Inside(s, p, r1));
    SwitchesOut(P, s, p, r1, Dead);
  }

  /** The scheduler comes to the end of the table and starts again. */
  lemma NextRound(P: State -> bool, s: State)
    requires Closed(P)
    requires P(Scanning(s, |s.procs|))
    ensures P(Scanning(s, 0))
  {
    var idle := s.(ptable := None, cpus := [Cpu(None, Idle, 0, false, None, {}, {})]);
    SchedMoves(P, Scanning(s, |s.procs|), idle);
    SchedMoves(P, idle, Scanning(s, 0));
  }

  lemma FindsZombie(s: State, p: nat, r: Proc, z: nat)
    requires p < |s.procs| && r == s.procs[p] && z == FirstZombie(s.procs, p, 0)
    ensures FirstZombie(s.procs[p := r.(pc := WaitScan)], p, 0) == z
  {
    var procs := s.procs[p := r.(pc := WaitScan)];
    assert forall j | 0 <= j < |s.procs| :: procs[j].parent == s.procs[j].parent && procs[j].state == s.procs[j].state;
    var k := FirstZombie(procs, p, 0);
    assert !(k < z) && !(z < k);
  }

  lemma ScanReaps(P: State -> bool, s: State, p: nat, r: Proc, z: nat)
    requires Closed(P)
    requires p < |s.procs| && z < |s.procs| && z != p && r == s.procs[p] && z == FirstZombie(s.procs, p, 0)
    requires P(Inside(s, p, r.(pc := WaitScan)))
    ensures P(Inside(SetProc(s, z, Reap(s.procs[z])), p, r.(pc := Unlock(None))))
  {
    FindsZombie(s, p, r, z);
    KernelMoves(P, Inside(s, p, r.(pc := WaitScan)), p,
                Inside(SetProc(s, z, Reap(s.procs[z])), p, r.(pc := Unlock(None))));
  }

  /** wait by p finds the zombie z. */
  lemma Reaps(P: State -> bool, s: State, p: nat, r: Proc, z: nat)
    requires Closed(P)
    requires p < |s.procs| && z < |s.procs| && z != p && r == s.procs[p] == Current(r) && P(Running(s, p, r))
    requires z == FirstZombie(s.procs, p, 0)
    ensures P(Running(SetProc(s, z, Reap(s.procs[z])), p, r))
  {
    Enters(P, s, p, r, Wait, WaitScan);
    ScanReaps(P, s, p, r, z);
    Unlocks(P, SetProc(s, z, Reap(s.procs[z])), p, r);
  }

  // ---------------------------------------------------------------
  // The run: init forks a process, which forks another and leaves by texit; the
  // grandchild exits; init waits and reaps its child.

  ghost predicate Small(s: State)
  {
    Boot(s) && |s.cpus| == 1 && |s.procs| == 3 && s.init == 0
  }

  function Slot(state: ProcState): Proc
  {
    Proc(state, Cond(0), None, false, Parked(Release(None)), None, None)
  }

  /** One CPU and three slots, just booted. */
  lemma SmallMachine() returns (s: State)
    ensures Small(s)
  {
    var cpu := Cpu(None, Idle, 0, false, None, {}, {});
    s := State([Slot(RUNNABLE), Slot(UNUSED), Slot(UNUSED)], [cpu], None, map[], {}, (c: nat) => c, 0);
  }

  lemma Settled(P: State -> bool, s: State, p: nat, r: Proc)
    requires Closed(P)
    requires p < |s.procs| && P(Running(s, p, r))
    ensures P(Running(SetProc(s, p, r), p, r))
  {
    assert Running(SetProc(s, p, r), p, r).procs == Running(s, p, r).procs;
  }

  /** The scheduler runs p, which forks a child into slot np. */
  lemma RunsAndForks(P: State -> bool, s: State, p: nat, np: nat, r: Proc)
    requires Closed(P)
    requires p < |s.procs| && np < |s.procs| && np != p && np == FirstIn(s.procs, UNUSED, 0)
    requires s.procs[p] == Waiting(s.procs[p]) && s.procs[p].embryo == None
    requires P(Scanning(s, p)) && r == Current(s.procs[p])
    ensures P(Running(SetProc(SetProc(s, p, r), np, Child(s.procs[np], p)), p, r))
  {
    Dispatch(P, s, p, r);
    Settled(P, s, p, r);
    StillFirst(s.procs, p, r, np);
    ForkChild(P, SetProc(s, p, r), p, np, r);
  }

  /** The scheduler runs p, which leaves by exit or texit. */
  lemma RunsAndDies(P: State -> bool, s: State, p: nat, r: Proc, adopt: bool)
    requires Closed(P)
    requires p < |s.procs| && p != s.init && s.procs[p] == Waiting(s.procs[p]) && s.procs[p].embryo == None
    requires P(Scanning(s, p)) && r == Current(s.procs[p])
    requires NoSleeper(SetProc(s, p, r).procs) && (adopt ==> !HasChild(SetProc(s, p, r).procs, p))
    ensures P(Scanning(SetProc(SetProc(s, p, r), p, Corpse(r)), p + 1))
  {
    Dispatch(P, s, p, r);
    Settled(P, s, p, r);
    Dies(P, SetProc(s, p, r), p, r, adopt);
  }

  /** The scheduler runs p, whose wait finds the zombie z. */
  lemma RunsAndReaps(P: State -> bool, s: State, p: nat, r: Proc, z: nat)
    requires Closed(P)
    requires p < |s.procs| && z < |s.procs| && z != p && s.procs[p] == Waiting(s.procs[p])
    requires P(Scanning(s, p)) && r == Current(s.procs[p])
    requires z == FirstZombie(SetProc(s, p, r).procs, p, 0)
    ensures P(Running(SetProc(SetProc(s, p, r), z, Reap(s.procs[z])), p, r))
  {
    Dispatch(P, s, p, r);
    Settled(P, s, p, r);
    Reaps(P, SetProc(s, p, r), p, r, z);
  }

  // The table at the three points of the run where the scheduler looks for the next process.

  ghost predicate Parent(s: State)
  {
    && |s.procs| == 3 && s.init == 0
    && s.procs[0] == Waiting(s.procs[0]) && s.procs[0].parent == None && s.procs[0].embryo == None
    && s.procs[1] == Waiting(s.procs[1]) && s.procs[1].parent == Some(0) && s.procs[1].embryo == None
    && s.procs[2].state == UNUSED && s.procs[2].parent == None && s.procs[2].embryo == None
    && s.procs[2].on == None
  }

  ghost predicate Bereaved(s: State)
  {
    && |s.procs| == 3 && s.init == 0
    && s.procs[0] == Waiting(s.procs[0]) && s.procs[0].parent == None && s.procs[0].embryo == None
    && s.procs[1] == Corpse(s.procs[1]) && s.procs[1].parent == Some(0)
    && s.procs[2] == Waiting(s.procs[2]) && s.procs[2].parent == Some(1) && s.procs[2].embryo == None
  }

  ghost predicate BothDead(s: State)
  {
    && |s.procs| == 3 && s.init == 0
    && s.procs[0] == Waiting(s.procs[0]) && s.procs[0].parent == None && s.procs[0].embryo == None
    && s.procs[1] == Corpse(s.procs[1]) && s.procs[1].parent == Some(0)
    && s.procs[2] == Corpse(s.procs[2]) && s.procs[2].parent == Some(1)
  }

  lemma InitForks(P: State -> bool, s0: State) returns (s: State)
    requires Closed(P)
    requires P(s0) && Small(s0)
    ensures P(Scanning(s, 1)) && Parent(s)
  {
    SchedMoves(P, s0, Scanning(s0, 0));
    var r := Current(s0.procs[0]);
    RunsAndForks(P, s0, 0, 1, r);
    var a := SetProc(SetProc(s0, 0, r), 1, Child(s0.procs[1], 0));
    YieldsCpu(P, a, 0, r);
    s := SetProc(a, 0, Waiting(r));
  }

  lemma ChildLeaves(P: State -> bool, s: State) returns (t: State)
    requires Closed(P)
    requires P(Scanning(s, 1)) && Parent(s)
    ensures P(Scanning(t, 2)) && Bereaved(t)
  {
    var r := Current(s.procs[1]);
    RunsAndForks(P, s, 1, 2, r);
    var a := SetProc(SetProc(s, 1, r), 2, Child(s.procs[2], 1));
    Dies(P, a, 1, r, false);
    t := SetProc(a, 1, Corpse(r));
  }

  lemma GrandchildExits(P: State -> bool, s: State) returns (t: State)
    requires Closed(P)
    requires P(Scanning(s, 2)) && Bereaved(s)
    ensures P(Scanning(t, 0)) && BothDead(t)
  {
    var r := Current(s.procs[2]);
    RunsAndDies(P, s, 2, r, true);
    t := SetProc(SetProc(s, 2, r), 2, Corpse(r));
    NextRound(P, t);
  }

  lemma InitReaps(P: State -> bool, s: State) returns (t: State)
    requires Closed(P)
    requires P(Scanning(s, 0)) && BothDead(s)
    ensures P(t) && |t.procs| == 3 && t.ptable == None && t.procs[0].state == RUNNING
    ensures t.procs[2].state == ZOMBIE && t.procs[2].parent == Some(1) && t.procs[1].state == UNUSED
  {
    var r := Current(s.procs[0]);
    RunsAndReaps(P, s, 0, r, 1);
    t := Running(SetProc(SetProc(s, 0, r), 1, Reap(s.procs[1])), 0, r);
  }

  /** After texit of its parent, exit of the grandchild and a wait of init, the
      grandchild is a zombie whose parent's slot is unused: no wait finds it. */
  lemma TexitLeavesOrphan(s0: State) returns (t: State)
    requires Small(s0)
    ensures Reached(s0, t) && |t.procs| == 3 && t.ptable == None
    ensures t.procs[2].state == ZOMBIE && t.procs[2].parent == Some(1) && t.procs[1].state == UNUSED
    ensures !NoOrphans(t) && forall p | 0 <= p < 3 && Alive(t.procs[p].state) :: FirstZombie(t.procs, p, 0) == 3
  {
    var P := (s: State) => Reached(s0, s);
    ReachedClosed(s0);
    assert After(s0, []) == Some(s0);
    var a := InitForks(P, s0);
    var b := ChildLeaves(P, a);
    var c := GrandchildExits(P, b);
    t := InitReaps(P, c);
    assert !ParentOk(t.procs, 2);
  }
}
