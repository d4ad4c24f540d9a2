/** Sleep, wakeup and the scheduler (proc.c, spinlock.c) as a step system: any
    number of CPUs and processes, one step per shared-memory write. */
module Sched {
  import opened Options

  datatype ProcState = UNUSED | EMBRYO | SLEEPING | RUNNABLE | RUNNING | ZOMBIE

  /** Sleep channels: a kernel object whose condition is guarded by a lock, or
      (in wait) the sleeping process itself. */
  datatype Chan = NoChan | Cond(c: nat) | Self(p: nat)

  /** Where a switched-out thread resumes: after sched() in yield (and in
      forkret), after sched() in sleep, or never. */
  datatype Resume = Release(again: Option<nat>) | Tidy(ch: Chan) | Dead

  /** What a process's kernel thread does next. All but Body, Reacquire and
      Parked run with ptable.lock held. */
  datatype Pc =
    | Body                       // code outside proc.c, or between its calls
    | YieldState(again: Option<nat>)  // proc->state = RUNNABLE
    | SleepUnlock(c: nat)        // release(lk)
    | SleepChan(ch: Chan)        // proc->chan = chan
    | SleepState(ch: Chan)       // proc->state = SLEEPING
    | Swtch(k: Resume)           // in sched(), about to swtch
    | Parked(k: Resume)          // switched out
    | SleepTidy(ch: Chan)        // proc->chan = 0
    | Unlock(again: Option<nat>) // release(&ptable.lock)
    | Reacquire(c: nat)          // acquire(lk)
    | Wakeup(ch: Chan)           // wakeup1(chan)
    | Kill(q: nat)               // the loop body of kill
    | ExitWakeup(adopt: bool)    // wakeup1(proc->parent)
    | ExitAdopt                  // pass abandoned children to init
    | ExitZombie                 // proc->state = ZOMBIE
    | WaitScan                   // scan for zombie children
    | Alloc                      // allocproc's search

  datatype Proc = Proc(
    state: ProcState, chan: Chan, parent: Option<nat>, killed: bool,
    pc: Pc,
    on: Option<nat>,     // the CPU whose registers hold this thread
    embryo: Option<nat>) // slot fork() has allocated but not yet started

  /** Where a CPU's own scheduler thread is. */
  datatype Mode =
    | Idle               // between rounds, ptable.lock not held
    | Scan(at: nat)      // in the loop over the table
    | Picked(p: nat)     // proc = p done, p->state = RUNNING not yet
    | Switch(p: nat)     // about to swtch to p
    | Run(p: nat)        // p's thread has the CPU
    | Back(p: nat)       // p has switched back, proc = 0 not yet

  /** Where an interrupt handler is. */
  datatype Irq =
    | Serving            // code outside proc.c
    | Waking(ch: Chan)   // in wakeup, with ptable.lock held
    | Woken              // release(&ptable.lock)

  /** A CPU runs its scheduler thread or a process, and over either an interrupt
      handler, which must end before they go on.  Locks are held by a CPU: sched()
      lets no process switch with a lock, and a handler starts with none held. */
  datatype Cpu = Cpu(
    proc: Option<nat>, mode: Mode, ncli: nat, intr: bool,
    irq: Option<Irq>,    // the handler that runs, if any
    held: set<nat>,      // locks other than ptable.lock held here
    owes: set<nat>)      // conditions made true here without calling wakeup yet

  datatype State = State(
    procs: seq<Proc>,
    cpus: seq<Cpu>,
    ptable: Option<nat>,  // the CPU holding ptable.lock
    locks: map<nat, nat>, // other locks held, with the holding CPU
    truth: set<nat>,      // the conditions that are true
    lockOf: nat -> nat,   // the lock that guards each condition
    init: nat)            // initproc

  // ---------------------------------------------------------------
  // The loops over the process table, as functions of its contents.

  function WakeOne(p: Proc, ch: Chan): Proc
  {
    if p.state == SLEEPING && p.chan == ch then p.(state := RUNNABLE) else p
  }

  /** wakeup1: every process sleeping on ch becomes runnable. */
  function WakeAll(procs: seq<Proc>, ch: Chan): seq<Proc>
  {
    seq(|procs|, i requires 0 <= i < |procs| => WakeOne(procs[i], ch))
  }

  /** exit: me's children become init's. */
  function Reparent(procs: seq<Proc>, me: nat, init: nat): seq<Proc>
  {
    seq(|procs|, i requires 0 <= i < |procs| =>
      if procs[i].parent == Some(me) then procs[i].(parent := Some(init)) else procs[i])
  }

  predicate HasZombieChild(procs: seq<Proc>, me: nat)
  {
    exists q | 0 <= q < |procs| :: procs[q].parent == Some(me) && procs[q].state == ZOMBIE
  }

  /** exit: hand me's children to init, waking it if one is already dead. */
  function Adopt(procs: seq<Proc>, me: nat, init: nat): seq<Proc>
  {
    var r := Reparent(procs, me, init);
    if HasZombieChild(procs, me) then WakeAll(r, Self(init)) else r
  }

  predicate HasChild(procs: seq<Proc>, me: nat)
  {
    exists q | 0 <= q < |procs| :: procs[q].parent == Some(me)
  }

  function KillOne(p: Proc): Proc
  {
    if p.state == SLEEPING then p.(killed := true, state := RUNNABLE) else p.(killed := true)
  }

  function Reap(p: Proc): Proc
  {
    p.(state := UNUSED, parent := None, killed := false)
  }

  /** The first index from `at` on whose state is st, or |procs|. */
  function FirstIn(procs: seq<Proc>, st: ProcState, at: nat): (i: nat)
    requires at <= |procs|
    ensures at <= i <= |procs|
    ensures i < |procs| ==> procs[i].state == st
    ensures forall j | at <= j < i :: procs[j].state != st
    decreases |procs| - at
  {
    if at == |procs| || procs[at].state == st then at else FirstIn(procs, st, at + 1)
  }

  /** The first zombie child of me from `at` on, or |procs|. */
  function FirstZombie(procs: seq<Proc>, me: nat, at: nat): (i: nat)
    requires at <= |procs|
    ensures at <= i <= |procs|
    ensures i < |procs| ==> procs[i].parent == Some(me) && procs[i].state == ZOMBIE
    ensures forall j | at <= j < i :: !(procs[j].parent == Some(me) && procs[j].state == ZOMBIE)
    decreases |procs| - at
  {
    if at == |procs| || (procs[at].parent == Some(me) && procs[at].state == ZOMBIE) then at
    else FirstZombie(procs, me, at + 1)
  }

  // ---------------------------------------------------------------
  // Steps.

  /** What a process can start from Body. */
  datatype Call =
    | Acquire(l: nat) | Drop(l: nat)
    | MakeTrue(c: nat) | MakeFalse(c: nat)
    | Yield | Sleep(c: nat) | WakeupOn(ch: Chan) | KillProc(q: nat)
    | Exit | Texit | Wait
    | Fork | SetParent | StartChild | FreeChild

  datatype Action =
    | SchedStep(i: nat)          // CPU i's scheduler thread moves on
    | KernelStep(i: nat)         // the process on CPU i moves on inside proc.c
    | Begin(i: nat, call: Call)  // the process on CPU i makes a call
    | Interrupts(i: nat, on: bool)  // sti or cli
    | Deliver(i: nat)            // an interrupt arrives
    | IrqCall(i: nat, call: Call)  // the handler on CPU i makes a call
    | IrqStep(i: nat)            // the handler on CPU i moves on inside wakeup
    | Iret(i: nat)               // the handler ends
    | IrqYield(i: nat)           // the clock handler ends in yield

  function SetProc(s: State, p: nat, r: Proc): State
    requires p < |s.procs|
  {
    s.(procs := s.procs[p := r])
  }

  function SetPc(s: State, p: nat, pc: Pc): State
    requires p < |s.procs|
  {
    SetProc(s, p, s.procs[p].(pc := pc))
  }

  function SetCpu(s: State, i: nat, c: Cpu): State
    requires i < |s.cpus|
  {
    s.(cpus := s.cpus[i := c])
  }

  function SetMode(s: State, i: nat, m: Mode): State
    requires i < |s.cpus|
  {
    SetCpu(s, i, s.cpus[i].(mode := m))
  }

  /** acquire(&ptable.lock) by CPU i; disabled while another CPU holds it. */
  function AcquirePt(s: State, i: nat): Option<State>
    requires i < |s.cpus|
  {
    if s.ptable != None then None
    else Some(SetCpu(s, i, s.cpus[i].(ncli := s.cpus[i].ncli + 1, intr := false)).(ptable := Some(i)))
  }

  /** release(&ptable.lock) by CPU i. popcli may turn interrupts back on once
      no lock is held: that is a separate Interrupts action. */
  function ReleasePt(s: State, i: nat): Option<State>
    requires i < |s.cpus|
  {
    if s.ptable != Some(i) || s.cpus[i].ncli == 0 then None
    else Some(SetCpu(s, i, s.cpus[i].(ncli := s.cpus[i].ncli - 1)).(ptable := None))
  }

  /** acquire(lk) on CPU i. */
  function AcquireLk(s: State, i: nat, l: nat): Option<State>
    requires i < |s.cpus|
  {
    if l in s.locks then None
    else
      var c := s.cpus[i];
      Some(SetCpu(s, i, c.(held := c.held + {l}, ncli := c.ncli + 1, intr := false)).(locks := s.locks[l := i]))
  }

  /** release(lk) on CPU i. */
  function ReleaseLk(s: State, i: nat, l: nat): Option<State>
    requires i < |s.cpus|
  {
    var c := s.cpus[i];
    if l !in s.locks || s.locks[l] != i || c.ncli == 0 then None
    else Some(SetCpu(s, i, c.(held := c.held - {l}, ncli := c.ncli - 1)).(locks := s.locks - {l}))
  }

  /** wakeup on ch has been called on CPU i. */
  function Pay(s: State, i: nat, ch: Chan): State
    requires i < |s.cpus|
  {
    if ch.Cond? then SetCpu(s, i, s.cpus[i].(owes := s.cpus[i].owes - {ch.c})) else s
  }

  /** One step of scheduler() on CPU i. */
  function SchedulerStep(s: State, i: nat): Option<State>
    requires i < |s.cpus|
  {
    match s.cpus[i].mode
    case Idle =>
      (match AcquirePt(s, i)
       case None => None
       case Some(t) => Some(SetMode(t, i, Scan(0))))
    case Scan(at) =>
      if at >= |s.procs| then
        (match ReleasePt(s, i)
         case None => None
         case Some(t) => Some(SetMode(t, i, Idle)))
      else if s.procs[at].state != RUNNABLE then Some(SetMode(s, i, Scan(at + 1)))
      else Some(SetCpu(s, i, s.cpus[i].(proc := Some(at), mode := Picked(at))))
    case Picked(p) =>
      if p >= |s.procs| then None
      else Some(SetMode(SetProc(s, p, s.procs[p].(state := RUNNING)), i, Switch(p)))
    case Switch(p) =>
      if p >= |s.procs| || !s.procs[p].pc.Parked? then None
      else
        var pc := match s.procs[p].pc.k
                  case Release(again) => Unlock(again)
                  case Tidy(ch) => SleepTidy(ch)
                  case Dead => Body; // unreachable: a zombie is never scheduled
        Some(SetMode(SetProc(s, p, s.procs[p].(pc := pc, on := Some(i))), i, Run(p)))
    case Run(p) => None
    case Back(p) =>
      Some(SetCpu(s, i, s.cpus[i].(proc := None, mode := Scan(p + 1))))
  }

  /** sched()'s sanity checks; a false one is a panic. */
  predicate SchedChecks(s: State, i: nat, p: nat)
    requires i < |s.cpus| && p < |s.procs|
  {
    && s.ptable == Some(i)
    && s.cpus[i].ncli == 1
    && s.procs[p].state != RUNNING
    && !s.cpus[i].intr
  }

  /** The steps of yield and sleep, and of letting go of ptable.lock. */
  function SleepStep(s: State, i: nat, p: nat): Option<State>
    requires i < |s.cpus| && p < |s.procs|
  {
    var me := s.procs[p];
    match me.pc
    case YieldState(again) => Some(SetProc(s, p, me.(state := RUNNABLE, pc := Swtch(Release(again)))))
    case SleepUnlock(c) =>
      (match ReleaseLk(s, i, s.lockOf(c))
       case None => None
       case Some(t) => Some(SetPc(t, p, SleepChan(Cond(c)))))
    case SleepChan(ch) => Some(SetProc(s, p, me.(chan := ch, pc := SleepState(ch))))
    case SleepState(ch) => Some(SetProc(s, p, me.(state := SLEEPING, pc := Swtch(Tidy(ch)))))
    case Swtch(k) => Some(SetMode(SetProc(s, p, me.(pc := Parked(k), on := None)), i, Back(p)))
    case SleepTidy(ch) =>
      Some(SetProc(s, p, me.(chan := NoChan, pc := if ch.Cond? then Unlock(Some(ch.c)) else WaitScan)))
    case Unlock(again) =>
      (match ReleasePt(s, i)
       case None => None
       case Some(t) => Some(SetPc(t, p, if again.None? then Body else Reacquire(again.value))))
    case Reacquire(c) =>
      (match AcquireLk(s, i, s.lockOf(c))
       case None => None
       case Some(t) => Some(SetPc(t, p, Body)))
    case _ => None
  }

  /** The steps that work on the process table under ptable.lock. */
  function TableStep(s: State, i: nat, p: nat): State
    requires i < |s.cpus| && p < |s.procs|
  {
    var me := s.procs[p];
    match me.pc
    case Wakeup(ch) => Pay(SetPc(s.(procs := WakeAll(s.procs, ch)), p, Unlock(None)), i, ch)
    case Kill(q) => SetPc(if q < |s.procs| then SetProc(s, q, KillOne(s.procs[q])) else s, p, Unlock(None))
    case ExitWakeup(adopt) =>
      var t := if me.parent.None? then s else s.(procs := WakeAll(s.procs, Self(me.parent.value)));
      SetPc(t, p, if adopt then ExitAdopt else ExitZombie)
    case ExitAdopt => SetPc(s.(procs := Adopt(s.procs, p, s.init)), p, ExitZombie)
    case ExitZombie => SetProc(s, p, me.(state := ZOMBIE, pc := Swtch(Dead)))
    case WaitScan => WaitStep(s, p)
    case Alloc => AllocStep(s, p)
    case _ => s
  }

  predicate OnTable(pc: Pc)
  {
    pc.Wakeup? || pc.Kill? || pc.ExitWakeup? || pc.ExitAdopt? || pc.ExitZombie? || pc.WaitScan? || pc.Alloc?
  }

  /** One step of process p, on CPU i, inside proc.c. */
  function ProcStep(s: State, i: nat, p: nat): Option<State>
    requires i < |s.cpus| && p < |s.procs|
  {
    if OnTable(s.procs[p].pc) then Some(TableStep(s, i, p)) else SleepStep(s, i, p)
  }

  /** wait: reap the first zombie child, or give up, or go to sleep. */
  function WaitStep(s: State, p: nat): State
    requires p < |s.procs|
  {
    var z := FirstZombie(s.procs, p, 0);
    if z < |s.procs| then SetPc(SetProc(s, z, Reap(s.procs[z])), p, Unlock(None))
    else if !HasChild(s.procs, p) || s.procs[p].killed then SetPc(s, p, Unlock(None))
    else SetPc(s, p, SleepChan(Self(p)))
  }

  /** allocproc: claim the first unused slot. */
  function AllocStep(s: State, p: nat): State
    requires p < |s.procs|
  {
    var np := FirstIn(s.procs, UNUSED, 0);
    if np == |s.procs| then SetPc(s, p, Unlock(None))
    else
      var t := SetProc(s, np, s.procs[np].(state := EMBRYO, pc := Parked(Release(None))));
      SetProc(t, p, t.procs[p].(pc := Unlock(None), embryo := Some(np)))
  }

  /** Where a call that takes ptable.lock starts. The conditions are what
      proc.c asks of its callers: sleep is called on a false condition holding
      just its lock, with every due wakeup made; yield, exit, wait and fork
      with no lock held; and initproc does not exit. */
  function EntryPc(s: State, i: nat, p: nat, call: Call): Option<Pc>
    requires i < |s.cpus| && p < |s.procs|
  {
    var (me, cpu) := (s.procs[p], s.cpus[i]);
    match call
    case Sleep(c) =>
      if cpu.held == {s.lockOf(c)} && cpu.owes == {} && c !in s.truth then Some(SleepUnlock(c)) else None
    case WakeupOn(ch) => Some(Wakeup(ch))
    case KillProc(q) => Some(Kill(q))
    case Yield => if cpu.held == {} then Some(YieldState(None)) else None
    case Wait => if cpu.held == {} then Some(WaitScan) else None
    case Fork => if cpu.held == {} && me.embryo == None then Some(Alloc) else None
    case Exit => if cpu.held == {} && me.embryo == None && p != s.init then Some(ExitWakeup(true)) else None
    case Texit => if cpu.held == {} && me.embryo == None && p != s.init then Some(ExitWakeup(false)) else None
    case _ => None
  }

  /** Calls on locks and on the conditions they guard, by a process or by a
      handler on CPU i.  Whoever makes a condition true calls wakeup before letting
      go of its lock. */
  function LockStep(s: State, i: nat, call: Call): Option<State>
    requires i < |s.cpus|
  {
    var cpu := s.cpus[i];
    match call
    case Acquire(l) => AcquireLk(s, i, l)
    case Drop(l) =>
      if l in cpu.held && forall c | c in cpu.owes :: s.lockOf(c) != l then ReleaseLk(s, i, l) else None
    case MakeTrue(c) =>
      if s.lockOf(c) !in cpu.held then None
      else Some(SetCpu(s, i, cpu.(owes := cpu.owes + {c})).(truth := s.truth + {c}))
    case MakeFalse(c) =>
      if s.lockOf(c) !in cpu.held then None else Some(s.(truth := s.truth - {c}))
    case _ => None
  }

  /** fork() touches the child it has allocated without ptable.lock. */
  function ChildStep(s: State, p: nat, call: Call): Option<State>
    requires p < |s.procs|
  {
    var e := s.procs[p].embryo;
    if e.None? || e.value >= |s.procs| then None else
    match call
    case SetParent => Some(SetProc(s, e.value, s.procs[e.value].(parent := Some(p))))
    case StartChild => Some(FinishChild(s, p, e.value, RUNNABLE))
    case FreeChild => // fork's failure comes before it sets the parent
      if s.procs[e.value].parent == None then Some(FinishChild(s, p, e.value, UNUSED)) else None
    case _ => None
  }

  /** A process on CPU i, outside proc.c, starts a call. */
  function CallStep(s: State, i: nat, p: nat, call: Call): Option<State>
    requires i < |s.cpus| && p < |s.procs|
  {
    if s.procs[p].pc != Body then None
    else if call.Acquire? || call.Drop? || call.MakeTrue? || call.MakeFalse? then LockStep(s, i, call)
    else if call.SetParent? || call.StartChild? || call.FreeChild? then ChildStep(s, p, call)
    else
      match EntryPc(s, i, p, call)
      case None => None
      case Some(pc) => Locked(s, i, p, pc)
  }

  function Locked(s: State, i: nat, p: nat, pc: Pc): Option<State>
    requires i < |s.cpus| && p < |s.procs|
  {
    match AcquirePt(s, i)
    case None => None
    case Some(t) => Some(SetPc(t, p, pc))
  }

  function FinishChild(s: State, p: nat, e: nat, st: ProcState): State
    requires p < |s.procs| && e < |s.procs|
  {
    var t := SetProc(s, e, s.procs[e].(state := st));
    SetProc(t, p, t.procs[p].(embryo := None))
  }

  /** A call of an interrupt handler: on locks and conditions, or of wakeup. */
  function HandlerCall(s: State, i: nat, call: Call): Option<State>
    requires i < |s.cpus|
  {
    if s.cpus[i].irq != Some(Serving) then None
    else if !call.WakeupOn? then LockStep(s, i, call)
    else
      match AcquirePt(s, i)
      case None => None
      case Some(t) => Some(SetCpu(t, i, t.cpus[i].(irq := Some(Waking(call.ch)))))
  }

  /** The steps of wakeup in an interrupt handler. */
  function HandlerStep(s: State, i: nat): Option<State>
    requires i < |s.cpus|
  {
    match s.cpus[i].irq
    case Some(Waking(ch)) =>
      var t := Pay(s.(procs := WakeAll(s.procs, ch)), i, ch);
      Some(SetCpu(t, i, t.cpus[i].(irq := Some(Woken))))
    case Some(Woken) =>
      (match ReleasePt(s, i)
       case None => None
       case Some(t) => Some(SetCpu(t, i, t.cpus[i].(irq := Some(Serving)))))
    case _ => None
  }

  /** A handler ends with no lock held; what it interrupted goes on, with
      interrupts on. */
  function HandlerEnd(s: State, i: nat, on: bool): Option<State>
    requires i < |s.cpus|
  {
    if s.cpus[i].irq != Some(Serving) || s.cpus[i].ncli != 0 then None
    else Some(SetCpu(s, i, s.cpus[i].(irq := None, intr := on)))
  }

  /** The clock handler makes the process it interrupted yield; the process later
      goes on from where it was. */
  function HandlerYield(s: State, i: nat): Option<State>
    requires i < |s.cpus|
  {
    var m := s.cpus[i].mode;
    match HandlerEnd(s, i, false)
    case None => None
    case Some(t) =>
      if !m.Run? || m.p >= |s.procs| || s.procs[m.p].state != RUNNING then None
      else
        var pc := s.procs[m.p].pc;
        Locked(t, i, m.p, YieldState(if pc.Reacquire? then Some(pc.c) else None))
  }

  /** The process on CPU i, if it has the CPU to itself. */
  predicate Runs(s: State, i: nat)
    requires i < |s.cpus|
  {
    s.cpus[i].irq == None && s.cpus[i].mode.Run? && s.cpus[i].mode.p < |s.procs|
  }

  /** The state after action a, or None when a is not enabled. */
  function Step(s: State, a: Action): Option<State>
  {
    if a.i >= |s.cpus| then None else
    var cpu := s.cpus[a.i];
    match a
    case SchedStep(i) => if cpu.irq == None then SchedulerStep(s, i) else None
    case KernelStep(i) => if Runs(s, i) then ProcStep(s, i, cpu.mode.p) else None
    case Begin(i, call) => if Runs(s, i) then CallStep(s, i, cpu.mode.p, call) else None
    case Interrupts(i, on) =>
      if cpu.ncli == 0 && cpu.irq == None then Some(SetCpu(s, i, cpu.(intr := on))) else None
    case Deliver(i) =>
      if cpu.intr && cpu.irq == None then Some(SetCpu(s, i, cpu.(intr := false, irq := Some(Serving)))) else None
    case IrqCall(i, call) => HandlerCall(s, i, call)
    case IrqStep(i) => HandlerStep(s, i)
    case Iret(i) => HandlerEnd(s, i, true)
    case IrqYield(i) => HandlerYield(s, i)
  }

  // ---------------------------------------------------------------
  // The invariant.

  predicate PtHeld(pc: Pc)
  {
    !(pc.Body? || pc.Reacquire? || pc.Parked?)
  }

  /** Points where the thread holds no lock but ptable.lock. */
  predicate NoLocks(pc: Pc)
  {
    !(pc.Body? || pc.SleepUnlock? || pc.Wakeup? || pc.Kill? || pc == Unlock(None))
  }

  /** The handler holds ptable.lock. */
  predicate IrqPt(irq: Option<Irq>)
  {
    irq.Some? && !irq.value.Serving?
  }

  ghost function Count(s: State, i: nat): nat
    requires i < |s.cpus|
  {
    (if s.ptable == Some(i) then 1 else 0) + |s.cpus[i].held|
  }

  /** Locks and interrupts of CPU i. */
  ghost predicate LocksOk(s: State, i: nat)
    requires i < |s.cpus|
  {
    var c := s.cpus[i];
    && c.ncli == Count(s, i)
    && (c.ncli > 0 || c.irq.Some? ==> !c.intr)
    && (forall x | x in c.owes :: s.lockOf(x) in c.held)
    && (forall l | l in c.held :: l in s.locks && s.locks[l] == i)
  }

  /** A process that has CPU i to itself holds locks only where it may. */
  ghost predicate PcLocks(s: State, i: nat, pc: Pc)
    requires i < |s.cpus|
  {
    var c := s.cpus[i];
    && (NoLocks(pc) ==> c.held == {})
    && (pc.SleepUnlock? ==> c.held == {s.lockOf(pc.c)} && c.owes == {} && pc.c !in s.truth)
  }

  ghost predicate ModeOk(s: State, i: nat)
    requires i < |s.cpus|
  {
    var c := s.cpus[i];
    match c.mode
    case Idle => c.proc == None && (s.ptable == Some(i) <==> IrqPt(c.irq)) && (c.irq == None ==> c.held == {})
    case Run(p) =>
      && c.proc == Some(p) && p < |s.procs| && s.procs[p].on == Some(i)
      && (s.ptable == Some(i) <==> PtHeld(s.procs[p].pc) || IrqPt(c.irq))
      && if c.irq == None then PcLocks(s, i, s.procs[p].pc) else s.procs[p].pc.Body? || s.procs[p].pc.Reacquire?
    case Scan(at) =>
      c.proc == None && s.ptable == Some(i) && c.irq == None && c.held == {} && at <= |s.procs|
    case _ =>
      var p := c.mode.p;
      && c.proc == Some(p) && s.ptable == Some(i) && c.irq == None && c.held == {}
      && p < |s.procs| && s.procs[p].on == None
      && (c.mode.Picked? ==> s.procs[p].state == RUNNABLE)
      && (c.mode.Switch? ==> s.procs[p].state == RUNNING)
      && (c.mode.Back? ==> s.procs[p].state != RUNNING)
  }

  ghost predicate CpuOk(s: State, i: nat)
    requires i < |s.cpus|
  {
    LocksOk(s, i) && ModeOk(s, i)
  }

  /** A thread on CPU i. */
  ghost predicate ThreadOk(s: State, p: nat, i: nat)
    requires p < |s.procs|
  {
    var me := s.procs[p];
    && i < |s.cpus| && s.cpus[i].mode == Run(p)
    && !me.pc.Parked?
    && (match me.pc
        case Swtch(Release(_)) => me.state == RUNNABLE
        case Swtch(Tidy(ch)) => me.state == SLEEPING && me.chan == ch && ch != NoChan
        case Swtch(Dead) => me.state == ZOMBIE
        case _ => me.state == RUNNING)
    && (me.pc.SleepChan? ==> me.pc.ch != NoChan)
    && (me.pc.SleepState? ==> me.pc.ch != NoChan && me.chan == me.pc.ch)
  }

  /** A thread that is switched out, or not started. */
  ghost predicate ParkedOk(s: State, p: nat)
    requires p < |s.procs|
  {
    var me := s.procs[p];
    && me.pc.Parked?
    && match me.state
       case UNUSED => true
       case EMBRYO => me.pc.k == Release(None)
       case SLEEPING => me.pc.k == Tidy(me.chan) && me.chan != NoChan
       case RUNNABLE => me.pc.k != Dead
       case RUNNING =>
         me.pc.k != Dead && s.ptable.Some? && s.ptable.value < |s.cpus| && s.cpus[s.ptable.value].mode == Switch(p)
       case ZOMBIE => me.pc.k == Dead
  }

  ghost predicate ProcOk(s: State, p: nat)
    requires p < |s.procs|
  {
    match s.procs[p].on
    case None => ParkedOk(s, p)
    case Some(i) => ThreadOk(s, p, i)
  }

  ghost predicate EmbryoOk(s: State, p: nat)
    requires p < |s.procs|
  {
    var e := s.procs[p].embryo;
    e.Some? ==>
      && e.value < |s.procs| && s.procs[e.value].state == EMBRYO
      && forall q | 0 <= q < |s.procs| && q != p :: s.procs[q].embryo != e
  }

  ghost predicate LockOk(s: State, l: nat)
    requires l in s.locks
  {
    s.locks[l] < |s.cpus| && l in s.cpus[s.locks[l]].held
  }

  /** Asleep on ch, or past the last check of the condition on the way there. */
  predicate Dozing(p: Proc, ch: Chan)
  {
    p.pc == SleepChan(ch) || p.pc == SleepState(ch) || (p.state == SLEEPING && p.chan == ch)
  }

  /** A zombie, or past the wakeup of its parent on the way there. */
  predicate Dying(p: Proc)
  {
    p.state == ZOMBIE || p.pc.ExitAdopt? || p.pc.ExitZombie?
  }

  /** Whoever holds c's lock has yet to call wakeup. */
  ghost predicate WakeupDue(s: State, c: nat)
  {
    var l := s.lockOf(c);
    l in s.locks && s.locks[l] < |s.cpus| && c in s.cpus[s.locks[l]].owes
  }

  ghost predicate CondOk(s: State, p: nat)
    requires p < |s.procs|
  {
    forall c | c in s.truth && Dozing(s.procs[p], Cond(c)) :: WakeupDue(s, c)
  }

  /** Nobody dozing in wait() has a zombie child, or one about to become one. */
  ghost predicate ChildOk(s: State, q: nat)
    requires q < |s.procs|
  {
    var kid := s.procs[q];
    && kid.parent != Some(q)
    && (kid.parent.Some? && kid.parent.value < |s.procs| &&
        Dying(kid) ==>
          !Dozing(s.procs[kid.parent.value], Self(kid.parent.value)))
  }

  /** Only process p itself sleeps on channel Self(p), and only in wait(). */
  ghost predicate SelfOk(s: State, p: nat)
    requires p < |s.procs|
  {
    forall x | Dozing(s.procs[p], Self(x)) :: x == p
  }

  /** initproc never exits and is nobody's child. */
  ghost predicate InitOk(s: State)
  {
    && s.init < |s.procs|
    && var p := s.procs[s.init];
       && p.parent == None && p.state != EMBRYO && p.state != UNUSED && !Dying(p) && !p.pc.ExitWakeup?
  }

  /** Who holds which lock, and who runs where. */
  ghost predicate Structural(s: State)
  {
    && InitOk(s)
    && (s.ptable.Some? ==> s.ptable.value < |s.cpus|)
    && (forall i | 0 <= i < |s.cpus| :: CpuOk(s, i))
    && (forall p | 0 <= p < |s.procs| :: ProcOk(s, p))
    && (forall l | l in s.locks :: LockOk(s, l))
  }

  /** No wakeup is lost, no embryo is shared. */
  ghost predicate Sleepers(s: State)
  {
    && (forall p | 0 <= p < |s.procs| :: EmbryoOk(s, p))
    && (forall p | 0 <= p < |s.procs| :: CondOk(s, p))
    && (forall q | 0 <= q < |s.procs| :: ChildOk(s, q))
    && (forall p | 0 <= p < |s.procs| :: SelfOk(s, p))
  }

  ghost predicate Inv(s: State)
  {
    Structural(s) && Sleepers(s)
  }

  // ---------------------------------------------------------------
  // Each kind of update keeps the invariant.

  /** CPU i runs process p, which holds ptable.lock and is not switching. */
  ghost predicate Acting(s: State, i: nat, p: nat)
  {
    && i < |s.cpus| && p < |s.procs|
    && s.cpus[i].mode == Run(p) && s.ptable == Some(i) && s.cpus[i].irq == None
    && !s.procs[p].pc.Swtch?
  }

  /** A process or a handler on CPU i works on the table. */
  ghost predicate Busy(s: State, i: nat)
  {
    && i < |s.cpus| && s.ptable == Some(i)
    && (s.cpus[i].irq.Some? || (s.cpus[i].mode.Run? && Acting(s, i, s.cpus[i].mode.p)))
  }

  /** Process p rewrites its own entry as r. */
  lemma MeKeeps(s: State, i: nat, p: nat, r: Proc)
    requires Inv(s) && Acting(s, i, p)
    requires r.on == s.procs[p].on && r.parent == s.procs[p].parent && PtHeld(r.pc) && PcLocks(s, i, r.pc)
    requires p == s.init ==> !Dying(r) && !r.pc.ExitWakeup?
    requires var t := SetProc(s, p, r);
             ThreadOk(t, p, i) && EmbryoOk(t, p) && CondOk(t, p) && ChildOk(t, p) && SelfOk(t, p)
    requires r.embryo != s.procs[p].embryo ==>
               r.embryo.Some? && forall q | 0 <= q < |s.procs| :: s.procs[q].embryo != r.embryo
    requires Dozing(r, Self(p)) && !Dozing(s.procs[p], Self(p)) ==>
               forall q | 0 <= q < |s.procs| :: s.procs[q].parent == Some(p) ==> !Dying(s.procs[q])
    ensures Inv(SetProc(s, p, r))
  {
    var t := SetProc(s, p, r);
    assert CpuOk(s, i);
    assert ProcOk(s, p);
    forall j | 0 <= j < |t.cpus| ensures CpuOk(t, j) { assert CpuOk(s, j); }
    forall q | 0 <= q < |t.procs| ensures ProcOk(t, q) { assert ProcOk(s, q); }
    forall q | 0 <= q < |t.procs| ensures EmbryoOk(t, q) { assert EmbryoOk(s, q); }
    forall q | 0 <= q < |t.procs| ensures ChildOk(t, q) { assert ChildOk(s, q); }
    forall q | 0 <= q < |t.procs| ensures CondOk(t, q) { assert CondOk(s, q); }
    forall q | 0 <= q < |t.procs| ensures SelfOk(t, q) { assert SelfOk(s, q); }
    forall l | l in t.locks ensures LockOk(t, l) { assert LockOk(s, l); }
  }

  /** While CPU i works on the table, no other thread is at a point that needs
      ptable.lock. */
  lemma OnlyActor(s: State, i: nat, q: nat)
    requires Structural(s) && Busy(s, i) && q < |s.procs|
    ensures PtHeld(s.procs[q].pc) ==> Acting(s, i, q) && s.procs[q].state == RUNNING
  {
    assert CpuOk(s, i) && ProcOk(s, q);
    var on := s.procs[q].on;
    assert on.Some? ==> CpuOk(s, on.value);
  }

  /** q's entry after a loop over the table: perhaps woken, killed or adopted. */
  ghost predicate Nudged(q: Proc, r: Proc)
  {
    && r == q.(state := r.state, killed := r.killed, parent := r.parent)
    && (r.state == q.state || (q.state == SLEEPING && r.state == RUNNABLE))
  }

  /** CPU i runs such a loop. */
  lemma TableStructural(s: State, i: nat, r: seq<Proc>)
    requires Structural(s) && Busy(s, i)
    requires |r| == |s.procs| && forall q | 0 <= q < |r| :: Nudged(s.procs[q], r[q])
    requires r[s.init].parent == None
    ensures Structural(s.(procs := r))
  {
    var t := s.(procs := r);
    assert ProcOk(s, s.init) && Nudged(s.procs[s.init], r[s.init]);
    forall j | 0 <= j < |t.cpus| ensures CpuOk(t, j) {
      assert CpuOk(s, j) && CpuOk(s, i);
      var m := s.cpus[j].mode;
      if m.Run? { assert Nudged(s.procs[m.p], r[m.p]); }
    }
    forall q | 0 <= q < |t.procs| ensures ProcOk(t, q) {
      assert ProcOk(s, q) && Nudged(s.procs[q], r[q]);
      OnlyActor(s, i, q);
    }
    forall l | l in t.locks ensures LockOk(t, l) { assert LockOk(s, l); }
  }

  lemma TableKeeps(s: State, i: nat, r: seq<Proc>)
    requires Inv(s) && Busy(s, i)
    requires |r| == |s.procs| && forall q | 0 <= q < |r| :: Nudged(s.procs[q], r[q])
    requires forall q | 0 <= q < |r| :: ChildOk(s.(procs := r), q)
    requires r[s.init].parent == None
    ensures Inv(s.(procs := r)) && Busy(s.(procs := r), i)
    ensures forall p: nat :: Acting(s, i, p) ==> Acting(s.(procs := r), i, p)
  {
    var t := s.(procs := r);
    TableStructural(s, i, r);
    var m := s.cpus[i].mode;
    if m.Run? && m.p < |r| { assert Nudged(s.procs[m.p], r[m.p]); }
    forall q | 0 <= q < |t.procs| ensures EmbryoOk(t, q) {
      assert EmbryoOk(s, q) && Nudged(s.procs[q], r[q]);
      var e := s.procs[q].embryo;
      assert e.Some? ==> Nudged(s.procs[e.value], r[e.value]);
      forall x | 0 <= x < |t.procs| && x != q && e.Some? ensures t.procs[x].embryo != e {
        assert Nudged(s.procs[x], r[x]);
      }
    }
    forall q | 0 <= q < |t.procs| ensures CondOk(t, q) {
      assert CondOk(s, q) && Nudged(s.procs[q], r[q]);
      forall x | x in t.truth && Dozing(t.procs[q], Cond(x)) ensures WakeupDue(t, x) { assert WakeupDue(s, x); }
    }
    forall q | 0 <= q < |t.procs| ensures SelfOk(t, q) { assert SelfOk(s, q) && Nudged(s.procs[q], r[q]); }
  }

  /** The entry of a process that is not schedulable is rewritten as r. */
  lemma SlotKeeps(s: State, z: nat, r: Proc)
    requires Inv(s) && z < |s.procs| && z != s.init
    requires s.procs[z].state == ZOMBIE || s.procs[z].state == UNUSED || s.procs[z].state == EMBRYO
    requires s.procs[z].on == None && r.on == None && r.embryo == s.procs[z].embryo
    requires r.state == UNUSED || r.state == EMBRYO || r.state == RUNNABLE
    requires r.state != EMBRYO ==> forall q | 0 <= q < |s.procs| :: s.procs[q].embryo != Some(z)
    requires ParkedOk(SetProc(s, z, r), z) && r.parent != Some(z)
    ensures Inv(SetProc(s, z, r))
  {
    var t := SetProc(s, z, r);
    assert ProcOk(s, z);
    forall j | 0 <= j < |t.cpus| ensures CpuOk(t, j) { assert CpuOk(s, j); }
    forall q | 0 <= q < |t.procs| ensures ProcOk(t, q) { assert ProcOk(s, q); }
    forall q | 0 <= q < |t.procs| ensures EmbryoOk(t, q) { assert EmbryoOk(s, q); }
    forall q | 0 <= q < |t.procs| ensures ChildOk(t, q) { assert ChildOk(s, q); }
    forall q | 0 <= q < |t.procs| ensures CondOk(t, q) { assert CondOk(s, q); }
    forall q | 0 <= q < |t.procs| ensures SelfOk(t, q) { assert SelfOk(s, q); }
    forall l | l in t.locks ensures LockOk(t, l) { assert LockOk(s, l); }
  }

  /** An entry changed in a way no sleeper can notice. */
  ghost predicate Calm(q: Proc, r: Proc)
  {
    && r.parent == q.parent && (r.embryo == q.embryo || r.embryo == None)
    && (q.state == EMBRYO ==> r.state == EMBRYO)
    && (Dying(r) ==> Dying(q))
    && forall ch :: Dozing(r, ch) ==> Dozing(q, ch)
  }

  lemma CalmKeeps(s: State, t: State)
    requires Sleepers(s) && |t.procs| == |s.procs| && t.lockOf == s.lockOf
    requires forall q | 0 <= q < |s.procs| :: Calm(s.procs[q], t.procs[q])
    requires forall c | c in t.truth && c in s.truth && WakeupDue(s, c) :: WakeupDue(t, c)
    requires forall c | c in t.truth && c !in s.truth :: WakeupDue(t, c)
    ensures Sleepers(t)
  {
    forall q | 0 <= q < |t.procs| ensures EmbryoOk(t, q) {
      assert EmbryoOk(s, q) && Calm(s.procs[q], t.procs[q]);
      var e := t.procs[q].embryo;
      assert e.Some? ==> Calm(s.procs[e.value], t.procs[e.value]);
      forall x | 0 <= x < |t.procs| && x != q && e.Some? ensures t.procs[x].embryo != e {
        assert Calm(s.procs[x], t.procs[x]);
      }
    }
    forall q | 0 <= q < |t.procs| ensures ChildOk(t, q) {
      assert ChildOk(s, q) && Calm(s.procs[q], t.procs[q]);
      var f := t.procs[q].parent;
      assert f.Some? && f.value < |t.procs| ==> Calm(s.procs[f.value], t.procs[f.value]);
    }
    forall q | 0 <= q < |t.procs| ensures CondOk(t, q) { assert CondOk(s, q) && Calm(s.procs[q], t.procs[q]); }
    forall q | 0 <= q < |t.procs| ensures SelfOk(t, q) { assert SelfOk(s, q) && Calm(s.procs[q], t.procs[q]); }
  }

  /** A CPU's own fields change, but for its process and its mode. */
  ghost predicate SameWork(a: Cpu, b: Cpu)
  {
    b.proc == a.proc && b.mode == a.mode
  }

  /** Locks, interrupts or conditions change on CPU i. */
  lemma CpuStructural(s: State, i: nat, t: State)
    requires Structural(s) && i < |s.cpus| && t.procs == s.procs && t.init == s.init && t.lockOf == s.lockOf
    requires |t.cpus| == |s.cpus| && t.cpus == s.cpus[i := t.cpus[i]] && SameWork(s.cpus[i], t.cpus[i])
    requires t.ptable == s.ptable || (s.ptable == None && t.ptable == Some(i))
          || (s.ptable == Some(i) && t.ptable == None)
    requires s.cpus[i].mode.Switch? ==> t.ptable == s.ptable
    requires forall l | l in s.locks && s.locks[l] != i :: l in t.locks && t.locks[l] == s.locks[l]
    requires forall l | l in t.locks && t.locks[l] != i :: l in s.locks && t.locks[l] == s.locks[l]
    requires forall c | c in t.truth && c !in s.truth :: s.lockOf(c) in s.cpus[i].held
    requires CpuOk(t, i) && forall l | l in t.locks && t.locks[l] == i :: LockOk(t, l)
    ensures Structural(t)
  {
    assert CpuOk(s, i);
    forall j | 0 <= j < |t.cpus| ensures CpuOk(t, j) { assert CpuOk(s, j); }
    forall q | 0 <= q < |t.procs| ensures ProcOk(t, q) { assert ProcOk(s, q); }
    forall l | l in t.locks ensures LockOk(t, l) { assert l in s.locks ==> LockOk(s, l); }
  }

  /** acquire(&ptable.lock) on entry to a routine of proc.c, from Body or, to
      yield, from where a handler interrupted the process. */
  lemma LockedStructural(s: State, i: nat, p: nat, pc: Pc, t: State)
    requires Structural(s) && i < |s.cpus| && p < |s.procs| && s.cpus[i].mode == Run(p) && s.cpus[i].irq == None
    requires s.procs[p].pc.Body? || s.procs[p].pc.Reacquire?
    requires Locked(s, i, p, pc) == Some(t)
    requires PtHeld(pc) && PcLocks(s, i, pc) && ThreadOk(t, p, i) && InitOk(t)
    ensures Structural(t)
  {
    assert CpuOk(s, i);
    assert ProcOk(s, p);
    forall j | 0 <= j < |t.cpus| ensures CpuOk(t, j) { assert CpuOk(s, j); }
    forall q | 0 <= q < |t.procs| ensures ProcOk(t, q) { assert ProcOk(s, q); }
    forall l | l in t.locks ensures LockOk(t, l) { assert l in s.locks ==> LockOk(s, l); }
  }

  /** release(&ptable.lock) on the way out. */
  lemma UnlockStructural(s: State, i: nat, p: nat, pc: Pc, t: State)
    requires Structural(s) && i < |s.cpus| && p < |s.procs| && s.cpus[i].mode == Run(p) && s.cpus[i].irq == None
    requires s.procs[p].pc.Unlock?
    requires pc == Body || (pc.Reacquire? && s.procs[p].pc == Unlock(Some(pc.c)))
    requires ReleasePt(s, i).Some?
    requires t == SetPc(ReleasePt(s, i).value, p, pc)
    ensures Structural(t)
  {
    assert CpuOk(s, i);
    assert ProcOk(s, p);
    forall j | 0 <= j < |t.cpus| ensures CpuOk(t, j) { assert CpuOk(s, j); }
    forall q | 0 <= q < |t.procs| ensures ProcOk(t, q) { assert ProcOk(s, q); }
    forall l | l in t.locks ensures LockOk(t, l) { assert l in s.locks ==> LockOk(s, l); }
  }

  /** sleep() lets go of lk once it holds ptable.lock. */
  lemma SleepUnlockStructural(s: State, i: nat, p: nat, c: nat, u: State, t: State)
    requires Structural(s) && i < |s.cpus| && p < |s.procs| && s.cpus[i].mode == Run(p) && s.cpus[i].irq == None
    requires s.procs[p].pc == SleepUnlock(c) && ReleaseLk(s, i, s.lockOf(c)) == Some(u)
    requires t == SetPc(u, p, SleepChan(Cond(c)))
    ensures Structural(t)
  {
    assert CpuOk(s, i);
    assert ProcOk(s, p);
    forall j | 0 <= j < |t.cpus| ensures CpuOk(t, j) { assert CpuOk(s, j); }
    forall q | 0 <= q < |t.procs| ensures ProcOk(t, q) { assert ProcOk(s, q); }
    forall l | l in t.locks ensures LockOk(t, l) { assert l in s.locks ==> LockOk(s, l); }
  }

  lemma IdleStructural(s: State, i: nat, t: State)
    requires Structural(s) && i < |s.cpus| && SchedulerStep(s, i) == Some(t)
    requires s.cpus[i].mode.Idle? && s.cpus[i].irq == None
    ensures Structural(t)
  {
    assert CpuOk(s, i);
    forall j | 0 <= j < |t.cpus| ensures CpuOk(t, j) { assert CpuOk(s, j); }
    forall q | 0 <= q < |t.procs| ensures ProcOk(t, q) { assert ProcOk(s, q); }
    forall l | l in t.locks ensures LockOk(t, l) { assert l in s.locks ==> LockOk(s, l); }
  }

  lemma ScanStructural(s: State, i: nat, t: State)
    requires Structural(s) && i < |s.cpus| && SchedulerStep(s, i) == Some(t)
    requires s.cpus[i].mode.Scan? && s.cpus[i].irq == None
    ensures Structural(t)
  {
    assert CpuOk(s, i);
    var at := s.cpus[i].mode.at;
    if at < |s.procs| {
      assert ProcOk(s, at);
      var on := s.procs[at].on;
      assert on.Some? ==> CpuOk(s, on.value);
    }
    forall j | 0 <= j < |t.cpus| ensures CpuOk(t, j) { assert CpuOk(s, j); }
    forall q | 0 <= q < |t.procs| ensures ProcOk(t, q) { assert ProcOk(s, q); }
    forall l | l in t.locks ensures LockOk(t, l) { assert l in s.locks ==> LockOk(s, l); }
  }

  lemma PickedStructural(s: State, i: nat, t: State)
    requires Structural(s) && i < |s.cpus| && SchedulerStep(s, i) == Some(t)
    requires s.cpus[i].mode.Picked? && s.cpus[i].irq == None
    ensures Structural(t)
  {
    assert CpuOk(s, i);
    assert ProcOk(s, s.cpus[i].mode.p);
    forall j | 0 <= j < |t.cpus| ensures CpuOk(t, j) { assert CpuOk(s, j); }
    forall q | 0 <= q < |t.procs| ensures ProcOk(t, q) { assert ProcOk(s, q); }
    forall l | l in t.locks ensures LockOk(t, l) { assert l in s.locks ==> LockOk(s, l); }
  }

  lemma SwitchStructural(s: State, i: nat, t: State)
    requires Structural(s) && i < |s.cpus| && SchedulerStep(s, i) == Some(t)
    requires s.cpus[i].mode.Switch? && s.cpus[i].irq == None
    ensures Structural(t)
  {
    assert CpuOk(s, i);
    assert ProcOk(s, s.cpus[i].mode.p);
    forall j | 0 <= j < |t.cpus| ensures CpuOk(t, j) { assert CpuOk(s, j); }
    forall q | 0 <= q < |t.procs| ensures ProcOk(t, q) { assert ProcOk(s, q); }
    forall l | l in t.locks ensures LockOk(t, l) { assert l in s.locks ==> LockOk(s, l); }
  }

  lemma BackStructural(s: State, i: nat, t: State)
    requires Structural(s) && i < |s.cpus| && SchedulerStep(s, i) == Some(t)
    requires s.cpus[i].mode.Back? && s.cpus[i].irq == None
    ensures Structural(t)
  {
    assert CpuOk(s, i);
    forall j | 0 <= j < |t.cpus| ensures CpuOk(t, j) { assert CpuOk(s, j); }
    forall q | 0 <= q < |t.procs| ensures ProcOk(t, q) { assert ProcOk(s, q); }
    forall l | l in t.locks ensures LockOk(t, l) { assert l in s.locks ==> LockOk(s, l); }
  }

  /** swtch from a process to its CPU's scheduler. */
  lemma SwtchStructural(s: State, i: nat, p: nat, k: Resume, t: State)
    requires Structural(s) && i < |s.cpus| && p < |s.procs| && s.cpus[i].mode == Run(p) && s.cpus[i].irq == None
    requires s.procs[p].pc == Swtch(k)
    requires t == SetMode(SetProc(s, p, s.procs[p].(pc := Parked(k), on := None)), i, Back(p))
    ensures Structural(t)
  {
    assert CpuOk(s, i);
    assert ProcOk(s, p);
    forall j | 0 <= j < |t.cpus| ensures CpuOk(t, j) { assert CpuOk(s, j); }
    forall q | 0 <= q < |t.procs| ensures ProcOk(t, q) { assert ProcOk(s, q); }
    forall l | l in t.locks ensures LockOk(t, l) { assert l in s.locks ==> LockOk(s, l); }
  }

  // ---------------------------------------------------------------
  // Every step of a process keeps the invariant.

  ghost predicate OnCpu(s: State, i: nat, p: nat)
  {
    i < |s.cpus| && p < |s.procs| && s.cpus[i].mode == Run(p) && s.cpus[i].irq == None
  }

  lemma OnCpuFacts(s: State, i: nat, p: nat)
    requires Inv(s) && OnCpu(s, i, p)
    ensures CpuOk(s, i) && ThreadOk(s, p, i) && EmbryoOk(s, p) && CondOk(s, p) && ChildOk(s, p) && SelfOk(s, p)
    ensures s.procs[p].on == Some(i)
    ensures PtHeld(s.procs[p].pc) && !s.procs[p].pc.Swtch? ==> Acting(s, i, p)
  {
    assert CpuOk(s, i);
    assert ProcOk(s, p);
  }

  /** p moves on to a point where, seen from outside, nothing has changed. */
  lemma PcKeeps(s: State, i: nat, p: nat, pc: Pc)
    requires Inv(s) && Acting(s, i, p)
    requires PtHeld(pc) && !pc.Swtch? && !pc.SleepUnlock? && !pc.SleepChan? && !pc.SleepState?
    requires PcLocks(s, i, pc)
    requires p == s.init ==> !pc.ExitAdopt? && !pc.ExitZombie? && !pc.ExitWakeup?
    requires ChildOk(SetPc(s, p, pc), p)
    ensures Inv(SetPc(s, p, pc))
  {
    OnCpuFacts(s, i, p);
    MeKeeps(s, i, p, s.procs[p].(pc := pc));
  }

  lemma YieldStateKeeps(s: State, i: nat, p: nat)
    requires Inv(s) && OnCpu(s, i, p) && s.procs[p].pc.YieldState?
    ensures Inv(SetProc(s, p, s.procs[p].(state := RUNNABLE, pc := Swtch(Release(s.procs[p].pc.again)))))
  {
    OnCpuFacts(s, i, p);
    MeKeeps(s, i, p, s.procs[p].(state := RUNNABLE, pc := Swtch(Release(s.procs[p].pc.again))));
  }

  lemma SleepChanKeeps(s: State, i: nat, p: nat, ch: Chan)
    requires Inv(s) && OnCpu(s, i, p) && s.procs[p].pc == SleepChan(ch)
    ensures Inv(SetProc(s, p, s.procs[p].(chan := ch, pc := SleepState(ch))))
  {
    OnCpuFacts(s, i, p);
    MeKeeps(s, i, p, s.procs[p].(chan := ch, pc := SleepState(ch)));
  }

  lemma SleepStateKeeps(s: State, i: nat, p: nat, ch: Chan)
    requires Inv(s) && OnCpu(s, i, p) && s.procs[p].pc == SleepState(ch)
    ensures Inv(SetProc(s, p, s.procs[p].(state := SLEEPING, pc := Swtch(Tidy(ch)))))
  {
    OnCpuFacts(s, i, p);
    MeKeeps(s, i, p, s.procs[p].(state := SLEEPING, pc := Swtch(Tidy(ch))));
  }

  lemma SleepTidyKeeps(s: State, i: nat, p: nat, pc: Pc)
    requires Inv(s) && OnCpu(s, i, p) && s.procs[p].pc.SleepTidy?
    requires pc.Unlock? || pc.WaitScan?
    ensures Inv(SetProc(s, p, s.procs[p].(chan := NoChan, pc := pc)))
  {
    OnCpuFacts(s, i, p);
    MeKeeps(s, i, p, s.procs[p].(chan := NoChan, pc := pc));
  }

  lemma ExitZombieKeeps(s: State, i: nat, p: nat)
    requires Inv(s) && OnCpu(s, i, p) && s.procs[p].pc.ExitZombie?
    ensures Inv(SetProc(s, p, s.procs[p].(state := ZOMBIE, pc := Swtch(Dead))))
  {
    OnCpuFacts(s, i, p);
    MeKeeps(s, i, p, s.procs[p].(state := ZOMBIE, pc := Swtch(Dead)));
  }

  /** wakeup1 wakes every dozer: nobody can be half way to sleep while
      somebody else holds ptable.lock. */
  lemma WakeAllKeeps(s: State, i: nat, ch: Chan)
    requires Inv(s) && Busy(s, i)
    requires forall p: nat :: Acting(s, i, p) ==> !Dozing(s.procs[p], ch)
    ensures var t := s.(procs := WakeAll(s.procs, ch));
            && Inv(t) && Busy(t, i)
            && (forall p: nat :: Acting(s, i, p) ==> Acting(t, i, p) && t.procs[p] == s.procs[p])
            && forall q | 0 <= q < |t.procs| :: !Dozing(t.procs[q], ch)
  {
    var r := WakeAll(s.procs, ch);
    var t := s.(procs := r);
    forall q | 0 <= q < |r| ensures ChildOk(t, q) { assert ChildOk(s, q); }
    TableKeeps(s, i, r);
    forall q | 0 <= q < |r| ensures !Dozing(r[q], ch) { OnlyActor(s, i, q); }
    forall p: nat | Acting(s, i, p) ensures t.procs[p] == s.procs[p] { assert ProcOk(s, p) && CpuOk(s, i); }
  }

  /** Once nobody dozes on it, a condition needs no wakeup. */
  lemma PayKeeps(s: State, i: nat, ch: Chan)
    requires Inv(s) && i < |s.cpus| && forall q | 0 <= q < |s.procs| :: !Dozing(s.procs[q], ch)
    ensures Inv(Pay(s, i, ch))
  {
    var t := Pay(s, i, ch);
    if ch.Cond? {
      assert CpuOk(s, i);
      CpuStructural(s, i, t);
      forall q | 0 <= q < |t.procs| ensures EmbryoOk(t, q) { assert EmbryoOk(s, q); }
      forall q | 0 <= q < |t.procs| ensures ChildOk(t, q) { assert ChildOk(s, q); }
      forall q | 0 <= q < |t.procs| ensures SelfOk(t, q) { assert SelfOk(s, q); }
      forall q | 0 <= q < |t.procs| ensures CondOk(t, q) {
        assert CondOk(s, q);
        forall x | x in t.truth && Dozing(t.procs[q], Cond(x)) ensures WakeupDue(t, x) { assert WakeupDue(s, x); }
      }
    }
  }

  lemma WakeupKeeps(s: State, i: nat, p: nat, ch: Chan)
    requires Inv(s) && OnCpu(s, i, p) && s.procs[p].pc == Wakeup(ch)
    ensures Inv(Pay(SetPc(s.(procs := WakeAll(s.procs, ch)), p, Unlock(None)), i, ch))
  {
    OnCpuFacts(s, i, p);
    WakeAllKeeps(s, i, ch);
    var u := s.(procs := WakeAll(s.procs, ch));
    assert Acting(u, i, p);
    OnCpuFacts(u, i, p);
    PcKeeps(u, i, p, Unlock(None));
    PayKeeps(SetPc(u, p, Unlock(None)), i, ch);
  }

  lemma KillKeeps(s: State, i: nat, p: nat, q: nat)
    requires Inv(s) && OnCpu(s, i, p) && s.procs[p].pc == Kill(q) && q < |s.procs|
    ensures Inv(SetPc(SetProc(s, q, KillOne(s.procs[q])), p, Unlock(None)))
  {
    OnCpuFacts(s, i, p);
    var r := s.procs[q := KillOne(s.procs[q])];
    var t := s.(procs := r);
    forall x | 0 <= x < |r| ensures ChildOk(t, x) { assert ChildOk(s, x); }
    TableKeeps(s, i, r);
    OnCpuFacts(t, i, p);
    PcKeeps(t, i, p, Unlock(None));
  }

  lemma ExitWakeupKeeps(s: State, i: nat, p: nat, adopt: bool)
    requires Inv(s) && OnCpu(s, i, p) && s.procs[p].pc == ExitWakeup(adopt)
    ensures var me := s.procs[p];
            var t := if me.parent.None? then s else s.(procs := WakeAll(s.procs, Self(me.parent.value)));
            Inv(SetPc(t, p, if adopt then ExitAdopt else ExitZombie))
  {
    OnCpuFacts(s, i, p);
    var f := s.procs[p].parent;
    var pc := if adopt then ExitAdopt else ExitZombie;
    if f.None? {
      PcKeeps(s, i, p, pc);
    } else {
      WakeAllKeeps(s, i, Self(f.value));
      var t := s.(procs := WakeAll(s.procs, Self(f.value)));
      assert Acting(t, i, p);
      OnCpuFacts(t, i, p);
      PcKeeps(t, i, p, pc);
    }
  }

  lemma ExitAdoptKeeps(s: State, i: nat, p: nat)
    requires Inv(s) && OnCpu(s, i, p) && s.procs[p].pc == ExitAdopt
    ensures Inv(SetPc(s.(procs := Adopt(s.procs, p, s.init)), p, ExitZombie))
  {
    OnCpuFacts(s, i, p);
    var r := Adopt(s.procs, p, s.init);
    var t := s.(procs := r);
    forall q | 0 <= q < |r| ensures ChildOk(t, q) {
      assert ChildOk(s, q);
      AdoptedChild(s, i, p, q);
    }
    TableKeeps(s, i, r);
    OnCpuFacts(t, i, p);
    PcKeeps(t, i, p, ExitZombie);
  }

  /** A zombie handed to init finds init awake. */
  lemma AdoptedChild(s: State, i: nat, p: nat, q: nat)
    requires Inv(s) && Acting(s, i, p) && s.procs[p].pc == ExitAdopt && q < |s.procs|
    ensures ChildOk(s.(procs := Adopt(s.procs, p, s.init)), q)
  {
    assert ChildOk(s, q) && ChildOk(s, p);
    OnlyActor(s, i, q);
    OnlyActor(s, i, s.init);
    if s.procs[q].parent == Some(p) && s.procs[q].state == ZOMBIE {
      assert HasZombieChild(s.procs, p);
    }
  }

  lemma WaitScanKeeps(s: State, i: nat, p: nat)
    requires Inv(s) && OnCpu(s, i, p) && s.procs[p].pc.WaitScan?
    ensures Inv(WaitStep(s, p))
  {
    OnCpuFacts(s, i, p);
    var z := FirstZombie(s.procs, p, 0);
    if z < |s.procs| {
      ReapKeeps(s, i, p, z);
      LeaveKeeps(SetProc(s, z, Reap(s.procs[z])), i, p);
    } else if !HasChild(s.procs, p) || s.procs[p].killed {
      LeaveKeeps(s, i, p);
    } else {
      WaitSleepKeeps(s, i, p);
    }
  }

  /** wait is done with the table. */
  lemma LeaveKeeps(s: State, i: nat, p: nat)
    requires Inv(s) && OnCpu(s, i, p) && s.procs[p].pc.WaitScan?
    ensures Inv(SetPc(s, p, Unlock(None)))
  {
    OnCpuFacts(s, i, p);
    PcKeeps(s, i, p, Unlock(None));
  }

  /** wait has children, none of them a zombie. */
  lemma WaitSleepKeeps(s: State, i: nat, p: nat)
    requires Inv(s) && OnCpu(s, i, p) && s.procs[p].pc.WaitScan? && FirstZombie(s.procs, p, 0) == |s.procs|
    ensures Inv(SetPc(s, p, SleepChan(Self(p))))
  {
    OnCpuFacts(s, i, p);
    forall q | 0 <= q < |s.procs| && s.procs[q].parent == Some(p) ensures !Dying(s.procs[q]) {
      OnlyActor(s, i, q);
    }
    MeKeeps(s, i, p, s.procs[p].(pc := SleepChan(Self(p))));
  }

  lemma ReapKeeps(s: State, i: nat, p: nat, z: nat)
    requires Inv(s) && Acting(s, i, p) && z < |s.procs| && s.procs[z].state == ZOMBIE
    ensures Inv(SetProc(s, z, Reap(s.procs[z]))) && z != p
  {
    OnCpuFacts(s, i, p);
    assert ProcOk(s, z);
    OnlyActor(s, i, z);
    forall q | 0 <= q < |s.procs| ensures s.procs[q].embryo != Some(z) { assert EmbryoOk(s, q); }
    SlotKeeps(s, z, Reap(s.procs[z]));
  }

  lemma AllocKeeps(s: State, i: nat, p: nat)
    requires Inv(s) && OnCpu(s, i, p) && s.procs[p].pc.Alloc?
    ensures Inv(AllocStep(s, p))
  {
    OnCpuFacts(s, i, p);
    var np := FirstIn(s.procs, UNUSED, 0);
    if np == |s.procs| {
      PcKeeps(s, i, p, Unlock(None));
    } else {
      EmbryoKeeps(s, i, p, np);
      var u := SetProc(s, np, s.procs[np].(state := EMBRYO, pc := Parked(Release(None))));
      OnCpuFacts(u, i, p);
      MeKeeps(u, i, p, u.procs[p].(pc := Unlock(None), embryo := Some(np)));
    }
  }

  /** The slot that allocproc takes is nobody's embryo. */
  lemma EmbryoKeeps(s: State, i: nat, p: nat, np: nat)
    requires Inv(s) && Acting(s, i, p) && np < |s.procs| && s.procs[np].state == UNUSED
    ensures Inv(SetProc(s, np, s.procs[np].(state := EMBRYO, pc := Parked(Release(None))))) && np != p
    ensures forall q | 0 <= q < |s.procs| :: s.procs[q].embryo != Some(np)
  {
    OnCpuFacts(s, i, p);
    assert ProcOk(s, np) && ChildOk(s, np);
    forall q | 0 <= q < |s.procs| ensures s.procs[q].embryo != Some(np) { assert EmbryoOk(s, q); }
    SlotKeeps(s, np, s.procs[np].(state := EMBRYO, pc := Parked(Release(None))));
  }

  lemma UnlockKeeps(s: State, i: nat, p: nat, pc: Pc, t: State)
    requires Inv(s) && OnCpu(s, i, p) && s.procs[p].pc.Unlock?
    requires pc == Body || (pc.Reacquire? && s.procs[p].pc == Unlock(Some(pc.c)))
    requires ReleasePt(s, i).Some? && t == SetPc(ReleasePt(s, i).value, p, pc)
    ensures Inv(t)
  {
    OnCpuFacts(s, i, p);
    UnlockStructural(s, i, p, pc, t);
    CalmKeeps(s, t);
  }

  /** CPU i runs code that may take and drop locks: a process at Body, or a
      handler. */
  ghost predicate Free(s: State, i: nat)
  {
    && i < |s.cpus|
    && (s.cpus[i].irq == Some(Serving)
        || (s.cpus[i].irq == None && s.cpus[i].mode.Run? && OnCpu(s, i, s.cpus[i].mode.p)
            && s.procs[s.cpus[i].mode.p].pc.Body?))
  }

  lemma AcquireKeeps(s: State, i: nat, l: nat, t: State)
    requires Inv(s) && Free(s, i) && AcquireLk(s, i, l) == Some(t)
    ensures Inv(t)
  {
    AcquireCpu(s, i, l, t);
    CpuStructural(s, i, t);
    CalmKeeps(s, t);
  }

  lemma AcquireCpu(s: State, i: nat, l: nat, t: State)
    requires Inv(s) && Free(s, i) && AcquireLk(s, i, l) == Some(t)
    ensures CpuOk(t, i) && forall x | x in t.locks && t.locks[x] == i :: LockOk(t, x)
  {
    assert CpuOk(s, i);
    assert l !in s.cpus[i].held;
    forall x | x in t.locks && t.locks[x] == i ensures LockOk(t, x) { assert x in s.locks ==> LockOk(s, x); }
  }

  lemma DropKeeps(s: State, i: nat, l: nat, t: State)
    requires Inv(s) && Free(s, i) && l in s.cpus[i].held && forall c | c in s.cpus[i].owes :: s.lockOf(c) != l
    requires ReleaseLk(s, i, l) == Some(t)
    ensures Inv(t)
  {
    assert CpuOk(s, i);
    forall x | x in t.locks && t.locks[x] == i ensures LockOk(t, x) { assert LockOk(s, x); }
    CpuStructural(s, i, t);
    CalmKeeps(s, t);
  }

  lemma MakeTrueKeeps(s: State, i: nat, c: nat)
    requires Inv(s) && Free(s, i) && s.lockOf(c) in s.cpus[i].held
    ensures Inv(SetCpu(s, i, s.cpus[i].(owes := s.cpus[i].owes + {c})).(truth := s.truth + {c}))
  {
    var t := SetCpu(s, i, s.cpus[i].(owes := s.cpus[i].owes + {c})).(truth := s.truth + {c});
    assert CpuOk(s, i);
    forall x | x in t.locks && t.locks[x] == i ensures LockOk(t, x) { assert LockOk(s, x); }
    CpuStructural(s, i, t);
    CalmKeeps(s, t);
  }

  lemma MakeFalseKeeps(s: State, i: nat, c: nat)
    requires Inv(s) && Free(s, i)
    ensures Inv(s.(truth := s.truth - {c}))
  {
    var t := s.(truth := s.truth - {c});
    assert CpuOk(s, i);
    forall x | x in t.locks && t.locks[x] == i ensures LockOk(t, x) { assert LockOk(s, x); }
    CpuStructural(s, i, t);
    CalmKeeps(s, t);
  }

  lemma LockStepKeeps(s: State, i: nat, call: Call, t: State)
    requires Inv(s) && Free(s, i) && LockStep(s, i, call) == Some(t)
    ensures Inv(t)
  {
    match call
    case Acquire(l) => AcquireKeeps(s, i, l, t);
    case Drop(l) => DropKeeps(s, i, l, t);
    case MakeTrue(c) => MakeTrueKeeps(s, i, c);
    case MakeFalse(c) => MakeFalseKeeps(s, i, c);
  }

  /** At the end of sleep, about to take lk again, a process is as good as at Body. */
  lemma AtBodyKeeps(s: State, i: nat, p: nat)
    requires Inv(s) && OnCpu(s, i, p) && s.procs[p].pc.Reacquire?
    ensures Inv(SetPc(s, p, Body))
  {
    var v := SetPc(s, p, Body);
    OnCpuFacts(s, i, p);
    forall j | 0 <= j < |v.cpus| ensures CpuOk(v, j) { assert CpuOk(s, j); }
    forall q | 0 <= q < |v.procs| ensures ProcOk(v, q) { assert ProcOk(s, q); }
    forall l | l in v.locks ensures LockOk(v, l) { assert LockOk(s, l); }
    CalmKeeps(s, v);
  }

  lemma ReacquireKeeps(s: State, i: nat, p: nat, c: nat, u: State)
    requires Inv(s) && OnCpu(s, i, p) && s.procs[p].pc == Reacquire(c) && AcquireLk(s, i, s.lockOf(c)) == Some(u)
    ensures Inv(SetPc(u, p, Body))
  {
    AtBodyKeeps(s, i, p);
    AcquireKeeps(SetPc(s, p, Body), i, s.lockOf(c), SetPc(u, p, Body));
  }

  /** sleep() lets go of lk only once it holds ptable.lock; the condition was
      false until then, so no wakeup has been missed. */
  lemma SleepUnlockKeeps(s: State, i: nat, p: nat, c: nat, u: State)
    requires Inv(s) && OnCpu(s, i, p) && s.procs[p].pc == SleepUnlock(c) && ReleaseLk(s, i, s.lockOf(c)) == Some(u)
    ensures Inv(SetPc(u, p, SleepChan(Cond(c))))
  {
    var t := SetPc(u, p, SleepChan(Cond(c)));
    OnCpuFacts(s, i, p);
    SleepUnlockStructural(s, i, p, c, u, t);
    forall q | 0 <= q < |t.procs| ensures EmbryoOk(t, q) { assert EmbryoOk(s, q); }
    forall q | 0 <= q < |t.procs| ensures ChildOk(t, q) { assert ChildOk(s, q); }
    forall q | 0 <= q < |t.procs| ensures SelfOk(t, q) { assert SelfOk(s, q); }
    forall q | 0 <= q < |t.procs| ensures CondOk(t, q) {
      assert CondOk(s, q);
      forall x | x in t.truth && Dozing(t.procs[q], Cond(x)) ensures WakeupDue(t, x) {
        assert WakeupDue(s, x);
      }
    }
  }

  /** Points at which a call takes ptable.lock. */
  predicate IsEntry(pc: Pc)
  {
    pc.YieldState? || pc.SleepUnlock? || pc.Wakeup? || pc.Kill? || pc.ExitWakeup? || pc.WaitScan? || pc.Alloc?
  }

  lemma LockedKeeps(s: State, i: nat, p: nat, pc: Pc, t: State)
    requires Inv(s) && OnCpu(s, i, p) && (s.procs[p].pc.Body? || s.procs[p].pc.Reacquire?)
    requires Locked(s, i, p, pc) == Some(t) && IsEntry(pc) && PcLocks(s, i, pc)
    requires pc.ExitWakeup? ==> p != s.init
    ensures Inv(t)
  {
    OnCpuFacts(s, i, p);
    LockedStructural(s, i, p, pc, t);
    CalmKeeps(s, t);
  }

  lemma SetParentKeeps(s: State, i: nat, p: nat)
    requires Inv(s) && OnCpu(s, i, p) && s.procs[p].pc == Body && s.procs[p].embryo.Some?
    ensures var e := s.procs[p].embryo.value;
            e < |s.procs| && Inv(SetProc(s, e, s.procs[e].(parent := Some(p))))
  {
    OnCpuFacts(s, i, p);
    var e := s.procs[p].embryo.value;
    assert ProcOk(s, e);
    SlotKeeps(s, e, s.procs[e].(parent := Some(p)));
  }

  /** fork() starts or frees its child without ptable.lock: safe, because no
      other thread acts on an embryo. */
  lemma FinishChildKeeps(s: State, i: nat, p: nat, e: nat, st: ProcState)
    requires Inv(s) && OnCpu(s, i, p) && s.procs[p].pc == Body && (st == RUNNABLE || st == UNUSED)
    requires e < |s.procs| && s.procs[p].embryo == Some(e)
    ensures Inv(FinishChild(s, p, e, st))
  {
    OnCpuFacts(s, i, p);
    var t := FinishChild(s, p, e, st);
    assert ProcOk(s, e);
    assert ChildOk(s, e);
    var u := SetProc(s, p, s.procs[p].(embryo := None));
    DropEmbryoKeeps(s, i, p);
    forall q | 0 <= q < |u.procs| ensures u.procs[q].embryo != Some(e) { assert EmbryoOk(s, p); }
    SlotKeeps(u, e, u.procs[e].(state := st));
    assert t.procs == u.procs[e := u.procs[e].(state := st)];
  }

  lemma DropEmbryoKeeps(s: State, i: nat, p: nat)
    requires Inv(s) && OnCpu(s, i, p) && s.procs[p].pc == Body
    ensures Inv(SetProc(s, p, s.procs[p].(embryo := None)))
  {
    OnCpuFacts(s, i, p);
    var u := SetProc(s, p, s.procs[p].(embryo := None));
    forall j | 0 <= j < |u.cpus| ensures CpuOk(u, j) { assert CpuOk(s, j); }
    forall q | 0 <= q < |u.procs| ensures ProcOk(u, q) { assert ProcOk(s, q); }
    forall l | l in u.locks ensures LockOk(u, l) { assert LockOk(s, l); }
    CalmKeeps(s, u);
  }

  lemma CallKeeps(s: State, i: nat, p: nat, call: Call, t: State)
    requires Inv(s) && OnCpu(s, i, p)
    requires CallStep(s, i, p, call) == Some(t)
    ensures Inv(t)
  {
    if call.Acquire? || call.Drop? || call.MakeTrue? || call.MakeFalse? {
      LockStepKeeps(s, i, call, t);
    } else if call.SetParent? {
      SetParentKeeps(s, i, p);
    } else if call.StartChild? || call.FreeChild? {
      FinishChildKeeps(s, i, p, s.procs[p].embryo.value, if call.StartChild? then RUNNABLE else UNUSED);
    } else {
      LockedKeeps(s, i, p, EntryPc(s, i, p, call).value, t);
    }
  }

  lemma SwtchKeeps(s: State, i: nat, p: nat, k: Resume, t: State)
    requires Inv(s) && OnCpu(s, i, p) && s.procs[p].pc == Swtch(k)
    requires t == SetMode(SetProc(s, p, s.procs[p].(pc := Parked(k), on := None)), i, Back(p))
    ensures Inv(t)
  {
    OnCpuFacts(s, i, p);
    SwtchStructural(s, i, p, k, t);
    CalmKeeps(s, t);
  }

  lemma SleepStepKeeps(s: State, i: nat, p: nat, t: State)
    requires Inv(s) && OnCpu(s, i, p)
    requires SleepStep(s, i, p) == Some(t)
    ensures Inv(t)
  {
    OnCpuFacts(s, i, p);
    match s.procs[p].pc
    case YieldState(again) => YieldStateKeeps(s, i, p);
    case SleepUnlock(c) => SleepUnlockKeeps(s, i, p, c, ReleaseLk(s, i, s.lockOf(c)).value);
    case SleepChan(ch) => SleepChanKeeps(s, i, p, ch);
    case SleepState(ch) => SleepStateKeeps(s, i, p, ch);
    case Swtch(k) => SwtchKeeps(s, i, p, k, t);
    case SleepTidy(ch) => SleepTidyKeeps(s, i, p, t.procs[p].pc);
    case Unlock(again) => UnlockKeeps(s, i, p, t.procs[p].pc, t);
    case Reacquire(c) => ReacquireKeeps(s, i, p, c, AcquireLk(s, i, s.lockOf(c)).value);
  }

  lemma TableStepKeeps(s: State, i: nat, p: nat)
    requires Inv(s) && OnCpu(s, i, p) && OnTable(s.procs[p].pc)
    ensures Inv(TableStep(s, i, p))
  {
    OnCpuFacts(s, i, p);
    match s.procs[p].pc
    case Wakeup(ch) => WakeupKeeps(s, i, p, ch);
    case Kill(q) => if q < |s.procs| { KillKeeps(s, i, p, q); } else { PcKeeps(s, i, p, Unlock(None)); }
    case ExitWakeup(adopt) => ExitWakeupKeeps(s, i, p, adopt);
    case ExitAdopt => ExitAdoptKeeps(s, i, p);
    case ExitZombie => ExitZombieKeeps(s, i, p);
    case WaitScan => WaitScanKeeps(s, i, p);
    case Alloc => AllocKeeps(s, i, p);
  }

  lemma SchedulerStructural(s: State, i: nat, t: State)
    requires Structural(s) && i < |s.cpus| && s.cpus[i].irq == None
    requires SchedulerStep(s, i) == Some(t)
    ensures Structural(t)
  {
    match s.cpus[i].mode
    case Idle => IdleStructural(s, i, t);
    case Scan(at) => ScanStructural(s, i, t);
    case Picked(p) => PickedStructural(s, i, t);
    case Switch(p) => SwitchStructural(s, i, t);
    case Back(p) => BackStructural(s, i, t);
  }

  lemma SchedulerKeeps(s: State, i: nat, t: State)
    requires Inv(s) && i < |s.cpus| && s.cpus[i].irq == None
    requires SchedulerStep(s, i) == Some(t)
    ensures Inv(t)
  {
    SchedulerStructural(s, i, t);
    assert CpuOk(s, i);
    forall q | 0 <= q < |s.procs| ensures Calm(s.procs[q], t.procs[q]) {}
    forall c | c in t.truth && WakeupDue(s, c) ensures WakeupDue(t, c) {}
    CalmKeeps(s, t);
  }

  // ---------------------------------------------------------------
  // Interrupts.

  lemma InterruptsKeep(s: State, i: nat, on: bool)
    requires Inv(s) && i < |s.cpus| && s.cpus[i].ncli == 0 && s.cpus[i].irq == None
    ensures Inv(SetCpu(s, i, s.cpus[i].(intr := on)))
  {
    var t := SetCpu(s, i, s.cpus[i].(intr := on));
    assert CpuOk(s, i);
    forall x | x in s.locks ensures s.locks[x] != i { assert LockOk(s, x); }
    CpuStructural(s, i, t);
    CalmKeeps(s, t);
  }

  /** Interrupts are on only where no lock is held: over an idle scheduler, or over
      a process outside proc.c or between the two locks at the end of sleep. */
  lemma DeliverKeeps(s: State, i: nat)
    requires Inv(s) && i < |s.cpus| && s.cpus[i].intr && s.cpus[i].irq == None
    ensures Inv(SetCpu(s, i, s.cpus[i].(intr := false, irq := Some(Serving))))
    ensures s.ptable != Some(i) && forall l | l in s.locks :: s.locks[l] != i
  {
    var t := SetCpu(s, i, s.cpus[i].(intr := false, irq := Some(Serving)));
    assert CpuOk(s, i);
    forall l | l in s.locks ensures s.locks[l] != i { assert LockOk(s, l); }
    var m := s.cpus[i].mode;
    if m.Run? { assert ProcOk(s, m.p); }
    CpuStructural(s, i, t);
    CalmKeeps(s, t);
  }

  lemma HandlerEndKeeps(s: State, i: nat, on: bool, t: State)
    requires Inv(s) && i < |s.cpus| && HandlerEnd(s, i, on) == Some(t)
    ensures Inv(t)
  {
    assert CpuOk(s, i);
    forall l | l in t.locks ensures LockOk(t, l) { assert LockOk(s, l); }
    CpuStructural(s, i, t);
    CalmKeeps(s, t);
  }

  lemma HandlerYieldKeeps(s: State, i: nat, t: State)
    requires Inv(s) && i < |s.cpus| && HandlerYield(s, i) == Some(t)
    ensures Inv(t)
  {
    var u, p := HandlerEnd(s, i, false).value, s.cpus[i].mode.p;
    HandlerEndKeeps(s, i, false, u);
    assert CpuOk(s, i) && CpuOk(u, i);
    LockedKeeps(u, i, p, t.procs[p].pc, t);
  }

  lemma HandlerCallKeeps(s: State, i: nat, call: Call, t: State)
    requires Inv(s) && i < |s.cpus| && HandlerCall(s, i, call) == Some(t)
    ensures Inv(t)
  {
    if !call.WakeupOn? {
      LockStepKeeps(s, i, call, t);
    } else {
      assert CpuOk(s, i);
      forall x | x in t.locks && t.locks[x] == i ensures LockOk(t, x) { assert LockOk(s, x); }
      CpuStructural(s, i, t);
      CalmKeeps(s, t);
    }
  }

  /** The handler moves on; seen from outside nothing has changed. */
  lemma IrqMoves(s: State, i: nat, irq: Irq)
    requires Inv(s) && i < |s.cpus| && IrqPt(s.cpus[i].irq) && IrqPt(Some(irq))
    ensures Inv(SetCpu(s, i, s.cpus[i].(irq := Some(irq))))
  {
    var t := SetCpu(s, i, s.cpus[i].(irq := Some(irq)));
    assert CpuOk(s, i);
    forall x | x in t.locks && t.locks[x] == i ensures LockOk(t, x) { assert LockOk(s, x); }
    CpuStructural(s, i, t);
    CalmKeeps(s, t);
  }

  lemma HandlerWakes(s: State, i: nat, ch: Chan)
    requires Inv(s) && i < |s.cpus| && s.cpus[i].irq == Some(Waking(ch))
    ensures var t := Pay(s.(procs := WakeAll(s.procs, ch)), i, ch);
            Inv(SetCpu(t, i, t.cpus[i].(irq := Some(Woken))))
  {
    assert CpuOk(s, i);
    WakeAllKeeps(s, i, ch);
    var u := s.(procs := WakeAll(s.procs, ch));
    PayKeeps(u, i, ch);
    IrqMoves(Pay(u, i, ch), i, Woken);
  }

  lemma HandlerStepKeeps(s: State, i: nat, t: State)
    requires Inv(s) && i < |s.cpus| && HandlerStep(s, i) == Some(t)
    ensures Inv(t)
  {
    match s.cpus[i].irq
    case Some(Waking(ch)) => HandlerWakes(s, i, ch);
    case Some(Woken) =>
      assert CpuOk(s, i);
      forall x | x in t.locks && t.locks[x] == i ensures LockOk(t, x) { assert LockOk(s, x); }
      CpuStructural(s, i, t);
      CalmKeeps(s, t);
  }

  // ---------------------------------------------------------------
  // Whole runs.

  /** After boot: initproc is runnable, every other slot unused, every CPU idle. */
  ghost predicate Boot(s: State)
  {
    && s.init < |s.procs| && s.ptable == None && s.locks == map[]
    && (forall i | 0 <= i < |s.cpus| :: s.cpus[i] == Cpu(None, Idle, 0, s.cpus[i].intr, None, {}, {}))
    && (forall p | 0 <= p < |s.procs| ::
          var r := s.procs[p];
          && r.state == (if p == s.init then RUNNABLE else UNUSED)
          && r.pc == Parked(Release(None)) && r.on == None && r.parent == None && r.embryo == None)
  }

  /** The state after a sequence of actions, if all are enabled. */
  function After(s: State, actions: seq<Action>): Option<State>
  {
    if actions == [] then Some(s)
    else
      match After(s, actions[..|actions| - 1])
      case None => None
      case Some(t) => Step(t, actions[|actions| - 1])
  }

  lemma BootInv(s: State)
    requires Boot(s)
    ensures Inv(s)
  {
  }

  lemma StepKeeps(s: State, a: Action, t: State)
    requires Inv(s) && Step(s, a) == Some(t)
    ensures Inv(t)
  {
    match a
    case SchedStep(i) => SchedulerKeeps(s, i, t);
    case KernelStep(i) =>
      var p := s.cpus[i].mode.p;
      if OnTable(s.procs[p].pc) {
        TableStepKeeps(s, i, p);
      } else {
        SleepStepKeeps(s, i, p, t);
      }
    case Begin(i, call) => CallKeeps(s, i, s.cpus[i].mode.p, call, t);
    case Interrupts(i, on) => InterruptsKeep(s, i, on);
    case Deliver(i) => DeliverKeeps(s, i);
    case IrqCall(i, call) => HandlerCallKeeps(s, i, call, t);
    case IrqStep(i) => HandlerStepKeeps(s, i, t);
    case Iret(i) => HandlerEndKeeps(s, i, true, t);
    case IrqYield(i) => HandlerYieldKeeps(s, i, t);
  }

  lemma {:induction false} RunInv(s: State, actions: seq<Action>, t: State)
    requires Boot(s) && After(s, actions) == Some(t)
    ensures Inv(t)
  {
    if actions == [] {
      BootInv(s);
    } else {
      var k := |actions| - 1;
      RunInv(s, actions[..k], After(s, actions[..k]).value);
      StepKeeps(After(s, actions[..k]).value, actions[k], t);
    }
  }

  /** In every reachable state with ptable.lock free, the running processes
      are exactly the CPUs' current ones, each on one CPU. */
  lemma RunningIsCurrent(s: State, actions: seq<Action>, t: State, p: nat)
    requires Boot(s) && After(s, actions) == Some(t)
    requires t.ptable == None && p < |t.procs|
    ensures t.procs[p].state == RUNNING <==> exists i | 0 <= i < |t.cpus| :: t.cpus[i].proc == Some(p)
    ensures forall i, j | 0 <= i < |t.cpus| && 0 <= j < |t.cpus| ::
              t.cpus[i].proc == Some(p) == t.cpus[j].proc ==> i == j
  {
    RunInv(s, actions, t);
    assert ProcOk(t, p);
    var on := t.procs[p].on;
    if on.Some? {
      assert CpuOk(t, on.value);
    }
    forall i | 0 <= i < |t.cpus| && t.cpus[i].proc == Some(p) ensures on == Some(i) { assert CpuOk(t, i); }
  }

  /** No lost wakeups: with ptable.lock and c's lock free, nobody sleeps on c
      while c is true. */
  lemma NoLostWakeup(s: State, actions: seq<Action>, t: State, p: nat, c: nat)
    requires Boot(s) && After(s, actions) == Some(t)
    requires t.ptable == None && t.lockOf(c) !in t.locks
    requires p < |t.procs| && t.procs[p].state == SLEEPING && t.procs[p].chan == Cond(c)
    ensures c !in t.truth
  {
    RunInv(s, actions, t);
    assert CondOk(t, p);
    assert Dozing(t.procs[p], Cond(c));
  }

  /** With ptable.lock free, a process asleep in wait() has no zombie child. */
  lemma NoZombieMissed(s: State, actions: seq<Action>, t: State, p: nat, q: nat)
    requires Boot(s) && After(s, actions) == Some(t)
    requires t.ptable == None && p < |t.procs| && q < |t.procs|
    requires t.procs[p].state == SLEEPING && t.procs[p].chan.Self? && t.procs[q].parent == Some(p)
    ensures t.procs[q].state != ZOMBIE
  {
    RunInv(s, actions, t);
    assert SelfOk(t, p) && ChildOk(t, q);
    assert Dozing(t.procs[p], t.procs[p].chan);
  }

  /** sched() never panics, and never runs with a second lock held; a thread
      that has exited is never switched to again ("zombie exit"). */
  lemma SchedNeverPanics(s: State, actions: seq<Action>, t: State, i: nat, p: nat)
    requires Boot(s) && After(s, actions) == Some(t)
    requires i < |t.cpus| && p < |t.procs|
    ensures t.cpus[i].mode == Run(p) && t.procs[p].pc.Swtch? ==>
              SchedChecks(t, i, p) && forall l | l in t.locks :: t.locks[l] != i
    ensures t.cpus[i].mode == Switch(p) ==> t.procs[p].pc.Parked? && t.procs[p].pc.k != Dead
  {
    RunInv(s, actions, t);
    assert CpuOk(t, i) && ProcOk(t, p);
    forall l | l in t.locks && t.cpus[i].mode == Run(p) && t.procs[p].pc.Swtch? ensures t.locks[l] != i {
      assert LockOk(t, l);
    }
  }

  /** Who can hold a lock: a process, a scheduler thread or a handler. */
  datatype Context = Process(p: nat) | Scheduler(i: nat) | Handler(i: nat)

  datatype Lock = Ptable | Other(l: nat)

  /** The CPU x runs on, if it runs. */
  ghost predicate RunsOn(s: State, x: Context, i: nat)
    requires i < |s.cpus|
  {
    match x
    case Process(p) => p < |s.procs| && s.procs[p].on == Some(i)
    case Scheduler(j) => j == i && !s.cpus[i].mode.Run?
    case Handler(j) => j == i && s.cpus[i].irq.Some?
  }

  /** x holds lk: it runs on a CPU that does, and a handler's locks are not those of
      what it interrupted. */
  ghost predicate Holds(s: State, x: Context, lk: Lock)
  {
    exists i | 0 <= i < |s.cpus| ::
      && RunsOn(s, x, i) && (x.Handler? || s.cpus[i].irq == None)
      && if lk.Ptable? then s.ptable == Some(i) else lk.l in s.cpus[i].held
  }

  /** Every lock has one holder, among all processes, scheduler threads and
      handlers; and whoever has passed an acquire of ptable.lock is that holder. */
  lemma MutualExclusion(s: State, actions: seq<Action>, t: State, x: Context, y: Context, lk: Lock)
    requires Boot(s) && After(s, actions) == Some(t)
    ensures Holds(t, x, lk) && Holds(t, y, lk) ==> x == y
    ensures forall p | 0 <= p < |t.procs| && PtHeld(t.procs[p].pc) :: Holds(t, Process(p), Ptable)
    ensures forall i | 0 <= i < |t.cpus| && (t.cpus[i].mode.Scan? || t.cpus[i].mode.Picked?) ::
              Holds(t, Scheduler(i), Ptable)
    ensures forall i | 0 <= i < |t.cpus| && IrqPt(t.cpus[i].irq) :: Holds(t, Handler(i), Ptable)
  {
    RunInv(s, actions, t);
    forall p | 0 <= p < |t.procs| && PtHeld(t.procs[p].pc) ensures Holds(t, Process(p), Ptable) {
      assert ProcOk(t, p);
      assert CpuOk(t, t.procs[p].on.value);
      assert RunsOn(t, Process(p), t.procs[p].on.value);
    }
    forall i | 0 <= i < |t.cpus| && (t.cpus[i].mode.Scan? || t.cpus[i].mode.Picked?)
      ensures Holds(t, Scheduler(i), Ptable)
    {
      assert CpuOk(t, i);
      assert RunsOn(t, Scheduler(i), i);
    }
    forall i | 0 <= i < |t.cpus| && IrqPt(t.cpus[i].irq) ensures Holds(t, Handler(i), Ptable) {
      assert CpuOk(t, i);
      assert RunsOn(t, Handler(i), i);
    }
    if Holds(t, x, lk) && Holds(t, y, lk) {
      OneHolder(t, x, y, lk);
    }
  }

  lemma OneHolder(t: State, x: Context, y: Context, lk: Lock)
    requires Structural(t) && Holds(t, x, lk) && Holds(t, y, lk)
    ensures x == y
  {
    var i :| 0 <= i < |t.cpus| && RunsOn(t, x, i) && (x.Handler? || t.cpus[i].irq == None)
             && if lk.Ptable? then t.ptable == Some(i) else lk.l in t.cpus[i].held;
    var j :| 0 <= j < |t.cpus| && RunsOn(t, y, j) && (y.Handler? || t.cpus[j].irq == None)
             && if lk.Ptable? then t.ptable == Some(j) else lk.l in t.cpus[j].held;
    assert CpuOk(t, i) && CpuOk(t, j);
    if x.Process? { assert ProcOk(t, x.p); }
    if y.Process? { assert ProcOk(t, y.p); }
  }
}
