/** The interrupt-driven disk queue (ide.c) against the synchronous in-memory
    disk (memide.c). */
module Ide {
  import opened Blocks
  import opened Options

  /** struct buf, as the disk drivers see it. */
  datatype Buf = Buf(sector: nat, data: Block, busy: bool, valid: bool, dirty: bool)

  type Disk = map<nat, Block>

  // ---------------------------------------------------------------
  // memide.c: the simple specification.

  /** iderw's checks; a false one is a panic. */
  predicate Acceptable(d: Disk, b: Buf)
  {
    b.busy && !(b.valid && !b.dirty) && b.sector in d
  }

  /** Sync a buffer with the disk: write it if dirty, else read it. */
  function MemDisk(d: Disk, b: Buf): Disk
    requires Acceptable(d, b)
  {
    if b.dirty then d[b.sector := b.data] else d
  }

  function MemBuf(d: Disk, b: Buf): Buf
    requires Acceptable(d, b)
  {
    if b.dirty then b.(dirty := false, valid := true) else b.(data := d[b.sector], valid := true)
  }

  // ---------------------------------------------------------------
  // ide.c: any number of processes and buffers; the disk works on one request
  // at a time and interrupts when it is done.

  /** The command idestart gives the disk; a write's data goes with it. */
  datatype Command = ReadCmd(sector: nat) | WriteCmd(sector: nat, data: Block)

  /** The finished requests, latest last: the buffer when the interrupt came and as
      it came back. */
  datatype History = Nothing | Finished(prior: History, buf: nat, before: Buf, after: Buf)

  datatype State = State(
    disk: Disk,
    bufs: seq<Buf>,
    owner: seq<nat>,           // the process that holds each busy buffer
    waiting: map<nat, nat>,    // processes asleep in iderw, with their buffer
    queue: seq<nat>,           // idequeue: buffers, oldest first
    active: Option<Command>,   // what the disk is working on
    history: History)

  function Start(b: Buf): Command
  {
    if b.dirty then WriteCmd(b.sector, b.data) else ReadCmd(b.sector)
  }

  datatype Action =
    | Grab(p: nat, b: nat, sector: nat, recycle: bool)  // bget gives b to p
    | Change(p: nat, b: nat, data: Block, dirty: bool)  // p works on its buffer
    | Release(p: nat, b: nat)                           // brelse
    | Submit(p: nat, b: nat)                            // p calls iderw
    | Interrupt                                         // ideintr
    | Resume(p: nat)                                    // p wakes up in iderw

  /** p is running and b is its buffer. */
  predicate Holds(s: State, p: nat, b: nat)
  {
    b < |s.bufs| == |s.owner| && s.bufs[b].busy && s.owner[b] == p && p !in s.waiting
  }

  predicate Synced(s: State, b: nat)
  {
    b < |s.bufs| && s.bufs[b].valid && !s.bufs[b].dirty
  }

  predicate Enabled(s: State, a: Action)
  {
    match a
    case Grab(p, b, sector, recycle) => b < |s.bufs| == |s.owner| && !s.bufs[b].busy && p !in s.waiting
    case Change(p, b, data, dirty) => Holds(s, p, b)
    case Release(p, b) => Holds(s, p, b)
    case Submit(p, b) => Holds(s, p, b) && Acceptable(s.disk, s.bufs[b])
    case Interrupt =>
      s.queue != [] && s.queue[0] < |s.bufs| && s.active.Some? && s.active.value.sector in s.disk
    case Resume(p) => p in s.waiting && Synced(s, s.waiting[p])
  }

  function SetBuf(s: State, b: nat, buf: Buf): State
    requires b < |s.bufs|
  {
    s.(bufs := s.bufs[b := buf])
  }

  /** ideintr: the answer to the active command goes to the head of the queue,
      and the next command is given. */
  function Complete(s: State): State
    requires Enabled(s, Interrupt)
  {
    var b, cmd := s.queue[0], s.active.value;
    var d := if cmd.WriteCmd? then s.disk[cmd.sector := cmd.data] else s.disk;
    var read := if s.bufs[b].dirty then s.bufs[b] else s.bufs[b].(data := d[cmd.sector]);
    var after := read.(valid := true, dirty := false);
    var bufs := s.bufs[b := after];
    s.(disk := d, bufs := bufs, queue := s.queue[1..], active := First(bufs, s.queue[1..]),
       history := Finished(s.history, b, s.bufs[b], after))
  }

  function First(bufs: seq<Buf>, queue: seq<nat>): Option<Command>
  {
    if queue == [] || queue[0] >= |bufs| then None else Some(Start(bufs[queue[0]]))
  }

  function Apply(s: State, a: Action): State
    requires Enabled(s, a)
  {
    match a
    case Grab(p, b, sector, recycle) =>
      var buf := if recycle then Buf(sector, s.bufs[b].data, true, false, false) else s.bufs[b].(busy := true);
      SetBuf(s.(owner := s.owner[b := p]), b, buf)
    case Change(p, b, data, dirty) =>
      SetBuf(s, b, s.bufs[b].(data := data, dirty := s.bufs[b].dirty || dirty))
    case Release(p, b) => SetBuf(s, b, s.bufs[b].(busy := false))
    case Submit(p, b) =>
      s.(queue := s.queue + [b], waiting := s.waiting[p := b],
         active := if s.queue == [] then Some(Start(s.bufs[b])) else s.active)
    case Interrupt => Complete(s)
    case Resume(p) => s.(waiting := s.waiting - {p})
  }

  // ---------------------------------------------------------------
  // What every step keeps.

  ghost predicate QueuedOk(s: State, b: nat)
  {
    && b < |s.bufs| == |s.owner|
    && Acceptable(s.disk, s.bufs[b])
    && s.owner[b] in s.waiting && s.waiting[s.owner[b]] == b
  }

  ghost predicate WaiterOk(s: State, p: nat)
    requires p in s.waiting
  {
    var b := s.waiting[p];
    b < |s.bufs| == |s.owner| && s.bufs[b].busy && s.owner[b] == p && (b in s.queue || Synced(s, b))
  }

  /** The head of the queue is the active request; nothing is queued twice; a
      queued buffer's owner waits for it; a waiting process has its buffer in
      the queue or back in sync, so that it can go on. */
  ghost predicate Inv(s: State)
  {
    && |s.bufs| == |s.owner|
    && (forall b | b in s.queue :: QueuedOk(s, b))
    && (forall i, j | 0 <= i < j < |s.queue| :: s.queue[i] != s.queue[j])
    && (forall p | p in s.waiting :: WaiterOk(s, p))
    && s.active == First(s.bufs, s.queue)
  }

  /** Work on a buffer that is not queued and whose owner does not wait. */
  lemma SetKeeps(s: State, owner: seq<nat>, b: nat, buf: Buf)
    requires Inv(s) && b < |s.bufs| && b !in s.queue && |owner| == |s.owner|
    requires forall p | p in s.waiting :: s.waiting[p] != b
    requires forall x | 0 <= x < |owner| && x != b :: owner[x] == s.owner[x]
    ensures Inv(SetBuf(s.(owner := owner), b, buf))
  {
    var t := SetBuf(s.(owner := owner), b, buf);
    forall x | x in t.queue ensures QueuedOk(t, x) { assert QueuedOk(s, x); }
    forall p | p in t.waiting ensures WaiterOk(t, p) { assert WaiterOk(s, p); }
  }

  lemma HeldIsIdle(s: State, b: nat)
    requires Inv(s) && b < |s.bufs| && (!s.bufs[b].busy || s.owner[b] !in s.waiting)
    ensures b !in s.queue
    ensures forall p | p in s.waiting :: s.waiting[p] != b
  {
    assert b in s.queue ==> QueuedOk(s, b);
    forall p | p in s.waiting ensures s.waiting[p] != b { assert WaiterOk(s, p); }
  }

  lemma SubmitKeeps(s: State, p: nat, b: nat)
    requires Inv(s) && Enabled(s, Submit(p, b))
    ensures Inv(Apply(s, Submit(p, b)))
  {
    var t := Apply(s, Submit(p, b));
    HeldIsIdle(s, b);
    forall x | x in t.queue ensures QueuedOk(t, x) { assert x in s.queue ==> QueuedOk(s, x); }
    forall q | q in t.waiting ensures WaiterOk(t, q) { assert q in s.waiting ==> WaiterOk(s, q); }
  }

  lemma ResumeKeeps(s: State, p: nat)
    requires Inv(s) && Enabled(s, Resume(p))
    ensures Inv(Apply(s, Resume(p)))
  {
    var t := Apply(s, Resume(p));
    forall x | x in t.queue ensures QueuedOk(t, x) { assert QueuedOk(s, x); }
    forall q | q in t.waiting ensures WaiterOk(t, q) { assert WaiterOk(s, q); }
  }

  /** An interrupt does to the disk and the buffer what memide's iderw does. */
  lemma InterruptIsMem(s: State)
    requires Inv(s) && Enabled(s, Interrupt)
    ensures QueuedOk(s, s.queue[0])
    ensures var b := s.bufs[s.queue[0]]; var t := Complete(s);
            && t.disk == MemDisk(s.disk, b)
            && t.bufs == s.bufs[s.queue[0] := MemBuf(s.disk, b)]
            && t.history == Finished(s.history, s.queue[0], b, MemBuf(s.disk, b))
  {
    assert s.queue[0] in s.queue;
    assert QueuedOk(s, s.queue[0]);
  }

  lemma InterruptKeeps(s: State)
    requires Inv(s) && Enabled(s, Interrupt)
    ensures Inv(Complete(s))
  {
    var t, b := Complete(s), s.queue[0];
    InterruptIsMem(s);
    forall x | x in t.queue ensures QueuedOk(t, x) { assert QueuedOk(s, x); }
    forall q | q in t.waiting ensures WaiterOk(t, q) {
      assert WaiterOk(s, q);
      var i := s.waiting[q];
      if i in s.queue && i != b { assert i in s.queue[1..]; }
    }
  }

  lemma StepKeeps(s: State, a: Action)
    requires Inv(s) && Enabled(s, a)
    ensures Inv(Apply(s, a))
  {
    match a
    case Grab(p, b, sector, recycle) =>
      HeldIsIdle(s, b);
      SetKeeps(s, s.owner[b := p], b, Apply(s, a).bufs[b]);
    case Change(p, b, data, dirty) =>
      HeldIsIdle(s, b);
      SetKeeps(s, s.owner, b, Apply(s, a).bufs[b]);
    case Release(p, b) =>
      HeldIsIdle(s, b);
      SetKeeps(s, s.owner, b, Apply(s, a).bufs[b]);
    case Submit(p, b) => SubmitKeeps(s, p, b);
    case Interrupt => InterruptKeeps(s);
    case Resume(p) => ResumeKeeps(s, p);
  }

  // ---------------------------------------------------------------
  // Refinement.

  /** The disk after the finished requests are run, one after another, on the
      in-memory disk; None if some answer was not the in-memory disk's. */
  function Sequential(d0: Disk, h: History): Option<Disk>
  {
    match h
    case Nothing => Some(d0)
    case Finished(prior, b, before, after) =>
      var d := Sequential(d0, prior);
      if d.Some? && Acceptable(d.value, before) && after == MemBuf(d.value, before)
      then Some(MemDisk(d.value, before)) else None
  }

  /** The requests that have been answered, oldest first. */
  function Answered(h: History): seq<(nat, Buf)>
  {
    if h.Nothing? then [] else Answered(h.prior) + [(h.buf, h.before)]
  }

  predicate InBounds(bufs: seq<Buf>, queue: seq<nat>)
  {
    forall i | 0 <= i < |queue| :: queue[i] < |bufs|
  }

  /** The requests in the queue, with their buffers as they are now. */
  ghost function Pending(bufs: seq<Buf>, queue: seq<nat>): seq<(nat, Buf)>
    requires InBounds(bufs, queue)
  {
    seq(|queue|, i requires 0 <= i < |queue| => (queue[i], bufs[queue[i]]))
  }

  /** A run: the steps taken, latest last, each with the state it was taken in. */
  datatype Run = Begin | Step(prior: Run, state: State, action: Action)

  ghost predicate Runs(s: State, run: Run, t: State)
  {
    match run
    case Begin => s == t
    case Step(prior, u, a) => Runs(s, prior, u) && Enabled(u, a) && t == Apply(u, a)
  }

  /** The buffers handed to iderw, as they were when it was called, in the order of
      the calls. */
  function Requests(run: Run): seq<(nat, Buf)>
  {
    if run.Begin? then []
    else Requests(run.prior) + Request(run.state, run.action)
  }

  function Request(s: State, a: Action): seq<(nat, Buf)>
  {
    if a.Submit? && a.b < |s.bufs| then [(a.b, s.bufs[a.b])] else []
  }

  lemma OneMore(d0: Disk, s: State)
    requires Inv(s) && Enabled(s, Interrupt) && Sequential(d0, s.history) == Some(s.disk)
    ensures Sequential(d0, Complete(s).history) == Some(Complete(s).disk)
  {
    InterruptIsMem(s);
  }

  lemma QueueInBounds(s: State)
    requires Inv(s)
    ensures InBounds(s.bufs, s.queue)
  {
    forall i | 0 <= i < |s.queue| ensures s.queue[i] < |s.bufs| { assert QueuedOk(s, s.queue[i]); }
  }

  lemma PendingSame(bufs: seq<Buf>, queue: seq<nat>, b: nat, buf: Buf)
    requires InBounds(bufs, queue) && b < |bufs| && b !in queue
    ensures Pending(bufs[b := buf], queue) == Pending(bufs, queue)
  {
  }

  lemma PendingFirst(bufs: seq<Buf>, queue: seq<nat>, buf: Buf)
    requires InBounds(bufs, queue) && queue != [] && queue[0] !in queue[1..]
    ensures InBounds(bufs, queue[1..])
    ensures Pending(bufs, queue) == [(queue[0], bufs[queue[0]])] + Pending(bufs[queue[0] := buf], queue[1..])
  {
    assert InBounds(bufs, queue[1..]);
    PendingSame(bufs, queue[1..], queue[0], buf);
  }

  /** The step that answers a request is the only one that takes it from the
      queue, and no step changes a queued buffer. */
  lemma PendingStep(s: State, a: Action)
    requires Inv(s) && Enabled(s, a) && InBounds(s.bufs, s.queue) && InBounds(Apply(s, a).bufs, Apply(s, a).queue)
    ensures var t := Apply(s, a);
            Answered(s.history) + Pending(s.bufs, s.queue) + Request(s, a) ==
            Answered(t.history) + Pending(t.bufs, t.queue)
  {
    var t := Apply(s, a);
    if a.Interrupt? {
      InterruptIsMem(s);
      PendingFirst(s.bufs, s.queue, MemBuf(s.disk, s.bufs[s.queue[0]]));
    } else if a.Submit? {
      assert Pending(t.bufs, t.queue) == Pending(s.bufs, s.queue) + Request(s, a);
    } else if !a.Resume? {
      HeldIsIdle(s, a.b);
      PendingSame(s.bufs, s.queue, a.b, t.bufs[a.b]);
    }
  }

  /** Whatever the processes and the disk do, the disk and every answer are those
      of a sequential run of the in-memory disk that takes the requests in the
      order of the calls, each with its buffer as it was at the call. */
  lemma {:induction false} QueueRefinesMem(s: State, run: Run, t: State)
    requires Inv(s) && s.queue == [] && s.history == Nothing
    requires Runs(s, run, t)
    ensures Inv(t) && InBounds(t.bufs, t.queue)
    ensures Sequential(s.disk, t.history) == Some(t.disk)
    ensures Requests(run) == Answered(t.history) + Pending(t.bufs, t.queue)
  {
    match run
    case Begin =>
    case Step(prior, u, a) =>
      QueueRefinesMem(s, prior, u);
      StepKeeps(u, a);
      QueueInBounds(t);
      PendingStep(u, a);
      if a == Interrupt {
        OneMore(s.disk, u);
      }
  }

  // ---------------------------------------------------------------
  // What a process finds when iderw returns.

  /** The latest request of process p. */
  function LatestCall(run: Run, p: nat): Option<(nat, Buf)>
  {
    if run.Begin? then None
    else if run.action.Submit? && run.action.p == p && run.action.b < |run.state.bufs|
    then Some((run.action.b, run.state.bufs[run.action.b]))
    else LatestCall(run.prior, p)
  }

  /** The latest answer for buffer b. */
  function LatestAnswer(h: History, b: nat): Option<(Buf, Buf)>
  {
    if h.Nothing? then None
    else if h.buf == b then Some((h.before, h.after))
    else LatestAnswer(h.prior, b)
  }

  /** p waits for its latest call: the request is in the queue, or it is the latest
      one answered for the buffer, and the buffer holds that answer. */
  ghost predicate Awaits(run: Run, s: State, p: nat)
    requires p in s.waiting && s.waiting[p] < |s.bufs|
  {
    var (b, call) := (s.waiting[p], LatestCall(run, p));
    && call.Some? && call.value.0 == b
    && if b in s.queue then s.bufs[b] == call.value.1
       else LatestAnswer(s.history, b) == Some((call.value.1, s.bufs[b]))
  }

  lemma AwaitsStep(run: Run, s: State, a: Action, p: nat)
    requires Inv(s) && Enabled(s, a) && p in Apply(s, a).waiting && Apply(s, a).waiting[p] < |s.bufs|
    requires p in s.waiting ==> s.waiting[p] < |s.bufs| && Awaits(run, s, p)
    ensures Awaits(Step(run, s, a), Apply(s, a), p)
  {
    if p in s.waiting {
      assert WaiterOk(s, p);
      match a
      case Grab(_, b, _, _) => HeldIsIdle(s, b);
      case Change(_, b, _, _) => HeldIsIdle(s, b);
      case Release(_, b) => HeldIsIdle(s, b);
      case Submit(_, b) =>
      case Interrupt => InterruptIsMem(s);
      case Resume(_) =>
    }
  }

  lemma {:induction false} WaitersAwait(s: State, run: Run, t: State, p: nat)
    requires Inv(s) && s.queue == [] && s.waiting == map[] && Runs(s, run, t) && p in t.waiting
    ensures Inv(t) && t.waiting[p] < |t.bufs| && Awaits(run, t, p)
  {
    match run
    case Begin =>
    case Step(prior, u, a) =>
      RunKeeps(s, prior, u);
      StepKeeps(u, a);
      assert WaiterOk(t, p);
      if p in u.waiting { WaitersAwait(s, prior, u, p); }
      AwaitsStep(prior, u, a, p);
  }

  lemma {:induction false} RunKeeps(s: State, run: Run, t: State)
    requires Inv(s) && Runs(s, run, t)
    ensures Inv(t)
  {
    match run
    case Begin =>
    case Step(prior, u, a) =>
      RunKeeps(s, prior, u);
      StepKeeps(u, a);
  }

  /** When iderw returns, the buffer is the answer to the call: what the in-memory
      disk made of the buffer that was handed in. */
  lemma IderwReturnsAnswer(s: State, run: Run, t: State, p: nat)
    requires Inv(s) && s.queue == [] && s.waiting == map[] && Runs(s, run, t) && Enabled(t, Resume(p))
    ensures LatestCall(run, p).Some? && LatestCall(run, p).value.0 == t.waiting[p]
    ensures LatestAnswer(t.history, t.waiting[p]) == Some((LatestCall(run, p).value.1, t.bufs[t.waiting[p]]))
  {
    WaitersAwait(s, run, t, p);
    assert t.waiting[p] in t.queue ==> QueuedOk(t, t.waiting[p]);
  }
}

/** The queue as ide.c keeps it: buffers linked through qnext. */
module IdeDriver {
  import opened Blocks
  import opened Ide
  import opened Options

  const NIL := -1

  /** Node i of the queue, or the null pointer after the last one. */
  function Node(queue: seq<nat>, i: nat): int
  {
    if i < |queue| then queue[i] else NIL
  }

  ghost predicate LinkedAt(qnext: seq<int>, queue: seq<nat>, i: nat)
  {
    i < |queue| && queue[i] < |qnext| ==> qnext[queue[i]] == Node(queue, i + 1)
  }

  ghost predicate Linked(head: int, qnext: seq<int>, queue: seq<nat>)
  {
    && head == Node(queue, 0)
    && (forall i | 0 <= i < |queue| :: queue[i] < |qnext|)
    && (forall i: nat :: LinkedAt(qnext, queue, i))
    && (forall i, j | 0 <= i < j < |queue| :: queue[i] != queue[j])
  }

  lemma {:induction false} LinkLast(head: int, qnext: seq<int>, queue: seq<nat>, b: nat, after: seq<int>)
    requires Linked(head, qnext, queue) && b < |qnext| && b !in queue
    requires after == if queue == [] then qnext[b := NIL] else qnext[b := NIL][queue[|queue| - 1] := b]
    ensures Linked(if queue == [] then b else head, after, queue + [b])
  {
    var q := queue + [b];
    forall i: nat ensures LinkedAt(after, q, i) {
      assert LinkedAt(qnext, queue, i);
      assert queue != [] ==> LinkedAt(qnext, queue, |queue| - 1);
    }
  }

  lemma UnlinkFirst(head: int, qnext: seq<int>, queue: seq<nat>)
    requires Linked(head, qnext, queue) && queue != []
    ensures queue[0] < |qnext| && Linked(qnext[queue[0]], qnext, queue[1..])
  {
    assert LinkedAt(qnext, queue, 0);
    forall i: nat ensures LinkedAt(qnext, queue[1..], i) { assert LinkedAt(qnext, queue, i + 1); }
  }

  /** How iderw's first part ends; all but Queued are panics. */
  datatype Outcome = Queued | NotBusy | NothingToDo | NoDisk

  class Driver {
    const bufs: array<Buf>
    const qnext: array<int>
    const haveDisk1: bool
    var head: int
    var active: Option<Command>
    ghost var queue: seq<nat>

    ghost predicate Valid()
      reads this, bufs, qnext
    {
      && bufs.Length == qnext.Length
      && Linked(head, qnext[..], queue)
      && active == First(bufs[..], queue)
    }

    ghost predicate Shows(s: State)
      reads this, bufs
    {
      bufs[..] == s.bufs && queue == s.queue && active == s.active
    }

    constructor (n: nat, haveDisk1: bool)
      ensures Valid() && queue == [] && bufs.Length == n && fresh(bufs) && fresh(qnext)
      ensures this.haveDisk1 == haveDisk1
    {
      this.haveDisk1 := haveDisk1;
      bufs := new Buf[n](_ => Buf(0, ZeroBlock(), false, false, false));
      qnext := new int[n](_ => NIL);
      head, active, queue := NIL, None, [];
    }

    /** The node whose qnext is to be set, or NIL if head is. */
    method FindEnd() returns (last: int)
      requires Valid()
      ensures last == if queue == [] then NIL else queue[|queue| - 1]
    {
      last := NIL;
      var p := head;
      ghost var i := 0;
      while p != NIL
        invariant i <= |queue| && p == Node(queue, i)
        invariant last == if i == 0 then NIL else queue[i - 1]
        decreases |queue| - i
      {
        assert LinkedAt(qnext[..], queue, i);
        last, p, i := p, qnext[p], i + 1;
      }
    }

    /** iderw up to its wait loop: queue b, a buffer for device dev, behind all
        others, and start the disk if it was idle. */
    method Iderw(b: nat, dev: nat, ghost s: State, ghost p: nat) returns (outcome: Outcome)
      requires Valid() && b < bufs.Length && b !in queue
      requires Shows(s)
      modifies this, qnext
      ensures Valid()
      ensures outcome.NotBusy? <==> !s.bufs[b].busy
      ensures outcome.NothingToDo? <==> s.bufs[b].busy && s.bufs[b].valid && !s.bufs[b].dirty
      ensures outcome.NoDisk? <==> s.bufs[b].busy && !(s.bufs[b].valid && !s.bufs[b].dirty) && dev != 0 && !haveDisk1
      ensures !outcome.Queued? ==> Shows(s)
      ensures outcome.Queued? && Enabled(s, Submit(p, b)) ==> Shows(Apply(s, Submit(p, b)))
      ensures outcome.Queued? ==> queue == old(queue) + [b]
    {
      if !bufs[b].busy { return NotBusy; }
      if bufs[b].valid && !bufs[b].dirty { return NothingToDo; }
      if dev != 0 && !haveDisk1 { return NoDisk; }
      var last := FindEnd();
      qnext[b] := NIL;
      if last == NIL {
        head := b;
        active := Some(Start(bufs[b]));
      } else {
        qnext[last] := b;
      }
      LinkLast(old(head), old(qnext[..]), queue, b, qnext[..]);
      queue := queue + [b];
      outcome := Queued;
    }

    /** ideintr: the head of the queue is the request that the disk finished;
        answer is what the disk holds at its sector. */
    method Ideintr(answer: Block, ghost s: State) returns (woken: int)
      requires Valid() && Shows(s)
      requires Enabled(s, Interrupt) ==> s.active.value.ReadCmd? ==> answer == s.disk[s.active.value.sector]
      modifies this, bufs
      ensures Valid()
      ensures woken == Node(s.queue, 0)
      ensures s.queue == [] ==> Shows(s)
      ensures Enabled(s, Interrupt) ==> Shows(Complete(s))
    {
      woken := head;
      if head == NIL { return; }
      UnlinkFirst(head, qnext[..], queue);
      var b := head;
      head := qnext[b];
      if !bufs[b].dirty {
        bufs[b] := bufs[b].(data := answer);
      }
      bufs[b] := bufs[b].(valid := true, dirty := false);
      queue := queue[1..];
      active := if head == NIL then None else Some(Start(bufs[head]));
    }
  }
}
