/** The pipe of pipe.c: a ring buffer with 32-bit counters that wrap. */
module PipeBuffer {
  import opened Blocks

  const PIPESIZE: nat := 512
  const TWO32: nat := 0x1_0000_0000

  /** A uint after ++. */
  function Inc(n: nat): nat
  {
    (n + 1) % TWO32
  }

  /** The array index of the byte i places after counter value n. */
  function Slot(n: nat, i: nat): nat
  {
    (n + i) % PIPESIZE
  }

  /** How many more bytes fit on top of q. */
  function Room(q: seq<Byte>): nat
    requires |q| <= PIPESIZE
  {
    PIPESIZE - |q|
  }

  /** Where a burst of writing from index i stops: the buffer is full, or
      the request is done. */
  function BurstEnd(q: seq<Byte>, n: nat, i: nat): nat
    requires |q| <= PIPESIZE && i <= n
  {
    if n - i <= Room(q) then n else i + Room(q)
  }

  class Ring {
    const data: array<Byte>
    var nread: nat   // bytes read, modulo 2^32
    var nwrite: nat  // bytes written, modulo 2^32
    ghost var q: seq<Byte>  // the bytes in the pipe, oldest first

    /** The counters and the array together hold q. */
    ghost predicate Valid()
      reads this, data
    {
      && data.Length == PIPESIZE
      && nread < TWO32 && nwrite == (nread + |q|) % TWO32
      && |q| <= PIPESIZE
      && forall i | 0 <= i < |q| :: data[Slot(nread, i)] == q[i]
    }

    constructor ()
      ensures Valid() && q == [] && fresh(data)
    {
      data := new Byte[PIPESIZE](_ => 0);
      nread, nwrite, q := 0, 0, [];
    }

    predicate Full()
      reads this
    {
      nwrite == (nread + PIPESIZE) % TWO32
    }

    predicate Empty()
      reads this
    {
      nread == nwrite
    }

    /** The tests of pipewrite and piperead, across wrap-around. */
    lemma Tests()
      requires Valid()
      ensures Full() <==> |q| == PIPESIZE
      ensures Empty() <==> q == []
    {
      WrapDistinct(nread, |q|, PIPESIZE);
      WrapDistinct(nread, |q|, 0);
    }

    /** p->data[p->nwrite++ % PIPESIZE] = c */
    method Put(c: Byte)
      requires Valid() && |q| < PIPESIZE
      modifies this, data
      ensures Valid() && q == old(q) + [c]
    {
      WrapIndex(nread, |q|);
      forall i | 0 <= i < |q| ensures Slot(nread, i) != nwrite % PIPESIZE { SlotsDistinct(nread, i, |q|); }
      data[nwrite % PIPESIZE] := c;
      WrapInc(nread + |q|);
      nwrite := Inc(nwrite);
      q := q + [c];
    }

    /** c = p->data[p->nread++ % PIPESIZE] */
    method Get() returns (c: Byte)
      requires Valid() && q != []
      modifies this
      ensures Valid() && [c] + q == old(q)
    {
      c := data[nread % PIPESIZE];
      assert data[Slot(nread, 0)] == q[0];
      forall i | 0 <= i < |q| - 1 ensures Slot(Inc(nread), i) == Slot(nread, i + 1) { WrapIndex2(nread, i); }
      WrapShift(nread, |q|);
      nread := Inc(nread);
      q := q[1..];
    }

    /** pipewrite's loop until the pipe is full or the request is done. */
    method WriteBurst(addr: seq<Byte>, i0: nat) returns (i: nat)
      requires Valid() && i0 <= |addr|
      modifies this, data
      ensures Valid()
      ensures i == BurstEnd(old(q), |addr|, i0) && i0 <= i <= |addr|
      ensures q == old(q) + addr[i0..i]
    {
      i := i0;
      Tests();
      while i < |addr| && !Full()
        invariant i0 <= i <= |addr| && Valid()
        invariant q == old(q) + addr[i0..i]
        invariant Full() <==> |q| == PIPESIZE
      {
        Put(addr[i]);
        i := i + 1;
        Tests();
      }
    }

    /** piperead's copy loop. */
    method ReadBurst(n: nat) returns (got: seq<Byte>)
      requires Valid()
      modifies this
      ensures Valid()
      ensures got + q == old(q) && |got| == if n <= |old(q)| then n else |old(q)|
    {
      got := [];
      Tests();
      while |got| < n && !Empty()
        invariant Valid() && got + q == old(q) && |got| <= n
        invariant Empty() <==> q == []
        decreases n - |got|
      {
        ghost var rest := q;
        var c := Get();
        assert got + rest == (got + [c]) + q;
        got := got + [c];
        Tests();
      }
    }
  }

  // ---------------------------------------------------------------
  // 512 divides 2^32, so counters that wrap still index the buffer.

  lemma ModStep(a: nat)
    ensures a % TWO32 % PIPESIZE == a % PIPESIZE
  {
    var k := a / TWO32;
    assert a == a % TWO32 + PIPESIZE * (k * (TWO32 / PIPESIZE));
    ModAdd(a % TWO32, k * (TWO32 / PIPESIZE));
  }

  lemma ModAdd(a: nat, k: nat)
    ensures (a + PIPESIZE * k) % PIPESIZE == a % PIPESIZE
  {
  }

  lemma WrapDistinct(n: nat, a: nat, b: nat)
    requires n < TWO32 && a <= PIPESIZE && b <= PIPESIZE
    ensures (n + a) % TWO32 == (n + b) % TWO32 <==> a == b
  {
  }

  lemma WrapIndex(n: nat, k: nat)
    ensures (n + k) % TWO32 % PIPESIZE == (n + k) % PIPESIZE
  {
    ModStep(n + k);
  }

  lemma WrapIndex2(n: nat, i: nat)
    ensures Slot(Inc(n), i) == Slot(n, i + 1)
  {
    ModStep(n + 1);
  }

  lemma WrapInc(a: nat)
    ensures Inc(a % TWO32) == (a + 1) % TWO32
  {
  }

  lemma WrapShift(n: nat, k: nat)
    requires k > 0 && n < TWO32
    ensures (Inc(n) + (k - 1)) % TWO32 == (n + k) % TWO32
  {
  }

  lemma SlotsDistinct(n: nat, i: nat, k: nat)
    requires i < k < PIPESIZE
    ensures Slot(n, i) != (n + k) % TWO32 % PIPESIZE
  {
    ModStep(n + k);
  }
}

/** Readers and writers sharing a pipe. One step is what a process does
    between taking the pipe's lock and letting go of it, by release or by
    sleep; the pipe's lock is free in every state. */
module PipeRuns {
  import opened Blocks
  import opened PipeBuffer

  /** What a process is doing: Reading and Writing are ready to run. */
  datatype Task =
    | Idle
    | Reading(n: nat)
    | AsleepReading(n: nat)                 // asleep on &p->nread
    | Writing(data: seq<Byte>, i: nat)
    | AsleepWriting(data: seq<Byte>, i: nat) // asleep on &p->nwrite

  datatype State = State(
    tasks: seq<Task>,
    q: seq<Byte>,
    readopen: bool, writeopen: bool,
    killed: set<nat>,
    written: seq<Byte>, taken: seq<Byte>)  // everything put in and taken out

  datatype Action =
    | StartRead(p: nat, n: nat) | StartWrite(p: nat, data: seq<Byte>)
    | RunRead(p: nat) | RunWrite(p: nat)
    | CloseRead | CloseWrite
    | Kill(p: nat)

  function WakeReader(t: Task): Task
  {
    if t.AsleepReading? then Reading(t.n) else t
  }

  function WakeWriter(t: Task): Task
  {
    if t.AsleepWriting? then Writing(t.data, t.i) else t
  }

  /** wakeup(&p->nread) */
  function WakeReaders(tasks: seq<Task>): seq<Task>
  {
    seq(|tasks|, i requires 0 <= i < |tasks| => WakeReader(tasks[i]))
  }

  /** wakeup(&p->nwrite) */
  function WakeWriters(tasks: seq<Task>): seq<Task>
  {
    seq(|tasks|, i requires 0 <= i < |tasks| => WakeWriter(tasks[i]))
  }

  predicate UsesReadEnd(t: Task) { t.Reading? || t.AsleepReading? }

  predicate UsesWriteEnd(t: Task) { t.Writing? || t.AsleepWriting? }

  /** piperead, from taking the lock on. */
  function ReadStep(s: State, p: nat, n: nat): State
    requires p < |s.tasks|
  {
    if s.q == [] && s.writeopen then
      s.(tasks := s.tasks[p := if p in s.killed then Idle else AsleepReading(n)])
    else
      var m := if n <= |s.q| then n else |s.q|;
      s.(tasks := WakeWriters(s.tasks)[p := Idle], q := s.q[m..], taken := s.taken + s.q[..m])
  }

  /** pipewrite, from taking the lock (again) with i bytes already written. */
  function WriteStep(s: State, p: nat, data: seq<Byte>, i: nat): State
    requires p < |s.tasks| && i <= |data| && |s.q| <= PIPESIZE
  {
    var e := BurstEnd(s.q, |data|, i);
    var t := s.(q := s.q + data[i..e], written := s.written + data[i..e]);
    if e == |data| then t.(tasks := WakeReaders(s.tasks)[p := Idle])
    else if !s.readopen || p in s.killed then t.(tasks := s.tasks[p := Idle])
    else t.(tasks := WakeReaders(s.tasks)[p := AsleepWriting(data, e)])
  }

  /** Actions that can happen. An end is closed when its last user is done. */
  predicate Enabled(s: State, a: Action)
  {
    match a
    case StartRead(p, n) => p < |s.tasks| && s.tasks[p] == Idle && s.readopen
    case StartWrite(p, data) => p < |s.tasks| && s.tasks[p] == Idle && s.writeopen
    case RunRead(p) => p < |s.tasks| && s.tasks[p].Reading?
    case RunWrite(p) => p < |s.tasks| && s.tasks[p].Writing? && s.tasks[p].i <= |s.tasks[p].data| && |s.q| <= PIPESIZE
    case CloseRead => s.readopen && forall i | 0 <= i < |s.tasks| :: !UsesReadEnd(s.tasks[i])
    case CloseWrite => s.writeopen && forall i | 0 <= i < |s.tasks| :: !UsesWriteEnd(s.tasks[i])
    case Kill(p) => p < |s.tasks|
  }

  function Apply(s: State, a: Action): State
    requires Enabled(s, a)
  {
    match a
    case StartRead(p, n) => s.(tasks := s.tasks[p := Reading(n)])
    case StartWrite(p, data) => s.(tasks := s.tasks[p := Writing(data, 0)])
    case RunRead(p) => ReadStep(s, p, s.tasks[p].n)
    case RunWrite(p) => WriteStep(s, p, s.tasks[p].data, s.tasks[p].i)
    case CloseRead => s.(readopen := false, tasks := WakeWriters(s.tasks))
    case CloseWrite => s.(writeopen := false, tasks := WakeReaders(s.tasks))
    case Kill(p) => s.(killed := s.killed + {p}, tasks := s.tasks[p := WakeReader(WakeWriter(s.tasks[p]))])
  }

  // ---------------------------------------------------------------
  // Safety.

  ghost predicate TaskOk(s: State, t: Task)
  {
    && (UsesReadEnd(t) ==> s.readopen)
    && (UsesWriteEnd(t) ==> s.writeopen && t.i <= |t.data|)
  }

  /** First in, first out: what was taken, then what is buffered, is what was
      written. */
  ghost predicate BytesOk(s: State)
  {
    s.written == s.taken + s.q && |s.q| <= PIPESIZE
  }

  ghost predicate Fifo(s: State)
  {
    && BytesOk(s)
    && forall p | 0 <= p < |s.tasks| :: TaskOk(s, s.tasks[p])
  }

  /** Sleepers have a reason: readers an empty open pipe, writers a full one
      with a reader. */
  ghost predicate SleepersOk(s: State)
  {
    forall p | 0 <= p < |s.tasks| ::
      && (s.tasks[p].AsleepReading? ==> s.q == [] && s.writeopen)
      && (s.tasks[p].AsleepWriting? ==> |s.q| == PIPESIZE && s.readopen)
  }

  lemma ReadBytes(s: State, p: nat, n: nat)
    requires BytesOk(s) && p < |s.tasks|
    ensures BytesOk(ReadStep(s, p, n))
  {
    var m := if n <= |s.q| then n else |s.q|;
    assert s.q == s.q[..m] + s.q[m..];
    assert s.taken + s.q == (s.taken + s.q[..m]) + s.q[m..];
  }

  lemma WriteBytes(s: State, p: nat, data: seq<Byte>, i: nat)
    requires BytesOk(s) && p < |s.tasks| && i <= |data|
    ensures BytesOk(WriteStep(s, p, data, i))
  {
    var more := data[i..BurstEnd(s.q, |data|, i)];
    assert s.taken + s.q + more == s.taken + (s.q + more);
  }

  lemma FifoBytes(s: State, a: Action)
    requires BytesOk(s) && Enabled(s, a)
    ensures BytesOk(Apply(s, a))
  {
    match a
    case RunRead(p) => ReadBytes(s, p, s.tasks[p].n);
    case RunWrite(p) => WriteBytes(s, p, s.tasks[p].data, s.tasks[p].i);
    case _ =>
  }

  lemma FifoTasks(s: State, a: Action, p: nat)
    requires Fifo(s) && Enabled(s, a) && p < |s.tasks|
    ensures |Apply(s, a).tasks| == |s.tasks| && TaskOk(Apply(s, a), Apply(s, a).tasks[p])
  {
    assert TaskOk(s, s.tasks[p]);
  }

  lemma FifoStep(s: State, a: Action)
    requires Fifo(s) && Enabled(s, a)
    ensures Fifo(Apply(s, a))
  {
    var t := Apply(s, a);
    FifoBytes(s, a);
    assert |t.tasks| == |s.tasks|;
    forall p | 0 <= p < |t.tasks| ensures TaskOk(t, t.tasks[p]) { FifoTasks(s, a, p); }
  }

  /** The one step that strands a reader: a killed writer fills the pipe and
      returns early, without waking anybody. */
  ghost predicate Strands(s: State, a: Action)
    requires Enabled(s, a)
  {
    && a.RunWrite? && a.p in s.killed
    && BurstEnd(s.q, |s.tasks[a.p].data|, s.tasks[a.p].i) < |s.tasks[a.p].data|
    && exists r | 0 <= r < |s.tasks| :: s.tasks[r].AsleepReading?
  }

  /** Every step keeps sleepers justified, except exactly that one. */
  lemma SleepersStep(s: State, a: Action)
    requires Fifo(s) && SleepersOk(s) && Enabled(s, a)
    ensures SleepersOk(Apply(s, a)) <==> !Strands(s, a)
  {
    var t := Apply(s, a);
    forall p | 0 <= p < |s.tasks| ensures TaskOk(s, s.tasks[p]) {}
    if Strands(s, a) {
      var r :| 0 <= r < |s.tasks| && s.tasks[r].AsleepReading?;
      assert t.tasks[r].AsleepReading? && t.q != [];
    }
  }

  /** The states a run goes through, from a fresh pipe. */
  ghost predicate Run(s: State, actions: seq<Action>, t: State)
    decreases |actions|
  {
    if actions == [] then s == t
    else Enabled(s, actions[0]) && Run(Apply(s, actions[0]), actions[1..], t)
  }

  ghost predicate Fresh(s: State)
  {
    && s.q == [] && s.written == [] && s.taken == [] && s.killed == {}
    && s.readopen && s.writeopen
    && forall p | 0 <= p < |s.tasks| :: s.tasks[p] == Idle
  }

  /** Over any run, whatever is killed, bytes come out in the order they
      went in and none is lost or made up. */
  lemma {:induction false} RunFifo(s: State, actions: seq<Action>, t: State)
    requires Fifo(s) && Run(s, actions, t)
    ensures Fifo(t)
    decreases |actions|
  {
    if actions != [] {
      FifoStep(s, actions[0]);
      RunFifo(Apply(s, actions[0]), actions[1..], t);
    }
  }

  /** Without kills nobody is left asleep for no reason. */
  lemma {:induction false} RunSleepers(s: State, actions: seq<Action>, t: State)
    requires Fifo(s) && SleepersOk(s) && s.killed == {}
    requires Run(s, actions, t) && forall k | 0 <= k < |actions| :: !actions[k].Kill?
    ensures SleepersOk(t)
    decreases |actions|
  {
    if actions != [] {
      FifoStep(s, actions[0]);
      SleepersStep(s, actions[0]);
      RunSleepers(Apply(s, actions[0]), actions[1..], t);
    }
  }

  lemma PipeSafety(s: State, actions: seq<Action>, t: State)
    requires Fresh(s) && Run(s, actions, t)
    ensures t.written == t.taken + t.q && |t.q| <= PIPESIZE
    ensures (forall k | 0 <= k < |actions| :: !actions[k].Kill?) ==> SleepersOk(t)
  {
    RunFifo(s, actions, t);
    if forall k | 0 <= k < |actions| :: !actions[k].Kill? {
      RunSleepers(s, actions, t);
    }
  }

  /** With kills they can be: a reader sleeps on, beside a full pipe. */
  lemma KillStrandsReader(s: State, data: seq<Byte>) returns (t: State)
    requires Fresh(s) && |s.tasks| == 2 && |data| == PIPESIZE + 1
    ensures Run(s, [StartRead(0, 1), RunRead(0), StartWrite(1, data), Kill(1), RunWrite(1)], t)
    ensures |t.tasks| == 2 && t.tasks[0].AsleepReading? && |t.q| == PIPESIZE
  {
    var s1 := Apply(s, StartRead(0, 1));
    var s2 := Apply(s1, RunRead(0));
    var s3 := Apply(s2, StartWrite(1, data));
    var s4 := Apply(s3, Kill(1));
    t := Apply(s4, RunWrite(1));
    var a4 := [RunWrite(1)];
    assert Run(t, [], t);
    assert a4[1..] == [] && Run(s4, a4, t);
    var a3 := [Kill(1), RunWrite(1)];
    assert a3[1..] == a4 && Run(s3, a3, t);
    var a2 := [StartWrite(1, data), Kill(1), RunWrite(1)];
    assert a2[1..] == a3 && Run(s2, a2, t);
    var a1 := [RunRead(0), StartWrite(1, data), Kill(1), RunWrite(1)];
    assert a1[1..] == a2 && Run(s1, a1, t);
    var a0 := [StartRead(0, 1), RunRead(0), StartWrite(1, data), Kill(1), RunWrite(1)];
    assert a0[1..] == a1 && Run(s, a0, t);
  }
}
