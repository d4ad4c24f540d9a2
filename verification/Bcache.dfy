/** The buffer cache (bio.c) under every interleaving of its callers. */
module Bcache {
  import opened Blocks
  import opened Options

  /** A place on some disk. */
  datatype Key = Key(dev: nat, sector: nat)

  /** struct buf; a buffer that was never used has device -1. */
  datatype Buf = Buf(dev: int, sector: nat, busy: bool, valid: bool, dirty: bool, data: Block)

  predicate Caches(b: Buf, key: Key)
  {
    b.dev == key.dev && b.sector == key.sector
  }

  type Disk = map<Key, Block>

  datatype State = State(
    disk: Disk,
    bufs: seq<Buf>,
    order: seq<nat>,         // the buffers, most recently used first
    owner: seq<nat>,         // the process that holds each busy buffer
    asleep: map<nat, nat>,   // processes asleep in bget, and the buffer they wait for
    edited: set<nat>)        // buffers changed since they were last logged or written

  // ---------------------------------------------------------------
  // bget.

  /** The first buffer in list order that caches key. */
  function Lookup(bufs: seq<Buf>, order: seq<nat>, key: Key): (r: Option<nat>)
    ensures r.Some? ==> r.value in order && r.value < |bufs| && Caches(bufs[r.value], key)
    ensures r.None? ==> forall b | b in order && b < |bufs| :: !Caches(bufs[b], key)
  {
    if order == [] then None
    else if order[0] < |bufs| && Caches(bufs[order[0]], key) then Some(order[0])
    else Lookup(bufs, order[1..], key)
  }

  lemma {:induction false} LookupIsFirst(bufs: seq<Buf>, order: seq<nat>, key: Key, i: nat)
    requires i < |order| && order[i] < |bufs| && Caches(bufs[order[i]], key)
    requires forall j | 0 <= j < i && order[j] < |bufs| :: !Caches(bufs[order[j]], key)
    ensures Lookup(bufs, order, key) == Some(order[i])
  {
    if i > 0 {
      LookupIsFirst(bufs, order[1..], key, i - 1);
    }
  }

  predicate Idle(b: Buf)
  {
    !b.busy && !b.dirty
  }

  /** The least recently used buffer that is neither busy nor dirty. */
  function Victim(bufs: seq<Buf>, order: seq<nat>): (r: Option<nat>)
    ensures r.Some? ==> r.value in order && r.value < |bufs| && Idle(bufs[r.value])
    ensures r.None? ==> forall b | b in order && b < |bufs| :: !Idle(bufs[b])
  {
    if order == [] then None
    else
      var last := order[|order| - 1];
      if last < |bufs| && Idle(bufs[last]) then Some(last)
      else Victim(bufs, order[..|order| - 1])
  }

  lemma {:induction false} VictimIsLast(bufs: seq<Buf>, order: seq<nat>, i: nat)
    requires i < |order| && order[i] < |bufs| && Idle(bufs[order[i]])
    requires forall j | i < j < |order| && order[j] < |bufs| :: !Idle(bufs[order[j]])
    ensures Victim(bufs, order) == Some(order[i])
  {
    if i + 1 < |order| {
      VictimIsLast(bufs, order[..|order| - 1], i);
    }
  }

  datatype Found = Hit(b: nat) | Wait(b: nat) | Recycle(b: nat) | NoBuffers

  /** One pass of bget over the list. */
  function Search(bufs: seq<Buf>, order: seq<nat>, key: Key): Found
  {
    match Lookup(bufs, order, key)
    case Some(b) => if bufs[b].busy then Wait(b) else Hit(b)
    case None => (match Victim(bufs, order) case Some(b) => Recycle(b) case None => NoBuffers)
  }

  // ---------------------------------------------------------------
  // Steps.  A process calls bread (Get, then Fill if the buffer is not valid),
  // edits the data, logs or writes it, and releases the buffer.

  datatype Action =
    | Get(p: nat, key: Key)                 // one pass of bget
    | Fill(p: nat, b: nat)                  // bread reads the sector
    | Edit(p: nat, b: nat, data: Block)
    | Write(p: nat, b: nat)                 // bwrite
    | LogWrite(p: nat, b: nat)              // log_write pins the buffer
    | Release(p: nat, b: nat)               // brelse

  predicate Holds(s: State, p: nat, b: nat)
  {
    b < |s.bufs| == |s.owner| && s.bufs[b].busy && s.owner[b] == p && p !in s.asleep
  }

  function KeyOf(b: Buf): Key
    requires b.dev >= 0
  {
    Key(b.dev, b.sector)
  }

  /** p holds b and bread has filled it. */
  predicate Has(s: State, p: nat, b: nat)
  {
    Holds(s, p, b) && s.bufs[b].valid && s.bufs[b].dev >= 0
  }

  /** What callers may do: data changes only while the buffer is held, and a
      changed buffer is logged or written before it is released. */
  predicate Enabled(s: State, a: Action)
  {
    match a
    case Get(p, key) => p !in s.asleep && key in s.disk && |s.bufs| == |s.owner|
    case Fill(p, b) =>
      Holds(s, p, b) && !s.bufs[b].valid && !s.bufs[b].dirty
      && s.bufs[b].dev >= 0 && KeyOf(s.bufs[b]) in s.disk
    case Edit(p, b, data) => Has(s, p, b)
    case Write(p, b) => Has(s, p, b)
    case LogWrite(p, b) => Has(s, p, b)
    case Release(p, b) => Holds(s, p, b) && b !in s.edited
  }

  function ToFront(order: seq<nat>, b: nat): seq<nat>
  {
    [b] + Without(order, b)
  }

  function Without(order: seq<nat>, b: nat): (r: seq<nat>)
    ensures forall x :: x in r <==> x in order && x != b
  {
    if order == [] then []
    else if order[0] == b then Without(order[1..], b)
    else [order[0]] + Without(order[1..], b)
  }

  function SetBuf(s: State, b: nat, buf: Buf): State
    requires b < |s.bufs|
  {
    s.(bufs := s.bufs[b := buf])
  }

  function GetStep(s: State, p: nat, key: Key): State
    requires Enabled(s, Get(p, key))
  {
    match Search(s.bufs, s.order, key)
    case Hit(b) => SetBuf(s, b, s.bufs[b].(busy := true)).(owner := s.owner[b := p])
    case Wait(b) => s.(asleep := s.asleep[p := b])
    case Recycle(b) =>
      SetBuf(s, b, Buf(key.dev, key.sector, true, false, false, s.bufs[b].data)).(owner := s.owner[b := p])
    case NoBuffers => s
  }

  function Apply(s: State, a: Action): State
    requires Enabled(s, a)
  {
    match a
    case Get(p, key) => GetStep(s, p, key)
    case Fill(p, b) => SetBuf(s, b, s.bufs[b].(valid := true, data := s.disk[KeyOf(s.bufs[b])]))
    case Edit(p, b, data) => SetBuf(s, b, s.bufs[b].(data := data)).(edited := s.edited + {b})
    case Write(p, b) =>
      SetBuf(s, b, s.bufs[b].(dirty := false))
        .(disk := s.disk[KeyOf(s.bufs[b]) := s.bufs[b].data], edited := s.edited - {b})
    case LogWrite(p, b) => SetBuf(s, b, s.bufs[b].(dirty := true)).(edited := s.edited - {b})
    case Release(p, b) =>
      SetBuf(s, b, s.bufs[b].(busy := false))
        .(order := ToFront(s.order, b), asleep := map q | q in s.asleep && s.asleep[q] != b :: s.asleep[q])
  }

  // ---------------------------------------------------------------
  // What every step keeps.  saved is the logical disk: at each place the value
  // last logged or written, or else what the disk held at first.

  ghost predicate Cached(bufs: seq<Buf>, key: Key)
  {
    exists b :: 0 <= b < |bufs| && Caches(bufs[b], key)
  }

  ghost predicate Listed(s: State)
  {
    (forall b | 0 <= b < |s.bufs| :: b in s.order) && (forall b | b in s.order :: b < |s.bufs|)
  }

  ghost predicate Unique(bufs: seq<Buf>)
  {
    forall i, j | 0 <= i < j < |bufs| && bufs[i].dev >= 0 ::
      bufs[i].dev != bufs[j].dev || bufs[i].sector != bufs[j].sector
  }

  ghost predicate BufOk(s: State, saved: Disk, b: nat)
    requires b < |s.bufs|
  {
    var buf := s.bufs[b];
    && (b in s.edited ==> buf.busy && buf.valid)
    && (buf.dev < 0 ==> !buf.busy && !buf.valid && !buf.dirty)
    && (buf.dev >= 0 ==> KeyOf(buf) in saved)
    && (buf.dev >= 0 && buf.valid && b !in s.edited ==> buf.data == saved[KeyOf(buf)])
    && (buf.dirty ==> buf.valid)
    && (buf.dev >= 0 && !buf.dirty && KeyOf(buf) in s.disk ==> s.disk[KeyOf(buf)] == saved[KeyOf(buf)])
  }

  ghost predicate UncachedOk(s: State, saved: Disk, key: Key)
  {
    key in s.disk && key in saved && !Cached(s.bufs, key) ==> s.disk[key] == saved[key]
  }

  ghost predicate SleeperOk(s: State, p: nat)
    requires p in s.asleep
  {
    s.asleep[p] < |s.bufs| && s.bufs[s.asleep[p]].busy
  }

  ghost predicate Inv(s: State, saved: Disk)
  {
    && |s.bufs| == |s.owner|
    && s.disk.Keys == saved.Keys
    && Listed(s)
    && Unique(s.bufs)
    && (forall b | 0 <= b < |s.bufs| :: BufOk(s, saved, b))
    && (forall key :: UncachedOk(s, saved, key))
    && (forall p | p in s.asleep :: SleeperOk(s, p))
  }

  /** The logical disk after a step. */
  function Saved(s: State, a: Action, saved: Disk): Disk
  {
    match a
    case Write(p, b) => if Has(s, p, b) then saved[KeyOf(s.bufs[b]) := s.bufs[b].data] else saved
    case LogWrite(p, b) => if Has(s, p, b) then saved[KeyOf(s.bufs[b]) := s.bufs[b].data] else saved
    case _ => saved
  }

  /** A step that changes buffer b without moving it to another place, and the
      two disks only at that place. */
  lemma LocalKeeps(s: State, saved: Disk, b: nat, t: State, after: Disk)
    requires Inv(s, saved) && b < |s.bufs| && |t.bufs| == |s.bufs| && |t.owner| == |s.owner|
    requires t.disk.Keys == s.disk.Keys && after.Keys == saved.Keys && Listed(t)
    requires forall i | 0 <= i < |s.bufs| && i != b :: t.bufs[i] == s.bufs[i] && (i in t.edited <==> i in s.edited)
    requires t.bufs[b].dev == s.bufs[b].dev && t.bufs[b].sector == s.bufs[b].sector
    requires forall k | k in s.disk && !Caches(s.bufs[b], k) :: t.disk[k] == s.disk[k] && after[k] == saved[k]
    requires BufOk(t, after, b)
    requires forall p | p in t.asleep :: SleeperOk(t, p)
    ensures Inv(t, after)
  {
    forall i | 0 <= i < |t.bufs| ensures BufOk(t, after, i) { assert BufOk(s, saved, i); }
    forall key ensures UncachedOk(t, after, key) {
      assert UncachedOk(s, saved, key);
      if Cached(s.bufs, key) {
        var i :| 0 <= i < |s.bufs| && Caches(s.bufs[i], key);
        assert Caches(t.bufs[i], key);
      }
      assert Caches(s.bufs[b], key) ==> Caches(t.bufs[b], key);
    }
  }

  lemma HitKeeps(s: State, saved: Disk, p: nat, key: Key, b: nat)
    requires Inv(s, saved) && Enabled(s, Get(p, key)) && Search(s.bufs, s.order, key) == Hit(b)
    ensures Inv(GetStep(s, p, key), saved)
  {
    var t := GetStep(s, p, key);
    assert BufOk(s, saved, b);
    forall q | q in t.asleep ensures SleeperOk(t, q) { assert SleeperOk(s, q); }
    LocalKeeps(s, saved, b, t, saved);
  }

  lemma WaitKeeps(s: State, saved: Disk, p: nat, key: Key, b: nat)
    requires Inv(s, saved) && Enabled(s, Get(p, key)) && Search(s.bufs, s.order, key) == Wait(b)
    ensures Inv(GetStep(s, p, key), saved)
  {
    var t := GetStep(s, p, key);
    assert BufOk(s, saved, b);
    forall q | q in t.asleep ensures SleeperOk(t, q) { assert q in s.asleep ==> SleeperOk(s, q); }
    LocalKeeps(s, saved, b, t, saved);
  }

  /** The recycled buffer was clean, so the place it leaves is safe on disk; the
      place it takes was in no other buffer. */
  lemma RecycleKeeps(s: State, saved: Disk, p: nat, key: Key, b: nat)
    requires Inv(s, saved) && Enabled(s, Get(p, key)) && Search(s.bufs, s.order, key) == Recycle(b)
    ensures Inv(GetStep(s, p, key), saved)
  {
    var t := GetStep(s, p, key);
    assert BufOk(s, saved, b);
    assert !Cached(s.bufs, key);
    forall i | 0 <= i < |t.bufs| ensures BufOk(t, saved, i) {
      assert BufOk(s, saved, i);
      assert UncachedOk(s, saved, key);
    }
    forall k ensures UncachedOk(t, saved, k) {
      assert UncachedOk(s, saved, k);
      if Cached(s.bufs, k) {
        var i :| 0 <= i < |s.bufs| && Caches(s.bufs[i], k);
        assert i != b ==> Caches(t.bufs[i], k);
      }
    }
    forall q | q in t.asleep ensures SleeperOk(t, q) { assert SleeperOk(s, q); }
  }

  lemma StepKeeps(s: State, a: Action, saved: Disk)
    requires Inv(s, saved) && Enabled(s, a)
    ensures Inv(Apply(s, a), Saved(s, a, saved))
  {
    var t, after := Apply(s, a), Saved(s, a, saved);
    match a
    case Get(p, key) =>
      match Search(s.bufs, s.order, key) {
        case Hit(b) => HitKeeps(s, saved, p, key, b);
        case Wait(b) => WaitKeeps(s, saved, p, key, b);
        case Recycle(b) => RecycleKeeps(s, saved, p, key, b);
        case NoBuffers =>
      }
    case Fill(p, b) => ChangeKeeps(s, a, b, saved);
    case Edit(p, b, data) => ChangeKeeps(s, a, b, saved);
    case Write(p, b) => ChangeKeeps(s, a, b, saved);
    case LogWrite(p, b) => ChangeKeeps(s, a, b, saved);
    case Release(p, b) => ChangeKeeps(s, a, b, saved);
  }

  lemma ChangeKeeps(s: State, a: Action, b: nat, saved: Disk)
    requires Inv(s, saved) && Enabled(s, a) && !a.Get? && a.b == b
    ensures Inv(Apply(s, a), Saved(s, a, saved))
  {
    var t, after := Apply(s, a), Saved(s, a, saved);
    assert BufOk(s, saved, b);
    forall q | q in t.asleep ensures SleeperOk(t, q) { assert SleeperOk(s, q); }
    LocalKeeps(s, saved, b, t, after);
  }

  // ---------------------------------------------------------------
  // Whole runs.

  /** binit's state. */
  ghost predicate Fresh(s: State)
  {
    && |s.bufs| == |s.owner| && Listed(s) && s.asleep == map[] && s.edited == {}
    && forall b | 0 <= b < |s.bufs| ::
         s.bufs[b].dev == -1 && !s.bufs[b].busy && !s.bufs[b].valid && !s.bufs[b].dirty
  }

  /** The steps taken, latest last, each with the state it was taken in. */
  datatype Run = Begin | Step(prior: Run, state: State, action: Action)

  ghost predicate Runs(s: State, run: Run, t: State)
  {
    match run
    case Begin => s == t
    case Step(prior, u, a) => Runs(s, prior, u) && Enabled(u, a) && t == Apply(u, a)
  }

  /** At each place the data last passed to bwrite or log_write, or else what
      the disk held at the start. */
  function LastSaved(disk: Disk, run: Run): Disk
  {
    match run
    case Begin => disk
    case Step(prior, u, a) => Saved(u, a, LastSaved(disk, prior))
  }

  lemma {:induction false} RunKeeps(s: State, run: Run, t: State)
    requires Fresh(s) && Runs(s, run, t)
    ensures Inv(t, LastSaved(s.disk, run))
  {
    match run
    case Begin =>
      assert forall key :: UncachedOk(s, s.disk, key);
    case Step(prior, u, a) =>
      RunKeeps(s, prior, u);
      StepKeeps(u, a, LastSaved(s.disk, prior));
  }

  /** No two buffers ever cache the same place. */
  lemma OneBuffer(s: State, run: Run, t: State, i: nat, j: nat, key: Key)
    requires Fresh(s) && Runs(s, run, t)
    requires i < |t.bufs| && j < |t.bufs| && Caches(t.bufs[i], key) && Caches(t.bufs[j], key)
    ensures i == j
  {
    RunKeeps(s, run, t);
  }

  /** In every run, when bget gives p a buffer, bread goes on to return the data
      last logged or written at that place, or else the disk's. */
  lemma BreadReturnsLast(s: State, run: Run, t: State, p: nat, key: Key, b: nat)
    requires Fresh(s) && Runs(s, run, t) && Enabled(t, Get(p, key))
    requires Search(t.bufs, t.order, key) in {Hit(b), Recycle(b)}
    ensures var u := Apply(t, Get(p, key));
            Holds(u, p, b) && Caches(u.bufs[b], key) && (!u.bufs[b].valid ==> Enabled(u, Fill(p, b)))
    ensures key in LastSaved(s.disk, run)
    ensures var u := Apply(t, Get(p, key));
            var v := if Enabled(u, Fill(p, b)) then Apply(u, Fill(p, b)) else u;
            Has(v, p, b) && v.bufs[b].data == LastSaved(s.disk, run)[key]
  {
    var u, saved := Apply(t, Get(p, key)), LastSaved(s.disk, run);
    RunKeeps(s, run, t);
    StepKeeps(t, Get(p, key), saved);
    assert BufOk(t, saved, b);
    assert BufOk(u, saved, b);
  }

  /** Only bwrite makes a dirty buffer clean, and no step moves it. */
  lemma DirtyStays(s: State, a: Action, b: nat)
    requires Enabled(s, a) && b < |s.bufs| && s.bufs[b].dirty
    ensures b < |Apply(s, a).bufs|
    ensures Apply(s, a).bufs[b].dev == s.bufs[b].dev && Apply(s, a).bufs[b].sector == s.bufs[b].sector
    ensures Apply(s, a).bufs[b].dirty <==> !(a.Write? && a.b == b)
  {
  }

  ghost predicate NeverWritten(run: Run, b: nat)
  {
    run.Step? ==> NeverWritten(run.prior, b) && !(run.action.Write? && run.action.b == b)
  }

  /** A buffer that log_write pinned stays in the cache, at its place, in every
      run that does not write it. */
  lemma {:induction false} PinnedUntilWritten(s: State, run: Run, t: State, b: nat)
    requires Runs(s, run, t) && NeverWritten(run, b)
    requires b < |s.bufs| && s.bufs[b].dirty
    ensures b < |t.bufs| && t.bufs[b].dirty
    ensures t.bufs[b].dev == s.bufs[b].dev && t.bufs[b].sector == s.bufs[b].sector
  {
    if run.Step? {
      PinnedUntilWritten(s, run.prior, run.state, b);
      DirtyStays(run.state, run.action, b);
    }
  }

  /** bget panics exactly when the place is not cached and every buffer is busy
      or dirty. */
  lemma PanicsWhenFull(s: State, run: Run, t: State, key: Key)
    requires Fresh(s) && Runs(s, run, t)
    ensures Search(t.bufs, t.order, key) == NoBuffers <==>
            !Cached(t.bufs, key) && forall b | 0 <= b < |t.bufs| :: t.bufs[b].busy || t.bufs[b].dirty
  {
    RunKeeps(s, run, t);
  }
}

/** The list of bio.c: a ring of buffers linked through prev and next, with the
    head as one more node. */
module BcacheRing {
  import opened Blocks
  import opened Bcache
  import opened Options

  /** Node i of the ring: the head, the buffers, then the head again. */
  function Node(order: seq<nat>, head: nat, i: nat): nat
  {
    if 0 < i <= |order| then order[i - 1] else head
  }

  ghost predicate LinkedAt(next: seq<nat>, prev: seq<nat>, order: seq<nat>, head: nat, i: nat)
    requires |next| == |prev| == head + 1
  {
    var (a, b) := (Node(order, head, i), Node(order, head, i + 1));
    i <= |order| && a <= head && b <= head ==> next[a] == b && prev[b] == a
  }

  ghost predicate Ring(next: seq<nat>, prev: seq<nat>, order: seq<nat>, head: nat)
  {
    && |next| == |prev| == head + 1
    && (forall i | 0 <= i < |order| :: order[i] < head)
    && (forall i, j | 0 <= i < j < |order| :: order[i] != order[j])
    && (forall i: nat :: LinkedAt(next, prev, order, head, i))
  }

  /** Node number k taken out of the ring. */
  function Cut(order: seq<nat>, k: nat): seq<nat>
    requires k < |order|
  {
    order[..k] + order[k + 1..]
  }

  lemma CutNode(order: seq<nat>, head: nat, k: nat, i: nat)
    requires k < |order|
    ensures Node(Cut(order, k), head, i) == Node(order, head, if i <= k then i else i + 1)
  {
  }

  lemma {:induction false} CutRing(next: seq<nat>, prev: seq<nat>, order: seq<nat>, head: nat, k: nat,
                                   next': seq<nat>, prev': seq<nat>)
    requires Ring(next, prev, order, head) && k < |order|
    requires var (a, c) := (Node(order, head, k), Node(order, head, k + 2));
             a <= head && c <= head && next' == next[a := c] && prev' == prev[c := a]
    ensures Ring(next', prev', Cut(order, k), head)
  {
    forall i: nat ensures LinkedAt(next', prev', Cut(order, k), head, i) {
      var j := if i <= k then i else i + 1;
      CutNode(order, head, k, i);
      CutNode(order, head, k, i + 1);
      assert LinkedAt(next, prev, order, head, j);
    }
  }

  lemma {:induction false} PushRing(next: seq<nat>, prev: seq<nat>, order: seq<nat>, head: nat, b: nat,
                                    next': seq<nat>, prev': seq<nat>)
    requires Ring(next, prev, order, head) && b < head && b !in order
    requires var c := Node(order, head, 1);
             c <= head && next' == next[b := c][head := b] && prev' == prev[b := head][c := b]
    ensures Ring(next', prev', [b] + order, head)
  {
    forall i: nat ensures LinkedAt(next', prev', [b] + order, head, i) {
      if i > 0 { assert LinkedAt(next, prev, order, head, i - 1); }
    }
  }

  lemma {:induction false} WithoutIsCut(order: seq<nat>, k: nat)
    requires k < |order| && forall i, j | 0 <= i < j < |order| :: order[i] != order[j]
    ensures Without(order, order[k]) == Cut(order, k)
  {
    if k == 0 {
      WithoutAbsent(order[1..], order[0]);
    } else {
      WithoutIsCut(order[1..], k - 1);
      assert Cut(order, k) == [order[0]] + Cut(order[1..], k - 1);
    }
  }

  lemma {:induction false} WithoutAbsent(order: seq<nat>, b: nat)
    requires b !in order
    ensures Without(order, b) == order
  {
    if order != [] {
      WithoutAbsent(order[1..], b);
    }
  }

  class Cache {
    const head: nat
    const next: array<nat>
    const prev: array<nat>
    const bufs: array<Buf>
    ghost var order: seq<nat>

    ghost predicate Valid()
      reads this, next, prev, bufs
    {
      && next != prev && next.Length == prev.Length == head + 1 && bufs.Length == head
      && Ring(next[..], prev[..], order, head)
    }

    /** The start of binit: an empty ring, and buffers of no device. */
    constructor (n: nat)
      ensures Valid() && head == n && order == [] && fresh(next) && fresh(prev) && fresh(bufs)
      ensures forall b | 0 <= b < n :: bufs[b] == Buf(-1, 0, false, false, false, ZeroBlock())
    {
      head := n;
      next := new nat[n + 1](_ => n);
      prev := new nat[n + 1](_ => n);
      bufs := new Buf[n](_ => Buf(-1, 0, false, false, false, ZeroBlock()));
      order := [];
    }

    /** Put b at the head of the list. */
    method Push(b: nat)
      requires Valid() && b < head && b !in order
      modifies this, next, prev
      ensures Valid() && order == [b] + old(order)
    {
      assert LinkedAt(next[..], prev[..], order, head, 0);
      next[b] := next[head];
      prev[b] := head;
      prev[next[head]] := b;
      next[head] := b;
      PushRing(old(next[..]), old(prev[..]), order, head, b, next[..], prev[..]);
      order := [b] + order;
    }

    method Unlink(b: nat, ghost k: nat)
      requires Valid() && k < |order| && order[k] == b
      modifies this, next, prev
      ensures Valid() && order == Cut(old(order), k)
    {
      assert LinkedAt(next[..], prev[..], order, head, k);
      assert LinkedAt(next[..], prev[..], order, head, k + 1);
      prev[next[b]] := prev[b];
      next[prev[b]] := next[b];
      CutRing(old(next[..]), old(prev[..]), order, head, k, next[..], prev[..]);
      order := Cut(order, k);
    }

    /** The loop of binit. */
    method Binit()
      requires Valid() && order == []
      modifies this, next, prev
      ensures Valid()
      ensures |order| == head && forall b | 0 <= b < head :: b in order
    {
      for b := 0 to head
        invariant Valid()
        invariant |order| == b && (forall x | 0 <= x < b :: x in order) && (forall x | x in order :: x < b)
      {
        Push(b);
      }
    }

    method FindSector(key: Key) returns (r: Option<nat>)
      requires Valid()
      ensures r == Lookup(bufs[..], order, key)
    {
      assert LinkedAt(next[..], prev[..], order, head, 0);
      var b := next[head];
      ghost var i := 0;
      while b != head
        invariant i <= |order| && b == Node(order, head, i + 1)
        invariant Lookup(bufs[..], order, key) == Lookup(bufs[..], order[i..], key)
        decreases |order| - i
      {
        assert LinkedAt(next[..], prev[..], order, head, i + 1);
        assert order[i..][1..] == order[i + 1..];
        if bufs[b].dev == key.dev && bufs[b].sector == key.sector {
          return Some(b);
        }
        b := next[b];
        i := i + 1;
      }
      r := None;
    }

    method FindVictim() returns (r: Option<nat>)
      requires Valid()
      ensures r == Victim(bufs[..], order)
    {
      assert LinkedAt(next[..], prev[..], order, head, |order|);
      var b := prev[head];
      ghost var i := |order|;
      assert order[..i] == order;
      while b != head
        invariant 0 <= i <= |order| && b == Node(order, head, i)
        invariant Victim(bufs[..], order) == Victim(bufs[..], order[..i])
        decreases i
      {
        assert LinkedAt(next[..], prev[..], order, head, i - 1);
        assert order[..i][..i - 1] == order[..i - 1];
        if !bufs[b].busy && !bufs[b].dirty {
          return Some(b);
        }
        b := prev[b];
        i := i - 1;
      }
      r := None;
    }

    /** One pass of bget; a caller that is told to wait sleeps and calls again. */
    method Bget(key: Key, ghost s: State, ghost p: nat) returns (r: Found)
      requires Valid() && s.bufs == bufs[..] && s.order == order && Enabled(s, Get(p, key))
      modifies bufs
      ensures Valid()
      ensures r == Search(s.bufs, s.order, key)
      ensures bufs[..] == Apply(s, Get(p, key)).bufs && order == Apply(s, Get(p, key)).order
    {
      var hit := FindSector(key);
      if hit.Some? {
        if bufs[hit.value].busy { return Wait(hit.value); }
        bufs[hit.value] := bufs[hit.value].(busy := true);
        return Hit(hit.value);
      }
      var victim := FindVictim();
      if victim.Some? {
        bufs[victim.value] := Buf(key.dev, key.sector, true, false, false, bufs[victim.value].data);
        return Recycle(victim.value);
      }
      r := NoBuffers;
    }

    /** brelse; the result is false where the source panics. */
    method Brelse(b: nat, ghost s: State, ghost p: nat) returns (ok: bool)
      requires Valid() && b < head && b in order && s.bufs == bufs[..] && s.order == order
      modifies this, next, prev, bufs
      ensures Valid()
      ensures ok <==> s.bufs[b].busy
      ensures !ok ==> bufs[..] == s.bufs && order == s.order
      ensures Enabled(s, Release(p, b)) ==>
                bufs[..] == Apply(s, Release(p, b)).bufs && order == Apply(s, Release(p, b)).order
    {
      if !bufs[b].busy { return false; }
      ghost var k :| 0 <= k < |order| && order[k] == b;
      WithoutIsCut(order, k);
      Unlink(b, k);
      Push(b);
      bufs[b] := bufs[b].(busy := false);
      ok := true;
    }
  }
}
