/** The redo log (log.c) over a write-through buffer cache, with a crash
    possible between any two sector writes. */
module RedoLog {
  import opened Blocks

  const LOGSIZE: nat := 10

  ghost predicate Below(secs: seq<nat>, bound: nat)
  {
    forall i | 0 <= i < |secs| :: secs[i] < bound
  }

  /** The file-system disk: the home sectors below log.start, the log header,
      and the log blocks after it. LogLayout places them in raw sectors. */
  datatype Disk = Disk(home: seq<Block>, head: seq<nat>, slots: seq<Block>)

  /** The sectors that pass through the buffer cache as plain data. */
  datatype Addr = Home(sector: nat) | Slot(index: nat)

  predicate InRange(d: Disk, a: Addr)
  {
    match a
    case Home(s) => s < |d.home|
    case Slot(i) => i < |d.slots|
  }

  function Fetch(d: Disk, a: Addr): Block
    requires InRange(d, a)
  {
    match a
    case Home(s) => d.home[s]
    case Slot(i) => d.slots[i]
  }

  function Store(d: Disk, a: Addr, b: Block): Disk
    requires InRange(d, a)
  {
    match a
    case Home(s) => d.(home := d.home[s := b])
    case Slot(i) => d.(slots := d.slots[i := b])
  }

  ghost predicate WfDisk(d: Disk)
  {
    |d.head| <= LOGSIZE && |d.head| <= |d.slots| && Below(d.head, |d.home|)
  }

  // ---------------------------------------------------------------
  // Replaying logged blocks onto the home sectors.

  ghost function Replay(home: seq<Block>, secs: seq<nat>, blocks: seq<Block>): (r: seq<Block>)
    requires |secs| <= |blocks|
    requires Below(secs, |home|)
    ensures |r| == |home|
  {
    if secs == [] then home
    else
      var k := |secs| - 1;
      Replay(home, secs[..k], blocks)[secs[k] := blocks[k]]
  }

  lemma {:induction false} ReplayUntouched(home: seq<Block>, secs: seq<nat>, blocks: seq<Block>, x: nat)
    requires |secs| <= |blocks|
    requires Below(secs, |home|)
    requires x < |home| && x !in secs
    ensures Replay(home, secs, blocks)[x] == home[x]
  {
    if secs != [] {
      ReplayUntouched(home, secs[..|secs| - 1], blocks, x);
    }
  }

  /** Where a sector is replayed, its old contents do not matter. */
  lemma {:induction false} ReplayAgrees(h1: seq<Block>, h2: seq<Block>, secs: seq<nat>, blocks: seq<Block>, x: nat)
    requires |secs| <= |blocks| && |h1| == |h2|
    requires Below(secs, |h1|)
    requires x < |h1| && (x in secs || h1[x] == h2[x])
    ensures Replay(h1, secs, blocks)[x] == Replay(h2, secs, blocks)[x]
  {
    if secs != [] {
      var k := |secs| - 1;
      if x != secs[k] {
        assert x in secs ==> x in secs[..k];
        ReplayAgrees(h1, h2, secs[..k], blocks, x);
      }
    }
  }

  /** Redo is idempotent, even from a half-finished earlier redo. */
  lemma ReplayAfterPartial(home: seq<Block>, secs: seq<nat>, blocks: seq<Block>, k: nat)
    requires |secs| <= |blocks| && k <= |secs|
    requires Below(secs, |home|)
    ensures Replay(Replay(home, secs[..k], blocks), secs, blocks) == Replay(home, secs, blocks)
  {
    var part := Replay(home, secs[..k], blocks);
    forall x | 0 <= x < |home|
      ensures Replay(part, secs, blocks)[x] == Replay(home, secs, blocks)[x]
    {
      if x !in secs {
        ReplayUntouched(home, secs[..k], blocks, x);
      }
      ReplayAgrees(part, home, secs, blocks, x);
    }
  }

  lemma {:induction false} ReplayPrefix(home: seq<Block>, secs: seq<nat>, b1: seq<Block>, b2: seq<Block>)
    requires |secs| <= |b1| && |secs| <= |b2|
    requires Below(secs, |home|)
    requires b1[..|secs|] == b2[..|secs|]
    ensures Replay(home, secs, b1) == Replay(home, secs, b2)
  {
    if secs != [] {
      var k := |secs| - 1;
      assert b1[..k] == b1[..|secs|][..k] == b2[..k];
      assert b1[k] == b1[..|secs|][k] == b2[k];
      ReplayPrefix(home, secs[..k], b1, b2);
    }
  }

  ghost predicate Distinct(secs: seq<nat>)
  {
    forall i, j | 0 <= i < j < |secs| :: secs[i] != secs[j]
  }

  /** Log absorption: rewriting the one logged copy of a sector is the same
      as writing that sector after everything else. */
  lemma {:induction false} ReplayAbsorb(home: seq<Block>, secs: seq<nat>, blocks: seq<Block>, i: nat, data: Block)
    requires |secs| <= |blocks| && i < |secs| && Distinct(secs)
    requires Below(secs, |home|)
    ensures Replay(home, secs, blocks[i := data]) == Replay(home, secs, blocks)[secs[i] := data]
  {
    var k := |secs| - 1;
    if i == k {
      ReplayPrefix(home, secs[..k], blocks[i := data], blocks);
    } else {
      ReplayAbsorb(home, secs[..k], blocks, i, data);
    }
  }

  /** Slot i holds sector s, or is the first free one when no slot does. */
  ghost predicate IsSlotFor(secs: seq<nat>, s: nat, i: nat)
  {
    (i < |secs| && secs[i] == s) || (i == |secs| && s !in secs)
  }

  ghost function Logged(secs: seq<nat>, s: nat): seq<nat>
  {
    if s in secs then secs else secs + [s]
  }

  lemma LoggedReplay(home: seq<Block>, secs: seq<nat>, blocks: seq<Block>, s: nat, i: nat, data: Block)
    requires |secs| <= |blocks| && i < |blocks| && Distinct(secs)
    requires Below(secs, |home|) && s < |home|
    requires IsSlotFor(secs, s, i)
    ensures Distinct(Logged(secs, s)) && Below(Logged(secs, s), |home|)
    ensures Replay(home, Logged(secs, s), blocks[i := data]) == Replay(home, secs, blocks)[s := data]
  {
    if i < |secs| {
      ReplayAbsorb(home, secs, blocks, i, data);
    } else {
      ReplayAppend(home, secs, blocks, s, data);
    }
  }

  /** Logging a sector for the first time appends it. */
  lemma ReplayAppend(home: seq<Block>, secs: seq<nat>, blocks: seq<Block>, s: nat, data: Block)
    requires |secs| < |blocks| && Below(secs, |home|) && s < |home|
    ensures Below(secs + [s], |home|)
    ensures Replay(home, secs + [s], blocks[|secs| := data]) == Replay(home, secs, blocks)[s := data]
  {
    assert (secs + [s])[..|secs|] == secs;
    ReplayPrefix(home, secs, blocks[|secs| := data], blocks);
  }

  // ---------------------------------------------------------------
  // Recovery, and what a disk image will recover to.

  /** The home sectors once recovery from image `d` completes. */
  ghost function Recovered(d: Disk): (r: seq<Block>)
    requires WfDisk(d)
    ensures |r| == |d.home|
  {
    Replay(d.home, d.head, d.slots)
  }

  ghost predicate RecoversTo(d: Disk, home: seq<Block>)
  {
    WfDisk(d) && Recovered(d) == home
  }

  /** The image after the first k sector writes of recovery from `d`: one
      install per header entry, then the erasing header write. */
  ghost function RecoveryImage(d: Disk, k: nat): Disk
    requires WfDisk(d)
    requires k <= |d.head| + 1
  {
    if k <= |d.head| then d.(home := Replay(d.home, d.head[..k], d.slots))
    else d.(home := Recovered(d), head := [])
  }

  /** Wherever recovery is cut short, the image still recovers to the same home. */
  lemma RecoveryCrashSafe(d: Disk, k: nat)
    requires WfDisk(d)
    requires k <= |d.head| + 1
    ensures RecoversTo(RecoveryImage(d, k), Recovered(d))
  {
    if k <= |d.head| {
      ReplayAfterPartial(d.home, d.head, d.slots, k);
    }
  }

  /** Installing one more block takes recovery one image further. */
  lemma InstallStep(d: Disk, k: nat)
    requires WfDisk(d) && k < |d.head|
    ensures Store(RecoveryImage(d, k), Home(d.head[k]), d.slots[k]) == RecoveryImage(d, k + 1)
  {
    assert d.head[..k + 1][..k] == d.head[..k];
  }

  /** A recovery that crashes after crashes[0] writes, restarts, crashes after
      crashes[1] writes, and so on, leaving image `last`. */
  ghost predicate CrashChain(d: Disk, crashes: seq<nat>, last: Disk)
    requires WfDisk(d)
    decreases |crashes|
  {
    if crashes == [] then last == d
    else
      && crashes[0] <= |d.head| + 1
      && var d1 := RecoveryImage(d, crashes[0]);
         WfDisk(d1) && CrashChain(d1, crashes[1..], last)
  }

  /** However often recovery crashes, a completed recovery afterwards leaves
      exactly the home sectors the first image promised, and an empty log. */
  lemma {:induction false} RecoverySurvivesCrashes(d: Disk, crashes: seq<nat>, last: Disk)
    requires WfDisk(d)
    requires CrashChain(d, crashes, last)
    ensures RecoversTo(last, Recovered(d))
    ensures RecoveryImage(last, |last.head| + 1) == d.(home := Recovered(d), head := [])
    decreases |crashes|
  {
    if crashes != [] {
      RecoveryCrashSafe(d, crashes[0]);
      RecoverySurvivesCrashes(RecoveryImage(d, crashes[0]), crashes[1..], last);
    }
  }

  // ---------------------------------------------------------------
  // The disk's history.

  /** The images the disk has had; each write notes how many transactions
      are durable after it. */
  datatype History =
    | Boot(image: Disk)
    | Write(before: History, image: Disk, durable: nat)
  {
    function Durable(): nat
    {
      if Boot? then 0 else durable
    }
  }

  /** Every image recovers to the state of some whole number of committed
      transactions, and that number never goes down. */
  ghost predicate Atomic(h: History, homes: seq<seq<Block>>)
  {
    && h.Durable() < |homes|
    && RecoversTo(h.image, homes[h.Durable()])
    && (h.Write? ==> Atomic(h.before, homes) && h.before.Durable() <= h.durable)
  }

  /** The history after the first k writes of recovery from d. */
  ghost function RecoveryHistory(h: History, d: Disk, k: nat, durable: nat): History
    requires WfDisk(d)
    requires k <= |d.head| + 1
  {
    if k == 0 then h
    else Write(RecoveryHistory(h, d, k - 1, durable), RecoveryImage(d, k), durable)
  }

  /** h is a moment in the past of g. */
  ghost predicate Within(h: History, g: History)
  {
    h == g || (g.Write? && Within(h, g.before))
  }

  lemma {:induction false} AtomicWithin(h: History, g: History, homes: seq<seq<Block>>)
    requires Atomic(g, homes) && Within(h, g)
    ensures Atomic(h, homes) && h.Durable() <= g.Durable()
  {
    if h != g {
      AtomicWithin(h, g.before, homes);
    }
  }

  lemma {:induction false} AtomicPrefix(h: History, homes: seq<seq<Block>>, more: seq<seq<Block>>)
    requires h.Durable() < |homes| <= |more| && homes == more[..|homes|]
    ensures Atomic(h, homes) <==> Atomic(h, more)
  {
    if h.Write? && h.before.Durable() <= h.durable {
      AtomicPrefix(h.before, homes, more);
    }
  }

  /** Crash atomicity: stop at any moment h of a history, crash any number of
      times during recovery, then recover. The home sectors are those of
      exactly the first h.Durable() transactions. */
  lemma CrashAtomicity(h: History, g: History, homes: seq<seq<Block>>, crashes: seq<nat>, last: Disk)
    requires Atomic(g, homes) && Within(h, g)
    requires WfDisk(h.image) && CrashChain(h.image, crashes, last)
    ensures WfDisk(last) && h.Durable() <= g.Durable() < |homes|
    ensures RecoveryImage(last, |last.head| + 1).home == homes[h.Durable()]
    ensures RecoveryImage(last, |last.head| + 1).head == []
  {
    AtomicWithin(h, g, homes);
    RecoverySurvivesCrashes(h.image, crashes, last);
  }

  // ---------------------------------------------------------------
  // One transaction.

  /** The home sectors after the writes, one after another. */
  function Written(home: seq<Block>, writes: seq<(nat, Block)>): (r: seq<Block>)
    ensures |r| == |home|
  {
    if writes == [] then home
    else
      var (s, data) := writes[|writes| - 1];
      var h := Written(home, writes[..|writes| - 1]);
      if s < |h| then h[s := data] else h
  }

  /** The sectors that the log holds after the writes. */
  ghost function SectorsOf(writes: seq<(nat, Block)>): seq<nat>
  {
    if writes == [] then [] else Logged(SectorsOf(writes[..|writes| - 1]), writes[|writes| - 1].0)
  }

  /** The log has room for a write after all but the last. */
  ghost predicate Fits(writes: seq<(nat, Block)>, slots: nat)
  {
    writes == [] || (|SectorsOf(writes[..|writes| - 1])| < LOGSIZE && |SectorsOf(writes[..|writes| - 1])| < slots)
  }

  lemma {:induction false} SectorsGrow(writes: seq<(nat, Block)>, i: nat)
    requires i <= |writes|
    ensures |SectorsOf(writes[..i])| <= |SectorsOf(writes)|
  {
    if i < |writes| {
      SectorsGrow(writes[..|writes| - 1], i);
      assert writes[..|writes| - 1][..i] == writes[..i];
    } else {
      assert writes[..i] == writes;
    }
  }

  /** A write that does not fit. */
  lemma Overflows(writes: seq<(nat, Block)>, i: nat, slots: nat)
    requires i < |writes| && (|SectorsOf(writes[..i])| >= LOGSIZE || |SectorsOf(writes[..i])| >= slots)
    ensures !Fits(writes, slots)
  {
    SectorsGrow(writes[..|writes| - 1], i);
    assert writes[..|writes| - 1][..i] == writes[..i];
  }

  lemma OneWrite(home: seq<Block>, writes: seq<(nat, Block)>, i: nat)
    requires i < |writes| && writes[i].0 < |home|
    ensures Written(home, writes[..i + 1]) == Written(home, writes[..i])[writes[i].0 := writes[i].1]
    ensures SectorsOf(writes[..i + 1]) == Logged(SectorsOf(writes[..i]), writes[i].0)
  {
    assert writes[..i + 1][..i] == writes[..i];
  }

  lemma {:induction false} WithinTrans(a: History, b: History, c: History)
    requires Within(a, b) && Within(b, c)
    ensures Within(a, c)
  {
    if b != c { WithinTrans(a, b, c.before); }
  }

  /** Of two moments of one history, one is in the past of the other. */
  lemma {:induction false} WithinLinear(a: History, b: History, g: History)
    requires Within(a, g) && Within(b, g)
    ensures Within(a, b) || Within(b, a)
  {
    if a != g && b != g { WithinLinear(a, b, g.before); }
  }

  lemma {:induction false} RecoveryWithin(h: History, d: Disk, k: nat, durable: nat)
    requires WfDisk(d) && k <= |d.head| + 1
    ensures Within(h, RecoveryHistory(h, d, k, durable))
  {
    if k > 0 { RecoveryWithin(h, d, k - 1, durable); }
  }

  /** Crash at any moment h from start to end, crash any number of times during
      recovery, then recover: the home sectors are exactly those in after if the
      write commit has happened by then, else exactly those in before. */
  ghost predicate AllOrNothing(start: History, commit: History, end: History, before: seq<Block>, after: seq<Block>)
  {
    forall h, crashes, last | Within(start, h) && Within(h, end) && WfDisk(h.image)
      && CrashChain(h.image, crashes, last) ::
      && WfDisk(last) && RecoveryImage(last, |last.head| + 1).head == []
      && RecoveryImage(last, |last.head| + 1).home == if Within(commit, h) then after else before
  }

  /** A history in which no transaction becomes durable. */
  lemma NothingCommitted(start: History, commit: History, end: History, homes: seq<seq<Block>>, before: seq<Block>)
    requires Atomic(end, homes) && Within(start, end) && start.Durable() == end.Durable()
    requires start.Durable() < |homes| && before == homes[start.Durable()]
    ensures AllOrNothing(start, commit, end, before, before)
  {
    forall h, crashes, last | Within(start, h) && Within(h, end) && WfDisk(h.image)
      && CrashChain(h.image, crashes, last)
      ensures WfDisk(last) && RecoveryImage(last, |last.head| + 1).head == []
      ensures RecoveryImage(last, |last.head| + 1).home == before
    {
      AtomicWithin(h, end, homes);
      AtomicWithin(start, h, homes);
      CrashAtomicity(h, end, homes, crashes, last);
    }
  }

  lemma DurableBetween(start: History, h: History, end: History, homes: seq<seq<Block>>)
    requires Atomic(end, homes) && Within(start, h) && Within(h, end)
    ensures Atomic(h, homes) && start.Durable() <= h.Durable() <= end.Durable()
  {
    AtomicWithin(h, end, homes);
    AtomicWithin(start, h, homes);
  }

  lemma BeforeCommit(h: History, commit: History, homes: seq<seq<Block>>)
    requires Atomic(commit, homes) && commit.Write? && Within(h, commit) && h != commit
    ensures h.Durable() <= commit.before.Durable()
  {
    AtomicWithin(h, commit.before, homes);
  }

  lemma NotYet(h: History, commit: History, end: History, homes: seq<seq<Block>>)
    requires Atomic(end, homes) && Within(h, end) && Within(commit, end) && !Within(commit, h) && commit.Write?
    ensures h.Durable() <= commit.before.Durable()
  {
    WithinLinear(h, commit, end);
    AtomicWithin(commit, end, homes);
    BeforeCommit(h, commit, homes);
  }

  /** Moment h has the new transaction durable exactly if commit is in its past. */
  lemma DurableIff(start: History, commit: History, end: History, homes: seq<seq<Block>>, h: History)
    requires Atomic(end, homes) && Within(start, h) && Within(h, end) && Within(commit, end) && commit.Write?
    requires commit.before.Durable() == start.Durable() && commit.Durable() == end.Durable() == start.Durable() + 1
    ensures h.Durable() == start.Durable() + if Within(commit, h) then 1 else 0
  {
    DurableBetween(start, h, end, homes);
    if Within(commit, h) {
      DurableBetween(commit, h, end, homes);
    } else {
      NotYet(h, commit, end, homes);
    }
  }

  lemma OneCommitted(start: History, commit: History, end: History, homes: seq<seq<Block>>,
                     before: seq<Block>, after: seq<Block>)
    requires Atomic(end, homes) && Within(start, end) && Within(commit, end) && commit.Write?
    requires commit.before.Durable() == start.Durable() && commit.Durable() == end.Durable() == start.Durable() + 1
    requires end.Durable() < |homes| && before == homes[start.Durable()] && after == homes[end.Durable()]
    ensures AllOrNothing(start, commit, end, before, after)
  {
    forall h, crashes, last | Within(start, h) && Within(h, end) && WfDisk(h.image)
      && CrashChain(h.image, crashes, last)
      ensures WfDisk(last) && RecoveryImage(last, |last.head| + 1).head == []
      ensures RecoveryImage(last, |last.head| + 1).home == if Within(commit, h) then after else before
    {
      DurableIff(start, commit, end, homes, h);
      CrashAtomicity(h, end, homes, crashes, last);
    }
  }

  // ---------------------------------------------------------------
  // The log itself.

  datatype Outcome = Done | TooBig | OutsideTrans | Asleep

  /** A cached copy of a sector; dirty buffers are never evicted. */
  datatype Buf = Buf(data: Block, dirty: bool)

  function CleanKeys(cache: map<Addr, Buf>): set<Addr>
  {
    set a | a in cache && !cache[a].dirty
  }

  class Log {
    const sector: array<nat>
    var n: nat
    var busy: bool
    var disk: Disk
    var cache: map<Addr, Buf>

    ghost var after: seq<Block>       // the home sectors as the open transaction leaves them
    ghost var homes: seq<seq<Block>>  // the committed states, oldest first
    ghost var history: History

    /** What survives a crash. */
    ghost predicate Stable()
      reads this
    {
      && sector.Length == LOGSIZE
      && Atomic(history, homes)
      && history.image == disk
    }

    /** The in-memory header fits the disk. */
    ghost predicate HeaderOk()
      reads this, sector
    {
      && sector.Length == LOGSIZE
      && n <= LOGSIZE && n <= |disk.slots|
      && Below(sector[..n], |disk.home|)
    }

    /** Apart from the home sectors in `dirty`, every cached buffer is a clean
        copy of its sector. */
    ghost predicate Coherent(dirty: seq<nat>)
      reads this
    {
      forall a | a in cache ::
        InRange(disk, a) && (a.Slot? || a.sector !in dirty ==> cache[a] == Buf(Fetch(disk, a), false))
    }

    /** The logged sectors are cached, dirty, with their latest contents. */
    ghost predicate Pinned(secs: seq<nat>)
      reads this
    {
      forall s | s in secs :: s < |after| && Home(s) in cache && cache[Home(s)] == Buf(after[s], true)
    }

    ghost predicate Valid()
      reads this, sector
    {
      && Stable() && HeaderOk()
      && history.Durable() == |homes| - 1
      && Distinct(sector[..n])
      && disk.head == []
      && Coherent(sector[..n])
      && after == Replay(disk.home, sector[..n], disk.slots)
      && Pinned(sector[..n])
      && (!busy ==> n == 0)
    }

    /** What a read of sector a returns. */
    ghost function View(a: Addr): Block
      requires InRange(disk, a)
      reads this
    {
      if a in cache then cache[a].data else Fetch(disk, a)
    }

    /** Inside a transaction or not, a home sector reads as it was last logged. */
    lemma ReadsLastLogged(s: nat)
      requires Valid() && s < |disk.home|
      ensures View(Home(s)) == after[s]
    {
      if s !in sector[..n] {
        ReplayUntouched(disk.home, sector[..n], disk.slots, s);
      }
    }

    method Bread(a: Addr) returns (data: Block)
      requires InRange(disk, a)
      modifies this`cache
      ensures data == View(a) == old(View(a))
      ensures a in cache
      ensures forall x | x in old(cache) && old(cache)[x].dirty :: x in cache && cache[x] == old(cache)[x]
      ensures forall x | x in cache ::
                (x in old(cache) && cache[x] == old(cache)[x]) || (x == a && cache[x] == Buf(Fetch(disk, a), false))
    {
      if a !in cache {
        // Recycle clean buffers, whichever they are.
        var clean := CleanKeys(cache);
        var victims :| victims <= clean;
        cache := (cache - victims)[a := Buf(Fetch(disk, a), false)];
      }
      data := cache[a].data;
    }

    /** One sector write, after which `done` transactions are durable. */
    method Bwrite(a: Addr, data: Block, ghost done: nat)
      requires Stable() && InRange(disk, a)
      requires history.Durable() <= done < |homes|
      requires RecoversTo(Store(disk, a, data), homes[done])
      modifies this`disk, this`cache, this`history
      ensures disk == Store(old(disk), a, data)
      ensures cache == old(cache)[a := Buf(data, false)]
      ensures history == Write(old(history), disk, done)
      ensures Stable()
    {
      disk := Store(disk, a, data);
      cache := cache[a := Buf(data, false)];
      history := Write(history, disk, done);
    }

    /** Write the in-memory header to disk, in one sector write. */
    method WriteHead(ghost done: nat)
      requires Stable() && HeaderOk()
      requires history.Durable() <= done < |homes|
      requires RecoversTo(disk.(head := sector[..n]), homes[done])
      modifies this`disk, this`history
      ensures disk == old(disk).(head := sector[..n])
      ensures history == Write(old(history), disk, done)
      ensures Stable()
    {
      var hb := [];
      var i := 0;
      while i < n
        invariant 0 <= i <= n
        invariant hb == sector[..i]
      {
        hb := hb + [sector[i]];
        i := i + 1;
      }
      disk := disk.(head := hb);
      history := Write(history, disk, done);
    }

    /** Copy one log block to its home sector and write it out. */
    method CopyBlock(from: nat, to: nat, ghost rest: seq<nat>, ghost done: nat)
      requires Stable() && InRange(disk, Slot(from)) && InRange(disk, Home(to))
      requires Coherent(rest) && rest != [] && rest[0] == to
      requires history.Durable() <= done < |homes|
      requires RecoversTo(Store(disk, Home(to), disk.slots[from]), homes[done])
      modifies this`disk, this`cache, this`history
      ensures disk == Store(old(disk), Home(to), old(disk).slots[from])
      ensures history == Write(old(history), disk, done)
      ensures Stable() && Coherent(rest[1..])
    {
      var lbuf := Bread(Slot(from));
      var dbuf := Bread(Home(to));
      dbuf := lbuf;
      Bwrite(Home(to), dbuf, done);
    }

    /** Copy committed blocks from the log to their home sectors. */
    method InstallTrans(ghost done: nat)
      requires Stable() && HeaderOk() && disk.head == sector[..n]
      requires Coherent(sector[..n])
      requires history.Durable() <= done < |homes| && RecoversTo(disk, homes[done])
      modifies this`disk, this`cache, this`history
      ensures disk == RecoveryImage(old(disk), n)
      ensures history == RecoveryHistory(old(history), old(disk), n, done)
      ensures Stable() && Coherent([])
    {
      ghost var d0 := disk;
      var tail := 0;
      while tail < n
        invariant 0 <= tail <= n
        invariant disk == RecoveryImage(d0, tail)
        invariant history == RecoveryHistory(old(history), d0, tail, done)
        invariant Stable() && Coherent(sector[tail..n])
        invariant history.Durable() <= done
      {
        var tail' := tail + 1;
        assert d0.head[tail] == sector[tail];
        InstallStep(d0, tail);
        RecoveryCrashSafe(d0, tail');
        CopyBlock(tail, sector[tail], sector[tail..n], done);
        assert sector[tail..n][1..] == sector[tail'..n];
        tail := tail';
      }
    }

    /** Read the header from disk into memory. */
    method ReadHead()
      requires Stable()
      modifies this`n, sector
      ensures Stable() && HeaderOk()
      ensures sector[..n] == disk.head
    {
      n := |disk.head|;
      var i := 0;
      while i < n
        invariant 0 <= i <= n == |disk.head|
        invariant sector[..i] == disk.head[..i]
      {
        sector[i] := disk.head[i];
        assert sector[..i + 1] == sector[..i] + [sector[i]];
        i := i + 1;
      }
      assert disk.head[..n] == disk.head;
    }

    /** Install the committed blocks, then clear the log. */
    method InstallAndErase(ghost done: nat)
      requires Stable() && HeaderOk() && disk.head == sector[..n]
      requires Coherent(sector[..n])
      requires history.Durable() <= done < |homes| && RecoversTo(disk, homes[done])
      modifies this`disk, this`cache, this`history, this`n
      ensures Stable() && n == 0 && Coherent([])
      ensures disk == RecoveryImage(old(disk), old(n) + 1) && disk.head == [] && disk.home == homes[done]
      ensures history == RecoveryHistory(old(history), old(disk), old(n) + 1, done)
    {
      ghost var d0 := disk;
      InstallTrans(done);
      assert d0.head[..n] == d0.head;
      RecoveryCrashSafe(d0, n + 1);
      n := 0;
      assert sector[..n] == [];
      WriteHead(done);
    }

    /** Boot from a disk image; recovery has still to run. */
    constructor (image: Disk)
      requires WfDisk(image)
      ensures disk == image && cache == map[] && Stable()
      ensures homes == [Recovered(image)] && history == Boot(image)
      ensures fresh(sector)
    {
      disk, cache, n, busy := image, map[], 0, false;
      sector := new nat[LOGSIZE];
      after, homes, history := [], [Recovered(image)], Boot(image);
    }

    /** Power fails at moment h: memory is lost, the disk image of h is left,
        and what was durable then is all that was ever committed. */
    method Reboot(image: Disk, ghost h: History)
      requires Stable()
      requires Within(h, history) && image == h.image
      modifies this
      ensures Stable() && cache == map[]
      ensures disk == image && history == h
      ensures h.Durable() < |old(homes)| && homes == old(homes)[..h.Durable() + 1]
    {
      AtomicWithin(h, history, homes);
      AtomicPrefix(h, homes[..h.Durable() + 1], homes);
      disk, cache, n, busy := image, map[], 0, false;
      homes, history := homes[..h.Durable() + 1], h;
    }

    /** Finish whatever was committed, then clear the log. */
    method RecoverFromLog()
      requires Stable() && cache == map[]
      requires history.Durable() == |homes| - 1
      modifies this, sector
      ensures Valid() && n == 0 && !busy
      ensures homes == old(homes)
      ensures after == disk.home == homes[|homes| - 1]
      ensures disk == RecoveryImage(old(disk), |old(disk).head| + 1)
      ensures history == RecoveryHistory(old(history), old(disk), |old(disk).head| + 1, |homes| - 1)
    {
      ReadHead();
      InstallAndErase(|homes| - 1);
      busy := false;
      after := disk.home;
      assert sector[..n] == [];
    }

    /** begin_trans, up to its sleep: the caller has the log, or must wait for it. */
    method BeginTrans() returns (ok: bool)
      requires Valid()
      modifies this`busy
      ensures Valid() && busy && ok == !old(busy)
    {
      ok := !busy;
      busy := true;
    }

    /** The slot holding sector s, or the next free one. */
    method FindSector(s: nat) returns (i: nat)
      requires HeaderOk()
      ensures IsSlotFor(sector[..n], s, i)
    {
      i := 0;
      while i < n
        invariant 0 <= i <= n
        invariant s !in sector[..i]
      {
        if sector[i] == s {
          return;
        }
        assert sector[..i + 1] == sector[..i] + [sector[i]];
        i := i + 1;
      }
    }

    /** Record that sector s now holds `data`: append it to the log, or
        overwrite the copy already there. Nothing is durable yet. */
    method LogWrite(s: nat, data: Block) returns (r: Outcome)
      requires Valid() && s < |disk.home|
      modifies this, sector
      ensures Valid()
      ensures r == if old(n) >= LOGSIZE || old(n) >= |old(disk).slots| then TooBig
                   else if !old(busy) then OutsideTrans
                   else Done
      ensures r != Done ==> unchanged(this) && unchanged(sector)
      ensures r == Done ==>
        && after == old(after)[s := data]
        && homes == old(homes) && busy
        && disk.home == old(disk).home && |disk.slots| == |old(disk).slots|
        && sector[..n] == Logged(old(sector[..n]), s)
        && history == Write(old(history), disk, |homes| - 1)
    {
      if n >= LOGSIZE || n >= |disk.slots| {
        return TooBig;
      }
      if !busy {
        return OutsideTrans;
      }
      AppendOrAbsorb(s, data);
      r := Done;
    }

    method AppendOrAbsorb(s: nat, data: Block)
      requires Valid() && busy && s < |disk.home|
      requires n < LOGSIZE && n < |disk.slots|
      modifies this`n, this`disk, this`cache, this`history, this`after, sector
      ensures Valid()
      ensures after == old(after)[s := data]
      ensures disk.home == old(disk).home && |disk.slots| == |old(disk).slots|
      ensures sector[..n] == Logged(old(sector[..n]), s)
      ensures history == Write(old(history), disk, |homes| - 1)
    {
      var i := FindSector(s);
      ghost var secs, d0 := sector[..n], disk;
      LoggedReplay(d0.home, secs, d0.slots, s, i, data);
      LogBlock(i, s, data);
      assert disk == Disk(d0.home, [], d0.slots[i := data]);
      Pin(s, data, secs);
      assert after == Replay(disk.home, sector[..n], disk.slots);
    }

    /** Keep the buffer of sector s in memory until it is installed. */
    method Pin(s: nat, data: Block, ghost secs: seq<nat>)
      requires s < |disk.home| == |after|
      requires Coherent(secs) && Pinned(secs)
      modifies this`cache, this`after
      ensures Coherent(Logged(secs, s)) && Pinned(Logged(secs, s))
      ensures after == old(after)[s := data]
    {
      cache := cache[Home(s) := Buf(data, true)];
      after := after[s := data];
    }

    /** Write `data` to log slot i as the logged copy of sector s. */
    method LogBlock(i: nat, s: nat, data: Block)
      requires Stable() && HeaderOk() && history.Durable() == |homes| - 1 && disk.head == []
      requires s < |disk.home| && i < LOGSIZE && i < |disk.slots|
      requires Distinct(sector[..n]) && IsSlotFor(sector[..n], s, i)
      requires Coherent(sector[..n]) && Pinned(sector[..n])
      modifies this`n, this`disk, this`cache, this`history, sector
      ensures Stable() && HeaderOk()
      ensures history == Write(old(history), disk, |homes| - 1)
      ensures disk == Store(old(disk), Slot(i), data)
      ensures sector[..n] == Logged(old(sector[..n]), s)
      ensures Coherent(old(sector[..n])) && Pinned(old(sector[..n]))
    {
      ghost var secs := sector[..n];
      sector[i] := s;
      var lbuf := Bread(Slot(i));
      lbuf := data;
      Bwrite(Slot(i), lbuf, |homes| - 1);
      if i == n {
        n := n + 1;
      }
      assert sector[..n] == Logged(secs, s);
    }

    /** Make the transaction durable with one header write, install it, and
        erase it from the log. */
    method CommitTrans()
      requires Valid() && busy
      modifies this
      ensures Valid() && !busy && n == 0
      ensures after == old(after) == disk.home
      ensures homes == if old(n) == 0 then old(homes) else old(homes) + [old(after)]
      ensures if old(n) == 0 then history == old(history)
              else var d1 := old(disk).(head := old(sector[..n]));
                   && WfDisk(d1)
                   && history == RecoveryHistory(Write(old(history), d1, |homes| - 1), d1, old(n) + 1, |homes| - 1)
    {
      if n > 0 {
        ghost var done := |homes|;
        AtomicPrefix(history, homes, homes + [after]);
        homes := homes + [after];
        WriteHead(done);
        InstallAndErase(done);
      }
      busy := false;
      assert sector[..n] == [];
    }

    /** The writes of one transaction go to the log. */
    method LogAll(writes: seq<(nat, Block)>) returns (r: Outcome)
      requires Valid() && busy && n == 0 && forall w | w in writes :: w.0 < |disk.home|
      modifies this, sector
      ensures Valid() && busy && Within(old(history), history) && homes == old(homes) && disk.home == old(disk).home
      ensures r == if Fits(writes, |old(disk).slots|) then Done else TooBig
      ensures r == Done ==> after == Written(old(disk).home, writes) && sector[..n] == SectorsOf(writes)
    {
      var i := 0;
      assert sector[..0] == [];
      while i < |writes|
        invariant 0 <= i <= |writes| && Valid() && busy && Within(old(history), history) && homes == old(homes)
        invariant disk.home == old(disk).home && |disk.slots| == |old(disk).slots|
        invariant after == Written(old(disk).home, writes[..i]) && sector[..n] == SectorsOf(writes[..i])
        invariant Fits(writes[..i], |disk.slots|)
      {
        assert writes[i] in writes;
        OneWrite(disk.home, writes, i);
        ghost var past := history;
        r := LogWrite(writes[i].0, writes[i].1);
        if r != Done {
          Overflows(writes, i, |disk.slots|);
          return;
        }
        WithinTrans(old(history), past, history);
        assert writes[..i + 1][..i] == writes[..i];
        i := i + 1;
      }
      assert writes[..i] == writes;
      r := Done;
    }

    /** The end of a transaction that began at moment start. */
    method CommitAll(ghost start: History, ghost home0: seq<Block>) returns (ghost commit: History)
      requires Valid() && busy && Within(start, history) && start.Durable() == |homes| - 1
      requires home0 == homes[|homes| - 1] == disk.home
      modifies this
      ensures Valid() && !busy && Within(start, history) && disk.home == after == old(after)
      ensures old(n) != 0 ==> commit.Write? && commit.before == old(history) && Within(commit, history)
                              && commit.image.head == old(sector[..n])
      ensures AllOrNothing(start, commit, history, home0, after)
    {
      commit := history;
      if n == 0 {
        assert sector[..n] == [];
        CommitTrans();
        NothingCommitted(start, commit, history, homes, home0);
      } else {
        ghost var past := history;
        ghost var d1 := disk.(head := sector[..n]);
        CommitTrans();
        commit := Write(past, d1, |homes| - 1);
        RecoveryWithin(commit, d1, |d1.head| + 1, |homes| - 1);
        WithinTrans(past, commit, history);
        WithinTrans(start, past, history);
        OneCommitted(start, commit, history, homes, home0, after);
      }
    }

    /** A whole transaction.  If another one is open the caller has to wait; if the
        writes are too many for the log, that is a panic.  Otherwise all of them are
        done, and a crash at any moment leaves all of them or none: all exactly if
        the header write that commits them came before it. */
    method Transact(writes: seq<(nat, Block)>) returns (r: Outcome, ghost commit: History)
      requires Valid() && forall w | w in writes :: w.0 < |disk.home|
      modifies this, sector
      ensures Valid() && Within(old(history), history)
      ensures r == if old(busy) then Asleep else if Fits(writes, |old(disk).slots|) then Done else TooBig
      ensures r == Asleep ==> disk == old(disk) && history == old(history) && after == old(after)
      ensures r == Done ==> !busy && disk.home == after == Written(old(disk).home, writes)
      ensures r == Done && writes != [] ==>
                && commit.Write? && Within(commit, history) && Within(old(history), commit.before)
                && commit.before.image.head == [] && commit.image.head == SectorsOf(writes)
      ensures r != Asleep ==>
                AllOrNothing(old(history), commit, history, old(disk).home,
                             if r == Done then Written(old(disk).home, writes) else old(disk).home)
    {
      ghost var start, home0 := history, disk.home;
      commit := history;
      var ok := BeginTrans();
      if !ok { return Asleep, commit; }
      assert sector[..n] == [];
      assert home0 == homes[|homes| - 1];
      r := LogAll(writes);
      if r != Done {
        NothingCommitted(start, commit, history, homes, home0);
        return;
      }
      commit := CommitAll(start, home0);
    }
  }
}
