/** How many sectors one write puts into the log (file.c, fs.c). */
module FsLog {
  import opened Blocks
  import opened BlockMap
  import opened FileData
  import opened FileOps
  import opened Options
  import RedoLog

  lemma SubsetSize(a: set<nat>, b: set<nat>)
    requires a <= b
    ensures |a| <= |b|
  {
    assert b == a + (b - a);
    assert a * (b - a) == {};
  }

  function Elems(secs: seq<nat>): set<nat>
  {
    set x | x in secs
  }

  lemma {:induction false} DistinctSize(secs: seq<nat>)
    requires RedoLog.Distinct(secs)
    ensures |Elems(secs)| == |secs|
  {
    if secs != [] {
      var k := |secs| - 1;
      DistinctSize(secs[..k]);
      assert secs[k] !in secs[..k];
      assert Elems(secs) == Elems(secs[..k]) + {secs[k]};
    }
  }

  /** Absorption: the number of entries in the log header is the number of distinct
      sectors logged. */
  lemma HeaderCounts(secs: seq<nat>, sector: nat)
    requires RedoLog.Distinct(secs)
    ensures RedoLog.Distinct(RedoLog.Logged(secs, sector))
    ensures Elems(RedoLog.Logged(secs, sector)) == Elems(secs) + {sector}
    ensures |RedoLog.Logged(secs, sector)| == |Elems(secs) + {sector}|
  {
    DistinctSize(RedoLog.Logged(secs, sector));
  }

  /** The log only grows, and did not overflow if it has room in the end. */
  ghost predicate Grows(s: State, t: State)
  {
    s.logged <= t.logged && (|t.logged| < LOG_LIMIT ==> t.tooBig == s.tooBig)
  }

  lemma GrowsTrans(s: State, u: State, t: State)
    requires Grows(s, u) && Grows(u, t)
    ensures Grows(s, t)
  {
    SubsetSize(u.logged, t.logged);
  }

  lemma GrowsOne(s: State, t: State, sector: nat)
    requires t.logged == LogWrite(s, sector).logged && t.tooBig == LogWrite(s, sector).tooBig
    ensures Grows(s, t)
  {
    SubsetSize(s.logged, t.logged);
  }

  /** The sector of a one-sector bitmap. */
  function BitmapSector(s: State): nat
  {
    BitSector(0, |s.inodes|)
  }

  ghost predicate SlotLogged(s: State, x: Slot, t: State)
    requires Shape(t) && IsSlot(t, x)
  {
    t.logged <= s.logged + {BitmapSector(t), At(t, x)} + if x.Entry? then {At(t, Indirect(x.ino)) as nat} else {}
  }

  lemma TakeLogs(s: State, b: nat)
    requires b < |s.bits| == |s.blocks| && |s.bits| <= BPB
    ensures Grows(s, Take(s, b)) && Take(s, b).logged == s.logged + {BitmapSector(s), b}
  {
    var sector := BitSector(b, |s.inodes|);
    var s1 := LogWrite(s, sector);
    GrowsOne(s, s1, sector);
    GrowsOne(s1, Take(s, b), b);
    GrowsTrans(s, s1, Take(s, b));
    assert sector == BitmapSector(s);
  }

  lemma ClaimLogs(s: State, x: Slot, b: nat)
    requires Shape(s) && IsSlot(s, x) && b < |s.bits| <= BPB
    ensures Grows(s, Claim(s, x, b))
    ensures Claim(s, x, b).logged
            <= s.logged + {BitmapSector(s), b} + if x.Entry? then {At(s, Indirect(x.ino)) as nat} else {}
  {
    var u, t := Take(s, b), Claim(s, x, b);
    TakeLogs(s, b);
    if x.Entry? && At(s, Indirect(x.ino)) < |s.blocks| {
      GrowsOne(u, t, At(s, Indirect(x.ino)));
      GrowsTrans(s, u, t);
    }
  }

  lemma MapSlotLogs(s: State, x: Slot, t: State)
    requires Inv(s) && IsSlot(s, x) && (x.Entry? ==> At(s, Indirect(x.ino)) != 0)
    requires |s.bits| <= BPB && MapSlot(s, x) == Some(t)
    ensures Grows(s, t) && SlotLogged(s, x, t)
  {
    MapSlotKeeps(s, x);
    if At(s, x) == 0 {
      var b := FirstFree(s.bits, 0);
      var owner :| Owned(s, owner);
      ClaimLogs(s, x, b);
      ClaimableRange(s, owner, x, b);
      ClaimAt(s, owner, x, b, x);
    }
  }

  ghost predicate FileLogged(s: State, i: nat, bn: nat, t: State)
    requires Shape(t) && i < |t.inodes| && bn < MAXFILE
  {
    t.logged <= s.logged + {BitmapSector(t), At(t, FileSlot(i, bn))}
                + if bn >= NDIRECT then {At(t, Indirect(i)) as nat} else {}
  }

  lemma BmapLogs(s: State, i: nat, bn: nat, t: State)
    requires Inv(s) && i < |s.inodes| && bn < MAXFILE && |s.bits| <= BPB && Bmap(s, i, bn) == Some(t)
    ensures Grows(s, t) && FileLogged(s, i, bn, t)
  {
    if bn < NDIRECT {
      MapSlotLogs(s, Direct(i, bn), t);
    } else {
      var u := MapSlot(s, Indirect(i)).value;
      MapSlotKeeps(s, Indirect(i));
      MapSlotLogs(s, Indirect(i), u);
      MapSlotKeeps(u, Entry(i, bn - NDIRECT));
      MapSlotLogs(u, Entry(i, bn - NDIRECT), t);
      GrowsTrans(s, u, t);
      assert At(t, Indirect(i)) == At(u, Indirect(i));
    }
  }

  // ---------------------------------------------------------------
  // writei.

  /** The slots of inode i that had an address keep it. */
  ghost predicate Keeps(s: State, t: State, i: nat)
    requires Shape(s) && Shape(t) && |t.inodes| == |s.inodes|
  {
    forall y | IsSlot(s, y) && y.ino == i && At(s, y) != 0 :: At(t, y) == At(s, y)
  }

  lemma StepLogs(s: State, i: nat, bn: nat, at: nat, src: seq<Blocks.Byte>, t: State)
    requires Inv(s) && i < |s.inodes| && bn < MAXFILE && at + |src| <= BSIZE && |s.bits| <= BPB
    requires WriteStep(s, i, bn, at, src) == Some(t)
    ensures Inv(t) && Grows(s, t) && FileLogged(s, i, bn, t) && Keeps(s, t, i)
    ensures At(t, FileSlot(i, bn)) != 0 && (bn >= NDIRECT ==> At(t, Indirect(i)) != 0)
  {
    var u := Bmap(s, i, bn).value;
    BmapKeeps(s, i, bn);
    BmapLogs(s, i, bn, u);
    var data := Patch(Filled(BlockAt(u, FileSlot(i, bn))), at, src);
    StoreKeeps(u, i, bn, data);
    StoreLogs(u, i, bn, data, t);
    GrowsTrans(s, u, t);
    assert At(t, FileSlot(i, bn)) == At(u, FileSlot(i, bn));
    assert At(t, Indirect(i)) == At(u, Indirect(i));
    KeepsTrans(s, u, t, i, bn);
  }

  lemma StoreLogs(s: State, i: nat, bn: nat, data: Block, t: State)
    requires Shape(s) && i < |s.inodes| && bn < MAXFILE && t == Store(s, i, bn, data)
    ensures Grows(s, t) && t.logged <= s.logged + {At(s, FileSlot(i, bn))}
  {
    if At(s, FileSlot(i, bn)) < |s.blocks| {
      GrowsOne(s, t, At(s, FileSlot(i, bn)));
    }
  }

  lemma KeepsTrans(s: State, u: State, t: State, i: nat, bn: nat)
    requires Shape(s) && Shape(u) && Shape(t) && |t.inodes| == |u.inodes| == |s.inodes|
    requires i < |s.inodes| && bn < MAXFILE && FileMapped(s, u, i, bn)
    requires forall y | IsSlot(u, y) :: At(t, y) == At(u, y)
    ensures Keeps(s, t, i)
  {
    forall y | IsSlot(s, y) && y.ino == i && At(s, y) != 0 ensures At(t, y) == At(s, y) {
      assert At(t, y) == At(u, y);
      assert y.Indirect? ==> y == Indirect(i);
    }
  }

  /** The blocks that the turns write. */
  function Addrs(s: State, i: nat, c: Turns): set<nat>
    requires Shape(s) && i < |s.inodes| && Fits(c)
  {
    if c.Done? then {} else {At(s, FileSlot(i, c.bn)) as nat} + Addrs(s, i, c.rest)
  }

  function Count(c: Turns): nat
  {
    if c.Done? then 0 else 1 + Count(c.rest)
  }

  lemma {:induction false} AddrsSize(s: State, i: nat, c: Turns)
    requires Shape(s) && i < |s.inodes| && Fits(c)
    ensures |Addrs(s, i, c)| <= Count(c)
  {
    if c.Turn? {
      AddrsSize(s, i, c.rest);
    }
  }

  ghost predicate AllLogged(s: State, i: nat, c: Turns, t: State)
    requires Shape(t) && i < |t.inodes| && Fits(c)
  {
    t.logged <= s.logged + {BitmapSector(t), At(t, Indirect(i))} + Addrs(t, i, c)
  }

  /** writei's loop logs the bitmap, the indirect block and the blocks it writes,
      each once. */
  lemma {:induction false} WriteAllLogs(s: State, i: nat, c: Turns, t: State)
    requires Inv(s) && i < |s.inodes| && Fits(c) && |s.bits| <= BPB && WriteAll(s, i, c) == Some(t)
    ensures Grows(s, t) && Keeps(s, t, i) && AllLogged(s, i, c, t)
    decreases c
  {
    match c
    case Done =>
    case Turn(bn, at, src, rest) =>
      var u := WriteStep(s, i, bn, at, src).value;
      StepLogs(s, i, bn, at, src, u);
      WriteAllLogs(u, i, rest, t);
      GrowsTrans(s, u, t);
      assert At(t, FileSlot(i, bn)) == At(u, FileSlot(i, bn));
      assert bn >= NDIRECT ==> At(t, Indirect(i)) == At(u, Indirect(i));
  }

  /** filewrite's bound on one transaction: half of the log without the inode,
      the indirect block and two blocks of slop, that is, three blocks. */
  const CHUNK: nat := 1536

  lemma {:induction false} CountAligned(off: nat, src: seq<Blocks.Byte>)
    requires off % 512 == 0
    ensures Count(Cut(off, src)) == Ceil(|src|)
    decreases |src|
  {
    if src != [] {
      var n := Piece(off, |src|);
      if n < BSIZE {
        assert src[n..] == [];
      } else {
        CountAligned(off + n, src[n..]);
      }
    }
  }

  lemma CountChunk(off: nat, src: seq<Blocks.Byte>)
    requires |src| <= CHUNK
    ensures Count(Cut(off, src)) <= 4
  {
    if src != [] {
      var n := Piece(off, |src|);
      if n < |src| {
        CountAligned(off + n, src[n..]);
      } else {
        assert src[n..] == [];
      }
    }
  }

  lemma CoverSize(logged: set<nat>, a: nat, b: nat, rest: set<nat>)
    requires logged <= {a, b} + rest && |rest| <= 4
    ensures |logged| <= 6
  {
    SubsetSize(logged, {a, b} + rest);
  }

  /** With a one-sector bitmap, a chunk of filewrite, at any offset, logs at most
      seven sectors, and log_write never panics. */
  lemma ChunkBound(s: State, i: nat, off: Word, src: seq<Blocks.Byte>)
    requires FsOk(s) && i < |s.inodes| && |s.bits| <= BPB && s.logged == {} && !s.tooBig
    requires |src| <= CHUNK && Writei(s, i, off, src).Wrote?
    ensures |Writei(s, i, off, src).state.logged| <= 7 && !Writei(s, i, off, src).state.tooBig
  {
    CutWalks(off, src);
    var c := Cut(off, src);
    var u, t := WriteAll(s, i, c).value, Writei(s, i, off, src).state;
    WriteAllLogs(s, i, c, u);
    AddrsSize(u, i, c);
    CountChunk(off, src);
    CoverSize(u.logged, BitmapSector(u), At(u, Indirect(i)), Addrs(u, i, c));
    if t != u {
      GrowsOne(u, t, InodeSector(i));
      GrowsTrans(s, u, t);
    }
  }
}
