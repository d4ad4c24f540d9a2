/** writei, itrunc and what they promise about all files. */
module FileOps {
  import opened Blocks
  import opened BlockMap
  import opened FileData
  import opened Options

  /** A file has exactly the blocks that its size asks for. */
  ghost predicate FileOk(s: State, i: nat)
    requires Shape(s) && i < |s.inodes|
  {
    NoHoles(DataOf(s, i), Ceil(s.inodes[i].size))
  }

  /** The file system between calls: blocks have one owner each, files have no
      holes, and the inodes on disk are those in memory. */
  ghost predicate FsOk(s: State)
  {
    Inv(s) && (forall i | 0 <= i < |s.inodes| :: FileOk(s, i)) && s.dinodes == s.inodes
  }

  /** The file as its user sees it. */
  function Contents(s: State, i: nat): seq<Blocks.Byte>
    requires Shape(s) && i < |s.inodes|
  {
    Bytes(DataOf(s, i), s.inodes[i].size)
  }

  // ---------------------------------------------------------------
  // Blocks that are mapped already.

  ghost predicate AllMapped(s: State, i: nat, c: Turns)
    requires Shape(s) && i < |s.inodes| && Fits(c)
  {
    c.Turn? ==> At(s, FileSlot(i, c.bn)) != 0 && AllMapped(s, i, c.rest)
  }

  lemma {:induction false} InsideMapped(s: State, i: nat, len: nat, c: Turns, off: nat)
    requires Shape(s) && i < |s.inodes| && Fits(c) && Walks(c, off)
    requires NoHoles(DataOf(s, i), Ceil(len)) && off + |Flat(c)| <= len
    ensures AllMapped(s, i, c)
  {
    if c.Turn? {
      InsideMapped(s, i, len, c.rest, off + |c.src|);
      assert c.bn < Ceil(len);
      assert DataOf(s, i)[c.bn].Some?;
    }
  }

  lemma {:induction false} MappedSame(s: State, t: State, i: nat, c: Turns)
    requires Shape(s) && Shape(t) && |t.inodes| == |s.inodes| && i < |s.inodes| && Fits(c)
    requires AllMapped(s, i, c) && forall y | IsSlot(s, y) :: At(t, y) == At(s, y)
    ensures AllMapped(t, i, c)
  {
    if c.Turn? {
      assert At(t, FileSlot(i, c.bn)) == At(s, FileSlot(i, c.bn));
      MappedSame(s, t, i, c.rest);
    }
  }

  /** bmap of a mapped block changes nothing. */
  lemma BmapMapped(s: State, i: nat, bn: nat)
    requires Shape(s) && i < |s.inodes| && bn < MAXFILE && At(s, FileSlot(i, bn)) != 0
    ensures Bmap(s, i, bn) == Some(s)
  {
  }

  lemma StepMapped(s: State, i: nat, c: Turns, t: State) returns (u: State)
    requires Inv(s) && i < |s.inodes| && Fits(c) && AllMapped(s, i, c) && c.Turn? && WriteAll(s, i, c) == Some(t)
    ensures Inv(u) && u.inodes == s.inodes && AllMapped(u, i, c.rest) && WriteAll(u, i, c.rest) == Some(t)
  {
    BmapMapped(s, i, c.bn);
    u := WriteStep(s, i, c.bn, c.at, c.src).value;
    var block := Filled(BlockAt(s, FileSlot(i, c.bn)));
    StoreKeeps(s, i, c.bn, Patch(block, c.at, c.src));
    MappedSame(s, u, i, c.rest);
  }

  /** Writing within a file does not change its inode. */
  lemma {:induction false} WriteMapped(s: State, i: nat, c: Turns, t: State)
    requires Inv(s) && i < |s.inodes| && Fits(c) && AllMapped(s, i, c) && WriteAll(s, i, c) == Some(t)
    ensures t.inodes == s.inodes
    decreases c
  {
    if c.Turn? {
      var u := StepMapped(s, i, c, t);
      WriteMapped(u, i, c.rest, t);
    }
  }

  // ---------------------------------------------------------------
  // writei.

  datatype WriteResult = Refused | OutOfBlocks | Wrote(state: State)

  /** The end of writei: a file that grew gets its new size, and its inode goes
      to disk. */
  function Grow(s: State, i: nat, size: nat): State
    requires i < |s.inodes| == |s.dinodes|
  {
    var inode := s.inodes[i].(size := size);
    LogWrite(s.(inodes := s.inodes[i := inode], dinodes := s.dinodes[i := inode]), InodeSector(i))
  }

  function Finish(s: State, i: nat, end: nat, n: nat): State
    requires i < |s.inodes| == |s.dinodes|
  {
    if n > 0 && end > s.inodes[i].size then Grow(s, i, end) else s
  }

  /** writei after its checks, with its turns laid out. */
  function WriteRun(s: State, i: nat, c: Turns, end: nat, n: nat): WriteResult
    requires Shape(s) && i < |s.inodes| && Fits(c)
  {
    match WriteAll(s, i, c)
    case None => OutOfBlocks
    case Some(t) => Wrote(Finish(t, i, end, n))
  }

  function Writei(s: State, i: nat, off: Word, src: seq<Blocks.Byte>): WriteResult
    requires Shape(s) && i < |s.inodes|
  {
    var end := off + |src|;
    if off > s.inodes[i].size || end % 0x1_0000_0000 < off || end > MAXFILE * 512 then Refused
    else
      CutWalks(off, src);
      WriteRun(s, i, Cut(off, src), end, |src|)
  }

  lemma WriteiIs(s: State, i: nat, off: Word, src: seq<Blocks.Byte>, c: Turns)
    requires Shape(s) && i < |s.inodes| && off <= s.inodes[i].size && off + |src| <= MAXFILE * 512
    requires c == Cut(off, src) && Fits(c)
    ensures Writei(s, i, off, src) == WriteRun(s, i, c, off + |src|, |src|)
  {
    assert off + |src| < 0x1_0000_0000;
  }

  lemma GrowKeeps(s: State, i: nat, size: nat, t: State)
    requires Inv(s) && i < |s.inodes| && t == Grow(s, i, size)
    ensures Inv(t) && |t.inodes| == |s.inodes|
    ensures forall j | 0 <= j < |s.inodes| :: DataOf(t, j) == DataOf(s, j)
  {
    var owner :| Owned(s, owner);
    forall y | IsSlot(s, y) ensures At(t, y) == At(s, y) && BlockAt(t, y) == BlockAt(s, y) {}
    OwnedSame(s, owner, t);
  }

  lemma FilesSame(s: State, t: State, i: nat)
    requires FsOk(s) && Inv(t) && SameBut(s, t, i) && OthersSame(s, t, i) && i < |s.inodes|
    ensures forall j | 0 <= j < |s.inodes| && j != i :: FileOk(t, j) && Contents(t, j) == Contents(s, j)
  {
    forall j | 0 <= j < |s.inodes| && j != i ensures FileOk(t, j) && Contents(t, j) == Contents(s, j) {
      assert FileOk(s, j);
    }
  }

  /** What a completed write means: the file is overwritten and extended at off,
      every other file is as before, and the file system is in order, with the
      inode on disk. */
  ghost predicate Overwritten(s: State, i: nat, off: nat, src: seq<Blocks.Byte>, t: State)
    requires FsOk(s) && i < |s.inodes|
  {
    && FsOk(t) && |t.inodes| == |s.inodes| && t.first == s.first && |t.bits| == |s.bits|
    && off <= |Contents(s, i)|
    && Contents(t, i) == Overwrite(Contents(s, i), off, src)
    && forall j | 0 <= j < |s.inodes| && j != i :: Contents(t, j) == Contents(s, j)
  }

  lemma WroteInside(s: State, i: nat, off: nat, src: seq<Blocks.Byte>, t: State)
    requires FsOk(s) && i < |s.inodes| && Inv(t) && SameBut(s, t, i) && OthersSame(s, t, i)
    requires off + |src| <= s.inodes[i].size && t.inodes == s.inodes
    requires Written(DataOf(s, i), s.inodes[i].size, DataOf(t, i), off, src)
    ensures Overwritten(s, i, off, src, t)
  {
    FilesSame(s, t, i);
    assert FileOk(t, i);
  }

  lemma WroteBeyond(s: State, i: nat, off: nat, src: seq<Blocks.Byte>, u: State, t: State)
    requires FsOk(s) && i < |s.inodes| && Inv(u) && SameBut(s, u, i) && OthersSame(s, u, i)
    requires off <= s.inodes[i].size < off + |src| && t == Grow(u, i, off + |src|)
    requires Written(DataOf(s, i), s.inodes[i].size, DataOf(u, i), off, src)
    ensures Overwritten(s, i, off, src, t)
  {
    FilesSame(s, u, i);
    GrowKeeps(u, i, off + |src|, t);
    forall j | 0 <= j < |t.inodes| ensures FileOk(t, j) {
      assert j != i ==> FileOk(u, j);
    }
  }

  lemma WriteLoop(s: State, i: nat, off: nat, src: seq<Blocks.Byte>, t: State)
    requires FsOk(s) && i < |s.inodes| && off <= s.inodes[i].size && off + |src| <= MAXFILE * 512
    requires Fits(Cut(off, src)) && WriteAll(s, i, Cut(off, src)) == Some(t)
    ensures Inv(t) && SameBut(s, t, i) && OthersSame(s, t, i)
    ensures Written(DataOf(s, i), s.inodes[i].size, DataOf(t, i), off, src)
    ensures off + |src| <= s.inodes[i].size ==> t.inodes == s.inodes
  {
    var c, len := Cut(off, src), s.inodes[i].size;
    assert FileOk(s, i);
    CutWalks(off, src);
    WriteAllData(s, i, c, t);
    WriteBlocksBytes(DataOf(s, i), len, c, off);
    if off + |src| <= len {
      InsideMapped(s, i, len, c, off);
      WriteMapped(s, i, c, t);
    }
  }

  /** writei refines overwriting a byte sequence; it persists the inode whenever
      it gives it a block. */
  lemma WriteiRefines(s: State, i: nat, off: Word, src: seq<Blocks.Byte>)
    requires FsOk(s) && i < |s.inodes| && Writei(s, i, off, src).Wrote?
    ensures Overwritten(s, i, off, src, Writei(s, i, off, src).state)
  {
    CutWalks(off, src);
    var u := WriteAll(s, i, Cut(off, src)).value;
    WriteLoop(s, i, off, src, u);
    if off + |src| <= s.inodes[i].size {
      WroteInside(s, i, off, src, u);
    } else {
      WroteBeyond(s, i, off, src, u, Writei(s, i, off, src).state);
    }
  }

  // ---------------------------------------------------------------
  // itrunc.

  /** The bits after the blocks at some slots have been freed. */
  ghost predicate Cleared(s: State, owner: map<nat, Slot>, bits: seq<bool>, done: set<Slot>)
  {
    && |bits| == |s.bits|
    && forall b | 0 <= b < |bits| :: bits[b] <==> s.bits[b] && !(b in owner && owner[b] in done)
  }

  /** A block that a slot holds is allocated until that slot's turn, so bfree
      finds its bit set. */
  lemma FreeStep(s: State, owner: map<nat, Slot>, bits: seq<bool>, done: set<Slot>, x: Slot)
    requires Shape(s) && Owned(s, owner) && Cleared(s, owner, bits, done)
    requires IsSlot(s, x) && x !in done && At(s, x) != 0
    ensures At(s, x) < |bits| && bits[At(s, x)]
    ensures Cleared(s, owner, bits[At(s, x) := false], done + {x})
  {
    assert SlotOk(s, owner, x);
    assert OwnerOk(s, owner, At(s, x));
    forall b | 0 <= b < |bits| && b in owner && owner[b] == x ensures b == At(s, x) {
      assert OwnerOk(s, owner, b);
    }
  }

  lemma SkipStep(s: State, owner: map<nat, Slot>, bits: seq<bool>, done: set<Slot>, x: Slot)
    requires Shape(s) && Owned(s, owner) && Cleared(s, owner, bits, done)
    requires IsSlot(s, x) && At(s, x) == 0
    ensures Cleared(s, owner, bits, done + {x})
  {
    forall b | 0 <= b < |bits| && b in owner ensures owner[b] != x {
      assert OwnerOk(s, owner, b);
    }
  }

  /** An inode with no blocks. */
  function Empty(): Inode
  {
    Inode(0, seq(NDIRECT + 1, _ => 0))
  }

  /** itrunc's effect: the inode is empty, in memory and on disk, and exactly the
      blocks it owned are free. */
  ghost predicate Truncated(s: State, owner: map<nat, Slot>, i: nat, t: State)
    requires i < |s.inodes| == |s.dinodes|
  {
    && t.first == s.first && t.blocks == s.blocks
    && t.inodes == s.inodes[i := Empty()] && t.dinodes == s.dinodes[i := Empty()]
    && |t.bits| == |s.bits|
    && forall b | 0 <= b < |s.bits| :: t.bits[b] <==> s.bits[b] && !(b in owner && owner[b].ino == i)
  }

  lemma TruncatedAt(s: State, owner: map<nat, Slot>, i: nat, t: State, y: Slot)
    requires Shape(s) && i < |s.inodes| && Truncated(s, owner, i, t) && IsSlot(s, y)
    ensures |t.inodes[y.ino].addrs| == NDIRECT + 1
    ensures At(t, y) == if y.ino == i then 0 else At(s, y)
    ensures y.ino != i ==> BlockAt(t, y) == BlockAt(s, y)
  {
  }

  lemma TruncatedOwned(s: State, owner: map<nat, Slot>, i: nat, t: State)
    requires Shape(s) && Owned(s, owner) && i < |s.inodes| && Truncated(s, owner, i, t)
    ensures Shape(t) && Owned(t, map b | b in owner && owner[b].ino != i :: owner[b])
  {
    var owner' := map b | b in owner && owner[b].ino != i :: owner[b];
    forall b | 0 <= b < s.first ensures t.bits[b] { assert OwnerOk(s, owner, b); }
    forall b ensures OwnerOk(t, owner', b) {
      assert OwnerOk(s, owner, b);
      if b in owner { TruncatedAt(s, owner, i, t, owner[b]); }
    }
    forall y ensures SlotOk(t, owner', y) {
      assert SlotOk(s, owner, y);
      if IsSlot(s, y) { TruncatedAt(s, owner, i, t, y); }
    }
  }

  /** After itrunc the file is empty and every other file is as before. */
  lemma TruncatedFiles(s: State, owner: map<nat, Slot>, i: nat, t: State)
    requires FsOk(s) && Owned(s, owner) && i < |s.inodes| && Truncated(s, owner, i, t)
    ensures FsOk(t) && |t.inodes| == |s.inodes| && Contents(t, i) == []
    ensures forall j | 0 <= j < |s.inodes| && j != i :: Contents(t, j) == Contents(s, j)
  {
    TruncatedOwned(s, owner, i, t);
    forall y | IsSlot(s, y)
      ensures At(t, y) == if y.ino == i then 0 else At(s, y)
      ensures y.ino != i ==> BlockAt(t, y) == BlockAt(s, y)
    {
      TruncatedAt(s, owner, i, t, y);
    }
    forall j | 0 <= j < |t.inodes|
      ensures FileOk(t, j) && (j != i ==> Contents(t, j) == Contents(s, j))
    {
      assert FileOk(s, j);
      assert j != i ==> DataOf(t, j) == DataOf(s, j);
    }
  }

  // ---------------------------------------------------------------
  // readi.

  /** A piece of a block that readi copies is the same piece of the file. */
  lemma ReadPiece(s: State, i: nat, off: nat, m: nat)
    requires FsOk(s) && i < |s.inodes| && 0 < m && off + m <= s.inodes[i].size && off % 512 + m <= BSIZE
    ensures off / 512 < MAXFILE
    ensures var a := At(s, FileSlot(i, off / 512));
            && a != 0 && a < |s.blocks|
            && s.blocks[a][off % 512..off % 512 + m] == Contents(s, i)[off..off + m]
  {
    assert FileOk(s, i);
    var bn := off / 512;
    assert DataOf(s, i)[bn].Some?;
    var a := At(s, FileSlot(i, bn));
    var piece, part := s.blocks[a][off % 512..off % 512 + m], Contents(s, i)[off..off + m];
    forall k | 0 <= k < m ensures piece[k] == part[k] {
      assert (off + k) / 512 == bn && (off + k) % 512 == off % 512 + k;
    }
  }
}
