/** The loops of fs.c and file.c over a mounted file system. */
module Volume {
  import opened Blocks
  import opened BlockMap
  import opened FileData
  import opened FileOps
  import opened FsLog
  import opened Options

  datatype ReadResult = ReadRefused | Got(data: seq<Blocks.Byte>)

  datatype Status = Ok | Fail | Panic

  /** c holds the turns that are left when writei's loop has come to off, and rest
      of its source is still to be written. */
  ghost predicate Ahead(c: Turns, off: nat, rest: seq<Blocks.Byte>)
  {
    Fits(c) && Walks(c, off) && Tight(c) && Flat(c) == rest
  }

  lemma NextTurn(c: Turns, off: nat, src: seq<Blocks.Byte>, tot: nat, off': nat, tot': nat)
    requires tot < |src| && Ahead(c, off, src[tot..])
    requires tot' == tot + Min(|src| - tot, 512 - off % 512) && off' == off + (tot' - tot)
    ensures c.Turn? && c.bn == off / 512 && c.at == off % 512
    ensures tot < tot' <= |src| && c.src == src[tot..tot']
    ensures Ahead(c.rest, off', src[tot'..])
  {
    var rest := src[tot..];
    assert rest == c.src + Flat(c.rest);
    assert rest[..|c.src|] == c.src && rest[|c.src|..] == Flat(c.rest);
  }

  function DirectSlots(i: nat, k: nat): set<Slot>
  {
    set j: nat | j < k :: Direct(i, j)
  }

  function EntrySlots(i: nat, k: nat): set<Slot>
  {
    set j: nat | j < k :: Entry(i, j)
  }

  function ZeroUpTo(addrs: seq<Word>, k: nat): seq<Word>
  {
    seq(|addrs|, j requires 0 <= j < |addrs| => if j < k then 0 else addrs[j])
  }

  lemma NoEntries(s: State, owner: map<nat, Slot>, bits: seq<bool>, i: nat)
    requires Shape(s) && Owned(s, owner) && i < |s.inodes| && At(s, Indirect(i)) == 0
    requires Cleared(s, owner, bits, DirectSlots(i, NDIRECT))
    ensures Cleared(s, owner, bits, DirectSlots(i, NDIRECT) + EntrySlots(i, NINDIRECT))
  {
    forall b | 0 <= b < |bits| && b in owner ensures owner[b] !in EntrySlots(i, NINDIRECT) {
      assert OwnerOk(s, owner, b);
    }
  }

  lemma ClearedAll(s: State, owner: map<nat, Slot>, i: nat, t: State)
    requires Shape(s) && Owned(s, owner) && i < |s.inodes|
    requires Cleared(s, owner, t.bits, DirectSlots(i, NDIRECT) + EntrySlots(i, NINDIRECT) + {Indirect(i)})
    requires t.first == s.first && t.blocks == s.blocks && |t.inodes| == |s.inodes|
    requires t.inodes == s.inodes[i := t.inodes[i]] && t.dinodes == s.dinodes[i := t.inodes[i]]
    requires t.inodes[i].size == 0 && |t.inodes[i].addrs| == NDIRECT + 1
    requires forall k | 0 <= k <= NDIRECT :: t.inodes[i].addrs[k] == 0
    ensures Truncated(s, owner, i, t)
  {
    assert t.inodes[i] == Empty();
    forall b | 0 <= b < |s.bits| && b in owner && owner[b].ino == i
      ensures owner[b] in DirectSlots(i, NDIRECT) + EntrySlots(i, NINDIRECT) + {Indirect(i)}
    {
      assert OwnerOk(s, owner, b);
    }
  }

  lemma Joined<T>(s: seq<T>, a: nat, b: nat, c: nat)
    requires a <= b <= c <= |s|
    ensures s[a..b] + s[b..c] == s[a..c]
  {
  }

  class FileSystem {
    const first: nat
    var bits: seq<bool>
    var blocks: seq<Block>
    var inodes: seq<Inode>
    var dinodes: seq<Inode>
    var logged: set<nat>
    var tooBig: bool

    ghost function Now(): State
      reads this
    {
      State(first, bits, blocks, inodes, dinodes, logged, tooBig)
    }

    /** An empty file system, as mkfs makes it but without a root directory. */
    constructor (first: nat, size: nat, ninodes: nat)
      requires 0 < first <= size <= 0x1_0000_0000
      ensures FsOk(Now()) && |inodes| == ninodes && |bits| == size && logged == {} && !tooBig
    {
      this.first := first;
      bits := seq(size, b => b < first);
      blocks := seq(size, _ => ZeroBlock());
      inodes := seq(ninodes, _ => Empty());
      dinodes := seq(ninodes, _ => Empty());
      logged, tooBig := {}, false;
      new;
      EmptyOk(Now());
    }

    /** log_write: the change is already in the buffer. */
    method LogSector(sector: nat)
      modifies this`logged, this`tooBig
      ensures Now() == LogWrite(old(Now()), sector)
    {
      if |logged| >= LOG_LIMIT { tooBig := true; }
      logged := logged + {sector};
    }

    /** The scan of balloc, one bitmap sector after another. */
    method FindFree() returns (b: nat)
      ensures b == FirstFree(bits, 0)
    {
      b := 0;
      while b < |bits|
        invariant b <= |bits| && FirstFree(bits, 0) == FirstFree(bits, b)
      {
        var bi := 0;
        while bi < BPB && b + bi < |bits|
          invariant b + bi <= |bits| && bi <= BPB && FirstFree(bits, 0) == FirstFree(bits, b + bi)
        {
          if !bits[b + bi] { return b + bi; }
          bi := bi + 1;
        }
        b := b + bi;
      }
    }

    /** balloc; None where the source panics. */
    method Balloc() returns (r: Option<nat>)
      requires |bits| == |blocks|
      modifies this
      ensures var b := FirstFree(old(bits), 0);
              if b == |old(bits)| then r == None && Now() == old(Now())
              else r == Some(b) && Now() == Take(old(Now()), b)
    {
      var b := FindFree();
      if b == |bits| { return None; }
      bits := bits[b := true];
      LogSector(BitSector(b, |inodes|));
      blocks := blocks[b := ZeroBlock()];
      LogSector(b);
      r := Some(b);
    }

    /** bfree; false where the source panics. */
    method Bfree(b: nat) returns (ok: bool)
      requires b < |bits|
      modifies this`bits, this`logged, this`tooBig
      ensures ok <==> old(bits)[b]
      ensures bits == old(bits)[b := false]
      ensures Now() == if ok then LogWrite(old(Now()).(bits := bits), BitSector(b, |inodes|)) else old(Now())
    {
      if !bits[b] { return false; }
      bits := bits[b := false];
      LogSector(BitSector(b, |inodes|));
      ok := true;
    }

    /** The address at a slot of bmap, allocated if need be. */
    method MapAddr(i: nat, k: nat, ghost x: Slot) returns (r: Option<nat>)
      requires Shape(Now()) && i < |inodes|
      requires k <= NDIRECT && x == if k < NDIRECT then Direct(i, k) else Indirect(i)
      modifies this
      ensures var t := MapSlot(old(Now()), x);
              if t.None? then r.None? else Now() == t.value && r == Some(At(t.value, x) as nat)
    {
      var addr := inodes[i].addrs[k];
      if addr == 0 {
        var b := Balloc();
        if b.None? { return None; }
        addr := b.value;
        inodes := inodes[i := inodes[i].(addrs := inodes[i].addrs[k := addr])];
      }
      r := Some(addr);
    }

    /** bmap; None where balloc panics. */
    method Bmap(i: nat, bn: nat) returns (r: Option<nat>)
      requires Inv(Now()) && i < |inodes| && bn < MAXFILE
      modifies this
      ensures var t := BlockMap.Bmap(old(Now()), i, bn);
              if t.None? then r.None? else Now() == t.value && r == Some(At(t.value, FileSlot(i, bn)) as nat)
    {
      if bn < NDIRECT {
        r := MapAddr(i, bn, Direct(i, bn));
      } else {
        r := BmapIndirect(i, bn - NDIRECT);
      }
    }

    /** The part of bmap for blocks behind the indirect block. */
    method BmapIndirect(i: nat, k: nat) returns (r: Option<nat>)
      requires Inv(Now()) && i < |inodes| && k < NINDIRECT
      modifies this
      ensures var t := BlockMap.Bmap(old(Now()), i, NDIRECT + k);
              if t.None? then r.None? else Now() == t.value && r == Some(At(t.value, Entry(i, k)) as nat)
    {
      MapSlotKeeps(Now(), Indirect(i));
      var ind := MapAddr(i, NDIRECT, Indirect(i));
      if ind.None? { return None; }
      r := MapEntry(i, ind.value, k);
    }

    method MapEntry(i: nat, ind: nat, k: nat) returns (r: Option<nat>)
      requires Inv(Now()) && i < |inodes| && k < NINDIRECT && ind == At(Now(), Indirect(i)) && ind != 0
      modifies this
      ensures var t := MapSlot(old(Now()), Entry(i, k));
              if t.None? then r.None? else Now() == t.value && r == Some(At(t.value, Entry(i, k)) as nat)
    {
      ghost var owner :| Owned(Now(), owner);
      assert SlotOk(Now(), owner, Indirect(i));
      var addr := GetWord(blocks[ind], k);
      if addr == 0 {
        ghost var b0 := FirstFree(bits, 0);
        if b0 < |bits| { ClaimAt(Now(), owner, Entry(i, k), b0, Entry(i, k)); }
        var b := Balloc();
        if b.None? { return None; }
        addr := b.value;
        blocks := blocks[ind := SetWord(blocks[ind], k, addr)];
        LogSector(ind);
      }
      r := Some(addr);
    }

    /** One turn of writei's loop; false where balloc panics. */
    method WriteTurn(i: nat, bn: nat, at: nat, piece: seq<Blocks.Byte>, ghost c: Turns) returns (ok: bool)
      requires Inv(Now()) && i < |inodes| && Fits(c) && c.Turn? && c.bn == bn && c.at == at && c.src == piece
      modifies this
      ensures ok ==> Inv(Now()) && |inodes| == |old(inodes)|
      ensures ok ==> WriteAll(Now(), i, c.rest) == WriteAll(old(Now()), i, c)
      ensures !ok ==> WriteAll(old(Now()), i, c) == None
    {
      ghost var s := Now();
      var r := Bmap(i, bn);
      if r.None? { return false; }
      BmapKeeps(s, i, bn);
      StoreRange(Now(), i, bn);
      blocks := blocks[r.value := Patch(blocks[r.value], at, piece)];
      LogSector(r.value);
      WriteStepData(s, i, bn, at, piece, Now());
      ok := true;
    }

    /** writei's loop; false where balloc panics. */
    method WritePieces(i: nat, start: nat, src: seq<Blocks.Byte>, ghost turns: Turns) returns (ok: bool)
      requires Inv(Now()) && i < |inodes| && Ahead(turns, start, src)
      modifies this
      ensures ok ==> WriteAll(old(Now()), i, turns) == Some(Now())
      ensures !ok ==> WriteAll(old(Now()), i, turns) == None
    {
      var off, tot := start, 0;
      ghost var c := turns;
      while tot < |src|
        invariant 0 <= tot <= |src| && off == start + tot && Ahead(c, off, src[tot..])
        invariant Inv(Now()) && |inodes| == |old(inodes)|
        invariant WriteAll(Now(), i, c) == WriteAll(old(Now()), i, turns)
      {
        var m := Min(|src| - tot, 512 - off % 512);
        var off', tot' := off + m, tot + m;
        NextTurn(c, off, src, tot, off', tot');
        ok := WriteTurn(i, off / 512, off % 512, src[tot..tot'], c);
        if !ok { return; }
        tot, off, c := tot', off', c.rest;
      }
      ok := true;
    }

    /** The end of writei. */
    method UpdateSize(i: nat, end: nat, n: nat)
      requires i < |inodes| == |dinodes|
      modifies this
      ensures Now() == Finish(old(Now()), i, end, n)
    {
      if n > 0 && end > inodes[i].size {
        inodes := inodes[i := inodes[i].(size := end)];
        dinodes := dinodes[i := inodes[i]];
        LogSector(InodeSector(i));
      }
    }

    /** writei after its checks; false where balloc panics. */
    method WriteChecked(i: nat, off: Word, src: seq<Blocks.Byte>) returns (ok: bool)
      requires Inv(Now()) && i < |inodes| && off + |src| <= MAXFILE * 512 && off <= inodes[i].size
      modifies this
      ensures FileOps.Writei(old(Now()), i, off, src) == if ok then Wrote(Now()) else OutOfBlocks
    {
      CutWalks(off, src);
      ghost var c := Cut(off, src);
      WriteiIs(Now(), i, off, src, c);
      ok := WritePieces(i, off, src, c);
      if ok {
        UpdateSize(i, off + |src|, |src|);
      }
    }

    /** writei on a file. */
    method Writei(i: nat, off: Word, src: seq<Blocks.Byte>) returns (status: Status)
      requires FsOk(Now()) && i < |inodes|
      modifies this
      ensures status == Fail <==>
                off > old(inodes[i].size) || (off + |src|) % 0x1_0000_0000 < off || off + |src| > MAXFILE * 512
      ensures status == Fail ==> FileOps.Writei(old(Now()), i, off, src) == Refused && Now() == old(Now())
      ensures status == Panic ==> FileOps.Writei(old(Now()), i, off, src) == OutOfBlocks
      ensures status == Ok ==> FileOps.Writei(old(Now()), i, off, src) == Wrote(Now())
      ensures status == Ok ==> Overwritten(old(Now()), i, off, src, Now())
    {
      if off > inodes[i].size || (off + |src|) % 0x1_0000_0000 < off { return Fail; }
      if off + |src| > MAXFILE * 512 { return Fail; }
      ghost var s := Now();
      var ok := WriteChecked(i, off, src);
      if !ok { return Panic; }
      WriteiRefines(s, i, off, src);
      status := Ok;
    }

    /** The first loop of itrunc; false where bfree panics. */
    method FreeDirect(i: nat, ghost s: State, ghost owner: map<nat, Slot>) returns (ok: bool)
      requires s == Now() && Shape(s) && Owned(s, owner) && i < |inodes|
      modifies this`bits, this`inodes, this`logged, this`tooBig
      ensures ok && Cleared(s, owner, bits, DirectSlots(i, NDIRECT))
      ensures inodes == s.inodes[i := s.inodes[i].(addrs := ZeroUpTo(s.inodes[i].addrs, NDIRECT))]
    {
      assert ZeroUpTo(inodes[i].addrs, 0) == inodes[i].addrs;
      ghost var addrs := inodes[i].addrs;
      ok := true;
      var k := 0;
      while k < NDIRECT
        invariant 0 <= k <= NDIRECT && ok && Cleared(s, owner, bits, DirectSlots(i, k))
        invariant |inodes| == |s.inodes| && inodes[i] == s.inodes[i].(addrs := ZeroUpTo(addrs, k))
        invariant forall j | 0 <= j < |inodes| && j != i :: inodes[j] == s.inodes[j]
      {
        var k' := k + 1;
        assert DirectSlots(i, k') == DirectSlots(i, k) + {Direct(i, k)};
        assert ZeroUpTo(addrs, k') == ZeroUpTo(addrs, k)[k := 0];
        if inodes[i].addrs[k] != 0 {
          FreeStep(s, owner, bits, DirectSlots(i, k), Direct(i, k));
          ok := Bfree(inodes[i].addrs[k]);
          inodes := inodes[i := inodes[i].(addrs := inodes[i].addrs[k := 0])];
        } else {
          SkipStep(s, owner, bits, DirectSlots(i, k), Direct(i, k));
        }
        k := k';
      }
    }

    /** The second loop of itrunc, over the indirect block. */
    method FreeEntries(i: nat, table: Block, ghost s: State, ghost owner: map<nat, Slot>) returns (ok: bool)
      requires Shape(s) && Owned(s, owner) && i < |s.inodes|
      requires Cleared(s, owner, bits, DirectSlots(i, NDIRECT))
      requires var a := At(s, Indirect(i)); 0 < a < |s.blocks| && table == s.blocks[a]
      modifies this`bits, this`logged, this`tooBig
      ensures ok && Cleared(s, owner, bits, DirectSlots(i, NDIRECT) + EntrySlots(i, NINDIRECT))
    {
      ok := true;
      var j := 0;
      assert EntrySlots(i, 0) == {};
      assert DirectSlots(i, NDIRECT) + EntrySlots(i, 0) == DirectSlots(i, NDIRECT);
      while j < NINDIRECT
        invariant 0 <= j <= NINDIRECT && ok
        invariant Cleared(s, owner, bits, DirectSlots(i, NDIRECT) + EntrySlots(i, j))
      {
        var j' := j + 1;
        ghost var done := DirectSlots(i, NDIRECT) + EntrySlots(i, j);
        assert DirectSlots(i, NDIRECT) + EntrySlots(i, j') == done + {Entry(i, j)};
        if GetWord(table, j) != 0 {
          FreeStep(s, owner, bits, done, Entry(i, j));
          ok := Bfree(GetWord(table, j));
        } else {
          SkipStep(s, owner, bits, done, Entry(i, j));
        }
        j := j';
      }
    }

    /** itrunc: it frees exactly the blocks of inode i, and bfree never finds a
        block free already. */
    method Itrunc(i: nat, ghost owner: map<nat, Slot>) returns (ok: bool)
      requires FsOk(Now()) && Owned(Now(), owner) && i < |inodes|
      modifies this
      ensures ok && Truncated(old(Now()), owner, i, Now())
      ensures FsOk(Now()) && Contents(Now(), i) == []
      ensures forall j | 0 <= j < |inodes| && j != i :: Contents(Now(), j) == Contents(old(Now()), j)
    {
      ghost var s := Now();
      ok := FreeDirect(i, s, owner);
      var a := inodes[i].addrs[NDIRECT];
      ghost var done := DirectSlots(i, NDIRECT) + EntrySlots(i, NINDIRECT);
      if a != 0 {
        assert SlotOk(s, owner, Indirect(i));
        ok := FreeEntries(i, blocks[a], s, owner);
        FreeStep(s, owner, bits, done, Indirect(i));
        ok := Bfree(a);
        inodes := inodes[i := inodes[i].(addrs := inodes[i].addrs[NDIRECT := 0])];
      } else {
        NoEntries(s, owner, bits, i);
        SkipStep(s, owner, bits, done, Indirect(i));
      }
      inodes := inodes[i := inodes[i].(size := 0)];
      dinodes := dinodes[i := inodes[i]];
      LogSector(InodeSector(i));
      ClearedAll(s, owner, i, Now());
      TruncatedFiles(s, owner, i, Now());
    }

    /** One turn of readi's loop. */
    method ReadTurn(i: nat, off: nat, m: nat) returns (piece: seq<Blocks.Byte>)
      requires FsOk(Now()) && i < |inodes| && 0 < m && off + m <= inodes[i].size && off % 512 + m <= BSIZE
      modifies this
      ensures Now() == old(Now()) && piece == Contents(Now(), i)[off..off + m]
    {
      ReadPiece(Now(), i, off, m);
      BmapMapped(Now(), i, off / 512);
      var b := Bmap(i, off / 512);
      piece := blocks[b.value][off % 512..off % 512 + m];
    }

    /** readi on a file: it returns the bytes from off on, as many as there are,
        and changes nothing. */
    method Readi(i: nat, start: Word, count: Word) returns (r: ReadResult)
      requires FsOk(Now()) && i < |inodes|
      modifies this
      ensures Now() == old(Now())
      ensures r.ReadRefused? <==> start > inodes[i].size || (start + count) % 0x1_0000_0000 < start
      ensures r.Got? ==> r.data == Contents(Now(), i)[start..Min(start + count, inodes[i].size)]
    {
      if start > inodes[i].size || (start + count) % 0x1_0000_0000 < start { return ReadRefused; }
      var n := Min(count, inodes[i].size - start);
      var off, data := start, [];
      while |data| < n
        invariant off == start + |data| && |data| <= n
        invariant Now() == old(Now()) && data == Contents(Now(), i)[start..off]
      {
        var m := Min(n - |data|, 512 - off % 512);
        var off' := off + m;
        var piece := ReadTurn(i, off, m);
        Joined(Contents(Now(), i), start, off, off');
        data, off := data + piece, off';
      }
      r := Got(data);
    }

    /** One transaction of filewrite. */
    method WriteChunk(i: nat, off: Word, src: seq<Blocks.Byte>) returns (status: Status)
      requires FsOk(Now()) && i < |inodes| && |bits| <= BPB && !tooBig && |src| <= CHUNK
      modifies this
      ensures status == Ok ==> Overwritten(old(Now()), i, off, src, Now())
      ensures status == Fail <==> off > old(inodes[i].size) || off + |src| > MAXFILE * 512
      ensures status == Fail ==> FsOk(Now()) && SameFiles(old(Now()), Now())
      ensures status != Panic ==> !tooBig && |bits| == |old(bits)|
    {
      ghost var s0 := Now();
      logged := {};
      ghost var s := Now();
      Relog(s0, s);
      status := Writei(i, off, src);
      if status == Panic { return; }
      if status == Ok {
        ChunkBound(s, i, off, src);
        RelogWritten(s0, s, i, off, src, Now());
      }
    }

    /** filewrite on a file: either all of src is written from start on, or whole
        chunks of it, up to one that lies beyond the file's end or the largest
        file; the transactions fit in the log. */
    method Filewrite(i: nat, start: Word, src: seq<Blocks.Byte>)
      returns (status: Status, done: nat, ghost chunks: nat)
      requires FsOk(Now()) && i < |inodes| && |bits| <= BPB && !tooBig
      modifies this
      ensures status != Panic ==> !tooBig && done <= |src| && Progress(old(Now()), i, start, src, done, Now())
      ensures status == Ok ==> done == |src|
      ensures status == Fail ==> done < |src| && done == 1536 * chunks
      ensures status == Fail ==>
                start > old(inodes[i].size) || start + Min(|src|, done + CHUNK) > MAXFILE * 512
    {
      ghost var s0 := Now();
      done, chunks := 0, 0;
      var off := start;
      while done < |src|
        invariant 0 <= done <= |src| && off == start + done && (done == 1536 * chunks || done == |src|)
        invariant done > 0 ==> off <= MAXFILE * 512
        invariant |inodes| == |s0.inodes| && |bits| <= BPB && !tooBig
        invariant Progress(s0, i, start, src, done, Now())
        invariant done > 0 || inodes[i].size == s0.inodes[i].size
        invariant done > 0 ==> off <= inodes[i].size
      {
        var done' := Min(|src|, done + CHUNK);
        var off' := start + done';
        ghost var s := Now();
        status := WriteChunk(i, off, src[done..done']);
        if status == Panic { return; }
        if status == Fail {
          ProgressSame(s0, i, start, src, done, s, Now());
          return;
        }
        ProgressMore(s0, i, start, src, done, done', s, Now());
        done, off, chunks := done', off', chunks + 1;
      }
      status := Ok;
    }
  }

  /** Files and their sizes are the same. */
  ghost predicate SameFiles(s: State, t: State)
  {
    && Shape(s) && Shape(t) && |t.inodes| == |s.inodes| && t.inodes == s.inodes
    && forall j | 0 <= j < |s.inodes| :: Contents(t, j) == Contents(s, j)
  }

  /** Of src, done bytes have been written to inode i from start on. */
  ghost predicate Progress(s0: State, i: nat, start: nat, src: seq<Blocks.Byte>, done: nat, t: State)
    requires FsOk(s0) && i < |s0.inodes| && done <= |src|
  {
    && FsOk(t) && |t.inodes| == |s0.inodes|
    && (done > 0 ==> start <= |Contents(s0, i)|)
    && Contents(t, i) == (if done == 0 then Contents(s0, i) else Overwrite(Contents(s0, i), start, src[..done]))
    && forall j | 0 <= j < |s0.inodes| && j != i :: Contents(t, j) == Contents(s0, j)
  }

  lemma EmptyOk(s: State)
    requires Shape(s) && s.dinodes == s.inodes
    requires forall i | 0 <= i < |s.inodes| :: s.inodes[i] == Empty()
    requires forall b | s.first <= b < |s.bits| :: !s.bits[b]
    ensures FsOk(s)
  {
    forall x | IsSlot(s, x) ensures At(s, x) == 0 { assert s.inodes[x.ino] == Empty(); }
    assert Owned(s, map[]);
  }

  lemma StoreRange(s: State, i: nat, bn: nat)
    requires Inv(s) && i < |s.inodes| && bn < MAXFILE && At(s, FileSlot(i, bn)) != 0
    ensures At(s, FileSlot(i, bn)) < |s.blocks|
  {
    var owner :| Owned(s, owner);
    assert SlotOk(s, owner, FileSlot(i, bn));
  }

  /** The contents of the log are no part of what the files hold. */
  lemma Relog(s: State, t: State)
    requires FsOk(s) && t == s.(logged := t.logged, tooBig := t.tooBig)
    ensures FsOk(t) && SameFiles(s, t)
  {
    var owner :| Owned(s, owner);
    forall y | IsSlot(s, y) ensures At(t, y) == At(s, y) && BlockAt(t, y) == BlockAt(s, y) {}
    OwnedSame(s, owner, t);
    forall j | 0 <= j < |s.inodes| ensures FileOk(t, j) && Contents(t, j) == Contents(s, j) {
      assert FileOk(s, j);
      assert DataOf(t, j) == DataOf(s, j);
    }
  }

  lemma RelogWritten(s0: State, s: State, i: nat, off: nat, src: seq<Blocks.Byte>, t: State)
    requires FsOk(s0) && FsOk(s) && SameFiles(s0, s) && i < |s.inodes| && Overwritten(s, i, off, src, t)
    requires s0.first == s.first && |s0.bits| == |s.bits|
    ensures Overwritten(s0, i, off, src, t)
  {
  }

  lemma ProgressSame(s0: State, i: nat, start: nat, src: seq<Blocks.Byte>, done: nat, s: State, t: State)
    requires FsOk(s0) && i < |s0.inodes| && done <= |src| && Progress(s0, i, start, src, done, s)
    requires FsOk(t) && SameFiles(s, t)
    ensures Progress(s0, i, start, src, done, t)
  {
  }

  lemma ProgressMore(s0: State, i: nat, start: nat, src: seq<Blocks.Byte>, done: nat, done': nat, s: State, t: State)
    requires FsOk(s0) && i < |s0.inodes| && done < done' <= |src| && Progress(s0, i, start, src, done, s)
    requires Overwritten(s, i, start + done, src[done..done'], t)
    ensures Progress(s0, i, start, src, done', t) && start + done' <= t.inodes[i].size
  {
    var part := src[..done'];
    assert part[..done] == src[..done] && part[done..] == src[done..done'];
    if done == 0 {
      assert src[done..done'] == src[..done'];
    } else {
      OverwriteTwice(Contents(s0, i), start, part, done);
    }
  }
}
