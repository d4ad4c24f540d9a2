/** Blocks and inodes of the file system (fs.c): the bitmap, the block maps of
    the inodes, and what the log has to hold. */
module BlockMap {
  import opened Blocks
  import opened Options

  const NDIRECT: nat := 12
  const NINDIRECT: nat := 128
  const MAXFILE: nat := 140
  const BPB: nat := 4096

  /** log_write panics once this many sectors are in the log: nine of the ten
      log blocks hold data. */
  const LOG_LIMIT: nat := 9

  /** The size and block addresses of an inode; address 0 means none. */
  datatype Inode = Inode(size: nat, addrs: seq<Word>)

  /** The file system: the bitmap, the blocks, the inodes in memory and on disk,
      and the sectors logged by the current transaction. */
  datatype State = State(
    first: nat,               // the first data block
    bits: seq<bool>,
    blocks: seq<Block>,
    inodes: seq<Inode>,
    dinodes: seq<Inode>,
    logged: set<nat>,
    tooBig: bool)             // log_write has panicked

  function InodeSector(i: nat): nat
  {
    i / 8 + 2
  }

  function BitSector(b: nat, ninodes: nat): nat
  {
    b / 4096 + ninodes / 8 + 3
  }

  function LogWrite(s: State, sector: nat): State
  {
    s.(logged := s.logged + {sector}, tooBig := s.tooBig || |s.logged| >= LOG_LIMIT)
  }

  /** A place where a block address is kept. */
  datatype Slot = Direct(ino: nat, k: nat) | Indirect(ino: nat) | Entry(ino: nat, k: nat)

  predicate IsSlot(s: State, x: Slot)
  {
    x.ino < |s.inodes| && (x.Direct? ==> x.k < NDIRECT) && (x.Entry? ==> x.k < NINDIRECT)
  }

  ghost predicate Shape(s: State)
  {
    && |s.bits| == |s.blocks| <= 0x1_0000_0000
    && |s.dinodes| == |s.inodes|
    && 0 < s.first <= |s.bits|
    && (forall b | 0 <= b < s.first :: s.bits[b])
    && (forall i | 0 <= i < |s.inodes| :: |s.inodes[i].addrs| == NDIRECT + 1)
  }

  /** The address kept at a slot. */
  function At(s: State, x: Slot): Word
    requires IsSlot(s, x) && |s.inodes[x.ino].addrs| == NDIRECT + 1
  {
    var addrs := s.inodes[x.ino].addrs;
    match x
    case Direct(_, k) => addrs[k]
    case Indirect(_) => addrs[NDIRECT]
    case Entry(_, k) =>
      if addrs[NDIRECT] == 0 || addrs[NDIRECT] >= |s.blocks| then 0 else GetWord(s.blocks[addrs[NDIRECT]], k)
  }

  ghost predicate OwnerOk(s: State, owner: map<nat, Slot>, b: nat)
    requires Shape(s)
  {
    && (b in owner <==> s.first <= b < |s.bits| && s.bits[b])
    && (b in owner ==> IsSlot(s, owner[b]) && At(s, owner[b]) == b)
  }

  ghost predicate SlotOk(s: State, owner: map<nat, Slot>, x: Slot)
    requires Shape(s)
  {
    IsSlot(s, x) && At(s, x) != 0 ==> At(s, x) in owner && owner[At(s, x)] == x && s.first <= At(s, x) < |s.bits|
  }

  /** owner is the inverse of At on the allocated data blocks: every one of them
      is the address at exactly one slot. */
  ghost predicate Owned(s: State, owner: map<nat, Slot>)
    requires Shape(s)
  {
    (forall b :: OwnerOk(s, owner, b)) && (forall x :: SlotOk(s, owner, x))
  }

  // ---------------------------------------------------------------
  // balloc and bmap.

  /** The first clear bit at or after from, or the size of the bitmap. */
  function FirstFree(bits: seq<bool>, from: nat): (b: nat)
    requires from <= |bits|
    ensures from <= b <= |bits| && (b < |bits| ==> !bits[b])
    ensures forall x | from <= x < b :: bits[x]
    decreases |bits| - from
  {
    if from == |bits| || !bits[from] then from else FirstFree(bits, from + 1)
  }

  /** balloc: mark block b and zero it. */
  function Take(s: State, b: nat): State
    requires b < |s.bits| == |s.blocks|
  {
    var t := LogWrite(s.(bits := s.bits[b := true]), BitSector(b, |s.inodes|));
    LogWrite(t.(blocks := t.blocks[b := ZeroBlock()]), b)
  }

  function SetAddr(s: State, i: nat, k: nat, b: Word): State
    requires i < |s.inodes| && k < |s.inodes[i].addrs|
  {
    s.(inodes := s.inodes[i := s.inodes[i].(addrs := s.inodes[i].addrs[k := b])])
  }

  /** Store address b at a slot. */
  function Put(s: State, x: Slot, b: Word): State
    requires IsSlot(s, x) && |s.inodes[x.ino].addrs| == NDIRECT + 1
  {
    match x
    case Direct(i, k) => SetAddr(s, i, k, b)
    case Indirect(i) => SetAddr(s, i, NDIRECT, b)
    case Entry(i, k) =>
      var a := s.inodes[i].addrs[NDIRECT];
      if a >= |s.blocks| then s else LogWrite(s.(blocks := s.blocks[a := SetWord(s.blocks[a], k, b)]), a)
  }

  /** Allocate block b for an empty slot. */
  function Claim(s: State, x: Slot, b: nat): State
    requires Shape(s) && IsSlot(s, x) && b < |s.bits|
  {
    Put(Take(s, b), x, b)
  }

  ghost predicate Claimable(s: State, owner: map<nat, Slot>, x: Slot, b: nat)
  {
    && Shape(s) && Owned(s, owner) && IsSlot(s, x) && At(s, x) == 0
    && b < |s.bits| && !s.bits[b]
    && (x.Entry? ==> At(s, Indirect(x.ino)) != 0)
  }

  lemma ClaimableRange(s: State, owner: map<nat, Slot>, x: Slot, b: nat)
    requires Claimable(s, owner, x, b)
    ensures s.first <= b && b !in owner
    ensures x.Entry? ==> At(s, Indirect(x.ino)) in owner && At(s, Indirect(x.ino)) < |s.blocks|
    ensures Shape(Claim(s, x, b))
  {
    assert OwnerOk(s, owner, b);
    if x.Entry? { assert SlotOk(s, owner, Indirect(x.ino)); }
  }

  /** Claiming a block changes that slot and no other. */
  lemma ClaimAt(s: State, owner: map<nat, Slot>, x: Slot, b: nat, y: Slot)
    requires Claimable(s, owner, x, b) && IsSlot(s, y)
    requires Shape(Claim(s, x, b))
    ensures At(Claim(s, x, b), y) == if y == x then b else At(s, y)
  {
    ClaimableRange(s, owner, x, b);
    assert SlotOk(s, owner, Indirect(y.ino));
    assert SlotOk(s, owner, Indirect(x.ino));
    assert OwnerOk(s, owner, b);
    if y == Entry(y.ino, if y.Entry? then y.k else 0) && x == Indirect(y.ino) {
      ZeroWords();
    }
  }

  ghost predicate Gains(s: State, t: State, x: Slot, b: nat)
    requires Shape(s) && Shape(t)
  {
    && |t.inodes| == |s.inodes| && t.first == s.first
    && b < |s.bits| && t.bits == s.bits[b := true]
    && forall y | IsSlot(t, y) :: At(t, y) == if y == x then b else At(s, y)
  }

  lemma OwnedGains(s: State, owner: map<nat, Slot>, t: State, x: Slot, b: nat)
    requires Shape(s) && Shape(t) && Owned(s, owner) && Gains(s, t, x, b)
    requires IsSlot(s, x) && At(s, x) == 0 && s.first <= b && b !in owner
    ensures Owned(t, owner[b := x])
  {
    var owner' := owner[b := x];
    forall c ensures OwnerOk(t, owner', c) { assert OwnerOk(s, owner, c); }
    forall y ensures SlotOk(t, owner', y) { assert SlotOk(s, owner, y); }
  }

  lemma ClaimOwned(s: State, owner: map<nat, Slot>, x: Slot, b: nat)
    requires Claimable(s, owner, x, b)
    requires Shape(Claim(s, x, b))
    ensures Owned(Claim(s, x, b), owner[b := x])
  {
    var t := Claim(s, x, b);
    forall y | IsSlot(t, y) ensures At(t, y) == if y == x then b else At(s, y) {
      ClaimAt(s, owner, x, b, y);
    }
    ClaimableRange(s, owner, x, b);
    OwnedGains(s, owner, t, x, b);
  }

  /** Every allocated data block is at exactly one slot, and every address kept
      at a slot is an allocated data block. */
  ghost predicate Inv(s: State)
  {
    Shape(s) && exists owner :: Owned(s, owner)
  }

  /** No block is in two places. */
  lemma OneOwner(s: State, x: Slot, y: Slot)
    requires Inv(s) && IsSlot(s, x) && IsSlot(s, y) && At(s, x) == At(s, y) != 0
    ensures x == y && s.first <= At(s, x) < |s.bits| && s.bits[At(s, x)]
  {
    var owner :| Owned(s, owner);
    assert SlotOk(s, owner, x) && SlotOk(s, owner, y);
    assert OwnerOk(s, owner, At(s, x));
  }

  /** No allocated block is lost. */
  lemma SomeOwner(s: State, b: nat) returns (x: Slot)
    requires Inv(s) && s.first <= b < |s.bits| && s.bits[b]
    ensures IsSlot(s, x) && At(s, x) == b
  {
    var owner :| Owned(s, owner);
    assert OwnerOk(s, owner, b);
    x := owner[b];
  }

  /** The block whose address a slot keeps. */
  function BlockAt(s: State, x: Slot): Option<Block>
    requires IsSlot(s, x) && |s.inodes[x.ino].addrs| == NDIRECT + 1
  {
    if At(s, x) == 0 || At(s, x) >= |s.blocks| then None else Some(s.blocks[At(s, x)])
  }

  lemma ClaimData(s: State, owner: map<nat, Slot>, x: Slot, b: nat, y: Slot)
    requires Claimable(s, owner, x, b) && IsSlot(s, y) && !y.Indirect?
    requires Shape(Claim(s, x, b))
    ensures BlockAt(Claim(s, x, b), y) == if y == x then Some(ZeroBlock()) else BlockAt(s, y)
  {
    ClaimableRange(s, owner, x, b);
    ClaimAt(s, owner, x, b, y);
    assert SlotOk(s, owner, Indirect(x.ino));
    assert SlotOk(s, owner, y);
  }

  /** Nothing but block maps and blocks differs; no map but that of inode i. */
  ghost predicate SameBut(s: State, t: State, i: nat)
  {
    && |t.inodes| == |s.inodes| && |t.bits| == |s.bits| && t.first == s.first && t.dinodes == s.dinodes
    && (forall j | 0 <= j < |s.inodes| && j != i :: t.inodes[j] == s.inodes[j])
    && (i < |s.inodes| ==> t.inodes[i].size == s.inodes[i].size)
  }

  /** One slot of bmap: allocate a block for it if it has none; None is the panic
      of balloc. */
  function MapSlot(s: State, x: Slot): (r: Option<State>)
    requires Shape(s) && IsSlot(s, x)
    ensures r.Some? ==> Shape(r.value) && SameBut(s, r.value, x.ino)
  {
    if At(s, x) != 0 then Some(s)
    else
      var b := FirstFree(s.bits, 0);
      if b == |s.bits| then None else Some(Claim(s, x, b))
  }

  ghost predicate Mapped(s: State, t: State, x: Slot)
    requires Shape(s) && Shape(t) && |t.inodes| == |s.inodes| && IsSlot(s, x)
  {
    && At(t, x) != 0
    && (forall y | IsSlot(s, y) && y != x :: At(t, y) == At(s, y))
    && (forall y | IsSlot(s, y) && y != x && !y.Indirect? :: BlockAt(t, y) == BlockAt(s, y))
    && (!x.Indirect? ==> BlockAt(t, x) == if BlockAt(s, x).None? then Some(ZeroBlock()) else BlockAt(s, x))
    && (At(s, x) != 0 ==> At(t, x) == At(s, x))
  }

  lemma ClaimKeeps(s: State, owner: map<nat, Slot>, x: Slot, b: nat)
    requires Claimable(s, owner, x, b)
    ensures var t := Claim(s, x, b); Inv(t) && SameBut(s, t, x.ino) && Mapped(s, t, x)
  {
    var t := Claim(s, x, b);
    ClaimableRange(s, owner, x, b);
    ClaimOwned(s, owner, x, b);
    forall y | IsSlot(s, y) ensures At(t, y) == if y == x then b else At(s, y) {
      ClaimAt(s, owner, x, b, y);
    }
    forall y | IsSlot(s, y) && !y.Indirect?
      ensures BlockAt(t, y) == if y == x then Some(ZeroBlock()) else BlockAt(s, y)
    {
      ClaimData(s, owner, x, b, y);
    }
  }

  lemma MapSlotKeeps(s: State, x: Slot)
    requires Inv(s) && IsSlot(s, x) && (x.Entry? ==> At(s, Indirect(x.ino)) != 0)
    ensures var r := MapSlot(s, x);
            r.Some? ==> Inv(r.value) && SameBut(s, r.value, x.ino) && Mapped(s, r.value, x)
  {
    var owner :| Owned(s, owner);
    var b := FirstFree(s.bits, 0);
    if At(s, x) == 0 && b < |s.bits| {
      ClaimKeeps(s, owner, x, b);
    } else {
      assert SlotOk(s, owner, x);
    }
  }

  /** The slot of block bn of a file. */
  function FileSlot(i: nat, bn: nat): Slot
  {
    if bn < NDIRECT then Direct(i, bn) else Entry(i, bn - NDIRECT)
  }

  /** bmap: after it, block bn of inode i has an address. */
  function Bmap(s: State, i: nat, bn: nat): (r: Option<State>)
    requires Shape(s) && i < |s.inodes| && bn < MAXFILE
    ensures r.Some? ==> Shape(r.value) && SameBut(s, r.value, i)
  {
    if bn < NDIRECT then MapSlot(s, Direct(i, bn))
    else
      var r := MapSlot(s, Indirect(i));
      if r.None? then None else MapSlot(r.value, Entry(i, bn - NDIRECT))
  }

  ghost predicate FileMapped(s: State, t: State, i: nat, bn: nat)
    requires Shape(s) && Shape(t) && |t.inodes| == |s.inodes| && i < |s.inodes| && bn < MAXFILE
  {
    var x := FileSlot(i, bn);
    && At(t, x) != 0 && (At(s, x) != 0 ==> At(t, x) == At(s, x))
    && (bn >= NDIRECT ==> At(t, Indirect(i)) != 0)
    && (bn < NDIRECT || At(s, Indirect(i)) != 0 ==> At(t, Indirect(i)) == At(s, Indirect(i)))
    && (forall y | IsSlot(s, y) && y != x && !y.Indirect? :: At(t, y) == At(s, y) && BlockAt(t, y) == BlockAt(s, y))
    && BlockAt(t, x) == if BlockAt(s, x).None? then Some(ZeroBlock()) else BlockAt(s, x)
  }

  lemma MappedDirect(s: State, t: State, i: nat, bn: nat)
    requires Shape(s) && Shape(t) && SameBut(s, t, i) && i < |s.inodes| && bn < NDIRECT
    requires Mapped(s, t, Direct(i, bn))
    ensures FileMapped(s, t, i, bn)
  {
    assert At(t, Indirect(i)) == At(s, Indirect(i));
  }

  lemma MappedEntry(s: State, u: State, t: State, i: nat, k: nat)
    requires Shape(s) && Shape(u) && Shape(t) && SameBut(s, u, i) && SameBut(u, t, i)
    requires i < |s.inodes| && k < NINDIRECT
    requires Mapped(s, u, Indirect(i)) && Mapped(u, t, Entry(i, k))
    ensures SameBut(s, t, i) && FileMapped(s, t, i, NDIRECT + k)
  {
    assert At(t, Indirect(i)) == At(u, Indirect(i));
    assert At(u, Entry(i, k)) == At(s, Entry(i, k));
    assert BlockAt(u, Entry(i, k)) == BlockAt(s, Entry(i, k));
    forall y | IsSlot(s, y) && y != Entry(i, k) && !y.Indirect?
      ensures At(t, y) == At(s, y) && BlockAt(t, y) == BlockAt(s, y)
    {
      assert At(t, y) == At(u, y) && BlockAt(t, y) == BlockAt(u, y);
    }
  }

  ghost predicate BmapOk(s: State, i: nat, bn: nat, t: State)
  {
    && Shape(s) && Inv(t) && SameBut(s, t, i) && i < |s.inodes| && bn < MAXFILE
    && FileMapped(s, t, i, bn)
  }

  lemma BmapEntry(s: State, u: State, t: State, i: nat, k: nat)
    requires Inv(s) && i < |s.inodes| && k < NINDIRECT
    requires MapSlot(s, Indirect(i)) == Some(u)
    requires Shape(u) && i < |u.inodes| && MapSlot(u, Entry(i, k)) == Some(t)
    ensures BmapOk(s, i, NDIRECT + k, t)
  {
    MapSlotKeeps(s, Indirect(i));
    MapSlotKeeps(u, Entry(i, k));
    MappedEntry(s, u, t, i, k);
  }

  lemma BmapKeeps(s: State, i: nat, bn: nat)
    requires Inv(s) && i < |s.inodes| && bn < MAXFILE && Bmap(s, i, bn).Some?
    ensures BmapOk(s, i, bn, Bmap(s, i, bn).value)
  {
    if bn < NDIRECT {
      BmapDirect(s, Bmap(s, i, bn).value, i, bn);
    } else {
      var u := MapSlot(s, Indirect(i)).value;
      BmapEntry(s, u, MapSlot(u, Entry(i, bn - NDIRECT)).value, i, bn - NDIRECT);
    }
  }

  lemma BmapDirect(s: State, t: State, i: nat, bn: nat)
    requires Inv(s) && i < |s.inodes| && bn < NDIRECT && MapSlot(s, Direct(i, bn)) == Some(t)
    ensures BmapOk(s, i, bn, t)
  {
    MapSlotKeeps(s, Direct(i, bn));
    MappedDirect(s, t, i, bn);
  }

  // ---------------------------------------------------------------
  // Changing the data of a block.

  /** block with src written over it from position at on. */
  function Patch(block: Block, at: nat, src: seq<Byte>): Block
    requires at + |src| <= BSIZE
  {
    block[..at] + src + block[at + |src|..]
  }

  /** The body of writei's loop after bmap. */
  function Store(s: State, i: nat, bn: nat, data: Block): (t: State)
    requires Shape(s) && i < |s.inodes| && bn < MAXFILE
    ensures Shape(t) && SameBut(s, t, i)
  {
    var a := At(s, FileSlot(i, bn));
    if a >= |s.blocks| then s else LogWrite(s.(blocks := s.blocks[a := data]), a)
  }

  lemma OwnedSame(s: State, owner: map<nat, Slot>, t: State)
    requires Shape(s) && Shape(t) && Owned(s, owner)
    requires |t.inodes| == |s.inodes| && t.first == s.first && t.bits == s.bits
    requires forall y | IsSlot(s, y) :: At(t, y) == At(s, y)
    ensures Owned(t, owner)
  {
    forall c ensures OwnerOk(t, owner, c) { assert OwnerOk(s, owner, c); }
    forall y ensures SlotOk(t, owner, y) { assert SlotOk(s, owner, y); }
  }

  ghost predicate Stored(s: State, t: State, x: Slot, data: Block)
    requires Shape(s) && Shape(t) && |t.inodes| == |s.inodes|
  {
    && (forall y | IsSlot(s, y) :: At(t, y) == At(s, y))
    && (forall y | IsSlot(s, y) && !y.Indirect? :: BlockAt(t, y) == if y == x then Some(data) else BlockAt(s, y))
  }

  /** A data block is nobody's indirect block, and no other slot's block. */
  lemma StoreKeeps(s: State, i: nat, bn: nat, data: Block)
    requires Inv(s) && i < |s.inodes| && bn < MAXFILE && At(s, FileSlot(i, bn)) != 0
    ensures var t := Store(s, i, bn, data);
            Inv(t) && SameBut(s, t, i) && Stored(s, t, FileSlot(i, bn), data)
  {
    var t, x := Store(s, i, bn, data), FileSlot(i, bn);
    var owner :| Owned(s, owner);
    assert SlotOk(s, owner, x);
    forall y | IsSlot(s, y)
      ensures At(t, y) == At(s, y)
      ensures !y.Indirect? ==> BlockAt(t, y) == if y == x then Some(data) else BlockAt(s, y)
    {
      StoreAt(s, owner, x, y, data, t);
    }
    OwnedSame(s, owner, t);
  }

  lemma StoreAt(s: State, owner: map<nat, Slot>, x: Slot, y: Slot, data: Block, t: State)
    requires Shape(s) && Owned(s, owner) && IsSlot(s, x) && IsSlot(s, y) && !x.Indirect?
    requires 0 < At(s, x) < |s.blocks|
    requires t.inodes == s.inodes && t.blocks == s.blocks[At(s, x) := data]
    ensures At(t, y) == At(s, y)
    ensures !y.Indirect? ==> BlockAt(t, y) == if y == x then Some(data) else BlockAt(s, y)
  {
    assert SlotOk(s, owner, x);
    assert SlotOk(s, owner, y);
    assert SlotOk(s, owner, Indirect(y.ino));
  }
}

/** Files as byte sequences: readi and writei over the block maps. */
module FileData {
  import opened Blocks
  import opened BlockMap
  import opened Options

  // ---------------------------------------------------------------
  // A file as a sequence of optional blocks.

  type Data = seq<Option<Block>>

  /** The least number of blocks that hold len bytes. */
  function Ceil(len: nat): nat
  {
    (len + BSIZE - 1) / 512
  }

  predicate NoHoles(d: Data, nb: nat)
  {
    |d| == MAXFILE && nb <= MAXFILE && forall bn | 0 <= bn < MAXFILE :: d[bn].Some? <==> bn < nb
  }

  function Byte(d: Data, o: nat): Blocks.Byte
  {
    if o / 512 < |d| && d[o / 512].Some? then d[o / 512].value[o % 512] else 0
  }

  function Bytes(d: Data, len: nat): seq<Blocks.Byte>
  {
    seq(len, o requires 0 <= o => Byte(d, o))
  }

  function Min(a: nat, b: nat): nat
  {
    if a < b then a else b
  }

  function Max(a: nat, b: nat): nat
  {
    if a < b then b else a
  }

  function Filled(d: Option<Block>): Block
  {
    if d.Some? then d.value else ZeroBlock()
  }

  /** How much of n bytes at off goes into the block of off. */
  function Piece(off: nat, n: nat): nat
  {
    Min(n, 512 - off % 512)
  }

  /** The turns of writei's loop: src goes to block bn, from position at on. */
  datatype Turns = Done | Turn(bn: nat, at: nat, src: seq<Blocks.Byte>, rest: Turns)

  function Cut(off: nat, src: seq<Blocks.Byte>): Turns
    decreases |src|
  {
    var n := Piece(off, |src|);
    if src == [] then Done else Turn(off / 512, off % 512, src[..n], Cut(off + n, src[n..]))
  }

  function Flat(c: Turns): seq<Blocks.Byte>
  {
    if c.Done? then [] else c.src + Flat(c.rest)
  }

  /** Every turn stays in its block, and in the largest file. */
  predicate Fits(c: Turns)
  {
    c.Turn? ==> c.bn < MAXFILE && c.at + |c.src| <= BSIZE && c.src != [] && Fits(c.rest)
  }

  /** The turns walk forward from off. */
  ghost predicate Walks(c: Turns, off: nat)
  {
    c.Turn? ==> off == c.bn * 512 + c.at && Walks(c.rest, off + |c.src|)
  }

  /** Every turn but the last goes to the end of its block. */
  ghost predicate Tight(c: Turns)
  {
    c.Turn? ==> (c.rest.Turn? ==> c.at + |c.src| == 512) && Tight(c.rest)
  }

  lemma {:induction false} CutWalks(off: nat, src: seq<Blocks.Byte>)
    requires off + |src| <= MAXFILE * 512
    ensures Fits(Cut(off, src)) && Walks(Cut(off, src), off) && Flat(Cut(off, src)) == src && Tight(Cut(off, src))
    decreases |src|
  {
    if src != [] {
      var n := Piece(off, |src|);
      CutWalks(off + n, src[n..]);
      assert src == src[..n] + src[n..];
    }
  }

  /** One turn of writei's loop, on the blocks of its file. */
  function WriteOne(d: Data, bn: nat, at: nat, src: seq<Blocks.Byte>): Data
    requires bn < |d| && at + |src| <= BSIZE
  {
    d[bn := Some(Patch(Filled(d[bn]), at, src))]
  }

  /** Writing src over bytes at off, extending them if need be. */
  function Overwrite(bytes: seq<Blocks.Byte>, off: nat, src: seq<Blocks.Byte>): seq<Blocks.Byte>
    requires off <= |bytes|
  {
    bytes[..off] + src + if off + |src| < |bytes| then bytes[off + |src|..] else []
  }

  lemma WriteOneByte(d: Data, bn: nat, at: nat, src: seq<Blocks.Byte>, o: nat)
    requires bn < |d| && at + |src| <= BSIZE
    ensures var off := bn * 512 + at;
            off <= o < off + |src| ==> Byte(WriteOne(d, bn, at, src), o) == src[o - off]
    ensures var off := bn * 512 + at;
            (o < off || off + |src| <= o) && (d[bn].Some? || o / 512 != bn)
            ==> Byte(WriteOne(d, bn, at, src), o) == Byte(d, o)
  {
    var off := bn * 512 + at;
    assert o / 512 == bn ==> o - off == o % 512 - at;
    assert off <= o < off + |src| ==> o / 512 == bn;
  }

  lemma WriteOneHoles(d: Data, len: nat, bn: nat, at: nat, src: seq<Blocks.Byte>)
    requires bn < MAXFILE && at + |src| <= BSIZE && src != []
    requires bn * 512 + at <= len && NoHoles(d, Ceil(len))
    ensures NoHoles(WriteOne(d, bn, at, src), Ceil(Max(len, bn * 512 + at + |src|)))
  {
  }

  /** One turn writes its piece and leaves no hole. */
  lemma WriteOneBytes(d: Data, len: nat, bn: nat, at: nat, src: seq<Blocks.Byte>)
    requires bn < MAXFILE && at + |src| <= BSIZE && src != []
    requires bn * 512 + at <= len && NoHoles(d, Ceil(len))
    ensures var off := bn * 512 + at;
            Bytes(WriteOne(d, bn, at, src), Max(len, off + |src|)) == Overwrite(Bytes(d, len), off, src)
  {
    var off := bn * 512 + at;
    var len' := Max(len, off + |src|);
    var d' := WriteOne(d, bn, at, src);
    var after := Overwrite(Bytes(d, len), off, src);
    forall o: nat | o < len' ensures Bytes(d', len')[o] == after[o] {
      WriteOneByte(d, bn, at, src, o);
    }
  }

  lemma OverwriteTwice(bytes: seq<Blocks.Byte>, off: nat, src: seq<Blocks.Byte>, m: nat)
    requires off <= |bytes| && m <= |src|
    ensures Overwrite(Overwrite(bytes, off, src[..m]), off + m, src[m..]) == Overwrite(bytes, off, src)
  {
  }

  /** writei's loop, on the blocks of its file. */
  function WriteBlocks(d: Data, c: Turns): Data
    requires |d| == MAXFILE && Fits(c)
    decreases c
  {
    match c
    case Done => d
    case Turn(bn, at, src, rest) => WriteBlocks(WriteOne(d, bn, at, src), rest)
  }

  ghost predicate Written(d: Data, len: nat, d': Data, off: nat, src: seq<Blocks.Byte>)
    requires off <= len
  {
    && NoHoles(d', Ceil(Max(len, off + |src|)))
    && Bytes(d', Max(len, off + |src|)) == Overwrite(Bytes(d, len), off, src)
  }

  lemma WrittenOne(d: Data, len: nat, bn: nat, at: nat, src: seq<Blocks.Byte>, off: nat)
    requires bn < MAXFILE && at + |src| <= BSIZE && src != [] && off == bn * 512 + at
    requires off <= len && NoHoles(d, Ceil(len))
    ensures Written(d, len, WriteOne(d, bn, at, src), off, src)
  {
    WriteOneHoles(d, len, bn, at, src);
    WriteOneBytes(d, len, bn, at, src);
  }

  lemma WrittenMore(d: Data, len: nat, d1: Data, d2: Data, off: nat, off1: nat, a: seq<Blocks.Byte>,
                    b: seq<Blocks.Byte>)
    requires off <= len && Written(d, len, d1, off, a) && off1 == off + |a|
    requires Written(d1, Max(len, off1), d2, off1, b)
    ensures Written(d, len, d2, off, a + b)
  {
    assert (a + b)[..|a|] == a && (a + b)[|a|..] == b;
    OverwriteTwice(Bytes(d, len), off, a + b, |a|);
  }

  lemma WrittenNothing(d: Data, len: nat, off: nat)
    requires off <= len && NoHoles(d, Ceil(len))
    ensures Written(d, len, d, off, [])
  {
    assert Overwrite(Bytes(d, len), off, []) == Bytes(d, len);
  }

  lemma {:induction false} WriteBlocksBytes(d: Data, len: nat, c: Turns, off: nat)
    requires off <= len && Fits(c) && Walks(c, off) && NoHoles(d, Ceil(len))
    ensures Written(d, len, WriteBlocks(d, c), off, Flat(c))
    decreases c
  {
    match c
    case Done => WrittenNothing(d, len, off);
    case Turn(bn, at, src, rest) =>
      var d1, off1 := WriteOne(d, bn, at, src), off + |src|;
      WrittenOne(d, len, bn, at, src, off);
      WriteBlocksBytes(d1, Max(len, off1), rest, off1);
      WrittenMore(d, len, d1, WriteBlocks(d1, rest), off, off1, src, Flat(rest));
  }

  // ---------------------------------------------------------------
  // writei.

  /** The blocks of inode i. */
  function DataOf(s: State, i: nat): Data
    requires Shape(s) && i < |s.inodes|
  {
    seq(MAXFILE, bn requires 0 <= bn < MAXFILE => BlockAt(s, FileSlot(i, bn)))
  }

  /** One turn of writei's loop: find or allocate the block, change its data. */
  function WriteStep(s: State, i: nat, bn: nat, at: nat, src: seq<Blocks.Byte>): (r: Option<State>)
    requires Shape(s) && i < |s.inodes| && bn < MAXFILE && at + |src| <= BSIZE
    ensures r.Some? ==> Shape(r.value) && SameBut(s, r.value, i)
  {
    var r := Bmap(s, i, bn);
    if r.None? then None
    else
      var block := Filled(BlockAt(r.value, FileSlot(i, bn)));
      Some(Store(r.value, i, bn, Patch(block, at, src)))
  }

  /** writei's loop. */
  function WriteAll(s: State, i: nat, c: Turns): (r: Option<State>)
    requires Shape(s) && i < |s.inodes| && Fits(c)
    ensures r.Some? ==> Shape(r.value) && SameBut(s, r.value, i)
    decreases c
  {
    match c
    case Done => Some(s)
    case Turn(bn, at, src, rest) =>
      var r := WriteStep(s, i, bn, at, src);
      if r.None? then None else WriteAll(r.value, i, rest)
  }

  /** The other files keep their blocks. */
  ghost predicate OthersSame(s: State, t: State, i: nat)
    requires Shape(s) && Shape(t) && |t.inodes| == |s.inodes|
  {
    forall j | 0 <= j < |s.inodes| && j != i :: DataOf(t, j) == DataOf(s, j)
  }

  ghost predicate SetBlock(s: State, t: State, i: nat, bn: nat, data: Block)
    requires Shape(s) && Shape(t) && |t.inodes| == |s.inodes| && i < |s.inodes| && bn < MAXFILE
  {
    OthersSame(s, t, i) && DataOf(t, i) == DataOf(s, i)[bn := Some(data)]
  }

  lemma BmapData(s: State, i: nat, bn: nat)
    requires Inv(s) && i < |s.inodes| && bn < MAXFILE && Bmap(s, i, bn).Some?
    ensures var t := Bmap(s, i, bn).value;
            Inv(t) && At(t, FileSlot(i, bn)) != 0 && SetBlock(s, t, i, bn, Filled(DataOf(s, i)[bn]))
  {
    BmapKeeps(s, i, bn);
  }

  lemma StoreData(s: State, i: nat, bn: nat, data: Block)
    requires Inv(s) && i < |s.inodes| && bn < MAXFILE && At(s, FileSlot(i, bn)) != 0
    ensures var t := Store(s, i, bn, data); Inv(t) && SetBlock(s, t, i, bn, data)
  {
    StoreKeeps(s, i, bn, data);
  }

  lemma SetTwice(s: State, u: State, t: State, i: nat, bn: nat, data0: Block, data: Block)
    requires Shape(s) && Shape(u) && Shape(t) && |t.inodes| == |u.inodes| == |s.inodes|
    requires i < |s.inodes| && bn < MAXFILE
    requires SetBlock(s, u, i, bn, data0) && SetBlock(u, t, i, bn, data)
    ensures SetBlock(s, t, i, bn, data) && BlockAt(u, FileSlot(i, bn)) == Some(data0)
  {
    assert DataOf(u, i)[bn] == BlockAt(u, FileSlot(i, bn));
  }

  lemma WriteStepData(s: State, i: nat, bn: nat, at: nat, src: seq<Blocks.Byte>, t: State)
    requires Inv(s) && i < |s.inodes| && bn < MAXFILE && at + |src| <= BSIZE
    requires WriteStep(s, i, bn, at, src) == Some(t)
    ensures Inv(t) && OthersSame(s, t, i) && DataOf(t, i) == WriteOne(DataOf(s, i), bn, at, src)
  {
    var u := Bmap(s, i, bn).value;
    BmapData(s, i, bn);
    var data := Patch(Filled(BlockAt(u, FileSlot(i, bn))), at, src);
    StoreData(u, i, bn, data);
    SetTwice(s, u, t, i, bn, Filled(DataOf(s, i)[bn]), data);
  }

  lemma OthersSameTrans(s: State, u: State, t: State, i: nat)
    requires Shape(s) && Shape(u) && Shape(t) && SameBut(s, u, i) && SameBut(u, t, i)
    requires OthersSame(s, u, i) && OthersSame(u, t, i)
    ensures SameBut(s, t, i) && OthersSame(s, t, i)
  {
  }

  /** writei's loop writes the blocks of its file and no other file's. */
  lemma {:induction false} WriteAllData(s: State, i: nat, c: Turns, t: State)
    requires Inv(s) && i < |s.inodes| && Fits(c) && WriteAll(s, i, c) == Some(t)
    ensures Inv(t) && SameBut(s, t, i) && OthersSame(s, t, i)
    ensures DataOf(t, i) == WriteBlocks(DataOf(s, i), c)
    decreases c
  {
    match c
    case Done =>
    case Turn(bn, at, src, rest) =>
      var u := WriteStep(s, i, bn, at, src).value;
      WriteStepData(s, i, bn, at, src, u);
      WriteAllData(u, i, rest, t);
      OthersSameTrans(s, u, t, i);
  }
}
