/** Disk blocks as the kernel sees them: 512 bytes, or 128 little-endian
    32-bit words (the log header and an indirect block are read that way). */
module Blocks {

  const BSIZE: nat := 512
  const NWORDS: nat := 128

  type Byte = b: int | 0 <= b < 256
  type Word = w: int | 0 <= w < 0x1_0000_0000
  type Block = b: seq<Byte> | |b| == BSIZE witness seq(BSIZE, _ => 0)

  function ZeroBlock(): (b: Block)
  {
    seq(BSIZE, _ => 0)
  }

  /** The word at index i of a block, least significant byte first. */
  function GetWord(b: Block, i: nat): Word
    requires i < NWORDS
  {
    var b0: int, b1: int, b2: int, b3: int := b[4 * i], b[4 * i + 1], b[4 * i + 2], b[4 * i + 3];
    b0 + 0x100 * b1 + 0x1_0000 * b2 + 0x100_0000 * b3
  }

  function SetWord(b: Block, i: nat, w: Word): (r: Block)
    requires i < NWORDS
    ensures GetWord(r, i) == w
    ensures forall j | 0 <= j < NWORDS && j != i :: GetWord(r, j) == GetWord(b, j)
  {
    var q1 := w / 0x100;
    var q2 := q1 / 0x100;
    var q3 := q2 / 0x100;
    b[4 * i := w % 0x100][4 * i + 1 := q1 % 0x100][4 * i + 2 := q2 % 0x100][4 * i + 3 := q3]
  }

  lemma ZeroWords()
    ensures forall j | 0 <= j < NWORDS :: GetWord(ZeroBlock(), j) == 0
  {
  }
}
