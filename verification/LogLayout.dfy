/** Where the log lives on disk: home sectors below `start`, the header in
    sector `start`, one log block in each sector after it (log.c, struct
    logheader). Raw sector writes are shown to be the writes RedoLog makes. */
module LogLayout {
  import opened Blocks
  import opened RedoLog

  type Raw = seq<Block>

  /** The sector numbers recorded in a header block: word 0 is the count. */
  ghost predicate IsHeader(b: Block, secs: seq<nat>)
  {
    && GetWord(b, 0) == |secs| < NWORDS
    && forall i | 0 <= i < |secs| :: secs[i] == GetWord(b, i + 1)
  }

  /** raw holds the disk d. */
  ghost predicate Holds(raw: Raw, start: nat, d: Disk)
  {
    && |d.home| == start < |raw|
    && start + 1 + |d.slots| <= |raw|
    && raw[..start] == d.home
    && raw[start + 1..start + 1 + |d.slots|] == d.slots
    && IsHeader(raw[start], d.head)
  }

  /** The raw sector number of a cached sector. */
  function RawSector(start: nat, a: Addr): nat
  {
    match a
    case Home(s) => s
    case Slot(i) => start + 1 + i
  }

  lemma HeaderUnique(b: Block, s1: seq<nat>, s2: seq<nat>)
    requires IsHeader(b, s1) && IsHeader(b, s2)
    ensures s1 == s2
  {
  }

  /** A raw image holds at most one disk of a given shape. */
  lemma HoldsUnique(raw: Raw, start: nat, d1: Disk, d2: Disk)
    requires Holds(raw, start, d1) && Holds(raw, start, d2) && |d1.slots| == |d2.slots|
    ensures d1 == d2
  {
    HeaderUnique(raw[start], d1.head, d2.head);
  }

  /** Data sectors: reading and writing by raw number is Fetch and Store. */
  lemma DataSector(raw: Raw, start: nat, d: Disk, a: Addr, b: Block)
    requires Holds(raw, start, d) && InRange(d, a)
    ensures RawSector(start, a) < |raw|
    ensures raw[RawSector(start, a)] == Fetch(d, a)
    ensures Holds(raw[RawSector(start, a) := b], start, Store(d, a, b))
  {
    var k := RawSector(start, a);
    var r := raw[k := b];
    var d1 := Store(d, a, b);
    if a.Slot? {
      assert raw[k] == raw[start + 1..start + 1 + |d.slots|][a.index];
      assert r[start + 1..start + 1 + |d.slots|] == d1.slots;
    }
    assert r[..start] == d1.home;
  }

  /** write_head: fill in the header block and write it, one raw sector. */
  method WriteHeader(b: Block, secs: seq<nat>) returns (hb: Block)
    requires |secs| <= LOGSIZE && Below(secs, 0x1_0000_0000)
    ensures IsHeader(hb, secs)
    ensures forall j | |secs| < j < NWORDS :: GetWord(hb, j) == GetWord(b, j)
  {
    hb := SetWord(b, 0, |secs|);
    var i := 0;
    while i < |secs|
      invariant 0 <= i <= |secs|
      invariant GetWord(hb, 0) == |secs|
      invariant forall j | 0 <= j < i :: secs[j] == GetWord(hb, j + 1)
      invariant forall j | |secs| < j < NWORDS :: GetWord(hb, j) == GetWord(b, j)
    {
      hb := SetWord(hb, i + 1, secs[i]);
      i := i + 1;
    }
  }

  /** read_head: the sectors a header block names. */
  method ReadHeader(hb: Block) returns (secs: seq<nat>)
    requires GetWord(hb, 0) < NWORDS
    ensures IsHeader(hb, secs)
  {
    secs := [];
    var i := 0;
    while i < GetWord(hb, 0)
      invariant 0 <= i == |secs| <= GetWord(hb, 0)
      invariant forall j | 0 <= j < i :: secs[j] == GetWord(hb, j + 1)
    {
      secs := secs + [GetWord(hb, i + 1)];
      i := i + 1;
    }
  }

  /** The committing write: one raw sector replaces the whole header. */
  lemma HeaderSector(raw: Raw, start: nat, d: Disk, secs: seq<nat>, hb: Block)
    requires Holds(raw, start, d) && IsHeader(hb, secs)
    ensures Holds(raw[start := hb], start, d.(head := secs))
  {
    assert raw[start := hb][..start] == raw[..start];
  }
}
