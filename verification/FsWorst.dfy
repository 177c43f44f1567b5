/** A disk on which a chunk logs as many blocks as an operation may: files of twelve direct blocks
    fill it, but for one block in every 4096. */
module FsWorst {
  import opened Basics
  import opened FsLayout
  import opened FsState
  import opened FsFile
  import opened FsGrow
  import opened FsChunk

  const FIRST: nat := 208               // the first data block
  const USED: nat := 4 * (BPB - 1)      // data blocks in use
  const FILES: nat := USED / NDIRECT

  const WORST: Super := Super(FIRST + 4 * BPB, FILES, 32, 203, FIRST)

  predicate Spare(b: nat) {
    FIRST <= b && (b - FIRST) % BPB == 0
  }

  /** The x-th data block that is not spare. */
  function Nth(x: nat): (b: nat)
    ensures x < USED ==> FIRST <= b < WORST.size && !Spare(b)
  {
    FIRST + x + x / (BPB - 1) + 1
  }

  function Rank(b: nat): (x: nat)
    requires FIRST <= b < WORST.size && !Spare(b)
    ensures x < USED && Nth(x) == b
  {
    b - FIRST - (b - FIRST) / BPB - 1
  }

  lemma RankOfNth(x: nat)
    requires x < USED
    ensures Rank(Nth(x)) == x
  {
  }

  /** File j has the blocks numbered 12 * j to 12 * j + 11. */
  function Address(j: nat, k: nat): uint
    requires j < FILES && k < NDIRECT
  {
    Nth(NDIRECT * j + k)
  }

  function FullInode(j: nat): Dinode
    requires j < FILES
  {
    Dinode(2, 0, 0, 1, ALMOST12, seq(NDIRECT + 1,
                                     k requires 0 <= k <= NDIRECT => if k < NDIRECT then Address(j, k) else 0))
  }

  ghost function WorstDisk(): Fs {
    Fs(seq(WORST.size, _ => Zeros()),
       seq(WORST.size, b requires 0 <= b < WORST.size => b < FIRST || !Spare(b)),
       seq(FILES, j requires 0 <= j < FILES => FullInode(j)),
       seq(FILES, _ => NDIRECT),
       map b: nat | b < WORST.size && FIRST <= b && !Spare(b) :: Data(Rank(b) / NDIRECT, Rank(b) % NDIRECT))
  }

  lemma WorstInode(j: nat)
    requires j < FILES
    ensures InodeOk(WorstDisk(), j)
  {
    var s := WorstDisk();
    assert s.table[j].addrs[NDIRECT] == 0;
    forall k | 0 <= k < MAXFILE ensures DataOk(s, j, k) {
      if k < NDIRECT {
        RankOfNth(NDIRECT * j + k);
        assert BlockAddr(s, j, k) == Address(j, k);
      }
    }
  }

  lemma WorstBlock(b: nat)
    requires b < WORST.size
    ensures BlockOk(WORST, WorstDisk(), b)
  {
    var s := WorstDisk();
    if FIRST <= b && !Spare(b) {
      var j, k := Rank(b) / NDIRECT, Rank(b) % NDIRECT;
      assert BlockAddr(s, j, k) == Address(j, k);
    }
  }

  lemma WorstAtRest()
    ensures AtRest(WORST, WorstDisk())
  {
    var s := WorstDisk();
    forall j | 0 <= j < FILES ensures InodeOk(s, j) {
      WorstInode(j);
    }
    forall b | 0 <= b < WORST.size ensures BlockOk(WORST, s, b) {
      WorstBlock(b);
    }
    AppendArithmetic();
  }

  lemma WorstFree()
    ensures FourApart(WorstDisk(), [FIRST, FIRST + BPB, FIRST + 2 * BPB, FIRST + 3 * BPB])
    ensures 4 <= |FreeBlocks(WorstDisk().bitmap)|
  {
    SubsetSize({FIRST, FIRST + BPB, FIRST + 2 * BPB, FIRST + 3 * BPB}, FreeBlocks(WorstDisk().bitmap));
  }

  /** The hypotheses of ChunkLogsAll can be met, on a disk where the write also succeeds. */
  lemma WorstCase()
    ensures AtRest(WORST, WorstDisk()) && LaidOut(WORST)
    ensures FourApart(WorstDisk(), [FIRST, FIRST + BPB, FIRST + 2 * BPB, FIRST + 3 * BPB])
    ensures var s := WorstDisk();
            s.table[0].size == ALMOST12 && IndirectOf(s, 0) == 0 && Enough(s, 0, Extent(ALMOST12 + CHUNK))
  {
    WorstAtRest();
    WorstFree();
    AppendArithmetic();
  }
}
