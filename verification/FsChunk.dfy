/** How many blocks one write of a chunk logs: never more than an operation may, exactly that many
    at worst, and fewer on a disk with fewer bitmap blocks. */
module FsChunk {
  import opened Basics
  import opened Params
  import opened FsLayout
  import opened FsState
  import opened FsFile
  import opened FsGrow

  /** The most bytes one operation may write. */
  const CHUNK: nat := (MAXOPBLOCKS - 1 - 1 - 2) / 2 * 512

  /** The number of blocks that bytes [off, upto) fall in. */
  function Touched(off: nat, upto: nat): nat
    requires off <= upto
  {
    PastBlock(off, upto) - off / BSIZE
  }

  /** Whether the write gave the indirect block a new entry. */
  predicate LogsIndirect(s: Fs, t: Fs, i: nat) {
    Ext(s, i) < Ext(t, i) && NDIRECT < Ext(t, i)
  }

  /** The metadata among the blocks logged: bitmap blocks, the indirect block, the inode's block. */
  ghost function IndirectPart(s: Fs, t: Fs, i: nat): set<nat> {
    if LogsIndirect(s, t, i) then {IndirectOf(t, i)} else {}
  }

  ghost function InodePart(sb: Super, s: Fs, i: nat, upto: nat): set<nat>
    requires i < |s.table|
  {
    if upto > s.table[i].size then {IBlock(sb, i)} else {}
  }

  /** Which blocks of the file a write takes. */
  lemma GrowthRange(sb: Super, s: Fs, t: Fs, i: nat, off: nat, src: seq<byte>)
    requires AtRest(sb, s) && Written(sb, s, t, i, off, src)
    ensures i < sb.ninodes && off / BSIZE <= Ext(s, i) == Extent(s.table[i].size) <= Ext(t, i)
    ensures Ext(t, i) == Extent(Max(s.table[i].size, off + |src|)) && PastBlock(off, off + |src|) <= Ext(t, i)
    ensures Ext(s, i) < Ext(t, i) ==> Ext(t, i) == PastBlock(off, off + |src|)
  {
  }

  /** The blocks logged, without repetition: every data block taken is one that was written. */
  lemma LogParts(sb: Super, s: Fs, t: Fs, i: nat, off: nat, src: seq<byte>)
    requires AtRest(sb, s) && Written(sb, s, t, i, off, src)
    ensures OpLogs(sb, s, t, i, off, off + |src|) ==
            Addrs(t, i, off / BSIZE, PastBlock(off, off + |src|)) + Maps(sb, Taken(s, t, i))
            + IndirectPart(s, t, i) + InodePart(sb, s, i, off + |src|)
  {
    GrowthRange(sb, s, t, i, off, src);
    var data := Addrs(t, i, off / BSIZE, PastBlock(off, off + |src|));
    assert Taken(s, t, i) <= data + IndirectPart(s, t, i) by {
      forall a | a in Addrs(t, i, Ext(s, i), Ext(t, i)) ensures a in data {
      }
    }
  }

  lemma {:induction false} MapsSize(sb: Super, bs: set<nat>)
    ensures |Maps(sb, bs)| <= |bs|
    decreases |bs|
  {
    if bs == {} {
      assert Maps(sb, bs) == {};
    } else {
      var b :| b in bs;
      MapsSize(sb, bs - {b});
      assert bs == (bs - {b}) + {b};
      assert Maps(sb, bs) == Maps(sb, bs - {b}) + {BBlock(sb, b)};
    }
  }

  /** The bitmap blocks of the first count * BPB blocks. */
  function BitmapBlocks(sb: Super, count: nat): (r: set<nat>)
    ensures |r| == count
    ensures forall x :: x in r <==> sb.bmapstart <= x < sb.bmapstart + count
  {
    if count == 0 then {} else BitmapBlocks(sb, count - 1) + {sb.bmapstart + count - 1}
  }

  lemma MapsWithin(sb: Super, bs: set<nat>, count: nat)
    requires forall b :: b in bs ==> b < count * BPB
    ensures |Maps(sb, bs)| <= count
  {
    assert Maps(sb, bs) <= BitmapBlocks(sb, count);
    SubsetSize(Maps(sb, bs), BitmapBlocks(sb, count));
  }

  lemma FourSets(a: set<nat>, b: set<nat>, c: set<nat>, d: set<nat>)
    ensures |a + b + c + d| <= |a| + |b| + |c| + |d|
    ensures a !! b && a !! c && a !! d && b !! c && b !! d && c !! d ==> |a + b + c + d| == |a| + |b| + |c| + |d|
  {
    assert |a + b| == |a| + |b| - |a * b|;
    assert |a + b + c| == |a + b| + |c| - |(a + b) * c|;
    assert |a + b + c + d| == |a + b + c| + |d| - |(a + b + c) * d|;
  }

  /** No write logs more than the data blocks written, the bitmap blocks of the blocks taken, the
      indirect block and the inode's block. */
  lemma LogsAtMost(sb: Super, s: Fs, t: Fs, i: nat, off: nat, src: seq<byte>)
    requires AtRest(sb, s) && Written(sb, s, t, i, off, src)
    ensures |OpLogs(sb, s, t, i, off, off + |src|)| <= Touched(off, off + |src|) + |Maps(sb, Taken(s, t, i))| + 2
  {
    LogParts(sb, s, t, i, off, src);
    GrowthRange(sb, s, t, i, off, src);
    AddrsSize(sb, t, i, off / BSIZE, PastBlock(off, off + |src|));
    FourSets(Addrs(t, i, off / BSIZE, PastBlock(off, off + |src|)), Maps(sb, Taken(s, t, i)), IndirectPart(s, t, i),
             InodePart(sb, s, i, off + |src|));
  }

  /** A chunk that starts at or before the end of the file is written in few blocks and takes few:
      an unaligned chunk touches four, but its first is already mapped. */
  lemma ChunkArithmetic(size: nat, off: nat, n: nat)
    requires off <= size && n <= CHUNK
    ensures Touched(off, off + n) <= 4 && Extent(Max(size, off + n)) - Extent(size) <= 3
  {
  }

  lemma ChunkTakes(sb: Super, s: Fs, t: Fs, i: nat, off: nat, src: seq<byte>)
    requires AtRest(sb, s) && Written(sb, s, t, i, off, src) && |src| <= CHUNK
    ensures |Taken(s, t, i)| <= 4
  {
    GrowthRange(sb, s, t, i, off, src);
    ChunkArithmetic(s.table[i].size, off, |src|);
    TakenSize(sb, s, t, i);
  }

  lemma TakenBelow(sb: Super, s: Fs, t: Fs, i: nat)
    requires Good(sb, s) && Grown(s, t, i)
    ensures forall b :: b in Taken(s, t, i) ==> b < sb.size
  {
  }

  /** On a disk with count bitmap blocks, the write of a chunk logs at most six blocks and a bitmap
      block for each block taken, of which there are no more than four and no more than count. So it
      always fits an operation; on the one-bitmap-block disk that mkfs makes it logs at most seven. */
  lemma ChunkFits(sb: Super, s: Fs, t: Fs, i: nat, off: nat, src: seq<byte>, count: nat)
    requires AtRest(sb, s) && Written(sb, s, t, i, off, src) && |src| <= CHUNK && sb.size <= count * BPB
    ensures |OpLogs(sb, s, t, i, off, off + |src|)| <= 6 + if count < 4 then count else 4
    ensures |OpLogs(sb, s, t, i, off, off + |src|)| <= MAXOPBLOCKS
  {
    LogsAtMost(sb, s, t, i, off, src);
    GrowthRange(sb, s, t, i, off, src);
    ChunkArithmetic(s.table[i].size, off, |src|);
    ChunkTakes(sb, s, t, i, off, src);
    MapsSize(sb, Taken(s, t, i));
    TakenBelow(sb, s, t, i);
    MapsWithin(sb, Taken(s, t, i), count);
  }

  // The worst case.

  /** The disk as mkfs lays it out: inode blocks, bitmap blocks, data. */
  predicate LaidOut(sb: Super) {
    sb.inodestart + sb.ninodes / IPB + 1 <= sb.bmapstart && sb.bmapstart + sb.size / BPB + 1 <= sb.datastart
  }

  lemma MetadataPlaces(sb: Super, bs: set<nat>, i: nat)
    requires LaidOut(sb) && i < sb.ninodes && forall b :: b in bs ==> b < sb.size
    ensures IBlock(sb, i) < sb.bmapstart
    ensures forall m :: m in Maps(sb, bs) ==> sb.bmapstart <= m < sb.datastart
  {
  }

  lemma DataPlaces(sb: Super, t: Fs, i: nat, lo: nat, hi: nat)
    requires Good(sb, t) && i < sb.ninodes && hi <= Ext(t, i)
    ensures forall a :: a in Addrs(t, i, lo, hi) ==> sb.datastart <= a
  {
    forall a | a in Addrs(t, i, lo, hi) ensures sb.datastart <= a {
      var k: nat :| lo <= k < hi && BlockAddr(t, i, k) == a;
      OwnBlock(sb, t, i, k);
    }
  }

  lemma PartsApart(sb: Super, s: Fs, t: Fs, i: nat, off: nat, src: seq<byte>)
    requires AtRest(sb, s) && Written(sb, s, t, i, off, src) && LaidOut(sb)
    ensures var data, maps := Addrs(t, i, off / BSIZE, PastBlock(off, off + |src|)), Maps(sb, Taken(s, t, i));
            var ind, ino := IndirectPart(s, t, i), InodePart(sb, s, i, off + |src|);
            data !! maps && data !! ind && data !! ino && maps !! ind && maps !! ino && ind !! ino
  {
    GrowthRange(sb, s, t, i, off, src);
    TakenBelow(sb, s, t, i);
    MetadataPlaces(sb, Taken(s, t, i), i);
    DataPlaces(sb, t, i, off / BSIZE, PastBlock(off, off + |src|));
    if LogsIndirect(s, t, i) {
      OwnIndirect(sb, t, i);
      IndirectApart(sb, t, i, off / BSIZE, PastBlock(off, off + |src|));
    }
  }

  /** Exactly how many blocks a write logs. */
  lemma LogsExactly(sb: Super, s: Fs, t: Fs, i: nat, off: nat, src: seq<byte>)
    requires AtRest(sb, s) && Written(sb, s, t, i, off, src) && LaidOut(sb)
    ensures |OpLogs(sb, s, t, i, off, off + |src|)| ==
            Touched(off, off + |src|) + |Maps(sb, Taken(s, t, i))|
            + (if LogsIndirect(s, t, i) then 1 else 0) + (if off + |src| > s.table[i].size then 1 else 0)
  {
    LogParts(sb, s, t, i, off, src);
    PartsApart(sb, s, t, i, off, src);
    GrowthRange(sb, s, t, i, off, src);
    AddrsSize(sb, t, i, off / BSIZE, PastBlock(off, off + |src|));
    FourSets(Addrs(t, i, off / BSIZE, PastBlock(off, off + |src|)), Maps(sb, Taken(s, t, i)), IndirectPart(s, t, i),
             InodePart(sb, s, i, off + |src|));
  }

  /** The four lowest free blocks, each in the range of another bitmap block. */
  predicate FourApart(s: Fs, f: seq<nat>) {
    && |f| == 4 && f[0] < f[1] < f[2] < f[3] < |s.bitmap|
    && !s.bitmap[f[0]] && !s.bitmap[f[1]] && !s.bitmap[f[2]] && !s.bitmap[f[3]]
    && (forall b :: 0 <= b < f[3] && b != f[0] && b != f[1] && b != f[2] ==> s.bitmap[b])
    && f[0] / BPB < f[1] / BPB < f[2] / BPB < f[3] / BPB
  }

  /** Four blocks taken first-fit are the four lowest free ones. */
  lemma TakesLowest(s: Fs, t: Fs, taken: set<nat>, f: seq<nat>)
    requires FirstFit(s, t, taken) && |taken| == 4 && FourApart(s, f)
    ensures taken == {f[0], f[1], f[2], f[3]}
  {
    var low := {f[0], f[1], f[2]};
    forall b | b in taken && b < f[3] ensures b in low {
      assert BitOk(s, t, taken, b);
    }
    if f[3] !in taken {
      forall b | b in taken ensures b in low {
        assert BitOk(s, t, taken, b) && BitOk(s, t, taken, f[3]);
      }
      SubsetSize(taken, low);
    }
    assert BitOk(s, t, taken, f[0]) && BitOk(s, t, taken, f[1]) && BitOk(s, t, taken, f[2]) && BitOk(s, t, taken, f[3]);
    SameSize({f[0], f[1], f[2], f[3]}, taken);
  }

  lemma FourMaps(sb: Super, s: Fs, f: seq<nat>)
    requires FourApart(s, f)
    ensures |Maps(sb, {f[0], f[1], f[2], f[3]})| == 4
  {
    assert Maps(sb, {f[0], f[1], f[2], f[3]})
             == {BBlock(sb, f[0]), BBlock(sb, f[1]), BBlock(sb, f[2]), BBlock(sb, f[3])};
  }

  /** A file one byte short of twelve blocks. */
  const ALMOST12: nat := NDIRECT * BSIZE - 1

  lemma AppendArithmetic()
    ensures Touched(ALMOST12, ALMOST12 + CHUNK) == 4
    ensures Extent(ALMOST12) == NDIRECT && Extent(Max(ALMOST12, ALMOST12 + CHUNK)) == NDIRECT + 3
  {
  }

  lemma TakesFour(sb: Super, s: Fs, t: Fs, i: nat, src: seq<byte>)
    requires AtRest(sb, s) && Written(sb, s, t, i, ALMOST12, src)
    requires s.table[i].size == ALMOST12 && IndirectOf(s, i) == 0 && |src| == CHUNK
    ensures |Taken(s, t, i)| == 4 && LogsIndirect(s, t, i)
  {
    AppendArithmetic();
    GrowthRange(sb, s, t, i, ALMOST12, src);
    TakenSize(sb, s, t, i);
  }

  /** The bound is attained: a whole chunk appended to a file one byte short of its direct blocks,
      when the next four free blocks have their bits in four bitmap blocks, logs exactly as many
      blocks as an operation may. */
  lemma ChunkLogsAll(sb: Super, s: Fs, t: Fs, i: nat, src: seq<byte>, f: seq<nat>)
    requires AtRest(sb, s) && LaidOut(sb) && FourApart(s, f)
    requires i < |s.table| && s.table[i].size == ALMOST12 && IndirectOf(s, i) == 0 && |src| == CHUNK
    requires Written(sb, s, t, i, ALMOST12, src)
    ensures |OpLogs(sb, s, t, i, ALMOST12, ALMOST12 + |src|)| == MAXOPBLOCKS
  {
    AppendArithmetic();
    TakesFour(sb, s, t, i, src);
    TakesLowest(s, t, Taken(s, t, i), f);
    FourMaps(sb, s, f);
    LogsExactly(sb, s, t, i, ALMOST12, src);
  }
}
