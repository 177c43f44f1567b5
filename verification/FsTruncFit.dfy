/** When a truncation fits the reservation of one operation: it logs the bitmap blocks of all the
    blocks it frees, so that depends on how many bitmap blocks the disk has for its data. */
module FsTruncFit {
  import opened Basics
  import opened Params
  import opened FsLayout
  import opened FsState
  import opened FsFile
  import opened FsGrow
  import opened FsChunk
  import opened FsTrunc

  /** The number of bitmap blocks that hold bits of data blocks. */
  function DataMaps(sb: Super): nat
    requires sb.Valid()
  {
    if sb.datastart == sb.size then 0 else (sb.size - 1) / BPB - sb.datastart / BPB + 1
  }

  /** Bitmap blocks number first to first + count - 1. */
  function MapRange(sb: Super, first: nat, count: nat): (r: set<nat>)
    ensures |r| == count
    ensures forall x :: x in r <==> sb.bmapstart + first <= x < sb.bmapstart + first + count
  {
    if count == 0 then {} else MapRange(sb, first, count - 1) + {sb.bmapstart + first + count - 1}
  }

  lemma MapInRange(sb: Super, b: nat)
    requires sb.Valid() && sb.datastart <= b < sb.size
    ensures sb.bmapstart + sb.datastart / BPB <= BBlock(sb, b) < sb.bmapstart + sb.datastart / BPB + DataMaps(sb)
  {
  }

  /** A truncation logs one block for each bitmap block of the data at most, and the inode's. */
  lemma TruncLogsAtMost(sb: Super, s: Fs, i: nat)
    requires Good(sb, s) && i < sb.ninodes
    ensures |TruncLogs(sb, s, i)| <= DataMaps(sb) + 1
  {
    var maps, range := Maps(sb, FileBlocks(s, i)), MapRange(sb, sb.datastart / BPB, DataMaps(sb));
    forall x | x in maps ensures x in range {
      var b :| b in FileBlocks(s, i) && BBlock(sb, b) == x;
      FileBlocksOwned(sb, s, i, b);
      MapInRange(sb, b);
    }
    SubsetSize(maps, range);
    FourSets(maps, {IBlock(sb, i)}, {}, {});
    assert TruncLogs(sb, s, i) == maps + {IBlock(sb, i)} + {} + {};
  }

  // A file with one block under each of MAXOPBLOCKS bitmap blocks.

  predicate Wide(sb: Super) {
    sb.Valid() && sb.ninodes > 0 && DataMaps(sb) >= MAXOPBLOCKS
  }

  function Spot(sb: Super, k: nat): (b: nat)
    requires Wide(sb) && k < MAXOPBLOCKS
    ensures sb.datastart <= b < sb.size && b / BPB == sb.datastart / BPB + k
  {
    if k == 0 then sb.datastart else (sb.datastart / BPB + k) * BPB
  }

  predicate IsSpot(sb: Super, b: nat)
    requires Wide(sb)
  {
    var k := b / BPB - sb.datastart / BPB;
    0 <= k < MAXOPBLOCKS && b == Spot(sb, k)
  }

  lemma SpotIs(sb: Super, k: nat)
    requires Wide(sb) && k < MAXOPBLOCKS
    ensures IsSpot(sb, Spot(sb, k)) && Spot(sb, k) / BPB - sb.datastart / BPB == k
  {
  }

  function SpreadInode(sb: Super, j: nat): Dinode
    requires Wide(sb)
  {
    if j == 0 then Dinode(2, 0, 0, 1, MAXOPBLOCKS * BSIZE,
                          seq(NDIRECT + 1, k requires 0 <= k => if k < MAXOPBLOCKS then Spot(sb, k) else 0))
    else Dinode(0, 0, 0, 0, 0, seq(NDIRECT + 1, _ => 0))
  }

  ghost function SpreadDisk(sb: Super): Fs
    requires Wide(sb)
  {
    Fs(seq(sb.size, _ => Zeros()),
       seq(sb.size, b requires 0 <= b => b < sb.datastart || IsSpot(sb, b)),
       seq(sb.ninodes, j requires 0 <= j => SpreadInode(sb, j)),
       seq(sb.ninodes, j => if j == 0 then MAXOPBLOCKS else 0),
       map b: nat | b < sb.size && IsSpot(sb, b) :: Data(0, b / BPB - sb.datastart / BPB))
  }

  lemma SpreadAddr(sb: Super, j: nat, k: nat)
    requires Wide(sb) && j < sb.ninodes
    ensures BlockAddr(SpreadDisk(sb), j, k) == if j == 0 && k < MAXOPBLOCKS then Spot(sb, k) else 0
    ensures IndirectOf(SpreadDisk(sb), j) == 0
  {
    var s := SpreadDisk(sb);
    assert s.table[j] == SpreadInode(sb, j);
    assert s.table[j].addrs[NDIRECT] == 0;
  }

  lemma SpreadInodeOk(sb: Super, j: nat)
    requires Wide(sb) && j < sb.ninodes
    ensures InodeOk(SpreadDisk(sb), j)
  {
    var s := SpreadDisk(sb);
    SpreadAddr(sb, j, 0);
    forall k | 0 <= k < MAXFILE ensures DataOk(s, j, k) {
      SpreadAddr(sb, j, k);
      if j == 0 && k < MAXOPBLOCKS {
        SpotIs(sb, k);
      }
    }
  }

  lemma SpreadBlockOk(sb: Super, b: nat)
    requires Wide(sb) && b < sb.size
    ensures BlockOk(sb, SpreadDisk(sb), b)
  {
    if IsSpot(sb, b) {
      SpreadAddr(sb, 0, b / BPB - sb.datastart / BPB);
    }
  }

  lemma SpreadAtRest(sb: Super)
    requires Wide(sb)
    ensures AtRest(sb, SpreadDisk(sb))
  {
    var s := SpreadDisk(sb);
    forall j | 0 <= j < sb.ninodes ensures InodeOk(s, j) && s.exts[j] == Extent(s.table[j].size) {
      SpreadInodeOk(sb, j);
      assert s.table[j] == SpreadInode(sb, j);
    }
    forall b | 0 <= b < sb.size ensures BlockOk(sb, s, b) {
      SpreadBlockOk(sb, b);
    }
  }

  /** Truncating that file logs MAXOPBLOCKS bitmap blocks and the inode's block. */
  lemma SpreadTooMany(sb: Super)
    requires Wide(sb) && LaidOut(sb)
    ensures |TruncLogs(sb, SpreadDisk(sb), 0)| > MAXOPBLOCKS
  {
    var s := SpreadDisk(sb);
    var range := MapRange(sb, sb.datastart / BPB, MAXOPBLOCKS);
    forall x | x in range ensures x in Maps(sb, FileBlocks(s, 0)) {
      var k := x - sb.bmapstart - sb.datastart / BPB;
      SpreadAddr(sb, 0, k);
      SpotIs(sb, k);
      assert Spot(sb, k) in Addrs(s, 0, 0, Ext(s, 0));
      assert BBlock(sb, Spot(sb, k)) == x;
    }
    assert IBlock(sb, 0) !in range;
    SubsetSize(range + {IBlock(sb, 0)}, TruncLogs(sb, s, 0));
  }

  ghost predicate TruncationsFit(sb: Super) {
    forall s: Fs, i: nat :: AtRest(sb, s) && i < sb.ninodes ==> |TruncLogs(sb, s, i)| <= MAXOPBLOCKS
  }

  /** Every truncation on a disk fits the reservation exactly if fewer than MAXOPBLOCKS bitmap
      blocks hold bits of data blocks. */
  lemma TruncationsFitIff(sb: Super)
    requires sb.Valid() && sb.ninodes > 0 && LaidOut(sb)
    ensures TruncationsFit(sb) <==> DataMaps(sb) < MAXOPBLOCKS
  {
    if DataMaps(sb) < MAXOPBLOCKS {
      forall s: Fs, i: nat | AtRest(sb, s) && i < sb.ninodes ensures |TruncLogs(sb, s, i)| <= MAXOPBLOCKS {
        TruncLogsAtMost(sb, s, i);
      }
    } else {
      SpreadAtRest(sb);
      SpreadTooMany(sb);
    }
  }
}
