/** The file system's constants, block contents and inodes. */
module FsLayout {

  const BSIZE: nat := 512
  const NDIRECT: nat := 12
  const NINDIRECT: nat := 128
  const MAXFILE: nat := 140     // NDIRECT + NINDIRECT
  const BPB: nat := 4096        // bitmap bits per block
  const IPB: nat := 8           // inodes per block
  const UINT: nat := 0x1_0000_0000

  type byte = x: int | 0 <= x < 256

  type Block = b: seq<byte> | |b| == BSIZE witness seq(BSIZE, _ => 0)

  function Zeros(): (b: Block)
    ensures forall i :: 0 <= i < BSIZE ==> b[i] == 0
  {
    seq(BSIZE, _ => 0)
  }

  type uint = x: int | 0 <= x < UINT

  /** The j-th little-endian word of a block: an entry of an indirect block. */
  function Word(b: Block, j: nat): (w: uint)
    requires j < NINDIRECT
  {
    var b0: int, b1: int, b2: int, b3: int := b[4 * j], b[4 * j + 1], b[4 * j + 2], b[4 * j + 3];
    b0 + 0x100 * b1 + 0x1_0000 * b2 + 0x100_0000 * b3
  }

  function PutWord(b: Block, j: nat, w: uint): Block
    requires j < NINDIRECT
  {
    var low := b[4 * j := w % 0x100][4 * j + 1 := w / 0x100 % 0x100];
    low[4 * j + 2 := w / 0x1_0000 % 0x100][4 * j + 3 := w / 0x100_0000]
  }

  lemma PutWordThenWord(b: Block, j: nat, w: uint, i: nat)
    requires j < NINDIRECT && i < NINDIRECT
    ensures Word(PutWord(b, j, w), i) == if i == j then w else Word(b, i)
  {
    var p := PutWord(b, j, w);
    if i == j {
      assert p[4 * j] == w % 0x100 && p[4 * j + 1] == w / 0x100 % 0x100 && p[4 * j + 2] == w / 0x1_0000 % 0x100
             && p[4 * j + 3] == w / 0x100_0000;
      FromBytes(w);
    } else {
      assert p[4 * i] == b[4 * i] && p[4 * i + 1] == b[4 * i + 1] && p[4 * i + 2] == b[4 * i + 2]
             && p[4 * i + 3] == b[4 * i + 3];
    }
  }

  lemma FromBytes(w: uint)
    ensures w % 0x100 + 0x100 * (w / 0x100 % 0x100) + 0x1_0000 * (w / 0x1_0000 % 0x100) + 0x100_0000 * (w / 0x100_0000)
              == w
  {
  }

  lemma ZeroWord(j: nat)
    requires j < NINDIRECT
    ensures Word(Zeros(), j) == 0
  {
  }

  /** What the superblock and the sizes in it say about the disk. */
  datatype Super = Super(size: nat, ninodes: nat, inodestart: nat, bmapstart: nat, datastart: nat) {
    predicate Valid() {
      0 < datastart <= size < UINT
    }
  }

  function BBlock(sb: Super, b: nat): nat { b / BPB + sb.bmapstart }

  function IBlock(sb: Super, inum: nat): nat { inum / IPB + sb.inodestart }

  /** Each bit of each bitmap block is the bit of exactly one block, 4096 to a block, in order. */
  lemma BitPlaces(sb: Super, m: nat, r: nat, b: nat)
    requires sb.bmapstart <= m && r < 4096
    ensures BBlock(sb, b) == m && b % BPB == r <==> b == (m - sb.bmapstart) * 4096 + r
  {
  }

  /** Each place of each inode block is that of exactly one inode, 512 / 64 to a block, in order. */
  lemma InodePlaces(sb: Super, m: nat, r: nat, i: nat)
    requires sb.inodestart <= m && r < 512 / 64
    ensures IBlock(sb, i) == m && i % IPB == r <==> i == (m - sb.inodestart) * (512 / 64) + r
  {
  }

  /** An inode, on disk or in memory. */
  datatype Dinode = Dinode(kind: int, major: int, minor: int, nlink: int, size: nat, addrs: seq<uint>)

  /** The number of blocks a file of the given size needs. */
  function Extent(size: nat): nat { (size + BSIZE - 1) / BSIZE }
}
