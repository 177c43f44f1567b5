/** The write-ahead log on disk: what each step of commit and recovery writes, in order. */
module LogDisk {
  import opened Params

  const BLOCKWORDS: nat := 128   // BSIZE / sizeof(int)

  /** A disk block as the log header sees it: an array of integers. */
  type Block = b: seq<int> | |b| == BLOCKWORDS witness seq(BLOCKWORDS, _ => 0)

  type Disk = seq<Block>

  datatype Write = Write(at: nat, data: Block)

  /** The log area on a disk of total blocks: header block at start, then size - 1 slots. */
  datatype Layout = Layout(start: nat, size: nat, total: nat)

  predicate IsHome(l: Layout, b: int) {
    0 <= b < l.total && !(l.start <= b < l.start + l.size)
  }

  predicate Fits(l: Layout, d: Disk) {
    0 < l.size && l.start + l.size <= l.total == |d|
  }

  /** Block numbers that one transaction may carry. */
  predicate Loggable(l: Layout, blocks: seq<int>) {
    && |blocks| <= LOGSIZE && |blocks| < l.size
    && forall i :: 0 <= i < |blocks| ==> IsHome(l, blocks[i])
  }

  function HeaderN(b: Block): int { b[0] }

  /** The header block after write_head: the count and that many block numbers are
      overwritten, the rest of the block stays. */
  function HeaderBlock(was: Block, blocks: seq<int>): Block
    requires |blocks| <= LOGSIZE
  {
    [|blocks|] + blocks + was[1 + |blocks|..]
  }

  predicate LogOk(l: Layout, d: Disk) {
    && Fits(l, d)
    && 0 <= HeaderN(d[l.start]) <= LOGSIZE
    && Loggable(l, d[l.start][1..1 + HeaderN(d[l.start])])
  }

  /** The block numbers recorded in the header on disk. */
  function Pending(l: Layout, d: Disk): (blocks: seq<int>)
    requires LogOk(l, d)
    ensures Loggable(l, blocks)
  {
    d[l.start][1..1 + HeaderN(d[l.start])]
  }

  predicate InRange(d: Disk, ws: seq<Write>) {
    forall i :: 0 <= i < |ws| ==> ws[i].at < |d|
  }

  function Apply(d: Disk, ws: seq<Write>): (d': Disk)
    requires InRange(d, ws)
    ensures |d'| == |d|
  {
    if ws == [] then d
    else
      var last := ws[|ws| - 1];
      Apply(d, ws[..|ws| - 1])[last.at := last.data]
  }

  lemma ApplyMore(d: Disk, ws: seq<Write>, w: Write)
    requires InRange(d, ws) && w.at < |d|
    ensures InRange(d, ws + [w])
    ensures Apply(d, ws + [w]) == Apply(d, ws)[w.at := w.data]
  {
    assert (ws + [w])[..|ws|] == ws;
  }

  lemma {:induction false} ApplyConcat(d: Disk, a: seq<Write>, b: seq<Write>)
    requires InRange(d, a) && InRange(d, b)
    ensures InRange(d, a + b) && Apply(d, a + b) == Apply(Apply(d, a), b)
    decreases |b|
  {
    if b == [] {
      assert a + b == a;
    } else {
      var c := b[..|b| - 1];
      ApplyConcat(d, a, c);
      ApplyMore(d, a + c, b[|b| - 1]);
      assert a + b == a + c + [b[|b| - 1]];
    }
  }

  // What commit and recovery write.

  /** write_log: each cached block to its slot. */
  function LogWrites(l: Layout, blocks: seq<int>, data: int -> Block): seq<Write> {
    seq(|blocks|, t requires 0 <= t < |blocks| => Write(l.start + t + 1, data(blocks[t])))
  }

  /** install_trans: each slot to its home block. */
  function InstallWrites(l: Layout, d: Disk, blocks: seq<int>): seq<Write>
    requires Fits(l, d) && Loggable(l, blocks)
  {
    seq(|blocks|, t requires 0 <= t < |blocks| => Write(blocks[t], d[l.start + t + 1]))
  }

  function HeadWrite(l: Layout, d: Disk, blocks: seq<int>): Write
    requires Fits(l, d) && |blocks| <= LOGSIZE
  {
    Write(l.start, HeaderBlock(d[l.start], blocks))
  }

  /** Everything recover_from_log writes, given the disk it starts from. */
  function RecoverWrites(l: Layout, d: Disk): (ws: seq<Write>)
    requires LogOk(l, d)
    ensures InRange(d, ws)
  {
    InstallWrites(l, d, Pending(l, d)) + [HeadWrite(l, d, [])]
  }

  /** Everything commit writes for the given transaction. */
  function CommitWrites(l: Layout, d: Disk, blocks: seq<int>, data: int -> Block): (ws: seq<Write>)
    requires Fits(l, d) && Loggable(l, blocks)
    ensures InRange(d, ws)
  {
    if blocks == [] then []
    else
      LogWrites(l, blocks, data)
      + [HeadWrite(l, d, blocks)]
      + seq(|blocks|, t requires 0 <= t < |blocks| => Write(blocks[t], data(blocks[t])))
      + [Write(l.start, HeaderBlock(HeaderBlock(d[l.start], blocks), []))]
  }

  /** The disk after a complete recovery. */
  function Recovered(l: Layout, d: Disk): (d': Disk)
    requires LogOk(l, d)
    ensures |d'| == |d|
  {
    Apply(d, RecoverWrites(l, d))
  }
}
