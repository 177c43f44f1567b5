/** Files as byte sequences over the block state. */
module FsFile {
  import opened FsLayout
  import opened FsState

  /** The byte at position p of file i's blocks. */
  function ByteAt(s: Fs, i: nat, p: nat): byte {
    BlockOf(s, i, p / BSIZE)[p % BSIZE]
  }

  function Content(s: Fs, i: nat): (c: seq<byte>)
    requires i < |s.table|
    ensures |c| == s.table[i].size
  {
    seq(s.table[i].size, p requires 0 <= p < s.table[i].size => ByteAt(s, i, p))
  }

  /** Between operations every file has exactly the blocks its size calls for. */
  ghost predicate AtRest(sb: Super, s: Fs) {
    Good(sb, s) && forall i :: 0 <= i < sb.ninodes ==> s.exts[i] == Extent(s.table[i].size)
  }

  ghost predicate SameFile(s: Fs, s': Fs, j: nat) {
    j < |s.table| && j < |s'.table| && s'.table[j] == s.table[j] && Content(s', j) == Content(s, j)
  }

  /** Every file but i has the same inode and the same bytes. */
  ghost predicate SameFiles(s: Fs, s': Fs, i: nat) {
    && |s'.table| == |s.table|
    && forall j {:trigger SameFile(s, s', j)} :: 0 <= j < |s.table| && j != i ==> SameFile(s, s', j)
  }

  /** A disk on which every file is empty is at rest. */
  lemma EmptyDisk(sb: Super, s: Fs)
    requires Sized(sb, s) && s.owner == map[]
    requires forall i :: 0 <= i < sb.ninodes ==>
               s.exts[i] == 0 && s.table[i].size == 0 && s.table[i].addrs == seq(NDIRECT + 1, _ => 0)
    requires forall b :: 0 <= b < sb.size ==> (s.bitmap[b] <==> b < sb.datastart)
    ensures AtRest(sb, s)
  {
    forall i | 0 <= i < sb.ninodes ensures InodeOk(s, i) {
      assert s.table[i].addrs[NDIRECT] == 0;
      forall k | 0 <= k < MAXFILE ensures DataOk(s, i, k) {
        assert k < NDIRECT ==> s.table[i].addrs[k] == 0;
      }
    }
    forall b | 0 <= b < sb.size ensures BlockOk(sb, s, b) {}
  }

  /** A write of src at off into a file, extending it if need be. */
  function Splice(c: seq<byte>, off: nat, src: seq<byte>): seq<byte>
    requires off <= |c|
  {
    c[..off] + src + (if off + |src| < |c| then c[off + |src|..] else [])
  }

  /** Each byte of file i that s0 has is as it was, except that [off, upto) holds src. */
  ghost predicate Patched(s0: Fs, s: Fs, i: nat, off: nat, upto: nat, src: seq<byte>)
    requires off <= upto <= off + |src|
  {
    && (forall p :: off <= p < upto ==> ByteAt(s, i, p) == src[p - off])
    && (forall p :: 0 <= p < Ext(s0, i) * BSIZE && !(off <= p < upto) ==> ByteAt(s, i, p) == ByteAt(s0, i, p))
  }

  lemma KeepsBytes(s: Fs, s': Fs, i: nat, p: nat)
    requires Keeps(s, s') && i < |s.table| && p < Ext(s, i) * BSIZE
    ensures ByteAt(s', i, p) == ByteAt(s, i, p)
  {
    assert SameBlock(s, s', i, p / BSIZE);
  }

  /** Growing a file in the middle of a write disturbs no byte written or to be kept. */
  lemma GrowPatched(s0: Fs, s: Fs, s': Fs, i: nat, off: nat, upto: nat, src: seq<byte>)
    requires off <= upto <= off + |src| && Patched(s0, s, i, off, upto, src) && Keeps(s, s') && i < |s.table|
    requires Ext(s0, i) <= Ext(s, i) && upto <= Ext(s, i) * BSIZE
    ensures Patched(s0, s', i, off, upto, src)
  {
    forall p | off <= p < upto ensures ByteAt(s', i, p) == src[p - off] {
      KeepsBytes(s, s', i, p);
    }
    forall p | 0 <= p < Ext(s0, i) * BSIZE && !(off <= p < upto) ensures ByteAt(s', i, p) == ByteAt(s0, i, p) {
      KeepsBytes(s, s', i, p);
    }
  }

  /** One block with m bytes replaced from o on. */
  function Overlay(b: Block, o: nat, bytes: seq<byte>): Block
    requires o + |bytes| <= BSIZE
  {
    b[..o] + bytes + b[o + |bytes|..]
  }

  /** Copying the next m bytes into the block at position upto extends the patch by m. */
  lemma WritePatched(sb: Super, s0: Fs, s: Fs, i: nat, off: nat, upto: nat, m: nat, src: seq<byte>)
    requires Good(sb, s) && i < sb.ninodes && upto / BSIZE < s.exts[i]
    requires off <= upto && upto + m <= off + |src| && upto % BSIZE + m <= BSIZE
    requires Patched(s0, s, i, off, upto, src) && Ext(s0, i) <= Ext(s, i) && upto <= Ext(s, i) * BSIZE
    ensures 0 < BlockAddr(s, i, upto / BSIZE) < |s.blocks|
    ensures var x := Overlay(BlockOf(s, i, upto / BSIZE), upto % BSIZE, src[upto - off..upto - off + m]);
            Patched(s0, SetBlock(s, BlockAddr(s, i, upto / BSIZE), x), i, off, upto + m, src)
  {
    var k, o := upto / BSIZE, upto % BSIZE;
    var x := Overlay(BlockOf(s, i, k), o, src[upto - off..upto - off + m]);
    SetBlockKeeps(sb, s, i, k, x);
    var s' := SetBlock(s, BlockAddr(s, i, k), x);
    forall p: nat | p < Ext(s, i) * BSIZE
      ensures ByteAt(s', i, p) == if upto <= p < upto + m then src[p - off] else ByteAt(s, i, p)
    {
      if p / BSIZE == k {
        OverlayAt(BlockOf(s, i, k), o, src[upto - off..upto - off + m], p % BSIZE);
      } else {
        assert SameBlock(s, s', i, p / BSIZE);
      }
    }
  }

  lemma OverlayAt(b: Block, o: nat, bytes: seq<byte>, r: nat)
    requires o + |bytes| <= BSIZE && r < BSIZE
    ensures Overlay(b, o, bytes)[r] == if o <= r < o + |bytes| then bytes[r - o] else b[r]
  {
  }

  /** The finished write, read back as a byte sequence. */
  lemma PatchedContent(s0: Fs, s: Fs, i: nat, off: nat, src: seq<byte>)
    requires i < |s0.table| && i < |s.table| && Ext(s0, i) == Extent(s0.table[i].size) && off <= s0.table[i].size
    requires Patched(s0, s, i, off, off + |src|, src)
    requires s.table[i].size == if off + |src| > s0.table[i].size then off + |src| else s0.table[i].size
    ensures Content(s, i) == Splice(Content(s0, i), off, src)
  {
    var c, want := Content(s, i), Splice(Content(s0, i), off, src);
    forall p | 0 <= p < |c| ensures c[p] == want[p] {
      assert c[p] == ByteAt(s, i, p);
    }
  }

  lemma SameContent(s: Fs, s': Fs, i: nat)
    requires i < |s.table| && i < |s'.table| && s'.table[i].size == s.table[i].size
    requires Ext(s, i) == Extent(s.table[i].size)
    requires forall k :: 0 <= k < Ext(s, i) ==> SameBlock(s, s', i, k)
    ensures Content(s', i) == Content(s, i)
  {
    forall p: nat | p < s.table[i].size ensures ByteAt(s', i, p) == ByteAt(s, i, p) {
      assert SameBlock(s, s', i, p / BSIZE);
    }
  }

  /** Reading within one block gives that part of the file. */
  lemma ReadSlice(s: Fs, i: nat, off: nat, m: nat)
    requires i < |s.table| && off % BSIZE + m <= BSIZE && off + m <= s.table[i].size
    ensures BlockOf(s, i, off / BSIZE)[off % BSIZE..off % BSIZE + m] == Content(s, i)[off..off + m]
  {
    var b, c := BlockOf(s, i, off / BSIZE), Content(s, i);
    forall q | off <= q < off + m ensures c[q] == b[off % BSIZE + (q - off)] {
      assert q / BSIZE == off / BSIZE && q % BSIZE == off % BSIZE + (q - off);
    }
  }

  /** The state in the middle of a write to file i that began at s0 and has reached upto. */
  ghost predicate Writing(sb: Super, s0: Fs, s: Fs, i: nat, off: nat, upto: nat, src: seq<byte>)
    requires off <= upto <= off + |src|
  {
    && Good(sb, s0) && Good(sb, s) && i < sb.ninodes
    && s0.exts[i] <= s.exts[i] && upto <= s.exts[i] * BSIZE
    && s.exts == s0.exts[i := if upto == off || Extent(upto) < s0.exts[i] then s0.exts[i] else Extent(upto)]
    && s.table == s0.table[i := s0.table[i].(addrs := s.table[i].addrs)]
    && Patched(s0, s, i, off, upto, src)
    && (forall j, k :: 0 <= j < sb.ninodes && j != i && 0 <= k < Ext(s0, j) ==> SameBlock(s0, s, j, k))
  }

  lemma WritingStarts(sb: Super, s: Fs, i: nat, off: nat, src: seq<byte>)
    requires Good(sb, s) && i < sb.ninodes && off <= s.exts[i] * BSIZE
    ensures Writing(sb, s, s, i, off, off, src)
  {
    forall j, k | 0 <= j < sb.ninodes && j != i && 0 <= k < Ext(s, j) ensures SameBlock(s, s, j, k) {
    }
  }

  /** Mapping the block that the next byte falls in keeps the write on course. */
  lemma WritingMapped(sb: Super, s0: Fs, s: Fs, t: Fs, i: nat, off: nat, upto: nat, src: seq<byte>)
    requires off <= upto <= off + |src| && Writing(sb, s0, s, i, off, upto, src)
    requires Good(sb, t) && Keeps(s, t) && t.table == s.table[i := t.table[i]]
    ensures Patched(s0, t, i, off, upto, src)
    ensures t.table == s0.table[i := s0.table[i].(addrs := t.table[i].addrs)]
    ensures forall j, k :: 0 <= j < sb.ninodes && j != i && 0 <= k < Ext(s0, j) ==> SameBlock(s0, t, j, k)
  {
    GrowPatched(s0, s, t, i, off, upto, src);
    forall j, k | 0 <= j < sb.ninodes && j != i && 0 <= k < Ext(s0, j) ensures SameBlock(s0, t, j, k) {
      assert SameBlock(s0, s, j, k) && SameBlock(s, t, j, k);
    }
  }

  /** Mapping a block and filling m of its bytes is one step of a write. */
  lemma WritingStep(sb: Super, s0: Fs, s: Fs, t: Fs, i: nat, off: nat, upto: nat, m: nat, src: seq<byte>)
    requires off <= upto && upto + m <= off + |src| && Writing(sb, s0, s, i, off, upto, src)
    requires 0 < m && upto % BSIZE + m <= BSIZE
    requires Good(sb, t) && Keeps(s, t) && t.table == s.table[i := t.table[i]]
    requires t.exts == s.exts[i := if upto / BSIZE < s.exts[i] then s.exts[i] else upto / BSIZE + 1]
    requires upto / BSIZE <= s.exts[i] && off <= s0.exts[i] * BSIZE
    ensures 0 < BlockAddr(t, i, upto / BSIZE) < |t.blocks|
    ensures var x := Overlay(BlockOf(t, i, upto / BSIZE), upto % BSIZE, src[upto - off..upto - off + m]);
            Writing(sb, s0, SetBlock(t, BlockAddr(t, i, upto / BSIZE), x), i, off, upto + m, src)
  {
    WritingMapped(sb, s0, s, t, i, off, upto, src);
    WritePatched(sb, s0, t, i, off, upto, m, src);
    var k := upto / BSIZE;
    var x := Overlay(BlockOf(t, i, k), upto % BSIZE, src[upto - off..upto - off + m]);
    SetBlockKeeps(sb, t, i, k, x);
    var u := SetBlock(t, BlockAddr(t, i, k), x);
    forall j, n | 0 <= j < sb.ninodes && j != i && 0 <= n < Ext(s0, j) ensures SameBlock(s0, u, j, n) {
      assert SameBlock(s0, t, j, n) && SameBlock(t, u, j, n);
    }
  }

  /** The end of a write: the file's bytes spliced, the other files' untouched, every file again
      with exactly the blocks its size calls for. */
  lemma WritingDone(sb: Super, s0: Fs, s: Fs, s': Fs, i: nat, off: nat, src: seq<byte>)
    requires Writing(sb, s0, s, i, off, off + |src|, src) && AtRest(sb, s0) && off <= s0.table[i].size
    requires var size := if off + |src| > s0.table[i].size then off + |src| else s0.table[i].size;
             s' == Fs(s.blocks, s.bitmap, s.table[i := s.table[i].(size := size)], s.exts, s.owner)
    ensures AtRest(sb, s')
    ensures Content(s', i) == Splice(Content(s0, i), off, src)
    ensures SameFiles(s0, s', i)
  {
    ResizeKeeps(sb, s, s', i, s'.table[i].size);
    assert forall p: nat :: ByteAt(s', i, p) == ByteAt(s, i, p);
    assert Patched(s0, s', i, off, off + |src|, src);
    PatchedContent(s0, s', i, off, src);
    forall j | 0 <= j < sb.ninodes && j != i ensures SameFile(s0, s', j) {
      forall k | 0 <= k < Ext(s0, j) ensures SameBlock(s0, s', j, k) {
        assert SameBlock(s0, s, j, k);
      }
      SameContent(s0, s', j);
    }
  }

  /** A file's size field plays no part in block ownership. */
  lemma ResizeKeeps(sb: Super, s: Fs, s': Fs, i: nat, size: nat)
    requires Good(sb, s) && i < sb.ninodes
    requires s' == Fs(s.blocks, s.bitmap, s.table[i := s.table[i].(size := size)], s.exts, s.owner)
    ensures Good(sb, s')
    ensures forall j: nat, k: nat :: BlockAddr(s', j, k) == BlockAddr(s, j, k)
    ensures forall j: nat, k: nat :: BlockOf(s', j, k) == BlockOf(s, j, k)
  {
    assert forall j: nat, k: nat :: BlockAddr(s', j, k) == BlockAddr(s, j, k);
    forall j | 0 <= j < sb.ninodes ensures InodeOk(s', j) {
      assert InodeOk(s, j);
      forall k | 0 <= k < MAXFILE ensures DataOk(s', j, k) {
        assert DataOk(s, j, k);
      }
    }
    forall b | 0 <= b < sb.size ensures BlockOk(sb, s', b) {
      assert BlockOk(sb, s, b);
    }
  }

  lemma SpliceTwice(c: seq<byte>, off: nat, a: seq<byte>, b: seq<byte>)
    requires off <= |c|
    ensures Splice(Splice(c, off, a), off + |a|, b) == Splice(c, off, a + b)
  {
  }

  /** c with the given bytes written at off; nothing written leaves c alone wherever off is. */
  ghost predicate Wrote(c: seq<byte>, c': seq<byte>, off: nat, bytes: seq<byte>) {
    if bytes == [] then c' == c else off <= |c| && c' == Splice(c, off, bytes)
  }

  lemma WroteMore(c0: seq<byte>, c1: seq<byte>, c2: seq<byte>, off: nat, addr: seq<byte>, i: nat, n: nat)
    requires i + n <= |addr| && 0 < n && Wrote(c0, c1, off, addr[..i])
    requires off + i <= |c1| && c2 == Splice(c1, off + i, addr[i..i + n])
    ensures Wrote(c0, c2, off, addr[..i + n])
  {
    assert addr[..i + n] == addr[..i] + addr[i..i + n];
    if i > 0 {
      SpliceTwice(c0, off, addr[..i], addr[i..i + n]);
    }
  }

  /** File i of s is file i of s0 with the first k of the given bytes written at off, and the other
      files are the same. */
  ghost predicate WroteFile(s0: Fs, s: Fs, i: nat, off: nat, addr: seq<byte>, k: nat)
    requires k <= |addr|
  {
    && i < |s0.table| && i < |s.table| && SameFiles(s0, s, i)
    && Wrote(Content(s0, i), Content(s, i), off, addr[..k])
  }
}
