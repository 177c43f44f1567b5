/** Which blocks a growing file takes from the free map, and what that logs. */
module FsGrow {
  import opened FsLayout
  import opened FsState
  import opened FsFile

  /** The addresses of file i's blocks lo..hi-1. */
  ghost function Addrs(s: Fs, i: nat, lo: nat, hi: nat): set<nat> {
    set k: nat | lo <= k < hi :: BlockAddr(s, i, k)
  }

  function IndirectOf(s: Fs, i: nat): uint {
    if i < |s.table| then IndirectAddr(s.table[i]) else 0
  }

  /** The blocks file i has in t beyond those it has in s. */
  ghost function Taken(s: Fs, t: Fs, i: nat): set<nat> {
    Addrs(t, i, Ext(s, i), Ext(t, i))
    + if IndirectOf(s, i) == 0 && IndirectOf(t, i) != 0 then {IndirectOf(t, i)} else {}
  }

  /** The bitmap blocks that hold the bits of the given blocks. */
  ghost function Maps(sb: Super, bs: set<nat>): set<nat> {
    set b | b in bs :: BBlock(sb, b)
  }

  /** What growing file i from s to t logs: each block taken, its bitmap block, and the indirect
      block if it got a new entry. */
  ghost function GrowLogs(sb: Super, s: Fs, t: Fs, i: nat): set<nat> {
    Taken(s, t, i) + Maps(sb, Taken(s, t, i))
    + if Ext(s, i) < Ext(t, i) && NDIRECT < Ext(t, i) then {IndirectOf(t, i)} else {}
  }

  /** Bit b is set in t if it was in s or if b was taken, and in that case b was free and
      every bit below it is set. */
  ghost predicate BitOk(s: Fs, t: Fs, taken: set<nat>, b: nat)
    requires b < |s.bitmap| == |t.bitmap|
  {
    && (t.bitmap[b] <==> s.bitmap[b] || b in taken)
    && (b in taken ==> !s.bitmap[b] && forall c :: 0 <= c < b ==> t.bitmap[c])
  }

  /** The blocks taken were the lowest free ones. */
  ghost predicate FirstFit(s: Fs, t: Fs, taken: set<nat>) {
    && |t.bitmap| == |s.bitmap|
    && (forall b: nat {:trigger BitOk(s, t, taken, b)} :: b < |s.bitmap| ==> BitOk(s, t, taken, b))
    && (forall b :: b in taken ==> b < |s.bitmap|)
  }

  predicate SameAddr(s: Fs, t: Fs, i: nat, k: nat) {
    BlockAddr(t, i, k) == BlockAddr(s, i, k)
  }

  /** File i grew from s to t, its old blocks staying where they were. */
  ghost predicate Grown(s: Fs, t: Fs, i: nat) {
    && Ext(s, i) <= Ext(t, i)
    && (forall k: nat {:trigger SameAddr(s, t, i, k)} :: k < Ext(s, i) ==> SameAddr(s, t, i, k))
    && (IndirectOf(s, i) != 0 ==> IndirectOf(t, i) == IndirectOf(s, i))
    && (NDIRECT < Ext(t, i) ==> IndirectOf(t, i) != 0)
    && FirstFit(s, t, Taken(s, t, i))
  }

  predicate SameBytes(s: Fs, t: Fs, b: nat) {
    b < |s.blocks| ==> b < |t.blocks| && t.blocks[b] == s.blocks[b]
  }

  /** Block b was logged or still holds what it held. */
  ghost predicate GrowByte(sb: Super, s: Fs, t: Fs, i: nat, b: nat) {
    b in GrowLogs(sb, s, t, i) || SameBytes(s, t, b)
  }

  /** Every block changed was logged. */
  ghost predicate GrowsLogged(sb: Super, s: Fs, t: Fs, i: nat) {
    forall b: nat {:trigger GrowByte(sb, s, t, i, b)} :: GrowByte(sb, s, t, i, b)
  }

  lemma NotGrown(sb: Super, s: Fs, i: nat)
    requires Good(sb, s) && i < sb.ninodes
    ensures Grown(s, s, i) && Taken(s, s, i) == {} && GrowLogs(sb, s, s, i) == {}
  {
    assert InodeOk(s, i);
    assert Taken(s, s, i) == {};
  }

  lemma AddrsSplit(s: Fs, t: Fs, i: nat, lo: nat, mid: nat, hi: nat)
    requires lo <= mid <= hi
    requires forall k: nat {:trigger SameAddr(s, t, i, k)} :: lo <= k < mid ==> SameAddr(s, t, i, k)
    ensures Addrs(t, i, lo, hi) == Addrs(s, i, lo, mid) + Addrs(t, i, mid, hi)
  {
    forall a | a in Addrs(s, i, lo, mid) ensures a in Addrs(t, i, lo, hi) {
      var k: nat :| lo <= k < mid && BlockAddr(s, i, k) == a;
      assert SameAddr(s, t, i, k);
    }
    forall a | a in Addrs(t, i, lo, hi) ensures a in Addrs(s, i, lo, mid) + Addrs(t, i, mid, hi) {
      var k: nat :| lo <= k < hi && BlockAddr(t, i, k) == a;
      assert k < mid ==> SameAddr(s, t, i, k);
    }
  }

  lemma TakenTrans(s: Fs, t: Fs, u: Fs, i: nat)
    requires Grown(s, t, i) && Grown(t, u, i)
    ensures Taken(s, u, i) == Taken(s, t, i) + Taken(t, u, i)
  {
    AddrsSplit(t, u, i, Ext(s, i), Ext(t, i), Ext(u, i));
  }

  lemma FirstFitTrans(s: Fs, t: Fs, u: Fs, a: set<nat>, b: set<nat>)
    requires FirstFit(s, t, a) && FirstFit(t, u, b)
    ensures FirstFit(s, u, a + b)
  {
    forall x: nat | x < |s.bitmap| ensures BitOk(s, u, a + b, x) {
      assert BitOk(s, t, a, x) && BitOk(t, u, b, x);
      forall c: nat | c < x && x in a + b ensures u.bitmap[c] {
        assert BitOk(t, u, b, c);
      }
    }
  }

  lemma MapsUnion(sb: Super, a: set<nat>, b: set<nat>)
    ensures Maps(sb, a + b) == Maps(sb, a) + Maps(sb, b)
  {
  }

  /** Growing twice is growing once, and logs the same. */
  lemma GrownTrans(sb: Super, s: Fs, t: Fs, u: Fs, i: nat)
    requires Grown(s, t, i) && Grown(t, u, i)
    ensures Grown(s, u, i)
    ensures GrowLogs(sb, s, u, i) == GrowLogs(sb, s, t, i) + GrowLogs(sb, t, u, i)
  {
    TakenTrans(s, t, u, i);
    FirstFitTrans(s, t, u, Taken(s, t, i), Taken(t, u, i));
    MapsUnion(sb, Taken(s, t, i), Taken(t, u, i));
    forall k: nat | k < Ext(s, i) ensures SameAddr(s, u, i, k) {
      assert SameAddr(s, t, i, k) && SameAddr(t, u, i, k);
    }
  }

  predicate LowestFree(s: Fs, b: nat) {
    b < |s.bitmap| && !s.bitmap[b] && forall c :: 0 <= c < b ==> s.bitmap[c]
  }

  lemma OneTaken(s: Fs, t: Fs, b: nat)
    requires LowestFree(s, b) && t.bitmap == s.bitmap[b := true]
    ensures FirstFit(s, t, {b})
  {
    forall x: nat | x < |s.bitmap| ensures BitOk(s, t, {b}, x) {
    }
  }

  // How many blocks a file needs, and how many there are.

  /** How many blocks file i must take to have ext of them. */
  function Needs(s: Fs, i: nat, ext: nat): nat {
    if ext <= Ext(s, i) then 0
    else ext - Ext(s, i) + if NDIRECT < ext && IndirectOf(s, i) == 0 then 1 else 0
  }

  ghost function FreeBlocks(bitmap: seq<bool>): set<nat> {
    set b: nat | b < |bitmap| && !bitmap[b]
  }

  /** The free blocks are enough for file i to have ext blocks. */
  ghost predicate Enough(s: Fs, i: nat, ext: nat) {
    Needs(s, i, ext) <= |FreeBlocks(s.bitmap)|
  }

  /** No indirect block was taken without an entry for it. */
  predicate Thrifty(s: Fs, t: Fs, i: nat) {
    IndirectOf(s, i) == 0 && IndirectOf(t, i) != 0 ==> Ext(s, i) < Ext(t, i) && NDIRECT < Ext(t, i)
  }

  // Mapping one block.

  /** Block bn of file i is mapped in t, which is s with the file grown if it had to be. */
  ghost predicate MappedFrom(sb: Super, s: Fs, t: Fs, i: nat, bn: nat) {
    && Good(sb, t) && Keeps(s, t) && Grown(s, t, i) && Thrifty(s, t, i)
    && i < |s.exts| && t.exts == s.exts[i := if bn < s.exts[i] then s.exts[i] else bn + 1]
    && i < |t.table| && t.table == s.table[i := t.table[i]]
    && 0 < BlockAddr(t, i, bn) < |t.blocks|
    && GrowsLogged(sb, s, t, i)
  }

  /** What the test for a missing block finds. */
  lemma MissingIsNext(sb: Super, s: Fs, i: nat, bn: nat)
    requires Good(sb, s) && i < sb.ninodes && bn <= s.exts[i] && bn < MAXFILE
    ensures Addressable(s.blocks, s.table[i]) && s.exts[i] <= MAXFILE
    ensures BlockAddr(s, i, bn) == 0 <==> bn == s.exts[i]
    ensures bn < s.exts[i] ==> Enough(s, i, bn + 1)
    ensures bn == s.exts[i] ==>
              (Enough(s, i, bn + 1) <==>
               (if NDIRECT <= bn && IndirectOf(s, i) == 0 then 2 else 1) <= |FreeBlocks(s.bitmap)|)
    ensures bn < s.exts[i] ==> MappedFrom(sb, s, s, i, bn) && GrowLogs(sb, s, s, i) == {}
    ensures NDIRECT < s.exts[i] ==> IndirectOf(s, i) != 0
  {
    assert InodeOk(s, i) && DataOk(s, i, bn);
    NotGrown(sb, s, i);
    if bn < s.exts[i] {
      OwnBlock(sb, s, i, bn);
      forall b: nat ensures GrowByte(sb, s, s, i, b) {
      }
    }
  }

  lemma DirectTaken(sb: Super, s: Fs, i: nat, b: uint)
    requires Good(sb, s) && i < sb.ninodes && s.exts[i] < NDIRECT && LowestFree(s, b)
    ensures |s.table[i].addrs| == NDIRECT + 1
    ensures var t := GrowDirect(s, i, b); MappedFrom(sb, s, t, i, s.exts[i]) && BlockAddr(t, i, s.exts[i]) == b
    ensures GrowLogs(sb, s, GrowDirect(s, i, b), i) == {b, BBlock(sb, b)}
  {
    assert InodeOk(s, i);
    var t := GrowDirect(s, i, b);
    GrowDirectKeeps(sb, s, i, b);
    FreeIsUnowned(sb, s, b);
    assert InodeOk(t, i);
    assert BlockAddr(t, i, s.exts[i]) == b;
    assert Taken(s, t, i) == {b};
    OneTaken(s, t, b);
    forall x: nat ensures GrowByte(sb, s, t, i, x) {
    }
    forall k: nat | k < Ext(s, i) ensures SameAddr(s, t, i, k) {
      assert SameBlock(s, t, i, k);
    }
  }

  lemma IndirectTaken(sb: Super, s: Fs, i: nat, b: uint)
    requires Good(sb, s) && i < sb.ninodes && s.exts[i] <= NDIRECT && LowestFree(s, b)
    requires IndirectAddr(s.table[i]) == 0
    ensures |s.table[i].addrs| == NDIRECT + 1
    ensures var t := AddIndirect(s, i, b); Good(sb, t) && Keeps(s, t) && Grown(s, t, i) && b != 0
    ensures GrowLogs(sb, s, AddIndirect(s, i, b), i) == {b, BBlock(sb, b)}
    ensures |FreeBlocks(s.bitmap)| == |FreeBlocks(AddIndirect(s, i, b).bitmap)| + 1
  {
    assert InodeOk(s, i);
    var t := AddIndirect(s, i, b);
    AddIndirectKeeps(sb, s, i, b);
    FreeIsUnowned(sb, s, b);
    assert InodeOk(t, i);
    assert Taken(s, t, i) == {b};
    OneTaken(s, t, b);
    FreeAfter(s, t, {b});
    forall k: nat | k < Ext(s, i) ensures SameAddr(s, t, i, k) {
      assert SameBlock(s, t, i, k);
    }
  }

  lemma EntryTaken(sb: Super, s: Fs, i: nat, b: uint)
    requires Good(sb, s) && i < sb.ninodes && NDIRECT <= s.exts[i] < MAXFILE && LowestFree(s, b)
    requires IndirectAddr(s.table[i]) != 0
    ensures Addressable(s.blocks, s.table[i]) && b != IndirectAddr(s.table[i])
    ensures var t := GrowIndirect(s, i, b); MappedFrom(sb, s, t, i, s.exts[i]) && BlockAddr(t, i, s.exts[i]) == b
    ensures GrowLogs(sb, s, GrowIndirect(s, i, b), i) == {b, BBlock(sb, b), IndirectAddr(s.table[i])}
  {
    assert InodeOk(s, i);
    var t := GrowIndirect(s, i, b);
    GrowIndirectKeeps(sb, s, i, b);
    FreeIsUnowned(sb, s, b);
    GrowIndirectAddr(sb, s, i, b, i, s.exts[i]);
    assert InodeOk(t, i);
    assert Taken(s, t, i) == {b};
    OneTaken(s, t, b);
    forall x: nat ensures GrowByte(sb, s, t, i, x) {
    }
    forall k: nat | k < Ext(s, i) ensures SameAddr(s, t, i, k) {
      assert SameBlock(s, t, i, k);
    }
  }

  /** An indirect block taken first, then an entry in it. */
  lemma IndirectThenEntry(sb: Super, s: Fs, i: nat, b: uint, t: Fs, bn: nat)
    requires Good(sb, s) && i < sb.ninodes && NDIRECT == s.exts[i] == bn && LowestFree(s, b)
    requires IndirectAddr(s.table[i]) == 0 && |s.table[i].addrs| == NDIRECT + 1
    requires MappedFrom(sb, AddIndirect(s, i, b), t, i, bn)
    ensures MappedFrom(sb, s, t, i, bn)
    ensures GrowLogs(sb, s, t, i) == {b, BBlock(sb, b)} + GrowLogs(sb, AddIndirect(s, i, b), t, i)
  {
    IndirectTaken(sb, s, i, b);
    KeepsTrans(s, AddIndirect(s, i, b), t);
    GrownTrans(sb, s, AddIndirect(s, i, b), t, i);
    forall x: nat ensures GrowByte(sb, s, t, i, x) {
      assert GrowByte(sb, AddIndirect(s, i, b), t, i, x);
    }
  }

  /** New contents for blocks change nothing here. */
  lemma SameGrowth(sb: Super, s: Fs, t: Fs, u: Fs, i: nat)
    requires Grown(s, t, i) && u.bitmap == t.bitmap && u.exts == t.exts && IndirectOf(u, i) == IndirectOf(t, i)
    requires forall k: nat {:trigger SameAddr(t, u, i, k)} :: k < Ext(t, i) ==> SameAddr(t, u, i, k)
    ensures Grown(s, u, i) && GrowLogs(sb, s, u, i) == GrowLogs(sb, s, t, i)
  {
    AddrsSplit(t, u, i, Ext(s, i), Ext(t, i), Ext(t, i));
    assert Taken(s, u, i) == Taken(s, t, i);
    forall k: nat | k < Ext(s, i) ensures SameAddr(s, u, i, k) {
      assert SameAddr(s, t, i, k) && SameAddr(t, u, i, k);
    }
    forall b: nat | b < |s.bitmap| ensures BitOk(s, u, Taken(s, t, i), b) {
      assert BitOk(s, t, Taken(s, t, i), b);
    }
  }

  /** Nor does a new size. */
  lemma ResizedLogs(sb: Super, s0: Fs, s: Fs, t: Fs, i: nat, off: nat, upto: nat)
    requires Good(sb, s) && i < sb.ninodes && Grown(s0, s, i) && Thrifty(s0, s, i) && Extent(upto) <= Ext(s, i)
    requires off <= upto
    requires i < |t.table| && t == s.(table := s.table[i := s.table[i].(size := t.table[i].size)])
    ensures Grown(s0, t, i) && Thrifty(s0, t, i)
    ensures WriteLogs(sb, s0, t, i, off, upto) == WriteLogs(sb, s0, s, i, off, upto)
  {
    forall k: nat ensures SameAddr(s, t, i, k) {
    }
    SameGrowth(sb, s0, s, t, i);
    AddrsSplit(s, t, i, off / BSIZE, PastBlock(off, upto), PastBlock(off, upto));
  }

  lemma OwnBlock(sb: Super, s: Fs, i: nat, k: nat)
    requires Good(sb, s) && i < sb.ninodes && k < Ext(s, i)
    ensures var a := BlockAddr(s, i, k);
            a in s.owner && s.owner[a] == Data(i, k) && sb.datastart <= a < sb.size
  {
    assert InodeOk(s, i) && DataOk(s, i, k);
    assert BlockOk(sb, s, BlockAddr(s, i, k));
  }

  lemma OwnIndirect(sb: Super, s: Fs, i: nat)
    requires Good(sb, s) && i < sb.ninodes && IndirectOf(s, i) != 0
    ensures var a := IndirectOf(s, i);
            a in s.owner && s.owner[a] == Indirect(i) && sb.datastart <= a < sb.size
  {
    assert InodeOk(s, i);
    assert BlockOk(sb, s, IndirectOf(s, i));
  }

  lemma {:induction false} AddrsSize(sb: Super, s: Fs, i: nat, lo: nat, hi: nat)
    requires Good(sb, s) && i < sb.ninodes && lo <= hi <= Ext(s, i)
    ensures |Addrs(s, i, lo, hi)| == hi - lo
    decreases hi
  {
    if lo < hi {
      AddrsSize(sb, s, i, lo, hi - 1);
      assert Addrs(s, i, lo, hi) == Addrs(s, i, lo, hi - 1) + {BlockAddr(s, i, hi - 1)};
      OwnBlock(sb, s, i, hi - 1);
      forall k: nat | lo <= k < hi - 1 ensures BlockAddr(s, i, k) != BlockAddr(s, i, hi - 1) {
        OwnBlock(sb, s, i, k);
      }
    } else {
      assert Addrs(s, i, lo, hi) == {};
    }
  }

  lemma IndirectApart(sb: Super, s: Fs, i: nat, lo: nat, hi: nat)
    requires Good(sb, s) && i < sb.ninodes && hi <= Ext(s, i) && IndirectOf(s, i) != 0
    ensures IndirectOf(s, i) !in Addrs(s, i, lo, hi)
  {
    OwnIndirect(sb, s, i);
    forall k: nat | lo <= k < hi ensures BlockAddr(s, i, k) != IndirectOf(s, i) {
      OwnBlock(sb, s, i, k);
    }
  }

  /** A file takes exactly as many blocks as it needs. */
  lemma TakenSize(sb: Super, s: Fs, t: Fs, i: nat)
    requires Good(sb, t) && i < sb.ninodes && Grown(s, t, i) && Thrifty(s, t, i)
    ensures |Taken(s, t, i)| == Needs(s, i, Ext(t, i))
  {
    AddrsSize(sb, t, i, Ext(s, i), Ext(t, i));
    if IndirectOf(t, i) != 0 {
      IndirectApart(sb, t, i, Ext(s, i), Ext(t, i));
    }
    assert Ext(s, i) == Ext(t, i) ==> Taken(s, t, i) == {};
  }

  lemma FreeAfter(s: Fs, t: Fs, taken: set<nat>)
    requires FirstFit(s, t, taken)
    ensures |FreeBlocks(s.bitmap)| == |FreeBlocks(t.bitmap)| + |taken|
  {
    forall b: nat | b < |s.bitmap|
      ensures (b in FreeBlocks(s.bitmap) <==> b in FreeBlocks(t.bitmap) || b in taken)
      ensures !(b in FreeBlocks(t.bitmap) && b in taken)
    {
      assert BitOk(s, t, taken, b);
    }
    assert FreeBlocks(s.bitmap) == FreeBlocks(t.bitmap) + taken;
    assert FreeBlocks(t.bitmap) !! taken;
  }

  /** What is left is enough for what is still needed exactly when what there was is enough in all. */
  lemma ShortAfter(sb: Super, s: Fs, t: Fs, i: nat, ext: nat)
    requires Good(sb, t) && i < sb.ninodes && Grown(s, t, i) && Thrifty(s, t, i) && Ext(t, i) <= ext
    ensures Enough(t, i, ext) <==> Enough(s, i, ext)
  {
    TakenSize(sb, s, t, i);
    FreeAfter(s, t, Taken(s, t, i));
  }

  // What a write logs before the inode itself.

  /** The first block past the bytes [off, upto). */
  function PastBlock(off: nat, upto: nat): nat {
    if upto == off then off / BSIZE else Extent(upto)
  }

  /** The data blocks that bytes [off, upto) fall in, and what growing the file from s to t logs. */
  ghost function WriteLogs(sb: Super, s: Fs, t: Fs, i: nat, off: nat, upto: nat): set<nat> {
    Addrs(t, i, off / BSIZE, PastBlock(off, upto)) + GrowLogs(sb, s, t, i)
  }

  lemma AddrsStep(s: Fs, u: Fs, i: nat, off0: nat, off: nat, m: nat)
    requires 0 < m && off % BSIZE + m <= BSIZE && off0 <= off && (off == off0 || off % BSIZE == 0)
    requires forall k: nat {:trigger SameAddr(s, u, i, k)} :: k < PastBlock(off0, off) ==> SameAddr(s, u, i, k)
    ensures Addrs(u, i, off0 / BSIZE, PastBlock(off0, off + m)) ==
            Addrs(s, i, off0 / BSIZE, PastBlock(off0, off)) + {BlockAddr(u, i, off / BSIZE)}
  {
    var k := off / BSIZE;
    assert PastBlock(off0, off) == k && PastBlock(off0, off + m) == k + 1;
    AddrsSplit(s, u, i, off0 / BSIZE, k, k + 1);
    assert Addrs(u, i, k, k + 1) == {BlockAddr(u, i, k)};
  }

  lemma Union(a: set<nat>, b: set<nat>, c: set<nat>)
    ensures (a + b) + c == a + (b + c)
  {
  }

  lemma Regroup(a: set<nat>, b: set<nat>, c: set<nat>, d: set<nat>)
    ensures (a + d) + (b + c) == (a + b) + c + d
  {
  }

  /** One turn of a write's loop, which takes s to t. */
  lemma WriteLogsStep(sb: Super, s0: Fs, s: Fs, t: Fs, i: nat, off0: nat, off: nat, m: nat)
    requires 0 < m && off % BSIZE + m <= BSIZE && off0 <= off && (off == off0 || off % BSIZE == 0)
    requires Grown(s0, s, i) && Grown(s, t, i) && PastBlock(off0, off) <= Ext(s, i)
    ensures WriteLogs(sb, s0, t, i, off0, off + m) ==
            WriteLogs(sb, s0, s, i, off0, off) + GrowLogs(sb, s, t, i) + {BlockAddr(t, i, off / BSIZE)}
  {
    GrownTrans(sb, s0, s, t, i);
    AddrsStep(s, t, i, off0, off, m);
    Regroup(Addrs(s, i, off0 / BSIZE, PastBlock(off0, off)), GrowLogs(sb, s0, s, i), GrowLogs(sb, s, t, i),
            {BlockAddr(t, i, off / BSIZE)});
  }

  /** Block b is logged if it was before, or if a write from s to t up to upto logs it. */
  ghost predicate LogBit(logged: set<nat>, before: set<nat>, sb: Super, s: Fs, t: Fs, i: nat, off: nat, upto: nat,
                         b: nat) {
    b in logged <==> b in before || b in WriteLogs(sb, s, t, i, off, upto)
  }

  /** Exactly what the write logs so far has been added to before. */
  ghost predicate LoggedSo(logged: set<nat>, before: set<nat>, sb: Super, s: Fs, t: Fs, i: nat, off: nat, upto: nat) {
    forall b: nat {:trigger LogBit(logged, before, sb, s, t, i, off, upto, b)} ::
      LogBit(logged, before, sb, s, t, i, off, upto, b)
  }

  lemma LoggedIs(logged: set<nat>, before: set<nat>, sb: Super, s: Fs, t: Fs, i: nat, off: nat, upto: nat)
    ensures LoggedSo(logged, before, sb, s, t, i, off, upto) <==> logged == before + WriteLogs(sb, s, t, i, off, upto)
  {
    if LoggedSo(logged, before, sb, s, t, i, off, upto) {
      forall b: nat ensures b in logged <==> b in before + WriteLogs(sb, s, t, i, off, upto) {
        assert LogBit(logged, before, sb, s, t, i, off, upto, b);
      }
    }
  }

  ghost predicate WriteByte(sb: Super, s: Fs, t: Fs, i: nat, off: nat, upto: nat, b: nat) {
    b in WriteLogs(sb, s, t, i, off, upto) || SameBytes(s, t, b)
  }

  ghost predicate WritesLogged(sb: Super, s: Fs, t: Fs, i: nat, off: nat, upto: nat) {
    forall b: nat {:trigger WriteByte(sb, s, t, i, off, upto, b)} :: WriteByte(sb, s, t, i, off, upto, b)
  }

  /** A write of src that began at off0 in s0 and has reached off in s. */
  ghost predicate WritingSo(sb: Super, s0: Fs, s: Fs, i: nat, off0: nat, off: nat, src: seq<byte>)
    requires off0 <= off <= off0 + |src|
  {
    && Writing(sb, s0, s, i, off0, off, src) && Grown(s0, s, i) && Thrifty(s0, s, i)
    && (s.exts[i] == s0.exts[i] ==> s.table[i].addrs == s0.table[i].addrs)
    && WritesLogged(sb, s0, s, i, off0, off)
  }

  lemma WriteStarts(sb: Super, s: Fs, i: nat, off: nat, src: seq<byte>, logged: set<nat>)
    requires Good(sb, s) && i < sb.ninodes && off <= s.exts[i] * BSIZE
    ensures WritingSo(sb, s, s, i, off, off, src) && LoggedSo(logged, logged, sb, s, s, i, off, off)
  {
    WritingStarts(sb, s, i, off, src);
    NotGrown(sb, s, i);
    assert WriteLogs(sb, s, s, i, off, off) == {};
    forall b: nat ensures WriteByte(sb, s, s, i, off, off, b) {
    }
  }

  /** The block that off falls in, with m bytes of src filled in. */
  function Filled(t: Fs, i: nat, off0: nat, off: nat, m: nat, src: seq<byte>): Fs
    requires off0 <= off && off + m <= off0 + |src| && off % BSIZE + m <= BSIZE
    requires BlockAddr(t, i, off / BSIZE) < |t.blocks|
  {
    SetBlock(t, BlockAddr(t, i, off / BSIZE),
             Overlay(BlockOf(t, i, off / BSIZE), off % BSIZE, src[off - off0..off - off0 + m]))
  }

  /** Filling in bytes moves no block and takes none. */
  lemma FilledGrown(sb: Super, s: Fs, t: Fs, i: nat, off0: nat, off: nat, m: nat, src: seq<byte>)
    requires off0 <= off && off + m <= off0 + |src| && off % BSIZE + m <= BSIZE
    requires Good(sb, t) && i < sb.ninodes && off / BSIZE < t.exts[i] <= MAXFILE && Grown(s, t, i)
    ensures 0 < BlockAddr(t, i, off / BSIZE) < |t.blocks|
    ensures var u := Filled(t, i, off0, off, m, src);
            && Grown(s, u, i) && GrowLogs(sb, s, u, i) == GrowLogs(sb, s, t, i)
            && BlockAddr(u, i, off / BSIZE) == BlockAddr(t, i, off / BSIZE)
  {
    OwnBlock(sb, t, i, off / BSIZE);
    var u := Filled(t, i, off0, off, m, src);
    SetBlockKeeps(sb, t, i, off / BSIZE, u.blocks[BlockAddr(t, i, off / BSIZE)]);
    forall k: nat | k < Ext(t, i) ensures SameAddr(t, u, i, k) {
    }
    SameGrowth(sb, s, t, u, i);
  }

  lemma StepLogs(sb: Super, s0: Fs, s: Fs, t: Fs, i: nat, off0: nat, off: nat, m: nat, b: nat)
    requires 0 < m && off % BSIZE + m <= BSIZE && off0 <= off && (off == off0 || off % BSIZE == 0)
    requires Grown(s0, s, i) && Grown(s, t, i) && PastBlock(off0, off) <= Ext(s, i)
    ensures b in WriteLogs(sb, s0, t, i, off0, off + m) <==>
            b in WriteLogs(sb, s0, s, i, off0, off) || b in GrowLogs(sb, s, t, i) || b == BlockAddr(t, i, off / BSIZE)
  {
    WriteLogsStep(sb, s0, s, t, i, off0, off, m);
  }

  lemma ByteGoesOn(sb: Super, s0: Fs, s: Fs, t: Fs, i: nat, off0: nat, off: nat, m: nat, src: seq<byte>, b: nat)
    requires off0 <= off && off + m <= off0 + |src| && 0 < m && off % BSIZE + m <= BSIZE
    requires off == off0 || off % BSIZE == 0
    requires Good(sb, t) && i < sb.ninodes && off / BSIZE < t.exts[i] <= MAXFILE && Grown(s, t, i)
    requires Grown(s0, s, i) && PastBlock(off0, off) <= Ext(s, i)
    requires WriteByte(sb, s0, s, i, off0, off, b) && GrowByte(sb, s, t, i, b)
    ensures 0 < BlockAddr(t, i, off / BSIZE) < |t.blocks|
    ensures WriteByte(sb, s0, Filled(t, i, off0, off, m, src), i, off0, off + m, b)
  {
    FilledGrown(sb, s, t, i, off0, off, m, src);
    StepLogs(sb, s0, s, Filled(t, i, off0, off, m, src), i, off0, off, m, b);
  }

  lemma BytesGoOn(sb: Super, s0: Fs, s: Fs, t: Fs, i: nat, off0: nat, off: nat, m: nat, src: seq<byte>)
    requires off0 <= off && off + m <= off0 + |src| && 0 < m && off % BSIZE + m <= BSIZE
    requires off == off0 || off % BSIZE == 0
    requires Good(sb, t) && i < sb.ninodes && off / BSIZE < t.exts[i] <= MAXFILE && Grown(s, t, i)
    requires Grown(s0, s, i) && PastBlock(off0, off) <= Ext(s, i)
    requires WritesLogged(sb, s0, s, i, off0, off) && GrowsLogged(sb, s, t, i)
    ensures 0 < BlockAddr(t, i, off / BSIZE) < |t.blocks|
    ensures WritesLogged(sb, s0, Filled(t, i, off0, off, m, src), i, off0, off + m)
  {
    OwnBlock(sb, t, i, off / BSIZE);
    var u, upto := Filled(t, i, off0, off, m, src), off + m;
    forall b: nat ensures WriteByte(sb, s0, u, i, off0, upto, b) {
      assert WriteByte(sb, s0, s, i, off0, off, b) && GrowByte(sb, s, t, i, b);
      ByteGoesOn(sb, s0, s, t, i, off0, off, m, src, b);
    }
  }

  /** One turn of the loop: t is s with the block mapped. */
  lemma WriteGoesOn(sb: Super, s0: Fs, s: Fs, t: Fs, i: nat, off0: nat, off: nat, m: nat, src: seq<byte>)
    requires off0 <= off && off + m <= off0 + |src| && 0 < m && off % BSIZE + m <= BSIZE
    requires (off == off0 || off % BSIZE == 0) && off / BSIZE < MAXFILE
    requires WritingSo(sb, s0, s, i, off0, off, src) && off0 <= s0.exts[i] * BSIZE
    requires MappedFrom(sb, s, t, i, off / BSIZE) && (off / BSIZE < s.exts[i] ==> t == s) && off / BSIZE <= s.exts[i]
    ensures 0 < BlockAddr(t, i, off / BSIZE) < |t.blocks|
    ensures WritingSo(sb, s0, Filled(t, i, off0, off, m, src), i, off0, off + m, src)
  {
    WritingStep(sb, s0, s, t, i, off0, off, m, src);
    assert InodeOk(t, i);
    FilledGrown(sb, s, t, i, off0, off, m, src);
    GrownTrans(sb, s0, s, Filled(t, i, off0, off, m, src), i);
    BytesGoOn(sb, s0, s, t, i, off0, off, m, src);
  }

  lemma LoggedGoesOn(sb: Super, s0: Fs, s: Fs, t: Fs, i: nat, off0: nat, off: nat, m: nat, src: seq<byte>,
                     before: set<nat>, logged: set<nat>, logged': set<nat>)
    requires off0 <= off && off + m <= off0 + |src| && 0 < m && off % BSIZE + m <= BSIZE
    requires (off == off0 || off % BSIZE == 0) && off / BSIZE < MAXFILE
    requires WritingSo(sb, s0, s, i, off0, off, src) && off0 <= s0.exts[i] * BSIZE
    requires MappedFrom(sb, s, t, i, off / BSIZE)
    requires LoggedSo(logged, before, sb, s0, s, i, off0, off) && logged' == logged + GrowLogs(sb, s, t, i)
    ensures var u := Filled(t, i, off0, off, m, src);
            LoggedSo(logged' + {BlockAddr(t, i, off / BSIZE)}, before, sb, s0, u, i, off0, off + m)
  {
    assert InodeOk(t, i);
    FilledGrown(sb, s, t, i, off0, off, m, src);
    var a, u := BlockAddr(t, i, off / BSIZE), Filled(t, i, off0, off, m, src);
    WriteLogsStep(sb, s0, s, u, i, off0, off, m);
    LoggedIs(logged, before, sb, s0, s, i, off0, off);
    LogsOn(before, WriteLogs(sb, s0, s, i, off0, off), GrowLogs(sb, s, t, i), a);
    LoggedIs(logged' + {a}, before, sb, s0, u, i, off0, off + m);
  }

  lemma LogsOn(before: set<nat>, logs: set<nat>, more: set<nat>, a: nat)
    ensures before + logs + more + {a} == before + (logs + more + {a})
  {
  }

  lemma NeedsMore(s: Fs, i: nat, off: nat, upto: nat)
    requires off < upto
    ensures Enough(s, i, Extent(upto)) ==> Enough(s, i, off / BSIZE + 1)
  {
  }

  /** A write that came to its end had enough. */
  lemma TookEnough(sb: Super, s: Fs, t: Fs, i: nat, upto: nat)
    requires Good(sb, t) && i < sb.ninodes && Grown(s, t, i) && Thrifty(s, t, i) && Extent(upto) <= Ext(t, i)
    ensures Enough(s, i, Extent(upto))
  {
    TakenSize(sb, s, t, i);
    FreeAfter(s, t, Taken(s, t, i));
  }

  lemma AnyFree(bitmap: seq<bool>, ok: bool, b: nat)
    requires ok ==> b < |bitmap| && !bitmap[b]
    requires !ok ==> forall c :: 0 <= c < |bitmap| ==> bitmap[c]
    ensures ok == (1 <= |FreeBlocks(bitmap)|)
  {
    if ok {
      assert b in FreeBlocks(bitmap);
    } else {
      assert FreeBlocks(bitmap) == {};
    }
  }

  function Max(a: nat, b: nat): nat { if a < b then b else a }

  /** Everything one write of a file logs: the inode too if the file got longer. */
  ghost function OpLogs(sb: Super, s: Fs, t: Fs, i: nat, off: nat, upto: nat): set<nat>
    requires i < |s.table|
  {
    WriteLogs(sb, s, t, i, off, upto) + if upto > s.table[i].size then {IBlock(sb, i)} else {}
  }

  ghost predicate OpBit(logged: set<nat>, before: set<nat>, sb: Super, s: Fs, t: Fs, i: nat, off: nat, upto: nat,
                        b: nat)
    requires i < |s.table|
  {
    b in logged <==> b in before || b in OpLogs(sb, s, t, i, off, upto)
  }

  /** Exactly what the write logs has been added to before. */
  ghost predicate OpLogged(logged: set<nat>, before: set<nat>, sb: Super, s: Fs, t: Fs, i: nat, off: nat, upto: nat)
    requires i < |s.table|
  {
    forall b: nat {:trigger OpBit(logged, before, sb, s, t, i, off, upto, b)} ::
      OpBit(logged, before, sb, s, t, i, off, upto, b)
  }

  /** What a write of src at off makes of s: the file's bytes spliced and no other file's changed,
      the file grown by the lowest free blocks and by no more than it needs, and every data block
      that changed among those logged. */
  ghost predicate Written(sb: Super, s: Fs, t: Fs, i: nat, off: nat, src: seq<byte>) {
    && AtRest(sb, t) && i < |s.table| && off <= s.table[i].size && SameFiles(s, t, i)
    && t.table[i].size == Max(s.table[i].size, off + |src|)
    && Content(t, i) == Splice(Content(s, i), off, src)
    && Grown(s, t, i) && Thrifty(s, t, i) && WritesLogged(sb, s, t, i, off, off + |src|)
    && t.table[i] == s.table[i].(addrs := t.table[i].addrs, size := t.table[i].size)
    && (Ext(t, i) == Ext(s, i) ==> t.table[i].addrs == s.table[i].addrs)
  }

  function Resized(s: Fs, i: nat, size: nat): Fs
    requires i < |s.table|
  {
    Fs(s.blocks, s.bitmap, s.table[i := s.table[i].(size := size)], s.exts, s.owner)
  }

  /** A write that gave the file new addresses also made it longer. */
  lemma GrownIsLonger(sb: Super, s0: Fs, s: Fs, i: nat, off: nat, src: seq<byte>)
    requires AtRest(sb, s0) && WritingSo(sb, s0, s, i, off, off + |src|, src) && off <= s0.table[i].size
    ensures s.table[i] == s0.table[i] || (|src| > 0 && off + |src| > s0.table[i].size)
    ensures s.table[i].size == s0.table[i].size
    ensures |src| == 0 ==> s == Resized(s, i, Max(s0.table[i].size, off + |src|))
  {
  }

  lemma ResizedLogged(sb: Super, s0: Fs, s: Fs, t: Fs, i: nat, off: nat, upto: nat)
    requires WritesLogged(sb, s0, s, i, off, upto) && t.blocks == s.blocks
    requires WriteLogs(sb, s0, t, i, off, upto) == WriteLogs(sb, s0, s, i, off, upto)
    ensures WritesLogged(sb, s0, t, i, off, upto)
  {
    forall b: nat ensures WriteByte(sb, s0, t, i, off, upto, b) {
      assert WriteByte(sb, s0, s, i, off, upto, b);
    }
  }

  lemma WriteDone(sb: Super, s0: Fs, s: Fs, t: Fs, i: nat, off: nat, src: seq<byte>)
    requires AtRest(sb, s0) && WritingSo(sb, s0, s, i, off, off + |src|, src) && off <= s0.table[i].size
    requires t == Resized(s, i, Max(s0.table[i].size, off + |src|))
    ensures Written(sb, s0, t, i, off, src)
  {
    ResizedGrown(sb, s0, s, t, i, off, off + |src|, src);
    WritingDone(sb, s0, s, t, i, off, src);
  }

  lemma ResizedGrown(sb: Super, s0: Fs, s: Fs, t: Fs, i: nat, off: nat, upto: nat, src: seq<byte>)
    requires AtRest(sb, s0) && upto == off + |src| && WritingSo(sb, s0, s, i, off, upto, src)
    requires off <= s0.table[i].size && t == Resized(s, i, Max(s0.table[i].size, upto))
    ensures Grown(s0, t, i) && Thrifty(s0, t, i) && WritesLogged(sb, s0, t, i, off, upto)
    ensures t.table[i] == s0.table[i].(addrs := t.table[i].addrs, size := t.table[i].size)
    ensures Ext(t, i) == Ext(s0, i) ==> t.table[i].addrs == s0.table[i].addrs
  {
    ResizedLogs(sb, s0, s, t, i, off, upto);
    ResizedLogged(sb, s0, s, t, i, off, upto);
  }

  lemma InodeLogged(sb: Super, s0: Fs, s: Fs, t: Fs, i: nat, off: nat, upto: nat, before: set<nat>, logged: set<nat>,
                    b: nat)
    requires Good(sb, s) && i < sb.ninodes && Grown(s0, s, i) && Thrifty(s0, s, i) && Extent(upto) <= Ext(s, i)
    requires off <= upto
    requires i < |t.table| && t == s.(table := s.table[i := s.table[i].(size := t.table[i].size)]) && i < |s0.table|
    requires LogBit(logged, before, sb, s0, s, i, off, upto, b)
    ensures OpBit(logged + (if upto > s0.table[i].size then {IBlock(sb, i)} else {}), before, sb, s0, t, i, off, upto,
                  b)
  {
    ResizedLogs(sb, s0, s, t, i, off, upto);
  }

  lemma WriteLogged(sb: Super, s0: Fs, s: Fs, t: Fs, i: nat, off: nat, src: seq<byte>, before: set<nat>,
                    logged: set<nat>)
    requires WritingSo(sb, s0, s, i, off, off + |src|, src)
    requires t == Resized(s, i, Max(s0.table[i].size, off + |src|))
    requires LoggedSo(logged, before, sb, s0, s, i, off, off + |src|)
    ensures OpLogged(logged + (if off + |src| > s0.table[i].size then {IBlock(sb, i)} else {}), before,
                     sb, s0, t, i, off, off + |src|)
  {
    var upto := off + |src|;
    var after := logged + if upto > s0.table[i].size then {IBlock(sb, i)} else {};
    forall b: nat ensures OpBit(after, before, sb, s0, t, i, off, upto, b) {
      assert LogBit(logged, before, sb, s0, s, i, off, upto, b);
      InodeLogged(sb, s0, s, t, i, off, upto, before, logged, b);
    }
  }
}
