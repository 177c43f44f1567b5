/** Who owns which block: the invariant that ties the free map to the inodes, and what
    allocating, writing and freeing a block do to it. */
module FsState {
  import opened FsLayout

  /** The place that refers to a block. */
  datatype Slot = Data(inum: nat, k: nat) | Indirect(inum: nat)

  /** Block contents, free map, and every inode's current value, with two auxiliary parts:
      how many blocks each file has, and which slot refers to each used data block. */
  datatype Fs = Fs(blocks: seq<Block>, bitmap: seq<bool>, table: seq<Dinode>, exts: seq<nat>, owner: map<nat, Slot>)

  predicate Addressable(blocks: seq<Block>, v: Dinode) {
    |v.addrs| == NDIRECT + 1 && v.addrs[NDIRECT] < |blocks|
  }

  /** The address of a file's k-th block, 0 if there is none. */
  function DataAddr(blocks: seq<Block>, v: Dinode, k: nat): uint {
    if !Addressable(blocks, v) then 0
    else if k < NDIRECT then v.addrs[k]
    else if k < MAXFILE && v.addrs[NDIRECT] != 0 then Word(blocks[v.addrs[NDIRECT]], k - NDIRECT)
    else 0
  }

  function IndirectAddr(v: Dinode): uint {
    if |v.addrs| == NDIRECT + 1 then v.addrs[NDIRECT] else 0
  }

  function BlockAddr(s: Fs, i: nat, k: nat): uint {
    if i < |s.table| then DataAddr(s.blocks, s.table[i], k) else 0
  }

  function Ext(s: Fs, i: nat): nat {
    if i < |s.exts| then s.exts[i] else 0
  }

  ghost predicate DataOk(s: Fs, i: nat, k: nat) {
    var a := BlockAddr(s, i, k);
    if k < Ext(s, i) then a != 0 && a in s.owner && s.owner[a] == Data(i, k) else a == 0
  }

  ghost predicate IndirectOk(s: Fs, i: nat, a: uint) {
    && (Ext(s, i) > NDIRECT ==> a != 0)
    && (a != 0 ==> a in s.owner && s.owner[a] == Indirect(i))
  }

  ghost predicate InodeOk(s: Fs, i: nat)
    requires i < |s.table| == |s.exts|
  {
    && Addressable(s.blocks, s.table[i]) && s.exts[i] <= MAXFILE
    && (forall k :: 0 <= k < MAXFILE ==> DataOk(s, i, k))
    && IndirectOk(s, i, IndirectAddr(s.table[i]))
  }

  ghost predicate Refers(s: Fs, slot: Slot, b: nat) {
    && slot.inum < |s.table|
    && match slot
       case Data(i, k) => k < Ext(s, i) && k < MAXFILE && BlockAddr(s, i, k) == b
       case Indirect(i) => IndirectAddr(s.table[i]) == b
  }

  /** Block b is marked in use exactly when it is metadata or some slot refers to it;
      the slot recorded for it is the one that does. */
  ghost predicate BlockOk(sb: Super, s: Fs, b: nat)
    requires b < |s.bitmap|
  {
    && (s.bitmap[b] <==> b < sb.datastart || b in s.owner)
    && (b in s.owner ==> sb.datastart <= b && Refers(s, s.owner[b], b))
  }

  ghost predicate Sized(sb: Super, s: Fs) {
    && sb.Valid()
    && |s.blocks| == |s.bitmap| == sb.size
    && |s.table| == |s.exts| == sb.ninodes
    && (forall b :: b in s.owner ==> b < sb.size)
  }

  ghost predicate Good(sb: Super, s: Fs) {
    && Sized(sb, s)
    && (forall i :: 0 <= i < sb.ninodes ==> InodeOk(s, i))
    && (forall b :: 0 <= b < sb.size ==> BlockOk(sb, s, b))
  }

  /** The contents of file i's k-th block. */
  function BlockOf(s: Fs, i: nat, k: nat): Block {
    if BlockAddr(s, i, k) < |s.blocks| then s.blocks[BlockAddr(s, i, k)] else Zeros()
  }

  /** File i's k-th block neither moved nor changed. */
  ghost predicate SameBlock(s: Fs, s': Fs, i: nat, k: nat) {
    k < Ext(s', i) && BlockAddr(s', i, k) == BlockAddr(s, i, k) && BlockOf(s', i, k) == BlockOf(s, i, k)
  }

  /** No file block moved or changed, and no file lost one. */
  ghost predicate Keeps(s: Fs, s': Fs) {
    && |s'.table| == |s.table|
    && (forall i, k :: 0 <= i < |s.table| && 0 <= k < Ext(s, i) ==> SameBlock(s, s', i, k))
    && (forall i :: 0 <= i < |s.table| ==> s'.table[i] == s.table[i].(addrs := s'.table[i].addrs))
  }

  function SetAddr(v: Dinode, k: nat, b: uint): Dinode
    requires k < |v.addrs|
  {
    v.(addrs := v.addrs[k := b])
  }

  /** Entry j of the indirect block at a set to b. */
  function Linked(blocks: seq<Block>, a: nat, j: nat, b: uint): seq<Block>
    requires a < |blocks| && j < NINDIRECT
  {
    blocks[a := PutWord(blocks[a], j, b)]
  }

  /** A free block becomes the next direct block of file i. */
  function GrowDirect(s: Fs, i: nat, b: uint): Fs
    requires b < |s.bitmap| && b < |s.blocks| && i < |s.table| == |s.exts| && s.exts[i] < NDIRECT
    requires |s.table[i].addrs| == NDIRECT + 1
  {
    Fs(s.blocks[b := Zeros()], s.bitmap[b := true], s.table[i := SetAddr(s.table[i], s.exts[i], b)],
       s.exts[i := s.exts[i] + 1], s.owner[b := Data(i, s.exts[i])])
  }

  /** A free block becomes the indirect block of file i. */
  function AddIndirect(s: Fs, i: nat, b: uint): Fs
    requires b < |s.bitmap| && b < |s.blocks| && i < |s.table| == |s.exts|
    requires |s.table[i].addrs| == NDIRECT + 1
  {
    Fs(s.blocks[b := Zeros()], s.bitmap[b := true], s.table[i := SetAddr(s.table[i], NDIRECT, b)],
       s.exts, s.owner[b := Indirect(i)])
  }

  /** A free block becomes the next block of file i behind its indirect block. */
  function GrowIndirect(s: Fs, i: nat, b: uint): Fs
    requires b < |s.bitmap| && b < |s.blocks| && i < |s.table| == |s.exts|
    requires Addressable(s.blocks, s.table[i]) && NDIRECT <= s.exts[i] < MAXFILE
  {
    Fs(Linked(s.blocks[b := Zeros()], s.table[i].addrs[NDIRECT], s.exts[i] - NDIRECT, b), s.bitmap[b := true], s.table,
       s.exts[i := s.exts[i] + 1], s.owner[b := Data(i, s.exts[i])])
  }

  /** A free block is no slot's block. */
  lemma FreeIsUnowned(sb: Super, s: Fs, b: nat)
    requires Good(sb, s) && b < sb.size && !s.bitmap[b]
    ensures b !in s.owner && sb.datastart <= b
    ensures forall i, k :: 0 <= i < sb.ninodes && 0 <= k < Ext(s, i) ==> BlockAddr(s, i, k) != b
    ensures forall i :: 0 <= i < sb.ninodes ==> IndirectAddr(s.table[i]) != b
  {
    assert BlockOk(sb, s, b);
    forall i, k | 0 <= i < sb.ninodes && 0 <= k < Ext(s, i) ensures BlockAddr(s, i, k) != b {
      assert InodeOk(s, i) && DataOk(s, i, k);
    }
    forall i | 0 <= i < sb.ninodes ensures IndirectAddr(s.table[i]) != b {
      assert InodeOk(s, i);
    }
  }

  lemma GrowDirectKeeps(sb: Super, s: Fs, i: nat, b: uint)
    requires Good(sb, s) && b < sb.size && !s.bitmap[b] && i < sb.ninodes && s.exts[i] < NDIRECT
    ensures InodeOk(s, i)
    ensures Good(sb, GrowDirect(s, i, b)) && Keeps(s, GrowDirect(s, i, b))
  {
    assert InodeOk(s, i);
    FreeIsUnowned(sb, s, b);
    var s' := GrowDirect(s, i, b);
    forall j, k | 0 <= j < sb.ninodes && 0 <= k < MAXFILE
      ensures DataOk(s', j, k) && (k < Ext(s, j) ==> SameBlock(s, s', j, k))
    {
      assert InodeOk(s, j) && DataOk(s, j, k);
    }
    forall j | 0 <= j < sb.ninodes ensures InodeOk(s', j) {
      assert InodeOk(s, j);
    }
    forall x | 0 <= x < sb.size ensures BlockOk(sb, s', x) {
      assert BlockOk(sb, s, x);
    }
  }

  lemma AddIndirectKeeps(sb: Super, s: Fs, i: nat, b: uint)
    requires Good(sb, s) && b < sb.size && !s.bitmap[b] && i < sb.ninodes && s.exts[i] <= NDIRECT
    requires InodeOk(s, i) && IndirectAddr(s.table[i]) == 0
    ensures Good(sb, AddIndirect(s, i, b)) && Keeps(s, AddIndirect(s, i, b))
  {
    FreeIsUnowned(sb, s, b);
    var s' := AddIndirect(s, i, b);
    forall j, k | 0 <= j < sb.ninodes && 0 <= k < MAXFILE
      ensures DataOk(s', j, k) && (k < Ext(s, j) ==> SameBlock(s, s', j, k))
    {
      assert InodeOk(s, j) && DataOk(s, j, k);
      if j == i && k >= NDIRECT {
        ZeroWord(k - NDIRECT);
      }
    }
    forall j | 0 <= j < sb.ninodes ensures InodeOk(s', j) {
      assert InodeOk(s, j);
    }
    forall x | 0 <= x < sb.size ensures BlockOk(sb, s', x) {
      assert BlockOk(sb, s, x);
    }
  }

  lemma GrowIndirectAddr(sb: Super, s: Fs, i: nat, b: uint, j: nat, k: nat)
    requires Good(sb, s) && b < sb.size && !s.bitmap[b] && i < sb.ninodes && NDIRECT <= s.exts[i] < MAXFILE
    requires InodeOk(s, i) && IndirectAddr(s.table[i]) != 0 && j < sb.ninodes && k < MAXFILE
    ensures BlockAddr(GrowIndirect(s, i, b), j, k) == if j == i && k == s.exts[i] then b else BlockAddr(s, j, k)
  {
    FreeIsUnowned(sb, s, b);
    var a := IndirectAddr(s.table[i]);
    assert InodeOk(s, j);
    if j == i && k >= NDIRECT {
      PutWordThenWord(s.blocks[a], s.exts[i] - NDIRECT, b, k - NDIRECT);
    }
  }

  lemma GrowIndirectData(sb: Super, s: Fs, i: nat, b: uint, j: nat, k: nat)
    requires Good(sb, s) && b < sb.size && !s.bitmap[b] && i < sb.ninodes && NDIRECT <= s.exts[i] < MAXFILE
    requires InodeOk(s, i) && IndirectAddr(s.table[i]) != 0 && j < sb.ninodes && k < MAXFILE
    ensures var s' := GrowIndirect(s, i, b); DataOk(s', j, k) && (k < Ext(s, j) ==> SameBlock(s, s', j, k))
  {
    FreeIsUnowned(sb, s, b);
    GrowIndirectAddr(sb, s, i, b, j, k);
    assert InodeOk(s, j) && DataOk(s, j, k);
  }

  lemma GrowIndirectKeeps(sb: Super, s: Fs, i: nat, b: uint)
    requires Good(sb, s) && b < sb.size && !s.bitmap[b] && i < sb.ninodes && NDIRECT <= s.exts[i] < MAXFILE
    requires InodeOk(s, i) && IndirectAddr(s.table[i]) != 0
    ensures Good(sb, GrowIndirect(s, i, b)) && Keeps(s, GrowIndirect(s, i, b))
  {
    FreeIsUnowned(sb, s, b);
    var s' := GrowIndirect(s, i, b);
    forall j, k | 0 <= j < sb.ninodes && 0 <= k < MAXFILE
      ensures DataOk(s', j, k) && (k < Ext(s, j) ==> SameBlock(s, s', j, k))
    {
      GrowIndirectData(sb, s, i, b, j, k);
    }
    forall j | 0 <= j < sb.ninodes ensures InodeOk(s', j) {
      assert InodeOk(s, j);
    }
    forall x | 0 <= x < sb.size ensures BlockOk(sb, s', x) {
      assert BlockOk(sb, s, x);
      if x in s.owner && s.owner[x].Data? {
        GrowIndirectAddr(sb, s, i, b, s.owner[x].inum, s.owner[x].k);
      }
      GrowIndirectAddr(sb, s, i, b, i, s.exts[i]);
    }
  }

  /** New contents for one block. */
  function SetBlock(s: Fs, a: nat, x: Block): Fs
    requires a < |s.blocks|
  {
    Fs(s.blocks[a := x], s.bitmap, s.table, s.exts, s.owner)
  }

  /** Rewriting a file's data block keeps the invariant and every other block of every file. */
  lemma SetBlockKeeps(sb: Super, s: Fs, i: nat, k: nat, x: Block)
    requires Good(sb, s) && i < sb.ninodes && k < s.exts[i]
    ensures 0 < BlockAddr(s, i, k) < |s.blocks|
    ensures var s' := SetBlock(s, BlockAddr(s, i, k), x);
            && Good(sb, s') && BlockOf(s', i, k) == x
            && (forall j, m :: 0 <= j < sb.ninodes && 0 <= m < Ext(s, j) && (j != i || m != k) ==>
                  SameBlock(s, s', j, m))
            && (forall j, m :: 0 <= j < sb.ninodes && 0 <= m < MAXFILE ==> BlockAddr(s', j, m) == BlockAddr(s, j, m))
  {
    assert InodeOk(s, i) && DataOk(s, i, k);
    var a := BlockAddr(s, i, k);
    var s' := SetBlock(s, a, x);
    forall j, m | 0 <= j < sb.ninodes && 0 <= m < MAXFILE
      ensures DataOk(s', j, m) && BlockAddr(s', j, m) == BlockAddr(s, j, m)
      ensures m < Ext(s, j) && (j != i || m != k) ==> SameBlock(s, s', j, m)
    {
      assert InodeOk(s, j) && DataOk(s, j, m);
    }
    forall j | 0 <= j < sb.ninodes ensures InodeOk(s', j) {
      assert InodeOk(s, j);
    }
    forall y | 0 <= y < sb.size ensures BlockOk(sb, s', y) {
      assert BlockOk(sb, s, y);
    }
  }

  lemma KeepsTrans(s: Fs, t: Fs, u: Fs)
    requires Keeps(s, t) && Keeps(t, u)
    ensures Keeps(s, u)
  {
    forall i, k | 0 <= i < |s.table| && 0 <= k < Ext(s, i) ensures SameBlock(s, u, i, k) {
      assert SameBlock(s, t, i, k) && SameBlock(t, u, i, k);
    }
  }

  /** Block b belongs to file i. */
  ghost predicate OwnedBy(s: Fs, b: nat, i: nat) {
    b in s.owner && s.owner[b].inum == i
  }

  /** File i with nothing left: its blocks free, its slots empty, its size 0. */
  ghost predicate Emptied(s: Fs, s': Fs, i: nat)
    requires i < |s.table|
  {
    && s'.blocks == s.blocks && |s'.bitmap| == |s.bitmap|
    && (forall b :: 0 <= b < |s.bitmap| ==> (s'.bitmap[b] <==> s.bitmap[b] && !OwnedBy(s, b, i)))
    && s'.table == s.table[i := Dinode(s.table[i].kind, s.table[i].major, s.table[i].minor, s.table[i].nlink, 0,
                                       seq(NDIRECT + 1, _ => 0))]
    && i < |s.exts| && s'.exts == s.exts[i := 0]
    && s'.owner == map b | b in s.owner && s.owner[b].inum != i :: s.owner[b]
  }

  lemma EmptiedKeeps(sb: Super, s: Fs, s': Fs, i: nat)
    requires Good(sb, s) && i < sb.ninodes && Emptied(s, s', i)
    ensures Good(sb, s')
    ensures forall j, k :: 0 <= j < sb.ninodes && j != i && 0 <= k < Ext(s, j) ==> SameBlock(s, s', j, k)
  {
    forall j, k | 0 <= j < sb.ninodes && 0 <= k < MAXFILE
      ensures DataOk(s', j, k) && (j != i && k < Ext(s, j) ==> SameBlock(s, s', j, k))
    {
      assert InodeOk(s, j) && DataOk(s, j, k);
    }
    forall j | 0 <= j < sb.ninodes ensures InodeOk(s', j) {
      assert InodeOk(s, j);
    }
    forall b | 0 <= b < sb.size ensures BlockOk(sb, s', b) {
      assert BlockOk(sb, s, b);
    }
  }
}
