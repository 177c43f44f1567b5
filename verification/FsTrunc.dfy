/** Which blocks a truncation gives back, and what that logs. */
module FsTrunc {
  import opened FsLayout
  import opened FsState
  import opened FsFile
  import opened FsGrow

  /** The addresses among file i's first k slots. */
  ghost function Named(s: Fs, i: nat, k: nat): set<nat> {
    set j: nat | j < k && BlockAddr(s, i, j) != 0 :: BlockAddr(s, i, j)
  }

  function One(a: uint): set<nat> {
    if a != 0 then {a} else {}
  }

  /** The blocks of file i, its indirect block among them. */
  ghost function FileBlocks(s: Fs, i: nat): set<nat> {
    Addrs(s, i, 0, Ext(s, i)) + One(IndirectOf(s, i))
  }

  /** What truncating file i logs: the bitmap blocks of its blocks, and its inode's block. */
  ghost function TruncLogs(sb: Super, s: Fs, i: nat): set<nat> {
    Maps(sb, FileBlocks(s, i)) + {IBlock(sb, i)}
  }

  /** With file i's first k slots freed, their bitmap blocks have been logged, and nothing else. */
  ghost predicate FreeLogged(logged: set<nat>, before: set<nat>, sb: Super, s: Fs, i: nat, k: nat) {
    logged == before + Maps(sb, Named(s, i, k))
  }

  lemma NothingFreed(before: set<nat>, sb: Super, s: Fs, i: nat)
    ensures FreeLogged(before, before, sb, s, i, 0)
  {
    assert Named(s, i, 0) == {};
    assert Maps(sb, {}) == {};
  }

  lemma OneMap(sb: Super, a: uint)
    ensures Maps(sb, One(a)) == if a != 0 then {BBlock(sb, a)} else {}
  {
  }

  lemma OneFreed(logged: set<nat>, logged': set<nat>, before: set<nat>, sb: Super, s: Fs, i: nat, k: nat, a: uint)
    requires FreeLogged(logged, before, sb, s, i, k) && a == BlockAddr(s, i, k)
    requires logged' == logged + if a != 0 then {BBlock(sb, a)} else {}
    ensures FreeLogged(logged', before, sb, s, i, k + 1)
  {
    assert Named(s, i, k + 1) == Named(s, i, k) + One(a);
    MapsUnion(sb, Named(s, i, k), One(a));
    OneMap(sb, a);
  }

  lemma NamedAll(sb: Super, s: Fs, i: nat, k: nat)
    requires Good(sb, s) && i < sb.ninodes && Ext(s, i) <= k <= MAXFILE
    ensures Named(s, i, k) == Addrs(s, i, 0, Ext(s, i))
  {
    assert InodeOk(s, i);
    forall j: nat | j < k ensures BlockAddr(s, i, j) != 0 <==> j < Ext(s, i) {
      assert DataOk(s, i, j);
    }
  }

  lemma AllFreed(logged: set<nat>, logged': set<nat>, before: set<nat>, sb: Super, s: Fs, i: nat, k: nat)
    requires Good(sb, s) && i < sb.ninodes && Ext(s, i) <= k <= MAXFILE && FreeLogged(logged, before, sb, s, i, k)
    requires var a := IndirectOf(s, i); logged' == logged + if a != 0 then {BBlock(sb, a)} else {}
    ensures logged' == before + Maps(sb, FileBlocks(s, i))
  {
    NamedAll(sb, s, i, k);
    MapsUnion(sb, Addrs(s, i, 0, Ext(s, i)), One(IndirectOf(s, i)));
    OneMap(sb, IndirectOf(s, i));
  }

  /** The blocks of a file are those whose slot is the file's. */
  lemma FileBlocksOwned(sb: Super, s: Fs, i: nat, b: nat)
    requires Good(sb, s) && i < sb.ninodes
    ensures b in FileBlocks(s, i) <==> OwnedBy(s, b, i)
    ensures b in FileBlocks(s, i) ==> sb.datastart <= b < sb.size
  {
    assert InodeOk(s, i);
    if b in Addrs(s, i, 0, Ext(s, i)) {
      var k: nat :| k < Ext(s, i) && BlockAddr(s, i, k) == b;
      OwnBlock(sb, s, i, k);
    }
    if IndirectOf(s, i) != 0 {
      OwnIndirect(sb, s, i);
    }
    if OwnedBy(s, b, i) {
      assert BlockOk(sb, s, b);
    }
  }

  lemma EmptiedFiles(sb: Super, s: Fs, s': Fs, i: nat)
    requires AtRest(sb, s) && i < sb.ninodes && Emptied(s, s', i)
    ensures AtRest(sb, s') && Content(s', i) == [] && SameFiles(s, s', i)
  {
    EmptiedKeeps(sb, s, s', i);
    forall j | 0 <= j < sb.ninodes && j != i ensures SameFile(s, s', j) {
      SameContent(s, s', j);
    }
  }

  /** The state when file i is empty and the free map is bitmap. */
  ghost function WithoutFile(s: Fs, bitmap: seq<bool>, i: nat): Fs
    requires i < |s.table| == |s.exts|
  {
    Fs(s.blocks, bitmap,
       s.table[i := s.table[i].(size := 0, addrs := seq(NDIRECT + 1, _ => 0))],
       s.exts[i := 0], map b | b in s.owner && s.owner[b].inum != i :: s.owner[b])
  }

  lemma WithoutFileEmptied(sb: Super, s: Fs, bitmap: seq<bool>, i: nat)
    requires AtRest(sb, s) && i < sb.ninodes && |bitmap| == |s.bitmap|
    requires forall b :: 0 <= b < |bitmap| ==> (bitmap[b] <==> s.bitmap[b] && !OwnedBy(s, b, i))
    ensures var t := WithoutFile(s, bitmap, i);
            Emptied(s, t, i) && AtRest(sb, t) && Content(t, i) == [] && SameFiles(s, t, i)
  {
    EmptiedFiles(sb, s, WithoutFile(s, bitmap, i), i);
  }
}
