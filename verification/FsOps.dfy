/** The inode layer as the kernel runs it: allocation, block mapping, reading and writing,
    on the buffered blocks, with the set of blocks logged by the current operation. */
module FsOps {
  import opened FsLayout
  import opened FsState
  import opened FsFile
  import opened FsGrow
  import opened FsTrunc

  const T_DEV: int := 3

  /** A locked in-memory inode. */
  class Inode {
    const inum: nat
    var kind: int
    var major: int
    var minor: int
    var nlink: int
    var size: nat
    var addrs: seq<uint>

    function Value(): Dinode
      reads this
    {
      Dinode(kind, major, minor, nlink, size, addrs)
    }
  }

  class FileSystem {
    const sb: Super
    var blocks: seq<Block>
    var bitmap: seq<bool>
    var dinodes: seq<Dinode>
    ghost var state: Fs          // all of it, with the locked inode's current value
    ghost var logged: set<nat>   // blocks passed to log_write

    /** The blocks, the free map and the inodes are those of state, with ip's in-memory copy
        standing for its inode. */
    ghost predicate Tied(ip: Inode)
      reads this`blocks, this`bitmap, this`dinodes, this`state, ip
    {
      && blocks == state.blocks && bitmap == state.bitmap
      && ip.inum < |dinodes| && state.table == dinodes[ip.inum := ip.Value()]
    }

    ghost predicate Valid(ip: Inode)
      reads this`blocks, this`bitmap, this`dinodes, this`state, ip
    {
      Tied(ip) && Good(sb, state)
    }

    /** The inode cache is write-through: the copy on disk is current. */
    ghost predicate Synced(ip: Inode)
      reads this`dinodes, ip
    {
      ip.inum < |dinodes| && dinodes[ip.inum] == ip.Value()
    }

    ghost method LogWrite(b: nat)
      modifies this`logged
      ensures logged == old(logged) + {b}
    {
      logged := logged + {b};
    }

    /** Finds, marks and zeroes the first free block; false stands for the panic of a full disk. */
    method Balloc() returns (ok: bool, r: uint)
      requires sb.Valid() && |bitmap| == |blocks| == sb.size
      modifies this`blocks, this`bitmap, this`logged
      ensures ok ==> r < sb.size && !old(bitmap)[r] && forall b :: 0 <= b < r ==> old(bitmap)[b]
      ensures ok ==> bitmap == old(bitmap)[r := true] && blocks == old(blocks)[r := Zeros()]
      ensures ok ==> logged == old(logged) + {BBlock(sb, r), r}
      ensures !ok ==> unchanged(this) && forall b :: 0 <= b < sb.size ==> bitmap[b]
      ensures ok == (1 <= |FreeBlocks(old(bitmap))|)
    {
      var b := 0;
      while b < sb.size
        invariant b % BPB == 0 && unchanged(this)
        invariant forall x :: 0 <= x < b && x < sb.size ==> bitmap[x]
      {
        var bi := 0;
        while bi < BPB && b + bi < sb.size
          invariant 0 <= bi <= BPB && unchanged(this)
          invariant forall x :: 0 <= x < b + bi && x < sb.size ==> bitmap[x]
        {
          if !bitmap[b + bi] {
            AnyFree(bitmap, true, b + bi);
            bitmap := bitmap[b + bi := true];
            LogWrite(BBlock(sb, b + bi));
            blocks := blocks[b + bi := Zeros()];
            LogWrite(b + bi);
            return true, b + bi;
          }
          bi := bi + 1;
        }
        b := b + BPB;
      }
      AnyFree(bitmap, false, 0);
      return false, 0;
    }

    /** Clears a block's bit; false stands for the panic on a block that is already free. */
    method Bfree(b: nat) returns (ok: bool)
      requires b < |bitmap|
      modifies this`bitmap, this`logged
      ensures ok == old(bitmap)[b]
      ensures ok ==> bitmap == old(bitmap)[b := false] && logged == old(logged) + {BBlock(sb, b)}
      ensures !ok ==> unchanged(this)
    {
      if !bitmap[b] { return false; }
      bitmap := bitmap[b := false];
      LogWrite(BBlock(sb, b));
      return true;
    }

    /** The address of a file's bn-th block, allocated if it is the file's next one. Allocation
        keeps ownership consistent, moves or changes no block of any file, and takes and logs
        exactly what the growth of the file calls for; it fails exactly if too little is free. */
    method Bmap(ip: Inode, bn: nat) returns (ok: bool, addr: uint)
      requires Valid(ip) && bn <= state.exts[ip.inum] && bn < MAXFILE
      modifies this, ip`addrs
      ensures ok ==> Valid(ip) && MappedFrom(sb, old(state), state, ip.inum, bn)
      ensures ok ==> addr == BlockAddr(state, ip.inum, bn)
      ensures ok ==> logged == old(logged) + GrowLogs(sb, old(state), state, ip.inum)
      ensures old(bn < state.exts[ip.inum]) ==> unchanged(this) && unchanged(ip)
      ensures ok == Enough(old(state), ip.inum, bn + 1)
      ensures dinodes == old(dinodes)
      ensures !ok ==> forall b :: 0 <= b < |bitmap| ==> bitmap[b]
    {
      MissingIsNext(sb, state, ip.inum, bn);
      if bn < NDIRECT {
        ok, addr := MapDirect(ip, bn);
      } else {
        ghost var s := state;
        var a;
        ok, a := EnsureIndirect(ip);
        if !ok { return ok, 0; }
        if IndirectAddr(s.table[ip.inum]) == 0 {
          IndirectTaken(sb, s, ip.inum, a);
          Union(old(logged), {a, BBlock(sb, a)}, GrowLogs(sb, s, state, ip.inum));
        }
        MissingIsNext(sb, state, ip.inum, bn);
        ok, addr := MapEntry(ip, bn, a);
        if ok && IndirectAddr(s.table[ip.inum]) == 0 {
          IndirectThenEntry(sb, s, ip.inum, a, state, bn);
        }
      }
    }

    method MapDirect(ip: Inode, bn: nat) returns (ok: bool, addr: uint)
      requires Valid(ip) && bn <= state.exts[ip.inum] && bn < NDIRECT
      modifies this, ip`addrs
      ensures ok ==> Valid(ip) && MappedFrom(sb, old(state), state, ip.inum, bn)
      ensures ok ==> addr == BlockAddr(state, ip.inum, bn)
      ensures ok ==> logged == old(logged) + GrowLogs(sb, old(state), state, ip.inum)
      ensures old(bn < state.exts[ip.inum]) ==> unchanged(this) && unchanged(ip)
      ensures ok == Enough(old(state), ip.inum, bn + 1)
      ensures dinodes == old(dinodes)
      ensures !ok ==> forall b :: 0 <= b < |bitmap| ==> bitmap[b]
    {
      MissingIsNext(sb, state, ip.inum, bn);
      addr := ip.addrs[bn];
      ok := true;
      if addr == 0 {
        ok, addr := Balloc();
        if !ok { return; }
        DirectTaken(sb, state, ip.inum, addr);
        ip.addrs := ip.addrs[bn := addr];
        state := GrowDirect(state, ip.inum, addr);
      }
    }

    /** The indirect block's address, allocated if missing. */
    method EnsureIndirect(ip: Inode) returns (ok: bool, a: uint)
      requires Valid(ip) && NDIRECT <= state.exts[ip.inum] && |ip.addrs| == NDIRECT + 1
      requires NDIRECT < state.exts[ip.inum] ==> IndirectAddr(ip.Value()) != 0
      modifies this, ip`addrs
      ensures ok ==> Valid(ip) && a == IndirectAddr(ip.Value()) != 0
      ensures old(IndirectAddr(ip.Value())) != 0 ==> ok && unchanged(this) && unchanged(ip)
      ensures old(IndirectAddr(ip.Value())) == 0 ==> ok == (1 <= |FreeBlocks(old(state).bitmap)|)
      ensures ok && old(IndirectAddr(ip.Value())) == 0 ==>
                && LowestFree(old(state), a) && state == AddIndirect(old(state), ip.inum, a)
                && logged == old(logged) + {a, BBlock(sb, a)}
      ensures dinodes == old(dinodes)
      ensures !ok ==> forall b :: 0 <= b < |bitmap| ==> bitmap[b]
    {
      a := ip.addrs[NDIRECT];
      ok := true;
      if a == 0 {
        ok, a := Balloc();
        if !ok { return; }
        IndirectTaken(sb, state, ip.inum, a);
        ip.addrs := ip.addrs[NDIRECT := a];
        state := AddIndirect(state, ip.inum, a);
      }
    }

    /** The entry for block bn in the indirect block at a, allocated if empty. */
    method MapEntry(ip: Inode, bn: nat, a: uint) returns (ok: bool, addr: uint)
      requires Valid(ip) && bn <= state.exts[ip.inum] && NDIRECT <= bn < MAXFILE && a == IndirectAddr(ip.Value()) != 0
      modifies this
      ensures ok ==> Valid(ip) && MappedFrom(sb, old(state), state, ip.inum, bn)
      ensures ok ==> addr == BlockAddr(state, ip.inum, bn)
      ensures ok ==> logged == old(logged) + GrowLogs(sb, old(state), state, ip.inum)
      ensures old(bn < state.exts[ip.inum]) ==> unchanged(this)
      ensures ok == Enough(old(state), ip.inum, bn + 1)
      ensures dinodes == old(dinodes)
      ensures !ok ==> forall b :: 0 <= b < |bitmap| ==> bitmap[b]
    {
      MissingIsNext(sb, state, ip.inum, bn);
      addr := Word(blocks[a], bn - NDIRECT);
      ok := true;
      if addr == 0 {
        ok, addr := Balloc();
        if !ok { return; }
        EntryTaken(sb, state, ip.inum, addr);
        blocks := blocks[a := PutWord(blocks[a], bn - NDIRECT, addr)];
        LogWrite(a);
        state := GrowIndirect(state, ip.inum, addr);
      }
    }

    /** Reads up to n bytes at off: exactly the part of the file that exists, and no change
        anywhere, since every block below the size is already mapped. */
    method Readi(ip: Inode, off0: uint, n0: uint) returns (r: int, dst: seq<byte>)
      requires Valid(ip) && AtRest(sb, state) && ip.kind != T_DEV
      modifies this, ip`addrs
      ensures unchanged(this) && unchanged(ip)
      ensures off0 > ip.size || (off0 + n0) % UINT < off0 ==> r == -1 && dst == []
      ensures off0 <= ip.size && (off0 + n0) % UINT >= off0 ==>
                && r == |dst|
                && dst == Content(state, ip.inum)[off0..if off0 + n0 > ip.size then ip.size else off0 + n0]
    {
      dst := [];
      if off0 > ip.size || (off0 + n0) % UINT < off0 {
        return -1, dst;
      }
      var n := if off0 + n0 > ip.size then ip.size - off0 else n0;
      var tot, off := 0, off0;
      ghost var c := Content(state, ip.inum);
      while tot < n
        invariant 0 <= tot <= n && off == off0 + tot && off0 + n <= ip.size
        invariant unchanged(this) && unchanged(ip)
        invariant dst == c[off0..off]
      {
        var m := Part(off, n - tot);
        var part := ReadSome(ip, off, m);
        assert c[off0..off] + c[off..off + m] == c[off0..off + m];
        dst := dst + part;
        tot, off := tot + m, off + m;
      }
      return n, dst;
    }

    /** One turn of the loop of readi. */
    method ReadSome(ip: Inode, off: nat, m: nat) returns (part: seq<byte>)
      requires Valid(ip) && AtRest(sb, state) && 0 < m && off % BSIZE + m <= BSIZE && off + m <= ip.size
      modifies this, ip`addrs
      ensures unchanged(this) && unchanged(ip)
      ensures part == Content(state, ip.inum)[off..off + m]
    {
      assert InodeOk(state, ip.inum);
      var _, addr := Bmap(ip, off / BSIZE);
      ReadSlice(state, ip.inum, off, m);
      part := blocks[addr][off % BSIZE..off % BSIZE + m];
    }

    /** Copies the in-memory inode to disk. */
    method Iupdate(ip: Inode)
      requires ip.inum < |dinodes|
      modifies this`dinodes, this`logged
      ensures dinodes == old(dinodes)[ip.inum := ip.Value()] && Synced(ip)
      ensures logged == old(logged) + {IBlock(sb, ip.inum)}
    {
      dinodes := dinodes[ip.inum := ip.Value()];
      LogWrite(IBlock(sb, ip.inum));
    }

    /** A write from s0 that has reached off, with exactly what it has logged beyond before. */
    ghost predicate Progress(ip: Inode, s0: Fs, before: set<nat>, src: seq<byte>, off0: nat, off: nat)
      reads this, ip
      requires off0 <= off <= off0 + |src|
    {
      && Valid(ip) && WritingSo(sb, s0, state, ip.inum, off0, off, src)
      && LoggedSo(logged, before, sb, s0, state, ip.inum, off0, off)
    }

    /** Fills part of the block at a. */
    method FillBlock(a: nat, o: nat, bytes: seq<byte>)
      requires a < |blocks| && o + |bytes| <= BSIZE && blocks == state.blocks
      modifies this`blocks, this`state, this`logged
      ensures state == SetBlock(old(state), a, Overlay(old(state).blocks[a], o, bytes)) && blocks == state.blocks
      ensures logged == old(logged) + {a}
    {
      blocks := blocks[a := Overlay(blocks[a], o, bytes)];
      state := SetBlock(state, a, blocks[a]);
      LogWrite(a);
    }

    /** One turn of the loop of writei: map the block that off falls in, fill m bytes of it. */
    method WriteSome(ip: Inode, src: seq<byte>, off0: nat, off: nat, m: nat, ghost s0: Fs, ghost before: set<nat>)
      returns (ok: bool)
      requires off0 <= off && off + m <= off0 + |src| <= MAXFILE * BSIZE && 0 < m && off % BSIZE + m <= BSIZE
      requires off == off0 || off % BSIZE == 0
      requires Progress(ip, s0, before, src, off0, off) && off0 <= s0.exts[ip.inum] * BSIZE
      modifies this, ip`addrs
      ensures ok ==> Progress(ip, s0, before, src, off0, off + m)
      ensures !ok ==> !Enough(s0, ip.inum, Extent(off0 + |src|))
      ensures dinodes == old(dinodes)
      ensures !ok ==> forall b :: 0 <= b < |bitmap| ==> bitmap[b]
    {
      ghost var s, i := state, ip.inum;
      var a;
      ok, a := Bmap(ip, off / BSIZE);
      if !ok {
        ShortAfter(sb, s0, s, i, off / BSIZE + 1);
        NeedsMore(s0, i, off, off0 + |src|);
        return;
      }
      WriteGoesOn(sb, s0, s, state, i, off0, off, m, src);
      LoggedGoesOn(sb, s0, s, state, i, off0, off, m, src, before, old(logged), logged);
      FillBlock(a, off % BSIZE, src[off - off0..off - off0 + m]);
    }

    /** The loop of writei. */
    method WriteLoop(ip: Inode, src: seq<byte>, off0: nat, ghost s0: Fs, ghost before: set<nat>) returns (ok: bool)
      requires Progress(ip, s0, before, src, off0, off0)
      requires off0 <= s0.exts[ip.inum] * BSIZE && off0 + |src| <= MAXFILE * BSIZE
      modifies this, ip`addrs
      ensures ok ==> Progress(ip, s0, before, src, off0, off0 + |src|)
      ensures !ok ==> !Enough(s0, ip.inum, Extent(off0 + |src|))
      ensures dinodes == old(dinodes)
      ensures !ok ==> forall b :: 0 <= b < |bitmap| ==> bitmap[b]
    {
      var n, tot, off := |src|, 0, off0;
      while tot < n
        invariant 0 <= tot <= n && off == off0 + tot && (tot == 0 || tot == n || off % BSIZE == 0)
        invariant Progress(ip, s0, before, src, off0, off)
        invariant dinodes == old(dinodes)
      {
        var m := Part(off, n - tot);
        ok := WriteSome(ip, src, off0, off, m, s0, before);
        if !ok { return; }
        tot, off := tot + m, off + m;
      }
      ok := true;
    }

    /** The arguments writei refuses. */
    predicate BadWrite(size: nat, off: uint, n: uint) {
      off > size || (off + n) % UINT < off || off + n > MAXFILE * BSIZE
    }

    /** A write replaces exactly the bytes [off, off + n) of exactly this file and extends it if it
        must; every other file keeps its inode and its bytes; the inode on disk is current
        afterwards, whether or not iupdate ran; and exactly the blocks of OpLogs are logged. A
        refused write changes nothing; otherwise ok is false exactly if too few blocks are free. */
    method Writei(ip: Inode, src: seq<byte>, off: uint) returns (ok: bool, r: int)
      requires Valid(ip) && AtRest(sb, state) && Synced(ip) && ip.kind != T_DEV && |src| < UINT
      modifies this, ip`addrs, ip`size
      ensures BadWrite(old(ip.size), off, |src|) ==> ok && r == -1 && unchanged(this) && unchanged(ip)
      ensures !BadWrite(old(ip.size), off, |src|) ==> ok == Enough(old(state), ip.inum, Extent(off + |src|))
      ensures !BadWrite(old(ip.size), off, |src|) && ok ==>
                && r == |src| && Valid(ip) && Synced(ip) && Written(sb, old(state), state, ip.inum, off, src)
                && OpLogged(logged, old(logged), sb, old(state), state, ip.inum, off, off + |src|)
      ensures !ok ==> forall b :: 0 <= b < |bitmap| ==> bitmap[b]
    {
      if off > ip.size || (off + |src|) % UINT < off {
        return true, -1;
      }
      if off + |src| > MAXFILE * BSIZE {
        return true, -1;
      }
      ok := WriteChecked(ip, src, off);
      r := |src|;
    }

    /** writei once its arguments have passed. */
    method WriteChecked(ip: Inode, src: seq<byte>, off: uint) returns (ok: bool)
      requires Valid(ip) && AtRest(sb, state) && Synced(ip) && off <= ip.size && off + |src| <= MAXFILE * BSIZE
      modifies this, ip`addrs, ip`size
      ensures ok == Enough(old(state), ip.inum, Extent(off + |src|))
      ensures ok ==> Valid(ip) && Synced(ip) && Written(sb, old(state), state, ip.inum, off, src)
      ensures ok ==> OpLogged(logged, old(logged), sb, old(state), state, ip.inum, off, off + |src|)
      ensures !ok ==> forall b :: 0 <= b < |bitmap| ==> bitmap[b]
    {
      ghost var s0, before := state, logged;
      WriteStarts(sb, s0, ip.inum, off, src, logged);
      ok := WriteLoop(ip, src, off, s0, before);
      if ok {
        EndWrite(ip, |src|, off, s0, before, src);
      }
    }

    /** A longer file gets its new size, in memory and on disk. */
    method SetSize(ip: Inode, n: nat, off: nat)
      requires Tied(ip) && (Synced(ip) || (n > 0 && off + n > ip.size))
      modifies this`dinodes, this`logged, this`state, ip`size
      ensures Tied(ip) && Synced(ip)
      ensures n > 0 ==> state == Resized(old(state), ip.inum, Max(old(ip.size), off + n))
      ensures n == 0 ==> unchanged(this) && unchanged(ip)
      ensures logged == old(logged) + if n > 0 && off + n > old(ip.size) then {IBlock(sb, ip.inum)} else {}
    {
      if n > 0 && off + n > ip.size {
        state := Resized(state, ip.inum, off + n);
        ip.size := off + n;
        Iupdate(ip);
      }
      assert n > 0 ==>
               state.table
                 == old(state.table)[ip.inum := old(state.table)[ip.inum].(size := Max(old(ip.size), off + n))];
    }

    /** The end of writei: the size is set if the file is longer; otherwise the copy of the inode
        on disk was current all along. */
    method EndWrite(ip: Inode, n: nat, off: nat, ghost s0: Fs, ghost before: set<nat>, ghost src: seq<byte>)
      requires n == |src| && Progress(ip, s0, before, src, off, off + n) && AtRest(sb, s0)
      requires off <= ip.size == s0.table[ip.inum].size && dinodes[ip.inum] == s0.table[ip.inum]
      modifies this`dinodes, this`logged, this`state, ip`size
      ensures Valid(ip) && Synced(ip) && Written(sb, s0, state, ip.inum, off, src)
      ensures OpLogged(logged, before, sb, s0, state, ip.inum, off, off + n)
      ensures Enough(s0, ip.inum, Extent(off + n))
    {
      ghost var s := state;
      TookEnough(sb, s0, s, ip.inum, off + n);
      GrownIsLonger(sb, s0, s, ip.inum, off, src);
      SetSize(ip, n, off);
      WriteDone(sb, s0, s, state, ip.inum, off, src);
      WriteLogged(sb, s0, s, state, ip.inum, off, src, before, old(logged));
    }

    /** File i's first k blocks are free again, and nothing else is. */
    ghost predicate FreedUpTo(s: Fs, i: nat, k: nat)
      reads this
    {
      && |bitmap| == |s.bitmap|
      && forall b :: 0 <= b < |bitmap| ==> (bitmap[b] <==> s.bitmap[b] && !EarlySlot(s, b, i, k))
    }

    /** Frees file i's k-th block, if it has one; the block's bit is always set. */
    method FreeSlot(ghost s: Fs, ghost i: nat, addr: uint, ghost k: nat, ghost before: set<nat>) returns (ok: bool)
      requires Good(sb, s) && i < sb.ninodes && k < MAXFILE && addr == BlockAddr(s, i, k)
      requires FreedUpTo(s, i, k) && FreeLogged(logged, before, sb, s, i, k)
      modifies this`bitmap, this`logged
      ensures ok && FreedUpTo(s, i, k + 1) && FreeLogged(logged, before, sb, s, i, k + 1)
    {
      assert InodeOk(s, i) && DataOk(s, i, k);
      ok := true;
      if addr != 0 {
        assert BlockOk(sb, s, addr);
        ok := Bfree(addr);
      }
      OneFreed(old(logged), logged, before, sb, s, i, k, addr);
      forall b | 0 <= b < |bitmap|
        ensures EarlySlot(s, b, i, k + 1) <==> EarlySlot(s, b, i, k) || (addr != 0 && b == addr)
      {
        assert BlockOk(sb, s, b);
      }
    }

    method FreeDirect(ip: Inode, ghost s: Fs)
      requires Good(sb, s) && ip.inum < sb.ninodes && |ip.addrs| == NDIRECT + 1 && s.table[ip.inum].addrs == ip.addrs
      requires bitmap == s.bitmap && blocks == s.blocks
      modifies this`bitmap, this`logged, ip`addrs
      ensures FreedUpTo(s, ip.inum, NDIRECT) && |ip.addrs| == NDIRECT + 1
      ensures FreeLogged(logged, old(logged), sb, s, ip.inum, NDIRECT)
      ensures forall j :: 0 <= j < NDIRECT ==> ip.addrs[j] == 0
      ensures ip.addrs[NDIRECT] == old(ip.addrs)[NDIRECT]
    {
      assert InodeOk(s, ip.inum);
      NothingFreed(logged, sb, s, ip.inum);
      var i := 0;
      while i < NDIRECT
        invariant 0 <= i <= NDIRECT && |ip.addrs| == NDIRECT + 1 && FreedUpTo(s, ip.inum, i)
        invariant FreeLogged(logged, old(logged), sb, s, ip.inum, i)
        invariant forall j :: 0 <= j < i ==> ip.addrs[j] == 0
        invariant forall j :: i <= j <= NDIRECT ==> ip.addrs[j] == old(ip.addrs)[j]
      {
        var ok := FreeSlot(s, ip.inum, ip.addrs[i], i, old(logged));
        assert ok;
        ip.addrs := ip.addrs[i := 0];
        i := i + 1;
      }
    }

    /** Truncation frees each block the file owns exactly once, so the panic on a free block cannot
        fire; it frees no other block, leaves every other file alone, and logs the bitmap blocks of
        the file's blocks and the block of its inode. */
    method Itrunc(ip: Inode)
      requires Valid(ip) && AtRest(sb, state)
      modifies this, ip`addrs, ip`size
      ensures Valid(ip) && AtRest(sb, state) && Synced(ip)
      ensures Emptied(old(state), state, ip.inum)
      ensures Content(state, ip.inum) == []
      ensures SameFiles(old(state), state, ip.inum)
      ensures logged == old(logged) + Maps(sb, FileBlocks(old(state), ip.inum)) + {IBlock(sb, ip.inum)}
    {
      ghost var s := state;
      assert InodeOk(s, ip.inum);
      FreeDirect(ip, s);
      FreeIndirect(ip, s, old(logged));
      ip.addrs := ip.addrs[NDIRECT := 0];
      ip.size := 0;
      assert ip.addrs == seq(NDIRECT + 1, _ => 0);
      state := WithoutFile(s, bitmap, ip.inum);
      WithoutFileEmptied(sb, s, bitmap, ip.inum);
      Iupdate(ip);
    }

    /** The indirect block's entries, then the indirect block itself. */
    method FreeIndirect(ip: Inode, ghost s: Fs, ghost before: set<nat>)
      requires Good(sb, s) && ip.inum < sb.ninodes && blocks == s.blocks && |ip.addrs| == NDIRECT + 1
      requires ip.addrs[NDIRECT] == IndirectAddr(s.table[ip.inum]) && FreedUpTo(s, ip.inum, NDIRECT)
      requires FreeLogged(logged, before, sb, s, ip.inum, NDIRECT)
      modifies this`bitmap, this`logged
      ensures logged == before + Maps(sb, FileBlocks(s, ip.inum))
      ensures |bitmap| == |s.bitmap|
      ensures forall b :: 0 <= b < |bitmap| ==> (bitmap[b] <==> s.bitmap[b] && !OwnedBy(s, b, ip.inum))
    {
      assert InodeOk(s, ip.inum);
      var a := ip.addrs[NDIRECT];
      if a != 0 {
        assert BlockOk(sb, s, a);
        var j := 0;
        while j < NINDIRECT
          invariant 0 <= j <= NINDIRECT && FreedUpTo(s, ip.inum, NDIRECT + j)
          invariant FreeLogged(logged, before, sb, s, ip.inum, NDIRECT + j)
        {
          var ok := FreeSlot(s, ip.inum, Word(blocks[a], j), NDIRECT + j, before);
          assert ok;
          j := j + 1;
        }
        ghost var freed := logged;
        var ok := Bfree(a);
        assert ok;
        AllFreed(freed, logged, before, sb, s, ip.inum, MAXFILE);
      } else {
        AllFreed(logged, logged, before, sb, s, ip.inum, NDIRECT);
      }
      forall b | 0 <= b < |bitmap| ensures bitmap[b] <==> s.bitmap[b] && !OwnedBy(s, b, ip.inum) {
        assert BlockOk(sb, s, b);
      }
    }
  }

  /** Block b is one of file i's first k data blocks. */
  ghost predicate EarlySlot(s: Fs, b: nat, i: nat, k: nat) {
    b in s.owner && s.owner[b].Data? && s.owner[b].inum == i && s.owner[b].k < k
  }

  lemma SameFilesTrans(s: Fs, s1: Fs, s2: Fs, i: nat)
    requires SameFiles(s, s1, i) && SameFiles(s1, s2, i)
    ensures SameFiles(s, s2, i)
  {
    forall j | 0 <= j < |s.table| && j != i ensures SameFile(s, s2, j) {
      assert SameFile(s, s1, j) && SameFile(s1, s2, j);
    }
  }

  /** How much of the bytes left falls in the block of off. */
  function Part(off: nat, left: nat): (m: nat)
    requires 0 < left
    ensures 0 < m <= left && off % BSIZE + m <= BSIZE && (m == left || (off + m) % BSIZE == 0)
  {
    if left < BSIZE - off % BSIZE then left else BSIZE - off % BSIZE
  }
}
