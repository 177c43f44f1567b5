/** The log as the kernel runs it: the in-memory header, the pinned buffers, and the loops that
    write blocks one at a time. Every block write is recorded, in order, in writes. */
module LogDevice {
  import opened Params
  import opened LogDisk
  import opened LogCrash

  /** The writes since before are the first k of ws. */
  ghost predicate Issued(writes: seq<Write>, before: seq<Write>, ws: seq<Write>, k: nat) {
    k <= |ws| && writes == before + ws[..k]
  }

  lemma IssuedNext(writes: seq<Write>, before: seq<Write>, ws: seq<Write>, k: nat, w: Write)
    requires Issued(writes, before, ws, k) && k < |ws| && w == ws[k]
    ensures Issued(writes + [w], before, ws, k + 1)
  {
    assert before + ws[..k] + [ws[k]] == before + ws[..k + 1];
  }

  lemma IssuedAll(writes: seq<Write>, before: seq<Write>, ws: seq<Write>)
    requires Issued(writes, before, ws, |ws|)
    ensures writes == before + ws
  {
    assert ws[..|ws|] == ws;
  }

  lemma Regroup(before: seq<Write>, a: seq<Write>, b: seq<Write>, c: seq<Write>)
    ensures before + a + b + c == before + (a + b + c)
  {
  }

  predicate HeaderOk(l: Layout, n: nat, block: seq<int>) {
    |block| == LOGSIZE && n <= LOGSIZE && Loggable(l, block[..n])
  }

  predicate PinsOk(l: Layout, dirty: map<nat, Block>) {
    forall b :: b in dirty ==> IsHome(l, b)
  }

  /** Block b as bread finds it. */
  function Seen(dirty: map<nat, Block>, d: Disk, b: nat): Block
    requires b < |d|
  {
    if b in dirty then dirty[b] else d[b]
  }

  lemma NotPinned(dirty: map<nat, Block>, b: nat)
    requires b !in dirty
    ensures dirty - {b} == dirty
  {
  }

  lemma NoPins(dirty: map<nat, Block>)
    requires forall b :: b !in dirty
    ensures dirty == map[]
  {
    var none: map<nat, Block> := map[];
    assert dirty.Keys == none.Keys;
  }

  class Log {
    const layout: Layout
    var disk: Disk
    var n: nat                     // lh.n
    var block: seq<int>            // lh.block
    var dirty: map<nat, Block>     // buffers pinned by log_write
    ghost const boot: Disk         // the disk when this device was attached
    ghost var writes: seq<Write>   // every block write since

    ghost predicate DiskOk()
      reads this`disk, this`writes
    {
      Fits(layout, boot) && InRange(boot, writes) && disk == Apply(boot, writes)
    }

    ghost predicate Valid()
      reads this
    {
      DiskOk() && HeaderOk(layout, n, block) && PinsOk(layout, dirty)
    }

    /** The pinned buffers are exactly the logged blocks. */
    ghost predicate AllPinned()
      reads this
      requires n <= |block|
    {
      forall b :: b in dirty <==> b in block[..n]
    }

    constructor (layout: Layout, disk: Disk)
      requires LogOk(layout, disk)
      ensures Valid() && this.layout == layout && this.disk == disk && n == 0 && dirty == map[]
    {
      this.layout := layout;
      this.disk := disk;
      n := 0;
      block := seq(LOGSIZE, _ => 0);
      dirty := map[];
      boot := disk;
      writes := [];
    }

    /** What bread returns for each block: the pinned buffer if there is one. */
    ghost function View(): int -> Block
      reads this
    {
      var c, d := dirty, disk;
      (b: int) => if b in c then c[b] else if 0 <= b < |d| then d[b] else seq(BLOCKWORDS, _ => 0)
    }

    /** bwrite: the buffer goes to disk and is no longer dirty. */
    method WriteBlock(b: nat, data: Block)
      requires DiskOk() && b < layout.total
      modifies this`disk, this`dirty, this`writes
      ensures DiskOk()
      ensures disk == old(disk)[b := data] && dirty == old(dirty) - {b}
      ensures writes == old(writes) + [Write(b, data)]
    {
      ApplyMore(boot, writes, Write(b, data));
      disk := disk[b := data];
      dirty := dirty - {b};
      writes := writes + [Write(b, data)];
    }

    ghost predicate SameHome(d: Disk)
      reads this
      requires |d| == |disk| == layout.total
    {
      forall b :: IsHome(layout, b) ==> disk[b] == d[b]
    }

    /** One round of the loop of write_log: the cached block goes to its slot. */
    method WriteSlot(tail: nat, ghost d: Disk)
      requires DiskOk() && HeaderOk(layout, n, block) && PinsOk(layout, dirty) && tail < n
      requires |d| == |disk| == layout.total && SameHome(d)
      modifies this`disk, this`dirty, this`writes
      ensures DiskOk() && dirty == old(dirty) && |disk| == |d| && SameHome(d)
      ensures 0 <= block[tail] < |d|
      ensures writes == old(writes) + [Write(layout.start + tail + 1, Seen(dirty, d, block[tail]))]
    {
      var from := block[tail];
      assert from == block[..n][tail];
      NotPinned(dirty, layout.start + tail + 1);
      WriteBlock(layout.start + tail + 1, Seen(dirty, disk, from));
    }

    method WriteLog()
      requires Valid()
      modifies this`disk, this`dirty, this`writes
      ensures Valid() && dirty == old(dirty)
      ensures writes == old(writes) + LogWrites(layout, block[..n], old(View()))
    {
      ghost var ws := LogWrites(layout, block[..n], View());
      ghost var d := disk;
      var tail := 0;
      while tail < n
        invariant tail <= n == |ws| && DiskOk() && dirty == old(dirty) && SameHome(d)
        invariant Issued(writes, old(writes), ws, tail)
      {
        ghost var was := writes;
        WriteSlot(tail, d);
        assert block[..n][tail] == block[tail];
        IssuedNext(was, old(writes), ws, tail, Write(layout.start + tail + 1, Seen(dirty, d, block[tail])));
        tail := tail + 1;
      }
      IssuedAll(writes, old(writes), ws);
    }

    method WriteHead()
      requires Valid()
      modifies this`disk, this`dirty, this`writes
      ensures Valid() && dirty == old(dirty)
      ensures writes == old(writes) + [HeadWrite(layout, old(disk), block[..n])]
    {
      var buf := Seen(dirty, disk, layout.start);
      var hb := buf[0 := n];
      var i := 0;
      while i < n
        invariant i <= n && |hb| == BLOCKWORDS && hb[0] == n
        invariant forall j :: 0 <= j < i ==> hb[1 + j] == block[j]
        invariant forall j :: 1 + i <= j < BLOCKWORDS ==> hb[j] == buf[j]
      {
        hb := hb[1 + i := block[i]];
        i := i + 1;
      }
      assert hb == HeaderBlock(buf, block[..n]);
      WriteBlock(layout.start, hb);
    }

    /** One round of the loop of install_trans: the slot goes to its home block. */
    method InstallOne(tail: nat, ghost d: Disk)
      requires DiskOk() && HeaderOk(layout, n, block) && PinsOk(layout, dirty) && tail < n && SameLog(layout, d, disk)
      modifies this`disk, this`dirty, this`writes
      ensures DiskOk() && SameLog(layout, d, disk) && 0 <= block[tail]
      ensures dirty == old(dirty) - {block[tail]}
      ensures writes == old(writes) + [Write(block[tail], d[layout.start + tail + 1])]
    {
      var dst := block[tail];
      assert dst == block[..n][tail];
      WriteBlock(dst, Seen(dirty, disk, layout.start + tail + 1));
    }

    method InstallTrans()
      requires Valid()
      modifies this`disk, this`dirty, this`writes
      ensures Valid() && forall b :: b in dirty <==> b in old(dirty) && b !in block[..n]
      ensures SameLog(layout, old(disk), disk)
      ensures writes == old(writes) + InstallWrites(layout, old(disk), block[..n])
    {
      ghost var ws, d := InstallWrites(layout, disk, block[..n]), disk;
      var tail := 0;
      while tail < n
        invariant tail <= n == |ws| && DiskOk() && SameLog(layout, d, disk)
        invariant forall b :: b in dirty <==> b in old(dirty) && b !in block[..tail]
        invariant Issued(writes, old(writes), ws, tail)
      {
        ghost var was := writes;
        InstallOne(tail, d);
        assert block[..n][tail] == block[tail];
        assert block[..tail + 1] == block[..tail] + [block[tail]];
        IssuedNext(was, old(writes), ws, tail, Write(block[tail], d[layout.start + tail + 1]));
        tail := tail + 1;
      }
      IssuedAll(writes, old(writes), ws);
    }

    lemma WritesSince(d: Disk, before: seq<Write>, ws: seq<Write>)
      requires Valid() && InRange(boot, before) && d == Apply(boot, before) && writes == before + ws
      ensures InRange(d, ws) && disk == Apply(d, ws)
    {
      assert forall i :: 0 <= i < |ws| ==> ws[i] == writes[|before| + i];
      ApplyConcat(boot, before, ws);
    }

    /** The tail common to commit and recovery: install, then erase the header. */
    method InstallAndClear()
      requires Valid() && LogOk(layout, disk) && block[..n] == Pending(layout, disk)
      modifies this
      ensures Valid() && n == 0
      ensures forall b :: b in dirty <==> b in old(dirty) && b !in old(block[..n])
      ensures writes == old(writes) + RecoverWrites(layout, old(disk))
    {
      InstallTrans();
      n := 0;
      assert block[..n] == [];
      WriteHead();
    }

    /** commit: exactly the block writes of the specification, in that order; afterwards the
        transaction's buffers are unpinned and the in-memory log is empty. */
    method Commit()
      requires Valid() && AllPinned()
      modifies this
      ensures Valid() && n == 0 && dirty == map[]
      ensures writes == old(writes) + CommitWrites(layout, old(disk), old(block[..n]), old(View()))
    {
      if n > 0 {
        ghost var d, blocks, view, before := disk, block[..n], View(), writes;
        WriteLog();
        WritesSince(d, before, LogWrites(layout, blocks, view));
        Untouched(d, LogWrites(layout, blocks, view), layout.start);
        WriteHead();
        WritesSince(d, before, LogWrites(layout, blocks, view) + [HeadWrite(layout, d, blocks)]);
        CommittedDisk(layout, d, blocks, view);
        ghost var c := disk;
        assert c == Committed(layout, d, blocks, view);
        InstallAndClear();
        CommitIsRecovery(layout, d, blocks, view);
        Regroup(before, LogWrites(layout, blocks, view), [HeadWrite(layout, d, blocks)], RecoverWrites(layout, c));
      } else {
        assert block[..n] == [];
      }
      NoPins(dirty);
    }

    method ReadHead()
      requires Valid() && LogOk(layout, disk) && dirty == map[]
      modifies this`n, this`block
      ensures Valid() && block[..n] == Pending(layout, disk)
    {
      var buf := Seen(dirty, disk, layout.start);
      n := buf[0];
      var i := 0;
      while i < n
        invariant i <= n && n == HeaderN(disk[layout.start]) && |block| == LOGSIZE
        invariant forall j :: 0 <= j < i ==> block[j] == buf[1 + j]
      {
        block := block[i := buf[1 + i]];
        i := i + 1;
      }
      assert block[..n] == Pending(layout, disk);
    }

    /** recover_from_log, run at boot with an empty cache. */
    method RecoverFromLog()
      requires Valid() && LogOk(layout, disk) && dirty == map[]
      modifies this
      ensures Valid() && n == 0 && dirty == map[]
      ensures writes == old(writes) + RecoverWrites(layout, old(disk))
      ensures disk == Recovered(layout, old(disk))
    {
      ghost var d, before := disk, writes;
      ReadHead();
      InstallAndClear();
      NoPins(dirty);
      WritesSince(d, before, RecoverWrites(layout, d));
    }

    /** log_write: pins the caller's buffer and records its block number once; false stands for
        the panic of a full log. */
    method LogWrite(b: nat, data: Block) returns (ok: bool)
      requires Valid() && IsHome(layout, b)
      requires AllPinned()
      modifies this`n, this`block, this`dirty
      ensures ok == (old(n) < LOGSIZE && old(n) < layout.size - 1)
      ensures Valid() && AllPinned()
      ensures ok ==> dirty == old(dirty)[b := data]
      ensures ok ==> block[..n] == if b in old(block[..n]) then old(block[..n]) else old(block[..n]) + [b]
      ensures !ok ==> unchanged(this)
    {
      if n >= LOGSIZE || n >= layout.size - 1 {
        return false;
      }
      var i := 0;
      while i < n && block[i] != b
        invariant i <= n && b !in block[..i]
      {
        i := i + 1;
      }
      ghost var was := block[..n];
      assert i < n ==> was[i] == b;
      block := block[i := b];
      if i == n {
        n := n + 1;
        assert block[..n] == was + [b];
      } else {
        assert block[..n] == was;
      }
      dirty := dirty[b := data];
      return true;
    }
  }
}
