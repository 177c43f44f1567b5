/** The file system over the log: the chunks of many filewrites, and truncations, committed together or
    one by one, are transactions, and a crash leaves each file with a whole number of its chunks. */
module FsCrash {
  import opened Params
  import opened FsLayout
  import opened FsState
  import opened FsFile
  import opened FsGrow
  import opened FsTrunc
  import opened FsChunk
  import opened FsWrite
  import LogDisk
  import LogCrash
  import LogReserve

  /** How the contents of each block of the disk are made from the state. */
  type Image = (Fs, nat) -> LogDisk.Block

  predicate SameBit(s: Fs, t: Fs, x: nat) {
    x < |s.bitmap| && x < |t.bitmap| && t.bitmap[x] == s.bitmap[x]
  }

  predicate SameInode(s: Fs, t: Fs, j: nat) {
    j < |s.table| && j < |t.table| && t.table[j] == s.table[j]
  }

  /** All that block b holds is the same in s and t: file data, bits of the free map, or inodes. */
  ghost predicate SameOnDisk(sb: Super, s: Fs, t: Fs, b: nat) {
    && (sb.datastart <= b ==> SameBytes(s, t, b))
    && (forall x: nat {:trigger SameBit(s, t, x)} :: x < sb.size && BBlock(sb, x) == b ==> SameBit(s, t, x))
    && (forall j: nat {:trigger SameInode(s, t, j)} :: j < sb.ninodes && IBlock(sb, j) == b ==> SameInode(s, t, j))
  }

  /** A block's contents depend on nothing but what the block holds. */
  ghost predicate Local(sb: Super, image: Image) {
    forall s: Fs, t: Fs, b: nat {:trigger SameOnDisk(sb, s, t, b)} :: SameOnDisk(sb, s, t, b) ==>
      image(s, b) == image(t, b)
  }

  lemma UnloggedBit(sb: Super, s: Fs, t: Fs, i: nat, off: nat, src: seq<byte>, x: nat)
    requires AtRest(sb, s) && Written(sb, s, t, i, off, src) && x < sb.size
    requires BBlock(sb, x) !in OpLogs(sb, s, t, i, off, off + |src|)
    ensures SameBit(s, t, x)
  {
    assert BitOk(s, t, Taken(s, t, i), x);
  }

  lemma UnloggedInode(sb: Super, s: Fs, t: Fs, i: nat, off: nat, src: seq<byte>, j: nat)
    requires AtRest(sb, s) && Written(sb, s, t, i, off, src) && j < sb.ninodes
    requires IBlock(sb, j) !in OpLogs(sb, s, t, i, off, off + |src|)
    ensures SameInode(s, t, j)
  {
    if j != i {
      assert SameFile(s, t, j);
    } else {
      GrowthRange(sb, s, t, i, off, src);
    }
  }

  /** A block that a write does not log holds what it held: nothing is left out of the transaction. */
  lemma UnloggedSame(sb: Super, s: Fs, t: Fs, i: nat, off: nat, src: seq<byte>, b: nat)
    requires AtRest(sb, s) && Written(sb, s, t, i, off, src)
    requires b !in OpLogs(sb, s, t, i, off, off + |src|)
    ensures SameOnDisk(sb, s, t, b)
  {
    assert WriteByte(sb, s, t, i, off, off + |src|, b);
    forall x: nat | x < sb.size && BBlock(sb, x) == b ensures SameBit(s, t, x) {
      UnloggedBit(sb, s, t, i, off, src, x);
    }
    forall j: nat | j < sb.ninodes && IBlock(sb, j) == b ensures SameInode(s, t, j) {
      UnloggedInode(sb, s, t, i, off, src, j);
    }
  }

  /** The same for a truncation: what it does not log holds what it held. */
  lemma TruncatedSame(sb: Super, s: Fs, t: Fs, i: nat, b: nat)
    requires Good(sb, s) && i < sb.ninodes && Emptied(s, t, i) && b !in TruncLogs(sb, s, i)
    ensures SameOnDisk(sb, s, t, b)
  {
    forall x: nat | x < sb.size && BBlock(sb, x) == b ensures SameBit(s, t, x) {
      FileBlocksOwned(sb, s, i, x);
    }
    forall j: nat | j < sb.ninodes && IBlock(sb, j) == b ensures SameInode(s, t, j) {
    }
  }

  /** The log lies before the inode blocks. */
  predicate LogPlaced(l: LogDisk.Layout, sb: Super) {
    LaidOut(sb) && l.total == sb.size && l.start + l.size <= sb.inodestart
  }

  /** No write logs a block of the log. */
  lemma LogsAreHome(l: LogDisk.Layout, sb: Super, s: Fs, t: Fs, i: nat, off: nat, src: seq<byte>, b: nat)
    requires AtRest(sb, s) && Written(sb, s, t, i, off, src) && LogPlaced(l, sb)
    requires b in OpLogs(sb, s, t, i, off, off + |src|)
    ensures LogDisk.IsHome(l, b)
  {
    LogParts(sb, s, t, i, off, src);
    GrowthRange(sb, s, t, i, off, src);
    TakenBelow(sb, s, t, i);
    MetadataPlaces(sb, Taken(s, t, i), i);
    if b in Addrs(t, i, off / BSIZE, PastBlock(off, off + |src|)) {
      var k: nat :| off / BSIZE <= k < PastBlock(off, off + |src|) && BlockAddr(t, i, k) == b;
      OwnBlock(sb, t, i, k);
    } else if b in IndirectPart(s, t, i) {
      OwnIndirect(sb, t, i);
    }
  }

  lemma TruncLogsAreHome(l: LogDisk.Layout, sb: Super, s: Fs, i: nat, b: nat)
    requires Good(sb, s) && i < sb.ninodes && LogPlaced(l, sb) && b in TruncLogs(sb, s, i)
    ensures LogDisk.IsHome(l, b)
  {
    forall x | x in FileBlocks(s, i) ensures x < sb.size {
      FileBlocksOwned(sb, s, i, x);
    }
    MetadataPlaces(sb, FileBlocks(s, i), i);
  }

  // Operations, one after the other, and the commits that take them to the disk.

  /** A chunk of some process's filewrite, the bytes part written at position at of the file; or
      the truncation of a file. */
  datatype Op =
    | Write(file: nat, at: nat, part: seq<byte>, before: Fs, after: Fs, logs: set<nat>)
    | Truncate(file: nat, before: Fs, after: Fs, logs: set<nat>)

  ghost predicate Done(sb: Super, u: Op) {
    match u
    case Write(i, at, part, s, t, logs) => ChunkDone(sb, s, t, i, at, part, logs)
    case Truncate(i, s, t, logs) => i < sb.ninodes == |s.table| && Emptied(s, t, i) && logs == TruncLogs(sb, s, i)
  }

  /** The state after the first n operations. */
  function AfterOps(s0: Fs, ops: seq<Op>, n: nat): Fs
    requires n <= |ops|
  {
    if n == 0 then s0 else ops[n - 1].after
  }

  ghost predicate OpOk(sb: Super, s0: Fs, ops: seq<Op>, j: nat)
    requires j < |ops|
  {
    ops[j].before == AfterOps(s0, ops, j) && Done(sb, ops[j])
  }

  /** Operations of any processes on any files, from state s0 on. */
  ghost predicate History(sb: Super, s0: Fs, ops: seq<Op>) {
    && AtRest(sb, s0)
    && forall j: nat {:trigger OpOk(sb, s0, ops, j)} :: j < |ops| ==> OpOk(sb, s0, ops, j)
  }

  lemma DoneAtRest(sb: Super, u: Op)
    requires AtRest(sb, u.before) && Done(sb, u)
    ensures AtRest(sb, u.after)
  {
    if u.Truncate? {
      EmptiedFiles(sb, u.before, u.after, u.file);
    }
  }

  lemma {:induction false} HistoryAtRest(sb: Super, s0: Fs, ops: seq<Op>, n: nat)
    requires History(sb, s0, ops) && n <= |ops|
    ensures AtRest(sb, AfterOps(s0, ops, n))
  {
    if n > 0 {
      HistoryAtRest(sb, s0, ops, n - 1);
      assert OpOk(sb, s0, ops, n - 1);
      DoneAtRest(sb, ops[n - 1]);
    }
  }

  /** The blocks that operations lo to hi - 1 log. */
  function LogsOf(ops: seq<Op>, lo: nat, hi: nat): set<nat>
    requires hi <= |ops|
    decreases hi
  {
    if hi <= lo then {} else LogsOf(ops, lo, hi - 1) + ops[hi - 1].logs
  }

  lemma LogsAre(sb: Super, s: Fs, t: Fs, i: nat, off: nat, upto: nat, logs: set<nat>, b: nat)
    requires i < |s.table| && OpLogged(logs, {}, sb, s, t, i, off, upto)
    ensures b in logs <==> b in OpLogs(sb, s, t, i, off, upto)
  {
    assert OpBit(logs, {}, sb, s, t, i, off, upto, b);
  }

  lemma OpUntouched(sb: Super, image: Image, s: Fs, t: Fs, i: nat, off: nat, part: seq<byte>, logs: set<nat>, b: nat)
    requires AtRest(sb, s) && Written(sb, s, t, i, off, part) && OpLogged(logs, {}, sb, s, t, i, off, off + |part|)
    requires Local(sb, image) && b !in logs
    ensures image(t, b) == image(s, b)
  {
    LogsAre(sb, s, t, i, off, off + |part|, logs, b);
    UnloggedSame(sb, s, t, i, off, part, b);
  }

  lemma OpLogsHome(l: LogDisk.Layout, sb: Super, s: Fs, t: Fs, i: nat, off: nat, part: seq<byte>, logs: set<nat>,
                   b: nat)
    requires AtRest(sb, s) && Written(sb, s, t, i, off, part) && OpLogged(logs, {}, sb, s, t, i, off, off + |part|)
    requires LogPlaced(l, sb) && b in logs
    ensures LogDisk.IsHome(l, b)
  {
    LogsAre(sb, s, t, i, off, off + |part|, logs, b);
    LogsAreHome(l, sb, s, t, i, off, part, b);
  }

  /** One operation by itself, from a state at rest. */
  ghost predicate Sound(sb: Super, u: Op) {
    AtRest(sb, u.before) && Done(sb, u)
  }

  lemma OpSound(sb: Super, s0: Fs, ops: seq<Op>, j: nat)
    requires History(sb, s0, ops) && j < |ops|
    ensures Sound(sb, ops[j]) && ops[j].before == AfterOps(s0, ops, j) && ops[j].after == AfterOps(s0, ops, j + 1)
  {
    HistoryAtRest(sb, s0, ops, j);
    assert OpOk(sb, s0, ops, j);
  }

  lemma SoundUntouched(sb: Super, image: Image, u: Op, b: nat)
    requires Sound(sb, u) && Local(sb, image) && b !in u.logs
    ensures image(u.after, b) == image(u.before, b)
  {
    match u {
      case Write(i, at, part, s, t, logs) => OpUntouched(sb, image, s, t, i, at, part, logs, b);
      case Truncate(i, s, t, logs) => TruncatedSame(sb, s, t, i, b);
    }
  }

  lemma SoundHome(l: LogDisk.Layout, sb: Super, u: Op, b: nat)
    requires Sound(sb, u) && LogPlaced(l, sb) && b in u.logs
    ensures LogDisk.IsHome(l, b)
  {
    match u {
      case Write(i, at, part, s, t, logs) => OpLogsHome(l, sb, s, t, i, at, part, logs, b);
      case Truncate(i, s, _, _) => TruncLogsAreHome(l, sb, s, i, b);
    }
  }

  /** A block that none of the operations logs has the same contents after them. */
  lemma {:induction false} UntouchedSame(sb: Super, image: Image, s0: Fs, ops: seq<Op>, lo: nat, hi: nat, b: nat)
    requires History(sb, s0, ops) && Local(sb, image) && lo <= hi <= |ops| && b !in LogsOf(ops, lo, hi)
    ensures image(AfterOps(s0, ops, hi), b) == image(AfterOps(s0, ops, lo), b)
    decreases hi
  {
    if lo < hi {
      UntouchedSame(sb, image, s0, ops, lo, hi - 1, b);
      OpSound(sb, s0, ops, hi - 1);
      SoundUntouched(sb, image, ops[hi - 1], b);
    }
  }

  lemma {:induction false} LoggedIsHome(l: LogDisk.Layout, sb: Super, s0: Fs, ops: seq<Op>, lo: nat, hi: nat, b: nat)
    requires History(sb, s0, ops) && LogPlaced(l, sb) && lo <= hi <= |ops| && b in LogsOf(ops, lo, hi)
    ensures LogDisk.IsHome(l, b)
    decreases hi
  {
    if b in ops[hi - 1].logs {
      OpSound(sb, s0, ops, hi - 1);
      SoundHome(l, sb, ops[hi - 1], b);
    } else {
      LoggedIsHome(l, sb, s0, ops, lo, hi - 1, b);
    }
  }

  /** order lists the blocks of logs, each once, as the log's header does, and the log has room for them. */
  ghost predicate Lists(l: LogDisk.Layout, order: seq<int>, logs: set<nat>) {
    && |order| == |logs| <= LOGSIZE && |order| < l.size
    && (forall b: nat :: b in logs <==> b in order) && (forall k :: 0 <= k < |order| ==> 0 <= order[k])
  }

  /** The operations between two commits make one transaction. */
  lemma GroupIsLoggable(l: LogDisk.Layout, sb: Super, s0: Fs, ops: seq<Op>, lo: nat, hi: nat, order: seq<int>)
    requires History(sb, s0, ops) && LogPlaced(l, sb) && lo <= hi <= |ops| && Lists(l, order, LogsOf(ops, lo, hi))
    ensures LogDisk.Loggable(l, order)
  {
    forall k | 0 <= k < |order| ensures LogDisk.IsHome(l, order[k]) {
      var b: nat := order[k];
      assert b in LogsOf(ops, lo, hi);
      LoggedIsHome(l, sb, s0, ops, lo, hi, b);
    }
  }

  /** Every block outside the log holds what it should in state s. */
  ghost predicate Holds(l: LogDisk.Layout, image: Image, d: LogDisk.Disk, s: Fs)
    requires |d| == l.total
  {
    forall b :: LogDisk.IsHome(l, b) ==> d[b] == image(s, b)
  }

  /** The cached blocks of a transaction that leads to t. */
  function Cached(image: Image, t: Fs): int -> LogDisk.Block {
    (b: int) => if b < 0 then image(t, 0) else image(t, b)
  }

  /** The disk between two commits, in state s. */
  ghost predicate Intact(l: LogDisk.Layout, image: Image, d: LogDisk.Disk, s: Fs) {
    LogDisk.LogOk(l, d) && LogDisk.Pending(l, d) == [] && Holds(l, image, d, s)
  }

  /** The disk after a commit to d that leads to t was cut off after cut writes, and a recovery, holds s. */
  ghost predicate RecoversTo(l: LogDisk.Layout, image: Image, d: LogDisk.Disk, t: Fs, order: seq<int>, cut: nat,
                             s: Fs) {
    && LogDisk.LogOk(l, d) && LogDisk.Loggable(l, order)
    && var ws := LogDisk.CommitWrites(l, d, order, Cached(image, t));
       cut <= |ws| ==>
         var e := LogDisk.Apply(d, ws[..cut]);
         LogDisk.LogOk(l, e) && Holds(l, image, LogDisk.Recovered(l, e), s)
  }

  /** A commit of operations lo to hi - 1, of however many processes, cut off after any number of its
      block writes and recovered: the disk holds the state before all of them if the header write had
      not landed, after all of them if it had. */
  lemma GroupIsAtomic(l: LogDisk.Layout, sb: Super, image: Image, d: LogDisk.Disk, s0: Fs, ops: seq<Op>, lo: nat,
                      hi: nat, order: seq<int>, cut: nat)
    requires History(sb, s0, ops) && LogPlaced(l, sb) && Local(sb, image) && lo <= hi <= |ops|
    requires Lists(l, order, LogsOf(ops, lo, hi)) && Intact(l, image, d, AfterOps(s0, ops, lo))
    ensures RecoversTo(l, image, d, AfterOps(s0, ops, hi), order, cut,
                       AfterOps(s0, ops, if cut <= |order| then lo else hi))
  {
    GroupIsLoggable(l, sb, s0, ops, lo, hi, order);
    var s, t := AfterOps(s0, ops, lo), AfterOps(s0, ops, hi);
    var ws := LogDisk.CommitWrites(l, d, order, Cached(image, t));
    if cut <= |ws| {
      var e := LogDisk.Apply(d, ws[..cut]);
      LogCrash.CommitInterrupted(l, d, order, Cached(image, t), cut, sb.inodestart);
      forall b | LogDisk.IsHome(l, b) ensures LogDisk.Recovered(l, e)[b] == image(if cut <= |order| then s else t, b) {
        LogCrash.CommitInterrupted(l, d, order, Cached(image, t), cut, b);
        if b !in order {
          UntouchedSame(sb, image, s0, ops, lo, hi, b);
        }
      }
    }
  }

  /** The same commit, run to its end. */
  lemma GroupCommits(l: LogDisk.Layout, sb: Super, image: Image, d: LogDisk.Disk, s0: Fs, ops: seq<Op>, lo: nat,
                     hi: nat, order: seq<int>)
    requires History(sb, s0, ops) && LogPlaced(l, sb) && Local(sb, image) && lo <= hi <= |ops|
    requires Lists(l, order, LogsOf(ops, lo, hi)) && Intact(l, image, d, AfterOps(s0, ops, lo))
    ensures LogDisk.Loggable(l, order)
    ensures Intact(l, image, LogDisk.Apply(d, LogDisk.CommitWrites(l, d, order, Cached(image, AfterOps(s0, ops, hi)))),
                   AfterOps(s0, ops, hi))
  {
    GroupIsLoggable(l, sb, s0, ops, lo, hi, order);
    LogCrash.CommitCompletes(l, d, order, Cached(image, AfterOps(s0, ops, hi)));
    forall b: nat | LogDisk.IsHome(l, b) && b !in order
      ensures image(AfterOps(s0, ops, hi), b) == image(AfterOps(s0, ops, lo), b)
    {
      UntouchedSame(sb, image, s0, ops, lo, hi, b);
    }
  }

  // Many commits.

  /** Commit j takes operations ends[j] to ends[j + 1] - 1 from disks[j] to disks[j + 1]. */
  ghost predicate CommitsOne(l: LogDisk.Layout, image: Image, s0: Fs, ops: seq<Op>, ends: seq<nat>,
                             orders: seq<seq<int>>, disks: seq<LogDisk.Disk>, j: nat)
    requires |ends| == |disks| == |orders| + 1 && j < |orders|
  {
    && ends[j] <= ends[j + 1] <= |ops| && Lists(l, orders[j], LogsOf(ops, ends[j], ends[j + 1]))
    && (LogDisk.LogOk(l, disks[j]) && LogDisk.Loggable(l, orders[j]) ==>
          disks[j + 1] == LogDisk.Apply(disks[j], LogDisk.CommitWrites(l, disks[j], orders[j],
                                                                       Cached(image, AfterOps(s0, ops, ends[j + 1])))))
  }

  ghost predicate Commits(l: LogDisk.Layout, image: Image, s0: Fs, ops: seq<Op>, ends: seq<nat>, orders: seq<seq<int>>,
                          disks: seq<LogDisk.Disk>) {
    && |ends| == |disks| == |orders| + 1 && ends[0] == 0 && Intact(l, image, disks[0], s0)
    && forall j: nat {:trigger CommitsOne(l, image, s0, ops, ends, orders, disks, j)} ::
         j < |orders| ==> CommitsOne(l, image, s0, ops, ends, orders, disks, j)
  }

  /** Between two commits the disk holds exactly what the operations committed so far have written. */
  lemma {:induction false} DisksIntact(l: LogDisk.Layout, sb: Super, image: Image, s0: Fs, ops: seq<Op>,
                                       ends: seq<nat>, orders: seq<seq<int>>, disks: seq<LogDisk.Disk>, m: nat)
    requires History(sb, s0, ops) && LogPlaced(l, sb) && Local(sb, image)
    requires Commits(l, image, s0, ops, ends, orders, disks) && m <= |orders|
    ensures ends[m] <= |ops| && Intact(l, image, disks[m], AfterOps(s0, ops, ends[m]))
  {
    if m > 0 {
      DisksIntact(l, sb, image, s0, ops, ends, orders, disks, m - 1);
      assert CommitsOne(l, image, s0, ops, ends, orders, disks, m - 1);
      GroupCommits(l, sb, image, disks[m - 1], s0, ops, ends[m - 1], ends[m], orders[m - 1]);
    }
  }

  // One filewrite among them.

  /** How many bytes the first n operations have written to file i. */
  function Progress(ops: seq<Op>, i: nat, n: nat): nat
    requires n <= |ops|
  {
    if n == 0 then 0
    else
      var u := ops[n - 1];
      Progress(ops, i, n - 1) + if u.Write? && u.file == i then |u.part| else 0
  }

  ghost predicate ChunkOk(ops: seq<Op>, i: nat, off: nat, addr: seq<byte>, j: nat)
    requires j < |ops|
  {
    var k := Progress(ops, i, j);
    ops[j].file == i ==>
      ops[j].Write? && ops[j].at == off + k && 0 < |ops[j].part| && k + |ops[j].part| <= |addr|
        && ops[j].part == addr[k..k + |ops[j].part|]
  }

  /** The operations on file i are the chunks of one filewrite of addr at off, in order. */
  ghost predicate Chunks(ops: seq<Op>, i: nat, off: nat, addr: seq<byte>) {
    forall j: nat {:trigger ChunkOk(ops, i, off, addr, j)} :: j < |ops| ==> ChunkOk(ops, i, off, addr, j)
  }

  /** File i of s is file i of s0 with the first k bytes of addr written at off. */
  ghost predicate Prefixed(s0: Fs, s: Fs, i: nat, off: nat, addr: seq<byte>, k: nat) {
    i < |s0.table| && i < |s.table| && k <= |addr| && Wrote(Content(s0, i), Content(s, i), off, addr[..k])
  }

  lemma PrefixOn(s0: Fs, s: Fs, t: Fs, i: nat, off: nat, addr: seq<byte>, k: nat, k': nat)
    requires Prefixed(s0, s, i, off, addr, k) && k < k' <= |addr| && i < |t.table|
    requires off + k <= |Content(s, i)| && Content(t, i) == Splice(Content(s, i), off + k, addr[k..k'])
    ensures Prefixed(s0, t, i, off, addr, k')
  {
    WroteMore(Content(s0, i), Content(s, i), Content(t, i), off, addr, k, k' - k);
  }

  lemma PrefixStays(s0: Fs, s: Fs, t: Fs, i: nat, off: nat, addr: seq<byte>, k: nat)
    requires Prefixed(s0, s, i, off, addr, k) && SameFile(s, t, i)
    ensures Prefixed(s0, t, i, off, addr, k)
  {
  }

  lemma WrittenFile(sb: Super, s: Fs, t: Fs, i: nat, at: nat, part: seq<byte>)
    requires Written(sb, s, t, i, at, part)
    ensures i < |s.table| && i < |t.table| && at <= |Content(s, i)| && Content(t, i) == Splice(Content(s, i), at, part)
  {
  }

  lemma OtherFile(sb: Super, u: Op, j: nat)
    requires Sound(sb, u) && j < |u.before.table| && j != u.file
    ensures SameFile(u.before, u.after, j)
  {
    if u.Truncate? {
      EmptiedFiles(sb, u.before, u.after, u.file);
    }
  }

  lemma NextPrefix(sb: Super, s0: Fs, s: Fs, t: Fs, i: nat, at: nat, part: seq<byte>, off: nat, addr: seq<byte>,
                   k: nat, k': nat)
    requires Written(sb, s, t, i, at, part) && Prefixed(s0, s, i, off, addr, k)
    requires k < k' <= |addr| && at == off + k && part == addr[k..k']
    ensures Prefixed(s0, t, i, off, addr, k')
  {
    WrittenFile(sb, s, t, i, at, part);
    PrefixOn(s0, s, t, i, off, addr, k, k');
  }

  lemma OneOpOn(sb: Super, s0: Fs, ops: seq<Op>, i: nat, off: nat, addr: seq<byte>, n: nat, n': nat)
    requires History(sb, s0, ops) && Chunks(ops, i, off, addr) && n' == n + 1 <= |ops|
    requires Prefixed(s0, AfterOps(s0, ops, n), i, off, addr, Progress(ops, i, n))
    ensures Prefixed(s0, AfterOps(s0, ops, n'), i, off, addr, Progress(ops, i, n'))
  {
    OpSound(sb, s0, ops, n);
    assert ChunkOk(ops, i, off, addr, n);
    var u := ops[n];
    if u.file == i {
      NextPrefix(sb, s0, u.before, u.after, i, u.at, u.part, off, addr, Progress(ops, i, n), Progress(ops, i, n'));
    } else {
      OtherFile(sb, u, i);
      PrefixStays(s0, u.before, u.after, i, off, addr, Progress(ops, i, n));
    }
  }

  /** File i after n operations: the old one with the chunks among them written. */
  lemma {:induction false} FileAfter(sb: Super, s0: Fs, ops: seq<Op>, i: nat, off: nat, addr: seq<byte>, n: nat)
    requires History(sb, s0, ops) && Chunks(ops, i, off, addr) && n <= |ops| && i < |s0.table|
    ensures Prefixed(s0, AfterOps(s0, ops, n), i, off, addr, Progress(ops, i, n))
  {
    if n > 0 {
      FileAfter(sb, s0, ops, i, off, addr, n - 1);
      OneOpOn(sb, s0, ops, i, off, addr, n - 1, n);
    }
  }

  /** A crash at any block write of any commit, with operations of several processes on several files
      in each: after recovery the disk holds the state after a whole number of commits, and in that
      state the file of a filewrite is the old one with a whole number of its chunks written. */
  lemma CrashLeavesPrefix(l: LogDisk.Layout, sb: Super, image: Image, s0: Fs, ops: seq<Op>, ends: seq<nat>,
                          orders: seq<seq<int>>, disks: seq<LogDisk.Disk>, m: nat, cut: nat, i: nat, off: nat,
                          addr: seq<byte>)
    requires History(sb, s0, ops) && LogPlaced(l, sb) && Local(sb, image)
    requires Commits(l, image, s0, ops, ends, orders, disks) && m < |orders|
    requires Chunks(ops, i, off, addr) && i < |s0.table|
    ensures var n := ends[if cut <= |orders[m]| then m else m + 1];
            && ends[m + 1] <= |ops| && n <= |ops|
            && RecoversTo(l, image, disks[m], AfterOps(s0, ops, ends[m + 1]), orders[m], cut, AfterOps(s0, ops, n))
            && Prefixed(s0, AfterOps(s0, ops, n), i, off, addr, Progress(ops, i, n))
  {
    DisksIntact(l, sb, image, s0, ops, ends, orders, disks, m);
    assert CommitsOne(l, image, s0, ops, ends, orders, disks, m);
    GroupIsAtomic(l, sb, image, disks[m], s0, ops, ends[m], ends[m + 1], orders[m], cut);
    FileAfter(sb, s0, ops, i, off, addr, ends[if cut <= |orders[m]| then m else m + 1]);
  }

  // The turns of filewrite are such operations.

  function OpsOf(turns: seq<Turn>, i: nat, off: nat, addr: seq<byte>): (ops: seq<Op>)
    ensures |ops| == |turns|
  {
    seq(|turns|, j requires 0 <= j < |turns| =>
      var u := turns[j];
      Write(i, off + u.at, if u.at <= u.upto <= |addr| then addr[u.at..u.upto] else [], u.before, u.after, u.logs))
  }

  lemma {:induction false} TurnsProgress(sb: Super, s0: Fs, i: nat, off: nat, addr: seq<byte>, turns: seq<Turn>, s: Fs,
                                         k: nat, n: nat)
    requires Turns(sb, s0, i, off, addr, turns, s, k) && n <= |turns|
    ensures Progress(OpsOf(turns, i, off, addr), i, n) == Reached(turns, n)
  {
    if n > 0 {
      TurnsProgress(sb, s0, i, off, addr, turns, s, k, n - 1);
      assert TurnOk(sb, s0, i, off, addr, turns, n - 1);
      OpOfTurn(turns, i, off, addr, n - 1);
    }
  }

  /** A run of filewrite by itself is a history of operations, its chunks in order. */
  lemma TurnsAreHistory(sb: Super, s0: Fs, i: nat, off: nat, addr: seq<byte>, turns: seq<Turn>, s: Fs, k: nat)
    requires AtRest(sb, s0) && Turns(sb, s0, i, off, addr, turns, s, k)
    ensures var ops := OpsOf(turns, i, off, addr); History(sb, s0, ops) && Chunks(ops, i, off, addr)
  {
    var ops := OpsOf(turns, i, off, addr);
    forall j: nat | j < |ops| ensures OpOk(sb, s0, ops, j) && ChunkOk(ops, i, off, addr, j) {
      assert TurnOk(sb, s0, i, off, addr, turns, j);
      TurnsProgress(sb, s0, i, off, addr, turns, s, k, j);
      TurnIsOp(sb, s0, i, off, addr, turns, j);
    }
  }

  lemma OpOfTurn(turns: seq<Turn>, i: nat, off: nat, addr: seq<byte>, j: nat)
    requires j < |turns| && turns[j].at <= turns[j].upto <= |addr|
    ensures var u := turns[j];
            OpsOf(turns, i, off, addr)[j] == Write(i, off + u.at, addr[u.at..u.upto], u.before, u.after, u.logs)
  {
  }

  lemma StateOfTurns(s0: Fs, turns: seq<Turn>, i: nat, off: nat, addr: seq<byte>, j: nat)
    requires j <= |turns|
    ensures AfterOps(s0, OpsOf(turns, i, off, addr), j) == StateAfter(s0, turns, j)
  {
  }

  lemma TurnIsOp(sb: Super, s0: Fs, i: nat, off: nat, addr: seq<byte>, turns: seq<Turn>, j: nat)
    requires j < |turns| && TurnOk(sb, s0, i, off, addr, turns, j)
    requires Progress(OpsOf(turns, i, off, addr), i, j) == Reached(turns, j)
    ensures var ops := OpsOf(turns, i, off, addr); OpOk(sb, s0, ops, j) && ChunkOk(ops, i, off, addr, j)
  {
    OpOfTurn(turns, i, off, addr, j);
    StateOfTurns(s0, turns, i, off, addr, j);
  }

  /** A turn of filewrite stays within the reservation that begin_op made for it. */
  lemma TurnWithinBudget(sb: Super, s: Fs, t: Fs, i: nat, off: nat, part: seq<byte>, logs: set<nat>, size: nat,
                         procs: nat, before: seq<LogReserve.Step>, x: LogReserve.State, p: nat,
                         run: seq<LogReserve.Step>, y: LogReserve.State, b: nat)
    requires ChunkDone(sb, s, t, i, off, part, logs) && b in logs
    requires LogReserve.Runs(LogReserve.Start(size, procs), before, x) && LogReserve.Enabled(x, LogReserve.Begin(p))
    requires LogReserve.Runs(LogReserve.After(x, LogReserve.Begin(p)), run, y) && LogReserve.KeepsTo(run, p, logs)
    ensures p < |y.procs| && y.procs[p].Inside? && LogReserve.Covered(y, p, b)
  {
    LogReserve.PlanFitsBudget(size, procs, before, x, p, run, y, logs, b);
  }
}
