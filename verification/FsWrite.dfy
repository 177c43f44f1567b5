/** Writing a file through a descriptor, in chunks that each fit one log reservation. */
module FsWrite {
  import opened Basics
  import opened Params
  import opened FsLayout
  import opened FsState
  import opened FsFile
  import opened FsGrow
  import opened FsChunk
  import opened FsOps

  /** An open file: an inode and a position. */
  class File {
    const ip: Inode
    var off: uint

    constructor (ip: Inode)
      ensures this.ip == ip && off == 0
    {
      this.ip := ip;
      off := 0;
    }
  }

  /** Between operations: nothing logged yet, and the inode in memory and on disk in step. */
  ghost predicate Ready(fs: FileSystem, ip: Inode)
    reads fs, ip
  {
    fs.Valid(ip) && AtRest(fs.sb, fs.state) && fs.Synced(ip) && ip.kind != T_DEV && fs.logged == {}
  }

  /** What a turn that logged logs made of file i of s. */
  ghost predicate ChunkDone(sb: Super, s: Fs, t: Fs, i: nat, off: nat, part: seq<byte>, logs: set<nat>) {
    Written(sb, s, t, i, off, part) && OpLogged(logs, {}, sb, s, t, i, off, off + |part|) && |logs| <= MAXOPBLOCKS
  }

  lemma ChunkSize(sb: Super, s: Fs, t: Fs, i: nat, off: nat, part: seq<byte>, logs: set<nat>)
    requires AtRest(sb, s) && Written(sb, s, t, i, off, part) && |part| <= CHUNK
    requires OpLogged(logs, {}, sb, s, t, i, off, off + |part|)
    ensures |logs| <= MAXOPBLOCKS
  {
    assert |OpLogs(sb, s, t, i, off, off + |part|)| <= MAXOPBLOCKS by {
      ChunkFits(sb, s, t, i, off, part, sb.size);
    }
    forall b: nat ensures b in logs <==> b in OpLogs(sb, s, t, i, off, off + |part|) {
      assert OpBit(logs, {}, sb, s, t, i, off, off + |part|, b);
    }
    assert logs == OpLogs(sb, s, t, i, off, off + |part|);
  }

  /** What writei refuses: to start past the end of the file, or to end past the largest file. */
  predicate Refused(size: nat, off: nat, n: nat) {
    off > size || off + n > MAXFILE * BSIZE
  }

  /** The write is refused, or enough blocks are free for it. */
  ghost predicate Feasible(s: Fs, i: nat, size: nat, off: nat, n: nat) {
    Refused(size, off, n) || Enough(s, i, Extent(off + n))
  }

  /** Its test for a sum that wraps refuses nothing else. */
  lemma BadIsRefused(fs: FileSystem, size: nat, off: uint, n: uint)
    ensures fs.BadWrite(size, off, n) <==> Refused(size, off, n)
  {
    assert off + n < UINT ==> (off + n) % UINT == off + n;
  }

  /** writei, between begin_op and end_op. */
  method WriteOnce(fs: FileSystem, ip: Inode, part: seq<byte>, off: uint)
    returns (ok: bool, r: int, ghost logs: set<nat>)
    requires Ready(fs, ip) && |part| <= CHUNK
    modifies fs, ip`addrs, ip`size
    ensures ok == Feasible(old(fs.state), ip.inum, old(ip.size), off, |part|)
    ensures ok ==> Ready(fs, ip) && (r < 0 <==> Refused(old(ip.size), off, |part|))
    ensures ok && r < 0 ==> fs.state == old(fs.state) && ip.size == old(ip.size) && logs == {}
    ensures ok && r >= 0 ==> r == |part| && ChunkDone(fs.sb, old(fs.state), fs.state, ip.inum, off, part, logs)
  {
    logs := {};
    BadIsRefused(fs, ip.size, off, |part|);
    ok, r := fs.Writei(ip, part, off);
    if ok && r >= 0 {
      ChunkSize(fs.sb, old(fs.state), fs.state, ip.inum, off, part, fs.logged);
      logs, fs.logged := fs.logged, {};
    }
  }

  /** One turn of filewrite. It logs exactly what the write calls for, which is no more than an
      operation may; it is refused exactly as writei refuses it, and runs out of blocks exactly if
      too few are free for it. */
  method WriteChunk(fs: FileSystem, f: File, part: seq<byte>) returns (ok: bool, r: int, ghost logs: set<nat>)
    requires Ready(fs, f.ip) && |part| <= CHUNK
    modifies fs, f`off, f.ip`addrs, f.ip`size
    ensures ok == Feasible(old(fs.state), f.ip.inum, old(f.ip.size), old(f.off), |part|)
    ensures ok ==> Ready(fs, f.ip) && (r < 0 <==> Refused(old(f.ip.size), old(f.off), |part|))
    ensures ok && r < 0 ==>
              f.off == old(f.off) && f.ip.size == old(f.ip.size) && fs.state == old(fs.state) && logs == {}
    ensures ok && r >= 0 ==> r == |part| && f.off == old(f.off) + r
    ensures ok && r >= 0 ==> ChunkDone(fs.sb, old(fs.state), fs.state, f.ip.inum, old(f.off), part, logs)
  {
    ok, r, logs := WriteOnce(fs, f.ip, part, f.off);
    if ok && r > 0 {
      f.off := f.off + r;
    }
  }

  lemma ChunkOn(s0: Fs, s: Fs, t: Fs, i: nat, off: nat, addr: seq<byte>, k: nat, n: nat)
    requires k + n <= |addr| && 0 < n && WroteFile(s0, s, i, off, addr, k) && SameFiles(s, t, i)
    requires off + k <= |Content(s, i)| && Content(t, i) == Splice(Content(s, i), off + k, addr[k..k + n])
    ensures WroteFile(s0, t, i, off, addr, k + n)
  {
    SameFilesTrans(s0, s, t, i);
    WroteMore(Content(s0, i), Content(s, i), Content(t, i), off, addr, k, n);
  }

  // A whole filewrite.

  /** One turn that wrote bytes [at, upto) of the caller's. */
  datatype Turn = Turn(before: Fs, after: Fs, at: nat, upto: nat, logs: set<nat>)

  /** The state after the first j turns, and how many bytes they have written. */
  function StateAfter(s0: Fs, turns: seq<Turn>, j: nat): Fs
    requires j <= |turns|
  {
    if j == 0 then s0 else turns[j - 1].after
  }

  function Reached(turns: seq<Turn>, j: nat): nat
    requires j <= |turns|
  {
    if j == 0 then 0 else turns[j - 1].upto
  }

  /** The j-th turn of a filewrite of addr to file i at off: one operation, that took up where the
      turn before it left off. */
  ghost predicate TurnOk(sb: Super, s0: Fs, i: nat, off: nat, addr: seq<byte>, turns: seq<Turn>, j: nat)
    requires j < |turns|
  {
    var u := turns[j];
    && u.before == StateAfter(s0, turns, j) && u.at == Reached(turns, j)
    && u.at < u.upto <= |addr|
    && ChunkDone(sb, u.before, u.after, i, off + u.at, addr[u.at..u.upto], u.logs)
  }

  /** The turns of a filewrite that began in s0 and has reached s with k bytes written. */
  ghost predicate Turns(sb: Super, s0: Fs, i: nat, off: nat, addr: seq<byte>, turns: seq<Turn>, s: Fs, k: nat) {
    && (forall j: nat {:trigger TurnOk(sb, s0, i, off, addr, turns, j)} ::
          j < |turns| ==> TurnOk(sb, s0, i, off, addr, turns, j))
    && s == StateAfter(s0, turns, |turns|) && k == Reached(turns, |turns|)
  }

  lemma LastTurn(sb: Super, s0: Fs, i: nat, off: nat, addr: seq<byte>, turns: seq<Turn>, u: Turn)
    requires u.before == StateAfter(s0, turns, |turns|) && u.at == Reached(turns, |turns|) && u.at < u.upto <= |addr|
    requires ChunkDone(sb, u.before, u.after, i, off + u.at, addr[u.at..u.upto], u.logs)
    ensures TurnOk(sb, s0, i, off, addr, turns + [u], |turns|)
  {
    assert (turns + [u])[|turns|] == u && StateAfter(s0, turns + [u], |turns|) == u.before;
  }

  lemma OneTurn(sb: Super, s0: Fs, i: nat, off: nat, addr: seq<byte>, turns: seq<Turn>, s: Fs, k: nat, t: Fs, n: nat,
                at: nat, logs: set<nat>)
    requires Turns(sb, s0, i, off, addr, turns, s, k) && k + n <= |addr| && 0 < n && at == off + k
    requires ChunkDone(sb, s, t, i, at, addr[k..k + n], logs)
    ensures Turns(sb, s0, i, off, addr, turns + [Turn(s, t, k, k + n, logs)], t, k + n)
    ensures i < |t.table| && at + n <= t.table[i].size
  {
    var u := Turn(s, t, k, k + n, logs);
    var more := turns + [u];
    LastTurn(sb, s0, i, off, addr, turns, u);
    forall j: nat | j < |more| ensures TurnOk(sb, s0, i, off, addr, more, j) {
      if j < |turns| {
        assert TurnOk(sb, s0, i, off, addr, turns, j);
        EarlierTurn(sb, s0, i, off, addr, turns, more, j);
      }
    }
  }

  lemma EarlierTurn(sb: Super, s0: Fs, i: nat, off: nat, addr: seq<byte>, turns: seq<Turn>, more: seq<Turn>, j: nat)
    requires turns <= more && j < |turns| && TurnOk(sb, s0, i, off, addr, turns, j)
    ensures TurnOk(sb, s0, i, off, addr, more, j)
  {
    assert more[j] == turns[j] && (j > 0 ==> more[j - 1] == turns[j - 1]);
  }

  lemma TurnOn(sb: Super, s0: Fs, i: nat, off: nat, addr: seq<byte>, u: Turn)
    requires u.at < u.upto <= |addr| && WroteFile(s0, u.before, i, off, addr, u.at)
    requires ChunkDone(sb, u.before, u.after, i, off + u.at, addr[u.at..u.upto], u.logs)
    ensures WroteFile(s0, u.after, i, off, addr, u.upto)
  {
    ChunkOn(s0, u.before, u.after, i, off, addr, u.at, u.upto - u.at);
  }

  lemma NothingWrote(s: Fs, i: nat, off: nat, addr: seq<byte>)
    requires i < |s.table|
    ensures WroteFile(s, s, i, off, addr, 0)
  {
    forall j | 0 <= j < |s.table| && j != i ensures SameFile(s, s, j) {
    }
  }

  /** What the first m turns add up to. */
  lemma {:induction false} TurnsWrote(sb: Super, s0: Fs, i: nat, off: nat, addr: seq<byte>, turns: seq<Turn>, s: Fs,
                                      k: nat, m: nat)
    requires Turns(sb, s0, i, off, addr, turns, s, k) && m <= |turns| && i < |s0.table|
    ensures Reached(turns, m) <= |addr| && WroteFile(s0, StateAfter(s0, turns, m), i, off, addr, Reached(turns, m))
  {
    if m == 0 {
      NothingWrote(s0, i, off, addr);
    } else {
      TurnsWrote(sb, s0, i, off, addr, turns, s, k, m - 1);
      assert TurnOk(sb, s0, i, off, addr, turns, m - 1);
      TurnOn(sb, s0, i, off, addr, turns[m - 1]);
    }
  }

  lemma TurnsFit(sb: Super, s0: Fs, i: nat, off: nat, addr: seq<byte>, turns: seq<Turn>, s: Fs, k: nat)
    requires Turns(sb, s0, i, off, addr, turns, s, k)
    ensures forall j :: 0 <= j < |turns| ==> |turns[j].logs| <= MAXOPBLOCKS
  {
    forall j | 0 <= j < |turns| ensures |turns[j].logs| <= MAXOPBLOCKS {
      assert TurnOk(sb, s0, i, off, addr, turns, j);
    }
  }

  // How far a filewrite gets.

  /** How many bytes the next turn takes of those that are left. */
  function ChunkOf(left: nat): nat { if left > CHUNK then CHUNK else left }

  /** How many of n bytes for position off of a file of the given size are accepted: none past its
      end; all if they fit the largest file; otherwise those of the whole chunks that fit. */
  function Accepted(size: nat, off: nat, n: nat): (r: nat)
    ensures r <= n && (r > 0 ==> off <= size && off + r <= MAXFILE * BSIZE)
  {
    if off > size || off > MAXFILE * BSIZE then 0
    else if off + n <= MAXFILE * BSIZE then n
    else (MAXFILE * BSIZE - off) / CHUNK * CHUNK
  }

  lemma WholeParts(c: nat, left: nat, d: nat)
    requires d > 0
    ensures c * d <= left <==> c <= left / d
    ensures c * d <= left / d * d <==> c <= left / d
  {
    var q := left / d;
    assert left == d * q + left % d;
    if c <= q {
      assert q * d == c * d + (q - c) * d;
    } else {
      Multiple(d, c - q);
      assert c * d == q * d + d * (c - q);
    }
  }

  /** After c whole chunks, the next one is among those accepted exactly if writei does not refuse
      it; if it is not, all that is accepted has been written. */
  lemma AcceptedNext(size: nat, off: nat, n: nat, c: nat)
    requires c * CHUNK < n && c * CHUNK <= Accepted(size, off, n)
    ensures var i, next := c * CHUNK, c * CHUNK + ChunkOf(n - c * CHUNK);
            && (next == n || next == (c + 1) * CHUNK)
            && ((i > 0 || off <= size) && off + next <= MAXFILE * BSIZE <==> next <= Accepted(size, off, n))
            && (next <= Accepted(size, off, n) || i == Accepted(size, off, n))
  {
    var left := if off <= MAXFILE * BSIZE then MAXFILE * BSIZE - off else 0;
    assert (c + 1) * CHUNK == c * CHUNK + CHUNK;
    WholeParts(c, left, CHUNK);
    WholeParts(c + 1, left, CHUNK);
  }

  /** Enough blocks are free for all that is accepted. */
  ghost predicate EnoughInAll(s: Fs, i: nat, size: nat, off: nat, n: nat) {
    Accepted(size, off, n) == 0 || Enough(s, i, Extent(off + Accepted(size, off, n)))
  }

  /** The file after m turns has grown by no more than it needs. */
  lemma {:induction false} TurnsGrown(sb: Super, s0: Fs, i: nat, off: nat, addr: seq<byte>, turns: seq<Turn>, s: Fs,
                                      k: nat, m: nat)
    requires Turns(sb, s0, i, off, addr, turns, s, k) && m <= |turns| && Good(sb, s0) && i < sb.ninodes
    ensures Grown(s0, StateAfter(s0, turns, m), i) && Thrifty(s0, StateAfter(s0, turns, m), i)
  {
    if m == 0 {
      NotGrown(sb, s0, i);
    } else {
      TurnsGrown(sb, s0, i, off, addr, turns, s, k, m - 1);
      assert TurnOk(sb, s0, i, off, addr, turns, m - 1);
      GrownTrans(sb, s0, turns[m - 1].before, turns[m - 1].after, i);
    }
  }

  /** A turn that is accepted and finds too few blocks: there were too few for all that is accepted. */
  lemma TurnShort(sb: Super, s0: Fs, i: nat, off: nat, addr: seq<byte>, turns: seq<Turn>, s: Fs, k: nat, upto: nat)
    requires Turns(sb, s0, i, off, addr, turns, s, k) && Good(sb, s0) && Good(sb, s) && i < sb.ninodes
    requires off + k <= upto && !Enough(s, i, Extent(upto)) && i < |s0.table|
    requires upto <= off + Accepted(s0.table[i].size, off, |addr|) && off < upto
    ensures !EnoughInAll(s0, i, s0.table[i].size, off, |addr|)
  {
    TurnsGrown(sb, s0, i, off, addr, turns, s, k, |turns|);
    ShortAfter(sb, s0, s, i, Extent(upto));
  }

  /** When all that is accepted is written, there were enough blocks for it. */
  lemma TurnsHadEnough(sb: Super, s0: Fs, i: nat, off: nat, addr: seq<byte>, turns: seq<Turn>, s: Fs, k: nat)
    requires Turns(sb, s0, i, off, addr, turns, s, k) && Good(sb, s0) && AtRest(sb, s) && i < sb.ninodes
    requires i < |s0.table| && k == Accepted(s0.table[i].size, off, |addr|)
    requires k > 0 ==> i < |s.table| && off + k <= s.table[i].size
    ensures EnoughInAll(s0, i, s0.table[i].size, off, |addr|)
  {
    TurnsGrown(sb, s0, i, off, addr, turns, s, k, |turns|);
    if k > 0 {
      TookEnough(sb, s0, s, i, off + k);
    }
  }

  /** Between two turns, the first i bytes written. */
  ghost predicate SoFar(fs: FileSystem, f: File, s0: Fs, off0: nat, addr: seq<byte>, i: nat, turns: seq<Turn>)
    reads fs, f, f.ip
  {
    && Ready(fs, f.ip) && f.off == off0 + i && (i > 0 ==> f.off <= f.ip.size)
    && Turns(fs.sb, s0, f.ip.inum, off0, addr, turns, fs.state, i)
  }

  method WriteNextChunk(fs: FileSystem, f: File, addr: seq<byte>, i: nat, ghost s0: Fs, ghost off0: nat,
                        ghost turns: seq<Turn>)
    returns (ok: bool, r: int, i': nat, ghost turns': seq<Turn>)
    requires i < |addr| && SoFar(fs, f, s0, off0, addr, i, turns)
    modifies fs, f`off, f.ip`addrs, f.ip`size
    ensures ok == Feasible(old(fs.state), f.ip.inum, old(f.ip.size), old(f.off), ChunkOf(|addr| - i))
    ensures ok ==> i' <= |addr| && SoFar(fs, f, s0, off0, addr, i', turns')
    ensures ok ==> (r < 0 <==> Refused(old(f.ip.size), old(f.off), ChunkOf(|addr| - i)))
    ensures ok && r < 0 ==> f.ip.size == old(f.ip.size)
    ensures ok ==> i' == (if r < 0 then i else i + ChunkOf(|addr| - i)) && |turns'| == |turns| + if r < 0 then 0 else 1
  {
    var n1 := |addr| - i;
    if n1 > CHUNK { n1 := CHUNK; }
    i', turns' := i, turns;
    ghost var logs;
    var part := addr[i..i + n1];
    assert |part| == n1 == ChunkOf(|addr| - i);
    ok, r, logs := WriteChunk(fs, f, part);
    if ok && r >= 0 {
      OneTurn(fs.sb, s0, f.ip.inum, off0, addr, turns, old(fs.state), i, fs.state, n1, old(f.off), logs);
      i', turns' := i + n1, turns + [Turn(old(fs.state), fs.state, i, i + n1, logs)];
    }
  }

  /** Where the loop of filewrite can stand after c turns: at the end, or behind c whole chunks, all accepted. */
  ghost predicate OnTheWay(f: File, size0: nat, off0: nat, n: nat, i: nat, c: nat)
    reads f, f.ip
  {
    i <= Accepted(size0, off0, n) && (i == n || i == c * CHUNK) && (i == 0 ==> f.ip.size == size0)
  }

  method WriteTurn(fs: FileSystem, f: File, addr: seq<byte>, i: nat, ghost s0: Fs, ghost off0: nat, ghost size0: nat,
                   ghost turns: seq<Turn>)
    returns (ok: bool, r: int, i': nat, ghost turns': seq<Turn>)
    requires i < |addr| && SoFar(fs, f, s0, off0, addr, i, turns) && OnTheWay(f, size0, off0, |addr|, i, |turns|)
    requires Good(fs.sb, s0) && f.ip.inum < |s0.table| && s0.table[f.ip.inum].size == size0
    modifies fs, f`off, f.ip`addrs, f.ip`size
    ensures !ok ==> !EnoughInAll(s0, f.ip.inum, size0, off0, |addr|)
    ensures ok ==> i' <= |addr| && SoFar(fs, f, s0, off0, addr, i', turns')
    ensures ok ==> OnTheWay(f, size0, off0, |addr|, i', |turns'|)
    ensures ok ==> if r < 0 then i' == Accepted(size0, off0, |addr|) else i < i'
  {
    AcceptedNext(size0, off0, |addr|, |turns|);
    ok, r, i', turns' := WriteNextChunk(fs, f, addr, i, s0, off0, turns);
    if !ok {
      TurnShort(fs.sb, s0, f.ip.inum, off0, addr, turns, old(fs.state), i, off0 + i + ChunkOf(|addr| - i));
    }
  }

  /** filewrite on an inode: a run of turns, each an operation that logs no more than it may. It
      comes to an end exactly if enough blocks are free for all that is accepted of the bytes. The
      file then has exactly those spliced in at the old position, and the position moved by as much;
      all of them are written, and n returned, exactly if the position is within the file and the
      end within the largest file. */
  method FileWrite(fs: FileSystem, f: File, addr: seq<byte>)
    returns (ok: bool, r: int, ghost done: nat, ghost turns: seq<Turn>)
    requires Ready(fs, f.ip)
    modifies fs, f`off, f.ip`addrs, f.ip`size
    ensures ok == EnoughInAll(old(fs.state), f.ip.inum, old(f.ip.size), old(f.off), |addr|)
    ensures ok ==> done == Accepted(old(f.ip.size), old(f.off), |addr|)
    ensures ok ==> SoFar(fs, f, old(fs.state), old(f.off), addr, done, turns)
    ensures ok ==> WroteFile(old(fs.state), fs.state, f.ip.inum, old(f.off), addr, done)
    ensures ok ==> forall j :: 0 <= j < |turns| ==> |turns[j].logs| <= MAXOPBLOCKS
    ensures ok ==> r == if done == |addr| then |addr| else -1
    ensures ok ==> (done == |addr| <==>
                    addr == [] || (old(f.off) <= old(f.ip.size) && old(f.off) + |addr| <= MAXFILE * BSIZE))
  {
    var n, i := |addr|, 0;
    done, turns := 0, [];
    ghost var s0, off0, size0, inum := fs.state, f.off, f.ip.size, f.ip.inum;
    while i < n
      invariant 0 <= i <= n && done == i && OnTheWay(f, size0, off0, n, i, |turns|)
      invariant SoFar(fs, f, s0, off0, addr, i, turns)
    {
      ok, r, i, turns := WriteTurn(fs, f, addr, i, s0, off0, size0, turns);
      if !ok { return; }
      done := i;
      if r < 0 {
        break;
      }
    }
    ok := true;
    r := if i == n then n else -1;
    TurnsWrote(fs.sb, s0, inum, off0, addr, turns, fs.state, i, |turns|);
    TurnsFit(fs.sb, s0, inum, off0, addr, turns, fs.state, i);
    TurnsHadEnough(fs.sb, s0, inum, off0, addr, turns, fs.state, i);
  }
}
