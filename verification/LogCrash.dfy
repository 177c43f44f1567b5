/** Crash atomicity of the log: a transaction reaches the home blocks whole or not at all,
    wherever commit stops and however often recovery is itself interrupted. */
module LogCrash {
  import opened LogDisk

  predicate Touches(ws: seq<Write>, b: nat) {
    exists i :: 0 <= i < |ws| && ws[i].at == b
  }

  lemma {:induction false} Untouched(d: Disk, ws: seq<Write>, b: nat)
    requires InRange(d, ws) && b < |d| && !Touches(ws, b)
    ensures Apply(d, ws)[b] == d[b]
  {
    if ws != [] {
      var rest := ws[..|ws| - 1];
      assert ws[|ws| - 1].at != b;
      assert forall i :: 0 <= i < |rest| ==> rest[i] == ws[i];
      Untouched(d, rest, b);
    }
  }

  /** A block that ws writes ends up the same whatever it held before. */
  lemma {:induction false} Overwritten(d: Disk, e: Disk, ws: seq<Write>, b: nat)
    requires |d| == |e| && InRange(d, ws) && b < |d| && Touches(ws, b)
    ensures Apply(d, ws)[b] == Apply(e, ws)[b]
  {
    var last := ws[|ws| - 1];
    if last.at != b {
      var i :| 0 <= i < |ws| && ws[i].at == b;
      var rest := ws[..|ws| - 1];
      assert rest[i].at == b;
      Overwritten(d, e, rest, b);
    }
  }

  /** Starting over after any prefix gives the same disk as never having stopped. */
  lemma RedoAfterPrefix(d: Disk, ws: seq<Write>, k: nat)
    requires InRange(d, ws) && k <= |ws|
    ensures InRange(d, ws[..k]) && Apply(Apply(d, ws[..k]), ws) == Apply(d, ws)
  {
    var e := Apply(d, ws[..k]);
    forall b: nat | b < |d| ensures Apply(e, ws)[b] == Apply(d, ws)[b] {
      if Touches(ws, b) {
        Overwritten(e, d, ws, b);
      } else {
        Untouched(e, ws, b);
        Untouched(d, ws, b);
        Untouched(d, ws[..k], b);
      }
    }
  }

  predicate SameLog(l: Layout, d: Disk, e: Disk) {
    && |d| == |e| && Fits(l, d)
    && forall b :: l.start <= b < l.start + l.size ==> d[b] == e[b]
  }

  lemma SameRecovery(l: Layout, d: Disk, e: Disk)
    requires LogOk(l, d) && SameLog(l, d, e)
    ensures LogOk(l, e) && RecoverWrites(l, e) == RecoverWrites(l, d)
  {
    assert Pending(l, d) == e[l.start][1..1 + HeaderN(e[l.start])];
  }

  lemma InstallKeepsLog(l: Layout, d: Disk, k: nat)
    requires LogOk(l, d) && k <= |Pending(l, d)|
    ensures SameLog(l, d, Apply(d, RecoverWrites(l, d)[..k]))
  {
    var ws := RecoverWrites(l, d)[..k];
    forall b: nat | l.start <= b < l.start + l.size ensures Apply(d, ws)[b] == d[b] {
      Untouched(d, ws, b);
    }
  }

  lemma ClearedHeader(l: Layout, d: Disk)
    requires LogOk(l, d)
    ensures Recovered(l, d)[l.start] == HeaderBlock(d[l.start], [])
    ensures LogOk(l, Recovered(l, d)) && Pending(l, Recovered(l, d)) == []
  {
    var ws := RecoverWrites(l, d);
    var install := InstallWrites(l, d, Pending(l, d));
    ApplyMore(d, install, HeadWrite(l, d, []));
  }

  /** With nothing pending, recovery only rewrites the header. */
  lemma IdleRecovery(l: Layout, d: Disk, b: nat)
    requires LogOk(l, d) && Pending(l, d) == [] && b < |d| && b != l.start
    ensures Recovered(l, d)[b] == d[b]
  {
    Untouched(d, RecoverWrites(l, d), b);
  }

  /** Stopping recovery after any of its writes and recovering again gives the same home blocks. */
  lemma RecoveryInterrupted(l: Layout, d: Disk, k: nat)
    requires LogOk(l, d) && k <= |RecoverWrites(l, d)|
    ensures var e := Apply(d, RecoverWrites(l, d)[..k]);
            && LogOk(l, e)
            && (forall b :: IsHome(l, b) ==> Recovered(l, e)[b] == Recovered(l, d)[b])
  {
    var ws := RecoverWrites(l, d);
    if k < |ws| {
      var e := Apply(d, ws[..k]);
      InstallKeepsLog(l, d, k);
      SameRecovery(l, d, e);
      RedoAfterPrefix(d, ws, k);
    } else {
      assert ws[..k] == ws;
      ClearedHeader(l, d);
      forall b | IsHome(l, b) ensures Recovered(l, Recovered(l, d))[b] == Recovered(l, d)[b] {
        IdleRecovery(l, Recovered(l, d), b);
      }
    }
  }

  /** The disk at the commit point: slots and header written, nothing installed. */
  function Committed(l: Layout, d: Disk, blocks: seq<int>, data: int -> Block): (d': Disk)
    requires Fits(l, d) && Loggable(l, blocks)
    ensures |d'| == |d|
  {
    Apply(d, LogWrites(l, blocks, data) + [HeadWrite(l, d, blocks)])
  }

  lemma {:induction false} LogWritten(l: Layout, d: Disk, blocks: seq<int>, data: int -> Block, k: nat, b: nat)
    requires Fits(l, d) && Loggable(l, blocks) && k <= |blocks| && b < |d|
    ensures InRange(d, LogWrites(l, blocks, data)[..k])
    ensures Apply(d, LogWrites(l, blocks, data)[..k])[b] ==
            if l.start < b <= l.start + k then data(blocks[b - l.start - 1]) else d[b]
  {
    var ws := LogWrites(l, blocks, data);
    if k > 0 {
      LogWritten(l, d, blocks, data, k - 1, b);
      assert ws[..k] == ws[..k - 1] + [ws[k - 1]];
      assert ws[k - 1] == Write(l.start + k, data(blocks[k - 1]));
      OneMore(d, ws[..k - 1], ws[k - 1], b);
    }
  }

  lemma OneMore(d: Disk, ws: seq<Write>, w: Write, b: nat)
    requires InRange(d, ws) && w.at < |d| && b < |d|
    ensures InRange(d, ws + [w])
    ensures Apply(d, ws + [w])[b] == if b == w.at then w.data else Apply(d, ws)[b]
  {
    ApplyMore(d, ws, w);
  }

  lemma CommittedDisk(l: Layout, d: Disk, blocks: seq<int>, data: int -> Block)
    requires Fits(l, d) && Loggable(l, blocks)
    ensures var c := Committed(l, d, blocks, data);
            && LogOk(l, c) && Pending(l, c) == blocks && c[l.start] == HeaderBlock(d[l.start], blocks)
            && (forall t :: 0 <= t < |blocks| ==> c[l.start + t + 1] == data(blocks[t]))
            && (forall b :: IsHome(l, b) ==> c[b] == d[b])
  {
    var ws := LogWrites(l, blocks, data);
    assert ws[..|blocks|] == ws;
    ApplyMore(d, ws, HeadWrite(l, d, blocks));
    var c := Committed(l, d, blocks, data);
    forall t | 0 <= t < |blocks| ensures c[l.start + t + 1] == data(blocks[t]) {
      LogWritten(l, d, blocks, data, |blocks|, l.start + t + 1);
    }
    forall b | IsHome(l, b) ensures c[b] == d[b] {
      LogWritten(l, d, blocks, data, |blocks|, b);
    }
    assert c[l.start][1..1 + |blocks|] == blocks;
  }

  /** After the commit point, commit does exactly what recovery would do. */
  lemma CommitIsRecovery(l: Layout, d: Disk, blocks: seq<int>, data: int -> Block)
    requires Fits(l, d) && Loggable(l, blocks) && blocks != []
    ensures LogOk(l, Committed(l, d, blocks, data))
    ensures CommitWrites(l, d, blocks, data) ==
            LogWrites(l, blocks, data) + [HeadWrite(l, d, blocks)] + RecoverWrites(l, Committed(l, d, blocks, data))
  {
    CommittedDisk(l, d, blocks, data);
    var c := Committed(l, d, blocks, data);
    assert InstallWrites(l, c, blocks) ==
           seq(|blocks|, t requires 0 <= t < |blocks| => Write(blocks[t], data(blocks[t])));
  }

  /** What a transaction makes of block b. */
  function Updated(d: Disk, blocks: seq<int>, data: int -> Block, b: nat): Block
    requires b < |d|
  {
    if b in blocks then data(b) else d[b]
  }

  lemma {:induction false} Installed(l: Layout, c: Disk, blocks: seq<int>, data: int -> Block, k: nat, b: nat)
    requires Fits(l, c) && Loggable(l, blocks) && k <= |blocks| && b < |c|
    requires forall t :: 0 <= t < |blocks| ==> c[l.start + t + 1] == data(blocks[t])
    ensures InRange(c, InstallWrites(l, c, blocks)[..k])
    ensures Apply(c, InstallWrites(l, c, blocks)[..k])[b] == Updated(c, blocks[..k], data, b)
  {
    var ws := InstallWrites(l, c, blocks);
    if k > 0 {
      Installed(l, c, blocks, data, k - 1, b);
      ApplyMore(c, ws[..k - 1], ws[k - 1]);
      assert ws[..k] == ws[..k - 1] + [ws[k - 1]];
      assert blocks[..k] == blocks[..k - 1] + [blocks[k - 1]];
    }
  }

  /** Recovering from the commit point installs the whole transaction. */
  lemma CommittedRecovers(l: Layout, d: Disk, blocks: seq<int>, data: int -> Block, b: nat)
    requires Fits(l, d) && Loggable(l, blocks) && IsHome(l, b)
    ensures LogOk(l, Committed(l, d, blocks, data))
    ensures Recovered(l, Committed(l, d, blocks, data))[b] == Updated(d, blocks, data, b)
  {
    CommittedDisk(l, d, blocks, data);
    var c := Committed(l, d, blocks, data);
    var install := InstallWrites(l, c, blocks);
    ApplyMore(c, install, HeadWrite(l, c, []));
    assert install[..|blocks|] == install && blocks[..|blocks|] == blocks;
    Installed(l, c, blocks, data, |blocks|, b);
  }

  /** Before the header is written the transaction leaves no trace in the home blocks. */
  lemma BeforeCommitPoint(l: Layout, d: Disk, blocks: seq<int>, data: int -> Block, k: nat, b: nat)
    requires LogOk(l, d) && Pending(l, d) == [] && Loggable(l, blocks) && blocks != [] && k <= |blocks|
    requires IsHome(l, b)
    ensures var e := Apply(d, CommitWrites(l, d, blocks, data)[..k]);
            LogOk(l, e) && Pending(l, e) == [] && Recovered(l, e)[b] == d[b]
  {
    var ws := LogWrites(l, blocks, data);
    assert CommitWrites(l, d, blocks, data)[..k] == ws[..k];
    LogWritten(l, d, blocks, data, k, l.start);
    LogWritten(l, d, blocks, data, k, b);
    var e := Apply(d, ws[..k]);
    assert e[l.start] == d[l.start];
    IdleRecovery(l, e, b);
  }

  /** Commit stopped after any number k of its writes: recovery finds the home blocks all as
      before if the header write had not landed, all as logged if it had. */
  lemma CommitInterrupted(l: Layout, d: Disk, blocks: seq<int>, data: int -> Block, k: nat, b: nat)
    requires LogOk(l, d) && Pending(l, d) == [] && Loggable(l, blocks)
    requires k <= |CommitWrites(l, d, blocks, data)| && IsHome(l, b)
    ensures var e := Apply(d, CommitWrites(l, d, blocks, data)[..k]);
            && LogOk(l, e)
            && Recovered(l, e)[b] == if k <= |blocks| then d[b] else Updated(d, blocks, data, b)
  {
    var ws := CommitWrites(l, d, blocks, data);
    if blocks == [] {
      IdleRecovery(l, d, b);
    } else if k <= |blocks| {
      BeforeCommitPoint(l, d, blocks, data, k, b);
    } else {
      CommitIsRecovery(l, d, blocks, data);
      CommittedRecovers(l, d, blocks, data, b);
      var c := Committed(l, d, blocks, data);
      var front := LogWrites(l, blocks, data) + [HeadWrite(l, d, blocks)];
      var j := k - |front|;
      var tail := RecoverWrites(l, c)[..j];
      assert ws[..k] == front + tail;
      ApplyConcat(d, front, tail);
      RecoveryInterrupted(l, c, j);
    }
  }

  /** A commit that runs to its end installs the transaction and leaves the log empty. */
  lemma CommitCompletes(l: Layout, d: Disk, blocks: seq<int>, data: int -> Block)
    requires LogOk(l, d) && Pending(l, d) == [] && Loggable(l, blocks)
    ensures var e := Apply(d, CommitWrites(l, d, blocks, data));
            && LogOk(l, e) && Pending(l, e) == []
            && (forall b: nat :: IsHome(l, b) ==> e[b] == Updated(d, blocks, data, b))
  {
    if blocks != [] {
      CommitIsRecovery(l, d, blocks, data);
      var c := Committed(l, d, blocks, data);
      ApplyConcat(d, LogWrites(l, blocks, data) + [HeadWrite(l, d, blocks)], RecoverWrites(l, c));
      ClearedHeader(l, c);
      forall b: nat | IsHome(l, b) ensures Recovered(l, c)[b] == Updated(d, blocks, data, b) {
        CommittedRecovers(l, d, blocks, data, b);
      }
    }
  }

  // Whole histories.

  /** One boot's worth of disk activity: a transaction of which cut block writes land,
      or a recovery of which cut block writes land. */
  datatype Event = Transact(blocks: seq<int>, data: int -> Block, cut: nat) | Recover(cut: nat)

  predicate Possible(l: Layout, d: Disk, ev: Event) {
    && LogOk(l, d)
    && match ev
       case Transact(blocks, data, cut) =>
         Pending(l, d) == [] && Loggable(l, blocks) && cut <= |CommitWrites(l, d, blocks, data)|
       case Recover(cut) => cut <= |RecoverWrites(l, d)|
  }

  function After(l: Layout, d: Disk, ev: Event): (d': Disk)
    requires Possible(l, d, ev)
    ensures |d'| == |d|
  {
    match ev
    case Transact(blocks, data, cut) => Apply(d, CommitWrites(l, d, blocks, data)[..cut])
    case Recover(cut) => Apply(d, RecoverWrites(l, d)[..cut])
  }

  ghost predicate Happens(l: Layout, d: Disk, evs: seq<Event>, d': Disk)
    decreases |evs|
  {
    if evs == [] then d == d'
    else Possible(l, d, evs[0]) && Happens(l, After(l, d, evs[0]), evs[1..], d')
  }

  /** The reference: block b after exactly the transactions whose header write landed. */
  function Replayed(evs: seq<Event>, b: nat, was: Block): Block {
    if evs == [] then was
    else
      var ev := evs[0];
      Replayed(evs[1..], b, if ev.Transact? && ev.cut > |ev.blocks| && b in ev.blocks then ev.data(b) else was)
  }

  /** Over any history of transactions, crashes and recoveries, whatever recovery would find
      is what the committed transactions, applied whole and in order, would have left. */
  lemma {:induction false} HistoryIsAtomic(l: Layout, d: Disk, evs: seq<Event>, d': Disk, b: nat)
    requires LogOk(l, d) && Happens(l, d, evs, d') && IsHome(l, b)
    ensures |d'| == |d| && LogOk(l, d')
    ensures Recovered(l, d')[b] == Replayed(evs, b, Recovered(l, d)[b])
    decreases |evs|
  {
    if evs != [] {
      var ev := evs[0];
      match ev {
        case Transact(blocks, data, cut) =>
          CommitInterrupted(l, d, blocks, data, cut, b);
          IdleRecovery(l, d, b);
        case Recover(cut) =>
          RecoveryInterrupted(l, d, cut);
      }
      HistoryIsAtomic(l, After(l, d, ev), evs[1..], d', b);
    }
  }

  /** In particular, once a boot completes its recovery the home blocks themselves are that state,
      and the log is empty and ready for the next transaction. */
  lemma BootFindsCommitted(l: Layout, d: Disk, evs: seq<Event>, d': Disk, b: nat)
    requires LogOk(l, d) && Happens(l, d, evs, d') && IsHome(l, b)
    ensures LogOk(l, d') && |d'| == |d|
    ensures LogOk(l, Recovered(l, d')) && Pending(l, Recovered(l, d')) == []
    ensures Recovered(l, d')[b] == Replayed(evs, b, Recovered(l, d)[b])
  {
    HistoryIsAtomic(l, d, evs, d', b);
    ClearedHeader(l, d');
  }
}
