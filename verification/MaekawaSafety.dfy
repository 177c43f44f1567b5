/** Mutual exclusion over every run, on every grid. */
module MaekawaSafety {
  import opened Basics
  import opened MaekawaQueue
  import opened MaekawaNode
  import opened MaekawaQuorum
  import opened MaekawaProtocol
  import opened MaekawaInvariant
  import opened MaekawaSteps
  import opened MaekawaReceive

  lemma OnAsk(c: Config, s: System, e: Edges, tok: seq<Token>, i: nat) returns (e': Edges, tok': seq<Token>)
    requires Sees(c, s, e, tok, i) && s.mail[i][0].Ask?
    ensures var m := s.mail[i][0];
            var (n, out) := HandleAsk(s.nodes[i], i, Request(m.from, m.stamp));
            Inv(c, After(s, i, n, out), e', tok')
  {
    var m := s.mail[i][0];
    var req := Request(m.from, m.stamp);
    var (n, out) := HandleAsk(s.nodes[i], i, req);
    e', tok' := e, tok;
    if !s.nodes[i].voted {
      e' := OnAskGrant(c, s, e, tok, i, m.from, n);
    } else if out == Send(m.from, Failed(i)) {
      e' := OnAskQueue(c, s, e, tok, i, m.from, n, out);
    } else if s.nodes[i].inquired {
      e' := OnAskQueue(c, s, e, tok, i, m.from, n, out);
    } else {
      e', tok' := OnAskInquire(c, s, e, tok, i, m.from, n);
    }
  }

  /** Whatever the message, the handler is defined on it and keeps the invariant. */
  lemma OnReceive(c: Config, s: System, e: Edges, tok: seq<Token>, i: nat) returns (e': Edges, tok': seq<Token>)
    requires Sees(c, s, e, tok, i)
    ensures Safe(c, s, Receive(i))
    ensures Inv(c, Apply(c, s, Receive(i)), e', tok')
  {
    FirstMessage(c, s, e, tok, i);
    e', tok' := e, tok;
    match s.mail[i][0] {
      case Ask(_, _) => e', tok' := OnAsk(c, s, e, tok, i);
      case Locked(v) => e' := OnLocked(c, s, e, tok, i, v, Handle(s.nodes[i], i, s.mail[i][0]).0);
      case Failed(v) => OnFailed(c, s, e, tok, i, v, Handle(s.nodes[i], i, s.mail[i][0]).0);
      case Inquire(v) =>
        if AnyFailed(s.nodes[i].failed) {
          e', tok' := OnInquireYield(c, s, e, tok, i, v, Handle(s.nodes[i], i, s.mail[i][0]).0);
        } else {
          tok' := OnInquireIgnore(c, s, e, tok, i, v, s.nodes[i]);
        }
      case Relinquish(_) => e', tok' := OnRelinquish(c, s, e, tok, i);
      case Release(_) =>
        if s.nodes[i].queue.size == 0 {
          e' := OnReleaseLast(c, s, e, tok, i, HandleRelease(s.nodes[i], i).0);
        } else {
          e', tok' := OnReleaseNext(c, s, e, tok, i);
        }
    }
  }

  /** A fresh stamp for a process that no voter has heard of. */
  lemma StartVoter(n: Node, tok: Token, stamps: seq<real>, arrived: nat, i: nat, time: real)
    requires VoterOk(n, tok, stamps, arrived) && i < |stamps|
    requires !HasPid(n.queue.Contents(), i)
    ensures VoterOk(n, tok, stamps[i := time], arrived)
  {
    assert forall k :: 0 <= k < n.queue.size ==> n.queue.Contents()[k].pid != i;
  }

  lemma RowStarts(c: Config, count: int, row: seq<Edge>, i: nat)
    requires GoodConfig(c) && i < |c.quorums| && |row| == |c.quorums| && RequesterOk(c, Idle, count, row, i)
    ensures RequesterOk(c, Sending(0), 0, row, i)
  {
  }

  lemma StartPair(c: Config, s: System, e: Edges, tok: seq<Token>, i: nat, time: real, r: nat, w: nat)
    requires Inv(c, s, e, tok) && Enabled(c, s, Start(i, time)) && r < |c.quorums| && w < |c.quorums|
    ensures Pair(c, Apply(c, s, Start(i, time)), e, tok, r, w)
  {
    assert Pair(c, s, e, tok, r, w);
    assert RequesterOk(c, s.phases[i], s.nodes[i].count, e[i], i);
  }

  /** Process i becomes a requester with a time stamp of its own choosing. */
  lemma OnStart(c: Config, s: System, e: Edges, tok: seq<Token>, i: nat, time: real)
    requires Inv(c, s, e, tok) && Enabled(c, s, Start(i, time))
    ensures Inv(c, Apply(c, s, Start(i, time)), e, tok)
  {
    var s' := Apply(c, s, Start(i, time));
    assert RequesterOk(c, s.phases[i], s.nodes[i].count, e[i], i);
    RowStarts(c, s.nodes[i].count, e[i], i);
    forall r, w | 0 <= r < |c.quorums| && 0 <= w < |c.quorums| ensures Pair(c, s', e, tok, r, w) {
      StartPair(c, s, e, tok, i, time, r, w);
    }
    forall w | 0 <= w < |c.quorums| ensures VoterOk(s'.nodes[w], tok[w], s'.stamps, |Arrived(e, w)|) {
      assert Pair(c, s, e, tok, i, w);
      StartVoter(s.nodes[w], tok[w], s.stamps, |Arrived(e, w)|, i, time);
    }
    forall r | 0 <= r < |c.quorums| ensures RequesterOk(c, s'.phases[r], s'.nodes[r].count, e[r], r) {
      assert RequesterOk(c, s.phases[r], s.nodes[r].count, e[r], r);
    }
  }

  /** Sending changes one mailbox, one edge and the sender's phase. */
  ghost function AfterSend(s: System, i: nat, ph: Phase, v: nat, m: Msg): System
    requires i < |s.phases|
  {
    s.(phases := s.phases[i := ph], mail := Deliver(s.mail, Send(v, m)))
  }

  ghost predicate Sends(a: Edge, b: Edge, m: Msg, i: nat, stamp: real) {
    || (a.Unsent? && b.AskSent? && m == Ask(i, At(stamp)))
    || (a.Held? && b.Freeing? && m == Release(i))
  }

  lemma SendPair(c: Config, s: System, e: Edges, tok: seq<Token>, i: nat, ph: Phase, v: nat, m: Msg, b: Edge, r: nat,
                 w: nat)
    requires Shape(c, s) && Witness(c, e, tok) && i < |c.quorums| && v < |c.quorums|
    requires Sends(e[i][v], b, m, i, s.stamps[i])
    requires r < |c.quorums| && w < |c.quorums| && Pair(c, s, e, tok, r, w)
    ensures Shape(c, AfterSend(s, i, ph, v, m)) && Witness(c, SetEdge(e, i, v, b), tok)
    ensures Pair(c, AfterSend(s, i, ph, v, m), SetEdge(e, i, v, b), tok, r, w)
  {
    DeliverFrom(s.mail, Send(v, m), r, w);
    DeliverFrom(s.mail, Send(v, m), w, r);
  }

  lemma SendVoters(c: Config, s: System, e: Edges, tok: seq<Token>, i: nat, v: nat, b: Edge)
    requires Shape(c, s) && Witness(c, e, tok) && VoterInv(c, s, e, tok) && i < |c.quorums| && v < |c.quorums|
    requires (e[i][v].Unsent? && b.AskSent?) || (e[i][v].Held? && b.Freeing?)
    ensures Witness(c, SetEdge(e, i, v, b), tok) && VoterInv(c, s, SetEdge(e, i, v, b), tok)
  {
    var e' := SetEdge(e, i, v, b);
    forall w | 0 <= w < |c.quorums| ensures VoterOk(s.nodes[w], tok[w], s.stamps, |Arrived(e', w)|) {
      assert VoterOk(s.nodes[w], tok[w], s.stamps, |Arrived(e, w)|);
      assert Arrived(e', w) == Arrived(e, w);
    }
  }

  lemma OnSend(c: Config, s: System, e: Edges, tok: seq<Token>, i: nat, ph: Phase, v: nat, m: Msg, b: Edge)
    returns (e': Edges)
    requires Inv(c, s, e, tok) && i < |c.quorums| && v < |c.quorums|
    requires Sends(e[i][v], b, m, i, s.stamps[i]) && RequesterOk(c, ph, s.nodes[i].count, e[i][v := b], i)
    ensures Inv(c, AfterSend(s, i, ph, v, m), e', tok)
  {
    var s' := AfterSend(s, i, ph, v, m);
    e' := SetEdge(e, i, v, b);
    MailStaysOk(|c.quorums|, s.mail, Send(v, m));
    forall r, w | 0 <= r < |c.quorums| && 0 <= w < |c.quorums| ensures Pair(c, s', e', tok, r, w) {
      SendPair(c, s, e, tok, i, ph, v, m, b, r, w);
    }
    SendVoters(c, s, e, tok, i, v, b);
    assert VoterInv(c, s', e', tok);
    forall r | 0 <= r < |c.quorums| ensures RequesterOk(c, s'.phases[r], s'.nodes[r].count, e'[r], r) {
      assert RequesterOk(c, s.phases[r], s.nodes[r].count, e[r], r);
    }
  }

  lemma RowSends(c: Config, next: nat, count: int, row: seq<Edge>, i: nat)
    requires GoodConfig(c) && i < |c.quorums| && |row| == |c.quorums|
    requires RequesterOk(c, Sending(next), count, row, i)
    ensures c.quorums[i][next] < |row| && row[c.quorums[i][next]].Unsent?
    ensures RequesterOk(c, if next + 1 == c.k then Waiting else Sending(next + 1), count,
                        row[c.quorums[i][next] := AskSent], i)
  {
    assert HeldBy(row[c.quorums[i][next] := AskSent]) == {};
  }

  lemma RowReleases(c: Config, next: nat, count: int, row: seq<Edge>, i: nat)
    requires GoodConfig(c) && i < |c.quorums| && |row| == |c.quorums|
    requires RequesterOk(c, Releasing(next), count, row, i)
    ensures c.quorums[i][next] < |row| && row[c.quorums[i][next]].Held?
    ensures RequesterOk(c, if next + 1 == c.k then Done else Releasing(next + 1), count,
                        row[c.quorums[i][next] := Freeing], i)
  {
    var q := c.quorums[i];
    var row' := row[q[next] := Freeing];
    assert forall j :: 0 <= j < next + 1 ==> row'[q[j]].Freeing? || row'[q[j]].Over?;
  }

  lemma OnSendRequest(c: Config, s: System, e: Edges, tok: seq<Token>, i: nat) returns (e': Edges)
    requires Inv(c, s, e, tok) && Enabled(c, s, SendRequest(i))
    ensures Inv(c, Apply(c, s, SendRequest(i)), e', tok)
  {
    var j := s.phases[i].next;
    assert RequesterOk(c, Sending(j), s.nodes[i].count, e[i], i);
    RowSends(c, j, s.nodes[i].count, e[i], i);
    var ph := if j + 1 == c.k then Waiting else Sending(j + 1);
    assert Apply(c, s, SendRequest(i)) == AfterSend(s, i, ph, c.quorums[i][j], Ask(i, At(s.stamps[i])));
    e' := OnSend(c, s, e, tok, i, ph, c.quorums[i][j], Ask(i, At(s.stamps[i])), AskSent);
  }

  lemma OnSendRelease(c: Config, s: System, e: Edges, tok: seq<Token>, i: nat) returns (e': Edges)
    requires Inv(c, s, e, tok) && Enabled(c, s, SendRelease(i))
    ensures Inv(c, Apply(c, s, SendRelease(i)), e', tok)
  {
    var j := s.phases[i].next;
    assert RequesterOk(c, Releasing(j), s.nodes[i].count, e[i], i);
    RowReleases(c, j, s.nodes[i].count, e[i], i);
    var ph := if j + 1 == c.k then Done else Releasing(j + 1);
    assert Apply(c, s, SendRelease(i)) == AfterSend(s, i, ph, c.quorums[i][j], Release(i));
    e' := OnSend(c, s, e, tok, i, ph, c.quorums[i][j], Release(i), Freeing);
  }

  lemma {:induction false} FullSet(a: set<nat>, q: seq<nat>, k: nat)
    requires k <= |q| && |a| >= k && forall x :: x in a ==> x in q[..k]
    ensures forall j :: 0 <= j < k ==> q[j] in a
  {
    if k > 0 {
      var b := a - {q[k - 1]};
      forall x | x in b ensures x in q[..k - 1] {
        var j :| 0 <= j < k && q[..k][j] == x;
        assert q[..k - 1][j] == x;
      }
      if q[k - 1] !in a {
        SmallSet(b, q, k - 1);
      }
      FullSet(b, q, k - 1);
    }
  }

  lemma {:induction false} SmallSet(a: set<nat>, q: seq<nat>, k: nat)
    requires k <= |q| && forall x :: x in a ==> x in q[..k]
    ensures |a| <= k
  {
    var image := set j | 0 <= j < k :: q[j];
    forall x | x in a ensures x in image {
      var j :| 0 <= j < k && q[..k][j] == x;
      assert q[j] in image;
    }
    SubsetSize(a, image);
    ImageSize(q, k);
  }

  /** The count reaches K only with every vote of the quorum counted. */
  lemma CountMeansAll(c: Config, row: seq<Edge>, r: nat, count: int)
    requires GoodConfig(c) && r < |c.quorums| && |row| == |c.quorums|
    requires RequesterOk(c, Waiting, count, row, r) && count >= c.k
    ensures forall v :: 0 <= v < |row| && v in c.quorums[r] ==> row[v].Held?
  {
    var q := c.quorums[r];
    assert q[..c.k] == q;
    FullSet(HeldBy(row), q, c.k);
    forall v | 0 <= v < |row| && v in q ensures row[v].Held? {
      var j :| 0 <= j < |q| && q[j] == v;
      assert q[j] in HeldBy(row);
    }
  }

  lemma EnterPair(c: Config, s: System, e: Edges, tok: seq<Token>, i: nat, r: nat, w: nat)
    requires Inv(c, s, e, tok) && Enabled(c, s, Enter(i)) && r < |c.quorums| && w < |c.quorums| && s.nodes[i].voted
    ensures Pair(c, Apply(c, s, Enter(i)), e, tok, r, w)
  {
    assert Pair(c, s, e, tok, r, w);
  }

  lemma OnEnter(c: Config, s: System, e: Edges, tok: seq<Token>, i: nat)
    requires Inv(c, s, e, tok) && Enabled(c, s, Enter(i))
    ensures Inv(c, Apply(c, s, Enter(i)), e, tok)
  {
    var s' := Apply(c, s, Enter(i));
    assert RequesterOk(c, s.phases[i], s.nodes[i].count, e[i], i);
    CountMeansAll(c, e[i], i, s.nodes[i].count);
    AtVoter(c, s, e, tok, i, i);
    assert s'.nodes[i] == s.nodes[i].(count := c.k);
    forall r, w | 0 <= r < |c.quorums| && 0 <= w < |c.quorums| ensures Pair(c, s', e, tok, r, w) {
      EnterPair(c, s, e, tok, i, r, w);
    }
    forall w | 0 <= w < |c.quorums| ensures VoterOk(s'.nodes[w], tok[w], s'.stamps, |Arrived(e, w)|) {
      assert VoterOk(s.nodes[w], tok[w], s.stamps, |Arrived(e, w)|);
    }
    forall r | 0 <= r < |c.quorums| ensures RequesterOk(c, s'.phases[r], s'.nodes[r].count, e[r], r) {
      assert RequesterOk(c, s.phases[r], s.nodes[r].count, e[r], r);
    }
  }

  lemma OnLeave(c: Config, s: System, e: Edges, tok: seq<Token>, i: nat)
    requires Inv(c, s, e, tok) && Enabled(c, s, Leave(i))
    ensures Inv(c, Apply(c, s, Leave(i)), e, tok)
  {
    var s' := Apply(c, s, Leave(i));
    forall r, w | 0 <= r < |c.quorums| && 0 <= w < |c.quorums| ensures Pair(c, s', e, tok, r, w) {
      assert Pair(c, s, e, tok, r, w);
    }
    forall r | 0 <= r < |c.quorums| ensures RequesterOk(c, s'.phases[r], s'.nodes[r].count, e[r], r) {
      assert RequesterOk(c, s.phases[r], s.nodes[r].count, e[r], r);
    }
  }

  /** Every enabled step is defined and keeps the invariant. */
  lemma StepKeeps(c: Config, s: System, e: Edges, tok: seq<Token>, st: Step) returns (e': Edges, tok': seq<Token>)
    requires Inv(c, s, e, tok) && Enabled(c, s, st)
    ensures Safe(c, s, st) && Inv(c, Apply(c, s, st), e', tok')
  {
    e', tok' := e, tok;
    match st {
      case Start(i, time) => OnStart(c, s, e, tok, i, time);
      case SendRequest(i) => e' := OnSendRequest(c, s, e, tok, i);
      case Receive(i) => e', tok' := OnReceive(c, s, e, tok, i);
      case Enter(i) => OnEnter(c, s, e, tok, i);
      case Leave(i) => OnLeave(c, s, e, tok, i);
      case SendRelease(i) => e' := OnSendRelease(c, s, e, tok, i);
    }
  }

  lemma {:induction false} RunKeeps(c: Config, s: System, e: Edges, tok: seq<Token>, run: seq<Step>, t: System)
    returns (e': Edges, tok': seq<Token>)
    requires Inv(c, s, e, tok) && Runs(c, s, run, t)
    ensures Inv(c, t, e', tok')
    decreases |run|
  {
    if run == [] {
      e', tok' := e, tok;
    } else {
      var e1, tok1 := StepKeeps(c, s, e, tok, run[0]);
      e', tok' := RunKeeps(c, Apply(c, s, run[0]), e1, tok1, run[1..], t);
    }
  }

  ghost function Grid(n: nat): (c: Config)
    requires n > 0
    ensures |c.quorums| == n * n && c.k == 2 * n - 1
    ensures forall x :: 0 <= x < n * n ==> c.quorums[x] == Quorum(n, x)
  {
    Config(seq(n * n, x requires 0 <= x < n * n => Quorum(n, x)), 2 * n - 1)
  }

  lemma GridRowGood(n: nat, c: Config, r: nat)
    requires 0 < n && c == Grid(n) && r < |c.quorums|
    ensures GoodRow(c, r)
  {
    QuorumSize(n, r);
    var q := c.quorums[r];
    assert q == Quorum(n, r);
    assert forall j :: 0 <= j < |q| ==> q[j] in q;
  }

  lemma GridIsGood(n: nat)
    requires 0 < n && 2 * n < MAXQ
    ensures GoodConfig(Grid(n))
  {
    var c := Grid(n);
    forall r | 0 <= r < |c.quorums| ensures GoodRow(c, r) {
      GridRowGood(n, c, r);
    }
    forall a, b | 0 <= a < |c.quorums| && 0 <= b < |c.quorums| ensures Meet(c, a, b) {
      var v := QuorumsMeet(n, a, b);
      assert v in c.quorums[a] && v in c.quorums[b];
    }
    forall a, b | 0 <= a < |c.quorums| && 0 <= b < |c.quorums| ensures Mutual(c, a, b) {
      QuorumSymmetric(n, a, b);
    }
  }

  /** The main result. On every grid whose queues cannot wrap, in every state that any run reaches:
      at most one process is between the return of acquireLockMaekawa and its releases, and no
      enabled handler call leaves its arrays. */
  lemma MutualExclusion(n: nat, s: System, run: seq<Step>, t: System)
    requires 0 < n && 2 * n < MAXQ
    requires Initial(Grid(n), s) && Runs(Grid(n), s, run, t)
    ensures GoodConfig(Grid(n)) && Shape(Grid(n), t)
    ensures forall a, b :: 0 <= a < |t.phases| && 0 <= b < |t.phases| && t.phases[a].InCS? && t.phases[b].InCS? ==>
              a == b
    ensures forall st :: Enabled(Grid(n), t, st) ==> Safe(Grid(n), t, st)
  {
    var c := Grid(n);
    GridIsGood(n);
    var e, tok := InitialInv(c, s);
    var e', tok' := RunKeeps(c, s, e, tok, run, t);
    forall a, b | 0 <= a < |t.phases| && 0 <= b < |t.phases| && t.phases[a].InCS? && t.phases[b].InCS? ensures a == b {
      InvExcludes(c, t, e', tok', a, b);
    }
    forall st | Enabled(c, t, st) ensures Safe(c, t, st) {
      var _, _ := StepKeeps(c, t, e', tok', st);
    }
  }

  /** In every state that any run reaches, no voter's queue wraps: the branch of removeElementQueue
      left unimplemented is never entered, and no enqueue finds the queue full. */
  lemma QueuesNeverWrap(n: nat, s: System, run: seq<Step>, t: System)
    requires 0 < n && 2 * n < MAXQ
    requires Initial(Grid(n), s) && Runs(Grid(n), s, run, t)
    ensures forall v :: 0 <= v < |t.nodes| ==>
              && t.nodes[v].queue.Linear() && t.nodes[v].queue.tail <= 2 * n
              && (t.nodes[v].queue.size >= 2 ==> t.nodes[v].queue.head < t.nodes[v].queue.tail)
  {
    var c := Grid(n);
    GridIsGood(n);
    var e, tok := InitialInv(c, s);
    var e', tok' := RunKeeps(c, s, e, tok, run, t);
    forall v | 0 <= v < |t.nodes| ensures t.nodes[v].queue.Linear() && t.nodes[v].queue.tail <= 2 * n {
      AtVoter(c, t, e', tok', v, v);
    }
  }
}
