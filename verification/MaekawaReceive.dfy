/** Receiving any message keeps the invariant. */
module MaekawaReceive {
  import opened Basics
  import opened MaekawaQueue
  import opened MaekawaNode
  import opened MaekawaProtocol
  import opened MaekawaInvariant
  import opened MaekawaVoter
  import opened MaekawaSteps

  /** A row entry changed by the voter's side alone. */
  predicate VoterMoves(a: Edge, b: Edge) {
    || (a.AskSent? && (b.Granting? || b.Queued?))
    || (a.Queued? && b.Granting?)
    || (a.Yielding? && b.Queued?)
    || (a.Freeing? && b.Over?)
  }

  lemma RowByVoter(c: Config, ph: Phase, count: int, row: seq<Edge>, r: nat, v: nat, y: Edge)
    requires GoodConfig(c) && r < |c.quorums| && |row| == |c.quorums| && v < |row|
    requires RequesterOk(c, ph, count, row, r) && VoterMoves(row[v], y)
    ensures RequesterOk(c, ph, count, row[v := y], r)
  {
    assert HeldBy(row[v := y]) == HeldBy(row);
    assert v in c.quorums[r];
  }

  lemma RowCounts(c: Config, ph: Phase, count: int, row: seq<Edge>, r: nat, v: nat)
    requires GoodConfig(c) && r < |c.quorums| && |row| == |c.quorums| && v < |row|
    requires RequesterOk(c, ph, count, row, r) && (ph.Idle? || ph.Waiting? || ph.Done?)
    requires row[v].Granting?
    ensures RequesterOk(c, ph, count + 1, row[v := Held], r)
  {
    assert v in c.quorums[r];
    assert HeldBy(row[v := Held]) == HeldBy(row) + {v};
  }

  lemma RowYields(c: Config, ph: Phase, count: int, row: seq<Edge>, r: nat, v: nat)
    requires GoodConfig(c) && r < |c.quorums| && |row| == |c.quorums| && v < |row|
    requires RequesterOk(c, ph, count, row, r) && ph.Waiting? && row[v].Held?
    ensures RequesterOk(c, ph, count - 1, row[v := Yielding], r)
  {
    assert v in c.quorums[r];
    assert HeldBy(row) == HeldBy(row[v := Yielding]) + {v};
  }

  lemma ArrivedGrows(e: Edges, e': Edges, v: nat)
    requires |e'| == |e| && forall r :: 0 <= r < |e| ==> v < |e[r]| && v < |e'[r]|
    requires forall r :: 0 <= r < |e| && (e'[r][v].Unsent? || e'[r][v].AskSent?) ==> e[r][v].Unsent? || e[r][v].AskSent?
    ensures |Arrived(e, v)| <= |Arrived(e', v)|
  {
    SubsetSize(Arrived(e, v), Arrived(e', v));
  }

  lemma ReceiveMail(c: Config, s: System, e: Edges, tok: seq<Token>, i: nat, n: Node, out: Out)
    requires Frame(c, s, e, tok, i, n) && MailInv(c, s) && (out.Send? ==> out.msg.from < |c.quorums|)
    ensures Shape(c, After(s, i, n, out)) && MailInv(c, After(s, i, n, out))
  {
    MailStaysOk(|c.quorums|, s.mail[i := s.mail[i][1..]], out);
  }

  /** Only the requester half of i, one of its edges and one inquiry token changed. */
  lemma VotersUntouched(c: Config, s: System, e: Edges, tok: seq<Token>, e': Edges, tok': seq<Token>, i: nat, n: Node,
                        out: Out)
    requires Frame(c, s, e, tok, i, n) && Witness(c, e', tok') && VoterInv(c, s, e, tok)
    requires n == s.nodes[i].(count := n.count, failed := n.failed)
    requires forall v :: 0 <= v < |c.quorums| ==>
               tok'[v] == tok[v] || (tok[v].Asked? && (tok'[v].Spent? || tok'[v] == Yielded(tok[v].r)))
    requires forall r, v :: 0 <= r < |c.quorums| && 0 <= v < |c.quorums| && (e'[r][v].Unsent? || e'[r][v].AskSent?)
               ==> e[r][v].Unsent? || e[r][v].AskSent?
    ensures Shape(c, After(s, i, n, out)) && VoterInv(c, After(s, i, n, out), e', tok')
  {
    var s' := After(s, i, n, out);
    forall v | 0 <= v < |c.quorums| ensures VoterOk(s'.nodes[v], tok'[v], s'.stamps, |Arrived(e', v)|) {
      assert VoterOk(s.nodes[v], tok[v], s.stamps, |Arrived(e, v)|);
      ArrivedGrows(e, e', v);
    }
  }

  /** Only the voter half of i and edges to i changed. */
  lemma OneVoter(c: Config, s: System, e: Edges, tok: seq<Token>, e': Edges, tok': seq<Token>, i: nat, n: Node,
                 out: Out)
    requires Frame(c, s, e, tok, i, n) && Witness(c, e', tok') && VoterInv(c, s, e, tok)
    requires VoterOk(n, tok'[i], s.stamps, |Arrived(e', i)|)
    requires forall v :: 0 <= v < |c.quorums| && v != i ==> tok'[v] == tok[v]
    requires forall r, v :: 0 <= r < |c.quorums| && 0 <= v < |c.quorums| && v != i ==> e'[r][v] == e[r][v]
    ensures Shape(c, After(s, i, n, out)) && VoterInv(c, After(s, i, n, out), e', tok')
  {
    var s' := After(s, i, n, out);
    forall v | 0 <= v < |c.quorums| ensures VoterOk(s'.nodes[v], tok'[v], s'.stamps, |Arrived(e', v)|) {
      if v != i {
        assert VoterOk(s.nodes[v], tok[v], s.stamps, |Arrived(e, v)|);
        assert Arrived(e', v) == Arrived(e, v);
      }
    }
  }

  /** A voter handles at most one REQUEST per process that counts on it. */
  lemma ArrivedBound(c: Config, s: System, e: Edges, tok: seq<Token>, v: nat, x: nat)
    requires GoodConfig(c) && Shape(c, s) && Witness(c, e, tok) && RequesterInv(c, s, e, tok)
    requires v < |c.quorums| && x < |c.quorums|
    ensures |Arrived(e, v)| <= c.k
    ensures e[x][v].AskSent? ==> |Arrived(e, v)| < c.k
  {
    assert GoodRow(c, v);
    var q := set j | 0 <= j < c.k :: c.quorums[v][j];
    var sent := set r: nat | 0 <= r < |e| && !e[r][v].Unsent?;
    forall r | r in sent ensures r in q {
      assert RequesterOk(c, s.phases[r], s.nodes[r].count, e[r], r);
      assert v in c.quorums[r];
      assert Mutual(c, r, v);
    }
    SubsetSize(sent, q);
    ImageSize(c.quorums[v], c.k);
    SubsetSize(Arrived(e, v), sent);
    if e[x][v].AskSent? {
      SubsetSize(Arrived(e, v), sent - {x});
    }
  }

  lemma {:induction false} ImageSize(s: seq<nat>, k: nat)
    requires k <= |s|
    ensures |set j | 0 <= j < k :: s[j]| <= k
  {
    var a := set j | 0 <= j < k :: s[j];
    if k == 0 {
      assert a == {};
    } else {
      ImageSize(s, k - 1);
      assert a == (set j | 0 <= j < k - 1 :: s[j]) + {s[k - 1]};
    }
  }

  /** Only row x of the edges, and the count of i, changed. */
  lemma OneRequester(c: Config, s: System, e: Edges, tok: seq<Token>, e': Edges, tok': seq<Token>, i: nat, n: Node,
                     out: Out, x: nat)
    requires Frame(c, s, e, tok, i, n) && Witness(c, e', tok') && GoodConfig(c) && RequesterInv(c, s, e, tok)
    requires x < |c.quorums| && (n.count == s.nodes[i].count || x == i)
    requires RequesterOk(c, s.phases[x], if x == i then n.count else s.nodes[x].count, e'[x], x)
    requires forall r :: 0 <= r < |c.quorums| && r != x ==> e'[r] == e[r]
    ensures Shape(c, After(s, i, n, out)) && RequesterInv(c, After(s, i, n, out), e', tok')
  {
    var s' := After(s, i, n, out);
    forall r | 0 <= r < |c.quorums| ensures RequesterOk(c, s'.phases[r], s'.nodes[r].count, e'[r], r) {
      assert RequesterOk(c, s.phases[r], s.nodes[r].count, e[r], r);
    }
  }

  lemma FirstPair(f: seq<Msg>, g: seq<Msg>, voted: bool, cur: Request, waits: bool, failedBit: bool, stamp: real,
                  e: Edge, tok: Token, r: nat, v: nat, m: Msg)
    requires PairOk(f, g, voted, cur, waits, failedBit, stamp, e, tok, r, v)
    ensures |f| > 0 && f[0] == m && m.Locked? ==> e.Granting?
    ensures |f| > 0 && f[0] == m && m.Inquire? ==> tok == Asked(r) && (e.Held? || e.Freeing? || e.Over?)
    ensures |g| > 0 && g[0] == m && m.Ask? ==> e.AskSent? && m.stamp == At(stamp) && !waits && !(voted && cur.pid == r)
    ensures |g| > 0 && g[0] == m && m.Relinquish? ==> e.Yielding? && tok == Yielded(r)
    ensures |g| > 0 && g[0] == m && m.Release? ==> e.Freeing?
  {
  }

  /** What the first message of i's mailbox says about the edge it belongs to. */
  lemma FirstMessage(c: Config, s: System, e: Edges, tok: seq<Token>, i: nat)
    requires Sees(c, s, e, tok, i)
    ensures Frame(c, s, e, tok, i, s.nodes[i])
    ensures var m := s.mail[i][0];
            && m.from < |c.quorums|
            && (m.Locked? ==> e[i][m.from].Granting?)
            && (m.Inquire? ==>
                  tok[m.from] == Asked(i) && (e[i][m.from].Held? || e[i][m.from].Freeing? || e[i][m.from].Over?))
            && (m.Ask? ==> e[m.from][i].AskSent? && m.stamp == At(s.stamps[m.from]))
            && (m.Relinquish? ==> e[m.from][i].Yielding? && tok[i] == Yielded(m.from))
            && (m.Release? ==> e[m.from][i].Freeing?)
    ensures s.phases[i].Idle? || s.phases[i].Waiting? || s.phases[i].Done?
  {
    TailOk(|c.quorums|, s.mail[i]);
    var m := s.mail[i][0];
    var x := m.from;
    AfterReceive(s.mail, i, Silent, i, x);
    assert Pair(c, s, e, tok, i, x) && Pair(c, s, e, tok, x, i);
    FirstPair(VFrom(s.mail[i], x), RFrom(s.mail[x], i), s.nodes[x].voted, s.nodes[x].cur,
              HasPid(s.nodes[x].queue.Contents(), i), s.nodes[i].failed[x], s.stamps[i], e[i][x], tok[x], i, x, m);
    FirstPair(VFrom(s.mail[x], i), RFrom(s.mail[i], x), s.nodes[i].voted, s.nodes[i].cur,
              HasPid(s.nodes[i].queue.Contents(), x), s.nodes[x].failed[i], s.stamps[x], e[x][i], tok[i], x, i, m);
  }

  /** The state of voter i, and of process r's request there. */
  lemma AtVoter(c: Config, s: System, e: Edges, tok: seq<Token>, r: nat, i: nat)
    requires Inv(c, s, e, tok) && r < |c.quorums| && i < |c.quorums|
    ensures VoterOk(s.nodes[i], tok[i], s.stamps, |Arrived(e, i)|)
    ensures Granted(e[r][i]) <==> s.nodes[i].voted && s.nodes[i].cur.pid == r
    ensures Granted(e[r][i]) ==> s.nodes[i].cur == Request(r, At(s.stamps[r]))
    ensures e[r][i].Queued? <==> HasPid(s.nodes[i].queue.Contents(), r)
    ensures tok[i] == Asked(r) || tok[i] == Yielded(r) ==> !e[r][i].AskSent? && !e[r][i].Queued?
    ensures s.nodes[r].failed[i] ==> e[r][i].Queued? || e[r][i].Granting?
    ensures RequesterOk(c, s.phases[r], s.nodes[r].count, e[r], r)
    ensures |Arrived(e, i)| <= c.k
    ensures e[r][i].AskSent? ==> |Arrived(e, i)| < c.k
  {
    assert Pair(c, s, e, tok, r, i);
    ArrivedBound(c, s, e, tok, i, r);
  }

  lemma OnLocked(c: Config, s: System, e: Edges, tok: seq<Token>, i: nat, v: nat, n: Node) returns (e': Edges)
    requires Sees(c, s, e, tok, i) && s.mail[i][0] == Locked(v) && v < |s.nodes[i].failed|
    requires n == s.nodes[i].(count := s.nodes[i].count + 1, failed := s.nodes[i].failed[v := false])
    ensures Inv(c, After(s, i, n, Silent), e', tok)
  {
    FirstMessage(c, s, e, tok, i);
    AtVoter(c, s, e, tok, i, v);
    e' := SetEdge(e, i, v, Held);
    var s' := After(s, i, n, Silent);
    ReceiveMail(c, s, e, tok, i, n, Silent);
    forall r, w | 0 <= r < |c.quorums| && 0 <= w < |c.quorums| ensures Pair(c, s', e', tok, r, w) {
      LockedPair(c, s, e, tok, i, v, n, r, w);
    }
    VotersUntouched(c, s, e, tok, e', tok, i, n, Silent);
    RowCounts(c, s.phases[i], s.nodes[i].count, e[i], i, v);
    OneRequester(c, s, e, tok, e', tok, i, n, Silent, i);
  }

  lemma OnFailed(c: Config, s: System, e: Edges, tok: seq<Token>, i: nat, v: nat, n: Node)
    requires Sees(c, s, e, tok, i) && s.mail[i][0] == Failed(v) && v < |s.nodes[i].failed|
    requires n == s.nodes[i].(failed := s.nodes[i].failed[v := true])
    ensures Inv(c, After(s, i, n, Silent), e, tok)
  {
    FirstMessage(c, s, e, tok, i);
    ReceiveMail(c, s, e, tok, i, n, Silent);
    forall r, w | 0 <= r < |c.quorums| && 0 <= w < |c.quorums| ensures Pair(c, After(s, i, n, Silent), e, tok, r, w) {
      FailedPair(c, s, e, tok, i, v, n, r, w);
    }
    VotersUntouched(c, s, e, tok, e, tok, i, n, Silent);
    OneRequester(c, s, e, tok, e, tok, i, n, Silent, i);
  }

  /** A noted failure means a vote is still missing, so the vote asked about is counted and may be returned. */
  lemma FailureMeansWaiting(c: Config, s: System, e: Edges, tok: seq<Token>, i: nat, v: nat)
    requires Sees(c, s, e, tok, i) && s.mail[i][0] == Inquire(v) && AnyFailed(s.nodes[i].failed)
    ensures v < |c.quorums| && e[i][v].Held? && tok[v] == Asked(i) && s.phases[i].Waiting?
    ensures RequesterOk(c, s.phases[i], s.nodes[i].count - 1, e[i][v := Yielding], i)
  {
    FirstMessage(c, s, e, tok, i);
    var y :| 0 <= y < |s.nodes[i].failed| && s.nodes[i].failed[y];
    AtVoter(c, s, e, tok, i, y);
    RowYields(c, s.phases[i], s.nodes[i].count, e[i], i, v);
  }

  lemma OnInquireYield(c: Config, s: System, e: Edges, tok: seq<Token>, i: nat, v: nat, n: Node)
    returns (e': Edges, tok': seq<Token>)
    requires Sees(c, s, e, tok, i) && s.mail[i][0] == Inquire(v) && AnyFailed(s.nodes[i].failed)
    requires n == s.nodes[i].(count := s.nodes[i].count - 1)
    ensures Inv(c, After(s, i, n, Send(v, Relinquish(i))), e', tok')
  {
    FailureMeansWaiting(c, s, e, tok, i, v);
    e', tok' := SetEdge(e, i, v, Yielding), tok[v := Yielded(i)];
    var out := Send(v, Relinquish(i));
    ReceiveMail(c, s, e, tok, i, n, out);
    forall r, w | 0 <= r < |c.quorums| && 0 <= w < |c.quorums| ensures Pair(c, After(s, i, n, out), e', tok', r, w) {
      YieldPair(c, s, e, tok, i, v, n, r, w);
    }
    VotersUntouched(c, s, e, tok, e', tok', i, n, out);
    OneRequester(c, s, e, tok, e', tok', i, n, out, i);
  }

  lemma OnInquireIgnore(c: Config, s: System, e: Edges, tok: seq<Token>, i: nat, v: nat, n: Node)
    returns (tok': seq<Token>)
    requires Sees(c, s, e, tok, i) && s.mail[i][0] == Inquire(v) && n == s.nodes[i]
    ensures Inv(c, After(s, i, n, Silent), e, tok')
  {
    FirstMessage(c, s, e, tok, i);
    tok' := tok[v := Spent];
    ReceiveMail(c, s, e, tok, i, n, Silent);
    forall r, w | 0 <= r < |c.quorums| && 0 <= w < |c.quorums| ensures Pair(c, After(s, i, n, Silent), e, tok', r, w) {
      IgnorePair(c, s, e, tok, i, v, n, r, w);
    }
    VotersUntouched(c, s, e, tok, e, tok', i, n, Silent);
    OneRequester(c, s, e, tok, e, tok', i, n, Silent, i);
  }

  lemma OnAskGrant(c: Config, s: System, e: Edges, tok: seq<Token>, i: nat, x: nat, n: Node) returns (e': Edges)
    requires Sees(c, s, e, tok, i) && s.mail[i][0].Ask? && s.mail[i][0].from == x
    requires !s.nodes[i].voted && n == s.nodes[i].(voted := true, cur := Request(x, s.mail[i][0].stamp))
    ensures Inv(c, After(s, i, n, Send(x, Locked(i))), e', tok)
  {
    FirstMessage(c, s, e, tok, i);
    AtVoter(c, s, e, tok, x, i);
    e' := SetEdge(e, x, i, Granting);
    var out := Send(x, Locked(i));
    ReceiveMail(c, s, e, tok, i, n, out);
    forall r, w | 0 <= r < |c.quorums| && 0 <= w < |c.quorums| ensures Pair(c, After(s, i, n, out), e', tok, r, w) {
      GrantPair(c, s, e, tok, i, x, n, r, w);
    }
    ArrivedGrows(e, e', i);
    OneVoter(c, s, e, tok, e', tok, i, n, out);
    RowByVoter(c, s.phases[x], s.nodes[x].count, e[x], x, i, Granting);
    OneRequester(c, s, e, tok, e', tok, i, n, out, x);
  }

  /** Queueing adds one to what has arrived and one to the tail. */
  lemma ArrivedPlus(e: Edges, x: nat, v: nat, y: Edge)
    requires x < |e| && forall r :: 0 <= r < |e| ==> v < |e[r]|
    requires (e[x][v].Unsent? || e[x][v].AskSent?) && !y.Unsent? && !y.AskSent?
    ensures |Arrived(SetEdge(e, x, v, y), v)| == |Arrived(e, v)| + 1
  {
    assert Arrived(SetEdge(e, x, v, y), v) == Arrived(e, v) + {x};
  }

  /** A request that must wait: not in the queue yet, not the holder's, and there is room for it. */
  lemma AskWaits(c: Config, s: System, e: Edges, tok: seq<Token>, i: nat, x: nat)
    requires Sees(c, s, e, tok, i) && s.mail[i][0].Ask? && s.mail[i][0].from == x && s.nodes[i].voted
    ensures x < |c.quorums| && s.mail[i][0].stamp == At(s.stamps[x]) && e[x][i].AskSent?
    ensures QueueOk(s.nodes[i].queue, s.stamps) && s.nodes[i].queue.tail + 1 < MAXQ
    ensures !HasPid(s.nodes[i].queue.Contents(), x)
    ensures s.nodes[i].cur.pid != x && Stamped(s.nodes[i].cur, s.stamps)
    ensures RequesterOk(c, s.phases[x], s.nodes[x].count, e[x][i := Queued], x)
  {
    FirstMessage(c, s, e, tok, i);
    AtVoter(c, s, e, tok, x, i);
    AtVoter(c, s, e, tok, s.nodes[i].cur.pid, i);
    RowByVoter(c, s.phases[x], s.nodes[x].count, e[x], x, i, Queued);
  }

  /** What both queueing branches share. */
  lemma AskQueued(c: Config, s: System, e: Edges, tok: seq<Token>, i: nat, x: nat, n: Node)
    requires Sees(c, s, e, tok, i) && s.mail[i][0].Ask? && s.mail[i][0].from == x && s.nodes[i].voted
    requires n == s.nodes[i].(queue := Enqueued(s.nodes[i].queue, Request(x, s.mail[i][0].stamp)),
                              inquired := n.inquired)
    ensures x < |c.quorums| && Joins(s.nodes[i], n, x) && QueueOk(n.queue, s.stamps)
    ensures n.queue.tail == s.nodes[i].queue.tail + 1
    ensures SomePrecedes(s.nodes[i].queue.Contents(), n.cur) || Precedes(Request(x, At(s.stamps[x])), n.cur)
            ==> SomePrecedes(n.queue.Contents(), n.cur)
    ensures |Arrived(SetEdge(e, x, i, Queued), i)| == |Arrived(e, i)| + 1
  {
    AskWaits(c, s, e, tok, i, x);
    ArrivedPlus(e, x, i, Queued);
    EnqueueNode(s.nodes[i], Request(x, At(s.stamps[x])), s.stamps);
  }

  /** The voter answers FAILED, or has asked before and stays silent. */
  lemma OnAskQueue(c: Config, s: System, e: Edges, tok: seq<Token>, i: nat, x: nat, n: Node,
                   out: Out) returns (e': Edges)
    requires Sees(c, s, e, tok, i) && s.mail[i][0].Ask? && s.mail[i][0].from == x && s.nodes[i].voted
    requires n == s.nodes[i].(queue := Enqueued(s.nodes[i].queue, Request(x, s.mail[i][0].stamp)))
    requires out == Silent || out == Send(x, Failed(i))
    ensures Inv(c, After(s, i, n, out), e', tok)
  {
    FirstMessage(c, s, e, tok, i);
    AskWaits(c, s, e, tok, i, x);
    AskQueued(c, s, e, tok, i, x, n);
    e' := SetEdge(e, x, i, Queued);
    ReceiveMail(c, s, e, tok, i, n, out);
    forall r, w | 0 <= r < |c.quorums| && 0 <= w < |c.quorums| ensures Pair(c, After(s, i, n, out), e', tok, r, w) {
      QueuePair(c, s, e, tok, i, x, n, out, r, w);
    }
    OneVoter(c, s, e, tok, e', tok, i, n, out);
    OneRequester(c, s, e, tok, e', tok, i, n, out, x);
  }

  /** The voter asks the holder of its vote, which the new request precedes. */
  lemma OnAskInquire(c: Config, s: System, e: Edges, tok: seq<Token>, i: nat, x: nat, n: Node)
    returns (e': Edges, tok': seq<Token>)
    requires Sees(c, s, e, tok, i) && s.mail[i][0].Ask? && s.mail[i][0].from == x && s.nodes[i].voted
    requires n == s.nodes[i].(queue := Enqueued(s.nodes[i].queue, Request(x, s.mail[i][0].stamp)), inquired := true)
    requires !s.nodes[i].inquired && !Precedes(s.nodes[i].cur, Request(x, s.mail[i][0].stamp))
    ensures Inv(c, After(s, i, n, Send(s.nodes[i].cur.pid, Inquire(i))), e', tok')
  {
    FirstMessage(c, s, e, tok, i);
    AskWaits(c, s, e, tok, i, x);
    AskQueued(c, s, e, tok, i, x, n);
    var h := s.nodes[i].cur.pid;
    var out := Send(h, Inquire(i));
    e', tok' := SetEdge(e, x, i, Queued), tok[i := Asked(h)];
    ReceiveMail(c, s, e, tok, i, n, out);
    forall r, w | 0 <= r < |c.quorums| && 0 <= w < |c.quorums| ensures Pair(c, After(s, i, n, out), e', tok', r, w) {
      InquirePair(c, s, e, tok, i, x, h, n, r, w);
    }
    Ordered(s.nodes[i].cur, Request(x, At(s.stamps[x])), s.stamps);
    OneVoter(c, s, e, tok, e', tok', i, n, out);
    OneRequester(c, s, e, tok, e', tok', i, n, out, x);
  }

  /** Two rows of the edges changed, in their entry for voter i. */
  lemma TwoRequesters(c: Config, s: System, e: Edges, tok: seq<Token>, i: nat, n: Node, out: Out, x: nat, y: Edge,
                      b: nat, tok': seq<Token>)
    requires Frame(c, s, e, tok, i, n) && Witness(c, e, tok') && GoodConfig(c) && RequesterInv(c, s, e, tok)
    requires n.count == s.nodes[i].count && x < |c.quorums| && b < |c.quorums| && x != b
    requires VoterMoves(e[x][i], y) && e[b][i].Queued?
    ensures Shape(c, After(s, i, n, out))
    ensures RequesterInv(c, After(s, i, n, out), SetEdge(SetEdge(e, x, i, y), b, i, Granting), tok')
  {
    var s' := After(s, i, n, out);
    var e' := SetEdge(SetEdge(e, x, i, y), b, i, Granting);
    RowByVoter(c, s.phases[x], s.nodes[x].count, e[x], x, i, y);
    RowByVoter(c, s.phases[b], s.nodes[b].count, e[b], b, i, Granting);
    forall r | 0 <= r < |c.quorums| ensures RequesterOk(c, s'.phases[r], s'.nodes[r].count, e'[r], r) {
      assert RequesterOk(c, s.phases[r], s.nodes[r].count, e[r], r);
    }
  }

  lemma RegrantVoter(c: Config, s: System, e: Edges, tok: seq<Token>, i: nat, x: nat, b: nat, again: bool, n: Node)
    requires Sees(c, s, e, tok, i) && s.mail[i][0] == if again then Relinquish(x) else Release(x)
    requires Regrants(s.nodes[i], n, b, again, s.stamps)
    ensures x < |c.quorums| && b < |c.quorums| && Frame(c, s, e, tok, i, n)
    ensures if again then e[x][i].Yielding? && tok[i] == Yielded(x) else e[x][i].Freeing?
    ensures e[b][i].Queued? && s.nodes[i].cur.pid == x
    ensures var e' := SetEdge(SetEdge(e, x, i, if again then Queued else Over), b, i, Granting);
            VoterOk(n, if again then Spent else tok[i], s.stamps, |Arrived(e', i)|)
  {
    FirstMessage(c, s, e, tok, i);
    AtVoter(c, s, e, tok, x, i);
    AtVoter(c, s, e, tok, b, i);
    ArrivedGrows(e, SetEdge(SetEdge(e, x, i, if again then Queued else Over), b, i, Granting), i);
  }

  /** The vote of i moves from x to the queued process b; x is requeued or forgotten. */
  lemma OnRegrant(c: Config, s: System, e: Edges, tok: seq<Token>, i: nat, x: nat, b: nat, again: bool, n: Node)
    returns (e': Edges, tok': seq<Token>)
    requires Sees(c, s, e, tok, i) && s.mail[i][0] == if again then Relinquish(x) else Release(x)
    requires Regrants(s.nodes[i], n, b, again, s.stamps)
    ensures Inv(c, After(s, i, n, Send(b, Locked(i))), e', tok')
  {
    RegrantVoter(c, s, e, tok, i, x, b, again, n);
    var out := Send(b, Locked(i));
    var y := if again then Queued else Over;
    e' := SetEdge(SetEdge(e, x, i, y), b, i, Granting);
    tok' := if again then tok[i := Spent] else tok;
    ReceiveMail(c, s, e, tok, i, n, out);
    RegrantPairs(c, s, e, tok, i, x, b, again, n);
    OneVoter(c, s, e, tok, e', tok', i, n, out);
    TwoRequesters(c, s, e, tok, i, n, out, x, y, b, tok');
  }

  lemma RegrantPairs(c: Config, s: System, e: Edges, tok: seq<Token>, i: nat, x: nat, b: nat, again: bool, n: Node)
    requires Frame(c, s, e, tok, i, n) && PairInv(c, s, e, tok) && x < |c.quorums| && b < |c.quorums|
    requires s.mail[i][0] == (if again then Relinquish(x) else Release(x))
    requires Regrants(s.nodes[i], n, b, again, s.stamps) && s.nodes[i].cur.pid == x
    requires if again then e[x][i].Yielding? && tok[i] == Yielded(x) else e[x][i].Freeing?
    requires e[b][i].Queued?
    ensures var e' := SetEdge(SetEdge(e, x, i, if again then Queued else Over), b, i, Granting);
            var tok' := if again then tok[i := Spent] else tok;
            Shape(c, After(s, i, n, Send(b, Locked(i)))) && PairInv(c, After(s, i, n, Send(b, Locked(i))), e', tok')
  {
    var e' := SetEdge(SetEdge(e, x, i, if again then Queued else Over), b, i, Granting);
    var tok' := if again then tok[i := Spent] else tok;
    var s' := After(s, i, n, Send(b, Locked(i)));
    forall r, w | 0 <= r < |c.quorums| && 0 <= w < |c.quorums| ensures Pair(c, s', e', tok', r, w) {
      assert Pair(c, s, e, tok, r, w);
      if again {
        RelinquishPair(c, s, e, tok, i, x, b, n, r, w);
      } else {
        ReleasePair(c, s, e, tok, i, x, b, n, r, w);
      }
    }
  }

  /** A returned vote was asked for because a queued request precedes its holder, so the removal
      is in bounds and the vote goes to a process that waits for it. */
  lemma OnRelinquish(c: Config, s: System, e: Edges, tok: seq<Token>, i: nat)
    returns (e': Edges, tok': seq<Token>)
    requires Sees(c, s, e, tok, i) && s.mail[i][0].Relinquish?
    ensures Defined(s.nodes[i], s.mail[i][0])
    ensures Inv(c, After(s, i, HandleRelinquish(s.nodes[i], i).0, HandleRelinquish(s.nodes[i], i).1), e', tok')
  {
    FirstMessage(c, s, e, tok, i);
    var x := s.mail[i][0].from;
    AtVoter(c, s, e, tok, x, i);
    var b := RelinquishNode(s.nodes[i], i, s.stamps);
    e', tok' := OnRegrant(c, s, e, tok, i, x, b, true, HandleRelinquish(s.nodes[i], i).0);
  }

  lemma OnReleaseNext(c: Config, s: System, e: Edges, tok: seq<Token>, i: nat)
    returns (e': Edges, tok': seq<Token>)
    requires Sees(c, s, e, tok, i) && s.mail[i][0].Release? && s.nodes[i].queue.size > 0
    ensures Inv(c, After(s, i, HandleRelease(s.nodes[i], i).0, HandleRelease(s.nodes[i], i).1), e', tok')
  {
    FirstMessage(c, s, e, tok, i);
    var x := s.mail[i][0].from;
    AtVoter(c, s, e, tok, x, i);
    var b := ReleaseNode(s.nodes[i], i, s.stamps);
    e', tok' := OnRegrant(c, s, e, tok, i, x, b, false, HandleRelease(s.nodes[i], i).0);
  }

  lemma OnReleaseLast(c: Config, s: System, e: Edges, tok: seq<Token>, i: nat, n: Node) returns (e': Edges)
    requires Sees(c, s, e, tok, i) && s.mail[i][0].Release? && s.nodes[i].queue.size == 0
    requires n == s.nodes[i].(voted := false, cur := NOBODY)
    ensures Inv(c, After(s, i, n, Silent), e', tok)
  {
    FirstMessage(c, s, e, tok, i);
    var x := s.mail[i][0].from;
    AtVoter(c, s, e, tok, x, i);
    e' := SetEdge(e, x, i, Over);
    ReceiveMail(c, s, e, tok, i, n, Silent);
    forall r, w | 0 <= r < |c.quorums| && 0 <= w < |c.quorums| ensures Pair(c, After(s, i, n, Silent), e', tok, r, w) {
      UnlockPair(c, s, e, tok, i, x, n, r, w);
    }
    ArrivedGrows(e, e', i);
    OneVoter(c, s, e, tok, e', tok, i, n, Silent);
    RowByVoter(c, s.phases[x], s.nodes[x].count, e[x], x, i, Over);
    OneRequester(c, s, e, tok, e', tok, i, n, Silent, x);
  }
}
