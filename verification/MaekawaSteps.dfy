/** Every step of the lock keeps the invariant. */
module MaekawaSteps {
  import opened MaekawaQueue
  import opened MaekawaNode
  import opened MaekawaProtocol
  import opened MaekawaInvariant
  import opened MaekawaVoter

  /** f after out, if out is a message to j from x in the given role. */
  function Plus(f: seq<Msg>, out: Out, j: nat, x: nat, voterRole: bool): seq<Msg> {
    if out.Send? && out.dest == j && VoterKind(out.msg) == voterRole && out.msg.from == x then f + [out.msg] else f
  }

  lemma DeliverFrom(mail: seq<seq<Msg>>, out: Out, j: nat, x: nat)
    requires j < |mail|
    ensures VFrom(Deliver(mail, out)[j], x) == Plus(VFrom(mail[j], x), out, j, x, true)
    ensures RFrom(Deliver(mail, out)[j], x) == Plus(RFrom(mail[j], x), out, j, x, false)
  {
    if out.Send? && out.dest == j {
      FromAppend(mail[j], out.msg, x);
    }
  }

  /** What a mailbox filters to after process i takes its first message and out is delivered. */
  lemma AfterReceive(mail: seq<seq<Msg>>, i: nat, out: Out, j: nat, x: nat)
    requires i < |mail| && j < |mail| && mail[i] != []
    ensures var m := mail[i][0];
            var mail' := Deliver(mail[i := mail[i][1..]], out);
            var taken := j == i && m.from == x;
            var f, g := VFrom(mail[j], x), RFrom(mail[j], x);
            && (taken && VoterKind(m) ==> |f| > 0 && f[0] == m)
            && (taken && !VoterKind(m) ==> |g| > 0 && g[0] == m)
            && VFrom(mail'[j], x) == Plus(if taken && VoterKind(m) then f[1..] else f, out, j, x, true)
            && RFrom(mail'[j], x) == Plus(if taken && !VoterKind(m) then g[1..] else g, out, j, x, false)
  {
    DeliverFrom(mail[i := mail[i][1..]], out, j, x);
  }

  lemma MailStaysOk(p: nat, mail: seq<seq<Msg>>, out: Out)
    requires forall j :: 0 <= j < |mail| ==> MailOk(p, mail[j])
    requires out.Send? ==> out.msg.from < p
    ensures forall j :: 0 <= j < |mail| ==> MailOk(p, Deliver(mail, out)[j])
  {
  }

  lemma TailOk(p: nat, mail: seq<Msg>)
    requires MailOk(p, mail) && mail != []
    ensures MailOk(p, mail[1..]) && mail[0].from < p
  {
  }

  ghost function SetEdge(e: Edges, r: nat, v: nat, x: Edge): Edges
    requires r < |e| && v < |e[r]|
  {
    e[r := e[r][v := x]]
  }

  ghost function After(s: System, i: nat, n: Node, out: Out): System
    requires i < |s.nodes| && i < |s.mail| && s.mail[i] != []
  {
    s.(nodes := s.nodes[i := n], mail := Deliver(s.mail[i := s.mail[i][1..]], out))
  }

  ghost predicate Frame(c: Config, s: System, e: Edges, tok: seq<Token>, i: nat, n: Node) {
    && Shape(c, s) && Witness(c, e, tok) && i < |c.quorums| && s.mail[i] != []
    && n.queue.Valid() && |n.failed| == |c.quorums|
  }

  ghost predicate Sees(c: Config, s: System, e: Edges, tok: seq<Token>, i: nat)
  {
    Inv(c, s, e, tok) && i < |c.quorums| && Enabled(c, s, Receive(i))
  }

  /** The pair (r, w) is as it should be after process i becomes n and sends out. */
  ghost predicate PairAfter(c: Config, s: System, e: Edges, tok: seq<Token>, i: nat, n: Node, out: Out, r: nat, w: nat)
    requires Frame(c, s, e, tok, i, n) && r < |c.quorums| && w < |c.quorums|
  {
    Pair(c, After(s, i, n, out), e, tok, r, w)
  }

  // LOCKED: the requester i counts v's vote.

  lemma LockedPair(c: Config, s: System, e: Edges, tok: seq<Token>, i: nat, v: nat, n: Node, r: nat, w: nat)
    requires Frame(c, s, e, tok, i, n) && s.mail[i][0] == Locked(v) && v < |c.quorums|
    requires n == s.nodes[i].(count := s.nodes[i].count + 1, failed := s.nodes[i].failed[v := false])
    requires r < |c.quorums| && w < |c.quorums| && Pair(c, s, e, tok, r, w) && e[i][v].Granting?
    ensures PairAfter(c, s, SetEdge(e, i, v, Held), tok, i, n, Silent, r, w)
  {
    AfterReceive(s.mail, i, Silent, r, w);
    AfterReceive(s.mail, i, Silent, w, r);
  }

  // FAILED: the requester i notes that v put it behind another.

  lemma FailedPair(c: Config, s: System, e: Edges, tok: seq<Token>, i: nat, v: nat, n: Node, r: nat, w: nat)
    requires Frame(c, s, e, tok, i, n) && s.mail[i][0] == Failed(v) && v < |c.quorums|
    requires n == s.nodes[i].(failed := s.nodes[i].failed[v := true])
    requires r < |c.quorums| && w < |c.quorums| && Pair(c, s, e, tok, r, w)
    ensures PairAfter(c, s, e, tok, i, n, Silent, r, w)
  {
    AfterReceive(s.mail, i, Silent, r, w);
    AfterReceive(s.mail, i, Silent, w, r);
  }

  // INQUIRE: the requester i gives v's vote back, or ignores the question.

  lemma YieldPair(c: Config, s: System, e: Edges, tok: seq<Token>, i: nat, v: nat, n: Node, r: nat, w: nat)
    requires Frame(c, s, e, tok, i, n) && s.mail[i][0] == Inquire(v) && v < |c.quorums|
    requires n == s.nodes[i].(count := s.nodes[i].count - 1)
    requires r < |c.quorums| && w < |c.quorums| && Pair(c, s, e, tok, r, w) && e[i][v].Held? && tok[v] == Asked(i)
    ensures PairAfter(c, s, SetEdge(e, i, v, Yielding), tok[v := Yielded(i)], i, n, Send(v, Relinquish(i)), r, w)
  {
    AfterReceive(s.mail, i, Send(v, Relinquish(i)), r, w);
    AfterReceive(s.mail, i, Send(v, Relinquish(i)), w, r);
  }

  lemma IgnorePair(c: Config, s: System, e: Edges, tok: seq<Token>, i: nat, v: nat, n: Node, r: nat, w: nat)
    requires Frame(c, s, e, tok, i, n) && s.mail[i][0] == Inquire(v) && v < |c.quorums| && n == s.nodes[i]
    requires r < |c.quorums| && w < |c.quorums| && Pair(c, s, e, tok, r, w)
    requires tok[v] == Asked(i) && (e[i][v].Held? || e[i][v].Freeing? || e[i][v].Over?)
    ensures PairAfter(c, s, e, tok[v := Spent], i, n, Silent, r, w)
  {
    AfterReceive(s.mail, i, Silent, r, w);
    AfterReceive(s.mail, i, Silent, w, r);
  }

  // REQUEST: the voter i grants its vote, or queues the request and answers FAILED,
  // asks the holder, or says nothing.

  lemma GrantPair(c: Config, s: System, e: Edges, tok: seq<Token>, i: nat, x: nat, n: Node, r: nat, w: nat)
    requires Frame(c, s, e, tok, i, n) && x < |c.quorums| && s.mail[i][0] == Ask(x, At(s.stamps[x]))
    requires !s.nodes[i].voted && n == s.nodes[i].(voted := true, cur := Request(x, At(s.stamps[x])))
    requires r < |c.quorums| && w < |c.quorums| && Pair(c, s, e, tok, r, w) && e[x][i].AskSent?
    ensures PairAfter(c, s, SetEdge(e, x, i, Granting), tok, i, n, Send(x, Locked(i)), r, w)
  {
    AfterReceive(s.mail, i, Send(x, Locked(i)), r, w);
    AfterReceive(s.mail, i, Send(x, Locked(i)), w, r);
  }

  ghost predicate Joins(n: Node, n': Node, x: nat) {
    && n.queue.Valid() && n'.queue.Valid()
    && n' == n.(queue := n'.queue, inquired := n'.inquired)
    && (forall r: nat :: HasPid(n'.queue.Contents(), r) <==> HasPid(n.queue.Contents(), r) || r == x)
  }

  lemma QueuePair(c: Config, s: System, e: Edges, tok: seq<Token>, i: nat, x: nat, n: Node, out: Out, r: nat, w: nat)
    requires Frame(c, s, e, tok, i, n) && x < |c.quorums| && s.mail[i][0] == Ask(x, At(s.stamps[x]))
    requires Joins(s.nodes[i], n, x) && (out == Silent || out == Send(x, Failed(i)))
    requires r < |c.quorums| && w < |c.quorums| && Pair(c, s, e, tok, r, w) && e[x][i].AskSent?
    ensures PairAfter(c, s, SetEdge(e, x, i, Queued), tok, i, n, out, r, w)
  {
    AfterReceive(s.mail, i, out, r, w);
    AfterReceive(s.mail, i, out, w, r);
  }

  lemma InquirePair(c: Config, s: System, e: Edges, tok: seq<Token>, i: nat, x: nat, h: nat, n: Node, r: nat, w: nat)
    requires Frame(c, s, e, tok, i, n) && x < |c.quorums| && s.mail[i][0] == Ask(x, At(s.stamps[x]))
    requires Joins(s.nodes[i], n, x) && tok[i].Unused? && s.nodes[i].voted && s.nodes[i].cur.pid == h
    requires r < |c.quorums| && w < |c.quorums| && Pair(c, s, e, tok, r, w) && e[x][i].AskSent?
    ensures PairAfter(c, s, SetEdge(e, x, i, Queued), tok[i := Asked(h)], i, n, Send(h, Inquire(i)), r, w)
  {
    AfterReceive(s.mail, i, Send(h, Inquire(i)), r, w);
    AfterReceive(s.mail, i, Send(h, Inquire(i)), w, r);
  }

  // RELINQUISH and RELEASE: the vote moves on to b, or becomes free.

  lemma RelinquishPair(c: Config, s: System, e: Edges, tok: seq<Token>, i: nat, x: nat, b: nat, n: Node, r: nat, w: nat)
    requires Frame(c, s, e, tok, i, n) && x < |c.quorums| && b < |c.quorums| && s.mail[i][0] == Relinquish(x)
    requires Regrants(s.nodes[i], n, b, true, s.stamps) && s.nodes[i].cur.pid == x
    requires tok[i] == Yielded(x) && e[x][i].Yielding? && e[b][i].Queued?
    requires r < |c.quorums| && w < |c.quorums| && Pair(c, s, e, tok, r, w)
    ensures PairAfter(c, s, SetEdge(SetEdge(e, x, i, Queued), b, i, Granting), tok[i := Spent], i, n,
                      Send(b, Locked(i)), r, w)
  {
    AfterReceive(s.mail, i, Send(b, Locked(i)), r, w);
    AfterReceive(s.mail, i, Send(b, Locked(i)), w, r);
  }

  lemma ReleasePair(c: Config, s: System, e: Edges, tok: seq<Token>, i: nat, x: nat, b: nat, n: Node, r: nat, w: nat)
    requires Frame(c, s, e, tok, i, n) && x < |c.quorums| && b < |c.quorums| && s.mail[i][0] == Release(x)
    requires Regrants(s.nodes[i], n, b, false, s.stamps) && s.nodes[i].cur.pid == x
    requires e[x][i].Freeing? && e[b][i].Queued?
    requires r < |c.quorums| && w < |c.quorums| && Pair(c, s, e, tok, r, w)
    ensures PairAfter(c, s, SetEdge(SetEdge(e, x, i, Over), b, i, Granting), tok, i, n, Send(b, Locked(i)), r, w)
  {
    AfterReceive(s.mail, i, Send(b, Locked(i)), r, w);
    AfterReceive(s.mail, i, Send(b, Locked(i)), w, r);
  }

  lemma UnlockPair(c: Config, s: System, e: Edges, tok: seq<Token>, i: nat, x: nat, n: Node, r: nat, w: nat)
    requires Frame(c, s, e, tok, i, n) && x < |c.quorums| && s.mail[i][0] == Release(x)
    requires n == s.nodes[i].(voted := false, cur := NOBODY)
    requires s.nodes[i].voted && s.nodes[i].cur.pid == x && e[x][i].Freeing?
    requires r < |c.quorums| && w < |c.quorums| && Pair(c, s, e, tok, r, w)
    ensures PairAfter(c, s, SetEdge(e, x, i, Over), tok, i, n, Silent, r, w)
  {
    AfterReceive(s.mail, i, Silent, r, w);
    AfterReceive(s.mail, i, Silent, w, r);
  }
}
