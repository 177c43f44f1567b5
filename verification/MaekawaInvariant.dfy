/** The inductive invariant of the lock: each vote is in exactly one place. */
module MaekawaInvariant {
  import opened MaekawaQueue
  import opened MaekawaNode
  import opened MaekawaProtocol

  /** The history of one requester's dealings with one voter. */
  datatype Edge =
    | Unsent     // no request sent
    | AskSent    // REQUEST in flight
    | Queued     // in the voter's queue
    | Granting   // LOCKED in flight
    | Held       // vote counted by the requester
    | Yielding   // RELINQUISH in flight
    | Freeing    // RELEASE in flight
    | Over       // released and forgotten

  /** What became of the one INQUIRE a voter may ever send. */
  datatype Token = Unused | Asked(r: nat) | Yielded(r: nat) | Spent

  predicate Granted(e: Edge) {
    e.Granting? || e.Held? || e.Yielding? || e.Freeing?
  }

  predicate VoterKind(m: Msg) { m.Locked? || m.Failed? || m.Inquire? }

  /** The messages of mail sent by x in its voter role, in order. */
  ghost function VFrom(mail: seq<Msg>, x: nat): seq<Msg> {
    if mail == [] then []
    else if VoterKind(mail[0]) && mail[0].from == x then [mail[0]] + VFrom(mail[1..], x)
    else VFrom(mail[1..], x)
  }

  /** The messages of mail sent by x in its requester role, in order. */
  ghost function RFrom(mail: seq<Msg>, x: nat): seq<Msg> {
    if mail == [] then []
    else if !VoterKind(mail[0]) && mail[0].from == x then [mail[0]] + RFrom(mail[1..], x)
    else RFrom(mail[1..], x)
  }

  lemma {:induction false} FromAppend(mail: seq<Msg>, m: Msg, x: nat)
    ensures VFrom(mail + [m], x) == if VoterKind(m) && m.from == x then VFrom(mail, x) + [m] else VFrom(mail, x)
    ensures RFrom(mail + [m], x) == if !VoterKind(m) && m.from == x then RFrom(mail, x) + [m] else RFrom(mail, x)
  {
    if mail == [] {
      assert mail + [m] == [m] && [m][1..] == [];
    } else {
      assert (mail + [m])[1..] == mail[1..] + [m];
      FromAppend(mail[1..], m, x);
    }
  }

  predicate InquireOnly(f: seq<Msg>, asked: bool, v: nat) {
    if asked then |f| == 1 && f[0] == Inquire(v) else |f| == 0
  }

  predicate LockedThenInquire(f: seq<Msg>, asked: bool, v: nat) {
    |f| > 0 && f[0] == Locked(v) && InquireOnly(f[1..], asked, v)
  }

  /** What the voter v may have in flight to r, in order; asked says whether v's INQUIRE is among it. */
  predicate VoterTraffic(f: seq<Msg>, e: Edge, asked: bool, v: nat) {
    match e
    case Unsent => |f| == 0 && !asked
    case AskSent => |f| == 0 && !asked
    case Yielding => |f| == 0 && !asked
    case Queued => (|f| == 0 || (|f| == 1 && f[0] == Failed(v))) && !asked
    case Granting =>
      || LockedThenInquire(f, asked, v)
      || (|f| > 0 && f[0] == Failed(v) && LockedThenInquire(f[1..], asked, v))
    case Held => InquireOnly(f, asked, v)
    case Freeing => InquireOnly(f, asked, v)
    case Over => InquireOnly(f, asked, v)
  }

  /** What the requester r has in flight to the voter. */
  function RequesterTraffic(e: Edge, r: nat, stamp: real): seq<Msg> {
    match e
    case AskSent => [Ask(r, At(stamp))]
    case Yielding => [Relinquish(r)]
    case Freeing => [Release(r)]
    case _ => []
  }

  ghost predicate HasPid(q: seq<Request>, r: nat) {
    exists k :: 0 <= k < |q| && q[k].pid == r
  }

  ghost predicate SomePrecedes(q: seq<Request>, a: Request) {
    exists k :: 0 <= k < |q| && Precedes(q[k], a)
  }

  predicate PairOk(f: seq<Msg>, g: seq<Msg>, voted: bool, cur: Request, waits: bool, failedBit: bool, stamp: real,
                   e: Edge, tok: Token, r: nat, v: nat)
  {
    && VoterTraffic(f, e, tok == Asked(r), v)
    && g == RequesterTraffic(e, r, stamp)
    && (Granted(e) <==> voted && cur.pid == r)
    && (Granted(e) ==> cur == Request(r, At(stamp)))
    && (e.Queued? <==> waits)
    && (failedBit ==> e.Queued? || e.Granting?)
    && (e.Yielding? <==> tok == Yielded(r))
  }

  type Edges = seq<seq<Edge>>

  ghost predicate Pair(c: Config, s: System, e: Edges, tok: seq<Token>, r: nat, v: nat)
    requires Shape(c, s) && Witness(c, e, tok) && r < |c.quorums| && v < |c.quorums|
  {
    PairOk(VFrom(s.mail[r], v), RFrom(s.mail[v], r), s.nodes[v].voted, s.nodes[v].cur,
           HasPid(s.nodes[v].queue.Contents(), r), s.nodes[r].failed[v], s.stamps[r], e[r][v], tok[v], r, v)
  }

  ghost predicate Witness(c: Config, e: Edges, tok: seq<Token>) {
    |e| == |tok| == |c.quorums| && forall r :: 0 <= r < |e| ==> |e[r]| == |c.quorums|
  }

  /** The requesters whose REQUEST the voter v has handled. */
  ghost function Arrived(e: Edges, v: nat): set<nat>
    requires forall r :: 0 <= r < |e| ==> v < |e[r]|
  {
    set r: nat | 0 <= r < |e| && !e[r][v].Unsent? && !e[r][v].AskSent?
  }

  ghost predicate QueueOk(q: Ring, stamps: seq<real>) {
    && q.Linear()
    && (forall k :: 0 <= k < q.size ==>
          0 <= q.Contents()[k].pid < |stamps| && q.Contents()[k].stamp == At(stamps[q.Contents()[k].pid]))
    && (forall j, k :: 0 <= j < k < q.size ==> q.Contents()[j].pid != q.Contents()[k].pid)
  }

  ghost predicate VoterOk(n: Node, tok: Token, stamps: seq<real>, arrived: nat) {
    && QueueOk(n.queue, stamps)
    && n.queue.tail <= arrived + (if tok.Spent? then 1 else 0)
    && (n.inquired <==> !tok.Unused?)
    && (n.voted ==> 0 <= n.cur.pid < |stamps|)
    && ((tok.Asked? || tok.Yielded?) && n.voted && n.cur.pid == tok.r ==>
          SomePrecedes(n.queue.Contents(), n.cur))
  }

  /** The votes counted by r. */
  ghost function HeldBy(row: seq<Edge>): set<nat> {
    set v: nat | 0 <= v < |row| && row[v].Held?
  }

  ghost predicate RequesterOk(c: Config, ph: Phase, count: int, row: seq<Edge>, r: nat)
    requires GoodConfig(c) && r < |c.quorums| && |row| == |c.quorums|
  {
    var q := c.quorums[r];
    && GoodRow(c, r)
    && (forall v :: 0 <= v < |row| && v !in q ==> row[v].Unsent?)
    && match ph
       case Idle => forall v :: 0 <= v < |row| ==> row[v].Unsent?
       case Sending(next) =>
         && next < c.k && count == 0
         && (forall j :: next <= j < c.k ==> row[q[j]].Unsent?)
         && (forall v :: 0 <= v < |row| ==> row[v].Unsent? || row[v].AskSent? || row[v].Queued? || row[v].Granting?)
       case Waiting =>
         && count == |HeldBy(row)|
         && (forall v :: 0 <= v < |row| ==> !row[v].Freeing? && !row[v].Over?)
       case InCS => forall v :: 0 <= v < |row| && v in q ==> row[v].Held?
       case Releasing(next) =>
         && next < c.k
         && (forall j :: next <= j < c.k ==> row[q[j]].Held?)
         && (forall j :: 0 <= j < next ==> row[q[j]].Freeing? || row[q[j]].Over?)
       case Done => forall v :: 0 <= v < |row| && v in q ==> row[v].Freeing? || row[v].Over?
  }

  ghost predicate MailOk(p: nat, mail: seq<Msg>) {
    forall k :: 0 <= k < |mail| ==> mail[k].from < p
  }

  ghost predicate MailInv(c: Config, s: System)
    requires Shape(c, s)
  {
    forall i :: 0 <= i < |c.quorums| ==> MailOk(|c.quorums|, s.mail[i])
  }

  ghost predicate PairInv(c: Config, s: System, e: Edges, tok: seq<Token>)
    requires Shape(c, s) && Witness(c, e, tok)
  {
    forall r, v :: 0 <= r < |c.quorums| && 0 <= v < |c.quorums| ==> Pair(c, s, e, tok, r, v)
  }

  ghost predicate VoterInv(c: Config, s: System, e: Edges, tok: seq<Token>)
    requires Shape(c, s) && Witness(c, e, tok)
  {
    forall v :: 0 <= v < |c.quorums| ==> VoterOk(s.nodes[v], tok[v], s.stamps, |Arrived(e, v)|)
  }

  ghost predicate RequesterInv(c: Config, s: System, e: Edges, tok: seq<Token>)
    requires GoodConfig(c) && Shape(c, s) && Witness(c, e, tok)
  {
    forall r :: 0 <= r < |c.quorums| ==> RequesterOk(c, s.phases[r], s.nodes[r].count, e[r], r)
  }

  /** For some edge states e and inquiry tokens tok, which record where each vote is. */
  ghost predicate Inv(c: Config, s: System, e: Edges, tok: seq<Token>) {
    && GoodConfig(c) && Shape(c, s) && Witness(c, e, tok)
    && MailInv(c, s)
    && PairInv(c, s, e, tok)
    && VoterInv(c, s, e, tok)
    && RequesterInv(c, s, e, tok)
  }

  /** Two processes are never both between acquire and release. */
  lemma InvExcludes(c: Config, s: System, e: Edges, tok: seq<Token>, a: nat, b: nat)
    requires Inv(c, s, e, tok)
    requires a < |c.quorums| && b < |c.quorums| && s.phases[a].InCS? && s.phases[b].InCS?
    ensures a == b
  {
    assert Meet(c, a, b);
    var v :| 0 <= v < |c.quorums| && v in c.quorums[a] && v in c.quorums[b];
    assert Pair(c, s, e, tok, a, v) && Pair(c, s, e, tok, b, v);
    assert RequesterOk(c, s.phases[a], s.nodes[a].count, e[a], a);
    assert RequesterOk(c, s.phases[b], s.nodes[b].count, e[b], b);
  }

  lemma InitialInv(c: Config, s: System) returns (e: Edges, tok: seq<Token>)
    requires GoodConfig(c) && Initial(c, s)
    ensures Inv(c, s, e, tok)
  {
    var p := |c.quorums|;
    e := seq(p, _ => seq(p, _ => Unsent));
    tok := seq(p, _ => Unused);
    forall r, v | 0 <= r < p && 0 <= v < p ensures Pair(c, s, e, tok, r, v) {
      assert s.nodes[v].queue.Contents() == [];
    }
  }
}
