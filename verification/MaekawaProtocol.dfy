/** The lock as a step system: processes with FIFO mailboxes, each requesting the lock at most
    once, interleaved one handler call or one message send at a time. */
module MaekawaProtocol {
  import opened MaekawaQueue
  import opened MaekawaNode

  /** Who votes for whom: quorums[i] is the table row S[i], k the number of votes needed. */
  datatype Config = Config(quorums: seq<seq<nat>>, k: nat)

  ghost predicate GoodConfig(c: Config) {
    && 0 < c.k && c.k + 1 < MAXQ
    && (forall r :: 0 <= r < |c.quorums| ==> GoodRow(c, r))
    && (forall a, b :: 0 <= a < |c.quorums| && 0 <= b < |c.quorums| ==> Meet(c, a, b))
    && (forall a, b :: 0 <= a < |c.quorums| && 0 <= b < |c.quorums| ==>
          Mutual(c, a, b))
  }

  ghost predicate GoodRow(c: Config, r: nat)
    requires r < |c.quorums|
  {
    && |c.quorums[r]| == c.k && r in c.quorums[r]
    && (forall j :: 0 <= j < c.k ==> c.quorums[r][j] < |c.quorums|)
    && (forall i, j :: 0 <= i < j < c.k ==> c.quorums[r][i] != c.quorums[r][j])
  }

  ghost predicate Meet(c: Config, a: nat, b: nat)
    requires a < |c.quorums| && b < |c.quorums|
  {
    exists v :: 0 <= v < |c.quorums| && v in c.quorums[a] && v in c.quorums[b]
  }

  ghost predicate Mutual(c: Config, a: nat, b: nat)
    requires a < |c.quorums| && b < |c.quorums|
  {
    b in c.quorums[a] ==> a in c.quorums[b]
  }

  /** Where a process is in its one pass through acquire and release. */
  datatype Phase =
    | Idle                   // not requesting; serves messages
    | Sending(next: nat)     // inside sendRequest, next recipient quorum[next]
    | Waiting                // the receive loop of acquireLockMaekawa
    | InCS                   // between the return of acquire and the call of release
    | Releasing(next: nat)   // inside releaseLockMaekawa
    | Done                   // the receive loop of main

  datatype System = System(
    nodes: seq<Node>, phases: seq<Phase>, stamps: seq<real>, mail: seq<seq<Msg>>)

  ghost predicate Initial(c: Config, s: System) {
    var p := |c.quorums|;
    && |s.nodes| == |s.phases| == |s.stamps| == |s.mail| == p
    && (forall i :: 0 <= i < p ==> s.phases[i] == Idle && s.mail[i] == [])
    && (forall i :: 0 <= i < p ==>
          s.nodes[i] == Node(false, Request(0, At(0.0)),
                             Ring(seq(MAXQ, _ => Request(0, At(0.0))), 0, 0, 0), false, 0,
                             seq(p, _ => false)))
  }

  datatype Step =
    | Start(i: nat, time: real)
    | SendRequest(i: nat)
    | Receive(i: nat)
    | Enter(i: nat)
    | Leave(i: nat)
    | SendRelease(i: nat)

  ghost predicate Shape(c: Config, s: System) {
    && |s.nodes| == |s.phases| == |s.stamps| == |s.mail| == |c.quorums|
    && (forall i :: 0 <= i < |s.nodes| ==>
          s.nodes[i].queue.Valid() && |s.nodes[i].failed| == |c.quorums|)
  }

  ghost predicate Enabled(c: Config, s: System, st: Step)
    requires GoodConfig(c) && Shape(c, s)
  {
    && st.i < |c.quorums|
    && match st
       case Start(i, _) => s.phases[i].Idle?
       case SendRequest(i) => s.phases[i].Sending? && s.phases[i].next < c.k
       case Receive(i) =>
         && s.mail[i] != []
         && (s.phases[i].Idle? || s.phases[i].Done? || (s.phases[i].Waiting? && s.nodes[i].count < c.k))
       case Enter(i) => s.phases[i].Waiting? && s.nodes[i].count >= c.k
       case Leave(i) => s.phases[i].InCS?
       case SendRelease(i) => s.phases[i].Releasing? && s.phases[i].next < c.k
  }

  ghost function Deliver(mail: seq<seq<Msg>>, out: Out): (mail': seq<seq<Msg>>)
    ensures |mail'| == |mail|
  {
    if out.Send? && 0 <= out.dest < |mail| then mail[out.dest := mail[out.dest] + [out.msg]]
    else mail
  }

  /** The handler is defined on the message the step would give it. */
  ghost predicate Safe(c: Config, s: System, st: Step)
    requires GoodConfig(c) && Shape(c, s) && Enabled(c, s, st)
  {
    st.Receive? ==> Defined(s.nodes[st.i], s.mail[st.i][0])
  }

  ghost function Apply(c: Config, s: System, st: Step): System
    requires GoodConfig(c) && Shape(c, s) && Enabled(c, s, st) && Safe(c, s, st)
  {
    match st
    case Start(i, time) =>
      s.(phases := s.phases[i := Sending(0)], stamps := s.stamps[i := time],
         nodes := s.nodes[i := s.nodes[i].(count := 0)])
    case SendRequest(i) =>
      var j := s.phases[i].next;
      assert GoodRow(c, i);
      s.(phases := s.phases[i := if j + 1 == c.k then Waiting else Sending(j + 1)],
         mail := Deliver(s.mail, Send(c.quorums[i][j], Ask(i, At(s.stamps[i])))))
    case Receive(i) =>
      var (n, out) := Handle(s.nodes[i], i, s.mail[i][0]);
      s.(nodes := s.nodes[i := n], mail := Deliver(s.mail[i := s.mail[i][1..]], out))
    case Enter(i) =>
      s.(phases := s.phases[i := InCS], nodes := s.nodes[i := s.nodes[i].(count := c.k, voted := true)])
    case Leave(i) =>
      s.(phases := s.phases[i := Releasing(0)])
    case SendRelease(i) =>
      var j := s.phases[i].next;
      assert GoodRow(c, i);
      s.(phases := s.phases[i := if j + 1 == c.k then Done else Releasing(j + 1)],
         mail := Deliver(s.mail, Send(c.quorums[i][j], Release(i))))
  }

  /** s leads to t by the steps of run, one after the other. */
  ghost predicate Runs(c: Config, s: System, run: seq<Step>, t: System)
    decreases |run|
  {
    if run == [] then s == t
    else
      && GoodConfig(c) && Shape(c, s) && Enabled(c, s, run[0]) && Safe(c, s, run[0])
      && Runs(c, Apply(c, s, run[0]), run[1..], t)
  }
}
