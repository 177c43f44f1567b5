/** What a process has when it is inside, and what it does meanwhile. */
module MaekawaVotes {
  import opened MaekawaQueue
  import opened MaekawaNode
  import opened MaekawaProtocol
  import opened MaekawaInvariant
  import opened MaekawaSafety

  /** In every state of every run, whoever is in the critical section has the vote of every process of
      its quorum, its own among them: each holds that process's request, with its time stamp. */
  lemma HolderHasVotes(n: nat, s: System, run: seq<Step>, t: System, i: nat, v: nat)
    requires 0 < n && 2 * n < MAXQ
    requires Initial(Grid(n), s) && Runs(Grid(n), s, run, t)
    requires i < |t.phases| && t.phases[i].InCS?
    ensures GoodConfig(Grid(n)) && Shape(Grid(n), t) && i in Grid(n).quorums[i]
    ensures v in Grid(n).quorums[i] ==>
              v < |t.nodes| && t.nodes[v].voted && t.nodes[v].cur == Request(i, At(t.stamps[i]))
  {
    var c := Grid(n);
    GridIsGood(n);
    var e0, tok0 := InitialInv(c, s);
    var e, tok := RunKeeps(c, s, e0, tok0, run, t);
    assert GoodRow(c, i);
    if v in c.quorums[i] {
      assert RequesterOk(c, t.phases[i], t.nodes[i].count, e[i], i);
      assert Pair(c, t, e, tok, i, v);
    }
  }

  /** The one step that a process which is not in a receive loop can take. */
  function OwnStep(c: Config, s: System, i: nat): (st: Step)
    requires i < |s.phases| && Busy(c, s, i)
  {
    match s.phases[i]
    case Sending(_) => SendRequest(i)
    case Waiting => Enter(i)
    case InCS => Leave(i)
    case Releasing(_) => SendRelease(i)
  }

  /** Sending, with enough votes, inside, or releasing. */
  predicate Busy(c: Config, s: System, i: nat)
    requires i < |s.phases|
  {
    || s.phases[i].Sending? || s.phases[i].InCS? || s.phases[i].Releasing?
    || (s.phases[i].Waiting? && i < |s.nodes| && s.nodes[i].count >= c.k)
  }

  /** Such a process handles no message: no step of another touches its votes, its queue or its counts,
      and its own next step is that one. */
  lemma HandlesNothing(c: Config, s: System, st: Step, i: nat)
    requires GoodConfig(c) && Shape(c, s) && Enabled(c, s, st) && Safe(c, s, st)
    requires i < |s.phases| && Busy(c, s, i)
    ensures st == OwnStep(c, s, i) ||
            (st.i != i && var t := Apply(c, s, st);
                          t.nodes[i] == s.nodes[i] && t.phases[i] == s.phases[i] && t.stamps[i] == s.stamps[i])
  {
  }
}
