/** The two-level scheduler: containers in turn, and in each round one process of the container. */
module Scheduler {
  import opened Basics
  import opened SchedulerSpec

  const NCONTAINER: nat := 15
  const NPROC: nat := 64

  datatype Proc = Proc(runnable: bool, pid: nat, container: nat)

  /** The container table: status, membership by pid, last process run; and the current container.
      Process numbers grow past NPROC; beyond is what the memory behind a container's membership
      array reads as. */
  datatype Containers = Containers(status: seq<bool>, member: seq<seq<bool>>, last: seq<nat>, current: nat,
                                   beyond: (nat, nat) -> bool)

  predicate Ok(t: Containers) {
    && |t.status| == |t.member| == |t.last| == NCONTAINER && t.current < NCONTAINER
    && (forall c :: 0 <= c < NCONTAINER ==> |t.member[c]| == NPROC)
    && (forall c :: 0 <= c < NCONTAINER ==> t.last[c] < NPROC)
  }

  predicate TableOk(procs: seq<Proc>) {
    |procs| == NPROC
  }

  /** What the membership test of container c reads for a process number. */
  function Member(t: Containers, c: nat, pid: nat): bool
    requires Ok(t) && c < NCONTAINER
  {
    if pid < NPROC then t.member[c][pid] else t.beyond(c, pid)
  }

  /** A process may run in a round of container c. */
  predicate Eligible(t: Containers, c: nat, p: Proc)
    requires Ok(t) && c < NCONTAINER
  {
    p.runnable && (Member(t, c, p.pid) || p.container == 0)
  }

  function Marks(t: Containers, c: nat, procs: seq<Proc>): (ok: seq<bool>)
    requires Ok(t) && c < NCONTAINER && TableOk(procs)
    ensures |ok| == NPROC && forall i :: 0 <= i < NPROC ==> ok[i] == Eligible(t, c, procs[i])
  {
    seq(NPROC, i requires 0 <= i < NPROC => Eligible(t, c, procs[i]))
  }

  function NextContainer(t: Containers): (c: nat)
    requires Ok(t)
    ensures c < NCONTAINER
  {
    var r := Around(t.status, Following(NCONTAINER, t.current));
    if r.Some? then r.value else t.current
  }

  function Chosen(t: Containers, procs: seq<Proc>): (r: Option<nat>)
    requires Ok(t) && TableOk(procs)
    ensures r.Some? ==> r.value < NPROC && Eligible(t, NextContainer(t), procs[r.value])
  {
    var c := NextContainer(t);
    Around(Marks(t, c, procs), Following(NPROC, t.last[c]))
  }

  function AfterRound(t: Containers, procs: seq<Proc>): (t': Containers)
    requires Ok(t) && TableOk(procs)
    ensures Ok(t')
  {
    var (c, r) := (NextContainer(t), Chosen(t, procs));
    t.(last := if r.Some? then t.last[c := r.value] else t.last, current := c)
  }

  /** A process in a container runs only in rounds of containers whose membership bit it has. */
  lemma OnlyOwnRounds(t: Containers, procs: seq<Proc>)
    requires Ok(t) && TableOk(procs) && Chosen(t, procs).Some?
    ensures var p := procs[Chosen(t, procs).value];
      p.runnable && (p.container != 0 ==> Member(t, NextContainer(t), p.pid))
  {
  }

  lemma MarksSame(t: Containers, t': Containers, c: nat, procs: seq<Proc>)
    requires Ok(t) && Ok(t') && t'.member == t.member && t'.beyond == t.beyond && c < NCONTAINER && TableOk(procs)
    ensures Marks(t', c, procs) == Marks(t, c, procs)
  {
  }

  /** A round is the choice of a container and then of a process. */
  lemma RoundIs(t0: Containers, t: Containers, cid: nat, r: Option<nat>, procs: seq<Proc>)
    requires Ok(t0) && Ok(t) && TableOk(procs) && cid == NextContainer(t0)
    requires t == t0.(current := cid)
    requires r == Around(Marks(t, cid, procs), Following(NPROC, t.last[cid]))
    ensures r == Chosen(t0, procs) && (r.Some? ==> r.value < NPROC)
    ensures AfterRound(t0, procs) == if r.Some? then t.(last := t.last[cid := r.value]) else t
  {
    MarksSame(t0, t, cid, procs);
  }

  /** In the fields of the tables: p is runnable, and it is in no container or container c has its bit. */
  predicate MayRun(t: Containers, c: nat, p: Proc)
    requires Ok(t) && c < NCONTAINER
  {
    && p.runnable
    && (p.container == 0 || (p.pid < NPROC && t.member[c][p.pid]) || (p.pid >= NPROC && t.beyond(c, p.pid)))
  }

  /** Place r is the first of the process table, after the last one that ran for c, that may run for c. */
  ghost predicate FirstToRun(t: Containers, c: nat, procs: seq<Proc>, r: nat)
    requires Ok(t) && c < NCONTAINER && TableOk(procs)
  {
    && r < NPROC && MayRun(t, c, procs[r])
    && forall j: nat :: j < NPROC && Earlier((t.last[c] + 1) % NPROC, j, r) ==> !MayRun(t, c, procs[j])
  }

  /** Container c is the first live one after the current one, or the current one if none is live. */
  ghost predicate NextLive(t: Containers, c: nat)
    requires Ok(t)
  {
    c < NCONTAINER &&
    if exists d :: 0 <= d < NCONTAINER && t.status[d] then
      t.status[c] && forall d: nat :: d < NCONTAINER && Earlier((t.current + 1) % NCONTAINER, d, c) ==> !t.status[d]
    else c == t.current
  }

  lemma NextIsLive(t: Containers)
    requires Ok(t)
    ensures NextLive(t, NextContainer(t))
  {
    var start, c := Following(NCONTAINER, t.current), NextContainer(t);
    assert start == Successor(NCONTAINER, t.current);
    AroundIs(t.status, start, c);
  }

  /** The search of the process table, in its fields: nobody is found exactly if nobody may run, and
      otherwise the first process after the last that may. */
  lemma PickIs(t: Containers, c: nat, procs: seq<Proc>, r: Option<nat>)
    requires Ok(t) && TableOk(procs) && c < NCONTAINER
    requires r == Around(Marks(t, c, procs), Following(NPROC, t.last[c]))
    ensures r == None <==> forall i :: 0 <= i < NPROC ==> !MayRun(t, c, procs[i])
    ensures r.Some? ==> FirstToRun(t, c, procs, r.value)
  {
    var ok, start := Marks(t, c, procs), Following(NPROC, t.last[c]);
    assert start == Successor(NPROC, t.last[c]);
    assert forall i :: 0 <= i < NPROC ==> ok[i] == MayRun(t, c, procs[i]);
    AroundIs(ok, start, if r.Some? then r.value else 0);
  }

  /** The loop over the containers, from cid on. */
  method FindLive(status: seq<bool>, cid: nat) returns (r: Option<nat>)
    requires |status| == NCONTAINER && cid < NCONTAINER
    ensures r == Around(status, cid)
  {
    var count, at: nat := 0, cid;
    while count < NCONTAINER
      invariant count <= NCONTAINER && at < NCONTAINER
      invariant Around(status, cid) == Search(status, at, |status| - count)
    {
      if status[at] {
        return Some(at);
      }
      at := Successor(NCONTAINER, at);
      count := count + 1;
    }
    r := None;
  }

  class Cpu {
    var t: Containers

    /** The next live container after the current one. */
    method GetContainerToRun() returns (cid: nat)
      requires Ok(t)
      modifies this
      ensures Ok(t) && cid == NextContainer(old(t)) && t == old(t).(current := cid)
    {
      var r := FindLive(t.status, Successor(NCONTAINER, t.current));
      cid := if r.Some? then r.value else t.current;
      t := t.(current := cid);
    }

    /** One round of the scheduler's outer loop, up to the choice of a process. */
    method Round(procs: seq<Proc>) returns (r: Option<nat>)
      requires Ok(t) && TableOk(procs)
      modifies this
      ensures Ok(t) && r == Chosen(old(t), procs) && t == AfterRound(old(t), procs)
      ensures NextLive(old(t), t.current)
      ensures r == None <==> forall i :: 0 <= i < NPROC ==> !MayRun(old(t), t.current, procs[i])
      ensures r.Some? ==> FirstToRun(old(t), t.current, procs, r.value)
    {
      ghost var t0 := t;
      NextIsLive(t);
      PickIs(t, NextContainer(t), procs, Chosen(t, procs));
      var cid := GetContainerToRun();
      r := Pick(t, cid, procs);
      RoundIs(t0, t, cid, r, procs);
      if r.Some? {
        t := t.(last := t.last[cid := r.value]);
      }
    }
  }

  /** The search for a process, from the one after the container's last. */
  method Pick(t: Containers, cid: nat, procs: seq<Proc>) returns (r: Option<nat>)
    requires Ok(t) && TableOk(procs) && cid < NCONTAINER
    ensures r == Around(Marks(t, cid, procs), Following(NPROC, t.last[cid]))
    ensures r == None <==> forall i :: 0 <= i < NPROC ==> !MayRun(t, cid, procs[i])
    ensures r.Some? ==> FirstToRun(t, cid, procs, r.value)
  {
    PickIs(t, cid, procs, Around(Marks(t, cid, procs), Following(NPROC, t.last[cid])));
    var last: nat := Successor(NPROC, t.last[cid]);
    var count := 0;
    ghost var ok := Marks(t, cid, procs);
    while count < NPROC
      invariant count <= NPROC && last < NPROC
      invariant Around(ok, Following(NPROC, t.last[cid])) == Search(ok, last, |ok| - count)
    {
      var p := procs[last];
      assert ok[last] == Eligible(t, cid, p);
      if p.runnable && (Member(t, cid, p.pid) || p.container == 0) {
        return Some(last);
      }
      count := count + 1;
      last := Successor(NPROC, last);
    }
    return None;
  }

  // Bounded waiting.

  function LiveSet(status: seq<bool>): set<nat> {
    set c: nat | c < |status| && status[c]
  }

  /** The live containers whose turn comes no later than that of container c. */
  function Before(t: Containers, c: nat): set<nat>
    requires Ok(t) && c < NCONTAINER
  {
    set i: nat | i < NCONTAINER && t.status[i] && Distance(NCONTAINER, Following(NCONTAINER, t.current), i)
      <= Distance(NCONTAINER, Following(NCONTAINER, t.current), c)
  }

  /** How many places container c still has to pass before process x is its next. */
  function Gap(t: Containers, c: nat, x: nat): nat
    requires Ok(t) && c < NCONTAINER && x < NPROC
  {
    Distance(NPROC, Following(NPROC, t.last[c]), x)
  }

  /** Process x is eligible in every round of container c. */
  predicate AlwaysEligible(t: Containers, tables: seq<seq<Proc>>, x: nat, c: nat)
    requires Ok(t) && x < NPROC && c < NCONTAINER
    decreases |tables|
  {
    tables != [] ==>
      && TableOk(tables[0]) && (NextContainer(t) == c ==> Eligible(t, c, tables[0][x]))
      && AlwaysEligible(AfterRound(t, tables[0]), tables[1..], x, c)
  }

  /** Process x is chosen in one of the rounds. */
  predicate Runs(t: Containers, tables: seq<seq<Proc>>, x: nat)
    requires Ok(t)
    decreases |tables|
  {
    tables != [] && TableOk(tables[0])
      && (Chosen(t, tables[0]) == Some(x) || Runs(AfterRound(t, tables[0]), tables[1..], x))
  }

  /** A round of another container brings the turn of c one step closer. */
  lemma TurnComes(t: Containers, c: nat)
    requires Ok(t) && c < NCONTAINER && t.status[c] && NextContainer(t) != c
    ensures var n := NextContainer(t); var t' := t.(current := n);
      n in Before(t, c) && Before(t', c) == Before(t, c) - {n}
  {
    var start, n := Following(NCONTAINER, t.current), NextContainer(t);
    SearchNearest(t.status, start, |t.status|);
    assert t.status[c];
    assert Distance(NCONTAINER, start, n) <= Distance(NCONTAINER, start, c);
    var t' := t.(current := n);
    var next := Following(NCONTAINER, n);
    forall i: nat | i < NCONTAINER && t.status[i] ensures i in Before(t', c) <==> i in Before(t, c) && i != n {
      assert t.status[i];
      DistanceSplits(NCONTAINER, start, n, i);
      DistanceSplits(NCONTAINER, start, n, c);
      StepDistance(NCONTAINER, n, i);
      StepDistance(NCONTAINER, n, c);
      assert i == n ==> Distance(NCONTAINER, next, i) == NCONTAINER - 1;
    }
  }

  /** After its own round, every live container comes before c again. */
  lemma TurnOver(t: Containers, c: nat)
    requires Ok(t) && c < NCONTAINER && t.current == c
    ensures Before(t, c) == LiveSet(t.status)
  {
    assert Distance(NCONTAINER, Following(NCONTAINER, c), c) == NCONTAINER - 1;
  }

  /** A round of c in which x is eligible runs x or a process before it. */
  lemma GapCloses(t: Containers, procs: seq<Proc>, c: nat, x: nat)
    requires Ok(t) && TableOk(procs) && c == NextContainer(t) && x < NPROC && Eligible(t, c, procs[x])
    ensures Chosen(t, procs) == Some(x) || Gap(AfterRound(t, procs), c, x) < Gap(t, c, x)
  {
    var start := Following(NPROC, t.last[c]);
    ChosenNearest(t, procs, c, x);
    var y := Chosen(t, procs).value;
    if y != x {
      Passed(start, y, x);
      assert AfterRound(t, procs).last[c] == y;
    }
  }

  lemma ChosenNearest(t: Containers, procs: seq<Proc>, c: nat, x: nat)
    requires Ok(t) && TableOk(procs) && c == NextContainer(t) && x < NPROC && Eligible(t, c, procs[x])
    ensures Chosen(t, procs).Some?
    ensures Distance(NPROC, Following(NPROC, t.last[c]), Chosen(t, procs).value)
              <= Distance(NPROC, Following(NPROC, t.last[c]), x)
  {
    var ok := Marks(t, c, procs);
    SearchNearest(ok, Following(NPROC, t.last[c]), |ok|);
    assert ok[x];
  }

  lemma Passed(start: nat, y: nat, x: nat)
    requires start < NPROC && y < NPROC && x < NPROC && y != x && Distance(NPROC, start, y) <= Distance(NPROC, start, x)
    ensures Distance(NPROC, Following(NPROC, y), x) < Distance(NPROC, start, x)
  {
    DistanceSplits(NPROC, start, y, x);
    StepDistance(NPROC, y, x);
  }

  lemma {:induction false} Waits(t: Containers, tables: seq<seq<Proc>>, x: nat, c: nat)
    requires Ok(t) && x < NPROC && c < NCONTAINER && t.status[c] && AlwaysEligible(t, tables, x, c)
    requires |tables| >= Gap(t, c, x) * |LiveSet(t.status)| + |Before(t, c)|
    ensures Runs(t, tables, x)
    decreases |tables|
  {
    var m := |LiveSet(t.status)|;
    assert c in Before(t, c);
    assert tables != [];
    var t' := AfterRound(t, tables[0]);
    if NextContainer(t) != c {
      TurnComes(t, c);
      assert Before(t', c) == Before(t.(current := NextContainer(t)), c);
      assert Gap(t', c, x) == Gap(t, c, x);
      Waits(t', tables[1..], x, c);
    } else if Chosen(t, tables[0]) != Some(x) {
      GapCloses(t, tables[0], c, x);
      TurnOver(t', c);
      Multiply(Gap(t', c, x), Gap(t, c, x), m);
      Waits(t', tables[1..], x, c);
    }
  }

  lemma Multiply(a: nat, b: nat, m: nat)
    requires a < b
    ensures a * m + m <= b * m
  {
    assert (a + 1) * m <= b * m;
  }

  /** The containers that get rounds: the live ones; the current one if none is live, as at start-up. */
  function TurnTakers(t: Containers): set<nat>
    requires Ok(t)
  {
    if LiveSet(t.status) == {} then {t.current} else LiveSet(t.status)
  }

  /** Every round is one of theirs, and they stay the same. */
  lemma OnlyTheirTurns(t: Containers, procs: seq<Proc>)
    requires Ok(t) && TableOk(procs)
    ensures NextContainer(t) in TurnTakers(t) && TurnTakers(AfterRound(t, procs)) == TurnTakers(t)
  {
    var start := Following(NCONTAINER, t.current);
    SearchNearest(t.status, start, |t.status|);
    if r: nat :| r < NCONTAINER && t.status[r] {
      assert r in LiveSet(t.status) && Distance(NCONTAINER, start, r) < NCONTAINER;
      assert NextContainer(t) in LiveSet(t.status);
    }
  }

  /** With no live container every round is the current one's. */
  lemma {:induction false} WaitsAlone(t: Containers, tables: seq<seq<Proc>>, x: nat)
    requires Ok(t) && x < NPROC && LiveSet(t.status) == {} && AlwaysEligible(t, tables, x, t.current)
    requires |tables| > Gap(t, t.current, x)
    ensures Runs(t, tables, x)
    decreases |tables|
  {
    OnlyTheirTurns(t, tables[0]);
    if Chosen(t, tables[0]) != Some(x) {
      GapCloses(t, tables[0], t.current, x);
      WaitsAlone(AfterRound(t, tables[0]), tables[1..], x);
    }
  }

  /** With m containers that get rounds and a fixed membership, a process that is eligible in every
      round of one of these runs within m * NPROC rounds, whatever the other processes do. */
  lemma BoundedWaiting(t: Containers, tables: seq<seq<Proc>>, x: nat, c: nat)
    requires Ok(t) && x < NPROC && c < NCONTAINER && c in TurnTakers(t) && AlwaysEligible(t, tables, x, c)
    requires |tables| == |TurnTakers(t)| * NPROC
    ensures Runs(t, tables, x)
  {
    var m, g := |LiveSet(t.status)|, Gap(t, c, x);
    if m == 0 {
      assert |TurnTakers(t)| == 1;
      WaitsAlone(t, tables, x);
    } else {
      assert Before(t, c) <= LiveSet(t.status);
      SubsetSize(Before(t, c), LiveSet(t.status));
      Multiply(g, NPROC, m);
      Waits(t, tables, x, c);
    }
  }

  // The same for processes described in the fields of the tables.

  /** Process x may run for c in every one of the tables. */
  predicate MayAlwaysRun(t: Containers, tables: seq<seq<Proc>>, x: nat, c: nat)
    requires Ok(t) && x < NPROC && c < NCONTAINER
  {
    forall k :: 0 <= k < |tables| ==> TableOk(tables[k]) && MayRun(t, c, tables[k][x])
  }

  lemma {:induction false} MayAlwaysIs(t: Containers, tables: seq<seq<Proc>>, x: nat, c: nat)
    requires Ok(t) && x < NPROC && c < NCONTAINER && MayAlwaysRun(t, tables, x, c)
    ensures AlwaysEligible(t, tables, x, c)
    decreases |tables|
  {
    if tables != [] {
      MayAlwaysIs(AfterRound(t, tables[0]), tables[1..], x, c);
    }
  }

  /** A runnable process with the bit of a container that gets rounds, or in no container, runs within
      as many rounds as there are such containers and places in the process table. */
  lemma RunnableRuns(t: Containers, tables: seq<seq<Proc>>, x: nat, c: nat)
    requires Ok(t) && x < NPROC && c in TurnTakers(t) && c < NCONTAINER && MayAlwaysRun(t, tables, x, c)
    requires |tables| == |TurnTakers(t)| * NPROC
    ensures Runs(t, tables, x)
  {
    MayAlwaysIs(t, tables, x, c);
    BoundedWaiting(t, tables, x, c);
  }

  /** How many of the rounds are container c's. */
  function RoundsOf(t: Containers, tables: seq<seq<Proc>>, c: nat): nat
    requires Ok(t) && forall k :: 0 <= k < |tables| ==> TableOk(tables[k])
    decreases |tables|
  {
    if tables == [] then 0
    else var t' := AfterRound(t, tables[0]);
      RoundsOf(t', tables[1..], c) + if t'.current == c then 1 else 0
  }

  /** Process x is in no container and runnable, whenever the scheduler looks. */
  predicate FreeAndRunnable(tables: seq<seq<Proc>>, x: nat)
    requires x < NPROC
  {
    forall k :: 0 <= k < |tables| ==> TableOk(tables[k]) && tables[k][x].runnable && tables[k][x].container == 0
  }

  lemma {:induction false} RunsInRoundsOf(t: Containers, tables: seq<seq<Proc>>, x: nat, c: nat)
    requires Ok(t) && x < NPROC && c < NCONTAINER && FreeAndRunnable(tables, x)
    requires RoundsOf(t, tables, c) > Gap(t, c, x)
    ensures Runs(t, tables, x)
    decreases |tables|
  {
    var t' := AfterRound(t, tables[0]);
    if NextContainer(t) == c {
      GapCloses(t, tables[0], c, x);
    }
    if Chosen(t, tables[0]) != Some(x) {
      RunsInRoundsOf(t', tables[1..], x, c);
    }
  }

  /** A process in no container that stays runnable runs before any one container has had NPROC rounds,
      whatever the membership bits are. */
  lemma FreeProcessRuns(t: Containers, tables: seq<seq<Proc>>, x: nat, c: nat)
    requires Ok(t) && x < NPROC && c < NCONTAINER && FreeAndRunnable(tables, x)
    requires RoundsOf(t, tables, c) >= NPROC
    ensures Runs(t, tables, x)
  {
    RunsInRoundsOf(t, tables, x, c);
  }
}
