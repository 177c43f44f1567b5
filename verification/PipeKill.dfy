/** When a killed writer can leave a reader asleep beside a full pipe. */
module PipeKill {
  import opened Basics
  import opened PipeRing
  import opened PipeWakeup

  /** A run whose writes ask for at most most bytes each leaves process p asleep that should not be. */
  predicate Loses(procs: nat, most: nat, run: seq<Step>, t: State, p: nat) {
    && Runs(Initial(procs), run, t) && WritesAtMost(run, most)
    && t.lock.None? && p < |t.pcs| && !Rightly(t, p)
  }

  // A process on its own.

  lemma {:induction false} AloneKeeps(s: State, run: seq<Step>, t: State)
    requires Inv(s) && |s.pcs| <= 1 && Runs(s, run, t)
    ensures Inv(t)
    decreases |run|
  {
    if run != [] {
      StepKeeps(s, run[0]);
      AloneKeeps(Next(s, run[0]), run[1..], t);
    }
  }

  // The run that loses a wakeup: process 0 sleeps in piperead; process 1, killed, fills the pipe.

  function Pair(procs: nat, k: nat, lock: Option<nat>, table: Option<nat>, a: Pc, b: Pc, killed: set<nat>): State {
    State(Counters(0, k), true, true, lock, table,
          seq(procs, i => if i == 0 then a else if i == 1 then b else Idle), killed)
  }

  lemma PairSet(procs: nat, a: Pc, b: Pc, a': Pc, b': Pc)
    requires procs > 1
    ensures var s := Pair(procs, 0, None, None, a, b, {});
            && s.pcs[0 := a'] == Pair(procs, 0, None, None, a', b, {}).pcs
            && s.pcs[1 := b'] == Pair(procs, 0, None, None, a, b', {}).pcs
  {
  }

  lemma {:induction false} RunsAppend(s: State, run: seq<Step>, t: State, st: Step)
    requires Runs(s, run, t) && Enabled(t, st)
    ensures Runs(s, run + [st], Next(t, st))
    decreases |run|
  {
    if run == [] {
      assert (run + [st])[1..] == [];
    } else {
      assert (run + [st])[1..] == run[1..] + [st];
      RunsAppend(Next(s, run[0]), run[1..], t, st);
    }
  }

  ghost predicate Reaches(procs: nat, run: seq<Step>, t: State) {
    Runs(Initial(procs), run, t) && WritesAtMost(run, PIPESIZE + 1)
  }

  lemma OneMore(procs: nat, run: seq<Step>, t: State, st: Step)
    requires Reaches(procs, run, t) && Enabled(t, st) && (st.StartWrite? ==> st.n <= PIPESIZE + 1)
    ensures Reaches(procs, run + [st], Next(t, st))
  {
    RunsAppend(Initial(procs), run, t, st);
  }

  lemma ReaderSleeps(procs: nat) returns (run: seq<Step>)
    requires procs > 1
    ensures Reaches(procs, run, Pair(procs, 0, None, None, RAsleep(1), Idle, {}))
  {
    var t := Initial(procs);
    run := [];
    assert t.pcs == Pair(procs, 0, None, None, Idle, Idle, {}).pcs;
    PairSet(procs, Idle, Idle, RTest(1), Idle);
    OneMore(procs, run, t, StartRead(0, 1));
    run := run + [StartRead(0, 1)];
    PairSet(procs, RTest(1), Idle, RSleepTake(1), Idle);
    OneMore(procs, run, Pair(procs, 0, Some(0), None, RTest(1), Idle, {}), Go(0));
    run := run + [Go(0)];
    PairSet(procs, RSleepTake(1), Idle, RSleepDrop(1), Idle);
    OneMore(procs, run, Pair(procs, 0, Some(0), None, RSleepTake(1), Idle, {}), Go(0));
    run := run + [Go(0)];
    PairSet(procs, RSleepDrop(1), Idle, RSleepSet(1), Idle);
    OneMore(procs, run, Pair(procs, 0, Some(0), Some(0), RSleepDrop(1), Idle, {}), Go(0));
    run := run + [Go(0)];
    PairSet(procs, RSleepSet(1), Idle, RAsleep(1), Idle);
    OneMore(procs, run, Pair(procs, 0, None, Some(0), RSleepSet(1), Idle, {}), Go(0));
    run := run + [Go(0)];
  }

  /** Process 1 has written k of its bytes. */
  function Filling(procs: nat, k: nat): State
    requires k <= PIPESIZE
  {
    Pair(procs, k, Some(1), None, RAsleep(1), WLoop(PIPESIZE + 1 - k), {1})
  }

  lemma WriterStarts(procs: nat) returns (run: seq<Step>)
    requires procs > 1
    ensures Reaches(procs, run, Filling(procs, 0))
  {
    run := ReaderSleeps(procs);
    var t := Pair(procs, 0, None, None, RAsleep(1), Idle, {});
    OneMore(procs, run, t, Kill(1));
    run := run + [Kill(1)];
    t := Next(t, Kill(1));
    PairSet(procs, RAsleep(1), Idle, RAsleep(1), Idle);
    assert t.killed == {1};
    PairSet(procs, RAsleep(1), Idle, RAsleep(1), WLoop(PIPESIZE + 1));
    OneMore(procs, run, t, StartWrite(1, PIPESIZE + 1));
    run := run + [StartWrite(1, PIPESIZE + 1)];
  }

  lemma {:induction false} WriterFills(procs: nat, k: nat) returns (run: seq<Step>)
    requires procs > 1 && k <= PIPESIZE
    ensures Reaches(procs, run, Filling(procs, k))
  {
    if k == 0 {
      run := WriterStarts(procs);
    } else {
      run := WriterFills(procs, k - 1);
      PairSet(procs, RAsleep(1), WLoop(PIPESIZE + 2 - k), RAsleep(1), WLoop(PIPESIZE + 1 - k));
      OneMore(procs, run, Filling(procs, k - 1), Go(1));
      run := run + [Go(1)];
    }
  }

  lemma ReaderForgotten(procs: nat) returns (run: seq<Step>)
    requires procs > 1
    ensures Loses(procs, PIPESIZE + 1, run, Pair(procs, PIPESIZE, None, None, RAsleep(1), Idle, {1}), 0)
  {
    run := WriterFills(procs, PIPESIZE);
    PairSet(procs, RAsleep(1), WLoop(1), RAsleep(1), WDone);
    OneMore(procs, run, Filling(procs, PIPESIZE), Go(1));
    run := run + [Go(1)];
    PairSet(procs, RAsleep(1), WDone, RAsleep(1), Idle);
    OneMore(procs, run, Pair(procs, PIPESIZE, Some(1), None, RAsleep(1), WDone, {1}), Go(1));
    run := run + [Go(1)];
    TestsRight(Counters(0, PIPESIZE));
  }

  /** With processes that may be killed, some run loses a wakeup exactly when there are two processes
      or more and a write may ask for more bytes than the pipe holds. */
  lemma LostWakeupIff(procs: nat, most: nat)
    ensures (exists run, t, p: nat :: Loses(procs, most, run, t, p)) <==> procs > 1 && most > PIPESIZE
  {
    if procs > 1 && most > PIPESIZE {
      var run := ReaderForgotten(procs);
      assert Loses(procs, most, run, Pair(procs, PIPESIZE, None, None, RAsleep(1), Idle, {1}), 0);
    } else {
      forall run, t, p: nat | Loses(procs, most, run, t, p) ensures false {
        if procs > 1 {
          NoLostWakeup(procs, run, t, p);
        } else {
          InitialInv(procs);
          AloneKeeps(Initial(procs), run, t);
          InvRightly(t, p);
        }
      }
    }
  }
}
