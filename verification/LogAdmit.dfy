/** Whom begin_op lets in, and that nobody is kept out for good. */
module LogAdmit {
  import opened Basics
  import opened Params
  import opened LogReserve

  /** The processes inside an operation. */
  function InsideOf(procs: seq<Proc>): set<nat> {
    set p: nat | p < |procs| && procs[p].Inside?
  }

  lemma {:induction false} ActiveIsCount(procs: seq<Proc>)
    ensures Active(procs) == |InsideOf(procs)|
  {
    if procs != [] {
      var last := |procs| - 1;
      ActiveIsCount(procs[..last]);
      assert procs == procs[..last] + [procs[last]];
      ActiveAppend(procs[..last], procs[last]);
      if procs[last].Inside? {
        assert InsideOf(procs) == InsideOf(procs[..last]) + {last};
      } else {
        assert InsideOf(procs) == InsideOf(procs[..last]);
      }
    }
  }

  lemma {:induction false} ActiveAppend(procs: seq<Proc>, x: Proc)
    ensures Active(procs + [x]) == Active(procs) + if x.Inside? then 1 else 0
  {
    if procs == [] {
      assert (procs + [x])[1..] == [];
    } else {
      assert (procs + [x])[1..] == procs[1..] + [x];
      ActiveAppend(procs[1..], x);
    }
  }

  /** Beyond the reservation: what an operation has added is in the log, which is empty when nobody is
      inside and nothing is being committed; and there are never more inside than the log has room for. */
  ghost predicate Tidy(s: State) {
    && Inv(s)
    && (forall p :: 0 <= p < |s.procs| && s.procs[p].Inside? ==> s.procs[p].used <= |s.blocks|)
    && (s.outstanding == 0 && !s.committing ==> s.blocks == [])
    && s.outstanding * MAXOPBLOCKS <= LOGSIZE
  }

  lemma TidyStep(s: State, st: Step)
    requires Tidy(s) && Enabled(s, st)
    ensures Tidy(After(s, st))
  {
    StepKeeps(s, st);
    forall p | 0 <= p < |s.procs| && s.procs[p].Inside? ensures s.outstanding > 0 {
      InsideIsActive(s.procs, p);
    }
  }

  lemma {:induction false} TidyRun(s: State, run: seq<Step>, t: State)
    requires Tidy(s) && Runs(s, run, t)
    ensures Tidy(t) && |t.procs| == |s.procs|
    decreases |run|
  {
    if run != [] {
      TidyStep(s, run[0]);
      TidyRun(After(s, run[0]), run[1..], t);
    }
  }

  lemma TidyReached(size: nat, procs: nat, run: seq<Step>, t: State)
    requires Runs(Start(size, procs), run, t)
    ensures Tidy(t) && |t.procs| == procs && t.outstanding == |InsideOf(t.procs)|
  {
    AllOutside(procs);
    TidyRun(Start(size, procs), run, t);
    ActiveIsCount(t.procs);
  }

  /** In every state of every run, begin_op lets a process in exactly if no commit is on and the log has
      room for the blocks logged and MAXOPBLOCKS more for each operation then inside. */
  lemma AdmittedIff(size: nat, procs: nat, run: seq<Step>, t: State, p: nat)
    requires Runs(Start(size, procs), run, t) && p < procs && p !in InsideOf(t.procs)
    ensures Enabled(t, Begin(p))
       <==> !t.committing && |t.blocks| + MAXOPBLOCKS * (|InsideOf(t.procs)| + 1) <= LOGSIZE
  {
    TidyReached(size, procs, run, t);
  }

  /** Processes 0 to k - 1 inside, nothing logged. */
  function Entered(size: nat, procs: nat, k: nat): State {
    State(size, [], k, false, seq(procs, p => if p < k then Inside(0, false) else Outside))
  }

  lemma {:induction false} EnteredReachable(size: nat, procs: nat, k: nat) returns (run: seq<Step>)
    requires k <= procs && k * MAXOPBLOCKS <= LOGSIZE
    ensures Runs(Start(size, procs), run, Entered(size, procs, k))
  {
    if k == 0 {
      run := [];
      assert Entered(size, procs, 0).procs == Start(size, procs).procs;
    } else {
      var before := EnteredReachable(size, procs, k - 1);
      var s := Entered(size, procs, k - 1);
      RunsAppend(Start(size, procs), before, s, Begin(k - 1));
      assert After(s, Begin(k - 1)).procs == Entered(size, procs, k).procs;
      run := before + [Begin(k - 1)];
    }
  }

  ghost predicate TogetherInside(size: nat, procs: nat, run: seq<Step>, t: State, k: nat) {
    Runs(Start(size, procs), run, t) && |InsideOf(t.procs)| == k
  }

  /** Some run has k operations inside at once exactly if there are k processes and k is at most
      LOGSIZE / MAXOPBLOCKS, which is three. */
  lemma TogetherIff(size: nat, procs: nat, k: nat)
    ensures (exists run, t :: TogetherInside(size, procs, run, t, k)) <==> k <= procs && k <= 3
  {
    if run, t :| TogetherInside(size, procs, run, t, k) {
      TidyReached(size, procs, run, t);
      InsideWithin(t.procs);
    }
    if k <= procs && k <= 3 {
      var run := EnteredReachable(size, procs, k);
      var t := Entered(size, procs, k);
      TidyReached(size, procs, run, t);
      assert TogetherInside(size, procs, run, t, k);
    }
  }

  lemma InsideWithin(procs: seq<Proc>)
    ensures |InsideOf(procs)| <= |procs|
  {
    RangeSize(0, |procs|);
    SubsetSize(InsideOf(procs), Range(0, |procs|));
  }

  // A process that waits is let in once the others are done.

  /** The processes in the middle of a log_write. */
  function Checked(procs: seq<Proc>): set<nat> {
    set p: nat | p < |procs| && procs[p].Inside? && procs[p].checked
  }

  /** How much the operations inside still have to do before they can end. */
  function Work(s: State): nat {
    2 * s.outstanding + |Checked(s.procs)|
  }

  /** From every state of every run, those inside can go on to their ends and the commit be finished. */
  lemma {:induction false} Drains(s0: State, run: seq<Step>, s: State) returns (run': seq<Step>, t: State)
    requires Runs(s0, run, s) && Tidy(s)
    ensures run <= run' && Runs(s0, run', t) && Tidy(t) && |t.procs| == |s.procs|
    ensures t.outstanding == 0 && !t.committing && t.blocks == []
    decreases Work(s), s.committing
  {
    ActiveIsCount(s.procs);
    if s.outstanding == 0 {
      if s.committing {
        RunsAppend(s0, run, s, Finish);
        TidyStep(s, Finish);
        run', t := Drains(s0, run + [Finish], After(s, Finish));
      } else {
        run', t := run, s;
      }
    } else {
      var p: nat :| p in InsideOf(s.procs);
      var st := NextOf(s, p);
      RunsAppend(s0, run, s, st);
      TidyStep(s, st);
      WorkShrinks(s, p);
      run', t := Drains(s0, run + [st], After(s, st));
    }
  }

  /** What a process inside can always do: end, or finish the log_write it is in with a block that it
      may log, one that is in the log if its reservation is used up. */
  function NextOf(s: State, p: nat): (st: Step)
    requires Tidy(s) && p < |s.procs| && s.procs[p].Inside?
    ensures Enabled(s, st)
  {
    if !s.procs[p].checked then End(p) else Add(p, if s.blocks == [] then 0 else s.blocks[0])
  }

  lemma WorkShrinks(s: State, p: nat)
    requires Tidy(s) && p < |s.procs| && s.procs[p].Inside?
    ensures Work(After(s, NextOf(s, p))) < Work(s)
  {
    InsideIsActive(s.procs, p);
    var t := After(s, NextOf(s, p));
    assert Checked(t.procs) == Checked(s.procs) - {p};
  }

  /** Whoever waits in begin_op can be let in: from every state of every run, some run goes on to one in
      which it is. */
  lemma WaiterAdmitted(size: nat, procs: nat, run: seq<Step>, s: State, p: nat)
    returns (run': seq<Step>, t: State)
    requires Runs(Start(size, procs), run, s) && p < procs
    ensures run <= run' && Runs(Start(size, procs), run', t) && Enabled(t, Begin(p))
  {
    TidyReached(size, procs, run, s);
    run', t := Drains(Start(size, procs), run, s);
    if t.procs[p].Inside? {
      InsideIsActive(t.procs, p);
    }
  }
}
