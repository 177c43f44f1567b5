/** Log space reservation: begin_op, log_write and end_op of many processes, interleaved. */
module LogReserve {
  import opened Basics
  import opened Params

  /** A process outside any operation, or inside one that has added used new blocks so far;
      checked: it has passed the unlocked test at the head of log_write. */
  datatype Proc = Outside | Inside(used: nat, checked: bool)

  datatype State = State(size: nat, blocks: seq<nat>, outstanding: nat, committing: bool, procs: seq<Proc>)

  datatype Step =
    | Begin(p: nat)             // begin_op, once it stops sleeping
    | Check(p: nat)             // log_write: the test for a full log
    | Add(p: nat, b: nat)       // log_write: the locked part
    | End(p: nat)               // end_op: the locked part
    | Finish                    // commit has run; the log is empty again

  /** The first two panics of log_write. */
  predicate Panics(s: State) {
    |s.blocks| >= LOGSIZE || |s.blocks| >= s.size - 1 || s.outstanding < 1
  }

  /** The reservation of p's operation covers logging b: b is in the log already, or p has a block left. */
  predicate Covered(s: State, p: nat, b: nat)
    requires p < |s.procs| && s.procs[p].Inside?
  {
    b in s.blocks || s.procs[p].used < MAXOPBLOCKS
  }

  predicate Enabled(s: State, st: Step) {
    match st
    case Begin(p) =>
      && p < |s.procs| && s.procs[p].Outside? && !s.committing
      && |s.blocks| + (s.outstanding + 1) * MAXOPBLOCKS <= LOGSIZE
    case Check(p) => p < |s.procs| && s.procs[p].Inside? && !s.procs[p].checked && !Panics(s)
    case Add(p, b) => p < |s.procs| && s.procs[p].Inside? && s.procs[p].checked && Covered(s, p, b)
    case End(p) => p < |s.procs| && s.procs[p].Inside? && !s.procs[p].checked
    case Finish => s.committing
  }

  function After(s: State, st: Step): State
    requires Enabled(s, st)
  {
    match st
    case Begin(p) => s.(outstanding := s.outstanding + 1, procs := s.procs[p := Inside(0, false)])
    case Check(p) => s.(procs := s.procs[p := s.procs[p].(checked := true)])
    case Add(p, b) =>
      if b in s.blocks then s.(procs := s.procs[p := s.procs[p].(checked := false)])
      else s.(blocks := s.blocks + [b], procs := s.procs[p := Inside(s.procs[p].used + 1, false)])
    case End(p) =>
      var out := if s.outstanding > 0 then s.outstanding - 1 else 0;
      s.(outstanding := out, committing := s.committing || out == 0, procs := s.procs[p := Outside])
    case Finish => s.(blocks := [], committing := false)
  }

  function Start(size: nat, procs: nat): State {
    State(size, [], 0, false, seq(procs, _ => Outside))
  }

  ghost predicate Runs(s: State, run: seq<Step>, t: State)
    decreases |run|
  {
    if run == [] then s == t
    else Enabled(s, run[0]) && Runs(After(s, run[0]), run[1..], t)
  }

  /** How many processes are inside an operation. */
  function Active(procs: seq<Proc>): nat {
    if procs == [] then 0 else (if procs[0].Inside? then 1 else 0) + Active(procs[1..])
  }

  function UnusedBy(p: Proc): nat {
    if p.Inside? && p.used <= MAXOPBLOCKS then MAXOPBLOCKS - p.used else 0
  }

  /** The blocks the active operations may still add. */
  function Unused(procs: seq<Proc>): nat {
    if procs == [] then 0 else UnusedBy(procs[0]) + Unused(procs[1..])
  }

  lemma {:induction false} SetProc(procs: seq<Proc>, p: nat, x: Proc)
    requires p < |procs|
    ensures Unused(procs[p := x]) == Unused(procs) - UnusedBy(procs[p]) + UnusedBy(x)
    ensures Active(procs[p := x]) ==
            Active(procs) - (if procs[p].Inside? then 1 else 0) + (if x.Inside? then 1 else 0)
  {
    if p == 0 {
      assert procs[p := x][1..] == procs[1..];
    } else {
      assert procs[p := x][1..] == procs[1..][p - 1 := x];
      SetProc(procs[1..], p - 1, x);
    }
  }

  lemma {:induction false} UnusedBound(procs: seq<Proc>)
    ensures Unused(procs) <= Active(procs) * MAXOPBLOCKS
  {
    if procs != [] {
      UnusedBound(procs[1..]);
    }
  }

  lemma {:induction false} InsideIsActive(procs: seq<Proc>, p: nat)
    requires p < |procs| && procs[p].Inside?
    ensures Active(procs) > 0 && Unused(procs) >= UnusedBy(procs[p])
  {
    if p > 0 {
      InsideIsActive(procs[1..], p - 1);
    }
  }

  ghost predicate Inv(s: State) {
    && s.outstanding == Active(s.procs)
    && |s.blocks| + Unused(s.procs) <= LOGSIZE
    && (forall i, j :: 0 <= i < j < |s.blocks| ==> s.blocks[i] != s.blocks[j])
    && (s.committing ==> s.outstanding == 0)
    && (forall p :: 0 <= p < |s.procs| && s.procs[p].Inside? ==> s.procs[p].used <= MAXOPBLOCKS)
  }

  lemma StepKeeps(s: State, st: Step)
    requires Inv(s) && Enabled(s, st)
    ensures Inv(After(s, st))
  {
    if st.Begin? {
      UnusedBound(s.procs);
    }
    if !st.Finish? {
      SetProc(s.procs, st.p, After(s, st).procs[st.p]);
      if s.procs[st.p].Inside? {
        InsideIsActive(s.procs, st.p);
      }
    } else {
      UnusedBound(s.procs);
    }
  }

  lemma {:induction false} AllOutside(n: nat)
    ensures Active(seq(n, _ => Outside)) == 0 && Unused(seq(n, _ => Outside)) == 0
  {
    if n > 0 {
      assert seq(n, _ => Outside)[1..] == seq(n - 1, _ => Outside);
      AllOutside(n - 1);
    }
  }

  lemma {:induction false} RunKeeps(s: State, run: seq<Step>, t: State)
    requires Inv(s) && Runs(s, run, t)
    ensures Inv(t) && t.size == s.size && |t.procs| == |s.procs|
    decreases |run|
  {
    if run != [] {
      StepKeeps(s, run[0]);
      RunKeeps(After(s, run[0]), run[1..], t);
    }
  }

  /** In every state any interleaving reaches: logged blocks plus all unused reservations fit the
      log, block numbers are distinct, a commit runs with no operation outstanding (so end_op's
      own panic cannot fire), and adding one more block stays inside the header's array. */
  lemma ReservationHolds(size: nat, procs: nat, run: seq<Step>, t: State)
    requires Runs(Start(size, procs), run, t)
    ensures |t.blocks| + Unused(t.procs) <= LOGSIZE
    ensures forall i, j :: 0 <= i < j < |t.blocks| ==> t.blocks[i] != t.blocks[j]
    ensures t.committing ==> forall p :: 0 <= p < |t.procs| ==> t.procs[p].Outside?
    ensures forall p, b :: Enabled(t, Add(p, b)) && b !in t.blocks ==> |t.blocks| < LOGSIZE
  {
    AllOutside(procs);
    RunKeeps(Start(size, procs), run, t);
    forall p | 0 <= p < |t.procs| && t.procs[p].Inside?
      ensures t.outstanding > 0 && Unused(t.procs) >= UnusedBy(t.procs[p])
    {
      InsideIsActive(t.procs, p);
    }
  }

  // An operation that keeps to a plan.

  /** Process p neither ends nor begins an operation in run, and passes log_write only blocks of plan. */
  predicate KeepsTo(run: seq<Step>, p: nat, plan: set<nat>) {
    forall k :: 0 <= k < |run| ==>
      run[k] != Begin(p) && run[k] != End(p) && (run[k].Add? && run[k].p == p ==> run[k].b in plan)
  }

  /** What p has used is the number of the blocks it added, mine, which stay in the log. */
  ghost predicate Spent(s: State, p: nat, plan: set<nat>, mine: set<nat>) {
    && p < |s.procs| && s.procs[p].Inside? && s.procs[p].used == |mine| && mine <= plan
    && forall b :: b in mine ==> b in s.blocks
  }

  lemma SpentStep(s: State, st: Step, p: nat, plan: set<nat>, mine: set<nat>) returns (mine': set<nat>)
    requires Inv(s) && Enabled(s, st) && Spent(s, p, plan, mine) && KeepsTo([st], p, plan)
    ensures Spent(After(s, st), p, plan, mine')
  {
    InsideIsActive(s.procs, p);
    assert [st][0] == st;
    mine' := mine;
    if st.Add? && st.p == p && st.b !in s.blocks {
      mine' := mine + {st.b};
    }
  }

  lemma {:induction false} SpentRun(s: State, run: seq<Step>, t: State, p: nat, plan: set<nat>, mine: set<nat>)
    returns (mine': set<nat>)
    requires Inv(s) && Runs(s, run, t) && Spent(s, p, plan, mine) && KeepsTo(run, p, plan)
    ensures Spent(t, p, plan, mine')
    decreases |run|
  {
    mine' := mine;
    if run != [] {
      StepKeeps(s, run[0]);
      mine' := SpentStep(s, run[0], p, plan, mine);
      mine' := SpentRun(After(s, run[0]), run[1..], t, p, plan, mine');
    }
  }

  /** An operation that logs only the blocks of a plan of at most MAXOPBLOCKS never goes over its
      budget, however the steps of the other processes fall: each block it passes to log_write is
      in the log already, or it still has a block to use. */
  lemma PlanFitsBudget(size: nat, procs: nat, before: seq<Step>, s: State, p: nat, run: seq<Step>, t: State,
                       plan: set<nat>, b: nat)
    requires Runs(Start(size, procs), before, s) && Enabled(s, Begin(p)) && Runs(After(s, Begin(p)), run, t)
    requires KeepsTo(run, p, plan) && |plan| <= MAXOPBLOCKS && b in plan
    ensures p < |t.procs| && t.procs[p].Inside? && Covered(t, p, b)
  {
    AllOutside(procs);
    RunKeeps(Start(size, procs), before, s);
    StepKeeps(s, Begin(p));
    var mine := SpentRun(After(s, Begin(p)), run, t, p, plan, {});
    if b !in t.blocks {
      SubsetSize(mine + {b}, plan);
    }
  }

  // The panic of a full log.

  /** Process p calls log_write for block b, which its reservation covers, and panics. */
  predicate CoveredPanic(t: State, p: nat, b: nat) {
    p < |t.procs| && t.procs[p].Inside? && !t.procs[p].checked && Covered(t, p, b) && Panics(t)
  }

  ghost predicate Panicking(size: nat, procs: nat, run: seq<Step>, t: State, p: nat, b: nat) {
    Runs(Start(size, procs), run, t) && CoveredPanic(t, p, b)
  }

  /** The same, for a block that is not in the log yet. */
  ghost predicate PanickingNew(size: nat, procs: nat, run: seq<Step>, t: State, p: nat, b: nat) {
    Panicking(size, procs, run, t, p, b) && b !in t.blocks
  }

  lemma {:induction false} RunsAppend(s: State, run: seq<Step>, t: State, st: Step)
    requires Runs(s, run, t) && Enabled(t, st)
    ensures Runs(s, run + [st], After(t, st))
    decreases |run|
  {
    if run == [] {
      assert (run + [st])[1..] == [];
    } else {
      assert (run + [st])[1..] == run[1..] + [st];
      RunsAppend(After(s, run[0]), run[1..], t, st);
    }
  }

  /** Blocks 0..k-1 logged. The first process logged the first ten in an operation it has ended and
      begun again, and the next ten since; the second has been inside all along and logged the rest. */
  function Filled(size: nat, procs: nat, k: nat): State {
    var first := if k < MAXOPBLOCKS then k else if k < 2 * MAXOPBLOCKS then k - MAXOPBLOCKS else MAXOPBLOCKS;
    var second := if k < 2 * MAXOPBLOCKS then 0 else k - 2 * MAXOPBLOCKS;
    State(size, seq(k, i => i), if procs < 2 then procs else 2, false,
          seq(procs, i => if i == 0 then Inside(first, false) else if i == 1 then Inside(second, false) else Outside))
  }

  lemma FillStarts(size: nat, procs: nat) returns (run: seq<Step>)
    requires procs > 0
    ensures Runs(Start(size, procs), run, Filled(size, procs, 0))
  {
    var s := Start(size, procs);
    var t := After(s, Begin(0));
    assert Runs(s, [], s);
    RunsAppend(s, [], s, Begin(0));
    run := [] + [Begin(0)];
    if procs > 1 {
      RunsAppend(s, run, t, Begin(1));
      run, t := run + [Begin(1)], After(t, Begin(1));
    }
    assert t.procs == Filled(size, procs, 0).procs;
  }

  /** Process p has logged one more block, number k. */
  function Logged(t: State, p: nat, k: nat): State
    requires p < |t.procs| && t.procs[p].Inside?
  {
    t.(blocks := t.blocks + [k], procs := t.procs[p := Inside(t.procs[p].used + 1, false)])
  }

  lemma LogOne(s: State, run: seq<Step>, t: State, p: nat, k: nat)
    requires Runs(s, run, t) && Enabled(t, Check(p)) && k !in t.blocks && t.procs[p].used < MAXOPBLOCKS
    ensures Runs(s, run + [Check(p)] + [Add(p, k)], Logged(t, p, k))
  {
    var t1 := After(t, Check(p));
    RunsAppend(s, run, t, Check(p));
    RunsAppend(s, run + [Check(p)], t1, Add(p, k));
    assert After(t1, Add(p, k)).procs == Logged(t, p, k).procs;
  }

  /** The next state but for the first process's new beginning after ten blocks. */
  function Fuller(size: nat, procs: nat, k: nat): State
    requires procs > 0 && (k < MAXOPBLOCKS || procs > 1)
  {
    Logged(Filled(size, procs, k), if k < 2 * MAXOPBLOCKS then 0 else 1, k)
  }

  lemma FullerIsFilled(size: nat, procs: nat, k: nat)
    requires procs > 0 && (k < MAXOPBLOCKS || procs > 1) && k != MAXOPBLOCKS - 1
    ensures Fuller(size, procs, k) == Filled(size, procs, k + 1)
  {
    assert Fuller(size, procs, k).blocks == Filled(size, procs, k + 1).blocks;
    assert Fuller(size, procs, k).procs == Filled(size, procs, k + 1).procs;
  }

  lemma BeginAgain(size: nat, procs: nat, run: seq<Step>)
    requires procs > 1 && Runs(Start(size, procs), run, Fuller(size, procs, MAXOPBLOCKS - 1))
    ensures Runs(Start(size, procs), run + [End(0)] + [Begin(0)], Filled(size, procs, MAXOPBLOCKS))
  {
    var s, t := Start(size, procs), Fuller(size, procs, MAXOPBLOCKS - 1);
    var t' := After(t, End(0));
    RunsAppend(s, run, t, End(0));
    RunsAppend(s, run + [End(0)], t', Begin(0));
    assert After(t', Begin(0)).blocks == Filled(size, procs, MAXOPBLOCKS).blocks;
    assert After(t', Begin(0)).procs == Filled(size, procs, MAXOPBLOCKS).procs;
  }

  lemma {:induction false} FillReachable(size: nat, procs: nat, k: nat) returns (run: seq<Step>)
    requires procs > 0 && (k == 0 || k < size) && k <= LOGSIZE && (k < MAXOPBLOCKS || procs > 1)
    ensures Runs(Start(size, procs), run, Filled(size, procs, k))
    decreases k
  {
    if k == 0 {
      run := FillStarts(size, procs);
    } else {
      run := FillReachable(size, procs, k - 1);
      var p := if k - 1 < 2 * MAXOPBLOCKS then 0 else 1;
      LogOne(Start(size, procs), run, Filled(size, procs, k - 1), p, k - 1);
      run := run + [Check(p)] + [Add(p, k - 1)];
      if k == MAXOPBLOCKS {
        BeginAgain(size, procs, run);
        run := run + [End(0)] + [Begin(0)];
      } else {
        FullerIsFilled(size, procs, k - 1);
      }
    }
  }

  /** A process on its own finds the log empty when it begins, so it logs only what it uses. */
  ghost predicate Alone(s: State) {
    && |s.procs| == 1
    && (s.procs[0].Inside? ==> |s.blocks| <= s.procs[0].used)
    && (s.procs[0].Outside? ==> s.blocks == [] || s.committing)
  }

  lemma {:induction false} AloneKept(s: State, run: seq<Step>, t: State)
    requires Inv(s) && Alone(s) && Runs(s, run, t)
    ensures Alone(t)
    decreases |run|
  {
    if run != [] {
      var s' := After(s, run[0]);
      StepKeeps(s, run[0]);
      assert Active(s.procs) == (if s.procs[0].Inside? then 1 else 0) + Active(s.procs[1..]);
      AloneKept(s', run[1..], t);
    }
  }

  /** A process on its own fills a log area of MAXOPBLOCKS + 1 blocks with one operation. */
  lemma FillAlone(size: nat) returns (run: seq<Step>)
    requires size > MAXOPBLOCKS
    ensures Runs(Start(size, 1), run, Fuller(size, 1, MAXOPBLOCKS - 1))
  {
    var k := MAXOPBLOCKS - 1;
    run := FillReachable(size, 1, k);
    LogOne(Start(size, 1), run, Filled(size, 1, k), 0, k);
    run := run + [Check(0)] + [Add(0, k)];
  }

  /** When a call of log_write that the reservation covers can be made to panic. */
  predicate CanPanic(size: nat, procs: nat) {
    procs > 1 || (procs == 1 && size <= MAXOPBLOCKS + 1)
  }

  /** When one that logs a new block can. */
  predicate CanPanicNew(size: nat, procs: nat) {
    (procs > 1 && size <= LOGSIZE) || (procs == 1 && size <= MAXOPBLOCKS)
  }

  lemma PanicNeeds(size: nat, procs: nat, run: seq<Step>, t: State, p: nat, b: nat)
    requires Runs(Start(size, procs), run, t) && CoveredPanic(t, p, b)
    ensures CanPanic(size, procs) && (b !in t.blocks ==> CanPanicNew(size, procs))
  {
    AllOutside(procs);
    RunKeeps(Start(size, procs), run, t);
    if procs == 1 {
      AloneKept(Start(size, procs), run, t);
    }
    InsideIsActive(t.procs, p);
  }

  lemma NewPanicReached(size: nat, procs: nat) returns (run: seq<Step>, t: State, p: nat, b: nat)
    requires CanPanicNew(size, procs)
    ensures PanickingNew(size, procs, run, t, p, b)
  {
    var k := if size == 0 then 0 else size - 1;
    run := FillReachable(size, procs, k);
    t, p, b := Filled(size, procs, k), if procs > 1 then 1 else 0, k;
  }

  lemma OldPanicReached(size: nat, procs: nat) returns (run: seq<Step>, t: State, p: nat, b: nat)
    requires CanPanic(size, procs) && !CanPanicNew(size, procs)
    ensures Panicking(size, procs, run, t, p, b)
  {
    if procs > 1 {
      run := FillReachable(size, procs, LOGSIZE);
      t, p, b := Filled(size, procs, LOGSIZE), 1, 0;
      assert t.blocks[0] == 0;
    } else {
      run := FillAlone(size);
      t, p, b := Fuller(size, 1, MAXOPBLOCKS - 1), 0, 0;
      assert t.blocks[0] == 0;
    }
  }

  /** For every size of the log area, header block included, and every number of processes, some
      interleaving makes a call of log_write panic that its operation's reservation covers exactly
      when there are two processes or more, or there is one and the area has no more than
      MAXOPBLOCKS + 1 blocks. The guard stands before the test for a block that is logged already,
      so that a full log refuses even that; no size of the area prevents it. */
  lemma PanicReachableIff(size: nat, procs: nat)
    ensures (exists run, t, p: nat, b: nat :: Panicking(size, procs, run, t, p, b)) <==> CanPanic(size, procs)
  {
    if CanPanic(size, procs) {
      if CanPanicNew(size, procs) {
        var run, t, p, b := NewPanicReached(size, procs);
      } else {
        var run, t, p, b := OldPanicReached(size, procs);
      }
    }
    forall run, t, p: nat, b: nat | Panicking(size, procs, run, t, p, b) ensures CanPanic(size, procs) {
      PanicNeeds(size, procs, run, t, p, b);
    }
  }

  /** A call for a block that is not in the log yet can be made to panic exactly when there are two
      processes or more and the area has no more than LOGSIZE blocks, which is what mkfs makes it, or
      there is one and the area has no more than MAXOPBLOCKS. */
  lemma NewPanicReachableIff(size: nat, procs: nat)
    ensures (exists run, t, p: nat, b: nat :: PanickingNew(size, procs, run, t, p, b)) <==> CanPanicNew(size, procs)
  {
    if CanPanicNew(size, procs) {
      var run, t, p, b := NewPanicReached(size, procs);
    }
    forall run, t, p: nat, b: nat | PanickingNew(size, procs, run, t, p, b) ensures CanPanicNew(size, procs) {
      PanicNeeds(size, procs, run, t, p, b);
    }
  }

  // The slots of the log area.

  /** More blocks are logged than the area has slots for; its first block is the header. */
  predicate Overflows(t: State) { t.blocks != [] && |t.blocks| >= t.size }

  ghost predicate Overflowing(size: nat, procs: nat, run: seq<Step>, t: State) {
    Runs(Start(size, procs), run, t) && Overflows(t)
  }

  /** Blocks 0..k-1 logged, so that both processes may log one more. */
  function Spread(size: nat, procs: nat, k: nat): State {
    var first := if k < MAXOPBLOCKS then k else if k < 2 * MAXOPBLOCKS then k - MAXOPBLOCKS else MAXOPBLOCKS - 1;
    var second := if k < 2 * MAXOPBLOCKS then 0 else k - 2 * MAXOPBLOCKS + 1;
    State(size, seq(k, i => i), if procs < 2 then procs else 2, false,
          seq(procs, i => if i == 0 then Inside(first, false) else if i == 1 then Inside(second, false) else Outside))
  }

  lemma {:induction false} SpreadReachable(size: nat, procs: nat, k: nat) returns (run: seq<Step>)
    requires procs > 1 && (k == 0 || k < size) && k <= LOGSIZE - 2
    ensures Runs(Start(size, procs), run, Spread(size, procs, k))
    decreases k
  {
    if k < 2 * MAXOPBLOCKS {
      run := FillReachable(size, procs, k);
      assert Filled(size, procs, k).procs == Spread(size, procs, k).procs;
    } else {
      run := SpreadReachable(size, procs, k - 1);
      LogOne(Start(size, procs), run, Spread(size, procs, k - 1), 1, k - 1);
      run := run + [Check(1)] + [Add(1, k - 1)];
      assert Logged(Spread(size, procs, k - 1), 1, k - 1).blocks == Spread(size, procs, k).blocks;
      assert Logged(Spread(size, procs, k - 1), 1, k - 1).procs == Spread(size, procs, k).procs;
    }
  }

  /** Both processes pass the unlocked test before either logs its block. */
  lemma BothPass(size: nat, procs: nat) returns (run: seq<Step>, t: State)
    requires procs > 1 && 2 <= size <= LOGSIZE
    ensures Overflowing(size, procs, run, t)
  {
    var s, k := Start(size, procs), size - 2;
    run := SpreadReachable(size, procs, k);
    t := Spread(size, procs, k);
    RunsAppend(s, run, t, Check(0));
    run, t := run + [Check(0)], After(t, Check(0));
    RunsAppend(s, run, t, Check(1));
    run, t := run + [Check(1)], After(t, Check(1));
    RunsAppend(s, run, t, Add(0, k));
    run, t := run + [Add(0, k)], After(t, Add(0, k));
    RunsAppend(s, run, t, Add(1, k + 1));
    run, t := run + [Add(1, k + 1)], After(t, Add(1, k + 1));
  }

  /** Nothing is logged without a test that found a free slot; a process on its own logs into that slot. */
  ghost predicate Tested(s: State) {
    && (s.blocks != [] ==> s.size >= 2)
    && (forall p :: 0 <= p < |s.procs| && s.procs[p].Inside? && s.procs[p].checked ==> s.size >= 2)
    && (|s.procs| == 1 ==> s.blocks == [] || |s.blocks| < s.size)
    && (|s.procs| == 1 && s.procs[0].Inside? && s.procs[0].checked ==> |s.blocks| + 1 < s.size)
  }

  lemma {:induction false} TestedKept(s: State, run: seq<Step>, t: State)
    requires Tested(s) && Runs(s, run, t)
    ensures Tested(t) && t.size == s.size && |t.procs| == |s.procs|
    decreases |run|
  {
    if run != [] {
      TestedKept(After(s, run[0]), run[1..], t);
    }
  }

  lemma {:induction false} NoProcesses(s: State, run: seq<Step>, t: State)
    requires s.procs == [] && s.blocks == [] && Runs(s, run, t)
    ensures t.blocks == []
    decreases |run|
  {
    if run != [] {
      NoProcesses(After(s, run[0]), run[1..], t);
    }
  }

  /** Some interleaving logs more blocks than the log area has slots for exactly when there are two
      processes or more and the area has between 2 and LOGSIZE blocks: both can pass the unlocked test
      on the last free slot. In a larger area the reservation alone keeps the blocks within the slots. */
  lemma OverflowReachableIff(size: nat, procs: nat)
    ensures (exists run, t :: Overflowing(size, procs, run, t)) <==> procs > 1 && 2 <= size <= LOGSIZE
  {
    if procs > 1 && 2 <= size <= LOGSIZE {
      var run, t := BothPass(size, procs);
    }
    forall run, t | Overflowing(size, procs, run, t) ensures procs > 1 && 2 <= size <= LOGSIZE {
      AllOutside(procs);
      RunKeeps(Start(size, procs), run, t);
      TestedKept(Start(size, procs), run, t);
      if procs == 0 {
        NoProcesses(Start(size, procs), run, t);
      }
    }
  }
}
