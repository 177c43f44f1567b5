/** Every run of the parallel program is finite, and one that cannot go on has the serial result. */
module JacobiTermination {
  import opened JacobiGrid
  import opened JacobiSplit
  import opened JacobiSystem
  import opened JacobiInvariant
  import opened JacobiTheorem
  import opened JacobiProgress

  /** More than the steps of a child in one iteration. */
  function PerIteration(n: nat): nat { 6 * n + (n + 2) * n }

  /** How far a child is in its iteration. */
  function Position(n: nat, k: Child): nat {
    match k.stage
    case SendUp => k.t
    case SendDown => n + k.t
    case FromBelow => 2 * n + k.t
    case FromAbove => 3 * n + k.t
    case Update => 4 * n
    case Await => 5 * n
    case Return(row, col) => 6 * n + row * n + col
    case Exited => 6 * n + (n + 1) * n
  }

  function Progress(n: nat, k: Child): nat { k.iter * PerIteration(n) + Position(n, k) }

  function CoordProgress(p: nat, c: Coord): nat {
    c.it * (2 * p + 4) +
    match c
    case Reading(_, next, _) => next
    case Ordering(_, next, _) => p + 1 + next
    case Gathering(_, got) => 2 * p + 2 + got
  }

  function AllProgress(n: nat, kids: seq<Child>): nat {
    if kids == [] then 0 else Progress(n, kids[0]) + AllProgress(n, kids[1..])
  }

  function Total(pb: Problem, s: Sys): nat
    requires |pb.cuts| > 0
  {
    AllProgress(pb.n, s.kids) + CoordProgress(Kids(pb), s.coord)
  }

  lemma {:induction false} OneChanges(n: nat, kids: seq<Child>, i: nat, k: Child)
    requires i < |kids|
    ensures AllProgress(n, kids[i := k]) == AllProgress(n, kids) - Progress(n, kids[i]) + Progress(n, k)
  {
    if i == 0 {
      assert kids[i := k][1..] == kids[1..];
    } else {
      assert kids[i := k][1..] == kids[1..][i - 1 := k];
      OneChanges(n, kids[1..], i - 1, k);
    }
  }

  lemma NextIteration(n: nat, iter: nat)
    ensures (iter + 1) * PerIteration(n) == iter * PerIteration(n) + PerIteration(n)
  {
  }

  lemma NextRow(n: nat, row: nat)
    ensures (row + 1) * n == row * n + n
  {
  }

  lemma RowsBelow(n: nat, row: nat, m: nat)
    requires row <= m
    ensures row * n <= m * n
  {
  }

  /** Child k can become k2 in one step, as far as the counters go. */
  predicate MovesTo(n: nat, k: Child, k2: Child) {
    match k.stage
    case SendUp => k2.iter == k.iter && (k2.stage.SendDown? || (k2.stage.SendUp? && k2.t == k.t + 1))
    case SendDown => k2.iter == k.iter && (k2.stage.FromBelow? || (k2.stage.SendDown? && k2.t == k.t + 1))
    case FromBelow => k2.iter == k.iter && (k2.stage.FromAbove? || (k2.stage.FromBelow? && k2.t == k.t + 1))
    case FromAbove => k2.iter == k.iter && (k2.stage.Update? || (k2.stage.FromAbove? && k2.t == k.t + 1))
    case Update => k2.iter == k.iter && k2.stage.Await?
    case Await => (k2.iter == k.iter && k2.stage.Return?) || (k2.iter == k.iter + 1 && k2.stage.SendUp?)
    case Return(row, col) =>
      k2.iter == k.iter && (k2.stage.Exited? || k2.stage == Return(row, col + 1) || k2.stage == Return(row + 1, 1))
    case Exited => false
  }

  lemma Further(n: nat, k: Child, k2: Child)
    requires MovesTo(n, k, k2) && 1 <= k.t <= n - 1 && 1 <= k2.t
    requires k.stage.Return? ==> k.stage.row <= n - 1 && k.stage.col <= n - 1
    ensures Progress(n, k2) > Progress(n, k)
  {
    if k.stage.Await? {
      NextIteration(n, k.iter);
    } else if k.stage.Return? {
      NextRow(n, k.stage.row);
      RowsBelow(n, k.stage.row, n);
      NextRow(n, n);
    }
  }

  lemma KidMovesTo(pb: Problem, s: Sys, i: nat)
    requires Shape(pb, s) && Enabled(pb, s, Kid(i))
    ensures var s' := KidStep(pb, s, i);
            && |s'.kids| == |s.kids| && MovesTo(pb.n, s.kids[i], s'.kids[i]) && s'.kids[i].t >= 1
            && s'.kids == s.kids[i := s'.kids[i]] && s'.coord == s.coord
  {
  }

  /** A step of a child takes it further. */
  lemma KidAdvances(pb: Problem, s: Sys, seen: set<(nat, nat)>, i: nat)
    requires Inv(pb, s, seen) && Shape(pb, s) && Enabled(pb, s, Kid(i))
    ensures var s' := KidStep(pb, s, i);
            && |s'.kids| == |s.kids| && Progress(pb.n, s'.kids[i]) > Progress(pb.n, s.kids[i])
            && s'.kids == s.kids[i := s'.kids[i]] && s'.coord == s.coord
  {
    assert KidOk(pb, i, s.kids[i]);
    KidMovesTo(pb, s, i);
    Further(pb.n, s.kids[i], KidStep(pb, s, i).kids[i]);
  }

  lemma CoordAdvances(pb: Problem, s: Sys)
    requires Shape(pb, s) && Enabled(pb, s, Boss) && (!s.coord.Gathering? ==> s.coord.next <= Kids(pb))
    ensures BossStep(pb, s).kids == s.kids
    ensures CoordProgress(Kids(pb), BossStep(pb, s).coord) > CoordProgress(Kids(pb), s.coord)
  {
    var p, it := Kids(pb), s.coord.it;
    assert (it + 1) * (2 * p + 4) == it * (2 * p + 4) + (2 * p + 4);
  }

  lemma StepAdvances(pb: Problem, s: Sys, st: Step, seen: set<(nat, nat)>)
    requires Inv(pb, s, seen) && Shape(pb, s) && Enabled(pb, s, st)
    ensures Total(pb, After(pb, s, st)) > Total(pb, s)
  {
    match st {
      case Kid(i) =>
        KidAdvances(pb, s, seen, i);
        OneChanges(pb.n, s.kids, i, KidStep(pb, s, i).kids[i]);
      case Boss => CoordAdvances(pb, s);
    }
  }

  // The bound.

  /** The most iterations that the serial program goes on from. */
  function Limit(l: int): nat { if l < 0 then 0 else l }

  lemma StoppedByLimit(pb: Problem, k: nat)
    requires GoodProblem(pb) && NeverStopped(pb.n, pb.g0, pb.e, pb.l, k)
    ensures k <= Limit(pb.l)
  {
    if k >= 1 {
      assert !Stops(pb.n, pb.g0, pb.e, pb.l, k);
    }
  }

  lemma ChildBound(pb: Problem, i: nat, k: Child)
    requires GoodProblem(pb) && i < Kids(pb) && KidOk(pb, i, k) && k.iter <= Limit(pb.l)
    ensures Progress(pb.n, k) <= (Limit(pb.l) + 1) * PerIteration(pb.n)
  {
    var n := pb.n;
    CutsBound(n, pb.cuts, i);
    if k.stage.Return? { RowsBelow(n, k.stage.row, n); }
    NextRow(n, n);
    NextRow(n, n + 1);
    assert Position(n, k) <= PerIteration(n);
    NextIteration(n, k.iter);
    RowsBelow(PerIteration(n), k.iter + 1, Limit(pb.l) + 1);
  }

  lemma {:induction false} AllBound(n: nat, kids: seq<Child>, b: nat)
    requires forall i :: 0 <= i < |kids| ==> Progress(n, kids[i]) <= b
    ensures AllProgress(n, kids) <= |kids| * b
  {
    if kids != [] {
      AllBound(n, kids[1..], b);
      NextRow(b, |kids| - 1);
    }
  }

  /** No run has more steps. */
  function Bound(n: nat, p: nat, l: int): int {
    p * ((Limit(l) + 1) * PerIteration(n)) + (Limit(l) + 1) * (2 * p + 4) + 2 * p + 2 + (n - 2) * (n - 2)
  }

  lemma CoordBound(pb: Problem, s: Sys, seen: set<(nat, nat)>)
    requires Inv(pb, s, seen)
    ensures CoordProgress(Kids(pb), s.coord)
              <= (Limit(pb.l) + 1) * (2 * Kids(pb) + 4) + 2 * Kids(pb) + 2 + (pb.n - 2) * (pb.n - 2)
  {
    StoppedByLimit(pb, s.coord.it - 1);
    RowsBelow(2 * Kids(pb) + 4, s.coord.it, Limit(pb.l) + 1);
    if s.coord.Gathering? { NotTooMany(pb, s, seen); }
    RowsBelow(pb.n - 2, 0, pb.n - 2);
  }

  lemma TotalBound(pb: Problem, s: Sys, seen: set<(nat, nat)>)
    requires Inv(pb, s, seen) && Also(pb, s, seen)
    ensures Total(pb, s) <= Bound(pb.n, Kids(pb), pb.l)
  {
    forall i | 0 <= i < |s.kids| ensures Progress(pb.n, s.kids[i]) <= (Limit(pb.l) + 1) * PerIteration(pb.n) {
      assert KidOk(pb, i, s.kids[i]);
      StoppedByLimit(pb, s.kids[i].iter);
      ChildBound(pb, i, s.kids[i]);
    }
    AllBound(pb.n, s.kids, (Limit(pb.l) + 1) * PerIteration(pb.n));
    CoordBound(pb, s, seen);
  }

  // Whole runs.

  lemma {:induction false} RunAdvances(pb: Problem, s: Sys, run: seq<Step>, t: Sys, seen: set<(nat, nat)>)
    returns (seen': set<(nat, nat)>)
    requires Inv(pb, s, seen) && Also(pb, s, seen) && Runs(pb, s, run, t)
    ensures Inv(pb, t, seen') && Also(pb, t, seen') && Total(pb, t) >= Total(pb, s) + |run|
    decreases |run|
  {
    seen' := seen;
    if run != [] {
      StepAdvances(pb, s, run[0], seen);
      seen' := StepAlso(pb, s, run[0], seen);
      seen' := RunAdvances(pb, After(pb, s, run[0]), run[1..], t, seen');
    }
  }

  lemma StartAlso(pb: Problem)
    requires GoodProblem(pb)
    ensures Inv(pb, Start(pb), {}) && Also(pb, Start(pb), {})
  {
    StartInv(pb);
    var s := Start(pb);
    forall i | 0 <= i < Kids(pb) ensures SentOk(pb, s, {}, i) {
    }
  }

  lemma InvShape(pb: Problem, s: Sys, seen: set<(nat, nat)>)
    requires Inv(pb, s, seen)
    ensures Shape(pb, s)
  {
    forall i | 0 <= i < Kids(pb) ensures Square(pb.n, s.kids[i].u) && Square(pb.n, s.kids[i].w) && s.kids[i].t >= 1 {
      assert KidOk(pb, i, s.kids[i]);
    }
  }

  ghost predicate Stuck(pb: Problem, s: Sys)
    requires Shape(pb, s)
  {
    forall st :: !Enabled(pb, s, st)
  }

  lemma StuckIsFinished(pb: Problem, s: Sys, seen: set<(nat, nat)>)
    requires Inv(pb, s, seen) && Also(pb, s, seen) && Shape(pb, s)
    ensures Stuck(pb, s) ==> Finished(pb, s)
  {
    if !Finished(pb, s) {
      var st := GoesOn(pb, s, seen);
    }
  }

  lemma EndsIn(pb: Problem, run: seq<Step>, s: Sys)
    requires GoodProblem(pb) && Runs(pb, Start(pb), run, s)
    ensures |run| <= Bound(pb.n, Kids(pb), pb.l) && Shape(pb, s)
    ensures Stuck(pb, s) ==> Finished(pb, s) && SerialResult(pb.n, pb.g0, pb.e, pb.l, s.coord.it, s.out)
  {
    StartAlso(pb);
    var seen := RunAdvances(pb, Start(pb), run, s, {});
    TotalBound(pb, s, seen);
    InvShape(pb, s, seen);
    StuckIsFinished(pb, s, seen);
    CoordFollows(pb, s.coord, s.out, seen);
  }

  /** With 2 <= p <= n processes and pipes that hold what is sent: no run has more than Bound steps,
      and a run that cannot go on has ended with every child gone and the result of the serial
      program gathered. */
  lemma ParallelEnds(n: nat, p: nat, g0: Grid, e: real, l: int, run: seq<Step>, s: Sys)
    requires 2 <= p <= n && Square(n, g0)
    requires Runs(Problem(n, Cuts(n, p), g0, e, l), Start(Problem(n, Cuts(n, p), g0, e, l)), run, s)
    ensures |run| <= Bound(n, p, l)
    ensures var pb := Problem(n, Cuts(n, p), g0, e, l);
            && Shape(pb, s)
            && (Stuck(pb, s) ==> Finished(pb, s) && SerialResult(n, g0, e, l, s.coord.it, s.out))
  {
    CutsGood(n, p);
    EndsIn(Problem(n, Cuts(n, p), g0, e, l), run, s);
  }

  lemma {:induction false} RunsAppend(pb: Problem, s: Sys, run: seq<Step>, t: Sys, st: Step)
    requires Runs(pb, s, run, t) && Shape(pb, t) && Enabled(pb, t, st)
    ensures Runs(pb, s, run + [st], After(pb, t, st))
    decreases |run|
  {
    if run == [] {
      assert (run + [st])[1..] == [];
    } else {
      assert (run + [st])[1..] == run[1..] + [st];
      RunsAppend(pb, After(pb, s, run[0]), run[1..], t, st);
    }
  }

  /** From every state that a run reaches, some run goes on to the result. */
  lemma {:induction false} ResultReachable(n: nat, p: nat, g0: Grid, e: real, l: int, run: seq<Step>, s: Sys)
    returns (run': seq<Step>, t: Sys)
    requires 2 <= p <= n && Square(n, g0)
    requires Runs(Problem(n, Cuts(n, p), g0, e, l), Start(Problem(n, Cuts(n, p), g0, e, l)), run, s)
    ensures run <= run' && Runs(Problem(n, Cuts(n, p), g0, e, l), Start(Problem(n, Cuts(n, p), g0, e, l)), run', t)
    ensures Finished(Problem(n, Cuts(n, p), g0, e, l), t) && SerialResult(n, g0, e, l, t.coord.it, t.out)
    decreases Bound(n, p, l) - |run|
  {
    var pb := Problem(n, Cuts(n, p), g0, e, l);
    ParallelEnds(n, p, g0, e, l, run, s);
    if Stuck(pb, s) {
      run', t := run, s;
    } else {
      var st :| Enabled(pb, s, st);
      RunsAppend(pb, Start(pb), run, s, st);
      ParallelEnds(n, p, g0, e, l, run + [st], After(pb, s, st));
      run', t := ResultReachable(n, p, g0, e, l, run + [st], After(pb, s, st));
    }
  }
}
