/** The parallel program always ends: no state it reaches is stuck before the result is gathered,
    and no run goes on for ever. */
module JacobiProgress {
  import opened Basics
  import opened JacobiGrid
  import opened JacobiSplit
  import opened JacobiSystem
  import opened JacobiInvariant
  import opened JacobiTheorem

  /** All children have gone and every inner cell has been stored. */
  predicate Finished(pb: Problem, s: Sys) {
    && s.coord.Gathering? && s.coord.got == (pb.n - 2) * (pb.n - 2)
    && forall i :: 0 <= i < |s.kids| ==> s.kids[i].stage.Exited?
  }

  /** A cell that a child has sent is on its way or stored. */
  ghost predicate Arrives(cells: seq<Cell>, seen: set<(nat, nat)>, x: nat, y: nat) {
    (x, y) in seen || exists a :: 0 <= a < |cells| && cells[a].row == x && cells[a].col == y
  }

  ghost predicate SentOk(pb: Problem, s: Sys, seen: set<(nat, nat)>, i: nat)
    requires Sized(pb, s) && i < Kids(pb)
  {
    forall x: nat, y: nat {:trigger Arrives(s.cells, seen, x, y)} ::
      Lo(pb, i) <= x < Hi(pb, i) && Inner(pb.n, y) && Gone(s.kids[i], x, y) ==> Arrives(s.cells, seen, x, y)
  }

  /** What progress needs besides the invariant: no cell is lost, and no child has gone past the
      iteration in which the serial program stops. */
  ghost predicate Also(pb: Problem, s: Sys, seen: set<(nat, nat)>)
    requires Sized(pb, s)
  {
    && (forall i {:trigger SentOk(pb, s, seen, i)} :: 0 <= i < Kids(pb) ==> SentOk(pb, s, seen, i))
    && (forall i {:trigger s.kids[i]} :: 0 <= i < Kids(pb) ==> NeverStopped(pb.n, pb.g0, pb.e, pb.l, s.kids[i].iter))
  }

  // Some step can always be taken.

  /** A child that is an iteration behind the one the coordinator reads has its order. */
  lemma BehindCanGo(pb: Problem, s: Sys, seen: set<(nat, nat)>, i: nat)
    requires Inv(pb, s, seen) && Shape(pb, s) && i < Kids(pb) && s.coord.Reading? && s.kids[i].iter + 2 == s.coord.it
    ensures Enabled(pb, s, Kid(i))
  {
    assert KidOk(pb, i, s.kids[i]);
    assert BarrierOk(pb, i, s.kids[i], s.coord, s.diffs[i], s.orders[i]);
  }

  /** An empty pipe whose reader waits: the writer has not sent the whole row, or is behind. */
  lemma EmptyPipe(pb: Problem, dir: int, row: nat, kw: nat, wt: int, kr: nat, rt: int)
    requires GoodProblem(pb) && row < pb.n && 1 <= rt < pb.n - 1 && wt <= pb.n - 1
    requires PipeOk(pb, dir, row, [], kw, wt, kr, rt)
    ensures (kw == kr && wt < pb.n - 1) || kw + 1 == kr
  {
    if kw == kr {
      assert |Slice(pb, dir, row, kw, rt, wt)| == wt - rt;
    }
  }

  /** A child that waits for an edge row waits for a neighbour that can go on. */
  lemma WaitsBelow(pb: Problem, s: Sys, seen: set<(nat, nat)>, i: nat)
    requires Inv(pb, s, seen) && Shape(pb, s) && i < Kids(pb) && s.kids[i].stage.FromBelow? && !Enabled(pb, s, Kid(i))
    requires s.coord.Reading? && s.kids[i].iter == s.coord.it - 1
    ensures i + 1 < Kids(pb) && Enabled(pb, s, Kid(i + 1))
  {
    CutsBound(pb.n, pb.cuts, i);
    var r, w := s.kids[i], s.kids[i + 1];
    assert UpOk(pb, i + 1, s.up[i + 1], w, r);
    assert KidOk(pb, i + 1, w);
    EmptyPipe(pb, 1, pb.cuts[i + 1], w.iter, Col(pb.n, w, 0), r.iter, Col(pb.n, r, 2));
    if w.iter + 1 == r.iter { BehindCanGo(pb, s, seen, i + 1); }
  }

  lemma WaitsAbove(pb: Problem, s: Sys, seen: set<(nat, nat)>, i: nat)
    requires Inv(pb, s, seen) && Shape(pb, s) && i < Kids(pb) && s.kids[i].stage.FromAbove? && !Enabled(pb, s, Kid(i))
    requires s.coord.Reading? && s.kids[i].iter == s.coord.it - 1
    ensures 0 < i && Enabled(pb, s, Kid(i - 1))
  {
    CutsBound(pb.n, pb.cuts, i);
    var r, w := s.kids[i], s.kids[i - 1];
    assert DownOk(pb, i - 1, s.down[i - 1], w, r);
    assert KidOk(pb, i - 1, w);
    EmptyPipe(pb, -1, pb.cuts[i] - 1, w.iter, Col(pb.n, w, 1), r.iter, Col(pb.n, r, 3));
    if w.iter + 1 == r.iter { BehindCanGo(pb, s, seen, i - 1); }
  }

  /** The child whose difference the coordinator waits for is in the coordinator's iteration, or can
      take its order. */
  lemma SlowChild(pb: Problem, s: Sys, seen: set<(nat, nat)>, i: nat)
    requires Inv(pb, s, seen) && Shape(pb, s) && i < Kids(pb) && s.coord.Reading? && s.coord.next == i
    requires s.diffs[i] == []
    ensures Enabled(pb, s, Kid(i)) || (Rank(s.kids[i].stage) < 5 && s.kids[i].iter == s.coord.it - 1)
  {
    assert KidOk(pb, i, s.kids[i]);
    assert BarrierOk(pb, i, s.kids[i], s.coord, s.diffs[i], s.orders[i]);
  }

  lemma ReadingGoesOn(pb: Problem, s: Sys, seen: set<(nat, nat)>) returns (st: Step)
    requires Inv(pb, s, seen) && Shape(pb, s) && s.coord.Reading?
    ensures Enabled(pb, s, st)
  {
    st := Boss;
    var i := s.coord.next;
    if i < Kids(pb) && s.diffs[i] == [] {
      SlowChild(pb, s, seen, i);
      st := Kid(i);
      if !Enabled(pb, s, st) {
        if s.kids[i].stage.FromBelow? {
          WaitsBelow(pb, s, seen, i);
          st := Kid(i + 1);
        } else {
          WaitsAbove(pb, s, seen, i);
          st := Kid(i - 1);
        }
      }
    }
  }

  /** Once the coordinator gathers, a child can go on until it is gone. */
  lemma StoppingChild(pb: Problem, s: Sys, seen: set<(nat, nat)>, i: nat)
    requires Inv(pb, s, seen) && Shape(pb, s) && Also(pb, s, seen) && i < Kids(pb) && s.coord.Gathering?
    ensures s.kids[i].stage.Exited? || Enabled(pb, s, Kid(i))
  {
    assert KidOk(pb, i, s.kids[i]);
    assert BarrierOk(pb, i, s.kids[i], s.coord, s.diffs[i], s.orders[i]);
    assert StopsAt(pb, s.coord.it - 1);
  }

  /** With all children gone and no cell on its way, every inner cell is stored. */
  lemma AllStored(pb: Problem, s: Sys, seen: set<(nat, nat)>)
    requires Inv(pb, s, seen) && Also(pb, s, seen) && s.coord.Gathering? && s.cells == []
    requires forall i :: 0 <= i < |s.kids| ==> s.kids[i].stage.Exited?
    ensures s.coord.got >= (pb.n - 2) * (pb.n - 2)
  {
    var n := pb.n;
    forall p | p in Rect(n - 1, n - 1) ensures p in seen {
      var i := BandOf(n, pb.cuts, p.0, |pb.cuts| - 1);
      assert SentOk(pb, s, seen, i);
      assert Gone(s.kids[i], p.0, p.1);
      assert Arrives(s.cells, seen, p.0, p.1);
    }
    RectSize(n - 1, n - 1);
    SubsetSize(Rect(n - 1, n - 1), seen);
  }

  lemma NotTooMany(pb: Problem, s: Sys, seen: set<(nat, nat)>)
    requires Inv(pb, s, seen) && s.coord.Gathering?
    ensures s.coord.got <= (pb.n - 2) * (pb.n - 2)
  {
    var n := pb.n;
    forall p | p in seen ensures p in Rect(n - 1, n - 1) {
      assert (p.0, p.1) in seen;
    }
    RectSize(n - 1, n - 1);
    SubsetSize(seen, Rect(n - 1, n - 1));
  }

  lemma GatheringGoesOn(pb: Problem, s: Sys, seen: set<(nat, nat)>) returns (st: Step)
    requires Inv(pb, s, seen) && Shape(pb, s) && Also(pb, s, seen) && s.coord.Gathering? && !Finished(pb, s)
    ensures Enabled(pb, s, st)
  {
    forall i | 0 <= i < Kids(pb) ensures s.kids[i].stage.Exited? || Enabled(pb, s, Kid(i)) {
      StoppingChild(pb, s, seen, i);
    }
    if exists i :: 0 <= i < Kids(pb) && !s.kids[i].stage.Exited? {
      var i :| 0 <= i < Kids(pb) && !s.kids[i].stage.Exited?;
      st := Kid(i);
    } else {
      NotTooMany(pb, s, seen);
      if s.cells == [] { AllStored(pb, s, seen); }
      st := Boss;
    }
  }

  lemma GoesOn(pb: Problem, s: Sys, seen: set<(nat, nat)>) returns (st: Step)
    requires Inv(pb, s, seen) && Shape(pb, s) && Also(pb, s, seen) && !Finished(pb, s)
    ensures Enabled(pb, s, st)
  {
    match s.coord {
      case Reading(_, _, _) => st := ReadingGoesOn(pb, s, seen);
      case Ordering(_, _, _) => st := Boss;
      case Gathering(_, _) => st := GatheringGoesOn(pb, s, seen);
    }
  }

  // What the steps keep.

  /** Nothing that was on its way is lost by a step that takes no cell away or stores the one it takes. */
  lemma SentKept(pb: Problem, s: Sys, s': Sys, seen: set<(nat, nat)>, seen': set<(nat, nat)>, i: nat)
    requires Sized(pb, s) && Sized(pb, s') && i < Kids(pb) && SentOk(pb, s, seen, i)
    requires forall x, y :: Lo(pb, i) <= x < Hi(pb, i) && Inner(pb.n, y) && Gone(s'.kids[i], x, y) ==>
               Gone(s.kids[i], x, y)
    requires forall x: nat, y: nat {:trigger Arrives(s.cells, seen, x, y)} :: Arrives(s.cells, seen, x, y) ==>
               Arrives(s'.cells, seen', x, y)
    ensures SentOk(pb, s', seen', i)
  {
    forall x: nat, y: nat | Lo(pb, i) <= x < Hi(pb, i) && Inner(pb.n, y) && Gone(s'.kids[i], x, y)
      ensures Arrives(s'.cells, seen', x, y)
    {
      assert Arrives(s.cells, seen, x, y);
    }
  }

  /** A turn that leaves child j alone keeps what it has sent. */
  lemma OthersSent(pb: Problem, s: Sys, s': Sys, seen: set<(nat, nat)>, j: nat)
    requires Sized(pb, s) && Sized(pb, s') && j < Kids(pb) && SentOk(pb, s, seen, j)
    requires s'.kids[j] == s.kids[j] && s.cells <= s'.cells
    ensures SentOk(pb, s', seen, j)
  {
    forall x: nat, y: nat | Arrives(s.cells, seen, x, y) ensures Arrives(s'.cells, seen, x, y) {
      if (x, y) !in seen {
        var a :| 0 <= a < |s.cells| && s.cells[a].row == x && s.cells[a].col == y;
        assert s'.cells[a] == s.cells[a];
      }
    }
    SentKept(pb, s, s', seen, seen, j);
  }

  lemma ReturnSent(pb: Problem, s: Sys, seen: set<(nat, nat)>, i: nat)
    requires Inv(pb, s, seen) && Shape(pb, s) && i < Kids(pb) && s.kids[i].stage.Return? && SentOk(pb, s, seen, i)
    ensures SentOk(pb, ReturnStep(pb, s, i), seen, i)
  {
    var s', k := ReturnStep(pb, s, i), s.kids[i];
    var row, col := k.stage.row, k.stage.col;
    assert KidOk(pb, i, k);
    assert s.cells <= s'.cells;
    forall x: nat, y: nat | Lo(pb, i) <= x < Hi(pb, i) && Inner(pb.n, y) && Gone(s'.kids[i], x, y)
      ensures Arrives(s'.cells, seen, x, y)
    {
      if Gone(k, x, y) {
        assert Arrives(s.cells, seen, x, y);
        if (x, y) !in seen {
          var a :| 0 <= a < |s.cells| && s.cells[a].row == x && s.cells[a].col == y;
          assert s'.cells[a] == s.cells[a];
        }
      } else {
        assert x == row && y == col;
        assert s'.cells[|s.cells|] == Cell(row, col, k.u[row][col]);
      }
    }
  }

  /** What a step of child i does to the counters and the mailbox. */
  lemma KidMoves(pb: Problem, s: Sys, i: nat)
    requires Shape(pb, s) && Enabled(pb, s, Kid(i))
    ensures var s', k := KidStep(pb, s, i), s.kids[i];
            && |s'.kids| == |s.kids| && s.cells <= s'.cells
            && (forall j :: 0 <= j < |s.kids| && j != i ==> s'.kids[j] == s.kids[j])
            && s'.kids[i].iter == (if k.stage.Await? && !s.orders[i][0] then k.iter + 1 else k.iter)
            && (!k.stage.Return? ==> s'.kids[i].stage == Return(Lo(pb, i), 1) || Rank(s'.kids[i].stage) < 6)
  {
  }

  lemma MovedSent(pb: Problem, s: Sys, seen: set<(nat, nat)>, i: nat)
    requires Inv(pb, s, seen) && Shape(pb, s) && Enabled(pb, s, Kid(i)) && SentOk(pb, s, seen, i)
    requires Sized(pb, KidStep(pb, s, i))
    ensures SentOk(pb, KidStep(pb, s, i), seen, i)
  {
    KidMoves(pb, s, i);
    if s.kids[i].stage.Return? {
      ReturnSent(pb, s, seen, i);
    }
  }

  lemma OneMore(pb: Problem, k: nat)
    requires GoodProblem(pb) && NeverStopped(pb.n, pb.g0, pb.e, pb.l, k) && !StopsAt(pb, k)
    ensures NeverStopped(pb.n, pb.g0, pb.e, pb.l, k + 1)
  {
  }

  lemma OrderIs(pb: Problem, s: Sys, seen: set<(nat, nat)>, i: nat)
    requires Inv(pb, s, seen) && i < Kids(pb) && s.kids[i].stage.Await? && s.orders[i] != []
    ensures s.orders[i][0] == StopsAt(pb, s.kids[i].iter)
  {
    assert BarrierOk(pb, i, s.kids[i], s.coord, s.diffs[i], s.orders[i]);
  }

  lemma MovedOn(pb: Problem, s: Sys, seen: set<(nat, nat)>, i: nat)
    requires Inv(pb, s, seen) && Shape(pb, s) && Enabled(pb, s, Kid(i)) && i < |KidStep(pb, s, i).kids|
    requires NeverStopped(pb.n, pb.g0, pb.e, pb.l, s.kids[i].iter)
    ensures NeverStopped(pb.n, pb.g0, pb.e, pb.l, KidStep(pb, s, i).kids[i].iter)
  {
    KidMoves(pb, s, i);
    if s.kids[i].stage.Await? && !s.orders[i][0] {
      OrderIs(pb, s, seen, i);
      OneMore(pb, s.kids[i].iter);
    }
  }

  lemma KidAlso(pb: Problem, s: Sys, seen: set<(nat, nat)>, i: nat)
    requires Inv(pb, s, seen) && Shape(pb, s) && Enabled(pb, s, Kid(i)) && Also(pb, s, seen)
    requires Sized(pb, KidStep(pb, s, i))
    ensures Also(pb, KidStep(pb, s, i), seen)
  {
    var s' := KidStep(pb, s, i);
    KidMoves(pb, s, i);
    forall j | 0 <= j < Kids(pb) ensures SentOk(pb, s', seen, j) {
      assert SentOk(pb, s, seen, j);
      if j != i {
        OthersSent(pb, s, s', seen, j);
      } else {
        MovedSent(pb, s, seen, i);
      }
    }
    forall j | 0 <= j < Kids(pb) ensures NeverStopped(pb.n, pb.g0, pb.e, pb.l, s'.kids[j].iter) {
      assert NeverStopped(pb.n, pb.g0, pb.e, pb.l, s.kids[j].iter);
      if j == i { MovedOn(pb, s, seen, i); }
    }
  }

  lemma BossAlso(pb: Problem, s: Sys, seen: set<(nat, nat)>)
    requires Inv(pb, s, seen) && Shape(pb, s) && Enabled(pb, s, Boss) && Also(pb, s, seen)
    requires Sized(pb, BossStep(pb, s))
    ensures Also(pb, BossStep(pb, s), SeenAfter(s, Boss, seen))
  {
    var s', seen' := BossStep(pb, s), SeenAfter(s, Boss, seen);
    forall x: nat, y: nat | Arrives(s.cells, seen, x, y) ensures Arrives(s'.cells, seen', x, y) {
      if (x, y) !in seen' {
        var a :| 0 <= a < |s.cells| && s.cells[a].row == x && s.cells[a].col == y;
        if s.coord.Gathering? {
          assert s'.cells[a - 1] == s.cells[a];
        } else {
          assert s'.cells[a] == s.cells[a];
        }
      }
    }
    forall j | 0 <= j < Kids(pb) ensures SentOk(pb, s', seen', j) {
      assert SentOk(pb, s, seen, j);
      SentKept(pb, s, s', seen, seen', j);
    }
  }

  /** Both invariants after a step. */
  lemma StepAlso(pb: Problem, s: Sys, st: Step, seen: set<(nat, nat)>) returns (seen': set<(nat, nat)>)
    requires Inv(pb, s, seen) && Shape(pb, s) && Enabled(pb, s, st) && Also(pb, s, seen)
    ensures Inv(pb, After(pb, s, st), seen') && Also(pb, After(pb, s, st), seen')
  {
    seen' := StepKeeps(pb, s, st, seen);
    match st {
      case Kid(i) => KidAlso(pb, s, seen, i);
      case Boss => BossAlso(pb, s, seen);
    }
  }
}
