/** The parallel program computes what the serial program computes. */
module JacobiTheorem {
  import opened Basics
  import opened JacobiGrid
  import opened JacobiSplit
  import opened JacobiSystem
  import opened JacobiInvariant
  import opened JacobiPipes
  import opened JacobiChild
  import opened JacobiTurn
  import opened JacobiCoordinator

  /** A child that stopped did so in the coordinator's current iteration. */
  lemma StoppedInStep(pb: Problem, s: Sys, i: nat, seen: set<(nat, nat)>)
    requires Inv(pb, s, seen) && i < Kids(pb) && Rank(s.kids[i].stage) == 6
    ensures s.kids[i].iter == s.coord.it - 1
  {
    var k := s.kids[i];
    assert KidOk(pb, i, k);
    assert BarrierOk(pb, i, k, s.coord, s.diffs[i], s.orders[i]);
    assert StopsAt(pb, k.iter);
  }

  /** Bands do not overlap. */
  lemma BandsApart(pb: Problem, i: nat, j: nat, x: nat)
    requires GoodProblem(pb) && i < Kids(pb) && j < Kids(pb) && Lo(pb, i) <= x < Hi(pb, i) && Lo(pb, j) <= x < Hi(pb, j)
    ensures i == j
  {
    BandUnique(pb.n, pb.cuts, x, i, j);
  }

  lemma CellRight(pb: Problem, i: nat, k: Child)
    requires GoodProblem(pb) && i < Kids(pb) && KidOk(pb, i, k) && k.stage.Return?
    requires k.stage.row < Hi(pb, i) && k.stage.col < pb.n - 1
    ensures CellOk(pb, k.iter, Cell(k.stage.row, k.stage.col, k.u[k.stage.row][k.stage.col]))
  {
    CutsBound(pb.n, pb.cuts, i);
    assert Known(pb, i, k, k.stage.row, k.stage.col);
  }

  lemma SentCell(pb: Problem, i: nat, k: Child, it: nat, cells: seq<Cell>, seen: set<(nat, nat)>)
    requires GoodProblem(pb) && i < Kids(pb) && KidOk(pb, i, k) && k.stage.Return? && k.iter == it
    requires MailOk(pb, it, cells, seen)
    requires Unsent(pb, i, k, cells, seen) && k.stage.row < Hi(pb, i) && k.stage.col < pb.n - 1
    ensures MailOk(pb, it, cells + [Cell(k.stage.row, k.stage.col, k.u[k.stage.row][k.stage.col])], seen)
  {
    CellRight(pb, i, k);
    assert !Gone(k, k.stage.row, k.stage.col);
    NewCell(pb, it, cells, seen, Cell(k.stage.row, k.stage.col, k.u[k.stage.row][k.stage.col]));
  }

  lemma NewCell(pb: Problem, k: nat, cells: seq<Cell>, seen: set<(nat, nat)>, c: Cell)
    requires GoodProblem(pb) && MailOk(pb, k, cells, seen) && CellOk(pb, k, c) && (c.row, c.col) !in seen
    requires StopsAt(pb, k)
    requires forall a :: 0 <= a < |cells| ==> !(cells[a].row == c.row && cells[a].col == c.col)
    ensures MailOk(pb, k, cells + [c], seen)
  {
  }

  lemma SentUnsent(pb: Problem, s: Sys, i: nat, seen: set<(nat, nat)>)
    requires Sized(pb, s) && Shape(pb, s) && AllUnsent(pb, s, seen) && i < Kids(pb) && s.kids[i].stage.Return?
    requires Lo(pb, i) <= s.kids[i].stage.row
    ensures AllUnsent(pb, ReturnStep(pb, s, i), seen)
  {
    CutsBound(pb.n, pb.cuts, i);
    var s' := ReturnStep(pb, s, i);
    forall j | 0 <= j < Kids(pb) ensures Unsent(pb, j, s'.kids[j], s'.cells, seen) {
      assert Unsent(pb, j, s.kids[j], s.cells, seen);
      forall x: nat, y: nat | Lo(pb, j) <= x < Hi(pb, j) && !Gone(s'.kids[j], x, y)
        ensures (x, y) !in seen && forall a :: 0 <= a < |s'.cells| ==> !(s'.cells[a].row == x && s'.cells[a].col == y)
      {
        assert !Gone(s.kids[j], x, y);
        if x == s.kids[i].stage.row < Hi(pb, i) { BandsApart(pb, i, j, x); }
      }
    }
  }

  lemma MailSame(pb: Problem, k: nat, k': nat, cells: seq<Cell>, cells': seq<Cell>, seen: set<(nat, nat)>)
    requires GoodProblem(pb) && MailOk(pb, k, cells, seen) && k' == k && cells' == cells
    ensures MailOk(pb, k', cells', seen)
  {
  }

  /** A child's step that sends no cell back. */
  lemma ChildTurn(pb: Problem, s: Sys, s': Sys, i: nat, seen: set<(nat, nat)>)
    requires Inv(pb, s, seen) && i < Kids(pb) && Sized(pb, s') && OtherKidsSame(s, s', i) && Near(pb, s', i)
    requires s'.cells == s.cells
    requires forall x, y :: !Gone(s.kids[i], x, y)
    ensures Inv(pb, s', seen)
  {
    GatherSame(pb, s, s', i, seen);
    Assemble(pb, s, s', i, seen);
  }

  lemma GatherSame(pb: Problem, s: Sys, s': Sys, i: nat, seen: set<(nat, nat)>)
    requires Sized(pb, s) && Sized(pb, s') && i < Kids(pb) && OtherKidsSame(s, s', i) && s'.cells == s.cells
    requires s.coord.it >= 1
    requires AllUnsent(pb, s, seen) && MailOk(pb, s.coord.it - 1, s.cells, seen) && forall x, y ::
               !Gone(s.kids[i], x, y)
    ensures AllUnsent(pb, s', seen) && MailOk(pb, s'.coord.it - 1, s'.cells, seen)
  {
    StillUnsent(pb, s, s', i, seen);
    MailSame(pb, s.coord.it - 1, s'.coord.it - 1, s.cells, s'.cells, seen);
  }

  ghost predicate SidesOk(pb: Problem, s: Sys, i: nat)
    requires Sized(pb, s) && i < Kids(pb)
  {
    && (0 < i ==> KidOk(pb, i - 1, s.kids[i - 1]))
    && (i + 1 < Kids(pb) ==> KidOk(pb, i + 1, s.kids[i + 1]))
  }

  /** What a step of child i starts from. */
  lemma Before(pb: Problem, s: Sys, i: nat, seen: set<(nat, nat)>)
    requires Inv(pb, s, seen) && Shape(pb, s) && i < Kids(pb)
    ensures At(pb, s, i) && SidesOk(pb, s, i)
  {
    NearBefore(pb, s, i, seen);
  }

  lemma MessageKept(pb: Problem, s: Sys, i: nat)
    requires At(pb, s, i) && SidesOk(pb, s, i) && Enabled(pb, s, Kid(i)) && Rank(s.kids[i].stage) < 4
    ensures Kept(pb, s, KidStep(pb, s, i), i)
  {
    match s.kids[i].stage {
      case SendUp => OnSendUp(pb, s, i);
      case SendDown => OnSendDown(pb, s, i);
      case FromBelow => OnFromBelow(pb, s, i);
      case FromAbove => OnFromAbove(pb, s, i);
    }
  }

  lemma MessageTurn(pb: Problem, s: Sys, i: nat, seen: set<(nat, nat)>)
    requires Inv(pb, s, seen) && Shape(pb, s) && i < Kids(pb) && Enabled(pb, s, Kid(i)) && Rank(s.kids[i].stage) < 4
    ensures Inv(pb, KidStep(pb, s, i), seen)
  {
    Before(pb, s, i, seen);
    MessageKept(pb, s, i);
    ChildTurn(pb, s, KidStep(pb, s, i), i, seen);
  }

  lemma UpdateTurn(pb: Problem, s: Sys, i: nat, seen: set<(nat, nat)>)
    requires Inv(pb, s, seen) && Shape(pb, s) && i < Kids(pb) && s.kids[i].stage.Update?
    ensures Inv(pb, UpdateStep(pb, s, i), seen)
  {
    Before(pb, s, i, seen);
    OnUpdate(pb, s, i);
    ChildTurn(pb, s, UpdateStep(pb, s, i), i, seen);
  }

  lemma AwaitKept(pb: Problem, s: Sys, i: nat)
    requires At(pb, s, i) && SidesOk(pb, s, i) && s.kids[i].stage.Await? && s.orders[i] != []
    requires 0 < i ==> DiffsSent(s.kids[i - 1]) > s.kids[i].iter
    requires i + 1 < Kids(pb) ==> DiffsSent(s.kids[i + 1]) > s.kids[i].iter
    ensures Turned(pb, s, AwaitStep(pb, s, i), i)
  {
    if s.orders[i][0] { OnStop(pb, s, i); } else { OnContinue(pb, s, i); }
  }

  lemma AwaitTurn(pb: Problem, s: Sys, i: nat, seen: set<(nat, nat)>)
    requires Inv(pb, s, seen) && Shape(pb, s) && i < Kids(pb) && s.kids[i].stage.Await? && s.orders[i] != []
    ensures Inv(pb, AwaitStep(pb, s, i), seen)
  {
    Before(pb, s, i, seen);
    if 0 < i { Barrier(pb, s, i, i - 1, seen); }
    if i + 1 < Kids(pb) { Barrier(pb, s, i, i + 1, seen); }
    AwaitKept(pb, s, i);
    ChildTurn(pb, s, AwaitStep(pb, s, i), i, seen);
  }

  lemma ReturnCells(pb: Problem, s: Sys, i: nat)
    requires Shape(pb, s) && i < Kids(pb) && s.kids[i].stage.Return?
    ensures ReturnStep(pb, s, i).coord == s.coord
    ensures var k := s.kids[i];
      if k.stage.row < Hi(pb, i) && k.stage.col < pb.n - 1 then
        k.stage.row < pb.n && ReturnStep(pb, s, i).cells
          == s.cells + [Cell(k.stage.row, k.stage.col, k.u[k.stage.row][k.stage.col])]
      else ReturnStep(pb, s, i).cells == s.cells
  {
    CutsBound(pb.n, pb.cuts, i);
  }

  lemma ReturnMail(pb: Problem, s: Sys, s': Sys, i: nat, seen: set<(nat, nat)>)
    requires GoodProblem(pb) && |s.kids| == Kids(pb) && i < Kids(pb) && s.kids[i].stage.Return?
    requires KidOk(pb, i, s.kids[i])
    requires s.coord.it >= 1 && s.kids[i].iter == s.coord.it - 1 && MailOk(pb, s.coord.it - 1, s.cells, seen)
    requires Unsent(pb, i, s.kids[i], s.cells, seen) && s'.coord == s.coord
    requires var k := s.kids[i];
      if k.stage.row < Hi(pb, i) && k.stage.col < pb.n - 1 then
        k.stage.row < pb.n && s'.cells == s.cells + [Cell(k.stage.row, k.stage.col, k.u[k.stage.row][k.stage.col])]
      else s'.cells == s.cells
    ensures MailOk(pb, s'.coord.it - 1, s'.cells, seen)
  {
    var k := s.kids[i];
    if k.stage.row < Hi(pb, i) && k.stage.col < pb.n - 1 {
      SentCell(pb, i, k, s.coord.it - 1, s.cells, seen);
    }
  }

  lemma ReturnGather(pb: Problem, s: Sys, s': Sys, i: nat, seen: set<(nat, nat)>)
    requires Sized(pb, s) && Shape(pb, s) && i < Kids(pb) && s.kids[i].stage.Return? && KidOk(pb, i, s.kids[i])
    requires s.coord.it >= 1 && s.kids[i].iter == s.coord.it - 1 && MailOk(pb, s.coord.it - 1, s.cells, seen)
    requires AllUnsent(pb, s, seen) && s' == ReturnStep(pb, s, i)
    ensures Sized(pb, s') && s'.coord.it >= 1 && AllUnsent(pb, s', seen) && MailOk(pb, s'.coord.it - 1, s'.cells, seen)
  {
    SentUnsent(pb, s, i, seen);
    ReturnCells(pb, s, i);
    assert Unsent(pb, i, s.kids[i], s.cells, seen);
    ReturnMail(pb, s, s', i, seen);
  }

  lemma MailTurn(pb: Problem, s: Sys, s': Sys, i: nat, seen: set<(nat, nat)>)
    requires Inv(pb, s, seen) && Turned(pb, s, s', i) && AllUnsent(pb, s', seen)
    requires MailOk(pb, s'.coord.it - 1, s'.cells, seen)
    ensures Inv(pb, s', seen)
  {
    Assemble(pb, s, s', i, seen);
  }

  lemma ReturnNear(pb: Problem, s: Sys, s': Sys, i: nat, seen: set<(nat, nat)>)
    requires Inv(pb, s, seen) && Shape(pb, s) && i < Kids(pb) && s.kids[i].stage.Return? && s' == ReturnStep(pb, s, i)
    ensures Turned(pb, s, s', i)
  {
    Before(pb, s, i, seen);
    OnReturn(pb, s, i);
  }

  lemma ReturnTurn(pb: Problem, s: Sys, s': Sys, i: nat, seen: set<(nat, nat)>)
    requires Inv(pb, s, seen) && Shape(pb, s) && i < Kids(pb) && s.kids[i].stage.Return? && s' == ReturnStep(pb, s, i)
    ensures Inv(pb, s', seen)
  {
    ReturnNear(pb, s, s', i, seen);
    StoppedInStep(pb, s, i, seen);
    ReturnGather(pb, s, s', i, seen);
    MailTurn(pb, s, s', i, seen);
  }

  /** The cells stored after a step. */
  ghost function SeenAfter(s: Sys, st: Step, seen: set<(nat, nat)>): set<(nat, nat)> {
    if st.Boss? && s.coord.Gathering? && s.cells != [] then seen + {(s.cells[0].row, s.cells[0].col)} else seen
  }

  lemma BossTurn(pb: Problem, s: Sys, seen: set<(nat, nat)>) returns (seen': set<(nat, nat)>)
    requires Inv(pb, s, seen) && Shape(pb, s) && Enabled(pb, s, Boss)
    ensures Inv(pb, BossStep(pb, s), seen') && seen' == SeenAfter(s, Boss, seen)
  {
    seen' := seen;
    match s.coord {
      case Reading(_, next, _) => if next < Kids(pb) { OnRead(pb, s, seen); } else { OnDecide(pb, s, seen); }
      case Ordering(_, next, stop) =>
        if next < Kids(pb) { OnGiveOrder(pb, s, seen); }
        else if stop { OnAllStopped(pb, s, seen); }
        else { OnNextRound(pb, s, seen); }
      case Gathering(_, _) =>
        OnGather(pb, s, seen);
        seen' := seen + {(s.cells[0].row, s.cells[0].col)};
    }
  }

  lemma StepKeeps(pb: Problem, s: Sys, st: Step, seen: set<(nat, nat)>) returns (seen': set<(nat, nat)>)
    requires Inv(pb, s, seen) && Shape(pb, s) && Enabled(pb, s, st)
    ensures Inv(pb, After(pb, s, st), seen') && seen' == SeenAfter(s, st, seen)
  {
    seen' := seen;
    match st {
      case Boss => seen' := BossTurn(pb, s, seen);
      case Kid(i) =>
        match s.kids[i].stage {
          case Update => UpdateTurn(pb, s, i, seen);
          case Await => AwaitTurn(pb, s, i, seen);
          case Return(_, _) => ReturnTurn(pb, s, ReturnStep(pb, s, i), i, seen);
          case _ => MessageTurn(pb, s, i, seen);
        }
    }
  }

  lemma StartUp(pb: Problem)
    requires GoodProblem(pb)
    ensures Sized(pb, Start(pb)) && AllUp(pb, Start(pb)) && AllDown(pb, Start(pb))
  {
    var s := Start(pb);
    forall i | 0 < i < Kids(pb) ensures UpOk(pb, i, s.up[i], s.kids[i], s.kids[i - 1]) {
      CutsBound(pb.n, pb.cuts, i);
    }
    forall i | 0 <= i < Kids(pb) - 1 ensures DownOk(pb, i, s.down[i], s.kids[i], s.kids[i + 1]) {
      CutsBound(pb.n, pb.cuts, i);
    }
  }

  lemma StartInv(pb: Problem)
    requires GoodProblem(pb)
    ensures Inv(pb, Start(pb), {})
  {
    assert G(pb, 0) == pb.g0;
    StartUp(pb);
  }

  lemma {:induction false} RunKeeps(pb: Problem, s: Sys, run: seq<Step>, t: Sys,
                                    seen: set<(nat, nat)>) returns (seen': set<(nat, nat)>)
    requires Inv(pb, s, seen) && Runs(pb, s, run, t)
    ensures Inv(pb, t, seen')
    decreases |run|
  {
    if run == [] {
      seen' := seen;
    } else {
      var next := StepKeeps(pb, s, run[0], seen);
      seen' := RunKeeps(pb, After(pb, s, run[0]), run[1..], t, next);
    }
  }

  ghost function Rect(a: nat, b: nat): set<(nat, nat)> {
    set x: nat, y: nat | 1 <= x < a && 1 <= y < b :: (x, y)
  }

  ghost function Row(x: nat, b: nat): set<(nat, nat)> {
    set y: nat | 1 <= y < b :: (x, y)
  }

  lemma {:induction false} RowSize(x: nat, b: nat)
    requires b >= 1
    ensures |Row(x, b)| == b - 1
    decreases b
  {
    if b > 1 {
      RowSize(x, b - 1);
      assert Row(x, b) == Row(x, b - 1) + {(x, b - 1)};
    } else {
      assert Row(x, b) == {};
    }
  }

  lemma {:induction false} RectSize(a: nat, b: nat)
    requires a >= 1 && b >= 1
    ensures |Rect(a, b)| == (a - 1) * (b - 1)
    decreases a
  {
    if a > 1 {
      RectSize(a - 1, b);
      var x: nat := a - 1;
      RowSize(x, b);
      assert Rect(a, b) == Rect(a - 1, b) + Row(x, b) && Rect(a - 1, b) !! Row(x, b);
      assert (a - 1) * (b - 1) == (a - 2) * (b - 1) + (b - 1);
    } else {
      assert Rect(a, b) == {};
    }
  }

  /** All inner cells have come back. */
  lemma Gathered(pb: Problem, c: Coord, out: Grid, seen: set<(nat, nat)>)
    requires GoodProblem(pb) && c.it >= 1 && OutOk(pb, c, out, seen) && c.Gathering? && c.got == (pb.n - 2) * (pb.n - 2)
    ensures out == G(pb, c.it - 1)
  {
    var n := pb.n;
    RectSize(n - 1, n - 1);
    forall p | p in seen ensures p in Rect(n - 1, n - 1) {
      assert (p.0, p.1) in seen;
    }
    SameSize(seen, Rect(n - 1, n - 1));
    forall r: nat, y: nat | r < n && y < n ensures out[r][y] == G(pb, c.it - 1)[r][y] {
      assert Inner(n, r) && Inner(n, y) ==> (r, y) in Rect(n - 1, n - 1);
      assert Settled(n, seen, r, y);
    }
    assert forall r, y :: 0 <= r < n && 0 <= y < n ==> out[r][y] == G(pb, c.it - 1)[r][y];
    SameGrid(n, out, G(pb, c.it - 1));
  }

  lemma OwnRows(pb: Problem, i: nat, k: Child)
    requires GoodProblem(pb) && i < Kids(pb) && KidOk(pb, i, k)
    ensures AgreeOn(pb.n, k.u, Iterate(pb.n, pb.g0, k.iter), pb.cuts[i], pb.cuts[i + 1])
    ensures k.stage.Update? ==> AgreeOn(pb.n, k.u, Iterate(pb.n, pb.g0, k.iter), pb.cuts[i] as int - 1,
                                        pb.cuts[i + 1] + 1)
  {
    forall r, c | 0 <= r < pb.n && pb.cuts[i] <= r < pb.cuts[i + 1] && 0 <= c < pb.n
      ensures k.u[r][c] == G(pb, k.iter)[r][c]
    {
      assert Known(pb, i, k, r, c);
    }
    if k.stage.Update? {
      forall r, c | 0 <= r < pb.n && pb.cuts[i] <= r + 1 && r < pb.cuts[i + 1] + 1 && 0 <= c < pb.n
        ensures k.u[r][c] == G(pb, k.iter)[r][c]
      {
        assert Known(pb, i, k, r, c);
      }
    }
  }

  /** A child's rows are those of the serial grid after as many iterations, and so are the rows
      next to them when it computes; when it has stopped, the serial program stops there too. */
  ghost predicate FollowsSerial(n: nat, g0: Grid, e: real, l: int, from: nat, to: nat, k: Child)
    requires n >= 2 && Square(n, g0)
  {
    && Square(n, k.u)
    && AgreeOn(n, k.u, Iterate(n, g0, k.iter), from, to)
    && (k.stage.Update? ==> AgreeOn(n, k.u, Iterate(n, g0, k.iter), from as int - 1, to + 1))
    && (k.stage.Return? || k.stage.Exited? ==> Stops(n, g0, e, l, k.iter + 1) && NeverStopped(n, g0, e, l, k.iter))
  }

  lemma StoppedRight(pb: Problem, s: Sys, i: nat, seen: set<(nat, nat)>)
    requires Inv(pb, s, seen) && i < Kids(pb) && Rank(s.kids[i].stage) == 6
    ensures Stops(pb.n, pb.g0, pb.e, pb.l, s.kids[i].iter + 1) && NeverStopped(pb.n, pb.g0, pb.e, pb.l, s.kids[i].iter)
  {
    assert KidOk(pb, i, s.kids[i]);
    StoppedInStep(pb, s, i, seen);
  }

  lemma ChildFollows(pb: Problem, s: Sys, i: nat, seen: set<(nat, nat)>)
    requires Inv(pb, s, seen) && i < Kids(pb)
    ensures FollowsSerial(pb.n, pb.g0, pb.e, pb.l, pb.cuts[i], pb.cuts[i + 1], s.kids[i])
  {
    var k := s.kids[i];
    assert KidOk(pb, i, k);
    OwnRows(pb, i, k);
    if Rank(k.stage) == 6 { StoppedRight(pb, s, i, seen); }
  }

  /** The coordinator's difference is the serial one, and the gathered grid the serial result. */
  ghost predicate Coordinates(n: nat, p: nat, g0: Grid, e: real, l: int, c: Coord, out: Grid)
    requires n >= 2 && Square(n, g0)
  {
    && c.it >= 1
    && (c.Reading? && c.next == p ==> c.diff == Change(n, Iterate(n, g0, c.it - 1), 1, n - 1))
    && (c.Gathering? && c.got == (n - 2) * (n - 2) ==> SerialResult(n, g0, e, l, c.it, out))
  }

  lemma CoordFollows(pb: Problem, c: Coord, out: Grid, seen: set<(nat, nat)>)
    requires GoodProblem(pb) && CoordOk(pb, c) && OutOk(pb, c, out, seen)
    ensures Coordinates(pb.n, Kids(pb), pb.g0, pb.e, pb.l, c, out)
  {
    if c.Reading? && c.next == Kids(pb) { Decide(pb, c); }
    if c.Gathering? && c.got == (pb.n - 2) * (pb.n - 2) { Gathered(pb, c, out, seen); }
  }

  /** In every state of every run with 2 <= p <= n processes, every child follows the serial
      program and the coordinator ends with its result. */
  lemma ParallelIsSerial(n: nat, p: nat, g0: Grid, e: real, l: int, run: seq<Step>, s: Sys)
    requires 2 <= p <= n && Square(n, g0)
    requires Runs(Problem(n, Cuts(n, p), g0, e, l), Start(Problem(n, Cuts(n, p), g0, e, l)), run, s)
    ensures |s.kids| == p
    ensures forall i :: 0 <= i < p ==>
              FollowsSerial(n, g0, e, l, StartOf(n, p, i), StartOf(n, p, i) + CountOf(n, p, i), s.kids[i])
    ensures Coordinates(n, p, g0, e, l, s.coord, s.out)
  {
    CutsGood(n, p);
    var pb := Problem(n, Cuts(n, p), g0, e, l);
    StartInv(pb);
    var seen := RunKeeps(pb, Start(pb), run, s, {});
    forall i | 0 <= i < p
      ensures FollowsSerial(n, g0, e, l, StartOf(n, p, i), StartOf(n, p, i) + CountOf(n, p, i), s.kids[i])
    {
      Bands(n, p, i);
      ChildFollows(pb, s, i, seen);
    }
    CoordFollows(pb, s.coord, s.out, seen);
  }
}
