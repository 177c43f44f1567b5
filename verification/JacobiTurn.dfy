/** The rest of a child's turn: computing, the barrier, returning the band. */
module JacobiTurn {
  import opened JacobiGrid
  import opened JacobiSplit
  import opened JacobiSystem
  import opened JacobiInvariant
  import opened JacobiPipes
  import opened JacobiChild

  /** The part of a child's grid that the sweep of its band reads. */
  lemma BandKnown(pb: Problem, i: nat, k: Child)
    requires GoodProblem(pb) && i < Kids(pb) && Square(pb.n, k.u) && Holds(pb, i, k) && Rank(k.stage) >= 4
    ensures AgreeOn(pb.n, k.u, G(pb, k.iter), Lo(pb, i) - 1, Hi(pb, i) + 1)
  {
    CutsBound(pb.n, pb.cuts, i);
    var g := G(pb, k.iter);
    forall r, c | 0 <= r < pb.n && Lo(pb, i) - 1 <= r < Hi(pb, i) + 1 && 0 <= c < pb.n ensures k.u[r][c] == g[r][c] {
      assert Known(pb, i, k, r, c);
    }
  }

  /** A child that has received both edge rows computes exactly its band of the next grid. */
  lemma SweptRight(pb: Problem, i: nat, k: Child)
    requires GoodProblem(pb) && i < Kids(pb) && Square(pb.n, k.u) && Square(pb.n, k.w) && Holds(pb, i, k)
    requires k.stage.Update?
    ensures Computed(pb, i, Child(k.iter, Await, 1, k.u, Swept(pb, i, k)))
  {
    BandKnown(pb, i, k);
    var k' := Child(k.iter, Await, 1, k.u, Swept(pb, i, k));
    var g := G(pb, k.iter);
    forall r, c | Lo(pb, i) <= r < Hi(pb, i) && Inner(pb.n, c) ensures k'.w[r][c] == Average(pb.n, g, r, c) {
      assert k'.w[r][c] == Average(pb.n, k.u, r, c);
      assert k.u[r - 1][c] == g[r - 1][c] && k.u[r + 1][c] == g[r + 1][c] && k.u[r][c - 1] == g[r][c - 1]
             && k.u[r][c + 1] == g[r][c + 1];
    }
  }

  lemma SweptChange(pb: Problem, i: nat, k: Child)
    requires GoodProblem(pb) && i < Kids(pb) && Square(pb.n, k.u) && Holds(pb, i, k) && k.stage.Update?
    ensures Change(pb.n, k.u, Lo(pb, i), Hi(pb, i)) == BandChange(pb, i, k.iter)
  {
    CutsBound(pb.n, pb.cuts, i);
    BandKnown(pb, i, k);
    ChangeAgrees(pb.n, k.u, G(pb, k.iter), Lo(pb, i), Hi(pb, i));
  }

  /** Taking over the new values moves the band to the next grid. */
  lemma CopiedRight(pb: Problem, i: nat, k: Child)
    requires GoodProblem(pb) && i < Kids(pb) && KidOk(pb, i, k) && k.stage.Await?
    ensures KidOk(pb, i, Child(k.iter + 1, SendUp, 1, Copied(pb, i, k), k.w))
  {
    CutsBound(pb.n, pb.cuts, i);
    var k' := Child(k.iter + 1, SendUp, 1, Copied(pb, i, k), k.w);
    var g := G(pb, k.iter);
    assert G(pb, k.iter + 1) == Next(pb.n, g);
    forall r, c | 0 <= r < pb.n && 0 <= c < pb.n && Known(pb, i, k', r, c)
      ensures k'.u[r][c] == G(pb, k.iter + 1)[r][c]
    {
      assert Known(pb, i, k, r, c);
      assert NextCell(pb.n, g, r, c) == G(pb, k.iter + 1)[r][c];
    }
  }

  ghost predicate Turned(pb: Problem, s: Sys, s': Sys, i: nat) {
    At(pb, s, i) && Sized(pb, s') && OtherKidsSame(s, s', i) && Near(pb, s', i)
  }

  lemma UpdateKid(pb: Problem, i: nat, k: Child)
    requires GoodProblem(pb) && i < Kids(pb) && KidOk(pb, i, k) && k.stage.Update?
    ensures KidOk(pb, i, Child(k.iter, Await, 1, k.u, Swept(pb, i, k)))
  {
    SweptRight(pb, i, k);
    var k' := Child(k.iter, Await, 1, k.u, Swept(pb, i, k));
    forall r, c | 0 <= r < pb.n && 0 <= c < pb.n && Known(pb, i, k', r, c) ensures k'.u[r][c] == G(pb, k.iter)[r][c] {
      assert Known(pb, i, k, r, c);
    }
  }

  lemma BarrierUpdate(pb: Problem, i: nat, k: Child, k': Child, c: Coord, diffs: seq<real>, orders: seq<bool>)
    requires GoodProblem(pb) && i < Kids(pb) && BarrierOk(pb, i, k, c, diffs, orders)
    requires Rank(k.stage) < 5 && k'.stage.Await? && k'.iter == k.iter
    ensures BarrierOk(pb, i, k', c, diffs + [BandChange(pb, i, k.iter)], orders)
  {
    assert OrdersGiven(c, i) <= DiffsRead(c, i);
    assert diffs == [] && DiffsSent(k') - 1 == k.iter;
    var d := BandChange(pb, i, k.iter);
    assert diffs + [d] == [d];
  }

  /** A step that leaves all four pipes of child i as they are. */
  lemma SidesKept(pb: Problem, s: Sys, s': Sys, i: nat)
    requires At(pb, s, i) && Sized(pb, s') && OtherKidsSame(s, s', i) && s'.up == s.up && s'.down == s.down
    requires Rank(s.kids[i].stage) >= 4 && Rank(s'.kids[i].stage) >= 4 && s'.kids[i].iter == s.kids[i].iter
    requires NearSelf(pb, s', i)
    ensures Turned(pb, s, s', i)
  {
    LoopUp(pb, s, s', i, 4);
    LoopDown(pb, s, s', i, 4);
  }

  lemma OnUpdate(pb: Problem, s: Sys, i: nat)
    requires At(pb, s, i) && s.kids[i].stage.Update?
    ensures Turned(pb, s, UpdateStep(pb, s, i), i)
  {
    var k, s' := s.kids[i], UpdateStep(pb, s, i);
    UpdateKid(pb, i, k);
    SweptChange(pb, i, k);
    BarrierUpdate(pb, i, k, s'.kids[i], s.coord, s.diffs[i], s.orders[i]);
    SidesKept(pb, s, s', i);
  }

  /** The barrier: a child that finds its order knows that every child has sent its difference. */
  lemma Barrier(pb: Problem, s: Sys, i: nat, j: nat, seen: set<(nat, nat)>)
    requires Inv(pb, s, seen) && i < Kids(pb) && j < Kids(pb) && s.orders[i] != []
    ensures DiffsSent(s.kids[j]) > OrdersTaken(s.kids[i])
  {
    assert BarrierOk(pb, i, s.kids[i], s.coord, s.diffs[i], s.orders[i]);
    assert BarrierOk(pb, j, s.kids[j], s.coord, s.diffs[j], s.orders[j]);
  }

  lemma ContinueUp(pb: Problem, s: Sys, s': Sys, i: nat)
    requires Sized(pb, s) && Sized(pb, s') && i < Kids(pb) && OtherKidsSame(s, s', i) && NearUp(pb, s, i)
    requires s'.up == s.up
    requires s.kids[i].stage.Await? && s'.kids[i].stage.SendUp? && s'.kids[i].iter == s.kids[i].iter + 1
    requires s'.kids[i].t == 1
    requires 0 < i ==> DiffsSent(s.kids[i - 1]) > s.kids[i].iter
    requires i + 1 < Kids(pb) ==> DiffsSent(s.kids[i + 1]) > s.kids[i].iter && 1 <= s.kids[i + 1].t <= pb.n - 1
    ensures NearUp(pb, s', i)
  {
    var k := s.kids[i];
    if 0 < i {
      PipeWriterMoves(pb, 1, pb.cuts[i], s.up[i], k.iter, s.kids[i - 1].iter, Col(pb.n, s.kids[i - 1], 2));
    }
    if i + 1 < Kids(pb) {
      var w := s.kids[i + 1];
      PipeReaderMoves(pb, 1, pb.cuts[i + 1], s.up[i + 1], w.iter, Col(pb.n, w, 0), k.iter);
    }
  }

  lemma ContinueDown(pb: Problem, s: Sys, s': Sys, i: nat)
    requires Sized(pb, s) && Sized(pb, s') && i < Kids(pb) && OtherKidsSame(s, s', i) && NearDown(pb, s, i)
    requires s'.down == s.down
    requires s.kids[i].stage.Await? && s'.kids[i].stage.SendUp? && s'.kids[i].iter == s.kids[i].iter + 1
    requires s'.kids[i].t == 1
    requires 0 < i ==> DiffsSent(s.kids[i - 1]) > s.kids[i].iter && 1 <= s.kids[i - 1].t <= pb.n - 1
    requires i + 1 < Kids(pb) ==> DiffsSent(s.kids[i + 1]) > s.kids[i].iter
    ensures NearDown(pb, s', i)
  {
    var k := s.kids[i];
    if i + 1 < Kids(pb) {
      PipeWriterMoves(pb, -1, pb.cuts[i + 1] - 1, s.down[i], k.iter, s.kids[i + 1].iter, Col(pb.n, s.kids[i + 1], 3));
    }
    if 0 < i {
      var w := s.kids[i - 1];
      PipeReaderMoves(pb, -1, pb.cuts[i] - 1, s.down[i - 1], w.iter, Col(pb.n, w, 1), k.iter);
    }
  }

  lemma BarrierOrder(pb: Problem, i: nat, k: Child, k': Child, c: Coord, diffs: seq<real>, orders: seq<bool>)
    requires GoodProblem(pb) && i < Kids(pb) && BarrierOk(pb, i, k, c, diffs, orders) && orders != [] && k.stage.Await?
    requires (k'.iter == k.iter + 1 && k'.stage.SendUp?) || (k'.iter == k.iter && Rank(k'.stage) == 6)
    ensures BarrierOk(pb, i, k', c, diffs, orders[1..]) && orders[0] == StopsAt(pb, k.iter)
  {
  }

  lemma ContinueSelf(pb: Problem, s: Sys, i: nat)
    requires Sized(pb, s) && Shape(pb, s) && i < Kids(pb) && NearSelf(pb, s, i)
    requires s.kids[i].stage.Await? && s.orders[i] != [] && !s.orders[i][0]
    ensures NearSelf(pb, AwaitStep(pb, s, i), i)
  {
    var k, s' := s.kids[i], AwaitStep(pb, s, i);
    CopiedRight(pb, i, k);
    BarrierOrder(pb, i, k, s'.kids[i], s.coord, s.diffs[i], s.orders[i]);
  }

  lemma OnContinue(pb: Problem, s: Sys, i: nat)
    requires At(pb, s, i) && s.kids[i].stage.Await? && s.orders[i] != [] && !s.orders[i][0]
    requires 0 < i ==> DiffsSent(s.kids[i - 1]) > s.kids[i].iter && 1 <= s.kids[i - 1].t <= pb.n - 1
    requires i + 1 < Kids(pb) ==> DiffsSent(s.kids[i + 1]) > s.kids[i].iter && 1 <= s.kids[i + 1].t <= pb.n - 1
    ensures Turned(pb, s, AwaitStep(pb, s, i), i)
  {
    var s' := AwaitStep(pb, s, i);
    ContinueSelf(pb, s, i);
    ContinueUp(pb, s, s', i);
    ContinueDown(pb, s, s', i);
  }

  /** Steps that only a stopped child takes. */
  lemma StoppedKid(pb: Problem, i: nat, k: Child, k': Child)
    requires GoodProblem(pb) && i < Kids(pb) && KidOk(pb, i, k) && Rank(k.stage) >= 5 && Rank(k'.stage) == 6
    requires k'.iter == k.iter && k'.u == k.u && k'.w == k.w && k'.t == 1 && StopsAt(pb, k.iter)
    requires k'.stage.Return? ==> Lo(pb, i) <= k'.stage.row <= Hi(pb, i) && 1 <= k'.stage.col <= pb.n - 1
    ensures KidOk(pb, i, k')
  {
    forall r, c | 0 <= r < pb.n && 0 <= c < pb.n && Known(pb, i, k', r, c) ensures k'.u[r][c] == G(pb, k.iter)[r][c] {
      assert Known(pb, i, k, r, c);
    }
  }

  lemma OnStop(pb: Problem, s: Sys, i: nat)
    requires At(pb, s, i) && s.kids[i].stage.Await? && s.orders[i] != [] && s.orders[i][0]
    ensures Turned(pb, s, AwaitStep(pb, s, i), i)
  {
    CutsBound(pb.n, pb.cuts, i);
    var k, s' := s.kids[i], AwaitStep(pb, s, i);
    BarrierOrder(pb, i, k, s'.kids[i], s.coord, s.diffs[i], s.orders[i]);
    StoppedKid(pb, i, k, s'.kids[i]);
    SidesKept(pb, s, s', i);
  }

  lemma BarrierReturn(pb: Problem, i: nat, k: Child, k': Child, c: Coord, diffs: seq<real>, orders: seq<bool>)
    requires GoodProblem(pb) && i < Kids(pb) && BarrierOk(pb, i, k, c, diffs, orders)
    requires k'.iter == k.iter && Rank(k.stage) == 6 && Rank(k'.stage) == 6
    ensures BarrierOk(pb, i, k', c, diffs, orders)
  {
  }

  lemma ReturnSelf(pb: Problem, s: Sys, i: nat)
    requires Sized(pb, s) && Shape(pb, s) && i < Kids(pb) && NearSelf(pb, s, i) && s.kids[i].stage.Return?
    ensures NearSelf(pb, ReturnStep(pb, s, i), i)
  {
    var k, s' := s.kids[i], ReturnStep(pb, s, i);
    BarrierReturn(pb, i, k, s'.kids[i], s.coord, s.diffs[i], s.orders[i]);
    StoppedKid(pb, i, k, s'.kids[i]);
  }

  lemma OnReturn(pb: Problem, s: Sys, i: nat)
    requires At(pb, s, i) && s.kids[i].stage.Return?
    ensures Turned(pb, s, ReturnStep(pb, s, i), i)
  {
    ReturnSelf(pb, s, i);
    SidesKept(pb, s, ReturnStep(pb, s, i), i);
  }
}
