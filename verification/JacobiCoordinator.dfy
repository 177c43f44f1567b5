/** Every step of the coordinator keeps the invariant. */
module JacobiCoordinator {
  import opened JacobiGrid
  import opened JacobiSplit
  import opened JacobiSystem
  import opened JacobiInvariant

  /** The coordinator's step leaves the children and their pipes alone. */
  ghost predicate KidsSame(s: Sys, s': Sys) {
    s'.kids == s.kids && s'.up == s.up && s'.down == s.down && |s'.diffs| == |s.diffs| && |s'.orders| == |s.orders|
  }

  lemma ReadDiff(pb: Problem, c: Coord, d: real)
    requires GoodProblem(pb) && CoordOk(pb, c) && c.Reading? && c.next < Kids(pb)
    requires d == BandChange(pb, c.next, c.it - 1)
    ensures CoordOk(pb, Reading(c.it, c.next + 1, if d > c.diff then d else c.diff))
  {
    NextDiff(pb, G(pb, c.it - 1), c.next, c.diff, d);
  }

  lemma NextDiff(pb: Problem, g: Grid, next: nat, diff: real, d: real)
    requires GoodProblem(pb) && Square(pb.n, g) && next < Kids(pb) && 1 <= Edge1(pb, next) <= pb.n - 1
    requires diff == Change(pb.n, g, 1, Edge1(pb, next)) && d == Change(pb.n, g, Lo(pb, next), Hi(pb, next))
    ensures 1 <= Edge1(pb, next + 1) <= pb.n - 1
    ensures Change(pb.n, g, 1, Edge1(pb, next + 1)) == if d > diff then d else diff
  {
    CutsBound(pb.n, pb.cuts, next);
    assert Edge1(pb, next) == Lo(pb, next) && Edge1(pb, next + 1) == Hi(pb, next);
    ChangeSplits(pb.n, g, 1, Edge1(pb, next), Edge1(pb, next + 1));
  }

  lemma ReadBarrier(pb: Problem, s: Sys, s': Sys)
    requires Sized(pb, s) && Sized(pb, s') && AllBarrier(pb, s) && KidsSame(s, s') && s'.orders == s.orders
    requires s.coord.Reading? && s.coord.it >= 1 && s.coord.next < Kids(pb) && s.diffs[s.coord.next] != []
    requires s'.diffs == s.diffs[s.coord.next := s.diffs[s.coord.next][1..]]
    requires s'.coord.Reading? && s'.coord.it == s.coord.it && s'.coord.next == s.coord.next + 1
    ensures AllBarrier(pb, s')
    ensures s.diffs[s.coord.next][0] == BandChange(pb, s.coord.next, s.coord.it - 1)
  {
    var j := s.coord.next;
    assert BarrierOk(pb, j, s.kids[j], s.coord, s.diffs[j], s.orders[j]);
    forall i | 0 <= i < Kids(pb) ensures BarrierOk(pb, i, s'.kids[i], s'.coord, s'.diffs[i], s'.orders[i]) {
      assert BarrierOk(pb, i, s.kids[i], s.coord, s.diffs[i], s.orders[i]);
    }
  }

  /** The coordinator's test is the serial program's. */
  lemma TestIs(pb: Problem, it: nat, diff: real)
    requires GoodProblem(pb) && it >= 1 && diff == Change(pb.n, G(pb, it - 1), 1, pb.n - 1)
    ensures StopsAt(pb, it - 1) == (diff <= pb.e || it > pb.l)
  {
  }

  /** With every band read, the difference is the serial one, and so is the decision. */
  lemma Decide(pb: Problem, c: Coord)
    requires GoodProblem(pb) && CoordOk(pb, c) && c.Reading? && c.next == Kids(pb)
    ensures c.diff == Change(pb.n, G(pb, c.it - 1), 1, pb.n - 1)
    ensures CoordOk(pb, Ordering(c.it, 0, c.diff <= pb.e || c.it > pb.l))
  {
    LastEdge(pb);
    TestIs(pb, c.it, c.diff);
    OrderingOk(pb, c.it, c.diff <= pb.e || c.it > pb.l);
  }

  lemma LastEdge(pb: Problem)
    requires GoodProblem(pb)
    ensures Edge1(pb, Kids(pb)) == pb.n - 1
  {
    assert pb.cuts[Kids(pb)] == pb.n;
  }

  lemma OrderingOk(pb: Problem, it: nat, stop: bool)
    requires GoodProblem(pb) && it >= 1 && NeverStopped(pb.n, pb.g0, pb.e, pb.l, it - 1) && stop == StopsAt(pb, it - 1)
    ensures CoordOk(pb, Ordering(it, 0, stop))
  {
  }

  lemma OrderBarrier(pb: Problem, s: Sys, s': Sys)
    requires Sized(pb, s) && Sized(pb, s') && AllBarrier(pb, s) && KidsSame(s, s') && s'.diffs == s.diffs
    requires s.coord.Ordering? && s.coord.next < Kids(pb) && s.coord.it >= 1
    requires s.coord.stop == StopsAt(pb, s.coord.it - 1)
    requires s'.orders == s.orders[s.coord.next := s.orders[s.coord.next] + [s.coord.stop]]
    requires s'.coord == Ordering(s.coord.it, s.coord.next + 1, s.coord.stop)
    ensures AllBarrier(pb, s')
  {
    var j := s.coord.next;
    assert BarrierOk(pb, j, s.kids[j], s.coord, s.diffs[j], s.orders[j]);
    assert s.orders[j] == [];
    forall i | 0 <= i < Kids(pb) ensures BarrierOk(pb, i, s'.kids[i], s'.coord, s'.diffs[i], s'.orders[i]) {
      assert BarrierOk(pb, i, s.kids[i], s.coord, s.diffs[i], s.orders[i]);
    }
  }

  /** Steps between two phases: the counts of the barrier do not change. */
  lemma PhaseBarrier(pb: Problem, s: Sys, c': Coord)
    requires Sized(pb, s) && AllBarrier(pb, s) && c'.it >= 1
    requires forall i :: 0 <= i < Kids(pb) ==>
               DiffsRead(c', i) == DiffsRead(s.coord, i) && OrdersGiven(c', i) == OrdersGiven(s.coord, i)
    ensures AllBarrier(pb, WithCoord(s, c'))
  {
    forall i | 0 <= i < Kids(pb) ensures BarrierOk(pb, i, s.kids[i], c', s.diffs[i], s.orders[i]) {
      assert BarrierOk(pb, i, s.kids[i], s.coord, s.diffs[i], s.orders[i]);
    }
  }

  /** The boundary never changes. */
  lemma Boundary(pb: Problem, k: nat, x: nat, y: nat)
    requires GoodProblem(pb) && x < pb.n && y < pb.n && !(Inner(pb.n, x) && Inner(pb.n, y))
    ensures G(pb, k + 1)[x][y] == G(pb, k)[x][y]
  {
    assert G(pb, k + 1) == Next(pb.n, G(pb, k));
    assert G(pb, k + 1)[x][y] == NextCell(pb.n, G(pb, k), x, y);
  }

  ghost predicate Mailbox(pb: Problem, s: Sys, seen: set<(nat, nat)>) {
    && Sized(pb, s) && s.coord.it >= 1
    && AllUnsent(pb, s, seen) && MailOk(pb, s.coord.it - 1, s.cells, seen) && OutOk(pb, s.coord, s.out, seen)
  }

  lemma BossAssemble(pb: Problem, s: Sys, s': Sys, seen: set<(nat, nat)>, seen': set<(nat, nat)>)
    requires Sized(pb, s) && AllKids(pb, s) && AllUp(pb, s) && AllDown(pb, s) && KidsSame(s, s')
    requires Sized(pb, s') && CoordOk(pb, s'.coord) && AllBarrier(pb, s') && Mailbox(pb, s', seen')
    ensures Inv(pb, s', seen')
  {
    assert AllKids(pb, s') && AllUp(pb, s') && AllDown(pb, s');
  }

  /** While nothing is gathered, a step within an iteration leaves the mailbox as it is. */
  lemma MailboxSame(pb: Problem, s: Sys, s': Sys, seen: set<(nat, nat)>)
    requires Mailbox(pb, s, seen) && Sized(pb, s') && KidsSame(s, s') && s'.cells == s.cells && s'.out == s.out
    requires !s.coord.Gathering? && s'.coord.it == s.coord.it && (s'.coord.Gathering? ==> s'.coord.got == 0)
    ensures Mailbox(pb, s', seen)
  {
    var k := s'.coord.it - 1;
    assert k == s.coord.it - 1;
    assert MailOk(pb, k, s'.cells, seen);
    OutSame(pb, s.coord, s'.coord, s.out, seen);
    assert AllUnsent(pb, s', seen);
  }

  lemma OutSame(pb: Problem, c: Coord, c': Coord, out: Grid, seen: set<(nat, nat)>)
    requires GoodProblem(pb) && c.it >= 1 && OutOk(pb, c, out, seen)
    requires !c.Gathering? && c'.it == c.it && (c'.Gathering? ==> c'.got == 0)
    ensures OutOk(pb, c', out, seen)
  {
  }

  lemma OnRead(pb: Problem, s: Sys, seen: set<(nat, nat)>)
    requires Inv(pb, s, seen) && Shape(pb, s) && s.coord.Reading? && s.coord.next < Kids(pb)
    requires s.diffs[s.coord.next] != []
    ensures Inv(pb, BossStep(pb, s), seen)
  {
    var c, s' := s.coord, BossStep(pb, s);
    ReadBarrier(pb, s, s');
    ReadDiff(pb, c, s.diffs[c.next][0]);
    MailboxSame(pb, s, s', seen);
    BossAssemble(pb, s, s', seen, seen);
  }

  lemma OnDecide(pb: Problem, s: Sys, seen: set<(nat, nat)>)
    requires Inv(pb, s, seen) && Shape(pb, s) && s.coord.Reading? && s.coord.next >= Kids(pb)
    ensures Inv(pb, BossStep(pb, s), seen)
  {
    var c, s' := s.coord, BossStep(pb, s);
    Decide(pb, c);
    PhaseBarrier(pb, s, s'.coord);
    MailboxSame(pb, s, s', seen);
    BossAssemble(pb, s, s', seen, seen);
  }

  lemma OnGiveOrder(pb: Problem, s: Sys, seen: set<(nat, nat)>)
    requires Inv(pb, s, seen) && Shape(pb, s) && s.coord.Ordering? && s.coord.next < Kids(pb)
    ensures Inv(pb, BossStep(pb, s), seen)
  {
    var s' := BossStep(pb, s);
    OrderBarrier(pb, s, s');
    MailboxSame(pb, s, s', seen);
    BossAssemble(pb, s, s', seen, seen);
  }

  lemma OnAllStopped(pb: Problem, s: Sys, seen: set<(nat, nat)>)
    requires Inv(pb, s, seen) && Shape(pb, s) && s.coord.Ordering? && s.coord.next >= Kids(pb) && s.coord.stop
    ensures Inv(pb, BossStep(pb, s), seen)
  {
    var s' := BossStep(pb, s);
    PhaseBarrier(pb, s, s'.coord);
    MailboxSame(pb, s, s', seen);
    BossAssemble(pb, s, s', seen, seen);
  }

  lemma BoundaryKept(pb: Problem, c: Coord, c': Coord, out: Grid)
    requires GoodProblem(pb) && c.it >= 1 && OutOk(pb, c, out, {}) && c'.Reading? && c'.it == c.it + 1
    ensures OutOk(pb, c', out, {})
  {
    forall x: nat, y: nat | Settled(pb.n, {}, x, y) ensures Right(pb, c'.it - 1, out, x, y) {
      assert Right(pb, c.it - 1, out, x, y);
      Boundary(pb, c.it - 1, x, y);
    }
  }

  lemma OnNextRound(pb: Problem, s: Sys, seen: set<(nat, nat)>)
    requires Inv(pb, s, seen) && Shape(pb, s) && s.coord.Ordering? && s.coord.next >= Kids(pb) && !s.coord.stop
    ensures Inv(pb, BossStep(pb, s), seen)
  {
    var s' := BossStep(pb, s);
    PhaseBarrier(pb, s, s'.coord);
    assert seen == {} && s.cells == [];
    BoundaryKept(pb, s.coord, s'.coord, s.out);
    NextRoundCoord(pb, s.coord);
    assert AllUnsent(pb, s', seen);
    BossAssemble(pb, s, s', seen, seen);
  }

  lemma NextRoundCoord(pb: Problem, c: Coord)
    requires GoodProblem(pb) && CoordOk(pb, c) && c.Ordering? && !c.stop
    ensures CoordOk(pb, Reading(c.it + 1, 0, 0.0))
  {
  }

  lemma GatherMail(pb: Problem, k: nat, cells: seq<Cell>, seen: set<(nat, nat)>)
    requires GoodProblem(pb) && MailOk(pb, k, cells, seen) && cells != []
    ensures CellOk(pb, k, cells[0]) && (cells[0].row, cells[0].col) !in seen
    ensures MailOk(pb, k, cells[1..], seen + {(cells[0].row, cells[0].col)})
  {
  }

  lemma GatherOut(pb: Problem, c: Coord, out: Grid, seen: set<(nat, nat)>, x: Cell)
    requires GoodProblem(pb) && c.it >= 1 && c.Gathering? && OutOk(pb, c, out, seen) && CellOk(pb, c.it - 1, x)
    requires (x.row, x.col) !in seen
    ensures OutOk(pb, Gathering(c.it, c.got + 1), SetCell(pb.n, out, x.row, x.col, x.val), seen + {(x.row, x.col)})
  {
    var out', seen' := SetCell(pb.n, out, x.row, x.col, x.val), seen + {(x.row, x.col)};
    forall r: nat, y: nat | Settled(pb.n, seen', r, y) ensures Right(pb, c.it - 1, out', r, y) {
      assert (r == x.row && y == x.col) || Settled(pb.n, seen, r, y);
    }
  }

  lemma GatherUnsent(pb: Problem, s: Sys, s': Sys, seen: set<(nat, nat)>)
    requires Sized(pb, s) && Sized(pb, s') && AllUnsent(pb, s, seen) && s'.kids == s.kids && s.cells != []
    requires s'.cells == s.cells[1..]
    ensures AllUnsent(pb, s', seen + {(s.cells[0].row, s.cells[0].col)})
  {
    forall i | 0 <= i < Kids(pb)
      ensures Unsent(pb, i, s'.kids[i], s'.cells, seen + {(s.cells[0].row, s.cells[0].col)})
    {
      assert Unsent(pb, i, s.kids[i], s.cells, seen);
    }
  }

  /** Storing the cell at the head of the mailbox. */
  lemma GatherCoord(pb: Problem, it: nat, got: nat)
    requires GoodProblem(pb) && CoordOk(pb, Gathering(it, got))
    ensures CoordOk(pb, Gathering(it, got + 1))
  {
  }

  lemma OnGather(pb: Problem, s: Sys, seen: set<(nat, nat)>)
    requires Inv(pb, s, seen) && Shape(pb, s) && s.coord.Gathering? && s.cells != [] && Enabled(pb, s, Boss)
    ensures Inv(pb, BossStep(pb, s), seen + {(s.cells[0].row, s.cells[0].col)})
  {
    var s' := BossStep(pb, s);
    GatherMail(pb, s.coord.it - 1, s.cells, seen);
    GatherOut(pb, s.coord, s.out, seen, s.cells[0]);
    GatherUnsent(pb, s, s', seen);
    PhaseBarrier(pb, s, s'.coord);
    GatherBarrier(pb, s, s');
    GatherCoord(pb, s.coord.it, s.coord.got);
    BossAssemble(pb, s, s', seen, seen + {(s.cells[0].row, s.cells[0].col)});
  }

  lemma GatherBarrier(pb: Problem, s: Sys, s': Sys)
    requires Sized(pb, s) && AllBarrier(pb, WithCoord(s, s'.coord)) && KidsSame(s, s') && s'.diffs == s.diffs
    requires s'.orders == s.orders
    ensures AllBarrier(pb, s')
  {
    forall i | 0 <= i < Kids(pb) ensures BarrierOk(pb, i, s'.kids[i], s'.coord, s'.diffs[i], s'.orders[i]) {
      assert BarrierOk(pb, i, WithCoord(s, s'.coord).kids[i], s'.coord, s.diffs[i], s.orders[i]);
    }
  }
}
