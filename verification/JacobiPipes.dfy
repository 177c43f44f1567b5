/** The pipe invariant under the moves of its two ends, and the frame of one child's step. */
module JacobiPipes {
  import opened JacobiSystem
  import opened JacobiInvariant

  lemma PipePush(pb: Problem, dir: int, row: nat, q: seq<Edge>, kw: nat, wt: nat, kr: nat, rt: int)
    requires GoodProblem(pb) && row < pb.n && 1 <= wt < pb.n - 1 && 1 <= rt <= pb.n - 1
    requires PipeOk(pb, dir, row, q, kw, wt, kr, rt)
    ensures PipeOk(pb, dir, row, q + [Edge(dir, wt, G(pb, kw)[row][wt])], kw, wt + 1, kr, rt)
  {
    var lo := if kw == kr then rt else 1;
    assert Slice(pb, dir, row, kw, lo, wt + 1) == Slice(pb, dir, row, kw, lo, wt) + [Edge(dir, wt, G(pb, kw)[row][wt])];
  }

  lemma PipePull(pb: Problem, dir: int, row: nat, q: seq<Edge>, kw: nat, wt: int, kr: nat, rt: nat)
    requires GoodProblem(pb) && row < pb.n && 1 <= wt <= pb.n - 1 && 1 <= rt < pb.n - 1 && q != []
    requires PipeOk(pb, dir, row, q, kw, wt, kr, rt)
    ensures q[0] == Edge(dir, rt, G(pb, kr)[row][rt])
    ensures PipeOk(pb, dir, row, q[1..], kw, wt, kr, rt + 1)
  {
    assert q == Slice(pb, dir, row, kw, rt, wt);
    assert rt < wt;
    assert Slice(pb, dir, row, kw, rt, wt)[1..] == Slice(pb, dir, row, kw, rt + 1, wt);
  }

  /** The writer starts a new iteration; the reader has read all of the last one. */
  lemma PipeWriterMoves(pb: Problem, dir: int, row: nat, q: seq<Edge>, kw: nat, kr: nat, rt: int)
    requires GoodProblem(pb) && row < pb.n
    requires PipeOk(pb, dir, row, q, kw, pb.n - 1, kr, rt)
    requires kr > kw || (kr == kw && rt == pb.n - 1)
    ensures PipeOk(pb, dir, row, q, kw + 1, 1, kr, rt)
  {
  }

  /** The reader starts a new iteration; the writer has sent all of the last one. */
  lemma PipeReaderMoves(pb: Problem, dir: int, row: nat, q: seq<Edge>, kw: nat, wt: int, kr: nat)
    requires GoodProblem(pb) && row < pb.n
    requires PipeOk(pb, dir, row, q, kw, wt, kr, pb.n - 1)
    requires 1 <= wt <= pb.n - 1
    requires kw > kr || (kw == kr && wt == pb.n - 1)
    ensures PipeOk(pb, dir, row, q, kw, wt, kr + 1, 1)
  {
  }

  ghost predicate OtherKidsSame(s: Sys, s': Sys, i: nat) {
    && |s'.kids| == |s.kids| && |s'.up| == |s.up| && |s'.down| == |s.down| && |s'.diffs| == |s.diffs|
    && |s'.orders| == |s.orders|
    && |s.kids| == |s.up| == |s.down| == |s.diffs| == |s.orders|
    && s'.coord == s.coord && s'.out == s.out
    && (forall j :: 0 <= j < |s.kids| && j != i ==>
          s'.kids[j] == s.kids[j] && s'.diffs[j] == s.diffs[j] && s'.orders[j] == s.orders[j])
    && (forall j :: 0 <= j < |s.kids| && j != i && j != i + 1 ==> s'.up[j] == s.up[j])
    && (forall j :: 0 <= j < |s.kids| && j != i && j + 1 != i ==> s'.down[j] == s.down[j])
  }

  // What a step of child i has to keep: itself, and the pipes at both of its sides.

  ghost predicate NearSelf(pb: Problem, s: Sys, i: nat)
    requires Sized(pb, s) && i < Kids(pb)
  {
    KidOk(pb, i, s.kids[i]) && BarrierOk(pb, i, s.kids[i], s.coord, s.diffs[i], s.orders[i])
  }

  ghost predicate NearUp(pb: Problem, s: Sys, i: nat)
    requires Sized(pb, s) && i < Kids(pb)
  {
    && (0 < i ==> UpOk(pb, i, s.up[i], s.kids[i], s.kids[i - 1]))
    && (i + 1 < Kids(pb) ==> UpOk(pb, i + 1, s.up[i + 1], s.kids[i + 1], s.kids[i]))
  }

  ghost predicate NearDown(pb: Problem, s: Sys, i: nat)
    requires Sized(pb, s) && i < Kids(pb)
  {
    && (i + 1 < Kids(pb) ==> DownOk(pb, i, s.down[i], s.kids[i], s.kids[i + 1]))
    && (0 < i ==> DownOk(pb, i - 1, s.down[i - 1], s.kids[i - 1], s.kids[i]))
  }

  ghost predicate Near(pb: Problem, s: Sys, i: nat)
    requires Sized(pb, s) && i < Kids(pb)
  {
    NearSelf(pb, s, i) && NearUp(pb, s, i) && NearDown(pb, s, i)
  }

  lemma AssembleKids(pb: Problem, s: Sys, s': Sys, i: nat)
    requires Sized(pb, s) && i < Kids(pb) && OtherKidsSame(s, s', i) && NearSelf(pb, s', i)
    requires AllKids(pb, s) && AllBarrier(pb, s)
    ensures AllKids(pb, s') && AllBarrier(pb, s')
  {
    forall j | 0 <= j < Kids(pb)
      ensures KidOk(pb, j, s'.kids[j]) && BarrierOk(pb, j, s'.kids[j], s'.coord, s'.diffs[j], s'.orders[j])
    {
      if j != i {
        assert KidOk(pb, j, s.kids[j]);
        assert BarrierOk(pb, j, s.kids[j], s.coord, s.diffs[j], s.orders[j]);
      }
    }
  }

  lemma AssembleUp(pb: Problem, s: Sys, s': Sys, i: nat)
    requires Sized(pb, s) && i < Kids(pb) && OtherKidsSame(s, s', i) && NearUp(pb, s', i) && AllUp(pb, s)
    ensures AllUp(pb, s')
  {
    forall j | 0 < j < Kids(pb) ensures UpOk(pb, j, s'.up[j], s'.kids[j], s'.kids[j - 1]) {
      if j != i && j != i + 1 {
        assert UpOk(pb, j, s.up[j], s.kids[j], s.kids[j - 1]);
      }
    }
  }

  lemma AssembleDown(pb: Problem, s: Sys, s': Sys, i: nat)
    requires Sized(pb, s) && i < Kids(pb) && OtherKidsSame(s, s', i) && NearDown(pb, s', i) && AllDown(pb, s)
    ensures AllDown(pb, s')
  {
    forall j | 0 <= j < Kids(pb) - 1 ensures DownOk(pb, j, s'.down[j], s'.kids[j], s'.kids[j + 1]) {
      if j != i && j + 1 != i {
        assert DownOk(pb, j, s.down[j], s.kids[j], s.kids[j + 1]);
      }
    }
  }

  lemma Assemble(pb: Problem, s: Sys, s': Sys, i: nat, seen: set<(nat, nat)>)
    requires Inv(pb, s, seen) && i < Kids(pb) && OtherKidsSame(s, s', i) && Near(pb, s', i)
    requires AllUnsent(pb, s', seen) && MailOk(pb, s'.coord.it - 1, s'.cells, seen)
    ensures Inv(pb, s', seen)
  {
    assert s'.coord == s.coord && s'.out == s.out && Sized(pb, s');
    AssembleKids(pb, s, s', i);
    AssembleUp(pb, s, s', i);
    AssembleDown(pb, s, s', i);
  }

  lemma NearBefore(pb: Problem, s: Sys, i: nat, seen: set<(nat, nat)>)
    requires Inv(pb, s, seen) && i < Kids(pb)
    ensures Near(pb, s, i)
  {
    if 0 < i { assert DownOk(pb, i - 1, s.down[i - 1], s.kids[i - 1], s.kids[i - 1 + 1]); }
    if i + 1 < Kids(pb) { assert UpOk(pb, i + 1, s.up[i + 1], s.kids[i + 1], s.kids[i + 1 - 1]); }
  }

  /** When no cell is sent and child i has sent no fewer than before, the gathering is untouched. */
  lemma StillUnsent(pb: Problem, s: Sys, s': Sys, i: nat, seen: set<(nat, nat)>)
    requires Sized(pb, s) && AllUnsent(pb, s, seen) && i < Kids(pb) && OtherKidsSame(s, s', i) && s'.cells == s.cells
    requires forall x, y :: Gone(s.kids[i], x, y) ==> Gone(s'.kids[i], x, y)
    ensures AllUnsent(pb, s', seen)
  {
    forall j | 0 <= j < Kids(pb) ensures Unsent(pb, j, s'.kids[j], s'.cells, seen) {
      assert Unsent(pb, j, s.kids[j], s.cells, seen);
    }
  }
}
