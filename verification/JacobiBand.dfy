/** What a child does to its arrays, against the grids of the step system. */
module JacobiBand {
  import opened JacobiGrid
  import opened JacobiSplit
  import opened JacobiSystem

  predicate InBand(pb: Problem, i: nat, r: int, c: int)
    requires i + 1 < |pb.cuts| && pb.n > 0
  {
    Lo(pb, i) <= r < Hi(pb, i) && Inner(pb.n, c)
  }

  lemma SweptIs(pb: Problem, i: nat, kid: Child, w: Grid)
    requires GoodProblem(pb) && i < Kids(pb) && Square(pb.n, kid.u) && Square(pb.n, kid.w) && Square(pb.n, w)
    requires forall r: nat, c: nat :: r < pb.n && c < pb.n ==>
               w[r][c] == if InBand(pb, i, r, c) then Average(pb.n, kid.u, r, c) else kid.w[r][c]
    ensures w == Swept(pb, i, kid)
  {
    SameGrid(pb.n, w, Swept(pb, i, kid));
  }

  /** The update of child i: its band of w becomes what the step system says, u stays, and the
      difference it sends is the largest change in the band. */
  method SweepBand(pb: Problem, i: nat, ghost kid: Child, u: array2<real>, w: array2<real>) returns (diff: real)
    requires GoodProblem(pb) && i < Kids(pb) && u != w
    requires u.Length0 == u.Length1 == w.Length0 == w.Length1 == pb.n && GridOf(u) == kid.u && GridOf(w) == kid.w
    modifies w
    ensures GridOf(u) == kid.u && GridOf(w) == Swept(pb, i, kid)
    ensures 1 <= Lo(pb, i) && Hi(pb, i) <= pb.n - 1 && diff == Change(pb.n, kid.u, Lo(pb, i), Hi(pb, i))
  {
    CutsBound(pb.n, pb.cuts, i);
    diff := Sweep(pb.n, u, w, Lo(pb, i), Hi(pb, i));
    forall r: nat, c: nat | r < pb.n && c < pb.n
      ensures w[r, c] == if InBand(pb, i, r, c) then Average(pb.n, kid.u, r, c) else kid.w[r][c]
    {
    }
    SweptIs(pb, i, kid, GridOf(w));
  }

  /** Going on to the next iteration: the band of w is copied back into u. */
  method CopyBand(pb: Problem, i: nat, ghost kid: Child, u: array2<real>, w: array2<real>)
    requires GoodProblem(pb) && i < Kids(pb) && u != w
    requires u.Length0 == u.Length1 == w.Length0 == w.Length1 == pb.n && GridOf(u) == kid.u && GridOf(w) == kid.w
    modifies u
    ensures GridOf(u) == Copied(pb, i, kid) && GridOf(w) == kid.w
  {
    CutsBound(pb.n, pb.cuts, i);
    CopyRows(pb.n, u, w, Lo(pb, i), Hi(pb, i));
    SameGrid(pb.n, GridOf(u), Copied(pb, i, kid));
  }
}
