/** The message loops of a child keep the invariant. */
module JacobiChild {
  import opened JacobiSplit
  import opened JacobiSystem
  import opened JacobiInvariant
  import opened JacobiPipes

  ghost predicate At(pb: Problem, s: Sys, i: nat) {
    Sized(pb, s) && Shape(pb, s) && i < Kids(pb) && Near(pb, s, i)
  }

  /** Child k' is where child k is, except in message loop m. */
  predicate SameLoops(n: nat, k: Child, k': Child, m: nat) {
    && k'.iter == k.iter
    && forall j :: 0 <= j < 4 && j != m ==> Col(n, k', j) == Col(n, k, j)
  }

  ghost predicate SameMail(s: Sys, s': Sys) {
    s'.diffs == s.diffs && s'.orders == s.orders && s'.cells == s.cells && s'.coord == s.coord
  }

  lemma LoopUp(pb: Problem, s: Sys, s': Sys, i: nat, m: nat)
    requires Sized(pb, s) && Sized(pb, s') && i < Kids(pb) && OtherKidsSame(s, s', i) && NearUp(pb, s, i)
    requires SameLoops(pb.n, s.kids[i], s'.kids[i], m)
    requires 0 < i ==> if m == 0 then UpOk(pb, i, s'.up[i], s'.kids[i], s.kids[i - 1]) else s'.up[i] == s.up[i]
    requires i + 1 < Kids(pb) ==> if m == 2 then UpOk(pb, i + 1, s'.up[i + 1], s.kids[i + 1], s'.kids[i])
               else s'.up[i + 1] == s.up[i + 1]
    ensures NearUp(pb, s', i)
  {
    var k, k' := s.kids[i], s'.kids[i];
    assert m != 0 ==> Col(pb.n, k', 0) == Col(pb.n, k, 0);
    assert m != 2 ==> Col(pb.n, k', 2) == Col(pb.n, k, 2);
  }

  lemma LoopDown(pb: Problem, s: Sys, s': Sys, i: nat, m: nat)
    requires Sized(pb, s) && Sized(pb, s') && i < Kids(pb) && OtherKidsSame(s, s', i) && NearDown(pb, s, i)
    requires SameLoops(pb.n, s.kids[i], s'.kids[i], m)
    requires i + 1 < Kids(pb) ==> if m == 1 then DownOk(pb, i, s'.down[i], s'.kids[i], s.kids[i + 1])
               else s'.down[i] == s.down[i]
    requires 0 < i ==> if m == 3 then DownOk(pb, i - 1, s'.down[i - 1], s.kids[i - 1], s'.kids[i])
               else s'.down[i - 1] == s.down[i - 1]
    ensures NearDown(pb, s', i)
  {
    var k, k' := s.kids[i], s'.kids[i];
    assert m != 1 ==> Col(pb.n, k', 1) == Col(pb.n, k, 1);
    assert m != 3 ==> Col(pb.n, k', 3) == Col(pb.n, k, 3);
  }

  /** The end of loop m: done, or skipped because child i has no neighbour on that side. */
  predicate LoopEnds(pb: Problem, i: nat, k: Child, m: nat)
    requires i + 1 < |pb.cuts|
  {
    && m < 4 && Rank(k.stage) == m
    && (k.t >= pb.n - 1 || if m == 0 || m == 3 then pb.cuts[i] == 0 else pb.cuts[i + 1] == pb.n)
  }

  lemma LoopEndKid(pb: Problem, i: nat, k: Child, k': Child, m: nat)
    requires GoodProblem(pb) && i < Kids(pb) && KidOk(pb, i, k) && LoopEnds(pb, i, k, m)
    requires k'.iter == k.iter && k'.u == k.u && k'.w == k.w && k'.t == 1 && Rank(k'.stage) == m + 1 && m + 1 < 5
    ensures KidOk(pb, i, k') && SameLoops(pb.n, k, k', m)
  {
    CutsBound(pb.n, pb.cuts, i);
    forall r, c | 0 <= r < pb.n && 0 <= c < pb.n && Known(pb, i, k', r, c) ensures k'.u[r][c] == G(pb, k'.iter)[r][c] {
      assert Known(pb, i, k, r, c);
    }
  }

  /** Moving on to the next loop. */
  lemma LoopEnd(pb: Problem, s: Sys, i: nat, k': Child, m: nat)
    requires At(pb, s, i) && LoopEnds(pb, i, s.kids[i], m)
    requires k'.iter == s.kids[i].iter && k'.u == s.kids[i].u && k'.w == s.kids[i].w && k'.t == 1
    requires Rank(k'.stage) == m + 1 && m + 1 < 5
    ensures Near(pb, WithKid(s, i, k'), i) && OtherKidsSame(s, WithKid(s, i, k'), i) && SameMail(s, WithKid(s, i, k'))
  {
    var k, s' := s.kids[i], WithKid(s, i, k');
    CutsBound(pb.n, pb.cuts, i);
    LoopEndKid(pb, i, k, k', m);
    assert NearSelf(pb, s', i);
  }

  ghost predicate Kept(pb: Problem, s: Sys, s': Sys, i: nat) {
    && At(pb, s, i) && Sized(pb, s') && OtherKidsSame(s, s', i) && Near(pb, s', i) && SameMail(s, s')
  }

  /** A step that touches pipe m only. */
  lemma LoopMoved(pb: Problem, s: Sys, s': Sys, i: nat, m: nat)
    requires At(pb, s, i) && Sized(pb, s') && OtherKidsSame(s, s', i) && SameMail(s, s')
    requires KidOk(pb, i, s'.kids[i]) && SameLoops(pb.n, s.kids[i], s'.kids[i], m)
    requires Rank(s.kids[i].stage) < 5 && Rank(s'.kids[i].stage) < 5
    requires 0 < i ==> if m == 0 then UpOk(pb, i, s'.up[i], s'.kids[i], s.kids[i - 1]) else s'.up[i] == s.up[i]
    requires i + 1 < Kids(pb) ==> if m == 2 then UpOk(pb, i + 1, s'.up[i + 1], s.kids[i + 1], s'.kids[i])
               else s'.up[i + 1] == s.up[i + 1]
    requires i + 1 < Kids(pb) ==> if m == 1 then DownOk(pb, i, s'.down[i], s'.kids[i], s.kids[i + 1])
               else s'.down[i] == s.down[i]
    requires 0 < i ==> if m == 3 then DownOk(pb, i - 1, s'.down[i - 1], s.kids[i - 1], s'.kids[i])
               else s'.down[i - 1] == s.down[i - 1]
    ensures Kept(pb, s, s', i)
  {
    LoopUp(pb, s, s', i, m);
    LoopDown(pb, s, s', i, m);
    assert NearSelf(pb, s', i);
  }

  lemma KidSends(pb: Problem, i: nat, k: Child, k': Child)
    requires GoodProblem(pb) && i < Kids(pb) && KidOk(pb, i, k) && Rank(k.stage) < 2 && k.t < pb.n - 1
    requires k' == Child(k.iter, k.stage, k.t + 1, k.u, k.w)
    ensures KidOk(pb, i, k') && SameLoops(pb.n, k, k', Rank(k.stage))
  {
    forall r, c | 0 <= r < pb.n && 0 <= c < pb.n && Known(pb, i, k', r, c) ensures k'.u[r][c] == G(pb, k'.iter)[r][c] {
      assert Known(pb, i, k, r, c);
    }
  }

  lemma PushUpPipe(pb: Problem, i: nat, q: seq<Edge>, k: Child, r: Child)
    requires GoodProblem(pb) && 0 < i < Kids(pb) && KidOk(pb, i, k) && KidOk(pb, i - 1, r) && UpOk(pb, i, q, k, r)
    requires k.stage.SendUp? && k.t < pb.n - 1
    ensures UpOk(pb, i, q + [Edge(1, k.t, k.u[pb.cuts[i]][k.t])], Child(k.iter, k.stage, k.t + 1, k.u, k.w), r)
  {
    CutsBound(pb.n, pb.cuts, i);
    assert Known(pb, i, k, pb.cuts[i], k.t);
    PipePush(pb, 1, pb.cuts[i], q, k.iter, k.t, r.iter, Col(pb.n, r, 2));
  }

  lemma PushUp(pb: Problem, s: Sys, i: nat)
    requires At(pb, s, i) && s.kids[i].stage.SendUp? && pb.cuts[i] != 0 && s.kids[i].t < pb.n - 1
    requires 0 < i ==> KidOk(pb, i - 1, s.kids[i - 1])
    ensures Kept(pb, s, KidStep(pb, s, i), i)
  {
    CutsBound(pb.n, pb.cuts, i);
    var k, s' := s.kids[i], KidStep(pb, s, i);
    PushUpPipe(pb, i, s.up[i], k, s.kids[i - 1]);
    KidSends(pb, i, k, s'.kids[i]);
    LoopMoved(pb, s, s', i, 0);
  }

  lemma OnSendUp(pb: Problem, s: Sys, i: nat)
    requires At(pb, s, i) && s.kids[i].stage.SendUp?
    requires 0 < i ==> KidOk(pb, i - 1, s.kids[i - 1])
    ensures Kept(pb, s, KidStep(pb, s, i), i)
  {
    CutsBound(pb.n, pb.cuts, i);
    var k, s' := s.kids[i], KidStep(pb, s, i);
    if pb.cuts[i] != 0 && k.t < pb.n - 1 {
      PushUp(pb, s, i);
    } else {
      LoopEnd(pb, s, i, s'.kids[i], 0);
    }
  }

  lemma PushDownPipe(pb: Problem, i: nat, q: seq<Edge>, k: Child, r: Child)
    requires GoodProblem(pb) && i + 1 < Kids(pb) && KidOk(pb, i, k) && KidOk(pb, i + 1, r) && DownOk(pb, i, q, k, r)
    requires k.stage.SendDown? && k.t < pb.n - 1
    ensures DownOk(pb, i, q + [Edge(-1, k.t, k.u[pb.cuts[i + 1] - 1][k.t])], Child(k.iter, k.stage, k.t + 1, k.u, k.w),
                   r)
  {
    CutsBound(pb.n, pb.cuts, i);
    assert Known(pb, i, k, pb.cuts[i + 1] - 1, k.t);
    PipePush(pb, -1, pb.cuts[i + 1] - 1, q, k.iter, k.t, r.iter, Col(pb.n, r, 3));
  }

  lemma PushDown(pb: Problem, s: Sys, i: nat)
    requires At(pb, s, i) && s.kids[i].stage.SendDown? && pb.cuts[i + 1] != pb.n && s.kids[i].t < pb.n - 1
    requires i + 1 < Kids(pb) ==> KidOk(pb, i + 1, s.kids[i + 1])
    ensures Kept(pb, s, KidStep(pb, s, i), i)
  {
    CutsBound(pb.n, pb.cuts, i);
    var k, s' := s.kids[i], KidStep(pb, s, i);
    PushDownPipe(pb, i, s.down[i], k, s.kids[i + 1]);
    KidSends(pb, i, k, s'.kids[i]);
    LoopMoved(pb, s, s', i, 1);
  }

  lemma OnSendDown(pb: Problem, s: Sys, i: nat)
    requires At(pb, s, i) && s.kids[i].stage.SendDown?
    requires i + 1 < Kids(pb) ==> KidOk(pb, i + 1, s.kids[i + 1])
    ensures Kept(pb, s, KidStep(pb, s, i), i)
  {
    CutsBound(pb.n, pb.cuts, i);
    var k, s' := s.kids[i], KidStep(pb, s, i);
    if pb.cuts[i + 1] != pb.n && k.t < pb.n - 1 {
      PushDown(pb, s, i);
    } else {
      LoopEnd(pb, s, i, s'.kids[i], 1);
    }
  }

  /** Storing the value of column t of the neighbouring row. */
  lemma KidReceives(pb: Problem, i: nat, k: Child, dir: int, row: nat)
    requires GoodProblem(pb) && i < Kids(pb) && KidOk(pb, i, k) && k.t < pb.n - 1 && row < pb.n
    requires (k.stage.FromBelow? && dir == 1 && row == pb.cuts[i + 1])
             || (k.stage.FromAbove? && dir == -1 && row + 1 == pb.cuts[i])
    ensures var k' := Child(k.iter, k.stage, k.t + 1, Stored(pb, i, k.u, Edge(dir, k.t, G(pb, k.iter)[row][k.t])), k.w);
      KidOk(pb, i, k') && SameLoops(pb.n, k, k', Rank(k.stage))
  {
    CutsBound(pb.n, pb.cuts, i);
    var k' := Child(k.iter, k.stage, k.t + 1, Stored(pb, i, k.u, Edge(dir, k.t, G(pb, k.iter)[row][k.t])), k.w);
    forall r, c | 0 <= r < pb.n && 0 <= c < pb.n && Known(pb, i, k', r, c) ensures k'.u[r][c] == G(pb, k'.iter)[r][c] {
      assert (r == row && c == k.t) || Known(pb, i, k, r, c);
    }
  }

  lemma PullBelowPipe(pb: Problem, i: nat, q: seq<Edge>, w: Child, k: Child)
    requires GoodProblem(pb) && i + 1 < Kids(pb) && KidOk(pb, i, k) && KidOk(pb, i + 1, w) && UpOk(pb, i + 1, q, w, k)
    requires k.stage.FromBelow? && k.t < pb.n - 1 && q != []
    ensures q[0] == Edge(1, k.t, G(pb, k.iter)[pb.cuts[i + 1]][k.t])
    ensures UpOk(pb, i + 1, q[1..], w, Child(k.iter, k.stage, k.t + 1, Stored(pb, i, k.u, q[0]), k.w))
  {
    PipePull(pb, 1, pb.cuts[i + 1], q, w.iter, Col(pb.n, w, 0), k.iter, k.t);
  }

  lemma PullBelow(pb: Problem, s: Sys, i: nat)
    requires At(pb, s, i) && s.kids[i].stage.FromBelow? && Enabled(pb, s, Kid(i)) && pb.cuts[i + 1] != pb.n
    requires s.kids[i].t < pb.n - 1
    requires i + 1 < Kids(pb) ==> KidOk(pb, i + 1, s.kids[i + 1])
    ensures Kept(pb, s, KidStep(pb, s, i), i)
  {
    CutsBound(pb.n, pb.cuts, i);
    var k, s' := s.kids[i], KidStep(pb, s, i);
    PullBelowPipe(pb, i, s.up[i + 1], s.kids[i + 1], k);
    KidReceives(pb, i, k, 1, pb.cuts[i + 1]);
    LoopMoved(pb, s, s', i, 2);
  }

  lemma OnFromBelow(pb: Problem, s: Sys, i: nat)
    requires At(pb, s, i) && s.kids[i].stage.FromBelow? && Enabled(pb, s, Kid(i))
    requires i + 1 < Kids(pb) ==> KidOk(pb, i + 1, s.kids[i + 1])
    ensures Kept(pb, s, KidStep(pb, s, i), i)
  {
    CutsBound(pb.n, pb.cuts, i);
    var k, s' := s.kids[i], KidStep(pb, s, i);
    if pb.cuts[i + 1] != pb.n && k.t < pb.n - 1 {
      PullBelow(pb, s, i);
    } else {
      LoopEnd(pb, s, i, s'.kids[i], 2);
    }
  }

  lemma PullAbovePipe(pb: Problem, i: nat, q: seq<Edge>, w: Child, k: Child)
    requires GoodProblem(pb) && 0 < i < Kids(pb) && KidOk(pb, i, k) && KidOk(pb, i - 1, w) && DownOk(pb, i - 1, q, w, k)
    requires k.stage.FromAbove? && k.t < pb.n - 1 && q != []
    ensures q[0] == Edge(-1, k.t, G(pb, k.iter)[pb.cuts[i] - 1][k.t])
    ensures DownOk(pb, i - 1, q[1..], w, Child(k.iter, k.stage, k.t + 1, Stored(pb, i, k.u, q[0]), k.w))
  {
    PipePull(pb, -1, pb.cuts[i] - 1, q, w.iter, Col(pb.n, w, 1), k.iter, k.t);
  }

  lemma PullAbove(pb: Problem, s: Sys, i: nat)
    requires At(pb, s, i) && s.kids[i].stage.FromAbove? && Enabled(pb, s, Kid(i)) && pb.cuts[i] != 0
    requires s.kids[i].t < pb.n - 1
    requires 0 < i ==> KidOk(pb, i - 1, s.kids[i - 1])
    ensures Kept(pb, s, KidStep(pb, s, i), i)
  {
    CutsBound(pb.n, pb.cuts, i);
    var k, s' := s.kids[i], KidStep(pb, s, i);
    PullAbovePipe(pb, i, s.down[i - 1], s.kids[i - 1], k);
    KidReceives(pb, i, k, -1, pb.cuts[i] - 1);
    LoopMoved(pb, s, s', i, 3);
  }

  lemma OnFromAbove(pb: Problem, s: Sys, i: nat)
    requires At(pb, s, i) && s.kids[i].stage.FromAbove? && Enabled(pb, s, Kid(i))
    requires 0 < i ==> KidOk(pb, i - 1, s.kids[i - 1])
    ensures Kept(pb, s, KidStep(pb, s, i), i)
  {
    CutsBound(pb.n, pb.cuts, i);
    var k, s' := s.kids[i], KidStep(pb, s, i);
    if pb.cuts[i] != 0 && k.t < pb.n - 1 {
      PullAbove(pb, s, i);
    } else {
      LoopEnd(pb, s, i, s'.kids[i], 3);
    }
  }
}
