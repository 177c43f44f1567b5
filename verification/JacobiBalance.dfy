/** What the relaxation is for: the largest change measures how far the grid is from balance,
    every inner cell being the mean of its four neighbours. */
module JacobiBalance {
  import opened JacobiGrid
  import opened JacobiSplit
  import opened JacobiSystem
  import opened JacobiTermination

  lemma {:induction false} RowBounds(n: nat, g: Grid, r: nat, k: nat, c: nat)
    requires Square(n, g) && Inner(n, r) && 1 <= c < k <= n - 1
    ensures var d := RowChange(n, g, r, k); -d <= Next(n, g)[r][c] - g[r][c] <= d
    decreases k
  {
    if c < k - 1 {
      RowBounds(n, g, r, k - 1, c);
    }
  }

  /** The difference d of a sweep over rows lo..hi-1: no inner cell there moves by more, up or down. */
  lemma {:induction false} ChangeBounds(n: nat, g: Grid, lo: nat, hi: nat, r: nat, c: nat)
    requires Square(n, g) && 1 <= lo <= r < hi <= n - 1 && Inner(n, c)
    ensures var d := Change(n, g, lo, hi); -d <= Next(n, g)[r][c] - g[r][c] <= d
    decreases hi
  {
    if r == hi - 1 {
      RowBounds(n, g, r, n - 1, c);
    } else {
      ChangeBounds(n, g, lo, hi - 1, r, c);
    }
  }

  /** Cell (r, c) moves by d, up or down. */
  predicate Moves(n: nat, g: Grid, r: nat, c: nat, d: real)
    requires Square(n, g) && r < n && c < n
  {
    Next(n, g)[r][c] == g[r][c] + d || Next(n, g)[r][c] == g[r][c] - d
  }

  lemma {:induction false} RowAttained(n: nat, g: Grid, r: nat, k: nat) returns (c: nat)
    requires Square(n, g) && Inner(n, r) && k <= n - 1
    ensures var d := RowChange(n, g, r, k); d == 0.0 || (Inner(n, c) && Moves(n, g, r, c, d))
    decreases k
  {
    c := 0;
    if k > 1 {
      c := RowAttained(n, g, r, k - 1);
      if RowChange(n, g, r, k) != RowChange(n, g, r, k - 1) {
        c := k - 1;
        assert Next(n, g)[r][c] == Average(n, g, r, c);
      }
    }
  }

  /** And d is 0, or the move of one of them. */
  lemma {:induction false} ChangeAttained(n: nat, g: Grid, lo: nat, hi: nat) returns (r: nat, c: nat)
    requires Square(n, g) && 1 <= lo && hi <= n - 1
    ensures var d := Change(n, g, lo, hi);
            d == 0.0 || (lo <= r < hi && Inner(n, c) && Moves(n, g, r, c, d))
    decreases hi
  {
    r, c := 0, 0;
    if lo < hi {
      if Change(n, g, lo, hi) == Change(n, g, lo, hi - 1) {
        r, c := ChangeAttained(n, g, lo, hi - 1);
      } else {
        r := hi - 1;
        c := RowAttained(n, g, r, n - 1);
      }
    }
  }

  /** Four times an inner cell differs from the sum of its four neighbours by at most x. */
  predicate BalancedAt(n: nat, g: Grid, r: nat, c: nat, x: real)
    requires Square(n, g) && Inner(n, r) && Inner(n, c)
  {
    -x <= 4.0 * g[r][c] - (g[r - 1][c] + g[r + 1][c] + g[r][c - 1] + g[r][c + 1]) <= x
  }

  ghost predicate Balanced(n: nat, g: Grid, x: real)
    requires Square(n, g)
  {
    forall r, c :: Inner(n, r) && Inner(n, c) ==> BalancedAt(n, g, r, c, x)
  }

  /** The new value of a cell, and what its move says of its balance. */
  lemma MoveIsBalance(n: nat, g: Grid, r: nat, c: nat, e: real)
    requires Square(n, g) && Inner(n, r) && Inner(n, c)
    ensures 4.0 * Next(n, g)[r][c] == g[r - 1][c] + g[r + 1][c] + g[r][c - 1] + g[r][c + 1]
    ensures BalancedAt(n, g, r, c, 4.0 * e) == (-e <= Next(n, g)[r][c] - g[r][c] <= e)
  {
    assert Next(n, g)[r][c] == Average(n, g, r, c);
  }

  /** The test of the largest change is a test of balance. */
  lemma SmallChangeIff(n: nat, g: Grid, e: real)
    requires n >= 2 && Square(n, g)
    ensures Change(n, g, 1, n - 1) <= e <==> e >= 0.0 && Balanced(n, g, 4.0 * e)
  {
    if Change(n, g, 1, n - 1) <= e {
      forall r, c | Inner(n, r) && Inner(n, c) ensures BalancedAt(n, g, r, c, 4.0 * e) {
        ChangeBounds(n, g, 1, n - 1, r, c);
        MoveIsBalance(n, g, r, c, e);
      }
    } else if e >= 0.0 {
      var r, c := ChangeAttained(n, g, 1, n - 1);
      MoveIsBalance(n, g, r, c, e);
      assert !BalancedAt(n, g, r, c, 4.0 * e);
    }
  }

  predicate Within(n: nat, g: Grid, least: real, largest: real)
    requires Square(n, g)
  {
    forall r, c :: 0 <= r < n && 0 <= c < n ==> least <= g[r][c] <= largest
  }

  lemma AverageWithin(n: nat, g: Grid, r: nat, c: nat, least: real, largest: real)
    requires Square(n, g) && Inner(n, r) && Inner(n, c) && Within(n, g, least, largest)
    ensures least <= Average(n, g, r, c) <= largest
  {
  }

  /** A step leaves the boundary alone, and no value leaves the range of the values before it. */
  lemma NextWithin(n: nat, g: Grid, least: real, largest: real)
    requires Square(n, g) && Within(n, g, least, largest)
    ensures Within(n, Next(n, g), least, largest)
    ensures forall r, c :: 0 <= r < n && 0 <= c < n && !(Inner(n, r) && Inner(n, c)) ==>
                             Next(n, g)[r][c] == g[r][c]
  {
    forall r, c | 0 <= r < n && 0 <= c < n ensures least <= Next(n, g)[r][c] <= largest {
      if Inner(n, r) && Inner(n, c) {
        AverageWithin(n, g, r, c, least, largest);
      }
    }
  }

  lemma {:induction false} IterateWithin(n: nat, g: Grid, k: nat, least: real, largest: real)
    requires Square(n, g) && Within(n, g, least, largest)
    ensures Within(n, Iterate(n, g, k), least, largest)
  {
    if k > 0 {
      IterateWithin(n, g, k - 1, least, largest);
      NextWithin(n, Iterate(n, g, k - 1), least, largest);
    }
  }

  /** Neighbouring cells of g moved by at most d, so their mean does. */
  lemma MeanMoves(n: nat, g: Grid, h: Grid, r: nat, c: nat, d: real)
    requires Square(n, g) && Square(n, h) && Inner(n, r) && Inner(n, c)
    requires forall i, j :: 0 <= i < n && 0 <= j < n ==> -d <= h[i][j] - g[i][j] <= d
    ensures -d <= Average(n, h, r, c) - Average(n, g, r, c) <= d
  {
    assert forall i, j :: 0 <= i < n && 0 <= j < n ==> g[i][j] - d <= h[i][j] <= g[i][j] + d;
  }

  /** The largest change of a step is never more than that of the step before. */
  lemma ChangeShrinks(n: nat, g: Grid)
    requires n >= 2 && Square(n, g)
    ensures Change(n, Next(n, g), 1, n - 1) <= Change(n, g, 1, n - 1)
  {
    var h := Next(n, g);
    var d := Change(n, g, 1, n - 1);
    forall i, j | 0 <= i < n && 0 <= j < n ensures -d <= h[i][j] - g[i][j] <= d {
      if Inner(n, i) && Inner(n, j) {
        ChangeBounds(n, g, 1, n - 1, i, j);
      }
    }
    var r, c := ChangeAttained(n, h, 1, n - 1);
    if Change(n, h, 1, n - 1) != 0.0 {
      MeanMoves(n, g, h, r, c, d);
    }
  }

  /** The test of the k-th iteration, in the values of the grid: past the limit, or balanced. */
  ghost predicate Enough(n: nat, g0: Grid, e: real, l: int, k: nat)
    requires Square(n, g0) && k >= 1
  {
    k > l || (e >= 0.0 && Balanced(n, Iterate(n, g0, k - 1), 4.0 * e))
  }

  lemma StopsIff(n: nat, g0: Grid, e: real, l: int, k: nat)
    requires n >= 2 && Square(n, g0) && k >= 1
    ensures Stops(n, g0, e, l, k) == Enough(n, g0, e, l, k)
  {
    SmallChangeIff(n, Iterate(n, g0, k - 1), e);
  }

  /** The result: the program ends in the first iteration past the limit or with a balanced grid,
      and that grid is the one it leaves. */
  lemma ResultIff(n: nat, g0: Grid, e: real, l: int, count: nat, out: Grid)
    requires n >= 2 && Square(n, g0)
    ensures SerialResult(n, g0, e, l, count, out)
       <==> && count >= 1 && Enough(n, g0, e, l, count)
            && (forall j :: 1 <= j < count ==> !Enough(n, g0, e, l, j))
            && out == Iterate(n, g0, count - 1)
  {
    forall k | k >= 1 ensures Stops(n, g0, e, l, k) == Enough(n, g0, e, l, k) {
      StopsIff(n, g0, e, l, k);
    }
  }

  /** Below the limit the result is balanced; its values are in the range of the first grid's. */
  lemma ResultBalanced(n: nat, g0: Grid, e: real, l: int, count: nat, out: Grid, least: real, largest: real)
    requires n >= 2 && Square(n, g0) && SerialResult(n, g0, e, l, count, out) && Within(n, g0, least, largest)
    ensures Within(n, out, least, largest)
    ensures count <= l ==> Balanced(n, out, 4.0 * e)
  {
    StopsIff(n, g0, e, l, count);
    IterateWithin(n, g0, count - 1, least, largest);
  }

  /** The same of the parallel program: a run that cannot go on has gathered a balanced grid,
      or has passed the limit. */
  lemma GatheredBalanced(n: nat, p: nat, g0: Grid, e: real, l: int, run: seq<Step>, s: Sys,
                         least: real, largest: real)
    requires 2 <= p <= n && Square(n, g0) && Within(n, g0, least, largest)
    requires var pb := Problem(n, Cuts(n, p), g0, e, l); Runs(pb, Start(pb), run, s)
    ensures var pb := Problem(n, Cuts(n, p), g0, e, l);
            && Shape(pb, s)
            && (Stuck(pb, s) ==>
                  Within(n, s.out, least, largest) && (s.coord.it > l || Balanced(n, s.out, 4.0 * e)))
  {
    ParallelEnds(n, p, g0, e, l, run, s);
    if Stuck(Problem(n, Cuts(n, p), g0, e, l), s) {
      ResultBalanced(n, g0, e, l, s.coord.it, s.out, least, largest);
    }
  }
}
