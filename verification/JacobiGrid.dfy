/** The grid, one relaxation step of it, and the serial program. */
module JacobiGrid {

  type Grid = seq<seq<real>>

  predicate Square(n: nat, g: Grid) {
    |g| == n && forall r :: 0 <= r < n ==> |g[r]| == n
  }

  predicate Inner(n: nat, x: int) { 1 <= x < n - 1 }

  function Abs(x: real): real { if x < 0.0 then -1.0 * x else x }

  function MaxReal(a: real, b: real): real { if a < b then b else a }

  /** The four-point average at an inner cell. */
  function Average(n: nat, g: Grid, r: nat, c: nat): real
    requires Square(n, g) && Inner(n, r) && Inner(n, c)
  {
    (g[r - 1][c] + g[r + 1][c] + g[r][c - 1] + g[r][c + 1]) / 4.0
  }

  function NextCell(n: nat, g: Grid, r: nat, c: nat): real
    requires Square(n, g) && r < n && c < n
  {
    if Inner(n, r) && Inner(n, c) then Average(n, g, r, c) else g[r][c]
  }

  /** One step: every inner cell becomes its average; the boundary stays. */
  function Next(n: nat, g: Grid): (g': Grid)
    requires Square(n, g)
    ensures Square(n, g')
    ensures forall r, c :: 0 <= r < n && 0 <= c < n ==> g'[r][c] == NextCell(n, g, r, c)
  {
    seq(n, r requires 0 <= r < n => seq(n, c requires 0 <= c < n => NextCell(n, g, r, c)))
  }

  /** The grid after k steps. */
  function Iterate(n: nat, g: Grid, k: nat): (g': Grid)
    requires Square(n, g)
    ensures Square(n, g')
  {
    if k == 0 then g else Next(n, Iterate(n, g, k - 1))
  }

  /** The largest change that one step makes in columns 1..c-1 of row r. */
  function RowChange(n: nat, g: Grid, r: nat, c: nat): real
    requires Square(n, g) && Inner(n, r) && c <= n - 1
    decreases c
  {
    if c <= 1 then 0.0
    else MaxReal(RowChange(n, g, r, c - 1), Abs(Average(n, g, r, c - 1) - g[r][c - 1]))
  }

  /** The largest change that one step makes in rows lo..hi-1. */
  function Change(n: nat, g: Grid, lo: nat, hi: nat): (d: real)
    requires Square(n, g) && 1 <= lo && hi <= n - 1
    ensures d >= 0.0
    decreases hi
  {
    if hi <= lo then 0.0
    else MaxReal(Change(n, g, lo, hi - 1), RowChange(n, g, hi - 1, n - 1))
  }

  /** The change over adjoining bands is the larger of the two. */
  lemma {:induction false} ChangeSplits(n: nat, g: Grid, lo: nat, mid: nat, hi: nat)
    requires Square(n, g) && 1 <= lo <= mid <= hi <= n - 1
    ensures Change(n, g, lo, hi) == MaxReal(Change(n, g, lo, mid), Change(n, g, mid, hi))
    decreases hi
  {
    if mid < hi {
      ChangeSplits(n, g, lo, mid, hi - 1);
    }
  }

  /** The step of rows lo..hi-1 depends on rows lo-1..hi only. */
  predicate AgreeOn(n: nat, g: Grid, h: Grid, lo: int, hi: int)
    requires Square(n, g) && Square(n, h)
  {
    forall r, c :: 0 <= r < n && lo <= r < hi && 0 <= c < n ==> g[r][c] == h[r][c]
  }

  lemma {:induction false} RowChangeAgrees(n: nat, g: Grid, h: Grid, r: nat, c: nat)
    requires Square(n, g) && Square(n, h) && Inner(n, r) && c <= n - 1 && AgreeOn(n, g, h, r - 1, r + 2)
    ensures RowChange(n, g, r, c) == RowChange(n, h, r, c)
    decreases c
  {
    if c > 1 {
      RowChangeAgrees(n, g, h, r, c - 1);
    }
  }

  lemma {:induction false} ChangeAgrees(n: nat, g: Grid, h: Grid, lo: nat, hi: nat)
    requires Square(n, g) && Square(n, h) && 1 <= lo && hi <= n - 1 && AgreeOn(n, g, h, lo - 1, hi + 1)
    ensures Change(n, g, lo, hi) == Change(n, h, lo, hi)
    decreases hi
  {
    if lo < hi {
      ChangeAgrees(n, g, h, lo, hi - 1);
      RowChangeAgrees(n, g, h, hi - 1, n - 1);
    }
  }

  lemma SameGrid(n: nat, g: Grid, h: Grid)
    requires Square(n, g) && Square(n, h)
    requires forall r, c :: 0 <= r < n && 0 <= c < n ==> g[r][c] == h[r][c]
    ensures g == h
  {
    forall r | 0 <= r < n ensures g[r] == h[r] {
    }
  }

  // The program's arrays.

  ghost function GridOf(a: array2<real>): (g: Grid)
    reads a
    ensures |g| == a.Length0
    ensures forall r :: 0 <= r < a.Length0 ==> |g[r]| == a.Length1
    ensures forall r, c :: 0 <= r < a.Length0 && 0 <= c < a.Length1 ==> g[r][c] == a[r, c]
  {
    seq(a.Length0, r requires 0 <= r < a.Length0 reads a =>
      seq(a.Length1, c requires 0 <= r < a.Length0 && 0 <= c < a.Length1 reads a => a[r, c]))
  }

  /** One row of a sweep: the new values go to w, and the running maximum grows. */
  method SweepRow(n: nat, u: array2<real>, w: array2<real>, r: nat, was: real) returns (diff: real)
    requires u.Length0 == u.Length1 == w.Length0 == w.Length1 == n && u != w && Inner(n, r) && was >= 0.0
    modifies w
    ensures diff == MaxReal(was, RowChange(n, GridOf(u), r, n - 1))
    ensures forall c :: Inner(n, c) ==> w[r, c] == Average(n, GridOf(u), r, c)
    ensures forall q, c :: 0 <= q < n && 0 <= c < n && (q != r || !Inner(n, c)) ==> w[q, c] == old(w[q, c])
  {
    diff := was;
    ghost var g := GridOf(u);
    var c := 1;
    while c < n - 1
      invariant 1 <= c <= n - 1 && diff == MaxReal(was, RowChange(n, g, r, c))
      invariant forall k :: 1 <= k < c ==> w[r, k] == Average(n, g, r, k)
      invariant forall q, k :: 0 <= q < n && 0 <= k < n && (q != r || !Inner(n, k)) ==> w[q, k] == old(w[q, k])
    {
      w[r, c] := (u[r - 1, c] + u[r + 1, c] + u[r, c - 1] + u[r, c + 1]) / 4.0;
      if Abs(w[r, c] - u[r, c]) > diff {
        diff := Abs(w[r, c] - u[r, c]);
      }
      c := c + 1;
    }
  }

  /** The double loop over rows lo..hi-1: the averages in w, the largest change returned. */
  method Sweep(n: nat, u: array2<real>, w: array2<real>, lo: nat, hi: nat) returns (diff: real)
    requires u.Length0 == u.Length1 == w.Length0 == w.Length1 == n && u != w && 1 <= lo <= hi <= n - 1
    modifies w
    ensures diff == Change(n, GridOf(u), lo, hi)
    ensures forall r, c :: lo <= r < hi && Inner(n, c) ==> w[r, c] == Average(n, GridOf(u), r, c)
    ensures forall r, c :: 0 <= r < n && 0 <= c < n && !(lo <= r < hi && Inner(n, c)) ==> w[r, c] == old(w[r, c])
  {
    diff := 0.0;
    ghost var g := GridOf(u);
    var r := lo;
    while r < hi
      invariant lo <= r <= hi && diff == Change(n, g, lo, r)
      invariant forall q, c :: 0 <= q < n && 0 <= c < n ==>
                  w[q, c] == if lo <= q < r && Inner(n, c) then Average(n, g, q, c) else old(w[q, c])
    {
      diff := SweepRow(n, u, w, r, diff);
      assert GridOf(u) == g;
      r := r + 1;
    }
  }

  /** Copies the inner cells of rows lo..hi-1 back. */
  method CopyRows(n: nat, u: array2<real>, w: array2<real>, lo: nat, hi: nat)
    requires u.Length0 == u.Length1 == w.Length0 == w.Length1 == n && u != w && 1 <= lo <= hi <= n - 1
    modifies u
    ensures forall r, c :: 0 <= r < n && 0 <= c < n ==>
              u[r, c] == if lo <= r < hi && Inner(n, c) then w[r, c] else old(u[r, c])
  {
    var r := lo;
    while r < hi
      invariant lo <= r <= hi
      invariant forall q, c :: 0 <= q < n && 0 <= c < n ==>
                  u[q, c] == if lo <= q < r && Inner(n, c) then w[q, c] else old(u[q, c])
    {
      var c := 1;
      while c < n - 1
        invariant c >= 1
        invariant forall q, k :: 0 <= q < n && 0 <= k < n ==>
                    u[q, k] == if (lo <= q < r && Inner(n, k)) || (q == r && 1 <= k < c && k < n - 1) then w[q, k]
                               else old(u[q, k])
      {
        u[r, c] := w[r, c];
        c := c + 1;
      }
      r := r + 1;
    }
  }

  /** Copying back a full sweep is one step of the grid. */
  method Advance(n: nat, u: array2<real>, w: array2<real>)
    requires n >= 2 && u.Length0 == u.Length1 == w.Length0 == w.Length1 == n && u != w
    requires forall r, c :: Inner(n, r) && Inner(n, c) ==> w[r, c] == Average(n, GridOf(u), r, c)
    modifies u
    ensures GridOf(u) == Next(n, old(GridOf(u)))
  {
    ghost var g := GridOf(u);
    CopyRows(n, u, w, 1, n - 1);
    SameGrid(n, GridOf(u), Next(n, g));
  }

  /** The test that ends the program in its k-th iteration, which starts from g. */
  predicate Converged(n: nat, g: Grid, e: real, l: int, k: nat)
    requires Square(n, g) && n >= 2
  {
    Change(n, g, 1, n - 1) <= e || k > l
  }

  /** The same for the grid that k - 1 steps make of g, k from 1. */
  predicate Stops(n: nat, g: Grid, e: real, l: int, k: nat)
    requires Square(n, g) && n >= 2 && k >= 1
  {
    Converged(n, Iterate(n, g, k - 1), e, l, k)
  }

  predicate NeverStopped(n: nat, g: Grid, e: real, l: int, count: nat)
    requires Square(n, g) && n >= 2
  {
    forall j :: 1 <= j <= count ==> !Stops(n, g, e, l, j)
  }

  /** The grid of the first iteration whose test succeeds, and its number. */
  ghost predicate SerialResult(n: nat, g0: Grid, e: real, l: int, count: nat, out: Grid)
    requires n >= 2 && Square(n, g0)
  {
    count >= 1 && Stops(n, g0, e, l, count) && NeverStopped(n, g0, e, l, count - 1) && out == Iterate(n, g0, count - 1)
  }

  lemma SerialUnique(n: nat, g0: Grid, e: real, l: int, c1: nat, out1: Grid, c2: nat, out2: Grid)
    requires n >= 2 && Square(n, g0) && SerialResult(n, g0, e, l, c1, out1) && SerialResult(n, g0, e, l, c2, out2)
    ensures c1 == c2 && out1 == out2
  {
  }

  /** What the program's loop makes of g when it enters its k-th iteration with it. */
  function SerialOut(n: nat, g: Grid, e: real, l: int, k: nat): (r: (nat, Grid))
    requires n >= 2 && Square(n, g)
    decreases l - k + 1
  {
    if Converged(n, g, e, l, k) then (k, g) else SerialOut(n, Next(n, g), e, l, k + 1)
  }

  lemma OneMoreStep(n: nat, g0: Grid, e: real, l: int, k: nat, g: Grid)
    requires n >= 2 && Square(n, g0) && k >= 1 && g == Iterate(n, g0, k - 1) && NeverStopped(n, g0, e, l, k - 1)
    ensures Stops(n, g0, e, l, k) == Converged(n, g, e, l, k) && Next(n, g) == Iterate(n, g0, k)
    ensures !Converged(n, g, e, l, k) ==> NeverStopped(n, g0, e, l, k)
  {
  }

  lemma {:induction false} SerialOutRight(n: nat, g0: Grid, e: real, l: int, k: nat, g: Grid)
    requires n >= 2 && Square(n, g0) && k >= 1 && g == Iterate(n, g0, k - 1) && NeverStopped(n, g0, e, l, k - 1)
    ensures SerialResult(n, g0, e, l, SerialOut(n, g, e, l, k).0, SerialOut(n, g, e, l, k).1)
    decreases l - k + 1
  {
    OneMoreStep(n, g0, e, l, k, g);
    if !Converged(n, g, e, l, k) {
      SerialOutRight(n, g0, e, l, k + 1, Next(n, g));
    }
  }

  /** One iteration of the serial program: a sweep, the test, and the copy unless it succeeds. */
  method Iteration(n: nat, u: array2<real>, w: array2<real>, e: real, l: int, k: nat) returns (stop: bool)
    requires n >= 2 && u.Length0 == u.Length1 == w.Length0 == w.Length1 == n && u != w
    modifies u, w
    ensures stop == Converged(n, old(GridOf(u)), e, l, k)
    ensures GridOf(u) == if stop then old(GridOf(u)) else Next(n, old(GridOf(u)))
  {
    var diff := Sweep(n, u, w, 1, n - 1);
    stop := diff <= e || k > l;
    if !stop {
      Advance(n, u, w);
    }
  }

  /** The serial program leaves the grid of the first iteration whose test succeeds. */
  method Serial(n: nat, u: array2<real>, e: real, l: int) returns (count: nat)
    requires n >= 2 && u.Length0 == u.Length1 == n
    modifies u
    ensures SerialResult(n, old(GridOf(u)), e, l, count, GridOf(u))
  {
    ghost var g0 := GridOf(u);
    SerialOutRight(n, g0, e, l, 1, g0);
    var w := new real[n, n];
    var stop := false;
    count := 0;
    while !stop
      invariant SerialOut(n, g0, e, l, 1) == if stop then (count, GridOf(u))
                  else SerialOut(n, GridOf(u), e, l, count + 1)
      decreases !stop, l - count
    {
      stop := Iteration(n, u, w, e, l, count + 1);
      count := count + 1;
    }
  }
}
