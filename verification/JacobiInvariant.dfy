/** What holds in every state that the parallel program reaches. */
module JacobiInvariant {
  import opened JacobiGrid
  import opened JacobiSystem

  /** The serial grid after k iterations. */
  ghost function G(pb: Problem, k: nat): (g: Grid)
    requires GoodProblem(pb)
    ensures Square(pb.n, g)
  {
    Iterate(pb.n, pb.g0, k)
  }

  /** The serial program stops in the iteration that starts from grid k. */
  ghost predicate StopsAt(pb: Problem, k: nat)
    requires GoodProblem(pb)
  {
    Stops(pb.n, pb.g0, pb.e, pb.l, k + 1)
  }

  function Rank(st: Stage): nat {
    match st
    case SendUp => 0
    case SendDown => 1
    case FromBelow => 2
    case FromAbove => 3
    case Update => 4
    case Await => 5
    case _ => 6
  }

  /** The next column of message loop m (0 to 3, in the order of the stages). */
  function Col(n: nat, k: Child, m: nat): int {
    if Rank(k.stage) < m then 1 else if Rank(k.stage) == m then k.t else n - 1
  }

  /** The cells of child i that hold the serial grid of its iteration: the border columns, its
      own rows, and what it has received of the rows next to them. */
  predicate Known(pb: Problem, i: nat, k: Child, r: int, c: int)
    requires i + 1 < |pb.cuts|
  {
    || c == 0 || c == pb.n - 1
    || pb.cuts[i] <= r < pb.cuts[i + 1]
    || (r == pb.cuts[i + 1] && c < Col(pb.n, k, 2))
    || (r + 1 == pb.cuts[i] && c < Col(pb.n, k, 3))
  }

  ghost predicate Holds(pb: Problem, i: nat, k: Child)
    requires GoodProblem(pb) && i < Kids(pb) && Square(pb.n, k.u)
  {
    forall r, c {:trigger Known(pb, i, k, r, c)} :: 0 <= r < pb.n && 0 <= c < pb.n && Known(pb, i, k, r, c) ==>
      k.u[r][c] == G(pb, k.iter)[r][c]
  }

  /** The new values of the band. */
  ghost predicate Computed(pb: Problem, i: nat, k: Child)
    requires GoodProblem(pb) && i < Kids(pb) && Square(pb.n, k.w)
  {
    forall r, c :: Lo(pb, i) <= r < Hi(pb, i) && Inner(pb.n, c) ==> k.w[r][c] == Average(pb.n, G(pb, k.iter), r, c)
  }

  ghost predicate KidOk(pb: Problem, i: nat, k: Child)
    requires GoodProblem(pb) && i < Kids(pb)
  {
    && Square(pb.n, k.u) && Square(pb.n, k.w) && 1 <= k.t <= pb.n - 1
    && Holds(pb, i, k)
    && (k.stage.Await? ==> Computed(pb, i, k))
    && (k.stage.Return? ==> Lo(pb, i) <= k.stage.row <= Hi(pb, i) && 1 <= k.stage.col <= pb.n - 1)
    && (Rank(k.stage) == 6 ==> StopsAt(pb, k.iter))
  }

  /** Columns lo..hi-1 of a row of the k-th grid, as messages. */
  ghost function Slice(pb: Problem, dir: int, row: nat, k: nat, lo: int, hi: int): seq<Edge>
    requires GoodProblem(pb) && row < pb.n
  {
    if 1 <= lo <= hi <= pb.n - 1
    then seq(hi - lo, j requires 0 <= j < hi - lo => Edge(dir, lo + j, G(pb, k)[row][lo + j]))
    else []
  }

  /** A pipe holds what the writer (iteration kw, column wt) has sent of the row and the reader
      (iteration kr, column rt) has not read; neither is more than one iteration ahead. */
  ghost predicate PipeOk(pb: Problem, dir: int, row: nat, q: seq<Edge>, kw: nat, wt: int, kr: nat, rt: int)
    requires GoodProblem(pb) && row < pb.n
  {
    || (kw == kr && rt <= wt && q == Slice(pb, dir, row, kw, rt, wt))
    || (kw == kr + 1 && rt == pb.n - 1 && q == Slice(pb, dir, row, kw, 1, wt))
    || (kr == kw + 1 && rt == 1 && wt == pb.n - 1 && q == [])
  }

  /** The pipe from child i up to child i - 1. */
  ghost predicate UpOk(pb: Problem, i: nat, q: seq<Edge>, w: Child, r: Child)
    requires GoodProblem(pb) && 0 < i < Kids(pb)
  {
    && pb.cuts[i] < pb.n
    && PipeOk(pb, 1, pb.cuts[i], q, w.iter, Col(pb.n, w, 0), r.iter, Col(pb.n, r, 2))
  }

  /** The pipe from child i down to child i + 1. */
  ghost predicate DownOk(pb: Problem, i: nat, q: seq<Edge>, w: Child, r: Child)
    requires GoodProblem(pb) && i + 1 < Kids(pb)
  {
    && 0 < pb.cuts[i + 1] <= pb.n
    && PipeOk(pb, -1, pb.cuts[i + 1] - 1, q, w.iter, Col(pb.n, w, 1), r.iter, Col(pb.n, r, 3))
  }

  // Differences sent and read, orders received and given, counted over the whole run.

  function DiffsSent(k: Child): nat { k.iter + if Rank(k.stage) >= 5 then 1 else 0 }

  function DiffsRead(c: Coord, i: nat): int {
    if c.Reading? && i >= c.next then c.it - 1 else c.it
  }

  function OrdersTaken(k: Child): nat { k.iter + if Rank(k.stage) == 6 then 1 else 0 }

  function OrdersGiven(c: Coord, i: nat): int {
    if c.Reading? || (c.Ordering? && i >= c.next) then c.it - 1 else c.it
  }

  /** The largest change in the band of child i. */
  ghost function BandChange(pb: Problem, i: nat, k: nat): real
    requires GoodProblem(pb) && i < Kids(pb)
  {
    Change(pb.n, G(pb, k), Lo(pb, i), Hi(pb, i))
  }

  ghost predicate BarrierOk(pb: Problem, i: nat, k: Child, c: Coord, diffs: seq<real>, orders: seq<bool>)
    requires GoodProblem(pb) && i < Kids(pb)
  {
    && c.it >= 1
    && (diffs == [] ==> DiffsSent(k) == DiffsRead(c, i))
    && (diffs != [] ==> DiffsSent(k) == DiffsRead(c, i) + 1 && diffs == [BandChange(pb, i, DiffsSent(k) - 1)])
    && (orders == [] ==> OrdersTaken(k) == OrdersGiven(c, i))
    && (orders != [] ==> OrdersGiven(c, i) == OrdersTaken(k) + 1 && orders == [StopsAt(pb, OrdersTaken(k))])
  }

  ghost predicate CoordOk(pb: Problem, c: Coord)
    requires GoodProblem(pb)
  {
    && c.it >= 1
    && NeverStopped(pb.n, pb.g0, pb.e, pb.l, c.it - 1)
    && match c
       case Reading(it, next, diff) => next <= Kids(pb) && 1 <= Edge1(pb, next) <= pb.n - 1
                                         && diff == Change(pb.n, G(pb, it - 1), 1, Edge1(pb, next))
       case Ordering(it, next, stop) => next <= Kids(pb) && stop == StopsAt(pb, it - 1)
       case Gathering(it, got) => StopsAt(pb, it - 1)
  }

  /** Where the bands of the first next children end, within the inner rows. */
  function Edge1(pb: Problem, next: nat): int
    requires next < |pb.cuts|
  {
    if pb.cuts[next] < 1 then 1 else if pb.cuts[next] < pb.n - 1 then pb.cuts[next] else pb.n - 1
  }

  /** Child k has sent the cell back. */
  predicate Gone(k: Child, x: int, y: int) {
    match k.stage
    case Return(row, col) => x < row || (x == row && y < col)
    case Exited => true
    case _ => false
  }

  /** No cell of the band of child i that it has yet to send is on its way or stored. */
  ghost predicate Unsent(pb: Problem, i: nat, k: Child, cells: seq<Cell>, seen: set<(nat, nat)>)
    requires GoodProblem(pb) && i < Kids(pb)
  {
    forall x: nat, y: nat :: Lo(pb, i) <= x < Hi(pb, i) && !Gone(k, x, y) ==>
      (x, y) !in seen && forall a :: 0 <= a < |cells| ==> !(cells[a].row == x && cells[a].col == y)
  }

  ghost predicate CellOk(pb: Problem, k: nat, c: Cell)
    requires GoodProblem(pb)
  {
    Inner(pb.n, c.row) && Inner(pb.n, c.col) && c.val == G(pb, k)[c.row][c.col]
  }

  /** The cells on their way: distinct, right, not yet stored. */
  ghost predicate MailOk(pb: Problem, k: nat, cells: seq<Cell>, seen: set<(nat, nat)>)
    requires GoodProblem(pb)
  {
    && (forall a :: 0 <= a < |cells| ==> CellOk(pb, k, cells[a]) && (cells[a].row, cells[a].col) !in seen)
    && (forall a, b :: 0 <= a < b < |cells| ==> cells[a].row != cells[b].row || cells[a].col != cells[b].col)
    && (cells != [] ==> StopsAt(pb, k))
  }

  /** A cell of the coordinator's grid that will not change any more. */
  predicate Settled(n: nat, seen: set<(nat, nat)>, x: nat, y: nat) {
    x < n && y < n && ((x, y) in seen || !Inner(n, x) || !Inner(n, y))
  }

  ghost predicate Right(pb: Problem, k: nat, out: Grid, x: nat, y: nat)
    requires GoodProblem(pb) && Square(pb.n, out) && x < pb.n && y < pb.n
  {
    out[x][y] == G(pb, k)[x][y]
  }

  /** The coordinator's grid: the cells stored so far are the serial ones. */
  ghost predicate OutOk(pb: Problem, c: Coord, out: Grid, seen: set<(nat, nat)>)
    requires GoodProblem(pb) && c.it >= 1
  {
    && Square(pb.n, out)
    && |seen| == (if c.Gathering? then c.got else 0)
    && (forall x: nat, y: nat :: (x, y) in seen ==> Inner(pb.n, x) && Inner(pb.n, y))
    && (forall x: nat, y: nat :: Settled(pb.n, seen, x, y) ==> Right(pb, c.it - 1, out, x, y))
  }

  ghost predicate Sized(pb: Problem, s: Sys) {
    GoodProblem(pb) && |s.kids| == |s.up| == |s.down| == |s.diffs| == |s.orders| == Kids(pb)
  }

  ghost predicate AllKids(pb: Problem, s: Sys)
    requires Sized(pb, s)
  {
    forall i {:trigger KidOk(pb, i, s.kids[i])} :: 0 <= i < Kids(pb) ==> KidOk(pb, i, s.kids[i])
  }

  ghost predicate AllUp(pb: Problem, s: Sys)
    requires Sized(pb, s)
  {
    forall i {:trigger s.up[i]} :: 0 < i < Kids(pb) ==> UpOk(pb, i, s.up[i], s.kids[i], s.kids[i - 1])
  }

  ghost predicate AllDown(pb: Problem, s: Sys)
    requires Sized(pb, s)
  {
    forall i {:trigger s.down[i]} :: 0 <= i < Kids(pb) - 1 ==> DownOk(pb, i, s.down[i], s.kids[i], s.kids[i + 1])
  }

  ghost predicate AllBarrier(pb: Problem, s: Sys)
    requires Sized(pb, s)
  {
    forall i {:trigger BarrierOk(pb, i, s.kids[i], s.coord, s.diffs[i], s.orders[i])} :: 0 <= i < Kids(pb) ==>
      BarrierOk(pb, i, s.kids[i], s.coord, s.diffs[i], s.orders[i])
  }

  ghost predicate AllUnsent(pb: Problem, s: Sys, seen: set<(nat, nat)>)
    requires Sized(pb, s)
  {
    forall i {:trigger Unsent(pb, i, s.kids[i], s.cells, seen)} :: 0 <= i < Kids(pb) ==>
      Unsent(pb, i, s.kids[i], s.cells, seen)
  }

  /** The invariant; seen is the set of cells that the coordinator has stored. */
  ghost predicate Inv(pb: Problem, s: Sys, seen: set<(nat, nat)>) {
    && Sized(pb, s)
    && CoordOk(pb, s.coord)
    && AllKids(pb, s)
    && AllUp(pb, s)
    && AllDown(pb, s)
    && AllBarrier(pb, s)
    && AllUnsent(pb, s, seen)
    && MailOk(pb, s.coord.it - 1, s.cells, seen)
    && OutOk(pb, s.coord, s.out, seen)
  }
}
