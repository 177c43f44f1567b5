/** The parallel program as a step system: children with a band of rows each, pipes between
    neighbours and to the coordinator, interleaved one message at a time. */
module JacobiSystem {
  import opened JacobiGrid
  import opened JacobiSplit

  /** The input: grid size, band boundaries, initial grid, tolerance, iteration limit. */
  datatype Problem = Problem(n: nat, cuts: seq<nat>, g0: Grid, e: real, l: int)

  ghost predicate GoodProblem(pb: Problem) {
    pb.n >= 2 && GoodCuts(pb.n, pb.cuts) && Square(pb.n, pb.g0)
  }

  function Kids(pb: Problem): nat
    requires |pb.cuts| > 0
  {
    |pb.cuts| - 1
  }

  /** A value of a neighbour's edge row; dir is 1 when it comes from below, -1 from above. */
  datatype Edge = Edge(dir: int, col: nat, val: real)

  datatype Cell = Cell(row: nat, col: nat, val: real)

  datatype Stage =
    | SendUp | SendDown          // edge rows to the neighbours
    | FromBelow | FromAbove      // edge rows from the neighbours
    | Update                     // compute, send the difference
    | Await                      // read continue or stop
    | Return(row: nat, col: nat) // send the band to the coordinator
    | Exited

  /** A child: completed iterations, where it is in the current one, its copy of the grid. */
  datatype Child = Child(iter: nat, stage: Stage, t: nat, u: Grid, w: Grid)

  datatype Coord =
    | Reading(it: nat, next: nat, diff: real)
    | Ordering(it: nat, next: nat, stop: bool)
    | Gathering(it: nat, got: nat)

  datatype Sys = Sys(kids: seq<Child>, coord: Coord, out: Grid,
                     up: seq<seq<Edge>>, down: seq<seq<Edge>>,
                     diffs: seq<seq<real>>, orders: seq<seq<bool>>, cells: seq<Cell>)

  /** First and last-plus-one inner row of child i. */
  function Lo(pb: Problem, i: nat): nat
    requires i < |pb.cuts|
  {
    if pb.cuts[i] > 1 then pb.cuts[i] else 1
  }

  function Hi(pb: Problem, i: nat): nat
    requires i + 1 < |pb.cuts| && pb.n > 0
  {
    if pb.cuts[i + 1] < pb.n - 1 then pb.cuts[i + 1] else pb.n - 1
  }

  ghost predicate Shape(pb: Problem, s: Sys) {
    && GoodProblem(pb)
    && |s.kids| == |s.up| == |s.down| == |s.diffs| == |s.orders| == Kids(pb)
    && Square(pb.n, s.out)
    && forall i :: 0 <= i < Kids(pb) ==> Square(pb.n, s.kids[i].u) && Square(pb.n, s.kids[i].w) && s.kids[i].t >= 1
  }

  ghost function Start(pb: Problem): Sys
    requires |pb.cuts| > 0
  {
    var p := Kids(pb);
    Sys(seq(p, _ => Child(0, SendUp, 1, pb.g0, pb.g0)), Reading(1, 0, 0.0), pb.g0,
        seq(p, _ => []), seq(p, _ => []), seq(p, _ => []), seq(p, _ => []), [])
  }

  function SetCell(n: nat, g: Grid, r: nat, c: nat, x: real): (g': Grid)
    requires Square(n, g) && r < n && c < n
    ensures Square(n, g')
  {
    g[r := g[r][c := x]]
  }

  /** Where child i stores an edge value. */
  function GhostRow(pb: Problem, i: nat, m: Edge): int
    requires i + 1 < |pb.cuts|
  {
    if m.dir == 1 then pb.cuts[i + 1] as int else pb.cuts[i] as int - 1
  }

  function Stored(pb: Problem, i: nat, u: Grid, m: Edge): (u': Grid)
    requires i + 1 < |pb.cuts| && Square(pb.n, u)
    ensures Square(pb.n, u')
  {
    var r := GhostRow(pb, i, m);
    if 0 <= r < pb.n && m.col < pb.n then SetCell(pb.n, u, r, m.col, m.val) else u
  }

  /** The new values of a band, computed from the child's own copy. */
  function Swept(pb: Problem, i: nat, kid: Child): (w: Grid)
    requires i + 1 < |pb.cuts| && Square(pb.n, kid.u) && Square(pb.n, kid.w)
    ensures Square(pb.n, w)
  {
    seq(pb.n, r requires 0 <= r < pb.n => seq(pb.n, c requires 0 <= c < pb.n =>
      if Lo(pb, i) <= r < Hi(pb, i) && Inner(pb.n, r) && Inner(pb.n, c) then Average(pb.n, kid.u, r, c)
        else kid.w[r][c]))
  }

  function Copied(pb: Problem, i: nat, kid: Child): (u: Grid)
    requires i + 1 < |pb.cuts| && Square(pb.n, kid.u) && Square(pb.n, kid.w)
    ensures Square(pb.n, u)
  {
    seq(pb.n, r requires 0 <= r < pb.n => seq(pb.n, c requires 0 <= c < pb.n =>
      if Lo(pb, i) <= r < Hi(pb, i) && Inner(pb.n, c) then kid.w[r][c] else kid.u[r][c]))
  }

  datatype Step = Kid(i: nat) | Boss

  ghost predicate Enabled(pb: Problem, s: Sys, st: Step)
    requires Shape(pb, s)
  {
    match st
    case Kid(i) =>
      && i < Kids(pb)
      && (match s.kids[i].stage
          case FromBelow => pb.cuts[i + 1] != pb.n && s.kids[i].t < pb.n - 1 ==> i + 1 < Kids(pb) && s.up[i + 1] != []
          case FromAbove => pb.cuts[i] != 0 && s.kids[i].t < pb.n - 1 ==> 0 < i && s.down[i - 1] != []
          case Await => s.orders[i] != []
          case Exited => false
          case _ => true)
    case Boss =>
      match s.coord
      case Reading(_, next, _) => next < Kids(pb) ==> s.diffs[next] != []
      case Ordering(_, _, _) => true
      case Gathering(_, got) => got < (pb.n - 2) * (pb.n - 2) && s.cells != []
  }

  ghost function WithKid(s: Sys, i: nat, kid: Child): Sys
    requires i < |s.kids|
  {
    Sys(s.kids[i := kid], s.coord, s.out, s.up, s.down, s.diffs, s.orders, s.cells)
  }

  /** The sweep of the band; the difference goes to the coordinator. */
  ghost function UpdateStep(pb: Problem, s: Sys, i: nat): Sys
    requires Shape(pb, s) && i < Kids(pb)
  {
    CutsBound(pb.n, pb.cuts, i);
    var k := s.kids[i];
    Sys(s.kids[i := Child(k.iter, Await, 1, k.u, Swept(pb, i, k))], s.coord, s.out, s.up, s.down,
        s.diffs[i := s.diffs[i] + [Change(pb.n, k.u, Lo(pb, i), Hi(pb, i))]], s.orders, s.cells)
  }

  /** The order: stop, or take over the new values and go on. */
  ghost function AwaitStep(pb: Problem, s: Sys, i: nat): Sys
    requires Shape(pb, s) && i < Kids(pb) && s.orders[i] != []
  {
    var k := s.kids[i];
    Sys(s.kids[i := if s.orders[i][0] then Child(k.iter, Return(Lo(pb, i), 1), 1, k.u, k.w)
                    else Child(k.iter + 1, SendUp, 1, Copied(pb, i, k), k.w)],
        s.coord, s.out, s.up, s.down, s.diffs, s.orders[i := s.orders[i][1..]], s.cells)
  }

  /** The band, cell by cell, to the coordinator's mailbox. */
  ghost function ReturnStep(pb: Problem, s: Sys, i: nat): Sys
    requires Shape(pb, s) && i < Kids(pb) && s.kids[i].stage.Return?
  {
    CutsBound(pb.n, pb.cuts, i);
    var k := s.kids[i];
    var (row, col) := (k.stage.row, k.stage.col);
    if row >= Hi(pb, i) then WithKid(s, i, Child(k.iter, Exited, 1, k.u, k.w))
    else if col >= pb.n - 1 then WithKid(s, i, Child(k.iter, Return(row + 1, 1), 1, k.u, k.w))
    else Sys(s.kids[i := Child(k.iter, Return(row, col + 1), 1, k.u, k.w)], s.coord, s.out, s.up, s.down, s.diffs,
             s.orders, s.cells + [Cell(row, col, k.u[row][col])])
  }

  ghost function KidStep(pb: Problem, s: Sys, i: nat): Sys
    requires Shape(pb, s) && Enabled(pb, s, Kid(i))
  {
    CutsBound(pb.n, pb.cuts, i);
    var k := s.kids[i];
    match k.stage
    case SendUp =>
      if pb.cuts[i] != 0 && k.t < pb.n - 1 then
        Sys(s.kids[i := Child(k.iter, SendUp, k.t + 1, k.u, k.w)], s.coord, s.out,
            s.up[i := s.up[i] + [Edge(1, k.t, k.u[pb.cuts[i]][k.t])]], s.down, s.diffs, s.orders, s.cells)
      else WithKid(s, i, Child(k.iter, SendDown, 1, k.u, k.w))
    case SendDown =>
      if pb.cuts[i + 1] != pb.n && k.t < pb.n - 1 then
        Sys(s.kids[i := Child(k.iter, SendDown, k.t + 1, k.u, k.w)], s.coord, s.out, s.up,
            s.down[i := s.down[i] + [Edge(-1, k.t, k.u[pb.cuts[i + 1] - 1][k.t])]], s.diffs, s.orders, s.cells)
      else WithKid(s, i, Child(k.iter, FromBelow, 1, k.u, k.w))
    case FromBelow =>
      if pb.cuts[i + 1] != pb.n && k.t < pb.n - 1 then
        Sys(s.kids[i := Child(k.iter, FromBelow, k.t + 1, Stored(pb, i, k.u, s.up[i + 1][0]), k.w)], s.coord, s.out,
            s.up[i + 1 := s.up[i + 1][1..]], s.down, s.diffs, s.orders, s.cells)
      else WithKid(s, i, Child(k.iter, FromAbove, 1, k.u, k.w))
    case FromAbove =>
      if pb.cuts[i] != 0 && k.t < pb.n - 1 then
        Sys(s.kids[i := Child(k.iter, FromAbove, k.t + 1, Stored(pb, i, k.u, s.down[i - 1][0]), k.w)], s.coord, s.out,
            s.up, s.down[i - 1 := s.down[i - 1][1..]], s.diffs, s.orders, s.cells)
      else WithKid(s, i, Child(k.iter, Update, 1, k.u, k.w))
    case Update => UpdateStep(pb, s, i)
    case Await => AwaitStep(pb, s, i)
    case Return(_, _) => ReturnStep(pb, s, i)
    case Exited => s
  }

  ghost function WithCoord(s: Sys, c: Coord): Sys {
    Sys(s.kids, c, s.out, s.up, s.down, s.diffs, s.orders, s.cells)
  }

  ghost function BossStep(pb: Problem, s: Sys): Sys
    requires Shape(pb, s) && Enabled(pb, s, Boss)
  {
    match s.coord
    case Reading(it, next, diff) =>
      if next < Kids(pb) then
        Sys(s.kids, Reading(it, next + 1, if s.diffs[next][0] > diff then s.diffs[next][0] else diff), s.out, s.up,
            s.down, s.diffs[next := s.diffs[next][1..]], s.orders, s.cells)
      else WithCoord(s, Ordering(it, 0, diff <= pb.e || it > pb.l))
    case Ordering(it, next, stop) =>
      if next < Kids(pb) then
        Sys(s.kids, Ordering(it, next + 1, stop), s.out, s.up, s.down, s.diffs,
            s.orders[next := s.orders[next] + [stop]], s.cells)
      else if stop then WithCoord(s, Gathering(it, 0))
      else WithCoord(s, Reading(it + 1, 0, 0.0))
    case Gathering(it, got) =>
      var c := s.cells[0];
      Sys(s.kids, Gathering(it, got + 1),
          if c.row < pb.n && c.col < pb.n then SetCell(pb.n, s.out, c.row, c.col, c.val) else s.out,
          s.up, s.down, s.diffs, s.orders, s.cells[1..])
  }

  ghost function After(pb: Problem, s: Sys, st: Step): Sys
    requires Shape(pb, s) && Enabled(pb, s, st)
  {
    match st
    case Kid(i) => KidStep(pb, s, i)
    case Boss => BossStep(pb, s)
  }

  ghost predicate Runs(pb: Problem, s: Sys, run: seq<Step>, t: Sys)
    decreases |run|
  {
    if run == [] then s == t
    else Shape(pb, s) && Enabled(pb, s, run[0]) && Runs(pb, After(pb, s, run[0]), run[1..], t)
  }
}
