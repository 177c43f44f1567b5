/** Quorums on an n x n grid of processes: a process's row and column. */
module MaekawaQuorum {
  import opened Basics

  predicate InQuorum(n: nat, x: nat, y: nat)
    requires n > 0
  {
    y / n == x / n || y % n == x % n
  }

  /** The numbers below hi that satisfy p, in ascending order. */
  function Below(p: nat -> bool, hi: nat): (s: seq<nat>)
    ensures forall y: nat :: y in s <==> y < hi && p(y)
    ensures forall i, j :: 0 <= i < j < |s| ==> s[i] < s[j]
  {
    if hi == 0 then []
    else
      var rest := Below(p, hi - 1);
      assert forall k :: 0 <= k < |rest| ==> rest[k] in rest;
      if p(hi - 1) then rest + [hi - 1] else rest
  }

  function Members(n: nat, x: nat, hi: nat): (s: seq<nat>)
    requires n > 0
    ensures forall y: nat :: y in s <==> y < hi && InQuorum(n, x, y)
    ensures forall i, j :: 0 <= i < j < |s| ==> s[i] < s[j]
  {
    Below((y: nat) => InQuorum(n, x, y), hi)
  }

  function Quorum(n: nat, x: nat): seq<nat>
    requires n > 0
  {
    Members(n, x, n * n)
  }

  lemma MembersStep(n: nat, x: nat, hi: nat)
    requires n > 0
    ensures Members(n, x, 0) == []
    ensures Members(n, x, hi + 1) == if InQuorum(n, x, hi) then Members(n, x, hi) + [hi] else Members(n, x, hi)
  {
    var p := (y: nat) => InQuorum(n, x, y);
    assert Below(p, hi + 1) == if p(hi) then Below(p, hi) + [hi] else Below(p, hi);
  }

  lemma GridPoint(n: nat, row: nat, col: nat)
    requires col < n
    ensures (row * n + col) / n == row && (row * n + col) % n == col
  {
    var q, m := (row * n + col) / n, (row * n + col) % n;
    assert n * q + m == row * n + col;
    assert n * q - n * row == n * (q - row);
    if q > row {
      Multiple(n, q - row);
    } else if q < row {
      Multiple(n, row - q);
    }
  }

  lemma BelowSquare(n: nat, row: nat, col: nat)
    requires row < n && col < n
    ensures row * n + col < n * n
  {
    assert n * n == row * n + (n - row) * n;
    Multiple(n, n - row);
  }

  lemma GridRow(n: nat, x: nat)
    requires n > 0 && x < n * n
    ensures x / n < n && x % n < n && x == (x / n) * n + x % n
  {
  }

  lemma {:induction false} CountInRow(n: nat, x: nat, row: nat, base: nat, cols: nat)
    requires n > 0 && cols <= n && base == row * n
    ensures |Members(n, x, base + cols)| == |Members(n, x, base)| +
            if row == x / n then cols else if cols > x % n then 1 else 0
  {
    if cols > 0 {
      CountInRow(n, x, row, base, cols - 1);
      MembersStep(n, x, base + (cols - 1));
      GridPoint(n, row, cols - 1);
      var y := base + (cols - 1);
      assert InQuorum(n, x, y) <==> row == x / n || cols - 1 == x % n;
    }
  }

  lemma NextRow(n: nat, rows: nat) returns (below: nat)
    requires rows > 0
    ensures below == (rows - 1) * n && below + n == rows * n
  {
    below := (rows - 1) * n;
  }

  lemma {:induction false} CountRows(n: nat, x: nat, rows: nat, base: nat)
    requires n > 0 && base == rows * n
    ensures |Members(n, x, base)| == if rows <= x / n then rows else rows - 1 + n
  {
    if rows == 0 {
      MembersStep(n, x, 0);
    } else {
      var below := NextRow(n, rows);
      CountRows(n, x, rows - 1, below);
      CountInRow(n, x, rows - 1, below, n);
    }
  }

  /** A quorum has exactly 2n - 1 members, its owner among them. */
  lemma QuorumSize(n: nat, x: nat)
    requires n > 0 && x < n * n
    ensures |Quorum(n, x)| == 2 * n - 1
    ensures x in Quorum(n, x)
  {
    CountRows(n, x, n, n * n);
    GridRow(n, x);
  }

  /** Any two quorums share a process. */
  lemma QuorumsMeet(n: nat, x: nat, y: nat) returns (v: nat)
    requires n > 0 && x < n * n && y < n * n
    ensures v < n * n && v in Quorum(n, x) && v in Quorum(n, y)
  {
    RowBelow(n, x);
    v := MeetingPoint(n, x / n, y % n);
    Crossing(n, x, y, v);
  }

  lemma RowBelow(n: nat, x: nat)
    requires n > 0 && x < n * n
    ensures x / n < n
  {
    GridRow(n, x);
  }

  lemma MeetingPoint(n: nat, row: nat, col: nat) returns (v: nat)
    requires row < n && col < n
    ensures v < n * n && v / n == row && v % n == col
  {
    v := row * n + col;
    GridPoint(n, row, col);
    BelowSquare(n, row, col);
  }

  lemma Crossing(n: nat, x: nat, y: nat, v: nat)
    requires n > 0 && v < n * n && v / n == x / n && v % n == y % n
    ensures v in Quorum(n, x) && v in Quorum(n, y)
  {
    assert InQuorum(n, x, v) && InQuorum(n, y, v);
  }

  lemma QuorumSymmetric(n: nat, x: nat, y: nat)
    requires n > 0 && x < n * n && y < n * n
    ensures y in Quorum(n, x) <==> x in Quorum(n, y)
  {
  }

  lemma {:induction false} MembersGrow(n: nat, x: nat, lo: nat, hi: nat)
    requires n > 0 && lo <= hi
    ensures Members(n, x, lo) <= Members(n, x, hi)
    decreases hi - lo
  {
    if lo < hi {
      MembersGrow(n, x, lo, hi - 1);
      MembersStep(n, x, hi - 1);
    }
  }

  /** The table-filling loop of main for one process: it stops early once K = 2n - 1 members
      are stored, and still stores the whole quorum. */
  method BuildQuorum(n: nat, x: nat) returns (s: seq<nat>)
    requires n > 0 && x < n * n
    ensures |s| == 2 * n - 1
    ensures s == Quorum(n, x)
  {
    var p, k := n * n, 2 * n - 1;
    s := [];
    var y := 0;
    QuorumSize(n, x);
    MembersStep(n, x, 0);
    while y < p && |s| != k
      invariant 0 <= y <= p
      invariant s == Members(n, x, y)
    {
      MembersStep(n, x, y);
      if y / n == x / n || y % n == x % n {
        s := s + [y];
      }
      y := y + 1;
    }
    MembersGrow(n, x, y, p);
  }
}
