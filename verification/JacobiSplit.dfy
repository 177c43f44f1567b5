/** How the rows are dealt out to the processes. */
module JacobiSplit {

  /** First row of process i. */
  function StartOf(n: nat, p: nat, i: nat): nat
    requires p > 0
  {
    if i + 1 <= n % p then (n / p + 1) * i else n / p * i + n % p
  }

  /** Number of rows of process i. */
  function CountOf(n: nat, p: nat, i: nat): nat
    requires p > 0
  {
    if i + 1 <= n % p then n / p + 1 else n / p
  }

  /** The bands follow one another without gap or overlap, from row 0 to row n, and no
      process is left without a row when there are at least as many rows as processes. */
  lemma Bands(n: nat, p: nat, i: nat)
    requires 0 < p && i < p
    ensures StartOf(n, p, 0) == 0
    ensures StartOf(n, p, i + 1) == StartOf(n, p, i) + CountOf(n, p, i)
    ensures StartOf(n, p, p) == n
    ensures p <= n ==> CountOf(n, p, i) >= 1
  {
    var d, m := n / p, n % p;
    assert n == p * d + m;
    assert d * (i + 1) == d * i + d;
    assert (d + 1) * (i + 1) == (d + 1) * i + d + 1;
    assert (d + 1) * i == d * i + i;
  }

  /** Every process has a row exactly when there are no more processes than rows. */
  lemma NoBandEmpty(n: nat, p: nat)
    requires p > 0
    ensures (forall i :: 0 <= i < p ==> CountOf(n, p, i) >= 1) <==> p <= n
  {
    if p <= n {
      forall i | 0 <= i < p ensures CountOf(n, p, i) >= 1 {
        Bands(n, p, i);
      }
    } else {
      assert CountOf(n, p, p - 1) == 0;
    }
  }

  /** The p + 1 band boundaries. */
  function Cuts(n: nat, p: nat): (cuts: seq<nat>)
    requires p > 0
    ensures |cuts| == p + 1
    ensures forall i :: 0 <= i <= p ==> cuts[i] == StartOf(n, p, i)
  {
    seq(p + 1, i requires 0 <= i <= p => StartOf(n, p, i))
  }

  /** Boundaries of p >= 2 nonempty bands of n rows. */
  predicate GoodCuts(n: nat, cuts: seq<nat>) {
    && |cuts| >= 3 && cuts[0] == 0 && cuts[|cuts| - 1] == n
    && forall i :: 0 <= i < |cuts| - 1 ==> cuts[i] < cuts[i + 1]
  }

  lemma CutsGood(n: nat, p: nat)
    requires 2 <= p <= n
    ensures GoodCuts(n, Cuts(n, p))
  {
    var cuts := Cuts(n, p);
    Bands(n, p, 0);
    forall i | 0 <= i < |cuts| - 1 ensures cuts[i] < cuts[i + 1] {
      Bands(n, p, i);
    }
  }

  lemma {:induction false} CutsAscend(n: nat, cuts: seq<nat>, i: nat, j: nat)
    requires GoodCuts(n, cuts) && i < j < |cuts|
    ensures cuts[i] < cuts[j]
    decreases j
  {
    if i + 1 < j {
      CutsAscend(n, cuts, i, j - 1);
    }
  }

  /** A band lies inside the grid; only the first starts at row 0, only the last ends at row n. */
  lemma CutsBound(n: nat, cuts: seq<nat>, i: nat)
    requires GoodCuts(n, cuts) && i + 1 < |cuts|
    ensures cuts[i] < cuts[i + 1] <= n
    ensures cuts[i] == 0 <==> i == 0
    ensures cuts[i + 1] == n <==> i + 2 == |cuts|
  {
    if i > 0 { CutsAscend(n, cuts, 0, i); }
    if i + 2 < |cuts| { CutsAscend(n, cuts, i + 1, |cuts| - 1); }
  }

  /** Every row is in exactly one band. */
  lemma {:induction false} BandOf(n: nat, cuts: seq<nat>, r: nat, p: nat) returns (i: nat)
    requires GoodCuts(n, cuts) && 0 < p < |cuts| && r < cuts[p]
    ensures i < p && cuts[i] <= r < cuts[i + 1]
    decreases p
  {
    if cuts[p - 1] <= r {
      i := p - 1;
    } else {
      i := BandOf(n, cuts, r, p - 1);
    }
  }

  lemma BandUnique(n: nat, cuts: seq<nat>, r: nat, i: nat, j: nat)
    requires GoodCuts(n, cuts) && i < |cuts| - 1 && j < |cuts| - 1
    requires cuts[i] <= r < cuts[i + 1] && cuts[j] <= r < cuts[j + 1]
    ensures i == j
  {
    if i < j {
      if i + 1 < j { CutsAscend(n, cuts, i + 1, j); }
    } else if j < i {
      if j + 1 < i { CutsAscend(n, cuts, j + 1, i); }
    }
  }
}
