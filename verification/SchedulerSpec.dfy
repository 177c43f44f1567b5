/** The two cyclic searches of the scheduler and what they find. */
module SchedulerSpec {
  import opened Basics

  /** How far index i lies behind index start, going up and around. */
  function Distance(n: nat, start: nat, i: nat): nat
    requires start < n && i < n
  {
    if start <= i then i - start else i + n - start
  }

  /** The next index, around. */
  function Following(n: nat, i: nat): nat
    requires i < n
  {
    if i + 1 == n then 0 else i + 1
  }

  /** The same as the program computes it. */
  function Successor(n: nat, i: nat): (j: nat)
    requires i < n
    ensures j == Following(n, i)
  {
    (i + 1) % n
  }

  /** The first of the next k places from start on that is marked. */
  function Search(ok: seq<bool>, start: nat, k: nat): (r: Option<nat>)
    requires start < |ok|
    ensures r.Some? ==> r.value < |ok| && ok[r.value]
    decreases k
  {
    if k == 0 then None else if ok[start] then Some(start) else Search(ok, Following(|ok|, start), k - 1)
  }

  /** The first marked place from start on, all the way around. */
  function Around(ok: seq<bool>, start: nat): (r: Option<nat>)
    requires start < |ok|
    ensures r.Some? ==> r.value < |ok| && ok[r.value]
  {
    Search(ok, start, |ok|)
  }

  lemma StepDistance(n: nat, start: nat, i: nat)
    requires start < n && i < n
    ensures i != start ==> Distance(n, start, i) == Distance(n, Following(n, start), i) + 1
  {
  }

  /** The search finds the nearest marked place, and fails only when there is none. */
  lemma {:induction false} SearchNearest(ok: seq<bool>, start: nat, k: nat)
    requires start < |ok|
    ensures var r := Search(ok, start, k);
      && (r.Some? ==> r.value < |ok| && ok[r.value] && Distance(|ok|, start, r.value) < k)
      && (forall i {:trigger ok[i]} :: 0 <= i < |ok| && ok[i] && Distance(|ok|, start, i) < k ==>
            r.Some? && Distance(|ok|, start, r.value) <= Distance(|ok|, start, i))
    decreases k
  {
    if k > 0 && !ok[start] {
      var next := Following(|ok|, start);
      StepDistance(|ok|, start, start);
      SearchNearest(ok, next, k - 1);
      forall i | 0 <= i < |ok| && i != start ensures Distance(|ok|, start, i) == Distance(|ok|, next, i) + 1 {
        StepDistance(|ok|, start, i);
      }
    }
  }

  /** Index j comes before index i on the way up and around from start. */
  predicate Earlier(start: nat, j: nat, i: nat) {
    if start <= i then start <= j < i else start <= j || j < i
  }

  /** The search in full: it fails exactly if no place is marked, and finds place i exactly if i is
      marked and no place before it is. */
  lemma AroundIs(ok: seq<bool>, start: nat, i: nat)
    requires start < |ok| && i < |ok|
    ensures Around(ok, start) == None <==> forall j :: 0 <= j < |ok| ==> !ok[j]
    ensures Around(ok, start) == Some(i)
       <==> ok[i] && forall j: nat :: j < |ok| && Earlier(start, j, i) ==> !ok[j]
  {
    var r := Around(ok, start);
    SearchNearest(ok, start, |ok|);
    forall j: nat | j < |ok| ensures Distance(|ok|, start, j) < |ok|
                             ensures Earlier(start, j, i) <==> Distance(|ok|, start, j) < Distance(|ok|, start, i)
    {
    }
    assert r == None ==> forall j :: 0 <= j < |ok| ==> !ok[j];
  }

  /** Distances behind a place that lies on the way. */
  lemma DistanceSplits(n: nat, start: nat, mid: nat, i: nat)
    requires start < n && mid < n && i < n && Distance(n, start, mid) <= Distance(n, start, i)
    ensures Distance(n, mid, i) == Distance(n, start, i) - Distance(n, start, mid)
  {
  }
}
