/** The doubly linked ring of buffers around its head. */
module BioRing {

  /** The k-th node of the ring: the head, then the buffers in list order. */
  function Node(head: nat, order: seq<nat>, k: nat): nat
    requires k <= |order|
  {
    if k == 0 then head else order[k - 1]
  }

  function After(order: seq<nat>, k: nat): nat
    requires k <= |order|
  {
    if k == |order| then 0 else k + 1
  }

  /** Some of the buffers below head, each once. */
  predicate Distinct(head: nat, order: seq<nat>) {
    && (forall i :: 0 <= i < |order| ==> order[i] < head)
    && (forall i, j :: 0 <= i < j < |order| ==> order[i] != order[j])
  }

  predicate LinkOk(head: nat, order: seq<nat>, next: seq<nat>, prev: seq<nat>, k: nat)
    requires k <= |order|
  {
    var a, b := Node(head, order, k), Node(head, order, After(order, k));
    a < |next| && b < |prev| && next[a] == b && prev[b] == a
  }

  /** next visits the head and the buffers in list order, prev in the opposite order. */
  predicate Ring(head: nat, order: seq<nat>, next: seq<nat>, prev: seq<nat>) {
    && Distinct(head, order) && |next| == |prev| == head + 1
    && forall k :: 0 <= k <= |order| ==> LinkOk(head, order, next, prev, k)
  }

  lemma NodesDistinct(head: nat, order: seq<nat>, i: nat, j: nat)
    requires Distinct(head, order) && i <= |order| && j <= |order| && i != j
    ensures Node(head, order, i) != Node(head, order, j)
  {
  }

  function Without(order: seq<nat>, k: nat): seq<nat>
    requires k < |order|
  {
    order[..k] + order[k + 1..]
  }

  /** Taking the k-th buffer out. */
  lemma UnlinkRing(head: nat, order: seq<nat>, next: seq<nat>, prev: seq<nat>, k: nat)
    requires Ring(head, order, next, prev) && k < |order|
    ensures var b := order[k];
      && b < |next| && next[b] < |prev| && prev[b] < |next|
      && Ring(head, Without(order, k), next[prev[b] := next[b]], prev[next[b] := prev[b]])
  {
    var b, ws := order[k], Without(order, k);
    assert LinkOk(head, order, next, prev, k) && LinkOk(head, order, next, prev, k + 1);
    var next', prev' := next[prev[b] := next[b]], prev[next[b] := prev[b]];
    forall j | 0 <= j <= |ws| ensures LinkOk(head, ws, next', prev', j) {
      var i := if j <= k then j else j + 1;
      assert LinkOk(head, order, next, prev, i);
      if i != k { NodesDistinct(head, order, i, k); }
      if After(order, i) != After(order, k + 1) { NodesDistinct(head, order, After(order, i), After(order, k + 1)); }
    }
  }

  /** Putting a buffer that is not on the ring behind the head. */
  lemma PushRing(head: nat, order: seq<nat>, next: seq<nat>, prev: seq<nat>, b: nat)
    requires Ring(head, order, next, prev) && b < head && b !in order
    ensures next[head] < |prev|
    ensures Ring(head, [b] + order, next[b := next[head]][head := b], prev[b := head][next[head] := b])
  {
    var os := [b] + order;
    assert LinkOk(head, order, next, prev, 0);
    var next', prev' := next[b := next[head]][head := b], prev[b := head][next[head] := b];
    assert next[head] == Node(head, order, After(order, 0));
    forall j | 0 <= j <= |os| ensures LinkOk(head, os, next', prev', j) {
      if j >= 2 {
        assert LinkOk(head, order, next, prev, j - 1);
        NodesDistinct(head, order, j - 1, 0);
        if After(order, j - 1) != After(order, 0) { NodesDistinct(head, order, After(order, j - 1), After(order, 0)); }
      }
    }
  }
}
