/** What the voter's branches of the handler do to the queue and the vote. */
module MaekawaVoter {
  import opened MaekawaQueue
  import opened MaekawaNode
  import opened MaekawaInvariant

  ghost predicate Stamped(a: Request, stamps: seq<real>) {
    0 <= a.pid < |stamps| && a.stamp == At(stamps[a.pid])
  }

  ghost predicate GoodSeq(c: seq<Request>, stamps: seq<real>) {
    && (forall k :: 0 <= k < |c| ==> Stamped(c[k], stamps))
    && (forall j, k :: 0 <= j < k < |c| ==> c[j].pid != c[k].pid)
  }

  lemma QueueIsGood(q: Ring, stamps: seq<real>)
    requires q.Valid()
    ensures QueueOk(q, stamps) <==> q.Linear() && GoodSeq(q.Contents(), stamps)
  {
    if q.Linear() && GoodSeq(q.Contents(), stamps) {
      forall k | 0 <= k < q.size
        ensures 0 <= q.Contents()[k].pid < |stamps| && q.Contents()[k].stamp == At(stamps[q.Contents()[k].pid])
      {
        assert Stamped(q.Contents()[k], stamps);
      }
    }
  }

  lemma AppendGood(c: seq<Request>, a: Request, stamps: seq<real>)
    requires GoodSeq(c, stamps) && Stamped(a, stamps) && !HasPid(c, a.pid)
    ensures GoodSeq(c + [a], stamps)
    ensures forall r: nat :: HasPid(c + [a], r) <==> HasPid(c, r) || r == a.pid
  {
    forall r: nat ensures HasPid(c + [a], r) <==> HasPid(c, r) || r == a.pid {
      if HasPid(c, r) {
        var k :| 0 <= k < |c| && c[k].pid == r;
        assert (c + [a])[k].pid == r;
      }
      assert (c + [a])[|c|] == a;
    }
  }

  function Without(c: seq<Request>, k: nat): seq<Request>
    requires k < |c|
  {
    c[..k] + c[k + 1..]
  }

  lemma WithoutGood(c: seq<Request>, k: nat, stamps: seq<real>)
    requires GoodSeq(c, stamps) && k < |c|
    ensures GoodSeq(Without(c, k), stamps)
    ensures forall r: nat :: HasPid(Without(c, k), r) <==> HasPid(c, r) && r != c[k].pid
  {
    var d := Without(c, k);
    assert forall j :: 0 <= j < |d| ==> d[j] == if j < k then c[j] else c[j + 1];
    forall r: nat ensures HasPid(d, r) <==> HasPid(c, r) && r != c[k].pid {
      if HasPid(c, r) && r != c[k].pid {
        var j :| 0 <= j < |c| && c[j].pid == r;
        assert d[if j < k then j else j - 1].pid == r;
      }
    }
  }

  /** Two stamped requests of different processes are ordered one way or the other. */
  lemma Ordered(a: Request, b: Request, stamps: seq<real>)
    requires Stamped(a, stamps) && Stamped(b, stamps) && a.pid != b.pid
    ensures Precedes(a, b) || Precedes(b, a)
  {
  }

  lemma PrecedesAppend(c: seq<Request>, a: Request, cur: Request)
    ensures SomePrecedes(c, cur) || Precedes(a, cur) ==> SomePrecedes(c + [a], cur)
  {
    assert (c + [a])[|c|] == a;
    if SomePrecedes(c, cur) {
      var k :| 0 <= k < |c| && Precedes(c[k], cur);
      assert (c + [a])[k] == c[k];
    }
  }

  /** A queued request joins the end of the queue. */
  lemma EnqueueNode(n: Node, a: Request, stamps: seq<real>)
    requires QueueOk(n.queue, stamps) && n.queue.tail + 1 < MAXQ
    requires Stamped(a, stamps) && !HasPid(n.queue.Contents(), a.pid)
    ensures QueueOk(Enqueued(n.queue, a), stamps)
    ensures Enqueued(n.queue, a).tail == n.queue.tail + 1
    ensures forall r: nat :: HasPid(Enqueued(n.queue, a).Contents(), r) <==> HasPid(n.queue.Contents(), r) || r == a.pid
    ensures SomePrecedes(n.queue.Contents(), n.cur) || Precedes(a, n.cur)
            ==> SomePrecedes(Enqueued(n.queue, a).Contents(), n.cur)
  {
    EnqueuedContents(n.queue, a);
    QueueIsGood(n.queue, stamps);
    QueueIsGood(Enqueued(n.queue, a), stamps);
    AppendGood(n.queue.Contents(), a, stamps);
    PrecedesAppend(n.queue.Contents(), a, n.cur);
  }

  /** The voter passes its vote to the queued process b and, if again, requeues the old holder. */
  ghost predicate Regrants(n: Node, n': Node, b: nat, again: bool, stamps: seq<real>) {
    && n.queue.Valid() && QueueOk(n'.queue, stamps)
    && n' == n.(queue := n'.queue, cur := n'.cur, voted := true)
    && n'.queue.tail <= n.queue.tail + (if again then 1 else 0)
    && b < |stamps| && n'.cur == Request(b, At(stamps[b]))
    && HasPid(n.queue.Contents(), b)
    && (forall r: nat :: HasPid(n'.queue.Contents(), r) <==>
          (HasPid(n.queue.Contents(), r) && r != b) || (again && n.cur.pid == r))
  }

  lemma RemoveNode(q: Ring, k: nat, stamps: seq<real>)
    requires QueueOk(q, stamps) && k < q.size
    ensures RemovalInBounds(q, q.Slot(k))
    ensures q.Slot(k) == q.head + k
    ensures QueueOk(Removed(q, q.head + k), stamps)
    ensures Removed(q, q.head + k).tail <= q.tail
    ensures Removed(q, q.head + k).Contents() == Without(q.Contents(), k)
  {
    RemovedContents(q, k);
    QueueIsGood(q, stamps);
    QueueIsGood(Removed(q, q.head + k), stamps);
    WithoutGood(q.Contents(), k, stamps);
  }

  lemma RelinquishNode(n: Node, me: nat, stamps: seq<real>) returns (b: nat)
    requires QueueOk(n.queue, stamps) && n.queue.tail + 1 < MAXQ
    requires Stamped(n.cur, stamps) && !HasPid(n.queue.Contents(), n.cur.pid)
    requires SomePrecedes(n.queue.Contents(), n.cur)
    ensures RemovalInBounds(n.queue, BetterSlot(n))
    ensures Regrants(n, HandleRelinquish(n, me).0, b, true, stamps)
    ensures HandleRelinquish(n, me).1 == Send(b, Locked(me))
  {
    var c := n.queue.Contents();
    BestIsLeast(c, 0, n.cur, -1);
    var (best, k) := Best(c, 0, n.cur, -1);
    RemoveNode(n.queue, k, stamps);
    QueueIsGood(n.queue, stamps);
    assert Stamped(c[k], stamps);
    WithoutGood(c, k, stamps);
    var q := Removed(n.queue, n.queue.head + k);
    EnqueueNode(n.(queue := q), n.cur, stamps);
    b := best.pid;
    assert HasPid(c, b);
  }

  lemma ReleaseNode(n: Node, me: nat, stamps: seq<real>) returns (b: nat)
    requires QueueOk(n.queue, stamps) && n.queue.size > 0
    ensures Regrants(n, HandleRelease(n, me).0, b, false, stamps)
    ensures HandleRelease(n, me).1 == Send(b, Locked(me))
  {
    var c := n.queue.Contents();
    BestIsLeast(c, 1, c[0], 0);
    var (best, k) := Best(c, 1, c[0], 0);
    RemoveNode(n.queue, k, stamps);
    QueueIsGood(n.queue, stamps);
    assert Stamped(c[k], stamps);
    WithoutGood(c, k, stamps);
    b := best.pid;
    assert HasPid(c, b);
  }
}
