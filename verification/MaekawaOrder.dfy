/** Whom a voter prefers, in time stamps and process numbers, and when a requester gives a
    vote back, in the messages that it has received. */
module MaekawaOrder {
  import opened MaekawaQueue
  import opened MaekawaNode

  /** The request of process p at time x comes first: an earlier time, or the same time and a
      smaller number. An infinite time is later than every other. */
  predicate First(s: Stamp, p: int, t: Stamp, q: int) {
    if s.Infinite? then t.Infinite? && p < q
    else t.Infinite? || s.time < t.time || (s.time == t.time && p < q)
  }

  /** Request r is the earliest of a set of waiting requests: the least time stamp of all,
      and the least process number among those with that stamp. */
  ghost predicate Earliest(r: Request, c: set<Request>) {
    && r in c
    && (r.stamp.Infinite? ==> forall o :: o in c ==> o.stamp.Infinite?)
    && (forall o :: o in c && o.stamp.At? ==> r.stamp.At? && r.stamp.time <= o.stamp.time)
    && (forall o :: o in c && o.stamp == r.stamp ==> r.pid <= o.pid)
  }

  ghost function Elements(c: seq<Request>): set<Request> {
    set r | r in c
  }

  ghost function Waiting(n: Node): set<Request>
    requires n.queue.Valid()
  {
    Elements(n.queue.Contents())
  }

  lemma BestIsEarliest(c: seq<Request>, i: nat, best: Request, at: int, s: set<Request>)
    requires i <= |c|
    requires s == {best} + Elements(c[i..])
    ensures Earliest(Best(c, i, best, at).0, s)
  {
    BestIsLeast(c, i, best, at);
    var (b, k) := Best(c, i, best, at);
    forall o | o in s ensures !Precedes(o, b) {
      if o != best {
        var j :| 0 <= j < |c[i..]| && c[i..][j] == o;
        assert c[i + j] == o;
      }
    }
    if b != best {
      assert c[i..][k - i] == b;
    }
  }

  lemma WaitingSplits(c: seq<Request>)
    requires |c| > 0
    ensures Elements(c) == {c[0]} + Elements(c[1..])
  {
    assert c == [c[0]] + c[1..];
  }

  /** A release: with requests waiting, the vote goes to the earliest of them, who is told; otherwise
      it is free, nobody's at no time. */
  lemma ReleaseToEarliest(n: Node, me: nat, from: nat)
    requires n.queue.Valid() && from < |n.failed|
    ensures var (after, out) := Handle(n, me, Release(from));
            if n.queue.size > 0 then
              Earliest(after.cur, Waiting(n)) && after.voted && out == Send(after.cur.pid, Locked(me))
            else
              after.cur == Request(-1, Infinite) && !after.voted && out == Silent && after.queue == n.queue
  {
    var c := n.queue.Contents();
    if c != [] {
      WaitingSplits(c);
      BestIsEarliest(c, 1, c[0], 0, Waiting(n));
    }
  }

  /** A vote given back: the earliest of the holder and those waiting gets it, and is told. */
  lemma RelinquishToEarliest(n: Node, me: nat, from: nat)
    requires n.queue.Valid() && Defined(n, Relinquish(from))
    ensures var (after, out) := Handle(n, me, Relinquish(from));
            && Earliest(after.cur, Waiting(n) + {n.cur})
            && after.voted
            && out == Send(after.cur.pid, Locked(me))
  {
    var c := n.queue.Contents();
    assert c[0..] == c;
    BestIsEarliest(c, 0, n.cur, -1, Waiting(n) + {n.cur});
  }

  lemma ReleaseSlot(n: Node, me: nat) returns (k: nat)
    requires n.queue.Linear() && n.queue.size > 0
    ensures k < n.queue.size && RemovalInBounds(n.queue, n.queue.head + k)
    ensures var after := HandleRelease(n, me).0;
            after.queue == Removed(n.queue, n.queue.head + k) && after.cur == n.queue.Contents()[k]
  {
    var c := n.queue.Contents();
    BestIsLeast(c, 1, c[0], 0);
    k := Best(c, 1, c[0], 0).1;
    assert n.queue.Slot(k) == n.queue.head + k;
  }

  /** No request is lost or doubled by a release: one place of the unwrapped queue becomes the holder,
      and the others stay, in order. */
  lemma ReleaseTakesOne(n: Node, me: nat) returns (k: nat)
    requires n.queue.Linear() && n.queue.size > 0
    ensures k < n.queue.size && HandleRelease(n, me).0.cur == n.queue.Contents()[k]
    ensures var q := HandleRelease(n, me).0.queue;
            q.Linear() && q.Contents() == n.queue.Contents()[..k] + n.queue.Contents()[k + 1..]
  {
    k := ReleaseSlot(n, me);
    RemovedContents(n.queue, k);
  }

  lemma RelinquishSlot(n: Node, me: nat) returns (k: nat)
    requires n.queue.Linear() && BetterSlot(n) >= 0
    ensures k < n.queue.size && BetterSlot(n) == n.queue.head + k
    ensures RemovalInBounds(n.queue, n.queue.head + k)
    ensures HandleRelinquish(n, me).0.cur == n.queue.Contents()[k]
  {
    var c := n.queue.Contents();
    BestIsLeast(c, 0, n.cur, -1);
    k := Best(c, 0, n.cur, -1).1;
    assert n.queue.Slot(k) == n.queue.head + k;
  }

  /** Nor by a vote given back, when another request comes first and the array has room: that one becomes
      the holder, and the old holder waits at the end. */
  lemma RelinquishSwapsOne(n: Node, me: nat) returns (k: nat)
    requires n.queue.Linear() && n.queue.tail + 1 < MAXQ && BetterSlot(n) >= 0
    ensures k < n.queue.size && HandleRelinquish(n, me).0.cur == n.queue.Contents()[k]
    ensures var q := HandleRelinquish(n, me).0.queue;
            q.Linear() && q.Contents() == n.queue.Contents()[..k] + n.queue.Contents()[k + 1..] + [n.cur]
  {
    k := RelinquishSlot(n, me);
    RemovedContents(n.queue, k);
    EnqueuedContents(Removed(n.queue, n.queue.head + k), n.cur);
  }

  /** The array slots that the request branch scans once the request has been queued. */
  predicate Scanned(q: Ring, u: nat)
    requires q.Valid()
  {
    u < q.size || (u == q.size < MAXQ)
  }

  function SlotAfter(q: Ring, req: Request, u: nat): Request
    requires q.Valid() && u < MAXQ
  {
    if u == q.tail && q.size < MAXQ then req else q.data[u]
  }

  /** A slot scanned for a request comes first. */
  predicate SlotFirst(q: Ring, req: Request)
    requires q.Valid()
  {
    exists u :: 0 <= u < MAXQ && Scanned(q, u)
                && var o := SlotAfter(q, req, u); First(o.stamp, o.pid, req.stamp, req.pid)
  }

  lemma SlotFirstIs(q: Ring, req: Request)
    requires q.Valid()
    ensures SlotPrecedes(Enqueued(q, req), req) == SlotFirst(q, req)
  {
    var e := Enqueued(q, req);
    assert forall u :: 0 <= u < MAXQ ==> e.data[u] == SlotAfter(q, req, u);
    if SlotPrecedes(e, req) {
      var u :| 0 <= u < e.size && Precedes(e.data[u], req);
      assert Scanned(q, u);
    }
  }

  /** The answer to a request. A free vote is given. Otherwise the request is queued, and FAILED goes to
      the requester exactly if the holder, or a slot scanned, comes first; if not, INQUIRE goes to the
      holder, and only once. */
  lemma AskAnswer(n: Node, me: nat, from: nat, stamp: Stamp)
    requires n.queue.Valid() && from < |n.failed|
    ensures var (after, out) := Handle(n, me, Ask(from, stamp));
            if !n.voted then
              after.voted && after.cur == Request(from, stamp) && out == Send(from, Locked(me))
              && after.queue == n.queue && after.inquired == n.inquired
            else
              var first := First(n.cur.stamp, n.cur.pid, stamp, from)
                           || SlotFirst(n.queue, Request(from, stamp));
              && out == (if first then Send(from, Failed(me))
                         else if n.inquired then Silent else Send(n.cur.pid, Inquire(me)))
              && after.inquired == (n.inquired || !first)
              && after.cur == n.cur && after.voted
  {
    SlotFirstIs(n.queue, Request(from, stamp));
  }

  lemma AskQueues(n: Node, me: nat, from: nat, stamp: Stamp)
    requires n.queue.Linear() && n.queue.tail + 1 < MAXQ && from < |n.failed| && n.voted
    ensures Handle(n, me, Ask(from, stamp)).0.queue.Linear()
    ensures Handle(n, me, Ask(from, stamp)).0.queue.Contents()
         == n.queue.Contents() + [Request(from, stamp)]
  {
    EnqueuedContents(n.queue, Request(from, stamp));
  }

  // The scan reads the array from its first slot, but the queue need not start there.

  ghost predicate AnyFirst(c: set<Request>, req: Request) {
    exists o :: o in c && First(o.stamp, o.pid, req.stamp, req.pid)
  }

  lemma EarliestDecides(c: set<Request>, r: Request, req: Request)
    requires Earliest(r, c)
    ensures AnyFirst(c, req) == First(r.stamp, r.pid, req.stamp, req.pid)
  {
  }

  lemma HasEarliest(c: seq<Request>, cur: Request) returns (r: Request)
    ensures Earliest(r, {cur} + Elements(c))
  {
    assert c[0..] == c;
    r := Best(c, 0, cur, -1).0;
    BestIsEarliest(c, 0, cur, -1, {cur} + Elements(c));
  }

  /** The request is refused: FAILED is sent. */
  predicate Refuses(n: Node, me: nat, req: Request)
    requires n.queue.Valid()
  {
    HandleAsk(n, me, req).1 == Send(req.pid, Failed(me))
  }

  /** What the scan is for: to refuse exactly the requests that the holder or a waiting one precedes. */
  ghost predicate RefusesRightly(n: Node, me: nat)
    requires n.queue.Valid()
  {
    forall req :: Refuses(n, me, req) == AnyFirst({n.cur} + Waiting(n), req)
  }

  /** What the scan compares a request with: the holder and the first size + 1 slots. */
  ghost function Compared(n: Node): set<Request>
    requires n.queue.Linear()
  {
    {n.cur} + Elements(n.queue.data[..n.queue.size + 1])
  }

  lemma ScanIsFirst(q: Ring, req: Request)
    requires q.Valid()
    ensures SlotPrecedes(q, req) == AnyFirst(Elements(q.data[..q.size]), req)
  {
    var c := q.data[..q.size];
    if SlotPrecedes(q, req) {
      var u :| 0 <= u < q.size && Precedes(q.data[u], req);
      assert c[u] in Elements(c);
    }
    if AnyFirst(Elements(c), req) {
      var o :| o in Elements(c) && First(o.stamp, o.pid, req.stamp, req.pid);
      var u :| 0 <= u < |c| && c[u] == o;
      assert Precedes(q.data[u], req);
    }
  }

  lemma RefusesIs(n: Node, me: nat, req: Request, s: set<Request>)
    requires n.queue.Valid() && n.voted
    requires var q := Enqueued(n.queue, req);
             s == Elements(q.data[..q.size]) || s + {req} == Elements(q.data[..q.size])
    ensures Refuses(n, me, req) == AnyFirst({n.cur} + s, req)
  {
    ScanIsFirst(Enqueued(n.queue, req), req);
  }

  lemma RefusesCompared(n: Node, me: nat, req: Request)
    requires n.queue.Linear() && n.voted && n.queue.head > 0
    ensures Refuses(n, me, req) == AnyFirst(Compared(n), req)
  {
    var q := Enqueued(n.queue, req);
    assert q.data[..q.size] == n.queue.data[..n.queue.size + 1];
    RefusesIs(n, me, req, Elements(q.data[..q.size]));
  }

  lemma RefusesFromStart(n: Node, me: nat, req: Request)
    requires n.queue.Linear() && n.voted && n.queue.head == 0
    ensures Refuses(n, me, req) == AnyFirst({n.cur} + Waiting(n), req)
  {
    var q := Enqueued(n.queue, req);
    var c := n.queue.Contents();
    LinearContents(n.queue);
    assert q.data[..q.size] == c + [req];
    RefusesIs(n, me, req, Elements(c));
  }

  /** A voter whose vote is out refuses the right requests exactly if its queue starts at the first slot,
      or the earliest request it compares with is also the earliest of the holder and those waiting. */
  lemma RefusesRightlyIff(n: Node, me: nat)
    requires n.queue.Linear() && n.voted
    ensures RefusesRightly(n, me)
       <==> n.queue.head == 0 || exists r :: Earliest(r, Compared(n)) && Earliest(r, {n.cur} + Waiting(n))
  {
    if n.queue.head == 0 {
      forall req ensures Refuses(n, me, req) == AnyFirst({n.cur} + Waiting(n), req) {
        RefusesFromStart(n, me, req);
      }
    } else {
      var r := HasEarliest(n.queue.data[..n.queue.size + 1], n.cur);
      var w := HasEarliest(n.queue.Contents(), n.cur);
      forall req ensures Refuses(n, me, req) == First(r.stamp, r.pid, req.stamp, req.pid)
                 ensures AnyFirst({n.cur} + Waiting(n), req) == First(w.stamp, w.pid, req.stamp, req.pid)
      {
        RefusesCompared(n, me, req);
        EarliestDecides(Compared(n), r, req);
        EarliestDecides({n.cur} + Waiting(n), w, req);
      }
      if r != w {
        assert First(r.stamp, r.pid, w.stamp, w.pid) != First(w.stamp, w.pid, w.stamp, w.pid)
            || First(r.stamp, r.pid, r.stamp, r.pid) != First(w.stamp, w.pid, r.stamp, r.pid);
        assert Refuses(n, me, w) != AnyFirst({n.cur} + Waiting(n), w)
            || Refuses(n, me, r) != AnyFirst({n.cur} + Waiting(n), r);
      }
    }
  }

  /** A stale slot at work: nobody waits, the holder asked at time 5 and the request at time 4, but
      the slot of a request of time 1 that was granted long ago is still scanned. */
  lemma StaleSlotRefuses(me: nat)
    ensures var stale := Request(7, At(1.0));
            var q := Ring(seq(MAXQ, _ => stale), 1, 1, 0);
            var n := Node(true, Request(8, At(5.0)), q, false, 0, []);
            && Refuses(n, me, Request(9, At(4.0)))
            && !AnyFirst({n.cur} + Waiting(n), Request(9, At(4.0)))
  {
    var stale := Request(7, At(1.0));
    var q := Ring(seq(MAXQ, _ => stale), 1, 1, 0);
    var n := Node(true, Request(8, At(5.0)), q, false, 0, []);
    assert Enqueued(q, Request(9, At(4.0))).data[0] == stale;
    assert Precedes(stale, Request(9, At(4.0)));
    assert SlotPrecedes(Enqueued(q, Request(9, At(4.0))), Request(9, At(4.0)));
  }

  // When a requester gives a vote back.

  /** What the last LOCKED or FAILED of voter v said; at first, what was noted before. */
  predicate LastFailed(ms: seq<Msg>, v: nat, before: bool) {
    if ms == [] then before
    else match ms[|ms| - 1]
         case Failed(w) => w == v || LastFailed(ms[..|ms| - 1], v, before)
         case Locked(w) => w != v && LastFailed(ms[..|ms| - 1], v, before)
         case _ => LastFailed(ms[..|ms| - 1], v, before)
  }

  /** The votes received and not given back. */
  function Votes(ms: seq<Msg>, outs: seq<Out>): int
    requires |ms| == |outs|
  {
    if ms == [] then 0
    else
      var i := |ms| - 1;
      Votes(ms[..i], outs[..i])
      + (if ms[i].Locked? then 1 else 0)
      - (if outs[i].Send? && outs[i].msg.Relinquish? then 1 else 0)
  }

  /** A process handles the messages ms in order, sending outs. */
  ghost predicate Handles(ns: seq<Node>, me: nat, ms: seq<Msg>, outs: seq<Out>) {
    && |ns| == |ms| + 1 && |outs| == |ms|
    && forall i :: 0 <= i < |ms| ==> HandlesOne(ns[i], ns[i + 1], me, ms[i], outs[i])
  }

  predicate HandlesOne(n: Node, after: Node, me: nat, m: Msg, out: Out) {
    n.queue.Valid() && Defined(n, m) && (after, out) == Handle(n, me, m)
  }

  lemma {:induction false} FailuresNoted(ns: seq<Node>, me: nat, ms: seq<Msg>, outs: seq<Out>)
    requires Handles(ns, me, ms, outs)
    ensures |ns[|ms|].failed| == |ns[0].failed|
    ensures forall v :: 0 <= v < |ns[0].failed| ==>
                          ns[|ms|].failed[v] == LastFailed(ms, v, ns[0].failed[v])
    ensures ns[|ms|].count == ns[0].count + Votes(ms, outs)
  {
    if ms != [] {
      var i := |ms| - 1;
      assert HandlesOne(ns[i], ns[i + 1], me, ms[i], outs[i]);
      FailuresNoted(ns[..|ms|], me, ms[..i], outs[..i]);
    }
  }

  /** After any messages, an INQUIRE is answered with RELINQUISH exactly if the last word of some voter
      was FAILED; and the votes counted are those received less those given back. */
  lemma InquireAnswer(ns: seq<Node>, me: nat, ms: seq<Msg>, outs: seq<Out>, v: nat)
    requires Handles(ns, me, ms, outs)
    requires var n := ns[|ms|]; n.queue.Valid() && v < |n.failed|
    ensures var refused := exists w :: 0 <= w < |ns[0].failed| && LastFailed(ms, w, ns[0].failed[w]);
            var (after, out) := Handle(ns[|ms|], me, Inquire(v));
            && out == (if refused then Send(v, Relinquish(me)) else Silent)
            && after.count == ns[0].count + Votes(ms, outs) - if refused then 1 else 0
  {
    FailuresNoted(ns, me, ms, outs);
  }
}
