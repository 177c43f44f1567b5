/** One process of the lock: its voter half (whom it has granted its vote, who waits),
    its requester half (votes counted, failures noted), and the message handler. */
module MaekawaNode {
  import opened MaekawaQueue

  datatype Msg =
    | Ask(from: nat, stamp: Stamp)   // REQUEST
    | Locked(from: nat)
    | Inquire(from: nat)
    | Release(from: nat)
    | Relinquish(from: nat)
    | Failed(from: nat)

  datatype Node = Node(
    voted: bool,        // processStatus == 1
    cur: Request,       // currentLockingRequest
    queue: Ring,        // wait_queue
    inquired: bool,     // inquireAlreadySent
    count: int,         // lockedCount
    failed: seq<bool>)  // FailedBit

  datatype Out = Silent | Send(dest: int, msg: Msg)

  const NOBODY := Request(-1, Infinite)

  predicate AnyFailed(failed: seq<bool>) {
    exists x :: 0 <= x < |failed| && failed[x]
  }

  /** The scan of the request branch reads slots 0..size-1 whatever head is. */
  predicate SlotPrecedes(q: Ring, req: Request)
    requires q.Valid()
  {
    exists u :: 0 <= u < q.size && Precedes(q.data[u], req)
  }

  /** The slot the relinquish branch removes: -1 when no queued request precedes the current one. */
  function BetterSlot(n: Node): int
    requires n.queue.Valid()
  {
    var (_, k) := Best(n.queue.Contents(), 0, n.cur, -1);
    if 0 <= k then n.queue.Slot(k) else -1
  }

  /** Every branch but one stays inside its arrays; the relinquish branch does so
      only when its removal does. */
  predicate Defined(n: Node, m: Msg)
    requires n.queue.Valid()
  {
    && m.from < |n.failed|
    && (m.Relinquish? ==> RemovalInBounds(n.queue, BetterSlot(n)))
  }

  function Handle(n: Node, me: nat, m: Msg): (Node, Out)
    requires n.queue.Valid() && Defined(n, m)
  {
    match m
    case Ask(r, stamp) => HandleAsk(n, me, Request(r, stamp))
    case Locked(v) => (n.(count := n.count + 1, failed := n.failed[v := false]), Silent)
    case Failed(v) => (n.(failed := n.failed[v := true]), Silent)
    case Inquire(v) =>
      if AnyFailed(n.failed) then (n.(count := n.count - 1), Send(v, Relinquish(me)))
      else (n, Silent)
    case Relinquish(r) => HandleRelinquish(n, me)
    case Release(r) => HandleRelease(n, me)
  }

  function HandleAsk(n: Node, me: nat, req: Request): (Node, Out)
    requires n.queue.Valid()
  {
    if !n.voted then
      (n.(voted := true, cur := req), Send(req.pid, Locked(me)))
    else
      var q := Enqueued(n.queue, req);
      if SlotPrecedes(q, req) || Precedes(n.cur, req) then
        (n.(queue := q), Send(req.pid, Failed(me)))
      else
        (n.(queue := q, inquired := true),
         if n.inquired then Silent else Send(n.cur.pid, Inquire(me)))
  }

  function HandleRelinquish(n: Node, me: nat): (Node, Out)
    requires n.queue.Valid() && RemovalInBounds(n.queue, BetterSlot(n))
  {
    RemovedValid(n.queue, BetterSlot(n));
    var (b, _) := Best(n.queue.Contents(), 0, n.cur, -1);
    (n.(queue := Enqueued(Removed(n.queue, BetterSlot(n)), n.cur), cur := b, voted := true),
     Send(b.pid, Locked(me)))
  }

  function HandleRelease(n: Node, me: nat): (Node, Out)
    requires n.queue.Valid()
  {
    if n.queue.size == 0 then (n.(voted := false, cur := NOBODY), Silent)
    else
      var c := n.queue.Contents();
      var (b, k) := Best(c, 1, c[0], 0);
      BestIsLeast(c, 1, c[0], 0);
      (n.(queue := Removed(n.queue, n.queue.Slot(k)), cur := b, voted := true), Send(b.pid, Locked(me)))
  }

  class Process {
    const me: nat
    const queue: Queue
    const failed: array<bool>
    var voted: bool
    var cur: Request
    var inquired: bool
    var count: int

    ghost predicate Valid()
      reads this, queue, queue.data
    {
      queue.Valid()
    }

    ghost function Value(): Node
      reads this, queue, queue.data, failed
    {
      Node(voted, cur, queue.Value(), inquired, count, failed[..])
    }

    /** A forked child: nothing granted, nothing counted, all global arrays zero. */
    constructor (me: nat, nodes: nat)
      ensures Valid() && this.me == me
      ensures fresh(queue) && fresh(queue.data) && fresh(failed)
      ensures Value() == Node(false, Request(0, At(0.0)),
                              Ring(seq(MAXQ, _ => Request(0, At(0.0))), 0, 0, 0), false, 0,
                              seq(nodes, _ => false))
    {
      this.me := me;
      queue := new Queue();
      failed := new bool[nodes](_ => false);
      voted, cur, inquired, count := false, Request(0, At(0.0)), false, 0;
      new;
      assert failed[..] == seq(nodes, _ => false);
    }

    /** The body of recvHandler; the message it sends, if any, is returned. */
    method RecvHandler(m: Msg) returns (out: Out)
      requires Valid() && Defined(Value(), m)
      modifies this, queue, queue.data, failed
      ensures Valid()
      ensures (Value(), out) == Handle(old(Value()), me, m)
    {
      match m {
        case Ask(r, stamp) => out := OnAsk(Request(r, stamp));
        case Locked(v) =>
          count := count + 1;
          failed[v] := false;
          out := Silent;
        case Failed(v) =>
          failed[v] := true;
          out := Silent;
        case Inquire(v) =>
          var flag := FailureNoted();
          if flag {
            count := count - 1;
            out := Send(v, Relinquish(me));
          } else {
            out := Silent;
          }
        case Relinquish(_) => out := OnRelinquish();
        case Release(_) => out := OnRelease();
      }
    }

    method FailureNoted() returns (flag: bool)
      ensures flag == AnyFailed(failed[..])
    {
      var x := 0;
      while x < failed.Length
        invariant x <= failed.Length
        invariant forall y :: 0 <= y < x ==> !failed[y]
      {
        if failed[x] {
          assert failed[..][x];
          return true;
        }
        x := x + 1;
      }
      return false;
    }

    method OnAsk(req: Request) returns (out: Out)
      requires Valid()
      modifies this`voted, this`cur, this`inquired, queue, queue.data
      ensures Valid()
      ensures (Value(), out) == HandleAsk(old(Value()), me, req)
    {
      if !voted {
        voted, cur := true, req;
        return Send(req.pid, Locked(me));
      }
      var _ := queue.Enqueue(req);
      var failedflag := AnySlotPrecedes(req);
      if Precedes(cur, req) { failedflag := true; }
      if failedflag {
        return Send(req.pid, Failed(me));
      }
      out := if !inquired then Send(cur.pid, Inquire(me)) else Silent;
      inquired := true;
    }

    method AnySlotPrecedes(req: Request) returns (found: bool)
      requires Valid()
      ensures found == SlotPrecedes(queue.Value(), req)
    {
      var u := 0;
      while u < queue.size
        invariant u <= queue.size
        invariant forall w :: 0 <= w < u ==> !Precedes(queue.data[w], req)
      {
        if Precedes(queue.data[u], req) {
          assert Precedes(queue.Value().data[u], req);
          return true;
        }
        u := u + 1;
      }
      return false;
    }

    /** The scan of the live slots, starting at queue position start with a candidate. */
    method ScanQueue(start: nat, best: Request, at: int) returns (r: Request, slot: int)
      requires Valid() && start <= queue.size
      requires -1 <= at < queue.size
      ensures var (b, k) := Best(queue.Value().Contents(), start, best, at);
              -1 <= k < queue.size && r == b && slot == if 0 <= k then queue.Value().Slot(k) else -1
    {
      ghost var q := queue.Value();
      ghost var c := q.Contents();
      r := best;
      slot := if 0 <= at then (queue.head + at) % MAXQ else -1;
      var n := start;
      var ptr := (queue.head + start) % MAXQ;
      ghost var k := at;
      while n != queue.size
        invariant n <= q.size && ptr == q.Slot(n)
        invariant -1 <= k < q.size && slot == if 0 <= k then q.Slot(k) else -1
        invariant Best(c, n, r, k) == Best(c, start, best, at)
      {
        var req := queue.data[ptr];
        assert c[n] == req;
        if Precedes(req, r) {
          r, slot, k := req, ptr, n;
        }
        NextSlot(q, n);
        ptr := (ptr + 1) % MAXQ;
        n := n + 1;
      }
    }

    method OnRelinquish() returns (out: Out)
      requires Valid() && RemovalInBounds(queue.Value(), BetterSlot(Value()))
      modifies this`voted, this`cur, queue, queue.data
      ensures Valid()
      ensures (Value(), out) == HandleRelinquish(old(Value()), me)
    {
      var newRequest, slot := ScanQueue(0, cur, -1);
      queue.RemoveElement(slot);
      var _ := queue.Enqueue(cur);
      cur := newRequest;
      voted := true;
      out := Send(newRequest.pid, Locked(me));
    }

    method OnRelease() returns (out: Out)
      requires Valid()
      modifies this`voted, this`cur, queue, queue.data
      ensures Valid()
      ensures (Value(), out) == HandleRelease(old(Value()), me)
    {
      if queue.size == 0 {
        voted, cur := false, NOBODY;
        return Silent;
      }
      var newR, slot := ScanQueue(1, queue.data[queue.head], 0);
      assert queue.Value().Contents()[0] == queue.data[queue.head];
      BestIsLeast(queue.Value().Contents(), 1, queue.data[queue.head], 0);
      queue.RemoveElement(slot);
      cur := newR;
      voted := true;
      out := Send(newR.pid, Locked(me));
    }
  }
}
