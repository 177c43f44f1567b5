/** The voter's request queue: a ring buffer of timestamped lock requests,
    with the removal routine that only handles the unwrapped case. */
module MaekawaQueue {

  const MAXQ: nat := 100

  /** A request's time stamp; an idle voter holds the infinite one. */
  datatype Stamp = At(time: real) | Infinite

  datatype Request = Request(pid: int, stamp: Stamp)

  predicate Earlier(a: Stamp, b: Stamp) {
    match (a, b)
    case (At(x), At(y)) => x < y
    case (At(_), Infinite) => true
    case (Infinite, _) => false
  }

  predicate Precedes(a: Request, b: Request) {
    Earlier(a.stamp, b.stamp) || (a.stamp == b.stamp && a.pid < b.pid)
  }

  /** The value of a queue: all MAXQ slots, live or stale, and the three indices. */
  datatype Ring = Ring(data: seq<Request>, head: nat, tail: nat, size: nat) {
    predicate Valid() {
      |data| == MAXQ && head < MAXQ && tail < MAXQ && size <= MAXQ && (head + size) % MAXQ == tail
    }

    function Slot(k: nat): nat
      requires Valid()
    {
      (head + k) % MAXQ
    }

    /** The queued requests, oldest first. */
    function Contents(): (c: seq<Request>)
      requires Valid()
      ensures |c| == size
      ensures forall k :: 0 <= k < size ==> c[k] == data[Slot(k)]
    {
      seq(size, k requires 0 <= k < size => data[Slot(k)])
    }

    /** No wrap-around: the live slots are data[head..tail]. */
    predicate Linear() {
      Valid() && head + size == tail
    }
  }

  function Enqueued(q: Ring, a: Request): Ring
    requires q.Valid()
  {
    if q.size == MAXQ then q
    else Ring(q.data[q.tail := a], q.head, (q.tail + 1) % MAXQ, q.size + 1)
  }

  /** The array indices that removeElementQueue touches are in bounds. */
  predicate RemovalInBounds(q: Ring, u: int) {
    q.size >= 2 && q.head < q.tail ==> 0 <= u
  }

  function Removed(q: Ring, u: int): Ring
    requires q.Valid() && RemovalInBounds(q, u)
  {
    if q.size == 0 then q
    else if q.size == 1 then
      if u == q.head then q.(head := (q.head + 1) % MAXQ, size := 0) else q
    else if q.head < q.tail then
      q.(data := ShiftedLeft(q.data, u, q.tail), tail := q.tail - 1, size := q.size - 1)
    else q
  }

  /** Slots u..tail-2 take their right neighbour's value. */
  function ShiftedLeft(d: seq<Request>, u: nat, tail: nat): seq<Request>
    requires 0 < tail <= |d|
  {
    if u < tail - 1 then d[..u] + d[u + 1..tail] + d[tail - 1..] else d
  }

  lemma NextSlot(q: Ring, k: nat)
    requires q.Valid()
    ensures (q.Slot(k) + 1) % MAXQ == q.Slot(k + 1)
  {
  }

  lemma LinearContents(q: Ring)
    requires q.Linear()
    ensures q.Contents() == q.data[q.head..q.tail]
  {
  }

  lemma ShiftedSlice(d: seq<Request>, head: nat, u: nat, tail: nat)
    requires head <= u < tail <= |d|
    ensures |ShiftedLeft(d, u, tail)| == |d|
    ensures ShiftedLeft(d, u, tail)[head..tail - 1] == d[head..u] + d[u + 1..tail]
  {
  }

  lemma RemovedValid(q: Ring, u: int)
    requires q.Valid() && RemovalInBounds(q, u)
    ensures Removed(q, u).Valid()
  {
  }

  lemma RemovedLast(q: Ring)
    requires q.Linear() && q.size == 1
    ensures RemovalInBounds(q, q.head) && Removed(q, q.head).Linear() && Removed(q, q.head).Contents() == []
  {
  }

  lemma RemovedOne(q: Ring, k: nat)
    requires q.Linear() && k < q.size && q.size >= 2
    ensures RemovalInBounds(q, q.head + k) && Removed(q, q.head + k).Linear()
    ensures Removed(q, q.head + k).Contents() == q.data[q.head..q.head + k] + q.data[q.head + k + 1..q.tail]
  {
    ShiftedSlice(q.data, q.head, q.head + k, q.tail);
    var r := Removed(q, q.head + k);
    assert r.Linear();
    LinearContents(r);
  }

  /** A removal inside an unwrapped queue deletes exactly that element and keeps the rest in order. */
  lemma RemovedContents(q: Ring, k: nat)
    requires q.Linear() && k < q.size
    ensures RemovalInBounds(q, q.head + k)
    ensures Removed(q, q.head + k).Linear()
    ensures Removed(q, q.head + k).Contents() == q.Contents()[..k] + q.Contents()[k + 1..]
  {
    LinearContents(q);
    if q.size == 1 {
      RemovedLast(q);
    } else {
      RemovedOne(q, k);
      assert q.data[q.head..q.tail][..k] == q.data[q.head..q.head + k];
      assert q.data[q.head..q.tail][k + 1..] == q.data[q.head + k + 1..q.tail];
    }
  }

  lemma EnqueuedContents(q: Ring, a: Request)
    requires q.Linear() && q.tail + 1 < MAXQ
    ensures Enqueued(q, a).Linear()
    ensures Enqueued(q, a).Contents() == q.Contents() + [a]
  {
    LinearContents(q);
    LinearContents(Enqueued(q, a));
  }

  /** The handler's linear scans: keep the best request seen from position i on. */
  function Best(c: seq<Request>, i: nat, best: Request, at: int): (r: (Request, int))
    requires i <= |c|
    decreases |c| - i
  {
    if i == |c| then (best, at)
    else if Precedes(c[i], best) then Best(c, i + 1, c[i], i)
    else Best(c, i + 1, best, at)
  }

  /** Precedes is a strict total order on distinct requests, so the scan finds a minimum:
      either nothing precedes the starting candidate, or the answer is a queued request
      that precedes it, and nothing queued precedes the answer. */
  lemma {:induction false} BestIsLeast(c: seq<Request>, i: nat, best: Request, at: int)
    requires i <= |c|
    ensures var (b, k) := Best(c, i, best, at);
            && (forall j :: i <= j < |c| ==> !Precedes(c[j], b))
            && ((b == best && k == at) || (i <= k < |c| && b == c[k] && Precedes(b, best)))
    decreases |c| - i
  {
    if i < |c| {
      if Precedes(c[i], best) {
        BestIsLeast(c, i + 1, c[i], i);
      } else {
        BestIsLeast(c, i + 1, best, at);
        var (b, k) := Best(c, i + 1, best, at);
      }
    }
  }

  lemma ShiftedIs(was: seq<Request>, now: seq<Request>, u: nat, tail: nat)
    requires 0 < tail <= |was| == |now|
    requires forall j :: u <= j < tail - 1 ==> now[j] == was[j + 1]
    requires forall j :: 0 <= j < |was| && !(u <= j < tail - 1) ==> now[j] == was[j]
    ensures now == ShiftedLeft(was, u, tail)
  {
  }

  method ShiftLeft(d: array<Request>, u: nat, tail: nat)
    requires 0 < tail <= d.Length
    modifies d
    ensures d[..] == ShiftedLeft(old(d[..]), u, tail)
  {
    var i := u;
    while i < tail - 1
      invariant if u < tail - 1 then u <= i <= tail - 1 else i == u
      invariant forall j :: u <= j < i ==> d[j] == old(d[j + 1])
      invariant forall j :: 0 <= j < d.Length && !(u <= j < i) ==> d[j] == old(d[j])
    {
      d[i] := d[i + 1];
      i := i + 1;
    }
    ShiftedIs(old(d[..]), d[..], u, tail);
  }

  class Queue {
    var size: nat
    const data: array<Request>
    var head: nat
    var tail: nat

    ghost function Value(): Ring
      reads this, data
    {
      Ring(data[..], head, tail, size)
    }

    ghost predicate Valid()
      reads this, data
    {
      Value().Valid()
    }

    constructor ()
      ensures Valid() && fresh(data)
      ensures Value() == Ring(seq(MAXQ, _ => Request(0, At(0.0))), 0, 0, 0)
    {
      size, head, tail := 0, 0, 0;
      data := new Request[MAXQ](_ => Request(0, At(0.0)));
      new;
      assert data[..] == seq(MAXQ, _ => Request(0, At(0.0)));
    }

    method Enqueue(a: Request) returns (status: int)
      requires Valid()
      modifies this, data
      ensures Valid()
      ensures Value() == Enqueued(old(Value()), a)
      ensures status == if old(size) == MAXQ then -1 else 0
    {
      if size == MAXQ { return -1; }
      data[tail] := a;
      tail := (tail + 1) % MAXQ;
      size := size + 1;
      return 0;
    }

    method RemoveElement(u: int)
      requires Valid() && RemovalInBounds(Value(), u)
      modifies this, data
      ensures Valid()
      ensures Value() == Removed(old(Value()), u)
    {
      RemovedValid(Value(), u);
      if size == 0 { return; }
      if size == 1 {
        if u == head {
          head := (head + 1) % MAXQ;
          size := size - 1;
        }
        return;
      }
      if head < tail {
        ShiftLeft(data, u, tail);
        tail := tail - 1;
        size := size - 1;
      }
    }
  }
}
