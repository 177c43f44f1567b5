/** Message buffers: a free chain through them, queues of buffer numbers, and the buffer that an
    operation holds between taking it from one and adding it to the other. */
module MessageState {
  import opened Basics

  const BUFFERS: nat := 5001
  const QUEUES: nat := 64
  const WORDS: nat := 16 // word 0 is the chain's link, the rest the message

  /** A ring of buffer numbers. */
  datatype Queue = Queue(size: nat, data: seq<int>, head: nat, tail: nat)

  /** What the operation that holds a queue's lock has in hand: nothing, a buffer to fill with w and
      enqueue, or a dequeued buffer to read and free. */
  datatype Hand = Empty | Sending(b: nat, w: seq<int>) | Reading(b: nat)

  /** Where a buffer is: at a place of the free chain, the i-th message ever sent to queue q, or in
      the hand of the operation on queue q. */
  datatype Place = InChain(i: nat) | Queued(q: nat, i: nat) | InHand(q: nat)

  /** chain is the free chain, its head last; for every queue, log is the buffers of all messages
      ever sent to it, sent their contents, done how many were dequeued, and got what the receivers
      have read. */
  datatype Mail = Mail(buffers: seq<seq<int>>, queues: seq<Queue>, chain: seq<nat>, hands: seq<Hand>,
                       log: seq<seq<nat>>, sent: seq<seq<seq<int>>>, done: seq<nat>, got: seq<seq<seq<int>>>,
                       places: seq<Place>)

  predicate Shape(m: Mail) {
    && |m.buffers| == |m.places| == BUFFERS
    && |m.queues| == |m.hands| == |m.log| == |m.sent| == |m.done| == |m.got| == QUEUES
  }

  function Link(chain: seq<nat>, i: nat): int
    requires i <= |chain|
  {
    if i == 0 then -1 else chain[i - 1]
  }

  predicate ChainOk(m: Mail, i: nat)
    requires Shape(m) && i < |m.chain|
  {
    var b := m.chain[i];
    b < BUFFERS && m.places[b] == InChain(i) && |m.buffers[b]| == WORDS && m.buffers[b][0] == Link(m.chain, i)
  }

  predicate QueueOk(m: Mail, q: nat)
    requires Shape(m) && q < QUEUES
  {
    var (qu, n, d) := (m.queues[q], |m.log[q]|, m.done[q]);
    d <= n && qu.size == n - d <= BUFFERS && qu.head == d % BUFFERS && qu.tail == n % BUFFERS && |qu.data| == BUFFERS
      && |m.sent[q]| == n
  }

  predicate EntryOk(m: Mail, q: nat, i: nat)
    requires Shape(m) && q < QUEUES && i < |m.log[q]| && |m.sent[q]| == |m.log[q]| && |m.queues[q].data| == BUFFERS
  {
    var b := m.log[q][i];
    && b < BUFFERS && m.places[b] == Queued(q, i) && m.queues[q].data[i % BUFFERS] == b
    && |m.buffers[b]| == WORDS && m.buffers[b][1..] == m.sent[q][i]
  }

  /** The hand holds a buffer of its own; what is being read is the message after those read. */
  predicate HandOk(m: Mail, q: nat)
    requires Shape(m) && q < QUEUES && m.done[q] <= |m.sent[q]|
  {
    && m.got[q] <= m.sent[q]
    && match m.hands[q]
       case Empty => |m.got[q]| == m.done[q]
       case Sending(b, w) =>
         |m.got[q]| == m.done[q] && b < BUFFERS && m.places[b] == InHand(q) && |m.buffers[b]| == WORDS
           && |w| == WORDS - 1
       case Reading(b) =>
         && |m.got[q]| + 1 == m.done[q] && b < BUFFERS && m.places[b] == InHand(q) && |m.buffers[b]| == WORDS
         && m.buffers[b][1..] == m.sent[q][|m.got[q]|]
  }

  predicate PlaceOk(m: Mail, b: nat)
    requires Shape(m) && b < BUFFERS
  {
    match m.places[b]
    case InChain(i) => i < |m.chain| && m.chain[i] == b
    case Queued(q, i) => q < QUEUES && m.done[q] <= i < |m.log[q]| && m.log[q][i] == b
    case InHand(q) => q < QUEUES && !m.hands[q].Empty? && m.hands[q].b == b
  }

  /** The free chain, the queues and the hands partition the buffers, every queued buffer holds the
      message that was sent, and what was read of each queue is what was sent first. */
  predicate Good(m: Mail) {
    && Shape(m)
    && (forall i {:trigger ChainOk(m, i)} :: 0 <= i < |m.chain| ==> ChainOk(m, i))
    && (forall q {:trigger QueueOk(m, q)} :: 0 <= q < QUEUES ==> QueueOk(m, q))
    && (forall q, i {:trigger EntryOk(m, q, i)} :: 0 <= q < QUEUES && QueueOk(m, q) && m.done[q] <= i < |m.log[q]| ==>
          EntryOk(m, q, i))
    && (forall q {:trigger HandOk(m, q)} :: 0 <= q < QUEUES && QueueOk(m, q) ==> HandOk(m, q))
    && (forall b {:trigger PlaceOk(m, b)} :: 0 <= b < BUFFERS ==> PlaceOk(m, b))
  }

  // The start: all buffers on the chain, all queues and hands empty.

  function BootBuffer(b: nat): (w: seq<int>)
    ensures |w| == WORDS && w[0] == if b + 1 < BUFFERS then b + 1 else -1
  {
    seq(WORDS, j => if j == 0 then (if b + 1 < BUFFERS then b + 1 else -1) else 0)
  }

  function EmptyQueue(): (q: Queue)
    ensures q.size == q.head == q.tail == 0 && |q.data| == BUFFERS
  {
    Queue(0, seq(BUFFERS, _ => 0), 0, 0)
  }

  ghost predicate Booted(m: Mail) {
    && Shape(m) && |m.chain| == BUFFERS
    && (forall i :: 0 <= i < BUFFERS ==> m.chain[i] == BUFFERS - 1 - i)
    && (forall b :: 0 <= b < BUFFERS ==> m.places[b] == InChain(BUFFERS - 1 - b))
    && (forall b :: 0 <= b < BUFFERS ==> m.buffers[b] == BootBuffer(b))
    && (forall q :: 0 <= q < QUEUES ==>
          m.queues[q] == EmptyQueue() && m.log[q] == [] && m.sent[q] == [] && m.done[q] == 0)
    && (forall q :: 0 <= q < QUEUES ==> m.hands[q] == Empty && m.got[q] == [])
  }

  ghost function Boot(): (m: Mail)
    ensures Booted(m)
  {
    Mail(seq(BUFFERS, b requires 0 <= b => BootBuffer(b)), seq(QUEUES, _ => EmptyQueue()),
         seq(BUFFERS, i requires 0 <= i < BUFFERS => BUFFERS - 1 - i), seq(QUEUES, _ => Empty),
         seq(QUEUES, _ => []), seq(QUEUES, _ => []), seq(QUEUES, _ => 0), seq(QUEUES, _ => []),
         seq(BUFFERS, b requires 0 <= b < BUFFERS => InChain(BUFFERS - 1 - b)))
  }

  lemma BootGood(m: Mail)
    requires Booted(m)
    ensures Good(m)
  {
    forall i | 0 <= i < |m.chain| ensures ChainOk(m, i) {}
    forall q | 0 <= q < QUEUES ensures QueueOk(m, q) && HandOk(m, q) {}
    forall b | 0 <= b < BUFFERS ensures PlaceOk(m, b) {}
  }

  ghost function GoodBoot(): (m: Mail)
    ensures Good(m) && Booted(m)
  {
    BootGood(Boot());
    Boot()
  }

  type Sound = m: Mail | Good(m) ghost witness GoodBoot()

  // The steps.

  /** The buffer at the head of the chain. */
  function Head(m: Mail): nat
    requires m.chain != []
  {
    m.chain[|m.chain| - 1]
  }

  function Enqueued(qu: Queue, a: int): Queue
    requires qu.tail < |qu.data|
  {
    Queue(qu.size + 1, qu.data[qu.tail := a], qu.head, (qu.tail + 1) % BUFFERS)
  }

  function Dequeued(qu: Queue): Queue
    requires qu.size > 0
  {
    Queue(qu.size - 1, qu.data, (qu.head + 1) % BUFFERS, qu.tail)
  }

  /** An operation on queue q: the two halves of a send, and the two of a receive. Only the holder of
      the queue's lock touches the queue, so operations on one queue do not overlap; those on
      different queues interleave between the halves. */
  datatype Step =
    | Take(q: nat, w: seq<int>) // send_message up to GetMessageBuffer
    | Put(q: nat)               // enqueue and copy in
    | Get(q: nat)               // receive_msg up to dequeue
    | Give(q: nat)              // copy out and FreeMessageBuffer

  predicate Enabled(m: Mail, st: Step) {
    && Shape(m) && st.q < QUEUES
    && match st
       case Take(q, w) => m.hands[q].Empty? && m.queues[q].size < BUFFERS && m.chain != [] && |w| == WORDS - 1
       case Put(q) => m.hands[q].Sending?
       case Get(q) => m.hands[q].Empty? && m.queues[q].size > 0
       case Give(q) => m.hands[q].Reading?
  }

  /** The step stays inside its arrays. */
  predicate Defined(m: Mail, st: Step)
    requires Enabled(m, st)
  {
    var q := st.q;
    match st
    case Take(_, _) => Head(m) < BUFFERS && |m.buffers[Head(m)]| == WORDS
    case Put(_) => m.hands[q].b < BUFFERS && |m.buffers[m.hands[q].b]| == WORDS && m.queues[q].tail < |m.queues[q].data|
    case Get(_) => m.queues[q].head < |m.queues[q].data| && m.done[q] < |m.log[q]| && m.log[q][m.done[q]] < BUFFERS
    case Give(_) => m.hands[q].b < BUFFERS && |m.buffers[m.hands[q].b]| == WORDS
  }

  function After(m: Mail, st: Step): Mail
    requires Enabled(m, st) && Defined(m, st)
  {
    var q := st.q;
    match st
    case Take(_, w) =>
      m.(chain := m.chain[..|m.chain| - 1], hands := m.hands[q := Sending(Head(m), w)],
         places := m.places[Head(m) := InHand(q)])
    case Put(_) =>
      var (b, w) := (m.hands[q].b, m.hands[q].w);
      m.(buffers := m.buffers[b := [m.buffers[b][0]] + w], queues := m.queues[q := Enqueued(m.queues[q], b)],
         hands := m.hands[q := Empty], log := m.log[q := m.log[q] + [b]], sent := m.sent[q := m.sent[q] + [w]],
         places := m.places[b := Queued(q, |m.log[q]|)])
    case Get(_) =>
      var b := m.log[q][m.done[q]];
      m.(queues := m.queues[q := Dequeued(m.queues[q])], hands := m.hands[q := Reading(b)],
         done := m.done[q := m.done[q] + 1], places := m.places[b := InHand(q)])
    case Give(_) =>
      var b := m.hands[q].b;
      m.(buffers := m.buffers[b := m.buffers[b][0 := Link(m.chain, |m.chain|)]], chain := m.chain + [b],
         hands := m.hands[q := Empty], got := m.got[q := m.got[q] + [m.buffers[b][1..]]],
         places := m.places[b := InChain(|m.chain|)])
  }

  // No queue is full while a buffer is elsewhere.

  lemma {:induction false} Pigeons(s: seq<nat>, n: nat)
    requires forall i :: 0 <= i < |s| ==> s[i] < n
    requires forall i, j :: 0 <= i < j < |s| ==> s[i] != s[j]
    ensures |s| <= n
    decreases n
  {
    if s != [] {
      assert s[0] < n;
      if n - 1 in s {
        var k :| 0 <= k < |s| && s[k] == n - 1;
        Pigeons(s[..k] + s[k + 1..], n - 1);
      } else {
        Pigeons(s, n - 1);
      }
    }
  }

  lemma NotFull(m: Sound, q: nat, b: nat)
    requires q < QUEUES && b < BUFFERS && !m.places[b].Queued?
    ensures m.queues[q].size < BUFFERS
  {
    assert QueueOk(m, q);
    var rest := m.log[q][m.done[q]..];
    var s := rest + [b];
    forall i | 0 <= i < |rest| ensures rest[i] < BUFFERS && m.places[rest[i]] == Queued(q, m.done[q] + i) {
      assert EntryOk(m, q, m.done[q] + i);
    }
    Pigeons(s, BUFFERS);
  }

  lemma RoundUp(n: nat)
    ensures (n % BUFFERS + 1) % BUFFERS == (n + 1) % BUFFERS
  {
  }

  /** In a good state every enabled step stays inside its arrays, and no enqueue finds its queue full. */
  lemma StepDefined(m: Sound, st: Step)
    requires Enabled(m, st)
    ensures Defined(m, st)
    ensures st.Put? ==> m.queues[st.q].size < BUFFERS
    ensures st.Get? ==> m.queues[st.q].data[m.queues[st.q].head] == m.log[st.q][m.done[st.q]]
  {
    var q := st.q;
    assert QueueOk(m, q) && HandOk(m, q);
    if st.Take? {
      assert ChainOk(m, |m.chain| - 1);
    } else if st.Put? {
      NotFull(m, q, m.hands[q].b);
    } else if st.Get? {
      assert EntryOk(m, q, m.done[q]);
    }
  }

  /** The head of the chain is -1 only at its end. */
  lemma ChainEnds(m: Sound)
    ensures Link(m.chain, |m.chain|) == -1 <==> m.chain == []
  {
  }

  // What the steps keep.

  lemma TakeKeeps(m: Sound, st: Step)
    requires Enabled(m, st) && Defined(m, st) && st.Take?
    ensures Good(After(m, st))
  {
    var m' := After(m, st);
    assert ChainOk(m, |m.chain| - 1);
    forall i | 0 <= i < |m'.chain| ensures ChainOk(m', i) { assert ChainOk(m, i); }
    forall x | 0 <= x < QUEUES ensures QueueOk(m', x) && HandOk(m', x) { assert QueueOk(m, x) && HandOk(m, x); }
    forall x, i | 0 <= x < QUEUES && m'.done[x] <= i < |m'.log[x]| ensures QueueOk(m', x) && EntryOk(m', x, i) {
      assert QueueOk(m, x) && EntryOk(m, x, i);
    }
    forall b | 0 <= b < BUFFERS ensures PlaceOk(m', b) { assert PlaceOk(m, b); }
  }

  lemma PutQueue(m: Sound, st: Step, x: nat)
    requires Enabled(m, st) && Defined(m, st) && st.Put? && x < QUEUES
    ensures QueueOk(After(m, st), x) && HandOk(After(m, st), x)
  {
    assert QueueOk(m, x) && HandOk(m, x);
    assert QueueOk(m, st.q) && HandOk(m, st.q);
    if x == st.q {
      NotFull(m, x, m.hands[x].b);
      RoundUp(|m.log[x]|);
    }
  }

  lemma PutEntry(m: Sound, st: Step, x: nat, i: nat)
    requires Enabled(m, st) && Defined(m, st) && st.Put? && x < QUEUES && m.done[x] <= i < |After(m, st).log[x]|
    ensures QueueOk(After(m, st), x) && EntryOk(After(m, st), x, i)
  {
    PutQueue(m, st, x);
    assert QueueOk(m, x) && QueueOk(m, st.q) && HandOk(m, st.q);
    NotFull(m, st.q, m.hands[st.q].b);
    if i < |m.log[x]| {
      assert EntryOk(m, x, i);
      if x == st.q { SlotsDiffer(i, |m.log[x]|, BUFFERS); }
    }
  }

  lemma PutKeeps(m: Sound, st: Step)
    requires Enabled(m, st) && Defined(m, st) && st.Put?
    ensures Good(After(m, st))
  {
    var m' := After(m, st);
    assert QueueOk(m, st.q) && HandOk(m, st.q);
    forall i | 0 <= i < |m'.chain| ensures ChainOk(m', i) { assert ChainOk(m, i); }
    forall x | 0 <= x < QUEUES ensures QueueOk(m', x) && HandOk(m', x) { PutQueue(m, st, x); }
    forall x, i | 0 <= x < QUEUES && m'.done[x] <= i < |m'.log[x]| ensures QueueOk(m', x) && EntryOk(m', x, i) {
      PutEntry(m, st, x, i);
    }
    forall b | 0 <= b < BUFFERS ensures PlaceOk(m', b) { assert PlaceOk(m, b); }
  }

  lemma GetQueue(m: Sound, st: Step, x: nat)
    requires Enabled(m, st) && Defined(m, st) && st.Get? && x < QUEUES
    ensures QueueOk(After(m, st), x) && HandOk(After(m, st), x)
  {
    assert QueueOk(m, x) && HandOk(m, x);
    assert QueueOk(m, st.q) && EntryOk(m, st.q, m.done[st.q]);
    if x == st.q {
      RoundUp(m.done[x]);
    }
  }

  lemma GetKeeps(m: Sound, st: Step)
    requires Enabled(m, st) && Defined(m, st) && st.Get?
    ensures Good(After(m, st))
  {
    var m', q := After(m, st), st.q;
    assert QueueOk(m, q) && EntryOk(m, q, m.done[q]);
    forall i | 0 <= i < |m'.chain| ensures ChainOk(m', i) { assert ChainOk(m, i); }
    forall x | 0 <= x < QUEUES ensures QueueOk(m', x) && HandOk(m', x) { GetQueue(m, st, x); }
    forall x, i | 0 <= x < QUEUES && m'.done[x] <= i < |m'.log[x]| ensures QueueOk(m', x) && EntryOk(m', x, i) {
      GetQueue(m, st, x);
      assert QueueOk(m, x) && EntryOk(m, x, i);
    }
    forall b | 0 <= b < BUFFERS ensures PlaceOk(m', b) { assert PlaceOk(m, b); }
  }

  lemma GiveKeeps(m: Sound, st: Step)
    requires Enabled(m, st) && Defined(m, st) && st.Give?
    ensures Good(After(m, st))
  {
    var m', q := After(m, st), st.q;
    assert QueueOk(m, q) && HandOk(m, q);
    forall i | 0 <= i < |m'.chain| ensures ChainOk(m', i) { if i < |m.chain| { assert ChainOk(m, i); } }
    forall x | 0 <= x < QUEUES ensures QueueOk(m', x) && HandOk(m', x) { assert QueueOk(m, x) && HandOk(m, x); }
    forall x, i | 0 <= x < QUEUES && m'.done[x] <= i < |m'.log[x]| ensures QueueOk(m', x) && EntryOk(m', x, i) {
      assert QueueOk(m, x) && EntryOk(m, x, i);
    }
    forall b | 0 <= b < BUFFERS ensures PlaceOk(m', b) { assert PlaceOk(m, b); }
  }

  /** Every step of every operation keeps the partition. */
  lemma StepKeeps(m: Sound, st: Step)
    requires Enabled(m, st) && Defined(m, st)
    ensures Good(After(m, st))
  {
    match st {
      case Take(_, _) => TakeKeeps(m, st);
      case Put(_) => PutKeeps(m, st);
      case Get(_) => GetKeeps(m, st);
      case Give(_) => GiveKeeps(m, st);
    }
  }

  // Whole runs.

  predicate Runs(m: Mail, run: seq<Step>, t: Mail)
    decreases |run|
  {
    if run == [] then m == t
    else Enabled(m, run[0]) && Defined(m, run[0]) && Runs(After(m, run[0]), run[1..], t)
  }

  lemma {:induction false} RunKeeps(m: Sound, run: seq<Step>, t: Mail)
    requires Runs(m, run, t)
    ensures Good(t)
    decreases |run|
  {
    if run != [] {
      StepKeeps(m, run[0]);
      RunKeeps(After(m, run[0]), run[1..], t);
    }
  }

  /** In every state that any interleaving of sends and receives reaches: each buffer is in exactly
      one place, the free chain, a queue or a hand; every step that can be taken stays inside its
      arrays and no enqueue fails; and what has been received of a queue is what was sent first, in
      order. */
  lemma MessagesPartition(m: Mail, run: seq<Step>, t: Mail)
    requires Booted(m) && Runs(m, run, t)
    ensures Good(t)
    ensures forall st :: Enabled(t, st) ==> Defined(t, st) && (st.Put? ==> t.queues[st.q].size < BUFFERS)
    ensures forall q :: 0 <= q < QUEUES ==> t.got[q] <= t.sent[q]
  {
    BootGood(m);
    RunKeeps(m, run, t);
    var s: Sound := t;
    forall st | Enabled(t, st) ensures Defined(t, st) && (st.Put? ==> t.queues[st.q].size < BUFFERS) {
      StepDefined(s, st);
    }
    forall q | 0 <= q < QUEUES ensures t.got[q] <= t.sent[q] {
      assert QueueOk(t, q) && HandOk(t, q);
    }
  }
}
