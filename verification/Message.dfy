/** Sending and receiving messages. */
module Message {
  import opened MessageState

  class Messages {
    var buffers: seq<seq<int>>
    var free: int // number of the first free buffer, or -1
    var queues: seq<Queue>
    ghost var m: Sound

    ghost predicate Valid()
      reads this
    {
      buffers == m.buffers && queues == m.queues && free == Link(m.chain, |m.chain|)
    }

    method GetMessageBuffer() returns (b: int)
      requires Valid()
      modifies this`free
      ensures b == old(free)
      ensures m.chain != [] ==> b == Head(m) && free == Link(m.chain, |m.chain| - 1)
      ensures m.chain == [] ==> b == -1 && free == -1
    {
      b := free;
      if b != -1 {
        assert ChainOk(m, |m.chain| - 1);
        free := buffers[b][0];
      }
    }

    method Enqueue(q: nat, a: int) returns (r: int)
      requires q < |queues| && queues[q].tail < |queues[q].data|
      modifies this`queues
      ensures if old(queues)[q].size == BUFFERS then r == -1 && queues == old(queues)
              else r == 0 && queues == old(queues)[q := Enqueued(old(queues)[q], a)]
    {
      var qu := queues[q];
      if qu.size == BUFFERS {
        return -1;
      }
      queues := queues[q := Queue(qu.size + 1, qu.data[qu.tail := a], qu.head, (qu.tail + 1) % BUFFERS)];
      r := 0;
    }

    method Dequeue(q: nat) returns (a: int)
      requires q < |queues| && queues[q].head < |queues[q].data|
      modifies this`queues
      ensures if old(queues)[q].size == 0 then a == -1 && queues == old(queues)
              else a == old(queues)[q].data[old(queues)[q].head] && queues == old(queues)[q := Dequeued(old(queues)[q])]
    {
      var qu := queues[q];
      if qu.size == 0 {
        return -1;
      }
      a := qu.data[qu.head];
      queues := queues[q := Queue(qu.size - 1, qu.data, (qu.head + 1) % BUFFERS, qu.tail)];
    }

    /** The first half of a send: a buffer for the message. */
    method TakeBuffer(q: nat, msg: seq<int>) returns (b: int)
      requires Valid() && |msg| >= WORDS - 1 && Enabled(m, Take(q, msg[..WORDS - 1]))
      modifies this`free, this`m
      ensures Defined(old(m), Take(q, msg[..WORDS - 1])) && m == After(old(m), Take(q, msg[..WORDS - 1])) && Valid()
      ensures b == Head(old(m))
    {
      ghost var st := Take(q, msg[..WORDS - 1]);
      StepDefined(m, st);
      StepKeeps(m, st);
      b := GetMessageBuffer();
      m := After(m, st);
    }

    /** The second half: the buffer is enqueued and filled; the queue is not full. */
    method PutMessage(q: nat, b: nat, msg: seq<int>)
      requires Valid() && q < QUEUES && |msg| >= WORDS - 1 && m.hands[q] == Sending(b, msg[..WORDS - 1])
      modifies this`buffers, this`queues, this`m
      ensures Defined(old(m), Put(q)) && m == After(old(m), Put(q)) && Valid()
    {
      StepDefined(m, Put(q));
      StepKeeps(m, Put(q));
      var e := Enqueue(q, b);
      CopyIn(b, msg);
      m := After(m, Put(q));
    }

    /** A send that holds queue q's lock. It is refused exactly if the queue is full; otherwise it
        becomes the queue's next message if a buffer is free, and if none is, the code leaves its
        arrays, for which ok is false. */
    method SendMessage(q: nat, msg: seq<int>) returns (ok: bool, r: int)
      requires Valid() && q < QUEUES && |msg| >= WORDS - 1 && m.hands[q].Empty?
      modifies this
      ensures Valid() && ok == (old(queues)[q].size == BUFFERS || old(m).chain != [])
      ensures !ok || old(queues)[q].size == BUFFERS ==> m == old(m)
      ensures ok && old(queues)[q].size == BUFFERS ==> r == -1
      ensures ok && old(queues)[q].size < BUFFERS ==>
                && r == 0 && m.sent == old(m).sent[q := old(m).sent[q] + [msg[..WORDS - 1]]]
                && m.done == old(m).done && m.got == old(m).got && m.hands == old(m).hands
    {
      assert QueueOk(m, q);
      if queues[q].size == BUFFERS {
        return true, -1;
      }
      if free == -1 {
        ChainEnds(m);
        return false, 0;
      }
      var b := TakeBuffer(q, msg);
      PutMessage(q, b, msg);
      return true, 0;
    }

    method CopyIn(b: nat, msg: seq<int>)
      requires b < |buffers| && |buffers[b]| == WORDS && |msg| >= WORDS - 1
      modifies this`buffers
      ensures buffers == old(buffers)[b := [old(buffers)[b][0]] + msg[..WORDS - 1]]
    {
      var i := 1;
      while i < WORDS
        invariant 1 <= i <= WORDS && |buffers| == |old(buffers)| && |buffers[b]| == WORDS
        invariant buffers == old(buffers)[b := buffers[b]]
        invariant buffers[b][0] == old(buffers)[b][0] && forall j :: 1 <= j < i ==> buffers[b][j] == msg[j - 1]
      {
        buffers := buffers[b := buffers[b][i := msg[i - 1]]];
        i := i + 1;
      }
      assert buffers[b] == [old(buffers)[b][0]] + msg[..WORDS - 1];
    }

    method FreeMessageBuffer(b: nat)
      requires b < |buffers| && |buffers[b]| == WORDS
      modifies this`buffers, this`free
      ensures buffers == old(buffers)[b := old(buffers)[b][0 := old(free)]] && free == b
    {
      buffers := buffers[b := buffers[b][0 := free]];
      free := b;
    }

    /** The first half of a receive: the oldest message's buffer leaves the queue. */
    method GetMessage(q: nat) returns (b: int)
      requires Valid() && Enabled(m, Get(q))
      modifies this`queues, this`m
      ensures Defined(old(m), Get(q)) && m == After(old(m), Get(q)) && Valid()
      ensures m.hands[q].Reading? && b == m.hands[q].b
    {
      StepDefined(m, Get(q));
      StepKeeps(m, Get(q));
      b := Dequeue(q);
      m := After(m, Get(q));
    }

    /** The second half: the message is read and the buffer freed. */
    method GiveBuffer(q: nat, b: nat) returns (msg: seq<int>)
      requires Valid() && q < QUEUES && m.hands[q] == Reading(b)
      modifies this`buffers, this`free, this`m
      ensures Defined(old(m), Give(q)) && m == After(old(m), Give(q)) && Valid()
      ensures |old(m).got[q]| < |m.sent[q]| && msg == m.sent[q][|old(m).got[q]|] && m.got[q] == old(m).got[q] + [msg]
    {
      assert QueueOk(m, q) && HandOk(m, q);
      StepDefined(m, Give(q));
      StepKeeps(m, Give(q));
      msg := CopyOut(b);
      FreeMessageBuffer(b);
      m := After(m, Give(q));
    }

    /** A receive that holds queue q's lock: -1 exactly if nothing is queued, and otherwise the k-th
        receive gives the k-th message sent. */
    method ReceiveMsg(q: nat) returns (r: int, msg: seq<int>)
      requires Valid() && q < QUEUES && m.hands[q].Empty?
      modifies this
      ensures Valid() && m.sent == old(m).sent && m.hands == old(m).hands && old(m).done[q] <= |m.sent[q]|
      ensures old(m).done[q] == |m.sent[q]| ==> r == -1 && m == old(m)
      ensures old(m).done[q] < |m.sent[q]| ==>
                r == 0 && msg == m.sent[q][old(m).done[q]] && m.done == old(m).done[q := old(m).done[q] + 1]
    {
      assert QueueOk(m, q) && HandOk(m, q);
      msg := [];
      if queues[q].size == 0 {
        return -1, msg;
      }
      var b := GetMessage(q);
      msg := GiveBuffer(q, b);
      r := 0;
    }

    method CopyOut(b: nat) returns (msg: seq<int>)
      requires b < |buffers| && |buffers[b]| == WORDS
      ensures msg == buffers[b][1..]
    {
      msg := [];
      var i := 1;
      while i < WORDS
        invariant 1 <= i <= WORDS && msg == buffers[b][1..i]
      {
        msg := msg + [buffers[b][i]];
        i := i + 1;
      }
    }

    /** messageinit. */
    constructor ()
      ensures Valid() && |m.chain| == BUFFERS && forall q :: 0 <= q < QUEUES ==>
                m.sent[q] == [] && m.done[q] == 0 && m.hands[q].Empty?
    {
      buffers := seq(BUFFERS, b requires 0 <= b => BootBuffer(b));
      free := 0;
      queues := seq(QUEUES, _ => EmptyQueue());
      m := GoodBoot();
    }
  }
}
