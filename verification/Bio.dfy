/** The buffer cache: bget, bread, bwrite, brelse. Each method is one critical section, so that
    any interleaving of the sections of several processes is a sequence of calls. */
module Bio {
  import opened Basics
  import opened BioRing
  import opened BioState

  const NBUF: nat := 30

  predicate Cached(bufs: seq<Buf>, id: Id) {
    exists i :: 0 <= i < |bufs| && IdOf(bufs[i]) == id
  }

  /** Only such a buffer may be given to another block. */
  predicate Idle(b: Buf) { b.refcnt == 0 && !b.dirty }

  /** All buffers, the most recently released first. */
  predicate ByRelease(order: seq<nat>, stamp: seq<nat>, clock: nat) {
    && |order| == |stamp| == NBUF && Distinct(NBUF, order)
    && (forall i :: 0 <= i < NBUF ==> i in order)
    && (forall i :: 0 <= i < NBUF ==> stamp[i] < clock)
    && (forall i, j :: 0 <= i < j < NBUF ==> stamp[order[i]] > stamp[order[j]])
  }

  predicate Earlier(bufs: seq<Buf>, stamp: seq<nat>, i: nat, j: nat)
    requires i < |bufs| == |stamp| && j < |bufs|
  {
    IdOf(bufs[i]) == IdOf(bufs[j]) && !Spare(bufs[i]) && Spare(bufs[j]) ==> stamp[i] > stamp[j]
  }

  /** Of the buffers of one block, one in use or with contents was released after every spare one, so
      that it comes first in the ring. */
  ghost predicate UsedFirst(bufs: seq<Buf>, stamp: seq<nat>) {
    && |bufs| == |stamp|
    && forall i: nat, j: nat {:trigger Earlier(bufs, stamp, i, j)} ::
         i < |bufs| && j < |bufs| ==> Earlier(bufs, stamp, i, j)
  }

  /** Buffer b is first in the ring among those of its block. */
  predicate First(bufs: seq<Buf>, stamp: seq<nat>, b: nat)
    requires b < |bufs| == |stamp|
  {
    forall j :: 0 <= j < |bufs| && IdOf(bufs[j]) == IdOf(bufs[b]) ==> stamp[j] <= stamp[b]
  }

  /** Such a buffer is the one that counts. */
  lemma FirstIsAlone(bufs: seq<Buf>, stamp: seq<nat>, b: nat)
    requires Unique(bufs) && UsedFirst(bufs, stamp) && b < |bufs| && First(bufs, stamp, b)
    ensures Alone(bufs, b)
  {
    if !Spare(bufs[b]) {
      UsedIsAlone(bufs, b);
    } else {
      forall j | 0 <= j < |bufs| && j != b && IdOf(bufs[j]) == IdOf(bufs[b]) ensures Spare(bufs[j]) {
        assert Earlier(bufs, stamp, j, b);
      }
    }
  }

  /** Buffer b changes, but not its identity; it is alone, and first if it was spare. */
  lemma UsedFirstKept(bufs: seq<Buf>, bufs': seq<Buf>, stamp: seq<nat>, b: nat)
    requires UsedFirst(bufs, stamp) && b < |bufs| == |bufs'| && Alone(bufs, b) && IdOf(bufs'[b]) == IdOf(bufs[b])
    requires forall j :: 0 <= j < |bufs| && j != b ==> bufs'[j] == bufs[j] && stamp[j] != stamp[b]
    requires !Spare(bufs[b]) || First(bufs, stamp, b)
    ensures UsedFirst(bufs', stamp)
  {
    forall i: nat, j: nat | i < |bufs| && j < |bufs| ensures Earlier(bufs', stamp, i, j) {
      assert Earlier(bufs, stamp, i, j);
    }
  }

  /** Buffer b gets a block that no buffer had. */
  lemma UsedFirstNew(bufs: seq<Buf>, bufs': seq<Buf>, stamp: seq<nat>, b: nat)
    requires UsedFirst(bufs, stamp) && b < |bufs| == |bufs'| && !Cached(bufs, IdOf(bufs'[b]))
    requires forall j :: 0 <= j < |bufs| && j != b ==> bufs'[j] == bufs[j]
    ensures UsedFirst(bufs', stamp)
  {
    forall i: nat, j: nat | i < |bufs| && j < |bufs| ensures Earlier(bufs', stamp, i, j) {
      assert Earlier(bufs, stamp, i, j);
    }
  }

  /** Buffer b is released last of all. */
  lemma UsedFirstReleased(bufs: seq<Buf>, stamp: seq<nat>, b: nat, clock: nat)
    requires UsedFirst(bufs, stamp) && b < |bufs| && Alone(bufs, b) && forall j :: 0 <= j < |stamp| ==> stamp[j] < clock
    ensures UsedFirst(bufs, stamp[b := clock])
  {
    var stamp' := stamp[b := clock];
    forall i: nat, j: nat | i < |bufs| && j < |bufs| ensures Earlier(bufs, stamp', i, j) {
      assert Earlier(bufs, stamp, i, j);
    }
  }

  lemma WithoutAt(order: seq<nat>, k: nat, i: nat)
    requires k < |order| && i < |order| - 1
    ensures Without(order, k)[i] == order[if i < k then i else i + 1]
  {
  }

  lemma WithoutMember(order: seq<nat>, k: nat, j: nat)
    requires k < |order| && j < |order| && j != k
    ensures order[j] in Without(order, k)
  {
    WithoutAt(order, k, if j < k then j else j - 1);
  }

  /** The ring order after the k-th buffer has been released. */
  lemma ReleasedFirst(order: seq<nat>, stamp: seq<nat>, clock: nat, k: nat)
    requires ByRelease(order, stamp, clock) && k < NBUF
    ensures order[k] !in Without(order, k)
    ensures ByRelease([order[k]] + Without(order, k), stamp[order[k] := clock], clock + 1)
  {
    var ws := Without(order, k);
    forall i | 0 <= i < |ws| ensures ws[i] != order[k] && ws[i] < NBUF { WithoutAt(order, k, i); }
    forall i, j | 0 <= i < j < |ws| ensures ws[i] != ws[j] && stamp[ws[i]] > stamp[ws[j]] {
      WithoutAt(order, k, i);
      WithoutAt(order, k, j);
    }
    forall i | 0 <= i < NBUF ensures i == order[k] || i in ws {
      assert i in order;
      var j :| 0 <= j < |order| && order[j] == i;
      if j != k { WithoutMember(order, k, j); }
    }
    FrontOrder(ws, order[k], stamp, clock);
  }

  lemma StampsDiffer(order: seq<nat>, stamp: seq<nat>, clock: nat, b: nat)
    requires ByRelease(order, stamp, clock) && b < NBUF
    ensures forall j :: 0 <= j < NBUF && j != b ==> stamp[j] != stamp[b]
  {
    forall j | 0 <= j < NBUF && j != b ensures stamp[j] != stamp[b] {
      assert j in order && b in order;
      var x, y :| 0 <= x < |order| && order[x] == j && 0 <= y < |order| && order[y] == b;
      assert x < y || y < x;
    }
  }

  lemma FrontOrder(ws: seq<nat>, b: nat, stamp: seq<nat>, clock: nat)
    requires |ws| == NBUF - 1 && |stamp| == NBUF && b < NBUF && b !in ws
    requires forall i :: 0 <= i < |ws| ==> ws[i] < NBUF
    requires forall i, j :: 0 <= i < j < |ws| ==> ws[i] != ws[j] && stamp[ws[i]] > stamp[ws[j]]
    requires forall i :: 0 <= i < NBUF ==> i == b || i in ws
    requires forall i :: 0 <= i < NBUF ==> stamp[i] < clock
    ensures ByRelease([b] + ws, stamp[b := clock], clock + 1)
  {
    var o := [b] + ws;
    assert o[0] == b && forall i :: 0 < i < NBUF ==> o[i] == ws[i - 1];
    forall i | 0 <= i < NBUF ensures i in o {
      assert i == b || i in ws;
    }
  }

  /** A buffer in use that keeps its identity. */
  lemma StillFirst(was: seq<Buf>, bufs: seq<Buf>, o: Buf, order: seq<nat>, stamp: seq<nat>, clock: nat, b: nat)
    requires |was| == NBUF && Unique(was) && UsedFirst(was, stamp) && ByRelease(order, stamp, clock)
    requires b < NBUF && !Spare(was[b]) && IdOf(o) == IdOf(was[b]) && bufs == was[b := o]
    ensures UsedFirst(bufs, stamp) && Alone(bufs, b)
  {
    UsedIsAlone(was, b);
    StampsDiffer(order, stamp, clock, b);
    UsedFirstKept(was, bufs, stamp, b);
  }

  class BufferCache {
    var bufs: seq<Buf>
    var disk: map<Id, Data>
    var next: seq<nat>
    var prev: seq<nat>
    ghost var latest: map<Id, Data>
    ghost var touched: set<nat>
    ghost var tickets: map<nat, Ticket>
    ghost var owner: map<nat, nat>
    ghost var order: seq<nat>
    ghost var stamp: seq<nat>
    ghost var clock: nat

    ghost function View(): State
      reads this
    {
      State(bufs, disk, latest, touched, tickets, owner)
    }

    ghost predicate Valid()
      reads this
    {
      && |bufs| == NBUF && Good(View())
      && Ring(NBUF, order, next, prev) && ByRelease(order, stamp, clock) && UsedFirst(bufs, stamp)
    }

    /** Looks for the block in list order. */
    method Find(id: Id) returns (b: nat)
      requires Valid()
      ensures b <= NBUF
      ensures b < NBUF ==> IdOf(bufs[b]) == id && First(bufs, stamp, b)
      ensures b == NBUF ==> !Cached(bufs, id)
    {
      assert LinkOk(NBUF, order, next, prev, 0);
      b := next[NBUF];
      ghost var k := After(order, 0);
      while b != NBUF
        invariant k <= NBUF && b == Node(NBUF, order, k)
        invariant forall j :: 0 <= j < (if k == 0 then NBUF else k - 1) ==> IdOf(bufs[order[j]]) != id
        decreases if k == 0 then 0 else NBUF + 1 - k
      {
        if IdOf(bufs[b]) == id {
          forall i | 0 <= i < NBUF && IdOf(bufs[i]) == id ensures stamp[i] <= stamp[b] {
            assert i in order;
            var j :| 0 <= j < |order| && order[j] == i;
          }
          return;
        }
        assert LinkOk(NBUF, order, next, prev, k);
        b := next[b];
        k := After(order, k);
      }
      assert k == 0;
      forall i | 0 <= i < NBUF ensures IdOf(bufs[i]) != id {
        assert i in order;
      }
    }

    /** Looks for an idle buffer from the least recently released on. */
    method FindIdle() returns (b: nat)
      requires Valid()
      ensures b <= NBUF
      ensures b < NBUF ==> Idle(bufs[b]) && forall i :: 0 <= i < NBUF && Idle(bufs[i]) ==> stamp[i] >= stamp[b]
      ensures b == NBUF ==> forall i :: 0 <= i < NBUF ==> !Idle(bufs[i])
    {
      assert LinkOk(NBUF, order, next, prev, NBUF);
      b := prev[NBUF];
      ghost var k: nat := NBUF;
      while b != NBUF
        invariant k <= NBUF && b == Node(NBUF, order, k)
        invariant forall j :: k <= j < NBUF ==> !Idle(bufs[order[j]])
        decreases k
      {
        if bufs[b].refcnt == 0 && !bufs[b].dirty {
          forall i | 0 <= i < NBUF && Idle(bufs[i]) ensures stamp[i] >= stamp[b] {
            assert i in order;
            var j :| 0 <= j < |order| && order[j] == i;
            assert j < k;
          }
          return;
        }
        assert LinkOk(NBUF, order, next, prev, k - 1);
        b := prev[b];
        k := k - 1;
      }
      forall i | 0 <= i < NBUF ensures !Idle(bufs[i]) {
        assert i in order;
      }
    }

    /** A buffer for the block: the one that has it, or else the least recently released idle one;
        None is the panic. The use is recorded as t. */
    method Bget(dev: nat, blockno: nat, ghost t: nat) returns (r: Option<nat>)
      requires Valid() && t !in tickets
      modifies this`bufs, this`tickets
      ensures Valid()
      ensures r.None? ==> View() == old(View()) && !Cached(bufs, (dev, blockno))
      ensures r.None? ==> forall i :: 0 <= i < NBUF ==> bufs[i].refcnt > 0 || bufs[i].dirty
      ensures r.Some? ==> r.value < NBUF
      ensures r.Some? && Cached(old(bufs), (dev, blockno)) ==>
                IdOf(old(bufs)[r.value]) == (dev, blockno) && View() == Hit(old(View()), r.value, t)
      ensures r.Some? && !Cached(old(bufs), (dev, blockno)) ==>
                && old(bufs)[r.value].refcnt == 0 && !old(bufs)[r.value].dirty
                && View() == Recycle(old(View()), r.value, (dev, blockno), t)
                && forall i :: 0 <= i < NBUF && old(bufs)[i].refcnt == 0 && !old(bufs)[i].dirty ==>
                     stamp[i] >= stamp[r.value]
    {
      var b := Find((dev, blockno));
      if b != NBUF {
        Reference(b, t);
        return Some(b);
      }
      b := FindIdle();
      if b == NBUF {
        return None;
      }
      Reassign(b, (dev, blockno), t);
      return Some(b);
    }

    method Reference(b: nat, ghost t: nat)
      requires Valid() && t !in tickets && b < NBUF && First(bufs, stamp, b)
      modifies this`bufs, this`tickets
      ensures Valid() && View() == Hit(old(View()), b, t)
    {
      FirstIsAlone(bufs, stamp, b);
      HitKeeps(View(), b, t);
      var o := bufs[b];
      bufs := bufs[b := Buf(o.dev, o.blockno, o.refcnt + 1, o.valid, o.dirty, o.locked, o.data)];
      tickets := tickets[t := Ticket(b, IdOf(o))];
      StampsDiffer(order, stamp, clock, b);
      UsedFirstKept(old(bufs), bufs, stamp, b);
      assert View() == Hit(old(View()), b, t);
    }

    method Reassign(b: nat, id: Id, ghost t: nat)
      requires Valid() && t !in tickets && b < NBUF && Idle(bufs[b]) && !Cached(bufs, id)
      modifies this`bufs, this`tickets
      ensures Valid() && View() == Recycle(old(View()), b, id, t)
    {
      RecycleKeeps(View(), b, id, t);
      var o := bufs[b];
      bufs := bufs[b := Buf(id.0, id.1, 1, false, false, o.locked, o.data)];
      tickets := tickets[t := Ticket(b, id)];
      UsedFirstNew(old(bufs), bufs, stamp, b);
      assert View() == Recycle(old(View()), b, id, t);
    }

    /** The disk driver on a locked buffer. */
    method Iderw(b: nat)
      requires b < |bufs| && !(bufs[b].valid && !bufs[b].dirty)
      modifies this`bufs, this`disk
      ensures bufs == old(bufs)[b := DiskBuf(old(bufs)[b], old(disk))] && disk == DiskAfter(old(bufs)[b], old(disk))
    {
      var o := bufs[b];
      var d := if o.dirty then o.data else At(disk, IdOf(o));
      if o.dirty {
        disk := disk[IdOf(o) := o.data];
      }
      bufs := bufs[b := Buf(o.dev, o.blockno, o.refcnt, true, false, o.locked, d)];
    }

    /** bread, once the lock is free: whatever happened since bget, the buffer still is that of the
        block asked for, and it has the latest contents. */
    method Bread(ghost t: nat, b: nat) returns (d: Data)
      requires Valid() && t in tickets && tickets[t].buf == b && !bufs[b].locked
      modifies this`bufs, this`disk, this`owner
      ensures Valid() && View() == Entered(old(View()), t)
      ensures IdOf(bufs[b]) == tickets[t].id && d == bufs[b].data && bufs[b].valid
      ensures d == At(latest, tickets[t].id)
    {
      EnterKeeps(View(), t);
      assert BufOk(View(), b);
      var o := bufs[b];
      bufs := bufs[b := Buf(o.dev, o.blockno, o.refcnt, o.valid, o.dirty, true, o.data)];
      if !bufs[b].valid {
        Iderw(b);
      }
      owner := owner[b := t];
      d := bufs[b].data;
      assert View() == Entered(old(View()), t);
      InUse(old(View()), t);
      StillFirst(old(bufs), bufs, bufs[b], order, stamp, clock, b);
    }

    /** The owner changes the contents. */
    method Modify(ghost t: nat, b: nat, d: Data)
      requires Valid() && Owns(View(), b, t)
      modifies this`bufs, this`latest, this`touched
      ensures Valid() && View() == Modified(old(View()), b, d)
    {
      ModifyKeeps(View(), b, t, d);
      var o := bufs[b];
      bufs := bufs[b := Buf(o.dev, o.blockno, o.refcnt, o.valid, o.dirty, o.locked, d)];
      latest, touched := latest[IdOf(o) := d], touched + {b};
      StillFirst(old(bufs), bufs, bufs[b], order, stamp, clock, b);
    }

    /** log_write pins the buffer. */
    method LogWrite(ghost t: nat, b: nat)
      requires Valid() && Owns(View(), b, t)
      modifies this`bufs, this`touched
      ensures Valid() && View() == Logged(old(View()), b)
    {
      LogKeeps(View(), b, t);
      var o := bufs[b];
      bufs := bufs[b := Buf(o.dev, o.blockno, o.refcnt, o.valid, true, o.locked, o.data)];
      touched := touched - {b};
      StillFirst(old(bufs), bufs, bufs[b], order, stamp, clock, b);
    }

    method Bwrite(ghost t: nat, b: nat)
      requires Valid() && Owns(View(), b, t)
      modifies this`bufs, this`disk, this`touched
      ensures Valid() && View() == Written(old(View()), b) && At(disk, IdOf(bufs[b])) == bufs[b].data
    {
      WriteKeeps(View(), b, t);
      var o := bufs[b];
      bufs := bufs[b := Buf(o.dev, o.blockno, o.refcnt, o.valid, true, o.locked, o.data)];
      Iderw(b);
      touched := touched - {b};
      assert View() == Written(old(View()), b);
      StillFirst(old(bufs), bufs, bufs[b], order, stamp, clock, b);
    }

    /** The first half of brelse: the lock is released, every modification logged or written. */
    method Unlock(ghost t: nat, b: nat)
      requires Valid() && Owns(View(), b, t) && b !in touched
      modifies this`bufs, this`owner
      ensures Valid() && View() == Unlocked(old(View()), b)
    {
      UnlockKeeps(View(), b, t);
      var o := bufs[b];
      bufs := bufs[b := Buf(o.dev, o.blockno, o.refcnt, o.valid, o.dirty, false, o.data)];
      owner := owner - {b};
      StillFirst(old(bufs), bufs, bufs[b], order, stamp, clock, b);
    }

    /** The second half: the last user moves the buffer, the k-th of the ring, to the front. */
    method Unref(ghost t: nat, b: nat) returns (ghost k: nat)
      requires Valid() && t in tickets && tickets[t].buf == b && (b in owner ==> owner[b] != t)
      modifies this`bufs, this`next, this`prev, this`tickets, this`order, this`stamp, this`clock
      ensures Valid() && old(bufs)[b].refcnt > 0 && View() == Dropped(old(View()), t)
      ensures bufs[b].refcnt > 0 ==> order == old(order)
      ensures bufs[b].refcnt == 0 ==> k < NBUF && old(order)[k] == b && order == [b] + Without(old(order), k)
    {
      Drop(t, b);
      k := 0;
      if bufs[b].refcnt == 0 {
        k := Touch(b);
      }
    }

    /** One reference fewer. */
    method Drop(ghost t: nat, b: nat)
      requires Valid() && t in tickets && tickets[t].buf == b && (b in owner ==> owner[b] != t)
      modifies this`bufs, this`tickets
      ensures Valid() && old(bufs)[b].refcnt > 0 && View() == Dropped(old(View()), t) && Alone(bufs, b)
    {
      DropKeeps(View(), t);
      var o := bufs[b];
      bufs := bufs[b := Buf(o.dev, o.blockno, o.refcnt - 1, o.valid, o.dirty, o.locked, o.data)];
      tickets := tickets - {t};
      assert View() == Dropped(old(View()), t);
      StillFirst(old(bufs), bufs, bufs[b], order, stamp, clock, b);
    }

    method Touch(b: nat) returns (ghost k: nat)
      requires Ring(NBUF, order, next, prev) && ByRelease(order, stamp, clock) && b < NBUF
      requires UsedFirst(bufs, stamp) && Alone(bufs, b)
      modifies this`next, this`prev, this`order, this`stamp, this`clock
      ensures Ring(NBUF, order, next, prev) && ByRelease(order, stamp, clock) && UsedFirst(bufs, stamp)
      ensures k < NBUF && old(order)[k] == b && order == [b] + Without(old(order), k)
    {
      assert b in order;
      k :| 0 <= k < |order| && order[k] == b;
      ReleasedFirst(order, stamp, clock, k);
      UsedFirstReleased(bufs, stamp, b, clock);
      MoveToFront(b, k);
      stamp, clock := stamp[b := clock], clock + 1;
    }

    method MoveToFront(b: nat, ghost k: nat)
      requires Ring(NBUF, order, next, prev) && k < |order| && b == order[k] && b !in Without(order, k)
      modifies this`next, this`prev, this`order
      ensures Ring(NBUF, order, next, prev) && order == [b] + Without(old(order), k)
    {
      UnlinkRing(NBUF, order, next, prev, k);
      assert LinkOk(NBUF, order, next, prev, k + 1);
      NodesDistinct(NBUF, order, k + 1, After(order, k + 1));
      prev := prev[next[b] := prev[b]];
      next := next[prev[b] := next[b]];
      order := Without(order, k);
      PushFront(b);
    }

    /** Links a buffer in behind the head. */
    method PushFront(b: nat)
      requires Ring(NBUF, order, next, prev) && b < NBUF && b !in order
      modifies this`next, this`prev, this`order
      ensures Ring(NBUF, order, next, prev) && order == [b] + old(order)
    {
      PushRing(NBUF, order, next, prev, b);
      next := next[b := next[NBUF]];
      prev := prev[b := NBUF];
      prev := prev[next[NBUF] := b];
      next := next[NBUF := b];
      order := [b] + order;
    }

    /** binit: every buffer linked in, none used yet; contents is what the disk holds. */
    constructor (contents: map<Id, Data>)
      ensures Valid() && tickets == map[] && disk == latest == contents
    {
      bufs := seq(NBUF, _ => Buf(0, 0, 0, false, false, false, []));
      disk, latest := contents, contents;
      next, prev := seq(NBUF + 1, _ => NBUF), seq(NBUF + 1, _ => NBUF);
      touched, tickets, owner := {}, map[], map[];
      order := [];
      stamp, clock := seq(NBUF, i => i), NBUF;
      new;
      assert forall i :: Users(tickets, i) == {};
      LinkAll();
      forall i | 0 <= i < NBUF ensures i in order {
        assert order[NBUF - 1 - i] == i;
      }
    }

    method LinkAll()
      requires Ring(NBUF, order, next, prev) && order == []
      modifies this`next, this`prev, this`order
      ensures Ring(NBUF, order, next, prev) && |order| == NBUF
      ensures forall i :: 0 <= i < NBUF ==> order[i] == NBUF - 1 - i
    {
      var b := 0;
      while b < NBUF
        invariant b <= NBUF && Ring(NBUF, order, next, prev)
        invariant |order| == b && forall i :: 0 <= i < b ==> order[i] == b - 1 - i
      {
        PushFront(b);
        b := b + 1;
      }
    }
  }
}
