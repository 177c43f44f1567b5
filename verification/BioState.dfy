/** The buffers, the disk behind them, and who holds what. */
module BioState {

  type Data = seq<nat>

  type Id = (nat, nat)

  /** The device and block number of a buffer that was never used. */
  const NO_ID: Id := (0, 0)

  datatype Buf = Buf(dev: nat, blockno: nat, refcnt: nat, valid: bool, dirty: bool, locked: bool, data: Data)

  /** A use of a buffer, from bget to brelse. */
  datatype Ticket = Ticket(buf: nat, id: Id)

  /** The cache with, for the proof, the latest contents of every block, the buffers modified but
      neither logged nor written since, the uses in progress, and the owners of the buffer locks. */
  datatype State = State(bufs: seq<Buf>, disk: map<Id, Data>, latest: map<Id, Data>, touched: set<nat>,
                         tickets: map<nat, Ticket>, owner: map<nat, nat>)

  function IdOf(b: Buf): Id { (b.dev, b.blockno) }

  function At(m: map<Id, Data>, id: Id): Data { if id in m then m[id] else [] }

  /** Neither in use nor with contents. */
  predicate Spare(b: Buf) { b.refcnt == 0 && !b.valid }

  predicate Apart(a: Buf, b: Buf) { IdOf(a) == IdOf(b) ==> IdOf(a) == NO_ID && (Spare(a) || Spare(b)) }

  /** At most one buffer per block, not counting those that were never used. */
  predicate Unique(bufs: seq<Buf>) {
    forall i, j :: 0 <= i < |bufs| && 0 <= j < |bufs| && i != j ==> Apart(bufs[i], bufs[j])
  }

  /** No other buffer of the same block is in use or has contents. */
  predicate Alone(bufs: seq<Buf>, i: nat)
    requires i < |bufs|
  {
    forall j :: 0 <= j < |bufs| && j != i && IdOf(bufs[j]) == IdOf(bufs[i]) ==> Spare(bufs[j])
  }

  lemma UsedIsAlone(bufs: seq<Buf>, i: nat)
    requires Unique(bufs) && i < |bufs| && !Spare(bufs[i])
    ensures Alone(bufs, i)
  {
    forall j | 0 <= j < |bufs| && j != i && IdOf(bufs[j]) == IdOf(bufs[i]) ensures Spare(bufs[j]) {
      assert Apart(bufs[i], bufs[j]);
    }
  }

  predicate Holds(bufs: seq<Buf>, id: Id) {
    exists i :: 0 <= i < |bufs| && bufs[i].valid && IdOf(bufs[i]) == id
  }

  predicate BufOk(s: State, i: nat)
    requires i < |s.bufs|
  {
    var b := s.bufs[i];
    && (b.valid ==> b.data == At(s.latest, IdOf(b)))
    && (b.valid && !b.dirty && i !in s.touched ==> b.data == At(s.disk, IdOf(b)))
    && (!b.valid ==> !b.dirty && i !in s.touched)
    && (i in s.touched ==> b.locked)
  }

  ghost predicate ContentsOk(s: State) {
    && Unique(s.bufs)
    && (forall i :: 0 <= i < |s.bufs| ==> BufOk(s, i))
    && (forall id :: !Holds(s.bufs, id) ==> At(s.disk, id) == At(s.latest, id))
  }

  ghost function Users(tickets: map<nat, Ticket>, i: nat): set<nat> {
    set t | t in tickets && tickets[t].buf == i
  }

  /** Reference counts count the uses; a buffer in use keeps its identity; the lock has one owner. */
  ghost predicate UsesOk(s: State) {
    && (forall t :: t in s.tickets ==> s.tickets[t].buf < |s.bufs| && IdOf(s.bufs[s.tickets[t].buf]) == s.tickets[t].id)
    && (forall i :: 0 <= i < |s.bufs| ==> s.bufs[i].refcnt == |Users(s.tickets, i)|)
    && (forall i :: 0 <= i < |s.bufs| ==> (s.bufs[i].locked <==> i in s.owner))
    && (forall i :: i in s.owner ==> s.owner[i] in s.tickets && s.tickets[s.owner[i]].buf == i)
  }

  ghost predicate Good(s: State) { ContentsOk(s) && UsesOk(s) }

  // The steps.

  function Hit(s: State, i: nat, t: nat): State
    requires i < |s.bufs|
  {
    var b := s.bufs[i];
    State(s.bufs[i := Buf(b.dev, b.blockno, b.refcnt + 1, b.valid, b.dirty, b.locked, b.data)], s.disk, s.latest,
          s.touched, s.tickets[t := Ticket(i, IdOf(b))], s.owner)
  }

  function Recycle(s: State, i: nat, id: Id, t: nat): State
    requires i < |s.bufs|
  {
    var b := s.bufs[i];
    State(s.bufs[i := Buf(id.0, id.1, 1, false, false, b.locked, b.data)], s.disk, s.latest, s.touched,
          s.tickets[t := Ticket(i, id)], s.owner)
  }

  /** The disk driver: writes a dirty buffer, fills one that is not. */
  function DiskBuf(b: Buf, disk: map<Id, Data>): Buf {
    Buf(b.dev, b.blockno, b.refcnt, true, false, b.locked, if b.dirty then b.data else At(disk, IdOf(b)))
  }

  function DiskAfter(b: Buf, disk: map<Id, Data>): map<Id, Data> {
    if b.dirty then disk[IdOf(b) := b.data] else disk
  }

  /** Getting the lock, and the contents if they are not there. */
  function Entered(s: State, t: nat): State
    requires t in s.tickets && s.tickets[t].buf < |s.bufs|
  {
    var i := s.tickets[t].buf;
    var b := s.bufs[i];
    var l := Buf(b.dev, b.blockno, b.refcnt, b.valid, b.dirty, true, b.data);
    State(s.bufs[i := if b.valid then l else DiskBuf(l, s.disk)], if b.valid then s.disk else DiskAfter(l, s.disk),
          s.latest, s.touched, s.tickets,
          s.owner[i := t])
  }

  function Modified(s: State, i: nat, d: Data): State
    requires i < |s.bufs|
  {
    var b := s.bufs[i];
    State(s.bufs[i := Buf(b.dev, b.blockno, b.refcnt, b.valid, b.dirty, b.locked, d)], s.disk, s.latest[IdOf(b) := d],
          s.touched + {i}, s.tickets, s.owner)
  }

  function Logged(s: State, i: nat): State
    requires i < |s.bufs|
  {
    var b := s.bufs[i];
    State(s.bufs[i := Buf(b.dev, b.blockno, b.refcnt, b.valid, true, b.locked, b.data)], s.disk, s.latest,
          s.touched - {i}, s.tickets, s.owner)
  }

  function Written(s: State, i: nat): State
    requires i < |s.bufs|
  {
    var b := s.bufs[i];
    var d := Buf(b.dev, b.blockno, b.refcnt, b.valid, true, b.locked, b.data);
    State(s.bufs[i := DiskBuf(d, s.disk)], DiskAfter(d, s.disk), s.latest, s.touched - {i}, s.tickets, s.owner)
  }

  function Unlocked(s: State, i: nat): State
    requires i < |s.bufs|
  {
    var b := s.bufs[i];
    State(s.bufs[i := Buf(b.dev, b.blockno, b.refcnt, b.valid, b.dirty, false, b.data)], s.disk, s.latest, s.touched,
          s.tickets, s.owner - {i})
  }

  function Dropped(s: State, t: nat): State
    requires t in s.tickets && s.tickets[t].buf < |s.bufs| && s.bufs[s.tickets[t].buf].refcnt > 0
  {
    var i := s.tickets[t].buf;
    var b := s.bufs[i];
    State(s.bufs[i := Buf(b.dev, b.blockno, b.refcnt - 1, b.valid, b.dirty, b.locked, b.data)], s.disk, s.latest,
          s.touched, s.tickets - {t}, s.owner)
  }

  // What each step keeps.

  lemma SameHolds(bufs: seq<Buf>, bufs': seq<Buf>, id: Id)
    requires |bufs'| == |bufs|
    requires forall i :: 0 <= i < |bufs| ==>
               (bufs'[i].valid && IdOf(bufs'[i]) == id <==> bufs[i].valid && IdOf(bufs[i]) == id)
    ensures Holds(bufs', id) <==> Holds(bufs, id)
  {
    if Holds(bufs, id) {
      var i :| 0 <= i < |bufs| && bufs[i].valid && IdOf(bufs[i]) == id;
      assert bufs'[i].valid && IdOf(bufs'[i]) == id;
    }
  }

  /** Steps that leave every buffer's identity, validity and contents alone. */
  lemma ContentsSame(s: State, s': State)
    requires ContentsOk(s) && |s'.bufs| == |s.bufs| && s'.disk == s.disk && s'.latest == s.latest
    requires forall i :: 0 <= i < |s.bufs| ==>
               IdOf(s'.bufs[i]) == IdOf(s.bufs[i]) && s'.bufs[i].valid == s.bufs[i].valid && BufOk(s', i)
    requires Unique(s'.bufs)
    ensures ContentsOk(s')
  {
    forall id ensures Holds(s'.bufs, id) <==> Holds(s.bufs, id) { SameHolds(s.bufs, s'.bufs, id); }
  }

  /** One buffer changes, but neither its identity nor, if it was in use or had contents, that. */
  lemma UniqueKept(bufs: seq<Buf>, bufs': seq<Buf>, i: nat)
    requires Unique(bufs) && i < |bufs| == |bufs'| && IdOf(bufs'[i]) == IdOf(bufs[i])
    requires Alone(bufs, i) || Spare(bufs'[i]) || !Spare(bufs[i])
    requires forall j :: 0 <= j < |bufs| && j != i ==> bufs'[j] == bufs[j]
    ensures Unique(bufs')
  {
    forall j, k | 0 <= j < |bufs| && 0 <= k < |bufs| && j != k ensures Apart(bufs'[j], bufs'[k]) {
      assert Apart(bufs[j], bufs[k]);
    }
  }

  lemma UsersAdd(tickets: map<nat, Ticket>, t: nat, k: Ticket, i: nat)
    requires t !in tickets
    ensures |Users(tickets[t := k], i)| == |Users(tickets, i)| + if k.buf == i then 1 else 0
  {
    assert Users(tickets[t := k], i) == Users(tickets, i) + if k.buf == i then {t} else {};
  }

  lemma UsersDrop(tickets: map<nat, Ticket>, t: nat, i: nat)
    requires t in tickets
    ensures |Users(tickets - {t}, i)| == |Users(tickets, i)| - if tickets[t].buf == i then 1 else 0
  {
    assert Users(tickets - {t}, i) == Users(tickets, i) - {t};
  }

  lemma HitContents(s: State, i: nat, t: nat)
    requires ContentsOk(s) && i < |s.bufs| && Alone(s.bufs, i)
    ensures ContentsOk(Hit(s, i, t))
  {
    var s' := Hit(s, i, t);
    UniqueKept(s.bufs, s'.bufs, i);
    forall j | 0 <= j < |s.bufs| ensures BufOk(s', j) { assert BufOk(s, j); }
    ContentsSame(s, s');
  }

  lemma HitUses(s: State, i: nat, t: nat)
    requires UsesOk(s) && i < |s.bufs| && t !in s.tickets
    ensures UsesOk(Hit(s, i, t))
  {
    var s' := Hit(s, i, t);
    forall j | 0 <= j < |s.bufs| ensures s'.bufs[j].refcnt == |Users(s'.tickets, j)| {
      UsersAdd(s.tickets, t, Ticket(i, IdOf(s.bufs[i])), j);
    }
  }

  lemma HitKeeps(s: State, i: nat, t: nat)
    requires Good(s) && i < |s.bufs| && t !in s.tickets && Alone(s.bufs, i)
    ensures Good(Hit(s, i, t))
  {
    HitContents(s, i, t);
    HitUses(s, i, t);
  }

  lemma Unused(s: State, i: nat)
    requires UsesOk(s) && i < |s.bufs| && s.bufs[i].refcnt == 0
    ensures !s.bufs[i].locked && forall t :: t in s.tickets ==> s.tickets[t].buf != i
  {
    assert Users(s.tickets, i) == {};
    forall t | t in s.tickets ensures s.tickets[t].buf != i {
      assert t !in Users(s.tickets, i);
    }
  }

  lemma RecycleContents(s: State, i: nat, id: Id, t: nat)
    requires Good(s) && i < |s.bufs| && s.bufs[i].refcnt == 0 && !s.bufs[i].dirty
    requires forall j :: 0 <= j < |s.bufs| ==> IdOf(s.bufs[j]) != id
    ensures ContentsOk(Recycle(s, i, id, t))
  {
    var s' := Recycle(s, i, id, t);
    Unused(s, i);
    assert BufOk(s, i);
    forall j | 0 <= j < |s.bufs| ensures BufOk(s', j) { assert BufOk(s, j); }
    forall j, m | 0 <= j < |s.bufs| && 0 <= m < |s.bufs| && j != m ensures Apart(s'.bufs[j], s'.bufs[m]) {
      assert Apart(s.bufs[j], s.bufs[m]);
    }
    forall x | !Holds(s'.bufs, x) ensures At(s.disk, x) == At(s.latest, x) {
      if Holds(s.bufs, x) {
        var j :| 0 <= j < |s.bufs| && s.bufs[j].valid && IdOf(s.bufs[j]) == x;
        assert j != i ==> s'.bufs[j] == s.bufs[j];
      }
    }
  }

  lemma RecycleUses(s: State, i: nat, id: Id, t: nat)
    requires UsesOk(s) && i < |s.bufs| && s.bufs[i].refcnt == 0 && t !in s.tickets
    ensures UsesOk(Recycle(s, i, id, t))
  {
    var s' := Recycle(s, i, id, t);
    Unused(s, i);
    forall j | 0 <= j < |s.bufs| ensures s'.bufs[j].refcnt == |Users(s'.tickets, j)| {
      UsersAdd(s.tickets, t, Ticket(i, id), j);
    }
  }

  lemma RecycleKeeps(s: State, i: nat, id: Id, t: nat)
    requires Good(s) && i < |s.bufs| && s.bufs[i].refcnt == 0 && !s.bufs[i].dirty && t !in s.tickets
    requires forall j :: 0 <= j < |s.bufs| ==> IdOf(s.bufs[j]) != id
    ensures Good(Recycle(s, i, id, t))
  {
    RecycleContents(s, i, id, t);
    RecycleUses(s, i, id, t);
  }

  /** The holder of a use sees the latest contents of the block it asked for. */
  lemma EnterKeeps(s: State, t: nat)
    requires Good(s) && t in s.tickets && !s.bufs[s.tickets[t].buf].locked
    ensures Good(Entered(s, t))
    ensures Entered(s, t).bufs[s.tickets[t].buf].data == At(s.latest, s.tickets[t].id)
  {
    EnterContents(s, t);
    var s' := Entered(s, t);
    assert UsesOk(s');
  }

  lemma EnterContents(s: State, t: nat)
    requires Good(s) && t in s.tickets && !s.bufs[s.tickets[t].buf].locked
    ensures ContentsOk(Entered(s, t))
    ensures Entered(s, t).bufs[s.tickets[t].buf].data == At(s.latest, s.tickets[t].id)
  {
    var s', i := Entered(s, t), s.tickets[t].buf;
    assert BufOk(s, i);
    InUse(s, t);
    UsedIsAlone(s.bufs, i);
    UniqueKept(s.bufs, s'.bufs, i);
    if !s.bufs[i].valid {
      assert !Holds(s.bufs, IdOf(s.bufs[i]));
    }
    forall j | 0 <= j < |s.bufs| ensures BufOk(s', j) { assert BufOk(s, j); }
    forall x | !Holds(s'.bufs, x) ensures At(s'.disk, x) == At(s'.latest, x) {
      HoldsGrows(s.bufs, s'.bufs, x);
    }
  }

  lemma HoldsGrows(bufs: seq<Buf>, bufs': seq<Buf>, id: Id)
    requires |bufs'| == |bufs| && forall i :: 0 <= i < |bufs| && bufs[i].valid ==>
               bufs'[i].valid && IdOf(bufs'[i]) == IdOf(bufs[i])
    ensures Holds(bufs, id) ==> Holds(bufs', id)
  {
    if Holds(bufs, id) {
      var i :| 0 <= i < |bufs| && bufs[i].valid && IdOf(bufs[i]) == id;
      assert bufs'[i].valid && IdOf(bufs'[i]) == id;
    }
  }

  predicate Owns(s: State, i: nat, t: nat) { i < |s.bufs| && i in s.owner && s.owner[i] == t && s.bufs[i].valid }

  /** Steps of a lock's owner that neither unlock nor end the use. */
  lemma UsesSame(s: State, s': State)
    requires UsesOk(s) && |s'.bufs| == |s.bufs| && s'.tickets == s.tickets && s'.owner == s.owner
    requires forall i :: 0 <= i < |s.bufs| ==>
               IdOf(s'.bufs[i]) == IdOf(s.bufs[i]) && s'.bufs[i].refcnt == s.bufs[i].refcnt
                 && s'.bufs[i].locked == s.bufs[i].locked
    ensures UsesOk(s')
  {
  }

  lemma ModifyContents(s: State, i: nat, t: nat, d: Data)
    requires ContentsOk(s) && Owns(s, i, t) && s.bufs[i].locked
    ensures ContentsOk(Modified(s, i, d))
  {
    var s', id := Modified(s, i, d), IdOf(s.bufs[i]);
    UsedIsAlone(s.bufs, i);
    UniqueKept(s.bufs, s'.bufs, i);
    forall j | 0 <= j < |s.bufs| ensures BufOk(s', j) { assert BufOk(s, j); }
    forall x ensures Holds(s'.bufs, x) <==> Holds(s.bufs, x) { SameHolds(s.bufs, s'.bufs, x); }
    assert s'.bufs[i].valid && Holds(s'.bufs, id);
  }

  lemma ModifyKeeps(s: State, i: nat, t: nat, d: Data)
    requires Good(s) && Owns(s, i, t)
    ensures Good(Modified(s, i, d))
  {
    ModifyContents(s, i, t, d);
    UsesSame(s, Modified(s, i, d));
  }

  lemma LogKeeps(s: State, i: nat, t: nat)
    requires Good(s) && Owns(s, i, t)
    ensures Good(Logged(s, i))
  {
    var s' := Logged(s, i);
    UniqueKept(s.bufs, s'.bufs, i);
    forall j | 0 <= j < |s.bufs| ensures BufOk(s', j) { assert BufOk(s, j); }
    ContentsSame(s, s');
    UsesSame(s, s');
  }

  lemma WriteContents(s: State, i: nat, t: nat)
    requires ContentsOk(s) && Owns(s, i, t)
    ensures ContentsOk(Written(s, i))
  {
    var s', id := Written(s, i), IdOf(s.bufs[i]);
    UsedIsAlone(s.bufs, i);
    UniqueKept(s.bufs, s'.bufs, i);
    forall j | 0 <= j < |s.bufs| ensures BufOk(s', j) { assert BufOk(s, j); }
    forall x ensures Holds(s'.bufs, x) <==> Holds(s.bufs, x) { SameHolds(s.bufs, s'.bufs, x); }
    assert s'.bufs[i].valid && Holds(s'.bufs, id);
  }

  lemma WriteKeeps(s: State, i: nat, t: nat)
    requires Good(s) && Owns(s, i, t)
    ensures Good(Written(s, i))
  {
    WriteContents(s, i, t);
    UsesSame(s, Written(s, i));
  }

  /** Unlocking needs every modification to have been logged or written. */
  lemma UnlockKeeps(s: State, i: nat, t: nat)
    requires Good(s) && Owns(s, i, t) && i !in s.touched
    ensures Good(Unlocked(s, i))
  {
    UnlockContents(s, i, t);
  }

  lemma UnlockContents(s: State, i: nat, t: nat)
    requires ContentsOk(s) && Owns(s, i, t) && i !in s.touched
    ensures ContentsOk(Unlocked(s, i))
  {
    var s' := Unlocked(s, i);
    UniqueKept(s.bufs, s'.bufs, i);
    forall j | 0 <= j < |s.bufs| ensures BufOk(s', j) { assert BufOk(s, j); }
    ContentsSame(s, s');
  }

  lemma InUse(s: State, t: nat)
    requires UsesOk(s) && t in s.tickets
    ensures s.bufs[s.tickets[t].buf].refcnt > 0
  {
    assert t in Users(s.tickets, s.tickets[t].buf);
  }

  lemma DropKeeps(s: State, t: nat)
    requires Good(s) && t in s.tickets && (s.tickets[t].buf in s.owner ==> s.owner[s.tickets[t].buf] != t)
    ensures s.bufs[s.tickets[t].buf].refcnt > 0 && Good(Dropped(s, t))
  {
    InUse(s, t);
    var s' := Dropped(s, t);
    DropContents(s, t);
    forall j | 0 <= j < |s.bufs| ensures s'.bufs[j].refcnt == |Users(s'.tickets, j)| {
      UsersDrop(s.tickets, t, j);
    }
  }

  lemma DropContents(s: State, t: nat)
    requires ContentsOk(s) && t in s.tickets && s.tickets[t].buf < |s.bufs| && s.bufs[s.tickets[t].buf].refcnt > 0
    ensures ContentsOk(Dropped(s, t))
  {
    var s' := Dropped(s, t);
    UniqueKept(s.bufs, s'.bufs, s.tickets[t].buf);
    forall j | 0 <= j < |s.bufs| ensures BufOk(s', j) { assert BufOk(s, j); }
    ContentsSame(s, s');
  }
}
