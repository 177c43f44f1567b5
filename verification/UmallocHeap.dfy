/** The allocator's heap as block lists: free blocks by address, live blocks, and the blocks
    obtained from the system. Addresses and sizes are in header units. */
module UmallocHeap {

  datatype Block = Block(addr: nat, size: nat)

  predicate Has(b: Block, u: nat) { b.addr <= u < b.addr + b.size }

  ghost predicate Covers(bs: seq<Block>, u: nat) {
    exists i :: 0 <= i < |bs| && Has(bs[i], u)
  }

  function Sum(bs: seq<Block>): nat {
    if bs == [] then 0 else bs[0].size + Sum(bs[1..])
  }

  lemma {:induction false} SumAppend(a: seq<Block>, b: seq<Block>)
    ensures Sum(a + b) == Sum(a) + Sum(b)
    decreases |a|
  {
    if a == [] {
      assert a + b == b;
    } else {
      assert (a + b)[1..] == a[1..] + b;
      SumAppend(a[1..], b);
    }
  }

  lemma SumSplit(bs: seq<Block>, i: nat)
    requires i < |bs|
    ensures Sum(bs) == Sum(bs[..i]) + bs[i].size + Sum(bs[i + 1..])
  {
    assert bs == bs[..i] + bs[i..];
    SumAppend(bs[..i], bs[i..]);
    assert bs[i..][1..] == bs[i + 1..];
  }

  lemma SumAround(a: seq<Block>, m: Block, b: seq<Block>)
    ensures Sum(a + [m] + b) == Sum(a) + m.size + Sum(b)
  {
    SumAppend(a + [m], b);
    SumAppend(a, [m]);
  }

  /** Address-sorted, disjoint, and with a gap after every block: nothing is left to coalesce. */
  predicate Coalesced(base: nat, bs: seq<Block>) {
    && (forall i :: 0 <= i < |bs| ==> base < bs[i].addr && bs[i].size >= 1)
    && (forall i, j :: 0 <= i < j < |bs| ==> bs[i].addr + bs[i].size < bs[j].addr)
  }

  predicate Apart(a: Block, b: Block) {
    a.addr + a.size <= b.addr || b.addr + b.size <= a.addr
  }

  predicate Separate(base: nat, bs: seq<Block>) {
    && (forall i :: 0 <= i < |bs| ==> base < bs[i].addr && bs[i].size >= 1)
    && (forall i, j :: 0 <= i < j < |bs| ==> Apart(bs[i], bs[j]))
  }

  /** Where a block belongs among the free blocks. */
  predicate Slot(bs: seq<Block>, b: Block, t: nat) {
    && t <= |bs|
    && (t > 0 ==> bs[t - 1].addr < b.addr)
    && (t < |bs| ==> b.addr < bs[t].addr)
  }

  predicate JoinsLeft(bs: seq<Block>, b: Block, t: nat) {
    0 < t <= |bs| && bs[t - 1].addr + bs[t - 1].size == b.addr
  }

  predicate JoinsRight(bs: seq<Block>, b: Block, t: nat) {
    t < |bs| && b.addr + b.size == bs[t].addr
  }

  /** The block after joining its neighbours. */
  function Merged(bs: seq<Block>, b: Block, t: nat): Block {
    Block(if JoinsLeft(bs, b, t) then bs[t - 1].addr else b.addr,
          (if JoinsLeft(bs, b, t) then bs[t - 1].size else 0) + b.size + if JoinsRight(bs, b, t) then bs[t].size else 0)
  }

  function Before(bs: seq<Block>, b: Block, t: nat): seq<Block>
    requires t <= |bs|
  {
    bs[..if JoinsLeft(bs, b, t) then t - 1 else t]
  }

  function Behind(bs: seq<Block>, b: Block, t: nat): seq<Block>
    requires t <= |bs|
  {
    bs[if JoinsRight(bs, b, t) then t + 1 else t..]
  }

  function Inserted(bs: seq<Block>, b: Block, t: nat): seq<Block>
    requires t <= |bs|
  {
    Before(bs, b, t) + [Merged(bs, b, t)] + Behind(bs, b, t)
  }

  ghost predicate Disjoint(a: seq<Block>, b: seq<Block>) {
    forall u :: !(Covers(a, u) && Covers(b, u))
  }

  /** A block that shares no unit with its neighbours ends before the next and starts after the last. */
  lemma Clearance(base: nat, bs: seq<Block>, b: Block, t: nat)
    requires Coalesced(base, bs) && Slot(bs, b, t) && b.size >= 1 && Disjoint(bs, [b])
    ensures t < |bs| ==> b.addr + b.size <= bs[t].addr
    ensures t > 0 ==> bs[t - 1].addr + bs[t - 1].size <= b.addr
  {
    if t < |bs| && b.addr + b.size > bs[t].addr {
      assert Has(bs[t], bs[t].addr) && Has([b][0], bs[t].addr);
      assert Covers(bs, bs[t].addr) && Covers([b], bs[t].addr);
    }
    if t > 0 && bs[t - 1].addr + bs[t - 1].size > b.addr {
      assert Has(bs[t - 1], b.addr) && Has([b][0], b.addr);
      assert Covers(bs, b.addr) && Covers([b], b.addr);
    }
  }

  /** Insertion keeps the list sorted and fully coalesced. */
  lemma InsertedCoalesced(base: nat, bs: seq<Block>, b: Block, t: nat)
    requires Coalesced(base, bs) && Slot(bs, b, t) && b.size >= 1 && base < b.addr && Disjoint(bs, [b])
    ensures Coalesced(base, Inserted(bs, b, t))
  {
    Clearance(base, bs, b, t);
    BeforeEnds(base, bs, b, t);
    BehindStarts(base, bs, b, t);
    AroundCoalesced(base, Before(bs, b, t), Merged(bs, b, t), Behind(bs, b, t));
  }

  lemma BeforeEnds(base: nat, bs: seq<Block>, b: Block, t: nat)
    requires Coalesced(base, bs) && Slot(bs, b, t)
    requires t > 0 ==> bs[t - 1].addr + bs[t - 1].size <= b.addr
    ensures var l := Before(bs, b, t);
      Coalesced(base, l) && forall i :: 0 <= i < |l| ==> l[i].addr + l[i].size < Merged(bs, b, t).addr
  {
    var l := Before(bs, b, t);
    forall i | 0 <= i < |l| ensures l[i].addr + l[i].size < Merged(bs, b, t).addr {
      assert l[i] == bs[i];
    }
  }

  lemma BehindStarts(base: nat, bs: seq<Block>, b: Block, t: nat)
    requires Coalesced(base, bs) && Slot(bs, b, t)
    requires t < |bs| ==> b.addr + b.size <= bs[t].addr
    ensures var r, m := Behind(bs, b, t), Merged(bs, b, t);
      Coalesced(base, r) && forall i :: 0 <= i < |r| ==> m.addr + m.size < r[i].addr
  {
    var r, m := Behind(bs, b, t), Merged(bs, b, t);
    assert m.addr + m.size == if JoinsRight(bs, b, t) then bs[t].addr + bs[t].size else b.addr + b.size;
    forall i | 0 <= i < |r| ensures m.addr + m.size < r[i].addr {
      assert r[i] == bs[|bs| - |r| + i];
    }
  }

  lemma AroundCoalesced(base: nat, l: seq<Block>, m: Block, r: seq<Block>)
    requires Coalesced(base, l) && Coalesced(base, r) && m.size >= 1 && base < m.addr
    requires forall i :: 0 <= i < |l| ==> l[i].addr + l[i].size < m.addr
    requires forall i :: 0 <= i < |r| ==> m.addr + m.size < r[i].addr
    ensures Coalesced(base, l + [m] + r)
  {
    var s := l + [m] + r;
    forall i, j | 0 <= i < j < |s| ensures s[i].addr + s[i].size < s[j].addr {
      assert i < |l| ==> s[i] == l[i];
      assert j > |l| ==> s[j] == r[j - |l| - 1];
      assert i > |l| ==> s[i] == r[i - |l| - 1];
    }
  }

  lemma AppendCovers(a: seq<Block>, b: seq<Block>, u: nat)
    ensures Covers(a + b, u) <==> Covers(a, u) || Covers(b, u)
  {
    var s := a + b;
    if Covers(a, u) {
      var i :| 0 <= i < |a| && Has(a[i], u);
      assert s[i] == a[i];
    }
    if Covers(b, u) {
      var i :| 0 <= i < |b| && Has(b[i], u);
      assert s[|a| + i] == b[i];
    }
    if Covers(s, u) {
      var i :| 0 <= i < |s| && Has(s[i], u);
      assert if i < |a| then s[i] == a[i] else s[i] == b[i - |a|];
    }
  }

  lemma OneCovers(b: Block, u: nat)
    ensures Covers([b], u) <==> Has(b, u)
  {
    assert [b][0] == b;
  }

  /** The free blocks that the new block joins. */
  function Joined(bs: seq<Block>, b: Block, t: nat): seq<Block> {
    (if JoinsLeft(bs, b, t) then [bs[t - 1]] else []) + (if JoinsRight(bs, b, t) then [bs[t]] else [])
  }

  lemma Around(bs: seq<Block>, b: Block, t: nat)
    requires t <= |bs|
    ensures bs == Before(bs, b, t) + Joined(bs, b, t) + Behind(bs, b, t)
  {
  }

  /** Insertion covers the old units and the new ones. */
  lemma InsertedCovers(base: nat, bs: seq<Block>, b: Block, t: nat, u: nat)
    requires Coalesced(base, bs) && Slot(bs, b, t) && b.size >= 1 && Disjoint(bs, [b])
    ensures Covers(Inserted(bs, b, t), u) <==> Covers(bs, u) || Has(b, u)
  {
    Around(bs, b, t);
    var l, m, r := Before(bs, b, t), Merged(bs, b, t), Behind(bs, b, t);
    AppendCovers(l + [m], r, u);
    AppendCovers(l, [m], u);
    OneCovers(m, u);
    AppendCovers(l + Joined(bs, b, t), r, u);
    AppendCovers(l, Joined(bs, b, t), u);
    MergedCovers(base, bs, b, t, u);
  }

  lemma MergedCovers(base: nat, bs: seq<Block>, b: Block, t: nat, u: nat)
    requires Coalesced(base, bs) && Slot(bs, b, t) && b.size >= 1
    ensures Has(Merged(bs, b, t), u) <==> Has(b, u) || Covers(Joined(bs, b, t), u)
  {
    AppendCovers(if JoinsLeft(bs, b, t) then [bs[t - 1]] else [], if JoinsRight(bs, b, t) then [bs[t]] else [], u);
    if JoinsLeft(bs, b, t) { OneCovers(bs[t - 1], u); }
    if JoinsRight(bs, b, t) { OneCovers(bs[t], u); }
  }

  lemma InsertedSum(bs: seq<Block>, b: Block, t: nat)
    requires t <= |bs|
    ensures Sum(Inserted(bs, b, t)) == Sum(bs) + b.size
  {
    Around(bs, b, t);
    var l, m, r := Before(bs, b, t), Merged(bs, b, t), Behind(bs, b, t);
    SumAround(l, m, r);
    SumAppend(l + Joined(bs, b, t), r);
    SumAppend(l, Joined(bs, b, t));
    JoinedSum(bs, b, t);
  }

  lemma JoinedSum(bs: seq<Block>, b: Block, t: nat)
    requires t <= |bs|
    ensures Sum(Joined(bs, b, t)) + b.size == Merged(bs, b, t).size
  {
    SumAppend(if JoinsLeft(bs, b, t) then [bs[t - 1]] else [], if JoinsRight(bs, b, t) then [bs[t]] else []);
  }

  /** Carving n units off the end of the k-th free block. */
  function Carved(bs: seq<Block>, k: nat, n: nat): seq<Block>
    requires k < |bs| && 1 <= n <= bs[k].size
  {
    if bs[k].size == n then bs[..k] + bs[k + 1..] else bs[k := Block(bs[k].addr, bs[k].size - n)]
  }

  function Carving(bs: seq<Block>, k: nat, n: nat): Block
    requires k < |bs| && 1 <= n <= bs[k].size
  {
    Block(bs[k].addr + bs[k].size - n, n)
  }

  lemma CarvedCoalesced(base: nat, bs: seq<Block>, k: nat, n: nat)
    requires Coalesced(base, bs) && k < |bs| && 1 <= n <= bs[k].size
    ensures Coalesced(base, Carved(bs, k, n))
  {
  }

  lemma CarvedCovers(base: nat, bs: seq<Block>, k: nat, n: nat, u: nat)
    requires Coalesced(base, bs) && k < |bs| && 1 <= n <= bs[k].size
    ensures Covers(bs, u) <==> Covers(Carved(bs, k, n), u) || Has(Carving(bs, k, n), u)
    ensures !(Covers(Carved(bs, k, n), u) && Has(Carving(bs, k, n), u))
  {
    var l, r := bs[..k], bs[k + 1..];
    var rest := if bs[k].size == n then [] else [Block(bs[k].addr, bs[k].size - n)];
    assert bs == l + [bs[k]] + r && Carved(bs, k, n) == l + rest + r;
    AppendCovers(l + [bs[k]], r, u);
    AppendCovers(l, [bs[k]], u);
    AppendCovers(l + rest, r, u);
    AppendCovers(l, rest, u);
    OneCovers(bs[k], u);
    if rest != [] { OneCovers(rest[0], u); }
    OthersMiss(base, bs, k, u);
  }

  lemma OthersMiss(base: nat, bs: seq<Block>, k: nat, u: nat)
    requires Coalesced(base, bs) && k < |bs|
    ensures Has(bs[k], u) ==> !Covers(bs[..k], u) && !Covers(bs[k + 1..], u)
  {
    if Covers(bs[..k], u) {
      var i :| 0 <= i < k && Has(bs[..k][i], u);
      assert bs[i].addr + bs[i].size < bs[k].addr;
    }
    if Covers(bs[k + 1..], u) {
      var i :| 0 <= i < |bs| - k - 1 && Has(bs[k + 1..][i], u);
      assert bs[k].addr + bs[k].size < bs[k + 1 + i].addr;
    }
  }

  lemma CarvedSum(bs: seq<Block>, k: nat, n: nat)
    requires k < |bs| && 1 <= n <= bs[k].size
    ensures Sum(bs) == Sum(Carved(bs, k, n)) + n
  {
    SumSplit(bs, k);
    if bs[k].size == n {
      SumAppend(bs[..k], bs[k + 1..]);
    } else {
      var cs := Carved(bs, k, n);
      SumSplit(cs, k);
      assert cs[..k] == bs[..k] && cs[k + 1..] == bs[k + 1..];
    }
  }

  datatype Heap = Heap(free: seq<Block>, live: seq<Block>, grants: seq<Block>)

  /** Free and live blocks partition the units obtained from the system, and their sizes add up. */
  ghost predicate Partition(h: Heap) {
    && Disjoint(h.free, h.live)
    && (forall u :: Covers(h.grants, u) <==> Covers(h.free, u) || Covers(h.live, u))
    && Sum(h.free) + Sum(h.live) == Sum(h.grants)
  }

  ghost predicate Ok(base: nat, h: Heap) {
    Coalesced(base, h.free) && Separate(base, h.live) && Separate(base, h.grants) && Partition(h)
  }

  function Without(bs: seq<Block>, i: nat): seq<Block>
    requires i < |bs|
  {
    bs[..i] + bs[i + 1..]
  }

  function AfterFree(h: Heap, i: nat, t: nat): Heap
    requires i < |h.live| && t <= |h.free|
  {
    Heap(Inserted(h.free, h.live[i], t), Without(h.live, i), h.grants)
  }

  function AfterTake(h: Heap, k: nat, n: nat): Heap
    requires k < |h.free| && 1 <= n <= h.free[k].size
  {
    Heap(Carved(h.free, k, n), h.live + [Carving(h.free, k, n)], h.grants)
  }

  function AfterGrant(h: Heap, b: Block): Heap {
    Heap(h.free, h.live + [b], h.grants + [b])
  }

  lemma WithoutCovers(bs: seq<Block>, i: nat, u: nat)
    requires i < |bs|
    ensures Covers(bs, u) <==> Covers(Without(bs, i), u) || Has(bs[i], u)
  {
    var ws := Without(bs, i);
    if Covers(bs, u) {
      var j :| 0 <= j < |bs| && Has(bs[j], u);
      if j < i { assert ws[j] == bs[j]; }
      if j > i { assert ws[j - 1] == bs[j]; }
    }
    if Covers(ws, u) {
      var j :| 0 <= j < |ws| && Has(ws[j], u);
      assert ws[j] == bs[if j < i then j else j + 1];
    }
  }

  lemma WithoutApart(base: nat, bs: seq<Block>, i: nat, u: nat)
    requires Separate(base, bs) && i < |bs| && Covers(Without(bs, i), u)
    ensures !Has(bs[i], u)
  {
    var ws := Without(bs, i);
    var j :| 0 <= j < |ws| && Has(ws[j], u);
    var k := if j < i then j else j + 1;
    assert ws[j] == bs[k];
    assert if k < i then Apart(bs[k], bs[i]) else Apart(bs[i], bs[k]);
  }

  lemma WithoutSum(bs: seq<Block>, i: nat)
    requires i < |bs|
    ensures Sum(bs) == Sum(Without(bs, i)) + bs[i].size
  {
    SumSplit(bs, i);
    SumAppend(bs[..i], bs[i + 1..]);
  }

  lemma AddedCovers(bs: seq<Block>, b: Block, u: nat)
    ensures Covers(bs + [b], u) <==> Covers(bs, u) || Has(b, u)
  {
    var cs := bs + [b];
    if Covers(bs, u) {
      var i :| 0 <= i < |bs| && Has(bs[i], u);
      assert cs[i] == bs[i];
    }
    assert cs[|bs|] == b;
  }

  lemma LiveBlockDisjoint(base: nat, h: Heap, i: nat)
    requires Ok(base, h) && i < |h.live|
    ensures Disjoint(h.free, [h.live[i]])
  {
    forall u ensures Covers([h.live[i]], u) ==> Covers(h.live, u) {
      OneCovers(h.live[i], u);
    }
  }

  /** free keeps the heap. */
  lemma FreeKeeps(base: nat, h: Heap, i: nat, t: nat)
    requires Ok(base, h) && i < |h.live| && t <= |h.free| && Slot(h.free, h.live[i], t)
    ensures Ok(base, AfterFree(h, i, t))
  {
    var b, h' := h.live[i], AfterFree(h, i, t);
    LiveBlockDisjoint(base, h, i);
    InsertedCoalesced(base, h.free, b, t);
    InsertedSum(h.free, b, t);
    WithoutSum(h.live, i);
    forall u ensures Covers(h'.free, u) <==> Covers(h.free, u) || Has(b, u) { InsertedCovers(base, h.free, b, t, u); }
    forall u ensures Covers(h.live, u) <==> Covers(h'.live, u) || Has(b, u) { WithoutCovers(h.live, i, u); }
    forall u ensures !(Covers(h'.live, u) && Has(b, u)) { if Covers(h'.live, u) { WithoutApart(base, h.live, i, u); } }
  }

  /** Taking a block from the free list keeps the heap. */
  lemma TakeKeeps(base: nat, h: Heap, k: nat, n: nat)
    requires Ok(base, h) && k < |h.free| && 1 <= n <= h.free[k].size
    ensures Ok(base, AfterTake(h, k, n))
  {
    var b, h' := Carving(h.free, k, n), AfterTake(h, k, n);
    CarvedCoalesced(base, h.free, k, n);
    CarvedSum(h.free, k, n);
    SumAppend(h.live, [b]);
    forall u ensures Covers(h.free, u) <==> Covers(h'.free, u) || Has(b, u) { CarvedCovers(base, h.free, k, n, u); }
    forall u ensures !(Covers(h'.free, u) && Has(b, u)) { CarvedCovers(base, h.free, k, n, u); }
    forall u ensures Covers(h'.live, u) <==> Covers(h.live, u) || Has(b, u) { AddedCovers(h.live, b, u); }
    NewSeparate(base, h.live, b);
  }

  lemma NewSeparate(base: nat, bs: seq<Block>, b: Block)
    requires Separate(base, bs) && b.size >= 1 && base < b.addr && forall u :: !(Covers(bs, u) && Has(b, u))
    ensures Separate(base, bs + [b])
  {
    forall i | 0 <= i < |bs| ensures Apart(bs[i], b) {
      var u := if bs[i].addr < b.addr then b.addr else bs[i].addr;
      assert Has(bs[i], u) ==> Covers(bs, u);
    }
  }

  /** A block obtained from the system is above every earlier one. */
  lemma GrantKeeps(base: nat, h: Heap, b: Block)
    requires Ok(base, h) && b.size >= 1 && base < b.addr && forall i :: 0 <= i < |h.grants| ==>
               h.grants[i].addr + h.grants[i].size <= b.addr
    ensures Ok(base, AfterGrant(h, b))
  {
    var h' := AfterGrant(h, b);
    SumAppend(h.live, [b]);
    SumAppend(h.grants, [b]);
    forall u ensures Covers(h'.live, u) <==> Covers(h.live, u) || Has(b, u) { AddedCovers(h.live, b, u); }
    forall u ensures Covers(h'.grants, u) <==> Covers(h.grants, u) || Has(b, u) { AddedCovers(h.grants, b, u); }
    forall u ensures !(Covers(h.grants, u) && Has(b, u)) {
    }
    NewSeparate(base, h.live, b);
    NewSeparate(base, h.grants, b);
  }
}
