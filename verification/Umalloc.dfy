/** malloc, free and morecore on the headers. */
module Umalloc {
  import opened Basics
  import opened UmallocHeap
  import opened UmallocList

  const WORD: nat := 0x1_0000_0000
  const HEADER: nat := 8
  const CHUNK: nat := 4096

  /** The header units malloc asks for: the rounded request and one header, in 32 bits. */
  function UnitsFor(nbytes: nat): nat { (nbytes + HEADER - 1) % WORD / HEADER + 1 }

  function MoreUnits(nu: nat): nat { if nu < CHUNK then CHUNK else nu }

  /** The argument that reaches sbrk: a 32-bit product, read as a signed number. */
  function SbrkBytes(nu: nat): int {
    var w := nu * HEADER % WORD;
    if w < WORD / 2 then w else w - WORD
  }

  predicate BigEnough(nbytes: nat) { (UnitsFor(nbytes) - 1) * HEADER >= nbytes }

  predicate AsksEnough(nbytes: nat) { SbrkBytes(MoreUnits(UnitsFor(nbytes))) == MoreUnits(UnitsFor(nbytes)) * HEADER }

  /** The block is as large as the request, and sbrk is asked for as much as morecore assumes,
      exactly for requests up to 2^31 - 16 bytes. */
  lemma RequestFits(nbytes: nat)
    requires nbytes < WORD
    ensures BigEnough(nbytes) <==> nbytes < WORD - 7
    ensures AsksEnough(nbytes) <==> nbytes <= WORD / 2 - 16 || nbytes >= WORD - 7
    ensures BigEnough(nbytes) && AsksEnough(nbytes) <==> nbytes <= WORD / 2 - 16
  {
    var n := UnitsFor(nbytes);
    if nbytes < WORD - 7 {
      assert n == (nbytes + 7) / 8 + 1;
    } else {
      assert n == 1;
    }
  }

  /** Requests that fail: the first is given one unit, the second asks sbrk for nothing. */
  lemma RequestMisfits()
    ensures UnitsFor(WORD - 1) == 1 && !BigEnough(WORD - 1)
    ensures UnitsFor(WORD - 8) == WORD / 8 && SbrkBytes(UnitsFor(WORD - 8)) == 0
  {
  }

  /** The live blocks' headers are not on the ring. */
  lemma LiveOffRing(base: nat, h: Heap, i: nat, j: nat)
    requires Ok(base, h) && i <= |h.free| && j < |h.live|
    ensures Node(base, h.free, i) != h.live[j].addr
  {
    LiveBlockDisjoint(base, h, j);
    NotANode(base, h.free, h.live[j], i);
  }

  lemma LiveDistinct(base: nat, live: seq<Block>, i: nat, j: nat)
    requires Separate(base, live) && i < |live| && j < |live| && i != j
    ensures live[i].addr != live[j].addr
  {
    assert if i < j then Apart(live[i], live[j]) else Apart(live[j], live[i]);
  }

  lemma FreeHeaders(base: nat, h: Heap, i: nat, t: nat, size: map<nat, nat>, size': map<nat, nat>)
    requires Ok(base, h) && i < |h.live| && t <= |h.free| && Headers(h.live, size)
    requires forall a :: a in size && a != h.live[i].addr && a != Node(base, h.free, t) ==>
               a in size' && size'[a] == size[a]
    ensures Headers(Without(h.live, i), size')
  {
    var ws := Without(h.live, i);
    forall j | 0 <= j < |ws| ensures ws[j].addr in size' && size'[ws[j].addr] == ws[j].size {
      var k := if j < i then j else j + 1;
      assert ws[j] == h.live[k];
      LiveDistinct(base, h.live, i, k);
      LiveOffRing(base, h, t, k);
    }
  }

  lemma HasCovers(bs: seq<Block>, i: nat, u: nat)
    requires i < |bs|
    ensures Has(bs[i], u) ==> Covers(bs, u)
  {
  }

  lemma TakeHeaders(base: nat, h: Heap, k: nat, n: nat, size: map<nat, nat>, size': map<nat, nat>)
    requires Ok(base, h) && k < |h.free| && 1 <= n <= h.free[k].size && Headers(h.live, size)
    requires Carving(h.free, k, n).addr in size' && size'[Carving(h.free, k, n).addr] == n
    requires forall a :: a in size && !Has(h.free[k], a) ==> a in size' && size'[a] == size[a]
    ensures Headers(h.live + [Carving(h.free, k, n)], size')
  {
    forall j | 0 <= j < |h.live| ensures h.live[j].addr in size' && size'[h.live[j].addr] == h.live[j].size {
      HasCovers(h.live, j, h.live[j].addr);
      HasCovers(h.free, k, h.live[j].addr);
    }
  }

  class Allocator {
    const base: nat
    var freep: nat // 0 until the first malloc
    var ptr: map<nat, nat>
    var size: map<nat, nat>
    ghost var heap: Heap
    ghost var at: nat // where freep is on the ring

    ghost predicate Ready()
      reads this
    {
      && 0 < base && Ok(base, heap) && Headers(heap.live, size)
      && at <= |heap.free| && freep == Node(base, heap.free, at) && Linked(base, heap.free, ptr, size)
    }

    ghost predicate Valid()
      reads this
    {
      if freep == 0 then 0 < base && heap == Heap([], [], []) && at == 0 else Ready()
    }

    constructor (b: nat)
      requires b > 0
      ensures Valid() && base == b && heap == Heap([], [], [])
    {
      base := b;
      freep := 0;
      ptr, size := map[], map[];
      heap, at := Heap([], [], []), 0;
    }

    /** Walks the ring from freep to the node behind which a block belongs. */
    method Search(bp: nat, ghost b: Block, ghost t: nat) returns (p: nat)
      requires Ready() && Slot(heap.free, b, t) && base < b.addr == bp
      requires forall i :: 0 <= i < |heap.free| ==> heap.free[i].addr != bp
      ensures p == Node(base, heap.free, t)
    {
      ghost var bs := heap.free;
      p := freep;
      ghost var j: nat := at;
      assert NodeOk(base, bs, ptr, size, j);
      while !(bp > p && bp < ptr[p])
        invariant j <= |bs| && p == Node(base, bs, j) && p in ptr && ptr[p] == Node(base, bs, After(bs, j))
        invariant Linked(base, bs, ptr, size)
        decreases Distance(|bs|, j, t)
      {
        StopsOnlyAtSlot(base, bs, b, t, j);
        if p >= ptr[p] && (bp > p || bp < ptr[p]) {
          break;
        }
        assert NodeOk(base, bs, ptr, size, After(bs, j));
        p := ptr[p];
        j := After(bs, j);
      }
      StopsOnlyAtSlot(base, bs, b, t, j);
    }

    /** Gives the i-th live block back; it is merged into the ring at its place t. */
    method Free(ap: nat, ghost i: nat) returns (ghost t: nat)
      requires Ready() && i < |heap.live| && ap == heap.live[i].addr + 1
      modifies this`freep, this`ptr, this`size, this`heap, this`at
      ensures Ready() && Slot(old(heap.free), old(heap.live)[i], t)
      ensures heap == AfterFree(old(heap), i, t) && at == t
    {
      var bp := ap - 1;
      t := LiveSlot(base, heap, i);
      var p := Search(bp, heap.live[i], t);
      FreeDefined(base, heap, i, t, ptr, size);
      FreeRing(base, heap, i, t, ptr, size);
      FreeLive(base, heap, i, t, ptr, size);
      FreeKeeps(base, heap, i, t);
      Splice(p, bp);
      freep := p;
      heap, at := AfterFree(heap, i, t), t;
    }

    /** Obtains a chunk and frees it; grant is what sbrk answers, None for -1. */
    method Morecore(nunits: nat, grant: Option<nat>) returns (q: nat)
      requires Ready() && nunits >= 1
      requires grant.Some? ==> Above(grant.value)
      modifies this`freep, this`ptr, this`size, this`heap, this`at
      ensures Ready() && (q == 0 <==> grant.None?)
      ensures grant.None? ==> heap == old(heap) && at == old(at)
      ensures grant.Some? ==> q == freep && Granted(old(heap), heap, at, Block(grant.value, MoreUnits(nunits)))
    {
      var nu := MoreUnits(nunits);
      if grant.None? {
        return 0;
      }
      var hp := grant.value;
      ghost var h, b := heap, Block(hp, nu);
      GrantReady(base, heap, b, ptr, size);
      size := size[hp := nu];
      heap := AfterGrant(heap, b);
      ghost var t := Free(hp + 1, |h.live|);
      q := freep;
    }

    /** Every unit obtained so far is below a. */
    ghost predicate Above(a: nat)
      reads this
    {
      base < a && forall i :: 0 <= i < |heap.grants| ==> heap.grants[i].addr + heap.grants[i].size <= a
    }

    /** A block of the requested size when one is free, or when sbrk grants a chunk. For some requests
        the number of bytes that sbrk is asked for is not what morecore assumes; if no free block is
        large enough for such a request, the process shrinks or does not grow, and ok is false. */
    method Malloc(nbytes: nat, grant: Option<nat>) returns (ap: nat, ok: bool)
      requires Valid() && nbytes < WORD
      requires grant.Some? ==> Above(grant.value)
      modifies this`freep, this`ptr, this`size, this`heap, this`at
      ensures Valid() && (ok ==> Allocated(old(heap), old(at), heap, at, ap, UnitsFor(nbytes), grant))
      ensures ok <==> AsksEnough(nbytes) || HasLarge(old(heap), UnitsFor(nbytes))
      ensures !ok ==> heap == old(heap) && at == old(at)
      ensures freep == Node(base, heap.free, at)
    {
      var nunits := UnitsFor(nbytes);
      if freep == 0 {
        ptr, size := map[base := base], map[base := 0];
        freep := base;
        at := 0;
        StartReady(base, ptr, size);
      }
      var asks := AsksEnough(nbytes);
      ap := Walk(nunits, if asks then grant else None);
      ok := asks || ap != 0;
    }

    /** The loop of malloc: around the ring, once more after asking the system. */
    method Walk(nunits: nat, grant: Option<nat>) returns (ap: nat)
      requires Ready() && nunits >= 1
      requires grant.Some? ==> Above(grant.value)
      modifies this`freep, this`ptr, this`size, this`heap, this`at
      ensures Ready() && Allocated(old(heap), old(at), heap, at, ap, nunits, grant)
    {
      var prevp := freep;
      assert NodeOk(base, heap.free, ptr, size, at);
      var p := ptr[prevp];
      ghost var ip, grown := at, false;
      AllAhead(heap.free, at);
      while true
        invariant Ready() && Hunting(old(heap), old(at), heap, at, ip, nunits, grant, grown)
        invariant prevp == Node(base, heap.free, ip) && p == Node(base, heap.free, After(heap.free, ip))
        decreases !grown, Distance(|heap.free|, After(heap.free, ip), at)
      {
        LooksAt(p, ip);
        if size[p] >= nunits {
          ap := TakeFound(prevp, p, nunits, old(heap), old(at), ip, grant, grown);
          return;
        }
        if p == freep {
          p := AskMore(nunits, grant, old(heap), old(at), ip, grown);
          if p == 0 {
            return 0;
          }
          grown, ip := true, at;
        } else {
          Passes(p, nunits, old(heap), old(at), ip, grant, grown);
          ip := After(heap.free, ip);
        }
        prevp := p;
        assert NodeOk(base, heap.free, ptr, size, ip);
        p := ptr[p];
      }
    }

    /** The header that the walk looks at is the next node's. */
    lemma LooksAt(p: nat, ip: nat)
      requires Ready() && ip <= |heap.free| && p == Node(base, heap.free, After(heap.free, ip))
      ensures p in size && p in ptr && size[p] == SizeAt(heap.free, After(heap.free, ip))
      ensures p == freep ==> After(heap.free, ip) == at
    {
      assert NodeOk(base, heap.free, ptr, size, After(heap.free, ip));
      if p == freep {
        SameNode(base, heap.free, After(heap.free, ip), at);
      }
    }

    lemma Passes(p: nat, nunits: nat, h0: Heap, at0: nat, ip: nat, grant: Option<nat>, grown: bool)
      requires Ready() && Hunting(h0, at0, heap, at, ip, nunits, grant, grown)
      requires p == Node(base, heap.free, After(heap.free, ip)) && p != freep
      requires SizeAt(heap.free, After(heap.free, ip)) < nunits
      ensures var j := After(heap.free, ip);
              && Hunting(h0, at0, heap, at, j, nunits, grant, grown)
              && Distance(|heap.free|, After(heap.free, j), at) < Distance(|heap.free|, j, at)
    {
      HuntSteps(h0, at0, heap, at, ip, nunits, grant, grown);
    }

    /** The block at p is large enough. */
    method TakeFound(prevp: nat, p: nat, nunits: nat, ghost h0: Heap, ghost at0: nat, ghost ip: nat,
                     ghost grant: Option<nat>, ghost grown: bool)
      returns (ap: nat)
      requires Ready() && Hunting(h0, at0, heap, at, ip, nunits, grant, grown) && nunits >= 1
      requires prevp == Node(base, heap.free, ip) && p == Node(base, heap.free, After(heap.free, ip))
      requires SizeAt(heap.free, After(heap.free, ip)) >= nunits
      modifies this`freep, this`ptr, this`size, this`heap, this`at
      ensures Ready() && Allocated(h0, at0, heap, at, ap, nunits, grant)
    {
      FoundIsFirst(heap.free, ip, at, nunits);
      var q := Take(prevp, p, nunits, ip);
      ap := q + 1;
      FirstTaken(h0, at0, old(heap), old(at), heap, ip, ap, nunits, grant, grown);
    }

    /** The walk is back at freep: the system is asked, for the first time. */
    method AskMore(nunits: nat, grant: Option<nat>, ghost h0: Heap, ghost at0: nat, ghost ip: nat, ghost grown: bool)
      returns (q: nat)
      requires Ready() && Hunting(h0, at0, heap, at, ip, nunits, grant, grown) && nunits >= 1
      requires After(heap.free, ip) == at && SizeAt(heap.free, at) < nunits
      requires grant.Some? && !grown ==> Above(grant.value)
      modifies this`freep, this`ptr, this`size, this`heap, this`at
      ensures Ready() && !grown
      ensures q == 0 ==> Allocated(h0, at0, heap, at, 0, nunits, grant)
      ensures q != 0 ==> q == freep && Hunting(h0, at0, heap, at, at, nunits, grant, true)
    {
      HuntWraps(h0, at0, heap, at, ip, nunits, grant, grown);
      q := Morecore(nunits, grant);
      AllAhead(heap.free, at);
    }

    /** Takes nunits from the free block at p, the one behind prevp. */
    method Take(prevp: nat, p: nat, nunits: nat, ghost k: nat) returns (q: nat)
      requires Ready() && k < |heap.free| && 1 <= nunits <= heap.free[k].size
      requires prevp == Node(base, heap.free, k) && p == heap.free[k].addr
      modifies this`freep, this`ptr, this`size, this`heap, this`at
      ensures Ready() && heap == AfterTake(old(heap), k, nunits) && q == Carving(old(heap.free), k, nunits).addr
      ensures at == k && freep == prevp
    {
      assert NodeOk(base, heap.free, ptr, size, k) && NodeOk(base, heap.free, ptr, size, k + 1);
      TakeReady(base, heap, k, nunits, ptr, size);
      TakeKeeps(base, heap, k, nunits);
      q := Carve(prevp, p, nunits);
      freep := prevp;
      heap, at := AfterTake(heap, k, nunits), k;
    }

    method Carve(prevp: nat, p: nat, nunits: nat) returns (q: nat)
      requires p in size && p in ptr && size[p] >= nunits
      modifies this`ptr, this`size
      ensures q == p + old(size)[p] - nunits
      ensures old(size)[p] == nunits ==> ptr == old(ptr)[prevp := old(ptr)[p]] && size == old(size)
      ensures old(size)[p] != nunits ==> ptr == old(ptr) && size == old(size)[p := old(size)[p] - nunits][q := nunits]
    {
      q := p;
      if size[p] == nunits {
        ptr := ptr[prevp := ptr[p]];
      } else {
        size := size[p := size[p] - nunits];
        q := p + size[p];
        size := size[q := nunits];
      }
    }

    method Splice(p: nat, bp: nat)
      requires p in ptr && p in size && bp in size && ptr[p] in ptr && ptr[p] in size && ptr[p] != bp && p != bp
      modifies this`ptr, this`size
      ensures ptr == LinkedIn(old(ptr), old(size), p, bp) && size == Joining(old(ptr), old(size), p, bp)
    {
      if bp + size[bp] == ptr[p] {
        size := size[bp := size[bp] + size[ptr[p]]];
        ptr := ptr[bp := ptr[ptr[p]]];
      } else {
        ptr := ptr[bp := ptr[p]];
      }
      if p + size[p] == bp {
        size := size[p := size[p] + size[bp]];
        ptr := ptr[p := ptr[bp]];
      } else {
        ptr := ptr[p := bp];
      }
    }
  }

  lemma LiveSlot(base: nat, h: Heap, i: nat) returns (t: nat)
    requires Ok(base, h) && i < |h.live|
    ensures Slot(h.free, h.live[i], t) && forall j :: 0 <= j < |h.free| ==> h.free[j].addr != h.live[i].addr
  {
    forall j | 0 <= j < |h.free| ensures h.free[j].addr != h.live[i].addr { LiveOffRing(base, h, j + 1, i); }
    t := SlotExists(h.free, h.live[i], |h.free|);
  }

  ghost predicate Freeing(base: nat, h: Heap, i: nat, t: nat, ptr: map<nat, nat>, size: map<nat, nat>) {
    Ok(base, h) && i < |h.live| && Slot(h.free, h.live[i], t) && Linked(base, h.free, ptr, size)
      && Headers(h.live, size)
  }

  lemma FreeDefined(base: nat, h: Heap, i: nat, t: nat, ptr: map<nat, nat>, size: map<nat, nat>)
    requires Freeing(base, h, i, t, ptr, size)
    ensures var p, bp := Node(base, h.free, t), h.live[i].addr;
      p in ptr && p in size && bp in size && ptr[p] in ptr && ptr[p] in size && ptr[p] != bp && p != bp
  {
    LiveBlockDisjoint(base, h, i);
    TestsRight(base, h.free, h.live[i], t, ptr, size);
    LiveOffRing(base, h, t, i);
    LiveOffRing(base, h, UmallocList.After(h.free, t), i);
  }

  /** Linking the block in gives a ring again, with freep on it. */
  lemma FreeRing(base: nat, h: Heap, i: nat, t: nat, ptr: map<nat, nat>, size: map<nat, nat>)
    requires Freeing(base, h, i, t, ptr, size)
    ensures var p, bp, h' := Node(base, h.free, t), h.live[i].addr, AfterFree(h, i, t);
      && p in ptr && p in size && bp in size && ptr[p] in ptr && ptr[p] in size
      && Linked(base, h'.free, LinkedIn(ptr, size, p, bp), Joining(ptr, size, p, bp))
      && t <= |h'.free| && Node(base, h'.free, t) == p
  {
    FreeDefined(base, h, i, t, ptr, size);
    LiveBlockDisjoint(base, h, i);
    SpliceLinked(base, h.free, h.live[i], t, ptr, size);
    SpliceAt(base, h.free, h.live[i], t);
  }

  /** The headers of the other live blocks stay. */
  lemma FreeLive(base: nat, h: Heap, i: nat, t: nat, ptr: map<nat, nat>, size: map<nat, nat>)
    requires Freeing(base, h, i, t, ptr, size)
    ensures var p, bp := Node(base, h.free, t), h.live[i].addr;
      && p in ptr && p in size && bp in size && ptr[p] in ptr && ptr[p] in size
      && Headers(AfterFree(h, i, t).live, Joining(ptr, size, p, bp))
  {
    FreeDefined(base, h, i, t, ptr, size);
    FreeHeaders(base, h, i, t, size, Joining(ptr, size, Node(base, h.free, t), h.live[i].addr));
  }

  // The walk of malloc around the ring.

  function SizeAt(bs: seq<Block>, i: nat): nat
    requires i <= |bs|
  {
    if i == 0 then 0 else bs[i - 1].size
  }

  /** Walking from node j to node f one comes by node x. */
  predicate Ahead(n: nat, j: nat, f: nat, x: nat) { Distance(n, j, x) <= Distance(n, j, f) }

  predicate SmallBehind(bs: seq<Block>, j: nat, f: nat, n: nat) {
    forall x :: 0 <= x <= |bs| && !Ahead(|bs|, j, f, x) ==> SizeAt(bs, x) < n
  }

  lemma AllAhead(bs: seq<Block>, f: nat)
    requires f <= |bs|
    ensures forall x :: 0 <= x <= |bs| ==> Ahead(|bs|, After(bs, f), f, x)
  {
  }

  lemma LastAhead(bs: seq<Block>, f: nat)
    requires f <= |bs|
    ensures forall x :: 0 <= x <= |bs| ==> (Ahead(|bs|, f, f, x) <==> x == f)
  {
  }

  lemma StepAhead(bs: seq<Block>, j: nat, f: nat)
    requires j <= |bs| && f <= |bs| && j != f
    ensures Distance(|bs|, After(bs, j), f) == Distance(|bs|, j, f) - 1
    ensures forall x :: 0 <= x <= |bs| ==> (Ahead(|bs|, After(bs, j), f, x) <==> Ahead(|bs|, j, f, x) && x != j)
  {
  }

  ghost predicate HasLarge(h: Heap, nunits: nat) {
    exists i :: 0 <= i < |h.free| && h.free[i].size >= nunits
  }

  /** Block k is the first of the free blocks, after node f of the ring and around, of at least n units. */
  ghost predicate FirstFit(bs: seq<Block>, f: nat, n: nat, k: nat) {
    && k < |bs| && bs[k].size >= n
    && forall i :: 0 <= i < |bs| && (if f <= k then f <= i < k else f <= i || i < k) ==> bs[i].size < n
  }

  lemma FoundIsFirst(bs: seq<Block>, ip: nat, f: nat, n: nat)
    requires ip <= |bs| && f <= |bs| && n >= 1
    requires SmallBehind(bs, After(bs, ip), f, n) && SizeAt(bs, After(bs, ip)) >= n
    ensures ip < |bs| && FirstFit(bs, f, n, ip)
  {
    forall i | 0 <= i < |bs| && (if f <= ip then f <= i < ip else f <= i || i < ip) ensures bs[i].size < n {
      assert !Ahead(|bs|, ip + 1, f, i + 1);
      assert SizeAt(bs, i + 1) == bs[i].size;
    }
  }

  /** The last n units of the first block of at least n units after node f are the new live block at
      ap, and freep is the node before it. */
  ghost predicate TookFirst(h: Heap, f: nat, h': Heap, f': nat, ap: nat, n: nat)
    requires n >= 1
  {
    && FirstFit(h.free, f, n, f')
    && h' == AfterTake(h, f', n)
    && ap == h.free[f'].addr + h.free[f'].size - n + 1
  }

  /** Chunk b was obtained from the system and freed, which leaves freep at node f. */
  ghost predicate Granted(h: Heap, h': Heap, f: nat, b: Block) {
    Slot(h.free, b, f) && h' == AfterFree(AfterGrant(h, b), |h.live|, f)
  }

  /** What malloc did. If a free block is large enough, the first such block after freep is used.
      If not, the system is asked, once, and the first such block after that is used; if the system
      refuses, there is no block and everything is as before. */
  ghost predicate Allocated(h: Heap, f: nat, h': Heap, f': nat, ap: nat, n: nat, grant: Option<nat>)
    requires n >= 1
  {
    if HasLarge(h, n) then TookFirst(h, f, h', f', ap, n)
    else if grant.None? then ap == 0 && h' == h && f' == f
    else exists g, t :: Granted(h, g, t, Block(grant.value, MoreUnits(n))) && TookFirst(g, t, h', f', ap, n)
  }

  /** So the new block is the last live one, the rest of the live blocks is as before, and what is
      obtained from the system is as much as is needed but at least 4096 units. */
  lemma AllocatedLive(h: Heap, f: nat, h': Heap, f': nat, ap: nat, n: nat, grant: Option<nat>)
    requires n >= 1 && Allocated(h, f, h', f', ap, n, grant)
    ensures ap == 0 <==> !HasLarge(h, n) && grant.None?
    ensures ap != 0 ==> h'.live == h.live + [Block(ap - 1, n)]
    ensures h'.grants == h.grants + if HasLarge(h, n) || grant.None? then []
                                    else [Block(grant.value, if n < 4096 then 4096 else n)]
  {
    if !HasLarge(h, n) && grant.Some? {
      var g, t :| Granted(h, g, t, Block(grant.value, MoreUnits(n))) && TookFirst(g, t, h', f', ap, n);
      GrantedLive(h, g, t, Block(grant.value, MoreUnits(n)));
    }
  }

  lemma GrantedLive(h: Heap, h': Heap, f: nat, b: Block)
    requires Granted(h, h', f, b)
    ensures h'.live == h.live && h'.grants == h.grants + [b]
  {
    assert (h.live + [b])[..|h.live|] == h.live;
  }

  /** The state of malloc's walk: every node passed since freep is too small; before the system is
      asked the heap is as it was, afterwards it is as morecore left it. */
  ghost predicate Hunting(h0: Heap, f0: nat, h: Heap, f: nat, ip: nat, n: nat, grant: Option<nat>, grown: bool) {
    && f <= |h.free| && ip <= |h.free| && SmallBehind(h.free, After(h.free, ip), f, n)
    && (!grown ==> h == h0 && f == f0)
    && (grown ==> grant.Some? && !HasLarge(h0, n) && Granted(h0, h, f, Block(grant.value, MoreUnits(n))))
  }

  lemma HuntSteps(h0: Heap, f0: nat, h: Heap, f: nat, ip: nat, n: nat, grant: Option<nat>, grown: bool)
    requires Hunting(h0, f0, h, f, ip, n, grant, grown)
    requires After(h.free, ip) != f && SizeAt(h.free, After(h.free, ip)) < n
    ensures Hunting(h0, f0, h, f, After(h.free, ip), n, grant, grown)
    ensures Distance(|h.free|, After(h.free, After(h.free, ip)), f) < Distance(|h.free|, After(h.free, ip), f)
  {
    StepAhead(h.free, After(h.free, ip), f);
  }

  /** Once around without success: the system has not been asked yet, and no block is large enough. */
  lemma HuntWraps(h0: Heap, f0: nat, h: Heap, f: nat, ip: nat, n: nat, grant: Option<nat>, grown: bool)
    requires Hunting(h0, f0, h, f, ip, n, grant, grown)
    requires After(h.free, ip) == f && SizeAt(h.free, f) < n
    ensures !grown && !HasLarge(h, n)
  {
    LastAhead(h.free, f);
    forall x | 0 <= x <= |h.free| ensures SizeAt(h.free, x) < n {
    }
    forall i | 0 <= i < |h.free| ensures h.free[i].size < n {
      assert SizeAt(h.free, i + 1) == h.free[i].size;
    }
    if grown {
      var g := GrantedAt(h0, Block(grant.value, MoreUnits(n)), f);
    }
  }

  lemma FirstTaken(h0: Heap, f0: nat, h: Heap, f: nat, h': Heap, k: nat, ap: nat, n: nat, grant: Option<nat>,
                   grown: bool)
    requires n >= 1 && Hunting(h0, f0, h, f, k, n, grant, grown) && TookFirst(h, f, h', k, ap, n)
    ensures Allocated(h0, f0, h', k, ap, n, grant)
  {
  }

  lemma TakeReady(base: nat, h: Heap, k: nat, n: nat, ptr: map<nat, nat>, size: map<nat, nat>)
    requires Ok(base, h) && k < |h.free| && 1 <= n <= h.free[k].size && Linked(base, h.free, ptr, size)
    requires Headers(h.live, size)
    ensures Node(base, h.free, k + 1) in ptr
    ensures var h', p, prevp := AfterTake(h, k, n), h.free[k].addr, Node(base, h.free, k);
      && k <= |h'.free| && Node(base, h'.free, k) == prevp
      && (h.free[k].size == n ==> Linked(base, h'.free, ptr[prevp := ptr[p]], size) && Headers(h'.live, size))
      && (h.free[k].size != n ==>
            var size' := size[p := h.free[k].size - n][Carving(h.free, k, n).addr := n];
            Linked(base, h'.free, ptr, size') && Headers(h'.live, size'))
  {
    assert NodeOk(base, h.free, ptr, size, k + 1);
    CarveLinked(base, h.free, k, n, ptr, size);
    if h.free[k].size == n {
      TakeHeaders(base, h, k, n, size, size);
    } else {
      TakeHeaders(base, h, k, n, size, size[h.free[k].addr := h.free[k].size - n][Carving(h.free, k, n).addr := n]);
    }
  }

  lemma SameNode(base: nat, bs: seq<Block>, i: nat, j: nat)
    requires Coalesced(base, bs) && i <= |bs| && j <= |bs| && Node(base, bs, i) == Node(base, bs, j)
    ensures i == j
  {
    if i < j { NodesAscend(base, bs, i, j); } else if j < i { NodesAscend(base, bs, j, i); }
  }

  lemma StartReady(base: nat, ptr: map<nat, nat>, size: map<nat, nat>)
    requires ptr == map[base := base] && size == map[base := 0]
    ensures Linked(base, [], ptr, size) && Ok(base, Heap([], [], []))
  {
  }

  /** Freeing the granted chunk leaves a node that large. */
  lemma GrantedAt(h: Heap, b: Block, t: nat) returns (g: nat)
    requires t <= |h.free|
    ensures var h' := AfterFree(AfterGrant(h, b), |h.live|, t); g <= |h'.free| && SizeAt(h'.free, g) >= b.size
  {
    g := |Before(h.free, b, t)| + 1;
    assert Inserted(h.free, b, t)[g - 1] == Merged(h.free, b, t);
  }

  /** A granted chunk is, to begin with, one more live block. */
  lemma GrantReady(base: nat, h: Heap, b: Block, ptr: map<nat, nat>, size: map<nat, nat>)
    requires Ok(base, h) && Headers(h.live, size) && Linked(base, h.free, ptr, size) && b.size >= 1 && base < b.addr
    requires forall i :: 0 <= i < |h.grants| ==> h.grants[i].addr + h.grants[i].size <= b.addr
    ensures Ok(base, AfterGrant(h, b)) && Headers(h.live + [b], size[b.addr := b.size])
    ensures Linked(base, h.free, ptr, size[b.addr := b.size])
  {
    GrantKeeps(base, h, b);
    var h' := AfterGrant(h, b);
    var size' := size[b.addr := b.size];
    forall i | 0 <= i <= |h.free| ensures NodeOk(base, h.free, ptr, size', i) {
      assert NodeOk(base, h.free, ptr, size, i);
      LiveOffRing(base, h', i, |h.live|);
    }
    forall i | 0 <= i < |h.live| ensures h.live[i].addr != b.addr {
      LiveDistinct(base, h'.live, i, |h.live|);
    }
  }

  /** The node at which the search stopped is where the block is found again. */
  lemma SpliceAt(base: nat, bs: seq<Block>, b: Block, t: nat)
    requires t <= |bs|
    ensures t <= |Inserted(bs, b, t)| && Node(base, Inserted(bs, b, t), t) == Node(base, bs, t)
  {
    var l := Before(bs, b, t);
    assert Inserted(bs, b, t)[|l|] == Merged(bs, b, t);
    assert t > 0 && !JoinsLeft(bs, b, t) ==> Inserted(bs, b, t)[t - 1] == bs[t - 1];
  }
}
