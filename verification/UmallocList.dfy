/** The circular list that the free blocks form through their headers. */
module UmallocList {
  import opened UmallocHeap

  /** The i-th node of the ring: the base header, then the free blocks. */
  function Node(base: nat, bs: seq<Block>, i: nat): nat
    requires i <= |bs|
  {
    if i == 0 then base else bs[i - 1].addr
  }

  function After(bs: seq<Block>, i: nat): nat
    requires i <= |bs|
  {
    if i == |bs| then 0 else i + 1
  }

  predicate NodeOk(base: nat, bs: seq<Block>, ptr: map<nat, nat>, size: map<nat, nat>, i: nat)
    requires i <= |bs|
  {
    var a := Node(base, bs, i);
    && a in ptr && ptr[a] == Node(base, bs, After(bs, i))
    && a in size && size[a] == if i == 0 then 0 else bs[i - 1].size
  }

  /** The ring visits the base and then every free block in address order, and returns. */
  predicate Linked(base: nat, bs: seq<Block>, ptr: map<nat, nat>, size: map<nat, nat>) {
    forall i :: 0 <= i <= |bs| ==> NodeOk(base, bs, ptr, size, i)
  }

  predicate Headers(live: seq<Block>, size: map<nat, nat>) {
    forall i :: 0 <= i < |live| ==> live[i].addr in size && size[live[i].addr] == live[i].size
  }

  lemma NodesAscend(base: nat, bs: seq<Block>, i: nat, j: nat)
    requires Coalesced(base, bs) && i < j <= |bs|
    ensures Node(base, bs, i) < Node(base, bs, j)
  {
  }

  lemma NodesDistinct(base: nat, bs: seq<Block>, i: nat, j: nat)
    requires Coalesced(base, bs) && i <= |bs| && j <= |bs| && i != j
    ensures Node(base, bs, i) != Node(base, bs, j)
  {
    if i < j { NodesAscend(base, bs, i, j); } else { NodesAscend(base, bs, j, i); }
  }

  /** The test that ends the search in free. */
  predicate StopsHere(p: nat, next: nat, bp: nat) {
    (bp > p && bp < next) || (p >= next && (bp > p || bp < next))
  }

  lemma {:induction false} SlotExists(bs: seq<Block>, b: Block, n: nat) returns (t: nat)
    requires n <= |bs| && (n < |bs| ==> b.addr < bs[n].addr) && forall i :: 0 <= i < |bs| ==> bs[i].addr != b.addr
    ensures Slot(bs, b, t)
    decreases n
  {
    if n == 0 || bs[n - 1].addr < b.addr {
      t := n;
    } else {
      t := SlotExists(bs, b, n - 1);
    }
  }

  /** The search stops at the block's place and nowhere else. */
  lemma StopsOnlyAtSlot(base: nat, bs: seq<Block>, b: Block, t: nat, j: nat)
    requires Coalesced(base, bs) && Slot(bs, b, t) && base < b.addr && j <= |bs|
    requires forall i :: 0 <= i < |bs| ==> bs[i].addr != b.addr
    ensures StopsHere(Node(base, bs, j), Node(base, bs, After(bs, j)), b.addr) <==> j == t
  {
    if t > 0 { assert Node(base, bs, t) < b.addr; }
    if t < |bs| { assert b.addr < Node(base, bs, t + 1); }
    if j < t {
      NodesAscend(base, bs, j, t);
      if j + 1 < t { NodesAscend(base, bs, j + 1, t); }
    } else if j > t {
      if t + 1 < j { NodesAscend(base, bs, t + 1, j); }
      if j < |bs| { NodesAscend(base, bs, j, j + 1); }
    } else if t < |bs| {
      NodesAscend(base, bs, t, t + 1);
    } else if t > 0 {
      NodesAscend(base, bs, 0, t);
    }
  }

  /** Steps from node j to node t around a ring of n + 1 nodes. */
  function Distance(n: nat, j: nat, t: nat): int {
    if j <= t then t - j else t + n + 1 - j
  }

  /** The pointers after free has linked in the block at bp, behind the node at p. */
  function LinkedIn(ptr: map<nat, nat>, size: map<nat, nat>, p: nat, bp: nat): map<nat, nat>
    requires p in ptr && bp in size && p in size && ptr[p] in ptr
  {
    var behind := if bp + size[bp] == ptr[p] then ptr[ptr[p]] else ptr[p];
    if p + size[p] == bp then ptr[bp := behind][p := behind] else ptr[bp := behind][p := bp]
  }

  function Joining(ptr: map<nat, nat>, size: map<nat, nat>, p: nat, bp: nat): map<nat, nat>
    requires p in ptr && bp in size && p in size && ptr[p] in size
  {
    var total := if bp + size[bp] == ptr[p] then size[bp] + size[ptr[p]] else size[bp];
    if p + size[p] == bp then size[bp := total][p := size[p] + total] else size[bp := total]
  }

  ghost predicate Splicing(base: nat, bs: seq<Block>, b: Block, t: nat, ptr: map<nat, nat>, size: map<nat, nat>) {
    && Coalesced(base, bs) && Slot(bs, b, t) && base < b.addr && b.size >= 1 && Disjoint(bs, [b])
    && Linked(base, bs, ptr, size) && b.addr in size && size[b.addr] == b.size
  }

  /** The code's tests are the tests on blocks. */
  lemma TestsRight(base: nat, bs: seq<Block>, b: Block, t: nat, ptr: map<nat, nat>, size: map<nat, nat>)
    requires Splicing(base, bs, b, t, ptr, size)
    ensures var p := Node(base, bs, t);
      && p in ptr && p in size && ptr[p] in ptr && ptr[p] in size && ptr[p] == Node(base, bs, After(bs, t))
      && (b.addr + b.size == ptr[p] <==> JoinsRight(bs, b, t))
      && (p + size[p] == b.addr <==> JoinsLeft(bs, b, t))
      && (JoinsRight(bs, b, t) ==> ptr[ptr[p]] == Node(base, bs, After(bs, t + 1)) && size[ptr[p]] == bs[t].size)
  {
    assert NodeOk(base, bs, ptr, size, t);
    assert NodeOk(base, bs, ptr, size, After(bs, t));
  }

  /** What follows the new block: the first block behind it, or the base. */
  function First(base: nat, r: seq<Block>): nat { if r == [] then base else r[0].addr }

  lemma SplicedMaps(base: nat, bs: seq<Block>, b: Block, t: nat, ptr: map<nat, nat>, size: map<nat, nat>)
    requires Splicing(base, bs, b, t, ptr, size)
    ensures var p, m, r := Node(base, bs, t), Merged(bs, b, t), Behind(bs, b, t);
      && p in ptr && p in size && ptr[p] in ptr && ptr[p] in size
      && (var ptr', size' := LinkedIn(ptr, size, p, b.addr), Joining(ptr, size, p, b.addr);
          && m.addr in ptr' && ptr'[m.addr] == First(base, r)
          && m.addr in size' && size'[m.addr] == m.size
          && (!JoinsLeft(bs, b, t) ==> p in ptr' && ptr'[p] == b.addr)
          && (forall a :: a in ptr && a != b.addr && a != p ==> a in ptr' && ptr'[a] == ptr[a])
          && (forall a :: a in size && a != b.addr && (a != p || !JoinsLeft(bs, b, t)) ==>
                a in size' && size'[a] == size[a]))
  {
    TestsRight(base, bs, b, t, ptr, size);
    var r := Behind(bs, b, t);
    assert First(base, r) == if JoinsRight(bs, b, t) then Node(base, bs, After(bs, t + 1))
             else Node(base, bs, After(bs, t));
  }

  lemma NotANode(base: nat, bs: seq<Block>, b: Block, i: nat)
    requires Coalesced(base, bs) && base < b.addr && b.size >= 1 && Disjoint(bs, [b]) && i <= |bs|
    ensures Node(base, bs, i) != b.addr
  {
    if i > 0 && bs[i - 1].addr == b.addr {
      assert Has(bs[i - 1], b.addr) && Has([b][0], b.addr);
      assert Covers(bs, b.addr) && Covers([b], b.addr);
    }
  }

  /** A node of the old ring that free does not touch keeps its place. */
  lemma SpliceKeeps(base: nat, bs: seq<Block>, b: Block, t: nat, ptr: map<nat, nat>, size: map<nat, nat>, i: nat)
    requires Splicing(base, bs, b, t, ptr, size) && i <= |bs| && i != t
    ensures var a, p := Node(base, bs, i), Node(base, bs, t);
      && p in ptr && p in size && ptr[p] in ptr && ptr[p] in size
      && (var ptr', size' := LinkedIn(ptr, size, p, b.addr), Joining(ptr, size, p, b.addr);
          && a in ptr' && ptr'[a] == Node(base, bs, After(bs, i))
          && a in size' && size'[a] == if i == 0 then 0 else bs[i - 1].size)
  {
    SplicedMaps(base, bs, b, t, ptr, size);
    NotANode(base, bs, b, i);
    NodesDistinct(base, bs, i, t);
    assert NodeOk(base, bs, ptr, size, i);
  }

  /** free leaves a ring again. */
  lemma SpliceLinked(base: nat, bs: seq<Block>, b: Block, t: nat, ptr: map<nat, nat>, size: map<nat, nat>)
    requires Splicing(base, bs, b, t, ptr, size)
    ensures var p := Node(base, bs, t);
      && p in ptr && p in size && ptr[p] in ptr && ptr[p] in size
      && Linked(base, Inserted(bs, b, t), LinkedIn(ptr, size, p, b.addr), Joining(ptr, size, p, b.addr))
  {
    SplicedMaps(base, bs, b, t, ptr, size);
    var p := Node(base, bs, t);
    var ptr', size' := LinkedIn(ptr, size, p, b.addr), Joining(ptr, size, p, b.addr);
    var l, m, r := Before(bs, b, t), Merged(bs, b, t), Behind(bs, b, t);
    var f := Inserted(bs, b, t);
    assert |f| == |l| + 1 + |r| && f[|l|] == m;
    forall i | 0 <= i <= |f| ensures NodeOk(base, f, ptr', size', i) {
      if i <= |l| {
        SpliceFront(base, bs, b, t, ptr, size, i);
      } else if i == |l| + 1 {
        assert r != [] ==> f[|l| + 1] == r[0];
      } else {
        SpliceBack(base, bs, b, t, ptr, size, i);
      }
    }
  }

  lemma SpliceFront(base: nat, bs: seq<Block>, b: Block, t: nat, ptr: map<nat, nat>, size: map<nat, nat>, i: nat)
    requires Splicing(base, bs, b, t, ptr, size) && i <= |Before(bs, b, t)|
    ensures var p := Node(base, bs, t);
      && p in ptr && p in size && ptr[p] in ptr && ptr[p] in size
      && NodeOk(base, Inserted(bs, b, t), LinkedIn(ptr, size, p, b.addr), Joining(ptr, size, p, b.addr), i)
  {
    var l, f := Before(bs, b, t), Inserted(bs, b, t);
    assert forall j :: 0 <= j < |l| ==> f[j] == bs[j];
    assert f[|l|] == Merged(bs, b, t);
    if i < t {
      SpliceKeeps(base, bs, b, t, ptr, size, i);
    } else {
      SplicedMaps(base, bs, b, t, ptr, size);
      NotANode(base, bs, b, t);
      assert NodeOk(base, bs, ptr, size, t);
    }
  }

  lemma SpliceBack(base: nat, bs: seq<Block>, b: Block, t: nat, ptr: map<nat, nat>, size: map<nat, nat>, i: nat)
    requires Splicing(base, bs, b, t, ptr, size) && |Before(bs, b, t)| + 1 < i <= |Inserted(bs, b, t)|
    ensures var p := Node(base, bs, t);
      && p in ptr && p in size && ptr[p] in ptr && ptr[p] in size
      && NodeOk(base, Inserted(bs, b, t), LinkedIn(ptr, size, p, b.addr), Joining(ptr, size, p, b.addr), i)
  {
    var k := |bs| - |Behind(bs, b, t)| + (i - |Before(bs, b, t)| - 2);
    BehindAt(bs, b, t, i - 1);
    if i < |Inserted(bs, b, t)| { BehindAt(bs, b, t, i); }
    SpliceKeeps(base, bs, b, t, ptr, size, k + 1);
  }

  lemma BehindAt(bs: seq<Block>, b: Block, t: nat, i: nat)
    requires t <= |bs| && |Before(bs, b, t)| < i < |Inserted(bs, b, t)|
    ensures var k := |bs| - |Behind(bs, b, t)| + (i - |Before(bs, b, t)| - 1);
      t <= k < |bs| && Inserted(bs, b, t)[i] == bs[k]
  {
    var l, r := Before(bs, b, t), Behind(bs, b, t);
    assert Inserted(bs, b, t)[i] == r[i - |l| - 1];
  }

  /** The pointers after malloc has taken the whole k-th free block, or only its end. */
  lemma CarveLinked(base: nat, bs: seq<Block>, k: nat, n: nat, ptr: map<nat, nat>, size: map<nat, nat>)
    requires Coalesced(base, bs) && k < |bs| && 1 <= n <= bs[k].size && Linked(base, bs, ptr, size)
    ensures Node(base, bs, k + 1) in ptr
    ensures bs[k].size == n ==> Linked(base, Carved(bs, k, n), ptr[Node(base, bs, k) := ptr[Node(base, bs, k + 1)]],
                                       size)
    ensures bs[k].size != n ==> Linked(base, Carved(bs, k, n), ptr,
                                       size[bs[k].addr := bs[k].size - n][Carving(bs, k, n).addr := n])
  {
    assert NodeOk(base, bs, ptr, size, k + 1);
    if bs[k].size == n {
      CarveWhole(base, bs, k, ptr, size);
    } else {
      CarvePart(base, bs, k, n, ptr, size);
    }
  }

  lemma CarveWhole(base: nat, bs: seq<Block>, k: nat, ptr: map<nat, nat>, size: map<nat, nat>)
    requires Coalesced(base, bs) && k < |bs| && Linked(base, bs, ptr, size)
    ensures Node(base, bs, k + 1) in ptr
    ensures Linked(base, Carved(bs, k, bs[k].size), ptr[Node(base, bs, k) := ptr[Node(base, bs, k + 1)]], size)
  {
    assert NodeOk(base, bs, ptr, size, k + 1);
    var cs, ptr' := Carved(bs, k, bs[k].size), ptr[Node(base, bs, k) := ptr[Node(base, bs, k + 1)]];
    forall i | 0 <= i <= |cs| ensures NodeOk(base, cs, ptr', size, i) {
      var j := if i <= k then i else i + 1;
      assert NodeOk(base, bs, ptr, size, j);
      if j != k { NodesDistinct(base, bs, j, k); }
    }
  }

  lemma CarvePart(base: nat, bs: seq<Block>, k: nat, n: nat, ptr: map<nat, nat>, size: map<nat, nat>)
    requires Coalesced(base, bs) && k < |bs| && 1 <= n < bs[k].size && Linked(base, bs, ptr, size)
    ensures Linked(base, Carved(bs, k, n), ptr, size[bs[k].addr := bs[k].size - n][Carving(bs, k, n).addr := n])
  {
    var cs, size' := Carved(bs, k, n), size[bs[k].addr := bs[k].size - n][Carving(bs, k, n).addr := n];
    forall i | 0 <= i <= |cs| ensures NodeOk(base, cs, ptr, size', i) {
      assert NodeOk(base, bs, ptr, size, i);
      assert forall j :: 0 <= j <= |bs| ==> Node(base, cs, j) == Node(base, bs, j);
      if i < k + 1 { NodesAscend(base, bs, i, k + 1); }
      if i > k + 1 { NodesAscend(base, bs, k + 1, i); assert bs[k].addr + bs[k].size < bs[i - 1].addr; }
    }
  }
}
