/** Building, growing, copying and freeing address spaces. */
module VmLife {
  import opened Basics
  import opened VmState
  import opened VmSteps
  import opened VmMap

  // Freeing.

  /** The frames still to be freed: the directory, and the tables from directory index i on. */
  function Hands(sp: Space, i: nat): set<nat> {
    {sp.dir} + set j | j in sp.tables && j >= i :: sp.tables[j]
  }

  lemma TablesDistinct(k: Sound, s: nat, i: nat)
    requires s in k.spaces && i in k.spaces[s].tables
    ensures k.spaces[s].tables[i] != k.spaces[s].dir && i < ENTRIES
    ensures forall j :: j in k.spaces[s].tables && j != i ==> k.spaces[s].tables[j] != k.spaces[s].tables[i]
  {
    var sp := k.spaces[s];
    assert SpaceOk(k, s, sp);
    assert TableOk(k, s, sp, i);
    forall j | j in sp.tables && j != i ensures sp.tables[j] != sp.tables[i] { assert TableOk(k, s, sp, j); }
  }

  lemma DissolvedHands(k: Sound, s: nat)
    requires s in k.spaces && NoUserPage(k.spaces[s]) && InHand(k, {})
    ensures InHand(Dissolved(k, s), Hands(k.spaces[s], 0)) && Hands(k.spaces[s], 0) <= k.roles.Keys
    ensures Rest(k, Dissolved(k, s), s)
  {
    var sp, k' := k.spaces[s], Dissolved(k, s);
    assert SpaceOk(k, s, sp);
    forall j | j in sp.tables ensures InRole(k, sp.tables[j], Table(s, j)) { assert TableOk(k, s, sp, j); }
    forall f | f in k.roles ensures Mine(k.roles[f], s) <==> f in Hands(sp, 0) { assert RoleOk(k, f); }
    SomeFrames(k, k', s, {});
  }

  lemma NoHands(k: Sound, s: nat)
    requires s in k.spaces
    ensures Hands(k.spaces[s], ENTRIES) == {k.spaces[s].dir}
  {
    assert SpaceOk(k, s, k.spaces[s]);
    forall j | j in k.spaces[s].tables ensures j < ENTRIES { assert TableOk(k, s, k.spaces[s], j); }
  }

  /** With its user pages removed a space can be given up. */
  lemma DropAll(k0: Sound, k: Sound, s: nat)
    requires Dropped(k0, k, s, PagesOf(0), PagesOf(KERNBASE), {})
    ensures Good(Dissolved(k, s)) && Rest(k0, Dissolved(k, s), s) && k.spaces[s].dir < |k.mem|
    ensures InHand(Dissolved(k, s), Hands(k.spaces[s], 0)) && Hands(k.spaces[s], 0) <= k.roles.Keys
  {
    assert NoUserPage(k.spaces[s]);
    DissolvedKeeps(k, s);
    DissolvedHands(k, s);
    RestTrans(k0, k, Dissolved(k, s), s);
    assert SpaceOk(k, s, k.spaces[s]);
  }

  lemma FreedRest(k: Sound, f: nat, s: nat, hs: set<nat>)
    requires InRole(k, f, Held) && f < |k.mem| && InHand(k, hs)
    ensures Rest(k, Freed(k, f), s) && InHand(Freed(k, f), hs - {f})
  {
    SomeFrames(k, Freed(k, f), s, {f});
  }

  /** A space whose frames are all accounted for elsewhere is gone, and its frames are free. */
  lemma AllFreed(k0: Sound, k: Sound, s: nat)
    requires s !in k.spaces && Rest(k0, k, s) && InHand(k0, {}) && InHand(k, {})
    ensures forall f :: f in k0.roles ==> (k.roles[f].Free? <==> k0.roles[f].Free? || Mine(k0.roles[f], s))
  {
    forall f | f in k0.roles ensures k.roles[f].Free? <==> k0.roles[f].Free? || Mine(k0.roles[f], s) {
      RoleMoves(k0, k, s, f);
    }
  }

  /** The frames of the other spaces stay where they are, in both directions. */
  lemma RoleMoves(k0: Sound, k: Sound, s: nat, f: nat)
    requires Rest(k0, k, s) && InHand(k0, {}) && InHand(k, {}) && f in k0.roles
    ensures !Mine(k0.roles[f], s) && !Mine(k.roles[f], s) ==> (k.roles[f].Free? <==> k0.roles[f].Free?)
    ensures Mine(k0.roles[f], s) && !Mine(k.roles[f], s) ==> k.roles[f].Free?
    ensures s !in k.spaces ==> !Mine(k.roles[f], s)
  {
    assert RoleOk(k0, f) && RoleOk(k, f);
    var r, r0 := k.roles[f], k0.roles[f];
    if !r.Free? && !r.Held? && !r.Other? && r.s != s { Accounted(k, k0, r.s, f); }
    if !r0.Free? && !r0.Held? && !r0.Other? && r0.s != s { Accounted(k0, k, r0.s, f); }
  }

  /** A space that is the same in k0 and k uses its frames in the same way. */
  lemma Accounted(k: Sound, k0: Sound, x: nat, f: nat)
    requires x in k.spaces && x in k0.spaces && k0.spaces[x] == k.spaces[x] && f in k.roles && Mine(k.roles[f], x)
    ensures InRole(k0, f, k.roles[f])
  {
    var sp := k0.spaces[x];
    assert RoleOk(k, f);
    assert SpaceOk(k0, x, sp);
    match k.roles[f] {
      case Dir(_) =>
      case Table(_, i) => assert TableOk(k0, x, sp, i);
      case Leaf(_, v) => assert LeafOk(k0, x, sp, v);
    }
  }

  // Growing.

  /** From k0 to k, the pages lo to hi - 1 of space s were added, each blank and writable. */
  ghost predicate Grown(k0: Kernel, k: Kernel, s: nat, lo: nat, hi: nat) {
    && Works(k0, k, s, {}) && PagesKept(k0, k, s)
    && (forall v :: v in k.spaces[s].leaves <==> v in k0.spaces[s].leaves || lo <= v < hi)
    && forall v {:trigger BlankPage(k, s, v)} :: lo <= v < hi ==> BlankPage(k, s, v)
  }

  predicate BlankPage(k: Kernel, s: nat, v: nat) {
    && s in k.spaces && v in k.spaces[s].leaves && k.spaces[s].leaves[v].frame < |k.mem|
    && k.spaces[s].leaves[v] == Word(k.spaces[s].leaves[v].frame, true, WU)
    && k.mem[k.spaces[s].leaves[v].frame] == Blank()
  }

  lemma GrowStart(k: Sound, s: nat, lo: nat)
    requires s in k.spaces && InHand(k, {})
    ensures Grown(k, k, s, lo, lo)
  {
    Same(k, s, {});
  }

  /** From k to k1, frame m was taken in hand and filled with p, which is no work in any space. */
  ghost predicate Prepared(k: Kernel, k1: Kernel, s: nat, m: nat, p: Page) {
    && Rest(k, k1, s) && PagesKept(k, k1, s) && InHand(k1, {m}) && k1.spaces == k.spaces
    && m < |k1.mem| && k1.mem[m] == p && m in k1.roles && |k1.free| == |k.free| - 1
  }

  lemma TakeFill(k: Sound, s: nat, p: Page)
    requires k.free != [] && s in k.spaces && InHand(k, {}) && |p| == ENTRIES
    ensures k.free[|k.free| - 1] < |k.mem| && k.free[|k.free| - 1] in k.roles
    ensures var m := k.free[|k.free| - 1]; Prepared(k, Filled(Taken(k), m, p), s, m, p)
  {
    assert FreeOk(k, |k.free| - 1);
    var m := k.free[|k.free| - 1];
    var k1 := Filled(Taken(k), m, p);
    SomeFrames(k, k1, s, {m});
    SamePages(k, k1, s, {m});
  }

  lemma PagesChain(k0: Kernel, k: Kernel, k1: Kernel, k2: Kernel, s: nat)
    requires PagesKept(k0, k, s) && PagesKept(k, k1, s) && PagesKept(k1, k2, s)
    ensures PagesKept(k0, k2, s)
  {
    PagesTrans(k0, k, k1, s);
    PagesTrans(k0, k1, k2, s);
  }

  /** One more page: frame m, blank and in hand in k1, is mapped in k2. */
  lemma GrowStep(k0: Sound, k: Sound, k1: Kernel, k2: Sound, s: nat, lo: nat, v: nat, m: nat)
    requires Grown(k0, k, s, lo, v) && lo <= v < USER && Rest(k, k1, s) && PagesKept(k, k1, s) && k1.spaces == k.spaces
    requires m < |k1.mem| && k1.mem[m] == Blank() && Mapped(k1, k2, s, v, [Word(m, true, WU)], {m})
    ensures Grown(k0, k2, s, lo, v + 1)
  {
    RestChain(k0, k, k1, k2, s);
    PagesChain(k0, k, k1, k2, s);
    var l, l2 := k.spaces[s].leaves, k2.spaces[s].leaves;
    ExtendedOne(l, l2, v, Word(m, true, WU));
    forall x | lo <= x < v + 1 ensures BlankPage(k2, s, x) {
      if x < v {
        assert BlankPage(k, s, x) && PageKept(k, k1, s, x) && PageKept(k1, k2, s, x);
      }
    }
  }

  lemma ExtendedOne(l: map<nat, Word>, l2: map<nat, Word>, v: nat, w: Word)
    requires l2 == Extended(l, v, [w])
    ensures l2 == l[v := w]
  {
    assert [w][..0] == [];
  }

  /** As before, but for tables. */
  ghost predicate Restored(k0: Kernel, k: Kernel, s: nat) {
    Works(k0, k, s, {}) && PagesKept(k0, k, s) && k.spaces[s].leaves == k0.spaces[s].leaves
  }

  ghost predicate Grew(k0: Kernel, k: Kernel, s: nat, lo: nat, v: nat) {
    Rest(k0, k, s) && PagesKept(k0, k, s) && forall x :: x in k.spaces[s].leaves <==>
      x in k0.spaces[s].leaves || lo <= x < v
  }

  lemma UndoChain(k0: Sound, k1: Sound, k2: Kernel, k3: Sound, s: nat, lo: nat, v: nat, m: nat)
    requires Grown(k0, k1, s, lo, v) && Rest(k1, k2, s) && PagesKept(k1, k2, s) && k2.spaces == k1.spaces
    requires Mapped(k2, k3, s, v, [], {m})
    ensures Grew(k0, k3, s, lo, v)
  {
    RestTrans(k0, k1, k2, s);
    RestTrans(k0, k2, k3, s);
    PagesTrans(k0, k1, k2, s);
    PagesTrans(k0, k2, k3, s);
  }

  /** The pages of s0 outside lo to hi - 1 are the same in s. */
  ghost predicate OthersKept(k0: Kernel, k: Kernel, s: nat, lo: nat, hi: nat) {
    && s in k0.spaces && s in k.spaces && k.spaces[s].leaves == Outside(k0.spaces[s].leaves, lo, hi)
    && k.spaces[s].dir == k0.spaces[s].dir
    && (forall i :: i in k0.spaces[s].tables ==>
          i in k.spaces[s].tables && k.spaces[s].tables[i] == k0.spaces[s].tables[i])
    && forall v {:trigger PageKept(k0, k, s, v)} :: v in k.spaces[s].leaves ==> PageKept(k0, k, s, v)
  }

  /** Space s without its pages lo to hi - 1. */
  ghost predicate Trimmed(k0: Kernel, k: Kernel, s: nat, lo: nat, hi: nat) {
    Works(k0, k, s, {}) && OthersKept(k0, k, s, lo, hi)
  }

  lemma TrimmedNothing(k0: Kernel, k: Kernel, s: nat, lo: nat, hi: nat)
    requires Trimmed(k0, k, s, lo, hi)
    ensures (forall v :: lo <= v < hi ==> v !in k0.spaces[s].leaves) ==> Restored(k0, k, s)
  {
    if forall v :: lo <= v < hi ==> v !in k0.spaces[s].leaves {
      assert Outside(k0.spaces[s].leaves, lo, hi) == k0.spaces[s].leaves;
    }
  }

  lemma GrowUndone(k0: Sound, k: Sound, k': Sound, s: nat, lo: nat, v: nat, hi: nat, hs: set<nat>)
    requires Grew(k0, k, s, lo, v) && Dropped(k, k', s, lo, hi, hs) && lo <= v <= hi
    ensures Rest(k0, k', s) && OthersKept(k0, k', s, lo, hi)
  {
    RestTrans(k0, k, k', s);
    forall x | x in k0.spaces[s].leaves && !(lo <= x < hi) ensures PageKept(k0, k', s, x) {
      assert PageKept(k0, k, s, x);
      assert x in Outside(k.spaces[s].leaves, lo, hi);
      assert PageKept(k, k', s, x);
    }
    assert k'.spaces[s].leaves == Outside(k0.spaces[s].leaves, lo, hi);
  }

  lemma FreedTrimmed(k0: Sound, k: Sound, s: nat, lo: nat, hi: nat, m: nat)
    requires Rest(k0, k, s) && OthersKept(k0, k, s, lo, hi) && InHand(k, {m}) && m in k.roles
    ensures m < |k.mem| && Trimmed(k0, Freed(k, m), s, lo, hi)
  {
    assert RoleOk(k, m);
    var k' := Freed(k, m);
    FreedRest(k, m, s, {m});
    RestTrans(k0, k, k', s);
    SamePages(k, k', s, {m});
    forall v | v in k'.spaces[s].leaves ensures PageKept(k0, k', s, v) {
      assert PageKept(k0, k, s, v) && PageKept(k, k', s, v);
    }
  }

  // The kernel part, the same in every space.

  /** Consecutive pages for consecutive frames. */
  datatype Row = Row(page: nat, count: nat, frame: nat, perm: nat)

  const EXTMEM: nat := 0x100     // in pages
  const PHYSTOP: nat := 0xE000
  const DEVSPACE: nat := 0xFE000

  /** The kernel's mappings; data is the frame in which its data section begins. */
  function Kmap(data: nat): (rows: seq<Row>)
    requires EXTMEM < data < PHYSTOP
    ensures |rows| == 4
  {
    [Row(USER, EXTMEM, 0, 1), Row(USER + EXTMEM, data - EXTMEM, EXTMEM, 0),
     Row(USER + data, PHYSTOP - data, data, 1), Row(DEVSPACE, PAGES - DEVSPACE, DEVSPACE, 1)]
  }

  function RowWords(r: Row): (ws: seq<Word>)
    ensures |ws| == r.count && Entries(ws, r.frame, r.perm)
  {
    seq(r.count, i requires 0 <= i < r.count => Word(r.frame + i, true, r.perm))
  }

  /** The entries of the first n rows. */
  function KernelLeaves(data: nat, n: nat): map<nat, Word>
    requires EXTMEM < data < PHYSTOP && n <= 4
  {
    if n == 0 then map[] else Extended(KernelLeaves(data, n - 1), Kmap(data)[n - 1].page, RowWords(Kmap(data)[n - 1]))
  }

  lemma {:induction false} RowsApart(data: nat, n: nat, v: nat)
    requires EXTMEM < data < PHYSTOP && n <= 4 && v in KernelLeaves(data, n)
    ensures USER <= v && (n < 4 ==> v < Kmap(data)[n].page)
    decreases n
  {
    if n > 0 {
      var r := Kmap(data)[n - 1];
      ExtendedHas(KernelLeaves(data, n - 1), r.page, RowWords(r), v);
      if v in KernelLeaves(data, n - 1) { RowsApart(data, n - 1, v); }
    }
  }

  lemma RowDone(data: nat, n: nat, ws: seq<Word>)
    requires EXTMEM < data < PHYSTOP && n < 4 && Entries(ws, Kmap(data)[n].frame, Kmap(data)[n].perm)
    requires |ws| == Kmap(data)[n].count
    ensures Extended(KernelLeaves(data, n), Kmap(data)[n].page, ws) == KernelLeaves(data, n + 1)
  {
    assert ws == RowWords(Kmap(data)[n]);
  }

  lemma RowBytes(p: nat, c: nat)
    requires c >= 1
    ensures p * PGSIZE / PGSIZE == p && (p * PGSIZE + c * PGSIZE - 1) / PGSIZE == p + c - 1 && p * PGSIZE % PGSIZE == 0
  {
  }

  lemma NewSpaceRest(k: Sound, s: nat)
    requires k.free != [] && s !in k.spaces && InHand(k, {})
    ensures k.free[|k.free| - 1] < |k.mem|
    ensures var d := k.free[|k.free| - 1]; var k1 := Filled(Taken(k), d, Blank());
      && Good(k1) && InRole(k1, d, Held) && Good(NewSpace(k1, s, d))
      && Rest(k, NewSpace(k1, s, d), s) && InHand(NewSpace(k1, s, d), {})
  {
    assert FreeOk(k, |k.free| - 1);
    var d := k.free[|k.free| - 1];
    var k1 := Filled(Taken(k), d, Blank());
    TakenKeeps(k);
    FilledKeeps(Taken(k), d, Blank());
    NewSpaceKeeps(k1, s, d);
    SomeFrames(k, NewSpace(k1, s, d), s, {d});
  }

  // Copying.

  /** Page v of space s is a copy of page v of space p of k0: same flags, same contents. */
  predicate PageCopied(k0: Kernel, k: Kernel, p: nat, s: nat, v: nat) {
    && p in k0.spaces && s in k.spaces && v in k0.spaces[p].leaves && v in k.spaces[s].leaves
    && k0.spaces[p].leaves[v].frame < |k0.mem| && k.spaces[s].leaves[v].frame < |k.mem|
    && k.spaces[s].leaves[v] == Word(k.spaces[s].leaves[v].frame, true, k0.spaces[p].leaves[v].flags)
    && k.mem[k.spaces[s].leaves[v].frame] == k0.mem[k0.spaces[p].leaves[v].frame]
  }

  /** Space s has the kernel part, copies of the first n pages of space p, and nothing else. */
  ghost predicate Copied(k0: Kernel, k: Kernel, p: nat, s: nat, n: nat, data: nat)
    requires EXTMEM < data < PHYSTOP
  {
    && Rest(k0, k, s) && InHand(k, {}) && s in k.spaces
    && (forall v :: v in k.spaces[s].leaves <==> 0 <= v < n || v in KernelLeaves(data, 4))
    && (forall v {:trigger PageCopied(k0, k, p, s, v)} :: 0 <= v < n ==> PageCopied(k0, k, p, s, v))
    && (forall v :: v in KernelLeaves(data, 4) ==>
          v in k.spaces[s].leaves && k.spaces[s].leaves[v] == KernelLeaves(data, 4)[v])
  }

  lemma RestSame(k: Sound, s: nat)
    ensures Rest(k, k, s)
  {
    SomeFrames(k, k, s, {});
  }

  lemma RowsStart(data: nat, n: nat)
    requires EXTMEM < data < PHYSTOP && n < USER
    ensures n !in KernelLeaves(data, 4)
  {
    forall v | v in KernelLeaves(data, 4) ensures v >= USER { RowsApart(data, 4, v); }
  }

  /** The parent's page is still what it was. */
  lemma ParentSpace(k0: Sound, k: Sound, p: nat, s: nat)
    requires Rest(k0, k, s) && p in k0.spaces && p != s
    ensures p in k.spaces && k.spaces[p] == k0.spaces[p]
  {
  }

  lemma ParentPage(k0: Sound, k: Sound, p: nat, s: nat, v: nat)
    requires Rest(k0, k, s) && p in k0.spaces && p != s && v in k0.spaces[p].leaves && v < USER
    ensures p in k.spaces && k.spaces[p] == k0.spaces[p] && v / ENTRIES in k.spaces[p].tables && v < PAGES
    ensures k0.spaces[p].leaves[v].frame < |k0.mem| && k0.spaces[p].leaves[v].frame < |k.mem|
    ensures k.mem[k0.spaces[p].leaves[v].frame] == k0.mem[k0.spaces[p].leaves[v].frame]
    ensures |k.mem[k0.spaces[p].leaves[v].frame]| == ENTRIES
  {
    assert PageKept(k0, k, p, v);
    LeafThere(k, p, v);
    assert RoleOk(k, k.spaces[p].leaves[v].frame);
  }

  lemma CopyStart(k0: Sound, k: Sound, p: nat, s: nat, data: nat)
    requires EXTMEM < data < PHYSTOP && Rest(k0, k, s) && InHand(k, {}) && s in k.spaces
    requires k.spaces[s].leaves == KernelLeaves(data, 4)
    ensures Copied(k0, k, p, s, 0, data)
  {
  }

  lemma RestChain(k0: Kernel, k: Kernel, k1: Kernel, k2: Kernel, s: nat)
    requires Rest(k0, k, s) && Rest(k, k1, s) && Rest(k1, k2, s)
    ensures Rest(k0, k2, s)
  {
    RestTrans(k0, k, k1, s);
    RestTrans(k0, k1, k2, s);
  }

  /** One more page: frame m, filled from the parent's page and in hand in k1, is mapped in k2. */
  lemma CopyStep(k0: Sound, k: Sound, k1: Kernel, k2: Sound, p: nat, s: nat, n: nat, data: nat, m: nat)
    requires EXTMEM < data < PHYSTOP && Copied(k0, k, p, s, n, data) && n < USER && p != s && p in k0.spaces
    requires n in k0.spaces[p].leaves && k0.spaces[p].leaves[n].frame < |k0.mem|
    requires Prepared(k, k1, s, m, k0.mem[k0.spaces[p].leaves[n].frame])
    requires Mapped(k1, k2, s, n, [Word(m, true, k0.spaces[p].leaves[n].flags)], {m})
    ensures Copied(k0, k2, p, s, n + 1, data)
  {
    RestChain(k0, k, k1, k2, s);
    CopiedLeaves(k.spaces[s].leaves, k2.spaces[s].leaves, n, data, Word(m, true, k0.spaces[p].leaves[n].flags));
    CopiedPages(k0, k, k1, k2, p, s, n, m);
  }

  lemma CopiedPages(k0: Kernel, k: Kernel, k1: Kernel, k2: Kernel, p: nat, s: nat, n: nat, m: nat)
    requires forall v {:trigger PageCopied(k0, k, p, s, v)} :: 0 <= v < n ==> PageCopied(k0, k, p, s, v)
    requires p in k0.spaces && n in k0.spaces[p].leaves && k0.spaces[p].leaves[n].frame < |k0.mem| && n < USER
    requires s in k.spaces && PagesKept(k, k1, s) && k1.spaces == k.spaces
    requires m < |k1.mem| && k1.mem[m] == k0.mem[k0.spaces[p].leaves[n].frame]
    requires Mapped(k1, k2, s, n, [Word(m, true, k0.spaces[p].leaves[n].flags)], {m})
    ensures forall v {:trigger PageCopied(k0, k2, p, s, v)} :: 0 <= v < n + 1 ==> PageCopied(k0, k2, p, s, v)
  {
    forall v | 0 <= v < n + 1 ensures PageCopied(k0, k2, p, s, v) {
      if v < n {
        assert PageCopied(k0, k, p, s, v);
        CopiedOn(k0, k, k1, k2, p, s, v);
      } else {
        CopiedNow(k0, k1, k2, p, s, v, m);
      }
    }
  }

  lemma CopiedLeaves(l: map<nat, Word>, l2: map<nat, Word>, n: nat, data: nat, w: Word)
    requires EXTMEM < data < PHYSTOP && n < USER && l2 == Extended(l, n, [w])
    requires forall v :: v in l <==> 0 <= v < n || v in KernelLeaves(data, 4)
    requires forall v :: v in KernelLeaves(data, 4) ==> v in l && l[v] == KernelLeaves(data, 4)[v]
    ensures forall v :: v in l2 <==> 0 <= v < n + 1 || v in KernelLeaves(data, 4)
    ensures forall v :: v in KernelLeaves(data, 4) ==> v in l2 && l2[v] == KernelLeaves(data, 4)[v]
  {
    ExtendedOne(l, l2, n, w);
    RowsStart(data, n);
  }

  lemma CopiedNow(k0: Kernel, k1: Kernel, k2: Kernel, p: nat, s: nat, v: nat, m: nat)
    requires p in k0.spaces && v in k0.spaces[p].leaves && k0.spaces[p].leaves[v].frame < |k0.mem|
    requires m < |k1.mem| && k1.mem[m] == k0.mem[k0.spaces[p].leaves[v].frame]
    requires Mapped(k1, k2, s, v, [Word(m, true, k0.spaces[p].leaves[v].flags)], {m})
    ensures PageCopied(k0, k2, p, s, v)
  {
    ExtendedHas(k1.spaces[s].leaves, v, [Word(m, true, k0.spaces[p].leaves[v].flags)], v);
  }

  lemma CopiedOn(k0: Kernel, k: Kernel, k1: Kernel, k2: Kernel, p: nat, s: nat, v: nat)
    requires PageCopied(k0, k, p, s, v) && PagesKept(k, k1, s) && PagesKept(k1, k2, s)
    requires s in k.spaces && v in k.spaces[s].leaves && v < USER && k1.spaces == k.spaces
    ensures PageCopied(k0, k2, p, s, v)
  {
    assert PageKept(k, k1, s, v) && PageKept(k1, k2, s, v);
  }

  /** No frame of one space is a frame of another, and a write to a page is seen in no other page. */
  lemma WriteUnseen(k: Sound, x: nat, v: nat, page: Page, y: nat, u: nat)
    requires x in k.spaces && v in k.spaces[x].leaves && v < USER && |page| == ENTRIES
    requires y in k.spaces && u in k.spaces[y].leaves && u < USER && (x != y || v != u)
    ensures var f, g := k.spaces[x].leaves[v].frame, k.spaces[y].leaves[u].frame;
      f != g && f < |k.mem| && g < |k.mem| && Good(Filled(k, f, page)) && Filled(k, f, page).mem[g] == k.mem[g]
  {
    UserFrame(k, x, v);
    UserFrame(k, y, u);
    FilledKeeps(k, k.spaces[x].leaves[v].frame, page);
  }

  /** The same frames are free. */
  ghost predicate SameFree(k0: Kernel, k: Kernel) {
    k.roles.Keys == k0.roles.Keys && forall f :: f in k0.roles ==> (k.roles[f].Free? <==> k0.roles[f].Free?)
  }

  /** A space that was not there and is not there has kept no frame. */
  lemma NothingLost(k0: Sound, k: Sound, s: nat)
    requires s !in k0.spaces && s !in k.spaces && Rest(k0, k, s) && InHand(k0, {}) && InHand(k, {})
    ensures SameFree(k0, k)
  {
    AllFreed(k0, k, s);
    forall f | f in k0.roles ensures !Mine(k0.roles[f], s) { assert RoleOk(k0, f); }
  }

  // Start-up.

  function Boot(top: nat, first: nat): Kernel {
    Kernel(seq(top, _ => Blank()), [], map[], map f | f in Range(first, top) :: Held)
  }

  lemma BootGood(top: nat, first: nat)
    requires 0 < first <= top
    ensures Good(Boot(top, first)) && InHand(Boot(top, first), Range(first, top))
  {
  }
}
