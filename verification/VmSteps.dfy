/** The steps on page tables keep every frame in exactly one use. */
module VmSteps {
  import opened VmState

  lemma Split(v: nat, i: nat, j: nat)
    requires j < ENTRIES
    ensures v == i * ENTRIES + j <==> v / ENTRIES == i && v % ENTRIES == j
  {
  }

  /** The frames of the free list and of the other spaces. */
  predicate Foreign(r: Role, s: nat) {
    r.Free? || (r.Dir? && r.s != s) || (r.Table? && r.s != s) || (r.Leaf? && r.s != s)
  }

  /** A step in one space leaves the rest of the invariant as it is. */
  lemma Reassemble(k: Sound, k': Kernel, s: nat)
    requires k'.free == k.free && |k'.mem| == |k.mem|
    requires s in k'.spaces && SpaceOk(k', s, k'.spaces[s])
    requires forall x :: x in k'.spaces && x != s ==> x in k.spaces && k'.spaces[x] == k.spaces[x]
    requires forall f :: f in k'.roles ==> RoleOk(k', f)
    requires forall f :: f in k.roles && Foreign(k.roles[f], s) ==> f in k'.roles && k'.roles[f] == k.roles[f]
    requires forall f :: f in k.roles && f < |k.mem| && Foreign(k.roles[f], s) ==> k'.mem[f] == k.mem[f]
    ensures Good(k')
  {
    forall i | 0 <= i < |k'.free| ensures FreeOk(k', i) { assert FreeOk(k, i); }
    forall x | x in k'.spaces ensures SpaceOk(k', x, k'.spaces[x]) { if x != s { SpaceKept(k, k', x, k.spaces[x]); } }
  }

  ghost predicate CanAddTable(k: Kernel, s: nat, i: nat, f: nat) {
    && s in k.spaces && i < ENTRIES && i !in k.spaces[s].tables
    && InRole(k, f, Held) && f < |k.mem| && k.mem[f] == Blank()
  }

  lemma BlankTable(k: Sound, s: nat, i: nat, f: nat)
    requires CanAddTable(k, s, i, f)
    ensures forall j :: 0 <= j < ENTRIES ==> k.mem[f][j] == WordAt(k.spaces[s].leaves, i * ENTRIES + j)
  {
    var sp := k.spaces[s];
    assert SpaceOk(k, s, sp);
    forall v | v in sp.leaves ensures v / ENTRIES in sp.tables { assert LeafOk(k, s, sp, v); }
    forall j | 0 <= j < ENTRIES ensures k.mem[f][j] == WordAt(sp.leaves, i * ENTRIES + j) {
      Split(i * ENTRIES + j, i, j);
      assert i * ENTRIES + j !in sp.leaves;
    }
  }

  lemma TableSpace(k: Sound, s: nat, i: nat, f: nat)
    requires CanAddTable(k, s, i, f)
    ensures k.spaces[s].dir < |k.mem| && |k.mem[k.spaces[s].dir]| == ENTRIES
    ensures SpaceOk(WithTable(k, s, i, f), s, WithTable(k, s, i, f).spaces[s])
  {
    var sp := k.spaces[s];
    assert SpaceOk(k, s, sp);
    BlankTable(k, s, i, f);
    var k' := WithTable(k, s, i, f);
    var sp' := k'.spaces[s];
    forall x | x in sp'.tables ensures TableOk(k', s, sp', x) { if x != i { assert TableOk(k, s, sp, x); } }
    forall v | v in sp.leaves ensures LeafOk(k', s, sp', v) { assert LeafOk(k, s, sp, v); }
  }

  lemma TableRoles(k: Sound, s: nat, i: nat, f: nat)
    requires CanAddTable(k, s, i, f) && k.spaces[s].dir < |k.mem| && |k.mem[k.spaces[s].dir]| == ENTRIES
    ensures forall g :: g in WithTable(k, s, i, f).roles ==> RoleOk(WithTable(k, s, i, f), g)
  {
    var k' := WithTable(k, s, i, f);
    forall g | g in k'.roles ensures RoleOk(k', g) { assert RoleOk(k, g); }
  }

  lemma TableKeeps(k: Sound, s: nat, i: nat, f: nat)
    requires CanAddTable(k, s, i, f)
    ensures k.spaces[s].dir < |k.mem| && |k.mem[k.spaces[s].dir]| == ENTRIES && Good(WithTable(k, s, i, f))
  {
    TableSpace(k, s, i, f);
    TableRoles(k, s, i, f);
    assert SpaceOk(k, s, k.spaces[s]);
    Reassemble(k, WithTable(k, s, i, f), s);
  }

  ghost predicate CanAddLeaf(k: Kernel, s: nat, v: nat, w: Word) {
    && s in k.spaces && v < PAGES && v / ENTRIES in k.spaces[s].tables && v !in k.spaces[s].leaves
    && w.present && (v < USER ==> InRole(k, w.frame, Held))
  }

  lemma TableThere(k: Sound, s: nat, v: nat)
    requires s in k.spaces && v / ENTRIES in k.spaces[s].tables
    ensures HasTable(k, s, v) && InRole(k, k.spaces[s].tables[v / ENTRIES], Table(s, v / ENTRIES))
    ensures k.mem[k.spaces[s].tables[v / ENTRIES]][v % ENTRIES] == WordAt(k.spaces[s].leaves, v)
    ensures k.spaces[s].dir < |k.mem| && |k.mem[k.spaces[s].dir]| == ENTRIES && v / ENTRIES < ENTRIES
    ensures k.mem[k.spaces[s].dir][v / ENTRIES] == Word(k.spaces[s].tables[v / ENTRIES], true, WU)
  {
    assert SpaceOk(k, s, k.spaces[s]);
    assert TableOk(k, s, k.spaces[s], v / ENTRIES);
    Split(v, v / ENTRIES, v % ENTRIES);
  }

  /** Writing one entry changes one word of one table. */
  lemma StoredTable(k: Kernel, k': Kernel, s: nat, sp: Space, sp': Space, v: nat, w: Word, x: nat)
    requires SpaceOk(k, s, sp) && s in k.spaces && k.spaces[s] == sp && HasTable(k, s, v)
    requires k'.mem == Stored(k, s, v, w)
    requires sp'.tables == sp.tables && x in sp.tables && WordAt(sp'.leaves, v) == w
    requires forall y :: y != v ==> WordAt(sp'.leaves, y) == WordAt(sp.leaves, y)
    requires InRole(k', sp.tables[x], Table(s, x))
    ensures TableOk(k', s, sp', x)
  {
    assert TableOk(k, s, sp, x) && TableOk(k, s, sp, v / ENTRIES);
    var f := sp.tables[x];
    forall j | 0 <= j < ENTRIES ensures k'.mem[f][j] == WordAt(sp'.leaves, x * ENTRIES + j) {
      Split(v, x, j);
    }
  }

  lemma LeafSpace(k: Sound, s: nat, v: nat, w: Word)
    requires CanAddLeaf(k, s, v, w)
    ensures HasTable(k, s, v) && SpaceOk(WithLeaf(k, s, v, w), s, WithLeaf(k, s, v, w).spaces[s])
  {
    TableThere(k, s, v);
    var sp, k' := k.spaces[s], WithLeaf(k, s, v, w);
    var sp' := k'.spaces[s];
    assert SpaceOk(k, s, sp);
    forall x | x in sp'.tables ensures TableOk(k', s, sp', x) {
      assert TableOk(k, s, sp, x);
      StoredTable(k, k', s, sp, sp', v, w, x);
    }
    forall y | y in sp'.leaves ensures LeafOk(k', s, sp', y) { if y != v { assert LeafOk(k, s, sp, y); } }
  }

  lemma LeafRoles(k: Sound, s: nat, v: nat, w: Word)
    requires CanAddLeaf(k, s, v, w) && HasTable(k, s, v)
    ensures forall g :: g in WithLeaf(k, s, v, w).roles ==> RoleOk(WithLeaf(k, s, v, w), g)
  {
    var k' := WithLeaf(k, s, v, w);
    forall g | g in k'.roles ensures RoleOk(k', g) { assert RoleOk(k, g); }
  }

  lemma LeafKeeps(k: Sound, s: nat, v: nat, w: Word)
    requires CanAddLeaf(k, s, v, w)
    ensures HasTable(k, s, v) && Good(WithLeaf(k, s, v, w))
  {
    TableThere(k, s, v);
    LeafSpace(k, s, v, w);
    LeafRoles(k, s, v, w);
    Reassemble(k, WithLeaf(k, s, v, w), s);
  }

  ghost predicate CanDropLeaf(k: Kernel, s: nat, v: nat) {
    s in k.spaces && v in k.spaces[s].leaves && v < USER
  }

  lemma LeafThere(k: Sound, s: nat, v: nat)
    requires CanDropLeaf(k, s, v)
    ensures v / ENTRIES in k.spaces[s].tables && k.spaces[s].leaves[v].present
    ensures InRole(k, k.spaces[s].leaves[v].frame, Leaf(s, v))
    ensures 0 < k.spaces[s].leaves[v].frame < |k.mem|
  {
    assert SpaceOk(k, s, k.spaces[s]);
    assert LeafOk(k, s, k.spaces[s], v);
    assert RoleOk(k, k.spaces[s].leaves[v].frame);
  }

  lemma DropLeafSpace(k: Sound, s: nat, v: nat)
    requires CanDropLeaf(k, s, v)
    ensures HasTable(k, s, v) && SpaceOk(WithoutLeaf(k, s, v), s, WithoutLeaf(k, s, v).spaces[s])
  {
    LeafThere(k, s, v);
    TableThere(k, s, v);
    var sp, k' := k.spaces[s], WithoutLeaf(k, s, v);
    var sp' := k'.spaces[s];
    assert SpaceOk(k, s, sp);
    forall x | x in sp'.tables ensures TableOk(k', s, sp', x) {
      assert TableOk(k, s, sp, x);
      StoredTable(k, k', s, sp, sp', v, ZERO, x);
    }
    forall y | y in sp'.leaves ensures LeafOk(k', s, sp', y) { assert LeafOk(k, s, sp, y); }
  }

  lemma DropLeafRoles(k: Sound, s: nat, v: nat)
    requires CanDropLeaf(k, s, v) && HasTable(k, s, v) && InRole(k, k.spaces[s].leaves[v].frame, Leaf(s, v))
    ensures forall g :: g in WithoutLeaf(k, s, v).roles ==> RoleOk(WithoutLeaf(k, s, v), g)
  {
    var k' := WithoutLeaf(k, s, v);
    forall g | g in k'.roles ensures RoleOk(k', g) { assert RoleOk(k, g); }
  }

  lemma DropLeafKeeps(k: Sound, s: nat, v: nat)
    requires CanDropLeaf(k, s, v)
    ensures HasTable(k, s, v) && Good(WithoutLeaf(k, s, v))
  {
    LeafThere(k, s, v);
    TableThere(k, s, v);
    DropLeafSpace(k, s, v);
    DropLeafRoles(k, s, v);
    Reassemble(k, WithoutLeaf(k, s, v), s);
  }

  /** Giving up a space that has no user page left. */
  function Dissolved(k: Kernel, s: nat): Kernel {
    Kernel(k.mem, k.free, k.spaces - {s}, map f | f in k.roles :: if Mine(k.roles[f], s) then Held else k.roles[f])
  }

  predicate NoUserPage(sp: Space) { forall v :: v in sp.leaves ==> v >= USER }

  lemma DissolvedKeeps(k: Sound, s: nat)
    requires s in k.spaces && NoUserPage(k.spaces[s])
    ensures Good(Dissolved(k, s))
  {
    var k' := Dissolved(k, s);
    forall x | 0 <= x < |k'.free| ensures FreeOk(k', x) { assert FreeOk(k, x); }
    forall g | g in k'.roles ensures RoleOk(k', g) { assert RoleOk(k, g); }
    forall x | x in k'.spaces ensures SpaceOk(k', x, k'.spaces[x]) { SpaceKept(k, k', x, k.spaces[x]); }
  }

  // What the rest of the system notices of a step in space s: nothing.

  predicate PageKept(k: Kernel, k': Kernel, s: nat, v: nat) {
    && s in k.spaces && s in k'.spaces && v in k.spaces[s].leaves && v in k'.spaces[s].leaves
    && k'.spaces[s].leaves[v] == k.spaces[s].leaves[v]
    && (v < USER ==> k.spaces[s].leaves[v].frame < |k.mem| && k.spaces[s].leaves[v].frame < |k'.mem|
                     && k'.mem[k.spaces[s].leaves[v].frame] == k.mem[k.spaces[s].leaves[v].frame])
  }

  /** The other spaces, their pages and the frames of the rest of the kernel are as before. */
  ghost predicate Rest(k: Kernel, k': Kernel, s: nat) {
    && |k'.mem| == |k.mem| && k'.roles.Keys == k.roles.Keys
    && (forall x :: x in k.spaces && x != s ==> x in k'.spaces && k'.spaces[x] == k.spaces[x])
    && (forall x :: x in k'.spaces && x != s ==> x in k.spaces)
    && (forall x, v {:trigger PageKept(k, k', x, v)} :: x in k.spaces && x != s && v in k.spaces[x].leaves ==>
          PageKept(k, k', x, v))
    && (forall f :: f in k.roles ==> (k'.roles[f] == Other <==> k.roles[f] == Other))
    && (forall f :: f in k.roles && k.roles[f] == Other && f < |k.mem| ==> k'.mem[f] == k.mem[f])
  }

  lemma RestTrans(k1: Kernel, k2: Kernel, k3: Kernel, s: nat)
    requires Rest(k1, k2, s) && Rest(k2, k3, s)
    ensures Rest(k1, k3, s)
  {
    forall x, v | x in k1.spaces && x != s && v in k1.spaces[x].leaves ensures PageKept(k1, k3, x, v) {
      assert PageKept(k1, k2, x, v);
      assert PageKept(k2, k3, x, v);
    }
  }

  /** Steps that write only to frames that are no user pages and not the rest's, and change no other space. */
  lemma SomeFrames(k: Sound, k': Kernel, s: nat, c: set<nat>)
    requires |k'.mem| == |k.mem| && k'.roles.Keys == k.roles.Keys
    requires forall x :: x in k.spaces && x != s ==> x in k'.spaces && k'.spaces[x] == k.spaces[x]
    requires forall x :: x in k'.spaces && x != s ==> x in k.spaces
    requires forall f :: f in c ==> f in k.roles && k.roles[f] != Other && !k.roles[f].Leaf?
    requires forall g :: 0 <= g < |k.mem| && g !in c ==> k'.mem[g] == k.mem[g]
    requires forall g :: g in k.roles ==> (k'.roles[g] == Other <==> k.roles[g] == Other)
    ensures Rest(k, k', s)
  {
    forall x, v | x in k.spaces && x != s && v in k.spaces[x].leaves ensures PageKept(k, k', x, v) {
      if v < USER { UserFrame(k, x, v); }
    }
  }

  lemma UserFrame(k: Sound, x: nat, v: nat)
    requires x in k.spaces && v in k.spaces[x].leaves && v < USER
    ensures InRole(k, k.spaces[x].leaves[v].frame, Leaf(x, v)) && 0 < k.spaces[x].leaves[v].frame < |k.mem|
  {
    assert SpaceOk(k, x, k.spaces[x]);
    assert LeafOk(k, x, k.spaces[x], v);
    assert RoleOk(k, k.spaces[x].leaves[v].frame);
  }

  /** The frames in hand. */
  predicate InHand(k: Kernel, hs: set<nat>) {
    forall f :: f in k.roles ==> (k.roles[f] == Held <==> f in hs)
  }

  ghost predicate HandsKept(k: Kernel, k': Kernel, hs: set<nat>) {
    forall f :: f in hs ==> f < |k.mem| && f < |k'.mem| && k'.mem[f] == k.mem[f]
  }

  /** Work in space s that leaves the frames in hand alone. */
  ghost predicate Works(k: Kernel, k': Kernel, s: nat, hs: set<nat>) {
    Rest(k, k', s) && HandsKept(k, k', hs) && InHand(k', hs)
  }

  lemma WorksTrans(k1: Kernel, k2: Kernel, k3: Kernel, s: nat, hs: set<nat>)
    requires Works(k1, k2, s, hs) && Works(k2, k3, s, hs)
    ensures Works(k1, k3, s, hs)
  {
    RestTrans(k1, k2, k3, s);
  }

  ghost predicate PagesKept(k: Kernel, k': Kernel, s: nat) {
    && s in k.spaces && s in k'.spaces && k'.spaces[s].dir == k.spaces[s].dir
    && (forall i :: i in k.spaces[s].tables ==>
          i in k'.spaces[s].tables && k'.spaces[s].tables[i] == k.spaces[s].tables[i])
    && forall v {:trigger PageKept(k, k', s, v)} :: v in k.spaces[s].leaves ==> PageKept(k, k', s, v)
  }

  lemma PagesTrans(k1: Kernel, k2: Kernel, k3: Kernel, s: nat)
    requires PagesKept(k1, k2, s) && PagesKept(k2, k3, s)
    ensures PagesKept(k1, k3, s)
  {
    forall v | v in k1.spaces[s].leaves ensures PageKept(k1, k3, s, v) {
      assert PageKept(k1, k2, s, v);
      assert PageKept(k2, k3, s, v);
    }
  }

  lemma SamePages(k: Sound, k': Kernel, s: nat, c: set<nat>)
    requires s in k.spaces && s in k'.spaces && |k'.mem| == |k.mem|
    requires k'.spaces[s].dir == k.spaces[s].dir
    requires forall i :: i in k.spaces[s].tables ==>
               i in k'.spaces[s].tables && k'.spaces[s].tables[i] == k.spaces[s].tables[i]
    requires forall v :: v in k.spaces[s].leaves ==>
               v in k'.spaces[s].leaves && k'.spaces[s].leaves[v] == k.spaces[s].leaves[v]
    requires forall f :: f in c ==> f in k.roles && !k.roles[f].Leaf?
    requires forall g :: 0 <= g < |k.mem| && g !in c ==> k'.mem[g] == k.mem[g]
    ensures PagesKept(k, k', s)
  {
    forall v | v in k.spaces[s].leaves ensures PageKept(k, k', s, v) {
      if v < USER { UserFrame(k, s, v); }
    }
  }

  /** The kernel after walkpgdir has put a blank table, from the free list, at directory index i. */
  function NewTable(k: Kernel, s: nat, i: nat): Kernel
    requires k.free != [] && s in k.spaces && k.spaces[s].dir < |k.mem| && |k.mem[k.spaces[s].dir]| == ENTRIES
    requires i < ENTRIES
    requires k.free[|k.free| - 1] < |k.mem| && k.free[|k.free| - 1] != k.spaces[s].dir
  {
    var f := k.free[|k.free| - 1];
    WithTable(Filled(Taken(k), f, Blank()), s, i, f)
  }

  lemma NewTableDefined(k: Sound, s: nat)
    requires k.free != [] && s in k.spaces
    ensures k.spaces[s].dir < |k.mem| && |k.mem[k.spaces[s].dir]| == ENTRIES
    ensures k.free[|k.free| - 1] < |k.mem| && k.free[|k.free| - 1] != k.spaces[s].dir
    ensures InRole(k, k.free[|k.free| - 1], Free(|k.free| - 1)) && InRole(k, k.spaces[s].dir, Dir(s))
  {
    assert FreeOk(k, |k.free| - 1);
    assert SpaceOk(k, s, k.spaces[s]);
  }

  lemma NewTableReady(k: Sound, s: nat, i: nat)
    requires k.free != [] && s in k.spaces && i < ENTRIES && i !in k.spaces[s].tables
    ensures k.free[|k.free| - 1] < |k.mem| && k.free[|k.free| - 1] > 0
    ensures Good(Filled(Taken(k), k.free[|k.free| - 1], Blank()))
    ensures CanAddTable(Filled(Taken(k), k.free[|k.free| - 1], Blank()), s, i, k.free[|k.free| - 1])
  {
    NewTableDefined(k, s);
    assert RoleOk(k, k.free[|k.free| - 1]);
    TakenKeeps(k);
    FilledKeeps(Taken(k), k.free[|k.free| - 1], Blank());
  }

  lemma NewTableGood(k: Sound, s: nat, i: nat)
    requires k.free != [] && s in k.spaces && i < ENTRIES && i !in k.spaces[s].tables
    ensures k.spaces[s].dir < |k.mem| && |k.mem[k.spaces[s].dir]| == ENTRIES
    ensures k.free[|k.free| - 1] < |k.mem| && k.free[|k.free| - 1] != k.spaces[s].dir
    ensures Good(NewTable(k, s, i))
  {
    NewTableDefined(k, s);
    NewTableReady(k, s, i);
    TableKeeps(Filled(Taken(k), k.free[|k.free| - 1], Blank()), s, i, k.free[|k.free| - 1]);
  }

  /** What adding a table changes: two frames, one role, one space. */
  predicate Tables(k: Kernel, k': Kernel, s: nat, i: nat, f: nat) {
    && s in k.spaces && |k'.mem| == |k.mem| && InRole(k, k.spaces[s].dir, Dir(s)) && f in k.roles && k.roles[f].Free?
    && (forall g :: 0 <= g < |k.mem| && g != k.spaces[s].dir && g != f ==> k'.mem[g] == k.mem[g])
    && k'.roles == k.roles[f := Table(s, i)]
    && k'.spaces == k.spaces[s := Space(k.spaces[s].dir, k.spaces[s].tables[i := f], k.spaces[s].leaves)]
  }

  lemma NewTableMemory(k: Sound, s: nat, i: nat)
    requires k.free != [] && s in k.spaces && i < ENTRIES
    ensures k.spaces[s].dir < |k.mem| && |k.mem[k.spaces[s].dir]| == ENTRIES
    ensures k.free[|k.free| - 1] < |k.mem| && k.free[|k.free| - 1] != k.spaces[s].dir
    ensures Tables(k, NewTable(k, s, i), s, i, k.free[|k.free| - 1])
  {
    NewTableDefined(k, s);
  }

  lemma TablesWorks(k: Sound, k': Kernel, s: nat, i: nat, f: nat, hs: set<nat>)
    requires Tables(k, k', s, i, f) && i !in k.spaces[s].tables && InHand(k, hs) && hs <= k.roles.Keys
    ensures Works(k, k', s, hs) && PagesKept(k, k', s)
  {
    var c := {f, k.spaces[s].dir};
    SomeFrames(k, k', s, c);
    SamePages(k, k', s, c);
    forall g | g in hs ensures g < |k.mem| && k'.mem[g] == k.mem[g] { assert RoleOk(k, g); }
  }

  /** Storing a new entry. */
  lemma LeafWorks(k: Sound, s: nat, v: nat, w: Word, hs: set<nat>)
    requires CanAddLeaf(k, s, v, w) && InHand(k, hs) && hs <= k.roles.Keys
    ensures HasTable(k, s, v) && PagesKept(k, WithLeaf(k, s, v, w), s)
    ensures Works(k, WithLeaf(k, s, v, w), s, if v < USER then hs - {w.frame} else hs)
    ensures v < USER ==> w.frame < |k.mem| && WithLeaf(k, s, v, w).mem[w.frame] == k.mem[w.frame]
  {
    TableThere(k, s, v);
    var k' := WithLeaf(k, s, v, w);
    var c := {k.spaces[s].tables[v / ENTRIES]};
    SomeFrames(k, k', s, c);
    SamePages(k, k', s, c);
    forall f | f in hs ensures f < |k.mem| && k'.mem[f] == k.mem[f] { assert RoleOk(k, f); }
  }

  /** Taking an entry out and freeing its frame. */
  function Unmapped(k: Kernel, s: nat, v: nat): Kernel
    requires HasTable(k, s, v) && v in k.spaces[s].leaves && k.spaces[s].leaves[v].frame < |k.mem|
  {
    Freed(WithoutLeaf(k, s, v), k.spaces[s].leaves[v].frame)
  }

  /** What unmapping changes: two frames, one role, one space. */
  predicate Unmaps(k: Kernel, k': Kernel, s: nat, v: nat) {
    && s in k.spaces && v in k.spaces[s].leaves && v / ENTRIES in k.spaces[s].tables && |k'.mem| == |k.mem|
    && var t, f := k.spaces[s].tables[v / ENTRIES], k.spaces[s].leaves[v].frame;
       && InRole(k, t, Table(s, v / ENTRIES)) && InRole(k, f, Leaf(s, v))
       && (forall g :: 0 <= g < |k.mem| && g != t && g != f ==> k'.mem[g] == k.mem[g])
       && k'.roles == k.roles[f := Free(|k.free|)]
       && k'.spaces == k.spaces[s := Space(k.spaces[s].dir, k.spaces[s].tables, k.spaces[s].leaves - {v})]
  }

  lemma UnmappedMemory(k: Sound, s: nat, v: nat)
    requires CanDropLeaf(k, s, v)
    ensures HasTable(k, s, v) && k.spaces[s].leaves[v].frame < |k.mem| && Unmaps(k, Unmapped(k, s, v), s, v)
  {
    LeafThere(k, s, v);
    TableThere(k, s, v);
  }

  lemma UnmappedPages(k: Sound, k': Kernel, s: nat, v: nat, x: nat, y: nat)
    requires Unmaps(k, k', s, v) && x in k.spaces && y in k.spaces[x].leaves && (x != s || y != v)
    ensures PageKept(k, k', x, y)
  {
    if y < USER { UserFrame(k, x, y); }
  }

  lemma UnmappedRest(k: Sound, k': Kernel, s: nat, v: nat)
    requires Unmaps(k, k', s, v)
    ensures Rest(k, k', s)
    ensures forall y :: y in k.spaces[s].leaves && y != v ==> PageKept(k, k', s, y)
  {
    forall x, y | x in k.spaces && y in k.spaces[x].leaves && (x != s || y != v) ensures PageKept(k, k', x, y) {
      UnmappedPages(k, k', s, v, x, y);
    }
  }

  lemma UnmappedWorks(k: Sound, k': Kernel, s: nat, v: nat, hs: set<nat>)
    requires Unmaps(k, k', s, v) && InHand(k, hs) && hs <= k.roles.Keys
    ensures Works(k, k', s, hs)
    ensures forall y :: y in k.spaces[s].leaves && y != v ==> PageKept(k, k', s, y)
  {
    UnmappedRest(k, k', s, v);
    forall g | g in hs ensures g < |k.mem| && k'.mem[g] == k.mem[g] { assert RoleOk(k, g); }
  }

  lemma Same(k: Sound, s: nat, hs: set<nat>)
    requires s in k.spaces && InHand(k, hs) && hs <= k.roles.Keys
    ensures Works(k, k, s, hs) && PagesKept(k, k, s)
  {
    forall f | f in hs ensures f < |k.mem| { assert RoleOk(k, f); }
    forall x, y | x in k.spaces && y in k.spaces[x].leaves ensures PageKept(k, k, x, y) {
      if y < USER { UserFrame(k, x, y); }
    }
  }

  lemma DirThere(k: Sound, s: nat, i: nat)
    requires s in k.spaces && i < ENTRIES
    ensures k.spaces[s].dir < |k.mem| && |k.mem[k.spaces[s].dir]| == ENTRIES
    ensures k.mem[k.spaces[s].dir][i].present <==> i in k.spaces[s].tables
    ensures i in k.spaces[s].tables ==>
              k.mem[k.spaces[s].dir][i].frame == k.spaces[s].tables[i] && k.spaces[s].tables[i] != 0
  {
    assert SpaceOk(k, s, k.spaces[s]);
    if i in k.spaces[s].tables {
      assert TableOk(k, s, k.spaces[s], i);
      assert RoleOk(k, k.spaces[s].tables[i]);
    }
  }

  /** The kernel after walkpgdir: a table is added if it is missing, wanted and possible. */
  ghost function Walked(k: Sound, s: nat, v: nat, alloc: bool): Kernel
    requires s in k.spaces && v < PAGES
  {
    if alloc && v / ENTRIES !in k.spaces[s].tables && k.free != [] then
      NewTableDefined(k, s);
      NewTable(k, s, v / ENTRIES)
    else k
  }

  /** walkpgdir changes no entry, and nothing outside the space. */
  lemma WalkedWorks(k: Sound, s: nat, v: nat, alloc: bool, hs: set<nat>)
    requires s in k.spaces && v < PAGES && InHand(k, hs) && hs <= k.roles.Keys
    ensures var k' := Walked(k, s, v, alloc);
      && Good(k') && Works(k, k', s, hs) && PagesKept(k, k', s)
      && k'.spaces[s].leaves == k.spaces[s].leaves && (alloc && v / ENTRIES !in k'.spaces[s].tables ==> k'.free == [])
  {
    if alloc && v / ENTRIES !in k.spaces[s].tables && k.free != [] {
      NewTableGood(k, s, v / ENTRIES);
      NewTableMemory(k, s, v / ENTRIES);
      TablesWorks(k, NewTable(k, s, v / ENTRIES), s, v / ENTRIES, k.free[|k.free| - 1], hs);
    } else {
      Same(k, s, hs);
    }
  }
}
