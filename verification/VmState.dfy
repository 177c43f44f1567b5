/** Physical frames, the free list through them, and the two-level page tables in them. */
module VmState {

  const ENTRIES: nat := 1024
  const PGSIZE: nat := 4096
  const KERNBASE: nat := 0x8000_0000
  const USER: nat := KERNBASE / PGSIZE       // page numbers below this are the user's
  const PAGES: nat := 0x10_0000              // page numbers of the 32-bit address space
  const WU: nat := 3                         // writable, user

  /** A 32-bit word as its upper 20 bits, its lowest bit, and the 11 bits between: frame number,
      present bit and the other flags when it is a page-table entry. */
  datatype Word = Word(frame: nat, present: bool, flags: nat)

  const ZERO: Word := Word(0, false, 0)

  /** A frame as words. */
  type Page = seq<Word>

  function Blank(): (p: Page)
    ensures |p| == ENTRIES && forall i :: 0 <= i < ENTRIES ==> p[i] == ZERO
  {
    seq(ENTRIES, _ => ZERO)
  }

  function Put(p: Page, i: nat, w: Word): (q: Page)
    requires i < |p|
  {
    p[i := w]
  }

  /** What a frame is used for; Held is in the hands of a running function of this model, Other
      belongs to a part of the kernel outside it. */
  datatype Role = Free(i: nat) | Held | Other | Dir(s: nat) | Table(s: nat, i: nat) | Leaf(s: nat, v: nat)

  /** An address space: the directory, the tables by directory index, the entries by page number. */
  datatype Space = Space(dir: nat, tables: map<nat, nat>, leaves: map<nat, Word>)

  /** free is the free list, its head last; roles covers every frame that kalloc manages. */
  datatype Kernel = Kernel(mem: seq<Page>, free: seq<nat>, spaces: map<nat, Space>, roles: map<nat, Role>)

  /** A frame's kernel address, as stored in the free list. */
  function Link(free: seq<nat>, i: nat): Word
    requires i <= |free|
  {
    if i == 0 then ZERO else Word(USER + free[i - 1], false, 0)
  }

  predicate InRole(k: Kernel, f: nat, r: Role) { f in k.roles && k.roles[f] == r }

  function WordAt(leaves: map<nat, Word>, v: nat): Word { if v in leaves then leaves[v] else ZERO }

  predicate TableOk(k: Kernel, s: nat, sp: Space, i: nat)
    requires i in sp.tables
  {
    var f := sp.tables[i];
    && i < ENTRIES && InRole(k, f, Table(s, i)) && f < |k.mem| && |k.mem[f]| == ENTRIES
    && forall j :: 0 <= j < ENTRIES ==> k.mem[f][j] == WordAt(sp.leaves, i * ENTRIES + j)
  }

  predicate LeafOk(k: Kernel, s: nat, sp: Space, v: nat)
    requires v in sp.leaves
  {
    && v < PAGES && v / ENTRIES in sp.tables && sp.leaves[v].present
    && (v < USER ==> InRole(k, sp.leaves[v].frame, Leaf(s, v)))
  }

  /** The directory and table frames hold exactly the entries of the space. */
  predicate SpaceOk(k: Kernel, s: nat, sp: Space) {
    && InRole(k, sp.dir, Dir(s)) && sp.dir < |k.mem| && |k.mem[sp.dir]| == ENTRIES
    && (forall i :: 0 <= i < ENTRIES ==>
          k.mem[sp.dir][i] == if i in sp.tables then Word(sp.tables[i], true, WU) else ZERO)
    && (forall i {:trigger TableOk(k, s, sp, i)} :: i in sp.tables ==> TableOk(k, s, sp, i))
    && (forall v {:trigger LeafOk(k, s, sp, v)} :: v in sp.leaves ==> LeafOk(k, s, sp, v))
  }

  predicate FreeOk(k: Kernel, i: nat)
    requires i < |k.free|
  {
    var f := k.free[i];
    InRole(k, f, Free(i)) && f < |k.mem| && |k.mem[f]| == ENTRIES && k.mem[f][0] == Link(k.free, i)
  }

  /** Whatever a frame is said to be used for, it is used for. */
  predicate RoleOk(k: Kernel, f: nat)
    requires f in k.roles
  {
    && 0 < f < |k.mem| && |k.mem[f]| == ENTRIES
    && match k.roles[f]
       case Free(i) => i < |k.free| && k.free[i] == f
       case Held => true
       case Other => true
       case Dir(s) => s in k.spaces && k.spaces[s].dir == f
       case Table(s, i) => s in k.spaces && i in k.spaces[s].tables && k.spaces[s].tables[i] == f
       case Leaf(s, v) => s in k.spaces && v < USER && v in k.spaces[s].leaves && k.spaces[s].leaves[v].frame == f
  }

  /** Every managed frame has exactly one use, and every use one frame. */
  predicate Good(k: Kernel) {
    && (forall f {:trigger RoleOk(k, f)} :: f in k.roles ==> RoleOk(k, f))
    && (forall i {:trigger FreeOk(k, i)} :: 0 <= i < |k.free| ==> FreeOk(k, i))
    && (forall s {:trigger SpaceOk(k, s, k.spaces[s])} :: s in k.spaces ==> SpaceOk(k, s, k.spaces[s]))
  }

  /** A kernel state in which this holds. */
  type Sound = k: Kernel | Good(k) ghost witness Kernel([], [], map[], map[])

  predicate Mine(r: Role, s: nat) {
    (r.Dir? && r.s == s) || (r.Table? && r.s == s) || (r.Leaf? && r.s == s)
  }

  // Steps, each on one frame.

  function Taken(k: Kernel): Kernel
    requires k.free != []
  {
    var n := |k.free| - 1;
    Kernel(k.mem, k.free[..n], k.spaces, k.roles[k.free[n] := Held])
  }

  /** The junk that kfree leaves, with the link to the next free frame. */
  function Junk(next: Word): (p: Page)
    ensures |p| == ENTRIES && p[0] == next
  {
    seq(ENTRIES, i => if i == 0 then next else Word(0x1010, true, 0x80))
  }

  function Freed(k: Kernel, f: nat): Kernel
    requires f < |k.mem|
  {
    Kernel(k.mem[f := Junk(Link(k.free, |k.free|))], k.free + [f], k.spaces, k.roles[f := Free(|k.free|)])
  }

  function Filled(k: Kernel, f: nat, p: Page): Kernel
    requires f < |k.mem|
  {
    Kernel(k.mem[f := p], k.free, k.spaces, k.roles)
  }

  function NewSpace(k: Kernel, s: nat, d: nat): Kernel {
    Kernel(k.mem, k.free, k.spaces[s := Space(d, map[], map[])], k.roles[d := Dir(s)])
  }

  function WithTable(k: Kernel, s: nat, i: nat, f: nat): Kernel
    requires s in k.spaces && k.spaces[s].dir < |k.mem| && i < |k.mem[k.spaces[s].dir]|
  {
    var sp := k.spaces[s];
    Kernel(k.mem[sp.dir := Put(k.mem[sp.dir], i, Word(f, true, WU))], k.free,
           k.spaces[s := Space(sp.dir, sp.tables[i := f], sp.leaves)], k.roles[f := Table(s, i)])
  }

  /** The table frame of a page. */
  predicate HasTable(k: Kernel, s: nat, v: nat) {
    s in k.spaces && v / ENTRIES in k.spaces[s].tables
      && k.spaces[s].tables[v / ENTRIES] < |k.mem| && |k.mem[k.spaces[s].tables[v / ENTRIES]]| == ENTRIES
  }

  function Stored(k: Kernel, s: nat, v: nat, w: Word): seq<Page>
    requires HasTable(k, s, v)
  {
    var t := k.spaces[s].tables[v / ENTRIES];
    k.mem[t := Put(k.mem[t], v % ENTRIES, w)]
  }

  function WithLeaf(k: Kernel, s: nat, v: nat, w: Word): Kernel
    requires HasTable(k, s, v)
  {
    var sp := k.spaces[s];
    Kernel(Stored(k, s, v, w), k.free, k.spaces[s := Space(sp.dir, sp.tables, sp.leaves[v := w])],
           if v < USER then k.roles[w.frame := Leaf(s, v)] else k.roles)
  }

  function WithoutLeaf(k: Kernel, s: nat, v: nat): Kernel
    requires HasTable(k, s, v) && v in k.spaces[s].leaves
  {
    var sp := k.spaces[s];
    Kernel(Stored(k, s, v, ZERO), k.free, k.spaces[s := Space(sp.dir, sp.tables, sp.leaves - {v})],
           k.roles[sp.leaves[v].frame := Held])
  }

  // What each step keeps.

  /** A space is untouched when its frames keep their roles, and its directory and tables their contents. */
  lemma SpaceKept(k: Kernel, k': Kernel, s: nat, sp: Space)
    requires SpaceOk(k, s, sp)
    requires forall f :: f in k.roles && Mine(k.roles[f], s) ==> f in k'.roles && k'.roles[f] == k.roles[f]
    requires |k'.mem| == |k.mem|
    requires forall f :: f in k.roles && f < |k.mem| && Mine(k.roles[f], s) && !k.roles[f].Leaf? ==>
               k'.mem[f] == k.mem[f]
    ensures SpaceOk(k', s, sp)
  {
    forall i | i in sp.tables ensures TableOk(k', s, sp, i) { assert TableOk(k, s, sp, i); }
    forall v | v in sp.leaves ensures LeafOk(k', s, sp, v) { assert LeafOk(k, s, sp, v); }
  }

  lemma TakenKeeps(k: Sound)
    requires k.free != []
    ensures Good(Taken(k))
  {
    var k', n := Taken(k), |k.free| - 1;
    assert FreeOk(k, n);
    forall i | 0 <= i < |k'.free| ensures FreeOk(k', i) { assert FreeOk(k, i); }
    forall f | f in k'.roles ensures RoleOk(k', f) { assert RoleOk(k, f); }
    forall s | s in k'.spaces ensures SpaceOk(k', s, k'.spaces[s]) { SpaceKept(k, k', s, k.spaces[s]); }
  }

  lemma FreedKeeps(k: Sound, f: nat)
    requires InRole(k, f, Held)
    ensures f < |k.mem| && Good(Freed(k, f))
  {
    assert RoleOk(k, f);
    var k' := Freed(k, f);
    forall i | 0 <= i < |k'.free| ensures FreeOk(k', i) { if i < |k.free| { assert FreeOk(k, i); } }
    forall g | g in k'.roles ensures RoleOk(k', g) { assert RoleOk(k, g); }
    forall s | s in k'.spaces ensures SpaceOk(k', s, k'.spaces[s]) { SpaceKept(k, k', s, k.spaces[s]); }
  }

  lemma FilledKeeps(k: Sound, f: nat, p: Page)
    requires f in k.roles && (k.roles[f] == Held || k.roles[f].Leaf?) && |p| == ENTRIES
    ensures f < |k.mem| && Good(Filled(k, f, p))
  {
    assert RoleOk(k, f);
    var k' := Filled(k, f, p);
    forall i | 0 <= i < |k'.free| ensures FreeOk(k', i) { assert FreeOk(k, i); }
    forall g | g in k'.roles ensures RoleOk(k', g) { assert RoleOk(k, g); }
    forall s | s in k'.spaces ensures SpaceOk(k', s, k'.spaces[s]) { SpaceKept(k, k', s, k.spaces[s]); }
  }

  lemma NewSpaceKeeps(k: Sound, s: nat, d: nat)
    requires InRole(k, d, Held) && s !in k.spaces && d < |k.mem| && k.mem[d] == Blank()
    ensures Good(NewSpace(k, s, d))
  {
    assert RoleOk(k, d);
    var k' := NewSpace(k, s, d);
    forall i | 0 <= i < |k'.free| ensures FreeOk(k', i) { assert FreeOk(k, i); }
    forall g | g in k'.roles ensures RoleOk(k', g) { assert RoleOk(k, g); }
    forall x | x in k'.spaces ensures SpaceOk(k', x, k'.spaces[x]) { if x != s { SpaceKept(k, k', x, k.spaces[x]); } }
  }
}
