/** Mapping runs of pages. */
module VmMap {
  import opened VmState
  import opened VmSteps

  /** Entries for consecutive frames. */
  predicate Entries(ws: seq<Word>, frame: nat, perm: nat) {
    forall i :: 0 <= i < |ws| ==> ws[i] == Word(frame + i, true, perm)
  }

  lemma EntriesStep(ws: seq<Word>, frame: nat, perm: nat)
    requires Entries(ws, frame, perm)
    ensures Entries(ws + [Word(frame + |ws|, true, perm)], frame, perm)
  {
  }

  /** Entries ws for the pages from a on. */
  function Extended(leaves: map<nat, Word>, a: nat, ws: seq<Word>): map<nat, Word> {
    if ws == [] then leaves else Extended(leaves, a, ws[..|ws| - 1])[a + |ws| - 1 := ws[|ws| - 1]]
  }

  lemma {:induction false} ExtendedHas(leaves: map<nat, Word>, a: nat, ws: seq<Word>, v: nat)
    ensures v in Extended(leaves, a, ws) <==> v in leaves || a <= v < a + |ws|
    ensures a <= v < a + |ws| ==> Extended(leaves, a, ws)[v] == ws[v - a]
    ensures v in leaves && !(a <= v < a + |ws|) ==> Extended(leaves, a, ws)[v] == leaves[v]
    decreases |ws|
  {
    if ws != [] {
      ExtendedHas(leaves, a, ws[..|ws| - 1], v);
    }
  }

  /** A user page is mapped to a frame in hand, which then is no longer in hand. */
  function HandsLeft(hs: set<nat>, a: nat, ws: seq<Word>): set<nat> {
    if a < USER && ws != [] then hs - {ws[0].frame} else hs
  }

  /** From k0 to k, the pages from a on were mapped and nothing else changed but tables of space s. */
  ghost predicate Mapped(k0: Kernel, k: Kernel, s: nat, a: nat, ws: seq<Word>, hs: set<nat>) {
    && PagesKept(k0, k, s)
    && k.spaces[s].leaves == Extended(k0.spaces[s].leaves, a, ws)
    && Works(k0, k, s, HandsLeft(hs, a, ws)) && HandsKept(k0, k, hs)
  }

  /** The next page to map is v, with entry w. */
  ghost predicate CanMap(k0: Kernel, s: nat, a: nat, ws: seq<Word>, hs: set<nat>, v: nat, w: Word) {
    && s in k0.spaces && InHand(k0, hs) && hs <= k0.roles.Keys
    && v == a + |ws| && v < PAGES && w.present
    && (a < USER ==> ws == [] && w.frame in hs)
  }

  /** How mapping ends: with every page mapped, for want of a frame, or in the panic on a page that
      is mapped already. */
  datatype Outcome = Done | NoMemory | Panic

  /** The pages first to last can be mapped, the user's only one at a time and to a frame in hand. */
  ghost predicate Mappable(k0: Kernel, s: nat, first: nat, last: nat, frame: nat, hs: set<nat>) {
    && s in k0.spaces && InHand(k0, hs) && hs <= k0.roles.Keys && first <= last < PAGES
    && (first < USER ==> first == last && frame in hs)
  }

  lemma NextPage(k0: Sound, s: nat, first: nat, last: nat, frame: nat, perm: nat, hs: set<nat>, ws: seq<Word>, v: nat)
    requires Mappable(k0, s, first, last, frame, hs) && v == first + |ws| && v <= last
    ensures CanMap(k0, s, first, ws, hs, v, Word(frame + |ws|, true, perm))
  {
  }

  lemma MapStart(k0: Sound, s: nat, a: nat, hs: set<nat>)
    requires s in k0.spaces && InHand(k0, hs) && hs <= k0.roles.Keys
    ensures Mapped(k0, k0, s, a, [], hs)
  {
    Same(k0, s, hs);
  }

  lemma MapWalks(k0: Sound, k: Sound, s: nat, a: nat, ws: seq<Word>, hs: set<nat>, v: nat, w: Word)
    requires CanMap(k0, s, a, ws, hs, v, w) && Mapped(k0, k, s, a, ws, hs)
    ensures Good(Walked(k, s, v, true)) && Mapped(k0, Walked(k, s, v, true), s, a, ws, hs)
  {
    WalkedWorks(k, s, v, true, hs);
    WalkMapped(k0, k, Walked(k, s, v, true), s, a, ws, hs);
  }

  lemma WalkMapped(k0: Kernel, k: Kernel, k1: Kernel, s: nat, a: nat, ws: seq<Word>, hs: set<nat>)
    requires Mapped(k0, k, s, a, ws, hs) && HandsLeft(hs, a, ws) == hs
    requires Works(k, k1, s, hs) && PagesKept(k, k1, s) && k1.spaces[s].leaves == k.spaces[s].leaves
    ensures Mapped(k0, k1, s, a, ws, hs)
  {
    PagesTrans(k0, k, k1, s);
    WorksTrans(k0, k, k1, s, hs);
  }

  /** The test for a remap finds what was mapped at the start. */
  lemma RemapTest(k0: Sound, k: Sound, s: nat, a: nat, ws: seq<Word>, hs: set<nat>, v: nat, w: Word)
    requires CanMap(k0, s, a, ws, hs, v, w) && Mapped(k0, k, s, a, ws, hs) && v / ENTRIES in k.spaces[s].tables
    ensures HasTable(k, s, v)
    ensures k.mem[k.spaces[s].tables[v / ENTRIES]][v % ENTRIES].present <==> v in k0.spaces[s].leaves
  {
    ExtendedHas(k0.spaces[s].leaves, a, ws, v);
    PteThere(k, s, v);
  }

  lemma MapCanStore(k0: Sound, k: Sound, s: nat, a: nat, ws: seq<Word>, hs: set<nat>, v: nat, w: Word)
    requires CanMap(k0, s, a, ws, hs, v, w) && Mapped(k0, k, s, a, ws, hs) && v / ENTRIES in k.spaces[s].tables
    requires v !in k0.spaces[s].leaves
    ensures CanAddLeaf(k, s, v, w) && HasTable(k, s, v)
  {
    ExtendedHas(k0.spaces[s].leaves, a, ws, v);
    TableThere(k, s, v);
  }

  lemma MapStores(k0: Sound, k: Sound, s: nat, a: nat, ws: seq<Word>, hs: set<nat>, v: nat, w: Word)
    requires CanMap(k0, s, a, ws, hs, v, w) && Mapped(k0, k, s, a, ws, hs)
    requires CanAddLeaf(k, s, v, w) && HasTable(k, s, v)
    ensures Good(WithLeaf(k, s, v, w)) && Mapped(k0, WithLeaf(k, s, v, w), s, a, ws + [w], hs)
  {
    var k1 := WithLeaf(k, s, v, w);
    LeafKeeps(k, s, v, w);
    LeafWorks(k, s, v, w, hs);
    StoreMapped(k0, k, k1, s, a, ws, hs, v, w);
  }

  lemma ExtendedStep(l0: map<nat, Word>, l: map<nat, Word>, l1: map<nat, Word>, a: nat, ws: seq<Word>, v: nat, w: Word)
    requires l == Extended(l0, a, ws) && l1 == l[v := w] && v == a + |ws|
    ensures l1 == Extended(l0, a, ws + [w])
  {
    assert (ws + [w])[..|ws|] == ws;
  }

  lemma HandsTrans(k0: Kernel, k: Kernel, k1: Kernel, hs: set<nat>)
    requires HandsKept(k0, k, hs) && HandsKept(k, k1, hs)
    ensures HandsKept(k0, k1, hs)
  {
  }

  lemma StoreMapped(k0: Kernel, k: Kernel, k1: Kernel, s: nat, a: nat, ws: seq<Word>, hs: set<nat>, v: nat, w: Word)
    requires Mapped(k0, k, s, a, ws, hs) && PagesKept(k, k1, s) && (a < USER ==> ws == []) && v == a + |ws|
    requires k1.spaces[s].leaves == k.spaces[s].leaves[v := w]
    requires Works(k, k1, s, if v < USER then hs - {w.frame} else hs) && HandsKept(k, k1, hs)
    ensures Mapped(k0, k1, s, a, ws + [w], hs)
  {
    ExtendedStep(k0.spaces[s].leaves, k.spaces[s].leaves, k1.spaces[s].leaves, a, ws, v, w);
    HandsTrans(k0, k, k1, hs);
    PagesTrans(k0, k, k1, s);
    RestTrans(k0, k, k1, s);
    var left := HandsLeft(hs, a, ws + [w]);
    assert left == if v < USER then hs - {w.frame} else hs;
    FewerHands(k0, k1, left, hs);
    MappedAgain(k0, k1, s, a, ws + [w], hs);
  }

  lemma FewerHands(k0: Kernel, k1: Kernel, few: set<nat>, hs: set<nat>)
    requires HandsKept(k0, k1, hs) && few <= hs
    ensures HandsKept(k0, k1, few)
  {
  }

  lemma MappedAgain(k0: Kernel, k: Kernel, s: nat, a: nat, ws: seq<Word>, hs: set<nat>)
    requires PagesKept(k0, k, s) && k.spaces[s].leaves == Extended(k0.spaces[s].leaves, a, ws)
    requires Rest(k0, k, s) && HandsKept(k0, k, HandsLeft(hs, a, ws)) && InHand(k, HandsLeft(hs, a, ws))
    requires HandsKept(k0, k, hs)
    ensures Mapped(k0, k, s, a, ws, hs)
  {
  }

  // Unmapping.

  /** The pages that a size covers. */
  function PagesOf(size: nat): nat { (size + PGSIZE - 1) / PGSIZE }

  function Outside(leaves: map<nat, Word>, lo: nat, hi: nat): map<nat, Word> {
    map v | v in leaves && !(lo <= v < hi) :: leaves[v]
  }

  /** From k0 to k, the pages lo to hi - 1 of space s were removed and nothing else changed. */
  ghost predicate Dropped(k0: Kernel, k: Kernel, s: nat, lo: nat, hi: nat, hs: set<nat>) {
    && Works(k0, k, s, hs) && s in k0.spaces && s in k.spaces
    && k.spaces[s] == Space(k0.spaces[s].dir, k0.spaces[s].tables, Outside(k0.spaces[s].leaves, lo, hi))
    && forall v {:trigger PageKept(k0, k, s, v)} :: v in k.spaces[s].leaves ==> PageKept(k0, k, s, v)
  }

  lemma DropStart(k: Sound, s: nat, lo: nat, hs: set<nat>)
    requires s in k.spaces && InHand(k, hs) && hs <= k.roles.Keys
    ensures Dropped(k, k, s, lo, lo, hs)
  {
    Same(k, s, hs);
    assert Outside(k.spaces[s].leaves, lo, lo) == k.spaces[s].leaves;
  }

  lemma DropNone(k: Sound, s: nat, newsz: nat, oldsz: nat, hs: set<nat>)
    requires s in k.spaces && InHand(k, hs) && hs <= k.roles.Keys && newsz >= oldsz
    ensures Dropped(k, k, s, PagesOf(newsz), Least(PagesOf(oldsz), USER), hs)
  {
    DropStart(k, s, PagesOf(newsz), hs);
    assert Outside(k.spaces[s].leaves, PagesOf(newsz), Least(PagesOf(oldsz), USER)) == k.spaces[s].leaves;
  }

  lemma DropSkip(k0: Sound, k: Sound, s: nat, lo: nat, v: nat, v': nat, hs: set<nat>)
    requires Dropped(k0, k, s, lo, v, hs) && lo <= v <= v' && forall x :: v <= x < v' ==> x !in k.spaces[s].leaves
    ensures Dropped(k0, k, s, lo, v', hs)
  {
    var l0 := k0.spaces[s].leaves;
    forall x | v <= x < v' ensures x !in l0 {
      assert x !in Outside(l0, lo, v);
    }
    assert Outside(l0, lo, v') == Outside(l0, lo, v);
  }

  lemma OutsideStep(leaves: map<nat, Word>, lo: nat, v: nat)
    requires lo <= v
    ensures Outside(leaves, lo, v + 1) == Outside(leaves, lo, v) - {v}
  {
  }

  lemma DropStep(k0: Sound, k: Sound, s: nat, lo: nat, v: nat, hs: set<nat>)
    requires Dropped(k0, k, s, lo, v, hs) && lo <= v < USER && v in k.spaces[s].leaves && hs <= k0.roles.Keys
    ensures HasTable(k, s, v) && k.spaces[s].leaves[v].frame < |k.mem|
    ensures Dropped(k0, Unmapped(k, s, v), s, lo, v + 1, hs)
  {
    UnmappedMemory(k, s, v);
    var k1 := Unmapped(k, s, v);
    UnmappedWorks(k, k1, s, v, hs);
    WorksTrans(k0, k, k1, s, hs);
    OutsideStep(k0.spaces[s].leaves, lo, v);
    forall x | x in k1.spaces[s].leaves ensures PageKept(k0, k1, s, x) {
      assert PageKept(k0, k, s, x) && PageKept(k, k1, s, x);
    }
  }

  function Least(a: nat, b: nat): nat { if a < b then a else b }

  /** The first kernel page is mapped, to frame 0. */
  predicate KernelBegins(sp: Space) { USER in sp.leaves && sp.leaves[USER].frame == 0 }

  /** The frame of page v, while the pages from lo on are removed: no user page has frame 0. */
  lemma PageFrame(k0: Sound, k: Sound, s: nat, lo: nat, v: nat, hs: set<nat>)
    requires Dropped(k0, k, s, lo, v, hs) && v in k.spaces[s].leaves
    requires v < USER || (v == USER && KernelBegins(k0.spaces[s]))
    ensures k.spaces[s].leaves[v].frame == 0 <==> v == USER
  {
    assert SpaceOk(k, s, k.spaces[s]);
    assert LeafOk(k, s, k.spaces[s], v);
    if v < USER { assert RoleOk(k, k.spaces[s].leaves[v].frame); }
  }

  lemma KernelStays(k0: Sound, k: Sound, s: nat, lo: nat, v: nat, hs: set<nat>)
    requires Dropped(k0, k, s, lo, v, hs) && (v == USER ==> KernelBegins(k0.spaces[s]))
    ensures v == USER ==> v in k.spaces[s].leaves && v / ENTRIES in k.spaces[s].tables
  {
    if v == USER {
      assert v in Outside(k0.spaces[s].leaves, lo, v);
      assert SpaceOk(k, s, k.spaces[s]);
      assert LeafOk(k, s, k.spaces[s], v);
    }
  }

  /** Without a table no page of its directory slot is present: the skip misses nothing. */
  lemma NoTable(k: Sound, s: nat, v: nat)
    requires s in k.spaces && v / ENTRIES !in k.spaces[s].tables
    ensures forall x :: v <= x < (v / ENTRIES + 1) * ENTRIES ==> x !in k.spaces[s].leaves
  {
    assert SpaceOk(k, s, k.spaces[s]);
    forall x | x in k.spaces[s].leaves ensures x / ENTRIES in k.spaces[s].tables {
      assert LeafOk(k, s, k.spaces[s], x);
    }
    forall x | v <= x < (v / ENTRIES + 1) * ENTRIES ensures x !in k.spaces[s].leaves {
      assert x / ENTRIES == v / ENTRIES;
    }
  }

  lemma PteThere(k: Sound, s: nat, v: nat)
    requires s in k.spaces && v / ENTRIES in k.spaces[s].tables
    ensures HasTable(k, s, v)
    ensures k.mem[k.spaces[s].tables[v / ENTRIES]][v % ENTRIES].present <==> v in k.spaces[s].leaves
    ensures v in k.spaces[s].leaves ==> k.mem[k.spaces[s].tables[v / ENTRIES]][v % ENTRIES] == k.spaces[s].leaves[v]
  {
    TableThere(k, s, v);
    assert SpaceOk(k, s, k.spaces[s]);
    if v in k.spaces[s].leaves { assert LeafOk(k, s, k.spaces[s], v); }
  }

  /** Page i begins below the size. */
  predicate Below(i: int, size: nat) { 0 <= i * PGSIZE < size }

  /** The pages that begin below the size are the first n. */
  ghost predicate Covers(n: nat, size: nat) { forall i :: Below(i, size) <==> 0 <= i < n }

  lemma PagesCover(n: nat, size: nat)
    ensures Covers(n, size) <==> n == PagesOf(size)
  {
    if Covers(n, size) {
      assert Below(PagesOf(size) - 1, size) <==> size > 0;
      assert !Below(PagesOf(size), size);
      assert Below(n - 1, size) <==> n > 0;
      assert !Below(n, size);
    }
  }

  lemma PageBytes(a: nat)
    ensures a * PGSIZE / PGSIZE == a && (a * PGSIZE + PGSIZE - 1) / PGSIZE == a && a * PGSIZE % PGSIZE == 0
  {
  }
}
