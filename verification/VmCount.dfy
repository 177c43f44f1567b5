/** How many frames the page-table functions take, and so when they run out. */
module VmCount {
  import opened Basics
  import opened VmState
  import opened VmSteps
  import opened VmMap
  import opened VmLife

  /** The directory slots with a table. */
  function Keys(k: Kernel, s: nat): set<nat> {
    if s in k.spaces then k.spaces[s].tables.Keys else {}
  }

  /** Some page from lo to hi - 1 is in directory slot i. */
  predicate Spans(lo: nat, hi: nat, i: nat) { lo < hi && lo / ENTRIES <= i <= (hi - 1) / ENTRIES }

  /** The directory slots of the pages lo to hi - 1. */
  function Slots(lo: nat, hi: nat): set<nat> {
    set i: nat | i < hi && Spans(lo, hi, i)
  }

  lemma SlotsStep(lo: nat, v: nat)
    requires lo <= v
    ensures Slots(lo, v + 1) == Slots(lo, v) + {v / ENTRIES}
  {
  }

  lemma SlotsSplit(lo: nat, mid: nat, hi: nat)
    requires lo <= mid <= hi
    ensures Slots(lo, hi) == Slots(lo, mid) + Slots(mid, hi)
  {
    if lo < mid < hi {
      assert (mid - 1) / ENTRIES <= mid / ENTRIES <= (mid - 1) / ENTRIES + 1;
    }
  }

  lemma InSlots(lo: nat, v: nat, hi: nat)
    requires lo <= v < hi
    ensures Slots(lo, v) + {v / ENTRIES} <= Slots(lo, hi)
  {
    SlotsStep(lo, v);
    SlotsSplit(lo, v + 1, hi);
  }

  /** The free frames and the tables of space s. */
  function Stock(k: Kernel, s: nat): nat { |k.free| + |Keys(k, s)| }

  predicate UseOk(k0: Kernel, k: Kernel, s: nat, lo: nat, hi: nat, n: nat, i: nat) {
    (i in Keys(k, s) <==> i in Keys(k0, s) || Spans(lo, hi, i)) && Stock(k0, s) == Stock(k, s) + n
  }

  /** From k0 to k, space s got tables for the pages lo to hi - 1, and n frames were taken besides. */
  ghost predicate Uses(k0: Kernel, k: Kernel, s: nat, lo: nat, hi: nat, n: nat) {
    forall i: nat {:trigger UseOk(k0, k, s, lo, hi, n, i)} :: UseOk(k0, k, s, lo, hi, n, i)
  }

  lemma UsesIs(k0: Kernel, k: Kernel, s: nat, lo: nat, hi: nat, n: nat)
    ensures Uses(k0, k, s, lo, hi, n) <==> Keys(k, s) == Keys(k0, s) + Slots(lo, hi) && Stock(k0, s) == Stock(k, s) + n
  {
    if Uses(k0, k, s, lo, hi, n) {
      forall i: nat ensures i in Keys(k, s) <==> i in Keys(k0, s) + Slots(lo, hi) {
        assert UseOk(k0, k, s, lo, hi, n, i);
      }
      assert UseOk(k0, k, s, lo, hi, n, 0);
    }
  }

  lemma UsesNone(k: Kernel, s: nat, lo: nat)
    ensures Uses(k, k, s, lo, lo, 0)
  {
    forall i: nat ensures UseOk(k, k, s, lo, lo, 0, i) {
    }
  }

  lemma SpansStep(lo: nat, v: nat, next: nat, i: nat)
    requires lo <= v && next == v + 1
    ensures Spans(lo, next, i) <==> Spans(lo, v, i) || i == v / ENTRIES
    ensures Spans(v, next, i) <==> i == v / ENTRIES
  {
    if lo < v {
      assert (v - 1) / ENTRIES <= v / ENTRIES <= (v - 1) / ENTRIES + 1;
    }
  }

  /** One page more. */
  lemma UsesStep(k0: Kernel, k: Kernel, k1: Kernel, s: nat, lo: nat, v: nat, n: nat, m: nat)
    requires lo <= v && Uses(k0, k, s, lo, v, n) && Uses(k, k1, s, v, v + 1, m)
    ensures Uses(k0, k1, s, lo, v + 1, n + m)
  {
    var next, more := v + 1, n + m;
    forall i: nat ensures UseOk(k0, k1, s, lo, next, more, i) {
      assert UseOk(k0, k, s, lo, v, n, i) && UseOk(k, k1, s, v, next, m, i);
      SpansStep(lo, v, next, i);
    }
  }

  /** From k0 to k, space s got tables for the pages lo to hi - 1; every frame taken is a table now. */
  ghost predicate Tabled(k0: Kernel, k: Kernel, s: nat, lo: nat, hi: nat) { Uses(k0, k, s, lo, hi, 0) }

  lemma Together(a: set<nat>, b: set<nat>)
    ensures |a + b| == |a| + |b - a|
  {
    assert a + b == a + (b - a);
  }

  lemma WalkCounts(k: Sound, s: nat, v: nat)
    requires s in k.spaces && v < PAGES
    ensures var k1 := Walked(k, s, v, true);
      && s in k1.spaces && (v / ENTRIES !in Keys(k1, s) ==> k1 == k && k.free == [])
      && (v / ENTRIES in Keys(k1, s) ==> Keys(k1, s) == Keys(k, s) + {v / ENTRIES})
      && Stock(k, s) == Stock(k1, s)
  {
    if v / ENTRIES !in k.spaces[s].tables && k.free != [] {
      NewTableDefined(k, s);
      var k1 := NewTable(k, s, v / ENTRIES);
      assert k1.spaces[s].tables.Keys == k.spaces[s].tables.Keys + {v / ENTRIES};
    } else if v / ENTRIES in k.spaces[s].tables {
      assert Keys(k, s) == Keys(k, s) + {v / ENTRIES};
    }
  }

  predicate StarvedAt(k: Kernel, s: nat, v: nat, i: nat) {
    i == v / ENTRIES ==> k.free == [] && i !in Keys(k, s)
  }

  /** No frame is left, and page v has no table. */
  ghost predicate Starved(k: Kernel, s: nat, v: nat) {
    forall i: nat {:trigger StarvedAt(k, s, v, i)} :: StarvedAt(k, s, v, i)
  }

  lemma WalkUses(k: Sound, s: nat, v: nat)
    requires s in k.spaces && v < PAGES && v / ENTRIES in Keys(Walked(k, s, v, true), s)
    ensures Uses(k, Walked(k, s, v, true), s, v, v + 1, 0)
  {
    var k1, next := Walked(k, s, v, true), v + 1;
    WalkCounts(k, s, v);
    forall i: nat ensures UseOk(k, k1, s, v, next, 0, i) {
      SpansStep(v, v, next, i);
    }
  }

  /** The walk for page v adds its table, or there is no frame for one. */
  lemma WalkTabled(k0: Sound, k: Sound, s: nat, lo: nat, v: nat)
    requires s in k.spaces && lo <= v < PAGES && Tabled(k0, k, s, lo, v)
    ensures var k1 := Walked(k, s, v, true);
      && s in k1.spaces && Tabled(k0, k1, s, lo, if v / ENTRIES in Keys(k1, s) then v + 1 else v)
      && (v / ENTRIES !in Keys(k1, s) ==> Starved(k1, s, v))
  {
    WalkCounts(k, s, v);
    if v / ENTRIES in Keys(Walked(k, s, v, true), s) {
      WalkUses(k, s, v);
      UsesStep(k0, k, Walked(k, s, v, true), s, lo, v, 0, 0);
    }
  }

  /** A page that was mapped has its table already. */
  lemma MappedTabled(k0: Sound, k: Kernel, s: nat, lo: nat, v: nat)
    requires s in k0.spaces && v in k0.spaces[s].leaves && lo <= v && Tabled(k0, k, s, lo, v + 1)
    ensures Tabled(k0, k, s, lo, v) && v / ENTRIES in Keys(k0, s)
  {
    assert SpaceOk(k0, s, k0.spaces[s]);
    assert LeafOk(k0, s, k0.spaces[s], v);
    SlotsStep(lo, v);
    UsesIs(k0, k, s, lo, v + 1, 0);
    UsesIs(k0, k, s, lo, v, 0);
  }

  lemma StoreTabled(k0: Kernel, k: Kernel, s: nat, lo: nat, hi: nat, v: nat, w: Word)
    requires HasTable(k, s, v) && Tabled(k0, k, s, lo, hi)
    ensures Tabled(k0, WithLeaf(k, s, v, w), s, lo, hi)
  {
    UsesIs(k0, k, s, lo, hi, 0);
    UsesIs(k0, WithLeaf(k, s, v, w), s, lo, hi, 0);
  }

  // Runs of mappages.

  /** From k0 to k, n pages from first on were mapped: none of them was before, and every frame taken is a
      table of theirs. */
  ghost predicate Counting(k0: Kernel, k: Kernel, s: nat, first: nat, n: nat) {
    && s in k0.spaces && Tabled(k0, k, s, first, first + n)
    && forall v :: first <= v < first + n ==> v !in k0.spaces[s].leaves
  }

  /** The same, and the table of the next page is there too. */
  ghost predicate CountingAt(k0: Kernel, k: Kernel, s: nat, first: nat, n: nat, v: nat) {
    && s in k0.spaces && v == first + n && v / ENTRIES in Keys(k, s) && Tabled(k0, k, s, first, v + 1)
    && forall x :: first <= x < v ==> x !in k0.spaces[s].leaves
  }

  lemma CountStart(k: Kernel, s: nat, first: nat)
    requires s in k.spaces
    ensures Counting(k, k, s, first, 0)
  {
    UsesNone(k, s, first);
  }

  lemma CountWalk(k0: Sound, k: Sound, s: nat, first: nat, n: nat, v: nat)
    requires Counting(k0, k, s, first, n) && v == first + n && v < PAGES && s in k.spaces
    ensures var k1 := Walked(k, s, v, true);
      && (v / ENTRIES in Keys(k1, s) ==> CountingAt(k0, k1, s, first, n, v))
      && (v / ENTRIES !in Keys(k1, s) ==> Counting(k0, k1, s, first, n) && Starved(k1, s, v))
  {
    WalkTabled(k0, k, s, first, v);
  }

  lemma CountPanic(k0: Sound, k: Kernel, s: nat, first: nat, n: nat, v: nat)
    requires CountingAt(k0, k, s, first, n, v) && v in k0.spaces[s].leaves
    ensures Counting(k0, k, s, first, n)
  {
    MappedTabled(k0, k, s, first, v);
  }

  lemma CountStore(k0: Kernel, k: Kernel, s: nat, first: nat, n: nat, v: nat, w: Word, n': nat)
    requires CountingAt(k0, k, s, first, n, v) && HasTable(k, s, v) && v !in k0.spaces[s].leaves && n' == n + 1
    ensures Counting(k0, WithLeaf(k, s, v, w), s, first, n')
  {
    StoreTabled(k0, k, s, first, v + 1, v, w);
    assert first + n' == v + 1;
  }

  /** From k0 to k, the pages from first on were mapped to the frames from frame on, one entry of ws each. */
  ghost predicate Running(k0: Kernel, k: Kernel, s: nat, first: nat, frame: nat, perm: nat, hs: set<nat>,
                          ws: seq<Word>) {
    Mapped(k0, k, s, first, ws, hs) && Entries(ws, frame, perm) && Counting(k0, k, s, first, |ws|)
  }

  /** How a run for the pages first to last ended after n of them: with all mapped, at a page for whose table
      there is no frame, or at a page that was mapped before. */
  ghost predicate Ended(k0: Kernel, k: Kernel, s: nat, first: nat, last: nat, o: Outcome, n: nat) {
    && Counting(k0, k, s, first, n) && n <= last - first + 1 && (o.Done? <==> n == last - first + 1)
    && (o.NoMemory? ==> Starved(k, s, first + n))
    && (o.Panic? ==> first + n in k0.spaces[s].leaves)
  }

  ghost predicate Ran(k0: Kernel, k: Kernel, s: nat, first: nat, last: nat, frame: nat, perm: nat, hs: set<nat>,
                      o: Outcome, ws: seq<Word>) {
    Mapped(k0, k, s, first, ws, hs) && Entries(ws, frame, perm) && Ended(k0, k, s, first, last, o, |ws|)
  }

  lemma RunStart(k: Sound, s: nat, first: nat, frame: nat, perm: nat, hs: set<nat>)
    requires s in k.spaces && InHand(k, hs) && hs <= k.roles.Keys
    ensures Running(k, k, s, first, frame, perm, hs, [])
  {
    MapStart(k, s, first, hs);
    CountStart(k, s, first);
  }

  /** Page v, the next, has its table. */
  ghost predicate AtPage(k0: Kernel, k: Kernel, s: nat, first: nat, hs: set<nat>, ws: seq<Word>, v: nat) {
    Mapped(k0, k, s, first, ws, hs) && CountingAt(k0, k, s, first, |ws|, v)
  }

  lemma RunWalks(k0: Sound, k: Sound, s: nat, first: nat, hs: set<nat>, ws: seq<Word>, v: nat, w: Word)
    requires Mapped(k0, k, s, first, ws, hs) && Counting(k0, k, s, first, |ws|) && CanMap(k0, s, first, ws, hs, v, w)
    ensures var k1 := Walked(k, s, v, true);
      && Good(k1) && s in k1.spaces && k1.spaces[s].dir == k.spaces[s].dir && Mapped(k0, k1, s, first, ws, hs)
      && (v / ENTRIES in Keys(k1, s) ==> CountingAt(k0, k1, s, first, |ws|, v))
      && (v / ENTRIES !in Keys(k1, s) ==> Counting(k0, k1, s, first, |ws|) && Starved(k1, s, v))
  {
    MapWalks(k0, k, s, first, ws, hs, v, w);
    CountWalk(k0, k, s, first, |ws|, v);
  }

  lemma RunStores(k0: Sound, k: Sound, s: nat, first: nat, hs: set<nat>, ws: seq<Word>, v: nat, w: Word)
    requires AtPage(k0, k, s, first, hs, ws, v) && CanMap(k0, s, first, ws, hs, v, w) && v !in k0.spaces[s].leaves
    ensures CanAddLeaf(k, s, v, w) && HasTable(k, s, v) && Good(WithLeaf(k, s, v, w))
    ensures Mapped(k0, WithLeaf(k, s, v, w), s, first, ws + [w], hs)
    ensures Counting(k0, WithLeaf(k, s, v, w), s, first, |ws + [w]|)
  {
    MapCanStore(k0, k, s, first, ws, hs, v, w);
    MapStores(k0, k, s, first, ws, hs, v, w);
    CountStore(k0, k, s, first, |ws|, v, w, |ws + [w]|);
  }

  /** One user page mapped to a frame in hand. */
  ghost predicate UserRan(k0: Kernel, k: Kernel, s: nat, a: nat, w: Word, o: Outcome) {
    Mapped(k0, k, s, a, if o.Done? then [w] else [], {w.frame}) && Ended(k0, k, s, a, a, o, if o.Done? then 1 else 0)
  }

  lemma UserRuns(k0: Kernel, k: Kernel, s: nat, a: nat, w: Word, hs: set<nat>, o: Outcome, ws: seq<Word>)
    requires Ran(k0, k, s, a, a, w.frame, w.flags, hs, o, ws) && w.present && hs == {w.frame}
    ensures UserRan(k0, k, s, a, w, o)
  {
    assert ws == if o.Done? then [w] else [];
  }

  // What a run takes.

  /** The pages from lo on that are tried: up to hi, or through the first that is mapped. */
  function Tried(leaves: map<nat, Word>, lo: nat, hi: nat): (r: nat)
    requires lo <= hi
    ensures lo <= r <= hi
    decreases hi - lo
  {
    if lo == hi then hi else if lo in leaves then lo + 1 else Tried(leaves, lo + 1, hi)
  }

  lemma {:induction false} TriedFrom(leaves: map<nat, Word>, lo: nat, v: nat, hi: nat)
    requires lo <= v <= hi && forall x :: lo <= x < v ==> x !in leaves
    ensures Tried(leaves, lo, hi) == Tried(leaves, v, hi)
    decreases v - lo
  {
    if lo < v {
      TriedFrom(leaves, lo + 1, v, hi);
    }
  }

  /** How many tables the pages lo to hi - 1 still need. */
  function TablesFor(k: Kernel, s: nat, lo: nat, hi: nat): nat {
    |Slots(lo, hi) - Keys(k, s)|
  }

  lemma TabledCount(k0: Kernel, k: Kernel, s: nat, lo: nat, hi: nat)
    requires Tabled(k0, k, s, lo, hi)
    ensures |k0.free| == |k.free| + TablesFor(k0, s, lo, hi)
  {
    UsesIs(k0, k, s, lo, hi, 0);
    Together(Keys(k0, s), Slots(lo, hi));
  }

  lemma TablesMore(k: Kernel, s: nat, lo: nat, v: nat, hi: nat)
    requires lo <= v < hi
    ensures TablesFor(k, s, lo, v) <= TablesFor(k, s, lo, v + 1) <= TablesFor(k, s, lo, hi)
    ensures v / ENTRIES in Keys(k, s) ==> TablesFor(k, s, lo, v + 1) == TablesFor(k, s, lo, v)
    ensures v / ENTRIES !in Keys(k, s) + Slots(lo, v) ==> TablesFor(k, s, lo, v + 1) == TablesFor(k, s, lo, v) + 1
  {
    SlotsStep(lo, v);
    SlotsSplit(lo, v + 1, hi);
    var keys := Keys(k, s);
    SubsetSize(Slots(lo, v) - keys, Slots(lo, v + 1) - keys);
    SubsetSize(Slots(lo, v + 1) - keys, Slots(lo, hi) - keys);
    if v / ENTRIES in keys {
      assert Slots(lo, v + 1) - keys == Slots(lo, v) - keys;
    } else {
      assert Slots(lo, v + 1) - keys == Slots(lo, v) - keys + {v / ENTRIES};
    }
  }

  lemma RunsOut(k0: Sound, k: Kernel, s: nat, first: nat, v: nat, end: nat, o: Outcome)
    requires s in k0.spaces && first <= v <= end && Tabled(k0, k, s, first, v)
    requires forall x :: first <= x < v ==> x !in k0.spaces[s].leaves
    requires o.Done? ==> v == end
    requires o.NoMemory? ==> v < end && Starved(k, s, v)
    requires o.Panic? ==> v < end && v in k0.spaces[s].leaves
    ensures o.NoMemory? <==> |k0.free| < TablesFor(k0, s, first, Tried(k0.spaces[s].leaves, first, end))
  {
    var leaves := k0.spaces[s].leaves;
    TriedFrom(leaves, first, v, end);
    TabledCount(k0, k, s, first, v);
    UsesIs(k0, k, s, first, v, 0);
    assert StarvedAt(k, s, v, v / ENTRIES) <== o.NoMemory?;
    if v < end {
      TablesMore(k0, s, first, v, v + 1);
      if v in leaves {
        assert SpaceOk(k0, s, k0.spaces[s]);
        assert LeafOk(k0, s, k0.spaces[s], v);
      } else {
        TablesMore(k0, s, first, v, Tried(leaves, v, end));
      }
    }
  }

  /** mappages runs out of memory exactly if there are fewer free frames than tables missing for the pages
      it tries; it tries those up to the first that is mapped, and panics on that. */
  lemma MapRunsOut(k0: Sound, k: Kernel, s: nat, first: nat, last: nat, o: Outcome, n: nat)
    requires first <= last && Ended(k0, k, s, first, last, o, n)
    ensures o.NoMemory? <==> |k0.free| < TablesFor(k0, s, first, Tried(k0.spaces[s].leaves, first, last + 1))
  {
    RunsOut(k0, k, s, first, first + n, last + 1, o);
  }

  // Growing.

  /** How many frames space s must take to get the pages lo to hi - 1. */
  function FramesFor(k: Kernel, s: nat, lo: nat, hi: nat): nat
    requires lo <= hi
  {
    hi - lo + TablesFor(k, s, lo, hi)
  }

  /** From k0 to k, space s took frames for the pages lo to hi - 1 and for their tables, and no more. */
  ghost predicate Took(k0: Kernel, k: Kernel, s: nat, lo: nat, hi: nat) {
    lo <= hi && Uses(k0, k, s, lo, hi, hi - lo)
  }

  lemma TookStart(k: Kernel, s: nat, lo: nat)
    ensures Took(k, k, s, lo, lo)
  {
    UsesNone(k, s, lo);
  }

  lemma TookCount(k0: Kernel, k: Kernel, s: nat, lo: nat, hi: nat)
    requires Took(k0, k, s, lo, hi)
    ensures |k0.free| == |k.free| + FramesFor(k0, s, lo, hi)
  {
    UsesIs(k0, k, s, lo, hi, hi - lo);
    Together(Keys(k0, s), Slots(lo, hi));
  }

  /** One more page: a frame is taken, and mapped. */
  lemma TookStep(k0: Kernel, k: Kernel, k1: Kernel, k2: Kernel, s: nat, lo: nat, v: nat)
    requires Took(k0, k, s, lo, v) && |k1.free| == |k.free| - 1 && k1.spaces == k.spaces
    requires Tabled(k1, k2, s, v, v + 1)
    ensures Took(k0, k2, s, lo, v + 1)
  {
    OneTaken(k, k1, k2, s, v);
    UsesStep(k0, k, k2, s, lo, v, v - lo, 1);
  }

  lemma OneTaken(k: Kernel, k1: Kernel, k2: Kernel, s: nat, v: nat)
    requires |k1.free| == |k.free| - 1 && k1.spaces == k.spaces && Tabled(k1, k2, s, v, v + 1)
    ensures Uses(k, k2, s, v, v + 1, 1)
  {
    UsesIs(k1, k2, s, v, v + 1, 0);
    UsesIs(k, k2, s, v, v + 1, 1);
  }

  /** No frame is left for page v, or one is and none for its table. */
  ghost predicate OutFor(k: Kernel, s: nat, v: nat) {
    k.free == [] || (|k.free| == 1 && v / ENTRIES !in Keys(k, s))
  }

  lemma StarvedOut(k: Kernel, k1: Kernel, k2: Kernel, s: nat, v: nat)
    requires |k1.free| == |k.free| - 1 && k1.spaces == k.spaces && Tabled(k1, k2, s, v, v) && Starved(k2, s, v)
    ensures OutFor(k, s, v)
  {
    UsesIs(k1, k2, s, v, v, 0);
    assert StarvedAt(k2, s, v, v / ENTRIES);
  }

  /** Space s has none of the pages lo to hi - 1. */
  predicate Vacant(k: Kernel, s: nat, lo: nat, hi: nat) {
    s in k.spaces && forall v :: lo <= v < hi ==> v !in k.spaces[s].leaves
  }

  /** Between two rounds of allocuvm. */
  ghost predicate Growing(k0: Kernel, k: Kernel, s: nat, lo: nat, v: nat) {
    Grown(k0, k, s, lo, v) && Took(k0, k, s, lo, v) && Vacant(k0, s, lo, v)
  }

  lemma GrowingStart(k: Sound, s: nat, lo: nat)
    requires s in k.spaces && InHand(k, {})
    ensures Growing(k, k, s, lo, lo)
  {
    GrowStart(k, s, lo);
    TookStart(k, s, lo);
  }

  /** One round that maps its page. */
  lemma GrowOn(k0: Sound, k: Sound, k1: Kernel, k2: Sound, s: nat, lo: nat, v: nat, m: nat)
    requires Growing(k0, k, s, lo, v) && lo <= v < USER && Prepared(k, k1, s, m, Blank())
    requires UserRan(k1, k2, s, v, Word(m, true, WU), Done)
    ensures Growing(k0, k2, s, lo, v + 1)
  {
    GrowStep(k0, k, k1, k2, s, lo, v, m);
    TookStep(k0, k, k1, k2, s, lo, v);
  }

  /** One that finds no frame for a table. */
  lemma GrowStops(k0: Sound, k: Sound, k1: Kernel, k2: Sound, s: nat, lo: nat, v: nat, m: nat)
    requires Growing(k0, k, s, lo, v) && Prepared(k, k1, s, m, Blank())
    requires UserRan(k1, k2, s, v, Word(m, true, WU), NoMemory)
    ensures Grew(k0, k2, s, lo, v) && OutFor(k, s, v)
    ensures InHand(k2, {m}) && m in k2.roles && k2.spaces[s].dir == k.spaces[s].dir
  {
    UndoChain(k0, k, k1, k2, s, lo, v, m);
    StarvedOut(k, k1, k2, s, v);
  }

  /** There are fewer frames than the pages lo to hi - 1 take, up to the first that is mapped. */
  predicate GrowShort(k: Kernel, s: nat, lo: nat, hi: nat)
    requires s in k.spaces && lo <= hi
  {
    |k.free| < FramesFor(k, s, lo, Tried(k.spaces[s].leaves, lo, hi))
  }

  lemma FramesShort(k0: Sound, k: Kernel, s: nat, lo: nat, v: nat, end: nat)
    requires lo <= v < end && Took(k0, k, s, lo, v) && OutFor(k, s, v)
    ensures |k0.free| < FramesFor(k0, s, lo, end)
  {
    TookCount(k0, k, s, lo, v);
    UsesIs(k0, k, s, lo, v, v - lo);
    TablesMore(k0, s, lo, v, end);
  }

  lemma GrowRunsOut(k0: Sound, k: Kernel, s: nat, lo: nat, v: nat, hi: nat)
    requires lo <= v < hi && Took(k0, k, s, lo, v) && OutFor(k, s, v) && Vacant(k0, s, lo, v)
    ensures GrowShort(k0, s, lo, hi)
  {
    TriedFrom(k0.spaces[s].leaves, lo, v, hi);
    FramesShort(k0, k, s, lo, v, Tried(k0.spaces[s].leaves, v, hi));
  }

  lemma GrowEnough(k0: Sound, k: Kernel, s: nat, lo: nat, v: nat, hi: nat)
    requires lo <= v <= hi && Took(k0, k, s, lo, v) && Vacant(k0, s, lo, v)
    requires v == hi || (v in k0.spaces[s].leaves && k.free != [])
    ensures !GrowShort(k0, s, lo, hi)
  {
    TriedFrom(k0.spaces[s].leaves, lo, v, hi);
    TookCount(k0, k, s, lo, v);
    if v < hi {
      assert SpaceOk(k0, s, k0.spaces[s]);
      assert LeafOk(k0, s, k0.spaces[s], v);
      TablesMore(k0, s, lo, v, hi);
    }
  }

  /** What becomes of growing space s by the pages lo to hi - 1. */
  ghost predicate GrowOut(k0: Kernel, k: Kernel, s: nat, lo: nat, hi: nat, o: Outcome)
    requires s in k0.spaces && lo <= hi
  {
    match o
    case Done => Grown(k0, k, s, lo, hi) && Vacant(k0, s, lo, hi) && !GrowShort(k0, s, lo, hi)
    case NoMemory => Trimmed(k0, k, s, lo, hi) && GrowShort(k0, s, lo, hi)
    case Panic => !Vacant(k0, s, lo, hi) && !GrowShort(k0, s, lo, hi)
  }

  lemma GrowEnds(k0: Sound, k: Kernel, s: nat, lo: nat, v: nat, hi: nat)
    requires lo <= v == hi && Growing(k0, k, s, lo, v)
    ensures GrowOut(k0, k, s, lo, hi, Done)
  {
    GrowEnough(k0, k, s, lo, v, hi);
  }

  // The kernel part.

  const FIRSTKERNEL: nat := USER / ENTRIES

  /** The tables of the kernel part: 56 for physical memory and 8 for devices. */
  const KERNELTABLES: nat := 64

  /** How much physical memory, in pages, the first n rows map. */
  function MemoryRows(data: nat, n: nat): nat {
    if n == 0 then 0 else if n == 1 then EXTMEM else if n == 2 then data else PHYSTOP
  }

  /** The directory slots of the first n rows of the kernel's mappings. */
  function KernelSlots(data: nat, n: nat): set<nat> {
    Slots(USER, USER + MemoryRows(data, n)) + if n < 4 then {} else Slots(DEVSPACE, PAGES)
  }

  lemma NextRow(data: nat, i: nat, page: nat, count: nat)
    requires EXTMEM < data < PHYSTOP && i < 4 && page == Kmap(data)[i].page && count == Kmap(data)[i].count
    ensures KernelSlots(data, i + 1) == KernelSlots(data, i) + Slots(page, page + count)
  {
    SlotsSplit(USER, USER + MemoryRows(data, i), USER + MemoryRows(data, i + 1));
  }

  /** Whole directory slots. */
  lemma WholeSlots(lo: nat, hi: nat, a: nat, b: nat)
    requires lo == a * ENTRIES && hi == b * ENTRIES && a < b
    ensures Slots(lo, hi) == Range(a, b) && |Slots(lo, hi)| == b - a
  {
    RangeSize(a, b);
    assert (hi - 1) / ENTRIES == b - 1;
  }

  lemma KernelParts(lo: nat, mid: nat, dev: nat, hi: nat, a: nat, b: nat, c: nat, d: nat)
    requires lo == a * ENTRIES && mid == b * ENTRIES && dev == c * ENTRIES && hi == d * ENTRIES && a < b <= c < d
    ensures |Slots(lo, mid) + Slots(dev, hi)| == b - a + d - c
    ensures forall i :: i in Slots(lo, mid) + Slots(dev, hi) ==> i >= a
  {
    WholeSlots(lo, mid, a, b);
    WholeSlots(dev, hi, c, d);
    assert Range(a, b) !! Range(c, d);
  }

  lemma KernelSlotsAre(data: nat)
    requires EXTMEM < data < PHYSTOP
    ensures |KernelSlots(data, 4)| == KERNELTABLES && forall i :: i in KernelSlots(data, 4) ==> i >= FIRSTKERNEL
  {
    var mid := USER + MemoryRows(data, 4);
    KernelParts(USER, mid, DEVSPACE, PAGES, FIRSTKERNEL, FIRSTKERNEL + 56, ENTRIES - 8, ENTRIES);
    assert KernelSlots(data, 4) == Slots(USER, mid) + Slots(DEVSPACE, PAGES);
  }

  lemma KernelSlotsGrow(data: nat, i: nat)
    requires EXTMEM < data < PHYSTOP && i <= 4
    ensures KernelSlots(data, i) <= KernelSlots(data, 4)
  {
    SlotsSplit(USER, USER + MemoryRows(data, i), USER + PHYSTOP);
  }

  predicate NewOk(k0: Kernel, k: Kernel, s: nat, data: nat, rows: nat, n: nat, i: nat) {
    (i in Keys(k, s) <==> i in KernelSlots(data, rows) || Spans(0, n, i)) && |k0.free| == Stock(k, s) + 1 + n
  }

  /** From k0 to k, the new space s took a directory, the tables of the first rows of the kernel's
      mappings, its first n pages and their tables. */
  ghost predicate New(k0: Kernel, k: Kernel, s: nat, data: nat, rows: nat, n: nat) {
    forall i: nat {:trigger NewOk(k0, k, s, data, rows, n, i)} :: NewOk(k0, k, s, data, rows, n, i)
  }

  lemma NewIs(k0: Kernel, k: Kernel, s: nat, data: nat, rows: nat, n: nat)
    ensures New(k0, k, s, data, rows, n) <==>
            Keys(k, s) == KernelSlots(data, rows) + Slots(0, n) && |k0.free| == Stock(k, s) + 1 + n
  {
    if New(k0, k, s, data, rows, n) {
      forall i: nat ensures i in Keys(k, s) <==> i in KernelSlots(data, rows) + Slots(0, n) {
        assert NewOk(k0, k, s, data, rows, n, i);
      }
      assert NewOk(k0, k, s, data, rows, n, 0);
    }
  }

  ghost predicate SetUp(k0: Kernel, k: Kernel, s: nat, data: nat, i: nat) { New(k0, k, s, data, i, 0) }

  lemma SetUpIs(k0: Kernel, k: Kernel, s: nat, data: nat, i: nat)
    ensures SetUp(k0, k, s, data, i) <==> Keys(k, s) == KernelSlots(data, i) && |k0.free| == Stock(k, s) + 1
  {
    NewIs(k0, k, s, data, i, 0);
    assert KernelSlots(data, i) + Slots(0, 0) == KernelSlots(data, i);
  }

  lemma SetUpStart(k0: Kernel, k: Kernel, s: nat, data: nat)
    requires Keys(k, s) == {} && |k0.free| == |k.free| + 1
    ensures SetUp(k0, k, s, data, 0)
  {
    assert KernelSlots(data, 0) == {};
    SetUpIs(k0, k, s, data, 0);
  }

  lemma SetUpStep(k0: Kernel, k1: Kernel, k: Kernel, s: nat, data: nat, i: nat, page: nat, count: nat)
    requires EXTMEM < data < PHYSTOP && i < 4 && SetUp(k0, k1, s, data, i)
    requires page == Kmap(data)[i].page && count == Kmap(data)[i].count && Tabled(k1, k, s, page, page + count)
    ensures SetUp(k0, k, s, data, i + 1)
  {
    NextRow(data, i, page, count);
    UsesIs(k1, k, s, page, page + count, 0);
    SetUpIs(k0, k1, s, data, i);
    SetUpIs(k0, k, s, data, i + 1);
  }

  lemma OneMissing(k0: Kernel, k1: Kernel, k: Kernel, s: nat, page: nat, v: nat, end: nat, all: set<nat>)
    requires |k0.free| == Stock(k1, s) + 1 && Tabled(k1, k, s, page, v) && Starved(k, s, v)
    requires page <= v < end && Keys(k1, s) + Slots(page, end) <= all
    ensures |k0.free| < 1 + |all|
  {
    assert StarvedAt(k, s, v, v / ENTRIES);
    InSlots(page, v, end);
    UsesIs(k1, k, s, page, v, 0);
    SubsetSize(Keys(k, s) + {v / ENTRIES}, all);
  }

  lemma AllSlots(data: nat, i: nat) returns (all: set<nat>)
    requires EXTMEM < data < PHYSTOP && i <= 4
    ensures KernelSlots(data, i) <= all && |all| == KERNELTABLES
  {
    all := KernelSlots(data, 4);
    KernelSlotsGrow(data, i);
    KernelSlotsAre(data);
  }

  lemma RowFits(data: nat, i: nat, was: set<nat>, page: nat, count: nat) returns (all: set<nat>)
    requires EXTMEM < data < PHYSTOP && i < 4 && was == KernelSlots(data, i)
    requires page == Kmap(data)[i].page && count == Kmap(data)[i].count
    ensures was + Slots(page, page + count) <= all && |all| == KERNELTABLES
  {
    NextRow(data, i, page, count);
    all := AllSlots(data, i + 1);
  }

  lemma SetUpFails(k0: Kernel, k1: Kernel, k: Kernel, s: nat, data: nat, i: nat, page: nat, count: nat, v: nat)
    requires EXTMEM < data < PHYSTOP && i < 4 && SetUp(k0, k1, s, data, i)
    requires page == Kmap(data)[i].page && count == Kmap(data)[i].count
    requires page <= v < page + count && Tabled(k1, k, s, page, v) && Starved(k, s, v)
    ensures |k0.free| < 1 + KERNELTABLES
  {
    SetUpIs(k0, k1, s, data, i);
    var all := RowFits(data, i, Keys(k1, s), page, count);
    OneMissing(k0, k1, k, s, page, v, page + count, all);
  }

  lemma RowEnds(k0: Kernel, k1: Kernel, k: Kernel, s: nat, data: nat, i: nat, page: nat, count: nat, o: Outcome, n: nat)
    requires EXTMEM < data < PHYSTOP && i < 4 && SetUp(k0, k1, s, data, i)
    requires page == Kmap(data)[i].page && count == Kmap(data)[i].count
    requires Ended(k1, k, s, page, page + count - 1, o, n) && page + n !in k1.spaces[s].leaves
    ensures o.Done? ==> SetUp(k0, k, s, data, i + 1)
    ensures !o.Done? ==> |k0.free| < 1 + KERNELTABLES
  {
    if o.Done? {
      assert n == count;
      SetUpStep(k0, k1, k, s, data, i, page, count);
    } else {
      SetUpFails(k0, k1, k, s, data, i, page, count, page + n);
    }
  }

  /** A row of the kernel's mappings, mapped or not. */
  lemma RowRan(k0: Kernel, k1: Sound, k: Kernel, s: nat, data: nat, i: nat, o: Outcome, ws: seq<Word>)
    requires EXTMEM < data < PHYSTOP && i < 4 && SetUp(k0, k1, s, data, i) && s in k1.spaces && s in k.spaces
    requires k1.spaces[s].leaves == KernelLeaves(data, i)
    requires var r := Kmap(data)[i]; Entries(ws, r.frame, r.perm)
    requires var r := Kmap(data)[i]; k.spaces[s].leaves == Extended(k1.spaces[s].leaves, r.page, ws)
    requires var r := Kmap(data)[i]; Ended(k1, k, s, r.page, r.page + r.count - 1, o, |ws|)
    ensures o.Done? ==> k.spaces[s].leaves == KernelLeaves(data, i + 1) && SetUp(k0, k, s, data, i + 1)
    ensures !o.Done? ==> |k0.free| < 1 + KERNELTABLES
  {
    var v := Kmap(data)[i].page + |ws|;
    if v in KernelLeaves(data, i) { RowsApart(data, i, v); }
    RowEnds(k0, k1, k, s, data, i, Kmap(data)[i].page, Kmap(data)[i].count, o, |ws|);
    if o.Done? { RowDone(data, i, ws); }
  }

  lemma SetUpDone(k0: Kernel, k: Kernel, s: nat, data: nat)
    requires EXTMEM < data < PHYSTOP && SetUp(k0, k, s, data, 4)
    ensures |k0.free| == |k.free| + 1 + KERNELTABLES
  {
    SetUpIs(k0, k, s, data, 4);
    KernelSlotsAre(data);
  }

  // Copying.

  /** The frames of a space with n user pages: a directory, the kernel's tables, the pages and their tables. */
  function CopyFrames(n: nat): nat { 1 + KERNELTABLES + n + (n + ENTRIES - 1) / ENTRIES }

  /** The pages below n before the first that is missing. */
  function Present(leaves: map<nat, Word>, i: nat, n: nat): (r: nat)
    requires i <= n
    ensures i <= r <= n && (r < n ==> r !in leaves) && forall v :: i <= v < r ==> v in leaves
    decreases n - i
  {
    if i == n || i !in leaves then i else Present(leaves, i + 1, n)
  }

  /** Space p has its first n pages. */
  predicate Leading(k: Kernel, p: nat, n: nat) {
    p in k.spaces && forall v :: 0 <= v < n ==> v in k.spaces[p].leaves
  }

  /** There are fewer frames than a copy of the first n pages of space p takes, up to the first that is
      missing. */
  predicate CopyShort(k: Kernel, p: nat, n: nat)
    requires p in k.spaces
  {
    |k.free| < CopyFrames(Present(k.spaces[p].leaves, 0, n))
  }

  /** There are enough of them, and a page is missing. */
  predicate CopyBroke(k: Kernel, p: nat, n: nat)
    requires p in k.spaces
  {
    !CopyShort(k, p, n) && !Leading(k, p, n)
  }

  /** There are enough of them, and no page is missing. */
  predicate CopyWhole(k: Kernel, p: nat, n: nat)
    requires p in k.spaces
  {
    !CopyShort(k, p, n) && Leading(k, p, n)
  }

  ghost predicate CopyTook(k0: Kernel, k: Kernel, s: nat, data: nat, n: nat) { New(k0, k, s, data, 4, n) }

  /** Between two rounds of copyuvm. */
  ghost predicate Copying(k0: Kernel, k: Kernel, p: nat, s: nat, n: nat, data: nat, d: nat)
    requires EXTMEM < data < PHYSTOP
  {
    Copied(k0, k, p, s, n, data) && CopyTook(k0, k, s, data, n) && Leading(k0, p, n) && k.spaces[s].dir == d
  }

  lemma CopyCount(k0: Kernel, k: Kernel, s: nat, data: nat, n: nat)
    requires EXTMEM < data < PHYSTOP && n <= USER && CopyTook(k0, k, s, data, n)
    ensures |k0.free| == |k.free| + CopyFrames(n)
  {
    KernelSlotsAre(data);
    UserSlots(n);
    NewIs(k0, k, s, data, 4, n);
    assert Slots(0, n) !! KernelSlots(data, 4);
  }

  lemma UserSlots(n: nat)
    requires n <= USER
    ensures |Slots(0, n)| == (n + ENTRIES - 1) / ENTRIES && forall i :: i in Slots(0, n) ==> i < FIRSTKERNEL
  {
    RangeSize(0, (n + ENTRIES - 1) / ENTRIES);
    assert Slots(0, n) == Range(0, (n + ENTRIES - 1) / ENTRIES);
  }

  lemma CopyTookStep(k0: Kernel, k: Kernel, k1: Kernel, k2: Kernel, s: nat, data: nat, v: nat)
    requires CopyTook(k0, k, s, data, v) && |k1.free| == |k.free| - 1 && k1.spaces == k.spaces
    requires Tabled(k1, k2, s, v, v + 1)
    ensures CopyTook(k0, k2, s, data, v + 1)
  {
    var next := v + 1;
    OneTaken(k, k1, k2, s, v);
    forall i: nat ensures NewOk(k0, k2, s, data, 4, next, i) {
      assert NewOk(k0, k, s, data, 4, v, i) && UseOk(k, k2, s, v, next, 1, i);
      SpansStep(0, v, next, i);
    }
  }

  /** When memory runs out at page v there were too few frames for the copy. */
  lemma CopyRunsOut(k0: Kernel, k: Kernel, s: nat, data: nat, v: nat, m: nat)
    requires EXTMEM < data < PHYSTOP && v < m <= USER && CopyTook(k0, k, s, data, v)
    requires OutFor(k, s, v)
    ensures |k0.free| < CopyFrames(m)
  {
    CopyCount(k0, k, s, data, v);
    if v / ENTRIES !in Keys(k, s) {
      NewIs(k0, k, s, data, 4, v);
      NewUserSlot(v);
    }
  }

  lemma NewUserSlot(v: nat)
    requires v / ENTRIES !in Slots(0, v)
    ensures CopyFrames(v + 1) == CopyFrames(v) + 2
  {
    if v > 0 {
      assert (v - 1) / ENTRIES < v / ENTRIES;
    }
  }

  /** One round of copyuvm that maps its page. */
  lemma CopyOn(k0: Sound, k: Sound, k1: Kernel, k2: Sound, p: nat, s: nat, n: nat, data: nat, m: nat)
    requires EXTMEM < data < PHYSTOP && Copied(k0, k, p, s, n, data) && CopyTook(k0, k, s, data, n) && n < USER
    requires p != s && p in k0.spaces && n in k0.spaces[p].leaves && k0.spaces[p].leaves[n].frame < |k0.mem|
    requires Prepared(k, k1, s, m, k0.mem[k0.spaces[p].leaves[n].frame])
    requires UserRan(k1, k2, s, n, Word(m, true, k0.spaces[p].leaves[n].flags), Done)
    ensures Copied(k0, k2, p, s, n + 1, data) && CopyTook(k0, k2, s, data, n + 1)
  {
    CopyStep(k0, k, k1, k2, p, s, n, data, m);
    CopyTookStep(k0, k, k1, k2, s, data, n);
  }

  /** One that does not: there is no frame for a table, for the page is not mapped in the new space. */
  lemma CopyStops(k0: Sound, k: Sound, k1: Kernel, k2: Sound, p: nat, s: nat, n: nat, data: nat, w: Word, page: Page,
                  o: Outcome)
    requires EXTMEM < data < PHYSTOP && Copied(k0, k, p, s, n, data) && n < USER
    requires Prepared(k, k1, s, w.frame, page) && UserRan(k1, k2, s, n, w, o) && !o.Done?
    ensures o.NoMemory? && OutFor(k, s, n) && Rest(k0, k2, s)
    ensures InHand(k2, {w.frame}) && w.frame in k2.roles && s in k2.spaces && k2.spaces[s].dir == k.spaces[s].dir
  {
    RowsStart(data, n);
    RestTrans(k0, k, k1, s);
    RestTrans(k0, k1, k2, s);
    StarvedOut(k, k1, k2, s, n);
  }

  /** What becomes of a copy of n pages into the space with directory d: d and the copy; 0 and nothing, when
      memory ran out; or a panic. */
  ghost predicate CopyOut(k0: Kernel, k: Kernel, p: nat, s: nat, n: nat, data: nat, d: nat, r: nat, panics: bool)
    requires EXTMEM < data < PHYSTOP && p in k0.spaces
  {
    && Rest(k0, k, s)
    && if panics then CopyBroke(k0, p, n)
       else if r == 0 then InHand(k, {}) && s !in k.spaces && SameFree(k0, k) && CopyShort(k0, p, n)
       else r == d && Copied(k0, k, p, s, n, data) && k.spaces[s].dir == d && CopyWhole(k0, p, n)
  }

  lemma CopyEnds(k0: Kernel, k: Kernel, p: nat, s: nat, data: nat, i: nat, n: nat, d: nat)
    requires EXTMEM < data < PHYSTOP && i == n <= USER && Copying(k0, k, p, s, i, data, d) && d != 0
    ensures CopyOut(k0, k, p, s, n, data, d, d, false)
  {
    CopyCount(k0, k, s, data, i);
    assert Present(k0.spaces[p].leaves, 0, i) == i;
  }

  /** Page i is missing. */
  lemma CopyBreaks(k0: Kernel, k: Kernel, p: nat, s: nat, data: nat, i: nat, n: nat, d: nat)
    requires EXTMEM < data < PHYSTOP && i < n <= USER && Copying(k0, k, p, s, i, data, d)
    requires i !in k0.spaces[p].leaves
    ensures CopyBroke(k0, p, n)
  {
    CopyCount(k0, k, s, data, i);
    assert Present(k0.spaces[p].leaves, 0, n) == i;
  }

  /** Memory ran out at page i. */
  lemma CopyStarves(k0: Kernel, k: Kernel, p: nat, s: nat, data: nat, i: nat, n: nat)
    requires EXTMEM < data < PHYSTOP && i < n <= USER && CopyTook(k0, k, s, data, i) && OutFor(k, s, i)
    requires Leading(k0, p, i) && i in k0.spaces[p].leaves
    ensures CopyShort(k0, p, n)
  {
    CopyRunsOut(k0, k, s, data, i, Present(k0.spaces[p].leaves, 0, n));
  }
}
