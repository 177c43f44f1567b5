/** kalloc, kfree and the page-table functions. */
module Vm {
  import opened Basics
  import opened VmState
  import opened VmSteps
  import opened VmMap
  import opened VmLife
  import opened VmCount

  class Machine {
    var mem: seq<Page>
    var freelist: Word // kernel address of the first free frame, or zero
    ghost var k: Sound

    ghost predicate Valid()
      reads this
    {
      mem == k.mem && freelist == Link(k.free, |k.free|)
    }

    /** Pops a frame; 0 when there is none. */
    method Kalloc() returns (f: nat)
      requires Valid()
      modifies this`freelist, this`k
      ensures Valid() && (f == 0 <==> old(k).free == [])
      ensures f == 0 ==> k == old(k)
      ensures f != 0 ==> f == old(k).free[|old(k).free| - 1] && k == Taken(old(k))
    {
      if freelist == ZERO {
        return 0;
      }
      TakenKeeps(k);
      assert FreeOk(k, |k.free| - 1);
      assert RoleOk(k, k.free[|k.free| - 1]);
      f := freelist.frame - USER;
      freelist := mem[f][0];
      k := Taken(k);
    }

    /** Pushes a frame in hand, filled with junk. */
    method Kfree(f: nat)
      requires Valid() && InRole(k, f, Held)
      modifies this
      ensures Valid() && f < |old(k).mem| && k == Freed(old(k), f)
    {
      FreedKeeps(k, f);
      mem := mem[f := Junk(freelist)];
      freelist := Word(USER + f, false, 0);
      k := Freed(k, f);
    }

    /** memset and memmove on a frame in hand. */
    method Fill(f: nat, p: Page)
      requires Valid() && InRole(k, f, Held) && |p| == ENTRIES
      modifies this`mem, this`k
      ensures Valid() && f < |old(k).mem| && k == Filled(old(k), f, p)
    {
      FilledKeeps(k, f, p);
      mem := mem[f := p];
      k := Filled(k, f, p);
    }

    /** The frame of the table for page v of space s, or 0. */
    method Walkpgdir(dir: nat, v: nat, alloc: bool, ghost s: nat) returns (t: nat)
      requires Valid() && s in k.spaces && dir == k.spaces[s].dir && v < PAGES
      modifies this
      ensures Valid() && k == Walked(old(k), s, v, alloc)
      ensures s in k.spaces && (t == 0 <==> v / ENTRIES !in k.spaces[s].tables)
      ensures t != 0 ==> t == k.spaces[s].tables[v / ENTRIES]
    {
      DirThere(k, s, v / ENTRIES);
      var pde := mem[dir][v / ENTRIES];
      if pde.present {
        return pde.frame;
      }
      if !alloc {
        return 0;
      }
      ghost var k0 := k;
      t := Kalloc();
      if t == 0 {
        return;
      }
      NewTableReady(k0, s, v / ENTRIES);
      Fill(t, Blank());
      AddTable(dir, v / ENTRIES, t, s);
    }

    method AddTable(dir: nat, i: nat, t: nat, ghost s: nat)
      requires Valid() && CanAddTable(k, s, i, t) && dir == k.spaces[s].dir
      modifies this`mem, this`k
      ensures Valid() && dir < |old(k).mem| && |old(k).mem[dir]| == ENTRIES && k == WithTable(old(k), s, i, t)
    {
      TableKeeps(k, s, i, t);
      mem := mem[dir := Put(mem[dir], i, Word(t, true, WU))];
      k := WithTable(k, s, i, t);
    }

    /** One entry, in the table at t. */
    method Store(t: nat, v: nat, w: Word, ghost s: nat)
      requires Valid() && CanAddLeaf(k, s, v, w) && t == k.spaces[s].tables[v / ENTRIES]
      modifies this`mem, this`k
      ensures Valid() && HasTable(old(k), s, v) && k == WithLeaf(old(k), s, v, w)
    {
      LeafKeeps(k, s, v, w);
      mem := mem[t := Put(mem[t], v % ENTRIES, w)];
      k := WithLeaf(k, s, v, w);
    }

    /** One round of the loop of mappages: page v gets entry w, unless there is no frame for its table
        or the page has an entry. */
    method MapPage(dir: nat, v: nat, w: Word, ghost k0: Sound, ghost s: nat, ghost first: nat, ghost hs: set<nat>,
                   ghost ws: seq<Word>)
      returns (o: Outcome, ghost ws': seq<Word>)
      requires Valid() && Mapped(k0, k, s, first, ws, hs) && Counting(k0, k, s, first, |ws|)
      requires CanMap(k0, s, first, ws, hs, v, w) && dir == k.spaces[s].dir
      modifies this
      ensures Valid() && Mapped(k0, k, s, first, ws', hs) && Counting(k0, k, s, first, |ws'|)
      ensures ws' == (if o.Done? then ws + [w] else ws) && dir == k.spaces[s].dir
      ensures o.NoMemory? ==> Starved(k, s, v)
      ensures o.Panic? ==> v in k0.spaces[s].leaves
    {
      RunWalks(k0, k, s, first, hs, ws, v, w);
      var t := Walkpgdir(dir, v, true, s);
      if t == 0 {
        return NoMemory, ws;
      }
      RemapTest(k0, k, s, first, ws, hs, v, w);
      if mem[t][v % ENTRIES].present {
        CountPanic(k0, k, s, first, |ws|, v);
        return Panic, ws;
      }
      RunStores(k0, k, s, first, hs, ws, v, w);
      Store(t, v, w, s);
      return Done, ws + [w];
    }

    /** Maps the pages of the range to consecutive frames: all of them, or those before the first for
        whose table there is no frame or which is mapped already. */
    method Mappages(dir: nat, va: nat, size: nat, pa: nat, perm: nat, ghost s: nat,
                    ghost hs: set<nat>) returns (o: Outcome, ghost ws: seq<Word>)
      requires Valid() && s in k.spaces && dir == k.spaces[s].dir && InHand(k, hs) && hs <= k.roles.Keys
      requires size >= 1 && va + size <= PAGES * PGSIZE && pa % PGSIZE == 0
      requires va / PGSIZE < USER ==> va / PGSIZE == (va + size - 1) / PGSIZE && pa / PGSIZE in hs
      modifies this
      ensures Valid()
      ensures Ran(old(k), k, s, va / PGSIZE, (va + size - 1) / PGSIZE, pa / PGSIZE, perm, hs, o, ws)
    {
      var a, last, f := va / PGSIZE, (va + size - 1) / PGSIZE, pa / PGSIZE;
      o, ws := MapRun(dir, a, last, f, perm, s, hs);
    }

    method MapRun(dir: nat, first: nat, last: nat, frame: nat, perm: nat, ghost s: nat,
                  ghost hs: set<nat>) returns (o: Outcome, ghost ws: seq<Word>)
      requires Valid() && Mappable(k, s, first, last, frame, hs) && dir == k.spaces[s].dir
      modifies this
      ensures Valid() && Ran(old(k), k, s, first, last, frame, perm, hs, o, ws)
    {
      ghost var k0 := k;
      var a, f := first, frame;
      ws := [];
      RunStart(k0, s, first, frame, perm, hs);
      while true
        invariant Valid() && Running(k0, k, s, first, frame, perm, hs, ws) && dir == k.spaces[s].dir
        invariant first <= a <= last && a == first + |ws| && f == frame + |ws|
        decreases last - a
      {
        NextPage(k0, s, first, last, frame, perm, hs, ws, a);
        EntriesStep(ws, frame, perm);
        o, ws := MapPage(dir, a, Word(f, true, perm), k0, s, first, hs, ws);
        if !o.Done? || a == last {
          return;
        }
        a, f := a + 1, f + 1;
      }
    }

    /** Removes the pages from newsz up to oldsz. It does not get past the last user page: the kernel's
        first page is mapped to frame 0, on which it panics. */
    method Deallocuvm(dir: nat, oldsz: nat, newsz: nat, ghost s: nat, ghost hs: set<nat>)
      returns (r: nat, panics: bool)
      requires Valid() && s in k.spaces && dir == k.spaces[s].dir && InHand(k, hs) && hs <= k.roles.Keys
      requires oldsz > KERNBASE && newsz < oldsz ==> newsz <= KERNBASE && KernelBegins(k.spaces[s])
      modifies this
      ensures Valid() && Dropped(old(k), k, s, PagesOf(newsz), Least(PagesOf(oldsz), USER), hs)
      ensures r == (if newsz >= oldsz then oldsz else newsz) && (panics <==> oldsz > KERNBASE && newsz < oldsz)
    {
      DropStart(k, s, PagesOf(newsz), hs);
      if newsz >= oldsz {
        DropNone(k, s, newsz, oldsz, hs);
        return oldsz, false;
      }
      r := newsz;
      panics := Remove(dir, PagesOf(newsz), PagesOf(oldsz), s, hs);
    }

    /** The loop of deallocuvm over page numbers; a missing table skips its 1024 pages. */
    method Remove(dir: nat, first: nat, end: nat, ghost s: nat, ghost hs: set<nat>) returns (panics: bool)
      requires Valid() && s in k.spaces && dir == k.spaces[s].dir && InHand(k, hs) && hs <= k.roles.Keys
      requires first <= Least(end, USER) && (end > USER ==> KernelBegins(k.spaces[s]))
      modifies this
      ensures Valid() && Dropped(old(k), k, s, first, Least(end, USER), hs) && (panics <==> end > USER)
    {
      ghost var k0, stop := k, Least(end, USER);
      var a := first;
      DropStart(k, s, first, hs);
      while a < end
        invariant first <= a && Valid() && Dropped(k0, k, s, first, Least(a, stop), hs) && (end > USER ==> a <= USER)
      {
        a, panics := RemoveNext(dir, a, stop, k0, s, first, hs);
        if panics {
          return;
        }
      }
      panics := false;
    }

    method RemoveNext(dir: nat, a: nat, ghost stop: nat, ghost k0: Sound, ghost s: nat, ghost first: nat,
                      ghost hs: set<nat>) returns (a': nat, panics: bool)
      requires Valid() && first <= a && Dropped(k0, k, s, first, a, hs) && dir == k0.spaces[s].dir
      requires hs <= k0.roles.Keys && stop <= USER && (a < stop || (a == stop == USER && KernelBegins(k0.spaces[s])))
      modifies this
      ensures Valid() && a' > a && Dropped(k0, k, s, first, Least(a', stop), hs)
      ensures (panics <==> a == USER) && (a < USER ==> a' <= USER)
    {
      KernelStays(k0, k, s, first, a, hs);
      var t := Walkpgdir(dir, a, false, s);
      a', panics := a, false;
      if t == 0 {
        NoTable(k, s, a);
        a' := (a / ENTRIES + 1) * ENTRIES - 1;
        DropSkip(k0, k, s, first, a, Least(a' + 1, stop), hs);
      } else {
        PteThere(k, s, a);
        var pte := mem[t][a % ENTRIES];
        if pte.present {
          PageFrame(k0, k, s, first, a, hs);
          if pte.frame == 0 {
            return a + 1, true;
          }
          DropStep(k0, k, s, first, a, hs);
          Unmap(t, a, pte.frame, s);
        } else {
          DropSkip(k0, k, s, first, a, a + 1, hs);
        }
      }
      a' := a' + 1;
    }

    /** Frees the page's frame and clears its entry. */
    method Unmap(t: nat, v: nat, f: nat, ghost s: nat)
      requires Valid() && CanDropLeaf(k, s, v) && HasTable(k, s, v) && t == k.spaces[s].tables[v / ENTRIES]
      requires f == k.spaces[s].leaves[v].frame
      modifies this
      ensures Valid() && f < |old(k).mem| && k == Unmapped(old(k), s, v)
    {
      LeafThere(k, s, v);
      DropLeafKeeps(k, s, v);
      mem := mem[t := Put(mem[t], v % ENTRIES, ZERO)];
      k := WithoutLeaf(k, s, v);
      Kfree(f);
    }

    /** Frees the user pages, the tables and the directory. */
    method Freevm(dir: nat, ghost s: nat)
      requires Valid() && s in k.spaces && dir == k.spaces[s].dir && InHand(k, {})
      modifies this
      ensures Valid() && s !in k.spaces && Rest(old(k), k, s) && InHand(k, {})
      ensures forall f :: f in old(k).roles ==>
                (k.roles[f].Free? <==> old(k).roles[f].Free? || Mine(old(k).roles[f], s))
    {
      ghost var k0 := k;
      var r, panics := Deallocuvm(dir, KERNBASE, 0, s, {});
      ghost var k1 := k;
      DropAll(k0, k1, s);
      k := Dissolved(k, s);
      FreeTables(dir, k0, k1, s);
      FreeDir(dir, k0, s);
      AllFreed(k0, k, s);
    }

    method FreeTables(dir: nat, ghost k0: Sound, ghost k1: Sound, ghost s: nat)
      requires Valid() && s in k1.spaces && s !in k.spaces && Rest(k0, k, s) && dir == k1.spaces[s].dir
      requires InHand(k, Hands(k1.spaces[s], 0)) && Hands(k1.spaces[s], 0) <= k.roles.Keys && dir < |mem|
      requires mem == k1.mem
      modifies this
      ensures Valid() && s !in k.spaces && Rest(k0, k, s) && InHand(k, {dir}) && dir in k.roles
    {
      var i := 0;
      while i < ENTRIES
        invariant i <= ENTRIES && Valid() && s !in k.spaces && Rest(k0, k, s)
        invariant InHand(k, Hands(k1.spaces[s], i)) && Hands(k1.spaces[s], i) <= k.roles.Keys && dir < |mem|
        invariant mem[dir] == k1.mem[dir]
      {
        FreeTable(dir, i, k0, k1, s);
        i := i + 1;
      }
      NoHands(k1, s);
    }

    method FreeTable(dir: nat, i: nat, ghost k0: Sound, ghost k1: Sound, ghost s: nat)
      requires Valid() && s in k1.spaces && s !in k.spaces && Rest(k0, k, s) && i < ENTRIES && dir == k1.spaces[s].dir
      requires InHand(k, Hands(k1.spaces[s], i)) && Hands(k1.spaces[s], i) <= k.roles.Keys && dir < |mem|
      requires dir < |k1.mem| && mem[dir] == k1.mem[dir]
      modifies this
      ensures Valid() && s !in k.spaces && Rest(k0, k, s)
      ensures InHand(k, Hands(k1.spaces[s], i + 1)) && Hands(k1.spaces[s], i + 1) <= k.roles.Keys && dir < |mem|
      ensures mem[dir] == k1.mem[dir]
    {
      DirThere(k1, s, i);
      ghost var sp := k1.spaces[s];
      if mem[dir][i].present {
        var f := mem[dir][i].frame;
        TablesDistinct(k1, s, i);
        assert Hands(sp, i + 1) == Hands(sp, i) - {f};
        assert RoleOk(k, f);
        FreedRest(k, f, s, Hands(sp, i));
        RestTrans(k0, k, Freed(k, f), s);
        Kfree(f);
      } else {
        assert Hands(sp, i + 1) == Hands(sp, i);
      }
    }

    method FreeDir(dir: nat, ghost k0: Sound, ghost s: nat)
      requires Valid() && s !in k.spaces && Rest(k0, k, s) && InHand(k, {dir}) && dir in k.roles
      modifies this
      ensures Valid() && s !in k.spaces && Rest(k0, k, s) && InHand(k, {})
    {
      assert RoleOk(k, dir);
      FreedRest(k, dir, s, {dir});
      RestTrans(k0, k, Freed(k, dir), s);
      Kfree(dir);
    }

    /** mappages for one user page and a frame in hand. */
    method MapUser(dir: nat, a: nat, m: nat, flags: nat, ghost s: nat) returns (o: Outcome)
      requires Valid() && s in k.spaces && dir == k.spaces[s].dir && InHand(k, {m}) && m in k.roles && a < USER
      modifies this
      ensures Valid() && UserRan(old(k), k, s, a, Word(m, true, flags), o)
    {
      PageBytes(a);
      PageBytes(m);
      ghost var ws;
      o, ws := Mappages(dir, a * PGSIZE, PGSIZE, m * PGSIZE, flags, s, {m});
      UserRuns(old(k), k, s, a, Word(m, true, flags), {m}, o, ws);
    }

    /** Grows the space to newsz. Memory runs out exactly if there are fewer free frames than pages
        and missing tables, up to the first page beyond oldsz that is mapped; on that it panics. When
        memory runs out the pages beyond oldsz are gone and nothing else is: the space is as it was if
        it had none there. */
    method Allocuvm(dir: nat, oldsz: nat, newsz: nat, ghost s: nat) returns (r: nat, o: Outcome)
      requires Valid() && s in k.spaces && dir == k.spaces[s].dir && InHand(k, {})
      modifies this
      ensures Valid()
      ensures !o.Panic? ==> r == if newsz >= KERNBASE || o.NoMemory? then 0 else if newsz < oldsz then oldsz else newsz
      ensures newsz >= KERNBASE || newsz < oldsz ==> o.Done? && k == old(k)
      ensures newsz < KERNBASE && newsz >= oldsz ==>
                && GrowOut(old(k), k, s, PagesOf(oldsz), PagesOf(newsz), o)
                && (o.NoMemory? && Vacant(old(k), s, PagesOf(oldsz), PagesOf(newsz)) ==> Restored(old(k), k, s))
    {
      if newsz >= KERNBASE {
        return 0, Done;
      }
      if newsz < oldsz {
        return oldsz, Done;
      }
      GrowingStart(k, s, PagesOf(oldsz));
      PagesCover(PagesOf(oldsz), oldsz);
      PagesCover(PagesOf(newsz), newsz);
      o := AllocPages(dir, PagesOf(oldsz), oldsz, newsz, old(k), s, PagesOf(newsz));
      if o.NoMemory? {
        TrimmedNothing(old(k), k, s, PagesOf(oldsz), PagesOf(newsz));
      }
      r := if o.Done? then newsz else 0;
    }

    /** The loop of allocuvm over the pages first to end - 1. */
    method AllocPages(dir: nat, first: nat, oldsz: nat, newsz: nat, ghost k0: Sound, ghost s: nat,
                      ghost end: nat) returns (o: Outcome)
      requires Valid() && Growing(k0, k, s, first, first) && dir == k.spaces[s].dir
      requires first <= end <= USER && newsz <= KERNBASE && Covers(first, oldsz) && Covers(end, newsz)
      modifies this
      ensures Valid() && GrowOut(k0, k, s, first, end, o)
    {
      var a := first;
      while Below(a, newsz)
        invariant first <= a <= end && Valid() && Growing(k0, k, s, first, a) && dir == k.spaces[s].dir
        decreases end - a
      {
        o := AllocTurn(dir, a, oldsz, newsz, k0, s, first, end);
        if !o.Done? {
          return;
        }
        a := a + 1;
      }
      GrowEnds(k0, k, s, first, a, end);
      return Done;
    }

    method AllocTurn(dir: nat, a: nat, oldsz: nat, newsz: nat, ghost k0: Sound, ghost s: nat, ghost first: nat,
                     ghost end: nat) returns (o: Outcome)
      requires Valid() && Growing(k0, k, s, first, a) && dir == k.spaces[s].dir && newsz <= KERNBASE
      requires first <= a < end <= USER && Covers(first, oldsz) && Covers(end, newsz)
      modifies this
      ensures Valid() && (o.Done? ==> Growing(k0, k, s, first, a + 1) && dir == k.spaces[s].dir)
      ensures !o.Done? ==> GrowOut(k0, k, s, first, end, o)
    {
      ghost var k1 := k;
      o := AllocPage(dir, a, oldsz, newsz, k0, s, first, end);
      if o.NoMemory? {
        GrowRunsOut(k0, k1, s, first, a, end);
      } else if o.Panic? {
        GrowEnough(k0, k1, s, first, a, end);
      }
    }

    /** One round of it. */
    method AllocPage(dir: nat, a: nat, oldsz: nat, newsz: nat, ghost k0: Sound, ghost s: nat, ghost first: nat,
                     ghost end: nat) returns (o: Outcome)
      requires Valid() && Growing(k0, k, s, first, a) && dir == k.spaces[s].dir && newsz <= KERNBASE
      requires first <= a < end <= USER && Covers(first, oldsz) && Covers(end, newsz)
      modifies this
      ensures Valid() && (o.Done? ==> Growing(k0, k, s, first, a + 1) && dir == k.spaces[s].dir)
      ensures o.NoMemory? ==> Trimmed(k0, k, s, first, end) && OutFor(old(k), s, a)
      ensures o.Panic? ==> a in k0.spaces[s].leaves && old(k).free != []
    {
      ghost var k1 := k;
      if k.free != [] { TakeFill(k, s, Blank()); }
      var m := Kalloc();
      if m == 0 {
        var r, panics := Deallocuvm(dir, newsz, oldsz, s, {});
        PagesCover(first, oldsz);
        PagesCover(end, newsz);
        GrowUndone(k0, k1, k, s, first, a, end, {});
        return NoMemory;
      }
      Fill(m, Blank());
      ghost var k2 := k;
      o := MapUser(dir, a, m, WU, s);
      if o.Done? {
        GrowOn(k0, k1, k2, k, s, first, a, m);
      } else if o.NoMemory? {
        GrowStops(k0, k1, k2, k, s, first, a, m);
        Undo(dir, a, m, oldsz, newsz, k0, s, first, end);
      }
    }

    method Undo(dir: nat, ghost a: nat, m: nat, oldsz: nat, newsz: nat, ghost k0: Sound, ghost s: nat,
                ghost first: nat, ghost end: nat)
      requires Valid() && Grew(k0, k, s, first, a) && dir == k.spaces[s].dir && newsz <= KERNBASE
      requires first <= a < end <= USER && Covers(first, oldsz) && Covers(end, newsz)
      requires InHand(k, {m}) && m in k.roles
      modifies this
      ensures Valid() && Trimmed(k0, k, s, first, end)
    {
      ghost var k1 := k;
      var r, panics := Deallocuvm(dir, newsz, oldsz, s, {m});
      PagesCover(first, oldsz);
      PagesCover(end, newsz);
      GrowUndone(k0, k1, k, s, first, a, end, {m});
      FreedTrimmed(k0, k, s, first, end, m);
      Kfree(m);
    }

    /** A new space with the kernel part only; 0, and nothing changed, when memory runs out, which it does
        exactly if there are fewer free frames than the directory and the kernel's tables take. */
    method Setupkvm(data: nat, ghost s: nat) returns (d: nat)
      requires Valid() && InHand(k, {}) && s !in k.spaces && EXTMEM < data < PHYSTOP
      modifies this
      ensures Valid() && Rest(old(k), k, s) && InHand(k, {})
      ensures d == 0 <==> |old(k).free| < 1 + KERNELTABLES
      ensures d == 0 ==> s !in k.spaces && SameFree(old(k), k)
      ensures d != 0 ==> SetUp(old(k), k, s, data, 4)
      ensures d != 0 ==> s in k.spaces && k.spaces[s].dir == d && k.spaces[s].leaves == KernelLeaves(data, 4)
    {
      ghost var k0 := k;
      if k.free != [] { NewSpaceRest(k, s); }
      d := Kalloc();
      if d == 0 {
        RestSame(k, s);
        return;
      }
      Fill(d, Blank());
      k := NewSpace(k, s, d);
      SetUpStart(k0, k, s, data);
      var i := 0;
      while i < 4
        invariant i <= 4 && Valid() && Rest(k0, k, s) && InHand(k, {}) && s in k.spaces && k.spaces[s].dir == d
        invariant k.spaces[s].leaves == KernelLeaves(data, i) && SetUp(k0, k, s, data, i)
      {
        var ok := MapRow(d, data, i, k0, s);
        if !ok {
          Discard(d, k0, s);
          return 0;
        }
        i := i + 1;
      }
      SetUpDone(k0, k, s, data);
    }

    /** A space that could not be completed is freed, and every frame it took with it. */
    method Discard(d: nat, ghost k0: Sound, ghost s: nat)
      requires Valid() && Rest(k0, k, s) && InHand(k, {}) && s in k.spaces && k.spaces[s].dir == d
      requires InHand(k0, {}) && s !in k0.spaces
      modifies this
      ensures Valid() && Rest(k0, k, s) && InHand(k, {}) && s !in k.spaces && SameFree(k0, k)
    {
      ghost var k1 := k;
      Freevm(d, s);
      RestTrans(k0, k1, k, s);
      NothingLost(k0, k, s);
    }

    method MapRow(d: nat, data: nat, i: nat, ghost k0: Sound, ghost s: nat) returns (ok: bool)
      requires Valid() && Rest(k0, k, s) && InHand(k, {}) && s in k.spaces && k.spaces[s].dir == d
      requires EXTMEM < data < PHYSTOP && i < 4
      requires k.spaces[s].leaves == KernelLeaves(data, i) && SetUp(k0, k, s, data, i)
      modifies this
      ensures Valid() && Rest(k0, k, s) && InHand(k, {}) && s in k.spaces && k.spaces[s].dir == d
      ensures ok ==> k.spaces[s].leaves == KernelLeaves(data, i + 1) && SetUp(k0, k, s, data, i + 1)
      ensures !ok ==> |k0.free| < 1 + KERNELTABLES
    {
      var row := Kmap(data)[i];
      ghost var k1 := k;
      RowBytes(row.page, row.count);
      RowBytes(row.frame, 1);
      ghost var ws;
      var o;
      o, ws := Mappages(d, row.page * PGSIZE, row.count * PGSIZE, row.frame * PGSIZE, row.perm, s, {});
      ok := o.Done?;
      RestTrans(k0, k1, k, s);
      RowRan(k0, k1, k, s, data, i, o, ws);
    }

    /** A copy of the pages of space p below sz as the new space s. It returns 0, with every frame
        returned, exactly if there are fewer free frames than the copy takes up to the first page that
        space p does not have; on that page it panics. */
    method Copyuvm(dir: nat, sz: nat, data: nat, ghost p: nat, ghost s: nat) returns (d: nat, panics: bool)
      requires Valid() && InHand(k, {}) && s !in k.spaces && EXTMEM < data < PHYSTOP && sz <= KERNBASE
      requires p in k.spaces && dir == k.spaces[p].dir
      modifies this
      ensures Valid() && Rest(old(k), k, s)
      ensures !panics && d == 0 ==> InHand(k, {}) && s !in k.spaces && SameFree(old(k), k)
      ensures !panics && d != 0 ==> Copied(old(k), k, p, s, PagesOf(sz), data) && k.spaces[s].dir == d
      ensures !panics && d == 0 <==> CopyShort(old(k), p, PagesOf(sz))
      ensures panics <==> CopyBroke(old(k), p, PagesOf(sz))
    {
      d := Setupkvm(data, s);
      if d == 0 {
        return 0, false;
      }
      CopyStart(old(k), k, p, s, data);
      PagesCover(PagesOf(sz), sz);
      d, panics := CopyPages(dir, d, sz, data, old(k), p, s, PagesOf(sz));
    }

    /** The loop of copyuvm over the n pages below sz. */
    method CopyPages(dir: nat, d: nat, sz: nat, ghost data: nat, ghost k0: Sound, ghost p: nat, ghost s: nat,
                     ghost n: nat) returns (r: nat, panics: bool)
      requires EXTMEM < data < PHYSTOP && Valid() && InHand(k0, {}) && s !in k0.spaces && d != 0
      requires Copying(k0, k, p, s, 0, data, d) && p in k0.spaces && dir == k0.spaces[p].dir
      requires n <= USER && Covers(n, sz)
      modifies this
      ensures Valid() && CopyOut(k0, k, p, s, n, data, d, r, panics)
    {
      var i := 0;
      while Below(i, sz)
        invariant i <= n && Valid() && Copying(k0, k, p, s, i, data, d)
        decreases n - i
      {
        var o := CopyTurn(dir, d, i, data, k0, p, s, n);
        if !o.Done? {
          return if o.Panic? then d else 0, o.Panic?;
        }
        i := i + 1;
      }
      CopyEnds(k0, k, p, s, data, i, n, d);
      return d, false;
    }

    /** One round of it; when memory runs out the new space is given up. */
    method CopyTurn(dir: nat, d: nat, i: nat, ghost data: nat, ghost k0: Sound, ghost p: nat, ghost s: nat,
                    ghost n: nat) returns (o: Outcome)
      requires EXTMEM < data < PHYSTOP && Valid() && Copying(k0, k, p, s, i, data, d)
      requires i < n <= USER && p in k0.spaces && dir == k0.spaces[p].dir && InHand(k0, {}) && s !in k0.spaces
      modifies this
      ensures Valid() && (o.Done? ==> Copying(k0, k, p, s, i + 1, data, d))
      ensures !o.Done? ==> CopyOut(k0, k, p, s, n, data, d, if o.Panic? then d else 0, o.Panic?)
    {
      ghost var k1 := k;
      o := CopyPage(dir, d, i, data, k0, p, s);
      if o.Panic? {
        CopyBreaks(k0, k1, p, s, data, i, n, d);
      } else if o.NoMemory? {
        CopyStarves(k0, k1, p, s, data, i, n);
        Discard(d, k0, s);
      }
    }

    method CopyPage(dir: nat, d: nat, i: nat, ghost data: nat, ghost k0: Sound, ghost p: nat,
                    ghost s: nat) returns (o: Outcome)
      requires EXTMEM < data < PHYSTOP && Valid() && Copied(k0, k, p, s, i, data) && k.spaces[s].dir == d
      requires i < USER && p != s && p in k0.spaces && dir == k0.spaces[p].dir && CopyTook(k0, k, s, data, i)
      modifies this
      ensures Valid() && Rest(k0, k, s) && s in k.spaces && k.spaces[s].dir == d
      ensures o.Done? ==> Copied(k0, k, p, s, i + 1, data) && CopyTook(k0, k, s, data, i + 1)
      ensures o.NoMemory? ==> InHand(k, {}) && OutFor(old(k), s, i)
      ensures o.Panic? <==> i !in k0.spaces[p].leaves
    {
      ghost var k1 := k;
      ParentSpace(k0, k, p, s);
      var t := Walkpgdir(dir, i, false, p);
      if t == 0 {
        NoTable(k, p, i);
        return Panic;
      }
      PteThere(k, p, i);
      var pte := mem[t][i % ENTRIES];
      if !pte.present {
        return Panic;
      }
      o := CopyFrame(d, i, pte, data, k0, p, s);
    }

    /** A frame with the page's contents, mapped in the new space. */
    method CopyFrame(d: nat, i: nat, pte: Word, ghost data: nat, ghost k0: Sound, ghost p: nat,
                     ghost s: nat) returns (o: Outcome)
      requires EXTMEM < data < PHYSTOP && Valid() && Copied(k0, k, p, s, i, data) && k.spaces[s].dir == d
      requires i < USER && p != s && p in k0.spaces && i in k0.spaces[p].leaves && pte == k0.spaces[p].leaves[i]
      requires CopyTook(k0, k, s, data, i)
      modifies this
      ensures Valid() && Rest(k0, k, s) && InHand(k, {}) && s in k.spaces && k.spaces[s].dir == d
      ensures !o.Panic? && (o.Done? ==> Copied(k0, k, p, s, i + 1, data) && CopyTook(k0, k, s, data, i + 1))
      ensures o.NoMemory? ==> OutFor(old(k), s, i)
    {
      ghost var k1 := k;
      ParentPage(k0, k, p, s, i);
      var page := mem[pte.frame];
      if k.free != [] { TakeFill(k, s, page); }
      var m := Kalloc();
      if m == 0 {
        return NoMemory;
      }
      Fill(m, page);
      ghost var k2 := k;
      o := MapUser(d, i, m, pte.flags, s);
      if o.Done? {
        CopyOn(k0, k1, k2, k, p, s, i, data, m);
      } else {
        CopyStops(k0, k1, k2, k, p, s, i, data, Word(m, true, pte.flags), page, o);
        GiveBack(m, k0, s);
      }
    }

    method GiveBack(m: nat, ghost k0: Sound, ghost s: nat)
      requires Valid() && Rest(k0, k, s) && InHand(k, {m}) && m in k.roles
      modifies this
      ensures Valid() && Rest(k0, k, s) && InHand(k, {}) && k.spaces == old(k).spaces
    {
      assert RoleOk(k, m);
      FreedRest(k, m, s, {m});
      RestTrans(k0, k, Freed(k, m), s);
      Kfree(m);
    }

    /** The frames from first on, up to the top of memory, are put on the free list. */
    constructor (top: nat, first: nat)
      requires 0 < first <= top
      ensures Valid() && k.spaces == map[] && InHand(k, {})
      ensures k.roles.Keys == Range(first, top) && forall f :: f in k.roles ==> k.roles[f].Free?
    {
      mem := seq(top, _ => Blank());
      freelist := ZERO;
      BootGood(top, first);
      k := Boot(top, first);
      new;
      Freerange(first, top);
    }

    method Freerange(first: nat, end: nat)
      requires Valid() && first <= end && InHand(k, Range(first, end)) && Range(first, end) <= k.roles.Keys
      modifies this
      ensures Valid() && InHand(k, {}) && k.spaces == old(k).spaces && k.roles.Keys == old(k).roles.Keys
      ensures forall f :: f in k.roles ==> if first <= f < end then k.roles[f].Free? else k.roles[f] == old(k).roles[f]
    {
      var p := first;
      while p < end
        invariant first <= p <= end && Valid() && InHand(k, Range(p, end)) && k.spaces == old(k).spaces
        invariant k.roles.Keys == old(k).roles.Keys
        invariant forall f :: f in k.roles ==>
                    if first <= f < p then k.roles[f].Free? else k.roles[f] == old(k).roles[f]
      {
        assert p in Range(p, end);
        Kfree(p);
        p := p + 1;
      }
    }
  }
}
