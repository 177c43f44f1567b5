/** What the processor makes of the page tables: the two-level walk over the words of memory, with the
    permissions of both levels. */
module VmWalk {
  import opened Basics
  import opened VmState
  import opened VmSteps
  import opened VmMap
  import opened VmLife

  /** The frame that an address leads to, and whether user code may reach it and anyone write it. */
  datatype Access = Access(frame: nat, writable: bool, user: bool)

  /** The writable bit is the lowest of the flags behind the present bit, the user bit the next. */
  predicate Writable(w: Word) { w.flags % 2 == 1 }

  predicate ForUser(w: Word) { w.flags / 2 % 2 == 1 }

  /** Page v of a 32-bit address space: ten bits select the entry of the directory, ten more that of
      the table it names; a bit counts if both entries have it. */
  function Translate(mem: seq<Page>, dir: nat, v: nat): Option<Access> {
    if dir >= |mem| || v / 1024 >= |mem[dir]| || !mem[dir][v / 1024].present then None
    else
      var e := mem[dir][v / 1024];
      if e.frame >= |mem| || v % 1024 >= |mem[e.frame]| || !mem[e.frame][v % 1024].present then None
      else
        var w := mem[e.frame][v % 1024];
        Some(Access(w.frame, Writable(e) && Writable(w), ForUser(e) && ForUser(w)))
  }

  /** In every state the processor sees exactly the entries of the space, with their permissions. */
  lemma TranslateIs(k: Sound, s: nat, v: nat)
    requires s in k.spaces && v < PAGES
    ensures Translate(k.mem, k.spaces[s].dir, v) ==
            if v in k.spaces[s].leaves then
              var w := k.spaces[s].leaves[v]; Some(Access(w.frame, Writable(w), ForUser(w)))
            else None
  {
    var sp := k.spaces[s];
    assert SpaceOk(k, s, sp);
    assert v / ENTRIES * ENTRIES + v % ENTRIES == v;
    if v / ENTRIES in sp.tables {
      assert TableOk(k, s, sp, v / ENTRIES);
    }
    if v in sp.leaves {
      assert LeafOk(k, s, sp, v);
    }
  }

  /** After allocuvm the program can read and write each new page, finds it blank, and sees every other
      page as before. */
  lemma GrownSeen(k0: Sound, k: Sound, s: nat, lo: nat, hi: nat, v: nat)
    requires Grown(k0, k, s, lo, hi) && v < PAGES
    ensures var now := Translate(k.mem, k.spaces[s].dir, v);
            if lo <= v < hi then
              && now.Some? && now.value.writable && now.value.user && now.value.frame < |k.mem|
              && |k.mem[now.value.frame]| == ENTRIES
              && forall i :: 0 <= i < ENTRIES ==> k.mem[now.value.frame][i] == ZERO
            else
              && now == Translate(k0.mem, k0.spaces[s].dir, v)
              && (now.Some? && v < USER ==>
                    now.value.frame < |k0.mem| && now.value.frame < |k.mem|
                    && k.mem[now.value.frame] == k0.mem[now.value.frame])
  {
    TranslateIs(k0, s, v);
    TranslateIs(k, s, v);
    if lo <= v < hi {
      assert BlankPage(k, s, v);
    } else if v in k0.spaces[s].leaves {
      assert PageKept(k0, k, s, v);
    }
  }

  /** After copyuvm the child's page has the parent's contents and permissions, on another frame. */
  lemma CopiedSeen(k0: Sound, k: Sound, p: nat, s: nat, n: nat, data: nat, v: nat)
    requires EXTMEM < data < PHYSTOP && Copied(k0, k, p, s, n, data) && p in k0.spaces && p != s && v < n <= USER
    ensures p in k.spaces && k.spaces[p] == k0.spaces[p]
    ensures var (was, now) := (Translate(k0.mem, k0.spaces[p].dir, v), Translate(k.mem, k.spaces[s].dir, v));
            && was.Some? && now.Some? && Translate(k.mem, k.spaces[p].dir, v) == was
            && now.value.writable == was.value.writable && now.value.user == was.value.user
            && now.value.frame != was.value.frame
            && was.value.frame < |k0.mem| && now.value.frame < |k.mem|
            && k.mem[now.value.frame] == k0.mem[was.value.frame]
  {
    assert PageCopied(k0, k, p, s, v);
    TranslateIs(k0, p, v);
    TranslateIs(k, s, v);
    TranslateIs(k, p, v);
    WriteUnseen(k, p, v, Blank(), s, v);
  }

  /** The kernel part: physical memory from KERNBASE on and the devices at their own addresses, the
      kernel's text read-only, and nothing for user code. */
  lemma KernelSeen(data: nat, v: nat)
    requires EXTMEM < data < PHYSTOP
    ensures v in KernelLeaves(data, 4) <==> 0x8_0000 <= v < 0x8_0000 + 0xE000 || 0xF_E000 <= v < 0x10_0000
    ensures v in KernelLeaves(data, 4) ==>
              var w := KernelLeaves(data, 4)[v];
              && w.present && !ForUser(w)
              && w.frame == (if v < 0xF_E000 then v - 0x8_0000 else v)
              && (Writable(w) <==> !(0x8_0100 <= v < 0x8_0000 + data))
  {
    KernelRow(data, 0, v);
    KernelRow(data, 1, v);
    KernelRow(data, 2, v);
    KernelRow(data, 3, v);
  }

  lemma KernelRow(data: nat, n: nat, v: nat)
    requires EXTMEM < data < PHYSTOP && n < 4
    ensures var (r, l, m) := (Kmap(data)[n], KernelLeaves(data, n), KernelLeaves(data, n + 1));
            && (v in m <==> v in l || r.page <= v < r.page + r.count)
            && (r.page <= v < r.page + r.count ==> m[v] == Word(r.frame + v - r.page, true, r.perm))
            && (v in l && !(r.page <= v < r.page + r.count) ==> m[v] == l[v])
  {
    var r := Kmap(data)[n];
    ExtendedHas(KernelLeaves(data, n), r.page, RowWords(r), v);
  }

  /** A word of memory as a 32-bit number. */
  function Bits(w: Word): nat { w.frame * 4096 + w.flags * 2 + if w.present then 1 else 0 }

  /** A freed frame is all ones by bytes, but for its first word, the kernel address of the next one. */
  lemma JunkSeen(k: Kernel, f: nat, i: nat)
    requires f < |k.mem| && i < ENTRIES
    ensures |Freed(k, f).mem[f]| == ENTRIES
    ensures Bits(Freed(k, f).mem[f][i]) ==
            if i > 0 then 0x0101_0101
            else if k.free == [] then 0 else 0x8000_0000 + k.free[|k.free| - 1] * 4096
  {
  }
}
