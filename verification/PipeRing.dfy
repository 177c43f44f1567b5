/** The pipe's ring of bytes with its two 32-bit counters. */
module PipeRing {

  const PIPESIZE: nat := 512
  const WORD: nat := 0x1_0000_0000

  /** The counters; both run modulo 2^32. */
  datatype Counters = Counters(nread: nat, nwrite: nat)

  predicate Fit(c: Counters) { c.nread < WORD && c.nwrite < WORD && Used(c) <= PIPESIZE }

  /** Bytes written and not yet read. */
  function Used(c: Counters): nat { (c.nwrite - c.nread) % WORD }

  predicate Empty(c: Counters) { c.nread == c.nwrite }

  predicate Full(c: Counters) { c.nwrite == (c.nread + PIPESIZE) % WORD }

  function Put(c: Counters): Counters { Counters(c.nread, (c.nwrite + 1) % WORD) }

  function Take(c: Counters): Counters { Counters((c.nread + 1) % WORD, c.nwrite) }

  /** The tests on the counters are right although the counters wrap. */
  lemma TestsRight(c: Counters)
    requires Fit(c)
    ensures Empty(c) <==> Used(c) == 0
    ensures Full(c) <==> Used(c) == PIPESIZE
  {
  }

  lemma UsedIs(c: Counters)
    requires c.nread < WORD && c.nwrite < WORD
    ensures Used(c) == if c.nread <= c.nwrite then c.nwrite - c.nread else WORD + c.nwrite - c.nread
  {
  }

  lemma PutUsed(c: Counters)
    requires Fit(c) && !Full(c)
    ensures Fit(Put(c)) && Used(Put(c)) == Used(c) + 1
  {
    TestsRight(c);
    UsedIs(c);
    UsedIs(Put(c));
  }

  lemma TakeUsed(c: Counters)
    requires Fit(c) && !Empty(c)
    ensures Fit(Take(c)) && Used(Take(c)) == Used(c) - 1
  {
    UsedIs(c);
    UsedIs(Take(c));
  }

  /** PIPESIZE divides 2^32, so a wrapped counter still points to the right slot. */
  lemma SlotRight(n: nat)
    ensures n % WORD % PIPESIZE == n % PIPESIZE
  {
    assert n == n / WORD * WORD + n % WORD;
    assert WORD == 0x80_0000 * PIPESIZE;
    var q, r := n / WORD, n % WORD;
    assert n == (q * 0x80_0000) * PIPESIZE + r;
    Shift(r, q * 0x80_0000);
  }

  lemma {:induction false} Shift(r: nat, k: nat)
    ensures (k * PIPESIZE + r) % PIPESIZE == r % PIPESIZE
    decreases k
  {
    if k > 0 {
      Shift(r, k - 1);
      assert k * PIPESIZE + r == (k - 1) * PIPESIZE + r + PIPESIZE;
    }
  }

  lemma CountersOf(taken: nat, written: nat)
    requires taken <= written <= taken + PIPESIZE
    ensures var c := Counters(taken % WORD, written % WORD); Fit(c) && Used(c) == written - taken
  {
    UsedIs(Counters(taken % WORD, written % WORD));
  }
}
