/** With what a read or a write returns, over whole runs: how many bytes it has moved, and what the
    pipe is like when it has moved fewer than it was asked to. */
module PipeReturn {
  import opened Basics
  import opened PipeRing
  import opened PipeWakeup

  /** The states ss that the steps lead through. */
  ghost predicate Trace(ss: seq<State>, steps: seq<Step>) {
    && |ss| == |steps| + 1
    && forall k: nat {:trigger TraceStep(ss, steps, k)} :: k < |steps| ==> TraceStep(ss, steps, k)
  }

  ghost predicate TraceStep(ss: seq<State>, steps: seq<Step>, k: nat)
    requires |ss| == |steps| + 1 && k < |steps|
  {
    Enabled(ss[k], steps[k]) && ss[k + 1] == Next(ss[k], steps[k])
  }

  /** A process with the pipe's lock is the only one at a place where it is held. */
  predicate Held(s: State) {
    forall p :: 0 <= p < |s.pcs| && Locks(s.pcs[p]) ==> s.lock == Some(p)
  }

  lemma HeldReading(s: State, p: nat)
    requires Held(s) && Enabled(s, Go(p)) && InRead(s.pcs[p])
    ensures Held(GoRead(s, p))
  {
  }

  lemma HeldWriting(s: State, p: nat)
    requires Held(s) && Enabled(s, Go(p)) && InWrite(s.pcs[p])
    ensures Held(GoWrite(s, p))
  {
  }

  lemma HeldKept(s: State, st: Step)
    requires Held(s) && Enabled(s, st)
    ensures Held(Next(s, st))
  {
    if st.Go? && InRead(s.pcs[st.p]) {
      HeldReading(s, st.p);
    } else if st.Go? && InWrite(s.pcs[st.p]) {
      HeldWriting(s, st.p);
    }
  }

  lemma {:induction false} HeldAlways(ss: seq<State>, steps: seq<Step>, n: nat, k: nat)
    requires Trace(ss, steps) && ss[0] == Initial(n) && k <= |steps|
    ensures Held(ss[k]) && |ss[k].pcs| == n
  {
    if k > 0 {
      HeldAlways(ss, steps, n, k - 1);
      assert TraceStep(ss, steps, k - 1);
      HeldKept(ss[k - 1], steps[k - 1]);
    }
  }

  /** The counters after one byte has gone out of the pipe, or into it. */
  function OneByte(c: Counters, write: bool): Counters {
    if write then Counters(c.nread, (c.nwrite + 1) % WORD) else Counters((c.nread + 1) % WORD, c.nwrite)
  }

  /** Step k is one in which process p moves a byte. */
  predicate MovesByte(ss: seq<State>, steps: seq<Step>, p: nat, write: bool, k: nat)
    requires |ss| == |steps| + 1 && k < |steps|
  {
    steps[k] == Go(p) && ss[k + 1].c == OneByte(ss[k].c, write)
  }

  /** How many bytes process p moves in steps i..j-1. */
  function Bytes(ss: seq<State>, steps: seq<Step>, p: nat, write: bool, i: nat, j: nat): nat
    requires |ss| == |steps| + 1 && j <= |steps|
    decreases j
  {
    if j <= i then 0
    else Bytes(ss, steps, p, write, i, j - 1) + if MovesByte(ss, steps, p, write, j - 1) then 1 else 0
  }

  /** Process p makes one call, started in step i, up to step j. */
  ghost predicate During(ss: seq<State>, steps: seq<Step>, p: nat, i: nat, j: nat) {
    && |ss| == |steps| + 1 && i < j <= |steps|
    && forall k: nat {:trigger Busy(ss, p, k)} :: i < k <= j ==> Busy(ss, p, k)
  }

  predicate Busy(ss: seq<State>, p: nat, k: nat) {
    k < |ss| && p < |ss[k].pcs| && !ss[k].pcs[p].Idle?
  }

  // What a reader that was asked for n bytes and has got some knows.

  predicate ReadSoFar(s: State, p: nat, n: nat, got: nat)
    requires p < |s.pcs|
  {
    match s.pcs[p]
    case RTest(m) => m == n && got == 0
    case RSleepTake(m) => m == n && got == 0
    case RSleepDrop(m) => m == n && got == 0
    case RSleepSet(m) => m == n && got == 0
    case RAsleep(m) => m == n && got == 0
    case RWoken(m) => m == n && got == 0
    case RCopy(m) => got + m == n && (got == 0 && Empty(s.c) ==> !s.writeopen)
    case RWake => got <= n && (got < n ==> Drained(s, got))
    case RDone => got <= n && (got < n ==> Drained(s, got) || (got == 0 && p in s.killed))
    case _ => false
  }

  /** The pipe is empty, and, if nothing was read from it, its write end is closed. */
  predicate Drained(s: State, got: nat) {
    Empty(s.c) && (got == 0 ==> !s.writeopen)
  }

  lemma OneByteChanges(c: Counters, write: bool)
    ensures OneByte(c, write) != c
  {
  }

  /** The reader's own step. */
  lemma ReadGoes(s: State, p: nat, n: nat, got: nat)
    requires Enabled(s, Go(p)) && ReadSoFar(s, p, n, got)
    ensures var s' := Next(s, Go(p));
            s'.pcs[p].Idle? || ReadSoFar(s', p, n, got + if s'.c == OneByte(s.c, false) then 1 else 0)
  {
    OneByteChanges(s.c, false);
  }

  /** A step that leaves p's place, the counters and the write end alone, or only wakes p or marks it killed. */
  predicate Apart(s: State, t: State, p: nat)
    requires p < |s.pcs|
  {
    && p < |t.pcs| && Stays(s.pcs[p], t.pcs[p]) && s.killed <= t.killed
    && (Locks(s.pcs[p]) ==> t.c == s.c && t.writeopen == s.writeopen && t.readopen == s.readopen)
  }

  lemma ApartReading(s: State, q: nat, p: nat)
    requires Held(s) && Enabled(s, Go(q)) && InRead(s.pcs[q]) && p < |s.pcs| && p != q
    ensures Apart(s, GoRead(s, q), p)
  {
  }

  lemma ApartWriting(s: State, q: nat, p: nat)
    requires Held(s) && Enabled(s, Go(q)) && InWrite(s.pcs[q]) && p < |s.pcs| && p != q
    ensures Apart(s, GoWrite(s, q), p)
  {
  }

  /** No other process disturbs one that holds the lock. */
  lemma OthersApart(s: State, st: Step, p: nat)
    requires Held(s) && Enabled(s, st) && st != Go(p) && p < |s.pcs| && !s.pcs[p].Idle?
    ensures Apart(s, Next(s, st), p)
  {
    if st.Go? && InRead(s.pcs[st.p]) {
      ApartReading(s, st.p, p);
    } else if st.Go? && InWrite(s.pcs[st.p]) {
      ApartWriting(s, st.p, p);
    }
  }

  lemma ReadWaits(s: State, t: State, p: nat, n: nat, got: nat)
    requires p < |s.pcs| && ReadSoFar(s, p, n, got) && Apart(s, t, p)
    ensures ReadSoFar(t, p, n, got)
  {
  }

  // The same for a writer.

  predicate WroteSoFar(s: State, p: nat, n: nat, got: nat)
    requires p < |s.pcs|
  {
    match s.pcs[p]
    case WLoop(m) => got + m == n
    case WWakeFull(m) => got + m == n
    case WSleepTake(m) => got + m == n
    case WSleepDrop(m) => got + m == n
    case WSleepSet(m) => got + m == n
    case WAsleep(m) => got + m == n
    case WWoken(m) => got + m == n
    case WWake => got == n
    case WDone => got <= n && (got < n ==> Full(s.c) && (!s.readopen || p in s.killed))
    case _ => false
  }

  lemma WriteGoes(s: State, p: nat, n: nat, got: nat)
    requires Enabled(s, Go(p)) && WroteSoFar(s, p, n, got)
    ensures var s' := Next(s, Go(p));
            s'.pcs[p].Idle? || WroteSoFar(s', p, n, got + if s'.c == OneByte(s.c, true) then 1 else 0)
  {
    OneByteChanges(s.c, true);
  }

  lemma WriteWaits(s: State, t: State, p: nat, n: nat, got: nat)
    requires p < |s.pcs| && WroteSoFar(s, p, n, got) && Apart(s, t, p)
    ensures WroteSoFar(t, p, n, got)
  {
  }

  // Over a run.

  lemma {:induction false} Reading(ss: seq<State>, steps: seq<Step>, procs: nat, p: nat, n: nat, i: nat, j: nat)
    requires Trace(ss, steps) && ss[0] == Initial(procs) && During(ss, steps, p, i, j) && steps[i] == StartRead(p, n)
    ensures p < |ss[j].pcs| && ReadSoFar(ss[j], p, n, Bytes(ss, steps, p, false, i + 1, j))
    decreases j
  {
    assert TraceStep(ss, steps, j - 1) && Busy(ss, p, j);
    HeldAlways(ss, steps, procs, j - 1);
    if i < j - 1 {
      Reading(ss, steps, procs, p, n, i, j - 1);
      assert Busy(ss, p, j - 1);
      var got := Bytes(ss, steps, p, false, i + 1, j - 1);
      if steps[j - 1] == Go(p) {
        ReadGoes(ss[j - 1], p, n, got);
      } else {
        OthersApart(ss[j - 1], steps[j - 1], p);
        ReadWaits(ss[j - 1], ss[j], p, n, got);
      }
    }
  }

  lemma {:induction false} Writing(ss: seq<State>, steps: seq<Step>, procs: nat, p: nat, n: nat, i: nat, j: nat)
    requires Trace(ss, steps) && ss[0] == Initial(procs) && During(ss, steps, p, i, j) && steps[i] == StartWrite(p, n)
    ensures p < |ss[j].pcs| && WroteSoFar(ss[j], p, n, Bytes(ss, steps, p, true, i + 1, j))
    decreases j
  {
    assert TraceStep(ss, steps, j - 1) && Busy(ss, p, j);
    HeldAlways(ss, steps, procs, j - 1);
    if i < j - 1 {
      Writing(ss, steps, procs, p, n, i, j - 1);
      assert Busy(ss, p, j - 1);
      var got := Bytes(ss, steps, p, true, i + 1, j - 1);
      if steps[j - 1] == Go(p) {
        WriteGoes(ss[j - 1], p, n, got);
      } else {
        OthersApart(ss[j - 1], steps[j - 1], p);
        WriteWaits(ss[j - 1], ss[j], p, n, got);
      }
    }
  }

  /** Step j takes process p out of the call that it started in step i. */
  ghost predicate Returns(ss: seq<State>, steps: seq<Step>, p: nat, i: nat, j: nat) {
    During(ss, steps, p, i, j) && j < |steps| && p < |ss[j + 1].pcs| && ss[j + 1].pcs[p].Idle?
  }

  lemma OnlyOwnReturn(s: State, st: Step, p: nat)
    requires Held(s) && Enabled(s, st) && p < |s.pcs| && !s.pcs[p].Idle? && Next(s, st).pcs[p].Idle?
    ensures st == Go(p) && (InRead(s.pcs[p]) ==> s.pcs[p].RDone?) && (InWrite(s.pcs[p]) ==> s.pcs[p].WDone?)
  {
    if st != Go(p) {
      OthersApart(s, st, p);
    }
  }

  /** A read of n bytes, in any interleaving: it reads no more than n, fewer only if it leaves the pipe
      empty, and none only if the write end is closed as well or the reader was killed. */
  lemma ReadReturns(ss: seq<State>, steps: seq<Step>, procs: nat, p: nat, n: nat, i: nat, j: nat)
    requires Trace(ss, steps) && ss[0] == Initial(procs)
    requires Returns(ss, steps, p, i, j) && steps[i] == StartRead(p, n)
    ensures var got, s := Bytes(ss, steps, p, false, i + 1, j), ss[j];
            && got <= n
            && (got < n && p !in s.killed ==> Empty(s.c))
            && (got < n && p in s.killed ==> Empty(s.c) || got == 0)
            && (got == 0 < n && p !in s.killed ==> !s.writeopen)
  {
    Reading(ss, steps, procs, p, n, i, j);
    assert TraceStep(ss, steps, j) && Busy(ss, p, j);
    HeldAlways(ss, steps, procs, j);
    OnlyOwnReturn(ss[j], steps[j], p);
  }

  /** A write of n bytes: it writes no more than n, and fewer only if it leaves the pipe full, and the
      read end is closed or the writer was killed. */
  lemma WriteReturns(ss: seq<State>, steps: seq<Step>, procs: nat, p: nat, n: nat, i: nat, j: nat)
    requires Trace(ss, steps) && ss[0] == Initial(procs)
    requires Returns(ss, steps, p, i, j) && steps[i] == StartWrite(p, n)
    ensures var got, s := Bytes(ss, steps, p, true, i + 1, j), ss[j];
            && got <= n
            && (got < n ==> Full(s.c) && (!s.readopen || p in s.killed))
  {
    Writing(ss, steps, procs, p, n, i, j);
    assert TraceStep(ss, steps, j) && Busy(ss, p, j);
    HeldAlways(ss, steps, procs, j);
    OnlyOwnReturn(ss[j], steps[j], p);
  }

  /** How many bytes have gone into the pipe, or out of it, in the first k steps. */
  function Total(ss: seq<State>, steps: seq<Step>, write: bool, k: nat): nat
    requires |ss| == |steps| + 1 && k <= |steps|
  {
    if k == 0 then 0
    else Total(ss, steps, write, k - 1) + if ss[k].c == OneByte(ss[k - 1].c, write) then 1 else 0
  }

  /** A step moves one byte out of a pipe that is not empty, or one into a pipe that is not full, or none. */
  lemma StepMoves(s: State, st: Step)
    requires Enabled(s, st)
    ensures var c := Next(s, st).c;
            || c == s.c
            || (c == OneByte(s.c, false) && !Empty(s.c))
            || (c == OneByte(s.c, true) && !Full(s.c))
  {
  }

  /** What is in the pipe is what was written less what was read; it is never less than nothing nor
      more than the pipe holds, whoever is killed and whatever is closed. */
  lemma {:induction false} BytesConserved(ss: seq<State>, steps: seq<Step>, procs: nat, k: nat)
    requires Trace(ss, steps) && ss[0] == Initial(procs) && k <= |steps|
    ensures Fit(ss[k].c) && Used(ss[k].c) == Total(ss, steps, true, k) - Total(ss, steps, false, k)
  {
    if k > 0 {
      BytesConserved(ss, steps, procs, k - 1);
      assert TraceStep(ss, steps, k - 1);
      var c, c' := ss[k - 1].c, ss[k].c;
      StepMoves(ss[k - 1], steps[k - 1]);
      OneByteChanges(c, true);
      OneByteChanges(c, false);
      if c' == OneByte(c, false) {
        TakeUsed(c);
      } else if c' == OneByte(c, true) {
        PutUsed(c);
      }
    }
  }

  /** An end is open until a close of it, and a process is killed by a kill of it, not otherwise. */
  lemma {:induction false} FlagsAre(ss: seq<State>, steps: seq<Step>, procs: nat, k: nat, p: nat)
    requires Trace(ss, steps) && ss[0] == Initial(procs) && k <= |steps|
    ensures ss[k].writeopen <==> forall i :: 0 <= i < k ==> !(steps[i].StartClose? && steps[i].writable)
    ensures ss[k].readopen <==> forall i :: 0 <= i < k ==> !(steps[i].StartClose? && !steps[i].writable)
    ensures p in ss[k].killed <==> exists i :: 0 <= i < k && steps[i] == Kill(p)
  {
    if k > 0 {
      FlagsAre(ss, steps, procs, k - 1, p);
      assert TraceStep(ss, steps, k - 1);
    }
  }

  /** Every run leads through such states. */
  lemma {:induction false} RunIsTrace(s: State, run: seq<Step>, t: State) returns (ss: seq<State>)
    requires Runs(s, run, t)
    ensures Trace(ss, run) && ss[0] == s && ss[|run|] == t
    decreases |run|
  {
    ss := [s];
    if run != [] {
      var rest := RunIsTrace(Next(s, run[0]), run[1..], t);
      ss := [s] + rest;
      forall k: nat | k < |run| ensures TraceStep(ss, run, k) {
        if k > 0 {
          assert TraceStep(rest, run[1..], k - 1);
        }
      }
    }
  }
}
