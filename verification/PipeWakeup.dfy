/** Readers, writers and closers of one pipe, interleaved between their lock operations. */
module PipeWakeup {
  import opened Basics
  import opened PipeRing

  /** Where a process is. The argument n is the number of bytes still to be moved. */
  datatype Pc =
    | Idle
    // piperead: the test, sleep in its three steps, asleep, woken, copying, waking the writers, releasing
    | RTest(n: nat) | RSleepTake(n: nat) | RSleepDrop(n: nat) | RSleepSet(n: nat) | RAsleep(n: nat) | RWoken(n: nat)
    | RCopy(n: nat) | RWake | RDone
    // pipewrite: the loop, waking the readers when full, sleep, asleep, woken, waking the readers at the end, releasing
    | WLoop(n: nat) | WWakeFull(n: nat) | WSleepTake(n: nat) | WSleepDrop(n: nat) | WSleepSet(n: nat) | WAsleep(n: nat)
    | WWoken(n: nat) | WWake | WDone
    // pipeclose: the flag is cleared, waking the other side, releasing
    | CWake(writable: bool) | CDone

  /** lock is the pipe's lock, table the process table's; killed are the processes marked so. */
  datatype State = State(c: Counters, readopen: bool, writeopen: bool, lock: Option<nat>, table: Option<nat>,
                         pcs: seq<Pc>, killed: set<nat>)

  predicate InRead(pc: Pc) {
    || pc.RTest? || pc.RSleepTake? || pc.RSleepDrop? || pc.RSleepSet? || pc.RAsleep? || pc.RWoken?
    || pc.RCopy? || pc.RWake? || pc.RDone?
  }

  predicate InWrite(pc: Pc) {
    || pc.WLoop? || pc.WWakeFull? || pc.WSleepTake? || pc.WSleepDrop? || pc.WSleepSet? || pc.WAsleep?
    || pc.WWoken? || pc.WWake? || pc.WDone?
  }

  /** The process holds the pipe's lock. */
  predicate Locks(pc: Pc) {
    || pc.RTest? || pc.RSleepTake? || pc.RSleepDrop? || pc.RCopy? || pc.RWake? || pc.RDone?
    || pc.WLoop? || pc.WWakeFull? || pc.WSleepTake? || pc.WSleepDrop? || pc.WWake? || pc.WDone?
    || pc.CWake? || pc.CDone?
  }

  predicate LocksTable(pc: Pc) { pc.RSleepDrop? || pc.RSleepSet? || pc.WSleepDrop? || pc.WSleepSet? }

  function Initial(n: nat): State {
    State(Counters(0, 0), true, true, None, None, seq(n, _ => Idle), {})
  }

  function WakeReader(pc: Pc): Pc { if pc.RAsleep? then RWoken(pc.n) else pc }

  function WakeWriter(pc: Pc): Pc { if pc.WAsleep? then WWoken(pc.n) else pc }

  /** wakeup1 on the channel of the readers, or of the writers. */
  function Woken(pcs: seq<Pc>, readers: bool): (r: seq<Pc>)
    ensures |r| == |pcs|
    ensures forall i :: 0 <= i < |r| ==> r[i] == if readers then WakeReader(pcs[i]) else WakeWriter(pcs[i])
  {
    seq(|pcs|, i requires 0 <= i < |pcs| => if readers then WakeReader(pcs[i]) else WakeWriter(pcs[i]))
  }

  /** The loop of wakeup1 over the process table. */
  method Wakeup1(procs: array<Pc>, readers: bool)
    modifies procs
    ensures procs[..] == Woken(old(procs[..]), readers)
  {
    var p := 0;
    while p < procs.Length
      invariant p <= procs.Length
      invariant forall i :: 0 <= i < procs.Length ==>
                  procs[i] == if i >= p then old(procs[i])
                              else if readers then WakeReader(old(procs[i])) else WakeWriter(old(procs[i]))
    {
      if readers && procs[p].RAsleep? {
        procs[p] := RWoken(procs[p].n);
      } else if !readers && procs[p].WAsleep? {
        procs[p] := WWoken(procs[p].n);
      }
      p := p + 1;
    }
  }

  /** An end is closed by its last holder, so no process is using it. */
  predicate Unused(pcs: seq<Pc>, writable: bool) {
    forall i :: 0 <= i < |pcs| ==> !(if writable then InWrite(pcs[i]) else InRead(pcs[i]))
  }

  datatype Step =
    | StartRead(p: nat, n: nat) | StartWrite(p: nat, n: nat) | StartClose(p: nat, writable: bool)
    | Kill(p: nat)   // kill: p is marked, and woken if it sleeps
    | Go(p: nat)

  predicate Enabled(s: State, st: Step) {
    st.p < |s.pcs| &&
    match st
    case StartRead(p, _) => s.pcs[p].Idle? && s.readopen && s.lock.None?
    case StartWrite(p, _) => s.pcs[p].Idle? && s.writeopen && s.lock.None?
    case StartClose(p, w) =>
      s.pcs[p].Idle? && (if w then s.writeopen else s.readopen) && Unused(s.pcs, w) && s.lock.None?
    case Kill(p) => s.table.None?
    case Go(p) =>
      var pc := s.pcs[p];
      if pc.Idle? || pc.RAsleep? || pc.WAsleep? then false
      else if pc.RWoken? || pc.WWoken? then s.lock.None?
      else if pc.RSleepTake? || pc.WSleepTake? || pc.RWake? || pc.WWakeFull? || pc.WWake? || pc.CWake? then
        s.table.None?
      else true
  }

  function At(s: State, p: nat, pc: Pc): State
    requires p < |s.pcs|
  {
    State(s.c, s.readopen, s.writeopen, s.lock, s.table, s.pcs[p := pc], s.killed)
  }

  function Locked(s: State, p: nat, pc: Pc): State
    requires p < |s.pcs|
  {
    State(s.c, s.readopen, s.writeopen, Some(p), s.table, s.pcs[p := pc], s.killed)
  }

  function Unlocked(s: State, p: nat, pc: Pc): State
    requires p < |s.pcs|
  {
    State(s.c, s.readopen, s.writeopen, None, s.table, s.pcs[p := pc], s.killed)
  }

  function Table(s: State, t: Option<nat>, p: nat, pc: Pc): State
    requires p < |s.pcs|
  {
    State(s.c, s.readopen, s.writeopen, s.lock, t, s.pcs[p := pc], s.killed)
  }

  function Moved(s: State, c: Counters, p: nat, pc: Pc): State
    requires p < |s.pcs|
  {
    State(c, s.readopen, s.writeopen, s.lock, s.table, s.pcs[p := pc], s.killed)
  }

  function Wake(s: State, readers: bool, p: nat, pc: Pc): State
    requires p < |s.pcs|
  {
    State(s.c, s.readopen, s.writeopen, s.lock, s.table, Woken(s.pcs, readers)[p := pc], s.killed)
  }

  function GoRead(s: State, p: nat): State
    requires p < |s.pcs| && InRead(s.pcs[p])
  {
    match s.pcs[p]
    case RTest(n) =>
      At(s, p, if Empty(s.c) && s.writeopen then (if p in s.killed then RDone else RSleepTake(n)) else RCopy(n))
    case RSleepTake(n) => Table(s, Some(p), p, RSleepDrop(n))
    case RSleepDrop(n) => Unlocked(s, p, RSleepSet(n))
    case RSleepSet(n) => Table(s, None, p, RAsleep(n))
    case RAsleep(_) => s
    case RWoken(n) => Locked(s, p, RTest(n))
    case RCopy(n) => if n == 0 || Empty(s.c) then At(s, p, RWake) else Moved(s, Take(s.c), p, RCopy(n - 1))
    case RWake => Wake(s, false, p, RDone)
    case RDone => Unlocked(s, p, Idle)
  }

  function GoWrite(s: State, p: nat): State
    requires p < |s.pcs| && InWrite(s.pcs[p])
  {
    match s.pcs[p]
    case WLoop(n) =>
      if n == 0 then At(s, p, WWake)
      else if Full(s.c) then At(s, p, if s.readopen && p !in s.killed then WWakeFull(n) else WDone)
      else Moved(s, Put(s.c), p, WLoop(n - 1))
    case WWakeFull(n) => Wake(s, true, p, WSleepTake(n))
    case WSleepTake(n) => Table(s, Some(p), p, WSleepDrop(n))
    case WSleepDrop(n) => Unlocked(s, p, WSleepSet(n))
    case WSleepSet(n) => Table(s, None, p, WAsleep(n))
    case WAsleep(_) => s
    case WWoken(n) => Locked(s, p, WLoop(n))
    case WWake => Wake(s, true, p, WDone)
    case WDone => Unlocked(s, p, Idle)
  }

  function Next(s: State, st: Step): (s': State)
    requires Enabled(s, st)
    ensures |s'.pcs| == |s.pcs|
  {
    match st
    case StartRead(p, n) => Locked(s, p, RTest(n))
    case StartWrite(p, n) => Locked(s, p, WLoop(n))
    case StartClose(p, w) =>
      State(s.c, if w then s.readopen else false, if w then false else s.writeopen, Some(p), s.table,
            s.pcs[p := CWake(w)], s.killed)
    case Kill(p) =>
      State(s.c, s.readopen, s.writeopen, s.lock, s.table,
            s.pcs[p := WakeReader(WakeWriter(s.pcs[p]))], s.killed + {p})
    case Go(p) =>
      if InRead(s.pcs[p]) then GoRead(s, p)
      else if InWrite(s.pcs[p]) then GoWrite(s, p)
      else if s.pcs[p].CWake? then Wake(s, s.pcs[p].writable, p, CDone)
      else Unlocked(s, p, Idle)
  }

  predicate Runs(s: State, run: seq<Step>, t: State)
    decreases |run|
  {
    if run == [] then s == t else Enabled(s, run[0]) && Runs(Next(s, run[0]), run[1..], t)
  }

  // The invariant.

  /** The holder of the lock will wake the readers, or the writers, before it releases the lock. */
  predicate OwesReaders(s: State) {
    s.lock.Some? && s.lock.value < |s.pcs| &&
    var pc := s.pcs[s.lock.value]; pc.WLoop? || pc.WWakeFull? || pc.WWake? || (pc.CWake? && pc.writable)
  }

  predicate OwesWriters(s: State) {
    s.lock.Some? && s.lock.value < |s.pcs| &&
    var pc := s.pcs[s.lock.value]; pc.RCopy? || pc.RWake? || (pc.CWake? && !pc.writable)
  }

  predicate ProcOk(s: State, p: nat)
    requires p < |s.pcs|
  {
    var pc := s.pcs[p];
    && (Locks(pc) <==> s.lock == Some(p))
    && (LocksTable(pc) <==> s.table == Some(p))
    && (pc.RSleepTake? || pc.RSleepDrop? ==> Empty(s.c) && s.writeopen)
    && (pc.WSleepTake? || pc.WSleepDrop? || pc.WWakeFull? ==> Full(s.c) && s.readopen)
    && (pc.RSleepSet? || pc.RAsleep? ==> (Empty(s.c) && s.writeopen) || OwesReaders(s))
    && (pc.WSleepSet? || pc.WAsleep? ==> (Full(s.c) && s.readopen) || OwesWriters(s))
    && (InRead(pc) ==> s.readopen) && (InWrite(pc) ==> s.writeopen)
  }

  predicate Inv(s: State) {
    && Fit(s.c)
    && (s.lock.Some? ==> s.lock.value < |s.pcs|) && (s.table.Some? ==> s.table.value < |s.pcs|)
    && forall p {:trigger ProcOk(s, p)} :: 0 <= p < |s.pcs| ==> ProcOk(s, p)
  }

  lemma InitialInv(n: nat)
    ensures Inv(Initial(n))
  {
    forall p | 0 <= p < n ensures ProcOk(Initial(n), p) {}
  }

  lemma StartKeeps(s: State, st: Step)
    requires Inv(s) && Enabled(s, st) && !st.Go?
    ensures Inv(Next(s, st))
  {
    var s' := Next(s, st);
    forall q | 0 <= q < |s'.pcs| ensures ProcOk(s', q) { assert ProcOk(s, q); assert ProcOk(s, st.p); }
  }

  lemma CopyKeeps(s: State, p: nat)
    requires Inv(s) && p < |s.pcs| && s.pcs[p].RCopy?
    ensures Inv(GoRead(s, p))
  {
    var s' := GoRead(s, p);
    assert ProcOk(s, p);
    TestsRight(s.c);
    if !Empty(s.c) { TakeUsed(s.c); }
    forall q | 0 <= q < |s'.pcs| ensures ProcOk(s', q) { assert ProcOk(s, q); }
  }

  lemma ReadKeeps(s: State, p: nat)
    requires Inv(s) && Enabled(s, Go(p)) && InRead(s.pcs[p])
    ensures Inv(GoRead(s, p))
  {
    if s.pcs[p].RCopy? {
      CopyKeeps(s, p);
    } else {
      var s' := GoRead(s, p);
      assert ProcOk(s, p);
      forall q | 0 <= q < |s'.pcs| ensures ProcOk(s', q) { assert ProcOk(s, q); }
    }
  }

  /** A reader that has given up the lock and sleeps until it is woken. */
  predicate Dozes(pc: Pc) { pc.RSleepSet? || pc.RAsleep? }

  /** A writer that was killed returns from a full pipe, and a reader dozes. */
  predicate Abandons(s: State, st: Step) {
    && st.Go? && st.p < |s.pcs| && s.pcs[st.p].WLoop? && s.pcs[st.p].n > 0 && Full(s.c) && st.p in s.killed
    && exists q :: 0 <= q < |s.pcs| && Dozes(s.pcs[q])
  }

  lemma LoopKeeps(s: State, p: nat)
    requires Inv(s) && p < |s.pcs| && s.pcs[p].WLoop? && !Abandons(s, Go(p))
    ensures Inv(GoWrite(s, p))
  {
    var s' := GoWrite(s, p);
    assert ProcOk(s, p);
    TestsRight(s.c);
    if !Full(s.c) { PutUsed(s.c); }
    forall q | 0 <= q < |s'.pcs| ensures ProcOk(s', q) { assert ProcOk(s, q); }
  }

  lemma WriteKeeps(s: State, p: nat)
    requires Inv(s) && Enabled(s, Go(p)) && InWrite(s.pcs[p]) && !Abandons(s, Go(p))
    ensures Inv(GoWrite(s, p))
  {
    if s.pcs[p].WLoop? {
      LoopKeeps(s, p);
    } else {
      var s' := GoWrite(s, p);
      assert ProcOk(s, p);
      forall q | 0 <= q < |s'.pcs| ensures ProcOk(s', q) { assert ProcOk(s, q); }
    }
  }

  lemma CloseKeeps(s: State, p: nat)
    requires Inv(s) && Enabled(s, Go(p)) && !InRead(s.pcs[p]) && !InWrite(s.pcs[p])
    ensures Inv(Next(s, Go(p)))
  {
    var s' := Next(s, Go(p));
    assert ProcOk(s, p);
    forall q | 0 <= q < |s'.pcs| ensures ProcOk(s', q) { assert ProcOk(s, q); }
  }

  lemma StepKeeps(s: State, st: Step)
    requires Inv(s) && Enabled(s, st) && !Abandons(s, st)
    ensures Inv(Next(s, st))
  {
    if !st.Go? {
      StartKeeps(s, st);
    } else if InRead(s.pcs[st.p]) {
      ReadKeeps(s, st.p);
    } else if InWrite(s.pcs[st.p]) {
      WriteKeeps(s, st.p);
    } else {
      CloseKeeps(s, st.p);
    }
  }

  /** No sleeper is forgotten: the pipe is as it should be for it to sleep. */
  predicate Rightly(s: State, p: nat)
    requires p < |s.pcs|
  {
    && (s.pcs[p].RAsleep? ==> Used(s.c) == 0 && s.writeopen)
    && (s.pcs[p].WAsleep? ==> Used(s.c) == PIPESIZE && s.readopen)
  }

  lemma InvRightly(s: State, p: nat)
    requires Inv(s) && s.lock.None? && p < |s.pcs|
    ensures Rightly(s, p)
  {
    assert ProcOk(s, p);
    TestsRight(s.c);
  }

  /** The step that abandons a reader is the only one that breaks the invariant, and it does. */
  lemma OnlyAbandoning(s: State, st: Step)
    requires Inv(s) && Enabled(s, st)
    ensures Inv(Next(s, st)) <==> !Abandons(s, st)
  {
    if Abandons(s, st) {
      var q :| 0 <= q < |s.pcs| && Dozes(s.pcs[q]);
      assert ProcOk(s, st.p);
      TestsRight(s.c);
      assert !ProcOk(Next(s, st), q);
    } else {
      StepKeeps(s, st);
    }
  }

  // Runs that abandon no reader.

  /** Every write asks for at most most bytes. */
  predicate WritesAtMost(run: seq<Step>, most: nat) {
    forall k :: 0 <= k < |run| && run[k].StartWrite? ==> run[k].n <= most
  }

  predicate NoKills(run: seq<Step>) {
    forall k :: 0 <= k < |run| ==> !run[k].Kill?
  }

  function Left(pc: Pc): nat {
    if pc.WLoop? || pc.WWakeFull? || pc.WSleepTake? || pc.WSleepDrop? || pc.WSleepSet? || pc.WAsleep? || pc.WWoken?
    then pc.n else 0
  }

  predicate SomeDozes(s: State) { exists q :: 0 <= q < |s.pcs| && Dozes(s.pcs[q]) }

  /** What a writer still has to write is no more than the pipe holds, and fits while a reader dozes. */
  predicate RoomFor(s: State, p: nat)
    requires p < |s.pcs|
  {
    && Left(s.pcs[p]) <= PIPESIZE
    && (s.pcs[p].WLoop? && SomeDozes(s) ==> Used(s.c) + s.pcs[p].n <= PIPESIZE)
  }

  predicate Room(s: State) {
    forall p {:trigger RoomFor(s, p)} :: 0 <= p < |s.pcs| ==> RoomFor(s, p)
  }

  /** A reader dozes while the lock is free only if the pipe is empty. */
  lemma DozesEmpty(s: State)
    requires Inv(s) && s.lock.None? && SomeDozes(s)
    ensures Used(s.c) == 0
  {
    var q :| 0 <= q < |s.pcs| && Dozes(s.pcs[q]);
    assert ProcOk(s, q);
    TestsRight(s.c);
  }

  /** No reader begins to doze while another process has the lock. */
  lemma NoNewDozer(s: State, st: Step, p: nat)
    requires Inv(s) && Enabled(s, st) && s.lock == Some(p) && st.p != p && SomeDozes(Next(s, st))
    ensures SomeDozes(s) && Next(s, st).c == s.c
  {
    var s' := Next(s, st);
    assert ProcOk(s, st.p);
    var q :| 0 <= q < |s'.pcs| && Dozes(s'.pcs[q]);
    assert Dozes(s.pcs[q]);
  }

  /** The step of the writer itself, from the loop to the loop. */
  lemma RoomInLoop(s: State, p: nat)
    requires Inv(s) && p < |s.pcs| && s.pcs[p].WLoop? && RoomFor(s, p)
    ensures !Abandons(s, Go(p)) && RoomFor(GoWrite(s, p), p)
  {
    var s' := GoWrite(s, p);
    TestsRight(s.c);
    assert Abandons(s, Go(p)) ==> SomeDozes(s);
    if !Full(s.c) { PutUsed(s.c); }
    if SomeDozes(s') {
      var q :| 0 <= q < |s'.pcs| && Dozes(s'.pcs[q]);
      assert Dozes(s.pcs[q]);
    }
  }

  /** The step of a process not in the loop. */
  lemma RoomElsewhere(s: State, st: Step)
    requires Inv(s) && Enabled(s, st) && RoomFor(s, st.p) && (st.StartWrite? ==> st.n <= PIPESIZE)
    requires !(st.Go? && s.pcs[st.p].WLoop?)
    ensures RoomFor(Next(s, st), st.p)
  {
    var s' := Next(s, st);
    assert ProcOk(s, st.p);
    if s'.pcs[st.p].WLoop? && SomeDozes(s') {
      var q :| 0 <= q < |s'.pcs| && Dozes(s'.pcs[q]);
      assert Dozes(s.pcs[q]);
      if s.lock.None? {
        DozesEmpty(s);
      }
    }
  }

  /** What a step of another process can make of a process: at most it wakes it. */
  predicate Stays(was: Pc, pc: Pc) { pc == was || pc == WakeReader(was) || pc == WakeWriter(was) }

  lemma ReadStays(s: State, p: nat, q: nat)
    requires p < |s.pcs| && InRead(s.pcs[p]) && q < |s.pcs| && q != p
    ensures Stays(s.pcs[q], GoRead(s, p).pcs[q])
  {
  }

  lemma WriteStays(s: State, p: nat, q: nat)
    requires p < |s.pcs| && InWrite(s.pcs[p]) && q < |s.pcs| && q != p
    ensures Stays(s.pcs[q], GoWrite(s, p).pcs[q])
  {
  }

  lemma OthersStay(s: State, st: Step, q: nat)
    requires Enabled(s, st) && q < |s.pcs| && q != st.p
    ensures Stays(s.pcs[q], Next(s, st).pcs[q])
  {
    if st.Go? && InRead(s.pcs[st.p]) {
      ReadStays(s, st.p, q);
    } else if st.Go? && InWrite(s.pcs[st.p]) {
      WriteStays(s, st.p, q);
    }
  }

  lemma RoomOthers(s: State, st: Step, p: nat)
    requires Inv(s) && Enabled(s, st) && p < |s.pcs| && p != st.p && RoomFor(s, p)
    ensures RoomFor(Next(s, st), p)
  {
    OthersStay(s, st, p);
    assert ProcOk(s, p);
    if s.pcs[p].WLoop? && SomeDozes(Next(s, st)) {
      NoNewDozer(s, st, p);
    }
  }

  lemma RoomKept(s: State, st: Step)
    requires Inv(s) && Enabled(s, st) && Room(s) && (st.StartWrite? ==> st.n <= PIPESIZE)
    ensures !Abandons(s, st) && Room(Next(s, st))
  {
    assert RoomFor(s, st.p);
    if st.Go? && s.pcs[st.p].WLoop? {
      RoomInLoop(s, st.p);
    } else {
      RoomElsewhere(s, st);
    }
    forall p | 0 <= p < |s.pcs| && p != st.p ensures RoomFor(Next(s, st), p) {
      assert RoomFor(s, p);
      RoomOthers(s, st, p);
    }
  }

  lemma {:induction false} SmallWritesKeep(s: State, run: seq<Step>, t: State)
    requires Inv(s) && Room(s) && Runs(s, run, t) && WritesAtMost(run, PIPESIZE)
    ensures Inv(t)
    decreases |run|
  {
    if run != [] {
      RoomKept(s, run[0]);
      StepKeeps(s, run[0]);
      SmallWritesKeep(Next(s, run[0]), run[1..], t);
    }
  }

  lemma {:induction false} NoKillsKeep(s: State, run: seq<Step>, t: State)
    requires Inv(s) && s.killed == {} && Runs(s, run, t) && NoKills(run)
    ensures Inv(t)
    decreases |run|
  {
    if run != [] {
      StepKeeps(s, run[0]);
      NoKillsKeep(Next(s, run[0]), run[1..], t);
    }
  }

  /** No wakeup is lost: in every state of every run in which the pipe's lock is free, a process
      asleep in piperead means an empty pipe with its write end open, and a process asleep in
      pipewrite a full pipe with its read end open; provided that no process is killed, or that no
      write is longer than the pipe. */
  lemma NoLostWakeup(n: nat, run: seq<Step>, s: State, p: nat)
    requires Runs(Initial(n), run, s) && s.lock.None? && p < |s.pcs|
    requires NoKills(run) || WritesAtMost(run, PIPESIZE)
    ensures s.pcs[p].RAsleep? ==> Used(s.c) == 0 && s.writeopen
    ensures s.pcs[p].WAsleep? ==> Used(s.c) == PIPESIZE && s.readopen
  {
    InitialInv(n);
    if NoKills(run) {
      NoKillsKeep(Initial(n), run, s);
    } else {
      forall q | 0 <= q < n ensures RoomFor(Initial(n), q) {
      }
      SmallWritesKeep(Initial(n), run, s);
    }
    InvRightly(s, p);
  }
}
