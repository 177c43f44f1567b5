/** The lock can be had: on every grid, by any processes, one after the other in any order. */
module MaekawaReach {
  import opened Basics
  import opened MaekawaQueue
  import opened MaekawaNode
  import opened MaekawaProtocol
  import opened MaekawaSafety

  /** Process i passes through the lock while the others only vote: asked have its request, granted
      have voted for it, told have its release, box is other mail of its own; served are done. */
  datatype Scene = Scene(
    i: nat, phase: Phase, served: set<nat>, asked: set<nat>, granted: set<nat>, told: set<nat>, box: seq<Msg>)

  ghost function MailOf(s: System, x: Scene, v: nat): seq<Msg>
    requires x.i < |s.stamps|
  {
    (if v in x.asked then [Ask(x.i, At(s.stamps[x.i]))] else if v in x.told then [Release(x.i)] else [])
    + if v == x.i then x.box else []
  }

  ghost predicate Stands(c: Config, s: System, x: Scene, v: nat)
    requires |s.nodes| == |s.phases| == |s.stamps| == |s.mail| == |c.quorums| && x.i < |c.quorums|
    requires v < |c.quorums|
  {
    && s.phases[v] == (if v == x.i then x.phase else if v in x.served then Done else Idle)
    && s.nodes[v].queue.Valid() && s.nodes[v].queue.size == 0 && |s.nodes[v].failed| == |c.quorums|
    && (s.nodes[v].voted <==> v in x.granted)
    && s.mail[v] == MailOf(s, x, v)
  }

  ghost predicate Passing(c: Config, s: System, x: Scene) {
    && GoodConfig(c) && x.i < |c.quorums|
    && |s.nodes| == |s.phases| == |s.stamps| == |s.mail| == |c.quorums|
    && (forall v: nat {:trigger Stands(c, s, x, v)} :: v < |c.quorums| ==> Stands(c, s, x, v))
  }

  ghost predicate CanTake(c: Config, s: System, st: Step) {
    GoodConfig(c) && Shape(c, s) && Enabled(c, s, st) && Safe(c, s, st)
  }

  lemma PassingShape(c: Config, s: System, x: Scene)
    requires Passing(c, s, x)
    ensures Shape(c, s) && GoodRow(c, x.i)
  {
    forall v | 0 <= v < |s.nodes| ensures s.nodes[v].queue.Valid() && |s.nodes[v].failed| == |c.quorums| {
      assert Stands(c, s, x, v);
    }
  }

  // The quorum, as a set.

  /** The first j of a row. */
  function FirstOf(row: seq<nat>, j: nat): (r: set<nat>)
    requires j <= |row|
    ensures forall v :: v in r <==> v in row[..j]
  {
    if j == 0 then {} else
      assert row[..j] == row[..j - 1] + [row[j - 1]];
      FirstOf(row, j - 1) + {row[j - 1]}
  }

  function Row(c: Config, i: nat): set<nat>
    requires i < |c.quorums|
  {
    FirstOf(c.quorums[i], |c.quorums[i]|)
  }

  lemma NextOf(c: Config, i: nat, j: nat)
    requires i < |c.quorums| && GoodRow(c, i) && j < c.k
    ensures var row := c.quorums[i];
            row[j] !in FirstOf(row, j) && FirstOf(row, j + 1) == FirstOf(row, j) + {row[j]} && row[j] < |c.quorums|
  {
  }

  lemma {:induction false} FirstSize(row: seq<nat>, j: nat)
    requires j <= |row| && forall a, b :: 0 <= a < b < |row| ==> row[a] != row[b]
    ensures |FirstOf(row, j)| == j
  {
    if j > 0 {
      FirstSize(row, j - 1);
    }
  }

  lemma RowSize(c: Config, i: nat)
    requires i < |c.quorums| && GoodRow(c, i)
    ensures |Row(c, i)| == c.k && i in Row(c, i) && forall v :: v in Row(c, i) ==> v < |c.quorums|
  {
    FirstSize(c.quorums[i], c.k);
    assert c.quorums[i][..c.k] == c.quorums[i];
  }

  // One step each.

  lemma Starts(c: Config, s: System, x: Scene, time: real)
    requires Passing(c, s, x) && x.phase == Idle && x.asked == x.granted == x.told == {} && x.box == []
    ensures CanTake(c, s, Start(x.i, time))
    ensures var t := Apply(c, s, Start(x.i, time));
            Passing(c, t, x.(phase := Sending(0))) && t.nodes[x.i].count == 0
  {
    PassingShape(c, s, x);
    assert Stands(c, s, x, x.i);
    var t, y := Apply(c, s, Start(x.i, time)), x.(phase := Sending(0));
    forall v: nat | v < |c.quorums| ensures Stands(c, t, y, v) {
      assert Stands(c, s, x, v);
    }
  }

  /** One more request is sent. */
  lemma Asks(c: Config, s: System, x: Scene, j: nat)
    requires Passing(c, s, x) && x.phase == Sending(j) && j < c.k && x.granted == x.told == {} && x.box == []
    requires j <= |c.quorums[x.i]| && x.asked == FirstOf(c.quorums[x.i], j)
    ensures CanTake(c, s, SendRequest(x.i)) && |c.quorums[x.i]| == c.k
    ensures var t := Apply(c, s, SendRequest(x.i));
            && Passing(c, t, x.(phase := if j + 1 == c.k then Waiting else Sending(j + 1),
                                asked := FirstOf(c.quorums[x.i], j + 1)))
            && t.nodes == s.nodes
  {
    PassingShape(c, s, x);
    NextOf(c, x.i, j);
    assert Stands(c, s, x, x.i);
    var t := Apply(c, s, SendRequest(x.i));
    var y := x.(phase := if j + 1 == c.k then Waiting else Sending(j + 1), asked := FirstOf(c.quorums[x.i], j + 1));
    forall v: nat | v < |c.quorums| ensures Stands(c, t, y, v) {
      assert Stands(c, s, x, v);
    }
  }

  /** A voter with the request at hand grants it. */
  lemma Votes(c: Config, s: System, x: Scene, v: nat)
    requires Passing(c, s, x) && x.phase == Waiting && x.told == {} && x.box == []
    requires v < |c.quorums| && v in x.asked && v !in x.granted && (v == x.i || x.i !in x.asked)
    requires s.nodes[x.i].count < c.k
    ensures CanTake(c, s, Receive(v))
    ensures var t := Apply(c, s, Receive(v));
            && Passing(c, t, x.(asked := x.asked - {v}, granted := x.granted + {v}, box := [Locked(v)]))
            && t.nodes[x.i].count == s.nodes[x.i].count
  {
    PassingShape(c, s, x);
    assert Stands(c, s, x, v) && Stands(c, s, x, x.i);
    var t := Apply(c, s, Receive(v));
    var y := x.(asked := x.asked - {v}, granted := x.granted + {v}, box := [Locked(v)]);
    forall w: nat | w < |c.quorums| ensures Stands(c, t, y, w) {
      assert Stands(c, s, x, w);
    }
  }

  /** The process counts the vote. */
  lemma Counts(c: Config, s: System, x: Scene, v: nat)
    requires Passing(c, s, x) && x.phase == Waiting && x.told == {} && x.box == [Locked(v)] && x.i !in x.asked
    requires v < |c.quorums| && s.nodes[x.i].count < c.k
    ensures CanTake(c, s, Receive(x.i))
    ensures var t := Apply(c, s, Receive(x.i));
            Passing(c, t, x.(box := [])) && t.nodes[x.i].count == s.nodes[x.i].count + 1
  {
    PassingShape(c, s, x);
    assert Stands(c, s, x, x.i);
    var t, y := Apply(c, s, Receive(x.i)), x.(box := []);
    forall w: nat | w < |c.quorums| ensures Stands(c, t, y, w) {
      assert Stands(c, s, x, w);
    }
  }

  lemma Enters(c: Config, s: System, x: Scene)
    requires Passing(c, s, x) && x.phase == Waiting && x.i in x.granted && s.nodes[x.i].count >= c.k
    ensures CanTake(c, s, Enter(x.i)) && Passing(c, Apply(c, s, Enter(x.i)), x.(phase := InCS))
  {
    PassingShape(c, s, x);
    assert Stands(c, s, x, x.i);
    var t, y := Apply(c, s, Enter(x.i)), x.(phase := InCS);
    forall w: nat | w < |c.quorums| ensures Stands(c, t, y, w) {
      assert Stands(c, s, x, w);
    }
  }

  lemma Leaves(c: Config, s: System, x: Scene)
    requires Passing(c, s, x) && x.phase == InCS
    ensures CanTake(c, s, Leave(x.i)) && Passing(c, Apply(c, s, Leave(x.i)), x.(phase := Releasing(0)))
  {
    PassingShape(c, s, x);
    assert Stands(c, s, x, x.i);
    var t, y := Apply(c, s, Leave(x.i)), x.(phase := Releasing(0));
    forall w: nat | w < |c.quorums| ensures Stands(c, t, y, w) {
      assert Stands(c, s, x, w);
    }
  }

  lemma Tells(c: Config, s: System, x: Scene, j: nat)
    requires Passing(c, s, x) && x.phase == Releasing(j) && j < c.k && x.asked == {} && x.box == []
    requires j <= |c.quorums[x.i]| && x.told == FirstOf(c.quorums[x.i], j)
    ensures CanTake(c, s, SendRelease(x.i)) && |c.quorums[x.i]| == c.k
    ensures Passing(c, Apply(c, s, SendRelease(x.i)),
                    x.(phase := if j + 1 == c.k then Done else Releasing(j + 1),
                       told := FirstOf(c.quorums[x.i], j + 1)))
  {
    PassingShape(c, s, x);
    NextOf(c, x.i, j);
    assert Stands(c, s, x, x.i);
    var t := Apply(c, s, SendRelease(x.i));
    var y := x.(phase := if j + 1 == c.k then Done else Releasing(j + 1), told := FirstOf(c.quorums[x.i], j + 1));
    forall v: nat | v < |c.quorums| ensures Stands(c, t, y, v) {
      assert Stands(c, s, x, v);
    }
  }

  /** A voter takes its vote back. */
  lemma Frees(c: Config, s: System, x: Scene, v: nat)
    requires Passing(c, s, x) && x.phase == Done && x.asked == {} && x.box == []
    requires v < |c.quorums| && v in x.told
    ensures CanTake(c, s, Receive(v))
    ensures Passing(c, Apply(c, s, Receive(v)), x.(told := x.told - {v}, granted := x.granted - {v}))
  {
    PassingShape(c, s, x);
    assert Stands(c, s, x, v);
    var t, y := Apply(c, s, Receive(v)), x.(told := x.told - {v}, granted := x.granted - {v});
    forall w: nat | w < |c.quorums| ensures Stands(c, t, y, w) {
      assert Stands(c, s, x, w);
    }
  }

  // Runs, and who enters in them.

  /** The processes that enter the critical section in a run, in order. */
  function Entries(run: seq<Step>): seq<nat> {
    if run == [] then [] else (if run[0].Enter? then [run[0].i] else []) + Entries(run[1..])
  }

  lemma RunOn(c: Config, s: System, st: Step, run: seq<Step>, t: System)
    requires CanTake(c, s, st) && Runs(c, Apply(c, s, st), run, t)
    ensures Runs(c, s, [st] + run, t)
    ensures Entries([st] + run) == (if st.Enter? then [st.i] else []) + Entries(run)
  {
    assert ([st] + run)[1..] == run;
  }

  lemma {:induction false} EntriesConcat(a: seq<Step>, b: seq<Step>)
    ensures Entries(a + b) == Entries(a) + Entries(b)
    decreases |a|
  {
    if a == [] {
      assert a + b == b;
    } else {
      var first := if a[0].Enter? then [a[0].i] else [];
      assert (a + b)[0] == a[0] && (a + b)[1..] == a[1..] + b;
      EntriesConcat(a[1..], b);
      assert first + (Entries(a[1..]) + Entries(b)) == first + Entries(a[1..]) + Entries(b);
    }
  }

  lemma {:induction false} RunsBoth(c: Config, s: System, a: seq<Step>, t: System, b: seq<Step>, u: System)
    requires Runs(c, s, a, t) && Runs(c, t, b, u)
    ensures Runs(c, s, a + b, u)
    decreases |a|
  {
    if a == [] {
      assert a + b == b;
    } else {
      RunsBoth(c, Apply(c, s, a[0]), a[1..], t, b, u);
      RunOn(c, s, a[0], a[1..] + b, u);
      assert a + b == [a[0]] + (a[1..] + b);
    }
  }

  lemma RunsConcat(c: Config, s: System, a: seq<Step>, t: System, b: seq<Step>, u: System)
    requires Runs(c, s, a, t) && Runs(c, t, b, u)
    ensures Runs(c, s, a + b, u) && Entries(a + b) == Entries(a) + Entries(b)
  {
    RunsBoth(c, s, a, t, b, u);
    EntriesConcat(a, b);
  }

  lemma {:induction false} AskAll(c: Config, s: System, x: Scene, j: nat) returns (run: seq<Step>, t: System)
    requires Passing(c, s, x) && x.phase == Sending(j) && j < c.k && x.granted == x.told == {} && x.box == []
    requires j <= |c.quorums[x.i]| && x.asked == FirstOf(c.quorums[x.i], j) && s.nodes[x.i].count == 0
    ensures Runs(c, s, run, t) && Entries(run) == []
    ensures Passing(c, t, x.(phase := Waiting, asked := Row(c, x.i))) && t.nodes[x.i].count == 0
    decreases c.k - j
  {
    Asks(c, s, x, j);
    t := Apply(c, s, SendRequest(x.i));
    run := [];
    if j + 1 < c.k {
      run, t := AskAll(c, t, x.(phase := Sending(j + 1), asked := FirstOf(c.quorums[x.i], j + 1)), j + 1);
    }
    RunOn(c, s, SendRequest(x.i), run, t);
    run := [SendRequest(x.i)] + run;
  }

  /** Of the quorum, some have voted, the process itself first. */
  predicate Parted(row: set<nat>, i: nat, asked: set<nat>, granted: set<nat>) {
    asked !! granted && asked + granted == row && (granted == {} || i in granted)
  }

  lemma PartedNext(row: set<nat>, i: nat, asked: set<nat>, granted: set<nat>, v: nat)
    requires Parted(row, i, asked, granted) && v in asked && (v == i || granted != {})
    ensures Parted(row, i, asked - {v}, granted + {v})
    ensures v in row && v !in granted && (v == i || i !in asked)
    ensures |granted + {v}| == |granted| + 1 <= |row|
  {
    SubsetSize(granted + {v}, row);
  }

  ghost predicate Gathering(c: Config, s: System, x: Scene) {
    && Passing(c, s, x) && x.phase == Waiting && x.told == {} && x.box == []
    && Parted(Row(c, x.i), x.i, x.asked, x.granted) && s.nodes[x.i].count == |x.granted|
  }

  /** One more vote is granted and counted. */
  lemma OneVote(c: Config, s: System, x: Scene, v: nat) returns (run: seq<Step>, t: System)
    requires Gathering(c, s, x) && v in x.asked && (v == x.i || x.granted != {})
    ensures Runs(c, s, run, t) && Entries(run) == []
    ensures Gathering(c, t, x.(asked := x.asked - {v}, granted := x.granted + {v}))
  {
    PassingShape(c, s, x);
    RowSize(c, x.i);
    PartedNext(Row(c, x.i), x.i, x.asked, x.granted, v);
    Votes(c, s, x, v);
    var s' := Apply(c, s, Receive(v));
    var y := x.(asked := x.asked - {v}, granted := x.granted + {v}, box := [Locked(v)]);
    Counts(c, s', y, v);
    t := Apply(c, s', Receive(x.i));
    assert Runs(c, t, [], t);
    RunOn(c, s', Receive(x.i), [], t);
    run := [Receive(x.i)] + [];
    RunOn(c, s, Receive(v), run, t);
    run := [Receive(v)] + run;
  }

  lemma {:induction false} GatherAll(c: Config, s: System, x: Scene) returns (run: seq<Step>, t: System)
    requires Gathering(c, s, x)
    ensures Runs(c, s, run, t) && Entries(run) == []
    ensures Gathering(c, t, x.(asked := {}, granted := Row(c, x.i)))
    decreases |x.asked|
  {
    if x.asked == {} {
      run, t := [], s;
    } else {
      PassingShape(c, s, x);
      RowSize(c, x.i);
      assert x.granted == {} ==> x.asked == Row(c, x.i);
      var v: nat :| v in x.asked && (v == x.i || x.granted != {});
      var one, s' := OneVote(c, s, x, v);
      run, t := GatherAll(c, s', x.(asked := x.asked - {v}, granted := x.granted + {v}));
      RunsConcat(c, s, one, s', run, t);
      run := one + run;
    }
  }

  lemma {:induction false} TellAll(c: Config, s: System, x: Scene, j: nat) returns (run: seq<Step>, t: System)
    requires Passing(c, s, x) && x.phase == Releasing(j) && j < c.k && x.asked == {} && x.box == []
    requires j <= |c.quorums[x.i]| && x.told == FirstOf(c.quorums[x.i], j)
    ensures Runs(c, s, run, t) && Entries(run) == []
    ensures Passing(c, t, x.(phase := Done, told := Row(c, x.i)))
    decreases c.k - j
  {
    Tells(c, s, x, j);
    t := Apply(c, s, SendRelease(x.i));
    run := [];
    if j + 1 < c.k {
      run, t := TellAll(c, t, x.(phase := Releasing(j + 1), told := FirstOf(c.quorums[x.i], j + 1)), j + 1);
    }
    RunOn(c, s, SendRelease(x.i), run, t);
    run := [SendRelease(x.i)] + run;
  }

  lemma {:induction false} FreeAll(c: Config, s: System, x: Scene) returns (run: seq<Step>, t: System)
    requires Passing(c, s, x) && x.phase == Done && x.asked == {} && x.box == [] && x.told == x.granted <= Row(c, x.i)
    ensures Runs(c, s, run, t) && Entries(run) == []
    ensures Passing(c, t, x.(told := {}, granted := {}))
    decreases |x.told|
  {
    if x.told == {} {
      run, t := [], s;
    } else {
      PassingShape(c, s, x);
      RowSize(c, x.i);
      var v: nat :| v in x.told;
      Frees(c, s, x, v);
      var s' := Apply(c, s, Receive(v));
      run, t := FreeAll(c, s', x.(told := x.told - {v}, granted := x.granted - {v}));
      RunOn(c, s, Receive(v), run, t);
      run := [Receive(v)] + run;
    }
  }

  // A whole pass.

  ghost function Before(i: nat, served: set<nat>): Scene { Scene(i, Idle, served, {}, {}, {}, []) }

  /** From a state at rest a process can get the lock. */
  lemma Acquire(c: Config, s: System, i: nat, served: set<nat>) returns (run: seq<Step>, t: System)
    requires Passing(c, s, Before(i, served))
    ensures Runs(c, s, run, t) && Entries(run) == [i]
    ensures Passing(c, t, Before(i, served).(phase := InCS, granted := Row(c, i)))
  {
    var x := Before(i, served);
    PassingShape(c, s, x);
    RowSize(c, i);
    Starts(c, s, x, 0.0);
    var s1 := Apply(c, s, Start(i, 0.0));
    var asks, s2 := AskAll(c, s1, x.(phase := Sending(0)), 0);
    var votes, s3 := GatherAll(c, s2, x.(phase := Waiting, asked := Row(c, i)));
    Enters(c, s3, x.(phase := Waiting, granted := Row(c, i)));
    t := Apply(c, s3, Enter(i));
    assert Runs(c, t, [], t);
    RunOn(c, s3, Enter(i), [], t);
    RunsConcat(c, s2, votes, s3, [Enter(i)] + [], t);
    RunsConcat(c, s1, asks, s2, votes + ([Enter(i)] + []), t);
    run := asks + (votes + ([Enter(i)] + []));
    RunOn(c, s, Start(i, 0.0), run, t);
    run := [Start(i, 0.0)] + run;
  }

  /** After the release all is at rest again. */
  lemma GiveBack(c: Config, s: System, i: nat, served: set<nat>) returns (run: seq<Step>, t: System)
    requires i < |c.quorums| && Passing(c, s, Before(i, served).(phase := InCS, granted := Row(c, i)))
    ensures Runs(c, s, run, t) && Entries(run) == []
    ensures Passing(c, t, Before(i, served).(phase := Done))
  {
    var x := Before(i, served).(phase := InCS, granted := Row(c, i));
    Leaves(c, s, x);
    var s1 := Apply(c, s, Leave(i));
    var tells, s2 := TellAll(c, s1, x.(phase := Releasing(0)), 0);
    var frees, s3 := FreeAll(c, s2, x.(phase := Done, told := Row(c, i)));
    t := s3;
    RunsConcat(c, s1, tells, s2, frees, s3);
    run := tells + frees;
    RunOn(c, s, Leave(i), run, t);
    run := [Leave(i)] + run;
  }

  /** At rest, it does not matter whose pass is over or whose is next. */
  lemma NextPass(c: Config, s: System, i: nat, served: set<nat>, j: nat)
    requires Passing(c, s, Before(i, served).(phase := Done)) && j < |c.quorums| && j != i && j !in served
    ensures Passing(c, s, Before(j, served + {i}))
  {
    var x, y := Before(i, served).(phase := Done), Before(j, served + {i});
    forall v: nat | v < |c.quorums| ensures Stands(c, s, y, v) {
      assert Stands(c, s, x, v);
    }
  }

  predicate Order(order: seq<nat>, p: nat, served: set<nat>) {
    && (forall a :: 0 <= a < |order| ==> order[a] < p && order[a] !in served)
    && (forall a, b :: 0 <= a < b < |order| ==> order[a] != order[b])
  }

  /** A process gets the lock and gives it back; process j is next. */
  lemma OnePass(c: Config, s: System, i: nat, served: set<nat>, j: nat) returns (run: seq<Step>, t: System)
    requires Passing(c, s, Before(i, served)) && j < |c.quorums| && j != i && j !in served
    ensures Runs(c, s, run, t) && Entries(run) == [i] && Passing(c, t, Before(j, served + {i}))
  {
    var a, s1 := Acquire(c, s, i, served);
    var b, s2 := GiveBack(c, s1, i, served);
    NextPass(c, s2, i, served, j);
    RunsConcat(c, s, a, s1, b, s2);
    run, t := a + b, s2;
  }

  lemma {:induction false} OneAfterOther(c: Config, s: System, order: seq<nat>, served: set<nat>)
    returns (run: seq<Step>, t: System)
    requires order != [] && Passing(c, s, Before(order[0], served)) && Order(order, |c.quorums|, served)
    ensures Runs(c, s, run, t) && Entries(run) == order
    decreases |order|
  {
    if |order| == 1 {
      run, t := Acquire(c, s, order[0], served);
      assert order == [order[0]];
    } else {
      var first, s1 := OnePass(c, s, order[0], served, order[1]);
      var rest;
      rest, t := OneAfterOther(c, s1, order[1..], served + {order[0]});
      RunsConcat(c, s, first, s1, rest, t);
      run := first + rest;
      assert order == [order[0]] + order[1..];
    }
  }

  /** On every grid, and for any processes in any order, there is a run in which exactly these get the
      lock, in this order. */
  lemma LockReachable(n: nat, s: System, order: seq<nat>) returns (run: seq<Step>, t: System)
    requires 0 < n && 2 * n < MAXQ && Initial(Grid(n), s) && Order(order, n * n, {})
    ensures Runs(Grid(n), s, run, t) && Entries(run) == order
  {
    var c := Grid(n);
    GridIsGood(n);
    if order == [] {
      run, t := [], s;
    } else {
      var x := Before(order[0], {});
      forall v: nat | v < |c.quorums| ensures Stands(c, s, x, v) {
      }
      run, t := OneAfterOther(c, s, order, {});
    }
  }
}
