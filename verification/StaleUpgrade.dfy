/** A run of three or more caches in which a promotion to all-shared makes the home node grant an upgrade,
    without data, over a copy that another store made stale: thread 0 asks for an upgrade, thread 1 writes
    first, all others read, the vector is promoted, and then the upgrade is served. So which options allow
    such a run. */
module StaleUpgrade {
  import opened Protocol
  import opened Coherence
  import opened UpgradeData

  /** sharer_threshold is fixed at the start, so every exchange of a run uses the same. */
  ghost predicate Uniform(steps: seq<Step>, threshold: nat) {
    forall i :: 0 <= i < |steps| && steps[i].Yield? ==> steps[i].threshold == threshold
  }

  /** The states that the runs with this threshold reach. */
  ghost function Reachable(n: nat, threshold: nat): iset<State> {
    iset steps | Uniform(steps, threshold) :: Run(n, steps)
  }

  /** What the run below needs to know of them. */
  ghost predicate Closed(all: iset<State>, n: nat, threshold: nat) {
    && Start(n) in all
    && forall s: State, step: Step :: s in all && (step.Yield? ==> step.threshold == threshold) ==> Next(s, step) in all
  }

  lemma ReachableClosed(n: nat, threshold: nat)
    ensures Closed(Reachable(n, threshold), n, threshold)
  {
    assert Run(n, []) == Start(n) && Uniform([], threshold);
    forall s: State, step: Step | s in Reachable(n, threshold) && (step.Yield? ==> step.threshold == threshold)
      ensures Next(s, step) in Reachable(n, threshold)
    {
      var steps :| Uniform(steps, threshold) && Run(n, steps) == s;
      assert (steps + [step])[..|steps|] == steps;
      assert Run(n, steps + [step]) == Next(s, step) && Uniform(steps + [step], threshold);
    }
  }

  lemma Go(n: nat, th: nat, all: iset<State>, s: State, step: Step)
    requires Closed(all, n, th) && s in all && (step.Yield? ==> step.threshold == th)
    ensures Next(s, step) in all
  {
  }

  const Hit := Env(true, true, true, None)
  const LineE := L1Line(true, false, Exclusive)
  const LineS := L1Line(true, false, Shared)
  const LineM := L1Line(true, true, Modified)
  const Dropped := L1Line(false, false, Shared)
  const Absent := Node(NoLine, false, [], [], None)

  function Ask(t: nat, op: Op): Request { Request(t, op, false, false) }

  ghost function At(s: State, t: nat, nd: Node): State
    requires t < |s.nodes|
  {
    s.(nodes := s.nodes[t := nd])
  }

  /** A miss on an idle line, up to the home node's queue. */
  lemma Queue(n: nat, th: nat, all: iset<State>, s: State, t: nat, write: bool)
    requires Closed(all, n, th)
    requires s in all && t < |s.nodes| && s.nodes[t] == Absent
    ensures At(s, t, Absent.(waiting := true, parked := Some(Ask(t, if write then MissWrite else MissRead)))) in all
  {
    var m := Req(Ask(t, if write then MissWrite else MissRead));
    var step := if write then Store(t) else Load(t);
    Go(n, th, all, s, step);
    var nd1 := Absent.(waiting := true, up := [m]);
    assert [] + [m] == [m];
    assert Next(s, step) == At(s, t, nd1);
    Enqueue(n, th, all, At(s, t, nd1), t);
    assert [m][1..] == [];
    assert At(At(s, t, nd1), t, nd1.(up := [], parked := Some(m.req))) == At(s, t, Absent.(waiting := true, parked := Some(m.req)));
  }

  lemma Enqueue(n: nat, th: nat, all: iset<State>, s: State, t: nat)
    requires Closed(all, n, th)
    requires s in all && t < |s.nodes| && s.nodes[t].up != [] && s.nodes[t].up[0].Req?
    ensures At(s, t, s.nodes[t].(up := s.nodes[t].up[1..], parked := Some(s.nodes[t].up[0].req))) in all
  {
    Go(n, th, all, s, Arrive(t, Hit));
    assert Next(s, Arrive(t, Hit)) == At(s, t, s.nodes[t].(up := s.nodes[t].up[1..], parked := Some(s.nodes[t].up[0].req)));
  }

  lemma Answer(n: nat, th: nat, all: iset<State>, s: State, t: nat, e: Entry, out: Outcome)
    requires Closed(all, n, th)
    requires s in all && t < |s.nodes| && s.nodes[t].parked.Some?
    requires (e, out) == if s.nodes[t].parked.value.op.MissRead? then ServeRead(s.entry, s.nodes[t].parked.value, Hit)
                         else ServeWrite(s.entry, s.nodes[t].parked.value, Hit, |s.nodes|)
    ensures Apply(At(s, t, s.nodes[t].(parked := None)).(entry := e), t, out) in all
  {
    Go(n, th, all, s, Serve(t, Hit));
  }

  /** A grant reaches an L1 that has nothing else coming. */
  lemma Filled(n: nat, th: nat, all: iset<State>, s: State, t: nat, g: GrantKind, rest: seq<Down>)
    requires Closed(all, n, th)
    requires s in all && t < |s.nodes| && s.nodes[t].down == [Grant(g)] + rest
    ensures At(s, t, s.nodes[t].(line := Fill(g), waiting := false, down := rest)) in all
  {
    Go(n, th, all, s, Receive(t));
    assert s.nodes[t].down[1..] == rest;
  }

  lemma Answered(n: nat, th: nat, all: iset<State>, s: State, t: nat, k: ProbeKind, w: bool)
    requires Closed(all, n, th)
    requires s in all && t < |s.nodes| && s.nodes[t].down == [Probe(k, w)]
    ensures var nd := s.nodes[t];
            At(s, t, nd.(line := Probed(nd.line, k), down := [], up := nd.up + [Ack(k, nd.line.valid, w)])) in all
  {
    Go(n, th, all, s, Receive(t));
    assert s.nodes[t].down[1..] == [];
  }

  lemma Acked(n: nat, th: nat, all: iset<State>, s: State, t: nat, e: Entry, out: Outcome)
    requires Closed(all, n, th)
    requires s in all && t < |s.nodes| && s.nodes[t].up != [] && s.nodes[t].up[0].Ack?
    requires Holder(s.lock).Some? && Holder(s.lock).value.tid < |s.nodes|
    requires var m := s.nodes[t].up[0];
             match s.lock
             case Probing(req, _) => (e, out) == TakeReadAck(s.entry, req, t, m.hit, Hit)
             case Invalidating(req, k) => k > 0 && (e, out) == TakeWriteAck(s.entry, req, t, m.hit, m.wantsData, k - 1, Hit)
             case _ => false
    ensures Apply(At(s, t, s.nodes[t].(up := s.nodes[t].up[1..])).(entry := e), Holder(s.lock).value.tid, out) in all
  {
    Go(n, th, all, s, Arrive(t, Hit));
  }

  /** The first three of n threads take part in the first half of the run. */
  ghost function Three(n: nat, a: Node, b: Node, c: Node, e: Entry, l: Lock, current: set<nat>): State
    requires n >= 3
  {
    State([a, b, c] + seq(n - 3, _ => Absent), e, l, false, current, false)
  }

  lemma ThreeAt(n: nat, a: Node, b: Node, c: Node, e: Entry, l: Lock, current: set<nat>, x: Node)
    requires n >= 3
    ensures At(Three(n, a, b, c, e, l, current), 0, x) == Three(n, x, b, c, e, l, current)
    ensures At(Three(n, a, b, c, e, l, current), 1, x) == Three(n, a, x, c, e, l, current)
    ensures At(Three(n, a, b, c, e, l, current), 2, x) == Three(n, a, b, x, e, l, current)
  {
  }

  const Idle := Entry({}, true, Invalid, -1, false, false)
  const Sole := Entry({0}, true, Exclusive, -1, false, false)
  const Both := Entry({0, 2}, true, Shared, -1, false, false)

  function Quiet(l: L1Line): Node { Absent.(line := l) }

  const Pend := Absent.(waiting := true)

  /** Thread 0 reads, alone. */
  lemma FirstRead(n: nat, th: nat, all: iset<State>)
    requires Closed(all, n, th)
    requires n >= 3
    ensures Three(n, Quiet(LineE), Absent, Absent, Sole, Free, {}) in all
  {
    var s0 := Three(n, Absent, Absent, Absent, Idle, Free, {});
    assert Start(n).nodes == s0.nodes;
    assert Run(n, []) == s0;
    Queue(n, th, all, s0, 0, false);
    var q := Pend.(parked := Some(Ask(0, MissRead)));
    ThreeAt(n, Absent, Absent, Absent, Idle, Free, {}, q);
    var s1 := Three(n, q, Absent, Absent, Idle, Free, {});
    assert Idle.sharers - {0} == {};
    Answer(n, th, all, s1, 0, Sole, Reply(GrantExclusive));
    ThreeAt(n, q, Absent, Absent, Sole, Free, {}, Pend);
    var g := Pend.(down := [Grant(GrantExclusive)]);
    assert [] + [Grant(GrantExclusive)] == [Grant(GrantExclusive)];
    ThreeAt(n, Pend, Absent, Absent, Sole, Free, {}, g);
    var s2 := Three(n, g, Absent, Absent, Sole, Free, {});
    Filled(n, th, all, s2, 0, GrantExclusive, []);
    ThreeAt(n, g, Absent, Absent, Sole, Free, {}, Quiet(LineE));
  }

  const Asking2 := Ask(2, MissRead)

  /** Thread 2 asks to read; the home node probes thread 0. */
  lemma SecondReadProbes(n: nat, th: nat, all: iset<State>)
    requires Closed(all, n, th)
    requires n >= 3
    ensures Three(n, Quiet(LineE).(down := [Probe(InvRead, false)]), Absent, Pend,
                  Sole.(stable := false), Probing(Asking2, 0), {}) in all
  {
    FirstRead(n, th, all);
    var s0 := Three(n, Quiet(LineE), Absent, Absent, Sole, Free, {});
    Queue(n, th, all, s0, 2, false);
    var q := Pend.(parked := Some(Asking2));
    ThreeAt(n, Quiet(LineE), Absent, Absent, Sole, Free, {}, q);
    var s1 := Three(n, Quiet(LineE), Absent, q, Sole, Free, {});
    assert Sole.sharers - {2} == {0};
    assert ForgetRequester(Sole, 2) == Sole;
    Answer(n, th, all, s1, 2, Sole.(stable := false), ProbeOwner(Asking2, 0));
    ThreeAt(n, Quiet(LineE), Absent, q, Sole.(stable := false), Free, {}, Pend);
    var p := Quiet(LineE).(down := [Probe(InvRead, false)]);
    assert [] + [Probe(InvRead, false)] == [Probe(InvRead, false)];
    ThreeAt(n, Quiet(LineE), Absent, Pend, Sole.(stable := false), Free, {}, p);
  }

  lemma SecondRead(n: nat, th: nat, all: iset<State>)
    requires Closed(all, n, th)
    requires n >= 3
    ensures Three(n, Quiet(LineS), Absent, Quiet(LineS), Both, Free, {}) in all
  {
    SecondReadProbes(n, th, all);
    var p := Quiet(LineE).(down := [Probe(InvRead, false)]);
    var e := Sole.(stable := false);
    var lock := Probing(Asking2, 0);
    var s0 := Three(n, p, Absent, Pend, e, lock, {});
    Answered(n, th, all, s0, 0, InvRead, false);
    var a := Quiet(LineS).(up := [Ack(InvRead, true, false)]);
    assert [] + [Ack(InvRead, true, false)] == [Ack(InvRead, true, false)];
    ThreeAt(n, p, Absent, Pend, e, lock, {}, a);
    var s1 := Three(n, a, Absent, Pend, e, lock, {});
    assert Both.sharers == e.sharers + {2};
    Acked(n, th, all, s1, 0, Both, Reply(GrantShared));
    assert [Ack(InvRead, true, false)][1..] == [];
    ThreeAt(n, a, Absent, Pend, Both, lock, {}, Quiet(LineS));
    var g := Pend.(down := [Grant(GrantShared)]);
    assert [] + [Grant(GrantShared)] == [Grant(GrantShared)];
    ThreeAt(n, Quiet(LineS), Absent, Pend, Both, lock, {}, g);
    var s2 := Three(n, Quiet(LineS), Absent, g, Both, Free, {});
    Filled(n, th, all, s2, 2, GrantShared, []);
    ThreeAt(n, Quiet(LineS), Absent, g, Both, Free, {}, Quiet(LineS));
  }

  const Upgrading := Pend.(line := Dropped, up := [Req(Ask(0, WriteUpdate))])

  /** Thread 0 drops its line for an upgrade. */
  lemma Drops(n: nat, th: nat, all: iset<State>)
    requires Closed(all, n, th)
    requires n >= 3
    ensures Three(n, Upgrading, Absent, Quiet(LineS), Both, Free, {0}) in all
  {
    SecondRead(n, th, all);
    var s0 := Three(n, Quiet(LineS), Absent, Quiet(LineS), Both, Free, {});
    Go(n, th, all, s0, Store(0));
    assert [] + [Req(Ask(0, WriteUpdate))] == [Req(Ask(0, WriteUpdate))];
    ThreeAt(n, Quiet(LineS), Absent, Quiet(LineS), Both, Free, {}, Upgrading);
    assert {} + {0} == {0};
    assert Next(s0, Store(0)) == Three(n, Upgrading, Absent, Quiet(LineS), Both, Free, {0});
  }

  const Asking1 := Ask(1, MissWrite)
  const Hunted := Invalidating(Asking1, 2)

  /** Thread 1's store is served before the upgrade has arrived. */
  lemma Overtaken(n: nat, th: nat, all: iset<State>)
    requires Closed(all, n, th)
    requires n >= 3
    ensures Three(n, Upgrading.(down := [Probe(InvWrite, false)]), Pend, Quiet(LineS).(down := [Probe(InvWrite, false)]),
                  Both.(stable := false), Hunted, {0}) in all
  {
    Drops(n, th, all);
    var s0 := Three(n, Upgrading, Absent, Quiet(LineS), Both, Free, {0});
    Queue(n, th, all, s0, 1, true);
    var q := Pend.(parked := Some(Asking1));
    ThreeAt(n, Upgrading, Absent, Quiet(LineS), Both, Free, {0}, q);
    var s1 := Three(n, Upgrading, q, Quiet(LineS), Both, Free, {0});
    var e := Both.(stable := false);
    StoreOutcome(n);
    ThreeAt(n, Upgrading, q, Quiet(LineS), e, Free, {0}, Pend);
    StoreHunts(n);
    Answer(n, th, all, s1, 1, e, Invalidate(Asking1, {0, 2}, -1));
  }

  lemma StoreOutcome(n: nat)
    ensures ServeWrite(Both, Asking1, Hit, n) == (Both.(stable := false), Invalidate(Asking1, {0, 2}, -1))
  {
    assert Both.sharers - {1} == {0, 2};
  }

  lemma StoreHunts(n: nat)
    requires n >= 3
    ensures Apply(Three(n, Upgrading, Pend, Quiet(LineS), Both.(stable := false), Free, {0}), 1, Invalidate(Asking1, {0, 2}, -1))
         == Three(n, Upgrading.(down := [Probe(InvWrite, false)]), Pend, Quiet(LineS).(down := [Probe(InvWrite, false)]),
                  Both.(stable := false), Hunted, {0})
  {
    var targets: set<nat> := {0, 2};
    assert |targets| == 2;
    Hunt(Three(n, Upgrading, Pend, Quiet(LineS), Both.(stable := false), Free, {0}).nodes, Upgrading, Pend, Quiet(LineS));
  }

  lemma Hunt(nodes: seq<Node>, a: Node, b: Node, c: Node)
    requires |nodes| >= 3 && nodes[..3] == [a, b, c] && a.down == [] && c.down == []
    ensures SendInvalidations(nodes, {0, 2}, -1) ==
            [a.(down := [Probe(InvWrite, false)]), b, c.(down := [Probe(InvWrite, false)])] + nodes[3..]
  {
    assert [] + [Probe(InvWrite, false)] == [Probe(InvWrite, false)];
  }

  const MissAck := Ack(InvWrite, false, false)
  const HitAck := Ack(InvWrite, true, false)
  const Upgrade0 := Ask(0, WriteUpdate)

  /** Both probes are answered; the upgrade request has arrived as well. */
  lemma ProbesAnswered(n: nat, th: nat, all: iset<State>)
    requires Closed(all, n, th)
    requires n >= 3
    ensures Three(n, Pend.(line := Dropped, up := [MissAck], parked := Some(Upgrade0)), Pend, Absent.(up := [HitAck]),
                  Both.(stable := false), Hunted, {0}) in all
  {
    Overtaken(n, th, all);
    var e := Both.(stable := false);
    var a0 := Upgrading.(down := [Probe(InvWrite, false)]);
    var c0 := Quiet(LineS).(down := [Probe(InvWrite, false)]);
    var s0 := Three(n, a0, Pend, c0, e, Hunted, {0});
    Answered(n, th, all, s0, 0, InvWrite, false);
    var a1 := Upgrading.(up := [Req(Upgrade0), MissAck]);
    assert [Req(Upgrade0)] + [MissAck] == [Req(Upgrade0), MissAck];
    ThreeAt(n, a0, Pend, c0, e, Hunted, {0}, a1);
    var s1 := Three(n, a1, Pend, c0, e, Hunted, {0});
    Answered(n, th, all, s1, 2, InvWrite, false);
    var c1 := Absent.(up := [HitAck]);
    assert [] + [HitAck] == [HitAck];
    ThreeAt(n, a1, Pend, c0, e, Hunted, {0}, c1);
    var s2 := Three(n, a1, Pend, c1, e, Hunted, {0});
    Enqueue(n, th, all, s2, 0);
    assert [Req(Upgrade0), MissAck][1..] == [MissAck];
    ThreeAt(n, a1, Pend, c1, e, Hunted, {0}, Pend.(line := Dropped, up := [MissAck], parked := Some(Upgrade0)));
  }

  const Stale := Pend.(line := Dropped, parked := Some(Upgrade0))
  const Written := Entry({1}, true, Modified, 1, false, false)

  /** Thread 1 has written: the copy that thread 0 wants to upgrade is stale. */
  lemma Overwritten(n: nat, th: nat, all: iset<State>)
    requires Closed(all, n, th)
    requires n >= 3
    ensures Three(n, Stale, Quiet(LineM), Absent, Written, Free, {}) in all
  {
    ProbesAnswered(n, th, all);
    var e := Both.(stable := false);
    var a0 := Stale.(up := [MissAck]);
    var c0 := Absent.(up := [HitAck]);
    var s0 := Three(n, a0, Pend, c0, e, Hunted, {0});
    var e1 := e.(sharers := {2});
    assert e.sharers - {0} == {2};
    Acked(n, th, all, s0, 0, e1, KeepWaiting(Asking1));
    assert [MissAck][1..] == [];
    ThreeAt(n, a0, Pend, c0, e1, Hunted, {0}, Stale);
    var lock1 := Invalidating(Asking1, 1);
    var s1 := Three(n, Stale, Pend, c0, e1, lock1, {0});
    Acked(n, th, all, s1, 2, Written, Reply(GrantWrite));
    assert [HitAck][1..] == [];
    ThreeAt(n, Stale, Pend, c0, Written, lock1, {0}, Absent);
    var g := Pend.(down := [Grant(GrantWrite)]);
    assert [] + [Grant(GrantWrite)] == [Grant(GrantWrite)];
    ThreeAt(n, Stale, Pend, Absent, Written, lock1, {0}, g);
    var s2 := Three(n, Stale, g, Absent, Written, Free, {});
    Filled(n, th, all, s2, 1, GrantWrite, []);
    ThreeAt(n, Stale, g, Absent, Written, Free, {}, Quiet(LineM));
  }

  const Pair := Entry({1, 2}, true, Shared, -1, false, false)

  /** Thread 2 reads what thread 1 wrote. */
  lemma ThirdRead(n: nat, th: nat, all: iset<State>)
    requires Closed(all, n, th)
    requires n >= 3
    ensures Three(n, Stale, Quiet(LineS), Quiet(LineS), Pair, Free, {}) in all
  {
    Overwritten(n, th, all);
    var s0 := Three(n, Stale, Quiet(LineM), Absent, Written, Free, {});
    Queue(n, th, all, s0, 2, false);
    var q := Pend.(parked := Some(Asking2));
    ThreeAt(n, Stale, Quiet(LineM), Absent, Written, Free, {}, q);
    var s1 := Three(n, Stale, Quiet(LineM), q, Written, Free, {});
    assert Written.sharers - {2} == {1};
    var e := ForgetRequester(Written, 2).(stable := false);
    Answer(n, th, all, s1, 2, e, ProbeOwner(Asking2, 1));
    ThreeAt(n, Stale, Quiet(LineM), q, e, Free, {}, Pend);
    var p := Quiet(LineM).(down := [Probe(InvRead, false)]);
    assert [] + [Probe(InvRead, false)] == [Probe(InvRead, false)];
    ThreeAt(n, Stale, Quiet(LineM), Pend, e, Free, {}, p);
    var lock := Probing(Asking2, 1);
    var s2 := Three(n, Stale, p, Pend, e, lock, {});
    Answered(n, th, all, s2, 1, InvRead, false);
    var a := Quiet(LineS).(up := [Ack(InvRead, true, false)]);
    assert [] + [Ack(InvRead, true, false)] == [Ack(InvRead, true, false)];
    ThreeAt(n, Stale, p, Pend, e, lock, {}, a);
    var s3 := Three(n, Stale, a, Pend, e, lock, {});
    assert Pair.sharers == e.sharers + {2};
    assert e.sharers - {2} == {1};
    Acked(n, th, all, s3, 1, Pair, Reply(GrantShared));
    assert [Ack(InvRead, true, false)][1..] == [];
    ThreeAt(n, Stale, a, Pend, Pair, lock, {}, Quiet(LineS));
    var g := Pend.(down := [Grant(GrantShared)]);
    assert [] + [Grant(GrantShared)] == [Grant(GrantShared)];
    ThreeAt(n, Stale, Quiet(LineS), Pend, Pair, lock, {}, g);
    var s4 := Three(n, Stale, Quiet(LineS), g, Pair, Free, {});
    Filled(n, th, all, s4, 2, GrantShared, []);
    ThreeAt(n, Stale, Quiet(LineS), g, Pair, Free, {}, Quiet(LineS));
  }

  /** ---------------- any number of readers ---------------- */

  /** Threads 1 .. k-1. */
  ghost function Span(k: nat): set<nat> { AllThreads(k) - {0} }

  lemma {:induction false} SpanSize(k: nat)
    requires k >= 1
    ensures |Span(k)| == k - 1
  {
    if k == 1 {
      assert Span(1) == {};
    } else {
      SpanSize(k - 1);
      assert Span(k) == Span(k - 1) + {k - 1};
    }
  }

  /** Thread 0, then the threads below k, then the rest. */
  ghost function Row(n: nat, first: Node, k: nat, low: Node, high: Node, e: Entry, l: Lock): State {
    State(seq(n, i => if i == 0 then first else if i < k then low else high), e, l, false, {}, false)
  }

  lemma RowAt(n: nat, first: Node, k: nat, low: Node, high: Node, e: Entry, l: Lock)
    requires 1 <= k < n
    ensures At(Row(n, first, k, low, high, e, l), k, low) == Row(n, first, k + 1, low, high, e, l)
  {
  }

  ghost function Readers(k: nat): Entry { Entry(Span(k), true, Shared, -1, false, false) }

  /** Threads 1 .. k-1 share the block; thread 0 waits with its stale copy. */
  ghost function Reading(n: nat, k: nat): State { Row(n, Stale, k, Quiet(LineS), Absent, Readers(k), Free) }

  lemma ReaderServed(k: nat)
    requires k >= 3
    ensures ServeRead(Readers(k), Ask(k, MissRead), Hit) == (Readers(k + 1), Reply(GrantShared))
  {
    SpanSize(k);
    assert Span(k) - {k} == Span(k);
    assert Span(k) + {k} == Span(k + 1);
  }

  ghost function Asks(n: nat, k: nat): State
    requires k < n
  {
    At(Reading(n, k), k, Pend.(parked := Some(Ask(k, MissRead))))
  }

  ghost function Granted(n: nat, k: nat): State
    requires k < n
  {
    At(Reading(n, k).(entry := Readers(k + 1)), k, Pend.(down := [Grant(GrantShared)]))
  }

  lemma ReadIsGranted(n: nat, k: nat)
    requires 3 <= k < n
    ensures Apply(At(Asks(n, k), k, Pend).(entry := Readers(k + 1)), k, Reply(GrantShared)) == Granted(n, k)
  {
    assert [] + [Grant(GrantShared)] == [Grant(GrantShared)];
  }

  lemma GrantedIsRead(n: nat, k: nat)
    requires 3 <= k < n
    ensures At(Granted(n, k), k, Quiet(LineS)) == Reading(n, k + 1)
  {
  }

  lemma ReadServed(n: nat, th: nat, all: iset<State>, k: nat)
    requires Closed(all, n, th)
    requires 3 <= k < n && Asks(n, k) in all
    ensures Granted(n, k) in all
  {
    ReaderServed(k);
    ReadIsGranted(n, k);
    Answer(n, th, all, Asks(n, k), k, Readers(k + 1), Reply(GrantShared));
  }

  lemma NextReads(n: nat, th: nat, all: iset<State>, k: nat)
    requires Closed(all, n, th)
    requires 3 < k <= n && Reading(n, k - 1) in all
    ensures Reading(n, k) in all
  {
    Queue(n, th, all, Reading(n, k - 1), k - 1, false);
    ReadServed(n, th, all, k - 1);
    Filled(n, th, all, Granted(n, k - 1), k - 1, GrantShared, []);
    GrantedIsRead(n, k - 1);
  }

  lemma ThreeReading(n: nat)
    requires n >= 3
    ensures Three(n, Stale, Quiet(LineS), Quiet(LineS), Pair, Free, {}) == Reading(n, 3)
  {
    assert Span(3) == {1, 2};
  }

  lemma {:induction false} ManyRead(n: nat, th: nat, all: iset<State>, k: nat)
    requires Closed(all, n, th)
    requires 3 <= k <= n
    ensures Reading(n, k) in all
  {
    if k == 3 {
      ThirdRead(n, th, all);
      ThreeReading(n);
    } else {
      ManyRead(n, th, all, k - 1);
      NextReads(n, th, all, k);
    }
  }

  ghost function Everybody(n: nat): Entry { Entry(AllThreads(n), true, Shared, -1, true, true) }

  /** The vector is taken away: n - 1 sharers are more than the threshold. */
  lemma Promoted(n: nat, th: nat, all: iset<State>)
    requires Closed(all, n, th)
    requires n >= 3 && th <= n - 2
    ensures Reading(n, n).(entry := Everybody(n)) in all
  {
    ManyRead(n, th, all, n);
    Go(n, th, all, Reading(n, n), Yield(th));
    SpanSize(n);
    assert GiveVector(Readers(n), n, th) == (Everybody(n), BecameAllShared);
  }

  const Asker := Pend.(line := Dropped)
  const Probed0 := Quiet(LineS).(down := [Probe(InvWrite, false)])

  ghost function Hunting(n: nat, k: nat): Entry { Entry(AllThreads(n) - Span(k), false, Shared, -1, true, false) }

  /** The upgrade is being served; threads 1 .. k-1 have given up their copies. */
  ghost function Closing(n: nat, k: nat): State
    requires k <= n
  {
    Row(n, Asker, k, Absent, Probed0, Hunting(n, k), Invalidating(Upgrade0, n - k))
  }

  lemma UpgradeServed(n: nat, th: nat, all: iset<State>)
    requires Closed(all, n, th)
    requires n >= 3 && th <= n - 2
    ensures Closing(n, 1) in all
  {
    Promoted(n, th, all);
    UpgradeOutcome(n);
    UpgradeHunts(n);
    Answer(n, th, all, Reading(n, n).(entry := Everybody(n)), 0, Hunting(n, 1), Invalidate(Upgrade0, Span(n), -1));
  }

  lemma UpgradeHunts(n: nat)
    requires n >= 3
    ensures Apply(At(Reading(n, n).(entry := Everybody(n)), 0, Asker).(entry := Hunting(n, 1)), 0,
                  Invalidate(Upgrade0, Span(n), -1)) == Closing(n, 1)
  {
    UpgradeOutcome(n);
    AllHunted(n, At(Reading(n, n).(entry := Everybody(n)), 0, Asker).nodes);
  }

  lemma UpgradeOutcome(n: nat)
    requires n >= 3
    ensures |Span(n)| == n - 1
    ensures ServeWrite(Everybody(n), Upgrade0, Hit, n) == (Hunting(n, 1), Invalidate(Upgrade0, Span(n), -1))
  {
    SpanSize(n);
    assert Span(1) == {};
    assert AllThreads(n) - Span(1) == AllThreads(n);
  }

  lemma AllHunted(n: nat, nodes: seq<Node>)
    requires n >= 3 && |nodes| == n && nodes[0] == Asker
    requires forall i :: 1 <= i < n ==> nodes[i] == Quiet(LineS)
    ensures SendInvalidations(nodes, Span(n), -1) == Closing(n, 1).nodes
  {
    assert [] + [Probe(InvWrite, false)] == [Probe(InvWrite, false)];
  }

  /** Thread k answers its probe. */
  lemma OneAnswers(n: nat, th: nat, all: iset<State>, k: nat)
    requires Closed(all, n, th)
    requires 1 <= k < n && Closing(n, k) in all
    ensures At(Closing(n, k), k, Absent.(up := [HitAck])) in all
  {
    Answered(n, th, all, Closing(n, k), k, InvWrite, false);
    assert [] + [HitAck] == [HitAck];
  }

  lemma AckCounted(n: nat, k: nat)
    requires 1 <= k < n - 1
    ensures TakeWriteAck(Hunting(n, k), Upgrade0, k, true, false, n - k - 1, Hit) == (Hunting(n, k + 1), KeepWaiting(Upgrade0))
    ensures Apply(At(Closing(n, k), k, Absent).(entry := Hunting(n, k + 1)), 0, KeepWaiting(Upgrade0)) == Closing(n, k + 1)
  {
    assert AllThreads(n) - Span(k) - {k} == AllThreads(n) - Span(k + 1);
    RowAt(n, Asker, k, Absent, Probed0, Hunting(n, k + 1), Invalidating(Upgrade0, n - k - 1));
  }

  lemma AckTaken(n: nat, th: nat, all: iset<State>, k: nat)
    requires Closed(all, n, th)
    requires 1 <= k < n - 1 && At(Closing(n, k), k, Absent.(up := [HitAck])) in all
    ensures Closing(n, k + 1) in all
  {
    AckCounted(n, k);
    assert [HitAck][1..] == [];
    assert At(At(Closing(n, k), k, Absent.(up := [HitAck])), k, Absent) == At(Closing(n, k), k, Absent);
    Acked(n, th, all, At(Closing(n, k), k, Absent.(up := [HitAck])), k, Hunting(n, k + 1), KeepWaiting(Upgrade0));
  }

  lemma OneGone(n: nat, th: nat, all: iset<State>, k: nat)
    requires Closed(all, n, th)
    requires 1 < k < n && Closing(n, k - 1) in all
    ensures Closing(n, k) in all
  {
    OneAnswers(n, th, all, k - 1);
    AckTaken(n, th, all, k - 1);
  }

  lemma {:induction false} AllButOneGone(n: nat, th: nat, all: iset<State>, k: nat)
    requires Closed(all, n, th)
    requires n >= 3 && th <= n - 2 && 1 <= k <= n - 1
    ensures Closing(n, k) in all
  {
    if k == 1 {
      UpgradeServed(n, th, all);
    } else {
      AllButOneGone(n, th, all, k - 1);
      OneGone(n, th, all, k);
    }
  }

  lemma LastAck(n: nat, e: Entry)
    requires n >= 3
    requires e == TakeWriteAck(Hunting(n, n - 1), Upgrade0, n - 1, true, false, 0, Hit).0
    ensures TakeWriteAck(Hunting(n, n - 1), Upgrade0, n - 1, true, false, 0, Hit) == (e, Reply(GrantUpdate))
    ensures Apply(At(Closing(n, n - 1), n - 1, Absent).(entry := e), 0, Reply(GrantUpdate)).lost
  {
  }

  /** The last answer is in: the upgrade is granted over the stale copy. */
  lemma LastGone(n: nat, th: nat, all: iset<State>)
    requires Closed(all, n, th)
    requires n >= 3 && At(Closing(n, n - 1), n - 1, Absent.(up := [HitAck])) in all
    ensures exists s :: s in all && s.lost
  {
    var s1 := At(Closing(n, n - 1), n - 1, Absent.(up := [HitAck]));
    var e := TakeWriteAck(Hunting(n, n - 1), Upgrade0, n - 1, true, false, 0, Hit).0;
    LastAck(n, e);
    assert [HitAck][1..] == [];
    assert At(s1, n - 1, Absent) == At(Closing(n, n - 1), n - 1, Absent);
    Acked(n, th, all, s1, n - 1, e, Reply(GrantUpdate));
  }

  lemma StaleGranted(n: nat, th: nat, all: iset<State>)
    requires Closed(all, n, th)
    requires n >= 3 && th <= n - 2
    ensures exists s :: s in all && s.lost
  {
    AllButOneGone(n, th, all, n - 1);
    OneAnswers(n, th, all, n - 1);
    LastGone(n, th, all);
  }

  /** With at least three threads and a threshold of at most n - 2, the options allow a run in which an
      upgrade revives a stale copy. */
  lemma PromotionLosesUpdate(n: nat, th: nat)
    requires n >= 3 && th <= n - 2
    ensures exists steps :: Uniform(steps, th) && Run(n, steps).lost
  {
    ReachableClosed(n, th);
    StaleGranted(n, th, Reachable(n, th));
  }

  /** When an update is lost, as the options decide it: some run loses one exactly if there are at least
      three threads and sharer_threshold is below n - 1. */
  lemma UpdatesLostExactly(n: nat, th: nat)
    ensures (exists steps :: Uniform(steps, th) && Run(n, steps).lost) <==> n >= 3 && th <= n - 2
  {
    if n >= 3 && th <= n - 2 {
      PromotionLosesUpdate(n, th);
    } else {
      forall steps | Uniform(steps, th) ensures !Run(n, steps).lost { NeverLost(n, steps); }
    }
  }
}
