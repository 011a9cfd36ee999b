/** The one window in which a copy is outside the sharer vector: a vector is being degraded, and the copy's
    invalidation is on its way. When exactly that is, and which options allow it. */
module DegradeWindow {
  import opened Protocol
  import opened Coherence
  import opened CoherenceProof
  import opened UpgradeData
  import opened StaleUpgrade

  /** The vector no longer names those that are being invalidated. */
  ghost predicate WindowInv(s: State) {
    s.lock.Degrading? ==> forall t: nat :: t < |s.nodes| && Busy(s.nodes[t]) ==> t !in s.entry.sharers
  }

  /** ---------------- steps ---------------- */

  lemma PushBusy(nd: Node, m: Up)
    requires !m.Ack?
    ensures Busy(nd.(up := nd.up + [m])) ==> Busy(nd)
  {
    forall i | 0 <= i < |nd.up| ensures (nd.up + [m])[i] == nd.up[i] {}
  }

  lemma PopBusy(nd: Node)
    requires nd.up != []
    ensures Busy(nd.(up := nd.up[1..])) ==> Busy(nd)
  {
    forall i | 0 <= i < |nd.up| - 1 ensures nd.up[1..][i] == nd.up[i + 1] {}
  }

  /** Nobody becomes busy, and the vector does not grow. */
  ghost predicate Shrinks(s: State, s': State) {
    && s'.entry.sharers <= s.entry.sharers && |s'.nodes| == |s.nodes|
    && forall t: nat :: t < |s.nodes| && Busy(s'.nodes[t]) ==> Busy(s.nodes[t])
  }

  lemma LocalShrinks(s: State, step: Step)
    requires Inv(s) && (step.Load? || step.Store? || step.Evict? || step.Receive?)
    ensures Shrinks(s, Next(s, step)) && Next(s, step).lock == s.lock
  {
    if step.t < |s.nodes| {
      var nd := s.nodes[step.t];
      assert NodeInv(nd, step.t, s.entry, s.lock);
      PushBusy(nd, Req(Request(step.t, MissRead, false, false)));
      PushBusy(nd, Req(Request(step.t, MissWrite, false, false)));
      PushBusy(nd, Req(Request(step.t, WriteUpdate, false, false)));
      PushBusy(nd, WriteBack);
      PushBusy(nd, InformBack);
    }
  }

  lemma ArriveShrinks(s: State, t: nat, env: Env)
    requires Inv(s) && t < |s.nodes| && s.lock.Degrading?
    ensures Shrinks(s, DoArrive(s, t, env))
  {
    if s.nodes[t].up != [] {
      PopBusy(s.nodes[t]);
      if s.nodes[t].up[0].Ack? { AckFindsHolder(s, t); }
    }
  }

  lemma WindowStays(s: State, step: Step)
    requires Inv(s) && WindowInv(s) && s.lock.Degrading?
    ensures WindowInv(Next(s, step))
  {
    match step
    case Arrive(t, env) => if t < |s.nodes| { ArriveShrinks(s, t, env); }
    case Serve(t, env) => if t < |s.nodes| { ServeWaits(s, t, env); }
    case MemoryReply =>
    case Yield(_) =>
    case _ => LocalShrinks(s, step);
  }

  /** A request that finds the entry in transition stays parked. */
  lemma ServeWaits(s: State, t: nat, env: Env)
    requires Inv(s) && t < |s.nodes| && !s.entry.stable
    ensures DoServe(s, t, env) == s
  {
    if s.nodes[t].parked.Some? { assert DoServe(s, t, env).nodes == s.nodes; }
  }

  lemma ApplyNoDegrade(s: State, tid: nat, out: Outcome)
    requires tid < |s.nodes| && !s.lock.Degrading?
    ensures !Apply(s, tid, out).lock.Degrading?
  {
  }

  lemma ServeNoDegrade(s: State, t: nat, env: Env)
    requires Inv(s) && t < |s.nodes| && !s.lock.Degrading?
    ensures !DoServe(s, t, env).lock.Degrading?
  {
    if CanServe(s, t, env) {
      var req := s.nodes[t].parked.value;
      var (e, out) := if req.op.MissRead? then ServeRead(s.entry, req, env) else ServeWrite(s.entry, req, env, |s.nodes|);
      ServeIsApply(s, t, env, e, out);
      ApplyNoDegrade(Put(s, t, s.nodes[t].(parked := None)).(entry := e), t, out);
    }
  }

  lemma AckNoDegrade(s: State, t: nat, m: Up, env: Env)
    requires t < |s.nodes| && m.Ack? && !s.lock.Degrading?
    ensures !DoAck(s, t, m, env).lock.Degrading?
  {
    match s.lock
    case Probing(req, _) =>
      if req.tid < |s.nodes| {
        var (e, out) := TakeReadAck(s.entry, req, t, m.hit, env);
        ApplyNoDegrade(s.(entry := e), req.tid, out);
      }
    case Sharing(req, _) =>
      if req.tid < |s.nodes| {
        var (e, out) := TakeSharerAck(s.entry, req, t, m.hit, env);
        ApplyNoDegrade(s.(entry := e), req.tid, out);
      }
    case Invalidating(req, k) =>
      if req.tid < |s.nodes| && k > 0 {
        var (e, out) := TakeWriteAck(s.entry, req, t, m.hit, m.wantsData, k - 1, env);
        ApplyNoDegrade(s.(entry := e), req.tid, out);
      }
    case _ =>
  }

  lemma ArriveNoDegrade(s: State, t: nat, env: Env)
    requires Inv(s) && t < |s.nodes| && !s.lock.Degrading?
    ensures !DoArrive(s, t, env).lock.Degrading?
  {
    if s.nodes[t].up != [] {
      var s1 := Put(s, t, s.nodes[t].(up := s.nodes[t].up[1..]));
      var m := s.nodes[t].up[0];
      if m.Ack? {
        AckNoDegrade(s1, t, m, env);
      } else if IsBack(m) {
        var (e, out) := TakeBack(s.entry, t, m.WriteBack?, |s.nodes|);
        ApplyNoDegrade(s1.(entry := e), t, out);
      }
    }
  }

  /** Only giving up a vector starts a degradation. */
  lemma OnlyYieldDegrades(s: State, step: Step)
    requires Inv(s) && !s.lock.Degrading? && !step.Yield?
    ensures !Next(s, step).lock.Degrading?
  {
    match step
    case Arrive(t, env) => if t < |s.nodes| { ArriveNoDegrade(s, t, env); }
    case Serve(t, env) => if t < |s.nodes| { ServeNoDegrade(s, t, env); }
    case MemoryReply =>
    case _ => LocalShrinks(s, step);
  }

  /** And only of a vector with at least two sharers, not all threads, and not more than the threshold. */
  lemma YieldDegradesOnly(s: State, threshold: nat)
    requires Inv(s) && !s.lock.Degrading? && DoYield(s, threshold).lock.Degrading?
    ensures |s.nodes| >= 3 && threshold >= 2
    ensures s.entry.stable && !s.entry.ptrEn && GiveVector(s.entry, |s.nodes|, threshold).1.Degrade?
  {
    SharersAreThreads(s.entry.sharers, |s.nodes|);
  }

  /** Exactly the targets become busy. */
  lemma TargetsBusy(s: State, threshold: nat, t: nat)
    requires Inv(s) && s.entry.stable && !s.entry.ptrEn && GiveVector(s.entry, |s.nodes|, threshold).1.Degrade?
    requires t < |s.nodes| && Busy(DoYield(s, threshold).nodes[t])
    ensures t in GiveVector(s.entry, |s.nodes|, threshold).1.targets
  {
    NobodyBusy(s, t);
  }

  lemma YieldOpens(s: State, threshold: nat)
    requires Inv(s) && !s.lock.Degrading?
    ensures WindowInv(DoYield(s, threshold))
    ensures DoYield(s, threshold).lock.Degrading? ==> |s.nodes| >= 3 && threshold >= 2
  {
    if DoYield(s, threshold).lock.Degrading? {
      YieldDegradesOnly(s, threshold);
      GiveVectorEntry(s.entry, |s.nodes|, threshold);
      var s' := DoYield(s, threshold);
      forall t: nat | t < |s'.nodes| && Busy(s'.nodes[t]) ensures t !in s'.entry.sharers {
        TargetsBusy(s, threshold, t);
      }
    }
  }

  lemma WindowNext(s: State, step: Step)
    requires Inv(s) && WindowInv(s)
    ensures WindowInv(Next(s, step))
  {
    if s.lock.Degrading? { WindowStays(s, step); }
    else if step.Yield? { YieldOpens(s, step.threshold); }
    else { OnlyYieldDegrades(s, step); }
  }

  lemma {:induction false} RunWindow(n: nat, steps: seq<Step>)
    ensures WindowInv(Run(n, steps))
  {
    if steps != [] {
      RunWindow(n, steps[..|steps| - 1]);
      RunInv(n, steps[..|steps| - 1]);
      WindowNext(Run(n, steps[..|steps| - 1]), steps[|steps| - 1]);
    }
  }

  /** On every run a copy is outside the vector exactly if the vector is being degraded and the copy's
      invalidation is on its way. */
  lemma OutsideExactly(n: nat, steps: seq<Step>, t: nat)
    requires t < |Run(n, steps).nodes| && Copy(Run(n, steps).nodes[t])
    ensures var s := Run(n, steps);
            t !in s.entry.sharers <==> s.lock.Degrading? && HasProbe(s.nodes[t].down)
  {
    RunInv(n, steps);
    RunWindow(n, steps);
    var s := Run(n, steps);
    assert NodeInv(s.nodes[t], t, s.entry, s.lock);
  }

  /** ---------------- which options allow it ---------------- */

  ghost predicate Outside(s: State, t: nat) {
    t < |s.nodes| && Copy(s.nodes[t]) && t !in s.entry.sharers
  }

  lemma {:induction false} NeverDegrades(n: nat, steps: seq<Step>, threshold: nat)
    requires Uniform(steps, threshold) && (n <= 2 || threshold <= 1)
    ensures !Run(n, steps).lock.Degrading?
  {
    if steps != [] {
      var before, step := steps[..|steps| - 1], steps[|steps| - 1];
      NeverDegrades(n, before, threshold);
      RunInv(n, before);
      RunSize(n, before);
      if step.Yield? { YieldOpens(Run(n, before), threshold); } else { OnlyYieldDegrades(Run(n, before), step); }
    }
  }

  /** Threads 0 and 2 read, and the vector is taken away: thread 2 is invalidated. */
  lemma OutsideReached(n: nat, th: nat, all: iset<State>)
    requires n >= 3 && th >= 2 && Closed(all, n, th)
    ensures exists s :: s in all && Outside(s, 2)
  {
    SecondRead(n, th, all);
    var s := Three(n, Quiet(LineS), Absent, Quiet(LineS), Both, Free, {});
    Go(n, th, all, s, Yield(th));
    TwoDegrade(n, th);
    assert Next(s, Yield(th)) == DoYield(s, th);
  }

  lemma WindowOpens(n: nat, th: nat)
    requires n >= 3 && th >= 2
    ensures exists steps, t: nat :: Uniform(steps, th) && Outside(Run(n, steps), t)
  {
    ReachableClosed(n, th);
    OutsideReached(n, th, Reachable(n, th));
  }

  lemma TwoDegrade(n: nat, th: nat)
    requires n >= 3 && th >= 2
    ensures Outside(DoYield(Three(n, Quiet(LineS), Absent, Quiet(LineS), Both, Free, {}), th), 2)
  {
    var s := Three(n, Quiet(LineS), Absent, Quiet(LineS), Both, Free, {});
    assert |Both.sharers| == 2;
    assert Least(Both.sharers, n) == 0 by { LeastIsFirst(Both.sharers, n); }
    assert Both.sharers - {0} == {2};
    assert s.nodes[2] == Quiet(LineS);
  }

  lemma {:induction false} LeastIsFirst(s: set<nat>, n: nat)
    requires n > 0 && 0 in s
    ensures Least(s, n) == 0
  {
    if n > 1 { LeastIsFirst(s, n - 1); }
  }

  /** So some run with this threshold has a copy outside the vector exactly if there are at least three
      threads and the threshold is at least two. */
  lemma OutsideByOptions(n: nat, th: nat)
    ensures (exists steps, t: nat :: Uniform(steps, th) && Outside(Run(n, steps), t)) <==> n >= 3 && th >= 2
  {
    if n >= 3 && th >= 2 {
      WindowOpens(n, th);
    } else {
      forall steps, t: nat | Uniform(steps, th) ensures !Outside(Run(n, steps), t) {
        NeverDegrades(n, steps, th);
        if t < |Run(n, steps).nodes| && Copy(Run(n, steps).nodes[t]) { OutsideExactly(n, steps, t); }
      }
    }
  }
}
