/** What the protocol guarantees in every state that any list of steps reaches. */
module CoherenceTheorems {
  import opened Protocol
  import opened Coherence
  import opened CoherenceProof

  /** Single writer or many readers, grants in flight included. */
  lemma SingleWriter(n: nat, steps: seq<Step>, t: nat, u: nat)
    requires t < |Run(n, steps).nodes| && u < |Run(n, steps).nodes| && t != u
    requires ExclusiveCopy(Run(n, steps).nodes[t])
    ensures !Copy(Run(n, steps).nodes[u])
  {
    RunInv(n, steps);
    var s := Run(n, steps);
    assert NodeInv(s.nodes[t], t, s.entry, s.lock);
    assert NodeInv(s.nodes[u], u, s.entry, s.lock);
  }

  /** The sharer vector never forgets a copy. Only while a vector is being
      degraded is a copy outside it, and then its invalidation is on the way. */
  lemma SharersComplete(n: nat, steps: seq<Step>, t: nat)
    requires t < |Run(n, steps).nodes| && Copy(Run(n, steps).nodes[t])
    ensures var s := Run(n, steps);
            || t in s.entry.sharers
            || (!s.entry.stable && s.lock.Degrading? && HasProbe(s.nodes[t].down)
                && s.nodes[t].down[|s.nodes[t].down|-1].kind == InvWrite)
  {
    RunInv(n, steps);
    var s := Run(n, steps);
    assert NodeInv(s.nodes[t], t, s.entry, s.lock);
  }

  /** No panic of the simulator's directory code can be reached. */
  lemma NoPanic(n: nat, steps: seq<Step>)
    ensures !Run(n, steps).panicked
  {
    RunInv(n, steps);
  }

  /** A collection counts exactly the threads that have not answered; each of
      them has one message on the way, and the entry stays in transition. */
  lemma AckAccounting(n: nat, steps: seq<Step>)
    ensures var s := Run(n, steps);
            s.lock.Invalidating? || s.lock.Degrading? ==>
              && s.lock.childCount == |Owing(s.nodes)| && s.lock.childCount > 0 && !s.entry.stable
              && forall t: nat :: t in Owing(s.nodes) ==>
                   && t < |s.nodes|
                   && (HasProbe(s.nodes[t].down) <==> !HasAck(s.nodes[t].up))
                   && forall i, j :: 0 <= i < j < |s.nodes[t].up| ==> !(s.nodes[t].up[i].Ack? && s.nodes[t].up[j].Ack?)
  {
    RunInv(n, steps);
    var s := Run(n, steps);
    if s.lock.Invalidating? || s.lock.Degrading? {
      forall t: nat | t in Owing(s.nodes)
        ensures && (HasProbe(s.nodes[t].down) <==> !HasAck(s.nodes[t].up))
                && forall i, j :: 0 <= i < j < |s.nodes[t].up| ==> !(s.nodes[t].up[i].Ack? && s.nodes[t].up[j].Ack?)
      {
        assert NodeInv(s.nodes[t], t, s.entry, s.lock);
        assert forall i, j :: 0 <= i < j < |s.nodes[t].up| ==> MayFollow(s.nodes[t].up[i], s.nodes[t].up[j]);
      }
    }
  }

  /** A pointer entry that is not being changed names at most one sharer or
      stands for all of them. */
  lemma PointerEntries(n: nat, steps: seq<Step>)
    ensures var e := Run(n, steps).entry;
            e.stable && e.ptrEn ==> |e.sharers| <= 1 || (e.allShared && e.sharers == AllThreads(|Run(n, steps).nodes|))
  {
    RunInv(n, steps);
  }

  ghost predicate WriteGranted(nd: Node) {
    HasGrant(nd.down) && (nd.down[0].grant == GrantWrite || nd.down[0].grant == GrantUpdate)
  }

  ghost predicate NewWriteGrant(s: State, s': State, t: nat)
    requires t < |s.nodes| && t < |s'.nodes|
  {
    WriteGranted(s'.nodes[t]) && !HasGrant(s.nodes[t].down)
  }

  lemma LocalStepsGrantNothing(s: State, step: Step, t: nat)
    requires Inv(s) && (step.Load? || step.Store? || step.Evict? || step.Receive?)
    requires t < |s.nodes| && t < |Next(s, step).nodes|
    ensures !NewWriteGrant(s, Next(s, step), t)
  {
    assert NodeInv(s.nodes[t], t, s.entry, s.lock);
  }

  lemma ServeReadGrantsNoWrite(e: Entry, req: Request, env: Env)
    ensures var out := ServeRead(e, req, env).1;
            out.Reply? ==> out.grant == GrantExclusive || out.grant == GrantShared
  {
  }

  lemma ApplyGrants(s: State, tid: nat, out: Outcome, t: nat)
    requires tid < |s.nodes| && t < |s.nodes| && t < |Apply(s, tid, out).nodes|
    requires WriteGranted(Apply(s, tid, out).nodes[t]) && !HasGrant(s.nodes[t].down)
    ensures out.Reply? && tid == t && (out.grant == GrantWrite || out.grant == GrantUpdate)
    ensures Apply(s, tid, out).lock == Free
  {
  }

  lemma ServeGrants(s: State, tid: nat, env: Env, t: nat)
    requires Inv(s) && tid < |s.nodes| && t < |s.nodes| && t < |DoServe(s, tid, env).nodes|
    requires NewWriteGrant(s, DoServe(s, tid, env), t)
    ensures tid == t && s.entry.stable && s.entry.sharers - {t} == {} && DoServe(s, tid, env).lock == Free
  {
    if CanServe(s, tid, env) {
      var req := s.nodes[tid].parked.value;
      var (e, out) := if req.op.MissRead? then ServeRead(s.entry, req, env)
                      else ServeWrite(s.entry, req, env, |s.nodes|);
      ServeIsApply(s, tid, env, e, out);
      assert NodeInv(s.nodes[tid], tid, s.entry, s.lock);
      ServeReadGrantsNoWrite(s.entry, req, env);
      ApplyGrants(Put(s, tid, s.nodes[tid].(parked := None)).(entry := e), tid, out, t);
    }
  }

  lemma AckGrants(s: State, x: nat, env: Env, t: nat)
    requires Inv(s) && x < |s.nodes| && t < |s.nodes| && t < |DoArrive(s, x, env).nodes|
    requires s.nodes[x].up != [] && s.nodes[x].up[0].Ack? && Holder(s.lock).Some?
    requires NewWriteGrant(s, DoArrive(s, x, env), t)
    ensures s.lock.Invalidating? && s.lock.childCount == 1 && s.lock.req.tid == t && DoArrive(s, x, env).lock == Free
  {
    var m := s.nodes[x].up[0];
    AckFindsHolder(s, x);
    var (e, out) := match s.lock
      case Probing(req, _) => TakeReadAck(s.entry, req, x, m.hit, env)
      case Sharing(req, _) => TakeSharerAck(s.entry, req, x, m.hit, env)
      case Invalidating(req, k) => TakeWriteAck(s.entry, req, x, m.hit, m.wantsData, k - 1, env)
      case _ => (s.entry, Done);
    AckIsApply(s, x, env, e, out);
    ApplyGrants(Put(s, x, s.nodes[x].(up := s.nodes[x].up[1..])).(entry := e), Holder(s.lock).value.tid, out, t);
    AckOutcome(s.entry, s.lock, x, m, env, out);
  }

  lemma AckOutcome(e: Entry, lock: Lock, x: nat, m: Up, env: Env, out: Outcome)
    requires m.Ack? && out.Reply? && (out.grant == GrantWrite || out.grant == GrantUpdate)
    requires match lock
             case Probing(req, _) => out == TakeReadAck(e, req, x, m.hit, env).1
             case Sharing(req, _) => out == TakeSharerAck(e, req, x, m.hit, env).1
             case Invalidating(req, k) => k > 0 && out == TakeWriteAck(e, req, x, m.hit, m.wantsData, k - 1, env).1
             case _ => false
    ensures lock.Invalidating? && lock.childCount == 1
  {
  }

  lemma DegradeAckGrantsNothing(s: State, x: nat, env: Env, t: nat)
    requires Inv(s) && x < |s.nodes| && t < |s.nodes| && t < |DoArrive(s, x, env).nodes|
    requires s.nodes[x].up != [] && s.nodes[x].up[0].Ack? && s.lock.Degrading?
    ensures !NewWriteGrant(s, DoArrive(s, x, env), t)
  {
    assert NodeInv(s.nodes[x], x, s.entry, s.lock);
  }

  lemma BacksGrantNothing(s: State, x: nat, env: Env, t: nat)
    requires Inv(s) && x < |s.nodes| && t < |s.nodes| && s.nodes[x].up != [] && IsBack(s.nodes[x].up[0])
    requires !s.entry.allShared && t < |DoArrive(s, x, env).nodes|
    ensures !NewWriteGrant(s, DoArrive(s, x, env), t)
  {
    BackStep(s, x, env);
  }

  lemma InformsGrantNothing(s: State, x: nat, env: Env, t: nat)
    requires Inv(s) && x < |s.nodes| && t < |s.nodes| && s.nodes[x].up != [] && IsBack(s.nodes[x].up[0])
    requires s.entry.allShared && t < |DoArrive(s, x, env).nodes|
    ensures !NewWriteGrant(s, DoArrive(s, x, env), t)
  {
    assert NodeInv(s.nodes[x], x, s.entry, s.lock);
    AllSharedMeansClean(s.nodes[x], x, s.entry, s.lock, |s.nodes|);
    assert s.nodes[x].up[0].InformBack?;
    InformAllShared(s, x, env);
  }

  lemma OtherArrivalsGrantNothing(s: State, x: nat, env: Env, t: nat)
    requires Inv(s) && x < |s.nodes| && t < |s.nodes| && t < |DoArrive(s, x, env).nodes|
    requires s.nodes[x].up == [] || !s.nodes[x].up[0].Ack?
    ensures !NewWriteGrant(s, DoArrive(s, x, env), t)
  {
    if s.nodes[x].up != [] && IsBack(s.nodes[x].up[0]) {
      if s.entry.allShared { InformsGrantNothing(s, x, env, t); } else { BacksGrantNothing(s, x, env, t); }
    }
  }

  /** A write is granted only by serving a request that has no other sharer, or
      by the last outstanding ack of the requester's own collection. */
  lemma GrantSource(s: State, step: Step, t: nat)
    requires Inv(s) && t < |s.nodes| && t < |Next(s, step).nodes|
    requires NewWriteGrant(s, Next(s, step), t)
    ensures || (step.Serve? && step.t == t && s.entry.stable && s.entry.sharers - {t} == {})
            || (step.Arrive? && s.lock.Invalidating? && s.lock.childCount == 1 && s.lock.req.tid == t)
    ensures Next(s, step).lock == Free
  {
    match step
    case Serve(x, env) => if x < |s.nodes| { ServeGrants(s, x, env, t); }
    case Arrive(x, env) =>
      if x < |s.nodes| {
        if s.nodes[x].up != [] && s.nodes[x].up[0].Ack? {
          AckFindsHolder(s, x);
          if s.lock.Degrading? { DegradeAckGrantsNothing(s, x, env, t); } else { AckGrants(s, x, env, t); }
        }
        else { OtherArrivalsGrantNothing(s, x, env, t); }
      }
    case MemoryReply =>
    case Yield(threshold) =>
    case _ => LocalStepsGrantNothing(s, step, t);
  }

  /** When a write is granted the count has reached zero, nobody owes an answer,
      and nobody but the requester has the block. */
  lemma WriteGrantIsLast(n: nat, steps: seq<Step>, step: Step, t: nat)
    requires t < |Run(n, steps).nodes| && t < |Run(n, steps + [step]).nodes|
    requires NewWriteGrant(Run(n, steps), Run(n, steps + [step]), t)
    ensures var s := Run(n, steps); var s' := Run(n, steps + [step]);
            && (s.lock.Free? || (s.lock.Invalidating? && s.lock.childCount == 1 && s.lock.req.tid == t))
            && s'.lock.Free? && Owing(s'.nodes) == {} && s'.entry.sharers == {t}
            && forall u: nat :: u < |s'.nodes| && u != t ==> !Copy(s'.nodes[u])
  {
    assert (steps + [step])[..|steps|] == steps;
    RunInv(n, steps);
    RunInv(n, steps + [step]);
    var s' := Run(n, steps + [step]);
    GrantSource(Run(n, steps), step, t);
    assert NodeInv(s'.nodes[t], t, s'.entry, s'.lock);
    forall u: nat | u < |s'.nodes| && u != t ensures !Copy(s'.nodes[u]) {
      SingleWriter(n, steps + [step], t, u);
    }
  }
}
