/** A store to a shared line drops the line and asks for an upgrade; the grant of
    an upgrade carries no data. Is the dropped copy still the current one? It is,
    unless a vector was promoted to all-shared while the upgrade was pending. */
module UpgradeData {
  import opened Protocol
  import opened Coherence
  import opened CoherenceProof
  import opened CoherenceTheorems

  ghost predicate IsUpgrade(m: Up) { m.Req? && m.req.op.WriteUpdate? }

  ghost predicate Pending(nd: Node) {
    || (exists i :: 0 <= i < |nd.up| && IsUpgrade(nd.up[i]))
    || (nd.parked.Some? && nd.parked.value.op.WriteUpdate?)
  }

  /** An upgrade never asks a sharer for data. */
  ghost predicate Plain(req: Request) { req.op.WriteUpdate? ==> !req.shrDataReq }

  ghost predicate NodePlain(nd: Node) {
    && (forall i :: 0 <= i < |nd.up| && nd.up[i].Req? ==> Plain(nd.up[i].req))
    && (nd.parked.Some? ==> Plain(nd.parked.value))
  }

  ghost predicate NodeData(nd: Node, t: nat, sharers: set<nat>, current: set<nat>) {
    NodePlain(nd) && (Pending(nd) && t in sharers ==> t in current)
  }

  ghost predicate LockData(lock: Lock, current: set<nat>) {
    && (Holder(lock).Some? ==> Plain(Holder(lock).value))
    && (lock.Invalidating? && lock.req.op.WriteUpdate? ==> lock.req.tid in current)
    && (lock.Memory? ==> !lock.req.op.WriteUpdate?)
  }

  ghost predicate DataInv(s: State) {
    && !s.lost
    && LockData(s.lock, s.current)
    && (forall t: nat :: t < |s.nodes| ==> NodeData(s.nodes[t], t, s.entry.sharers, s.current))
  }

  /** The guard of the promotion to all-shared by a vector that is not full. */
  ghost predicate Promotes(s: State, step: Step) {
    && step.Yield? && s.entry.stable && !s.entry.ptrEn
    && |s.entry.sharers| >= 2 && step.threshold < |s.entry.sharers| < |s.nodes|
  }

  /** It is exactly when an exchange makes the vector claim threads it did not have. */
  lemma PromotesExactly(s: State, threshold: nat)
    requires Inv(s)
    ensures Promotes(s, Yield(threshold)) <==> !(DoYield(s, threshold).entry.sharers <= s.entry.sharers)
  {
    if s.entry.stable && !s.entry.ptrEn {
      var n := |s.nodes|;
      SharersAreThreads(s.entry.sharers, n);
      GiveVectorEntry(s.entry, n, threshold);
      if AllThreads(n) <= s.entry.sharers { assert s.entry.sharers == AllThreads(n); }
    }
  }

  lemma PendingPop(nd: Node)
    requires nd.up != []
    ensures Pending(nd.(up := nd.up[1..])) ==> Pending(nd)
    ensures NodePlain(nd) ==> NodePlain(nd.(up := nd.up[1..]))
  {
    var nd' := nd.(up := nd.up[1..]);
    assert forall i :: 0 <= i < |nd'.up| ==> nd'.up[i] == nd.up[i+1];
  }

  lemma PendingPush(nd: Node, m: Up)
    ensures Pending(nd.(up := nd.up + [m])) <==> Pending(nd) || IsUpgrade(m)
    ensures NodePlain(nd.(up := nd.up + [m])) <==> NodePlain(nd) && (m.Req? ==> Plain(m.req))
  {
    var nd' := nd.(up := nd.up + [m]);
    assert nd'.up[|nd.up|] == m;
    assert forall i :: 0 <= i < |nd.up| ==> nd'.up[i] == nd.up[i];
  }

  lemma LocalData(s: State, step: Step)
    requires Inv(s) && DataInv(s) && (step.Load? || step.Evict? || step.Receive?)
    ensures DataInv(Next(s, step))
  {
    var t := step.t;
    if t < |s.nodes| {
      var nd := s.nodes[t];
      assert NodeInv(nd, t, s.entry, s.lock);
      var s' := Next(s, step);
      match step
      case Load(_) => PendingPush(nd, Req(Request(t, MissRead, false, false)));
      case Evict(_, _) => PendingPush(nd, WriteBack); PendingPush(nd, InformBack);
      case Receive(_) =>
        if nd.down != [] && nd.down[0].Probe? { PendingPush(nd, Ack(nd.down[0].kind, nd.line.valid, nd.down[0].wantsData)); }
      forall u: nat | u < |s'.nodes| ensures NodeData(s'.nodes[u], u, s'.entry.sharers, s'.current) {
        assert NodeData(s.nodes[u], u, s.entry.sharers, s.current);
      }
    }
  }

  lemma StoreData(s: State, t: nat)
    requires Inv(s) && DataInv(s) && t < |s.nodes|
    ensures DataInv(DoStore(s, t))
  {
    var nd := s.nodes[t];
    assert NodeInv(nd, t, s.entry, s.lock);
    var s' := DoStore(s, t);
    PendingPush(nd, Req(Request(t, MissWrite, false, false)));
    PendingPush(nd, Req(Request(t, WriteUpdate, false, false)));
    forall u: nat | u < |s'.nodes| ensures NodeData(s'.nodes[u], u, s'.entry.sharers, s'.current) {
      assert NodeData(s.nodes[u], u, s.entry.sharers, s.current);
    }
  }

  /** The requester of the event in hand has no upgrade pending any more. */
  ghost predicate Handled(s: State, tid: nat) {
    tid < |s.nodes| && !Pending(s.nodes[tid])
  }

  lemma ReplyData(s: State, tid: nat, g: GrantKind)
    requires Handled(s, tid) && !s.lost
    requires forall u: nat :: u < |s.nodes| ==> NodePlain(s.nodes[u])
    requires g == GrantShared ==> forall u: nat :: u < |s.nodes| && u != tid ==>
               NodeData(s.nodes[u], u, s.entry.sharers, s.current)
    requires g != GrantShared ==> s.entry.sharers == {tid}
    requires g == GrantUpdate ==> tid in s.current
    ensures DataInv(Apply(s, tid, Reply(g)))
  {
    var s' := Apply(s, tid, Reply(g));
    forall u: nat | u < |s'.nodes| ensures NodeData(s'.nodes[u], u, s'.entry.sharers, s'.current) {
      assert NodePlain(s.nodes[u]);
    }
  }

  lemma RetryData(s: State, req: Request)
    requires Handled(s, req.tid) && !s.lost && Plain(req) && s.entry.stable
    requires forall u: nat :: u < |s.nodes| ==> NodeData(s.nodes[u], u, s.entry.sharers, s.current)
    requires req.op.WriteUpdate? && req.tid in s.entry.sharers ==> req.tid in s.current
    ensures DataInv(Apply(s, req.tid, Retry(req)))
  {
    var s' := Apply(s, req.tid, Retry(req));
    forall u: nat | u < |s'.nodes| ensures NodeData(s'.nodes[u], u, s'.entry.sharers, s'.current) {
      assert NodeData(s.nodes[u], u, s.entry.sharers, s.current);
    }
  }

  /** Probing or waiting changes no upgrade. */
  lemma HoldData(s: State, tid: nat, out: Outcome)
    requires tid < |s.nodes| && !s.lost
    requires out.FetchMemory? || out.ProbeOwner? || out.AskSharer? || out.Invalidate? || out.KeepWaiting? || out.Done? || out.Panic?
    requires forall u: nat :: u < |s.nodes| ==> NodeData(s.nodes[u], u, s.entry.sharers, s.current)
    requires out.Done? || out.Panic? ==> LockData(s.lock, s.current)
    requires out.KeepWaiting? ==> LockData(s.lock, s.current) && s.lock.Invalidating? && out.req.tid == s.lock.req.tid
                                  && Plain(out.req) && out.req.op == s.lock.req.op
    requires out.FetchMemory? || out.ProbeOwner? || out.AskSharer? ==> Plain(out.req) && !out.req.op.WriteUpdate?
    requires out.Invalidate? ==> Plain(out.req) && (out.req.op.WriteUpdate? ==> out.req.tid in s.current)
    requires LockData(s.lock, s.current)
    ensures DataInv(Apply(s, tid, out))
  {
    var s' := Apply(s, tid, out);
    forall u: nat | u < |s'.nodes| ensures NodeData(s'.nodes[u], u, s'.entry.sharers, s'.current) {
      assert NodeData(s.nodes[u], u, s.entry.sharers, s.current);
      assert s'.nodes[u].up == s.nodes[u].up && s'.nodes[u].parked == s.nodes[u].parked;
    }
  }

  lemma HolderHandled(s: State)
    requires Inv(s) && Holder(s.lock).Some?
    ensures Handled(s, Holder(s.lock).value.tid)
  {
    var tid := Holder(s.lock).value.tid;
    assert NodeInv(s.nodes[tid], tid, s.entry, s.lock);
    assert Holds(s.lock, tid);
  }

  /** The state a handler sees: the sender's message is gone, the entry is the new one. */
  lemma PoppedData(s: State, x: nat, e: Entry)
    requires DataInv(s) && x < |s.nodes| && s.nodes[x].up != []
    ensures var s1 := Put(s, x, s.nodes[x].(up := s.nodes[x].up[1..])).(entry := e);
            forall u: nat :: u < |s1.nodes| ==>
              && NodePlain(s1.nodes[u])
              && ((u in e.sharers ==> u in s.entry.sharers) ==> NodeData(s1.nodes[u], u, e.sharers, s.current))
  {
    PendingPop(s.nodes[x]);
    var s1 := Put(s, x, s.nodes[x].(up := s.nodes[x].up[1..])).(entry := e);
    forall u: nat | u < |s1.nodes|
      ensures NodePlain(s1.nodes[u])
      ensures (u in e.sharers ==> u in s.entry.sharers) ==> NodeData(s1.nodes[u], u, e.sharers, s.current) {
      assert NodeData(s.nodes[u], u, s.entry.sharers, s.current);
    }
  }

  /** A read's ack ends in a reply, a retry or a wait for memory. */
  lemma SettleRead(s: State, s1: State, req: Request, out: Outcome)
    requires Handled(s1, req.tid) && !s1.lost && Plain(req) && req.op.MissRead? && Settled(out)
    requires LockData(s1.lock, s1.current) && s1.current == s.current
    requires s1.entry.sharers <= s.entry.sharers + {req.tid}
    requires out.Reply? ==> out.grant == GrantShared || (out.grant == GrantExclusive && s1.entry.sharers == {req.tid})
    requires !out.Reply? ==> out.req.tid == req.tid && out.req.op == req.op
    requires out.Retry? ==> s1.entry.stable
    requires forall u: nat :: u < |s1.nodes| ==> NodePlain(s1.nodes[u])
    requires forall u: nat :: u < |s1.nodes| && (u in s1.entry.sharers ==> u in s.entry.sharers) ==>
               NodeData(s1.nodes[u], u, s1.entry.sharers, s1.current)
    ensures DataInv(Apply(s1, req.tid, out))
  {
    forall u: nat | u < |s1.nodes| ensures NodeData(s1.nodes[u], u, s1.entry.sharers, s1.current) {
      if u == req.tid { assert NodePlain(s1.nodes[u]) && !Pending(s1.nodes[u]); }
    }
    match out
    case Reply(g) => ReplyData(s1, req.tid, g);
    case Retry(r) => RetryData(s1, r);
    case FetchMemory(r) => HoldData(s1, req.tid, out);
  }

  lemma ReadAckShape(e: Entry, req: Request, x: nat, hit: bool, env: Env)
    requires !e.stable && !e.allShared
    ensures var (e', out) := TakeReadAck(e, req, x, hit, env);
            && Settled(out)
            && e'.sharers <= e.sharers + {req.tid}
            && (out.Reply? ==> out.grant == GrantShared || (out.grant == GrantExclusive && e'.sharers == {req.tid}))
            && (!out.Reply? ==> e'.sharers <= e.sharers && out.req.tid == req.tid && out.req.op == req.op)
            && (out.Retry? ==> e'.stable)
  {
  }

  lemma SharerAckShape(e: Entry, req: Request, x: nat, hit: bool, env: Env)
    requires !e.allShared && !e.ptrEn
    ensures var (e', out) := TakeSharerAck(e, req, x, hit, env);
            && (out.Reply? || out.Retry?)
            && e'.sharers <= e.sharers + {req.tid}
            && (out.Reply? ==> out.grant == GrantShared || (out.grant == GrantExclusive && e'.sharers == {req.tid}))
            && (out.Retry? ==> e'.sharers <= e.sharers && out.req.tid == req.tid && out.req.op == req.op && e'.stable)
  {
  }

  lemma ProbeAckData(s: State, x: nat, env: Env)
    requires Inv(s) && DataInv(s) && x < |s.nodes| && s.nodes[x].up != [] && s.nodes[x].up[0].Ack?
    requires s.lock.Probing?
    ensures DataInv(DoArrive(s, x, env))
  {
    var m := s.nodes[x].up[0];
    AckFindsHolder(s, x);
    HolderHandled(s);
    var (e, out) := TakeReadAck(s.entry, s.lock.req, x, m.hit, env);
    ReadAckShape(s.entry, s.lock.req, x, m.hit, env);
    AckIsApply(s, x, env, e, out);
    PoppedData(s, x, e);
    PendingPop(s.nodes[x]);
    SettleRead(s, Put(s, x, s.nodes[x].(up := s.nodes[x].up[1..])).(entry := e), s.lock.req, out);
  }

  lemma SharerAckData(s: State, x: nat, env: Env)
    requires Inv(s) && DataInv(s) && x < |s.nodes| && s.nodes[x].up != [] && s.nodes[x].up[0].Ack?
    requires s.lock.Sharing?
    ensures DataInv(DoArrive(s, x, env))
  {
    var m := s.nodes[x].up[0];
    HolderHandled(s);
    var (e, out) := TakeSharerAck(s.entry, s.lock.req, x, m.hit, env);
    SharerAckShape(s.entry, s.lock.req, x, m.hit, env);
    AckIsApply(s, x, env, e, out);
    PoppedData(s, x, e);
    PendingPop(s.nodes[x]);
    SettleRead(s, Put(s, x, s.nodes[x].(up := s.nodes[x].up[1..])).(entry := e), s.lock.req, out);
  }

  lemma WriteAckShape(e: Entry, req: Request, x: nat, m: Up, left: nat, env: Env)
    requires !e.stable && m.Ack? && Plain(req)
    ensures var (e', out) := TakeWriteAck(e, req, x, m.hit, m.wantsData, left, env);
            && (out.Reply? || out.Retry? || out.FetchMemory? || out.KeepWaiting?)
            && (out.Reply? ==> e'.sharers == {req.tid} && out.grant != GrantShared)
            && (out.Reply? && out.grant == GrantUpdate ==> req.op.WriteUpdate?)
            && (!out.Reply? ==> e'.sharers <= e.sharers && out.req.tid == req.tid && out.req.op == req.op && Plain(out.req))
            && (out.Retry? ==> e'.stable && e'.sharers == {})
            && (out.FetchMemory? ==> !req.op.WriteUpdate?)
  {
  }

  lemma WriteAckData(s: State, x: nat, env: Env)
    requires Inv(s) && DataInv(s) && x < |s.nodes| && s.nodes[x].up != [] && s.nodes[x].up[0].Ack?
    requires s.lock.Invalidating?
    ensures DataInv(DoArrive(s, x, env))
  {
    var m := s.nodes[x].up[0];
    var req := s.lock.req;
    AckFindsHolder(s, x);
    HolderHandled(s);
    var (e, out) := TakeWriteAck(s.entry, req, x, m.hit, m.wantsData, s.lock.childCount - 1, env);
    WriteAckShape(s.entry, req, x, m, s.lock.childCount - 1, env);
    AckIsApply(s, x, env, e, out);
    PoppedData(s, x, e);
    PendingPop(s.nodes[x]);
    var s1 := Put(s, x, s.nodes[x].(up := s.nodes[x].up[1..])).(entry := e);
    match out
    case Reply(g) => ReplyData(s1, req.tid, g);
    case Retry(r) => RetryData(s1, r);
    case FetchMemory(r) => HoldData(s1, req.tid, out);
    case KeepWaiting(r) => HoldData(s1, req.tid, out);
  }

  lemma NarrowedData(s: State, x: nat, nd: Node, e: Entry, lock: Lock)
    requires DataInv(s) && x < |s.nodes| && e.sharers <= s.entry.sharers && LockData(lock, s.current)
    requires NodePlain(nd) && (Pending(nd) ==> Pending(s.nodes[x]))
    ensures DataInv(Put(s, x, nd).(entry := e, lock := lock))
  {
    var s' := Put(s, x, nd).(entry := e, lock := lock);
    forall u: nat | u < |s'.nodes| ensures NodeData(s'.nodes[u], u, s'.entry.sharers, s'.current) {
      assert NodeData(s.nodes[u], u, s.entry.sharers, s.current);
    }
  }

  lemma ArriveReqData(s: State, x: nat, env: Env)
    requires Inv(s) && DataInv(s) && x < |s.nodes| && s.nodes[x].up != [] && s.nodes[x].up[0].Req?
    ensures DataInv(DoArrive(s, x, env))
  {
    var nd := s.nodes[x];
    assert NodeData(nd, x, s.entry.sharers, s.current);
    PendingPop(nd);
    var nd' := nd.(up := nd.up[1..], parked := Some(nd.up[0].req));
    assert IsUpgrade(nd.up[0]) ==> Pending(nd);
    assert NodePlain(nd');
    NarrowedData(s, x, nd', s.entry, s.lock);
    assert DoArrive(s, x, env) == Put(s, x, nd');
  }

  lemma ArriveBackData(s: State, x: nat, env: Env)
    requires Inv(s) && DataInv(s) && x < |s.nodes| && s.nodes[x].up != [] && IsBack(s.nodes[x].up[0])
    ensures DataInv(DoArrive(s, x, env))
  {
    var nd := s.nodes[x];
    assert NodeData(nd, x, s.entry.sharers, s.current);
    PendingPop(nd);
    var (e, out) := TakeBack(s.entry, x, nd.up[0].WriteBack?, |s.nodes|);
    NarrowedData(s, x, nd.(up := nd.up[1..]), e, s.lock);
  }

  lemma DegradeAckData(s: State, x: nat, env: Env)
    requires Inv(s) && DataInv(s) && x < |s.nodes| && s.nodes[x].up != [] && s.nodes[x].up[0].Ack?
    requires s.lock.Degrading?
    ensures DataInv(DoArrive(s, x, env))
  {
    var nd := s.nodes[x];
    assert NodeData(nd, x, s.entry.sharers, s.current);
    AckFindsHolder(s, x);
    PendingPop(nd);
    var k := s.lock.childCount;
    var (e, out) := TakeDegradeAck(s.entry, k - 1);
    NarrowedData(s, x, nd.(up := nd.up[1..]), e, if k == 1 then Free else Degrading(k - 1));
  }

  lemma ArriveData(s: State, x: nat, env: Env)
    requires Inv(s) && DataInv(s) && x < |s.nodes|
    ensures DataInv(DoArrive(s, x, env))
  {
    if s.nodes[x].up != [] {
      if s.nodes[x].up[0].Ack? {
        AckFindsHolder(s, x);
        if s.lock.Invalidating? { WriteAckData(s, x, env); }
        else if s.lock.Degrading? { DegradeAckData(s, x, env); }
        else if s.lock.Probing? { ProbeAckData(s, x, env); }
        else { SharerAckData(s, x, env); }
      } else if s.nodes[x].up[0].Req? {
        ArriveReqData(s, x, env);
      } else {
        ArriveBackData(s, x, env);
      }
    }
  }

  /** A served request leaves the queue, and its sender has nothing else pending. */
  lemma UnparkedData(s: State, t: nat, e: Entry)
    requires Inv(s) && DataInv(s) && t < |s.nodes| && s.nodes[t].parked.Some?
    ensures var s1 := Put(s, t, s.nodes[t].(parked := None)).(entry := e);
            && Handled(s1, t)
            && forall u: nat :: u < |s1.nodes| ==>
                 && NodePlain(s1.nodes[u])
                 && ((u != t && u in e.sharers ==> u in s.entry.sharers) ==> NodeData(s1.nodes[u], u, e.sharers, s.current))
  {
    assert NodeInv(s.nodes[t], t, s.entry, s.lock);
    var s1 := Put(s, t, s.nodes[t].(parked := None)).(entry := e);
    assert Handled(s1, t);
    forall u: nat | u < |s1.nodes|
      ensures NodePlain(s1.nodes[u])
      ensures (u != t && u in e.sharers ==> u in s.entry.sharers) ==> NodeData(s1.nodes[u], u, e.sharers, s.current) {
      assert NodeData(s.nodes[u], u, s.entry.sharers, s.current);
    }
  }

  lemma ServeReadShape(e: Entry, req: Request, env: Env)
    requires req.op.MissRead? && e.stable
    ensures var (e', out) := ServeRead(e, req, env);
            && e'.sharers <= e.sharers + {req.tid}
            && (out.Reply? ==> out.grant == GrantShared || (out.grant == GrantExclusive && e'.sharers == {req.tid}))
            && (out.Retry? || out.FetchMemory? || out.ProbeOwner? || out.AskSharer? ==>
                  out.req.tid == req.tid && out.req.op == req.op)
            && (out.Retry? ==> e'.stable)
            && !out.Invalidate? && !out.KeepWaiting? && !out.Done?
  {
  }

  lemma ServeWriteShape(e: Entry, req: Request, env: Env, n: nat)
    requires !req.op.MissRead? && Plain(req) && e.stable
    ensures var (e', out) := ServeWrite(e, req, env, n);
            && (out.Reply? ==> e'.sharers == {req.tid} && out.grant != GrantShared)
            && (out.Reply? && out.grant == GrantUpdate ==> req.op.WriteUpdate? && req.tid in e.sharers)
            && (!out.Reply? ==> e'.sharers == e.sharers)
            && (out.Retry? || out.FetchMemory? ==> out.req.tid == req.tid && out.req.op.MissWrite?)
            && (out.Retry? ==> e'.stable)
            && (out.Invalidate? ==> out.req.tid == req.tid && Plain(out.req))
            && (out.Invalidate? && out.req.op.WriteUpdate? ==> req.op.WriteUpdate? && req.tid in e.sharers)
            && !out.ProbeOwner? && !out.AskSharer? && !out.KeepWaiting? && !out.Done?
  {
  }

  lemma ServeReadData(s: State, t: nat, env: Env)
    requires CanServe(s, t, env) && DataInv(s) && s.entry.stable && s.nodes[t].parked.value.op.MissRead?
    ensures DataInv(DoServe(s, t, env))
  {
    var req := s.nodes[t].parked.value;
    assert NodeInv(s.nodes[t], t, s.entry, s.lock);
    var (e, out) := ServeRead(s.entry, req, env);
    ServeIsApply(s, t, env, e, out);
    ServeReadShape(s.entry, req, env);
    UnparkedData(s, t, e);
    var s1 := Put(s, t, s.nodes[t].(parked := None)).(entry := e);
    if Settled(out) { SettleRead(s, s1, req, out); } else { HoldData(s1, t, out); }
  }

  lemma WriteApplied(s: State, t: nat, env: Env, e: Entry, out: Outcome, s1: State)
    requires CanServe(s, t, env) && DataInv(s) && s.entry.stable && !s.nodes[t].parked.value.op.MissRead?
    requires (e, out) == ServeWrite(s.entry, s.nodes[t].parked.value, env, |s.nodes|)
    requires s1 == Put(s, t, s.nodes[t].(parked := None)).(entry := e)
    ensures DataInv(Apply(s1, t, out))
  {
    var req := s.nodes[t].parked.value;
    assert NodeInv(s.nodes[t], t, s.entry, s.lock);
    assert NodeData(s.nodes[t], t, s.entry.sharers, s.current);
    ServeWriteShape(s.entry, req, env, |s.nodes|);
    UnparkedData(s, t, e);
    match out
    case Reply(g) => ReplyData(s1, t, g);
    case Retry(r) => RetryData(s1, r);
    case _ => HoldData(s1, t, out);
  }

  lemma ServeWriteData(s: State, t: nat, env: Env)
    requires CanServe(s, t, env) && DataInv(s) && s.entry.stable && !s.nodes[t].parked.value.op.MissRead?
    ensures DataInv(DoServe(s, t, env))
  {
    var (e, out) := ServeWrite(s.entry, s.nodes[t].parked.value, env, |s.nodes|);
    ServeIsApply(s, t, env, e, out);
    WriteApplied(s, t, env, e, out, Put(s, t, s.nodes[t].(parked := None)).(entry := e));
  }

  lemma ServeData(s: State, t: nat, env: Env)
    requires CanServe(s, t, env) && DataInv(s)
    ensures DataInv(DoServe(s, t, env))
  {
    if !s.entry.stable {
      assert DoServe(s, t, env).nodes == s.nodes;
      assert DoServe(s, t, env) == s;
    } else if s.nodes[t].parked.value.op.MissRead? {
      ServeReadData(s, t, env);
    } else {
      ServeWriteData(s, t, env);
    }
  }

  lemma MemoryData(s: State)
    requires Inv(s) && DataInv(s)
    ensures DataInv(DoMemory(s))
  {
    if s.lock.Memory? {
      HolderHandled(s);
      var s1 := s.(entry := s.entry.(stable := true));
      forall u: nat | u < |s1.nodes| ensures NodeData(s1.nodes[u], u, s1.entry.sharers, s1.current) {
        assert NodeData(s.nodes[u], u, s.entry.sharers, s.current);
      }
      RetryData(s1, s.lock.req);
    }
  }

  lemma SameRequests(s: State, s': State)
    requires DataInv(s) && |s'.nodes| == |s.nodes|
    requires forall u: nat :: u < |s.nodes| ==>
               s'.nodes[u].up == s.nodes[u].up && s'.nodes[u].parked == s.nodes[u].parked
    requires s'.entry.sharers <= s.entry.sharers && s'.current == s.current && s'.lost == s.lost
    requires LockData(s'.lock, s'.current)
    ensures DataInv(s')
  {
    forall u: nat | u < |s'.nodes| ensures NodeData(s'.nodes[u], u, s'.entry.sharers, s'.current) {
      assert NodeData(s.nodes[u], u, s.entry.sharers, s.current);
    }
  }

  lemma YieldData(s: State, threshold: nat)
    requires Inv(s) && DataInv(s) && !Promotes(s, Yield(threshold))
    ensures DataInv(DoYield(s, threshold))
  {
    PromotesExactly(s, threshold);
    YieldKeepsData(s, threshold);
    YieldedData(s, DoYield(s, threshold));
  }

  lemma YieldedData(s: State, s': State)
    requires DataInv(s) && |s'.nodes| == |s.nodes| && (s'.lock == s.lock || s'.lock.Degrading?)
    requires forall u: nat :: u < |s.nodes| ==>
               s'.nodes[u].up == s.nodes[u].up && s'.nodes[u].parked == s.nodes[u].parked
    requires s'.entry.sharers <= s.entry.sharers && s'.current == s.current && s'.lost == s.lost
    ensures DataInv(s')
  {
    SameRequests(s, s');
  }

  lemma YieldKeepsData(s: State, threshold: nat)
    ensures var s' := DoYield(s, threshold);
            && |s'.nodes| == |s.nodes| && s'.current == s.current && s'.lost == s.lost
            && (s'.lock == s.lock || s'.lock.Degrading?)
            && forall u: nat :: u < |s.nodes| ==>
                 s'.nodes[u].up == s.nodes[u].up && s'.nodes[u].parked == s.nodes[u].parked
  {
  }

  lemma NextData(s: State, step: Step)
    requires Inv(s) && DataInv(s) && !Promotes(s, step)
    ensures DataInv(Next(s, step))
  {
    match step
    case Store(t) => if t < |s.nodes| { StoreData(s, t); }
    case Arrive(t, env) => if t < |s.nodes| { ArriveData(s, t, env); }
    case Serve(t, env) => if CanServe(s, t, env) { ServeData(s, t, env); }
    case MemoryReply => MemoryData(s);
    case Yield(threshold) => YieldData(s, threshold);
    case _ => LocalData(s, step);
  }

  /** Every vector exchange on the way keeps to the sharers it finds. */
  ghost predicate Exact(n: nat, steps: seq<Step>) {
    forall i :: 0 <= i < |steps| ==> !Promotes(Run(n, steps[..i]), steps[i])
  }

  /** Without a promotion that adds sharers, no upgrade revives a stale copy. */
  lemma {:induction false} NoUpdateLost(n: nat, steps: seq<Step>)
    requires Exact(n, steps)
    ensures DataInv(Run(n, steps))
  {
    if steps == [] {
    } else {
      var before := steps[..|steps|-1];
      forall i | 0 <= i < |before| ensures !Promotes(Run(n, before[..i]), before[i]) {
        assert before[..i] == steps[..i];
      }
      NoUpdateLost(n, before);
      RunInv(n, before);
      assert !Promotes(Run(n, steps[..|steps|-1]), steps[|steps|-1]);
      NextData(Run(n, before), steps[|steps|-1]);
    }
  }

  lemma ApplySize(s: State, tid: nat, out: Outcome)
    requires tid < |s.nodes|
    ensures |Apply(s, tid, out).nodes| == |s.nodes|
  {
  }

  lemma AckSize(s: State, t: nat, m: Up, env: Env)
    requires t < |s.nodes| && m.Ack?
    ensures |DoAck(s, t, m, env).nodes| == |s.nodes|
  {
    match s.lock
    case Probing(req, _) =>
      if req.tid < |s.nodes| {
        var (e, out) := TakeReadAck(s.entry, req, t, m.hit, env);
        ApplySize(s.(entry := e), req.tid, out);
      }
    case Sharing(req, _) =>
      if req.tid < |s.nodes| {
        var (e, out) := TakeSharerAck(s.entry, req, t, m.hit, env);
        ApplySize(s.(entry := e), req.tid, out);
      }
    case Invalidating(req, k) =>
      if req.tid < |s.nodes| && k > 0 {
        var (e, out) := TakeWriteAck(s.entry, req, t, m.hit, m.wantsData, k - 1, env);
        ApplySize(s.(entry := e), req.tid, out);
      }
    case _ =>
  }

  lemma ServeSize(s: State, t: nat, env: Env)
    requires CanServe(s, t, env)
    ensures |DoServe(s, t, env).nodes| == |s.nodes|
  {
    var req := s.nodes[t].parked.value;
    var (e, out) := if req.op.MissRead? then ServeRead(s.entry, req, env) else ServeWrite(s.entry, req, env, |s.nodes|);
    ServeIsApply(s, t, env, e, out);
    ApplySize(Put(s, t, s.nodes[t].(parked := None)).(entry := e), t, out);
  }

  lemma BackSize(s: State, t: nat, env: Env)
    requires t < |s.nodes| && s.nodes[t].up != [] && IsBack(s.nodes[t].up[0])
    ensures |DoArrive(s, t, env).nodes| == |s.nodes|
  {
    var s1 := Put(s, t, s.nodes[t].(up := s.nodes[t].up[1..]));
    var (e, out) := TakeBack(s.entry, t, s.nodes[t].up[0].WriteBack?, |s.nodes|);
    ApplySize(s1.(entry := e), t, out);
  }

  lemma ArriveSize(s: State, t: nat, env: Env)
    requires t < |s.nodes|
    ensures |DoArrive(s, t, env).nodes| == |s.nodes|
  {
    if s.nodes[t].up != [] {
      if s.nodes[t].up[0].Ack? {
        AckSize(Put(s, t, s.nodes[t].(up := s.nodes[t].up[1..])), t, s.nodes[t].up[0], env);
      } else if IsBack(s.nodes[t].up[0]) {
        BackSize(s, t, env);
      }
    }
  }

  lemma NextSize(s: State, step: Step)
    requires Inv(s)
    ensures |Next(s, step).nodes| == |s.nodes|
  {
    if step.Arrive? {
      if step.t < |s.nodes| { ArriveSize(s, step.t, step.env); }
    } else if step.Serve? {
      if CanServe(s, step.t, step.env) { ServeSize(s, step.t, step.env); }
    } else if step.Yield? {
      YieldKeepsData(s, step.threshold);
    } else if step.MemoryReply? {
    } else {
      LocalSize(s, step);
    }
  }

  lemma LocalSize(s: State, step: Step)
    requires step.Load? || step.Store? || step.Evict? || step.Receive?
    ensures |Next(s, step).nodes| == |s.nodes|
  {
  }

  lemma {:induction false} RunSize(n: nat, steps: seq<Step>)
    ensures |Run(n, steps).nodes| == n
  {
    if steps != [] {
      RunSize(n, steps[..|steps|-1]);
      RunInv(n, steps[..|steps|-1]);
      NextSize(Run(n, steps[..|steps|-1]), steps[|steps|-1]);
    }
  }

  /** With two threads, or at the largest threshold the options allow, n - 1, an exchange never
      promotes, so no upgrade is lost in any run. */
  lemma NeverLost(n: nat, steps: seq<Step>)
    requires n <= 2 || forall i :: 0 <= i < |steps| && steps[i].Yield? ==> steps[i].threshold >= n - 1
    ensures !Run(n, steps).lost
  {
    forall i | 0 <= i < |steps| ensures !Promotes(Run(n, steps[..i]), steps[i]) {
      RunSize(n, steps[..i]);
    }
    NoUpdateLost(n, steps);
  }
}
