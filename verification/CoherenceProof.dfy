/** Every step keeps the invariant of the protocol. */
module CoherenceProof {
  import opened Protocol
  import opened Coherence

  /** ---------------- channels and counts ---------------- */

  lemma PopUp(u: seq<Up>)
    requires |u| > 0 && UpShape(u)
    ensures UpShape(u[1..])
    ensures HasReq(u[1..]) <==> HasReq(u) && !u[0].Req?
    ensures HasBack(u[1..]) <==> HasBack(u) && !IsBack(u[0])
    ensures HasWriteBack(u[1..]) <==> HasWriteBack(u) && !u[0].WriteBack?
    ensures HasAck(u[1..]) <==> HasAck(u) && !u[0].Ack?
    ensures forall i :: 0 <= i < |u[1..]| ==> u[1..][i] == u[i+1]
    ensures u[0].Req? ==> !HasBack(u)
    ensures u[0].Ack? ==> !HasWriteBack(u)
  {
    var v := u[1..];
    forall i | 0 < i < |u| ensures MayFollow(u[0], u[i]) && v[i-1] == u[i] {}
  }

  lemma PushUp(u: seq<Up>, m: Up)
    requires UpShape(u)
    requires forall i :: 0 <= i < |u| ==> MayFollow(u[i], m)
    ensures UpShape(u + [m])
    ensures HasReq(u + [m]) <==> HasReq(u) || m.Req?
    ensures HasBack(u + [m]) <==> HasBack(u) || IsBack(m)
    ensures HasWriteBack(u + [m]) <==> HasWriteBack(u) || m.WriteBack?
    ensures HasAck(u + [m]) <==> HasAck(u) || m.Ack?
  {
    var v := u + [m];
    assert v[|u|] == m;
    forall i | 0 <= i < |u| ensures v[i] == u[i] {}
  }

  lemma OwingPut(nodes: seq<Node>, t: nat, nd: Node)
    requires t < |nodes|
    ensures Owing(nodes[t := nd]) == if Busy(nd) then Owing(nodes) + {t} else Owing(nodes) - {t}
  {
  }

  /** A change at one thread that leaves the home node alone. */
  lemma LocalStep(s: State, t: nat, nd: Node)
    requires Inv(s) && t < |s.nodes|
    requires NodeInv(nd, t, s.entry, s.lock)
    requires Busy(nd) == Busy(s.nodes[t])
    ensures Inv(Put(s, t, nd))
  {
    OwingPut(s.nodes, t, nd);
    assert Owing(s.nodes[t := nd]) == Owing(s.nodes);
  }

  /** ---------------- the L1 side ---------------- */

  lemma LoadKeeps(s: State, t: nat)
    requires Inv(s) && t < |s.nodes|
    ensures Inv(DoLoad(s, t))
  {
    var nd := s.nodes[t];
    assert NodeInv(nd, t, s.entry, s.lock);
    if !nd.line.valid && !nd.waiting {
      var m := Req(Request(t, MissRead, false, false));
      PushUp(nd.up, m);
      LocalStep(s, t, nd.(waiting := true, up := nd.up + [m]));
    }
  }

  lemma StoreHit(s: State, t: nat)
    requires Inv(s) && t < |s.nodes| && s.nodes[t].line.valid
    ensures Inv(DoStore(s, t))
  {
    var nd := s.nodes[t];
    assert NodeInv(nd, t, s.entry, s.lock);
    if nd.line.state == Exclusive {
      LocalStep(s, t, nd.(line := L1Line(true, true, Modified)));
    } else if nd.line.state == Shared {
      var m := Req(Request(t, WriteUpdate, false, false));
      PushUp(nd.up, m);
      LocalStep(s, t, nd.(line := nd.line.(valid := false, dirty := false), waiting := true, up := nd.up + [m]));
    }
  }

  lemma StoreKeeps(s: State, t: nat)
    requires Inv(s) && t < |s.nodes|
    ensures Inv(DoStore(s, t))
  {
    var nd := s.nodes[t];
    if nd.line.valid {
      StoreHit(s, t);
    } else if !nd.waiting {
      assert NodeInv(nd, t, s.entry, s.lock);
      var m := Req(Request(t, MissWrite, false, false));
      PushUp(nd.up, m);
      LocalStep(s, t, nd.(waiting := true, up := nd.up + [m]));
    }
  }

  lemma EvictKeeps(s: State, t: nat, inform: bool)
    requires Inv(s) && t < |s.nodes|
    ensures Inv(DoEvict(s, t, inform))
  {
    var nd := s.nodes[t];
    assert NodeInv(nd, t, s.entry, s.lock);
    if nd.line.valid {
      if nd.line.dirty {
        PushUp(nd.up, WriteBack);
        LocalStep(s, t, nd.(line := NoLine, up := nd.up + [WriteBack]));
      } else if inform {
        PushUp(nd.up, InformBack);
        LocalStep(s, t, nd.(line := NoLine, up := nd.up + [InformBack]));
      } else {
        LocalStep(s, t, nd.(line := NoLine));
      }
    }
  }

  lemma GrantArrives(s: State, t: nat)
    requires Inv(s) && t < |s.nodes| && HasGrant(s.nodes[t].down)
    ensures Inv(DoReceive(s, t))
  {
    var nd := s.nodes[t];
    assert NodeInv(nd, t, s.entry, s.lock);
    LocalStep(s, t, nd.(line := Fill(nd.down[0].grant), waiting := false, down := nd.down[1..]));
  }

  lemma ProbeArrives(s: State, t: nat)
    requires Inv(s) && t < |s.nodes| && s.nodes[t].down != [] && s.nodes[t].down[0].Probe?
    ensures Inv(DoReceive(s, t))
  {
    var nd := s.nodes[t];
    assert NodeInv(nd, t, s.entry, s.lock);
    var k := nd.down[0].kind;
    var m := Ack(k, nd.line.valid, nd.down[0].wantsData);
    PushUp(nd.up, m);
    LocalStep(s, t, nd.(line := Probed(nd.line, k), down := nd.down[1..], up := nd.up + [m]));
  }

  lemma ReceiveKeeps(s: State, t: nat)
    requires Inv(s) && t < |s.nodes|
    ensures Inv(DoReceive(s, t))
  {
    if s.nodes[t].down != [] {
      if s.nodes[t].down[0].Grant? { GrantArrives(s, t); } else { ProbeArrives(s, t); }
    }
  }

  /** ---------------- the home node: arrivals ---------------- */

  lemma ArriveReqKeeps(s: State, t: nat, env: Env)
    requires Inv(s) && t < |s.nodes| && s.nodes[t].up != [] && s.nodes[t].up[0].Req?
    ensures Inv(DoArrive(s, t, env))
  {
    var nd := s.nodes[t];
    assert NodeInv(nd, t, s.entry, s.lock);
    PopUp(nd.up);
    LocalStep(s, t, nd.(up := nd.up[1..], parked := Some(nd.up[0].req)));
    assert Put(s, t, nd.(up := nd.up[1..], parked := Some(nd.up[0].req))) == DoArrive(s, t, env);
  }

  /** A write-back or a notice clears the sender's bit, and the sender has no copy. */
  lemma BackEntry(e: Entry, lock: Lock, t: nat, n: nat)
    requires EntryInv(e, lock, n) && t < n && !e.allShared
    ensures EntryInv(Recount(e.(sharers := e.sharers - {t})), lock, n)
  {
    var left := e.sharers - {t};
    if t !in e.sharers { assert left == e.sharers; }
    if |left| >= 2 { assert |e.sharers| >= |left| by { if t in e.sharers { assert e.sharers == left + {t}; } } }
    var v := Survey(left);
    if v.Only? { assert |left| == 1; }
  }

  lemma BackNode(nd: Node, u: nat, e: Entry, lock: Lock, t: nat, n: nat)
    requires EntryInv(e, lock, n) && !e.allShared
    requires NodeInv(nd, u, e, lock)
    requires u == t ==> !Copy(nd) && !HasWriteBack(nd.up)
    ensures NodeInv(nd, u, Recount(e.(sharers := e.sharers - {t})), lock)
  {
    var e' := Recount(e.(sharers := e.sharers - {t}));
    assert e'.dirty == e.dirty || e'.dirty == -1;
    if Owner(nd) {
      assert e.sharers - {t} == {u};
    }
    if lock.Free? && e'.dirty == u {
      assert e.sharers == {u};
      assert u != t;
    }
  }

  lemma BackSender(nd: Node, t: nat, e: Entry, lock: Lock, n: nat)
    requires EntryInv(e, lock, n) && !e.allShared
    requires NodeInv(nd, t, e, lock) && nd.up != [] && IsBack(nd.up[0])
    ensures NodeInv(nd.(up := nd.up[1..]), t, Recount(e.(sharers := e.sharers - {t})), lock)
  {
    PopUp(nd.up);
    assert !Copy(nd);
    var e' := Recount(e.(sharers := e.sharers - {t}));
    assert e'.dirty == t ==> e.dirty == t && e'.sharers == {t};
  }

  lemma BackNodes(nodes: seq<Node>, t: nat, e: Entry, lock: Lock)
    requires EntryInv(e, lock, |nodes|) && !e.allShared
    requires forall u: nat :: u < |nodes| ==> NodeInv(nodes[u], u, e, lock)
    requires t < |nodes| && nodes[t].up != [] && IsBack(nodes[t].up[0])
    ensures var nodes' := nodes[t := nodes[t].(up := nodes[t].up[1..])];
            var e' := Recount(e.(sharers := e.sharers - {t}));
            forall u: nat :: u < |nodes'| ==> NodeInv(nodes'[u], u, e', lock)
  {
    var nodes' := nodes[t := nodes[t].(up := nodes[t].up[1..])];
    var e' := Recount(e.(sharers := e.sharers - {t}));
    forall u: nat | u < |nodes'| ensures NodeInv(nodes'[u], u, e', lock) {
      if u == t { BackSender(nodes[u], t, e, lock, |nodes|); }
      else { BackNode(nodes[u], u, e, lock, t, |nodes|); }
    }
  }

  /** An entry that stands for all threads has no write-back on the way. */
  lemma AllSharedMeansClean(nd: Node, t: nat, e: Entry, lock: Lock, n: nat)
    requires EntryInv(e, lock, n) && NodeInv(nd, t, e, lock) && e.allShared
    ensures !Owner(nd)
  {
    assert e.sharers == {t} ==> |e.sharers| == 1;
  }

  lemma InformAllShared(s: State, t: nat, env: Env)
    requires t < |s.nodes| && s.nodes[t].up != [] && s.nodes[t].up[0].InformBack?
    requires s.entry.allShared && s.entry.sharers == AllThreads(|s.nodes|)
    ensures DoArrive(s, t, env) == Put(s, t, s.nodes[t].(up := s.nodes[t].up[1..]))
  {
  }

  lemma ArriveBackAllShared(s: State, t: nat, env: Env)
    requires Inv(s) && t < |s.nodes| && s.nodes[t].up != [] && IsBack(s.nodes[t].up[0]) && s.entry.allShared
    ensures Inv(DoArrive(s, t, env))
  {
    var nd := s.nodes[t];
    assert NodeInv(nd, t, s.entry, s.lock);
    AllSharedMeansClean(nd, t, s.entry, s.lock, |s.nodes|);
    assert nd.up[0].InformBack?;
    InformAllShared(s, t, env);
    PopUp(nd.up);
    LocalStep(s, t, nd.(up := nd.up[1..]));
  }

  lemma BackStep(s: State, t: nat, env: Env)
    requires t < |s.nodes| && s.nodes[t].up != [] && IsBack(s.nodes[t].up[0]) && !s.entry.allShared
    ensures DoArrive(s, t, env) == s.(nodes := s.nodes[t := s.nodes[t].(up := s.nodes[t].up[1..])],
                                      entry := Recount(s.entry.(sharers := s.entry.sharers - {t})))
  {
  }

  lemma ArriveBackKeeps(s: State, t: nat, env: Env)
    requires Inv(s) && t < |s.nodes| && s.nodes[t].up != [] && IsBack(s.nodes[t].up[0])
    ensures Inv(DoArrive(s, t, env))
  {
    if s.entry.allShared {
      ArriveBackAllShared(s, t, env);
    } else {
      var nd := s.nodes[t];
      var nd' := nd.(up := nd.up[1..]);
      BackStep(s, t, env);
      BackEntry(s.entry, s.lock, t, |s.nodes|);
      BackNodes(s.nodes, t, s.entry, s.lock);
      assert CountInv(s.nodes[t := nd'], s.lock) by {
        assert NodeInv(nd, t, s.entry, s.lock);
        PopUp(nd.up);
        OwingPut(s.nodes, t, nd');
        assert Owing(s.nodes[t := nd']) == Owing(s.nodes);
      }
    }
  }

  /** ---------------- the home node: acks ---------------- */

  /** Who holds the entry after a handler has run. */
  ghost function After(out: Outcome): Lock {
    match out
    case FetchMemory(req) => Memory(req)
    case ProbeOwner(req, owner) => Probing(req, owner)
    case AskSharer(req, dest) => Sharing(req, dest)
    case Invalidate(req, targets, _) => Invalidating(req, |targets|)
    case _ => Free
  }

  /** The requester's end after its event was answered, queued or kept. */
  ghost function Answered(nd: Node, out: Outcome): Node {
    match out
    case Retry(req) => nd.(parked := Some(req))
    case Reply(g) => nd.(down := nd.down + [Grant(g)])
    case _ => nd
  }

  ghost predicate Settled(out: Outcome) { out.Retry? || out.Reply? || out.FetchMemory? }

  lemma TwoOrMore(s: set<nat>, x: nat, y: nat)
    requires x in s && y in s && x != y
    ensures |s| >= 2
  {
    assert |s| == |s - {x}| + 1;
    assert y in s - {x};
  }

  /** The entry after a read grant. */
  lemma ReadReplyEntry(e: Entry, tid: nat, n: nat)
    requires forall x :: x in e.sharers ==> x < n
    requires tid < n && !e.ptrEn && !e.allShared && e.dirty == -1
    ensures EntryInv(ReadReply(e, tid).0, Free, n)
  {
    var others := e.sharers - {tid};
    if others == {} {
      assert e.sharers + {tid} == {tid};
    } else {
      var x :| x in others;
      TwoOrMore(e.sharers + {tid}, x, tid);
    }
  }

  /** An entry without sharers, unlocked or waiting for memory. */
  lemma EmptyEntry(e: Entry, lock: Lock, n: nat)
    requires e.sharers == {} && e.dirty == -1 && e.blkState != Shared && !e.allShared
    requires lock.Free? || (lock.Memory? && lock.req.tid < n && !lock.req.l1Hit)
    requires e.stable <==> lock.Free?
    ensures EntryInv(e, lock, n)
  {
  }

  lemma ReadAckEntry(e: Entry, lock: Lock, hit: bool, env: Env, n: nat)
    requires EntryInv(e, lock, n) && lock.Probing?
    ensures var (e', out) := TakeReadAck(e, lock.req, lock.owner, hit, env);
            Settled(out) && EntryInv(e', After(out), n)
  {
    var (e', out) := TakeReadAck(e, lock.req, lock.owner, hit, env);
    var e1 := if hit then e else e.(sharers := e.sharers - {lock.owner}, blkState := Invalid, dirty := -1);
    if !hit && lock.req.shrDataReq && !env.dl2Hit {
      assert e1.sharers == {};
      EmptyEntry(e', After(out), n);
    } else {
      ReadReplyEntry(e1.(dirty := -1), lock.req.tid, n);
      assert e' == ReadReply(e1.(dirty := -1), lock.req.tid).0;
    }
  }

  /** A thread with no copy and no business with the entry. */
  lemma IdleNode(nd: Node, u: nat, e: Entry, lock: Lock, e': Entry, lock': Lock)
    requires NodeInv(nd, u, e, lock) && !Copy(nd) && !HasWriteBack(nd.up) && !Busy(nd)
    requires !Holds(lock, u) && !Holds(lock', u)
    requires lock'.Free? || lock'.Memory?
    requires e'.dirty != u
    ensures NodeInv(nd, u, e', lock')
  {
  }

  /** The requester, once its event has been answered or put back. */
  lemma AnsweredNode(nd: Node, u: nat, e: Entry, lock: Lock, e': Entry, out: Outcome)
    requires NodeInv(nd, u, e, lock) && Holds(lock, u) && !Busy(nd)
    requires Settled(out)
    requires out.Retry? ==> out.req.tid == u && !out.req.l1Hit && e'.dirty != u
    requires out.FetchMemory? ==> out.req.tid == u
    requires out.Reply? ==> u in e'.sharers
    requires out.Reply? && out.grant != GrantShared ==> e'.sharers == {u}
    requires out.Reply? && (out.grant == GrantShared || out.grant == GrantExclusive) ==> e'.dirty != u
    ensures NodeInv(Answered(nd, out), u, e', After(out)) && !Busy(Answered(nd, out))
  {
    assert nd.down == [];
    assert !Copy(nd);
    assert HasWriteBack(nd.up) ==> HasBack(nd.up);
  }

  lemma ReadAckNode(nd: Node, u: nat, e: Entry, lock: Lock, hit: bool, env: Env, n: nat)
    requires EntryInv(e, lock, n) && lock.Probing?
    requires NodeInv(nd, u, e, lock) && u != lock.owner
    ensures var (e', out) := TakeReadAck(e, lock.req, lock.owner, hit, env);
            if u == lock.req.tid then NodeInv(Answered(nd, out), u, e', After(out)) && !Busy(Answered(nd, out))
            else NodeInv(nd, u, e', After(out)) && !Busy(nd)
  {
    var (e', out) := TakeReadAck(e, lock.req, lock.owner, hit, env);
    assert e'.dirty == -1;
    if u == lock.req.tid {
      AnsweredNode(nd, u, e, lock, e', out);
    } else {
      assert !Copy(nd);
      IdleNode(nd, u, e, lock, e', After(out));
    }
  }

  lemma ReadAckSender(nd: Node, e: Entry, lock: Lock, env: Env, n: nat)
    requires EntryInv(e, lock, n) && lock.Probing?
    requires NodeInv(nd, lock.owner, e, lock) && nd.up != [] && nd.up[0].Ack?
    ensures var (e', out) := TakeReadAck(e, lock.req, lock.owner, nd.up[0].hit, env);
            var nd' := nd.(up := nd.up[1..]);
            NodeInv(nd', lock.owner, e', After(out)) && !Busy(nd')
  {
    ReadAckEntry(e, lock, nd.up[0].hit, env, n);
    PopUp(nd.up);
  }

  lemma ApplySettled(s: State, tid: nat, out: Outcome)
    requires tid < |s.nodes| && Settled(out) && !s.panicked && (out.Retry? ==> s.entry.stable)
    ensures var s' := Apply(s, tid, out);
            && s'.nodes == s.nodes[tid := Answered(s.nodes[tid], out)]
            && s'.entry == s.entry && s'.lock == After(out) && !s'.panicked
  {
  }

  /** The last ack of a collection, at all threads at once. */
  lemma Release(s: State, t: nat, nd: Node, tid: nat, out: Outcome, e: Entry, s': State)
    requires t < |s.nodes| && tid < |s.nodes| && t != tid && Settled(out) && !s'.panicked
    requires s'.nodes == s.nodes[t := nd][tid := Answered(s.nodes[tid], out)]
    requires s'.entry == e && s'.lock == After(out) && EntryInv(e, After(out), |s.nodes|)
    requires NodeInv(nd, t, e, After(out)) && !Busy(nd)
    requires forall u: nat :: u < |s.nodes| && u != t && u != tid ==>
               NodeInv(s.nodes[u], u, e, After(out)) && !Busy(s.nodes[u])
    requires NodeInv(Answered(s.nodes[tid], out), tid, e, After(out)) && !Busy(Answered(s.nodes[tid], out))
    ensures Inv(s')
  {
    assert forall u: nat :: u < |s'.nodes| ==> !Busy(s'.nodes[u]);
    assert Owing(s'.nodes) == {};
  }

  lemma AckIsApply(s: State, x: nat, env: Env, e: Entry, out: Outcome)
    requires x < |s.nodes| && s.nodes[x].up != [] && s.nodes[x].up[0].Ack?
    requires Holder(s.lock).Some? && Holder(s.lock).value.tid < |s.nodes|
    requires var m := s.nodes[x].up[0];
             match s.lock
             case Probing(req, _) => (e, out) == TakeReadAck(s.entry, req, x, m.hit, env)
             case Sharing(req, _) => (e, out) == TakeSharerAck(s.entry, req, x, m.hit, env)
             case Invalidating(req, k) =>
               k > 0 && (e, out) == TakeWriteAck(s.entry, req, x, m.hit, m.wantsData, k - 1, env)
             case _ => false
    ensures DoArrive(s, x, env) ==
            Apply(Put(s, x, s.nodes[x].(up := s.nodes[x].up[1..])).(entry := e), Holder(s.lock).value.tid, out)
  {
  }

  lemma ArriveReadAckKeeps(s: State, t: nat, env: Env)
    requires Inv(s) && t < |s.nodes| && s.nodes[t].up != [] && s.nodes[t].up[0].Ack? && s.lock.Probing?
    ensures Inv(DoArrive(s, t, env))
  {
    var nd := s.nodes[t];
    assert NodeInv(nd, t, s.entry, s.lock);
    assert HasAck(nd.up);
    var tid, hit := s.lock.req.tid, nd.up[0].hit;
    var (e', out) := TakeReadAck(s.entry, s.lock.req, t, hit, env);
    ReadAckEntry(s.entry, s.lock, hit, env, |s.nodes|);
    ReadAckSender(nd, s.entry, s.lock, env, |s.nodes|);
    forall u: nat | u < |s.nodes| && u != t && u != tid
      ensures NodeInv(s.nodes[u], u, e', After(out)) && !Busy(s.nodes[u]) {
      ReadAckNode(s.nodes[u], u, s.entry, s.lock, hit, env, |s.nodes|);
    }
    ReadAckNode(s.nodes[tid], tid, s.entry, s.lock, hit, env, |s.nodes|);
    AckIsApply(s, t, env, e', out);
    ApplySettled(Put(s, t, nd.(up := nd.up[1..])).(entry := e'), tid, out);
    Release(s, t, nd.(up := nd.up[1..]), tid, out, e', DoArrive(s, t, env));
  }

  lemma RecountEntry(e: Entry)
    ensures var e' := Recount(e);
            && e'.sharers == e.sharers
            && (e.dirty == -1 ==> e'.dirty == -1)
            && ((|e.sharers| >= 2 ==> e.blkState == Shared) ==> (e'.blkState == Shared <==> |e.sharers| >= 2))
  {
    var v := Survey(e.sharers);
    if v.Only? { assert |e.sharers| == 1; }
  }

  lemma SharerAckEntry(e: Entry, lock: Lock, hit: bool, env: Env, n: nat)
    requires EntryInv(e, lock, n) && lock.Sharing?
    ensures var (e', out) := TakeSharerAck(e, lock.req, lock.dest, hit, env);
            Settled(out) && EntryInv(e', After(out), n) && e'.dirty == -1
  {
    var e1 := e.(stable := true, sharers := if hit then e.sharers else e.sharers - {lock.dest});
    assert |e1.sharers| <= |e.sharers| by {
      if lock.dest in e.sharers { assert e.sharers == (e.sharers - {lock.dest}) + {lock.dest}; }
      else { assert e.sharers - {lock.dest} == e.sharers; }
    }
    RecountEntry(e1);
    if hit || env.dl2Hit { ReadReplyEntry(Recount(e1), lock.req.tid, n); }
  }

  /** A thread that is neither asked nor asking keeps what it has through a read. */
  lemma BystanderNode(nd: Node, u: nat, e: Entry, lock: Lock, e': Entry)
    requires NodeInv(nd, u, e, lock) && !Busy(nd) && !Holds(lock, u) && !Owner(nd)
    requires u in e.sharers ==> u in e'.sharers
    requires !lock.Degrading? && e'.dirty != u
    ensures NodeInv(nd, u, e', Free)
  {
  }

  lemma SharerAckNode(nd: Node, u: nat, e: Entry, lock: Lock, hit: bool, env: Env, n: nat)
    requires EntryInv(e, lock, n) && lock.Sharing?
    requires NodeInv(nd, u, e, lock) && u != lock.dest
    ensures var (e', out) := TakeSharerAck(e, lock.req, lock.dest, hit, env);
            if u == lock.req.tid then NodeInv(Answered(nd, out), u, e', After(out)) && !Busy(Answered(nd, out))
            else NodeInv(nd, u, e', After(out)) && !Busy(nd)
  {
    var (e', out) := TakeSharerAck(e, lock.req, lock.dest, hit, env);
    SharerAckEntry(e, lock, hit, env, n);
    if u == lock.req.tid {
      AnsweredNode(nd, u, e, lock, e', out);
    } else {
      BystanderNode(nd, u, e, lock, e');
    }
  }

  lemma SharerAckSender(nd: Node, e: Entry, lock: Lock, env: Env, n: nat)
    requires EntryInv(e, lock, n) && lock.Sharing?
    requires NodeInv(nd, lock.dest, e, lock) && nd.up != [] && nd.up[0].Ack?
    ensures var (e', out) := TakeSharerAck(e, lock.req, lock.dest, nd.up[0].hit, env);
            var nd' := nd.(up := nd.up[1..]);
            NodeInv(nd', lock.dest, e', After(out)) && !Busy(nd')
  {
    SharerAckEntry(e, lock, nd.up[0].hit, env, n);
    PopUp(nd.up);
  }

  lemma ArriveSharerAckKeeps(s: State, t: nat, env: Env)
    requires Inv(s) && t < |s.nodes| && s.nodes[t].up != [] && s.nodes[t].up[0].Ack? && s.lock.Sharing?
    ensures Inv(DoArrive(s, t, env))
  {
    var nd := s.nodes[t];
    assert NodeInv(nd, t, s.entry, s.lock);
    assert HasAck(nd.up);
    var tid := s.lock.req.tid;
    var (e', out) := TakeSharerAck(s.entry, s.lock.req, t, nd.up[0].hit, env);
    SharerAckEntry(s.entry, s.lock, nd.up[0].hit, env, |s.nodes|);
    SharerAckSender(nd, s.entry, s.lock, env, |s.nodes|);
    forall u: nat | u < |s.nodes| && u != t && u != tid
      ensures NodeInv(s.nodes[u], u, e', After(out)) && !Busy(s.nodes[u]) {
      SharerAckNode(s.nodes[u], u, s.entry, s.lock, nd.up[0].hit, env, |s.nodes|);
    }
    SharerAckNode(s.nodes[tid], tid, s.entry, s.lock, nd.up[0].hit, env, |s.nodes|);
    AckIsApply(s, t, env, e', out);
    ApplySettled(Put(s, t, nd.(up := nd.up[1..])).(entry := e'), tid, out);
    Release(s, t, nd.(up := nd.up[1..]), tid, out, e', DoArrive(s, t, env));
  }

  lemma OneOwing(nodes: seq<Node>, t: nat, u: nat)
    requires |Owing(nodes)| == 1 && t in Owing(nodes) && u < |nodes| && u != t
    ensures !Busy(nodes[u])
  {
    if Busy(nodes[u]) { TwoOrMore(Owing(nodes), t, u); }
  }

  lemma GiveWriteEntry(e: Entry, tid: nat, g: GrantKind, n: nat)
    requires tid < n && !e.allShared
    ensures EntryInv(GiveWrite(e, tid, g).0, Free, n)
  {
    assert |{tid}| == 1;
  }

  lemma LastWriteAckEntry(e: Entry, lock: Lock, from: nat, hit: bool, wantsData: bool, env: Env, n: nat)
    requires EntryInv(e, lock, n) && lock.Invalidating?
    ensures var (e', out) := TakeWriteAck(e, lock.req, from, hit, wantsData, 0, env);
            && Settled(out) && EntryInv(e', After(out), n)
            && (if out.Reply? then e'.sharers == {lock.req.tid} && e'.dirty == lock.req.tid
                                   && (out.grant == GrantWrite || out.grant == GrantUpdate)
                else e'.sharers == {} && e'.dirty == -1)
  {
    var (e', out) := TakeWriteAck(e, lock.req, from, hit, wantsData, 0, env);
    if out.Reply? {
      GiveWriteEntry(e.(sharers := e.sharers - {from}, allShared := false), lock.req.tid, out.grant, n);
    } else {
      EmptyEntry(e', After(out), n);
    }
  }

  lemma LastWriteAckNode(nd: Node, u: nat, e: Entry, lock: Lock, e': Entry, out: Outcome, n: nat)
    requires EntryInv(e, lock, n) && lock.Invalidating?
    requires NodeInv(nd, u, e, lock) && !Busy(nd)
    requires Settled(out) && (out.Retry? || out.FetchMemory? ==> out.req.tid == lock.req.tid && !out.req.l1Hit)
    requires if out.Reply? then e'.sharers == {lock.req.tid} && e'.dirty == lock.req.tid
                                   && (out.grant == GrantWrite || out.grant == GrantUpdate)
             else e'.sharers == {} && e'.dirty == -1
    ensures if u == lock.req.tid then NodeInv(Answered(nd, out), u, e', After(out)) && !Busy(Answered(nd, out))
            else NodeInv(nd, u, e', After(out))
  {
    if u == lock.req.tid {
      AnsweredNode(nd, u, e, lock, e', out);
    } else {
      IdleNode(nd, u, e, lock, e', After(out));
    }
  }

  lemma WriteAckSender(nd: Node, t: nat, e: Entry, lock: Lock, e': Entry, lock': Lock)
    requires lock.Invalidating? || lock.Degrading?
    requires NodeInv(nd, t, e, lock) && nd.up != [] && nd.up[0].Ack?
    requires lock'.Free? || lock'.Memory? ||
             (lock'.Invalidating? && lock.Invalidating? && lock'.req.tid == lock.req.tid) ||
             (lock'.Degrading? && lock.Degrading?)
    requires Holder(lock').Some? ==> lock.Invalidating? && Holder(lock').value.tid == lock.req.tid
    requires e'.dirty != t || !lock'.Free?
    ensures var nd' := nd.(up := nd.up[1..]);
            NodeInv(nd', t, e', lock') && !Busy(nd') && !Copy(nd)
  {
    PopUp(nd.up);
    assert KindOf(lock, nd.up[0].kind);
  }

  lemma LastWriteAckNodes(s: State, t: nat, e': Entry, out: Outcome)
    requires Inv(s) && t < |s.nodes| && Busy(s.nodes[t]) && s.lock.Invalidating? && s.lock.childCount == 1
    requires Settled(out) && (out.Retry? || out.FetchMemory? ==> out.req.tid == s.lock.req.tid && !out.req.l1Hit)
    requires if out.Reply? then e'.sharers == {s.lock.req.tid} && e'.dirty == s.lock.req.tid
                                   && (out.grant == GrantWrite || out.grant == GrantUpdate)
             else e'.sharers == {} && e'.dirty == -1
    ensures var tid := s.lock.req.tid;
            && t != tid
            && NodeInv(Answered(s.nodes[tid], out), tid, e', After(out)) && !Busy(Answered(s.nodes[tid], out))
            && forall u: nat :: u < |s.nodes| && u != t && u != tid ==>
                 NodeInv(s.nodes[u], u, e', After(out)) && !Busy(s.nodes[u])
  {
    var tid := s.lock.req.tid;
    assert NodeInv(s.nodes[t], t, s.entry, s.lock);
    forall u: nat | u < |s.nodes| && u != t && u != tid
      ensures NodeInv(s.nodes[u], u, e', After(out)) && !Busy(s.nodes[u]) {
      OneOwing(s.nodes, t, u);
      LastWriteAckNode(s.nodes[u], u, s.entry, s.lock, e', out, |s.nodes|);
    }
    OneOwing(s.nodes, t, tid);
    LastWriteAckNode(s.nodes[tid], tid, s.entry, s.lock, e', out, |s.nodes|);
  }

  lemma LastWriteAckStep(s: State, t: nat, env: Env, e': Entry, out: Outcome)
    requires t < |s.nodes| && s.nodes[t].up != [] && s.nodes[t].up[0].Ack? && !s.panicked
    requires s.lock.Invalidating? && s.lock.childCount == 1 && t != s.lock.req.tid && s.lock.req.tid < |s.nodes|
    requires (e', out) == TakeWriteAck(s.entry, s.lock.req, t, s.nodes[t].up[0].hit, s.nodes[t].up[0].wantsData, 0, env)
    requires Settled(out) && (out.Retry? ==> e'.stable)
    ensures var s' := DoArrive(s, t, env);
            var nd' := s.nodes[t].(up := s.nodes[t].up[1..]);
            && s'.nodes == s.nodes[t := nd'][s.lock.req.tid := Answered(s.nodes[s.lock.req.tid], out)]
            && s'.entry == e' && s'.lock == After(out) && !s'.panicked
  {
    var s1 := Put(s, t, s.nodes[t].(up := s.nodes[t].up[1..]));
    ApplySettled(s1.(entry := e'), s.lock.req.tid, out);
  }

  lemma ArriveLastWriteAckKeeps(s: State, t: nat, env: Env)
    requires Inv(s) && t < |s.nodes| && s.nodes[t].up != [] && s.nodes[t].up[0].Ack?
    requires s.lock.Invalidating? && s.lock.childCount == 1
    ensures Inv(DoArrive(s, t, env))
  {
    var nd := s.nodes[t];
    assert NodeInv(nd, t, s.entry, s.lock);
    assert HasAck(nd.up);
    var m := nd.up[0];
    var tid := s.lock.req.tid;
    var (e', out) := TakeWriteAck(s.entry, s.lock.req, t, m.hit, m.wantsData, 0, env);
    LastWriteAckEntry(s.entry, s.lock, t, m.hit, m.wantsData, env, |s.nodes|);
    LastWriteAckNodes(s, t, e', out);
    WriteAckSender(nd, t, s.entry, s.lock, e', After(out));
    LastWriteAckStep(s, t, env, e', out);
    Release(s, t, nd.(up := nd.up[1..]), tid, out, e', DoArrive(s, t, env));
  }

  /** A collection goes on: one thread less owes an answer. */
  lemma Continue(s: State, t: nat, nd: Node, e: Entry, lock: Lock, s': State)
    requires Inv(s) && t < |s.nodes| && Busy(s.nodes[t]) && !Busy(nd) && !s'.panicked
    requires s'.nodes == s.nodes[t := nd] && s'.entry == e && s'.lock == lock
    requires (s.lock.Invalidating? && lock.Invalidating?) || (s.lock.Degrading? && lock.Degrading?)
    requires lock.childCount == s.lock.childCount - 1
    requires EntryInv(e, lock, |s.nodes|)
    requires forall u: nat :: u < |s.nodes| ==> NodeInv(if u == t then nd else s.nodes[u], u, e, lock)
    ensures Inv(s')
  {
    OwingPut(s.nodes, t, nd);
    assert t in Owing(s.nodes);
    assert |Owing(s'.nodes)| == |Owing(s.nodes)| - 1;
    forall u: nat | u < |s'.nodes| ensures NodeInv(s'.nodes[u], u, e, lock) {
      assert NodeInv(if u == t then nd else s.nodes[u], u, e, lock);
    }
  }

  lemma WriteAckEntry(e: Entry, lock: Lock, from: nat, r: Request, n: nat)
    requires EntryInv(e, lock, n) && lock.Invalidating? && lock.childCount > 1
    requires r.tid == lock.req.tid && r.op == lock.req.op && r.l1Hit == lock.req.l1Hit
    ensures EntryInv(e.(sharers := e.sharers - {from}), Invalidating(r, lock.childCount - 1), n)
  {
  }

  lemma WriteAckNode(nd: Node, u: nat, e: Entry, lock: Lock, from: nat, lock': Lock)
    requires NodeInv(nd, u, e, lock) && u != from
    requires lock.Invalidating? && lock'.Invalidating? && lock'.req.tid == lock.req.tid
    ensures NodeInv(nd, u, e.(sharers := e.sharers - {from}), lock')
  {
    if Owner(nd) { assert e.sharers - {from} == {u}; }
  }

  lemma WriteAckStep(s: State, t: nat, env: Env)
    requires t < |s.nodes| && s.nodes[t].up != [] && s.nodes[t].up[0].Ack? && !s.entry.stable
    requires s.lock.Invalidating? && s.lock.childCount > 1 && s.lock.req.tid < |s.nodes|
    ensures var nd, req, m := s.nodes[t], s.lock.req, s.nodes[t].up[0];
            DoArrive(s, t, env) == State(s.nodes[t := nd.(up := nd.up[1..])], s.entry.(sharers := s.entry.sharers - {t}),
              Invalidating(req.(shrDataReq := req.shrDataReq && !(m.hit && m.wantsData)), s.lock.childCount - 1),
              s.panicked, s.current, s.lost)
  {
  }

  lemma ArriveWriteAckKeeps(s: State, t: nat, env: Env)
    requires Inv(s) && t < |s.nodes| && s.nodes[t].up != [] && s.nodes[t].up[0].Ack?
    requires s.lock.Invalidating? && s.lock.childCount > 1
    ensures Inv(DoArrive(s, t, env))
  {
    var nd := s.nodes[t];
    assert NodeInv(nd, t, s.entry, s.lock);
    assert HasAck(nd.up);
    var m := nd.up[0];
    var req := s.lock.req;
    var r := req.(shrDataReq := req.shrDataReq && !(m.hit && m.wantsData));
    var e' := s.entry.(sharers := s.entry.sharers - {t});
    var lock' := Invalidating(r, s.lock.childCount - 1);
    var nd' := nd.(up := nd.up[1..]);
    WriteAckEntry(s.entry, s.lock, t, r, |s.nodes|);
    WriteAckSender(nd, t, s.entry, s.lock, e', lock');
    forall u: nat | u < |s.nodes|
      ensures NodeInv(if u == t then nd' else s.nodes[u], u, e', lock') {
      if u != t { WriteAckNode(s.nodes[u], u, s.entry, s.lock, t, lock'); }
    }
    WriteAckStep(s, t, env);
    Continue(s, t, nd', e', lock', DoArrive(s, t, env));
  }

  /** ---------------- the home node: a vector being degraded ---------------- */

  lemma ArriveDegradeAckKeeps(s: State, t: nat, env: Env)
    requires Inv(s) && t < |s.nodes| && s.nodes[t].up != [] && s.nodes[t].up[0].Ack?
    requires s.lock.Degrading? && s.lock.childCount > 1
    ensures Inv(DoArrive(s, t, env))
  {
    var nd := s.nodes[t];
    assert NodeInv(nd, t, s.entry, s.lock);
    assert HasAck(nd.up);
    var nd' := nd.(up := nd.up[1..]);
    var lock' := Degrading(s.lock.childCount - 1);
    WriteAckSender(nd, t, s.entry, s.lock, s.entry, lock');
    forall u: nat | u < |s.nodes|
      ensures NodeInv(if u == t then nd' else s.nodes[u], u, s.entry, lock') {
      assert NodeInv(s.nodes[u], u, s.entry, s.lock);
    }
    Continue(s, t, nd', s.entry, lock', DoArrive(s, t, env));
  }

  lemma LastDegradeNode(nd: Node, u: nat, e: Entry, lock: Lock, e': Entry)
    requires NodeInv(nd, u, e, lock) && lock.Degrading? && !Busy(nd)
    requires e'.sharers == e.sharers && e'.dirty == -1
    ensures NodeInv(nd, u, e', Free)
  {
  }

  lemma ArriveLastDegradeAckKeeps(s: State, t: nat, env: Env)
    requires Inv(s) && t < |s.nodes| && s.nodes[t].up != [] && s.nodes[t].up[0].Ack?
    requires s.lock.Degrading? && s.lock.childCount == 1
    ensures Inv(DoArrive(s, t, env))
  {
    var nd := s.nodes[t];
    assert NodeInv(nd, t, s.entry, s.lock);
    assert HasAck(nd.up);
    var nd' := nd.(up := nd.up[1..]);
    var e' := s.entry.(allShared := false, stable := true, dirty := -1);
    var s' := DoArrive(s, t, env);
    WriteAckSender(nd, t, s.entry, s.lock, e', Free);
    forall u: nat | u < |s'.nodes| ensures NodeInv(s'.nodes[u], u, e', Free) && !Busy(s'.nodes[u]) {
      if u != t {
        OneOwing(s.nodes, t, u);
        LastDegradeNode(s.nodes[u], u, s.entry, s.lock, e');
      }
    }
    assert Owing(s'.nodes) == {};
    assert EntryInv(e', Free, |s'.nodes|);
  }

  /** ---------------- the home node: requests ---------------- */

  lemma NobodyBusy(s: State, u: nat)
    requires Inv(s) && (s.lock.Free? || s.lock.Memory?) && u < |s.nodes|
    ensures !Busy(s.nodes[u])
  {
    assert u !in Owing(s.nodes);
  }

  /** A request at the home node means the thread has nothing of the block. */
  lemma RequesterHasNothing(nd: Node, t: nat, e: Entry, lock: Lock)
    requires NodeInv(nd, t, e, lock) && AtHome(nd, t, lock)
    ensures !Copy(nd) && !HasWriteBack(nd.up) && !OwnsDirty(nd)
  {
    assert HasWriteBack(nd.up) ==> HasBack(nd.up);
  }

  lemma ForgetEntry(e: Entry, t: nat, n: nat)
    requires EntryInv(e, Free, n) && e.dirty != t
    ensures EntryInv(ForgetRequester(e, t), Free, n)
  {
    if !e.allShared {
      var left := e.sharers - {t};
      if t in e.sharers { assert e.sharers == left + {t}; } else { assert left == e.sharers; }
      var v := Survey(left);
      if v.Only? { assert |left| == 1; }
      if v.Nobody? { assert e.sharers <= {t}; assert |e.sharers| <= |{t}| by { if t in e.sharers { assert e.sharers == {t}; } else { assert e.sharers == {}; } } }
    }
  }

  lemma ForgetNode(nd: Node, u: nat, e: Entry, t: nat)
    requires NodeInv(nd, u, e, Free) && e.dirty != t
    requires u == t ==> !Copy(nd) && !HasWriteBack(nd.up)
    ensures NodeInv(nd, u, ForgetRequester(e, t), Free)
  {
    if Owner(nd) && u != t { assert e.sharers - {t} == {u}; }
  }

  lemma ForgetKeeps(s: State, t: nat)
    requires Inv(s) && s.lock.Free? && t < |s.nodes| && s.nodes[t].parked.Some?
    ensures Inv(s.(entry := ForgetRequester(s.entry, t)))
  {
    var e := ForgetRequester(s.entry, t);
    RequesterHasNothing(s.nodes[t], t, s.entry, s.lock);
    ForgetEntry(s.entry, t, |s.nodes|);
    forall u: nat | u < |s.nodes| ensures NodeInv(s.nodes[u], u, e, Free) {
      ForgetNode(s.nodes[u], u, s.entry, t);
    }
  }

  /** The requester's end once its event is answered or holds the entry. */
  lemma ServedNode(nd: Node, u: nat, e: Entry, e': Entry, out: Outcome)
    requires NodeInv(nd, u, e, Free) && nd.parked.Some? && !Busy(nd)
    requires !out.Retry? && !out.Panic? && !out.Done? && !out.KeepWaiting?
    requires Holder(After(out)).Some? ==> Holder(After(out)).value.tid == u
    requires out.ProbeOwner? ==> out.owner != u
    requires out.AskSharer? ==> out.dest != u
    requires out.Reply? ==> u in e'.sharers
    requires out.Reply? && out.grant != GrantShared ==> e'.sharers == {u}
    requires out.Reply? && (out.grant == GrantShared || out.grant == GrantExclusive) ==> e'.dirty != u
    ensures NodeInv(Answered(nd.(parked := None), out), u, e', After(out))
    ensures !Busy(Answered(nd.(parked := None), out))
  {
    RequesterHasNothing(nd, u, e, Free);
    assert nd.down == [];
  }

  /** A thread the new holder does not probe. */
  lemma UntouchedNode(nd: Node, u: nat, e: Entry, e': Entry, lock: Lock)
    requires NodeInv(nd, u, e, Free) && !Busy(nd) && e'.sharers == e.sharers
    requires !lock.Free? && !Holds(lock, u)
    requires lock.Probing? ==> lock.owner != u
    requires lock.Sharing? ==> lock.dest != u && !Owner(nd)
    requires lock.Invalidating? ==> u !in e.sharers
    requires !lock.Degrading?
    ensures NodeInv(nd, u, e', lock)
  {
  }

  /** A thread the new holder probes. */
  lemma ProbedNode(nd: Node, u: nat, e: Entry, e': Entry, lock: Lock, k: ProbeKind, wantsData: bool)
    requires NodeInv(nd, u, e, Free) && !Busy(nd) && KindOf(lock, k)
    requires e'.sharers == e.sharers || lock.Degrading?
    requires lock.Degrading? ==> !Owner(nd)
    requires !Holds(lock, u)
    requires lock.Probing? ==> lock.owner == u
    requires lock.Sharing? ==> lock.dest == u && !Owner(nd)
    ensures NodeInv(nd.(down := nd.down + [Probe(k, wantsData)]), u, e', lock)
    ensures Busy(nd.(down := nd.down + [Probe(k, wantsData)]))
  {
    assert |nd.down| <= 1;
  }

  lemma SharedMeansNoOwner(nd: Node, u: nat, e: Entry, lock: Lock)
    requires NodeInv(nd, u, e, lock) && |e.sharers| >= 2
    ensures !Owner(nd)
  {
    assert e.sharers == {u} ==> |e.sharers| == 1;
  }

  /** A request is answered, or waits for memory: nobody is probed. */
  lemma ServeSettles(s: State, t: nat, e: Entry, out: Outcome, s': State)
    requires Inv(s) && s.lock.Free? && t < |s.nodes| && s.nodes[t].parked.Some? && !s'.panicked
    requires out.Reply? || (out.FetchMemory? && out.req.tid == t)
    requires s'.nodes == s.nodes[t := Answered(s.nodes[t].(parked := None), out)]
    requires s'.entry == e && s'.lock == After(out) && EntryInv(e, After(out), |s.nodes|)
    requires out.Reply? ==> t in e.sharers
    requires out.Reply? && out.grant != GrantShared ==> e.sharers == {t}
    requires out.Reply? && (out.grant == GrantShared || out.grant == GrantExclusive) ==> e.dirty != t
    requires forall u: nat :: u < |s.nodes| && u != t ==> NodeInv(s.nodes[u], u, e, After(out))
    ensures Inv(s')
  {
    NobodyBusy(s, t);
    ServedNode(s.nodes[t], t, s.entry, e, out);
    forall u: nat | u < |s'.nodes| ensures NodeInv(s'.nodes[u], u, e, After(out)) && !Busy(s'.nodes[u]) {
      if u != t { NobodyBusy(s, u); }
    }
    assert Owing(s'.nodes) == {};
  }

  /** The others, when the requester becomes the only sharer. */
  lemma OthersEmpty(s: State, t: nat, e: Entry, lock: Lock)
    requires Inv(s) && s.lock.Free? && t < |s.nodes| && s.entry.sharers <= {t}
    requires lock.Free? || (lock.Memory? && lock.req.tid == t)
    requires e.dirty == -1 || e.dirty == t
    ensures forall u: nat :: u < |s.nodes| && u != t ==> NodeInv(s.nodes[u], u, e, lock)
  {
    forall u: nat | u < |s.nodes| && u != t ensures NodeInv(s.nodes[u], u, e, lock) {
      NobodyBusy(s, u);
      IdleNode(s.nodes[u], u, s.entry, s.lock, e, lock);
    }
  }

  /** One thread is probed on behalf of the requester. */
  lemma ServeProbes(s: State, t: nat, o: nat, k: ProbeKind, wantsData: bool, e: Entry, lock: Lock, s': State)
    requires Inv(s) && s.lock.Free? && t < |s.nodes| && s.nodes[t].parked.Some? && !s'.panicked
    requires o < |s.nodes| && o != t && (lock.Probing? || lock.Sharing?) && KindOf(lock, k)
    requires lock.req.tid == t && (lock.Probing? ==> lock.owner == o) && (lock.Sharing? ==> lock.dest == o)
    requires lock.Sharing? ==> |s.entry.sharers| >= 2
    requires e.sharers == s.entry.sharers && EntryInv(e, lock, |s.nodes|)
    requires s'.nodes == s.nodes[t := s.nodes[t].(parked := None)]
                                [o := s.nodes[o].(down := s.nodes[o].down + [Probe(k, wantsData)])]
    requires s'.entry == e && s'.lock == lock
    ensures Inv(s')
  {
    forall u: nat | u < |s'.nodes| ensures NodeInv(s'.nodes[u], u, e, lock) {
      NobodyBusy(s, u);
      if lock.Sharing? { SharedMeansNoOwner(s.nodes[u], u, s.entry, s.lock); }
      if u == t {
        var out := if lock.Probing? then ProbeOwner(lock.req, o) else AskSharer(lock.req, o);
        ServedNode(s.nodes[t], t, s.entry, e, out);
      } else if u == o {
        ProbedNode(s.nodes[u], u, s.entry, e, lock, k, wantsData);
      } else {
        UntouchedNode(s.nodes[u], u, s.entry, e, lock);
      }
    }
  }

  lemma ReadBase(s: State, t: nat)
    requires Inv(s) && s.lock.Free? && t < |s.nodes| && s.nodes[t].parked.Some?
    requires s.entry == ForgetRequester(s.entry, t)
    ensures !s.entry.allShared ==> t !in s.entry.sharers
    ensures s.entry.allShared ==> |s.entry.sharers| >= 2 && s.entry.blkState == Shared && s.entry.dirty == -1
    ensures Survey(s.entry.sharers - {t}).Only? && !s.entry.allShared ==> s.entry.blkState != Shared
    ensures Survey(s.entry.sharers - {t}).Nobody? ==> s.entry.sharers == {} && !s.entry.allShared && s.entry.dirty == -1
    ensures Survey(s.entry.sharers - {t}).Several? ==> |s.entry.sharers| >= 2 && s.entry.dirty == -1
  {
    var others := s.entry.sharers - {t};
    if !s.entry.allShared { assert s.entry.sharers == others; }
    if Survey(others).Only? { assert |others| == 1; }
    if Survey(others).Several? && t in s.entry.sharers { assert s.entry.sharers == others + {t}; }
    assert s.entry.sharers == {t} ==> |s.entry.sharers| == 1;
    assert s.entry.dirty != -1 ==> |s.entry.sharers| == 1;
  }

  ghost predicate CanServe(s: State, t: nat, env: Env) {
    && Inv(s) && t < |s.nodes| && s.nodes[t].parked.Some?
    && (env.dest.Some? ==> env.dest.value < |s.nodes| && env.dest.value != t)
  }

  /** The read cases, by what the home node finds; the requester's bit is gone already. */
  ghost predicate ReadReady(s: State, t: nat, env: Env) {
    && CanServe(s, t, env) && s.lock.Free? && s.nodes[t].parked.value.op.MissRead?
    && s.entry == ForgetRequester(s.entry, t)
  }

  lemma ServeReadOwner(s: State, t: nat, env: Env)
    requires ReadReady(s, t, env)
    requires Survey(s.entry.sharers - {t}).Only? && s.entry.blkState != Shared
    ensures Inv(DoServe(s, t, env))
  {
    ReadBase(s, t);
    var e := s.entry;
    var nd := s.nodes[t];
    assert NodeInv(nd, t, e, s.lock);
    var o := Survey(e.sharers - {t}).id;
    assert o in e.sharers && o != t;
    if e.ptrEn && !env.vectorFree {
      assert DoServe(s, t, env).nodes == s.nodes;
      assert DoServe(s, t, env) == s;
    } else {
      var r := nd.parked.value.(shrDataReq := !env.dl2Hit);
      var e' := e.(ptrEn := false, stable := false);
      ServeProbes(s, t, o, InvRead, r.shrDataReq, e', Probing(r, o), DoServe(s, t, env));
    }
  }

  lemma ServeFetch(s: State, t: nat, env: Env, r: Request, s': State)
    requires CanServe(s, t, env) && s.lock.Free? && r.tid == t && !r.l1Hit && env.mshrFree
    requires s.entry.dirty == -1
    requires s'.nodes == s.nodes[t := s.nodes[t].(parked := None)] && !s'.panicked
    requires s'.entry == s.entry.(stable := false) && s'.lock == Memory(r)
    ensures Inv(s')
  {
    var e' := s.entry.(stable := false);
    forall u: nat | u < |s.nodes| && u != t ensures NodeInv(s.nodes[u], u, e', Memory(r)) {
      NobodyBusy(s, u);
      UntouchedNode(s.nodes[u], u, s.entry, e', Memory(r));
    }
    ServeSettles(s, t, e', FetchMemory(r), s');
  }

  /** Put back without a change. */
  lemma ServePutBack(s: State, t: nat, s': State, r: Request)
    requires Inv(s) && t < |s.nodes| && s.nodes[t].parked.Some?
    requires r.tid == t && !r.l1Hit
    requires s'.nodes == s.nodes[t := s.nodes[t].(parked := Some(r))]
    requires s'.entry == s.entry && s'.lock == s.lock && !s'.panicked
    ensures Inv(s')
  {
    var nd := s.nodes[t].(parked := Some(r));
    assert NodeInv(s.nodes[t], t, s.entry, s.lock);
    LocalStep(s, t, nd);
    assert Inv(Put(s, t, nd));
  }

  lemma ServeReadNobody(s: State, t: nat, env: Env)
    requires ReadReady(s, t, env) && Survey(s.entry.sharers - {t}).Nobody?
    ensures Inv(DoServe(s, t, env))
  {
    ReadBase(s, t);
    var e := s.entry;
    var r := s.nodes[t].parked.value;
    assert NodeInv(s.nodes[t], t, e, s.lock);
    if env.dl2Hit {
      var e' := e.(sharers := {t}, blkState := Exclusive);
      assert |{t}| == 1;
      OthersEmpty(s, t, e', Free);
      ServeSettles(s, t, e', Reply(GrantExclusive), DoServe(s, t, env));
    } else if env.mshrFree {
      ServeFetch(s, t, env, r, DoServe(s, t, env));
    } else {
      ServePutBack(s, t, DoServe(s, t, env), r);
    }
  }

  lemma ServeReadSharedHit(s: State, t: nat, s': State)
    requires Inv(s) && s.lock.Free? && t < |s.nodes| && s.nodes[t].parked.Some?
    requires |s.entry.sharers| >= 2 && s.entry.dirty == -1 && (s.entry.ptrEn ==> s.entry.allShared)
    requires s'.nodes == s.nodes[t := Answered(s.nodes[t].(parked := None), Reply(GrantShared))]
    requires s'.entry == s.entry.(sharers := s.entry.sharers + {t}, blkState := Shared)
    requires s'.lock == Free && !s'.panicked
    ensures Inv(s')
  {
    var e := s.entry;
    var e' := s'.entry;
    if t in e.sharers { assert e'.sharers == e.sharers; } else { assert |e'.sharers| == |e.sharers| + 1; }
    forall u: nat | u < |s.nodes| && u != t ensures NodeInv(s.nodes[u], u, e', Free) {
      NobodyBusy(s, u);
      SharedMeansNoOwner(s.nodes[u], u, e, s.lock);
      BystanderNode(s.nodes[u], u, e, s.lock, e');
    }
    ServeSettles(s, t, e', Reply(GrantShared), s');
  }

  lemma ReadSharedOutcome(e: Entry, r: Request, env: Env)
    requires e.stable && e == ForgetRequester(e, r.tid) && (e.ptrEn ==> e.allShared)
    requires !Survey(e.sharers - {r.tid}).Nobody?
    requires Survey(e.sharers - {r.tid}).Only? ==> e.blkState == Shared
    ensures ServeRead(e, r, env) ==
            if env.dl2Hit then (e.(sharers := e.sharers + {r.tid}, blkState := Shared), Reply(GrantShared))
            else if env.dest.None? || e.allShared then Fetch(e, r, env)
            else (e.(stable := false), AskSharer(r.(shrDataReq := true), env.dest.value))
  {
  }

  lemma ServeIsApply(s: State, t: nat, env: Env, e: Entry, out: Outcome)
    requires CanServe(s, t, env)
    requires (e, out) == if s.nodes[t].parked.value.op.MissRead?
                         then ServeRead(s.entry, s.nodes[t].parked.value, env)
                         else ServeWrite(s.entry, s.nodes[t].parked.value, env, |s.nodes|)
    ensures DoServe(s, t, env) == Apply(Put(s, t, s.nodes[t].(parked := None)).(entry := e), t, out)
  {
  }

  lemma ServeAsks(s: State, t: nat, r: Request, dest: nat)
    requires Inv(s) && s.lock.Free? && t < |s.nodes| && s.nodes[t].parked.Some?
    requires |s.entry.sharers| >= 2 && s.entry.dirty == -1 && !s.entry.ptrEn
    requires dest < |s.nodes| && dest != t && r.tid == t && !r.l1Hit && r.op.MissRead?
    ensures Inv(Apply(Put(s, t, s.nodes[t].(parked := None)).(entry := s.entry.(stable := false)), t,
                      AskSharer(r, dest)))
  {
    var s' := Apply(Put(s, t, s.nodes[t].(parked := None)).(entry := s.entry.(stable := false)), t,
                    AskSharer(r, dest));
    ServeProbes(s, t, dest, ShrRead, true, s.entry.(stable := false), Sharing(r, dest), s');
  }

  /** Both ends of a miss that the data L2 cannot serve. */
  lemma ServeFetches(s: State, t: nat, env: Env, r: Request)
    requires CanServe(s, t, env) && s.lock.Free? && r.tid == t && !r.l1Hit && s.entry.dirty == -1
    ensures var (e, out) := Fetch(s.entry, r, env);
            Inv(Apply(Put(s, t, s.nodes[t].(parked := None)).(entry := e), t, out))
  {
    var (e, out) := Fetch(s.entry, r, env);
    var s' := Apply(Put(s, t, s.nodes[t].(parked := None)).(entry := e), t, out);
    if env.mshrFree { ServeFetch(s, t, env, r, s'); } else { ServePutBack(s, t, s', r); }
  }

  lemma ServeReadSharedMiss(s: State, t: nat, env: Env)
    requires ReadReady(s, t, env) && !env.dl2Hit
    requires !Survey(s.entry.sharers - {t}).Nobody?
    requires Survey(s.entry.sharers - {t}).Only? ==> s.entry.blkState == Shared
    requires |s.entry.sharers| >= 2 && s.entry.dirty == -1
    ensures Inv(DoServe(s, t, env))
  {
    var r := s.nodes[t].parked.value;
    assert NodeInv(s.nodes[t], t, s.entry, s.lock);
    ReadSharedOutcome(s.entry, r, env);
    var (e, out) := ServeRead(s.entry, r, env);
    ServeIsApply(s, t, env, e, out);
    if env.dest.None? || s.entry.allShared { ServeFetches(s, t, env, r); }
    else { ServeAsks(s, t, r.(shrDataReq := true), env.dest.value); }
  }

  lemma ServeReadShared(s: State, t: nat, env: Env)
    requires ReadReady(s, t, env)
    requires !Survey(s.entry.sharers - {t}).Nobody?
    requires Survey(s.entry.sharers - {t}).Only? ==> s.entry.blkState == Shared
    ensures Inv(DoServe(s, t, env))
  {
    ReadBase(s, t);
    assert NodeInv(s.nodes[t], t, s.entry, s.lock);
    assert |s.entry.sharers| >= 2 && s.entry.dirty == -1;
    if env.dl2Hit {
      ReadSharedOutcome(s.entry, s.nodes[t].parked.value, env);
      ServeReadSharedHit(s, t, DoServe(s, t, env));
    } else {
      ServeReadSharedMiss(s, t, env);
    }
  }

  lemma ServeReadForgets(s: State, t: nat, env: Env)
    requires CanServe(s, t, env) && s.lock.Free? && s.nodes[t].parked.value.op.MissRead?
    ensures var s1 := s.(entry := ForgetRequester(s.entry, t));
            ReadReady(s1, t, env) && DoServe(s, t, env) == DoServe(s1, t, env)
  {
    var s1 := s.(entry := ForgetRequester(s.entry, t));
    ForgetKeeps(s, t);
    assert NodeInv(s.nodes[t], t, s.entry, s.lock);
    assert s.entry.sharers - {t} - {t} == s.entry.sharers - {t};
    assert ForgetRequester(s1.entry, t) == s1.entry;
  }

  lemma ServeBlocked(s: State, t: nat, env: Env)
    requires CanServe(s, t, env) && !s.entry.stable
    ensures Inv(DoServe(s, t, env))
  {
    assert NodeInv(s.nodes[t], t, s.entry, s.lock);
    ServePutBack(s, t, DoServe(s, t, env), s.nodes[t].parked.value);
  }

  lemma ServeReadKeeps(s: State, t: nat, env: Env)
    requires CanServe(s, t, env) && s.nodes[t].parked.value.op.MissRead?
    ensures Inv(DoServe(s, t, env))
  {
    if !s.entry.stable {
      ServeBlocked(s, t, env);
    } else {
      ServeReadForgets(s, t, env);
      var s1 := s.(entry := ForgetRequester(s.entry, t));
      var others := Survey(s1.entry.sharers - {t});
      if others.Nobody? { ServeReadNobody(s1, t, env); }
      else if others.Only? && s1.entry.blkState != Shared { ServeReadOwner(s1, t, env); }
      else { ServeReadShared(s1, t, env); }
    }
  }

  /** No write request can meet the dirty-but-not-exclusive panic. */
  lemma WriteBase(s: State, t: nat)
    requires Inv(s) && s.lock.Free? && t < |s.nodes| && s.nodes[t].parked.Some?
    ensures s.entry.dirty != t
    ensures s.entry.dirty != -1 ==> Survey(s.entry.sharers - {t}).Only?
    ensures s.entry.sharers - {t} == {} ==> s.entry.sharers <= {t} && s.entry.dirty == -1 && !s.entry.allShared
  {
    RequesterHasNothing(s.nodes[t], t, s.entry, s.lock);
    var others := s.entry.sharers - {t};
    if s.entry.dirty != -1 {
      assert others == {s.entry.dirty as nat};
      assert |others| == 1;
    }
    if others == {} {
      assert s.entry.sharers == {t} || s.entry.sharers == {};
      assert s.entry.sharers == {t} ==> |s.entry.sharers| == 1;
    }
  }

  lemma ServeInvalidatesNode(s: State, t: nat, r: Request, dataFrom: int, s': State, u: nat)
    requires Inv(s) && s.lock.Free? && t < |s.nodes| && s.nodes[t].parked.Some?
    requires r.tid == t && !r.l1Hit && !r.op.MissRead? && s.entry.sharers - {t} != {}
    requires s'.nodes == SendInvalidations(s.nodes[t := s.nodes[t].(parked := None)], s.entry.sharers - {t}, dataFrom)
    requires s'.entry == s.entry.(allShared := false, stable := false)
    requires s'.lock == Invalidating(r, |s.entry.sharers - {t}|) && u < |s.nodes|
    ensures NodeInv(s'.nodes[u], u, s'.entry, s'.lock) && (Busy(s'.nodes[u]) <==> u in s.entry.sharers - {t})
  {
    var others := s.entry.sharers - {t};
    NobodyBusy(s, u);
    if u == t {
      ServedNode(s.nodes[t], t, s.entry, s'.entry, Invalidate(r, others, dataFrom));
    } else if u in others {
      ProbedNode(s.nodes[u], u, s.entry, s'.entry, s'.lock, InvWrite, u == dataFrom);
    } else {
      UntouchedNode(s.nodes[u], u, s.entry, s'.entry, s'.lock);
    }
  }

  lemma ServeInvalidates(s: State, t: nat, r: Request, dataFrom: int, s': State)
    requires Inv(s) && s.lock.Free? && t < |s.nodes| && s.nodes[t].parked.Some?
    requires r.tid == t && !r.l1Hit && !r.op.MissRead? && s.entry.sharers - {t} != {}
    requires s'.nodes == SendInvalidations(s.nodes[t := s.nodes[t].(parked := None)], s.entry.sharers - {t}, dataFrom)
    requires s'.entry == s.entry.(allShared := false, stable := false) && !s'.panicked
    requires s'.lock == Invalidating(r, |s.entry.sharers - {t}|)
    ensures Inv(s')
  {
    var others := s.entry.sharers - {t};
    forall u: nat | u < |s'.nodes| ensures NodeInv(s'.nodes[u], u, s'.entry, s'.lock) && (Busy(s'.nodes[u]) <==> u in others) {
      ServeInvalidatesNode(s, t, r, dataFrom, s', u);
    }
    assert Owing(s'.nodes) == others;
  }

  lemma ServeGivesWrite(s: State, t: nat, g: GrantKind)
    requires Inv(s) && s.lock.Free? && t < |s.nodes| && s.nodes[t].parked.Some?
    requires s.entry.sharers <= {t} && !s.entry.allShared && (g == GrantWrite || g == GrantUpdate)
    ensures var (e, out) := GiveWrite(s.entry, t, g);
            Inv(Apply(Put(s, t, s.nodes[t].(parked := None)).(entry := e), t, out))
  {
    var (e, out) := GiveWrite(s.entry, t, g);
    GiveWriteEntry(s.entry, t, g, |s.nodes|);
    OthersEmpty(s, t, e, Free);
    ServeSettles(s, t, e, out, Apply(Put(s, t, s.nodes[t].(parked := None)).(entry := e), t, out));
  }

  lemma ServeWriteKeeps(s: State, t: nat, env: Env)
    requires CanServe(s, t, env) && !s.nodes[t].parked.value.op.MissRead?
    ensures Inv(DoServe(s, t, env))
  {
    if !s.entry.stable {
      ServeBlocked(s, t, env);
    } else {
      var req := s.nodes[t].parked.value;
      var (e, out) := ServeWrite(s.entry, req, env, |s.nodes|);
      ServeIsApply(s, t, env, e, out);
      WriteBase(s, t);
      assert NodeInv(s.nodes[t], t, s.entry, s.lock);
      if s.entry.sharers - {t} == {} {
        if out.Reply? { ServeGivesWrite(s, t, out.grant); }
        else { ServeFetches(s, t, env, req.(op := MissWrite)); }
      } else {
        ServeInvalidates(s, t, out.req, out.dataFrom,
                         Apply(Put(s, t, s.nodes[t].(parked := None)).(entry := e), t, out));
      }
    }
  }

  /** ---------------- memory, vectors, start ---------------- */

  lemma MemoryKeeps(s: State)
    requires Inv(s)
    ensures Inv(DoMemory(s))
  {
    if s.lock.Memory? {
      var t := s.lock.req.tid;
      var e := s.entry.(stable := true);
      var s' := DoMemory(s);
      forall u: nat | u < |s'.nodes| ensures NodeInv(s'.nodes[u], u, e, Free) && !Busy(s'.nodes[u]) {
        NobodyBusy(s, u);
        assert NodeInv(s.nodes[u], u, s.entry, s.lock);
      }
      assert Owing(s'.nodes) == {};
    }
  }

  lemma LeastIsSharer(e: Entry, n: nat)
    requires e.sharers != {} && forall x :: x in e.sharers ==> x < n
    ensures Least(e.sharers, n) in e.sharers
  {
    var x :| x in e.sharers;
    assert Least(e.sharers, n) != -1;
  }

  lemma SharersAreThreads(s: set<nat>, n: nat)
    requires forall x :: x in s ==> x < n
    ensures |s| <= n
    ensures |s| == n ==> s == AllThreads(n)
  {
    var all := AllThreads(n);
    assert s <= all;
    assert all == s + (all - s);
    assert |all| == |s| + |all - s|;
  }

  /** No panic of the vector exchange can fire, and what it leaves is in order. */
  lemma GiveVectorEntry(e: Entry, n: nat, threshold: nat)
    requires EntryInv(e, Free, n) && !e.ptrEn
    ensures var (e', give) := GiveVector(e, n, threshold);
            && !give.GivePanic?
            && (give.Degrade? ==>
                  && e.sharers == give.targets + {give.survivor} && give.survivor !in give.targets
                  && |e.sharers| >= 2 && e'.sharers == {give.survivor}
                  && EntryInv(e', Degrading(|give.targets|), n))
            && (!give.Degrade? ==> EntryInv(e', Free, n) && e.sharers <= e'.sharers && e'.dirty == e.dirty)
            && (give.BecameAllShared? ==> |e.sharers| >= 2)
            && (give.BecamePointer? ==> e'.sharers == e.sharers)
  {
    SharersAreThreads(e.sharers, n);
    var v := Survey(e.sharers);
    if v.Only? { assert |e.sharers| == 1; }
    if v.Several? {
      LeastIsSharer(e, n);
      var s := Least(e.sharers, n);
      assert |{s as nat}| == 1;
      assert |e.sharers - {s as nat}| == |e.sharers| - 1;
    }
  }

  lemma SameVector(nd: Node, u: nat, e: Entry, e': Entry)
    requires NodeInv(nd, u, e, Free) && e'.dirty == e.dirty
    requires e.sharers <= e'.sharers
    requires e'.sharers == e.sharers || !Owner(nd)
    ensures NodeInv(nd, u, e', Free)
  {
  }

  lemma YieldKeepsUnlocked(s: State, threshold: nat)
    requires Inv(s) && s.entry.stable && !s.entry.ptrEn
    requires !GiveVector(s.entry, |s.nodes|, threshold).1.Degrade?
    ensures Inv(DoYield(s, threshold))
  {
    var (e, give) := GiveVector(s.entry, |s.nodes|, threshold);
    GiveVectorEntry(s.entry, |s.nodes|, threshold);
    forall u: nat | u < |s.nodes| ensures NodeInv(s.nodes[u], u, e, Free) {
      if give.BecameAllShared? { SharedMeansNoOwner(s.nodes[u], u, s.entry, Free); }
      SameVector(s.nodes[u], u, s.entry, e);
    }
    assert DoYield(s, threshold) == s.(entry := e);
  }

  lemma Degraded(s: State, e: Entry, targets: set<nat>, survivor: nat, s': State)
    requires Inv(s) && s.lock.Free? && |s.entry.sharers| >= 2
    requires s.entry.sharers == targets + {survivor} && survivor !in targets
    requires e.sharers == {survivor} && EntryInv(e, Degrading(|targets|), |s.nodes|)
    requires s' == s.(entry := e, nodes := SendInvalidations(s.nodes, targets, -1), lock := Degrading(|targets|))
    ensures Inv(s')
  {
    var lock := s'.lock;
    forall u: nat | u < |s'.nodes| ensures NodeInv(s'.nodes[u], u, e, lock) && (Busy(s'.nodes[u]) <==> u in targets) {
      NobodyBusy(s, u);
      SharedMeansNoOwner(s.nodes[u], u, s.entry, s.lock);
      if u in targets { ProbedNode(s.nodes[u], u, s.entry, e, lock, InvWrite, false); }
      else { SurvivorNode(s.nodes[u], u, s.entry, e, lock); }
    }
    assert Owing(s'.nodes) == targets;
  }

  lemma YieldDegrades(s: State, threshold: nat)
    requires Inv(s) && s.entry.stable && !s.entry.ptrEn
    requires GiveVector(s.entry, |s.nodes|, threshold).1.Degrade?
    ensures Inv(DoYield(s, threshold))
  {
    var (e, give) := GiveVector(s.entry, |s.nodes|, threshold);
    GiveVectorEntry(s.entry, |s.nodes|, threshold);
    Degraded(s, e, give.targets, give.survivor, DoYield(s, threshold));
  }

  lemma SurvivorNode(nd: Node, u: nat, e: Entry, e': Entry, lock: Lock)
    requires NodeInv(nd, u, e, Free) && !Busy(nd) && !Owner(nd) && lock.Degrading?
    requires u in e.sharers ==> u in e'.sharers
    ensures NodeInv(nd, u, e', lock)
  {
  }

  lemma StartInv(n: nat)
    ensures Inv(Start(n))
  {
    var s := Start(n);
    assert Owing(s.nodes) == {};
  }

  lemma NextKeeps(s: State, step: Step)
    requires Inv(s)
    ensures Inv(Next(s, step))
  {
    match step
    case Load(t) => if t < |s.nodes| { LoadKeeps(s, t); }
    case Store(t) => if t < |s.nodes| { StoreKeeps(s, t); }
    case Evict(t, inform) => if t < |s.nodes| { EvictKeeps(s, t, inform); }
    case Receive(t) => if t < |s.nodes| { ReceiveKeeps(s, t); }
    case Arrive(t, env) => if t < |s.nodes| { ArriveKeeps(s, t, env); }
    case Serve(t, env) => if t < |s.nodes| { ServeKeeps(s, t, env); }
    case MemoryReply => MemoryKeeps(s);
    case Yield(threshold) => YieldKeeps(s, threshold);
  }

  lemma ArriveKeeps(s: State, t: nat, env: Env)
    requires Inv(s) && t < |s.nodes|
    ensures Inv(DoArrive(s, t, env))
  {
    if s.nodes[t].up != [] {
      match s.nodes[t].up[0]
      case Req(_) => ArriveReqKeeps(s, t, env);
      case WriteBack => ArriveBackKeeps(s, t, env);
      case InformBack => ArriveBackKeeps(s, t, env);
      case Ack(_, _, _) =>
        AckFindsHolder(s, t);
        if s.lock.Probing? { ArriveReadAckKeeps(s, t, env); }
        else if s.lock.Sharing? { ArriveSharerAckKeeps(s, t, env); }
        else if s.lock.Invalidating? {
          if s.lock.childCount == 1 { ArriveLastWriteAckKeeps(s, t, env); } else { ArriveWriteAckKeeps(s, t, env); }
        } else {
          if s.lock.childCount == 1 { ArriveLastDegradeAckKeeps(s, t, env); } else { ArriveDegradeAckKeeps(s, t, env); }
        }
    }
  }

  /** An ack never meets an entry that nothing holds. */
  lemma AckFindsHolder(s: State, t: nat)
    requires Inv(s) && t < |s.nodes| && s.nodes[t].up != [] && s.nodes[t].up[0].Ack?
    ensures !s.entry.stable && !s.lock.Free? && !s.lock.Memory?
  {
    assert HasAck(s.nodes[t].up);
    if s.lock.Free? || s.lock.Memory? { NobodyBusy(s, t); }
  }

  lemma ServeKeeps(s: State, t: nat, env: Env)
    requires Inv(s) && t < |s.nodes|
    ensures Inv(DoServe(s, t, env))
  {
    if CanServe(s, t, env) {
      if s.nodes[t].parked.value.op.MissRead? { ServeReadKeeps(s, t, env); } else { ServeWriteKeeps(s, t, env); }
    }
  }

  lemma YieldKeeps(s: State, threshold: nat)
    requires Inv(s)
    ensures Inv(DoYield(s, threshold))
  {
    if s.entry.stable && !s.entry.ptrEn {
      if GiveVector(s.entry, |s.nodes|, threshold).1.Degrade? { YieldDegrades(s, threshold); }
      else { YieldKeepsUnlocked(s, threshold); }
    }
  }

  lemma {:induction false} RunInv(n: nat, steps: seq<Step>)
    ensures Inv(Run(n, steps))
  {
    if steps == [] {
      StartInv(n);
    } else {
      RunInv(n, steps[..|steps|-1]);
      NextKeeps(Run(n, steps[..|steps|-1]), steps[|steps|-1]);
    }
  }
}
