/** The directory entry as the home node keeps it, updated in place by one method
    per event. Each method is proved against the handler of Protocol. */
module HomeNode {
  import opened Protocol

  /** The threads below k other than tid whose bit is set. */
  ghost function Below(bits: seq<bool>, k: nat, tid: nat): set<nat>
    requires k <= |bits|
  {
    if k == 0 then {} else Below(bits, k - 1, tid) + if bits[k - 1] && k - 1 != tid then {k - 1} else {}
  }

  lemma {:induction false} BelowIs(bits: seq<bool>, k: nat, tid: nat)
    requires k <= |bits|
    ensures forall i: nat :: i in Below(bits, k, tid) <==> i < k && bits[i] && i != tid
  {
    if k > 0 { BelowIs(bits, k - 1, tid); }
  }

  lemma BelowAll(bits: seq<bool>, tid: nat, sharers: set<nat>)
    requires forall i: nat :: i in sharers <==> i < |bits| && bits[i]
    ensures Below(bits, |bits|, tid) == sharers - {tid}
    ensures tid >= |bits| ==> Below(bits, |bits|, tid) == sharers
  {
    BelowIs(bits, |bits|, tid);
  }

  lemma BelowStep(bits: seq<bool>, k: nat, tid: nat)
    requires k < |bits|
    ensures var s, s' := Below(bits, k, tid), Below(bits, k + 1, tid);
            if bits[k] && k != tid then |s'| == |s| + 1 && (|s| == 0 ==> s' == {k}) else s' == s
  {
    BelowIs(bits, k, tid);
  }

  lemma SurveyCounted(s: set<nat>, count: nat, last: nat)
    requires count == |s| && (count == 1 ==> s == {last})
    ensures Survey(s) == if count == 0 then Nobody else if count == 1 then Only(last) else Several
  {
    SurveyIs(s, last);
  }

  class DirectoryEntry {
    const threads: nat
    const dirSharer: array<bool>
    var stable: bool
    var blkState: Mesi
    var dirDirty: int
    var ptrEn: bool
    var allSharedEn: bool

    ghost predicate Valid()
    {
      dirSharer.Length == threads
    }

    ghost function Sharers(): (s: set<nat>)
      reads dirSharer
      requires Valid()
      ensures forall i: nat :: i in s <==> i < threads && dirSharer[i]
    {
      set i: nat | i < threads && dirSharer[i]
    }

    ghost function View(): Entry
      reads this, dirSharer
      requires Valid()
    {
      Entry(Sharers(), stable, blkState, dirDirty, ptrEn, allSharedEn)
    }

    constructor (n: nat)
      ensures Valid() && threads == n && fresh(dirSharer)
      ensures View() == Entry({}, true, Invalid, -1, false, false)
    {
      threads := n;
      var bits := new bool[n](_ => false);
      dirSharer := bits;
      stable, blkState, dirDirty, ptrEn, allSharedEn := true, Invalid, -1, false, false;
      new;
      assert Sharers() == {};
    }

    /** Is_Shared: how many threads the vector names. */
    method CountSharers() returns (count: nat)
      requires Valid()
      ensures count == |Sharers()|
    {
      count := 0;
      ghost var bits := dirSharer[..];
      for i := 0 to threads
        invariant count == |Below(bits, i, threads)|
      {
        BelowStep(bits, i, threads);
        if dirSharer[i] { count := count + 1; }
      }
      BelowAll(bits, threads, Sharers());
    }

    /** IsShared and IsExclusiveOrDirty in one scan: the threads other than tid
        that the vector names, counted up to two. */
    method SurveyOthers(tid: nat) returns (v: View)
      requires Valid()
      ensures v == Survey(Sharers() - {tid})
    {
      var count, last := 0, 0;
      ghost var bits := dirSharer[..];
      for i := 0 to threads
        invariant count == |Below(bits, i, tid)|
        invariant count == 1 ==> Below(bits, i, tid) == {last}
      {
        BelowStep(bits, i, tid);
        if dirSharer[i] && i != tid {
          count := count + 1;
          last := i;
        }
      }
      BelowAll(bits, tid, Sharers());
      SurveyCounted(Sharers() - {tid}, count, last);
      v := if count == 0 then Nobody else if count == 1 then Only(last) else Several;
    }

    method SurveyAll() returns (v: View)
      requires Valid()
      ensures v == Survey(Sharers())
    {
      v := SurveyOthers(threads);
      assert Sharers() - {threads} == Sharers();
    }

    method ClearBit(t: nat)
      requires Valid()
      modifies dirSharer
      ensures Sharers() == old(Sharers()) - {t}
    {
      if t < threads { dirSharer[t] := false; }
    }

    method SetBit(t: nat)
      requires Valid() && t < threads
      modifies dirSharer
      ensures Sharers() == old(Sharers()) + {t}
    {
      dirSharer[t] := true;
    }

    method SetOnly(t: nat)
      requires Valid() && t < threads
      modifies dirSharer
      ensures Sharers() == {t}
    {
      forall i | 0 <= i < threads { dirSharer[i] := i == t; }
    }

    method ClearAll()
      requires Valid()
      modifies dirSharer
      ensures Sharers() == {}
    {
      forall i | 0 <= i < threads { dirSharer[i] := false; }
    }

    /** No copy in the data L2. */
    method StartFetch(req: Request, env: Env) returns (out: Outcome)
      requires Valid()
      modifies this`stable
      ensures (View(), out) == Fetch(old(View()), req, env)
    {
      if env.mshrFree { stable := false; out := FetchMemory(req); }
      else { stable := true; out := Retry(req); }
    }

    method ForgetBit(tid: nat)
      requires Valid()
      modifies this`blkState, dirSharer
      ensures View() == ForgetRequester(old(View()), tid)
    {
      if !allSharedEn {
        ClearBit(tid);
        var left := SurveyAll();
        if left.Only? { blkState := Exclusive; }
      }
    }

    /** MISS_READ. */
    method MissRead(req: Request, env: Env) returns (out: Outcome)
      requires Valid() && req.tid < threads
      modifies this, dirSharer
      ensures (View(), out) == ServeRead(old(View()), req, env)
    {
      if !stable { return Retry(req); }
      ForgetBit(req.tid);
      out := ReadBranch(req, env);
    }

    method ReadBranch(req: Request, env: Env) returns (out: Outcome)
      requires Valid() && req.tid < threads
      modifies this, dirSharer
      ensures (View(), out) == ReadCases(old(View()), req, env)
    {
      var others := SurveyOthers(req.tid);
      if others.Only? && blkState != Shared {
        if ptrEn {
          if allSharedEn { return Panic; }
          if !env.vectorFree { return Retry(req); }
          ptrEn := false;
        }
        stable := false;
        out := ProbeOwner(req.(shrDataReq := !env.dl2Hit), others.id);
      } else if others.Nobody? {
        if ptrEn && allSharedEn { return Panic; }
        if env.dl2Hit {
          SetOnly(req.tid);
          blkState := Exclusive;
          out := Reply(GrantExclusive);
        } else {
          out := StartFetch(req, env);
        }
      } else {
        if ptrEn && !allSharedEn { return Panic; }
        if env.dl2Hit {
          SetBit(req.tid);
          blkState := Shared;
          out := Reply(GrantShared);
        } else if env.dest.None? || allSharedEn {
          out := StartFetch(req, env);
        } else {
          stable := false;
          out := AskSharer(req.(shrDataReq := true), env.dest.value);
        }
      }
    }

    method GrantWriteTo(tid: nat, g: GrantKind) returns (out: Outcome)
      requires Valid() && tid < threads
      modifies this, dirSharer
      ensures (View(), out) == GiveWrite(old(View()), tid, g)
    {
      stable, blkState, dirDirty := true, Modified, tid;
      SetOnly(tid);
      out := Reply(g);
    }

    /** The scan that sends the invalidations. */
    method CollectTargets(tid: nat, ask: bool) returns (targets: set<nat>, dataFrom: int)
      requires Valid()
      ensures targets == Sharers() - {tid}
      ensures dataFrom == if ask then Least(Sharers() - {tid}, threads) else -1
    {
      targets, dataFrom := {}, -1;
      for i := 0 to threads
        invariant targets == set k: nat | k < i && dirSharer[k] && k != tid
        invariant dataFrom == if ask then Least(Sharers() - {tid}, i) else -1
      {
        if dirSharer[i] && i != tid {
          targets := targets + {i};
          if ask && dataFrom == -1 { dataFrom := i; }
        }
      }
      assert targets == Sharers() - {tid};
    }

    /** Does the vector name every thread? */
    method IsFull() returns (full: bool)
      requires Valid()
      ensures full <==> Sharers() == AllThreads(threads)
    {
      for i := 0 to threads
        invariant forall k :: 0 <= k < i ==> dirSharer[k]
      {
        if !dirSharer[i] {
          assert i in AllThreads(threads) && i !in Sharers();
          return false;
        }
      }
      assert Sharers() == AllThreads(threads);
      full := true;
    }

    method InvalidateAll(req: Request, env: Env) returns (out: Outcome)
      requires Valid() && req.tid < threads
      modifies this, dirSharer
      ensures (View(), out) == InvalidateOthers(old(View()), req, env, threads)
    {
      var full := IsFull();
      if ptrEn && allSharedEn && !full { return Panic; }
      allSharedEn := false;
      stable := false;
      var op := if req.op.WriteUpdate? && dirSharer[req.tid] then WriteUpdate else Op.MissWrite;
      var ask := op.MissWrite? && !env.dl2Hit;
      var targets, dataFrom := CollectTargets(req.tid, ask);
      out := Invalidate(req.(op := op, shrDataReq := req.shrDataReq || ask), targets, dataFrom);
    }

    /** MISS_WRITE and WRITE_UPDATE. */
    method Write(req: Request, env: Env) returns (out: Outcome)
      requires Valid() && req.tid < threads
      modifies this, dirSharer
      ensures (View(), out) == ServeWrite(old(View()), req, env, threads)
    {
      if !stable { return Retry(req); }
      var others := SurveyOthers(req.tid);
      var isSharer := dirSharer[req.tid];
      assert others.Nobody? && isSharer <==> Sharers() == {req.tid} by { LoneSharer(Sharers(), req.tid); }
      if !others.Only? && dirDirty != -1 && !(others.Nobody? && isSharer) { return Panic; }
      if !others.Nobody? {
        out := InvalidateAll(req, env);
      } else if req.op.WriteUpdate? && isSharer {
        out := GrantWriteTo(req.tid, GrantUpdate);
      } else if env.dl2Hit {
        out := GrantWriteTo(req.tid, GrantWrite);
      } else {
        out := StartFetch(req.(op := Op.MissWrite), env);
      }
    }

    method RecountBits()
      requires Valid()
      modifies this
      ensures View() == Recount(old(View()))
    {
      var v := SurveyAll();
      match v
      case Nobody => blkState, dirDirty := Invalid, -1;
      case Only(_) => blkState := Exclusive;
      case Several =>
    }

    /** WRITE_BACK and INFORM_BACK. */
    method Back(t: nat, dirtyData: bool) returns (out: Outcome)
      requires Valid()
      modifies this, dirSharer
      ensures (View(), out) == TakeBack(old(View()), t, dirtyData, threads)
    {
      var full := IsFull();
      if ptrEn && allSharedEn && !full { return Panic; }
      if allSharedEn && dirtyData { return Panic; }
      if !allSharedEn {
        ClearBit(t);
        RecountBits();
      }
      out := Done;
    }

    method ReplyRead(tid: nat) returns (out: Outcome)
      requires Valid() && tid < threads
      modifies this, dirSharer
      ensures (View(), out) == ReadReply(old(View()), tid)
    {
      var others := SurveyOthers(tid);
      stable := true;
      SetBit(tid);
      blkState := if others.Nobody? then Exclusive else Shared;
      out := Reply(if others.Nobody? then GrantExclusive else GrantShared);
    }

    /** ACK_MSG_READ and ACK_MSG_READUPDATE. */
    method ReadAck(req: Request, from: nat, hit: bool, env: Env) returns (out: Outcome)
      requires Valid() && req.tid < threads
      modifies this, dirSharer
      ensures (View(), out) == TakeReadAck(old(View()), req, from, hit, env)
    {
      if stable { return Panic; }
      var found := req.l1Hit || hit;
      var r := req.(l1Hit := found, shrDataReq := req.shrDataReq && !hit);
      if !found {
        if allSharedEn { return Panic; }
        ClearBit(from);
        blkState, dirDirty := Invalid, -1;
      }
      if r.shrDataReq && !env.dl2Hit {
        out := StartFetch(r, env);
      } else {
        out := ReplyRead(req.tid);
        dirDirty := -1;
      }
    }

    /** ACK_SHR_READ. */
    method SharerAck(req: Request, from: nat, hit: bool, env: Env) returns (out: Outcome)
      requires Valid() && req.tid < threads
      modifies this, dirSharer
      ensures (View(), out) == TakeSharerAck(old(View()), req, from, hit, env)
    {
      if allSharedEn { return Panic; }
      stable := true;
      if !hit { ClearBit(from); }
      RecountBits();
      if hit || env.dl2Hit {
        if ptrEn { return Panic; }
        out := ReplyRead(req.tid);
      } else {
        out := Retry(req.(l1Hit := false));
      }
    }

    /** ACK_MSG_WRITE and ACK_MSG_WRITEUPDATE of a write; `left` is the parent's
        childCount after this ack. */
    method WriteAck(req: Request, from: nat, hit: bool, wantsData: bool, left: nat, env: Env)
      returns (out: Outcome)
      requires Valid() && req.tid < threads
      modifies this, dirSharer
      ensures (View(), out) == TakeWriteAck(old(View()), req, from, hit, wantsData, left, env)
    {
      if stable { return Panic; }
      var r := if hit && wantsData then req.(shrDataReq := false) else req;
      ClearBit(from);
      if left != 0 { return KeepWaiting(r); }
      allSharedEn := false;
      if !r.shrDataReq || env.dl2Hit {
        out := GrantWriteTo(req.tid, if req.op.WriteUpdate? then GrantUpdate else GrantWrite);
      } else {
        blkState, dirDirty := Invalid, -1;
        ClearAll();
        out := StartFetch(r, env);
      }
    }

    /** The same acks when they answer the degrading of this entry's vector. */
    method DegradeAck(left: nat) returns (out: Outcome)
      requires Valid()
      modifies this
      ensures (View(), out) == TakeDegradeAck(old(View()), left)
    {
      if stable { return Panic; }
      if left == 0 { allSharedEn, stable, dirDirty := false, true, -1; }
      out := Done;
    }
  }

  lemma SurveyIs(s: set<nat>, x: nat)
    requires |s| == 1 ==> s == {x}
    ensures |s| == 1 ==> Survey(s) == Only(x)
  {
    if |s| == 1 {
      var v := Survey(s);
      assert v.Only?;
      assert x in {v.id};
    }
  }

  lemma LoneSharer(s: set<nat>, x: nat)
    ensures s - {x} == {} && x in s <==> s == {x}
  {
    if s - {x} == {} && x in s { assert s == {x} + (s - {x}); }
  }
}
