/** All entries of a directory set running together: each is a block with its own caches' lines and
    messages, and they share the vectors. A read that needs one takes it from another entry in the same
    step, and whether there is one is found in the set itself. */
module VectorRuns {
  import opened Protocol
  import opened Coherence
  import opened CoherenceProof
  import opened DirectorySet
  import opened WayList

  ghost function Entries(blocks: seq<State>): (es: seq<Entry>)
    ensures |es| == |blocks| && forall i :: 0 <= i < |es| ==> es[i] == blocks[i].entry
  {
    seq(|blocks|, i requires 0 <= i < |blocks| => blocks[i].entry)
  }

  ghost predicate Spare(es: seq<Entry>) { exists i :: 0 <= i < |es| && MayGive(es[i]) }

  /** A step of one block. Should it take a vector, the way list has the given order, and the scan of it
      ends at `place`. */
  datatype Event = Event(block: nat, step: Step, order: seq<int>, place: nat)

  /** The step with the answer of the scan filled in. */
  ghost function Scanning(es: seq<Entry>, step: Step): Step {
    match step
    case Serve(t, env) => Serve(t, env.(vectorFree := Spare(es)))
    case _ => step
  }

  /** The read that probes an owner from a pointer entry. */
  ghost predicate Takes(s: State, step: Step) {
    && step.Serve? && CanServe(s, step.t, step.env) && s.nodes[step.t].parked.value.op.MissRead?
    && s.entry.ptrEn && ServeRead(s.entry, s.nodes[step.t].parked.value, step.env).1.ProbeOwner?
  }

  ghost predicate May(blocks: seq<State>, e: Event) {
    && e.block < |blocks| && !e.step.Yield?
    && (Takes(blocks[e.block], Scanning(Entries(blocks), e.step)) ==>
          Permutes(e.order, |blocks|) && Picks(Entries(blocks), e.order, e.place))
  }

  ghost function NextSet(blocks: seq<State>, e: Event, threshold: nat): seq<State>
    requires May(blocks, e)
  {
    var step := Scanning(Entries(blocks), e.step);
    var served := blocks[e.block := Next(blocks[e.block], step)];
    if Takes(blocks[e.block], step) then
      var v := FromTail(e.order, e.place);
      served[v := DoYield(blocks[v], threshold)]
    else served
  }

  /** ---------------- which steps touch a vector ---------------- */

  lemma ApplyEntry(s: State, tid: nat, out: Outcome)
    requires tid < |s.nodes|
    ensures Apply(s, tid, out).entry == s.entry
  {
  }

  lemma ServeVector(s: State, t: nat, env: Env)
    requires CanServe(s, t, env)
    ensures DoServe(s, t, env).entry.ptrEn == (s.entry.ptrEn && !Takes(s, Serve(t, env)))
    ensures Takes(s, Serve(t, env)) ==> env.vectorFree
  {
    var req := s.nodes[t].parked.value;
    var (e, out) := if req.op.MissRead? then ServeRead(s.entry, req, env) else ServeWrite(s.entry, req, env, |s.nodes|);
    ServeIsApply(s, t, env, e, out);
    ApplyEntry(Put(s, t, s.nodes[t].(parked := None)).(entry := e), t, out);
    ReadTakesVectorExactly(s.entry, req, env);
    WritesKeepVector(s.entry, req, env, |s.nodes|, t, false);
  }

  lemma ProbeAckVector(s: State, t: nat, env: Env)
    requires Inv(s) && t < |s.nodes| && s.nodes[t].up != [] && s.nodes[t].up[0].Ack? && Holder(s.lock).Some?
    ensures DoArrive(s, t, env).entry.ptrEn == s.entry.ptrEn
  {
    var m := s.nodes[t].up[0];
    AckFindsHolder(s, t);
    var req := Holder(s.lock).value;
    var (e, out) := if s.lock.Probing? then TakeReadAck(s.entry, req, t, m.hit, env)
                    else if s.lock.Sharing? then TakeSharerAck(s.entry, req, t, m.hit, env)
                    else TakeWriteAck(s.entry, req, t, m.hit, m.wantsData, s.lock.childCount - 1, env);
    AckIsApply(s, t, env, e, out);
    AcksKeepVector(s.entry, req, env, t, m.hit, m.wantsData, if s.lock.Invalidating? then s.lock.childCount - 1 else 0);
    ApplyEntry(Put(s, t, s.nodes[t].(up := s.nodes[t].up[1..])).(entry := e), req.tid, out);
  }

  lemma DegradeAckVector(s: State, t: nat, env: Env)
    requires Inv(s) && t < |s.nodes| && s.nodes[t].up != [] && s.nodes[t].up[0].Ack? && Holder(s.lock).None?
    ensures DoArrive(s, t, env).entry.ptrEn == s.entry.ptrEn
  {
    AckFindsHolder(s, t);
    var (e, out) := TakeDegradeAck(s.entry, s.lock.childCount - 1);
  }

  lemma BackVector(s: State, t: nat, env: Env)
    requires Inv(s) && t < |s.nodes| && s.nodes[t].up != [] && IsBack(s.nodes[t].up[0])
    ensures DoArrive(s, t, env).entry.ptrEn == s.entry.ptrEn
  {
    var s1 := Put(s, t, s.nodes[t].(up := s.nodes[t].up[1..]));
    var (e, out) := TakeBack(s.entry, t, s.nodes[t].up[0].WriteBack?, |s.nodes|);
    ApplyEntry(s1.(entry := e), t, out);
  }

  lemma ArriveVector(s: State, t: nat, env: Env)
    requires Inv(s) && t < |s.nodes|
    ensures DoArrive(s, t, env).entry.ptrEn == s.entry.ptrEn
  {
    if s.nodes[t].up != [] {
      if s.nodes[t].up[0].Ack? {
        if Holder(s.lock).Some? { ProbeAckVector(s, t, env); } else { DegradeAckVector(s, t, env); }
      } else if IsBack(s.nodes[t].up[0]) {
        BackVector(s, t, env);
      }
    }
  }

  lemma LocalVector(s: State, step: Step)
    requires step.Load? || step.Store? || step.Evict? || step.Receive? || step.MemoryReply?
    ensures Next(s, step).entry.ptrEn == s.entry.ptrEn
  {
  }

  /** The only step of a block, its own yields aside, that changes who owns a vector. */
  lemma StepVector(s: State, step: Step)
    requires Inv(s) && !step.Yield?
    ensures Next(s, step).entry.ptrEn == (s.entry.ptrEn && !Takes(s, step))
    ensures Takes(s, step) ==> step.env.vectorFree
  {
    match step
    case Serve(t, env) => if CanServe(s, t, env) { ServeVector(s, t, env); }
    case Arrive(t, env) => if t < |s.nodes| { ArriveVector(s, t, env); }
    case _ => LocalVector(s, step);
  }

  /** And the giver of an exchange ends without one; it does not panic. */
  lemma GiverVector(s: State, threshold: nat)
    requires Inv(s) && MayGive(s.entry)
    ensures GiveVector(s.entry, |s.nodes|, threshold).1 != GivePanic
    ensures DoYield(s, threshold).entry.ptrEn && Inv(DoYield(s, threshold))
  {
    GiveVectorEntry(s.entry, |s.nodes|, threshold);
    GiverIsPointer(s, threshold);
    YieldKeeps(s, threshold);
  }

  lemma GiverIsPointer(s: State, threshold: nat)
    requires MayGive(s.entry) && GiveVector(s.entry, |s.nodes|, threshold).1 != GivePanic
    ensures DoYield(s, threshold).entry.ptrEn
  {
  }

  /** ---------------- the invariant of a set ---------------- */

  ghost predicate SetInv(blocks: seq<State>, vectors: nat) {
    && (forall i :: 0 <= i < |blocks| ==> Inv(blocks[i]))
    && |VectorEntries(Entries(blocks))| == vectors
  }

  lemma PickedGives(blocks: seq<State>, e: Event)
    requires May(blocks, e) && Takes(blocks[e.block], Scanning(Entries(blocks), e.step))
    ensures var v := FromTail(e.order, e.place); 0 <= v < |blocks| && v != e.block && MayGive(blocks[v].entry)
  {
  }

  lemma LocalSet(blocks: seq<State>, vectors: nat, m: nat, s: State)
    requires SetInv(blocks, vectors) && m < |blocks| && Inv(s) && s.entry.ptrEn == blocks[m].entry.ptrEn
    ensures SetInv(blocks[m := s], vectors)
  {
    assert VectorEntries(Entries(blocks[m := s])) == VectorEntries(Entries(blocks));
  }

  lemma ExchangeSet(blocks: seq<State>, vectors: nat, m: nat, v: nat, s: State, g: State)
    requires SetInv(blocks, vectors) && m < |blocks| && v < |blocks| && m != v && Inv(s) && Inv(g)
    requires blocks[m].entry.ptrEn && !s.entry.ptrEn && !blocks[v].entry.ptrEn && g.entry.ptrEn
    ensures SetInv(blocks[m := s][v := g], vectors)
  {
    CardSwap(VectorEntries(Entries(blocks)), VectorEntries(Entries(blocks[m := s][v := g])), v, m);
  }

  lemma SetKeeps(blocks: seq<State>, vectors: nat, e: Event, threshold: nat)
    requires SetInv(blocks, vectors) && May(blocks, e)
    ensures SetInv(NextSet(blocks, e, threshold), vectors)
  {
    var step, s := Scanning(Entries(blocks), e.step), blocks[e.block];
    NextKeeps(s, step);
    StepVector(s, step);
    if Takes(s, step) {
      PickedGives(blocks, e);
      var v := FromTail(e.order, e.place);
      GiverVector(blocks[v], threshold);
      ExchangeSet(blocks, vectors, e.block, v, Next(s, step), DoYield(blocks[v], threshold));
    } else {
      LocalSet(blocks, vectors, e.block, Next(s, step));
    }
  }

  /** The scan of a way list in any order ends at a pick whenever there is a vector to take. */
  lemma {:induction false} ScanPicks(es: seq<Entry>, o: seq<int>, j: nat, found: bool, k: nat) returns (place: nat)
    requires Permutes(o, |es|) && j <= |es| && Scanned(es, o, j, found, k) && Spare(es)
    ensures Picks(es, o, place)
    decreases |es| - j
  {
    if j == |es| {
      ScanEnd(es, o, found, k);
      place := k;
    } else {
      ScanStep(es, o, j, found, k);
      if GivesFreely(es[FromTail(o, j)]) {
        place := j;
      } else if !found && MayGive(es[FromTail(o, j)]) {
        place := ScanPicks(es, o, j + 1, true, j);
      } else {
        place := ScanPicks(es, o, j + 1, found, k);
      }
    }
  }

  /** So a step of a block is never stuck for want of a giver. */
  lemma NeverStuck(blocks: seq<State>, m: nat, step: Step, order: seq<int>) returns (place: nat)
    requires m < |blocks| && Inv(blocks[m]) && !step.Yield? && Permutes(order, |blocks|)
    ensures May(blocks, Event(m, step, order, place))
  {
    var es := Entries(blocks);
    place := 0;
    if Takes(blocks[m], Scanning(es, step)) {
      StepVector(blocks[m], Scanning(es, step));
      place := ScanPicks(es, order, 0, false, 0);
    }
  }

  /** ---------------- runs ---------------- */

  /** Empty caches; the entries in `owners` have the vectors. */
  ghost function Fresh(n: nat, ways: nat, owners: set<int>): (blocks: seq<State>)
    ensures |blocks| == ways
  {
    seq(ways, i => Start(n).(entry := Start(n).entry.(ptrEn := i !in owners)))
  }

  lemma FreshInv(n: nat, ways: nat, owners: set<int>)
    requires forall i :: i in owners ==> 0 <= i < ways
    ensures SetInv(Fresh(n, ways, owners), |owners|)
  {
    var blocks := Fresh(n, ways, owners);
    forall i | 0 <= i < ways ensures Inv(blocks[i]) {
      StartInv(n);
      var s := Start(n);
      forall t: nat | t < n ensures NodeInv(blocks[i].nodes[t], t, blocks[i].entry, blocks[i].lock) {
        assert NodeInv(s.nodes[t], t, s.entry, s.lock);
      }
    }
    assert VectorEntries(Entries(blocks)) == owners;
  }

  ghost predicate Runs(blocks: seq<State>, events: seq<Event>, threshold: nat, blocks': seq<State>)
    decreases events
  {
    if events == [] then blocks' == blocks
    else May(blocks, events[0]) && Runs(NextSet(blocks, events[0], threshold), events[1..], threshold, blocks')
  }

  lemma {:induction false} RunKeeps(blocks: seq<State>, vectors: nat, events: seq<Event>, threshold: nat, blocks': seq<State>)
    requires SetInv(blocks, vectors) && Runs(blocks, events, threshold, blocks')
    ensures SetInv(blocks', vectors)
    decreases events
  {
    if events != [] {
      SetKeeps(blocks, vectors, events[0], threshold);
      RunKeeps(NextSet(blocks, events[0], threshold), vectors, events[1..], threshold, blocks');
    }
  }

  /** On every run of a set that starts with vector_num vectors, exactly as many entries own one; no entry
      has panicked, in an exchange or elsewhere; and each is as the protocol of a single block keeps it. */
  lemma VectorsConserved(n: nat, ways: nat, owners: set<int>, events: seq<Event>, threshold: nat, blocks: seq<State>)
    requires forall i :: i in owners ==> 0 <= i < ways
    requires Runs(Fresh(n, ways, owners), events, threshold, blocks)
    ensures |VectorEntries(Entries(blocks))| == |owners|
    ensures forall i :: 0 <= i < |blocks| ==> Inv(blocks[i]) && !blocks[i].panicked
  {
    FreshInv(n, ways, owners);
    RunKeeps(Fresh(n, ways, owners), |owners|, events, threshold, blocks);
  }

  /** So in every block of the set a writer is alone, as in CoherenceTheorems. */
  lemma SingleWriterInSet(n: nat, ways: nat, owners: set<int>, events: seq<Event>, threshold: nat, blocks: seq<State>,
                          i: nat, t: nat, u: nat)
    requires forall i :: i in owners ==> 0 <= i < ways
    requires Runs(Fresh(n, ways, owners), events, threshold, blocks)
    requires i < |blocks| && t < |blocks[i].nodes| && u < |blocks[i].nodes| && t != u
    requires ExclusiveCopy(blocks[i].nodes[t])
    ensures !Copy(blocks[i].nodes[u])
  {
    VectorsConserved(n, ways, owners, events, threshold, blocks);
    var s := blocks[i];
    assert NodeInv(s.nodes[t], t, s.entry, s.lock) && NodeInv(s.nodes[u], u, s.entry, s.lock);
  }
}
