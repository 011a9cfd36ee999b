/** The vocabulary of the directory protocol for one memory block: the L1 line,
    the directory entry, the messages, and what each handler of the home node
    does to one entry.  Every handler is a total function of the entry, the
    event and the facts the home node looks up elsewhere (is the data in L2, is
    there room in the L2 MSHR, is there a free vector entry in the set); a panic
    of the simulator is an explicit outcome. */
module Protocol {

  datatype Option<+T> = None | Some(value: T)

  /** MESI_INVALID .. MESI_EXCLUSIVE. */
  datatype Mesi = Invalid | Shared | Modified | Exclusive

  /** One L1 line: the two status bits and the coherence state.  A line can be
      invalid in `status` while `state` still says Shared: that is how a store
      to a shared line leaves it. */
  datatype L1Line = L1Line(valid: bool, dirty: bool, state: Mesi)

  const NoLine := L1Line(false, false, Invalid)

  datatype Op = MissRead | MissWrite | WriteUpdate

  /** The requester's event, as it travels and is queued at the home node. */
  datatype Request = Request(tid: nat, op: Op, shrDataReq: bool, l1Hit: bool)

  datatype ProbeKind = InvRead | InvWrite | ShrRead

  datatype GrantKind = GrantExclusive | GrantShared | GrantWrite | GrantUpdate

  datatype Down =
    | Grant(grant: GrantKind)
    | Probe(kind: ProbeKind, wantsData: bool)

  datatype Up =
    | Req(req: Request)
    | WriteBack
    | InformBack
    | Ack(kind: ProbeKind, hit: bool, wantsData: bool)

  /** The directory entry, one block wide. `dirty` is a thread or -1. */
  datatype Entry = Entry(
    sharers: set<nat>,
    stable: bool,
    blkState: Mesi,
    dirty: int,
    ptrEn: bool,
    allShared: bool)

  /** What a handler does besides changing the entry. */
  datatype Outcome =
    | Retry(req: Request)                              // put back in the event queue
    | Reply(grant: GrantKind)                          // answer the requester
    | FetchMemory(req: Request)                        // WAIT_MEM_READ holds the entry
    | ProbeOwner(req: Request, owner: nat)             // INV_MSG_READ
    | AskSharer(req: Request, dest: nat)               // DIR_SHR_READ
    | Invalidate(req: Request, targets: set<nat>, dataFrom: int) // INV_MSG_WRITE to each
    | KeepWaiting(req: Request)                        // more acks outstanding
    | Done                                             // nothing to send
    | Panic

  /** What the home node finds out while it handles one event. */
  datatype Env = Env(dl2Hit: bool, mshrFree: bool, vectorFree: bool, dest: Option<nat>)

  /** The full vector of n threads. */
  ghost function AllThreads(n: nat): (all: set<nat>)
    ensures forall i: nat :: i in all <==> i < n
    ensures |all| == n
  {
    if n == 0 then {} else AllThreads(n - 1) + {n - 1}
  }

  datatype View = Nobody | Only(id: nat) | Several

  /** The three answers the sharer counters can give. */
  ghost function Survey(s: set<nat>): (v: View)
    ensures v.Nobody? <==> s == {}
    ensures v.Only? ==> s == {v.id}
    ensures v.Several? <==> |s| >= 2
  {
    if s == {} then Nobody
    else
      var x :| x in s;
      assert |s| == |s - {x}| + 1;
      if s == {x} then Only(x)
      else
        assert s - {x} != {};
        Several
  }

  /** dir_blk_state after sharer bits were cleared: a lone survivor is Exclusive. */
  ghost function Recount(e: Entry): Entry {
    match Survey(e.sharers)
    case Nobody => e.(blkState := Invalid, dirty := -1)
    case Only(_) => e.(blkState := Exclusive)
    case Several => e
  }

  /** A miss that the data L2 cannot serve: wait for memory or be put back. */
  ghost function Fetch(e: Entry, req: Request, env: Env): (Entry, Outcome) {
    if env.mshrFree then (e.(stable := false), FetchMemory(req))
    else (e.(stable := true), Retry(req))
  }

  ghost function ForgetRequester(e: Entry, tid: nat): Entry {
    if e.allShared then e
    else
      var left := e.sharers - {tid};
      e.(sharers := left, blkState := if Survey(left).Only? then Exclusive else e.blkState)
  }

  /** A read miss, once the requester's own bit is out of the way. */
  ghost function ReadCases(e: Entry, req: Request, env: Env): (Entry, Outcome) {
    var others := Survey(e.sharers - {req.tid});
    if others.Only? && e.blkState != Shared then
      if e.ptrEn && e.allShared then (e, Panic)
      else if e.ptrEn && !env.vectorFree then (e, Retry(req))
      else (e.(ptrEn := false, stable := false),
            ProbeOwner(req.(shrDataReq := !env.dl2Hit), others.id))
    else if others.Nobody? then
      if e.ptrEn && e.allShared then (e, Panic)
      else if env.dl2Hit then
        (e.(sharers := {req.tid}, blkState := Exclusive), Reply(GrantExclusive))
      else Fetch(e, req, env)
    else
      if e.ptrEn && !e.allShared then (e, Panic)
      else if env.dl2Hit then
        (e.(sharers := e.sharers + {req.tid}, blkState := Shared), Reply(GrantShared))
      else if env.dest.None? || e.allShared then Fetch(e, req, env)
      else (e.(stable := false), AskSharer(req.(shrDataReq := true), env.dest.value))
  }

  /** MISS_READ at the home node. */
  ghost function ServeRead(e: Entry, req: Request, env: Env): (Entry, Outcome) {
    if !e.stable then (e, Retry(req))
    else ReadCases(ForgetRequester(e, req.tid), req, env)
  }

  ghost function GiveWrite(e: Entry, tid: nat, g: GrantKind): (Entry, Outcome) {
    (e.(sharers := {tid}, stable := true, blkState := Modified, dirty := tid), Reply(g))
  }

  /** A write that has to invalidate the other sharers first. */
  ghost function InvalidateOthers(e: Entry, req: Request, env: Env, n: nat): (Entry, Outcome) {
    if e.ptrEn && e.allShared && e.sharers != AllThreads(n) then (e, Panic)
    else
      var others := e.sharers - {req.tid};
      var op := if req.op.WriteUpdate? && req.tid in e.sharers then WriteUpdate else MissWrite;
      var ask := op.MissWrite? && !env.dl2Hit;
      (e.(allShared := false, stable := false),
       Invalidate(req.(op := op, shrDataReq := req.shrDataReq || ask), others,
                  if ask then Least(others, n) else -1))
  }

  /** MISS_WRITE and WRITE_UPDATE at the home node. */
  ghost function ServeWrite(e: Entry, req: Request, env: Env, n: nat): (Entry, Outcome) {
    if !e.stable then (e, Retry(req))
    else
      var others := e.sharers - {req.tid};
      if !Survey(others).Only? && e.dirty != -1 && e.sharers != {req.tid} then (e, Panic)
      else if others == {} then
        if req.op.WriteUpdate? && req.tid in e.sharers then GiveWrite(e, req.tid, GrantUpdate)
        else if env.dl2Hit then GiveWrite(e, req.tid, GrantWrite)
        else Fetch(e, req.(op := MissWrite), env)
      else InvalidateOthers(e, req, env, n)
  }

  /** The sharer that the scan over thread ids meets first. */
  ghost function Least(s: set<nat>, n: nat): (r: int)
    ensures r == -1 || r in s
    ensures r == -1 ==> forall i: nat | i < n :: i !in s
    ensures forall i: nat | i < r :: i !in s
  {
    if n == 0 then -1
    else
      var r := Least(s, n - 1);
      if r != -1 then r
      else if n - 1 in s then n - 1
      else -1
  }

  /** WRITE_BACK and INFORM_BACK from thread t. */
  ghost function TakeBack(e: Entry, t: nat, dirtyData: bool, n: nat): (Entry, Outcome) {
    if e.ptrEn && e.allShared && e.sharers != AllThreads(n) then (e, Panic)
    else if e.allShared && dirtyData then (e, Panic)
    else if e.allShared then (e, Done)
    else (Recount(e.(sharers := e.sharers - {t})), Done)
  }

  ghost function ReadReply(e: Entry, tid: nat): (Entry, Outcome) {
    var alone := e.sharers - {tid} == {};
    (e.(sharers := e.sharers + {tid}, stable := true,
        blkState := if alone then Exclusive else Shared),
     Reply(if alone then GrantExclusive else GrantShared))
  }

  /** ACK_MSG_READ / ACK_MSG_READUPDATE from `from`. */
  ghost function TakeReadAck(e: Entry, req: Request, from: nat, hit: bool, env: Env): (Entry, Outcome) {
    if e.stable then (e, Panic)
    else
      var found := req.l1Hit || hit;
      var r := req.(l1Hit := found, shrDataReq := req.shrDataReq && !hit);
      if !found && e.allShared then (e, Panic)
      else
        var e1 := if found then e
                  else e.(sharers := e.sharers - {from}, blkState := Invalid, dirty := -1);
        if r.shrDataReq && !env.dl2Hit then Fetch(e1, r, env)
        else
          var (e2, out) := ReadReply(e1, req.tid);
          (e2.(dirty := -1), out)
  }

  /** ACK_SHR_READ from `from`. */
  ghost function TakeSharerAck(e: Entry, req: Request, from: nat, hit: bool, env: Env): (Entry, Outcome) {
    if e.allShared then (e, Panic)
    else
      var e1 := e.(stable := true, sharers := if hit then e.sharers else e.sharers - {from});
      var e2 := Recount(e1);
      if hit || env.dl2Hit then
        if e2.ptrEn then (e2, Panic) else ReadReply(e2, req.tid)
      else (e2, Retry(req.(l1Hit := false)))
  }

  /** ACK_MSG_WRITE / ACK_MSG_WRITEUPDATE from `from`, `left` acks still missing after it. */
  ghost function TakeWriteAck(e: Entry, req: Request, from: nat, hit: bool, wantsData: bool,
                              left: nat, env: Env): (Entry, Outcome) {
    if e.stable then (e, Panic)
    else
      var r := req.(shrDataReq := req.shrDataReq && !(hit && wantsData));
      var e1 := e.(sharers := e.sharers - {from});
      if left != 0 then (e1, KeepWaiting(r))
      else
        var e2 := e1.(allShared := false);
        if !r.shrDataReq || env.dl2Hit then
          GiveWrite(e2, req.tid, if req.op.WriteUpdate? then GrantUpdate else GrantWrite)
        else Fetch(e2.(blkState := Invalid, dirty := -1, sharers := {}), r, env)
  }

  /** The same acks when they answer a VEC_DEGRADE collection. */
  ghost function TakeDegradeAck(e: Entry, left: nat): (Entry, Outcome) {
    if e.stable then (e, Panic)
    else if left != 0 then (e, Done)
    else (e.(allShared := false, stable := true, dirty := -1), Done)
  }

  /** What the exchange of vectors does to the entry that gives its vector up. */
  datatype Give = BecamePointer | BecameAllShared | Degrade(targets: set<nat>, survivor: nat) | GivePanic

  ghost function GiveVector(e: Entry, n: nat, threshold: nat): (Entry, Give) {
    match Survey(e.sharers)
    case Nobody =>
      if e.allShared || e.blkState == Shared then (e, GivePanic) else (e.(ptrEn := true), BecamePointer)
    case Only(_) =>
      if e.allShared || e.blkState == Shared then (e, GivePanic) else (e.(ptrEn := true), BecamePointer)
    case Several =>
      if |e.sharers| == n then
        if e.sharers != AllThreads(n) || e.blkState != Shared then (e, GivePanic)
        else (e.(ptrEn := true, allShared := true), BecameAllShared)
      else if |e.sharers| > threshold then
        if e.blkState != Shared then (e, GivePanic)
        else (e.(ptrEn := true, allShared := true, sharers := AllThreads(n)), BecameAllShared)
      else if e.allShared then (e, GivePanic)
      else
        var s := Least(e.sharers, n);
        if s == -1 then (e, GivePanic)
        else (e.(ptrEn := true, stable := false, blkState := Exclusive, sharers := {s}),
              Degrade(e.sharers - {s}, s))
  }

  /** ---------------- the L1 side ---------------- */

  /** The line after a granted fill. */
  function Fill(g: GrantKind): L1Line {
    match g
    case GrantExclusive => L1Line(true, false, Exclusive)
    case GrantShared => L1Line(true, false, Shared)
    case GrantWrite => L1Line(true, true, Modified)
    case GrantUpdate => L1Line(true, true, Modified)
  }

  /** The line after a probe; `hit` in the ack says whether there was one. */
  function Probed(line: L1Line, k: ProbeKind): L1Line {
    if !line.valid then line
    else match k
      case InvRead => L1Line(true, false, Shared)
      case InvWrite => L1Line(false, false, Invalid)
      case ShrRead => line
  }
}
