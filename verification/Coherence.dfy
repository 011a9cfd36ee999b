/** The whole protocol for one block: n L1 caches, the home directory entry and
    the messages between them, as a transition system. Channels are FIFO per
    thread and direction. */
module Coherence {
  import opened Protocol

  /** One thread's end: its L1 line, whether its MSHR has a request for the
      block outstanding, the two channels, and its request if the home node has
      queued it. */
  datatype Node = Node(line: L1Line, waiting: bool, up: seq<Up>, down: seq<Down>, parked: Option<Request>)

  /** The event that holds the entry in DIR_TRANSITION. */
  datatype Lock =
    | Free
    | Probing(req: Request, owner: nat)
    | Sharing(req: Request, dest: nat)
    | Invalidating(req: Request, childCount: nat)
    | Memory(req: Request)
    | Degrading(childCount: nat)

  /** `current` and `lost` observe the data: `current` holds the threads whose copy,
      dropped for an upgrade, nobody could have overwritten since; `lost` says
      that an upgrade was granted without data to a thread outside it. */
  datatype State = State(nodes: seq<Node>, entry: Entry, lock: Lock, panicked: bool,
                         current: set<nat>, lost: bool)

  datatype Step =
    | Load(t: nat)
    | Store(t: nat)
    | Evict(t: nat, inform: bool)
    | Receive(t: nat)
    | Arrive(t: nat, env: Env)
    | Serve(t: nat, env: Env)
    | MemoryReply
    | Yield(threshold: nat)

  const EmptyNode := Node(NoLine, false, [], [], None)

  ghost function Start(n: nat): State {
    State(seq(n, _ => EmptyNode), Entry({}, true, Invalid, -1, false, false), Free, false, {}, false)
  }

  /** ---------------- transitions ---------------- */

  ghost function Put(s: State, t: nat, nd: Node): State
    requires t < |s.nodes|
  {
    s.(nodes := s.nodes[t := nd])
  }

  ghost function Send(s: State, t: nat, m: Down): State
    requires t < |s.nodes|
  {
    Put(s, t, s.nodes[t].(down := s.nodes[t].down + [m]))
  }

  ghost function SendInvalidations(nodes: seq<Node>, targets: set<nat>, dataFrom: int): (r: seq<Node>)
    ensures |r| == |nodes|
    ensures forall t :: 0 <= t < |nodes| && t in targets ==>
              r[t] == nodes[t].(down := nodes[t].down + [Probe(InvWrite, t == dataFrom)])
    ensures forall t :: 0 <= t < |nodes| && t !in targets ==> r[t] == nodes[t]
  {
    seq(|nodes|, t requires 0 <= t < |nodes| =>
      if t in targets then nodes[t].(down := nodes[t].down + [Probe(InvWrite, t == dataFrom)]) else nodes[t])
  }

  /** The effect of a handler's outcome for requester `tid`. */
  ghost function Apply(s: State, tid: nat, out: Outcome): State
    requires tid < |s.nodes|
  {
    match out
    case Retry(req) =>
      Put(s, tid, s.nodes[tid].(parked := Some(req))).(lock := if s.entry.stable then Free else s.lock)
    case Reply(g) =>
      var exclusive := g != GrantShared;
      Send(s, tid, Grant(g)).(
        lock := Free,
        current := if exclusive then {} else s.current,
        lost := s.lost || (g.GrantUpdate? && tid !in s.current))
    case FetchMemory(req) => s.(lock := Memory(req))
    case ProbeOwner(req, owner) =>
      if owner < |s.nodes| then Send(s, owner, Probe(InvRead, req.shrDataReq)).(lock := Probing(req, owner))
      else s.(panicked := true)
    case AskSharer(req, dest) =>
      if dest < |s.nodes| then Send(s, dest, Probe(ShrRead, true)).(lock := Sharing(req, dest))
      else s.(panicked := true)
    case Invalidate(req, targets, dataFrom) =>
      s.(nodes := SendInvalidations(s.nodes, targets, dataFrom), lock := Invalidating(req, |targets|))
    case KeepWaiting(req) =>
      if s.lock.Invalidating? && s.lock.childCount > 0 then s.(lock := Invalidating(req, s.lock.childCount - 1))
      else s.(panicked := true)
    case Done => s
    case Panic => s.(panicked := true)
  }

  ghost function DoLoad(s: State, t: nat): State
    requires t < |s.nodes|
  {
    var nd := s.nodes[t];
    if nd.line.valid || nd.waiting then s
    else Put(s, t, nd.(waiting := true, up := nd.up + [Req(Request(t, MissRead, false, false))]))
  }

  ghost function DoStore(s: State, t: nat): State
    requires t < |s.nodes|
  {
    var nd := s.nodes[t];
    if nd.line.valid then
      match nd.line.state
      case Modified => s
      case Exclusive => Put(s, t, nd.(line := L1Line(true, true, Modified)))
      case Shared =>
        if nd.waiting then s
        else
          Put(s, t, nd.(line := nd.line.(valid := false, dirty := false), waiting := true,
                        up := nd.up + [Req(Request(t, WriteUpdate, false, false))]))
          .(current := s.current + {t})
      case Invalid => s.(panicked := true)
    else if nd.waiting then s
    else Put(s, t, nd.(waiting := true, up := nd.up + [Req(Request(t, MissWrite, false, false))]))
  }

  ghost function DoEvict(s: State, t: nat, inform: bool): State
    requires t < |s.nodes|
  {
    var nd := s.nodes[t];
    if !nd.line.valid then s
    else if nd.line.dirty && nd.line.state != Modified then s.(panicked := true)
    else if nd.line.dirty then Put(s, t, nd.(line := NoLine, up := nd.up + [WriteBack]))
    else if inform then Put(s, t, nd.(line := NoLine, up := nd.up + [InformBack]))
    else Put(s, t, nd.(line := NoLine))
  }

  ghost function DoReceive(s: State, t: nat): State
    requires t < |s.nodes|
  {
    var nd := s.nodes[t];
    if nd.down == [] then s
    else match nd.down[0]
      case Grant(g) => Put(s, t, nd.(line := Fill(g), waiting := false, down := nd.down[1..]))
      case Probe(k, wantsData) =>
        Put(s, t, nd.(line := Probed(nd.line, k), down := nd.down[1..],
                      up := nd.up + [Ack(k, nd.line.valid, wantsData)]))
  }

  /** An ack goes to the event that holds the entry. */
  ghost function DoAck(s: State, t: nat, m: Up, env: Env): State
    requires t < |s.nodes| && m.Ack?
  {
    match s.lock
    case Probing(req, _) =>
      if req.tid >= |s.nodes| then s.(panicked := true)
      else
        var (e, out) := TakeReadAck(s.entry, req, t, m.hit, env);
        Apply(s.(entry := e), req.tid, out)
    case Sharing(req, _) =>
      if req.tid >= |s.nodes| then s.(panicked := true)
      else
        var (e, out) := TakeSharerAck(s.entry, req, t, m.hit, env);
        Apply(s.(entry := e), req.tid, out)
    case Invalidating(req, childCount) =>
      if req.tid >= |s.nodes| || childCount == 0 then s.(panicked := true)
      else
        var (e, out) := TakeWriteAck(s.entry, req, t, m.hit, m.wantsData, childCount - 1, env);
        Apply(s.(entry := e), req.tid, out)
    case Degrading(childCount) =>
      if childCount == 0 then s.(panicked := true)
      else
        var (e, out) := TakeDegradeAck(s.entry, childCount - 1);
        Apply(s.(entry := e, lock := if childCount == 1 then Free else Degrading(childCount - 1)), t, out)
    case Free => s.(panicked := true)
    case Memory(_) => s.(panicked := true)
  }

  ghost function DoArrive(s: State, t: nat, env: Env): State
    requires t < |s.nodes|
  {
    var nd := s.nodes[t];
    if nd.up == [] then s
    else
      var s1 := Put(s, t, nd.(up := nd.up[1..]));
      match nd.up[0]
      case Req(req) => Put(s1, t, s1.nodes[t].(parked := Some(req)))
      case WriteBack =>
        var (e, out) := TakeBack(s.entry, t, true, |s.nodes|);
        Apply(s1.(entry := e), t, out)
      case InformBack =>
        var (e, out) := TakeBack(s.entry, t, false, |s.nodes|);
        Apply(s1.(entry := e), t, out)
      case Ack(_, _, _) => DoAck(s1, t, nd.up[0], env)
  }

  ghost function DoServe(s: State, t: nat, env: Env): State
    requires t < |s.nodes|
  {
    var nd := s.nodes[t];
    if nd.parked.None? || (env.dest.Some? && (env.dest.value >= |s.nodes| || env.dest.value == t)) then s
    else
      var req := nd.parked.value;
      var s1 := Put(s, t, nd.(parked := None));
      var (e, out) := if req.op.MissRead? then ServeRead(s.entry, req, env)
                      else ServeWrite(s.entry, req, env, |s.nodes|);
      Apply(s1.(entry := e), t, out)
  }

  ghost function DoMemory(s: State): State {
    if s.lock.Memory? && s.lock.req.tid < |s.nodes| then
      Apply(s.(entry := s.entry.(stable := true)), s.lock.req.tid, Retry(s.lock.req))
    else s
  }

  /** Another entry of the set takes this entry's vector. */
  ghost function DoYield(s: State, threshold: nat): State {
    if !s.entry.stable || s.entry.ptrEn then s
    else
      var (e, give) := GiveVector(s.entry, |s.nodes|, threshold);
      match give
      case BecamePointer => s.(entry := e)
      case BecameAllShared => s.(entry := e)
      case Degrade(targets, _) =>
        s.(entry := e, nodes := SendInvalidations(s.nodes, targets, -1), lock := Degrading(|targets|))
      case GivePanic => s.(entry := e, panicked := true)
  }

  ghost function Next(s: State, step: Step): State {
    match step
    case Load(t) => if t < |s.nodes| then DoLoad(s, t) else s
    case Store(t) => if t < |s.nodes| then DoStore(s, t) else s
    case Evict(t, inform) => if t < |s.nodes| then DoEvict(s, t, inform) else s
    case Receive(t) => if t < |s.nodes| then DoReceive(s, t) else s
    case Arrive(t, env) => if t < |s.nodes| then DoArrive(s, t, env) else s
    case Serve(t, env) => if t < |s.nodes| then DoServe(s, t, env) else s
    case MemoryReply => DoMemory(s)
    case Yield(threshold) => DoYield(s, threshold)
  }

  /** The state after any list of steps, from n empty caches. */
  ghost function Run(n: nat, steps: seq<Step>): State {
    if steps == [] then Start(n) else Next(Run(n, steps[..|steps|-1]), steps[|steps|-1])
  }

  /** ---------------- what holds of one thread ---------------- */

  ghost predicate HasGrant(d: seq<Down>) { |d| > 0 && d[0].Grant? }

  ghost predicate HasProbe(d: seq<Down>) { |d| > 0 && d[|d|-1].Probe? }

  /** At most a grant and then a probe. */
  ghost predicate DownShape(d: seq<Down>) {
    && |d| <= 2
    && (|d| == 2 ==> d[0].Grant? && d[1].Probe?)
  }

  ghost predicate IsBack(m: Up) { m.WriteBack? || m.InformBack? }

  ghost predicate HasReq(u: seq<Up>) { exists i :: 0 <= i < |u| && u[i].Req? }

  ghost predicate HasBack(u: seq<Up>) { exists i :: 0 <= i < |u| && IsBack(u[i]) }

  ghost predicate HasWriteBack(u: seq<Up>) { exists i :: 0 <= i < |u| && u[i].WriteBack? }

  ghost predicate HasAck(u: seq<Up>) { exists i :: 0 <= i < |u| && u[i].Ack? }

  /** What may follow what in one upward channel. */
  ghost predicate MayFollow(first: Up, later: Up) {
    && !(first.Req? && later.Req?)
    && !(first.Req? && IsBack(later))
    && !(IsBack(first) && IsBack(later))
    && !(first.Ack? && later.Ack?)
    && !(first.Ack? && later.WriteBack?)
  }

  ghost predicate UpShape(u: seq<Up>) {
    forall i, j :: 0 <= i < j < |u| ==> MayFollow(u[i], u[j])
  }

  ghost function Holder(lock: Lock): Option<Request> {
    match lock
    case Free => None
    case Probing(req, _) => Some(req)
    case Sharing(req, _) => Some(req)
    case Invalidating(req, _) => Some(req)
    case Memory(req) => Some(req)
    case Degrading(_) => None
  }

  ghost predicate Holds(lock: Lock, t: nat) { Holder(lock).Some? && Holder(lock).value.tid == t }

  ghost predicate AtHome(nd: Node, t: nat, lock: Lock) { nd.parked.Some? || Holds(lock, t) }

  /** The thread has the block, or it is on its way to it. */
  ghost predicate Copy(nd: Node) { nd.line.valid || HasGrant(nd.down) }

  /** The same in a state that excludes every other copy. */
  ghost predicate ExclusiveCopy(nd: Node) {
    || (nd.line.valid && (nd.line.state == Exclusive || nd.line.state == Modified))
    || (HasGrant(nd.down) && nd.down[0].grant != GrantShared)
  }

  ghost predicate Owner(nd: Node) { ExclusiveCopy(nd) || HasWriteBack(nd.up) }

  ghost predicate OwnsDirty(nd: Node) {
    || nd.line.dirty
    || (HasGrant(nd.down) && (nd.down[0].grant == GrantWrite || nd.down[0].grant == GrantUpdate))
    || HasWriteBack(nd.up)
  }

  ghost predicate Busy(nd: Node) { HasProbe(nd.down) || HasAck(nd.up) }

  ghost predicate KindOf(lock: Lock, k: ProbeKind) {
    match lock
    case Probing(_, _) => k == InvRead
    case Sharing(_, _) => k == ShrRead
    case Invalidating(_, _) => k == InvWrite
    case Degrading(_) => k == InvWrite
    case _ => false
  }

  ghost predicate LineInv(l: L1Line) {
    && (l.valid ==> l.state != Invalid)
    && (l.dirty <==> l.valid && l.state == Modified)
  }

  ghost predicate ReqInv(nd: Node, t: nat, lock: Lock) {
    && (HasReq(nd.up) ==> !AtHome(nd, t, lock) && !HasGrant(nd.down))
    && (nd.parked.Some? ==> !Holds(lock, t) && !HasGrant(nd.down) && nd.parked.value.tid == t && !nd.parked.value.l1Hit)
    && (Holds(lock, t) ==> !HasGrant(nd.down))
    && (nd.waiting <==> HasReq(nd.up) || AtHome(nd, t, lock) || HasGrant(nd.down))
    && (nd.line.valid ==> !nd.waiting)
    && (HasBack(nd.up) ==> !Copy(nd) && !AtHome(nd, t, lock))
    && (forall i :: 0 <= i < |nd.up| && nd.up[i].Req? ==> nd.up[i].req.tid == t && !nd.up[i].req.l1Hit)
  }

  ghost predicate ProbeInv(nd: Node, t: nat, lock: Lock) {
    && !(HasProbe(nd.down) && HasAck(nd.up))
    && (HasProbe(nd.down) ==> KindOf(lock, nd.down[|nd.down|-1].kind))
    && (forall i :: 0 <= i < |nd.up| && nd.up[i].Ack? ==>
          && KindOf(lock, nd.up[i].kind)
          && (nd.up[i].kind == InvWrite || !nd.up[i].hit ==> !Copy(nd))
          && !ExclusiveCopy(nd))
    && (lock.Probing? ==> (Busy(nd) <==> t == lock.owner))
    && (lock.Sharing? ==> (Busy(nd) <==> t == lock.dest))
    && (lock.Invalidating? && Busy(nd) ==> t != lock.req.tid)
  }

  ghost predicate CopyInv(nd: Node, t: nat, e: Entry, lock: Lock) {
    && (Copy(nd) ==> t in e.sharers || (lock.Degrading? && HasProbe(nd.down)))
    && (Owner(nd) ==> e.sharers == {t} && !lock.Degrading? && !lock.Sharing?)
    && (lock.Invalidating? && t != lock.req.tid && Copy(nd) ==> HasProbe(nd.down))
    && (lock.Invalidating? && t != lock.req.tid && HasWriteBack(nd.up) ==> Busy(nd))
    && (lock.Free? && e.dirty == t ==> OwnsDirty(nd))
  }

  ghost predicate NodeInv(nd: Node, t: nat, e: Entry, lock: Lock) {
    && DownShape(nd.down)
    && UpShape(nd.up)
    && LineInv(nd.line)
    && ReqInv(nd, t, lock)
    && ProbeInv(nd, t, lock)
    && CopyInv(nd, t, e, lock)
  }

  /** ---------------- what holds of the entry ---------------- */

  ghost predicate VectorInv(e: Entry, lock: Lock, n: nat) {
    && (forall x :: x in e.sharers ==> x < n)
    && (e.stable <==> lock.Free?)
    && (!lock.Invalidating? ==> (e.blkState == Shared <==> |e.sharers| >= 2))
    && -1 <= e.dirty
    && (e.dirty != -1 ==> forall x :: x in e.sharers ==> x == e.dirty)
    && (e.dirty != -1 && !lock.Invalidating? ==> e.sharers == {e.dirty as nat})
    && (lock.Sharing? || lock.Memory? || lock.Degrading? ==> e.dirty == -1)
  }

  ghost predicate PointerInv(e: Entry, lock: Lock, n: nat) {
    && (e.ptrEn && !e.allShared && !lock.Invalidating? ==> |e.sharers| <= 1)
    && (e.allShared ==> e.ptrEn && e.sharers == AllThreads(n) && n >= 2 && (lock.Free? || lock.Memory?))
    && (lock.Probing? || lock.Sharing? ==> !e.ptrEn)
  }

  ghost predicate LockInv(e: Entry, lock: Lock, n: nat) {
    && (Holder(lock).Some? ==> Holder(lock).value.tid < n && !Holder(lock).value.l1Hit)
    && match lock
       case Free => true
       case Probing(req, owner) =>
         owner < n && owner != req.tid && (forall x :: x in e.sharers ==> x == owner) && req.op.MissRead?
       case Sharing(req, dest) => dest < n && dest != req.tid && req.op.MissRead?
       case Invalidating(req, childCount) => !req.op.MissRead? && childCount > 0
       case Memory(_) => true
       case Degrading(childCount) => |e.sharers| <= 1 && childCount > 0
  }

  ghost predicate EntryInv(e: Entry, lock: Lock, n: nat) {
    VectorInv(e, lock, n) && PointerInv(e, lock, n) && LockInv(e, lock, n)
  }

  /** The threads that still owe the home node an answer. */
  ghost function Owing(nodes: seq<Node>): set<nat> {
    set t: nat | t < |nodes| && Busy(nodes[t])
  }

  ghost predicate CountInv(nodes: seq<Node>, lock: Lock) {
    && (lock.Free? || lock.Memory? ==> Owing(nodes) == {})
    && (lock.Invalidating? || lock.Degrading? ==> lock.childCount == |Owing(nodes)|)
  }

  ghost predicate Inv(s: State) {
    && !s.panicked
    && EntryInv(s.entry, s.lock, |s.nodes|)
    && (forall t: nat :: t < |s.nodes| ==> NodeInv(s.nodes[t], t, s.entry, s.lock))
    && CountInv(s.nodes, s.lock)
  }
}
