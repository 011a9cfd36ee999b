/** One page and the TLBs of all threads: the messages between the directory and the TLBs, and why a
    page that one TLB holds as private is held by no other. The directory decides as in PageTable. */
module PrivatePages {
  import opened PageTable

  datatype Slot = Absent | Present(state: PageState)

  /** On its way to a TLB: a refill, or the note that the page is being shared. A recovery note marks the
      miss entry of one thread, if it has one, as dirty. */
  datatype Down = Refill(state: PageState) | UpdateNote | RecoveryNote(marks: nat)

  datatype Request = Nothing | Wants(cmd: Cmd)

  /** A TLB with its miss entry (asked, dirty, evicting), the request the directory has not served yet,
      the messages on their way to it, its write backs and recoveries on their way to the directory, and
      the acknowledgement of a broadcast it owes. */
  datatype Tlb = Tlb(entry: Slot, asked: bool, dirty: bool, evicting: bool, request: Request, down: seq<Down>,
                     writeBacks: nat, recoveries: nat, owes: bool)

  /** The event that holds the page, with the thread it serves. */
  datatype Lock =
    | Open
    | Opening(tid: nat)
    | Updating(tid: nat)
    | Updated(tid: nat, to: PageState)
    | Recovering(tid: nat)
    | Recovered(tid: nat)
    | Spreading(requester: int, left: int)

  /** The counters are those of this one page. */
  datatype State = State(page: Page, lock: Lock, tlbs: seq<Tlb>, panicked: bool, count: Counters)

  /** ---------------- what the directory decides ---------------- */

  datatype Action = OpenPage | AskKeeper | RecoverKeeper | TellAll

  ghost function Decide(p: Page, tid: int, cmd: Cmd): (PageState, Action) {
    match p.state
    case PrivateRead =>
      if p.keeper == tid then (if cmd == Read then PrivateRead else PrivateWrite, OpenPage)
      else if cmd == Read then (SharedRead, AskKeeper) else (SharedWrite, RecoverKeeper)
    case PrivateWrite => if p.keeper == tid then (PrivateWrite, OpenPage) else (SharedWrite, RecoverKeeper)
    case SharedRead => if cmd == Read then (SharedRead, OpenPage) else (SharedWrite, TellAll)
    case SharedWrite => (SharedWrite, OpenPage)
  }

  /** It is what the handler of a miss does to an open page. */
  lemma MissDecides(st: PageTable.State, i: nat)
    requires i < |st.events| && st.events[i].Miss? && Matches(st.pages, st.events[i].vpn)
    requires !st.pages[Where(st.pages, st.events[i].vpn)].busy
    ensures var e, k := st.events[i], Where(st.pages, st.events[i].vpn);
            var (state, action) := Decide(st.pages[k], e.tid, e.cmd);
            && ServeMiss(st, i).Ok?
            && ServeMiss(st, i).state.pages == st.pages[k := st.pages[k].(busy := true, state := state)]
            && ServeMiss(st, i).state.count == Moved(st.count, st.pages[k].state, state)
            && |ServeMiss(st, i).state.events| >= |st.events|
            && match action
               case OpenPage => ServeMiss(st, i).state.events[i] == RefillWait(e.vpn)
               case AskKeeper => ServeMiss(st, i).state.events[i] == Update(e.vpn)
               case RecoverKeeper => ServeMiss(st, i).state.events[i] == Recovery(e.vpn)
               case TellAll => ServeMiss(st, i).state.events[i] == Parent(e.vpn, st.contexts, true)
  {
  }

  /** ---------------- steps ---------------- */

  datatype Step =
    | Access(t: nat, cmd: Cmd)
    | Evict(t: nat)
    | Deliver(t: nat)
    | Serve(t: nat)
    | Handle             // the event that holds the page
    | Collect(t: nat)    // an acknowledgement of a broadcast
    | TakeBack(t: nat)
    | TakeRecovery(t: nat)

  ghost function Put(s: State, t: nat, x: Tlb): State
    requires t < |s.tlbs|
  {
    s.(tlbs := s.tlbs[t := x])
  }

  ghost function DoAccess(s: State, t: nat, cmd: Cmd): State
    requires t < |s.tlbs|
  {
    var x := s.tlbs[t];
    match x.entry
    case Absent =>
      if x.asked then s
      else Put(s, t, x.(asked := true, dirty := false, evicting := x.evicting || x.writeBacks > 0, request := Wants(cmd)))
    case Present(state) =>
      if cmd == Read then s
      else match state
        case PrivateRead => Put(s, t, x.(entry := Present(PrivateWrite)))
        case SharedRead => Put(s, t, x.(recoveries := x.recoveries + 1))
        case _ => s
  }

  ghost function DoEvict(s: State, t: nat): State
    requires t < |s.tlbs|
  {
    var x := s.tlbs[t];
    Put(s, t, x.(entry := Absent, writeBacks := if x.entry == Present(PrivateWrite) then x.writeBacks + 1 else x.writeBacks))
  }

  /** What a refill makes of the state it carries. */
  ghost function Refilled(x: Tlb, state: PageState): PageState {
    if x.dirty then SharedWrite else if x.evicting && state == PrivateRead then PrivateWrite else state
  }

  ghost function Marked(tlbs: seq<Tlb>, m: nat): seq<Tlb> {
    if m < |tlbs| && tlbs[m].asked then tlbs[m := tlbs[m].(dirty := true)] else tlbs
  }

  ghost function DoDeliver(s: State, t: nat): State
    requires t < |s.tlbs|
  {
    var x := s.tlbs[t];
    if x.down == [] then s
    else
      var rest := x.(down := x.down[1..]);
      match x.down[0]
      case Refill(state) =>
        if !x.asked then s.(panicked := true)
        else Put(s, t, rest.(entry := Present(Refilled(x, state)), asked := false, dirty := false, evicting := false))
      case UpdateNote => DeliverUpdate(s, t, rest)
      case RecoveryNote(m) =>
        var x' := if x.entry.Present? then rest.(entry := Present(SharedWrite)) else rest;
        match s.lock
        case Recovering(tid) => Put(s, t, x').(tlbs := Marked(Put(s, t, x').tlbs, m), lock := Recovered(tid))
        case Spreading(_, _) => Put(s, t, x'.(owes := true)).(tlbs := Marked(Put(s, t, x'.(owes := true)).tlbs, m))
        case _ => s.(panicked := true)
  }

  /** The keeper answers by its entry, or, if that is gone, by whether its write back is on the way. */
  ghost function DeliverUpdate(s: State, t: nat, rest: Tlb): State
    requires t < |s.tlbs|
  {
    if !s.lock.Updating? then s.(panicked := true)
    else match rest.entry
      case Present(PrivateRead) => Put(s, t, rest.(entry := Present(SharedRead))).(lock := Updated(s.lock.tid, SharedRead))
      case Present(PrivateWrite) => Put(s, t, rest.(entry := Present(SharedWrite))).(lock := Updated(s.lock.tid, SharedWrite))
      case Present(_) => s.(panicked := true)
      case Absent => Put(s, t, rest).(lock := Updated(s.lock.tid, if rest.writeBacks > 0 then SharedWrite else SharedRead))
  }

  ghost function Counted(c: Counters, p: PageState): Counters {
    match p
    case PrivateRead => c.(pr := c.pr + 1)
    case PrivateWrite => c.(pw := c.pw + 1)
    case SharedRead => c.(sr := c.sr + 1)
    case SharedWrite => c.(sw := c.sw + 1)
  }

  ghost function Uncounted(c: Counters, p: PageState): Counters {
    match p
    case PrivateRead => c.(pr := c.pr - 1)
    case PrivateWrite => c.(pw := c.pw - 1)
    case SharedRead => c.(sr := c.sr - 1)
    case SharedWrite => c.(sw := c.sw - 1)
  }

  /** The page leaves one counter for another. */
  ghost function Moved(c: Counters, from: PageState, to: PageState): Counters { Counted(Uncounted(c, from), to) }

  ghost function Send(s: State, t: int, d: Down): State {
    if 0 <= t < |s.tlbs| then Put(s, t, s.tlbs[t].(down := s.tlbs[t].down + [d])) else s.(panicked := true)
  }

  /** Every thread is told; the marks of a broadcast go to thread 0, whose number its events carry. */
  ghost function Tell(s: State, requester: int): State {
    s.(page := s.page.(busy := true, state := SharedWrite), lock := Spreading(requester, |s.tlbs|),
       count := s.count.(sr := s.count.sr - 1, sw := s.count.sw + 1),
       tlbs := seq(|s.tlbs|, u requires 0 <= u < |s.tlbs| => s.tlbs[u].(down := s.tlbs[u].down + [RecoveryNote(0)])))
  }

  ghost function DoServe(s: State, t: nat): State
    requires t < |s.tlbs|
  {
    var x := s.tlbs[t];
    if x.request.Nothing? || s.page.busy then s
    else
      var s1 := Put(s, t, x.(request := Nothing));
      var cmd := x.request.cmd;
      if !s.page.valid then
        var state := if cmd == Read then PrivateRead else PrivateWrite;
        s1.(page := Page(true, true, s.page.vpn, t, state), lock := Opening(t),
            count := Counted(s.count, state).(total := s.count.total + 1))
      else
        var (state, action) := Decide(s.page, t, cmd);
        var s2 := s1.(page := s.page.(busy := true, state := state), count := Moved(s.count, s.page.state, state));
        match action
        case OpenPage => s2.(lock := Opening(t))
        case AskKeeper => Send(s2, s.page.keeper, UpdateNote).(lock := Updating(t))
        case RecoverKeeper => Send(s2, s.page.keeper, RecoveryNote(t)).(lock := Recovering(t))
        case TellAll => Tell(s1, t)
  }

  ghost function DoHandle(s: State): State {
    match s.lock
    case Opening(tid) => Send(s.(page := s.page.(busy := false), lock := Open), tid, Refill(s.page.state))
    case Updated(tid, to) =>
      s.(page := s.page.(busy := true, state := to), lock := Opening(tid),
         count := if to == SharedWrite then Moved(s.count, SharedRead, SharedWrite) else s.count)
    case Recovered(tid) => s.(page := s.page.(busy := true, state := SharedWrite), lock := Opening(tid))
    case _ => s
  }

  ghost function DoCollect(s: State, t: nat): State
    requires t < |s.tlbs|
  {
    var x := s.tlbs[t];
    if !x.owes then s
    else match s.lock
      case Spreading(requester, left) =>
        var s1 := Put(s, t, x.(owes := false));
        if left != 1 then s1.(lock := Spreading(requester, left - 1))
        else if requester >= 0 then s1.(page := s.page.(busy := true, state := SharedWrite), lock := Opening(requester))
        else s1.(page := s.page.(busy := false, state := SharedWrite), lock := Open)
      case _ => s.(panicked := true)
  }

  ghost function DoTakeBack(s: State, t: nat): State
    requires t < |s.tlbs|
  {
    var x := s.tlbs[t];
    if x.writeBacks == 0 || s.page.busy then s
    else
      var s1 := Put(s, t, x.(writeBacks := x.writeBacks - 1));
      match s.page.state
      case SharedRead => s.(panicked := true)
      case SharedWrite => s1
      case _ => s1.(page := s.page.(state := PrivateWrite), count := Moved(s.count, s.page.state, PrivateWrite))
  }

  ghost function DoTakeRecovery(s: State, t: nat): State
    requires t < |s.tlbs|
  {
    var x := s.tlbs[t];
    if x.recoveries == 0 then s
    else
      var s1 := Put(s, t, x.(recoveries := x.recoveries - 1));
      if !s.page.busy then Tell(s1, -1)
      else match s.page.state
        case SharedRead => s
        case SharedWrite => s1
        case _ => s.(panicked := true)
  }

  ghost function Next(s: State, step: Step): State {
    match step
    case Access(t, cmd) => if t < |s.tlbs| then DoAccess(s, t, cmd) else s
    case Evict(t) => if t < |s.tlbs| then DoEvict(s, t) else s
    case Deliver(t) => if t < |s.tlbs| then DoDeliver(s, t) else s
    case Serve(t) => if t < |s.tlbs| then DoServe(s, t) else s
    case Handle => DoHandle(s)
    case Collect(t) => if t < |s.tlbs| then DoCollect(s, t) else s
    case TakeBack(t) => if t < |s.tlbs| then DoTakeBack(s, t) else s
    case TakeRecovery(t) => if t < |s.tlbs| then DoTakeRecovery(s, t) else s
  }

  /** ---------------- the invariant ---------------- */

  ghost predicate Private(p: PageState) { p == PrivateRead || p == PrivateWrite }

  ghost predicate HasRefill(d: seq<Down>) { |d| > 0 && d[0].Refill? }

  ghost predicate HasNote(d: seq<Down>) { |d| > 0 && !d[|d| - 1].Refill? }

  /** At most a refill and then a note. */
  ghost predicate Shape(d: seq<Down>) { |d| <= 2 && (|d| == 2 ==> d[0].Refill? && !d[1].Refill?) }

  ghost predicate Serves(lock: Lock, t: nat) {
    match lock
    case Open => false
    case Spreading(requester, _) => requester == t
    case _ => lock.tid == t
  }

  /** While the keeper is being asked nobody else has the page. */
  ghost predicate AloneYet(page: Page, lock: Lock) {
    Private(page.state) || lock.Updating? || lock.Updated? || lock.Recovering? || lock.Recovered?
  }

  ghost predicate HoldsAs(x: Tlb, p: PageState) {
    x.entry == Present(p) || (HasRefill(x.down) && x.down[0].state == p)
  }

  ghost predicate HoldsPrivate(x: Tlb) { HoldsAs(x, PrivateRead) || HoldsAs(x, PrivateWrite) }

  ghost predicate HasPage(x: Tlb) { x.entry.Present? || HasRefill(x.down) }

  ghost predicate MissInv(x: Tlb, t: nat, lock: Lock) {
    && (x.asked <==> x.request.Wants? || Serves(lock, t) || HasRefill(x.down))
    && (x.request.Wants? ==> !Serves(lock, t) && !HasRefill(x.down))
    && (Serves(lock, t) ==> !HasRefill(x.down))
    && (x.entry.Present? ==> !x.asked)
    && (x.dirty || x.evicting ==> x.asked)
  }

  ghost predicate NoteInv(x: Tlb, t: nat, page: Page, lock: Lock) {
    && Shape(x.down)
    && (HasNote(x.down) ==> if x.down[|x.down| - 1].UpdateNote? then lock.Updating? && t == page.keeper
                            else lock.Spreading? || (lock.Recovering? && t == page.keeper))
    && (t == page.keeper && (lock.Updating? || lock.Recovering?) ==> HasNote(x.down))
    && (x.owes ==> lock.Spreading? && !HasNote(x.down))
  }

  ghost predicate HoldInv(x: Tlb, t: nat, page: Page, lock: Lock) {
    && (HoldsPrivate(x) ==> t == page.keeper && !lock.Spreading? && (Private(page.state) || HasNote(x.down)))
    && (t != page.keeper && AloneYet(page, lock) ==> !HasPage(x))
    && (HoldsAs(x, SharedRead) || x.recoveries > 0 ==> Leq(SharedRead, page.state))
    && (HoldsAs(x, SharedWrite) ==>
          page.state == SharedWrite || (lock.Updated? && lock.to == SharedWrite && t == page.keeper && !HasRefill(x.down)))
    && (x.dirty ==> page.state == SharedWrite)
    && (lock.Updating? && HasPage(x) ==> !HoldsAs(x, SharedRead) && !HoldsAs(x, SharedWrite))
  }

  ghost predicate BackInv(x: Tlb, t: nat, page: Page, lock: Lock) {
    x.writeBacks > 0 ==>
      && t == page.keeper && x.entry != Present(PrivateRead) && (x.asked ==> x.evicting)
      && (page.state == SharedRead ==> lock.Updating? || (lock.Updated? && lock.to == SharedWrite))
  }

  ghost predicate TlbInv(x: Tlb, t: nat, page: Page, lock: Lock) {
    && MissInv(x, t, lock) && NoteInv(x, t, page, lock) && HoldInv(x, t, page, lock) && BackInv(x, t, page, lock)
    && (!page.valid ==> !HasPage(x) && x.down == [] && x.writeBacks == 0 && x.recoveries == 0)
  }

  ghost predicate LockInv(page: Page, lock: Lock, n: nat) {
    && (page.busy <==> !lock.Open?)
    && (!page.valid ==> lock.Open? && Private(page.state))
    && (page.valid ==> 0 <= page.keeper < n)
    && match lock
       case Open => true
       case Opening(tid) => tid < n && (Private(page.state) ==> tid == page.keeper)
       case Updating(tid) => tid < n && tid != page.keeper && page.state == SharedRead
       case Updated(tid, to) => tid < n && tid != page.keeper && page.state == SharedRead && Leq(SharedRead, to)
       case Recovering(tid) => tid < n && tid != page.keeper && page.state == SharedWrite
       case Recovered(tid) => tid < n && tid != page.keeper && page.state == SharedWrite
       case Spreading(requester, left) => -1 <= requester < n && left > 0 && page.state == SharedWrite
  }

  ghost function Owing(tlbs: seq<Tlb>): set<nat> {
    set t: nat | t < |tlbs| && (HasNote(tlbs[t].down) || tlbs[t].owes)
  }

  ghost predicate Inv(s: State) {
    && !s.panicked && LockInv(s.page, s.lock, |s.tlbs|)
    && (forall t: nat :: t < |s.tlbs| ==> TlbInv(s.tlbs[t], t, s.page, s.lock))
    && (s.lock.Spreading? ==> s.lock.left == |Owing(s.tlbs)|)
  }

  /** ---------------- steps of one TLB ---------------- */

  ghost predicate SameDebt(x: Tlb, y: Tlb) { (HasNote(x.down) || x.owes) == (HasNote(y.down) || y.owes) }

  lemma LocalStep(s: State, t: nat, x: Tlb)
    requires Inv(s) && t < |s.tlbs| && TlbInv(x, t, s.page, s.lock) && SameDebt(s.tlbs[t], x)
    ensures Inv(Put(s, t, x))
  {
    var s' := Put(s, t, x);
    forall u: nat | u < |s'.tlbs| ensures TlbInv(s'.tlbs[u], u, s'.page, s'.lock) {
      assert TlbInv(s.tlbs[u], u, s.page, s.lock);
    }
    assert Owing(s'.tlbs) == Owing(s.tlbs);
  }

  lemma AccessKeeps(s: State, t: nat, cmd: Cmd)
    requires Inv(s) && t < |s.tlbs|
    ensures Inv(DoAccess(s, t, cmd))
  {
    assert TlbInv(s.tlbs[t], t, s.page, s.lock);
    var s' := DoAccess(s, t, cmd);
    if s' != s { LocalStep(s, t, s'.tlbs[t]); }
  }

  lemma EvictKeeps(s: State, t: nat)
    requires Inv(s) && t < |s.tlbs|
    ensures Inv(DoEvict(s, t))
  {
    assert TlbInv(s.tlbs[t], t, s.page, s.lock);
    LocalStep(s, t, DoEvict(s, t).tlbs[t]);
  }

  lemma RefillKeeps(s: State, t: nat)
    requires Inv(s) && t < |s.tlbs| && HasRefill(s.tlbs[t].down)
    ensures Inv(DoDeliver(s, t))
  {
    assert TlbInv(s.tlbs[t], t, s.page, s.lock);
    LocalStep(s, t, DoDeliver(s, t).tlbs[t]);
  }

  /** ---------------- steps that change the page or its lock ---------------- */

  /** The TLBs are as before, but the page or its lock is not. */
  lemma PageStep(s: State, s': State)
    requires Inv(s) && !s.lock.Spreading? && !s'.lock.Spreading? && !s'.panicked && |s'.tlbs| == |s.tlbs|
    requires LockInv(s'.page, s'.lock, |s'.tlbs|)
    requires forall u: nat :: u < |s'.tlbs| ==> TlbInv(s'.tlbs[u], u, s'.page, s'.lock)
    ensures Inv(s')
  {
  }

  lemma KeeperAnswers(s: State, t: nat)
    requires Inv(s) && t < |s.tlbs| && s.tlbs[t].down != [] && s.tlbs[t].down[0].UpdateNote?
    ensures var s' := DoDeliver(s, t);
            && !s'.panicked && s'.lock.Updated? && s.lock.Updating? && s'.lock.tid == s.lock.tid && s'.page == s.page
            && Leq(SharedRead, s'.lock.to) && |s'.tlbs| == |s.tlbs| && TlbInv(s'.tlbs[t], t, s'.page, s'.lock)
            && forall u: nat :: u < |s.tlbs| && u != t ==> s'.tlbs[u] == s.tlbs[u]
  {
    assert TlbInv(s.tlbs[t], t, s.page, s.lock);
  }

  lemma OthersWait(s: State, t: nat, u: nat, to: PageState)
    requires Inv(s) && t < |s.tlbs| && s.tlbs[t].down != [] && s.tlbs[t].down[0].UpdateNote?
    requires u < |s.tlbs| && u != t && s.lock.Updating? && Leq(SharedRead, to)
    ensures TlbInv(s.tlbs[u], u, s.page, Updated(s.lock.tid, to))
  {
    assert TlbInv(s.tlbs[u], u, s.page, s.lock);
    assert TlbInv(s.tlbs[t], t, s.page, s.lock);
  }

  lemma UpdateDelivered(s: State, t: nat)
    requires Inv(s) && t < |s.tlbs| && s.tlbs[t].down != [] && s.tlbs[t].down[0].UpdateNote?
    ensures Inv(DoDeliver(s, t))
  {
    KeeperAnswers(s, t);
    var s' := DoDeliver(s, t);
    forall u: nat | u < |s'.tlbs| ensures TlbInv(s'.tlbs[u], u, s'.page, s'.lock) {
      if u != t { OthersWait(s, t, u, s'.lock.to); }
    }
    PageStep(s, s');
  }

  lemma MarkedTlb(x: Tlb, t: nat, page: Page, lock: Lock)
    requires TlbInv(x, t, page, lock) && page.state == SharedWrite && x.asked
    ensures TlbInv(x.(dirty := true), t, page, lock) && SameDebt(x, x.(dirty := true))
  {
  }

  lemma RecoveryNoted(x: Tlb, t: nat, page: Page, lock: Lock)
    requires TlbInv(x, t, page, lock) && x.down != [] && x.down[0].RecoveryNote? && page.state == SharedWrite
    ensures lock.Recovering? ==> TlbInv(Dropped(x), t, page, Recovered(lock.tid)) && !HasNote(Dropped(x).down) && !Dropped(x).owes
    ensures lock.Spreading? ==> TlbInv(Dropped(x).(owes := true), t, page, lock) && SameDebt(x, Dropped(x).(owes := true))
  {
  }

  ghost function Dropped(x: Tlb): Tlb
    requires x.down != []
  {
    x.(down := x.down[1..], entry := if x.entry.Present? then Present(SharedWrite) else Absent)
  }

  lemma MarkedKeeps(s: State, m: nat)
    requires Inv(s) && s.page.state == SharedWrite
    ensures Inv(s.(tlbs := Marked(s.tlbs, m)))
  {
    if m < |s.tlbs| && s.tlbs[m].asked {
      assert TlbInv(s.tlbs[m], m, s.page, s.lock);
      MarkedTlb(s.tlbs[m], m, s.page, s.lock);
      LocalStep(s, m, s.tlbs[m].(dirty := true));
    }
  }

  lemma RecoveryDelivered(s: State, t: nat)
    requires Inv(s) && t < |s.tlbs| && s.tlbs[t].down != [] && s.tlbs[t].down[0].RecoveryNote?
    ensures Inv(DoDeliver(s, t))
  {
    var x := s.tlbs[t];
    assert TlbInv(x, t, s.page, s.lock);
    RecoveryNoted(x, t, s.page, s.lock);
    var m := x.down[0].marks;
    if s.lock.Spreading? {
      var mid := Put(s, t, Dropped(x).(owes := true));
      LocalStep(s, t, Dropped(x).(owes := true));
      MarkedKeeps(mid, m);
      assert DoDeliver(s, t) == mid.(tlbs := Marked(mid.tlbs, m));
    } else {
      var mid := Put(s, t, Dropped(x)).(lock := Recovered(s.lock.tid));
      forall u: nat | u < |mid.tlbs| ensures TlbInv(mid.tlbs[u], u, mid.page, mid.lock) {
        assert TlbInv(s.tlbs[u], u, s.page, s.lock);
      }
      PageStep(s, mid);
      MarkedKeeps(mid, m);
      assert DoDeliver(s, t) == mid.(tlbs := Marked(mid.tlbs, m));
    }
  }

  lemma DeliverKeeps(s: State, t: nat)
    requires Inv(s) && t < |s.tlbs|
    ensures Inv(DoDeliver(s, t))
  {
    if s.tlbs[t].down != [] {
      match s.tlbs[t].down[0] {
        case Refill(_) => RefillKeeps(s, t);
        case UpdateNote => UpdateDelivered(s, t);
        case RecoveryNote(_) => RecoveryDelivered(s, t);
      }
    }
  }

  /** Nobody owes anything while the page is open. */
  lemma OpenIsQuiet(s: State, u: nat)
    requires Inv(s) && u < |s.tlbs| && s.lock.Open?
    ensures !HasNote(s.tlbs[u].down) && !s.tlbs[u].owes && |s.tlbs[u].down| <= 1
  {
    assert TlbInv(s.tlbs[u], u, s.page, s.lock);
  }

  lemma ServeNew(s: State, t: nat)
    requires Inv(s) && t < |s.tlbs| && s.tlbs[t].request.Wants? && !s.page.busy && !s.page.valid
    ensures Inv(DoServe(s, t))
  {
    var s' := DoServe(s, t);
    forall u: nat | u < |s'.tlbs| ensures TlbInv(s'.tlbs[u], u, s'.page, s'.lock) {
      assert TlbInv(s.tlbs[u], u, s.page, s.lock);
    }
    PageStep(s, s');
  }

  /** A served TLB and the others, when the page goes on to `state` under `lock`. */
  lemma ServedTlbs(s: State, t: nat, page: Page, lock: Lock, u: nat)
    requires Inv(s) && t < |s.tlbs| && u < |s.tlbs| && s.tlbs[t].request.Wants? && !s.page.busy && s.page.valid
    requires (page.state, OpenPage) == Decide(s.page, t, s.tlbs[t].request.cmd) && lock == Opening(t)
    requires page == s.page.(busy := true, state := page.state)
    ensures TlbInv(if u == t then s.tlbs[u].(request := Nothing) else s.tlbs[u], u, page, lock)
  {
    assert TlbInv(s.tlbs[u], u, s.page, s.lock);
    OpenIsQuiet(s, u);
  }

  lemma ServeOpens(s: State, t: nat)
    requires Inv(s) && t < |s.tlbs| && s.tlbs[t].request.Wants? && !s.page.busy && s.page.valid
    requires Decide(s.page, t, s.tlbs[t].request.cmd).1.OpenPage?
    ensures Inv(DoServe(s, t))
  {
    var s' := DoServe(s, t);
    forall u: nat | u < |s'.tlbs| ensures TlbInv(s'.tlbs[u], u, s'.page, s'.lock) {
      ServedTlbs(s, t, s'.page, s'.lock, u);
    }
    PageStep(s, s');
  }

  lemma AskedTlb(s: State, t: nat, u: nat, page: Page)
    requires Inv(s) && t < |s.tlbs| && u < |s.tlbs| && s.tlbs[t].request.Wants? && !s.page.busy && s.page.valid
    requires Decide(s.page, t, s.tlbs[t].request.cmd).1.AskKeeper? && page == s.page.(busy := true, state := SharedRead)
    ensures var x := if u == t then s.tlbs[u].(request := Nothing) else s.tlbs[u];
            TlbInv(if u == s.page.keeper then x.(down := x.down + [UpdateNote]) else x, u, page, Updating(t))
  {
    assert TlbInv(s.tlbs[u], u, s.page, s.lock);
    OpenIsQuiet(s, u);
  }

  lemma RecoveredTlb(s: State, t: nat, u: nat, page: Page)
    requires Inv(s) && t < |s.tlbs| && u < |s.tlbs| && s.tlbs[t].request.Wants? && !s.page.busy && s.page.valid
    requires Decide(s.page, t, s.tlbs[t].request.cmd).1.RecoverKeeper? && page == s.page.(busy := true, state := SharedWrite)
    ensures var x := if u == t then s.tlbs[u].(request := Nothing) else s.tlbs[u];
            TlbInv(if u == s.page.keeper then x.(down := x.down + [RecoveryNote(t)]) else x, u, page, Recovering(t))
  {
    assert TlbInv(s.tlbs[u], u, s.page, s.lock);
    OpenIsQuiet(s, u);
  }

  lemma ServeAsks(s: State, t: nat)
    requires Inv(s) && t < |s.tlbs| && s.tlbs[t].request.Wants? && !s.page.busy && s.page.valid
    requires var a := Decide(s.page, t, s.tlbs[t].request.cmd).1; a.AskKeeper? || a.RecoverKeeper?
    ensures Inv(DoServe(s, t))
  {
    var s' := DoServe(s, t);
    var ask := Decide(s.page, t, s.tlbs[t].request.cmd).1.AskKeeper?;
    forall u: nat | u < |s'.tlbs| ensures TlbInv(s'.tlbs[u], u, s'.page, s'.lock) {
      if ask { AskedTlb(s, t, u, s'.page); } else { RecoveredTlb(s, t, u, s'.page); }
    }
    PageStep(s, s');
  }

  /** A broadcast from an open page: everybody gets a note and owes an answer. */
  lemma TellKeeps(s: State, requester: int)
    requires |s.tlbs| > 0 && -1 <= requester < |s.tlbs| && s.page.valid && 0 <= s.page.keeper < |s.tlbs| && !s.panicked
    requires forall u: nat :: u < |s.tlbs| ==> ToldReady(s.tlbs[u], u, s.page, requester)
    ensures Inv(Tell(s, requester))
  {
    var s' := Tell(s, requester);
    forall u: nat | u < |s'.tlbs| ensures TlbInv(s'.tlbs[u], u, s'.page, s'.lock) && HasNote(s'.tlbs[u].down) {
      assert ToldReady(s.tlbs[u], u, s.page, requester);
    }
    AllOwe(s'.tlbs);
  }

  /** Everything the invariant asks of a TLB of an open page, its miss aside. */
  ghost predicate ToldReady(x: Tlb, u: nat, page: Page, requester: int) {
    && |x.down| <= 1 && !HasNote(x.down) && !x.owes
    && MissInv(x, u, Spreading(requester, 1))
    && !HoldsPrivate(x)
    && (x.writeBacks > 0 ==> u == page.keeper && x.entry != Present(PrivateRead) && (x.asked ==> x.evicting))
  }

  lemma {:induction false} FirstThreads(n: nat, s: set<nat>)
    requires forall t: nat :: t in s <==> t < n
    ensures |s| == n
  {
    if n > 0 {
      FirstThreads(n - 1, s - {n - 1});
    } else {
      assert s == {};
    }
  }

  lemma AllOwe(tlbs: seq<Tlb>)
    requires forall t: nat :: t < |tlbs| ==> HasNote(tlbs[t].down)
    ensures |Owing(tlbs)| == |tlbs|
  {
    FirstThreads(|tlbs|, Owing(tlbs));
  }

  lemma ServeTells(s: State, t: nat)
    requires Inv(s) && t < |s.tlbs| && s.tlbs[t].request.Wants? && !s.page.busy && s.page.valid
    requires Decide(s.page, t, s.tlbs[t].request.cmd).1.TellAll?
    ensures Inv(DoServe(s, t))
  {
    var s1 := Put(s, t, s.tlbs[t].(request := Nothing));
    forall u: nat | u < |s1.tlbs| ensures ToldReady(s1.tlbs[u], u, s1.page, t) {
      assert TlbInv(s.tlbs[u], u, s.page, s.lock);
      OpenIsQuiet(s, u);
    }
    TellKeeps(s1, t);
  }

  lemma ServeKeeps(s: State, t: nat)
    requires Inv(s) && t < |s.tlbs|
    ensures Inv(DoServe(s, t))
  {
    if s.tlbs[t].request.Wants? && !s.page.busy {
      if !s.page.valid {
        ServeNew(s, t);
      } else {
        match Decide(s.page, t, s.tlbs[t].request.cmd).1 {
          case OpenPage => ServeOpens(s, t);
          case TellAll => ServeTells(s, t);
          case _ => ServeAsks(s, t);
        }
      }
    }
  }

  lemma HandleKeeps(s: State)
    requires Inv(s)
    ensures Inv(DoHandle(s))
  {
    var s' := DoHandle(s);
    if s' != s {
      forall u: nat | u < |s'.tlbs| ensures TlbInv(s'.tlbs[u], u, s'.page, s'.lock) {
        assert TlbInv(s.tlbs[u], u, s.page, s.lock);
      }
      PageStep(s, s');
    }
  }

  lemma OneLess(tlbs: seq<Tlb>, t: nat, x: Tlb)
    requires t < |tlbs| && (HasNote(tlbs[t].down) || tlbs[t].owes) && !HasNote(x.down) && !x.owes
    ensures |Owing(tlbs[t := x])| == |Owing(tlbs)| - 1
  {
    assert t in Owing(tlbs);
    assert Owing(tlbs[t := x]) == Owing(tlbs) - {t};
  }

  lemma NoneOwes(tlbs: seq<Tlb>, u: nat)
    requires |Owing(tlbs)| == 0 && u < |tlbs|
    ensures !HasNote(tlbs[u].down) && !tlbs[u].owes
  {
    assert Owing(tlbs) == {};
    assert u !in Owing(tlbs);
  }

  lemma CollectsOne(s: State, t: nat)
    requires Inv(s) && t < |s.tlbs| && s.tlbs[t].owes && s.lock.Spreading? && s.lock.left != 1
    ensures Inv(DoCollect(s, t))
  {
    var s' := DoCollect(s, t);
    OneLess(s.tlbs, t, s.tlbs[t].(owes := false));
    NoneLeft(s, t);
    forall u: nat | u < |s'.tlbs| ensures TlbInv(s'.tlbs[u], u, s'.page, s'.lock) {
      assert TlbInv(s.tlbs[u], u, s.page, s.lock);
    }
  }

  lemma NoneLeft(s: State, t: nat)
    requires Inv(s) && t < |s.tlbs| && s.tlbs[t].owes
    ensures !HasNote(s.tlbs[t].down) && s.lock.Spreading?
  {
    assert TlbInv(s.tlbs[t], t, s.page, s.lock);
  }

  lemma LastTlb(s: State, t: nat, u: nat)
    requires Inv(s) && t < |s.tlbs| && u < |s.tlbs| && s.tlbs[t].owes && s.lock.Spreading? && s.lock.left == 1
    ensures var x := if u == t then s.tlbs[u].(owes := false) else s.tlbs[u];
            var s' := DoCollect(s, t);
            s'.tlbs[u] == x && TlbInv(x, u, s'.page, s'.lock)
  {
    NoneLeft(s, t);
    OneLess(s.tlbs, t, s.tlbs[t].(owes := false));
    NoneOwes(s.tlbs[t := s.tlbs[t].(owes := false)], u);
    assert TlbInv(s.tlbs[u], u, s.page, s.lock);
  }

  lemma CollectsLast(s: State, t: nat)
    requires Inv(s) && t < |s.tlbs| && s.tlbs[t].owes && s.lock.Spreading? && s.lock.left == 1
    ensures Inv(DoCollect(s, t))
  {
    var s' := DoCollect(s, t);
    forall u: nat | u < |s'.tlbs| ensures TlbInv(s'.tlbs[u], u, s'.page, s'.lock) { LastTlb(s, t, u); }
  }

  lemma CollectKeeps(s: State, t: nat)
    requires Inv(s) && t < |s.tlbs|
    ensures Inv(DoCollect(s, t))
  {
    if s.tlbs[t].owes {
      NoneLeft(s, t);
      if s.lock.left == 1 { CollectsLast(s, t); } else { CollectsOne(s, t); }
    }
  }

  lemma TakeBackKeeps(s: State, t: nat)
    requires Inv(s) && t < |s.tlbs|
    ensures Inv(DoTakeBack(s, t))
  {
    if s.tlbs[t].writeBacks > 0 && !s.page.busy {
      assert TlbInv(s.tlbs[t], t, s.page, s.lock);
      var s' := DoTakeBack(s, t);
      forall u: nat | u < |s'.tlbs| ensures TlbInv(s'.tlbs[u], u, s'.page, s'.lock) {
        assert TlbInv(s.tlbs[u], u, s.page, s.lock);
      }
      PageStep(s, s');
    }
  }

  lemma TakeRecoveryKeeps(s: State, t: nat)
    requires Inv(s) && t < |s.tlbs|
    ensures Inv(DoTakeRecovery(s, t))
  {
    var x := s.tlbs[t];
    assert TlbInv(x, t, s.page, s.lock);
    if x.recoveries > 0 {
      var s1 := Put(s, t, x.(recoveries := x.recoveries - 1));
      LocalStep(s, t, x.(recoveries := x.recoveries - 1));
      if !s.page.busy {
        forall u: nat | u < |s1.tlbs| ensures ToldReady(s1.tlbs[u], u, s1.page, -1) {
          assert TlbInv(s1.tlbs[u], u, s1.page, s1.lock);
          OpenIsQuiet(s1, u);
        }
        TellKeeps(s1, -1);
      }
    }
  }

  lemma NextKeeps(s: State, step: Step)
    requires Inv(s)
    ensures Inv(Next(s, step))
  {
    match step {
      case Access(t, cmd) => if t < |s.tlbs| { AccessKeeps(s, t, cmd); }
      case Evict(t) => if t < |s.tlbs| { EvictKeeps(s, t); }
      case Deliver(t) => if t < |s.tlbs| { DeliverKeeps(s, t); }
      case Serve(t) => if t < |s.tlbs| { ServeKeeps(s, t); }
      case Handle => HandleKeeps(s);
      case Collect(t) => if t < |s.tlbs| { CollectKeeps(s, t); }
      case TakeBack(t) => if t < |s.tlbs| { TakeBackKeeps(s, t); }
      case TakeRecovery(t) => if t < |s.tlbs| { TakeRecoveryKeeps(s, t); }
    }
  }

  /** ---------------- runs ---------------- */

  ghost function Start(vpn: nat, n: nat): State {
    State.State(BLANK.(vpn := vpn), Open, seq(n, _ => Tlb(Absent, false, false, false, Nothing, [], 0, 0, false)), false,
                Counters(0, 0, 0, 0, 0))
  }

  ghost function Run(vpn: nat, n: nat, steps: seq<Step>): State {
    if steps == [] then Start(vpn, n) else Next(Run(vpn, n, steps[..|steps| - 1]), steps[|steps| - 1])
  }

  lemma {:induction false} RunInv(vpn: nat, n: nat, steps: seq<Step>)
    ensures Inv(Run(vpn, n, steps))
  {
    if steps != [] {
      RunInv(vpn, n, steps[..|steps| - 1]);
      NextKeeps(Run(vpn, n, steps[..|steps| - 1]), steps[|steps| - 1]);
    }
  }

  lemma AloneIn(s: State, t: nat, u: nat)
    requires Inv(s) && t < |s.tlbs| && u < |s.tlbs| && t != u && HoldsPrivate(s.tlbs[t])
    ensures !HasPage(s.tlbs[u])
  {
    assert TlbInv(s.tlbs[t], t, s.page, s.lock) && TlbInv(s.tlbs[u], u, s.page, s.lock);
  }

  /** A page that one TLB holds as private, or is being given as private, no other TLB holds or is being
      given: what is private to a thread needs no coherence. */
  lemma PrivateIsAlone(vpn: nat, n: nat, steps: seq<Step>, t: nat, u: nat)
    requires t < |Run(vpn, n, steps).tlbs| && u < |Run(vpn, n, steps).tlbs| && t != u
    requires HoldsPrivate(Run(vpn, n, steps).tlbs[t])
    ensures !HasPage(Run(vpn, n, steps).tlbs[u])
  {
    RunInv(vpn, n, steps);
    AloneIn(Run(vpn, n, steps), t, u);
  }

  /** None of the panics of the page protocol is reached: no refill without a miss entry, no update to a
      keeper that shares already, no write back to a SHARED_READ page, no recovery of a private one. */
  lemma NoPanic(vpn: nat, n: nat, steps: seq<Step>)
    ensures !Run(vpn, n, steps).panicked
  {
    RunInv(vpn, n, steps);
  }
}
