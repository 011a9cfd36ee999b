/** Every run of the page protocol: the classification only moves up, busy is a lock, the table stays
    tidy, and a broadcast waits for exactly its outstanding children. */
module PageProtocol {
  import opened PageTable
  import Counting

  /** ---------------- steps ---------------- */

  datatype Step =
    | Issue(event: Event)           // a new request reaches the directory
    | Answer(i: nat, to: PageState) // a TLB answers an update, a recovery or a broadcast
    | Serve(i: nat)                 // the directory handles an event

  /** A miss comes from one of the threads. A TLB writes back or recovers only pages it was given; shared-read
      entries only come from pages that were shared by then. Which TLB has which entry when is the subject
      of PrivatePages. */
  ghost predicate MayIssue(st: State, e: Event) {
    match e
    case Miss(_, tid, _) => 0 <= tid < st.contexts
    case WriteBack(vpn) => Matches(st.pages, vpn)
    case SrRecovery(vpn) => Matches(st.pages, vpn) && Leq(SharedRead, st.pages[Where(st.pages, vpn)].state)
    case _ => false
  }

  ghost predicate MayAnswer(st: State, i: nat, to: PageState) {
    && i < |st.events| && Leq(SharedRead, to)
    && (st.events[i].Update? || st.events[i].Recovery? || (st.events[i].Child? && !st.events[i].acked))
  }

  ghost predicate MayServe(st: State, i: nat) {
    && i < |st.events|
    && match st.events[i]
       case Miss(_, _, _) => true
       case WriteBack(_) => true
       case SrRecovery(_) => true
       case RefillWait(_) => true
       case UpdateAck(_, _) => true
       case RecoveryAck(_) => true
       case Child(_, p, acked) => acked && p < |st.events| && st.events[p].Parent? && p != i
       case _ => false
  }

  ghost predicate May(st: State, s: Step) {
    match s
    case Issue(e) => MayIssue(st, e)
    case Answer(i, to) => MayAnswer(st, i, to)
    case Serve(i) => MayServe(st, i)
  }

  ghost function Answered(st: State, i: nat, to: PageState): State
    requires MayAnswer(st, i, to)
  {
    match st.events[i]
    case Update(vpn) => SetEvent(st, i, UpdateAck(vpn, to))
    case Recovery(vpn) => SetEvent(st, i, RecoveryAck(vpn))
    case Child(vpn, p, _) => SetEvent(st, i, Child(vpn, p, true))
    case _ => st
  }

  ghost function ServedEvent(st: State, i: nat): Served
    requires MayServe(st, i)
  {
    match st.events[i]
    case Miss(_, _, _) => ServeMiss(st, i)
    case WriteBack(_) => ServeWriteBack(st, i)
    case SrRecovery(_) => ServeSrRecovery(st, i)
    case RefillWait(_) => ServeRefillWait(st, i)
    case UpdateAck(_, _) => ServeUpdateAck(st, i)
    case RecoveryAck(_) => ServeRecoveryAck(st, i)
    case Child(_, _, _) => ServeChildAck(st, i)
    case _ => Panic
  }

  ghost function Next(st: State, s: Step): Served
    requires May(st, s)
  {
    match s
    case Issue(e) => Ok(st.(events := st.events + [e]))
    case Answer(i, to) => Ok(Answered(st, i, to))
    case Serve(i) => ServedEvent(st, i)
  }

  /** ---------------- the invariant ---------------- */

  /** The events that hold the lock of their page. */
  ghost predicate Holds(e: Event, vpn: nat) {
    match e
    case RefillWait(v) => v == vpn
    case Update(v) => v == vpn
    case UpdateAck(v, _) => v == vpn
    case Recovery(v) => v == vpn
    case RecoveryAck(v) => v == vpn
    case Parent(v, _, _) => v == vpn
    case _ => false
  }

  ghost predicate HoldsSome(e: Event) { e.RefillWait? || e.Update? || e.UpdateAck? || e.Recovery? || e.RecoveryAck? || e.Parent? }

  /** What a lock holder says about the state of its page. */
  ghost predicate Linked(e: Event, state: PageState) {
    match e
    case Update(_) => state == SharedRead
    case UpdateAck(_, to) => state == SharedRead && Leq(SharedRead, to)
    case Recovery(_) => state == SharedWrite
    case RecoveryAck(_) => state == SharedWrite
    case Parent(_, _, _) => state == SharedWrite
    case SrRecovery(_) => Leq(SharedRead, state)
    case _ => true
  }

  ghost predicate OnPage(e: Event) { !e.Free? && !e.Miss? }

  ghost predicate Known(st: State, i: nat)
    requires i < |st.events|
  {
    OnPage(st.events[i]) ==>
      && Matches(st.pages, st.events[i].vpn)
      && Linked(st.events[i], st.pages[Where(st.pages, st.events[i].vpn)].state)
      && (HoldsSome(st.events[i]) ==> st.pages[Where(st.pages, st.events[i].vpn)].busy)
  }

  ghost predicate AllKnown(st: State) { forall i: nat :: i < |st.events| ==> Known(st, i) }

  /** No two events hold the lock of the same page. */
  ghost predicate Exclusive(st: State) {
    forall i: nat, j: nat :: i < j < |st.events| && HoldsSome(st.events[i]) ==> !Holds(st.events[j], st.events[i].vpn)
  }

  ghost predicate HeldBySome(events: seq<Event>, vpn: nat) {
    exists i: nat :: i < |events| && Holds(events[i], vpn)
  }

  /** A busy page has an event that will open it again. */
  ghost predicate Held(st: State) {
    forall k: nat :: k < |st.pages| && st.pages[k].valid && st.pages[k].busy ==> HeldBySome(st.events, st.pages[k].vpn)
  }

  ghost function ChildOf(p: nat): Event -> bool { (e: Event) => e.Child? && e.parent == p }

  ghost function ChildrenOf(events: seq<Event>, p: nat): nat { Counting.Count(events, ChildOf(p)) }

  ghost function IsChild(e: Event, p: nat): nat { Counting.One(e.Child? && e.parent == p) }

  ghost predicate Family(events: seq<Event>, i: nat)
    requires i < |events|
  {
    && (events[i].Child? ==> events[i].parent < |events| && events[events[i].parent].Parent?
                             && events[events[i].parent].vpn == events[i].vpn)
    && (events[i].Parent? ==> events[i].childCount == ChildrenOf(events, i) > 0)
  }

  ghost predicate Families(events: seq<Event>) { forall i: nat :: i < |events| ==> Family(events, i) }

  ghost predicate Inv(st: State) {
    Tidy(st.pages) && AllKnown(st) && Exclusive(st) && Held(st) && Families(st.events) && st.contexts > 0
  }

  /** ---------------- children ---------------- */

  lemma ChildrenSet(events: seq<Event>, i: nat, e: Event, p: nat)
    requires i < |events|
    ensures ChildrenOf(events[i := e], p) == ChildrenOf(events, p) - IsChild(events[i], p) + IsChild(e, p)
  {
    Counting.CountSet(events, i, e, ChildOf(p));
  }

  lemma ChildrenPlus(events: seq<Event>, more: seq<Event>, p: nat)
    ensures ChildrenOf(events + more, p) == ChildrenOf(events, p) + ChildrenOf(more, p)
  {
    Counting.CountPlus(events, more, ChildOf(p));
  }

  lemma ChildrenNone(events: seq<Event>, p: nat)
    requires forall i :: 0 <= i < |events| ==> IsChild(events[i], p) == 0
    ensures ChildrenOf(events, p) == 0
  {
    forall i | 0 <= i < |events| ensures !ChildOf(p)(events[i]) { assert IsChild(events[i], p) == 0; }
    Counting.CountZero(events, ChildOf(p));
  }

  lemma ChildrenBroadcast(vpn: nat, parent: nat, n: nat, p: nat)
    ensures ChildrenOf(Broadcast(vpn, parent, n), p) == if p == parent then n else 0
  {
    if p == parent { Counting.CountAll(Broadcast(vpn, parent, n), ChildOf(p)); }
    else { ChildrenNone(Broadcast(vpn, parent, n), p); }
  }

  /** A child is counted. */
  lemma ChildCounted(events: seq<Event>, i: nat, p: nat)
    requires i < |events| && IsChild(events[i], p) == 1
    ensures ChildrenOf(events, p) > 0
  {
    Counting.CountSome(events, i, ChildOf(p));
  }

  /** ---------------- pages ---------------- */

  /** Pages are only added, never renamed. */
  ghost predicate Extends(pages: seq<Page>, pages': seq<Page>) {
    && |pages'| == |pages|
    && forall k :: 0 <= k < |pages| && pages[k].valid ==> pages'[k].valid && pages'[k].vpn == pages[k].vpn
  }

  ghost predicate Rises(pages: seq<Page>, pages': seq<Page>) {
    Extends(pages, pages') && forall k :: 0 <= k < |pages| && pages[k].valid ==> Leq(pages[k].state, pages'[k].state)
  }

  lemma WhereExtends(pages: seq<Page>, pages': seq<Page>, vpn: nat)
    requires Tidy(pages) && Tidy(pages') && Extends(pages, pages') && Matches(pages, vpn)
    ensures Matches(pages', vpn) && Where(pages', vpn) == Where(pages, vpn)
  {
    ScanIsLookup(pages', vpn);
    assert HeldAt(pages', vpn, Where(pages, vpn));
  }

  /** Only page k changes, in its busy bit and its state. */
  ghost predicate Touches(pages: seq<Page>, pages': seq<Page>, k: nat) {
    && k < |pages| && |pages'| == |pages|
    && pages'[k].valid == pages[k].valid && pages'[k].vpn == pages[k].vpn
    && forall j :: 0 <= j < |pages| && j != k ==> pages'[j] == pages[j]
  }

  lemma TouchesTidy(pages: seq<Page>, pages': seq<Page>, k: nat)
    requires Tidy(pages) && Touches(pages, pages', k)
    ensures Tidy(pages') && Extends(pages, pages')
  {
  }

  lemma OtherPage(pages: seq<Page>, a: nat, b: nat)
    requires Tidy(pages) && Matches(pages, a) && Matches(pages, b) && a != b
    ensures Where(pages, a) != Where(pages, b)
  {
  }

  /** ---------------- one event and its page ---------------- */

  /** The step changes event i into e and page k, the page of event i, to p. */
  ghost predicate Local(st: State, st': State, i: nat, k: nat, vpn: nat, e: Event) {
    && i < |st.events| && st'.events == st.events[i := e] && st'.contexts == st.contexts
    && Matches(st.pages, vpn) && k == Where(st.pages, vpn) && Touches(st.pages, st'.pages, k)
    && !st.events[i].Free? && st.events[i].vpn == vpn && !st.events[i].Child? && !st.events[i].Parent?
    && (e == Free || (e.vpn == vpn && !e.Child? && !e.Parent? && !e.Miss?))
    && Linked(e, st'.pages[k].state) && Leq(st.pages[k].state, st'.pages[k].state)
    && (st'.pages[k].busy <==> HoldsSome(e))
    && (st.pages[k].busy <==> HoldsSome(st.events[i]))
  }

  lemma NoOtherHolder(st: State, i: nat, k: nat, vpn: nat, j: nat)
    requires Inv(st) && i < |st.events| && Matches(st.pages, vpn) && k == Where(st.pages, vpn)
    requires !st.events[i].Free? && st.events[i].vpn == vpn
    requires st.pages[k].busy ==> HoldsSome(st.events[i])
    requires j < |st.events| && j != i
    ensures !Holds(st.events[j], vpn)
  {
    assert Known(st, j);
    assert HoldsSome(st.events[i]) ==> Holds(st.events[i], vpn);
  }

  lemma LocalKnown(st: State, st': State, i: nat, k: nat, vpn: nat, e: Event, j: nat)
    requires Inv(st) && Local(st, st', i, k, vpn, e) && j < |st.events|
    ensures Known(st', j)
  {
    TouchesTidy(st.pages, st'.pages, k);
    if j != i {
      assert Known(st, j);
      NoOtherHolder(st, i, k, vpn, j);
      if OnPage(st.events[j]) {
        WhereExtends(st.pages, st'.pages, st.events[j].vpn);
        if st.events[j].vpn != vpn { OtherPage(st.pages, vpn, st.events[j].vpn); }
      }
    } else {
      WhereExtends(st.pages, st'.pages, vpn);
    }
  }

  lemma LocalExclusive(st: State, st': State, i: nat, k: nat, vpn: nat, e: Event)
    requires Inv(st) && Local(st, st', i, k, vpn, e)
    ensures Exclusive(st')
  {
    forall a: nat, b: nat | a < b < |st'.events| && HoldsSome(st'.events[a])
      ensures !Holds(st'.events[b], st'.events[a].vpn)
    {
      if a == i {
        NoOtherHolder(st, i, k, vpn, b);
      } else if b == i {
        NoOtherHolder(st, i, k, vpn, a);
      }
    }
  }

  lemma LocalHeld(st: State, st': State, i: nat, k: nat, vpn: nat, e: Event)
    requires Inv(st) && Local(st, st', i, k, vpn, e)
    ensures Held(st')
  {
    forall a: nat | a < |st'.pages| && st'.pages[a].valid && st'.pages[a].busy
      ensures HeldBySome(st'.events, st'.pages[a].vpn)
    {
      if a == k {
        assert Holds(st'.events[i], vpn);
      } else {
        assert st.pages[a].vpn != vpn;
        var j: nat :| j < |st.events| && Holds(st.events[j], st.pages[a].vpn);
        assert Holds(st'.events[j], st'.pages[a].vpn);
      }
    }
  }

  lemma SetFamilies(events: seq<Event>, i: nat, e: Event)
    requires Families(events) && i < |events|
    requires !events[i].Child? && !events[i].Parent? && !e.Child? && !e.Parent?
    ensures Families(events[i := e])
  {
    var events' := events[i := e];
    forall j: nat | j < |events'| ensures Family(events', j) {
      assert Family(events, j);
      ChildrenSet(events, i, e, j);
    }
  }

  lemma LocalInv(st: State, st': State, i: nat, k: nat, vpn: nat, e: Event)
    requires Inv(st) && Local(st, st', i, k, vpn, e)
    ensures Inv(st') && Rises(st.pages, st'.pages)
  {
    TouchesTidy(st.pages, st'.pages, k);
    forall j: nat | j < |st'.events| ensures Known(st', j) { LocalKnown(st, st', i, k, vpn, e, j); }
    LocalExclusive(st, st', i, k, vpn, e);
    LocalHeld(st, st', i, k, vpn, e);
    SetFamilies(st.events, i, e);
  }

  /** ---------------- events that come and go ---------------- */

  /** An event that holds no lock is finished without touching its page. */
  lemma DropInv(st: State, i: nat)
    requires Inv(st) && i < |st.events| && !HoldsSome(st.events[i]) && !st.events[i].Child?
    ensures Inv(SetEvent(st, i, Free))
  {
    var st' := SetEvent(st, i, Free);
    forall j: nat | j < |st'.events| ensures Known(st', j) { assert Known(st, j); }
    forall a: nat | a < |st'.pages| && st'.pages[a].valid && st'.pages[a].busy
      ensures HeldBySome(st'.events, st'.pages[a].vpn)
    {
      var j: nat :| j < |st.events| && Holds(st.events[j], st.pages[a].vpn);
      assert Holds(st'.events[j], st'.pages[a].vpn);
    }
    SetFamilies(st.events, i, Free);
  }

  lemma IssueInv(st: State, e: Event)
    requires Inv(st) && MayIssue(st, e)
    ensures Inv(st.(events := st.events + [e]))
  {
    var st' := st.(events := st.events + [e]);
    forall j: nat | j < |st'.events| ensures Known(st', j) {
      if j < |st.events| { assert Known(st, j); }
    }
    forall a: nat | a < |st'.pages| && st'.pages[a].valid && st'.pages[a].busy
      ensures HeldBySome(st'.events, st'.pages[a].vpn)
    {
      var j: nat :| j < |st.events| && Holds(st.events[j], st.pages[a].vpn);
      assert Holds(st'.events[j], st'.pages[a].vpn);
    }
    forall j: nat | j < |st'.events| ensures Family(st'.events, j) {
      if j < |st.events| { assert Family(st.events, j); }
      ChildrenPlus(st.events, [e], j);
      ChildrenNone([e], j);
    }
  }

  lemma ChildAnswers(st: State, i: nat)
    requires Inv(st) && i < |st.events| && st.events[i].Child?
    ensures Inv(SetEvent(st, i, Child(st.events[i].vpn, st.events[i].parent, true)))
  {
    var e := Child(st.events[i].vpn, st.events[i].parent, true);
    var st' := SetEvent(st, i, e);
    forall j: nat | j < |st'.events| ensures Known(st', j) { assert Known(st, j); }
    forall a: nat | a < |st'.pages| && st'.pages[a].valid && st'.pages[a].busy
      ensures HeldBySome(st'.events, st'.pages[a].vpn)
    {
      var j: nat :| j < |st.events| && Holds(st.events[j], st.pages[a].vpn);
      assert Holds(st'.events[j], st'.pages[a].vpn);
    }
    forall j: nat | j < |st'.events| ensures Family(st'.events, j) {
      assert Family(st.events, j) && Family(st.events, i);
      ChildrenSet(st.events, i, e, j);
    }
  }

  lemma SamePage(st: State, i: nat, e: Event)
    requires Inv(st) && i < |st.events| && (st.events[i].Update? || st.events[i].Recovery?)
    requires e.UpdateAck? || e.RecoveryAck?
    requires e.vpn == st.events[i].vpn && Matches(st.pages, e.vpn)
    requires Linked(e, st.pages[Where(st.pages, e.vpn)].state)
    ensures Inv(SetEvent(st, i, e))
  {
    assert Known(st, i);
    LocalInv(st, SetEvent(st, i, e), i, Where(st.pages, e.vpn), e.vpn, e);
  }

  lemma AnswerInv(st: State, i: nat, to: PageState)
    requires Inv(st) && MayAnswer(st, i, to)
    ensures Inv(Answered(st, i, to)) && Answered(st, i, to).pages == st.pages
  {
    assert Known(st, i);
    match st.events[i] {
      case Update(vpn) => SamePage(st, i, UpdateAck(vpn, to));
      case Recovery(vpn) => SamePage(st, i, RecoveryAck(vpn));
      case Child(_, _, _) => ChildAnswers(st, i);
    }
  }

  /** ---------------- a new page ---------------- */

  lemma NewPageInv(st: State, st': State, i: nat, k: nat, p: Page)
    requires Inv(st) && i < |st.events| && st.events[i].Miss? && st'.contexts == st.contexts
    requires p.valid && p.busy && p.vpn == st.events[i].vpn
    requires !Matches(st.pages, p.vpn) && k == Where(st.pages, p.vpn) && k < |st.pages|
    requires st'.pages == st.pages[k := p] && st'.events == st.events[i := RefillWait(p.vpn)]
    ensures Inv(st') && Rises(st.pages, st'.pages)
  {
    EntryKeepsTidy(st.pages, p);
    ScanIsLookup(st'.pages, p.vpn);
    assert HeldAt(st'.pages, p.vpn, k);
    forall j: nat | j < |st'.events| ensures Known(st', j) {
      assert Known(st, j);
      if j != i && OnPage(st.events[j]) { WhereExtends(st.pages, st'.pages, st.events[j].vpn); }
    }
    forall a: nat, b: nat | a < b < |st'.events| && HoldsSome(st'.events[a])
      ensures !Holds(st'.events[b], st'.events[a].vpn)
    {
      assert Known(st, a) && Known(st, b);
    }
    NewPageHeld(st, st', i, k, p);
    SetFamilies(st.events, i, RefillWait(p.vpn));
  }

  lemma NewPageHeld(st: State, st': State, i: nat, k: nat, p: Page)
    requires Held(st) && i < |st.events| && st.events[i].Miss? && k < |st.pages|
    requires st'.pages == st.pages[k := p] && st'.events == st.events[i := RefillWait(p.vpn)]
    ensures Held(st')
  {
    forall a: nat | a < |st'.pages| && st'.pages[a].valid && st'.pages[a].busy
      ensures HeldBySome(st'.events, st'.pages[a].vpn)
    {
      if a == k {
        assert Holds(st'.events[i], p.vpn);
      } else {
        var j: nat :| j < |st.events| && Holds(st.events[j], st.pages[a].vpn);
        assert Holds(st'.events[j], st'.pages[a].vpn);
      }
    }
  }

  /** ---------------- a broadcast ---------------- */

  /** Event i, which holds no lock, becomes a parent with one child per thread. */
  ghost predicate Spread(st: State, st': State, i: nat, k: nat, vpn: nat, fromMiss: bool) {
    && i < |st.events| && !HoldsSome(st.events[i]) && !st.events[i].Child? && !st.events[i].Free? && st.events[i].vpn == vpn
    && Matches(st.pages, vpn) && k == Where(st.pages, vpn) && !st.pages[k].busy
    && st'.contexts == st.contexts
    && st'.pages == st.pages[k := st.pages[k].(busy := true, state := SharedWrite)]
    && st'.events == st.events[i := Parent(vpn, st.contexts, fromMiss)] + Broadcast(vpn, i, st.contexts)
  }

  lemma SpreadKnown(st: State, st': State, i: nat, k: nat, vpn: nat, fromMiss: bool, j: nat)
    requires Inv(st) && Spread(st, st', i, k, vpn, fromMiss) && j < |st'.events|
    ensures Known(st', j)
  {
    TouchesTidy(st.pages, st'.pages, k);
    WhereExtends(st.pages, st'.pages, vpn);
    if j < |st.events| && j != i {
      assert Known(st, j);
      NoOtherHolder(st, i, k, vpn, j);
      if OnPage(st.events[j]) {
        WhereExtends(st.pages, st'.pages, st.events[j].vpn);
        if st.events[j].vpn != vpn { OtherPage(st.pages, vpn, st.events[j].vpn); }
      }
    }
  }

  lemma SpreadLocks(st: State, st': State, i: nat, k: nat, vpn: nat, fromMiss: bool)
    requires Inv(st) && Spread(st, st', i, k, vpn, fromMiss)
    ensures Exclusive(st') && Held(st')
  {
    forall a: nat, b: nat | a < b < |st'.events| && HoldsSome(st'.events[a])
      ensures !Holds(st'.events[b], st'.events[a].vpn)
    {
      if b < |st.events| {
        if a == i { NoOtherHolder(st, i, k, vpn, b); } else if b == i { NoOtherHolder(st, i, k, vpn, a); }
      }
    }
    forall a: nat | a < |st'.pages| && st'.pages[a].valid && st'.pages[a].busy
      ensures HeldBySome(st'.events, st'.pages[a].vpn)
    {
      if a == k {
        assert Holds(st'.events[i], vpn);
      } else {
        var j: nat :| j < |st.events| && Holds(st.events[j], st.pages[a].vpn);
        assert Holds(st'.events[j], st'.pages[a].vpn);
      }
    }
  }

  lemma SpreadFamily(st: State, st': State, i: nat, k: nat, vpn: nat, fromMiss: bool, j: nat)
    requires Inv(st) && Spread(st, st', i, k, vpn, fromMiss) && j < |st'.events|
    ensures Family(st'.events, j)
  {
    var par := Parent(vpn, st.contexts, fromMiss);
    ChildrenSet(st.events, i, par, j);
    ChildrenPlus(st.events[i := par], Broadcast(vpn, i, st.contexts), j);
    ChildrenBroadcast(vpn, i, st.contexts, j);
    if j < |st.events| && j != i { assert Family(st.events, j); }
    if j == i { NoChildren(st.events, i); }
  }

  /** What is not a parent has no children. */
  lemma NoChildren(events: seq<Event>, i: nat)
    requires Families(events) && i < |events| && !events[i].Parent?
    ensures ChildrenOf(events, i) == 0
  {
    forall j: nat | j < |events| ensures IsChild(events[j], i) == 0 { assert Family(events, j); }
    ChildrenNone(events, i);
  }

  lemma SpreadInv(st: State, st': State, i: nat, k: nat, vpn: nat, fromMiss: bool)
    requires Inv(st) && Spread(st, st', i, k, vpn, fromMiss)
    ensures Inv(st') && Rises(st.pages, st'.pages)
  {
    TouchesTidy(st.pages, st'.pages, k);
    forall j: nat | j < |st'.events| ensures Known(st', j) { SpreadKnown(st, st', i, k, vpn, fromMiss, j); }
    SpreadLocks(st, st', i, k, vpn, fromMiss);
    forall j: nat | j < |st'.events| ensures Family(st'.events, j) { SpreadFamily(st, st', i, k, vpn, fromMiss, j); }
  }

  /** ---------------- acknowledgements of a broadcast ---------------- */

  lemma EarlyAckInv(st: State, i: nat, p: nat)
    requires Inv(st) && i < |st.events| && st.events[i].Child? && st.events[i].parent == p && p < |st.events|
    requires st.events[p].Parent? && st.events[p].childCount > 1
    ensures Inv(SetEvent(SetEvent(st, i, Free), p, st.events[p].(childCount := st.events[p].childCount - 1)))
  {
    var e := st.events[p].(childCount := st.events[p].childCount - 1);
    var mid := st.events[i := Free];
    var st' := SetEvent(SetEvent(st, i, Free), p, e);
    forall j: nat | j < |st'.events| ensures Known(st', j) { assert Known(st, j); }
    forall a: nat | a < |st'.pages| && st'.pages[a].valid && st'.pages[a].busy
      ensures HeldBySome(st'.events, st'.pages[a].vpn)
    {
      var j: nat :| j < |st.events| && Holds(st.events[j], st.pages[a].vpn);
      assert Holds(st'.events[j], st'.pages[a].vpn);
    }
    forall j: nat | j < |st'.events| ensures Family(st'.events, j) {
      assert Family(st.events, j) && Family(st.events, p) && Family(st.events, i);
      ChildrenSet(st.events, i, Free, j);
      ChildrenSet(mid, p, e, j);
    }
  }

  /** The last acknowledgement: child i and parent p are done, and the page is SHARED_WRITE. */
  ghost predicate LastAck(st: State, st': State, i: nat, p: nat, k: nat, e: Event) {
    && i < |st.events| && p < |st.events| && i != p && st.events[i].Child? && st.events[i].parent == p
    && st.events[p].Parent? && st.events[p].childCount == 1 && st'.contexts == st.contexts
    && Matches(st.pages, st.events[p].vpn) && k == Where(st.pages, st.events[p].vpn)
    && (e == Free || e == RefillWait(st.events[p].vpn))
    && st'.events == st.events[i := Free][p := e]
    && st'.pages == st.pages[k := st.pages[k].(busy := e.RefillWait?, state := SharedWrite)]
  }

  lemma LastAckKnown(st: State, st': State, i: nat, p: nat, k: nat, e: Event, j: nat)
    requires Inv(st) && LastAck(st, st', i, p, k, e) && j < |st'.events|
    ensures Known(st', j)
  {
    var vpn := st.events[p].vpn;
    TouchesTidy(st.pages, st'.pages, k);
    WhereExtends(st.pages, st'.pages, vpn);
    if j != p && j != i {
      assert Known(st, j);
      NoOtherHolder(st, p, k, vpn, j);
      if OnPage(st.events[j]) {
        WhereExtends(st.pages, st'.pages, st.events[j].vpn);
        if st.events[j].vpn != vpn { OtherPage(st.pages, vpn, st.events[j].vpn); }
      }
    }
  }

  lemma LastAckLocks(st: State, st': State, i: nat, p: nat, k: nat, e: Event)
    requires Inv(st) && LastAck(st, st', i, p, k, e)
    ensures Exclusive(st') && Held(st')
  {
    var vpn := st.events[p].vpn;
    forall a: nat | a < |st'.pages| && st'.pages[a].valid && st'.pages[a].busy
      ensures HeldBySome(st'.events, st'.pages[a].vpn)
    {
      if a == k {
        assert Holds(st'.events[p], vpn);
      } else {
        var j: nat :| j < |st.events| && Holds(st.events[j], st.pages[a].vpn);
        assert j != p by { assert st.pages[a].vpn != vpn; }
        assert Holds(st'.events[j], st'.pages[a].vpn);
      }
    }
  }

  lemma LastAckFamily(st: State, st': State, i: nat, p: nat, k: nat, e: Event, j: nat)
    requires Inv(st) && LastAck(st, st', i, p, k, e) && j < |st'.events|
    ensures Family(st'.events, j)
  {
    assert Family(st.events, j) && Family(st.events, p);
    var mid := st.events[i := Free];
    ChildrenSet(st.events, i, Free, j);
    ChildrenSet(mid, p, e, j);
    ChildrenSet(st.events, i, Free, p);
    if j != i && j != p && IsChild(st.events[j], p) == 1 { ChildCounted(mid, j, p); }
  }

  lemma LastAckInv(st: State, st': State, i: nat, p: nat, k: nat, e: Event)
    requires Inv(st) && LastAck(st, st', i, p, k, e)
    ensures Inv(st') && Rises(st.pages, st'.pages)
  {
    assert Known(st, p);
    TouchesTidy(st.pages, st'.pages, k);
    forall j: nat | j < |st'.events| ensures Known(st', j) { LastAckKnown(st, st', i, p, k, e, j); }
    LastAckLocks(st, st', i, p, k, e);
    forall j: nat | j < |st'.events| ensures Family(st'.events, j) { LastAckFamily(st, st', i, p, k, e, j); }
  }

  /** ---------------- every step ---------------- */

  lemma MissLocal(st: State, i: nat, k: nat, vpn: nat, st': State)
    requires Inv(st) && i < |st.events| && st.events[i].Miss? && ServeMiss(st, i) == Ok(st')
    requires vpn == st.events[i].vpn && Matches(st.pages, vpn) && k == Where(st.pages, vpn) && !st.pages[k].busy
    requires st.pages[k].state != SharedRead || st.events[i].cmd == Read
    ensures Local(st, st', i, k, vpn, st'.events[i])
  {
  }

  lemma MissInv(st: State, i: nat, st': State)
    requires Inv(st) && i < |st.events| && st.events[i].Miss? && ServeMiss(st, i) == Ok(st')
    ensures Inv(st') && Rises(st.pages, st'.pages)
  {
    var vpn := st.events[i].vpn;
    var k := Where(st.pages, vpn);
    if !st.pages[k].valid {
      NewPageInv(st, st', i, k, st'.pages[k]);
    } else if !st.pages[k].busy {
      if st.pages[k].state == SharedRead && st.events[i].cmd == Write {
        SpreadInv(st, st', i, k, vpn, true);
      } else {
        MissLocal(st, i, k, vpn, st');
        LocalInv(st, st', i, k, vpn, st'.events[i]);
      }
    }
  }

  lemma SrRecoveryInv(st: State, i: nat, st': State)
    requires Inv(st) && i < |st.events| && st.events[i].SrRecovery? && ServeSrRecovery(st, i) == Ok(st')
    ensures Inv(st') && Rises(st.pages, st'.pages)
  {
    var vpn := st.events[i].vpn;
    var k := Where(st.pages, vpn);
    if !st.pages[k].busy {
      SpreadInv(st, st', i, k, vpn, false);
    } else if st.pages[k].state == SharedWrite {
      DropInv(st, i);
    }
  }

  lemma WriteBackInv(st: State, i: nat, st': State)
    requires Inv(st) && i < |st.events| && st.events[i].WriteBack? && ServeWriteBack(st, i) == Ok(st')
    ensures Inv(st') && Rises(st.pages, st'.pages)
  {
    var vpn := st.events[i].vpn;
    var k := Where(st.pages, vpn);
    if !st.pages[k].busy {
      if st.pages[k].state == SharedWrite { DropInv(st, i); } else { LocalInv(st, st', i, k, vpn, Free); }
    }
  }

  /** Handlers that finish what they hold the lock for never panic. */
  lemma HolderInv(st: State, i: nat)
    requires Inv(st) && i < |st.events|
    requires st.events[i].RefillWait? || st.events[i].UpdateAck? || st.events[i].RecoveryAck?
    ensures ServedEvent(st, i).Ok?
    ensures Inv(ServedEvent(st, i).state) && Rises(st.pages, ServedEvent(st, i).state.pages)
  {
    assert Known(st, i);
    var vpn := st.events[i].vpn;
    var k, st' := Where(st.pages, vpn), ServedEvent(st, i).state;
    LocalInv(st, st', i, k, vpn, st'.events[i]);
  }

  lemma ChildAckInv(st: State, i: nat)
    requires Inv(st) && MayServe(st, i) && st.events[i].Child?
    ensures ServeChildAck(st, i).Ok?
    ensures Inv(ServeChildAck(st, i).state) && Rises(st.pages, ServeChildAck(st, i).state.pages)
  {
    var p := st.events[i].parent;
    assert Family(st.events, i) && Family(st.events, p) && Known(st, p);
    var st' := ServeChildAck(st, i).state;
    if st.events[p].childCount > 1 {
      EarlyAckInv(st, i, p);
    } else {
      LastAckInv(st, st', i, p, Where(st.pages, st.events[p].vpn), st'.events[p]);
    }
  }

  /** What every step keeps: the invariant, the pages there are, and their place in the order. */
  lemma NextKeeps(st: State, s: Step, st': State)
    requires Inv(st) && May(st, s) && Next(st, s) == Ok(st')
    ensures Inv(st') && Rises(st.pages, st'.pages)
  {
    match s {
      case Issue(e) => IssueInv(st, e);
      case Answer(i, to) => AnswerInv(st, i, to);
      case Serve(i) =>
        match st.events[i] {
          case Miss(_, _, _) => MissInv(st, i, st');
          case WriteBack(_) => WriteBackInv(st, i, st');
          case SrRecovery(_) => SrRecoveryInv(st, i, st');
          case Child(_, _, _) => ChildAckInv(st, i);
          case _ => HolderInv(st, i);
        }
    }
  }

  /** ---------------- runs ---------------- */

  ghost predicate Runs(st: State, ss: seq<Step>, st': State)
    decreases ss
  {
    if ss == [] then st' == st
    else May(st, ss[0]) && Next(st, ss[0]).Ok? && Runs(Next(st, ss[0]).state, ss[1..], st')
  }

  lemma RisesTransitive(a: seq<Page>, b: seq<Page>, c: seq<Page>)
    requires Rises(a, b) && Rises(b, c)
    ensures Rises(a, c)
  {
    forall k | 0 <= k < |a| && a[k].valid ensures Leq(a[k].state, c[k].state) {
      LeqTransitive(a[k].state, b[k].state, c[k].state);
    }
  }

  /** On every run the classification of a page only moves up, and the invariant holds throughout. */
  lemma {:induction false} RunKeeps(st: State, ss: seq<Step>, st': State)
    requires Inv(st) && Runs(st, ss, st')
    ensures Inv(st') && Rises(st.pages, st'.pages)
    decreases ss
  {
    if ss != [] {
      var mid := Next(st, ss[0]).state;
      NextKeeps(st, ss[0], mid);
      RunKeeps(mid, ss[1..], st');
      RisesTransitive(st.pages, mid.pages, st'.pages);
    }
  }

  ghost function Start(size: nat, classify: bool, contexts: nat): State {
    State(seq(size, _ => BLANK), [], Counters(0, 0, 0, 0, 0), classify, contexts)
  }

  lemma StartInv(size: nat, classify: bool, contexts: nat)
    requires contexts > 0
    ensures Inv(Start(size, classify, contexts))
  {
  }

  /** ---------------- what follows ---------------- */

  /** Event i holds the lock of its page: the page is there and busy, no other event holds it, and
      while an update is out the page is SHARED_READ. */
  ghost predicate LockedBy(st: State, i: nat)
    requires i < |st.events| && OnPage(st.events[i])
  {
    && Matches(st.pages, st.events[i].vpn)
    && st.pages[Where(st.pages, st.events[i].vpn)].busy
    && Linked(st.events[i], st.pages[Where(st.pages, st.events[i].vpn)].state)
    && forall j: nat :: j < |st.events| && j != i ==> !Holds(st.events[j], st.events[i].vpn)
  }

  /** Busy is a lock, and a broadcast parent waits for exactly its outstanding children. */
  lemma BusyIsALock(size: nat, classify: bool, contexts: nat, ss: seq<Step>, st: State, i: nat)
    requires contexts > 0 && Runs(Start(size, classify, contexts), ss, st) && i < |st.events|
    ensures HoldsSome(st.events[i]) ==> LockedBy(st, i)
    ensures st.events[i].Update? ==> st.pages[Where(st.pages, st.events[i].vpn)].state == SharedRead
    ensures st.events[i].Parent? ==> st.events[i].childCount == ChildrenOf(st.events, i) > 0
  {
    StartInv(size, classify, contexts);
    RunKeeps(Start(size, classify, contexts), ss, st);
    assert Known(st, i) && Family(st.events, i);
    forall j: nat | HoldsSome(st.events[i]) && j < |st.events| && j != i ensures !Holds(st.events[j], st.events[i].vpn) {
      assert Holds(st.events[j], st.events[i].vpn) ==> Holds(st.events[i], st.events[j].vpn);
    }
  }

  /** The table: in every reachable state the early-stopping scan is a lookup of the valid entries. */
  lemma TableIsAMap(size: nat, classify: bool, contexts: nat, ss: seq<Step>, st: State, vpn: nat)
    requires contexts > 0 && Runs(Start(size, classify, contexts), ss, st)
    ensures Tidy(st.pages)
    ensures Matches(st.pages, vpn) <==> exists i: nat :: i < |st.pages| && HeldAt(st.pages, vpn, i)
  {
    StartInv(size, classify, contexts);
    RunKeeps(Start(size, classify, contexts), ss, st);
    ScanIsLookup(st.pages, vpn);
  }

  /** Which events can stop the simulation: a miss on a full table, and a write back that finds its page
      SHARED_READ and open. No acknowledgement, refill or recovery ever does. */
  lemma PanicsExactly(st: State, i: nat)
    requires Inv(st) && MayServe(st, i)
    ensures Next(st, Serve(i)).Panic? <==>
      || (st.events[i].Miss? && Where(st.pages, st.events[i].vpn) == |st.pages|)
      || (st.events[i].WriteBack? && Matches(st.pages, st.events[i].vpn) &&
          var p := st.pages[Where(st.pages, st.events[i].vpn)]; !p.busy && p.state == SharedRead)
  {
    assert Known(st, i);
    match st.events[i] {
      case Child(_, _, _) => ChildAckInv(st, i);
      case RefillWait(_) => HolderInv(st, i);
      case UpdateAck(_, _) => HolderInv(st, i);
      case RecoveryAck(_) => HolderInv(st, i);
      case _ =>
    }
  }

  /** ---------------- the page counters ---------------- */

  ghost function IsIn(p: Page, state: PageState): nat { Counting.One(p.valid && p.state == state) }

  ghost function InState(state: PageState): Page -> bool { (p: Page) => p.valid && p.state == state }

  ghost function CountIn(pages: seq<Page>, state: PageState): nat { Counting.Count(pages, InState(state)) }

  lemma CountsSet(pages: seq<Page>, k: nat, p: Page, pages': seq<Page>)
    requires k < |pages| && pages' == pages[k := p]
    ensures forall state :: CountIn(pages', state) == CountIn(pages, state) - IsIn(pages[k], state) + IsIn(p, state)
  {
    forall state ensures CountIn(pages', state) == CountIn(pages, state) - IsIn(pages[k], state) + IsIn(p, state) {
      Counting.CountSet(pages, k, p, InState(state));
    }
  }

  ghost predicate Exact(st: State) {
    && st.count.pr == CountIn(st.pages, PrivateRead) && st.count.pw == CountIn(st.pages, PrivateWrite)
    && st.count.sr == CountIn(st.pages, SharedRead) && st.count.sw == CountIn(st.pages, SharedWrite)
  }

  ghost function CountAll(c: Counters): int { c.pr + c.pw + c.sr + c.sw }

  /** The two guards behind which the counters lose track of the pages: a new page without
      classification, and a recovery of a page that is open but no longer SHARED_READ. */
  ghost predicate Miscounts(st: State, i: nat)
    requires i < |st.events|
  {
    match st.events[i]
    case Miss(vpn, _, _) => !st.classify && Where(st.pages, vpn) < |st.pages| && !Matches(st.pages, vpn)
    case SrRecovery(vpn) => Matches(st.pages, vpn) && !st.pages[Where(st.pages, vpn)].busy
                            && st.pages[Where(st.pages, vpn)].state != SharedRead
    case _ => false
  }

  /** The four counters always add up to the number of pages, exact or not. */
  lemma NextTotal(st: State, s: Step, st': State)
    requires May(st, s) && Next(st, s) == Ok(st') && CountAll(st.count) == st.count.total
    ensures CountAll(st'.count) == st'.count.total
  {
  }

  lemma SameCounts(st: State, i: nat, st': State)
    requires Inv(st) && MayServe(st, i) && ServedEvent(st, i) == Ok(st')
    requires st.events[i].RefillWait? || st.events[i].RecoveryAck? || st.events[i].Child?
    ensures st'.count == st.count && forall state :: CountIn(st'.pages, state) == CountIn(st.pages, state)
  {
    assert Known(st, i) && Family(st.events, i);
    if st.events[i].Child? {
      var p := st.events[i].parent;
      assert Known(st, p) && Family(st.events, p);
      if st.events[p].childCount == 1 {
        var k := Where(st.pages, st.events[p].vpn);
        CountsSet(st.pages, k, st'.pages[k], st'.pages);
      }
    } else {
      var k := Where(st.pages, st.events[i].vpn);
      CountsSet(st.pages, k, st'.pages[k], st'.pages);
    }
  }

  lemma OtherCounts(st: State, i: nat, st': State)
    requires Inv(st) && i < |st.events| && MayServe(st, i) && ServedEvent(st, i) == Ok(st') && Exact(st)
    requires st.events[i].UpdateAck? || st.events[i].WriteBack?
    ensures Exact(st')
  {
    assert Known(st, i);
    var k := Where(st.pages, st.events[i].vpn);
    CountsSet(st.pages, k, st'.pages[k], st'.pages);
  }

  lemma MissCounts(st: State, i: nat, st': State)
    requires Inv(st) && i < |st.events| && st.events[i].Miss? && ServeMiss(st, i) == Ok(st') && Exact(st)
    ensures Exact(st') <==> !Miscounts(st, i)
  {
    var k := Where(st.pages, st.events[i].vpn);
    CountsSet(st.pages, k, st'.pages[k], st'.pages);
  }

  lemma SrRecoveryCounts(st: State, i: nat, st': State)
    requires Inv(st) && i < |st.events| && st.events[i].SrRecovery? && ServeSrRecovery(st, i) == Ok(st') && Exact(st)
    ensures Exact(st') <==> !Miscounts(st, i)
  {
    var k := Where(st.pages, st.events[i].vpn);
    CountsSet(st.pages, k, st'.pages[k], st'.pages);
  }

  /** Each counter is the number of pages in its state until one of the two guards is passed. */
  lemma CountersExactly(st: State, i: nat, st': State)
    requires Inv(st) && MayServe(st, i) && Next(st, Serve(i)) == Ok(st') && Exact(st)
    ensures Exact(st') <==> !Miscounts(st, i)
  {
    match st.events[i] {
      case Miss(_, _, _) => MissCounts(st, i, st');
      case SrRecovery(_) => SrRecoveryCounts(st, i, st');
      case UpdateAck(_, _) => OtherCounts(st, i, st');
      case WriteBack(_) => OtherCounts(st, i, st');
      case _ => SameCounts(st, i, st');
    }
  }
}
