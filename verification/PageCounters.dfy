/** What the page protocol adds to the safety of private pages: who may still believe that a written page is
    shared for reading, and when the page counters are right. */
module PageCounters {
  import opened Counting
  import opened PageTable
  import opened PrivatePages

  /** ---------------- shared-read entries of a written page ---------------- */

  /** The keeper is being told, or has been told, that its private page is written by others. */
  ghost predicate Settling(lock: Lock) {
    lock.Updating? || (lock.Updated? && lock.to == SharedWrite) || lock.Recovering? || lock.Recovered?
  }

  /** A TLB that shares a written page for reading has the note about it on its way. */
  ghost predicate SharedInv(x: Tlb, page: Page, lock: Lock) {
    && (page.state == SharedWrite && HoldsAs(x, SharedRead) ==> HasNote(x.down))
    && (Settling(lock) ==> !HoldsAs(x, SharedRead) && x.recoveries == 0)
  }

  ghost predicate AllShared(s: PrivatePages.State) {
    forall t: nat :: t < |s.tlbs| ==> SharedInv(s.tlbs[t], s.page, s.lock)
  }

  lemma SharedStep(s: PrivatePages.State, step: PrivatePages.Step, u: nat)
    requires Inv(s) && AllShared(s) && u < |s.tlbs| && (step.Access? || step.Evict? || step.Collect? || step.TakeBack?)
    ensures var s' := Next(s, step); |s'.tlbs| == |s.tlbs| && SharedInv(s'.tlbs[u], s'.page, s'.lock)
  {
    assert TlbInv(s.tlbs[u], u, s.page, s.lock) && SharedInv(s.tlbs[u], s.page, s.lock);
    if step.Collect? && step.t < |s.tlbs| { assert TlbInv(s.tlbs[step.t], step.t, s.page, s.lock); }
  }

  lemma SharedDeliver(s: PrivatePages.State, t: nat, u: nat)
    requires Inv(s) && AllShared(s) && t < |s.tlbs| && u < |s.tlbs|
    ensures var s' := DoDeliver(s, t); |s'.tlbs| == |s.tlbs| && SharedInv(s'.tlbs[u], s'.page, s'.lock)
  {
    assert TlbInv(s.tlbs[u], u, s.page, s.lock) && SharedInv(s.tlbs[u], s.page, s.lock);
    assert TlbInv(s.tlbs[t], t, s.page, s.lock) && SharedInv(s.tlbs[t], s.page, s.lock);
  }

  lemma SharedServe(s: PrivatePages.State, t: nat, u: nat)
    requires Inv(s) && AllShared(s) && t < |s.tlbs| && u < |s.tlbs|
    ensures var s' := DoServe(s, t); |s'.tlbs| == |s.tlbs| && SharedInv(s'.tlbs[u], s'.page, s'.lock)
  {
    assert TlbInv(s.tlbs[u], u, s.page, s.lock) && SharedInv(s.tlbs[u], s.page, s.lock);
  }

  lemma SharedHome(s: PrivatePages.State, step: PrivatePages.Step, u: nat)
    requires Inv(s) && AllShared(s) && u < |s.tlbs| && (step.Handle? || step.TakeRecovery?)
    ensures var s' := Next(s, step); |s'.tlbs| == |s.tlbs| && SharedInv(s'.tlbs[u], s'.page, s'.lock)
  {
    assert TlbInv(s.tlbs[u], u, s.page, s.lock) && SharedInv(s.tlbs[u], s.page, s.lock);
  }

  lemma SharedNext(s: PrivatePages.State, step: PrivatePages.Step)
    requires Inv(s) && AllShared(s)
    ensures |Next(s, step).tlbs| == |s.tlbs| && AllShared(Next(s, step))
  {
    var s' := Next(s, step);
    forall u: nat | u < |s.tlbs| ensures |s'.tlbs| == |s.tlbs| && SharedInv(s'.tlbs[u], s'.page, s'.lock) {
      match step {
        case Deliver(t) => if t < |s.tlbs| { SharedDeliver(s, t, u); } else { assert SharedInv(s.tlbs[u], s.page, s.lock); }
        case Serve(t) => if t < |s.tlbs| { SharedServe(s, t, u); } else { assert SharedInv(s.tlbs[u], s.page, s.lock); }
        case Handle => SharedHome(s, step, u);
        case TakeRecovery(_) => SharedHome(s, step, u);
        case _ => SharedStep(s, step, u);
      }
    }
  }

  lemma {:induction false} RunShared(vpn: nat, n: nat, steps: seq<PrivatePages.Step>)
    ensures |Run(vpn, n, steps).tlbs| == n && AllShared(Run(vpn, n, steps))
  {
    if steps != [] {
      RunShared(vpn, n, steps[..|steps| - 1]);
      RunInv(vpn, n, steps[..|steps| - 1]);
      SharedNext(Run(vpn, n, steps[..|steps| - 1]), steps[|steps| - 1]);
    }
  }

  lemma NoteIsRecovery(s: PrivatePages.State, t: nat)
    requires Inv(s) && t < |s.tlbs| && HasNote(s.tlbs[t].down) && s.page.state == SharedWrite
    ensures s.tlbs[t].down[|s.tlbs[t].down| - 1].RecoveryNote? && !s.lock.Open?
  {
    assert TlbInv(s.tlbs[t], t, s.page, s.lock);
  }

  /** On every run: while a page is recorded as written, a TLB that has it, or is being given it, as shared
      for reading has a recovery note on its way. So no TLB does once the page is open. */
  lemma SharedReadTold(vpn: nat, n: nat, steps: seq<PrivatePages.Step>, t: nat)
    requires t < |Run(vpn, n, steps).tlbs| && Run(vpn, n, steps).page.state == SharedWrite
    requires HoldsAs(Run(vpn, n, steps).tlbs[t], SharedRead)
    ensures var down := Run(vpn, n, steps).tlbs[t].down; down != [] && down[|down| - 1].RecoveryNote?
    ensures !Run(vpn, n, steps).lock.Open?
  {
    RunInv(vpn, n, steps);
    RunShared(vpn, n, steps);
    assert SharedInv(Run(vpn, n, steps).tlbs[t], Run(vpn, n, steps).page, Run(vpn, n, steps).lock);
    NoteIsRecovery(Run(vpn, n, steps), t);
  }

  /** ---------------- the counters of the page ---------------- */

  /** Each counter is the number of pages in its state, which is none or one. */
  ghost predicate Right(s: PrivatePages.State) {
    && s.count.pr == One(s.page.valid && s.page.state.PrivateRead?)
    && s.count.pw == One(s.page.valid && s.page.state.PrivateWrite?)
    && s.count.sr == One(s.page.valid && s.page.state.SharedRead?)
    && s.count.sw == One(s.page.valid && s.page.state.SharedWrite?)
  }

  /** A recovery is served when the page is open and written already. */
  ghost predicate Late(s: PrivatePages.State, step: PrivatePages.Step) {
    && step.TakeRecovery? && step.t < |s.tlbs| && s.tlbs[step.t].recoveries > 0
    && !s.page.busy && s.page.state == SharedWrite
  }

  lemma ServeCount(s: PrivatePages.State, t: nat)
    requires Inv(s) && t < |s.tlbs|
    ensures var s', p := DoServe(s, t), s.page;
            || (s'.count == s.count && s'.page == p)
            || (!p.valid && s'.page.valid && s'.count == Counted(s.count, s'.page.state).(total := s.count.total + 1))
            || (p.valid && s'.page.valid && s'.count == Moved(s.count, p.state, s'.page.state))
  {
  }

  lemma RightServe(s: PrivatePages.State, t: nat)
    requires Inv(s) && Right(s) && t < |s.tlbs|
    ensures Right(DoServe(s, t))
  {
    ServeCount(s, t);
    var s' := DoServe(s, t);
  }

  lemma RecoveryCount(s: PrivatePages.State, t: nat)
    requires Inv(s) && t < |s.tlbs|
    ensures var s' := DoTakeRecovery(s, t);
            if s.tlbs[t].recoveries > 0 && !s.page.busy then
              && s.page.valid && Leq(SharedRead, s.page.state) && s'.page.valid && s'.page.state == SharedWrite
              && s'.count == Moved(s.count, SharedRead, SharedWrite)
            else s'.count == s.count && s'.page == s.page
  {
    assert TlbInv(s.tlbs[t], t, s.page, s.lock);
  }

  /** On a written page it takes away what was never added. */
  lemma LateIsWrong(s: PrivatePages.State, t: nat)
    requires Inv(s) && Right(s) && t < |s.tlbs| && Late(s, TakeRecovery(t))
    ensures !Right(DoTakeRecovery(s, t)) && DoTakeRecovery(s, t).count.sr == -1
  {
    RecoveryCount(s, t);
  }

  lemma OnTime(s: PrivatePages.State, t: nat)
    requires Inv(s) && Right(s) && t < |s.tlbs| && !Late(s, TakeRecovery(t))
    ensures Right(DoTakeRecovery(s, t))
  {
    RecoveryCount(s, t);
  }

  lemma RightRecovery(s: PrivatePages.State, t: nat)
    requires Inv(s) && Right(s) && t < |s.tlbs|
    ensures Right(DoTakeRecovery(s, t)) <==> !Late(s, TakeRecovery(t))
  {
    if Late(s, TakeRecovery(t)) { LateIsWrong(s, t); } else { OnTime(s, t); }
  }

  lemma HandleCount(s: PrivatePages.State)
    requires Inv(s)
    ensures var s' := DoHandle(s);
            && (s'.count == s.count || s'.count == Moved(s.count, s.page.state, s'.page.state))
            && s'.page.valid == s.page.valid && (s'.count == s.count && s.page.valid ==> s'.page.state == s.page.state)
  {
  }

  lemma RightHandle(s: PrivatePages.State)
    requires Inv(s) && Right(s)
    ensures Right(DoHandle(s))
  {
    HandleCount(s);
  }

  lemma BackCount(s: PrivatePages.State, t: nat)
    requires Inv(s) && t < |s.tlbs|
    ensures var s' := DoTakeBack(s, t);
            || (s'.count == s.count && s'.page == s.page)
            || (s.page.valid && s'.page == s.page.(state := PrivateWrite)
                && s'.count == Moved(s.count, s.page.state, PrivateWrite))
  {
    assert TlbInv(s.tlbs[t], t, s.page, s.lock);
  }

  lemma RightBack(s: PrivatePages.State, t: nat)
    requires Inv(s) && Right(s) && t < |s.tlbs|
    ensures Right(DoTakeBack(s, t))
  {
    BackCount(s, t);
  }

  lemma RightTlb(s: PrivatePages.State, step: PrivatePages.Step)
    requires step.Access? || step.Evict? || step.Deliver? || step.Collect?
    requires Inv(s) && Right(s)
    ensures Right(Next(s, step))
  {
    if step.Collect? && step.t < |s.tlbs| { assert TlbInv(s.tlbs[step.t], step.t, s.page, s.lock); }
  }

  /** A step makes the counters wrong exactly if it is a late recovery. */
  lemma RightExactly(s: PrivatePages.State, step: PrivatePages.Step)
    requires Inv(s) && Right(s)
    ensures Right(Next(s, step)) <==> !Late(s, step)
  {
    match step {
      case Serve(t) => if t < |s.tlbs| { RightServe(s, t); }
      case TakeRecovery(t) => if t < |s.tlbs| { RightRecovery(s, t); }
      case Handle => RightHandle(s);
      case TakeBack(t) => if t < |s.tlbs| { RightBack(s, t); }
      case _ => RightTlb(s, step);
    }
  }

  /** ---------------- in order ---------------- */

  /** A TLB's acknowledgement of a broadcast does not overtake the recoveries it sent before. */
  ghost predicate InOrder(s: PrivatePages.State, step: PrivatePages.Step) {
    step.Collect? && step.t < |s.tlbs| && s.tlbs[step.t].owes ==> s.tlbs[step.t].recoveries == 0
  }

  /** Recoveries of a written page come from TLBs that have not acknowledged the write yet. */
  ghost predicate OrderInv(x: Tlb, page: Page) {
    page.state == SharedWrite && x.recoveries > 0 ==> HasNote(x.down) || x.owes
  }

  ghost predicate AllOrdered(s: PrivatePages.State) { forall t: nat :: t < |s.tlbs| ==> OrderInv(s.tlbs[t], s.page) }

  lemma OrderDeliver(s: PrivatePages.State, t: nat, u: nat)
    requires Inv(s) && AllShared(s) && AllOrdered(s) && t < |s.tlbs| && u < |s.tlbs|
    ensures var s' := DoDeliver(s, t); |s'.tlbs| == |s.tlbs| && OrderInv(s'.tlbs[u], s'.page)
  {
    assert TlbInv(s.tlbs[t], t, s.page, s.lock) && SharedInv(s.tlbs[t], s.page, s.lock) && OrderInv(s.tlbs[t], s.page);
    assert OrderInv(s.tlbs[u], s.page);
  }

  lemma OrderTlb(s: PrivatePages.State, step: PrivatePages.Step, u: nat)
    requires Inv(s) && AllShared(s) && AllOrdered(s) && u < |s.tlbs| && InOrder(s, step)
    requires step.Access? || step.Evict? || step.Collect? || step.TakeBack?
    ensures var s' := Next(s, step); |s'.tlbs| == |s.tlbs| && OrderInv(s'.tlbs[u], s'.page)
  {
    assert TlbInv(s.tlbs[u], u, s.page, s.lock) && SharedInv(s.tlbs[u], s.page, s.lock) && OrderInv(s.tlbs[u], s.page);
    if step.Collect? && step.t < |s.tlbs| { assert TlbInv(s.tlbs[step.t], step.t, s.page, s.lock); }
  }

  lemma OrderHome(s: PrivatePages.State, step: PrivatePages.Step, u: nat)
    requires Inv(s) && AllShared(s) && AllOrdered(s) && u < |s.tlbs|
    requires step.Serve? || step.Handle? || step.TakeRecovery?
    ensures var s' := Next(s, step); |s'.tlbs| == |s.tlbs| && OrderInv(s'.tlbs[u], s'.page)
  {
    assert TlbInv(s.tlbs[u], u, s.page, s.lock) && SharedInv(s.tlbs[u], s.page, s.lock) && OrderInv(s.tlbs[u], s.page);
  }

  lemma OrderNext(s: PrivatePages.State, step: PrivatePages.Step)
    requires Inv(s) && AllShared(s) && AllOrdered(s) && InOrder(s, step)
    ensures AllOrdered(Next(s, step))
  {
    var s' := Next(s, step);
    SharedNext(s, step);
    forall u: nat | u < |s.tlbs| ensures OrderInv(s'.tlbs[u], s'.page) {
      match step {
        case Deliver(t) => if t < |s.tlbs| { OrderDeliver(s, t, u); } else { assert OrderInv(s.tlbs[u], s.page); }
        case Serve(_) => OrderHome(s, step, u);
        case Handle => OrderHome(s, step, u);
        case TakeRecovery(_) => OrderHome(s, step, u);
        case _ => OrderTlb(s, step, u);
      }
    }
  }

  lemma NeverLate(s: PrivatePages.State, step: PrivatePages.Step)
    requires Inv(s) && AllOrdered(s)
    ensures !Late(s, step)
  {
    if step.TakeRecovery? && step.t < |s.tlbs| {
      assert TlbInv(s.tlbs[step.t], step.t, s.page, s.lock) && OrderInv(s.tlbs[step.t], s.page);
    }
  }

  ghost predicate Ordered(vpn: nat, n: nat, steps: seq<PrivatePages.Step>) {
    forall i :: 0 <= i < |steps| ==> InOrder(Run(vpn, n, steps[..i]), steps[i])
  }

  /** With upward messages in order the counters are right on every run. */
  lemma {:induction false} OrderedCountsRight(vpn: nat, n: nat, steps: seq<PrivatePages.Step>)
    requires Ordered(vpn, n, steps)
    ensures Right(Run(vpn, n, steps)) && AllOrdered(Run(vpn, n, steps))
  {
    if steps != [] {
      var before := steps[..|steps| - 1];
      forall i | 0 <= i < |before| ensures InOrder(Run(vpn, n, before[..i]), before[i]) {
        assert before[..i] == steps[..i];
      }
      OrderedCountsRight(vpn, n, before);
      RunInv(vpn, n, before);
      RunShared(vpn, n, before);
      var s, step := Run(vpn, n, before), steps[|steps| - 1];
      assert InOrder(s, step);
      OrderNext(s, step);
      NeverLate(s, step);
      RightExactly(s, step);
    }
  }

  /** ---------------- one thread ---------------- */

  ghost predicate Solo(s: PrivatePages.State) {
    |s.tlbs| <= 1 && Private(s.page.state) && (s.lock.Open? || s.lock.Opening?)
  }

  lemma SoloTlb(s: PrivatePages.State, step: PrivatePages.Step)
    requires Inv(s) && Solo(s)
    requires !step.Serve? && !step.Handle?
    ensures Solo(Next(s, step)) && !Late(s, step)
  {
    if |s.tlbs| == 1 { assert TlbInv(s.tlbs[0], 0, s.page, s.lock); }
  }

  lemma SoloHome(s: PrivatePages.State, step: PrivatePages.Step)
    requires Inv(s) && Solo(s) && (step.Serve? || step.Handle?)
    ensures Solo(Next(s, step))
  {
    if |s.tlbs| == 1 { assert TlbInv(s.tlbs[0], 0, s.page, s.lock); }
  }

  lemma SoloNext(s: PrivatePages.State, step: PrivatePages.Step)
    requires Inv(s) && Solo(s) && Right(s)
    ensures Solo(Next(s, step)) && Right(Next(s, step))
  {
    RightExactly(s, step);
    if step.Serve? || step.Handle? { SoloHome(s, step); } else { SoloTlb(s, step); }
  }

  /** One thread never shares a page, so its counters are right in any order. */
  lemma {:induction false} SoloCountsRight(vpn: nat, n: nat, steps: seq<PrivatePages.Step>)
    requires n <= 1
    ensures Solo(Run(vpn, n, steps)) && Right(Run(vpn, n, steps))
  {
    if steps != [] {
      SoloCountsRight(vpn, n, steps[..|steps| - 1]);
      RunInv(vpn, n, steps[..|steps| - 1]);
      SoloNext(Run(vpn, n, steps[..|steps| - 1]), steps[|steps| - 1]);
    }
  }
}
