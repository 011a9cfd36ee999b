/** A run of the page protocol after which the page counters are wrong: two threads write a page that they
    share for reading, and the recovery of the second is overtaken by its acknowledgement of the first. */
module PageDrift {
  import opened Counting
  import opened PageTable
  import opened PrivatePages
  import opened PageCounters

  ghost function Reachable(vpn: nat, n: nat): iset<PrivatePages.State> {
    iset steps: seq<PrivatePages.Step> :: Run(vpn, n, steps)
  }

  /** What the run below needs to know of the reachable states. */
  ghost predicate Closed(all: iset<PrivatePages.State>, vpn: nat, n: nat) {
    && PrivatePages.Start(vpn, n) in all
    && forall s: PrivatePages.State, step: PrivatePages.Step :: s in all ==> Next(s, step) in all
  }

  lemma ReachableClosed(vpn: nat, n: nat)
    ensures Closed(Reachable(vpn, n), vpn, n)
  {
    assert Run(vpn, n, []) == PrivatePages.Start(vpn, n);
    forall s: PrivatePages.State, step: PrivatePages.Step | s in Reachable(vpn, n)
      ensures Next(s, step) in Reachable(vpn, n)
    {
      var steps :| Run(vpn, n, steps) == s;
      assert (steps + [step])[..|steps|] == steps;
      assert Run(vpn, n, steps + [step]) == Next(s, step);
    }
  }

  lemma Go(vpn: nat, n: nat, all: iset<PrivatePages.State>, s: PrivatePages.State, step: PrivatePages.Step)
    requires Closed(all, vpn, n) && s in all
    ensures Next(s, step) in all
  {
  }

  /** ---------------- two readers ---------------- */

  const Idle := Tlb(Absent, false, false, false, Nothing, [], 0, 0, false)
  const Asking := Idle.(asked := true)

  function Has(state: PageState): Tlb { Idle.(entry := Present(state)) }

  /** The first two TLBs take part; the page is in `state` and counted there. */
  ghost function Two(vpn: nat, n: nat, a: Tlb, b: Tlb, state: PageState, lock: Lock): PrivatePages.State
    requires n >= 2
  {
    PrivatePages.State(Page(true, !lock.Open?, vpn, 0, state), lock,
                       seq(n, u => if u == 0 then a else if u == 1 then b else Idle), false,
                       Counters(One(state.PrivateRead?), 0, One(state.SharedRead?), One(state.SharedWrite?), 1))
  }

  lemma TwoAt(vpn: nat, n: nat, a: Tlb, b: Tlb, state: PageState, lock: Lock, x: Tlb)
    requires n >= 2
    ensures Put(Two(vpn, n, a, b, state, lock), 0, x) == Two(vpn, n, x, b, state, lock)
    ensures Put(Two(vpn, n, a, b, state, lock), 1, x) == Two(vpn, n, a, x, state, lock)
  {
  }

  /** Thread 0 asks for the page, which is new. */
  lemma FirstServed(vpn: nat, n: nat, all: iset<PrivatePages.State>)
    requires n >= 2 && Closed(all, vpn, n)
    ensures Two(vpn, n, Asking, Idle, PrivateRead, Opening(0)) in all
  {
    var s0 := PrivatePages.Start(vpn, n);
    Go(vpn, n, all, s0, Access(0, Read));
    var s1 := Put(s0, 0, Asking.(request := Wants(Read)));
    assert Next(s0, Access(0, Read)) == s1;
    Go(vpn, n, all, s1, PrivatePages.Serve(0));
    assert Next(s1, PrivatePages.Serve(0)).tlbs == Two(vpn, n, Asking, Idle, PrivateRead, Opening(0)).tlbs;
    assert Next(s1, PrivatePages.Serve(0)) == Two(vpn, n, Asking, Idle, PrivateRead, Opening(0));
  }

  /** An opened page goes to the TLB that asked for it. */
  lemma Opens0(vpn: nat, n: nat, all: iset<PrivatePages.State>, b: Tlb, state: PageState)
    requires n >= 2 && Closed(all, vpn, n) && Two(vpn, n, Asking, b, state, Opening(0)) in all
    ensures Two(vpn, n, Has(state), b, state, Open) in all
  {
    var s0 := Two(vpn, n, Asking, b, state, Opening(0));
    Go(vpn, n, all, s0, Handle);
    var s1 := Two(vpn, n, Asking.(down := [Refill(state)]), b, state, Open);
    assert [] + [Refill(state)] == [Refill(state)];
    TwoAt(vpn, n, Asking, b, state, Open, Asking.(down := [Refill(state)]));
    assert Next(s0, Handle) == s1;
    Go(vpn, n, all, s1, Deliver(0));
    TwoAt(vpn, n, Asking.(down := [Refill(state)]), b, state, Open, Has(state));
    assert [Refill(state)][1..] == [];
    assert Next(s1, Deliver(0)) == Two(vpn, n, Has(state), b, state, Open);
  }

  lemma Opens1(vpn: nat, n: nat, all: iset<PrivatePages.State>, a: Tlb, state: PageState)
    requires n >= 2 && Closed(all, vpn, n) && Two(vpn, n, a, Asking, state, Opening(1)) in all
    ensures Two(vpn, n, a, Has(state), state, Open) in all
  {
    var s0 := Two(vpn, n, a, Asking, state, Opening(1));
    Go(vpn, n, all, s0, Handle);
    var s1 := Two(vpn, n, a, Asking.(down := [Refill(state)]), state, Open);
    assert [] + [Refill(state)] == [Refill(state)];
    TwoAt(vpn, n, a, Asking, state, Open, Asking.(down := [Refill(state)]));
    assert Next(s0, Handle) == s1;
    Go(vpn, n, all, s1, Deliver(1));
    TwoAt(vpn, n, a, Asking.(down := [Refill(state)]), state, Open, Has(state));
    assert [Refill(state)][1..] == [];
    assert Next(s1, Deliver(1)) == Two(vpn, n, a, Has(state), state, Open);
  }

  /** Thread 1 asks too, and the keeper is told. */
  lemma SecondAsks(vpn: nat, n: nat, all: iset<PrivatePages.State>)
    requires n >= 2 && Closed(all, vpn, n)
    ensures Two(vpn, n, Has(PrivateRead).(down := [UpdateNote]), Asking, SharedRead, Updating(1)) in all
  {
    FirstServed(vpn, n, all);
    Opens0(vpn, n, all, Idle, PrivateRead);
    var s0 := Two(vpn, n, Has(PrivateRead), Idle, PrivateRead, Open);
    Go(vpn, n, all, s0, Access(1, Read));
    var s1 := Two(vpn, n, Has(PrivateRead), Asking.(request := Wants(Read)), PrivateRead, Open);
    TwoAt(vpn, n, Has(PrivateRead), Idle, PrivateRead, Open, Asking.(request := Wants(Read)));
    assert Next(s0, Access(1, Read)) == s1;
    Go(vpn, n, all, s1, PrivatePages.Serve(1));
    AskedKeeper(vpn, n);
  }

  lemma KeeperAsked(vpn: nat, n: nat, s: PrivatePages.State)
    requires n >= 2 && s == Two(vpn, n, Has(PrivateRead), Asking, PrivateRead, Open)
    ensures Send(s.(page := s.page.(busy := true, state := SharedRead), count := Moved(s.count, PrivateRead, SharedRead)), 0,
                 UpdateNote).(lock := Updating(1))
         == Two(vpn, n, Has(PrivateRead).(down := [UpdateNote]), Asking, SharedRead, Updating(1))
  {
    assert [] + [UpdateNote] == [UpdateNote];
    TwoAt(vpn, n, Has(PrivateRead), Asking, PrivateRead, Open, Has(PrivateRead).(down := [UpdateNote]));
  }

  lemma AskedKeeper(vpn: nat, n: nat)
    requires n >= 2
    ensures DoServe(Two(vpn, n, Has(PrivateRead), Asking.(request := Wants(Read)), PrivateRead, Open), 1)
         == Two(vpn, n, Has(PrivateRead).(down := [UpdateNote]), Asking, SharedRead, Updating(1))
  {
    TwoAt(vpn, n, Has(PrivateRead), Asking.(request := Wants(Read)), PrivateRead, Open, Asking);
    KeeperAsked(vpn, n, Two(vpn, n, Has(PrivateRead), Asking, PrivateRead, Open));
  }

  lemma SecondReads(vpn: nat, n: nat, all: iset<PrivatePages.State>)
    requires n >= 2 && Closed(all, vpn, n)
    ensures Two(vpn, n, Has(SharedRead), Has(SharedRead), SharedRead, Open) in all
  {
    SecondAsks(vpn, n, all);
    var a := Has(PrivateRead).(down := [UpdateNote]);
    var s0 := Two(vpn, n, a, Asking, SharedRead, Updating(1));
    Go(vpn, n, all, s0, Deliver(0));
    var s1 := Two(vpn, n, Has(SharedRead), Asking, SharedRead, Updated(1, SharedRead));
    assert [UpdateNote][1..] == [];
    TwoAt(vpn, n, a, Asking, SharedRead, Updating(1), Has(SharedRead));
    assert Next(s0, Deliver(0)) == s1;
    Go(vpn, n, all, s1, Handle);
    assert Next(s1, Handle) == Two(vpn, n, Has(SharedRead), Asking, SharedRead, Opening(1));
    Opens1(vpn, n, all, Has(SharedRead), SharedRead);
  }

  /** Both write. */
  const Writes := Has(SharedRead).(recoveries := 1)

  lemma BothWrite(vpn: nat, n: nat, all: iset<PrivatePages.State>)
    requires n >= 2 && Closed(all, vpn, n)
    ensures Two(vpn, n, Writes, Writes, SharedRead, Open) in all
  {
    SecondReads(vpn, n, all);
    var s0 := Two(vpn, n, Has(SharedRead), Has(SharedRead), SharedRead, Open);
    Go(vpn, n, all, s0, Access(0, Write));
    TwoAt(vpn, n, Has(SharedRead), Has(SharedRead), SharedRead, Open, Writes);
    var s1 := Two(vpn, n, Writes, Has(SharedRead), SharedRead, Open);
    assert Next(s0, Access(0, Write)) == s1;
    Go(vpn, n, all, s1, Access(1, Write));
    TwoAt(vpn, n, Writes, Has(SharedRead), SharedRead, Open, Writes);
    assert Next(s1, Access(1, Write)) == Two(vpn, n, Writes, Writes, SharedRead, Open);
  }

  /** ---------------- the broadcast ---------------- */

  /** TLB u before and after it has the note of the broadcast. */
  ghost function Told(u: int): Tlb {
    (if u == 0 then Has(SharedRead) else if u == 1 then Writes else Idle).(down := [RecoveryNote(0)])
  }

  ghost function Wrote(u: int): Tlb {
    if u == 0 then Has(SharedWrite) else if u == 1 then Has(SharedWrite).(recoveries := 1) else Idle
  }

  /** The first k TLBs have acknowledged. */
  ghost function Spread(vpn: nat, n: nat, k: nat): PrivatePages.State {
    PrivatePages.State(Page(true, k < n, vpn, 0, SharedWrite), if k < n then Spreading(-1, n - k) else Open,
                       seq(n, u => if u < k then Wrote(u) else Told(u)), false, Counters(0, 0, 0, 1, 1))
  }

  lemma Spreads(vpn: nat, n: nat, all: iset<PrivatePages.State>)
    requires n >= 2 && Closed(all, vpn, n)
    ensures Spread(vpn, n, 0) in all
  {
    BothWrite(vpn, n, all);
    Go(vpn, n, all, Two(vpn, n, Writes, Writes, SharedRead, Open), TakeRecovery(0));
    FirstRecovery(vpn, n);
  }

  lemma TellSpreads(vpn: nat, n: nat, s: PrivatePages.State)
    requires n >= 2 && s == Two(vpn, n, Has(SharedRead), Writes, SharedRead, Open)
    ensures Tell(s, -1) == Spread(vpn, n, 0)
  {
    assert [] + [RecoveryNote(0)] == [RecoveryNote(0)];
    assert Tell(s, -1).tlbs == Spread(vpn, n, 0).tlbs;
    assert Tell(s, -1).count == Spread(vpn, n, 0).count;
    assert Tell(s, -1).page == Spread(vpn, n, 0).page;
  }

  lemma FirstRecovery(vpn: nat, n: nat)
    requires n >= 2
    ensures DoTakeRecovery(Two(vpn, n, Writes, Writes, SharedRead, Open), 0) == Spread(vpn, n, 0)
  {
    TwoAt(vpn, n, Writes, Writes, SharedRead, Open, Has(SharedRead));
    TellSpreads(vpn, n, Two(vpn, n, Has(SharedRead), Writes, SharedRead, Open));
  }

  ghost function Owes(vpn: nat, n: nat, k: nat): PrivatePages.State
    requires k < n
  {
    Put(Spread(vpn, n, k), k, Wrote(k).(owes := true))
  }

  lemma NoteArrives(vpn: nat, n: nat, k: nat)
    requires k < n
    ensures DoDeliver(Spread(vpn, n, k), k) == Owes(vpn, n, k)
  {
    assert [RecoveryNote(0)][1..] == [];
    assert Spread(vpn, n, k).tlbs[k] == Told(k);
    assert !Owes(vpn, n, k).tlbs[0].asked;
  }

  lemma AckArrives(vpn: nat, n: nat, k: nat)
    requires k < n
    ensures DoCollect(Owes(vpn, n, k), k) == Spread(vpn, n, k + 1)
  {
    assert Put(Owes(vpn, n, k), k, Wrote(k)).tlbs == Spread(vpn, n, k + 1).tlbs;
  }

  lemma {:induction false} AllSpread(vpn: nat, n: nat, all: iset<PrivatePages.State>, k: nat)
    requires n >= 2 && k <= n && Closed(all, vpn, n)
    ensures Spread(vpn, n, k) in all
  {
    if k == 0 {
      Spreads(vpn, n, all);
    } else {
      AllSpread(vpn, n, all, k - 1);
      Go(vpn, n, all, Spread(vpn, n, k - 1), Deliver(k - 1));
      NoteArrives(vpn, n, k - 1);
      Go(vpn, n, all, Owes(vpn, n, k - 1), Collect(k - 1));
      AckArrives(vpn, n, k - 1);
    }
  }

  /** The recovery of thread 1 finds the page open and written. */
  lemma SecondRecovery(vpn: nat, n: nat)
    requires n >= 2
    ensures Right(Spread(vpn, n, n)) && Late(Spread(vpn, n, n), TakeRecovery(1))
    ensures Next(Spread(vpn, n, n), TakeRecovery(1)).count.sr == -1
  {
  }

  /** With two threads or more a run can take a page from the shared-read pages that is not among them. */
  lemma CountersDrift(vpn: nat, n: nat)
    requires n >= 2
    ensures exists steps: seq<PrivatePages.Step> :: Run(vpn, n, steps).count.sr == -1
  {
    ReachableClosed(vpn, n);
    AllSpread(vpn, n, Reachable(vpn, n), n);
    Go(vpn, n, Reachable(vpn, n), Spread(vpn, n, n), TakeRecovery(1));
    SecondRecovery(vpn, n);
  }

  /** When the counters can be wrong, if the network may reorder: exactly with more than one thread. In
      order they never are, by OrderedCountsRight. */
  lemma CountersDriftExactly(vpn: nat, n: nat)
    ensures (exists steps: seq<PrivatePages.Step> :: !Right(Run(vpn, n, steps))) <==> n >= 2
  {
    if n >= 2 {
      CountersDrift(vpn, n);
    } else {
      forall steps: seq<PrivatePages.Step> ensures Right(Run(vpn, n, steps)) { SoloCountsRight(vpn, n, steps); }
    }
  }
}
