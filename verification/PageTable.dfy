/** The page table that classifies pages as private or shared, and the scan that searches it. */
module PageTable {

  datatype PageState = PrivateRead | PrivateWrite | SharedRead | SharedWrite

  datatype Cmd = Read | Write

  datatype Page = Page(valid: bool, busy: bool, vpn: nat, keeper: int, state: PageState)

  const BLANK := Page(false, false, 0, -1, PrivateRead)

  /** The classification order: private below shared, reading below writing. */
  ghost predicate Leq(a: PageState, b: PageState) {
    a == b || b == SharedWrite || a == PrivateRead
  }

  lemma LeqTransitive(a: PageState, b: PageState, c: PageState)
    requires Leq(a, b) && Leq(b, c)
    ensures Leq(a, c)
  {
  }

  /** ---------------- the scan ---------------- */

  /** The first slot from i on that is free or holds vpn, or the length of the table. */
  ghost function Scan(pages: seq<Page>, i: nat, vpn: nat): (k: nat)
    requires i <= |pages|
    ensures i <= k <= |pages|
    ensures forall j :: i <= j < k ==> pages[j].valid && pages[j].vpn != vpn
    ensures k < |pages| ==> !pages[k].valid || pages[k].vpn == vpn
    decreases |pages| - i
  {
    if i == |pages| || !pages[i].valid || pages[i].vpn == vpn then i else Scan(pages, i + 1, vpn)
  }

  ghost function Where(pages: seq<Page>, vpn: nat): (k: nat)
    ensures k <= |pages|
  {
    Scan(pages, 0, vpn)
  }

  /** The scan stops on a page of this number. */
  ghost predicate Matches(pages: seq<Page>, vpn: nat) {
    Where(pages, vpn) < |pages| && pages[Where(pages, vpn)].valid
  }

  ghost predicate Prefix(pages: seq<Page>) {
    forall i, j :: 0 <= i < j < |pages| && pages[j].valid ==> pages[i].valid
  }

  ghost predicate DistinctPages(pages: seq<Page>) {
    forall i, j :: 0 <= i < j < |pages| && pages[i].valid && pages[j].valid ==> pages[i].vpn != pages[j].vpn
  }

  ghost predicate Tidy(pages: seq<Page>) { Prefix(pages) && DistinctPages(pages) }

  ghost predicate HeldAt(pages: seq<Page>, vpn: nat, i: nat)
    requires i < |pages|
  {
    pages[i].valid && pages[i].vpn == vpn
  }

  /** The early stop loses nothing: the scan is a lookup in the map from page numbers to valid entries. */
  lemma ScanIsLookup(pages: seq<Page>, vpn: nat)
    requires Tidy(pages)
    ensures Matches(pages, vpn) <==> exists i: nat :: i < |pages| && HeldAt(pages, vpn, i)
    ensures forall i: nat :: i < |pages| && HeldAt(pages, vpn, i) ==> Where(pages, vpn) == i
  {
    var k := Where(pages, vpn);
    if Matches(pages, vpn) { assert HeldAt(pages, vpn, k); }
  }

  /** A miss stops on the first free slot, and filling it keeps the table tidy. */
  lemma EntryKeepsTidy(pages: seq<Page>, p: Page)
    requires Tidy(pages) && !Matches(pages, p.vpn) && Where(pages, p.vpn) < |pages|
    ensures Tidy(pages[Where(pages, p.vpn) := p])
  {
  }

  /** ---------------- events ---------------- */

  /** A directory event keeps its place; a finished one is Free. Parent waits for childCount
      acknowledgements of its children, Child is one of them, acknowledged or not. */
  datatype Event =
    | Free
    | Miss(vpn: nat, tid: int, cmd: Cmd)
    | WriteBack(vpn: nat)
    | SrRecovery(vpn: nat)
    | RefillWait(vpn: nat)
    | Update(vpn: nat)
    | UpdateAck(vpn: nat, to: PageState)
    | Recovery(vpn: nat)
    | RecoveryAck(vpn: nat)
    | Parent(vpn: nat, childCount: int, fromMiss: bool)
    | Child(vpn: nat, parent: nat, acked: bool)

  /** Pages counted as private-read, private-write, shared-read, shared-write, and in all. */
  datatype Counters = Counters(pr: int, pw: int, sr: int, sw: int, total: int)

  /** classify is the tlb_c_c switch, contexts the number of threads a recovery is broadcast to. */
  datatype State = State(pages: seq<Page>, events: seq<Event>, count: Counters, classify: bool, contexts: nat)

  datatype Served = Ok(state: State) | Panic

  ghost function SetPage(st: State, k: nat, busy: bool, state: PageState): State
    requires k < |st.pages|
  {
    st.(pages := st.pages[k := st.pages[k].(busy := busy, state := state)])
  }

  ghost function SetEvent(st: State, i: nat, e: Event): State
    requires i < |st.events|
  {
    st.(events := st.events[i := e])
  }

  ghost function Broadcast(vpn: nat, parent: nat, n: nat): (s: seq<Event>)
    ensures |s| == n && forall i :: 0 <= i < n ==> s[i] == Child(vpn, parent, false)
  {
    seq(n, _ => Child(vpn, parent, false))
  }

  /** SHR_TLB_MISS */
  ghost function ServeMiss(st: State, i: nat): Served
    requires i < |st.events| && st.events[i].Miss?
  {
    var e, k := st.events[i], Where(st.pages, st.events[i].vpn);
    var c := st.count;
    if k == |st.pages| then Panic
    else if !st.pages[k].valid then
      var state := if !st.classify then SharedWrite else if e.cmd == Read then PrivateRead else PrivateWrite;
      Ok(st.(pages := st.pages[k := Page(true, true, e.vpn, e.tid, state)],
             events := st.events[i := RefillWait(e.vpn)],
             count := if e.cmd == Read then c.(pr := c.pr + 1, total := c.total + 1)
                      else c.(pw := c.pw + 1, total := c.total + 1)))
    else if st.pages[k].busy then Ok(st)
    else
      var p := st.pages[k];
      match p.state
      case PrivateRead =>
        if p.keeper == e.tid then
          Ok(SetEvent(SetPage(st, k, true, if e.cmd == Read then PrivateRead else PrivateWrite), i, RefillWait(e.vpn))
             .(count := if e.cmd == Write then c.(pr := c.pr - 1, pw := c.pw + 1) else c))
        else
          Ok(SetEvent(SetPage(st, k, true, if e.cmd == Read then SharedRead else SharedWrite), i,
                      if e.cmd == Read then Update(e.vpn) else Recovery(e.vpn))
             .(count := if e.cmd == Read then c.(pr := c.pr - 1, sr := c.sr + 1) else c.(pr := c.pr - 1, sw := c.sw + 1)))
      case PrivateWrite =>
        if p.keeper == e.tid then Ok(SetEvent(SetPage(st, k, true, PrivateWrite), i, RefillWait(e.vpn)))
        else
          Ok(SetEvent(SetPage(st, k, true, SharedWrite), i, Recovery(e.vpn)).(count := c.(pw := c.pw - 1, sw := c.sw + 1)))
      case SharedRead =>
        if e.cmd == Read then Ok(SetEvent(SetPage(st, k, true, SharedRead), i, RefillWait(e.vpn)))
        else Ok(SpreadRecovery(st, i, k, e.vpn, true))
      case SharedWrite => Ok(SetEvent(SetPage(st, k, true, SharedWrite), i, RefillWait(e.vpn)))
  }

  /** A write to a shared page: everybody is told, and the event waits for all of them. */
  ghost function SpreadRecovery(st: State, i: nat, k: nat, vpn: nat, fromMiss: bool): State
    requires i < |st.events| && k < |st.pages|
  {
    var c := st.count;
    var st' := SetPage(st, k, true, SharedWrite);
    st'.(events := st.events[i := Parent(vpn, st.contexts, fromMiss)] + Broadcast(vpn, i, st.contexts),
         count := c.(sr := c.sr - 1, sw := c.sw + 1))
  }

  /** SHR_TLB_SR_RECOVERY */
  ghost function ServeSrRecovery(st: State, i: nat): Served
    requires i < |st.events| && st.events[i].SrRecovery?
  {
    var vpn := st.events[i].vpn;
    var k := Where(st.pages, vpn);
    if !Matches(st.pages, vpn) then Panic
    else if st.pages[k].busy then
      match st.pages[k].state
      case SharedRead => Ok(st)
      case SharedWrite => Ok(SetEvent(st, i, Free))
      case _ => Panic
    else Ok(SpreadRecovery(st, i, k, vpn, false))
  }

  /** SHR_TLB_WRITE_BACK, which is sent only for pages in the table. */
  ghost function ServeWriteBack(st: State, i: nat): Served
    requires i < |st.events| && st.events[i].WriteBack?
  {
    var vpn, c := st.events[i].vpn, st.count;
    var k := Where(st.pages, vpn);
    if !Matches(st.pages, vpn) then Panic
    else if st.pages[k].busy then Ok(st)
    else match st.pages[k].state
      case PrivateRead =>
        Ok(SetEvent(SetPage(st, k, false, PrivateWrite), i, Free).(count := c.(pr := c.pr - 1, pw := c.pw + 1)))
      case PrivateWrite => Ok(SetEvent(SetPage(st, k, false, PrivateWrite), i, Free))
      case SharedRead => Panic
      case SharedWrite => Ok(SetEvent(st, i, Free))
  }

  /** DIR_TLB_REFILL_WAIT opens the page again. */
  ghost function ServeRefillWait(st: State, i: nat): Served
    requires i < |st.events| && st.events[i].RefillWait?
  {
    var vpn := st.events[i].vpn;
    var k := Where(st.pages, vpn);
    if !Matches(st.pages, vpn) then Panic
    else Ok(SetEvent(SetPage(st, k, false, st.pages[k].state), i, Free))
  }

  /** SHR_TLB_UPDATE_PR_ACK and SHR_TLB_UPDATE_PW_ACK */
  ghost function ServeUpdateAck(st: State, i: nat): Served
    requires i < |st.events| && st.events[i].UpdateAck?
  {
    var e, c := st.events[i], st.count;
    var k := Where(st.pages, e.vpn);
    if !Matches(st.pages, e.vpn) then Panic
    else Ok(SetEvent(SetPage(st, k, true, e.to), i, RefillWait(e.vpn))
            .(count := if e.to == SharedWrite then c.(sr := c.sr - 1, sw := c.sw + 1) else c))
  }

  /** SHR_TLB_RECOVERY_ACK of a recovery of the one keeper. */
  ghost function ServeRecoveryAck(st: State, i: nat): Served
    requires i < |st.events| && st.events[i].RecoveryAck?
  {
    var vpn := st.events[i].vpn;
    var k := Where(st.pages, vpn);
    if !Matches(st.pages, vpn) then Panic
    else Ok(SetEvent(SetPage(st, k, true, SharedWrite), i, RefillWait(vpn)))
  }

  /** SHR_TLB_RECOVERY_ACK of a broadcast: the last one finishes the parent. */
  ghost function ServeChildAck(st: State, i: nat): Served
    requires i < |st.events| && st.events[i].Child? && st.events[i].parent < |st.events|
    requires st.events[st.events[i].parent].Parent? && st.events[i].parent != i
  {
    var p := st.events[i].parent;
    var par := st.events[p];
    var left := par.childCount - 1;
    var k := Where(st.pages, par.vpn);
    if left != 0 then Ok(SetEvent(SetEvent(st, i, Free), p, par.(childCount := left)))
    else if k == |st.pages| then Panic
    else if par.fromMiss then
      Ok(SetEvent(SetEvent(SetPage(st, k, true, SharedWrite), i, Free), p, RefillWait(par.vpn)))
    else Ok(SetEvent(SetEvent(SetPage(st, k, false, SharedWrite), i, Free), p, Free))
  }

  /** ---------------- the code ---------------- */

  /** page_table_check: the loop over the table. `full` is the panic at its end. */
  method PageTableCheck(table: array<Page>, vpn: nat) returns (full: bool, match_: bool, location: nat)
    ensures full <==> Where(table[..], vpn) == table.Length
    ensures location == Where(table[..], vpn)
    ensures match_ <==> Matches(table[..], vpn)
  {
    location := 0;
    while location < table.Length
      invariant location <= table.Length
      invariant Where(table[..], vpn) == Scan(table[..], location, vpn)
    {
      if !table[location].valid { return false, false, location; }
      if table[location].vpn == vpn { return false, true, location; }
      location := location + 1;
    }
    full, match_ := true, false;
  }
}
