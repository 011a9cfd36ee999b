/** Reads and writes under a directory entry that stands for a region of several blocks. A probed cache
    gives up, or shares, all its blocks of the region; it answers for the block asked for and once more for
    each other dirty block. How many answers come back is not known when the probes go out. */
module MultiBlockAcks {
  import opened Protocol
  import opened Counting

  /** Gone marks a message that has been handled. An answer carries the two bits of its hit field: the
      block asked for was valid, another block of the region was. */
  datatype Message =
    | Gone
    | Asks(target: nat, wantsData: bool)
    | Answers(source: nat, block: nat, ownHit: bool, otherHit: bool, data: bool, wantsData: bool)
    | Back(block: nat)

  /** The lines of each cache in the region, the messages, and the event that holds the entry. `outcome` is
      what its last answer led to and `ends` how often that was the last one; `marked` observes whether the
      event came with its hit flag set, left over from a probe it sent before, `seen` whether the probed
      owner of a read had any valid line, and `received` the dirty blocks that reached the home. */
  datatype State = State(caches: seq<seq<L1Line>>, messages: seq<Message>, own: nat, entry: Entry, req: Request,
                         childCount: int, outcome: Outcome, ends: nat, marked: bool, seen: Option<bool>, received: multiset<nat>)

  predicate Dirty(line: L1Line) { line.valid && line.state == Modified }

  function KindFor(op: Op): ProbeKind { if op.MissRead? then InvRead else InvWrite }

  /** ---------------- what a probed cache does ---------------- */

  function After(lines: seq<L1Line>, kind: ProbeKind): (r: seq<L1Line>)
    ensures |r| == |lines| && forall b :: 0 <= b < |r| ==> r[b] == Probed(lines[b], kind)
  {
    seq(|lines|, b requires 0 <= b < |lines| => Probed(lines[b], kind))
  }

  predicate OtherValid(lines: seq<L1Line>, own: nat) { exists b :: 0 <= b < |lines| && b != own && lines[b].valid }

  /** The other bit is set for reads only. */
  function OwnAnswer(source: nat, lines: seq<L1Line>, own: nat, kind: ProbeKind, wantsData: bool): Message
    requires own < |lines|
  {
    Answers(source, own, lines[own].valid, kind == InvRead && OtherValid(lines, own), Dirty(lines[own]), wantsData)
  }

  /** One more answer per dirty block among the first k, other than the one asked for. */
  function Extras(source: nat, lines: seq<L1Line>, own: nat, k: nat): seq<Message>
    requires k <= |lines|
  {
    if k == 0 then []
    else Extras(source, lines, own, k - 1)
         + if k - 1 != own && Dirty(lines[k - 1]) then [Answers(source, k - 1, false, false, true, false)] else []
  }

  /** ---------------- steps ---------------- */

  /** Silent changes are the write to an exclusive line and the loss of a line: its eviction, or the store
      to a shared line that waits for an upgrade. A dirty line is written back. */
  datatype Step =
    | Upgrade(cache: nat, block: nat)
    | Drop(cache: nat, block: nat)
    | Deliver(i: nat)
    | Collect(i: nat, env: Env)
    | TakeBack(i: nat)

  ghost predicate May(st: State, s: Step) {
    match s
    case Upgrade(c, b) => c < |st.caches| && b < |st.caches[c]| && st.caches[c][b].valid && st.caches[c][b].state == Exclusive
    case Drop(c, b) => c < |st.caches| && b < |st.caches[c]|
    case Deliver(i) =>
      && i < |st.messages| && st.messages[i].Asks? && st.messages[i].target < |st.caches|
      && st.own < |st.caches[st.messages[i].target]|
    case Collect(i, _) => i < |st.messages| && st.messages[i].Answers?
    case TakeBack(i) => i < |st.messages| && st.messages[i].Back?
  }

  ghost function SetLine(st: State, c: nat, b: nat, line: L1Line): State
    requires c < |st.caches| && b < |st.caches[c]|
  {
    st.(caches := st.caches[c := st.caches[c][b := line]])
  }

  ghost function DoDeliver(st: State, i: nat): State
    requires May(st, Deliver(i))
  {
    var m, kind := st.messages[i], KindFor(st.req.op);
    var lines := st.caches[m.target];
    var extra := Extras(m.target, lines, st.own, |lines|);
    st.(caches := st.caches[m.target := After(lines, kind)],
        messages := st.messages[i := OwnAnswer(m.target, lines, st.own, kind, m.wantsData)] + extra,
        childCount := st.childCount + |extra|,
        seen := Some(exists b :: 0 <= b < |lines| && lines[b].valid))
  }

  /** What an answer tells the event that waits for it. */
  ghost function Heard(req: Request, m: Message): Request
    requires m.Answers?
  {
    if req.op.MissRead? then
      req.(l1Hit := req.l1Hit || m.ownHit || m.otherHit, shrDataReq := req.shrDataReq && !m.ownHit)
    else req.(shrDataReq := req.shrDataReq && !(m.ownHit && m.wantsData))
  }

  /** The last answer is handled as for a single block. */
  ghost function Handled(e: Entry, req: Request, from: nat, left: nat, env: Env): (Entry, Outcome) {
    if !req.op.MissRead? then TakeWriteAck(e, req, from, false, false, left, env)
    else if left != 0 then (e, KeepWaiting(req))
    else TakeReadAck(e, req, from, false, env)
  }

  ghost function DoCollect(st: State, i: nat, env: Env): State
    requires May(st, Collect(i, env))
  {
    var m := st.messages[i];
    var req := Heard(st.req, m);
    if st.childCount <= 0 then st.(outcome := Panic)
    else
      var (e, out) := Handled(st.entry, req, m.source, st.childCount - 1, env);
      st.(messages := st.messages[i := Gone], childCount := st.childCount - 1, entry := e, req := req, outcome := out,
          ends := if st.childCount == 1 then st.ends + 1 else st.ends,
          received := if m.data then st.received + multiset{m.block} else st.received)
  }

  ghost function Next(st: State, s: Step): State
    requires May(st, s)
  {
    match s
    case Upgrade(c, b) => SetLine(st, c, b, L1Line(true, true, Modified))
    case Drop(c, b) =>
      var st1 := SetLine(st, c, b, NoLine);
      if Dirty(st.caches[c][b]) then st1.(messages := st.messages + [Back(b)]) else st1
    case Deliver(i) => DoDeliver(st, i)
    case Collect(i, env) => DoCollect(st, i, env)
    case TakeBack(i) =>
      st.(messages := st.messages[i := Gone], received := st.received + multiset{st.messages[i].block})
  }

  /** ---------------- the invariant ---------------- */

  predicate Live(m: Message) { m.Asks? || m.Answers? }

  ghost predicate Empty(lines: seq<L1Line>) { forall b :: 0 <= b < |lines| ==> !lines[b].valid }

  ghost predicate OnlyShared(lines: seq<L1Line>) {
    forall b :: 0 <= b < |lines| && lines[b].valid ==> lines[b].state != Exclusive && lines[b].state != Modified
  }

  /** The invalidation of cache t is on its way. */
  ghost predicate Asked(ms: seq<Message>, t: nat) {
    exists i: nat :: i < |ms| && ms[i].Asks? && ms[i].target == t
  }

  ghost predicate CountInv(st: State) {
    && st.childCount == Count(st.messages, Live)
    && st.ends == One(st.childCount == 0)
    && (st.childCount > 0 ==> st.outcome.KeepWaiting? && !st.entry.stable)
    && (st.childCount == 0 ==>
          && (st.outcome.Reply? || st.outcome.FetchMemory? || st.outcome.Retry?)
          && (st.entry.stable <==> !st.outcome.FetchMemory?))
  }

  ghost predicate WriteInv(st: State) {
    && (forall t: nat :: t < |st.caches| && t != st.req.tid && !Empty(st.caches[t]) ==> Asked(st.messages, t))
    && (st.outcome.Reply? ==> st.entry.sharers == {st.req.tid})
    && (st.outcome.FetchMemory? || st.outcome.Retry? ==> st.entry.sharers == {})
  }

  ghost predicate Hits(m: Message) { m.Answers? && (m.ownHit || m.otherHit) }

  /** The owner is taken to have the block: it had a line, or a flag from before says so. */
  ghost predicate Found(st: State) { st.marked || st.seen == Some(true) }

  /** Before and after the owner has been asked, and at the end. */
  ghost predicate ReadInv(st: State, owner: nat) {
    && !st.entry.allShared
    && owner != st.req.tid && owner < |st.caches|
    && (forall t: nat :: t < |st.caches| && t != st.req.tid && t != owner ==> Empty(st.caches[t]))
    && (forall i :: 0 <= i < |st.messages| && st.messages[i].Answers? ==> st.messages[i].source == owner)
    && (forall i :: 0 <= i < |st.messages| && st.messages[i].Asks? ==> st.messages[i].target == owner)
    && (st.seen.None? ==>
          && st.req.l1Hit == st.marked && Asked(st.messages, owner) && Count(st.messages, Live) == 1)
    && (st.seen.Some? ==>
          && (forall i :: 0 <= i < |st.messages| ==> !st.messages[i].Asks?)
          && OnlyShared(st.caches[owner])
          && (!st.seen.value ==> Empty(st.caches[owner]))
          && (st.req.l1Hit ==> Found(st))
          && (st.marked ==> st.req.l1Hit)
          && (forall i :: 0 <= i < |st.messages| && Hits(st.messages[i]) ==> st.seen.value)
          && (st.seen.value ==> st.req.l1Hit || exists i :: 0 <= i < |st.messages| && Hits(st.messages[i])))
    && (st.childCount > 0 ==> st.entry.sharers - {st.req.tid} == {owner})
    && (st.childCount == 0 ==>
          && (owner in st.entry.sharers <==> Found(st))
          && st.req.l1Hit == Found(st)
          && (forall u :: u in st.entry.sharers ==> u == owner || u == st.req.tid)
          && (st.outcome.Reply? ==> st.req.tid in st.entry.sharers)
          && (st.outcome.Reply? ==> st.outcome.grant == if Found(st) then GrantShared else GrantExclusive))
  }

  ghost predicate Inv(st: State, owner: nat) {
    CountInv(st) && if st.req.op.MissRead? then ReadInv(st, owner) else WriteInv(st)
  }

  /** ---------------- answers ---------------- */

  /** A message on its way to the home with the dirty data of block b. */
  function DataFor(b: nat): Message -> bool {
    (m: Message) => (m.Answers? && m.data && m.block == b) || (m.Back? && m.block == b)
  }

  function DirtyAt(b: nat): seq<L1Line> -> bool { (lines: seq<L1Line>) => b < |lines| && Dirty(lines[b]) }

  ghost predicate Extra(m: Message, source: nat, own: nat) {
    m.Answers? && m.source == source && m.block != own && !Hits(m) && m.data
  }

  lemma {:induction false} ExtrasShape(source: nat, lines: seq<L1Line>, own: nat, k: nat)
    requires k <= |lines|
    ensures forall i :: 0 <= i < |Extras(source, lines, own, k)| ==> Extra(Extras(source, lines, own, k)[i], source, own)
  {
    if k > 0 { ExtrasShape(source, lines, own, k - 1); }
  }

  /** The extra answers are one for each dirty block other than the one asked for. */
  lemma {:induction false} ExtrasExactly(source: nat, lines: seq<L1Line>, own: nat, k: nat, b: nat)
    requires k <= |lines|
    ensures Count(Extras(source, lines, own, k), DataFor(b)) == One(b < k && b != own && Dirty(lines[b]))
  {
    if k > 0 {
      ExtrasExactly(source, lines, own, k - 1, b);
      var more := if k - 1 != own && Dirty(lines[k - 1]) then [Answers(source, k - 1, false, false, true, false)] else [];
      CountPlus(Extras(source, lines, own, k - 1), more, DataFor(b));
      if more != [] { assert more[..0] == [] && Count(more[..0], DataFor(b)) == 0; }
    }
  }

  lemma DeliverCount(ms: seq<Message>, i: nat, m: Message, more: seq<Message>)
    requires i < |ms| && Live(ms[i]) && Live(m)
    requires forall j :: 0 <= j < |more| ==> Live(more[j])
    ensures Count(ms[i := m] + more, Live) == Count(ms, Live) + |more|
  {
    CountSet(ms, i, m, Live);
    CountPlus(ms[i := m], more, Live);
    CountAll(more, Live);
  }

  lemma BackCount(ms: seq<Message>, b: nat)
    ensures Count(ms + [Back(b)], Live) == Count(ms, Live)
  {
    assert (ms + [Back(b)])[..|ms|] == ms;
  }

  /** ---------------- every step ---------------- */

  lemma LocalKeeps(st: State, owner: nat, s: Step)
    requires Inv(st, owner) && May(st, s) && (s.Upgrade? || s.Drop?)
    ensures Inv(Next(st, s), owner)
  {
    var st' := Next(st, s);
    BackCount(st.messages, s.block);
    forall t: nat | t < |st.caches| && Empty(st.caches[t]) ensures Empty(st'.caches[t]) {}
    forall t: nat | Asked(st.messages, t) ensures Asked(st'.messages, t) {
      var i: nat :| i < |st.messages| && st.messages[i].Asks? && st.messages[i].target == t;
      assert st'.messages[i] == st.messages[i];
    }
    if st.req.op.MissRead? { LocalRead(st, owner, s); }
  }

  lemma LocalRead(st: State, owner: nat, s: Step)
    requires Inv(st, owner) && May(st, s) && (s.Upgrade? || s.Drop?) && st.req.op.MissRead?
    requires forall t: nat :: t < |st.caches| && Empty(st.caches[t]) ==> Empty(Next(st, s).caches[t])
    requires forall t: nat :: Asked(st.messages, t) ==> Asked(Next(st, s).messages, t)
    ensures ReadInv(Next(st, s), owner)
  {
    var st' := Next(st, s);
    BackCount(st.messages, s.block);
    forall i | 0 <= i < |st.messages| ensures st'.messages[i] == st.messages[i] {}
  }

  lemma BackTaken(st: State, owner: nat, i: nat)
    requires Inv(st, owner) && May(st, TakeBack(i))
    ensures Inv(Next(st, TakeBack(i)), owner)
  {
    var st' := Next(st, TakeBack(i));
    CountSet(st.messages, i, Gone, Live);
    forall t: nat | Asked(st.messages, t) ensures Asked(st'.messages, t) {
      var j: nat :| j < |st.messages| && st.messages[j].Asks? && st.messages[j].target == t;
      assert st'.messages[j] == st.messages[j];
    }
    forall j | 0 <= j < |st.messages| && Hits(st.messages[j]) ensures Hits(st'.messages[j]) {}
  }

  lemma Delivered(st: State, owner: nat, i: nat)
    requires Inv(st, owner) && May(st, Deliver(i))
    ensures CountInv(DoDeliver(st, i))
    ensures var m := st.messages[i];
            forall j :: 0 <= j < |DoDeliver(st, i).messages| ==>
              DoDeliver(st, i).messages[j] == (
                if j == i then OwnAnswer(m.target, st.caches[m.target], st.own, KindFor(st.req.op), m.wantsData)
                else if j < |st.messages| then st.messages[j]
                else Extras(m.target, st.caches[m.target], st.own, |st.caches[m.target]|)[j - |st.messages|])
  {
    var m := st.messages[i];
    var lines := st.caches[m.target];
    var extra := Extras(m.target, lines, st.own, |lines|);
    ExtrasShape(m.target, lines, st.own, |lines|);
    forall j | 0 <= j < |extra| ensures Live(extra[j]) { assert Extra(extra[j], m.target, st.own); }
    CountSome(st.messages, i, Live);
    DeliverCount(st.messages, i, OwnAnswer(m.target, lines, st.own, KindFor(st.req.op), m.wantsData), extra);
  }

  lemma DeliverWrite(st: State, owner: nat, i: nat)
    requires Inv(st, owner) && May(st, Deliver(i)) && !st.req.op.MissRead?
    ensures Inv(DoDeliver(st, i), owner)
  {
    Delivered(st, owner, i);
    var st' := DoDeliver(st, i);
    forall t: nat | t < |st'.caches| && t != st.req.tid && !Empty(st'.caches[t]) ensures Asked(st'.messages, t) {
      assert t != st.messages[i].target;
      var j: nat :| j < |st.messages| && st.messages[j].Asks? && st.messages[j].target == t;
      assert st'.messages[j] == st.messages[j];
    }
  }

  lemma OwnerDelivered(st: State, owner: nat, i: nat)
    requires Inv(st, owner) && May(st, Deliver(i)) && st.req.op.MissRead?
    ensures var st' := DoDeliver(st, i);
            && st.seen.None? && st.messages[i].target == owner
            && (forall j :: 0 <= j < |st.messages| && j != i ==> !Live(st.messages[j]))
            && OnlyShared(st'.caches[owner]) && (Empty(st.caches[owner]) ==> Empty(st'.caches[owner]))
            && st'.seen == Some(!Empty(st.caches[owner]))
            && st'.messages[i].Answers? && st'.messages[i].source == owner
            && (Hits(st'.messages[i]) <==> !Empty(st.caches[owner]))
  {
    CountSome(st.messages, i, Live);
    CountSet(st.messages, i, Gone, Live);
    forall j | 0 <= j < |st.messages| && j != i ensures !Live(st.messages[j]) {
      CountNone(st.messages[i := Gone], j, Live);
    }
  }

  lemma DeliverRead(st: State, owner: nat, i: nat)
    requires Inv(st, owner) && May(st, Deliver(i)) && st.req.op.MissRead?
    ensures Inv(DoDeliver(st, i), owner)
  {
    Delivered(st, owner, i);
    OwnerDelivered(st, owner, i);
    var st' := DoDeliver(st, i);
    var lines := st.caches[owner];
    ExtrasShape(owner, lines, st.own, |lines|);
    forall j | 0 <= j < |st'.messages|
      ensures !st'.messages[j].Asks?
      ensures st'.messages[j].Answers? ==> st'.messages[j].source == owner
      ensures Hits(st'.messages[j]) ==> st'.seen.value
    {
      if j >= |st.messages| {
        assert Extra(Extras(owner, lines, st.own, |lines|)[j - |st.messages|], owner, st.own);
      } else if j != i {
        assert !Live(st.messages[j]);
      }
    }
  }

  lemma Collected(st: State, owner: nat, i: nat, env: Env)
    requires Inv(st, owner) && May(st, Collect(i, env))
    ensures st.childCount > 0
    ensures Count(DoCollect(st, i, env).messages, Live) == st.childCount - 1
    ensures st.childCount == 1 ==> forall j :: 0 <= j < |st.messages| && j != i ==> !Live(st.messages[j])
  {
    CountSome(st.messages, i, Live);
    CountSet(st.messages, i, Gone, Live);
    if st.childCount == 1 {
      forall j | 0 <= j < |st.messages| && j != i ensures !Live(st.messages[j]) {
        CountNone(st.messages[i := Gone], j, Live);
      }
    }
  }

  lemma CollectWrite(st: State, owner: nat, i: nat, env: Env)
    requires Inv(st, owner) && May(st, Collect(i, env)) && !st.req.op.MissRead?
    ensures Inv(DoCollect(st, i, env), owner)
  {
    Collected(st, owner, i, env);
    var st' := DoCollect(st, i, env);
    forall t: nat | t < |st'.caches| && t != st.req.tid && !Empty(st'.caches[t]) ensures Asked(st'.messages, t) {
      var j: nat :| j < |st.messages| && st.messages[j].Asks? && st.messages[j].target == t;
      assert st'.messages[j] == st.messages[j];
    }
  }

  lemma CollectRead(st: State, owner: nat, i: nat, env: Env)
    requires Inv(st, owner) && May(st, Collect(i, env)) && st.req.op.MissRead?
    ensures Inv(DoCollect(st, i, env), owner)
  {
    Collected(st, owner, i, env);
    var st' := DoCollect(st, i, env);
    var m := st.messages[i];
    assert st.seen.Some? by {
      if st.seen.None? {
        var j: nat :| j < |st.messages| && st.messages[j].Asks? && st.messages[j].target == owner;
        assert st.childCount == 1;
        assert Live(st.messages[j]);
      }
    }
    if st.seen.value && !st'.req.l1Hit {
      var j :| 0 <= j < |st.messages| && Hits(st.messages[j]);
      assert j != i && Hits(st'.messages[j]);
    }
    if st.childCount == 1 { LastRead(st, owner, i, env); }
  }

  /** The owner's bit is cleared at the last answer of a read, if no answer had a hit. */
  lemma LastRead(st: State, owner: nat, i: nat, env: Env)
    requires Inv(st, owner) && May(st, Collect(i, env)) && st.req.op.MissRead? && st.childCount == 1 && st.seen.Some?
    requires forall j :: 0 <= j < |st.messages| && j != i ==> !Live(st.messages[j])
    ensures var req := Heard(st.req, st.messages[i]);
            var (e, out) := TakeReadAck(st.entry, req, owner, false, env);
            && req.l1Hit == Found(st)
            && !e.allShared && (out.Reply? || out.FetchMemory? || out.Retry?) && (e.stable <==> !out.FetchMemory?)
            && (owner in e.sharers <==> Found(st))
            && (forall u :: u in e.sharers ==> u == owner || u == req.tid)
            && (out.Reply? ==> req.tid in e.sharers)
            && (out.Reply? ==> out.grant == if Found(st) then GrantShared else GrantExclusive)
  {
    var req := Heard(st.req, st.messages[i]);
    assert req.l1Hit == Found(st);
    assert owner in st.entry.sharers by { assert owner in st.entry.sharers - {st.req.tid}; }
    forall u | u in st.entry.sharers ensures u == owner || u == req.tid {
      if u != req.tid { assert u in st.entry.sharers - {st.req.tid}; }
    }
  }

  lemma NextKeeps(st: State, owner: nat, s: Step)
    requires Inv(st, owner) && May(st, s)
    ensures Inv(Next(st, s), owner)
  {
    match s {
      case Upgrade(_, _) => LocalKeeps(st, owner, s);
      case Drop(_, _) => LocalKeeps(st, owner, s);
      case Deliver(i) => if st.req.op.MissRead? { DeliverRead(st, owner, i); } else { DeliverWrite(st, owner, i); }
      case Collect(i, env) => if st.req.op.MissRead? { CollectRead(st, owner, i, env); } else { CollectWrite(st, owner, i, env); }
      case TakeBack(i) => BackTaken(st, owner, i);
    }
  }

  /** ---------------- runs ---------------- */

  ghost predicate Runs(st: State, ss: seq<Step>, st': State)
    decreases ss
  {
    if ss == [] then st' == st else May(st, ss[0]) && Runs(Next(st, ss[0]), ss[1..], st')
  }

  /** The probes have just been sent: one child for each, every cache with a line of the region in the
      vector, and every other sharer asked. A read asks its one owner. */
  ghost predicate Starts(st: State, owner: nat) {
    && (forall i :: 0 <= i < |st.messages| ==> st.messages[i].Asks?)
    && st.childCount == |st.messages| > 0 && st.ends == 0 && st.seen.None? && st.outcome == KeepWaiting(st.req)
    && !st.entry.stable && !st.entry.allShared && st.marked == st.req.l1Hit
    && (forall t: nat :: t < |st.caches| && t != st.req.tid && !Empty(st.caches[t]) ==> t in st.entry.sharers)
    && (forall t :: t in st.entry.sharers && t != st.req.tid ==> t < |st.caches| && Asked(st.messages, t))
    && (st.req.op.MissRead? ==> |st.messages| == 1 && st.entry.sharers - {st.req.tid} == {owner})
  }

  lemma StartInv(st: State, owner: nat)
    requires Starts(st, owner)
    ensures Inv(st, owner)
  {
    CountAll(st.messages, Live);
    if st.req.op.MissRead? {
      assert owner in st.entry.sharers - {st.req.tid};
      forall t | t in st.entry.sharers && t != st.req.tid ensures t == owner {
        assert t in st.entry.sharers - {st.req.tid};
      }
    }
  }

  lemma {:induction false} RunKeeps(st: State, owner: nat, ss: seq<Step>, st': State)
    requires Inv(st, owner) && Runs(st, ss, st')
    ensures Inv(st', owner)
    ensures st'.req.tid == st.req.tid && st'.req.op.MissRead? == st.req.op.MissRead?
    ensures st.seen.Some? && st.req.op.MissRead? ==> st'.seen == st.seen
    ensures st'.marked == st.marked
    decreases ss
  {
    if ss != [] {
      NextKeeps(st, owner, ss[0]);
      SameEvent(st, owner, ss[0]);
      RunKeeps(Next(st, ss[0]), owner, ss[1..], st');
    }
  }

  lemma SameEvent(st: State, owner: nat, s: Step)
    requires Inv(st, owner) && May(st, s)
    ensures Next(st, s).req.tid == st.req.tid && Next(st, s).req.op.MissRead? == st.req.op.MissRead?
    ensures st.seen.Some? && st.req.op.MissRead? ==> Next(st, s).seen == st.seen
    ensures Next(st, s).marked == st.marked
  {
  }

  /** On every run: the count of the event is the number of probes and answers not yet handled, extra
      answers included; the entry is locked exactly while it is positive or memory is awaited; and the
      event comes to an end once, exactly when it is zero. */
  lemma AcksAccountedFor(st: State, owner: nat, ss: seq<Step>, st': State)
    requires Starts(st, owner) && Runs(st, ss, st')
    ensures st'.childCount == Count(st'.messages, Live)
    ensures !st'.entry.stable <==> st'.childCount > 0 || st'.outcome.FetchMemory?
    ensures st'.ends <= 1 && (st'.ends == 1 <==> st'.childCount == 0)
    ensures if st'.childCount > 0 then st'.outcome.KeepWaiting?
            else st'.outcome.Reply? || st'.outcome.FetchMemory? || st'.outcome.Retry?
  {
    StartInv(st, owner);
    RunKeeps(st, owner, ss, st');
  }

  /** When a write ends, no other cache has a line of the region, and the vector says so. */
  lemma WriteEndsAlone(st: State, owner: nat, ss: seq<Step>, st': State)
    requires Starts(st, owner) && Runs(st, ss, st') && !st.req.op.MissRead? && st'.childCount == 0
    ensures forall t: nat :: t < |st'.caches| && t != st.req.tid ==> Empty(st'.caches[t])
    ensures st'.entry.sharers == if st'.outcome.Reply? then {st.req.tid} else {}
  {
    StartInv(st, owner);
    RunKeeps(st, owner, ss, st');
    forall t: nat | t < |st'.caches| && t != st.req.tid ensures Empty(st'.caches[t]) {
      if !Empty(st'.caches[t]) {
        var i: nat :| i < |st'.messages| && st'.messages[i].Asks? && st'.messages[i].target == t;
        CountNone(st'.messages, i, Live);
        assert false;
      }
    }
  }

  /** When a read ends, the owner's bit is cleared exactly if it had no valid line of the region when the
      probe reached it and the event came without the flag of an earlier probe. */
  lemma OwnerBitExactly(st: State, owner: nat, before: seq<Step>, mid: State, i: nat, after: seq<Step>, st': State)
    requires Starts(st, owner) && st.req.op.MissRead? && Ends(st, before, mid, i, after, st')
    ensures owner < |mid.caches| && (owner in st'.entry.sharers <==> st.req.l1Hit || !Empty(mid.caches[owner]))
    ensures st'.req.l1Hit <==> owner in st'.entry.sharers
  {
    StartInv(st, owner);
    RunKeeps(st, owner, before, mid);
    OwnerDelivered(mid, owner, i);
    NextKeeps(mid, owner, Deliver(i));
    RunKeeps(Next(mid, Deliver(i)), owner, after, st');
  }

  /** A run to the end of an event, cut where the probe i is delivered. */
  ghost predicate Ends(st: State, before: seq<Step>, mid: State, i: nat, after: seq<Step>, st': State) {
    Runs(st, before, mid) && May(mid, Deliver(i)) && Runs(Next(mid, Deliver(i)), after, st') && st'.childCount == 0
  }

  lemma {:induction false} RunsThen(st: State, ss: seq<Step>, mid: State, s: Step)
    requires Runs(st, ss, mid) && May(mid, s)
    ensures Runs(st, ss + [s], Next(mid, s))
    decreases ss
  {
    if ss == [] {
      assert [] + [s] == [s] && [s][1..] == [];
    } else {
      assert (ss + [s])[1..] == ss[1..] + [s];
      RunsThen(Next(st, ss[0]), ss[1..], mid, s);
    }
  }

  /** Cache c has lost its first k lines, silently or with a write back; nothing else has changed. */
  ghost predicate Lost(st: State, st': State, c: nat, k: nat) {
    && c < |st.caches| && |st'.caches| == |st.caches| && k <= |st'.caches[c]| == |st.caches[c]|
    && (forall b :: 0 <= b < k ==> !st'.caches[c][b].valid)
    && |st'.messages| >= |st.messages| && st'.messages[..|st.messages|] == st.messages
    && st' == st.(caches := st'.caches, messages := st'.messages)
  }

  lemma {:induction false} LosesLines(st: State, c: nat, k: nat) returns (ss: seq<Step>, st': State)
    requires c < |st.caches| && k <= |st.caches[c]|
    ensures Runs(st, ss, st') && Lost(st, st', c, k)
  {
    if k == 0 {
      ss, st' := [], st;
    } else {
      var before, mid := LosesLines(st, c, k - 1);
      RunsThen(st, before, mid, Drop(c, k - 1));
      ss, st' := before + [Drop(c, k - 1)], Next(mid, Drop(c, k - 1));
    }
  }

  lemma {:induction false} NoExtras(source: nat, lines: seq<L1Line>, own: nat, k: nat)
    requires k <= |lines| && Empty(lines)
    ensures Extras(source, lines, own, k) == []
  {
    if k > 0 { NoExtras(source, lines, own, k - 1); }
  }

  const InL2 := Env(true, true, true, None)

  /** The owner loses all its lines, the probe finds nothing, and the answer is the last. */
  lemma EmptyOwnerEnds(st: State, owner: nat) returns (before: seq<Step>, mid: State, after: seq<Step>, st': State)
    requires Starts(st, owner) && st.req.op.MissRead? && owner < |st.caches| && st.own < |st.caches[owner]|
    ensures Ends(st, before, mid, 0, after, st') && owner < |mid.caches| && Empty(mid.caches[owner])
  {
    before, mid := LosesLines(st, owner, |st.caches[owner]|);
    StartInv(st, owner);
    assert mid.messages[0] == st.messages[0];
    NoExtras(owner, mid.caches[owner], mid.own, |mid.caches[owner]|);
    var asked := Next(mid, Deliver(0));
    assert asked.messages[0].Answers? && asked.childCount == 1;
    after, st' := [Collect(0, InL2)], Next(asked, Collect(0, InL2));
    assert after[1..] == [];
    assert Runs(st', after[1..], st');
  }

  /** So the bit is right on every run of an event exactly if the event came without the flag. */
  lemma WrongBitExactly(st: State, owner: nat)
    requires Starts(st, owner) && st.req.op.MissRead? && owner < |st.caches| && st.own < |st.caches[owner]|
    ensures (exists before, mid, i, after, st' :: Ends(st, before, mid, i, after, st') && owner < |mid.caches|
              && (owner in st'.entry.sharers <==> Empty(mid.caches[owner]))) <==> st.req.l1Hit
  {
    forall before, mid, i, after, st' | Ends(st, before, mid, i, after, st') && owner < |mid.caches|
                                        && (owner in st'.entry.sharers <==> Empty(mid.caches[owner]))
      ensures st.req.l1Hit
    {
      OwnerBitExactly(st, owner, before, mid, i, after, st');
    }
    if st.req.l1Hit {
      var before, mid, after, st' := EmptyOwnerEnds(st, owner);
      OwnerBitExactly(st, owner, before, mid, 0, after, st');
    }
  }

  /** ---------------- an event that is served twice ---------------- */

  const Away := Env(false, true, true, None)
  const Sharing := L1Line(true, false, Shared)
  const Owned := Entry({1}, false, Exclusive, -1, false, false)

  /** Cache 0 reads block 0 of a region of two blocks, of which cache 1 has these lines. */
  ghost function Probing1(lines: seq<L1Line>, req: Request): State {
    State([[NoLine, NoLine], lines], [Asks(1, req.shrDataReq)], 0, Owned, req, 1, KeepWaiting(req), 0, req.l1Hit, None, multiset{})
  }

  lemma ProbingStarts(lines: seq<L1Line>, req: Request)
    requires req.op.MissRead? && req.tid == 0
    ensures Starts(Probing1(lines, req), 1)
  {
    var st := Probing1(lines, req);
    assert st.messages[0].Asks? && st.messages[0].target == 1;
    assert Asked(st.messages, 1);
    assert Owned.sharers - {0} == {1};
  }

  lemma LinesAsked(lines: seq<L1Line>)
    requires lines == [NoLine, NoLine] || lines == [NoLine, Sharing]
    ensures Extras(1, lines, 0, 2) == [] && After(lines, InvRead) == lines && (OtherValid(lines, 0) <==> lines[1].valid)
  {
    assert Extras(1, lines, 0, 0) == [] && Extras(1, lines, 0, 1) == [];
  }

  /** The probe is answered once, and that ends the event. */
  lemma OneAnswer(lines: seq<L1Line>, req: Request, env: Env) returns (st': State)
    requires lines == [NoLine, NoLine] || lines == [NoLine, Sharing]
    requires req.op.MissRead? && req.tid == 0
    ensures Runs(Probing1(lines, req), [Deliver(0), Collect(0, env)], st') && st'.childCount == 0
    ensures st'.caches == [[NoLine, NoLine], lines]
    ensures st'.req == req.(l1Hit := req.l1Hit || lines[1].valid)
    ensures (st'.entry, st'.outcome) == TakeReadAck(Owned, st'.req, 1, false, env)
  {
    var st := Probing1(lines, req);
    LinesAsked(lines);
    var asked := Next(st, Deliver(0));
    assert asked.caches == st.caches;
    st' := Next(asked, Collect(0, env));
    assert [Deliver(0), Collect(0, env)][1..] == [Collect(0, env)] && [Collect(0, env)][1..] == [];
    assert Runs(st', [], st');
    assert Runs(asked, [Collect(0, env)], st');
  }

  ghost predicate GoesToMemory(first: State, missed: State) {
    && Starts(first, 1) && !first.req.l1Hit && Runs(first, [Deliver(0), Collect(0, Away)], missed)
    && missed.outcome == FetchMemory(missed.req) && missed.req.l1Hit
  }

  ghost predicate KeepsBitInVain(second: State, ended: State) {
    && Starts(second, 1) && second.req.l1Hit && |second.caches| == |ended.caches| == 2 && Empty(second.caches[1])
    && Runs(second, [Deliver(0), Collect(0, InL2)], ended)
    && ended.outcome == Reply(GrantShared) && 1 in ended.entry.sharers && Empty(ended.caches[1])
  }

  /** The input: cache 1 has only the other block, and L2 has none. The read goes to memory with its flag
      set; cache 1 loses its line; the read is served again and probes cache 1 again, in vain; and cache 1
      keeps its bit, and the grant is a shared one. */
  lemma FlagOutlivesLine() returns (first: State, missed: State, second: State, ended: State)
    ensures GoesToMemory(first, missed) && KeepsBitInVain(second, ended)
    ensures ServeRead(missed.entry.(stable := true), missed.req, InL2) == (second.entry, ProbeOwner(second.req, 1))
  {
    var req := Request(0, MissRead, true, false);
    first := Probing1([NoLine, Sharing], req);
    ProbingStarts([NoLine, Sharing], req);
    missed := OneAnswer([NoLine, Sharing], req, Away);
    var again := missed.req.(shrDataReq := false);
    assert Owned.sharers - {0} == {1};
    second := Probing1([NoLine, NoLine], again);
    ProbingStarts([NoLine, NoLine], again);
    ended := OneAnswer([NoLine, NoLine], again, InL2);
  }

  /** And then every other cache with a line is in the vector, none has it exclusive or dirty, and an
      exclusive grant means that no other cache has a line. */
  lemma ReadEndsShared(st: State, owner: nat, ss: seq<Step>, st': State, t: nat)
    requires Starts(st, owner) && Runs(st, ss, st') && st.req.op.MissRead? && st'.childCount == 0
    requires t < |st'.caches| && t != st.req.tid
    ensures !Empty(st'.caches[t]) ==> t in st'.entry.sharers
    ensures OnlyShared(st'.caches[t])
    ensures st'.outcome == Reply(GrantExclusive) ==> Empty(st'.caches[t])
    ensures st'.outcome.Reply? ==> st.req.tid in st'.entry.sharers
  {
    StartInv(st, owner);
    RunKeeps(st, owner, ss, st');
  }

  /** ---------------- no dirty block is thrown away ---------------- */

  /** Where the dirty data of block b is: in a cache, on its way, or at the home. */
  ghost function DirtyData(st: State, b: nat): nat {
    Count(st.caches, DirtyAt(b)) + Count(st.messages, DataFor(b)) + st.received[b]
  }

  ghost function Written(s: Step, b: nat): nat { One(s.Upgrade? && s.block == b) }

  ghost function Writes(ss: seq<Step>, b: nat): nat
    decreases ss
  {
    if ss == [] then 0 else Written(ss[0], b) + Writes(ss[1..], b)
  }

  lemma DeliverConserves(st: State, i: nat, b: nat)
    requires May(st, Deliver(i))
    ensures DirtyData(DoDeliver(st, i), b) == DirtyData(st, b)
  {
    var m, kind := st.messages[i], KindFor(st.req.op);
    var lines := st.caches[m.target];
    var extra := Extras(m.target, lines, st.own, |lines|);
    var own := OwnAnswer(m.target, lines, st.own, kind, m.wantsData);
    CountSet(st.caches, m.target, After(lines, kind), DirtyAt(b));
    CountSet(st.messages, i, own, DataFor(b));
    CountPlus(st.messages[i := own], extra, DataFor(b));
    ExtrasExactly(m.target, lines, st.own, |lines|, b);
  }

  lemma DropConserves(st: State, c: nat, k: nat, b: nat)
    requires May(st, Drop(c, k))
    ensures DirtyData(Next(st, Drop(c, k)), b) == DirtyData(st, b)
  {
    CountSet(st.caches, c, st.caches[c][k := NoLine], DirtyAt(b));
    assert (st.messages + [Back(k)])[..|st.messages|] == st.messages;
  }

  lemma NextConserves(st: State, s: Step, b: nat)
    requires May(st, s) && (s.Collect? ==> st.childCount > 0)
    ensures DirtyData(Next(st, s), b) == DirtyData(st, b) + Written(s, b)
  {
    match s {
      case Upgrade(c, k) => CountSet(st.caches, c, st.caches[c][k := L1Line(true, true, Modified)], DirtyAt(b));
      case Drop(c, k) => DropConserves(st, c, k, b);
      case Deliver(i) => DeliverConserves(st, i, b);
      case Collect(i, _) => CountSet(st.messages, i, Gone, DataFor(b));
      case TakeBack(i) => CountSet(st.messages, i, Gone, DataFor(b));
    }
  }

  lemma DeliverCounts(st: State, i: nat)
    requires st.childCount == Count(st.messages, Live) && May(st, Deliver(i))
    ensures DoDeliver(st, i).childCount == Count(DoDeliver(st, i).messages, Live)
  {
    var m := st.messages[i];
    var lines := st.caches[m.target];
    var extra := Extras(m.target, lines, st.own, |lines|);
    ExtrasShape(m.target, lines, st.own, |lines|);
    forall j | 0 <= j < |extra| ensures Live(extra[j]) { assert Extra(extra[j], m.target, st.own); }
    DeliverCount(st.messages, i, OwnAnswer(m.target, lines, st.own, KindFor(st.req.op), m.wantsData), extra);
  }

  /** The count is kept by every step, whatever else holds. */
  lemma NextCounts(st: State, s: Step)
    requires st.childCount == Count(st.messages, Live) && May(st, s)
    ensures Next(st, s).childCount == Count(Next(st, s).messages, Live)
  {
    match s {
      case Upgrade(_, _) =>
      case Drop(_, b) => BackCount(st.messages, b);
      case Deliver(i) => DeliverCounts(st, i);
      case Collect(i, _) =>
        CountSome(st.messages, i, Live);
        CountSet(st.messages, i, Gone, Live);
      case TakeBack(i) => CountSet(st.messages, i, Gone, Live);
    }
  }

  /** On every run each write to an exclusive line of block b leaves one more dirty copy of it in a cache, on
      its way to the home, or received there; nothing else changes their number. */
  lemma {:induction false} DirtyDataKept(st: State, ss: seq<Step>, st': State, b: nat)
    requires st.childCount == Count(st.messages, Live) && Runs(st, ss, st')
    ensures DirtyData(st', b) == DirtyData(st, b) + Writes(ss, b)
    decreases ss
  {
    if ss != [] {
      if ss[0].Collect? { CountSome(st.messages, ss[0].i, Live); }
      NextConserves(st, ss[0], b);
      NextCounts(st, ss[0]);
      DirtyDataKept(Next(st, ss[0]), ss[1..], st', b);
    }
  }

  /** ---------------- the code ---------------- */

  /** An invalidation arrives: the block asked for, then the loop over the other blocks of the region, with
      one more answer for each dirty one. */
  method InvalidateRegion(source: nat, lines: array<L1Line>, own: nat, wantsData: bool)
    returns (answer: Message, extra: seq<Message>)
    requires own < lines.Length
    modifies lines
    ensures lines[..] == After(old(lines[..]), InvWrite)
    ensures answer == OwnAnswer(source, old(lines[..]), own, InvWrite, wantsData)
    ensures extra == Extras(source, old(lines[..]), own, lines.Length)
  {
    ghost var before := lines[..];
    answer := Answers(source, own, lines[own].valid, false, lines[own].valid && lines[own].state == Modified, wantsData);
    if lines[own].valid { lines[own] := L1Line(false, false, Invalid); }
    extra := [];
    for i := 0 to lines.Length
      invariant extra == Extras(source, before, own, i)
      invariant forall j :: 0 <= j < lines.Length ==>
                  lines[j] == if j < i || j == own then Probed(before[j], InvWrite) else before[j]
    {
      if i == own { continue; }
      if lines[i].valid {
        if lines[i].state == Modified { extra := extra + [Answers(source, i, false, false, true, false)]; }
        lines[i] := L1Line(false, false, Invalid);
      }
    }
  }

  lemma OtherValidNext(lines: seq<L1Line>, own: nat, i: nat)
    requires i < |lines|
    ensures OtherValid(lines[..i + 1], own) <==> OtherValid(lines[..i], own) || (i != own && lines[i].valid)
  {
    assert lines[..i + 1][i] == lines[i];
    forall j | 0 <= j < i ensures lines[..i + 1][j] == lines[..i][j] {}
  }

  /** A read probe arrives: the same walk turns every line into a shared one, and notes in the answer that
      was sent before it whether another block was valid. */
  method ShareRegion(source: nat, lines: array<L1Line>, own: nat, wantsData: bool)
    returns (answer: Message, extra: seq<Message>)
    requires own < lines.Length
    modifies lines
    ensures lines[..] == After(old(lines[..]), InvRead)
    ensures answer == OwnAnswer(source, old(lines[..]), own, InvRead, wantsData)
    ensures extra == Extras(source, old(lines[..]), own, lines.Length)
  {
    ghost var before := lines[..];
    answer := Answers(source, own, lines[own].valid, false, lines[own].valid && lines[own].state == Modified, wantsData);
    if lines[own].valid { lines[own] := L1Line(true, false, Shared); }
    extra := [];
    for i := 0 to lines.Length
      invariant extra == Extras(source, before, own, i)
      invariant answer == Answers(source, own, before[own].valid, OtherValid(before[..i], own), Dirty(before[own]), wantsData)
      invariant forall j :: 0 <= j < lines.Length ==>
                  lines[j] == if j < i || j == own then Probed(before[j], InvRead) else before[j]
    {
      OtherValidNext(before, own, i);
      if i == own { continue; }
      if lines[i].valid {
        if lines[i].state == Modified { extra := extra + [Answers(source, i, false, false, true, false)]; }
        answer := answer.(otherHit := true);
        lines[i] := L1Line(true, false, Shared);
      }
    }
    assert before[..lines.Length] == before;
  }
}
