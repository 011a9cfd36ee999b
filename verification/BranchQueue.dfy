/** The branch outcome queue: a ring of 1024 slots with three cursors. Entries between the head and
    the current head have been delivered but not committed, those up to the tail wait for delivery. */
module BranchQueue {
  import opened Ring

  const RING := 1024
  const MAX_SIZE := 512
  const MIN_SIZE := 10
  const IND_JMP_SIZE := 32
  const UPDATE_INTERVAL := 512

  datatype Op = Jmp | Jsr | Retn | JsrCoroutine | OtherOp

  datatype Kind = Barrier | LockAcquire | Plain

  datatype Inst = Inst(op: Op, kind: Kind, pc: nat)

  datatype Queue = Queue(slots: seq<Inst>, boqSize: int, corrNum: int, totalNum: int, indBrNum: int,
                         corrHead: int, corrCurrentHead: int, corrTail: int)

  datatype Outcome = Done | Ignored | Panic

  predicate Indirect(op: Op) { op == Jmp || op == Jsr || op == Retn || op == JsrCoroutine }

  function One(op: Op): int { if Indirect(op) then 1 else 0 }

  predicate InRange(q: Queue) {
    && |q.slots| == RING && 0 <= q.corrHead < RING && 0 <= q.corrCurrentHead < RING && 0 <= q.corrTail < RING
  }

  /** ---------------- the operations ---------------- */

  /** pushBranchPred, and the caller's store of the instruction into the slot it is handed. */
  ghost function Pushed(q: Queue, op: Op, inst: Inst): (Queue, Outcome)
    requires InRange(q)
  {
    if q.totalNum >= q.boqSize then (q, Panic)
    else
      (q.(slots := q.slots[q.corrTail := inst], corrNum := q.corrNum + 1, totalNum := q.totalNum + 1,
          indBrNum := q.indBrNum + One(op), corrTail := Wrap(q.corrTail + 1, RING)), Done)
  }

  /** popBranchPred: the slot delivered, or -1 when nothing waits. */
  ghost function Popped(q: Queue): (Queue, int)
    requires InRange(q)
  {
    if q.corrNum == 0 then (q, -1)
    else (q.(corrNum := q.corrNum - 1, corrCurrentHead := Wrap(q.corrCurrentHead + 1, RING)), q.corrCurrentHead)
  }

  ghost function Committed(q: Queue, index: int): (Queue, Outcome)
    requires InRange(q) && 0 <= index < RING
  {
    if index != q.corrHead then (q, if q.slots[index].kind != Plain then Ignored else Panic)
    else (q.(indBrNum := q.indBrNum - One(q.slots[index].op), corrHead := Wrap(q.corrHead + 1, RING),
             totalNum := q.totalNum - 1), Done)
  }

  /** How many entries recoverPredQueue steps back over. */
  ghost function StepsBack(q: Queue, index: int): (d: int)
    ensures 0 <= d < RING
  {
    Wrap(q.corrCurrentHead - (index + 1), RING)
  }

  ghost function Recovered(q: Queue, index: int): Queue {
    q.(corrNum := q.corrNum + StepsBack(q, index), corrCurrentHead := Wrap(index + 1, RING))
  }

  /** queueSize: -1 when a push must wait. */
  function Room(indBrNum: int, totalNum: int, boqSize: int): int {
    if indBrNum >= IND_JMP_SIZE then -1 else if totalNum >= boqSize then -1 else totalNum
  }

  ghost function Emptied(q: Queue): Queue {
    q.(corrHead := 0, corrCurrentHead := 0, corrTail := 0, corrNum := 0, totalNum := 0, indBrNum := 0)
  }

  /** ---------------- what the queue stands for ---------------- */

  /** All instructions ever pushed, how many of them are committed and how many delivered. */
  datatype Log = Log(pushed: seq<Inst>, head: nat, cur: nat)

  ghost predicate Ordered(l: Log) { l.head <= l.cur <= |l.pushed| }

  ghost function CountIndirect(s: seq<Inst>): nat {
    if s == [] then 0 else One(s[0].op) + CountIndirect(s[1..])
  }

  lemma {:induction false} CountAppend(s: seq<Inst>, x: Inst)
    ensures CountIndirect(s + [x]) == CountIndirect(s) + One(x.op)
  {
    if s == [] {
      assert s + [x] == [x];
    } else {
      assert (s + [x])[1..] == s[1..] + [x];
      CountAppend(s[1..], x);
    }
  }

  ghost predicate Stored(q: Queue, l: Log)
    requires InRange(q)
  {
    forall a: nat :: l.head <= a < |l.pushed| ==> HoldsAt(q, l, a)
  }

  ghost predicate HoldsAt(q: Queue, l: Log, a: nat)
    requires InRange(q) && a < |l.pushed|
  {
    q.slots[Wrap(a, RING)] == l.pushed[a]
  }

  /** The cursors are positions in the log and the counts are distances between them. */
  ghost predicate Cursors(q: Queue, l: Log) {
    && InRange(q) && Ordered(l) && MIN_SIZE <= q.boqSize <= MAX_SIZE
    && q.corrHead == Wrap(l.head, RING) && q.corrCurrentHead == Wrap(l.cur, RING)
    && q.corrTail == Wrap(|l.pushed|, RING)
    && q.totalNum == |l.pushed| - l.head && q.corrNum == |l.pushed| - l.cur && q.totalNum <= MAX_SIZE
  }

  /** The slots hold the live part of the log, and indBrNum counts the indirect branches in it. */
  ghost predicate Represents(q: Queue, l: Log) {
    Cursors(q, l) && Stored(q, l) && q.indBrNum == CountIndirect(l.pushed[l.head..])
  }

  lemma DistanceOf(a: nat, b: nat)
    requires a <= b < a + RING
    ensures Wrap(Wrap(b, RING) - Wrap(a, RING), RING) == b - a
  {
    WrapShift(b, -(Wrap(a, RING) as int), RING);
    WrapBack(b, a, RING);
  }

  /** The counts are ring distances, with 0 <= corrNum <= totalNum <= 512. */
  lemma CountsInOrder(q: Queue, l: Log)
    requires Cursors(q, l)
    ensures 0 <= q.corrNum <= q.totalNum <= MAX_SIZE
    ensures q.corrNum == Wrap(q.corrTail - q.corrCurrentHead, RING) && q.totalNum == Wrap(q.corrTail - q.corrHead, RING)
  {
    DistanceOf(l.head, |l.pushed|);
    DistanceOf(l.cur, |l.pushed|);
  }

  lemma PushKeepsStored(q: Queue, l: Log, op: Op, inst: Inst)
    requires Cursors(q, l) && Stored(q, l) && q.totalNum < q.boqSize
    ensures InRange(Pushed(q, op, inst).0) && Stored(Pushed(q, op, inst).0, l.(pushed := l.pushed + [inst]))
  {
    var q', l' := Pushed(q, op, inst).0, l.(pushed := l.pushed + [inst]);
    forall a: nat | l'.head <= a < |l'.pushed| ensures HoldsAt(q', l', a) {
      if a < |l.pushed| {
        assert HoldsAt(q, l, a);
        WrapApart(a, |l.pushed|, RING);
      }
    }
  }

  /** A push appends, if the caller stores the operation it announced. */
  lemma PushAppends(q: Queue, l: Log, inst: Inst)
    requires Represents(q, l)
    ensures Pushed(q, inst.op, inst).1 == (if q.totalNum < q.boqSize then Done else Panic)
    ensures q.totalNum < q.boqSize ==> Represents(Pushed(q, inst.op, inst).0, l.(pushed := l.pushed + [inst]))
  {
    if q.totalNum < q.boqSize {
      var l' := l.(pushed := l.pushed + [inst]);
      PushKeepsStored(q, l, inst.op, inst);
      WrapShift(|l.pushed|, 1, RING);
      assert l'.pushed[l.head..] == l.pushed[l.head..] + [inst];
      CountAppend(l.pushed[l.head..], inst);
    }
  }

  /** A caller that stores another operation breaks the count of indirect branches, exactly when one
      of the two is indirect and the other is not. */
  lemma CountNeedsOp(q: Queue, l: Log, op: Op, inst: Inst)
    requires Represents(q, l) && q.totalNum < q.boqSize
    ensures Represents(Pushed(q, op, inst).0, l.(pushed := l.pushed + [inst])) <==> Indirect(op) == Indirect(inst.op)
  {
    PushAppends(q, l, inst);
    PushKeepsStored(q, l, op, inst);
    assert Pushed(q, op, inst).0 == Pushed(q, inst.op, inst).0.(indBrNum := q.indBrNum + One(op));
  }

  lemma SameStored(q: Queue, l: Log, q': Queue, l': Log)
    requires InRange(q) && Stored(q, l) && InRange(q') && q'.slots == q.slots
    requires l'.pushed == l.pushed && l.head <= l'.head
    ensures Stored(q', l')
  {
    forall a: nat | l'.head <= a < |l'.pushed| ensures HoldsAt(q', l', a) {
      assert HoldsAt(q, l, a);
    }
  }

  /** Pops deliver the log in order. */
  lemma PopDelivers(q: Queue, l: Log)
    requires Represents(q, l)
    ensures Popped(q).1 == -1 <==> l.cur == |l.pushed|
    ensures l.cur < |l.pushed| ==> 0 <= Popped(q).1 < RING && q.slots[Popped(q).1] == l.pushed[l.cur]
    ensures l.cur < |l.pushed| ==> Represents(Popped(q).0, l.(cur := l.cur + 1))
  {
    if l.cur < |l.pushed| {
      assert HoldsAt(q, l, l.cur);
      WrapShift(l.cur, 1, RING);
      SameStored(q, l, Popped(q).0, l.(cur := l.cur + 1));
    }
  }

  lemma CommitDelivered(q: Queue, l: Log)
    requires Represents(q, l) && q.corrNum < q.totalNum
    ensures Committed(q, q.corrHead).1 == Done && Represents(Committed(q, q.corrHead).0, l.(head := l.head + 1))
  {
    assert l.pushed[l.head..][1..] == l.pushed[l.head + 1..];
    assert HoldsAt(q, l, l.head);
    WrapShift(l.head, 1, RING);
    SameStored(q, l, Committed(q, q.corrHead).0, l.(head := l.head + 1));
  }

  /** A commit of the head keeps the queue exactly when the head has been delivered. */
  lemma CommitExactly(q: Queue, l: Log)
    requires Represents(q, l)
    ensures (exists l' :: Represents(Committed(q, q.corrHead).0, l')) <==> q.corrNum < q.totalNum
  {
    if q.corrNum < q.totalNum { CommitDelivered(q, l); }
  }

  /** A commit of any other slot changes nothing. */
  lemma OtherCommit(q: Queue, index: int)
    requires InRange(q) && 0 <= index < RING && index != q.corrHead
    ensures Committed(q, index).0 == q
    ensures Committed(q, index).1 == Panic <==> q.slots[index].kind == Plain
  {
  }

  lemma StepsBackTo(q: Queue, l: Log, a: int)
    requires Cursors(q, l) && l.head - 1 <= a < l.cur
    ensures StepsBack(q, Wrap(a, RING)) == l.cur - (a + 1)
  {
    WrapShift(l.cur, -(Wrap(a, RING) as int) - 1, RING);
    WrapBack(l.cur - 1, a, RING);
  }

  /** Recovery to a delivered entry not yet committed, or to the one just before the head, puts the
      cursor right after it: what is delivered next is what was pushed after it. */
  lemma RecoverRewinds(q: Queue, l: Log, a: int)
    requires Represents(q, l) && l.head - 1 <= a < l.cur
    ensures Represents(Recovered(q, Wrap(a, RING)), l.(cur := a + 1))
  {
    StepsBackTo(q, l, a);
    WrapShift(a, 1, RING);
    SameStored(q, l, Recovered(q, Wrap(a, RING)), l.(cur := a + 1));
  }

  lemma SlotBack(q: Queue, l: Log, index: int, d: int)
    requires Cursors(q, l) && 0 <= index < RING && d == StepsBack(q, index)
    ensures Wrap(l.cur - d - 1, RING) == index
  {
    WrapBack(l.cur - 1, q.corrCurrentHead - (index + 1), RING);
    WrapBack(l.cur + index, l.cur, RING);
  }

  /** And to no other slot: the steps back must not reach past the head. */
  lemma RecoverExactly(q: Queue, l: Log, index: int)
    requires Represents(q, l) && 0 <= index < RING
    ensures (exists l' :: Represents(Recovered(q, index), l')) <==> StepsBack(q, index) <= q.totalNum - q.corrNum
    ensures StepsBack(q, index) <= q.totalNum - q.corrNum <==>
            exists a: int :: l.head - 1 <= a < l.cur && Wrap(a, RING) == index
  {
    var d := StepsBack(q, index);
    if d <= q.totalNum - q.corrNum {
      var a := l.cur - d - 1;
      SlotBack(q, l, index, d);
      RecoverRewinds(q, l, a);
      assert l.head - 1 <= a < l.cur && Wrap(a, RING) == index;
    }
    if a: int :| l.head - 1 <= a < l.cur && Wrap(a, RING) == index {
      StepsBackTo(q, l, a);
    }
  }

  /** k pops in a row. */
  ghost function Deliveries(q: Queue, k: nat): (s: seq<Inst>)
    requires InRange(q)
    decreases k
  {
    if k == 0 || Popped(q).1 == -1 then [] else [q.slots[Popped(q).1]] + Deliveries(Popped(q).0, k - 1)
  }

  lemma DeliverOne(q: Queue, l: Log, k: nat, q1: Queue, l1: Log)
    requires Represents(q, l) && k > 0 && l.cur < |l.pushed| && q1 == Popped(q).0 && l1 == l.(cur := l.cur + 1)
    ensures Represents(q1, l1) && Deliveries(q, k) == [l.pushed[l.cur]] + Deliveries(q1, k - 1)
  {
    PopDelivers(q, l);
  }

  lemma {:induction false} PopsFollow(q: Queue, l: Log, s: seq<Inst>)
    requires Represents(q, l) && l.cur + |s| <= |l.pushed|
    requires forall i :: 0 <= i < |s| ==> s[i] == l.pushed[l.cur + i]
    ensures Deliveries(q, |s|) == s
    decreases |s|
  {
    if s != [] {
      var q1, l1 := Popped(q).0, l.(cur := l.cur + 1);
      DeliverOne(q, l, |s|, q1, l1);
      PopsFollow(q1, l1, s[1..]);
    }
  }

  /** Pops follow the order of the pushes. */
  lemma PopsFollowPushes(q: Queue, l: Log, k: nat)
    requires Represents(q, l) && l.cur + k <= |l.pushed|
    ensures Deliveries(q, k) == l.pushed[l.cur..l.cur + k]
  {
    PopsFollow(q, l, l.pushed[l.cur..l.cur + k]);
  }

  lemma PopsDeliverAll(q: Queue, l: Log)
    requires Represents(q, l)
    ensures Deliveries(q, q.corrNum) == l.pushed[l.cur..]
  {
    PopsFollowPushes(q, l, q.corrNum);
  }

  /** After a recovery to entry a every later entry is delivered again, in order and once. */
  lemma RecoverRedelivers(q: Queue, l: Log, a: int, q': Queue)
    requires Represents(q, l) && l.head - 1 <= a < l.cur && q' == Recovered(q, Wrap(a, RING))
    ensures InRange(q') && q'.corrNum == |l.pushed| - (a + 1)
    ensures Deliveries(q', q'.corrNum) == l.pushed[a + 1..]
  {
    RecoverRewinds(q, l, a);
    PopsDeliverAll(q', l.(cur := a + 1));
  }

  /** ---------------- whole runs ---------------- */

  datatype Step = Push(inst: Inst) | Pop | Commit(index: int) | Recover(index: int) | Resize(size: int) | Reset

  /** Pushes wait for queueSize, only delivered heads commit, and recovery stays at or after the head. */
  ghost predicate Proper(q: Queue, e: Step)
    requires InRange(q)
  {
    match e
    case Push(_) => Room(q.indBrNum, q.totalNum, q.boqSize) != -1
    case Commit(index) => 0 <= index < RING && (index == q.corrHead ==> q.corrNum < q.totalNum)
    case Recover(index) => 0 <= index < RING && StepsBack(q, index) <= q.totalNum - q.corrNum
    case Resize(size) => MIN_SIZE <= size <= MAX_SIZE
    case _ => true
  }

  ghost function After(q: Queue, e: Step): (q': Queue)
    requires InRange(q) && Proper(q, e)
    ensures InRange(q')
  {
    match e
    case Push(inst) => Pushed(q, inst.op, inst).0
    case Pop => Popped(q).0
    case Commit(index) => Committed(q, index).0
    case Recover(index) => Recovered(q, index)
    case Resize(size) => q.(boqSize := size)
    case Reset => Emptied(q)
  }

  ghost function LogAfter(q: Queue, l: Log, e: Step): Log
    requires InRange(q) && Proper(q, e)
  {
    match e
    case Push(inst) => l.(pushed := l.pushed + [inst])
    case Pop => if l.cur < |l.pushed| then l.(cur := l.cur + 1) else l
    case Commit(index) => if index == q.corrHead then l.(head := l.head + 1) else l
    case Recover(index) => if StepsBack(q, index) <= l.cur then l.(cur := l.cur - StepsBack(q, index)) else l
    case Resize(_) => l
    case Reset => Log([], 0, 0)
  }

  lemma ResetRepresents(q: Queue, l: Log)
    requires Represents(q, l)
    ensures Represents(Emptied(q), Log([], 0, 0))
  {
  }

  lemma RecoverStep(q: Queue, l: Log, index: int)
    requires Represents(q, l) && 0 <= index < RING && StepsBack(q, index) <= q.totalNum - q.corrNum
    ensures Represents(Recovered(q, index), l.(cur := l.cur - StepsBack(q, index)))
  {
    var d := StepsBack(q, index);
    SlotBack(q, l, index, d);
    RecoverRewinds(q, l, l.cur - d - 1);
  }

  lemma StepRepresents(q: Queue, l: Log, e: Step)
    requires Represents(q, l) && Proper(q, e) && q.indBrNum <= IND_JMP_SIZE
    ensures Represents(After(q, e), LogAfter(q, l, e)) && After(q, e).indBrNum <= IND_JMP_SIZE
  {
    match e {
      case Push(inst) => PushAppends(q, l, inst);
      case Pop => PopDelivers(q, l);
      case Commit(index) => if index == q.corrHead { CommitDelivered(q, l); } else { OtherCommit(q, index); }
      case Recover(index) => RecoverStep(q, l, index);
      case Resize(size) => SameStored(q, l, q.(boqSize := size), l);
      case Reset => ResetRepresents(q, l);
    }
  }

  ghost predicate ProperRun(q: Queue, es: seq<Step>)
    requires InRange(q)
    decreases es
  {
    es == [] || (Proper(q, es[0]) && ProperRun(After(q, es[0]), es[1..]))
  }

  ghost function Run(q: Queue, es: seq<Step>): (q': Queue)
    requires InRange(q) && ProperRun(q, es)
    ensures InRange(q')
    decreases es
  {
    if es == [] then q else Run(After(q, es[0]), es[1..])
  }

  ghost function RunLog(q: Queue, l: Log, es: seq<Step>): Log
    requires InRange(q) && ProperRun(q, es)
    decreases es
  {
    if es == [] then l else RunLog(After(q, es[0]), LogAfter(q, l, es[0]), es[1..])
  }

  /** On every run the ring is the log: its counts stay in order, it delivers the pushes in order, and
      it counts at most 32 live indirect branches. */
  lemma {:induction false} RunRepresents(q: Queue, l: Log, es: seq<Step>)
    requires Represents(q, l) && ProperRun(q, es) && q.indBrNum <= IND_JMP_SIZE
    ensures Represents(Run(q, es), RunLog(q, l, es)) && Run(q, es).indBrNum <= IND_JMP_SIZE
    decreases es
  {
    if es != [] {
      StepRepresents(q, l, es[0]);
      RunRepresents(After(q, es[0]), LogAfter(q, l, es[0]), es[1..]);
    }
  }

  /** ---------------- when recovery ends ---------------- */

  /** The remainder of C, which takes the sign of the dividend. */
  function CRem(x: int): (r: int)
    ensures x >= 0 ==> r == x % RING
  {
    if x >= 0 then x % RING else -((-x) % RING)
  }

  ghost function CursorAfter(cur: nat, d: nat): nat { Wrap(cur - d, RING) }

  /** The loop steps back one slot at a time until it meets its target: it does exactly when the
      target is not negative, that is for every index from -1 on and for one in 1024 below. */
  lemma RecoveryEndsExactly(cur: nat, index: int)
    requires cur < RING
    ensures (exists d: nat :: CursorAfter(cur, d) == CRem(index + 1)) <==> CRem(index + 1) >= 0
    ensures CRem(index + 1) >= 0 <==> index >= -1 || (-(index + 1)) % RING == 0
  {
    var t := CRem(index + 1);
    if t >= 0 {
      var d := if cur >= t then cur - t else cur - t + RING;
      WrapRound(t - RING, RING);
      assert CursorAfter(cur, d) == t;
    }
  }

  /** ---------------- the code ---------------- */

  function Clamp(want: int): (size: int)
    ensures MIN_SIZE <= size <= MAX_SIZE
    ensures size == want <==> MIN_SIZE <= want <= MAX_SIZE
  {
    if want > MAX_SIZE then MAX_SIZE else if want < MIN_SIZE then MIN_SIZE else want
  }

  class BranchCorr {
    const slots: array<Inst>
    var boqSize: int
    var corrNum: int
    var totalNum: int
    var indBrNum: int
    var corrHead: int
    var corrCurrentHead: int
    var corrTail: int
    var intervalCount: int
    var lastUpdate: nat

    ghost function View(): Queue
      reads this, slots
    {
      Queue(slots[..], boqSize, corrNum, totalNum, indBrNum, corrHead, corrCurrentHead, corrTail)
    }

    constructor ()
      ensures fresh(slots) && Represents(View(), Log([], 0, 0)) && boqSize == MAX_SIZE
    {
      slots := new Inst[RING](_ => Inst(OtherOp, Plain, 0));
      boqSize := MAX_SIZE;
      corrHead, corrCurrentHead, corrTail := 0, 0, 0;
      corrNum, totalNum, indBrNum := 0, 0, 0;
      intervalCount, lastUpdate := 0, 0;
    }

    method ResetQueue()
      modifies this
      ensures View() == Emptied(old(View()))
    {
      corrHead, corrCurrentHead, corrTail := 0, 0, 0;
      corrNum, totalNum, indBrNum := 0, 0, 0;
    }

    /** Announces op and hands out the slot; `inst` is what the caller then stores there. */
    method PushBranchPred(op: Op, inst: Inst) returns (outcome: Outcome)
      requires InRange(View())
      modifies this, slots
      ensures (View(), outcome) == Pushed(old(View()), op, inst)
    {
      if totalNum >= boqSize { return Panic; }
      var slot := corrTail;
      corrNum := corrNum + 1;
      totalNum := totalNum + 1;
      if op == Jmp || op == Jsr || op == Retn || op == JsrCoroutine { indBrNum := indBrNum + 1; }
      WrapIsMod(corrTail + 1, RING);
      corrTail := (corrTail + 1) % RING;
      slots[slot] := inst;
      outcome := Done;
    }

    method PopBranchPred() returns (slot: int)
      requires InRange(View())
      modifies this
      ensures (View(), slot) == Popped(old(View()))
    {
      if corrNum == 0 { return -1; }
      corrNum := corrNum - 1;
      slot := corrCurrentHead;
      WrapIsMod(corrCurrentHead + 1, RING);
      corrCurrentHead := (corrCurrentHead + 1) % RING;
    }

    method CommitPrediction(index: int) returns (outcome: Outcome)
      requires InRange(View()) && 0 <= index < RING
      modifies this
      ensures (View(), outcome) == Committed(old(View()), index)
    {
      if index != corrHead {
        if slots[index].kind == Barrier || slots[index].kind == LockAcquire { return Ignored; }
        return Panic;
      }
      var op := slots[index].op;
      if op == Jmp || op == Jsr || op == Retn || op == JsrCoroutine { indBrNum := indBrNum - 1; }
      WrapIsMod(corrHead + 1, RING);
      corrHead := (corrHead + 1) % RING;
      totalNum := totalNum - 1;
      outcome := Done;
    }

    /** The size follows the branch rate, within 10 and 512. The clock must have moved on. */
    method DynConfBOQSize(memLat: nat, dl2Lat: nat, dl1Lat: nat, cycle: nat)
      requires cycle > lastUpdate
      modifies this`boqSize, this`intervalCount, this`lastUpdate
      ensures boqSize == old(boqSize) || MIN_SIZE <= boqSize <= MAX_SIZE
      ensures old(intervalCount) < UPDATE_INTERVAL ==> boqSize == old(boqSize) && intervalCount == old(intervalCount) + 1
      ensures old(intervalCount) >= UPDATE_INTERVAL ==> intervalCount == 0 && lastUpdate == cycle
      ensures var want := UPDATE_INTERVAL * (memLat + dl2Lat + dl1Lat) / (cycle - old(lastUpdate));
              old(intervalCount) >= UPDATE_INTERVAL ==> boqSize == Clamp(want)
    {
      if intervalCount < UPDATE_INTERVAL {
        intervalCount := intervalCount + 1;
      } else {
        var want := UPDATE_INTERVAL * (memLat + dl2Lat + dl1Lat) / (cycle - lastUpdate);
        lastUpdate := cycle;
        intervalCount := 0;
        if want > MAX_SIZE { boqSize := MAX_SIZE; } else if want > MIN_SIZE { boqSize := want; } else { boqSize := MIN_SIZE; }
      }
    }

    method QueueSize() returns (n: int)
      ensures n == Room(indBrNum, totalNum, boqSize)
    {
      if indBrNum >= IND_JMP_SIZE { return -1; }
      if totalNum >= boqSize { return -1; }
      n := totalNum;
    }

    /** Steps the current head back to the slot after index; below -1 the loop of the source need not end. */
    method RecoverPredQueue(index: int)
      requires InRange(View()) && index >= -1
      modifies this`corrNum, this`corrCurrentHead
      ensures View() == Recovered(old(View()), index)
    {
      var target := (index + 1) % RING;
      WrapIsMod(index + 1, RING);
      ghost var q, d := View(), 0;
      WrapBack(q.corrCurrentHead, q.corrCurrentHead - (index + 1), RING);
      assert Wrap(q.corrCurrentHead - StepsBack(q, index), RING) == target;
      while corrCurrentHead != target
        invariant 0 <= d <= StepsBack(q, index)
        invariant corrCurrentHead == Wrap(q.corrCurrentHead - d, RING) && corrNum == q.corrNum + d
        invariant View() == q.(corrNum := q.corrNum + d, corrCurrentHead := corrCurrentHead)
        decreases StepsBack(q, index) - d
      {
        corrNum := corrNum + 1;
        WrapIsMod(corrCurrentHead + RING - 1, RING);
        WrapShift(q.corrCurrentHead - d, RING - 1, RING);
        WrapRound(q.corrCurrentHead - d - 1, RING);
        corrCurrentHead := (corrCurrentHead + RING - 1) % RING;
        d := d + 1;
      }
      if d < StepsBack(q, index) { WrapApart(q.corrCurrentHead - StepsBack(q, index), q.corrCurrentHead - d, RING); }
    }
  }
}
