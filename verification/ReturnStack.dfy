/** The circular return-address stack of one thread and its speculative recovery. */
module ReturnStack {
  import opened Ring

  /** sizeof (md_inst_t) */
  const INST_SIZE := 4

  datatype Event = Call(baddr: nat) | Return | Other

  datatype Ras = Ras(stack: seq<nat>, tos: int)

  datatype Prediction = None | Target(addr: nat)

  /** A stack of size 0 has tos -1 and is never used. */
  ghost predicate Valid(r: Ras) {
    if |r.stack| == 0 then r.tos == -1 || r.tos == 0 else 0 <= r.tos < |r.stack|
  }

  function After(r: Ras, e: Event): (r': Ras)
    requires Valid(r)
    ensures Valid(r') && |r'.stack| == |r.stack|
  {
    var size := |r.stack|;
    if size == 0 then r
    else match e
      case Other => r
      case Return => r.(tos := Wrap(r.tos + size - 1, size))
      case Call(baddr) =>
        var t := Wrap(r.tos + 1, size);
        Ras(r.stack[t := baddr + INST_SIZE], t)
  }

  function Predicted(r: Ras, e: Event): Prediction
    requires Valid(r)
  {
    if |r.stack| > 0 && e == Return then Target(r.stack[r.tos]) else None
  }

  /** ---------------- traces ---------------- */

  ghost function Run(r: Ras, t: seq<Event>): (r': Ras)
    requires Valid(r)
    ensures Valid(r') && |r'.stack| == |r.stack|
    decreases t
  {
    if t == [] then r else Run(After(r, t[0]), t[1..])
  }

  ghost function Predictions(r: Ras, t: seq<Event>): (ps: seq<Prediction>)
    requires Valid(r)
    ensures |ps| == |t|
    decreases t
  {
    if t == [] then [] else [Predicted(r, t[0])] + Predictions(After(r, t[0]), t[1..])
  }

  ghost function Height(e: Event): int {
    match e case Call(_) => 1 case Return => -1 case Other => 0
  }

  ghost function Net(t: seq<Event>): int {
    if t == [] then 0 else Height(t[0]) + Net(t[1..])
  }

  /** Started with d live entries, the trace never needs fewer than low or more than high. */
  ghost predicate Stays(d: int, low: int, high: int, t: seq<Event>)
    decreases t
  {
    low <= d <= high && (t != [] ==> Stays(d + Height(t[0]), low, high, t[1..]))
  }

  /** The unbounded stack, most recent call first. */
  ghost function IdealAfter(s: seq<nat>, e: Event): seq<nat> {
    match e
    case Other => s
    case Return => if s == [] then [] else s[1..]
    case Call(baddr) => [baddr + INST_SIZE] + s
  }

  ghost function IdealRun(s: seq<nat>, t: seq<Event>): seq<nat>
    decreases t
  {
    if t == [] then s else IdealRun(IdealAfter(s, t[0]), t[1..])
  }

  ghost function IdealPredicted(s: seq<nat>, e: Event): Prediction {
    if e == Return && s != [] then Target(s[0]) else None
  }

  ghost function IdealPredictions(s: seq<nat>, t: seq<Event>): (ps: seq<Prediction>)
    ensures |ps| == |t|
    decreases t
  {
    if t == [] then [] else [IdealPredicted(s, t[0])] + IdealPredictions(IdealAfter(s, t[0]), t[1..])
  }

  ghost function Slot(r: Ras, k: int): (i: nat)
    requires |r.stack| > 0
    ensures i < |r.stack|
  {
    Wrap(r.tos - k, |r.stack|)
  }

  ghost predicate EntryIs(r: Ras, k: int, a: nat)
    requires |r.stack| > 0
  {
    r.stack[Slot(r, k)] == a
  }

  /** The ring's most recent entries are those of s, most recent first. */
  ghost predicate Holds(r: Ras, s: seq<nat>) {
    |s| <= |r.stack| && forall k :: 0 <= k < |s| ==> EntryIs(r, k, s[k])
  }

  lemma SlotAfterReturn(r: Ras, k: int)
    requires Valid(r) && |r.stack| > 0
    ensures Slot(After(r, Return), k) == Slot(r, k + 1)
  {
    var n := |r.stack|;
    WrapShift(r.tos + n - 1, -k, n);
    WrapRound(r.tos - 1 - k, n);
  }

  lemma SlotAfterCall(r: Ras, b: nat, k: int)
    requires Valid(r) && |r.stack| > 0
    ensures Slot(After(r, Call(b)), k) == Slot(r, k - 1)
  {
    WrapShift(r.tos + 1, -k, |r.stack|);
  }

  lemma SlotTop(r: Ras)
    requires Valid(r) && |r.stack| > 0
    ensures Slot(r, 0) == r.tos
  {
  }

  lemma CallHolds(r: Ras, b: nat, s: seq<nat>)
    requires Valid(r) && Holds(r, s) && |s| + 1 <= |r.stack|
    ensures Holds(After(r, Call(b)), [b + INST_SIZE] + s)
  {
    var r', s' := After(r, Call(b)), [b + INST_SIZE] + s;
    SlotTop(r');
    forall k | 0 <= k < |s'| ensures EntryIs(r', k, s'[k]) {
      if k > 0 {
        SlotAfterCall(r, b, k);
        WrapApart(r'.tos - k, r'.tos, |r.stack|);
        assert Slot(r', k) != Slot(r', 0);
        assert EntryIs(r, k - 1, s[k - 1]);
      }
    }
  }

  lemma ReturnHolds(r: Ras, s: seq<nat>)
    requires Valid(r) && Holds(r, s) && s != []
    ensures Holds(After(r, Return), s[1..]) && Predicted(r, Return) == Target(s[0])
  {
    SlotTop(r);
    assert EntryIs(r, 0, s[0]);
    forall k | 0 <= k < |s| - 1 ensures EntryIs(After(r, Return), k, s[1..][k]) {
      SlotAfterReturn(r, k);
      assert EntryIs(r, k + 1, s[k + 1]);
    }
  }

  /** ---------------- well-nested traces ---------------- */

  lemma StepRefines(r: Ras, s: seq<nat>, e: Event)
    requires Valid(r) && Holds(r, s) && 0 <= |s| + Height(e) <= |r.stack|
    ensures Predicted(r, e) == IdealPredicted(s, e)
    ensures Holds(After(r, e), IdealAfter(s, e)) && |IdealAfter(s, e)| == |s| + Height(e)
  {
    match e {
      case Call(b) => CallHolds(r, b, s);
      case Return => ReturnHolds(r, s);
      case Other =>
    }
  }

  lemma {:induction false} RingEndsLikeStack(r: Ras, s: seq<nat>, t: seq<Event>)
    requires Valid(r) && Holds(r, s) && Stays(|s|, 0, |r.stack|, t)
    ensures Holds(Run(r, t), IdealRun(s, t))
    decreases t
  {
    if t != [] {
      assert Stays(|s| + Height(t[0]), 0, |r.stack|, t[1..]);
      StepRefines(r, s, t[0]);
      RingEndsLikeStack(After(r, t[0]), IdealAfter(s, t[0]), t[1..]);
    }
  }

  /** While the depth stays within the ring it predicts what the unbounded stack would. */
  lemma {:induction false} RingRefinesStack(r: Ras, s: seq<nat>, t: seq<Event>)
    requires Valid(r) && Holds(r, s) && Stays(|s|, 0, |r.stack|, t)
    ensures Predictions(r, t) == IdealPredictions(s, t)
    decreases t
  {
    if t != [] {
      assert Stays(|s| + Height(t[0]), 0, |r.stack|, t[1..]);
      StepRefines(r, s, t[0]);
      RingRefinesStack(After(r, t[0]), IdealAfter(s, t[0]), t[1..]);
    }
  }

  /** Every call adds one to the top of stack and every return takes one off. */
  lemma {:induction false} TosMoves(r: Ras, t: seq<Event>)
    requires Valid(r) && |r.stack| > 0
    ensures Run(r, t).tos == Wrap(r.tos + Net(t), |r.stack|)
    decreases t
  {
    var n := |r.stack|;
    if t == [] {
    } else {
      TosMoves(After(r, t[0]), t[1..]);
      match t[0] {
        case Call(_) => WrapShift(r.tos + 1, Net(t[1..]), n);
        case Return =>
          WrapShift(r.tos + n - 1, Net(t[1..]), n);
          WrapRound(r.tos - 1 + Net(t[1..]), n);
        case Other =>
      }
    }
  }

  /** A trace that never returns below where it started leaves what was there. */
  lemma {:induction false} IdealKeeps(s: seq<nat>, base: seq<nat>, high: int, t: seq<Event>)
    requires Stays(|s|, 0, high, t)
    ensures IdealRun(s + base, t) == IdealRun(s, t) + base && |IdealRun(s, t)| == |s| + Net(t)
    decreases t
  {
    if t != [] {
      var s' := IdealAfter(s, t[0]);
      assert IdealAfter(s + base, t[0]) == s' + base;
      IdealKeeps(s', base, high, t[1..]);
    }
  }

  /** A balanced trace of the given depth: as many returns as calls, and no return before its call. */
  ghost predicate Balanced(t: seq<Event>, depth: int) {
    Stays(0, 0, depth, t) && Net(t) == 0
  }

  lemma {:induction false} StaysShift(d: int, low: int, high: int, t: seq<Event>, shift: int)
    requires Stays(d, low, high, t)
    ensures Stays(d + shift, low + shift, high + shift, t)
    decreases t
  {
    if t != [] { StaysShift(d + Height(t[0]), low, high, t[1..], shift); }
  }

  lemma {:induction false} StaysWiden(d: int, low: int, high: int, t: seq<Event>, low': int, high': int)
    requires Stays(d, low, high, t) && low' <= low && high <= high'
    ensures Stays(d, low', high', t)
    decreases t
  {
    if t != [] { StaysWiden(d + Height(t[0]), low, high, t[1..], low', high'); }
  }

  lemma BodyLeavesCall(r: Ras, b: nat, body: seq<Event>)
    requires Valid(r) && Balanced(body, |r.stack| - 1)
    ensures Holds(Run(After(r, Call(b)), body), [b + INST_SIZE])
  {
    var r1, n, base := After(r, Call(b)), |r.stack|, [b + INST_SIZE];
    CallHolds(r, b, []);
    assert base + [] == base && [] + base == base;
    StaysShift(0, 0, n - 1, body, 1);
    StaysWiden(1, 1, n, body, 0, n);
    RingEndsLikeStack(r1, base, body);
    IdealKeeps([], base, n - 1, body);
    assert IdealRun([], body) == [];
  }

  lemma BodyLeavesTos(r: Ras, b: nat, body: seq<Event>)
    requires Valid(r) && |r.stack| > 0 && Net(body) == 0
    ensures After(Run(After(r, Call(b)), body), Return).tos == r.tos
  {
    var r1 := After(r, Call(b));
    var before := Run(r1, body);
    TosMoves(r1, body);
    SlotTop(r1);
    assert before.tos == r1.tos;
    SlotAfterReturn(before, 0);
    SlotTop(After(before, Return));
    SlotAfterCall(r, b, 1);
    SlotTop(r);
  }

  /** The return that matches a call predicts the address after the call, and the top of stack is
      back where it was, whatever happened in between, as long as the nesting fits in the ring. */
  lemma MatchingReturn(r: Ras, b: nat, body: seq<Event>)
    requires Valid(r) && Balanced(body, |r.stack| - 1)
    ensures var before := Run(r, [Call(b)] + body);
            Predicted(before, Return) == Target(b + INST_SIZE) && After(before, Return).tos == r.tos
  {
    assert |r.stack| > 0;
    assert ([Call(b)] + body)[1..] == body;
    BodyLeavesCall(r, b, body);
    BodyLeavesTos(r, b, body);
    ReturnHolds(Run(After(r, Call(b)), body), [b + INST_SIZE]);
  }

  /** ---------------- nesting deeper than the ring ---------------- */

  ghost function AfterCalls(r: Ras, bs: seq<nat>): (r': Ras)
    requires Valid(r)
    ensures Valid(r') && |r'.stack| == |r.stack|
  {
    if bs == [] then r else After(AfterCalls(r, bs[..|bs| - 1]), Call(bs[|bs| - 1]))
  }

  ghost function AfterReturns(r: Ras, j: nat): (r': Ras)
    requires Valid(r)
    ensures Valid(r') && |r'.stack| == |r.stack|
  {
    if j == 0 then r else After(AfterReturns(r, j - 1), Return)
  }

  /** After a row of calls, the entry k places below the top is the call k back, as far as the ring reaches. */
  lemma {:induction false} CallsStored(r: Ras, bs: seq<nat>, k: nat)
    requires Valid(r) && k < |r.stack| && k < |bs|
    ensures EntryIs(AfterCalls(r, bs), k, bs[|bs| - 1 - k] + INST_SIZE)
    decreases |bs|
  {
    var last, rest := bs[|bs| - 1], bs[..|bs| - 1];
    var mid := AfterCalls(r, rest);
    var r' := After(mid, Call(last));
    SlotTop(r');
    if k > 0 {
      CallsStored(r, rest, k - 1);
      SlotAfterCall(mid, last, k);
      WrapApart(r'.tos - k, r'.tos, |r.stack|);
      assert Slot(r', k) != Slot(r', 0);
    }
  }

  lemma {:induction false} ReturnsStored(r: Ras, j: nat)
    requires Valid(r) && |r.stack| > 0
    ensures AfterReturns(r, j).stack == r.stack && AfterReturns(r, j).tos == Slot(r, j)
  {
    if j == 0 {
      SlotTop(r);
    } else {
      ReturnsStored(r, j - 1);
      WrapShift(r.tos - (j - 1), |r.stack| - 1, |r.stack|);
      WrapRound(r.tos - j, |r.stack|);
    }
  }

  lemma DeepReturn(r': Ras, j: nat, i: nat, a: nat)
    requires Valid(r') && |r'.stack| > 0 && i == Wrap(j, |r'.stack|) && EntryIs(r', i, a)
    ensures Predicted(AfterReturns(r', j), Return) == Target(a)
  {
    ReturnsStored(r', j);
    WrapBack(r'.tos, j, |r'.stack|);
  }

  /** What return j (counted from 0) after a row of calls predicts, however deep the row: the ring
      repeats its most recent |stack| calls, so the return is right exactly when that call is its own
      or comes from the same address. */
  lemma DeepNest(r: Ras, bs: seq<nat>, j: nat, i: nat)
    requires Valid(r) && |r.stack| > 0 && j < |bs| && i == Wrap(j, |r.stack|)
    ensures i <= j && Predicted(AfterReturns(AfterCalls(r, bs), j), Return) == Target(bs[|bs| - 1 - i] + INST_SIZE)
    ensures Predicted(AfterReturns(AfterCalls(r, bs), j), Return) == Target(bs[|bs| - 1 - j] + INST_SIZE) <==>
            bs[|bs| - 1 - j] == bs[|bs| - 1 - i]
  {
    WrapBelow(j, |r.stack|);
    CallsStored(r, bs, i);
    DeepReturn(AfterCalls(r, bs), j, i, bs[|bs| - 1 - i] + INST_SIZE);
  }

  /** ---------------- recovery after a wrong path ---------------- */

  ghost function Recovered(r: Ras, tos: int): Ras { r.(tos := tos) }

  /** No call of the wrong path, h entries above the saved top when it starts, writes one of the
      d live entries. */
  ghost predicate Avoids(h: int, n: nat, d: nat, t: seq<Event>)
    requires n > 0
    decreases t
  {
    t == [] || ((t[0].Call? ==> d == 0 || 1 <= Wrap(h + 1, n) <= n - d) && Avoids(h + Height(t[0]), n, d, t[1..]))
  }

  /** The address that the wrong path pushes last into the slot k below the saved top, if it reaches it. */
  ghost function LastWrite(h: int, n: nat, k: int, t: seq<Event>): Prediction
    requires n > 0
    decreases t
  {
    if t == [] then None
    else
      var later := LastWrite(h + Height(t[0]), n, k, t[1..]);
      if later != None then later
      else if t[0].Call? && Wrap(h + 1 + k, n) == 0 then Target(t[0].baddr + INST_SIZE)
      else None
  }

  lemma CallSlot(r: Ras, b: nat, tos0: int, h: int, k: int)
    requires Valid(r) && |r.stack| > 0 && r.tos == Wrap(tos0 + h, |r.stack|)
    ensures var r', slot := After(r, Call(b)), Wrap(tos0 - k, |r.stack|);
            && r'.tos == Wrap(tos0 + h + 1, |r.stack|)
            && r'.stack[slot] == if Wrap(h + 1 + k, |r.stack|) == 0 then b + INST_SIZE else r.stack[slot]
  {
    WrapShift(tos0 + h, 1, |r.stack|);
    WrapSame(tos0 - k, h + 1 + k, |r.stack|);
  }

  /** Each slot holds what was pushed into it last, or what it held before. */
  lemma {:induction false} PathWrites(r: Ras, tos0: int, h: int, t: seq<Event>, k: int)
    requires Valid(r) && |r.stack| > 0 && r.tos == Wrap(tos0 + h, |r.stack|)
    ensures Run(r, t).stack[Wrap(tos0 - k, |r.stack|)]
         == match LastWrite(h, |r.stack|, k, t) case Target(a) => a case None => r.stack[Wrap(tos0 - k, |r.stack|)]
    decreases t
  {
    if t != [] {
      var n := |r.stack|;
      match t[0] {
        case Call(b) => CallSlot(r, b, tos0, h, k);
        case Return =>
          WrapShift(tos0 + h, n - 1, n);
          WrapRound(tos0 + h - 1, n);
        case Other =>
      }
      PathWrites(After(r, t[0]), tos0, h + Height(t[0]), t[1..], k);
    }
  }

  /** Recovery restores the live stack exactly if what the wrong path pushed last into each live slot, where
      it reached one, is what was there. */
  lemma RecoveryExactly(r: Ras, s: seq<nat>, t: seq<Event>)
    requires Valid(r) && 0 < |r.stack| && Holds(r, s)
    ensures Holds(Recovered(Run(r, t), r.tos), s) <==>
            forall k :: 0 <= k < |s| ==> LastWrite(0, |r.stack|, k, t) == None || LastWrite(0, |r.stack|, k, t) == Target(s[k])
  {
    SlotTop(r);
    var q := Recovered(Run(r, t), r.tos);
    forall k | 0 <= k < |s|
      ensures EntryIs(q, k, s[k]) <==> LastWrite(0, |r.stack|, k, t) == None || LastWrite(0, |r.stack|, k, t) == Target(s[k])
    {
      PathWrites(r, r.tos, 0, t, k);
      assert EntryIs(r, k, s[k]);
    }
  }

  lemma {:induction false} AvoidsWritesNone(h: int, n: nat, d: nat, t: seq<Event>, k: nat)
    requires n > 0 && Avoids(h, n, d, t) && k < d
    ensures LastWrite(h, n, k, t) == None
    decreases t
  {
    if t != [] {
      AvoidsWritesNone(h + Height(t[0]), n, d, t[1..], k);
      WrapShift(h + 1, k, n);
    }
  }

  /** So after any wrong path that writes no live entry. */
  lemma RecoveryRestores(r: Ras, s: seq<nat>, t: seq<Event>)
    requires Valid(r) && 0 < |r.stack| && Holds(r, s) && Avoids(0, |r.stack|, |s|, t)
    ensures Holds(Recovered(Run(r, t), r.tos), s)
  {
    forall k | 0 <= k < |s| ensures LastWrite(0, |r.stack|, k, t) == None { AvoidsWritesNone(0, |r.stack|, |s|, t, k); }
    RecoveryExactly(r, s, t);
  }

  /** In particular after one that never pops below the saved top and never wraps onto live entries. */
  lemma {:induction false} ExcursionAvoids(h: int, n: nat, d: nat, t: seq<Event>)
    requires 0 < n && d <= n && Stays(h, 0, n - d, t)
    ensures Avoids(h, n, d, t)
    decreases t
  {
    if t != [] {
      ExcursionAvoids(h + Height(t[0]), n, d, t[1..]);
      if t[0].Call? {
        assert Stays(h + 1, 0, n - d, t[1..]);
        assert 0 <= h + 1 <= n - d;
      }
    }
  }

  /** Popping below the saved top and calling again destroys the top entry, unless the same address
      happens to be pushed. */
  lemma PopThenCall(r: Ras, a: nat, b: nat)
    requires Valid(r) && 0 < |r.stack| && Holds(r, [a])
    ensures Holds(Recovered(Run(r, [Return, Call(b)]), r.tos), [a]) <==> a == b + INST_SIZE
  {
    assert [Return, Call(b)][1..] == [Call(b)] && [Call(b)][1..] == [];
    assert LastWrite(-1, |r.stack|, 0, [Call(b)]) == Target(b + INST_SIZE);
    RecoveryExactly(r, [a], [Return, Call(b)]);
    var written := LastWrite(0, |r.stack|, 0, [Return, Call(b)]);
    assert written == Target(b + INST_SIZE) && [a][0] == a;
  }

  /** ---------------- the code ---------------- */

  class Stack {
    const size: nat
    const stack: array<nat>
    var tos: int

    ghost predicate Live()
      reads this, stack
    {
      stack.Length == size && Valid(View())
    }

    ghost function View(): Ras
      reads this, stack
    {
      Ras(stack[..], tos)
    }

    /** The source asks for a size that is zero or a power of two; any size will do. */
    constructor (size: nat)
      ensures Live() && this.size == size && fresh(stack) && tos == size - 1
    {
      this.size := size;
      stack := new nat[size](_ => 0);
      tos := size - 1;
    }

    /** The part of a branch lookup that uses the stack. `recover` is the top of stack to return to
        if this branch turns out mispredicted. A return that is also flagged as a call only pops. */
    method Lookup(baddr: nat, isReturn: bool, isCall: bool) returns (recover: int, p: Prediction)
      requires Live()
      modifies stack, this`tos
      ensures Live()
      ensures recover == if size > 0 then old(tos) else 0
      ensures var e := if isReturn then Return else if isCall then Call(baddr) else Other;
              View() == After(old(View()), e) && p == Predicted(old(View()), e)
    {
      recover := if size > 0 then tos else 0;
      p := None;
      if isReturn && size > 0 {
        p := Target(stack[tos]);
        WrapIsMod(tos + size - 1, size);
        tos := (tos + size - 1) % size;
        return;
      }
      if isCall && size > 0 {
        WrapIsMod(tos + 1, size);
        tos := (tos + 1) % size;
        stack[tos] := baddr + INST_SIZE;
      }
    }

    method Recover(index: int)
      requires Live() && Valid(Recovered(View(), index))
      modifies this`tos
      ensures Live() && View() == Recovered(old(View()), index)
    {
      tos := index;
    }
  }
}
