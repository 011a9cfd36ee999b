/** The 2Bc-gskew direction predictor: four banks of two-bit counters, trained by records made at
    lookup, with any number of other lookups and updates in between. */
module Gskew {
  import opened Bits
  import opened SkewHash

  /** The counters of the bimodal, the two skewed and the meta bank. */
  datatype Banks = Banks(bim: seq<nat>, g0: seq<nat>, g1: seq<nat>, meta: seq<nat>)

  /** What a lookup remembers: the four counters it read, what each said, and the prediction. */
  datatype Seen = Seen(i: nat, j: nat, k: nat, m: nat, bim: bool, g0: bool, g1: bool, meta: bool, pred: bool)

  /** The history register each bank keeps for one thread. */
  datatype Registers = Registers(bim: nat, g0: nat, g1: nat, meta: nat)

  /** Index width and history length of each bank. */
  datatype Geometry = Geometry(bimBits: nat, g0Bits: nat, g1Bits: nat, metaBits: nat,
                               bimHist: nat, g0Hist: nat, g1Hist: nat, metaHist: nat)

  const WORD := 0x1_0000_0000

  predicate Usable(g: Geometry) {
    g.bimBits >= 1 && g.g0Bits >= 1 && g.g1Bits >= 1 && g.metaBits >= 1
  }

  function Bit(b: bool): int { if b then 1 else 0 }

  function Choose(bim: bool, g0: bool, g1: bool, meta: bool): bool {
    if !meta then bim else if g0 == g1 then g0 else bim
  }

  /** A two-bit counter one step towards an outcome. */
  function Toward(c: nat, up: bool): (r: nat)
    ensures c <= 3 ==> r <= 3
  {
    if up then (if c != 3 then c + 1 else c) else if c != 0 then c - 1 else 0
  }

  ghost predicate Counters(s: seq<nat>) { forall t :: 0 <= t < |s| ==> s[t] <= 3 }

  ghost predicate Sound(b: Banks) { Counters(b.bim) && Counters(b.g0) && Counters(b.g1) && Counters(b.meta) }

  ghost predicate Fits(b: Banks, s: Seen) {
    s.i < |b.bim| && s.j < |b.g0| && s.k < |b.g1| && s.m < |b.meta|
  }

  /** The prediction is the one the remembered flags call for. */
  ghost predicate Consistent(s: Seen) { s.pred == Choose(s.bim, s.g0, s.g1, s.meta) }

  /** ---------------- training ---------------- */

  /** The two predictions, bimodal and majority, differ. */
  ghost predicate Split(s: Seen) { s.g0 == s.g1 && s.bim != s.g0 }

  ghost predicate Unanimous(s: Seen) { s.bim == s.g0 && s.bim == s.g1 }

  /** The meta counter moves only when the two predictions differ, towards the one that was right. */
  ghost function TrainedMeta(c: nat, s: Seen, taken: int): nat {
    if !Split(s) then c
    else if taken == Bit(s.bim) then Toward(c, false)
    else if taken == Bit(s.g0) then Toward(c, true)
    else c
  }

  /** A direction counter: on a misprediction every bank learns; on a correct prediction, unless all
      three agreed, the bank that made it, or those of the majority that were right. */
  ghost function TrainedCounter(c: nat, said: bool, voted: bool, s: Seen, taken: int): nat {
    if taken != Bit(s.pred) then Toward(c, taken != 0)
    else if !Unanimous(s) && voted && taken == Bit(said) then Toward(c, taken != 0)
    else c
  }

  ghost function Trained(b: Banks, s: Seen, taken: int): (b': Banks)
    requires Fits(b, s)
    ensures |b'.bim| == |b.bim| && |b'.g0| == |b.g0| && |b'.g1| == |b.g1| && |b'.meta| == |b.meta|
  {
    Banks(b.bim[s.i := TrainedCounter(b.bim[s.i], s.bim, true, s, taken)],
          b.g0[s.j := TrainedCounter(b.g0[s.j], s.g0, s.meta, s, taken)],
          b.g1[s.k := TrainedCounter(b.g1[s.k], s.g1, s.meta, s, taken)],
          b.meta[s.m := TrainedMeta(b.meta[s.m], s, taken)])
  }

  /** The embedded assertions of the update, on the counter c of the meta bank. */
  ghost predicate AssertsHold(c: nat, s: Seen, taken: int) {
    if taken == Bit(s.pred) then
      && (!Unanimous(s) && s.g0 == s.g1 && s.meta && c != 3 ==> taken == Bit(s.g0))
      && (!Unanimous(s) && s.g0 == s.g1 && !s.meta && c != 0 ==> taken == Bit(s.bim))
      && (!Unanimous(s) && !s.meta ==> taken == Bit(s.bim))
    else
      && (s.bim != s.g0 && s.bim != s.g1 && taken == Bit(s.bim) && c != 0 ==> s.meta)
      && (s.bim != s.g0 && s.bim != s.g1 && !(taken == Bit(s.bim) && c != 0) && taken == Bit(s.g0) && c < 3 ==> !s.meta)
  }

  /** They hold of any record made by a lookup, whatever the counters have become since. */
  lemma AssertsNeverFire(c: nat, s: Seen, taken: int)
    requires Consistent(s)
    ensures AssertsHold(c, s, taken)
  {
  }

  lemma TrainedSound(b: Banks, s: Seen, taken: int)
    requires Fits(b, s) && Sound(b)
    ensures Sound(Trained(b, s, taken))
  {
  }

  /** ---------------- lookup ---------------- */

  /** Branch address and history side by side, as a 32-bit word. */
  function InfoVec(baddr: nat, reg: nat, hist: nat): (v: nat) {
    (Shl(Shr(baddr, 2), hist) + LowBits(reg, hist)) % WORD
  }

  function Low(v: nat, n: nat): (x: nat)
    ensures x < Pow2(n)
  {
    LowBits(v, n)
  }

  function High(v: nat, n: nat): (x: nat)
    ensures x < Pow2(n)
  {
    LowBits(Shr(v, n), n)
  }

  ghost predicate Sized(b: Banks, g: Geometry) {
    && Usable(g)
    && |b.bim| == Pow2(g.bimBits) && |b.g0| == Pow2(g.g0Bits)
    && |b.g1| == Pow2(g.g1Bits) && |b.meta| == Pow2(g.metaBits)
  }

  function IndexBim(g: Geometry, baddr: nat, reg: nat): (i: nat)
    requires Usable(g)
    ensures i < Pow2(g.bimBits)
  {
    var v := InfoVec(baddr, reg, g.bimHist);
    IndicesInside(High(v, g.bimBits), Low(v, g.bimBits), g.bimBits);
    F0(High(v, g.bimBits), Low(v, g.bimBits), g.bimBits)
  }

  function IndexG0(g: Geometry, baddr: nat, reg: nat): (j: nat)
    requires Usable(g)
    ensures j < Pow2(g.g0Bits)
  {
    var v := InfoVec(baddr, reg, g.g0Hist);
    IndicesInside(High(v, g.g0Bits), Low(v, g.g0Bits), g.g0Bits);
    F1(High(v, g.g0Bits), Low(v, g.g0Bits), g.g0Bits)
  }

  function IndexG1(g: Geometry, baddr: nat, reg: nat): (k: nat)
    requires Usable(g)
    ensures k < Pow2(g.g1Bits)
  {
    var v := InfoVec(baddr, reg, g.g1Hist);
    IndicesInside(High(v, g.g1Bits), Low(v, g.g1Bits), g.g1Bits);
    F2(High(v, g.g1Bits), Low(v, g.g1Bits), g.g1Bits)
  }

  function IndexMeta(g: Geometry, baddr: nat, reg: nat): (m: nat)
    requires Usable(g)
    ensures m < Pow2(g.metaBits)
  {
    var v := InfoVec(baddr, reg, g.metaHist);
    IndicesInside(High(v, g.metaBits), Low(v, g.metaBits), g.metaBits);
    F3(High(v, g.metaBits), Low(v, g.metaBits), g.metaBits)
  }

  ghost function ReadAt(b: Banks, i: nat, j: nat, k: nat, m: nat): (s: Seen)
    requires i < |b.bim| && j < |b.g0| && k < |b.g1| && m < |b.meta|
  {
    var bim, g0, g1, meta := b.bim[i] > 1, b.g0[j] > 1, b.g1[k] > 1, b.meta[m] > 1;
    Seen(i, j, k, m, bim, g0, g1, meta, Choose(bim, g0, g1, meta))
  }

  ghost function Looked(b: Banks, g: Geometry, r: Registers, baddr: nat): Seen
    requires Sized(b, g)
  {
    ReadAt(b, IndexBim(g, baddr, r.bim), IndexG0(g, baddr, r.g0), IndexG1(g, baddr, r.g1), IndexMeta(g, baddr, r.meta))
  }

  /** All four registers become the bimodal bank's, shifted by one outcome. */
  function Shifted(r: Registers, taken: bool): Registers {
    var v := (2 * r.bim + Bit(taken)) % WORD;
    Registers(v, v, v, v)
  }

  ghost predicate InStep(r: Registers) { r.bim == r.g0 == r.g1 == r.meta }

  /** ---------------- any interleaving of lookups and updates ---------------- */

  datatype Event =
    | Look(baddr: nat, tid: nat)
    | Train(record: nat, taken: int, tid: nat)
    | Speculate(record: nat, tid: nat)

  /** seen holds the records of all lookups so far; any of them may be trained on at any time. */
  datatype State = State(banks: Banks, regs: seq<Registers>, seen: seq<Seen>)

  ghost predicate Allowed(st: State, e: Event) {
    match e
    case Look(_, tid) => tid < |st.regs|
    case Train(record, _, tid) => record < |st.seen| && tid < |st.regs|
    case Speculate(record, tid) => record < |st.seen| && tid < |st.regs|
  }

  ghost predicate Good(st: State, g: Geometry) {
    && Sized(st.banks, g) && Sound(st.banks)
    && (forall t :: 0 <= t < |st.regs| ==> InStep(st.regs[t]))
    && (forall t :: 0 <= t < |st.seen| ==> Fits(st.banks, st.seen[t]) && Consistent(st.seen[t]))
  }

  /** One event; an update also shifts the history unless it is shifted at prediction time. */
  ghost function Next(st: State, g: Geometry, immediate: bool, e: Event): State
    requires Sized(st.banks, g) && Allowed(st, e)
    requires forall t :: 0 <= t < |st.seen| ==> Fits(st.banks, st.seen[t])
  {
    match e
    case Look(baddr, tid) => st.(seen := st.seen + [Looked(st.banks, g, st.regs[tid], baddr)])
    case Train(record, taken, tid) =>
      st.(banks := Trained(st.banks, st.seen[record], taken),
          regs := if immediate then st.regs else st.regs[tid := Shifted(st.regs[tid], taken != 0)])
    case Speculate(record, tid) =>
      st.(regs := st.regs[tid := Shifted(st.regs[tid], st.seen[record].pred)])
  }

  lemma NextGood(st: State, g: Geometry, immediate: bool, e: Event)
    requires Good(st, g) && Allowed(st, e)
    ensures Good(Next(st, g, immediate, e), g)
  {
    match e {
      case Look(_, _) =>
      case Train(record, taken, _) => TrainedSound(st.banks, st.seen[record], taken);
      case Speculate(_, _) =>
    }
  }

  /** A new bank: the counters say weakly no and weakly yes in turn. */
  ghost function Flipflop(size: nat): (s: seq<nat>)
    ensures |s| == size && forall t :: 0 <= t < size ==> s[t] == if t % 2 == 0 then 1 else 2
  {
    seq(size, t requires 0 <= t < size => if t % 2 == 0 then 1 else 2)
  }

  ghost function Created(g: Geometry, threads: nat): State {
    State(Banks(Flipflop(Pow2(g.bimBits)), Flipflop(Pow2(g.g0Bits)), Flipflop(Pow2(g.g1Bits)), Flipflop(Pow2(g.metaBits))),
          seq(threads, _ => Registers(0, 0, 0, 0)), [])
  }

  /** The predictor as created meets what every event keeps. */
  lemma CreatedGood(g: Geometry, threads: nat)
    requires Usable(g)
    ensures Good(Created(g, threads), g)
  {
    var b := Created(g, threads).banks;
    assert Counters(b.bim) && Counters(b.g0) && Counters(b.g1) && Counters(b.meta);
  }

  ghost predicate Legal(st: State, g: Geometry, immediate: bool, es: seq<Event>)
    requires Good(st, g)
    decreases es
  {
    if es == [] then true
    else if !Allowed(st, es[0]) then false
    else NextGood(st, g, immediate, es[0]); Legal(Next(st, g, immediate, es[0]), g, immediate, es[1..])
  }

  ghost function Run(st: State, g: Geometry, immediate: bool, es: seq<Event>): (st': State)
    requires Good(st, g) && Legal(st, g, immediate, es)
    ensures Good(st', g)
    decreases es
  {
    if es == [] then st
    else NextGood(st, g, immediate, es[0]); Run(Next(st, g, immediate, es[0]), g, immediate, es[1..])
  }

  /** After any interleaving, training on any record made so far trips no assertion, every counter is
      within 0 to 3, and the four registers of every thread agree. */
  lemma NoAssertionFires(st: State, g: Geometry, immediate: bool, es: seq<Event>, record: nat, taken: int)
    requires Good(st, g) && Legal(st, g, immediate, es)
    requires record < |Run(st, g, immediate, es).seen|
    ensures var st' := Run(st, g, immediate, es);
            && AssertsHold(st'.banks.meta[st'.seen[record].m], st'.seen[record], taken)
            && Sound(st'.banks) && forall t :: 0 <= t < |st'.regs| ==> InStep(st'.regs[t])
  {
    AssertsNeverFire(Run(st, g, immediate, es).banks.meta[Run(st, g, immediate, es).seen[record].m],
                     Run(st, g, immediate, es).seen[record], taken);
  }

  /** ---------------- learning ---------------- */

  /** How many steps a counter is from saying the outcome. */
  ghost function Distance(c: nat, t: bool): nat {
    if t then (if c < 2 then 2 - c else 0) else if c > 1 then c - 1 else 0
  }

  ghost function Furthest(b: Banks, s: Seen, t: bool): nat
    requires Fits(b, s)
  {
    Max(Distance(b.bim[s.i], t), Max(Distance(b.g0[s.j], t), Distance(b.g1[s.k], t)))
  }

  ghost function Max(a: nat, b: nat): nat { if a < b then b else a }

  /** Mispredictions of n visits to the same counters with the same outcome and nothing in between. */
  ghost function Misses(b: Banks, s: Seen, t: bool, n: nat): nat
    requires Fits(b, s)
    decreases n
  {
    if n == 0 then 0
    else
      var now := ReadAt(b, s.i, s.j, s.k, s.m);
      (if now.pred == t then 0 else 1) + Misses(Trained(b, now, Bit(t)), s, t, n - 1)
  }

  lemma VisitCloser(b: Banks, s: Seen, t: bool)
    requires Fits(b, s) && Sound(b)
    ensures var now := ReadAt(b, s.i, s.j, s.k, s.m);
            && Fits(Trained(b, now, Bit(t)), s)
            && Furthest(Trained(b, now, Bit(t)), s, t) <= Furthest(b, s, t)
            && (now.pred != t ==> Furthest(Trained(b, now, Bit(t)), s, t) < Furthest(b, s, t))
  {
  }

  /** Two mispredictions at most, however often the branch comes and whatever meta says. */
  lemma {:induction false} LearnsWithinTwo(b: Banks, s: Seen, t: bool, n: nat)
    requires Fits(b, s) && Sound(b)
    ensures Misses(b, s, t, n) <= Furthest(b, s, t) <= 2
    decreases n
  {
    if n > 0 {
      var now := ReadAt(b, s.i, s.j, s.k, s.m);
      VisitCloser(b, s, t);
      TrainedSound(b, now, Bit(t));
      LearnsWithinTwo(Trained(b, now, Bit(t)), s, t, n - 1);
    }
  }

  /** ---------------- the code ---------------- */

  class Predictor {
    const g: Geometry
    const immediate: bool
    const bim: array<nat>
    const g0: array<nat>
    const g1: array<nat>
    const meta: array<nat>
    /** One history register per bank and thread. */
    const bimReg: array<nat>
    const g0Reg: array<nat>
    const g1Reg: array<nat>
    const metaReg: array<nat>

    ghost predicate Apart() {
      && bim != g0 && bim != g1 && bim != meta && g0 != g1 && g0 != meta && g1 != meta
      && bimReg != g0Reg && bimReg != g1Reg && bimReg != metaReg && g0Reg != g1Reg && g0Reg != metaReg && g1Reg != metaReg
      && {bim, g0, g1, meta} !! {bimReg, g0Reg, g1Reg, metaReg}
      && bimReg.Length == g0Reg.Length == g1Reg.Length == metaReg.Length
    }

    ghost function View(): Banks
      reads bim, g0, g1, meta
    {
      Banks(bim[..], g0[..], g1[..], meta[..])
    }

    ghost function RegistersOf(tid: nat): Registers
      requires Apart() && tid < bimReg.Length
      reads bimReg, g0Reg, g1Reg, metaReg
    {
      Registers(bimReg[tid], g0Reg[tid], g1Reg[tid], metaReg[tid])
    }

    ghost predicate Valid()
      reads bim, g0, g1, meta, bimReg, g0Reg, g1Reg, metaReg
    {
      && Apart() && Sized(View(), g) && Sound(View())
      && forall t :: 0 <= t < bimReg.Length ==> InStep(RegistersOf(t))
    }

    constructor (g: Geometry, immediate: bool, threads: nat)
      requires Usable(g)
      ensures Valid() && this.g == g && this.immediate == immediate && bimReg.Length == threads
      ensures View() == Created(g, threads).banks
      ensures forall t :: 0 <= t < threads ==> RegistersOf(t) == Created(g, threads).regs[t]
    {
      this.g, this.immediate := g, immediate;
      bim, g0 := new nat[Pow2(g.bimBits)], new nat[Pow2(g.g0Bits)];
      g1, meta := new nat[Pow2(g.g1Bits)], new nat[Pow2(g.metaBits)];
      bimReg, g0Reg := new nat[threads](_ => 0), new nat[threads](_ => 0);
      g1Reg, metaReg := new nat[threads](_ => 0), new nat[threads](_ => 0);
      new;
      FillBank(bim);
      FillBank(g0);
      FillBank(g1);
      FillBank(meta);
      CreatedGood(g, threads);
    }

    static method FillBank(table: array<nat>)
      modifies table
      ensures table[..] == Flipflop(table.Length)
    {
      var flipflop := 1;
      for cnt := 0 to table.Length
        invariant flipflop == if cnt % 2 == 0 then 1 else 2
        invariant forall t :: 0 <= t < cnt ==> table[t] == if t % 2 == 0 then 1 else 2
      {
        table[cnt] := flipflop;
        flipflop := 3 - flipflop;
      }
    }

    method Lookup(baddr: nat, tid: nat) returns (s: Seen)
      requires Valid() && tid < bimReg.Length
      ensures s == Looked(View(), g, RegistersOf(tid), baddr)
      ensures Fits(View(), s) && Consistent(s)
    {
      var i, j := IndexBim(g, baddr, bimReg[tid]), IndexG0(g, baddr, g0Reg[tid]);
      var k, m := IndexG1(g, baddr, g1Reg[tid]), IndexMeta(g, baddr, metaReg[tid]);
      var b0, b1, b2, b3 := bim[i] > 1, g0[j] > 1, g1[k] > 1, meta[m] > 1;
      var pred;
      if !b3 { pred := b0; } else if b1 == b2 { pred := b1; } else { pred := b0; }
      s := Seen(i, j, k, m, b0, b1, b2, b3, pred);
    }

    /** One saturating counter of one bank. */
    method Step(table: array<nat>, i: nat, taken: int)
      requires i < table.Length && table[i] <= 3
      modifies table
      ensures table[..] == old(table[..])[i := Toward(old(table[i]), taken != 0)]
    {
      if taken != 0 && table[i] != 3 {
        table[i] := table[i] + 1;
      } else if taken == 0 && table[i] != 0 {
        table[i] := table[i] - 1;
      }
    }

    /** The meta counter of an update, with the assertions of both cases. */
    method TrainMeta(s: Seen, taken: int)
      requires Valid() && Fits(View(), s) && Consistent(s)
      modifies meta
      ensures Valid() && meta[..] == old(meta[..])[s.m := TrainedMeta(old(meta[s.m]), s, taken)]
    {
      if taken == Bit(s.pred) {
        if (s.bim != s.g0 || s.bim != s.g1) && s.g0 == s.g1 {
          if s.meta && meta[s.m] != 3 {
            assert taken == Bit(s.g0);
            meta[s.m] := meta[s.m] + 1;
          } else if !s.meta && meta[s.m] != 0 {
            assert taken == Bit(s.bim);
            meta[s.m] := meta[s.m] - 1;
          }
        }
      } else if s.bim != s.g0 && s.bim != s.g1 {
        if taken == Bit(s.bim) && meta[s.m] != 0 {
          assert s.meta;
          meta[s.m] := meta[s.m] - 1;
        } else if taken == Bit(s.g0) && meta[s.m] < 3 {
          assert !s.meta;
          meta[s.m] := meta[s.m] + 1;
        }
      }
    }

    /** The direction counters of an update. */
    method TrainDirections(s: Seen, taken: int)
      requires Valid() && Fits(View(), s) && Consistent(s)
      modifies bim, g0, g1
      ensures Valid() && View() == Trained(old(View()), s, taken).(meta := old(meta[..]))
    {
      if taken == Bit(s.pred) {
        if s.bim != s.g0 || s.bim != s.g1 {
          if s.meta {
            if taken == Bit(s.bim) { Step(bim, s.i, taken); }
            if taken == Bit(s.g0) { Step(g0, s.j, taken); }
            if taken == Bit(s.g1) { Step(g1, s.k, taken); }
          } else {
            assert taken == Bit(s.bim);
            Step(bim, s.i, taken);
          }
        }
      } else {
        Step(bim, s.i, taken);
        Step(g0, s.j, taken);
        Step(g1, s.k, taken);
      }
    }

    method Shift(tid: nat, taken: bool)
      requires Valid() && tid < bimReg.Length
      modifies bimReg, g0Reg, g1Reg, metaReg
      ensures Valid() && RegistersOf(tid) == Shifted(old(RegistersOf(tid)), taken)
      ensures forall t :: 0 <= t < bimReg.Length && t != tid ==> RegistersOf(t) == old(RegistersOf(t))
    {
      var reg := (2 * bimReg[tid] + Bit(taken)) % WORD;
      bimReg[tid] := reg;
      g0Reg[tid] := reg;
      g1Reg[tid] := reg;
      metaReg[tid] := reg;
      forall t | 0 <= t < bimReg.Length && t != tid ensures RegistersOf(t) == old(RegistersOf(t)) { }
    }

    method Update(s: Seen, taken: int, tid: nat)
      requires Valid() && Fits(View(), s) && Consistent(s) && tid < bimReg.Length
      modifies bim, g0, g1, meta, bimReg, g0Reg, g1Reg, metaReg
      ensures Valid() && View() == Trained(old(View()), s, taken)
      ensures RegistersOf(tid) == if immediate then old(RegistersOf(tid)) else Shifted(old(RegistersOf(tid)), taken != 0)
      ensures forall t :: 0 <= t < bimReg.Length && t != tid ==> RegistersOf(t) == old(RegistersOf(t))
    {
      TrainedSound(View(), s, taken);
      TrainMeta(s, taken);
      TrainDirections(s, taken);
      if !immediate { Shift(tid, taken != 0); }
    }
  }
}
