/** A set of directory entries that share a fixed number of sharer vectors: how the vectors are handed
    out, how the one to take over is found, and the exchange. */
module DirectorySet {
  import opened LinkedOrder
  import opened Protocol
  import opened WayList

  /** The entries that own a vector. */
  ghost function VectorEntries(es: seq<Entry>): (s: set<int>)
    ensures forall i :: i in s <==> 0 <= i < |es| && !es[i].ptrEn
  {
    set i | 0 <= i < |es| && !es[i].ptrEn
  }

  /** An entry whose vector may be taken: stable, and a vector entry. */
  predicate MayGive(e: Entry) { !e.ptrEn && e.stable }

  /** The scan wants an entry with fewer than two sharers best: nothing is lost by making it a pointer. */
  predicate GivesFreely(e: Entry) { MayGive(e) && |e.sharers| < 2 }

  /** Place k of the scan, which goes from the tail of the way list to its head. */
  ghost function FromTail(o: seq<int>, k: nat): int
    requires k < |o|
  {
    o[|o| - 1 - k]
  }

  /** The place where the scan of vector_available_func ends up: the first entry with fewer than two
      sharers whose vector may be taken, else the first whose vector may be taken. */
  ghost predicate Picks(es: seq<Entry>, o: seq<int>, k: nat)
    requires Permutes(o, |es|)
  {
    && k < |o| && MayGive(es[FromTail(o, k)])
    && if GivesFreely(es[FromTail(o, k)]) then forall j: nat :: j < k ==> !GivesFreely(es[FromTail(o, j)])
       else (forall j: nat :: j < |o| ==> !GivesFreely(es[FromTail(o, j)]))
            && (forall j: nat :: j < k ==> !MayGive(es[FromTail(o, j)]))
  }

  /** The scan so far, after j entries: nothing found yet, or the entry at place k. */
  ghost predicate Scanned(es: seq<Entry>, o: seq<int>, j: nat, found: bool, k: nat)
    requires Permutes(o, |es|) && j <= |es|
  {
    if !found then forall l: nat :: l < j ==> !MayGive(es[FromTail(o, l)])
    else
      && k < j && MayGive(es[FromTail(o, k)])
      && (forall l: nat :: l < k ==> !MayGive(es[FromTail(o, l)]))
      && (forall l: nat :: l < j ==> !GivesFreely(es[FromTail(o, l)]))
  }

  /** One more entry: either the scan stops there with its pick, or it goes on. */
  lemma ScanStep(es: seq<Entry>, o: seq<int>, j: nat, found: bool, k: nat)
    requires Permutes(o, |es|) && j < |es| && Scanned(es, o, j, found, k)
    ensures GivesFreely(es[FromTail(o, j)]) ==> Picks(es, o, j) && exists i :: 0 <= i < |es| && MayGive(es[i])
    ensures !MayGive(es[FromTail(o, j)]) ==> Scanned(es, o, j + 1, found, k)
    ensures found && !GivesFreely(es[FromTail(o, j)]) ==> Scanned(es, o, j + 1, found, k)
    ensures !found && MayGive(es[FromTail(o, j)]) && !GivesFreely(es[FromTail(o, j)]) ==> Scanned(es, o, j + 1, true, j)
  {
  }

  lemma ScanEnd(es: seq<Entry>, o: seq<int>, found: bool, k: nat)
    requires Permutes(o, |es|) && Scanned(es, o, |es|, found, k)
    ensures found <==> exists i :: 0 <= i < |es| && MayGive(es[i])
    ensures found ==> Picks(es, o, k)
  {
    if !found { NobodyGives(es, o); }
  }

  /** ---------------- the exchange ---------------- */

  /** Entry m takes the vector of entry v. */
  ghost function Exchanged(es: seq<Entry>, m: nat, v: nat, n: nat, threshold: nat): seq<Entry>
    requires m < |es| && v < |es|
  {
    es[m := es[m].(ptrEn := false)][v := GiveVector(es[v], n, threshold).0]
  }

  lemma CardSwap(s: set<int>, t: set<int>, a: int, b: int)
    requires a in s && b !in s && t == s - {a} + {b}
    ensures |t| == |s|
  {
    assert |s - {a}| == |s| - 1;
  }

  /** An exchange that does not stop the simulation keeps the number of vectors. */
  lemma ExchangeConserves(es: seq<Entry>, m: nat, v: nat, n: nat, threshold: nat)
    requires m < |es| && v < |es| && es[m].ptrEn && MayGive(es[v])
    requires GiveVector(es[v], n, threshold).1 != GivePanic
    ensures |VectorEntries(Exchanged(es, m, v, n, threshold))| == |VectorEntries(es)|
  {
    var es' := Exchanged(es, m, v, n, threshold);
    assert GiveVector(es[v], n, threshold).0.ptrEn;
    CardSwap(VectorEntries(es), VectorEntries(es'), v, m);
  }

  /** No other handler of an entry touches its vector ... */
  lemma AcksKeepVector(e: Entry, req: Request, env: Env, from: nat, hit: bool, wants: bool, left: nat)
    ensures TakeReadAck(e, req, from, hit, env).0.ptrEn == e.ptrEn
    ensures TakeSharerAck(e, req, from, hit, env).0.ptrEn == e.ptrEn
    ensures TakeWriteAck(e, req, from, hit, wants, left, env).0.ptrEn == e.ptrEn
    ensures TakeDegradeAck(e, left).0.ptrEn == e.ptrEn
  {
  }

  lemma WritesKeepVector(e: Entry, req: Request, env: Env, n: nat, from: nat, dirty: bool)
    ensures ServeWrite(e, req, env, n).0.ptrEn == e.ptrEn && TakeBack(e, from, dirty, n).0.ptrEn == e.ptrEn
  {
  }

  /** ... but the read that probes an owner, which takes one exactly when it has none. */
  lemma ReadTakesVectorExactly(e: Entry, req: Request, env: Env)
    ensures ServeRead(e, req, env).0.ptrEn != e.ptrEn <==> e.ptrEn && ServeRead(e, req, env).1.ProbeOwner?
    ensures ServeRead(e, req, env).0.ptrEn != e.ptrEn ==> env.vectorFree
  {
    if e.stable { CasesTakeVectorExactly(ForgetRequester(e, req.tid), req, env); }
  }

  lemma CasesTakeVectorExactly(e: Entry, req: Request, env: Env)
    ensures ReadCases(e, req, env).0.ptrEn != e.ptrEn <==> e.ptrEn && ReadCases(e, req, env).1.ProbeOwner?
    ensures ReadCases(e, req, env).0.ptrEn != e.ptrEn ==> env.vectorFree
  {
  }

  /** What the giver becomes, in every case: a pointer to its only sharer, an entry that stands for
      everybody, or an entry that invalidates all its sharers but one before it is stable again. */
  lemma GiverEndsAsPointer(e: Entry, n: nat, threshold: nat)
    requires MayGive(e) && e.sharers <= AllThreads(n)
    ensures var (e', give) := GiveVector(e, n, threshold);
            match give
            case BecamePointer => e'.ptrEn && e'.stable && e'.sharers == e.sharers && |e'.sharers| <= 1
            case BecameAllShared => e'.ptrEn && e'.stable && e'.allShared && e'.sharers == AllThreads(n) && e.sharers <= e'.sharers
            case Degrade(targets, survivor) =>
              e'.ptrEn && !e'.stable && e'.sharers == {survivor} && survivor in e.sharers && targets == e.sharers - {survivor}
            case GivePanic => e' == e
  {
  }

  ghost predicate AllWithin(es: seq<Entry>, n: nat) {
    forall i, t :: 0 <= i < |es| && t in es[i].sharers ==> t < n
  }

  /** ---------------- the code ---------------- */

  /** The part of the exchange that turns the giver into a pointer. */
  method GiveUp(e: Entry, n: nat, threshold: nat) returns (r: Entry, give: Give)
    requires forall t :: t in e.sharers ==> t < n
    ensures (r, give) == GiveVector(e, n, threshold)
  {
    var sharerNum := |e.sharers|;
    r, give := e, GivePanic;
    if sharerNum < 2 {
      FewSharers(e.sharers);
      if e.allShared || e.blkState == Shared { return; }
      return e.(ptrEn := true), BecamePointer;
    }
    SeveralSharers(e.sharers);
    var all := EveryThread(n);
    if sharerNum == n {
      if e.sharers != all || e.blkState != Shared { return; }
      return e.(ptrEn := true, allShared := true), BecameAllShared;
    }
    if sharerNum > threshold {
      if e.blkState != Shared { return; }
      return e.(ptrEn := true, allShared := true, sharers := all), BecameAllShared;
    }
    if e.allShared { return; }
    var survivor, targets := FirstAndOthers(e.sharers, n);
    if survivor == -1 { return; }
    r := e.(ptrEn := true, stable := false, blkState := Exclusive, sharers := {survivor});
    give := Degrade(targets, survivor);
  }

  /** The loop that spares the first sharer and invalidates the others. */
  method FirstAndOthers(sharers: set<nat>, n: nat) returns (survivor: int, targets: set<nat>)
    requires forall t :: t in sharers ==> t < n
    ensures survivor == Least(sharers, n) && (survivor >= 0 ==> targets == sharers - {survivor})
  {
    survivor, targets := -1, {};
    for t := 0 to n
      invariant survivor == Least(sharers, t) && survivor < t
      invariant survivor == -1 ==> targets == {}
      invariant survivor >= 0 ==> forall u: nat :: u in targets <==> u < t && u in sharers && u != survivor
    {
      if t in sharers {
        if survivor == -1 { survivor := t; } else { targets := targets + {t}; }
      }
    }
  }

  lemma FewSharers(s: set<nat>)
    requires |s| < 2
    ensures !Survey(s).Several?
  {
  }

  lemma SeveralSharers(s: set<nat>)
    requires |s| >= 2
    ensures Survey(s).Several?
  {
  }

  method EveryThread(n: nat) returns (all: set<nat>)
    ensures all == AllThreads(n)
  {
    all := {};
    for t := 0 to n
      invariant all == AllThreads(t)
    {
      all := all + {t};
    }
  }

  /** The first k entries from the tail have been dealt with: those in `dealt` got a vector. */
  ghost predicate Dealt(es: seq<Entry>, o: seq<int>, dealt: set<int>, k: nat)
    requires Permutes(o, |es|) && k <= |es|
  {
    && (forall j: nat :: j < k ==> es[FromTail(o, j)].ptrEn == (FromTail(o, j) !in dealt))
    && (forall i :: i in dealt ==> exists j: nat :: j < k && FromTail(o, j) == i)
  }

  /** Nothing but who has a vector has changed. */
  ghost predicate OnlyPointers(es: seq<Entry>, es': seq<Entry>) {
    |es'| == |es| && forall i :: 0 <= i < |es| ==> es'[i] == es[i].(ptrEn := es'[i].ptrEn)
  }

  lemma DealStep(es: seq<Entry>, es': seq<Entry>, o: seq<int>, dealt: set<int>, k: nat, give: bool)
    requires Permutes(o, |es|) && k < |es| && Dealt(es, o, dealt, k)
    requires var b := FromTail(o, k); es' == es[b := es[b].(ptrEn := !give)]
    ensures FromTail(o, k) !in dealt
    ensures Dealt(es', o, if give then dealt + {FromTail(o, k)} else dealt, k + 1)
  {
    var b := FromTail(o, k);
    forall j: nat | j < k ensures FromTail(o, j) != b {
    }
    var dealt' := if give then dealt + {b} else dealt;
    forall i | i in dealt' ensures exists j: nat :: j < k + 1 && FromTail(o, j) == i {
      if i == b {
        assert FromTail(o, k) == i;
      } else {
        var j: nat :| j < k && FromTail(o, j) == i;
        assert j < k + 1;
      }
    }
  }

  class EntrySet {
    const n: nat
    const entries: array<Entry>
    const ways: Ways

    ghost predicate Valid()
      reads this, entries, ways, ways.prev, ways.next
    {
      n > 0 && entries.Length == n && ways.n == n && ways.Valid()
    }

    constructor (n: nat)
      requires n > 0
      ensures Valid() && this.n == n && fresh(entries) && fresh(ways)
      ensures forall i :: 0 <= i < n ==> entries[i] == Entry({}, true, Invalid, -1, false, false)
    {
      this.n := n;
      entries := new Entry[n](_ => Entry({}, true, Invalid, -1, false, false));
      ways := new Ways(n);
    }

    /** At start the vectorNum entries nearest the tail get the vectors. */
    method DealVectors(vectorNum: nat)
      requires Valid() && vectorNum <= n
      modifies entries
      ensures Valid() && |VectorEntries(entries[..])| == vectorNum
      ensures OnlyPointers(old(entries[..]), entries[..])
    {
      ghost var o := ways.order;
      LinkedPermutes(ways.prev[..], ways.next[..], o, n);
      ghost var dealt: set<int> := {};
      var blk, bindex := ways.tail, 0;
      while blk != NONE
        invariant bindex <= n && blk == (if bindex < n then FromTail(o, bindex) else NONE)
        invariant Dealt(entries[..], o, dealt, bindex) && |dealt| == if bindex < vectorNum then bindex else vectorNum
        invariant OnlyPointers(old(entries[..]), entries[..])
        decreases n - bindex
      {
        ghost var es := entries[..];
        entries[blk] := entries[blk].(ptrEn := bindex >= vectorNum);
        DealStep(es, entries[..], o, dealt, bindex, bindex < vectorNum);
        if bindex < vectorNum { dealt := dealt + {blk}; }
        BeforeInList(ways, bindex);
        blk := ways.prev[blk];
        bindex := bindex + 1;
      }
      DealtExactly(entries[..], o, dealt);
    }

    /** vector_available_func */
    method VectorAvailable() returns (found: bool, blk: int, ghost k: nat)
      requires Valid()
      ensures Permutes(ways.order, n)
      ensures found <==> exists i :: 0 <= i < n && MayGive(entries[..][i])
      ensures found ==> k < n && blk == FromTail(ways.order, k) && Picks(entries[..], ways.order, k)
    {
      ghost var o, es := ways.order, entries[..];
      LinkedPermutes(ways.prev[..], ways.next[..], o, n);
      found, blk, k := false, NONE, 0;
      ghost var j := 0;
      var temp := ways.tail;
      while temp != NONE
        invariant j <= n && temp == (if j < n then FromTail(o, j) else NONE)
        invariant Scanned(es, o, j, found, k) && (found ==> blk == FromTail(o, k))
        decreases n - j
      {
        ScanStep(es, o, j, found, k);
        if !entries[temp].ptrEn && entries[temp].stable {
          if !found {
            blk, found, k := temp, true, j;
            assert MayGive(entries[..][blk]);
            if |entries[temp].sharers| < 2 { return; }
          } else if |entries[temp].sharers| < 2 {
            blk, k := temp, j;
            assert MayGive(entries[..][blk]);
            return;
          }
        }
        BeforeInList(ways, j);
        temp := ways.prev[temp];
        j := j + 1;
      }
      ScanEnd(es, o, found, k);
      assert entries[..] == es;
    }

    /** An entry without a vector takes one from the set, if one is free. Out of the panics of the
        exchange, which GiveVector lists, the number of vectors is conserved. */
    method TakeVector(m: nat, threads: nat, threshold: nat) returns (found: bool, give: Give)
      requires Valid() && m < n && entries[m].ptrEn && AllWithin(entries[..], threads)
      modifies entries
      ensures Valid()
      ensures found <==> exists i :: 0 <= i < n && MayGive(old(entries[..])[i])
      ensures !found ==> entries[..] == old(entries[..])
      ensures found && give != GivePanic ==> !entries[m].ptrEn && |VectorEntries(entries[..])| == |VectorEntries(old(entries[..]))|
    {
      ghost var es := entries[..];
      var v;
      ghost var k;
      found, v, k := VectorAvailable();
      assert entries[..] == es;
      give := GivePanic;
      if found {
        var giver;
        giver, give := GiveUp(entries[v], threads, threshold);
        if give != GivePanic { ExchangeConserves(es, m, v, threads, threshold); }
        entries[m] := entries[m].(ptrEn := false);
        entries[v] := giver;
        assert entries[..] == Exchanged(es, m, v, threads, threshold);
      }
    }
  }

  lemma BeforeInList(ways: Ways, k: nat)
    requires ways.Valid() && k < ways.n
    ensures 0 <= FromTail(ways.order, k) < ways.n
    ensures ways.prev[FromTail(ways.order, k)] == if k + 1 < ways.n then FromTail(ways.order, k + 1) else NONE
  {
    assert LinkedAt(ways.prev[..], ways.next[..], ways.order, ways.n - 1 - k);
  }

  lemma DealtExactly(es: seq<Entry>, o: seq<int>, dealt: set<int>)
    requires Permutes(o, |es|) && Dealt(es, o, dealt, |es|)
    ensures VectorEntries(es) == dealt
  {
    forall i | 0 <= i < |es| ensures es[i].ptrEn == (i !in dealt) {
      assert FromTail(o, |es| - 1 - PlaceOf(o, i)) == i;
    }
  }

  lemma NobodyGives(es: seq<Entry>, o: seq<int>)
    requires Permutes(o, |es|) && forall k: nat :: k < |es| ==> !MayGive(es[FromTail(o, k)])
    ensures forall i :: 0 <= i < |es| ==> !MayGive(es[i])
  {
    forall i | 0 <= i < |es| ensures !MayGive(es[i]) {
      assert FromTail(o, |es| - 1 - PlaceOf(o, i)) == i;
    }
  }
}
