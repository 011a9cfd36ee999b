/** The branch target buffer: an array of slots, `assoc` per set, whose prev/next links thread
    each set's slots from most to least recently taken. A link is a slot index, or NONE for NULL. */
module Btb {
  import opened LinkedOrder
  import opened LruHistory

  /** The entries of a set from most to least recently taken. */
  ghost function Along(entry: seq<Entry>, o: seq<int>): (l: seq<Entry>)
    requires forall k :: 0 <= k < |o| ==> 0 <= o[k] < |entry|
    ensures |l| == |o| && forall k :: 0 <= k < |o| ==> l[k] == entry[o[k]]
  {
    seq(|o|, k requires 0 <= k < |o| => entry[o[k]])
  }

  /** Two matching ways are two places of the list with the same key. */
  lemma TwoWaysFire(entry: seq<Entry>, prev: seq<int>, next: seq<int>, o: seq<int>, base: int, n: int, i: int, j: int)
    requires Linked(prev, next, o, base, n) && |entry| == |prev|
    requires base <= i < j < base + n && entry[i].key == entry[j].key
    ensures Fires(Along(entry, o), entry[i].key)
  {
    var a, b := PlaceOf(o, i), PlaceOf(o, j);
    var l := Along(entry, o);
    assert l[a].key == l[b].key;
    if a < b { assert l[a].key == entry[i].key && l[b].key == entry[i].key; }
  }

  /** At most one way matches: the place of that way is where the list finds the key. */
  lemma OneWayFound(entry: seq<Entry>, prev: seq<int>, next: seq<int>, o: seq<int>, base: int, n: int, k: Key, hit: int)
    requires Linked(prev, next, o, base, n) && |entry| == |prev|
    requires hit == NONE ==> forall i :: base <= i < base + n ==> entry[i].key != k
    requires hit != NONE ==> base <= hit < base + n && entry[hit].key == k
    requires hit != NONE ==> forall i :: base <= i < base + n && i != hit ==> entry[i].key != k
    ensures !Fires(Along(entry, o), k)
    ensures hit == NONE ==> IndexOf(Along(entry, o), k) == n
    ensures hit != NONE ==> IndexOf(Along(entry, o), k) < n && o[IndexOf(Along(entry, o), k)] == hit
  {
    var l := Along(entry, o);
    forall a | 0 <= a < n ensures l[a].key == k <==> o[a] == hit {
    }
    if hit != NONE { assert hit in o; }
  }

  lemma OnlyWay(prev: seq<int>, next: seq<int>, o: seq<int>, base: int)
    requires Linked(prev, next, o, base, 1)
    ensures o == [base] && Front(o, 0) == o
  {
  }

  /** Whichever matching way the lookup meets first, it carries the entry the list finds. */
  lemma MatchIsFound(entry: seq<Entry>, prev: seq<int>, next: seq<int>, o: seq<int>, base: int, n: int, k: Key, i: int)
    requires Linked(prev, next, o, base, n) && |entry| == |prev| && Distinct(Along(entry, o))
    requires base <= i < base + n && entry[i].key == k
    ensures IndexOf(Along(entry, o), k) < n && Along(entry, o)[IndexOf(Along(entry, o), k)] == entry[i]
  {
    var l, a := Along(entry, o), PlaceOf(o, i);
    assert l[a].key == k;
  }

  lemma MissIsAbsent(entry: seq<Entry>, prev: seq<int>, next: seq<int>, o: seq<int>, base: int, n: int, k: Key)
    requires Linked(prev, next, o, base, n) && |entry| == |prev|
    requires forall i :: base <= i < base + n ==> entry[i].key != k
    ensures IndexOf(Along(entry, o), k) == n
  {
  }

  /** The list after the chosen slot has been moved to the front and rewritten. */
  lemma TouchedList(entry: seq<Entry>, o: seq<int>, e: Taken, p: nat)
    requires |o| > 0 && forall k :: 0 <= k < |o| ==> 0 <= o[k] < |entry|
    requires forall j, k :: 0 <= j < k < |o| ==> o[j] != o[k]
    requires p == Chosen(Along(entry, o), e.key)
    ensures Along(entry[o[p] := Rewritten(entry[o[p]], e)], Front(o, p)) == Touched(Along(entry, o), e)
  {
    var l, r := Along(entry, o), Along(entry[o[p] := Rewritten(entry[o[p]], e)], Front(o, p));
    forall k | 0 <= k < |o| ensures r[k] == Touched(l, e)[k] {
      if k > 0 { assert Front(o, p)[k] == (if k <= p then o[k - 1] else o[k]) && Front(o, p)[k] != o[p]; }
    }
  }

  lemma SetsApart(s: nat, u: nat, assoc: nat)
    requires s < u
    ensures s * assoc + assoc <= u * assoc
  {
    var d := u - s - 1;
    assert u == s + 1 + d;
    assert u * assoc == s * assoc + assoc + d * assoc;
    assert d * assoc >= 0;
  }

  lemma SetWithin(s: nat, sets: nat, assoc: nat)
    requires s < sets
    ensures 0 <= s * assoc && s * assoc + assoc <= sets * assoc
  {
    SetsApart(s, sets, assoc);
  }

  lemma WayOf(s: nat, k: nat, assoc: nat)
    requires k < assoc
    ensures (s * assoc + k) % assoc == k
  {
    var x := s * assoc + k;
    var q, r := x / assoc, x % assoc;
    assert x == q * assoc + r;
    if q < s { SetsApart(q, s, assoc); } else if s < q { SetsApart(s, q, assoc); }
  }

  lemma NotLast(i: nat, sets: nat, assoc: nat)
    requires assoc > 0 && i < sets * assoc && i % assoc != assoc - 1
    ensures i + 1 < sets * assoc
  {
    if i + 1 == sets * assoc {
      assert i == (sets - 1) * assoc + (assoc - 1);
      WayOf(sets - 1, assoc - 1, assoc);
    }
  }

  /** With one way per set there is no next slot. */
  lemma OneWayChain(assoc: nat)
    ensures assoc == 1 ==> forall t: nat :: t % assoc == 0
  {
  }

  ghost predicate ChainedUp(prev: seq<int>, next: seq<int>, sets: nat, assoc: nat)
    requires assoc > 0
  {
    && |prev| == sets * assoc && |next| == sets * assoc
    && (forall t :: 0 <= t < |next| ==> next[t] == if t % assoc != assoc - 1 then t + 1 else NONE)
    && (forall t :: 0 <= t < |prev| ==> prev[t] == if 1 <= t && (t - 1) % assoc != assoc - 1 then t - 1 else NONE)
  }

  lemma InitialWay(prev: seq<int>, next: seq<int>, s: nat, sets: nat, assoc: nat, k: nat)
    requires assoc > 0 && ChainedUp(prev, next, sets, assoc) && s < sets && k < assoc
    requires s * assoc + k < |prev|
    ensures next[s * assoc + k] == if k == assoc - 1 then NONE else s * assoc + k + 1
    ensures prev[s * assoc + k] == if k == 0 then NONE else s * assoc + k - 1
  {
    WayOf(s, k, assoc);
    if k > 0 {
      WayOf(s, k - 1, assoc);
    } else if s > 0 {
      WayOf(s - 1, assoc - 1, assoc);
      assert s * assoc - 1 == (s - 1) * assoc + (assoc - 1);
    }
  }

  lemma InitialLinks(prev: seq<int>, next: seq<int>, o: seq<int>, s: nat, sets: nat, assoc: nat)
    requires assoc > 0 && ChainedUp(prev, next, sets, assoc) && s < sets
    requires |o| == assoc && forall k :: 0 <= k < assoc ==> o[k] == s * assoc + k
    ensures Linked(prev, next, o, s * assoc, assoc)
  {
    SetWithin(s, sets, assoc);
    forall k | 0 <= k < assoc ensures LinkedAt(prev, next, o, k) {
      InitialWay(prev, next, s, sets, assoc, k);
    }
    forall i | s * assoc <= i < s * assoc + assoc ensures i in o {
      assert o[i - s * assoc] == i;
    }
  }

  /** Threads every set's slots in the order of their indices. */
  method Chain(prev: array<int>, next: array<int>, sets: nat, assoc: nat)
    requires assoc > 0 && prev != next && prev.Length == sets * assoc && next.Length == sets * assoc
    requires forall t :: 0 <= t < sets * assoc ==> prev[t] == NONE && next[t] == NONE
    modifies prev, next
    ensures ChainedUp(prev[..], next[..], sets, assoc)
  {
    OneWayChain(assoc);
    if assoc > 1 {
      for i := 0 to sets * assoc
        invariant forall t :: 0 <= t < i ==> next[t] == if t % assoc != assoc - 1 then t + 1 else NONE
        invariant forall t :: 0 <= t < sets * assoc ==>
          prev[t] == if 1 <= t <= i && (t - 1) % assoc != assoc - 1 then t - 1 else NONE
      {
        if i % assoc != assoc - 1 { next[i] := i + 1; } else { next[i] := NONE; }
        if i % assoc != assoc - 1 {
          NotLast(i, sets, assoc);
          prev[i + 1] := i;
        }
      }
    }
  }

  /** A write into one set leaves the list of another alone. */
  lemma OtherList(entry: seq<Entry>, slot: int, x: Entry, prev: seq<int>, next: seq<int>, o: seq<int>,
                  s: nat, u: nat, assoc: nat)
    requires u != s && Linked(prev, next, o, u * assoc, assoc) && |entry| == |prev|
    requires s * assoc <= slot < s * assoc + assoc && 0 <= slot < |entry|
    ensures Along(entry[slot := x], o) == Along(entry, o)
  {
    if u < s { SetsApart(u, s, assoc); } else { SetsApart(s, u, assoc); }
  }

  class Table {
    const sets: nat
    const assoc: nat
    const entry: array<Entry>
    const prev: array<int>
    const next: array<int>
    /** For each set its slots from most to least recently taken. */
    ghost var order: seq<seq<int>>
    /** The updates made so far. */
    ghost var history: History

    ghost predicate Shape() {
      && sets > 0 && assoc > 0 && prev != next
      && entry.Length == sets * assoc && prev.Length == sets * assoc && next.Length == sets * assoc
    }

    ghost predicate Valid()
      reads this, prev, next
    {
      Shape() && |order| == sets
      && forall s :: 0 <= s < sets ==> Linked(prev[..], next[..], order[s], s * assoc, assoc)
    }

    ghost function List(s: nat): (l: seq<Entry>)
      requires Valid() && s < sets
      reads this, entry, prev, next
      ensures |l| == assoc
    {
      SetWithin(s, sets, assoc);
      Along(entry[..], order[s])
    }

    /** Every set holds what its own part of the history leaves in it. */
    ghost predicate FollowsHistory()
      requires Valid()
      reads this, entry, prev, next
    {
      forall s :: 0 <= s < sets ==>
        Quiet(assoc, Only(history, sets, s)) && List(s) == ListAfter(assoc, Only(history, sets, s))
    }

    constructor (sets: nat, assoc: nat)
      requires sets > 0 && assoc > 0
      ensures Valid() && fresh(entry) && fresh(prev) && fresh(next)
      ensures this.sets == sets && this.assoc == assoc
      ensures history == [] && FollowsHistory()
    {
      this.sets, this.assoc := sets, assoc;
      var prev, next := new int[sets * assoc](_ => NONE), new int[sets * assoc](_ => NONE);
      entry := new Entry[sets * assoc](_ => EMPTY);
      this.prev, this.next := prev, next;
      history := [];
      order := seq(sets, (s: int) => seq(assoc, (k: int) => s * assoc + k));
      new;
      Chain(prev, next, sets, assoc);
      forall s | 0 <= s < sets ensures Linked(prev[..], next[..], order[s], s * assoc, assoc) {
        SetWithin(s, sets, assoc);
        InitialLinks(prev[..], next[..], order[s], s, sets, assoc);
      }
    }

    /** The scan of one set: the matching way, the head and the tail of its list.
        Its assertions are the source's own; `ok` is false where the one on double matches fails. */
    method Scan(s: nat, key: Key) returns (ok: bool, hit: int, head: int, tail: int)
      requires Valid() && s < sets && assoc > 1
      ensures ok <==> !Fires(List(s), key)
      ensures ok ==> head == order[s][0] && tail == order[s][assoc - 1]
      ensures ok && hit == NONE ==> IndexOf(List(s), key) == assoc
      ensures ok && hit != NONE ==> IndexOf(List(s), key) < assoc && order[s][IndexOf(List(s), key)] == hit
    {
      SetWithin(s, sets, assoc);
      var base := s * assoc;
      ghost var o := order[s];
      ok, hit, head, tail := true, NONE, NONE, NONE;
      for i := base to base + assoc
        invariant hit == NONE ==> forall t :: base <= t < i ==> entry[t].key != key
        invariant hit != NONE ==> base <= hit < i && entry[hit].key == key
        invariant hit != NONE ==> forall t :: base <= t < i && t != hit ==> entry[t].key != key
        invariant head == if o[0] < i then o[0] else NONE
        invariant tail == if o[assoc - 1] < i then o[assoc - 1] else NONE
      {
        if entry[i].key == key {
          if hit != NONE {
            TwoWaysFire(entry[..], prev[..], next[..], o, base, assoc, hit, i);
            ok := false;
            return;
          }
          hit := i;
        }
        ghost var k := PlaceOf(o, i);
        assert LinkedAt(prev[..], next[..], o, k);
        assert prev[i] != next[i];
        if prev[i] == NONE {
          assert head == NONE;
          head := i;
        }
        if next[i] == NONE {
          assert tail == NONE;
          tail := i;
        }
      }
      OneWayFound(entry[..], prev[..], next[..], o, base, assoc, key, hit);
      assert head != NONE && tail != NONE;
    }

    /** Moves slot x, at place p of set s, to the front of its list. */
    method MoveToFront(s: nat, x: int, head: int, ghost p: nat)
      requires Valid() && s < sets && 0 < p < assoc && order[s][p] == x && head == order[s][0]
      modifies prev, next, this`order
      ensures Valid() && order == old(order)[s := Front(old(order)[s], p)]
    {
      SetWithin(s, sets, assoc);
      ghost var o, prev0, next0 := order[s], prev[..], next[..];
      assert LinkedAt(prev0, next0, o, p);
      if prev[x] != NONE { next[prev[x]] := next[x]; }
      if next[x] != NONE { prev[next[x]] := prev[x]; }
      next[x] := head;
      prev[x] := NONE;
      prev[head] := x;
      assert Spliced(prev0, next0, prev[..], next[..], o, p);
      SpliceLinked(prev0, next0, prev[..], next[..], o, s * assoc, assoc, p);
      order := order[s := Front(o, p)];
      forall u | 0 <= u < sets && u != s ensures Linked(prev[..], next[..], order[u], u * assoc, assoc) {
        if u < s { SetsApart(u, s, assoc); } else { SetsApart(s, u, assoc); }
        LinkedFrame(prev0, next0, prev[..], next[..], order[u], u * assoc, assoc);
      }
    }

    /** The slot an update goes to, made the front of its list: the match, or else the tail. */
    method Select(s: nat, key: Key) returns (ok: bool, slot: int, ghost p: nat)
      requires Valid() && s < sets
      modifies prev, next, this`order
      ensures Valid()
      ensures ok <==> !Fires(old(List(s)), key)
      ensures p < assoc && (ok ==> p == Chosen(old(List(s)), key))
      ensures ok ==> slot == old(order)[s][p] && order == old(order)[s := Front(old(order)[s], p)]
      ensures !ok ==> order == old(order)
    {
      ghost var o, l := order[s], List(s);
      SetWithin(s, sets, assoc);
      ok, p := true, 0;
      if assoc > 1 {
        var hit, head, tail;
        ok, hit, head, tail := Scan(s, key);
        slot := if hit != NONE then hit else tail;
        if !ok { return; }
        p := if hit != NONE then IndexOf(l, key) else assoc - 1;
        FrontOfFront(o);
        if slot != head { MoveToFront(s, slot, head, p); }
      } else {
        slot := s * assoc;
        OnlyWay(prev[..], next[..], o, slot);
      }
    }

    /** Selects the slot of a taken branch and writes it. */
    method Enter(e: Taken) returns (ok: bool)
      requires Valid()
      modifies entry, prev, next, this`order
      ensures Valid()
      ensures ok <==> !Fires(old(List(SetIndex(e.key, sets))), e.key)
      ensures forall s :: 0 <= s < sets ==>
        List(s) == if ok && s == SetIndex(e.key, sets) then Touched(old(List(s)), e) else old(List(s))
    {
      var s := SetIndex(e.key, sets);
      SetWithin(s, sets, assoc);
      ghost var order0, entry0 := order, entry[..];
      var slot;
      ghost var p;
      ok, slot, p := Select(s, e.key);
      if !ok { return; }
      if entry[slot].key == e.key {
        if !e.correct { entry[slot] := entry[slot].(target := e.target); }
      } else {
        entry[slot] := Entry(e.key, e.op, e.target);
      }
      assert entry[..] == entry0[slot := Rewritten(entry0[slot], e)];
      TouchedList(entry0, order0[s], e, p);
      forall u | 0 <= u < sets && u != s ensures List(u) == old(List(u)) {
        SetWithin(u, sets, assoc);
        OtherList(entry0, slot, Rewritten(entry0[slot], e), prev[..], next[..], order[u], s, u, assoc);
      }
    }

    /** The update for a taken branch. `ok` is false where the assertion on double matches aborts. */
    method Update(e: Taken) returns (ok: bool)
      requires Valid()
      modifies entry, prev, next, this`order, this`history
      ensures Valid()
      ensures old(FollowsHistory()) ==> FollowsHistory()
      ensures history == if ok then old(history) + [e] else old(history)
      ensures ok <==> !Fires(old(List(SetIndex(e.key, sets))), e.key)
      ensures forall s :: 0 <= s < sets ==>
        List(s) == if ok && s == SetIndex(e.key, sets) then Touched(old(List(s)), e) else old(List(s))
    {
      ok := Enter(e);
      if ok {
        history := history + [e];
        forall u | 0 <= u < sets && old(FollowsHistory())
          ensures Quiet(assoc, Only(history, sets, u)) && List(u) == ListAfter(assoc, Only(history, sets, u))
        {
          OnlyStep(old(history), e, sets, u);
          ListStep(assoc, Only(old(history), sets, u), e);
        }
      }
    }

    /** The lookup scan: the stored target, or nothing on a miss. */
    method Lookup(key: Key) returns (found: bool, target: nat)
      requires Valid() && Distinct(List(SetIndex(key, sets)))
      ensures var l := List(SetIndex(key, sets)); var p := IndexOf(l, key);
              found == (p < assoc) && (found ==> target == l[p].target)
    {
      var s := SetIndex(key, sets);
      SetWithin(s, sets, assoc);
      ghost var o, l := order[s], List(s);
      var base := s * assoc;
      for i := base to base + assoc
        invariant forall t :: base <= t < i ==> entry[t].key != key
      {
        if entry[i].key == key {
          MatchIsFound(entry[..], prev[..], next[..], o, base, assoc, key, i);
          return true, entry[i].target;
        }
      }
      MissIsAbsent(entry[..], prev[..], next[..], o, base, assoc, key);
      return false, 0;
    }

    /** What a lookup finds, said of the history alone: a branch is found exactly when fewer than
        assoc other branches of its set were taken since it last was, and with its last target. */
    method LookupInHistory(key: Key) returns (found: bool, target: nat)
      requires Valid() && FollowsHistory() && key != BLANK
      ensures var h := Only(history, sets, SetIndex(key, sets));
              && found == (key in Keys(h) && |Since(h, key)| < assoc)
              && (found && Honest(assoc, h) ==> target == LastTarget(h, key))
    {
      ghost var h := Only(history, sets, SetIndex(key, sets));
      NoDuplicateKeys(assoc, h);
      LookupAfter(assoc, h, key);
      found, target := Lookup(key);
    }
  }
}
