/** Doubly linked lists threaded through an array: prev and next hold slot indices, NONE for NULL. */
module LinkedOrder {

  const NONE := -1

  /** Place p of s moved to the front and replaced by x. */
  function ToFront<T>(s: seq<T>, p: nat, x: T): (r: seq<T>)
    requires p < |s|
    ensures |r| == |s| && r[0] == x
    ensures forall k :: 0 < k < |s| ==> r[k] == if k <= p then s[k - 1] else s[k]
  {
    [x] + s[..p] + s[p + 1..]
  }

  ghost function Preceding(o: seq<int>, k: int): int
    requires 0 <= k < |o|
  {
    if k == 0 then NONE else o[k - 1]
  }

  ghost function Following(o: seq<int>, k: int): int
    requires 0 <= k < |o|
  {
    if k == |o| - 1 then NONE else o[k + 1]
  }

  ghost predicate LinkedAt(prev: seq<int>, next: seq<int>, o: seq<int>, k: int)
    requires 0 <= k < |o| && 0 <= o[k] < |prev| && |next| == |prev|
  {
    prev[o[k]] == Preceding(o, k) && next[o[k]] == Following(o, k)
  }

  /** o lists the slots base .. base + n - 1 in the order of their links. */
  ghost predicate Linked(prev: seq<int>, next: seq<int>, o: seq<int>, base: int, n: int) {
    && |o| == n && 0 <= base && base + n <= |prev| && |next| == |prev|
    && (forall k :: 0 <= k < n ==> base <= o[k] < base + n)
    && (forall j, k :: 0 <= j < k < n ==> o[j] != o[k])
    && (forall i :: base <= i < base + n ==> i in o)
    && (forall k :: 0 <= k < n ==> LinkedAt(prev, next, o, k))
  }

  /** The slot at place p of the order moved to the front. */
  ghost function Front(o: seq<int>, p: nat): (r: seq<int>)
    requires p < |o|
    ensures |r| == |o|
  {
    ToFront(o, p, o[p])
  }

  lemma FrontOfFront(o: seq<int>)
    requires o != []
    ensures Front(o, 0) == o
  {
  }

  lemma FrontDistinct(o: seq<int>, p: nat)
    requires p < |o| && forall j, k :: 0 <= j < k < |o| ==> o[j] != o[k]
    ensures forall j, k :: 0 <= j < k < |o| ==> Front(o, p)[j] != Front(o, p)[k]
  {
  }

  lemma FrontCovers(o: seq<int>, p: nat, x: int)
    requires p < |o| && x in o
    ensures x in Front(o, p)
  {
    var k :| 0 <= k < |o| && o[k] == x;
    var r := Front(o, p);
    if k < p { assert r[k + 1] == x; } else if k == p { assert r[0] == x; } else { assert r[k] == x; }
  }

  /** The pointers after slot o[p] has been spliced out and put in front of the head. */
  ghost predicate Spliced(prev: seq<int>, next: seq<int>, prev': seq<int>, next': seq<int>, o: seq<int>, p: nat)
    requires 0 < p < |o| && |next| == |prev| && forall k :: 0 <= k < |o| ==> 0 <= o[k] < |prev|
  {
    && |prev'| == |prev| && |next'| == |next|
    && next' == next[o[p - 1] := next[o[p]]][o[p] := o[0]]
    && prev' == (if p + 1 < |o| then prev[o[p + 1] := o[p - 1]] else prev)[o[p] := NONE][o[0] := o[p]]
  }

  lemma SplicePrev(prev: seq<int>, next: seq<int>, prev': seq<int>, next': seq<int>, o: seq<int>, base: int, n: int,
                   p: nat, k: nat)
    requires Linked(prev, next, o, base, n) && 0 < p < n && Spliced(prev, next, prev', next', o, p) && k < n
    ensures prev'[Front(o, p)[k]] == Preceding(Front(o, p), k)
  {
    var r := Front(o, p);
    if k == 0 {
    } else if k == 1 {
      assert r[1] == o[0];
    } else if k <= p {
      assert LinkedAt(prev, next, o, k - 1);
      assert r[k] == o[k - 1] && r[k - 1] == o[k - 2];
    } else {
      assert LinkedAt(prev, next, o, k);
      assert r[k] == o[k] && r[k - 1] == if k == p + 1 then o[p - 1] else o[k - 1];
    }
  }

  lemma SpliceNext(prev: seq<int>, next: seq<int>, prev': seq<int>, next': seq<int>, o: seq<int>, base: int, n: int,
                   p: nat, k: nat)
    requires Linked(prev, next, o, base, n) && 0 < p < n && Spliced(prev, next, prev', next', o, p) && k < n
    ensures next'[Front(o, p)[k]] == Following(Front(o, p), k)
  {
    var r := Front(o, p);
    if k == 0 {
      assert r[1] == o[0];
    } else if k < p {
      assert LinkedAt(prev, next, o, k - 1);
      assert r[k] == o[k - 1] && r[k + 1] == o[k];
    } else if k == p {
      assert LinkedAt(prev, next, o, p);
      assert r[k] == o[p - 1] && (k + 1 < n ==> r[k + 1] == o[k + 1]);
    } else {
      assert LinkedAt(prev, next, o, k);
      assert r[k] == o[k] && (k + 1 < n ==> r[k + 1] == o[k + 1]);
    }
  }

  lemma SpliceLinked(prev: seq<int>, next: seq<int>, prev': seq<int>, next': seq<int>, o: seq<int>, base: int, n: int,
                     p: nat)
    requires Linked(prev, next, o, base, n) && 0 < p < n && Spliced(prev, next, prev', next', o, p)
    ensures Linked(prev', next', Front(o, p), base, n)
  {
    var r := Front(o, p);
    FrontDistinct(o, p);
    forall i | base <= i < base + n ensures i in r { FrontCovers(o, p, i); }
    forall k | 0 <= k < n ensures LinkedAt(prev', next', r, k) {
      SplicePrev(prev, next, prev', next', o, base, n, p, k);
      SpliceNext(prev, next, prev', next', o, base, n, p, k);
    }
  }

  /** Links elsewhere do not matter. */
  lemma LinkedFrame(prev: seq<int>, next: seq<int>, prev': seq<int>, next': seq<int>, o: seq<int>, base: int, n: int)
    requires Linked(prev, next, o, base, n) && |prev'| == |prev| && |next'| == |next|
    requires forall i :: base <= i < base + n ==> prev'[i] == prev[i] && next'[i] == next[i]
    ensures Linked(prev', next', o, base, n)
  {
    forall k | 0 <= k < n ensures LinkedAt(prev', next', o, k) {
      assert LinkedAt(prev, next, o, k);
    }
  }

  ghost function PlaceOf(o: seq<int>, x: int): (k: nat)
    requires x in o
    ensures k < |o| && o[k] == x
  {
    var k :| 0 <= k < |o| && o[k] == x;
    k
  }

  /** ---------------- moving to the back ---------------- */

  /** The slot at place p moved to the back. */
  ghost function Back(o: seq<int>, p: nat): (r: seq<int>)
    requires p < |o|
    ensures |r| == |o| && r[|o| - 1] == o[p]
    ensures forall k :: 0 <= k < |o| - 1 ==> r[k] == if k < p then o[k] else o[k + 1]
  {
    o[..p] + o[p + 1..] + [o[p]]
  }

  lemma BackDistinct(o: seq<int>, p: nat)
    requires p < |o| && forall j, k :: 0 <= j < k < |o| ==> o[j] != o[k]
    ensures forall j, k :: 0 <= j < k < |o| ==> Back(o, p)[j] != Back(o, p)[k]
  {
  }

  lemma BackCovers(o: seq<int>, p: nat, x: int)
    requires p < |o| && x in o
    ensures x in Back(o, p)
  {
    var k, r := PlaceOf(o, x), Back(o, p);
    if k < p { assert r[k] == x; } else if k == p { assert r[|o| - 1] == x; } else { assert r[k - 1] == x; }
  }

  /** The pointers after slot o[p] has been spliced out and put behind the tail. */
  ghost predicate SplicedBack(prev: seq<int>, next: seq<int>, prev': seq<int>, next': seq<int>, o: seq<int>, p: nat)
    requires p + 1 < |o| && |next| == |prev| && forall k :: 0 <= k < |o| ==> 0 <= o[k] < |prev|
  {
    && |prev'| == |prev| && |next'| == |next|
    && next' == (if p > 0 then next[o[p - 1] := o[p + 1]] else next)[o[p] := NONE][o[|o| - 1] := o[p]]
    && prev' == prev[o[p + 1] := prev[o[p]]][o[p] := o[|o| - 1]]
  }

  lemma SpliceBackAt(prev: seq<int>, next: seq<int>, prev': seq<int>, next': seq<int>, o: seq<int>, base: int, n: int,
                     p: nat, k: nat)
    requires Linked(prev, next, o, base, n) && p + 1 < n && SplicedBack(prev, next, prev', next', o, p) && k < n
    ensures LinkedAt(prev', next', Back(o, p), k)
  {
    var r := Back(o, p);
    if k == n - 1 {
      assert r[n - 2] == o[n - 1];
    } else if k < p {
      assert LinkedAt(prev, next, o, k);
      assert r[k] == o[k] && (k > 0 ==> r[k - 1] == o[k - 1]);
      assert r[k + 1] == if k + 1 < p then o[k + 1] else o[p + 1];
    } else {
      assert LinkedAt(prev, next, o, k + 1) && LinkedAt(prev, next, o, p);
      assert r[k] == o[k + 1] && (k > p ==> r[k - 1] == o[k]) && (k == p && k > 0 ==> r[k - 1] == o[p - 1]);
      assert k + 1 < n - 1 ==> r[k + 1] == o[k + 2];
    }
  }

  lemma SpliceBackLinked(prev: seq<int>, next: seq<int>, prev': seq<int>, next': seq<int>, o: seq<int>, base: int, n: int,
                         p: nat)
    requires Linked(prev, next, o, base, n) && p + 1 < n && SplicedBack(prev, next, prev', next', o, p)
    ensures Linked(prev', next', Back(o, p), base, n)
  {
    var r := Back(o, p);
    BackDistinct(o, p);
    forall i | base <= i < base + n ensures i in r { BackCovers(o, p, i); }
    forall k | 0 <= k < n ensures LinkedAt(prev', next', r, k) {
      SpliceBackAt(prev, next, prev', next', o, base, n, p, k);
    }
  }
}
