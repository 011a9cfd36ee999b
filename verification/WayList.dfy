/** The ordered way chain of a cache set, and what makes its tail the least recently used block. */
module WayList {
  import opened LinkedOrder

  datatype Where = Head | Tail

  /** ---------------- recency ---------------- */

  /** The position after the last use of a block in the history, 0 for none. */
  ghost function LastUse(h: seq<int>, b: int): nat {
    if h == [] then 0 else if h[|h| - 1] == b then |h| else LastUse(h[..|h| - 1], b)
  }

  lemma {:induction false} LastUseBound(h: seq<int>, b: int)
    ensures LastUse(h, b) <= |h|
  {
    if h != [] && h[|h| - 1] != b { LastUseBound(h[..|h| - 1], b); }
  }

  ghost predicate Permutes(o: seq<int>, n: nat) {
    && |o| == n && (forall k :: 0 <= k < n ==> 0 <= o[k] < n)
    && (forall j, k :: 0 <= j < k < n ==> o[j] != o[k])
    && (forall b :: 0 <= b < n ==> b in o)
  }

  /** Earlier in the list means used later, or neither used at all. */
  ghost predicate ByRecency(o: seq<int>, h: seq<int>) {
    forall j, k :: 0 <= j < k < |o| ==> LastUse(h, o[j]) > LastUse(h, o[k]) || LastUse(h, o[j]) == LastUse(h, o[k]) == 0
  }

  /** The list after a history of uses, each moving its block to the front. */
  ghost function OrderAfter(o: seq<int>, h: seq<int>): (r: seq<int>)
    ensures |r| == |o|
  {
    if h == [] then o
    else
      var before, b := OrderAfter(o, h[..|h| - 1]), h[|h| - 1];
      if b in before then Front(before, PlaceOf(before, b)) else before
  }

  ghost predicate UsesBlocks(h: seq<int>, n: nat) { forall i :: 0 <= i < |h| ==> 0 <= h[i] < n }

  lemma FrontPermutes(o: seq<int>, n: nat, p: nat)
    requires Permutes(o, n) && p < n
    ensures Permutes(Front(o, p), n)
  {
    FrontDistinct(o, p);
    forall b | 0 <= b < n ensures b in Front(o, p) { FrontCovers(o, p, b); }
  }

  lemma FrontRecency(o: seq<int>, n: nat, h: seq<int>, p: nat)
    requires Permutes(o, n) && ByRecency(o, h) && p < n
    ensures ByRecency(Front(o, p), h + [o[p]])
  {
    var r, h' := Front(o, p), h + [o[p]];
    assert h'[..|h|] == h;
    forall j, k | 0 <= j < k < n
      ensures LastUse(h', r[j]) > LastUse(h', r[k]) || LastUse(h', r[j]) == LastUse(h', r[k]) == 0
    {
      assert r[k] == (if k <= p then o[k - 1] else o[k]) && r[k] != o[p];
      LastUseBound(h, r[k]);
      if j > 0 {
        assert r[j] == (if j <= p then o[j - 1] else o[j]) && r[j] != o[p];
      }
    }
  }

  lemma UseKeepsRecency(o: seq<int>, n: nat, h: seq<int>, b: int)
    requires Permutes(o, n) && ByRecency(o, h) && 0 <= b < n
    ensures b in o && Permutes(Front(o, PlaceOf(o, b)), n) && ByRecency(Front(o, PlaceOf(o, b)), h + [b])
  {
    FrontPermutes(o, n, PlaceOf(o, b));
    FrontRecency(o, n, h, PlaceOf(o, b));
  }

  /** After any history of uses the list is the blocks by recency. */
  lemma {:induction false} OrderIsByRecency(o: seq<int>, n: nat, h: seq<int>)
    requires Permutes(o, n) && UsesBlocks(h, n)
    ensures Permutes(OrderAfter(o, h), n) && ByRecency(OrderAfter(o, h), h)
  {
    if h != [] {
      var g, b := h[..|h| - 1], h[|h| - 1];
      OrderIsByRecency(o, n, g);
      UseKeepsRecency(OrderAfter(o, g), n, g, b);
      assert g + [b] == h;
    }
  }

  /** So the block at the tail, the victim, was used before every other one, if it was used at all. */
  lemma VictimIsLeastRecent(o: seq<int>, n: nat, h: seq<int>, b: int)
    requires n > 0 && Permutes(o, n) && UsesBlocks(h, n) && 0 <= b < n
    ensures var victim := OrderAfter(o, h)[n - 1];
            b == victim || LastUse(h, victim) < LastUse(h, b) || LastUse(h, victim) == LastUse(h, b) == 0
  {
    OrderIsByRecency(o, n, h);
    var r := OrderAfter(o, h);
    var k := PlaceOf(r, b);
  }

  lemma VictimBeforeAll(o: seq<int>, n: nat, h: seq<int>)
    requires n > 0 && Permutes(o, n) && UsesBlocks(h, n)
    ensures var victim := OrderAfter(o, h)[n - 1];
            && 0 <= victim < n
            && forall b :: 0 <= b < n && b != victim ==>
                 LastUse(h, victim) < LastUse(h, b) || LastUse(h, victim) == LastUse(h, b) == 0
  {
    OrderIsByRecency(o, n, h);
    var victim := OrderAfter(o, h)[n - 1];
    forall b | 0 <= b < n && b != victim
      ensures LastUse(h, victim) < LastUse(h, b) || LastUse(h, victim) == LastUse(h, b) == 0
    {
      VictimIsLeastRecent(o, n, h, b);
    }
  }

  lemma LinkedPermutes(prev: seq<int>, next: seq<int>, o: seq<int>, n: nat)
    requires Linked(prev, next, o, 0, n)
    ensures Permutes(o, n)
  {
  }

  /** What the two ends of the list say of a block. */
  lemma AtTheEnds(prev: seq<int>, next: seq<int>, o: seq<int>, n: nat, b: int)
    requires n > 0 && Linked(prev, next, o, 0, n) && 0 <= b < n
    ensures b in o
    ensures prev[b] == NONE <==> PlaceOf(o, b) == 0
    ensures next[b] == NONE <==> PlaceOf(o, b) == n - 1
    ensures prev[b] == NONE ==> o[0] == b && Front(o, PlaceOf(o, b)) == o
    ensures next[b] == NONE ==> o[n - 1] == b && Back(o, PlaceOf(o, b)) == o
  {
    assert LinkedAt(prev, next, o, PlaceOf(o, b));
    FrontOfFront(o);
    assert Back(o, n - 1) == o;
  }

  ghost function Descending(n: nat): (o: seq<int>)
    ensures |o| == n && forall k :: 0 <= k < n ==> o[k] == n - 1 - k
  {
    seq(n, k => n - 1 - k)
  }

  lemma DescendingLinked(prev: seq<int>, next: seq<int>, n: nat)
    requires |prev| == n && |next| == n
    requires forall t :: 0 <= t < n ==> next[t] == t - 1 && prev[t] == if t == n - 1 then NONE else t + 1
    ensures Linked(prev, next, Descending(n), 0, n)
  {
    var o := Descending(n);
    forall b | 0 <= b < n ensures b in o { assert o[n - 1 - b] == b; }
    forall k | 0 <= k < n ensures LinkedAt(prev, next, o, k) { }
  }

  lemma OneMoreUse(start: seq<int>, n: nat, uses: seq<int>, order: seq<int>, b: int)
    requires Permutes(start, n) && UsesBlocks(uses, n) && order == OrderAfter(start, uses) && 0 <= b < n
    ensures b in order && OrderAfter(start, uses + [b]) == Front(order, PlaceOf(order, b))
    ensures UsesBlocks(uses + [b], n)
  {
    OrderIsByRecency(start, n, uses);
    assert (uses + [b])[..|uses|] == uses;
  }

  /** ---------------- the code ---------------- */

  class Ways {
    const n: nat
    const prev: array<int>
    const next: array<int>
    var head: int
    var tail: int
    ghost var order: seq<int>
    /** The uses so far: hits, and fills under least-recently-used replacement. */
    ghost var uses: seq<int>
    ghost var start: seq<int>

    ghost predicate Valid()
      reads this, prev, next
    {
      && n > 0 && prev != next && prev.Length == n && next.Length == n
      && Linked(prev[..], next[..], order, 0, n) && head == order[0] && tail == order[n - 1]
    }

    ghost predicate FollowsUses()
      reads this
    {
      Permutes(start, n) && UsesBlocks(uses, n) && order == OrderAfter(start, uses)
    }

    /** Blocks are inserted at the head in turn. */
    constructor (n: nat)
      requires n > 0
      ensures Valid() && this.n == n && fresh(prev) && fresh(next) && uses == [] && FollowsUses()
    {
      this.n := n;
      var prev, next := new int[n], new int[n];
      var head, tail := NONE, NONE;
      this.prev, this.next := prev, next;
      for j := 0 to n
        invariant head == j - 1 && tail == if j == 0 then NONE else 0
        invariant forall t :: 0 <= t < j ==> next[t] == t - 1 && prev[t] == if t == j - 1 then NONE else t + 1
      {
        next[j] := head;
        prev[j] := NONE;
        if head != NONE { prev[head] := j; }
        head := j;
        if tail == NONE { tail := j; }
      }
      this.head, this.tail := head, tail;
      order, start, uses := Descending(n), Descending(n), [];
      new;
      DescendingLinked(this.prev[..], this.next[..], n);
    }

    /** Takes b, at place p, out of a list of at least two. The assertions are the source's own. */
    method Unlink(b: int, ghost p: nat)
      requires Valid() && p < n && order[p] == b && n > 1
      modifies this`head, this`tail, prev, next
      ensures next[..] == if p > 0 then old(next[..])[order[p - 1] := Following(order, p)] else old(next[..])
      ensures prev[..] == if p + 1 < n then old(prev[..])[order[p + 1] := Preceding(order, p)] else old(prev[..])
      ensures head == (if p == 0 then order[1] else order[0])
      ensures tail == (if p == n - 1 then order[n - 2] else order[n - 1])
    {
      assert LinkedAt(prev[..], next[..], order, p);
      if prev[b] == NONE {
        assert head == b && tail != b;
        head := next[b];
        prev[next[b]] := NONE;
      } else if next[b] == NONE {
        assert head != b && tail == b;
        tail := prev[b];
        next[prev[b]] := NONE;
      } else {
        assert head != b && tail != b;
        next[prev[b]] := next[b];
        prev[next[b]] := prev[b];
      }
    }

    /** The rest of the list, as Unlink leaves it. */
    ghost predicate Without(o: seq<int>, p: nat, prev0: seq<int>, next0: seq<int>)
      requires n > 1 && |o| == n && p < n && |prev0| == |next0| == n && forall k :: 0 <= k < n ==> 0 <= o[k] < n
      reads this, prev, next
    {
      && next[..] == (if p > 0 then next0[o[p - 1] := Following(o, p)] else next0)
      && prev[..] == (if p + 1 < n then prev0[o[p + 1] := Preceding(o, p)] else prev0)
      && head == (if p == 0 then o[1] else o[0])
      && tail == (if p == n - 1 then o[n - 2] else o[n - 1])
    }

    method PutFirst(b: int, ghost o: seq<int>, ghost p: nat, ghost prev0: seq<int>, ghost next0: seq<int>)
      requires n > 1 && prev != next && prev.Length == n && next.Length == n
      requires Linked(prev0, next0, o, 0, n) && |prev0| == n && 0 < p < n && o[p] == b && Without(o, p, prev0, next0)
      modifies this`head, this`order, prev, next
      ensures Valid() && order == Front(o, p)
    {
      assert LinkedAt(prev0, next0, o, p);
      next[b] := head;
      prev[b] := NONE;
      prev[head] := b;
      head := b;
      order := Front(o, p);
      SpliceLinked(prev0, next0, prev[..], next[..], o, 0, n, p);
    }

    method PutLast(b: int, ghost o: seq<int>, ghost p: nat, ghost prev0: seq<int>, ghost next0: seq<int>)
      requires n > 1 && prev != next && prev.Length == n && next.Length == n
      requires Linked(prev0, next0, o, 0, n) && |prev0| == n && p + 1 < n && o[p] == b && Without(o, p, prev0, next0)
      modifies this`tail, this`order, prev, next
      ensures Valid() && order == Back(o, p)
    {
      assert LinkedAt(prev0, next0, o, p);
      prev[b] := tail;
      next[b] := NONE;
      next[tail] := b;
      tail := b;
      order := Back(o, p);
      SpliceBackLinked(prev0, next0, prev[..], next[..], o, 0, n, p);
    }

    /** update_way_list */
    method UpdateWayList(b: int, place: Where)
      requires Valid() && 0 <= b < n
      modifies this`head, this`tail, this`order, prev, next
      ensures Valid()
      ensures var p := PlaceOf(old(order), b);
              order == if place == Head then Front(old(order), p) else Back(old(order), p)
    {
      ghost var o, p := order, PlaceOf(order, b);
      ghost var prev0, next0 := prev[..], next[..];
      AtTheEnds(prev0, next0, o, n, b);
      if prev[b] == NONE && next[b] == NONE {
        assert head == b && tail == b;
        return;
      }
      if prev[b] == NONE && place == Head { return; }
      if next[b] == NONE && place == Tail { return; }
      Unlink(b, p);
      if place == Head { PutFirst(b, o, p, prev0, next0); } else { PutLast(b, o, p, prev0, next0); }
    }

    lemma FrontAlready(b: int)
      requires Valid() && 0 <= b < n
      ensures b in order && (prev[b] == NONE ==> order == Front(order, PlaceOf(order, b)))
    {
      AtTheEnds(prev[..], next[..], order, n, b);
    }

    /** A hit under least-recently-used replacement. */
    method Hit(b: int)
      requires Valid() && FollowsUses() && 0 <= b < n
      modifies this, prev, next
      ensures Valid() && FollowsUses() && uses == old(uses) + [b]
    {
      ghost var o := order;
      FrontAlready(b);
      if prev[b] != NONE { UpdateWayList(b, Head); }
      OneMoreUse(start, n, uses, o, b);
      uses := uses + [b];
    }

    /** A miss takes the tail: no block was used before it. */
    method Replace() returns (victim: int)
      requires Valid() && FollowsUses()
      modifies this, prev, next
      ensures Valid() && FollowsUses() && 0 <= victim < n && uses == old(uses) + [victim]
      ensures forall b :: 0 <= b < n && b != victim ==>
        LastUse(old(uses), victim) < LastUse(old(uses), b) || LastUse(old(uses), victim) == LastUse(old(uses), b) == 0
    {
      victim := tail;
      VictimBeforeAll(start, n, uses);
      ghost var o := order;
      UpdateWayList(victim, Head);
      OneMoreUse(start, n, uses, o, victim);
      uses := uses + [victim];
    }
  }
}
