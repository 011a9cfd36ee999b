/** How many elements of a sequence have a property, and how that changes with the sequence. */
module Counting {

  ghost function One(b: bool): nat { if b then 1 else 0 }

  ghost function Count<T>(s: seq<T>, p: T -> bool): nat {
    if s == [] then 0 else Count(s[..|s| - 1], p) + One(p(s[|s| - 1]))
  }

  lemma {:induction false} CountSet<T>(s: seq<T>, i: nat, x: T, p: T -> bool)
    requires i < |s|
    ensures Count(s[i := x], p) == Count(s, p) - One(p(s[i])) + One(p(x))
    decreases |s|
  {
    var n := |s| - 1;
    if i == n {
      assert s[i := x][..n] == s[..n];
    } else {
      assert s[i := x][..n] == s[..n][i := x];
      CountSet(s[..n], i, x, p);
    }
  }

  lemma {:induction false} CountPlus<T>(s: seq<T>, more: seq<T>, p: T -> bool)
    ensures Count(s + more, p) == Count(s, p) + Count(more, p)
    decreases |more|
  {
    if more == [] {
      assert s + more == s;
    } else {
      var n := |more| - 1;
      assert (s + more)[..|s| + n] == s + more[..n];
      CountPlus(s, more[..n], p);
    }
  }

  lemma {:induction false} CountAll<T>(s: seq<T>, p: T -> bool)
    requires forall i :: 0 <= i < |s| ==> p(s[i])
    ensures Count(s, p) == |s|
    decreases |s|
  {
    if s != [] { CountAll(s[..|s| - 1], p); }
  }

  lemma {:induction false} CountZero<T>(s: seq<T>, p: T -> bool)
    requires forall i :: 0 <= i < |s| ==> !p(s[i])
    ensures Count(s, p) == 0
    decreases |s|
  {
    if s != [] { CountZero(s[..|s| - 1], p); }
  }

  lemma {:induction false} CountNone<T>(s: seq<T>, i: nat, p: T -> bool)
    requires Count(s, p) == 0 && i < |s|
    ensures !p(s[i])
    decreases |s|
  {
    if i < |s| - 1 { CountNone(s[..|s| - 1], i, p); }
  }

  lemma {:induction false} CountSome<T>(s: seq<T>, i: nat, p: T -> bool)
    requires i < |s| && p(s[i])
    ensures Count(s, p) > 0
    decreases |s|
  {
    if i < |s| - 1 { CountSome(s[..|s| - 1], i, p); }
  }
}
