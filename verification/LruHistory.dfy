/** One set of the branch target buffer as a list from most to least recently taken branch,
    and what a whole history of updates leaves in it. */
module LruHistory {
  import opened LinkedOrder

  datatype Key = Key(addr: nat, tid: nat)

  datatype Entry = Entry(key: Key, op: nat, target: nat)

  /** One update of a taken branch: `correct` says that the predicted address was right. */
  datatype Taken = Taken(key: Key, op: nat, target: nat, correct: bool)

  /** A cleared slot carries address 0 and thread 0, which is also a key. */
  const BLANK := Key(0, 0)

  const EMPTY := Entry(BLANK, 0, 0)

  function IndexOf(l: seq<Entry>, k: Key): (p: nat)
    ensures p <= |l|
    ensures p < |l| ==> l[p].key == k
    ensures forall j :: 0 <= j < p ==> l[j].key != k
  {
    if l == [] then 0 else if l[0].key == k then 0 else 1 + IndexOf(l[1..], k)
  }

  /** The place an update goes to: the match, or else the least recent one. */
  function Chosen(l: seq<Entry>, k: Key): (p: nat)
    requires |l| > 0
    ensures p < |l|
  {
    if IndexOf(l, k) < |l| then IndexOf(l, k) else |l| - 1
  }

  /** The final write: a hit keeps its entry unless the prediction was wrong, a miss enters the branch. */
  function Rewritten(old_: Entry, e: Taken): Entry {
    if old_.key == e.key then (if e.correct then old_ else old_.(target := e.target))
    else Entry(e.key, e.op, e.target)
  }

  /** What an update of a taken branch does to the list of its set. */
  function Touched(l: seq<Entry>, e: Taken): (r: seq<Entry>)
    requires |l| > 0
    ensures |r| == |l|
  {
    var p := Chosen(l, e.key);
    ToFront(l, p, Rewritten(l[p], e))
  }

  /** The assertion that a key matches at most one way fails. */
  ghost predicate Fires(l: seq<Entry>, k: Key) {
    exists i, j :: 0 <= i < j < |l| && l[i].key == k && l[j].key == k
  }

  /** Only cleared slots may share a key. */
  ghost predicate Distinct(l: seq<Entry>) {
    forall i, j :: 0 <= i < j < |l| && l[i].key == l[j].key ==> l[i] == EMPTY && l[j] == EMPTY
  }

  /** ---------------- histories ---------------- */

  type History = seq<Taken>

  ghost function Last(h: History): Taken
    requires h != []
  {
    h[|h| - 1]
  }

  ghost function Before(h: History): History
    requires h != []
  {
    h[..|h| - 1]
  }

  ghost function Cleared(n: nat): (l: seq<Entry>)
    ensures |l| == n && forall i :: 0 <= i < n ==> l[i] == EMPTY
  {
    seq(n, _ => EMPTY)
  }

  ghost function ListAfter(n: nat, h: History): (l: seq<Entry>)
    requires n > 0
    ensures |l| == n
  {
    if h == [] then Cleared(n) else Touched(ListAfter(n, Before(h)), Last(h))
  }

  /** No update of the history trips the assertion. */
  ghost predicate Quiet(n: nat, h: History)
    requires n > 0
  {
    h == [] || (Quiet(n, Before(h)) && !Fires(ListAfter(n, Before(h)), Last(h).key))
  }

  /** `correct` is only claimed of a hit whose stored target is the actual one. */
  ghost predicate HonestStep(l: seq<Entry>, e: Taken) {
    e.correct ==> (IndexOf(l, e.key) < |l| ==> l[IndexOf(l, e.key)].target == e.target)
  }

  ghost predicate Honest(n: nat, h: History)
    requires n > 0
  {
    h == [] || (Honest(n, Before(h)) && HonestStep(ListAfter(n, Before(h)), Last(h)))
  }

  ghost function Keys(h: History): set<Key> {
    if h == [] then {} else Keys(Before(h)) + {Last(h).key}
  }

  /** The keys seen since the last update of k. */
  ghost function Since(h: History, k: Key): set<Key> {
    if h == [] || Last(h).key == k then {} else Since(Before(h), k) + {Last(h).key}
  }

  ghost function LastTarget(h: History, k: Key): nat {
    if h == [] then 0 else if Last(h).key == k then Last(h).target else LastTarget(Before(h), k)
  }

  lemma {:induction false} SinceKeys(h: History, k: Key)
    ensures Since(h, k) <= Keys(h) && k !in Since(h, k)
  {
    if h != [] && Last(h).key != k { SinceKeys(Before(h), k); }
  }

  lemma SubsetSize(a: set<Key>, b: set<Key>)
    requires a <= b
    ensures |a| <= |b| && (a != b ==> |a| < |b|)
  {
    assert b == a + (b - a);
    if a != b {
      var x :| x in b - a;
      assert |b - a| > 0;
    }
  }

  /** The number of keys since the last update orders the keys by recency. */
  lemma {:induction false} SinceOrder(h: History, a: Key, b: Key)
    requires a in Keys(h) && b in Keys(h) && a != b
    ensures (a in Since(h, b)) != (b in Since(h, a))
    ensures a in Since(h, b) ==> Since(h, a) <= Since(h, b) && |Since(h, a)| < |Since(h, b)|
    ensures b in Since(h, a) ==> Since(h, b) <= Since(h, a) && |Since(h, b)| < |Since(h, a)|
  {
    SinceKeys(h, a);
    SinceKeys(h, b);
    if Last(h).key != a && Last(h).key != b {
      SinceOrder(Before(h), a, b);
    }
    if a in Since(h, b) { SubsetSize(Since(h, a), Since(h, b)); }
    if b in Since(h, a) { SubsetSize(Since(h, b), Since(h, a)); }
  }

  lemma SinceSize(h: History, k: Key)
    requires k in Keys(h)
    ensures |Since(h, k)| < |Keys(h)|
  {
    SinceKeys(h, k);
    SubsetSize(Since(h, k), Keys(h));
  }

  ghost function Min(a: nat, b: nat): nat { if a < b then a else b }

  /** ---------------- what the list holds ---------------- */

  ghost predicate Ranked(l: seq<Entry>, h: History) {
    forall j :: 0 <= j < Min(|l|, |Keys(h)|) ==> l[j].key in Keys(h) && |Since(h, l[j].key)| == j
  }

  ghost predicate Complete(l: seq<Entry>, h: History) {
    forall k :: k in Keys(h) && |Since(h, k)| < |l| ==> l[|Since(h, k)|].key == k
  }

  ghost predicate Padded(l: seq<Entry>, h: History) {
    forall j :: |Keys(h)| <= j < |l| ==> l[j] == EMPTY
  }

  ghost predicate Holds(l: seq<Entry>, h: History) {
    Ranked(l, h) && Complete(l, h) && Padded(l, h) && (BLANK in Keys(h) ==> |Keys(h)| >= |l|)
  }

  ghost predicate Targets(l: seq<Entry>, h: History) {
    forall j :: 0 <= j < Min(|l|, |Keys(h)|) ==> l[j].target == LastTarget(h, l[j].key)
  }

  /** The position of a key of the history. */
  lemma PositionOfKnown(l: seq<Entry>, h: History, k: Key)
    requires Holds(l, h) && k in Keys(h)
    ensures IndexOf(l, k) == Min(|l|, |Since(h, k)|)
  {
    SinceSize(h, k);
    var p := IndexOf(l, k);
    if p < |l| {
      assert p >= |Keys(h)| ==> k == BLANK;
      assert |Since(h, l[p].key)| == p;
    }
  }

  lemma PositionOfNew(l: seq<Entry>, h: History, k: Key)
    requires Holds(l, h) && k !in Keys(h)
    ensures IndexOf(l, k) == if k == BLANK then Min(|l|, |Keys(h)|) else |l|
  {
    var p := IndexOf(l, k);
    assert p >= Min(|l|, |Keys(h)|);
    if p < |l| { assert l[p] == EMPTY; }
    if k == BLANK && |Keys(h)| < |l| { assert l[|Keys(h)|] == EMPTY; }
  }

  lemma RanksDiffer(l: seq<Entry>, h: History, i: nat, j: nat)
    requires Ranked(l, h) && i < j < Min(|l|, |Keys(h)|)
    ensures l[i].key != l[j].key
  {
    assert |Since(h, l[i].key)| == i && |Since(h, l[j].key)| == j;
  }

  /** Exactly when the assertion fails: the cleared key, not yet entered, with two cleared slots left. */
  lemma FiresExactly(l: seq<Entry>, h: History, k: Key)
    requires Holds(l, h)
    ensures Fires(l, k) <==> k == BLANK && BLANK !in Keys(h) && |Keys(h)| + 2 <= |l|
  {
    var m := |Keys(h)|;
    if k == BLANK && BLANK !in Keys(h) && m + 2 <= |l| {
      assert l[m] == EMPTY && l[m + 1] == EMPTY;
    }
    forall i, j | 0 <= i < j < Min(|l|, m) ensures l[i].key != l[j].key {
      RanksDiffer(l, h, i, j);
    }
    if Fires(l, k) {
      var i, j :| 0 <= i < j < |l| && l[i].key == k && l[j].key == k;
      assert l[j] == EMPTY;
    }
  }

  /** ---------------- one more update ---------------- */

  ghost predicate Appended(h: History, e: Taken, h': History) {
    h' != [] && Before(h') == h && Last(h') == e
  }

  lemma SinceStep(h: History, e: Taken, h': History, k: Key)
    requires Appended(h, e, h') && k in Keys(h) && k != e.key
    ensures |Since(h', k)| == |Since(h, k)| + (if e.key in Keys(h) && |Since(h, e.key)| < |Since(h, k)| then 0 else 1)
  {
    SinceKeys(h, k);
    if e.key in Keys(h) { SinceOrder(h, k, e.key); }
    if e.key in Since(h, k) { assert Since(h', k) == Since(h, k); }
  }

  /** Everything in front of the entry brought to the front moves back by one. */
  lemma TouchedMoves(l: seq<Entry>, e: Taken, j: nat)
    requires 0 < j < |l|
    ensures Touched(l, e)[j] == if j <= IndexOf(l, e.key) then l[j - 1] else l[j]
  {
  }

  lemma HitRanked(l: seq<Entry>, h: History, e: Taken, h': History, j: nat)
    requires |l| > 0 && Holds(l, h) && Appended(h, e, h') && e.key in Keys(h)
    requires 0 < j < Min(|l|, |Keys(h)|)
    ensures Touched(l, e)[j].key in Keys(h) && |Since(h', Touched(l, e)[j].key)| == j
  {
    var d := |Since(h, e.key)|;
    PositionOfKnown(l, h, e.key);
    TouchedMoves(l, e, j);
    var i := if j <= d then j - 1 else j;
    assert l[i].key in Keys(h) && |Since(h, l[i].key)| == i;
    SinceStep(h, e, h', l[i].key);
  }

  lemma HitComplete(l: seq<Entry>, h: History, e: Taken, h': History, k: Key)
    requires |l| > 0 && Holds(l, h) && Appended(h, e, h') && e.key in Keys(h)
    requires k in Keys(h) && k != e.key && |Since(h', k)| < |l|
    ensures Touched(l, e)[|Since(h', k)|].key == k
  {
    var d := |Since(h, e.key)|;
    PositionOfKnown(l, h, e.key);
    SinceStep(h, e, h', k);
    SinceOrder(h, k, e.key);
    TouchedMoves(l, e, |Since(h', k)|);
  }

  lemma TouchedFront(l: seq<Entry>, h: History, e: Taken, h': History)
    requires |l| > 0 && Appended(h, e, h')
    ensures Touched(l, e)[0].key == e.key && e.key in Keys(h') && Since(h', e.key) == {}
  {
  }

  lemma HitRanks(l: seq<Entry>, h: History, e: Taken, h': History)
    requires |l| > 0 && Holds(l, h) && Appended(h, e, h') && e.key in Keys(h)
    ensures Holds(Touched(l, e), h')
  {
    var r := Touched(l, e);
    TouchedFront(l, h, e, h');
    PositionOfKnown(l, h, e.key);
    SinceSize(h, e.key);
    assert Keys(h') == Keys(h);
    forall j | 0 <= j < Min(|r|, |Keys(h')|) ensures r[j].key in Keys(h') && |Since(h', r[j].key)| == j {
      if j > 0 { HitRanked(l, h, e, h', j); }
    }
    forall k | k in Keys(h') && |Since(h', k)| < |r| ensures r[|Since(h', k)|].key == k {
      if k != e.key { HitComplete(l, h, e, h', k); }
    }
    forall j | |Keys(h')| <= j < |r| ensures r[j] == EMPTY {
      TouchedMoves(l, e, j);
    }
  }

  lemma NewShifts(l: seq<Entry>, h: History, e: Taken, j: nat)
    requires Holds(l, h) && e.key !in Keys(h) && !Fires(l, e.key) && 0 < j < |l|
    ensures Touched(l, e)[j] == l[j - 1]
  {
    PositionOfNew(l, h, e.key);
    FiresExactly(l, h, e.key);
    TouchedMoves(l, e, j);
  }

  lemma NewRanked(l: seq<Entry>, h: History, e: Taken, h': History, j: nat)
    requires |l| > 0 && Holds(l, h) && Appended(h, e, h') && e.key !in Keys(h) && !Fires(l, e.key)
    requires 0 < j < |l| && j <= |Keys(h)|
    ensures Touched(l, e)[j].key in Keys(h) && |Since(h', Touched(l, e)[j].key)| == j
  {
    NewShifts(l, h, e, j);
    assert l[j - 1].key in Keys(h) && |Since(h, l[j - 1].key)| == j - 1;
    SinceStep(h, e, h', l[j - 1].key);
  }

  lemma NewComplete(l: seq<Entry>, h: History, e: Taken, h': History, k: Key)
    requires |l| > 0 && Holds(l, h) && Appended(h, e, h') && e.key !in Keys(h) && !Fires(l, e.key)
    requires k in Keys(h) && |Since(h', k)| < |l|
    ensures Touched(l, e)[|Since(h', k)|].key == k
  {
    SinceStep(h, e, h', k);
    NewShifts(l, h, e, |Since(h', k)|);
  }

  lemma NewRanks(l: seq<Entry>, h: History, e: Taken, h': History)
    requires |l| > 0 && Holds(l, h) && Appended(h, e, h') && e.key !in Keys(h) && !Fires(l, e.key)
    ensures Holds(Touched(l, e), h')
  {
    var r := Touched(l, e);
    TouchedFront(l, h, e, h');
    FiresExactly(l, h, e.key);
    assert |Keys(h')| == |Keys(h)| + 1;
    forall j | 0 <= j < Min(|r|, |Keys(h')|) ensures r[j].key in Keys(h') && |Since(h', r[j].key)| == j {
      if j > 0 { NewRanked(l, h, e, h', j); }
    }
    forall k | k in Keys(h') && |Since(h', k)| < |r| ensures r[|Since(h', k)|].key == k {
      if k != e.key { NewComplete(l, h, e, h', k); }
    }
    forall j | |Keys(h')| <= j < |r| ensures r[j] == EMPTY {
      NewShifts(l, h, e, j);
    }
  }

  lemma TargetsStep(l: seq<Entry>, h: History, e: Taken, h': History)
    requires |l| > 0 && Holds(l, h) && Targets(l, h) && Appended(h, e, h')
    requires !Fires(l, e.key) && HonestStep(l, e)
    ensures Targets(Touched(l, e), h')
  {
    var r := Touched(l, e);
    FiresExactly(l, h, e.key);
    if e.key in Keys(h) {
      assert Keys(h') == Keys(h);
      PositionOfKnown(l, h, e.key);
      SinceSize(h, e.key);
    } else {
      assert |Keys(h')| == |Keys(h)| + 1;
      PositionOfNew(l, h, e.key);
    }
    forall j | 0 <= j < Min(|r|, |Keys(h')|) ensures r[j].target == LastTarget(h', r[j].key) {
      if j > 0 {
        var p := IndexOf(l, e.key);
        var i := if j <= p then j - 1 else j;
        assert r[j] == l[i];
        assert l[i].key in Keys(h) && |Since(h, l[i].key)| == i;
        assert l[i].key != e.key;
      }
    }
  }

  /** After any history that trips no assertion the list ranks the keys by recency. */
  lemma {:induction false} HistoryHolds(n: nat, h: History)
    requires n > 0 && Quiet(n, h)
    ensures Holds(ListAfter(n, h), h)
  {
    if h != [] {
      HistoryHolds(n, Before(h));
      var l, e := ListAfter(n, Before(h)), Last(h);
      if e.key in Keys(Before(h)) { HitRanks(l, Before(h), e, h); } else { NewRanks(l, Before(h), e, h); }
    }
  }

  lemma {:induction false} HistoryTargets(n: nat, h: History)
    requires n > 0 && Quiet(n, h) && Honest(n, h)
    ensures Targets(ListAfter(n, h), h)
  {
    if h != [] {
      HistoryTargets(n, Before(h));
      HistoryHolds(n, Before(h));
      TargetsStep(ListAfter(n, Before(h)), Before(h), Last(h), h);
    }
  }

  /** A branch is found exactly when fewer than n other branches were taken since it last was;
      an honest history also makes the target found the one it last went to. */
  lemma LookupAfter(n: nat, h: History, k: Key)
    requires n > 0 && Quiet(n, h) && (k in Keys(h) || k != BLANK)
    ensures IndexOf(ListAfter(n, h), k) < n <==> k in Keys(h) && |Since(h, k)| < n
    ensures Honest(n, h) && k in Keys(h) && |Since(h, k)| < n ==>
      ListAfter(n, h)[IndexOf(ListAfter(n, h), k)].target == LastTarget(h, k)
  {
    HistoryHolds(n, h);
    if Honest(n, h) { HistoryTargets(n, h); }
    var l := ListAfter(n, h);
    if k in Keys(h) {
      PositionOfKnown(l, h, k);
      SinceSize(h, k);
    } else {
      PositionOfNew(l, h, k);
    }
  }

  /** The assertion fails on the next update exactly for the cleared key with two cleared slots left. */
  lemma AssertionFailsExactly(n: nat, h: History, k: Key)
    requires n > 0 && Quiet(n, h)
    ensures Fires(ListAfter(n, h), k) <==> k == BLANK && BLANK !in Keys(h) && |Keys(h)| + 2 <= n
  {
    HistoryHolds(n, h);
    FiresExactly(ListAfter(n, h), h, k);
  }

  /** Hence histories without the cleared key never fail. */
  lemma {:induction false} NonZeroKeysAreQuiet(n: nat, h: History)
    requires n > 0 && BLANK !in Keys(h)
    ensures Quiet(n, h)
  {
    if h != [] {
      NonZeroKeysAreQuiet(n, Before(h));
      AssertionFailsExactly(n, Before(h), Last(h).key);
    }
  }

  lemma NoDuplicateKeys(n: nat, h: History)
    requires n > 0 && Quiet(n, h)
    ensures Distinct(ListAfter(n, h))
  {
    HistoryHolds(n, h);
    var l := ListAfter(n, h);
    forall i, j | 0 <= i < j < n && l[i].key == l[j].key ensures l[i] == EMPTY && l[j] == EMPTY {
      FiresExactly(l, h, l[i].key);
      assert Fires(l, l[i].key);
      assert i >= |Keys(h)|;
    }
  }

  /** A hit reported correct whose stored target is stale keeps the stale target. */
  lemma StaleExactlyWhenDishonest(l: seq<Entry>, e: Taken)
    requires |l| > 0
    ensures Touched(l, e)[0].key == e.key
    ensures Touched(l, e)[0].target == e.target <==> HonestStep(l, e)
  {
  }

  /** ---------------- the whole table ---------------- */

  /** Branches are four bytes apart and the number of sets is a power of two. */
  function SetIndex(key: Key, sets: nat): (s: nat)
    requires sets > 0
    ensures s < sets
  {
    (key.addr / 4) % sets
  }

  /** The updates that went to set s. */
  ghost function Only(h: History, sets: nat, s: nat): History
    requires sets > 0
  {
    if h == [] then []
    else if SetIndex(Last(h).key, sets) == s then Only(Before(h), sets, s) + [Last(h)]
    else Only(Before(h), sets, s)
  }

  lemma OnlyStep(h: History, e: Taken, sets: nat, s: nat)
    requires sets > 0
    ensures Only(h + [e], sets, s) == if SetIndex(e.key, sets) == s then Only(h, sets, s) + [e] else Only(h, sets, s)
  {
    assert Before(h + [e]) == h && Last(h + [e]) == e;
  }

  lemma ListStep(n: nat, h: History, e: Taken)
    requires n > 0
    ensures ListAfter(n, h + [e]) == Touched(ListAfter(n, h), e)
    ensures Quiet(n, h + [e]) <==> Quiet(n, h) && !Fires(ListAfter(n, h), e.key)
  {
    assert Before(h + [e]) == h && Last(h + [e]) == e;
  }
}
