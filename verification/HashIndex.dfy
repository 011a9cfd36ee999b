/** The hash index of a highly associative cache set: bucket chains threaded through the blocks. */
module HashIndex {
  import opened Bits
  import opened LinkedOrder
  import opened SkewHash
  import opened WayList

  /** CACHE_HASH: the bytes of the tag folded together, masked to one of 2^bits buckets. */
  function Bucket(tag: nat, bits: nat): (b: nat)
    ensures b < Pow2(bits)
  {
    LowBits(Xor(Xor(Xor(Shr(tag, 24), Shr(tag, 16)), Shr(tag, 8)), tag), bits)
  }

  ghost predicate NextAt(hashNext: seq<int>, c: seq<int>, k: int)
    requires 0 <= k < |c| && 0 <= c[k] < |hashNext|
  {
    hashNext[c[k]] == Following(c, k)
  }

  ghost function HeadOf(c: seq<int>): int { if c == [] then NONE else c[0] }

  /** The blocks of one bucket, in the order of their links. */
  ghost predicate Chain(hashNext: seq<int>, c: seq<int>) {
    && (forall k :: 0 <= k < |c| ==> 0 <= c[k] < |hashNext|)
    && (forall j, k :: 0 <= j < k < |c| ==> c[j] != c[k])
    && (forall k :: 0 <= k < |c| ==> NextAt(hashNext, c, k))
  }

  lemma ChainFrame(hashNext: seq<int>, hashNext': seq<int>, c: seq<int>)
    requires Chain(hashNext, c) && |hashNext'| == |hashNext|
    requires forall k :: 0 <= k < |c| ==> hashNext'[c[k]] == hashNext[c[k]]
    ensures Chain(hashNext', c)
  {
    forall k | 0 <= k < |c| ensures NextAt(hashNext', c, k) { assert NextAt(hashNext, c, k); }
  }

  ghost function Without(c: seq<int>, k: nat): (r: seq<int>)
    requires k < |c|
    ensures |r| == |c| - 1 && forall j :: 0 <= j < |r| ==> r[j] == if j < k then c[j] else c[j + 1]
  {
    c[..k] + c[k + 1..]
  }

  /** Taking place k out of its chain. */
  lemma ChainWithout(hashNext: seq<int>, hashNext': seq<int>, c: seq<int>, k: nat)
    requires Chain(hashNext, c) && k < |c|
    requires hashNext' == (if k > 0 then hashNext[c[k - 1] := hashNext[c[k]]] else hashNext)[c[k] := NONE]
    ensures Chain(hashNext', Without(c, k))
  {
    var r := Without(c, k);
    forall j | 0 <= j < |r| ensures NextAt(hashNext', r, j) {
      if j < k { assert NextAt(hashNext, c, j); } else { assert NextAt(hashNext, c, j + 1); }
      assert NextAt(hashNext, c, k);
      assert j + 1 < |r| ==> r[j + 1] == if j + 1 < k then c[j + 1] else c[j + 2];
    }
  }

  /** Putting a block in front of a chain. */
  lemma ChainWith(hashNext: seq<int>, hashNext': seq<int>, c: seq<int>, b: int)
    requires Chain(hashNext, c) && 0 <= b < |hashNext| && b !in c
    requires hashNext' == hashNext[b := HeadOf(c)]
    ensures Chain(hashNext', [b] + c)
  {
    var r := [b] + c;
    forall j | 0 <= j < |r| ensures NextAt(hashNext', r, j) {
      if j > 0 { assert NextAt(hashNext, c, j - 1); }
    }
  }

  /** Every block but `out` lies in exactly one bucket, that of its tag. */
  ghost predicate Indexed(tags: seq<nat>, bits: nat, chains: seq<seq<int>>, out: int) {
    && |chains| == Pow2(bits)
    && (forall b, k :: 0 <= b < |chains| && 0 <= k < |chains[b]| ==>
          0 <= chains[b][k] < |tags| && chains[b][k] != out && Bucket(tags[chains[b][k]], bits) == b)
    && (forall i :: 0 <= i < |tags| && i != out ==> i in chains[Bucket(tags[i], bits)])
  }

  /** A bucket search finds what a search of all blocks would. */
  lemma BucketSuffices(tags: seq<nat>, bits: nat, valid: seq<bool>, chains: seq<seq<int>>, tag: nat)
    requires Indexed(tags, bits, chains, NONE) && |valid| == |tags|
    ensures (exists i :: 0 <= i < |tags| && tags[i] == tag && valid[i]) <==>
            (exists i :: i in chains[Bucket(tag, bits)] && 0 <= i < |tags| && tags[i] == tag && valid[i])
  {
  }

  /** The block is in one bucket and in no other. */
  lemma OneBucket(tags: seq<nat>, bits: nat, chains: seq<seq<int>>, i: int, b: int)
    requires Indexed(tags, bits, chains, NONE) && 0 <= i < |tags| && 0 <= b < |chains|
    ensures i in chains[b] <==> b == Bucket(tags[i], bits)
  {
  }

  lemma InOwnBucket(tags: seq<nat>, bits: nat, chains: seq<seq<int>>, i: int)
    requires Indexed(tags, bits, chains, NONE) && 0 <= i < |tags|
    ensures i in chains[Bucket(tags[i], bits)]
  {
  }

  lemma UnlinkIndexed(tags: seq<nat>, bits: nat, chains: seq<seq<int>>, i: int, k: nat)
    requires Indexed(tags, bits, chains, NONE) && 0 <= i < |tags|
    requires var c := chains[Bucket(tags[i], bits)];
             k < |c| && c[k] == i && forall j, l :: 0 <= j < l < |c| ==> c[j] != c[l]
    ensures var h := Bucket(tags[i], bits); Indexed(tags, bits, chains[h := Without(chains[h], k)], i)
  {
    var h := Bucket(tags[i], bits);
    var chains' := chains[h := Without(chains[h], k)];
    forall j | 0 <= j < |tags| && j != i ensures j in chains'[Bucket(tags[j], bits)] {
      if Bucket(tags[j], bits) == h {
        var l := PlaceOf(chains[h], j);
        assert chains'[h][if l < k then l else l - 1] == j;
      }
    }
  }

  lemma RetagIndexed(tags: seq<nat>, bits: nat, chains: seq<seq<int>>, i: int, tag: nat)
    requires Indexed(tags, bits, chains, i) && 0 <= i < |tags|
    ensures Indexed(tags[i := tag], bits, chains, i)
  {
  }

  lemma LinkIndexed(tags: seq<nat>, bits: nat, chains: seq<seq<int>>, i: int)
    requires Indexed(tags, bits, chains, i) && 0 <= i < |tags|
    ensures var h := Bucket(tags[i], bits); Indexed(tags, bits, chains[h := [i] + chains[h]], NONE)
  {
    var h := Bucket(tags[i], bits);
    var chains' := chains[h := [i] + chains[h]];
    assert chains'[h][0] == i;
  }

  lemma OtherChain(next0: seq<int>, next1: seq<int>, tags: seq<nat>, bits: nat, chains: seq<seq<int>>, h: nat, a: nat)
    requires Indexed(tags, bits, chains, NONE) && h < |chains| && a < |chains| && a != h && |next1| == |next0| == |tags|
    requires Chain(next0, chains[a]) && Chain(next0, chains[h])
    requires forall i :: 0 <= i < |next0| && i !in chains[h] ==> next1[i] == next0[i]
    ensures Chain(next1, chains[a])
  {
    forall k | 0 <= k < |chains[a]| ensures next1[chains[a][k]] == next0[chains[a][k]] {
      assert Bucket(tags[chains[a][k]], bits) == a;
    }
    ChainFrame(next0, next1, chains[a]);
  }

  lemma UnlinkChains(next0: seq<int>, next1: seq<int>, tags: seq<nat>, bits: nat, chains: seq<seq<int>>, h: nat, k: nat,
                     chains': seq<seq<int>>)
    requires Indexed(tags, bits, chains, NONE) && h < |chains| && k < |chains[h]| && |next1| == |next0| == |tags|
    requires forall a :: 0 <= a < |chains| ==> Chain(next0, chains[a])
    requires var c := chains[h];
             next1 == (if k > 0 then next0[c[k - 1] := next0[c[k]]] else next0)[c[k] := NONE]
    requires chains' == chains[h := Without(chains[h], k)]
    ensures forall a :: 0 <= a < |chains'| ==> Chain(next1, chains'[a])
  {
    ChainWithout(next0, next1, chains[h], k);
    forall a | 0 <= a < |chains| && a != h ensures Chain(next1, chains[a]) {
      OtherChain(next0, next1, tags, bits, chains, h, a);
    }
  }

  /** A walk that has not met b so far, of a chain b is in, is not at its end. */
  lemma Met(c: seq<int>, b: int, k: nat, ent: int)
    requires b in c && k <= |c| && forall j :: 0 <= j < k ==> c[j] != b
    requires ent == (if k < |c| then c[k] else NONE) && (ent == NONE || ent == b) && forall j :: 0 <= j < |c| ==> c[j] >= 0
    ensures k < |c| && c[k] == b && ent != NONE
  {
    var j := PlaceOf(c, b);
  }

  lemma UnlinkHeads(hash0: seq<int>, hash1: seq<int>, next0: seq<int>, chains: seq<seq<int>>, h: nat, k: nat,
                    chains': seq<seq<int>>)
    requires |hash0| == |chains| && h < |chains| && k < |chains[h]| && Chain(next0, chains[h])
    requires forall a :: 0 <= a < |chains| ==> hash0[a] == HeadOf(chains[a])
    requires chains' == chains[h := Without(chains[h], k)]
    requires hash1 == if k == 0 then hash0[h := next0[chains[h][k]]] else hash0
    ensures forall a :: 0 <= a < |chains'| ==> hash1[a] == HeadOf(chains'[a])
  {
    assert NextAt(next0, chains[h], k);
  }

  ghost predicate Carries(tags: seq<nat>, valid: seq<bool>, t: nat, i: int) {
    0 <= i < |tags| && i < |valid| && tags[i] == t && valid[i]
  }

  lemma NoneCarries(o: seq<int>, n: nat, tags: seq<nat>, valid: seq<bool>, t: nat)
    requires Permutes(o, n) && |tags| == |valid| == n && forall j :: 0 <= j < n ==> !Carries(tags, valid, t, o[j])
    ensures forall i :: 0 <= i < n ==> !(tags[i] == t && valid[i])
  {
    forall i | 0 <= i < n ensures !(tags[i] == t && valid[i]) {
      var j := PlaceOf(o, i);
      assert !Carries(tags, valid, t, o[j]);
    }
  }

  lemma NextInList(ways: Ways, k: nat)
    requires ways.Valid() && k < ways.n
    ensures 0 <= ways.order[k] < ways.n
    ensures ways.next[ways.order[k]] == if k + 1 < ways.n then ways.order[k + 1] else NONE
  {
    assert LinkedAt(ways.prev[..], ways.next[..], ways.order, k);
  }

  ghost function InitialChains(n: nat, bits: nat): (chains: seq<seq<int>>)
    ensures |chains| == Pow2(bits)
    ensures forall b :: 0 <= b < |chains| ==> chains[b] == if b == Bucket(0, bits) then Descending(n) else []
  {
    seq(Pow2(bits), b => if b == Bucket(0, bits) then Descending(n) else [])
  }

  lemma InitialIndexed(tags: seq<nat>, bits: nat, n: nat)
    requires |tags| == n && forall i :: 0 <= i < n ==> tags[i] == 0
    ensures Indexed(tags, bits, InitialChains(n, bits), NONE)
  {
    var o := Descending(n);
    forall i | 0 <= i < n ensures i in o { assert o[n - 1 - i] == i; }
  }

  lemma InitialLinks(hashNext: seq<int>, n: nat)
    requires |hashNext| == n && forall i :: 0 <= i < n ==> hashNext[i] == i - 1
    ensures Chain(hashNext, Descending(n)) && Chain(hashNext, [])
  {
    var o := Descending(n);
    forall k | 0 <= k < n ensures NextAt(hashNext, o, k) { }
  }

  /** ---------------- the code ---------------- */

  /** Links all blocks, in turn, into bucket h. */
  method LinkAll(hash: array<int>, hashNext: array<int>, h: nat)
    requires hash != hashNext && h < hash.Length && forall b :: 0 <= b < hash.Length ==> hash[b] == NONE
    modifies hash, hashNext
    ensures hash[..] == old(hash[..])[h := hashNext.Length - 1]
    ensures forall t :: 0 <= t < hashNext.Length ==> hashNext[t] == t - 1
  {
    for j := 0 to hashNext.Length
      invariant hash[..] == old(hash[..])[h := j - 1]
      invariant forall t :: 0 <= t < j ==> hashNext[t] == t - 1
    {
      hashNext[j] := hash[h];
      hash[h] := j;
    }
  }

  class HashedSet {
    const n: nat
    const bits: nat
    const tag: array<nat>
    const valid: array<bool>
    const hashNext: array<int>
    const hash: array<int>
    ghost var chains: seq<seq<int>>

    ghost predicate Shape() {
      && hash != hashNext
      && tag.Length == n && valid.Length == n && hashNext.Length == n && hash.Length == Pow2(bits)
    }

    /** The chains are linked, and all blocks but `out` are in them. */
    ghost predicate Good(out: int)
      reads this, tag, hashNext, hash
    {
      && Shape() && |chains| == Pow2(bits)
      && (forall b :: 0 <= b < Pow2(bits) ==> Chain(hashNext[..], chains[b]) && hash[b] == HeadOf(chains[b]))
      && Indexed(tag[..], bits, chains, out)
    }

    /** Every block starts without a valid line and with tag 0, in the bucket of that tag. */
    constructor (n: nat, bits: nat)
      ensures Good(NONE) && this.n == n && this.bits == bits
      ensures fresh(tag) && fresh(valid) && fresh(hashNext) && fresh(hash)
      ensures forall i :: 0 <= i < n ==> tag[i] == 0 && !valid[i]
    {
      this.n, this.bits := n, bits;
      var hash, hashNext := new int[Pow2(bits)](_ => NONE), new int[n](_ => NONE);
      var h := Bucket(0, bits);
      LinkAll(hash, hashNext, h);
      this.hash, this.hashNext := hash, hashNext;
      tag, valid := new nat[n](_ => 0), new bool[n](_ => false);
      chains := InitialChains(n, bits);
      new;
      InitialIndexed(this.tag[..], this.bits, this.n);
      InitialLinks(this.hashNext[..], this.n);
    }

    /** Walks bucket h to block b and the one before it. */
    method Walk(h: nat, b: int) returns (prev: int, ghost k: nat)
      requires Shape() && h < Pow2(bits) && |chains| == Pow2(bits)
      requires Chain(hashNext[..], chains[h]) && hash[h] == HeadOf(chains[h]) && b in chains[h]
      ensures k < |chains[h]| && chains[h][k] == b && prev == if k == 0 then NONE else chains[h][k - 1]
    {
      ghost var c, next0 := chains[h], hashNext[..];
      k := 0;
      var ent;
      prev, ent := NONE, hash[h];
      while ent != NONE && ent != b
        invariant k <= |c| && ent == (if k < |c| then c[k] else NONE)
        invariant prev == (if k == 0 then NONE else c[k - 1])
        invariant forall j :: 0 <= j < k ==> c[j] != b
        decreases |c| - k
      {
        assert NextAt(next0, c, k);
        prev := ent;
        ent := hashNext[ent];
        k := k + 1;
      }
      Met(c, b, k, ent);
    }

    /** Takes b, behind prev, out of the links of bucket h. */
    method CutOut(h: nat, prev: int, b: int)
      requires Shape() && h < Pow2(bits) && 0 <= b < n && (prev == NONE || 0 <= prev < n)
      modifies hashNext, hash
      ensures hash[..] == if prev == NONE then old(hash[..])[h := old(hashNext[b])] else old(hash[..])
      ensures hashNext[..] == (if prev != NONE then old(hashNext[..])[prev := old(hashNext[b])] else old(hashNext[..]))[b := NONE]
    {
      if prev == NONE { hash[h] := hashNext[b]; } else { hashNext[prev] := hashNext[b]; }
      hashNext[b] := NONE;
    }

    /** unlink_htab_ent. That the walk meets the block is the source's own assertion. */
    method Unlink(b: int)
      requires Good(NONE) && 0 <= b < n
      modifies this`chains, hashNext, hash
      ensures Good(b) && hashNext[b] == NONE
    {
      var h := Bucket(tag[b], bits);
      ghost var c, next0, hash0 := chains[h], hashNext[..], hash[..];
      var prev;
      ghost var k;
      InOwnBucket(tag[..], bits, chains, b);
      prev, k := Walk(h, b);
      ghost var chains' := chains[h := Without(c, k)];
      CutOut(h, prev, b);
      UnlinkHeads(hash0, hash[..], next0, chains, h, k, chains');
      UnlinkIndexed(tag[..], bits, chains, b, k);
      UnlinkChains(next0, hashNext[..], tag[..], bits, chains, h, k, chains');
      chains := chains';
    }

    /** link_htab_ent */
    method Link(b: int)
      requires Good(b) && 0 <= b < n
      modifies this`chains, hashNext, hash
      ensures Good(NONE)
    {
      var h := Bucket(tag[b], bits);
      ghost var c, next0 := chains[h], hashNext[..];
      hashNext[b] := hash[h];
      hash[h] := b;
      ChainWith(next0, hashNext[..], c, b);
      LinkIndexed(tag[..], bits, chains, b);
      forall a | 0 <= a < Pow2(bits) && a != h ensures Chain(hashNext[..], chains[a]) {
        ChainFrame(next0, hashNext[..], chains[a]);
      }
      chains := chains[h := [b] + c];
    }

    /** The miss path: the replaced block leaves the bucket of its old tag and enters that of the new. */
    method Refill(b: int, newTag: nat)
      requires Good(NONE) && 0 <= b < n
      modifies this`chains, hashNext, hash, tag, valid
      ensures Good(NONE) && tag[..] == old(tag[..])[b := newTag] && valid[..] == old(valid[..])[b := true]
    {
      Unlink(b);
      ghost var tags := tag[..];
      tag[b] := newTag;
      RetagIndexed(tags, bits, chains, b, newTag);
      valid[b] := true;
      Link(b);
    }

    /** The bucket search. */
    method IsCacheHit(t: nat) returns (hit: bool)
      requires Good(NONE)
      ensures hit <==> exists i :: 0 <= i < n && tag[..][i] == t && valid[..][i]
    {
      var h := Bucket(t, bits);
      ghost var c, k := chains[h], 0;
      var blk := hash[h];
      BucketSuffices(tag[..], bits, valid[..], chains, t);
      while blk != NONE
        invariant 0 <= k <= |c| && blk == (if k < |c| then c[k] else NONE)
        invariant forall j :: 0 <= j < k ==> !(tag[c[j]] == t && valid[c[j]])
        decreases |c| - k
      {
        if tag[blk] == t && valid[blk] {
          assert tag[..][blk] == t && valid[..][blk];
          return true;
        }
        assert NextAt(hashNext[..], c, k);
        blk := hashNext[blk];
        k := k + 1;
      }
      hit := false;
    }

    /** The scan of the way list gives the same answer. */
    method IsCacheHitByScan(ways: Ways, t: nat) returns (hit: bool)
      requires Good(NONE) && ways.Valid() && ways.n == n
      ensures hit <==> exists i :: 0 <= i < n && tag[..][i] == t && valid[..][i]
    {
      ghost var o, k := ways.order, 0;
      LinkedPermutes(ways.prev[..], ways.next[..], o, n);
      var blk := ways.head;
      while blk != NONE
        invariant 0 <= k <= n && blk == (if k < n then o[k] else NONE)
        invariant forall j :: 0 <= j < k ==> !Carries(tag[..], valid[..], t, o[j])
        decreases n - k
      {
        if tag[blk] == t && valid[blk] {
          assert tag[..][blk] == t && valid[..][blk];
          return true;
        }
        NextInList(ways, k);
        blk := ways.next[blk];
        k := k + 1;
      }
      NoneCarries(o, n, tag[..], valid[..], t);
      hit := false;
    }
  }
}
