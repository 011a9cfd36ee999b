/** Taking addresses apart into tag, set and offset and putting them together again, for plain blocks
    and for regions of several blocks. */
module Address {
  import opened Bits

  /** CACHE_TAG and CACHE_SET for blocks (or regions) of 2^shift bytes and 2^bits sets. */
  function Tag(addr: nat, shift: nat, bits: nat): nat { Shr(addr, shift + bits) }

  function Set(addr: nat, shift: nat, bits: nat): (s: nat)
    ensures s < Pow2(bits)
  {
    LowBits(Shr(addr, shift), bits)
  }

  /** CACHE_BADDR */
  function BlockBase(addr: nat, shift: nat): nat { Shl(Shr(addr, shift), shift) }

  /** CACHE_MK_BADDR, and the address of a region. */
  function MakeAddress(tag: nat, s: nat, shift: nat, bits: nat): nat { Or(Shl(tag, shift + bits), Shl(s, shift)) }

  /** The two parts do not overlap. */
  lemma MakeAddressAdds(tag: nat, s: nat, shift: nat, bits: nat)
    requires s < Pow2(bits)
    ensures MakeAddress(tag, s, shift, bits) == Shl(tag, shift + bits) + Shl(s, shift)
  {
    ShlBelow(s, bits, shift);
    assert bits + shift == shift + bits;
    OrBelow(tag, Shl(s, shift), shift + bits);
  }

  /** CACHE_QBLK_TAG and CACHE_QBLK_SET for regions of 2^q blocks. */
  function RegionTag(addr: nat, shift: nat, bits: nat, q: nat): nat { Shr(addr, shift + bits + q) }

  function RegionSet(addr: nat, shift: nat, bits: nat, q: nat): (s: nat)
    ensures s < Pow2(bits)
  {
    LowBits(Shr(addr, shift + q), bits)
  }

  /** ---------------- round trips ---------------- */

  /** The base of a block is its address without the offset. */
  lemma BaseAndOffset(addr: nat, shift: nat)
    ensures BlockBase(addr, shift) + LowBits(addr, shift) == addr
  {
    Split(addr, shift);
  }

  /** Rebuilding an address from its tag and set gives the base of its block, and with its offset the
      address. */
  lemma RebuildsBase(addr: nat, shift: nat, bits: nat)
    ensures MakeAddress(Tag(addr, shift, bits), Set(addr, shift, bits), shift, bits) == BlockBase(addr, shift)
    ensures MakeAddress(Tag(addr, shift, bits), Set(addr, shift, bits), shift, bits) + LowBits(addr, shift) == addr
  {
    BaseAndOffset(addr, shift);
    MakeAddressAdds(Tag(addr, shift, bits), Set(addr, shift, bits), shift, bits);
    var y := Shr(addr, shift);
    ShrShr(addr, shift, bits);
    Split(y, bits);
    ShlPlus(Shl(Shr(y, bits), bits), LowBits(y, bits), shift);
    ShlShl(Shr(y, bits), bits, shift);
  }

  lemma SumApart(tag: nat, s: nat, off: nat, shift: nat, bits: nat, addr: nat)
    requires s < Pow2(bits) && off < Pow2(shift) && addr == Shl(tag, shift + bits) + Shl(s, shift) + off
    ensures Tag(addr, shift, bits) == tag && Set(addr, shift, bits) == s && BlockBase(addr, shift) == addr - off
  {
    var y := Shl(tag, bits) + s;
    ShlShl(tag, bits, shift);
    assert bits + shift == shift + bits;
    ShlPlus(Shl(tag, bits), s, shift);
    Join(y, off, shift);
    Join(tag, s, bits);
    ShrShr(addr, shift, bits);
  }

  /** And taking a rebuilt address apart, at any offset in the block, gives its tag and set back. */
  lemma TakesApart(tag: nat, s: nat, off: nat, shift: nat, bits: nat)
    requires s < Pow2(bits) && off < Pow2(shift)
    ensures var addr := MakeAddress(tag, s, shift, bits) + off;
            Tag(addr, shift, bits) == tag && Set(addr, shift, bits) == s && BlockBase(addr, shift) == addr - off
  {
    MakeAddressAdds(tag, s, shift, bits);
    SumApart(tag, s, off, shift, bits, MakeAddress(tag, s, shift, bits) + off);
  }

  /** A region is a block 2^q times as large. */
  lemma RegionIsLargeBlock(addr: nat, shift: nat, bits: nat, q: nat)
    ensures RegionTag(addr, shift, bits, q) == Tag(addr, shift + q, bits)
    ensures RegionSet(addr, shift, bits, q) == Set(addr, shift + q, bits)
  {
    assert shift + bits + q == shift + q + bits;
  }

  lemma RegionRebuilds(addr: nat, shift: nat, bits: nat, q: nat)
    ensures Shl(RegionTag(addr, shift, bits, q), shift + bits + q) + Shl(RegionSet(addr, shift, bits, q), shift + q)
         == BlockBase(addr, shift + q)
  {
    RegionIsLargeBlock(addr, shift, bits, q);
    RebuildsBase(addr, shift + q, bits);
    MakeAddressAdds(RegionTag(addr, shift, bits, q), RegionSet(addr, shift, bits, q), shift + q, bits);
    assert shift + bits + q == shift + q + bits;
  }

  /** Two addresses agree on region tag and region set exactly when they lie in the same region. */
  lemma SameRegionExactly(a: nat, b: nat, shift: nat, bits: nat, q: nat)
    ensures RegionTag(a, shift, bits, q) == RegionTag(b, shift, bits, q)
            && RegionSet(a, shift, bits, q) == RegionSet(b, shift, bits, q)
            <==> BlockBase(a, shift + q) == BlockBase(b, shift + q)
  {
    var r := shift + q;
    RegionRebuilds(a, shift, bits, q);
    RegionRebuilds(b, shift, bits, q);
    RegionIsLargeBlock(a, shift, bits, q);
    RegionIsLargeBlock(b, shift, bits, q);
    Join(Shr(a, r), 0, r);
    Join(Shr(b, r), 0, r);
    ShrShr(a, r, bits);
    ShrShr(b, r, bits);
  }

  /** ---------------- the blocks of a region ---------------- */

  /** The index of a block in its region. */
  function IndexIn(addr: nat, shift: nat, q: nat): (i: nat)
    ensures i < Pow2(q)
  {
    LowBits(Shr(addr, shift), q)
  }

  /** Region, block index and offset of an address. */
  lemma ThreeParts(addr: nat, shift: nat, q: nat)
    ensures addr == Shl(Shr(addr, shift + q), shift + q) + Shl(IndexIn(addr, shift, q), shift) + LowBits(addr, shift)
    ensures Shr(addr, shift) == Shl(Shr(addr, shift + q), q) + IndexIn(addr, shift, q)
  {
    var y := Shr(addr, shift);
    Split(addr, shift);
    Split(y, q);
    ShrShr(addr, shift, q);
    ShlPlus(Shl(Shr(y, q), q), LowBits(y, q), shift);
    ShlShl(Shr(y, q), q, shift);
    assert q + shift == shift + q;
  }

  /** addr & ~(mask << shift): the block index cleared. */
  function Cleared(addr: nat, shift: nat, q: nat): (r: nat) {
    ThreeParts(addr, shift, q);
    addr - Shl(IndexIn(addr, shift, q), shift)
  }

  /** The address at the same offset in block i of the region. */
  function SubBlock(addr: nat, i: nat, shift: nat, q: nat): nat { Cleared(addr, shift, q) + Shl(i, shift) }

  /** What sub-block i is made of. */
  lemma SubBlockParts(addr: nat, i: nat, shift: nat, q: nat)
    requires i < Pow2(q)
    ensures var s := SubBlock(addr, i, shift, q);
            && LowBits(s, shift) == LowBits(addr, shift)
            && Shr(s, shift) == Shl(Shr(addr, shift + q), q) + i
            && IndexIn(s, shift, q) == i && Cleared(s, shift, q) == Cleared(addr, shift, q)
  {
    var s, t, off := SubBlock(addr, i, shift, q), Shr(addr, shift + q), LowBits(addr, shift);
    ThreeParts(addr, shift, q);
    ShlShl(t, q, shift);
    assert q + shift == shift + q;
    ShlPlus(Shl(t, q), i, shift);
    assert s == Shl(Shl(t, q) + i, shift) + off;
    Join(Shl(t, q) + i, off, shift);
    Join(t, i, q);
  }

  /** A block of the region is sub-block i for exactly one i, its index. */
  lemma RegionCovered(addr: nat, x: nat, i: nat, shift: nat, q: nat)
    requires i < Pow2(q)
    ensures Shr(x, shift) == Shr(SubBlock(addr, i, shift, q), shift) <==>
            Shr(x, shift + q) == Shr(addr, shift + q) && IndexIn(x, shift, q) == i
  {
    SubBlockParts(addr, i, shift, q);
    ThreeParts(x, shift, q);
    Join(Shr(addr, shift + q), i, q);
    ShrShr(x, shift, q);
  }

  lemma SubBlocksDiffer(addr: nat, i: nat, j: nat, shift: nat, q: nat)
    requires i < Pow2(q) && j < Pow2(q) && i != j
    ensures SubBlock(addr, i, shift, q) != SubBlock(addr, j, shift, q)
  {
    SubBlockParts(addr, i, shift, q);
    SubBlockParts(addr, j, shift, q);
  }

  /** The addresses the loop stops at, in order: all sub-blocks below i but the event's own. */
  ghost function Others(addr: nat, i: nat, shift: nat, q: nat): seq<nat> {
    if i == 0 then []
    else if SubBlock(addr, i - 1, shift, q) == addr then Others(addr, i - 1, shift, q)
    else Others(addr, i - 1, shift, q) + [SubBlock(addr, i - 1, shift, q)]
  }

  /** An address is among them exactly when it is a sub-block below i other than the event's own. */
  lemma {:induction false} OthersExactly(addr: nat, i: nat, shift: nat, q: nat, x: nat)
    requires i <= Pow2(q)
    ensures x in Others(addr, i, shift, q) <==> x != addr && exists j: nat :: j < i && x == SubBlock(addr, j, shift, q)
  {
    if i > 0 { OthersExactly(addr, i - 1, shift, q, x); }
  }

  /** No address comes twice. */
  lemma {:induction false} OthersOnce(addr: nat, i: nat, shift: nat, q: nat)
    requires i <= Pow2(q)
    ensures var s := Others(addr, i, shift, q); forall j, k :: 0 <= j < k < |s| ==> s[j] != s[k]
  {
    if i > 0 {
      OthersOnce(addr, i - 1, shift, q);
      var x := SubBlock(addr, i - 1, shift, q);
      OthersExactly(addr, i - 1, shift, q, x);
      forall j: nat | j < i - 1 ensures SubBlock(addr, j, shift, q) != x { SubBlocksDiffer(addr, j, i - 1, shift, q); }
    }
  }

  /** The loop over the other blocks of a region. */
  method VisitOthers(eventAddr: nat, shift: nat, q: nat) returns (visited: seq<nat>)
    ensures visited == Others(eventAddr, Pow2(q), shift, q)
  {
    var addr := eventAddr;
    visited := [];
    for i := 0 to Pow2(q)
      invariant addr >= 0 && Cleared(addr, shift, q) == Cleared(eventAddr, shift, q)
      invariant visited == Others(eventAddr, i, shift, q)
    {
      addr := Cleared(addr, shift, q) + Shl(i, shift);
      SubBlockParts(eventAddr, i, shift, q);
      if addr == eventAddr { continue; }
      visited := visited + [addr];
    }
  }

  /** Together with the event's own block, every block of the region is visited, and once. */
  lemma VisitsEachBlockOnce(addr: nat, x: nat, shift: nat, q: nat)
    requires Shr(x, shift + q) == Shr(addr, shift + q)
    ensures var s := SubBlock(addr, IndexIn(x, shift, q), shift, q);
            && Shr(s, shift) == Shr(x, shift) && (s == addr || s in Others(addr, Pow2(q), shift, q))
            && forall y :: y in Others(addr, Pow2(q), shift, q) && Shr(y, shift) == Shr(x, shift) ==> y == s
  {
    var i := IndexIn(x, shift, q);
    var s := SubBlock(addr, i, shift, q);
    RegionCovered(addr, x, i, shift, q);
    OthersExactly(addr, Pow2(q), shift, q, s);
    forall y | y in Others(addr, Pow2(q), shift, q) && Shr(y, shift) == Shr(x, shift) ensures y == s {
      OthersExactly(addr, Pow2(q), shift, q, y);
      var j: nat :| j < Pow2(q) && y == SubBlock(addr, j, shift, q);
      RegionCovered(addr, x, j, shift, q);
    }
  }
}
