/**
 * A fixed-length bitset: `len` bits, of which the positions in `ones` are set.
 * Asking about a position at or past the end reads as unset; setting one
 * there panics.
 */
module FixedBits {

  datatype BitSet = BitSet(len: nat, ones: set<nat>)
  {
    /** Every set position lies inside the bitset. */
    predicate Valid()
    {
      forall i :: i in ones ==> i < len
    }

    /** `contains`. */
    predicate Contains(i: int)
    {
      i >= 0 && i in ones
    }

    /** `insert`: sets bit `i`, which must lie inside the bitset. */
    function Insert(i: nat): (r: BitSet)
      requires i < len
      ensures r.len == len && r.ones == ones + {i}
      ensures Valid() ==> r.Valid()
    {
      BitSet(len, ones + {i})
    }

    /** `set(i, false)`: unsets bit `i`, which must lie inside the bitset. */
    function Remove(i: nat): (r: BitSet)
      requires i < len
      ensures r.len == len && r.ones == ones - {i}
      ensures Valid() ==> r.Valid()
    {
      BitSet(len, ones - {i})
    }

    /** `clear`: all bits unset, the length kept. */
    function Clear(): (r: BitSet)
      ensures r.len == len && r.ones == {} && r.Valid()
    {
      BitSet(len, {})
    }

    /** `count_ones(..)`. */
    function CountOnes(): nat
    {
      |ones|
    }
  }

  /** `FixedBitSet::with_capacity(n)`: `n` bits, none set. */
  function WithCapacity(n: nat): (r: BitSet)
    ensures r.len == n && r.ones == {} && r.Valid()
  {
    BitSet(n, {})
  }

  /** Setting a bit that was unset adds one to the count, setting one that was set changes nothing. */
  lemma InsertCount(b: BitSet, i: nat)
    requires i < b.len
    ensures b.Insert(i).CountOnes() == if b.Contains(i) then b.CountOnes() else b.CountOnes() + 1
    ensures b.Contains(i) ==> b.Insert(i) == b
  {
    if i in b.ones {
      assert b.ones + {i} == b.ones;
    } else {
      assert b.ones * {i} == {};
    }
  }

  /** Unsetting a bit that was set takes one from the count, unsetting one that was unset changes nothing. */
  lemma RemoveCount(b: BitSet, i: nat)
    requires i < b.len
    ensures b.Remove(i).CountOnes() == if b.Contains(i) then b.CountOnes() - 1 else b.CountOnes()
    ensures !b.Contains(i) ==> b.Remove(i) == b
  {
    if i in b.ones {
      assert b.ones == (b.ones - {i}) + {i};
    } else {
      assert b.ones - {i} == b.ones;
    }
  }
}
