/**
 * Palette compaction (`clean_palette`): the entries of a palette that no index
 * refers to are dropped, and the indexes are renumbered so that each still
 * names the same entry.
 */
module Palette {

  /** At least one index refers to palette position `v`. */
  predicate Used(d: seq<int>, v: int)
  {
    v in d
  }

  /** How many of the positions `lo .. hi - 1` no index refers to. */
  function UnusedBetween(d: seq<int>, lo: int, hi: int): (n: nat)
    ensures n <= if lo < hi then hi - lo else 0
    decreases hi - lo
  {
    if lo >= hi then 0 else (if Used(d, lo) then 0 else 1) + UnusedBetween(d, lo + 1, hi)
  }

  /** The entries from position `lo` on that survive compaction, in palette order. */
  function KeptFrom<T>(p: seq<T>, d: seq<int>, lo: nat): (r: seq<T>)
    requires lo <= |p|
    decreases |p| - lo
  {
    if lo == |p| then [] else (if Used(d, lo) then [p[lo]] else []) + KeptFrom(p, d, lo + 1)
  }

  /** The compacted palette. */
  function Kept<T>(p: seq<T>, d: seq<int>): seq<T>
  {
    KeptFrom(p, d, 0)
  }

  /** The new position of entry `v`: `v` minus the unused positions below it. */
  function Rank(d: seq<int>, v: int): int
  {
    v - UnusedBetween(d, 0, v)
  }

  lemma {:induction false} UnusedSplit(d: seq<int>, lo: int, mid: int, hi: int)
    requires lo <= mid <= hi
    ensures UnusedBetween(d, lo, hi) == UnusedBetween(d, lo, mid) + UnusedBetween(d, mid, hi)
    decreases mid - lo
  {
    if lo < mid {
      UnusedSplit(d, lo + 1, mid, hi);
    }
  }

  /** The compacted palette has one entry per used position. */
  lemma {:induction false} KeptFromLength<T>(p: seq<T>, d: seq<int>, lo: nat)
    requires lo <= |p|
    ensures |KeptFrom(p, d, lo)| == |p| - lo - UnusedBetween(d, lo, |p|)
    decreases |p| - lo
  {
    if lo < |p| {
      KeptFromLength(p, d, lo + 1);
    }
  }

  /** A used entry found at its renumbered place, counting from `lo`. */
  lemma {:induction false} KeptFromAt<T>(p: seq<T>, d: seq<int>, lo: nat, v: nat)
    requires lo <= v < |p| && Used(d, v)
    ensures 0 <= v - lo - UnusedBetween(d, lo, v) < |KeptFrom(p, d, lo)|
    ensures KeptFrom(p, d, lo)[v - lo - UnusedBetween(d, lo, v)] == p[v]
    decreases v - lo
  {
    if lo < v {
      KeptFromAt(p, d, lo + 1, v);
    }
  }

  /** Every surviving entry comes from a used position at or after `lo`. */
  lemma {:induction false} KeptFromSource<T>(p: seq<T>, d: seq<int>, lo: nat, j: nat) returns (v: nat)
    requires lo <= |p| && j < |KeptFrom(p, d, lo)|
    ensures lo <= v < |p| && Used(d, v) && v - lo - UnusedBetween(d, lo, v) == j
    decreases |p| - lo
  {
    if Used(d, lo) && j == 0 {
      v := lo;
    } else if Used(d, lo) {
      v := KeptFromSource(p, d, lo + 1, j - 1);
    } else {
      v := KeptFromSource(p, d, lo + 1, j);
    }
  }

  /**
   * The compacted palette holds exactly the used entries, in palette order:
   * its length is the number of used positions, a used entry `v` sits at
   * `Rank(d, v)`, and (`KeptEntrySource`) each of its entries is some used
   * entry at its rank.
   */
  lemma CompactedPalette<T>(p: seq<T>, d: seq<int>)
    ensures |Kept(p, d)| == |p| - UnusedBetween(d, 0, |p|)
    ensures forall v :: 0 <= v < |p| && Used(d, v) ==>
              0 <= Rank(d, v) < |Kept(p, d)| && Kept(p, d)[Rank(d, v)] == p[v]
  {
    KeptFromLength(p, d, 0);
    forall v | 0 <= v < |p| && Used(d, v)
      ensures 0 <= Rank(d, v) < |Kept(p, d)| && Kept(p, d)[Rank(d, v)] == p[v]
    {
      KeptFromAt(p, d, 0, v);
    }
  }

  lemma KeptEntrySource<T>(p: seq<T>, d: seq<int>, j: nat) returns (v: nat)
    requires j < |Kept(p, d)|
    ensures v < |p| && Used(d, v) && Rank(d, v) == j && Kept(p, d)[j] == p[v]
  {
    v := KeptFromSource(p, d, 0, j);
    KeptFromAt(p, d, 0, v);
  }

  lemma {:induction false} NothingUsed(lo: int, hi: int)
    ensures UnusedBetween([], lo, hi) == if lo < hi then hi - lo else 0
    decreases hi - lo
  {
    if lo < hi {
      NothingUsed(lo + 1, hi);
    }
  }

  /** One more index can make at most one more position used. */
  lemma {:induction false} UnusedAfterAppend(d: seq<int>, x: int, lo: int, hi: int)
    ensures UnusedBetween(d + [x], lo, hi) + (if lo <= x < hi then 1 else 0) >= UnusedBetween(d, lo, hi)
    decreases hi - lo
  {
    if lo < hi {
      UnusedAfterAppend(d, x, lo + 1, hi);
      assert Used(d + [x], lo) <==> Used(d, lo) || lo == x;
    }
  }

  /** Compaction keeps at most one entry per index. */
  lemma {:induction false} KeptAtMostData<T>(p: seq<T>, d: seq<int>)
    ensures |Kept(p, d)| <= |d|
  {
    KeptFromLength(p, d, 0);
    UsedAtMost(d, |p|);
  }

  lemma {:induction false} UsedAtMost(d: seq<int>, n: nat)
    ensures n - UnusedBetween(d, 0, n) <= |d|
    decreases |d|
  {
    if d == [] {
      NothingUsed(0, n);
    } else {
      var init := d[..|d| - 1];
      assert d == init + [d[|d| - 1]];
      UnusedAfterAppend(init, d[|d| - 1], 0, n);
      UsedAtMost(init, n);
    }
  }

  /** Renumbering keeps the order of used entries: `Rank` is strictly increasing on them. */
  lemma RankMonotone(d: seq<int>, v: int, w: int)
    requires 0 <= v < w && Used(d, v)
    ensures Rank(d, v) < Rank(d, w)
  {
    UnusedSplit(d, 0, v, w);
    UnusedSplit(d, v, v + 1, w);
  }

  /** Cleaning a palette every entry of which is used changes nothing. */
  lemma {:induction false} CleanOfUsedPalette<T>(p: seq<T>, d: seq<int>, lo: nat)
    requires lo <= |p|
    requires forall v :: lo <= v < |p| ==> Used(d, v)
    ensures KeptFrom(p, d, lo) == p[lo..]
    ensures UnusedBetween(d, lo, |p|) == 0
    decreases |p| - lo
  {
    if lo < |p| {
      CleanOfUsedPalette(p, d, lo + 1);
    }
  }

  /**
   * After a full renumbering every position of the compacted palette is used,
   * so compacting again is the identity.
   */
  lemma CleanIdempotent<T>(p: seq<T>, d: seq<int>)
    requires forall k :: 0 <= k < |d| ==> 0 <= d[k] < |p|
    ensures var d' := seq(|d|, k requires 0 <= k < |d| => Rank(d, d[k]));
      Kept(Kept(p, d), d') == Kept(p, d) &&
      forall k :: 0 <= k < |d| ==> Rank(d', d'[k]) == d'[k]
  {
    var d' := seq(|d|, k requires 0 <= k < |d| => Rank(d, d[k]));
    var q := Kept(p, d);
    CompactedPalette(p, d);
    forall j | 0 <= j < |q|
      ensures Used(d', j)
    {
      var v := KeptEntrySource(p, d, j);
      var k :| 0 <= k < |d| && d[k] == v;
      assert d'[k] == j;
    }
    CleanOfUsedPalette(q, d', 0);
    forall k | 0 <= k < |d|
      ensures Rank(d', d'[k]) == d'[k]
    {
      assert Used(d, d[k]);
      assert 0 <= d'[k] < |q|;
      UnusedSplit(d', 0, d'[k], |q|);
    }
  }

  /**
   * `clean_palette(data, data_len, palette)`: counts the references to each
   * position over the WHOLE of `data`, removes the unreferenced entries from
   * the back, accumulating for each position the number of removed positions
   * at or below it, and then renumbers only the first `dataLen` indexes.
   * The compacted palette is returned. Every index must name an entry (the
   * count vector is indexed by it), and `dataLen` must not exceed `data`.
   */
  method CleanPalette<T>(data: array<int>, dataLen: nat, palette: seq<T>) returns (kept: seq<T>)
    requires dataLen <= data.Length
    requires forall k :: 0 <= k < data.Length ==> 0 <= data[k] < |palette|
    modifies data
    ensures kept == Kept(palette, old(data[..]))
    ensures forall k :: 0 <= k < dataLen ==> data[k] == Rank(old(data[..]), old(data[k]))
    ensures forall k :: dataLen <= k < data.Length ==> data[k] == old(data[k])
  {
    var count := CountReferences(data, |palette|);
    var offsets;
    kept, offsets := RemoveUnused(palette, count, data[..]);
    RenumberPrefix(data, dataLen, offsets);
  }

  /** The `palette_count` vector: how often each of the `n` positions occurs in `data`. */
  method CountReferences(data: array<int>, n: nat) returns (count: array<int>)
    requires forall k :: 0 <= k < data.Length ==> 0 <= data[k] < n
    ensures fresh(count) && count.Length == n
    ensures forall v :: 0 <= v < n ==> (count[v] == 0 <==> !Used(data[..], v))
  {
    count := new int[n](_ => 0);
    for k := 0 to data.Length
      invariant fresh(count) && count.Length == n
      invariant forall v :: 0 <= v < n ==> count[v] == multiset(data[..k])[v]
    {
      assert data[..k + 1] == data[..k] + [data[k]];
      count[data[k]] := count[data[k]] + 1;
    }
    assert data[..data.Length] == data[..];
  }

  /**
   * The removal loop: walks the positions from the last down, removes each
   * unreferenced one from the palette and adds one to the offset of every
   * position at or above it.
   */
  method RemoveUnused<T>(palette: seq<T>, count: array<int>, ghost d: seq<int>) returns (kept: seq<T>, offsets: array<int>)
    requires count.Length == |palette|
    requires forall v :: 0 <= v < |palette| ==> (count[v] == 0 <==> !Used(d, v))
    ensures fresh(offsets) && offsets.Length == |palette|
    ensures kept == Kept(palette, d)
    ensures forall j :: 0 <= j < |palette| ==> offsets[j] == UnusedBetween(d, 0, j + 1)
  {
    var n := |palette|;
    offsets := new int[n](_ => 0);
    kept := palette;
    var i := n - 1;
    while i >= 0
      invariant -1 <= i < n
      invariant fresh(offsets) && offsets.Length == n
      invariant kept == palette[..i + 1] + KeptFrom(palette, d, i + 1)
      invariant forall j :: 0 <= j < n ==> offsets[j] == UnusedBetween(d, i + 1, j + 1)
      decreases i
    {
      if count[i] == 0 {
        assert kept[i] == palette[i];
        kept := kept[..i] + kept[i + 1..];
        assert kept == palette[..i] + KeptFrom(palette, d, i);
        for j := i to n
          invariant forall v :: 0 <= v < n ==> offsets[v] == UnusedBetween(d, if v < j then i else i + 1, v + 1)
        {
          offsets[j] := offsets[j] + 1;
        }
      } else {
        assert palette[..i + 1] == palette[..i] + [palette[i]];
      }
      i := i - 1;
    }
    assert palette[..0] == [];
  }

  /** The renumbering loop: each of the first `dataLen` indexes loses its offset. */
  method RenumberPrefix(data: array<int>, dataLen: nat, offsets: array<int>)
    requires dataLen <= data.Length
    requires forall k :: 0 <= k < data.Length ==> 0 <= data[k] < offsets.Length
    requires forall j :: 0 <= j < offsets.Length ==> offsets[j] == UnusedBetween(data[..], 0, j + 1)
    requires data != offsets
    modifies data
    ensures forall k :: 0 <= k < dataLen ==> data[k] == Rank(old(data[..]), old(data[k]))
    ensures forall k :: dataLen <= k < data.Length ==> data[k] == old(data[k])
  {
    ghost var d := data[..];
    for b := 0 to dataLen
      invariant forall k :: 0 <= k < b ==> data[k] == Rank(d, d[k])
      invariant forall k :: b <= k < data.Length ==> data[k] == d[k]
    {
      var v := data[b];
      assert Used(d, v);
      UnusedSplit(d, 0, v, v + 1);
      data[b] := v - offsets[v];
    }
  }
}
