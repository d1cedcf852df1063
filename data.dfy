/**
 * The packed long arrays that hold palette indexes of a section's blocks and
 * biomes. With `b` bits per entry, each 64-bit word holds `64 / b` entries
 * from the least significant bits up; no entry straddles two words and the
 * unused top bits of a word stay zero. The words are stored as signed i64.
 */
module PackedData {
  import opened Arith
  import opened Errors
  import opened Nbt

  /** 2^63 and 2^64: the i64 range is `-TWO_63 .. TWO_63 - 1`. */
  const TWO_63: int := 0x8000_0000_0000_0000
  const TWO_64: int := 0x1_0000_0000_0000_0000

  /** How many entries of `b` bits fit in one word. */
  function PerWord(b: nat): (k: nat)
    requires 1 <= b <= 64
    ensures 1 <= k <= 64 && k * b <= 64 < k * b + b
  {
    64 / b
  }

  /** The signed i64 whose two's-complement bit pattern is `p`. */
  function ToI64(p: int): int
  {
    if p >= TWO_63 then p - TWO_64 else p
  }

  lemma Two64()
    ensures TWO_64 == 2 * TWO_63 && TWO_63 >= 1 && TWO_63 == Pow2(63) && TWO_64 == Pow2(64)
  {
    Pow2Word();
    Pow2Add(32, 32);
    assert Pow2(64) == 2 * Pow2(63);
  }

  lemma Pow2Half()
    ensures Pow2(16) == 0x1_0000
  {
    assert Pow2(8) == 0x100;
    Pow2Add(8, 8);
  }

  lemma Pow2Word()
    ensures Pow2(32) == 0x1_0000_0000
  {
    Pow2Half();
    Pow2Add(16, 16);
  }

  /** `ToI64` gives an i64 whose bit pattern (its remainder modulo 2^64) is `p`. */
  lemma ToI64Pattern(p: int)
    requires 0 <= p < TWO_64
    ensures -TWO_63 <= ToI64(p) < TWO_63 && ToI64(p) % TWO_64 == p
  {
    Two64();
    if p >= TWO_63 {
      DivModUnique(p - TWO_64, TWO_64, -1, p);
    } else {
      DivModUnique(p, TWO_64, 0, p);
    }
  }

  predicate Fits(xs: seq<int>, b: nat)
  {
    forall i :: 0 <= i < |xs| ==> 0 <= xs[i] < Pow2(b)
  }

  /** The bit pattern of one word: entry `i` occupies bits `i*b .. i*b + b - 1`. */
  function WordValue(xs: seq<int>, b: nat): int
    decreases |xs|
  {
    if xs == [] then 0 else xs[0] + Pow2(b) * WordValue(xs[1..], b)
  }

  /** `Pow2(b)` raised to the `n`th power, i.e. `2^(n*b)` (see `Pow2Mul`). */
  function PowB(b: nat, n: nat): (r: nat)
    ensures r >= 1
  {
    if n == 0 then 1 else Pow2(b) * PowB(b, n - 1)
  }

  lemma {:induction false} Pow2Mul(n: nat, b: nat)
    ensures Pow2(n * b) == PowB(b, n)
  {
    if n > 0 {
      Pow2Mul(n - 1, b);
      assert n * b == b + (n - 1) * b;
      Pow2Add(b, (n - 1) * b);
    }
  }

  lemma {:induction false} WordValueBound(xs: seq<int>, b: nat)
    requires Fits(xs, b)
    ensures 0 <= WordValue(xs, b) < PowB(b, |xs|)
    decreases |xs|
  {
    if xs != [] {
      WordValueBound(xs[1..], b);
      MulAddBound(xs[0], Pow2(b), WordValue(xs[1..], b), PowB(b, |xs| - 1));
    }
  }

  /** A chunk of at most `PerWord(b)` entries packs into a word below `2^64`. */
  lemma WordFits(xs: seq<int>, b: nat)
    requires 1 <= b <= 64 && Fits(xs, b) && |xs| <= PerWord(b)
    ensures 0 <= WordValue(xs, b) < TWO_64
  {
    Two64();
    WordValueBound(xs, b);
    Pow2Mul(|xs|, b);
    MulLeMono(|xs|, PerWord(b), b);
    Pow2Monotone(|xs| * b, 64);
  }

  /** The packed words of `xs`, `PerWord(b)` entries per word, a partial last word kept when non-empty. */
  function Pack(xs: seq<int>, b: nat): (ws: seq<int>)
    requires 1 <= b <= 64
    decreases |xs|
  {
    var k := PerWord(b);
    if xs == [] then []
    else if |xs| <= k then [ToI64(WordValue(xs, b))]
    else [ToI64(WordValue(xs[..k], b))] + Pack(xs[k..], b)
  }

  /** Entry `o` of a word: `(word >> (o * b)) & ((1 << b) - 1)` on a signed i64, i.e. floor division then remainder. */
  function Field(w: int, o: nat, b: nat): (x: int)
    ensures 0 <= x < Pow2(b)
  {
    (w / Pow2(o * b)) % Pow2(b)
  }

  function Fields(w: int, b: nat): (xs: seq<int>)
    requires 1 <= b <= 64
    ensures |xs| == PerWord(b)
  {
    seq(PerWord(b), o requires 0 <= o => Field(w, o, b))
  }

  function Unpack(ws: seq<int>, b: nat): (xs: seq<int>)
    requires 1 <= b <= 64
  {
    if ws == [] then [] else Fields(ws[0], b) + Unpack(ws[1..], b)
  }

  /** The result of `decode_data(size, b, data)`. */
  function Decoded(size: nat, b: nat, data: Option<seq<int>>): (xs: seq<int>)
    requires data.Some? ==> 1 <= b <= 64
    ensures |xs| <= size
  {
    match data
    case None => seq(size, _ => 0)
    case Some(ws) =>
      var xs := Unpack(ws, b);
      if |xs| <= size then xs else xs[..size]
  }

  // ---- arithmetic of one word ----

  lemma {:induction false} FieldOfWordValue(xs: seq<int>, b: nat, o: nat)
    requires 1 <= b && Fits(xs, b)
    ensures Field(WordValue(xs, b), o, b) == if o < |xs| then xs[o] else 0
    decreases o
  {
    Pow2Mul(o, b);
    var B := Pow2(b);
    var p := WordValue(xs, b);
    if xs == [] {
      assert 0 / PowB(b, o) == 0;
    } else {
      var rest := WordValue(xs[1..], b);
      DivModUnique(p, B, rest, xs[0]);
      if o > 0 {
        DivDiv(p, B, PowB(b, o - 1));
        FieldOfWordValue(xs[1..], b, o - 1);
        Pow2Mul(o - 1, b);
      }
    }
  }

  /** Reading a field from the signed word equals reading it from its bit pattern. */
  lemma FieldOfToI64(p: int, o: nat, b: nat)
    requires 0 <= p < TWO_64 && 1 <= b && o * b + b <= 64
    ensures Field(ToI64(p), o, b) == Field(p, o, b)
  {
    if p >= TWO_63 {
      Two64();
      MulNonNeg(o, b);
      var s: nat := o * b;
      var S, T, B, U := Pow2(s), Pow2(64 - s), Pow2(b), Pow2(64 - s - b);
      Pow2Add(s, 64 - s);
      Pow2Add(b, 64 - s - b);
      assert s + (64 - s) == 64 && b + (64 - s - b) == 64 - s;
      assert ToI64(p) == p - S * T;
      WrapField(p, S, T, B, U);
    }
  }

  /** Subtracting `S * (B * U)` leaves field `(p / S) % B` unchanged. */
  lemma WrapField(p: int, S: int, T: int, B: int, U: int)
    requires S > 0 && B > 0 && T == B * U
    ensures ((p - S * T) / S) % B == (p / S) % B
  {
    MulNegRight(S, T);
    DivModAddMultiple(p, S, -T);
    MulNegRight(B, U);
    DivModAddMultiple(p / S, B, -U);
  }

  lemma FitsInWordIff(n: nat, b: nat)
    requires 1 <= b <= 64
    ensures n * b + b <= 64 <==> n < PerWord(b)
  {
    var k := PerWord(b);
    if n < k {
      MulNonNeg(k - n - 1, b);
      assert (k - n - 1) * b + n * b + b == k * b;
    } else {
      MulNonNeg(n - k, b);
      assert (n - k) * b + k * b == n * b;
    }
  }

  function Zeros(n: nat): (z: seq<int>)
    ensures |z| == n && forall i :: 0 <= i < n ==> z[i] == 0
  {
    seq(n, _ => 0)
  }

  /** The fields of the word packed from a chunk of at most `PerWord(b)` entries are the chunk, zero-padded. */
  lemma FieldsOfPackedWord(xs: seq<int>, b: nat)
    requires 1 <= b <= 64 && Fits(xs, b) && |xs| <= PerWord(b)
    ensures 0 <= WordValue(xs, b) < TWO_64
    ensures Fields(ToI64(WordValue(xs, b)), b) == xs + Zeros(PerWord(b) - |xs|)
  {
    var k := PerWord(b);
    WordFits(xs, b);
    var p := WordValue(xs, b);
    var lhs := Fields(ToI64(p), b);
    var rhs := xs + Zeros(k - |xs|);
    forall o | 0 <= o < k ensures lhs[o] == rhs[o] {
      FitsInWordIff(o, b);
      FieldOfToI64(p, o, b);
      FieldOfWordValue(xs, b, o);
    }
  }

  // ---- packing and unpacking whole arrays ----

  lemma {:induction false} UnpackAppend(a: seq<int>, c: seq<int>, b: nat)
    requires 1 <= b <= 64
    ensures Unpack(a + c, b) == Unpack(a, b) + Unpack(c, b)
    decreases |a|
  {
    if a != [] {
      assert (a + c)[1..] == a[1..] + c;
      UnpackAppend(a[1..], c, b);
    } else {
      assert a + c == c;
    }
  }

  lemma {:induction false} UnpackLength(ws: seq<int>, b: nat)
    requires 1 <= b <= 64
    ensures |Unpack(ws, b)| == PerWord(b) * |ws|
    decreases |ws|
  {
    if ws != [] {
      UnpackLength(ws[1..], b);
    }
  }

  /** Word count of the packed array: the entry count divided by `PerWord(b)`, rounded up. */
  lemma {:induction false} PackLength(xs: seq<int>, b: nat)
    requires 1 <= b <= 64 && Fits(xs, b)
    ensures |Pack(xs, b)| == (|xs| + PerWord(b) - 1) / PerWord(b)
    decreases |xs|
  {
    var k := PerWord(b);
    if xs == [] {
      DivModUnique(k - 1, k, 0, k - 1);
    } else if |xs| <= k {
      DivModUnique(|xs| + k - 1, k, 1, |xs| - 1);
    } else {
      PackLength(xs[k..], b);
      DivModAddMultiple(|xs| - k + k - 1, k, 1);
    }
  }

  /** Unpacking the packed array gives the entries back, then zeros up to the end of the last word. */
  lemma {:induction false} UnpackPack(xs: seq<int>, b: nat)
    requires 1 <= b <= 64 && Fits(xs, b)
    ensures |Unpack(Pack(xs, b), b)| >= |xs|
    ensures Unpack(Pack(xs, b), b) == xs + Zeros(|Unpack(Pack(xs, b), b)| - |xs|)
    decreases |xs|
  {
    var k := PerWord(b);
    if xs == [] {
    } else if |xs| <= k {
      FieldsOfPackedWord(xs, b);
      assert Unpack(Pack(xs, b), b) == Fields(ToI64(WordValue(xs, b)), b) + Unpack([], b);
    } else {
      var head, tail := xs[..k], xs[k..];
      assert xs == head + tail;
      assert Fits(head, b) && Fits(tail, b);
      FieldsOfPackedWord(head, b);
      UnpackPack(tail, b);
      assert Pack(xs, b) == [ToI64(WordValue(head, b))] + Pack(tail, b);
      UnpackPackStep(head, tail, b, Pack(xs, b));
    }
  }

  /** One step of `UnpackPack`: a full first word followed by the rest. */
  lemma UnpackPackStep(head: seq<int>, tail: seq<int>, b: nat, ws: seq<int>)
    requires 1 <= b <= 64 && |head| == PerWord(b)
    requires ws == [ToI64(WordValue(head, b))] + Pack(tail, b)
    requires Fields(ToI64(WordValue(head, b)), b) == head + Zeros(0)
    requires |Unpack(Pack(tail, b), b)| >= |tail|
    requires Unpack(Pack(tail, b), b) == tail + Zeros(|Unpack(Pack(tail, b), b)| - |tail|)
    ensures |Unpack(ws, b)| >= |head + tail|
    ensures Unpack(ws, b) == (head + tail) + Zeros(|Unpack(ws, b)| - |head + tail|)
  {
    assert ws[0] == ToI64(WordValue(head, b)) && ws[1..] == Pack(tail, b);
    var ut := Unpack(Pack(tail, b), b);
    var n := |ut| - |tail|;
    assert Zeros(0) == [];
    assert Unpack(ws, b) == head + ut;
    assert head + (tail + Zeros(n)) == (head + tail) + Zeros(n);
  }

  /** Decoding what was encoded gives back exactly the entries. */
  lemma DecodeEncode(xs: seq<int>, b: nat)
    requires 1 <= b <= 64 && Fits(xs, b)
    ensures Decoded(|xs|, b, Some(Pack(xs, b))) == xs
  {
    UnpackPack(xs, b);
  }

  /** With more room than entries, decoding also yields the zero padding of the last word. */
  lemma DecodeEncodePadded(xs: seq<int>, b: nat, size: nat)
    requires 1 <= b <= 64 && Fits(xs, b) && size >= |xs|
    ensures |Decoded(size, b, Some(Pack(xs, b)))| >= |xs|
    ensures Decoded(size, b, Some(Pack(xs, b)))[..|xs|] == xs
    ensures forall i :: |xs| <= i < |Decoded(size, b, Some(Pack(xs, b)))| ==> Decoded(size, b, Some(Pack(xs, b)))[i] == 0
  {
    UnpackPack(xs, b);
  }

  lemma {:induction false} UnpackFits(ws: seq<int>, b: nat)
    requires 1 <= b <= 64
    ensures Fits(Unpack(ws, b), b)
    decreases |ws|
  {
    if ws != [] {
      UnpackFits(ws[1..], b);
    }
  }

  /** Decoding yields `size` entries when there are words enough, fewer otherwise, and each fits in `b` bits. */
  lemma DecodedShape(size: nat, b: nat, data: Option<seq<int>>)
    requires data.Some? ==> 1 <= b <= 64
    ensures data.None? ==> Decoded(size, b, data) == Zeros(size)
    ensures data.Some? ==> |Decoded(size, b, data)| == if PerWord(b) * |data.value| < size then PerWord(b) * |data.value| else size
    ensures data.Some? ==> Fits(Decoded(size, b, data), b)
  {
    if data.Some? {
      UnpackLength(data.value, b);
      UnpackFits(data.value, b);
    }
  }

  /** Every packed word is an i64 whose bits above the last whole entry are zero. */
  lemma {:induction false} PackedWordsPadded(xs: seq<int>, b: nat, i: nat)
    requires 1 <= b <= 64 && Fits(xs, b) && i < |Pack(xs, b)|
    ensures var w := Pack(xs, b)[i]; -TWO_63 <= w < TWO_63 && w % TWO_64 < PowB(b, PerWord(b))
    decreases |xs|
  {
    var k := PerWord(b);
    if i == 0 {
      var chunk := if |xs| <= k then xs else xs[..k];
      assert Pack(xs, b)[0] == ToI64(WordValue(chunk, b));
      WordFits(chunk, b);
      ToI64Pattern(WordValue(chunk, b));
      WordValueBound(chunk, b);
      PowBMonotone(b, |chunk|, k);
    } else {
      assert Pack(xs, b)[i] == Pack(xs[k..], b)[i - 1];
      PackedWordsPadded(xs[k..], b, i - 1);
    }
  }

  lemma {:induction false} PowBMonotone(b: nat, m: nat, n: nat)
    requires m <= n
    ensures PowB(b, m) <= PowB(b, n)
    decreases n
  {
    if m < n {
      PowBMonotone(b, m, n - 1);
      MulLe(Pow2(b), PowB(b, n - 1));
    }
  }

  /** `n` is a whole number of words of `k` entries. */
  predicate WholeWords(n: nat, k: nat)
    decreases n
  {
    n == 0 || (k >= 1 && n >= k && WholeWords(n - k, k))
  }

  lemma {:induction false} PackSnoc(ys: seq<int>, zs: seq<int>, b: nat)
    requires 1 <= b <= 64 && Fits(ys, b) && Fits(zs, b)
    requires WholeWords(|ys|, PerWord(b)) && 0 < |zs| <= PerWord(b)
    ensures Fits(ys + zs, b)
    ensures Pack(ys + zs, b) == Pack(ys, b) + [ToI64(WordValue(zs, b))]
    decreases |ys|
  {
    var k := PerWord(b);
    if |ys| == 0 {
      assert ys + zs == zs;
    } else {
      assert (ys + zs)[..k] == ys[..k];
      assert (ys + zs)[k..] == ys[k..] + zs;
      PackSnoc(ys[k..], zs, b);
    }
  }

  lemma {:induction false} WordValueSnoc(xs: seq<int>, x: int, b: nat)
    requires Fits(xs, b) && 0 <= x < Pow2(b)
    ensures Fits(xs + [x], b)
    ensures WordValue(xs + [x], b) == WordValue(xs, b) + x * PowB(b, |xs|)
    decreases |xs|
  {
    if xs == [] {
      assert WordValue([x], b) == x + Pow2(b) * WordValue([], b);
    } else {
      assert (xs + [x])[1..] == xs[1..] + [x];
      WordValueSnoc(xs[1..], x, b);
      Distrib(Pow2(b), WordValue(xs[1..], b), x * PowB(b, |xs| - 1));
      MulAssoc(Pow2(b), x, PowB(b, |xs| - 1));
    }
  }

  // ---- the two operations ----

  /**
   * `encode_data`: packs `data` at `bitCount` bits per entry and stores the
   * words as the state's "data" long array, inserting or replacing it.
   * `size` is only a capacity hint. `current` is the bit pattern of the word
   * being filled; it stays below `2^(offset * bitCount)`, so OR-ing in
   * `block << (offset * bitCount)` adds `block * 2^(offset * bitCount)`.
   */
  method EncodeData(size: nat, bitCount: nat, data: seq<int>, state: Compound) returns (newState: Compound)
    requires 1 <= bitCount <= 64 && Fits(data, bitCount)
    requires "data" in state ==> state["data"].TLongArray?
    ensures newState == state["data" := TLongArray(Pack(data, bitCount))]
  {
    var newBlockdata := PackWords(data, bitCount);
    newState := state["data" := TLongArray(newBlockdata)];
  }

  /** The packing loop of `encode_data`: entries gathered word by word, a partial last word closed at the end. */
  method PackWords(data: seq<int>, bitCount: nat) returns (words: seq<int>)
    requires 1 <= bitCount <= 64 && Fits(data, bitCount)
    ensures words == Pack(data, bitCount)
  {
    var k := PerWord(bitCount);
    words := [];
    var offset: nat := 0;
    var current := 0;
    ghost var start: nat := 0;
    for i := 0 to |data|
      invariant offset < k && start + offset == i && WholeWords(start, k)
      invariant words == Pack(data[..start], bitCount)
      invariant current == WordValue(data[start..i], bitCount)
    {
      var block := data[i];
      PackStep(data, start, i, offset, bitCount, words, current);
      current := ShiftIn(current, block, offset, bitCount);
      offset := offset + 1;
      if WordFull(offset, bitCount) {
        words := words + [ToI64(current)];
        current := 0;
        offset := 0;
        start := i + 1;
      }
    }
    assert data[..|data|] == data;
    if offset > 0 {
      PushWord(data, start, |data|, bitCount, words, current);
      words := words + [ToI64(current)];
    }
  }

  /** `current | (block << (offset * b))` for a block below `2^b` and a word whose bits from `offset * b` up are clear. */
  function ShiftIn(current: int, block: int, offset: nat, b: nat): int
  {
    MulNonNeg(offset, b);
    current + block * Pow2(offset * b)
  }

  /** `offset * b + b > 64`: the word has no room for another entry. */
  predicate WordFull(offset: nat, b: nat)
  {
    offset * b + b > 64
  }

  /** One entry of the packing loop: it joins the current word, which closes exactly when it holds `PerWord(b)` entries. */
  lemma PackStep(data: seq<int>, start: nat, i: nat, offset: nat, b: nat, words: seq<int>, current: int)
    requires 1 <= b <= 64 && Fits(data, b) && start <= i < |data| && offset == i - start && offset < PerWord(b)
    requires WholeWords(start, PerWord(b)) && words == Pack(data[..start], b) && current == WordValue(data[start..i], b)
    ensures var next := ShiftIn(current, data[i], offset, b);
      next == WordValue(data[start..i + 1], b) &&
      (WordFull(offset + 1, b) <==> offset + 1 == PerWord(b)) &&
      (offset + 1 == PerWord(b) ==> words + [ToI64(next)] == Pack(data[..i + 1], b) && WholeWords(i + 1, PerWord(b)))
  {
    EncodeStep(data, start, i, offset, b);
    MulNonNeg(offset, b);
    FitsInWordIff(offset + 1, b);
    var next := ShiftIn(current, data[i], offset, b);
    if offset + 1 == PerWord(b) {
      PushWord(data, start, i + 1, b, words, next);
      assert WholeWords(start + PerWord(b), PerWord(b));
    }
  }

  /** Closing a word: the packed prefix grows by the word of the entries `start .. end`. */
  lemma PushWord(data: seq<int>, start: nat, end: nat, b: nat, packed: seq<int>, current: int)
    requires 1 <= b <= 64 && Fits(data, b)
    requires WholeWords(start, PerWord(b)) && start < end <= |data| && end - start <= PerWord(b)
    requires packed == Pack(data[..start], b) && current == WordValue(data[start..end], b)
    ensures packed + [ToI64(current)] == Pack(data[..end], b)
  {
    assert data[..end] == data[..start] + data[start..end];
    PackSnoc(data[..start], data[start..end], b);
  }

  /** Adding entry `i` at position `offset` of the word being filled. */
  lemma EncodeStep(data: seq<int>, start: nat, i: nat, offset: nat, b: nat)
    requires 1 <= b <= 64 && Fits(data, b) && start <= i < |data| && offset == i - start
    ensures WordValue(data[start..i + 1], b) == WordValue(data[start..i], b) + data[i] * Pow2(offset * b)
  {
    assert data[start..i + 1] == data[start..i] + [data[i]];
    WordValueSnoc(data[start..i], data[i], b);
    Pow2Mul(offset, b);
  }

  /**
   * `decode_data`: unpacks every word of `data` into its `64 / bitCount`
   * entries and keeps the first `size`; no data at all decodes as `size`
   * zeros. For `bitCount == 0` the source loops forever, and for 64 the
   * mask `(1 << 64) - 1` overflows, hence the bounds on `bitCount`.
   */
  method DecodeData(size: nat, bitCount: nat, data: Option<seq<int>>) returns (oldIndexes: seq<int>)
    requires data.Some? ==> 1 <= bitCount <= 63
    ensures oldIndexes == Decoded(size, bitCount, data)
  {
    match data {
      case None =>
        oldIndexes := seq(size, _ => 0);
      case Some(words) =>
        oldIndexes := [];
        var offset: nat := 0;
        for i := 0 to |words|
          invariant offset == 0
          invariant oldIndexes == Unpack(words[..i], bitCount)
        {
          var dataBlock := words[i];
          while offset * bitCount + bitCount <= 64
            invariant offset <= PerWord(bitCount)
            invariant oldIndexes == Unpack(words[..i], bitCount) + Fields(dataBlock, bitCount)[..offset]
            decreases 64 - offset * bitCount
          {
            FitsInWordIff(offset, bitCount);
            // (dataBlock >> (offset * bitCount)) & mask
            var block := (dataBlock / Pow2(offset * bitCount)) % Pow2(bitCount);
            oldIndexes := oldIndexes + [block];
            offset := offset + 1;
          }
          FitsInWordIff(offset, bitCount);
          assert words[..i + 1] == words[..i] + [dataBlock];
          UnpackAppend(words[..i], [dataBlock], bitCount);
          assert Unpack([dataBlock], bitCount) == Fields(dataBlock, bitCount) + Unpack([], bitCount);
          offset := 0;
        }
        assert words[..|words|] == words;
        if |oldIndexes| > size {
          oldIndexes := oldIndexes[..size];
        }
    }
  }
}
