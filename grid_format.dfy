/**
 * The three per-cell wire formats of a battlemap, as both the editor and the
 * image renderer read them. Cells are numbered row-major, `index = row * gridWidth + col`.
 *
 *  - terrain, run-length form: a byte `0xFF` followed by `v` and `c` stands for
 *    `c` cells of terrain `v & 0x1f`; any other byte `b` is one cell `b & 0x1f`;
 *  - terrain, legacy nibble form: cell `i` is the low nibble of byte `i / 2`
 *    when `i` is even and its high nibble when `i` is odd;
 *  - water: cell `k` is bit `k % 8` of byte `k / 8` (least significant bit first).
 */
module GridFormat {
  import opened Common
  import opened Text

  /**
   * The JSON value of a packed field: a list of numbers, a Base64 string, absent
   * (or null), or any other JSON value.
   */
  datatype Packed = Missing | NumberList(items: seq<int>) | Base64Text(text: string) | OtherJson

  const RunMarker: byte := 0xFF

  /**
   * The cells a run-length stream spells from byte `i` on. A marker without two
   * following bytes ends the stream when `lenientMarker` is false (the image
   * renderer) and counts as the direct value 31 when it is true (the editor).
   */
  function RleCells(bytes: seq<byte>, i: nat, lenientMarker: bool): seq<int>
    decreases |bytes| - i
  {
    if i >= |bytes| then []
    else if bytes[i] == RunMarker && i + 2 < |bytes| then
      Repeat(bytes[i + 1] % 32, bytes[i + 2]) + RleCells(bytes, i + 3, lenientMarker)
    else if bytes[i] == RunMarker && !lenientMarker then []
    else [bytes[i] % 32] + RleCells(bytes, i + 1, lenientMarker)
  }

  /** A run-length stream as the encoders write it: markers complete, direct bytes below 32. */
  predicate WellFormedRle(bytes: seq<byte>, i: nat)
    decreases |bytes| - i
  {
    if i >= |bytes| then true
    else if bytes[i] == RunMarker then i + 2 < |bytes| && bytes[i + 1] < 32 && WellFormedRle(bytes, i + 3)
    else bytes[i] < 32 && WellFormedRle(bytes, i + 1)
  }

  /** On a well-formed stream the two readings of a short marker never come into play. */
  lemma {:induction false} WellFormedReadingsAgree(bytes: seq<byte>, i: nat)
    requires WellFormedRle(bytes, i)
    ensures RleCells(bytes, i, false) == RleCells(bytes, i, true)
    decreases |bytes| - i
  {
    if i < |bytes| {
      if bytes[i] == RunMarker {
        WellFormedReadingsAgree(bytes, i + 3);
      } else {
        WellFormedReadingsAgree(bytes, i + 1);
      }
    }
  }

  /** Every cell a stream spells is a 5-bit terrain id. */
  lemma {:induction false} RleCellsAreFiveBit(bytes: seq<byte>, i: nat, lenientMarker: bool)
    ensures forall k :: 0 <= k < |RleCells(bytes, i, lenientMarker)| ==> 0 <= RleCells(bytes, i, lenientMarker)[k] < 32
    decreases |bytes| - i
  {
    if i < |bytes| {
      if bytes[i] == RunMarker && i + 2 < |bytes| {
        RleCellsAreFiveBit(bytes, i + 3, lenientMarker);
      } else if !(bytes[i] == RunMarker && !lenientMarker) {
        RleCellsAreFiveBit(bytes, i + 1, lenientMarker);
      }
    }
  }

  /** Cell `i` of the nibble form; cells past the end of the payload are 0. */
  function NibbleCell(bytes: seq<byte>, i: nat): (r: int)
    ensures 0 <= r < 16
  {
    if i / 2 >= |bytes| then 0
    else if i % 2 == 0 then bytes[i / 2] % 16
    else (bytes[i / 2] / 16) % 16
  }

  /** The whole terrain grid of `total` cells in the nibble form. */
  function NibbleCells(bytes: seq<byte>, total: nat): (r: seq<int>)
    ensures |r| == total && forall i :: 0 <= i < total ==> r[i] == NibbleCell(bytes, i)
  {
    seq(total, i requires 0 <= i < total => NibbleCell(bytes, i))
  }

  /** Cell `k` of the water form; cells past the end of the payload are dry. */
  function WaterCell(bytes: seq<byte>, k: nat): bool
  {
    k / 8 < |bytes| && BitOf(bytes[k / 8], k % 8)
  }

  /** The whole water grid of `total` cells. */
  function WaterGrid(bytes: seq<byte>, total: nat): (r: seq<bool>)
    ensures |r| == total && forall k :: 0 <= k < total ==> r[k] == WaterCell(bytes, k)
  {
    seq(total, k requires 0 <= k < total => WaterCell(bytes, k))
  }

  /** One step of a reading of a run-length stream. */
  lemma RleCellsStep(bytes: seq<byte>, i: nat, lenientMarker: bool)
    requires i < |bytes|
    ensures bytes[i] == RunMarker && i + 2 < |bytes| ==>
      RleCells(bytes, i, lenientMarker) == Repeat(bytes[i + 1] % 32, bytes[i + 2]) + RleCells(bytes, i + 3, lenientMarker)
    ensures bytes[i] == RunMarker && i + 2 >= |bytes| ==>
      RleCells(bytes, i, lenientMarker) == if lenientMarker then [31] + RleCells(bytes, i + 1, lenientMarker) else []
    ensures bytes[i] != RunMarker ==>
      RleCells(bytes, i, lenientMarker) == [bytes[i] % 32] + RleCells(bytes, i + 1, lenientMarker)
  {
  }

  // ---------------------------------------------------------------- scenery records

  /** Type byte `t` of a scenery record names `SceneryTypeNames[t]`; any other value reads as "tree". */
  const SceneryTypeNames: seq<string> := ["tree", "stone", "house"]

  function SceneryTypeName(t: byte): string
  {
    if t < |SceneryTypeNames| then SceneryTypeNames[t] else "tree"
  }

  /** The colour of a scenery record, `#rrggbb` in lower case. */
  function ColorHex(r: byte, g: byte, b: byte): (s: string)
    ensures |s| == 7 && s[0] == '#'
  {
    "#" + Hex2(r) + Hex2(g) + Hex2(b)
  }

  // ---------------------------------------------------------------- encoders

  /**
   * The cells the editors' encoders read: `bg[i] ?? missing` for each of the
   * first `total` indexes (none when `total` is not positive).
   */
  function EncoderCells(bg: seq<int>, total: int, missing: int): (r: seq<int>)
    ensures |r| == Max(total, 0)
    ensures forall i :: 0 <= i < |r| ==> r[i] == AtOr(bg, i, missing)
  {
    Resize(bg, Max(total, 0), missing)
  }

  /**
   * The length of the run the encoders measure at cell `i`, grown from `run`:
   * it goes on while the next cell lies inside the grid, the run is shorter than
   * 255 and the next cell, unmasked, equals the masked value of cell `i`.
   */
  function RunLength(cells: seq<int>, i: nat, run: nat): (r: nat)
    requires 1 <= run <= 255 && i + run <= |cells|
    ensures run <= r <= 255 && i + r <= |cells|
    decreases 255 - run
  {
    if i + run < |cells| && run < 255 && cells[i + run] == cells[i] % 32 then
      RunLength(cells, i, run + 1)
    else
      run
  }

  /**
   * A measured run is maximal: every cell it adds equals the masked value of
   * cell `i`, and it stops at the grid's end, at 255 cells or at a cell that differs.
   */
  lemma {:induction false} RunLengthSpan(cells: seq<int>, i: nat, run: nat)
    requires 1 <= run <= 255 && i + run <= |cells|
    ensures forall c :: i + run <= c < i + RunLength(cells, i, run) ==> cells[c] == cells[i] % 32
    ensures var r := RunLength(cells, i, run); i + r < |cells| && r < 255 ==> cells[i + r] != cells[i] % 32
    decreases 255 - run
  {
    if i + run < |cells| && run < 255 && cells[i + run] == cells[i] % 32 {
      RunLengthSpan(cells, i, run + 1);
    }
  }

  /** Cells `lo` up to `hi` as 5-bit terrain ids. */
  function MaskedCells(cells: seq<int>, lo: nat, hi: nat): (r: seq<int>)
    requires lo <= hi <= |cells|
    ensures |r| == hi - lo
    ensures forall j :: 0 <= j < |r| ==> r[j] == cells[lo + j] % 32
    decreases hi - lo
  {
    if lo == hi then [] else MaskedCells(cells, lo, hi - 1) + [cells[hi - 1] % 32]
  }

  /** Masking to 5 bits keeps a terrain id. */
  lemma MaskKeepsId(v: int)
    requires 0 <= v < 32
    ensures v % 32 == v
  {
  }

  /** The bytes the encoders write for the run at cell `i`. */
  function RleBlock(cells: seq<int>, i: nat): seq<byte>
    requires i < |cells|
  {
    var run := RunLength(cells, i, 1);
    if run >= 3 then [RunMarker, cells[i] % 32, run]
    else MaskedCells(cells, i, i + run)
  }

  /**
   * The run-length stream the editors write for cells `i` onwards: a run of
   * three or more becomes a marker, the value and the count; a shorter run
   * becomes its masked cells, one byte each.
   */
  function RleEncodeFrom(cells: seq<int>, i: nat): seq<byte>
    decreases |cells| - i
  {
    if i >= |cells| then [] else RleBlock(cells, i) + RleEncodeFrom(cells, i + RunLength(cells, i, 1))
  }

  lemma RleEncodeStep(cells: seq<int>, i: nat)
    requires i < |cells|
    ensures RleEncodeFrom(cells, i) == RleBlock(cells, i) + RleEncodeFrom(cells, i + RunLength(cells, i, 1))
  {
    var block := RleBlock(cells, i);
    var rest := RleEncodeFrom(cells, i + RunLength(cells, i, 1));
    assert RleEncodeFrom(cells, i) == block + rest;
  }

  /** Writing the block of the run at `i` moves the encoder from cell `i` to the end of that run. */
  lemma EncodeAdvance(written: seq<byte>, cells: seq<int>, i: nat, whole: seq<byte>)
    requires i < |cells|
    requires written + RleEncodeFrom(cells, i) == whole
    ensures (written + RleBlock(cells, i)) + RleEncodeFrom(cells, i + RunLength(cells, i, 1)) == whole
  {
    RleEncodeStep(cells, i);
    MoveBlock(written, RleBlock(cells, i), RleEncodeFrom(cells, i + RunLength(cells, i, 1)), whole);
  }

  /** A canonical stream: well formed, and every run counts at least three cells. */
  predicate CanonicalRle(bytes: seq<byte>, i: nat)
    decreases |bytes| - i
  {
    if i >= |bytes| then true
    else if bytes[i] == RunMarker then
      i + 2 < |bytes| && bytes[i + 1] < 32 && bytes[i + 2] >= 3 && CanonicalRle(bytes, i + 3)
    else bytes[i] < 32 && CanonicalRle(bytes, i + 1)
  }

  lemma {:induction false} CanonicalIsWellFormed(bytes: seq<byte>, i: nat)
    requires CanonicalRle(bytes, i)
    ensures WellFormedRle(bytes, i)
    decreases |bytes| - i
  {
    if i < |bytes| {
      if bytes[i] == RunMarker {
        CanonicalIsWellFormed(bytes, i + 3);
      } else {
        CanonicalIsWellFormed(bytes, i + 1);
      }
    }
  }

  /** Reading past a prefix reads the rest as if it stood alone. */
  lemma {:induction false} RleShift(p: seq<byte>, s: seq<byte>, i: nat, lenientMarker: bool)
    ensures RleCells(p + s, |p| + i, lenientMarker) == RleCells(s, i, lenientMarker)
    ensures CanonicalRle(p + s, |p| + i) == CanonicalRle(s, i)
    decreases |s| - i
  {
    if i < |s| {
      assert (p + s)[|p| + i] == s[i];
      if i + 1 < |s| { assert (p + s)[|p| + i + 1] == s[i + 1]; }
      if i + 2 < |s| { assert (p + s)[|p| + i + 2] == s[i + 2]; }
      RleShift(p, s, i + 1, lenientMarker);
      RleShift(p, s, i + 3, lenientMarker);
    }
  }

  /** A block of direct values below 32 reads as itself. */
  lemma {:induction false} DirectPrefix(d: seq<byte>, rest: seq<byte>, k: nat, lenientMarker: bool)
    requires k <= |d|
    requires forall j :: 0 <= j < |d| ==> d[j] < 32
    ensures RleCells(d + rest, k, lenientMarker) == d[k..] + RleCells(rest, 0, lenientMarker)
    ensures CanonicalRle(d + rest, k) == CanonicalRle(rest, 0)
    decreases |d| - k
  {
    if k == |d| {
      RleShift(d, rest, 0, lenientMarker);
    } else {
      var s := d + rest;
      assert s[k] == d[k];
      DirectStep(s, k, lenientMarker);
      DirectPrefix(d, rest, k + 1, lenientMarker);
      assert d[k..] == [d[k]] + d[k + 1..];
    }
  }

  lemma DirectStep(s: seq<byte>, k: nat, lenientMarker: bool)
    requires k < |s| && s[k] < 32
    ensures RleCells(s, k, lenientMarker) == [s[k]] + RleCells(s, k + 1, lenientMarker)
    ensures CanonicalRle(s, k) == CanonicalRle(s, k + 1)
  {
    MaskKeepsId(s[k] as int);
  }

  lemma MaskedSplit(cells: seq<int>, lo: nat, mid: nat, hi: nat)
    requires lo <= mid <= hi <= |cells|
    ensures MaskedCells(cells, lo, mid) + MaskedCells(cells, mid, hi) == MaskedCells(cells, lo, hi)
  {
    var a := MaskedCells(cells, lo, mid);
    var b := MaskedCells(cells, mid, hi);
    var c := MaskedCells(cells, lo, hi);
    forall j | 0 <= j < |c| ensures (a + b)[j] == c[j] {
      if j >= |a| {
        assert (a + b)[j] == b[j - |a|];
        assert mid + (j - |a|) == lo + j;
      }
    }
  }

  /** The cells of a measured run all carry the masked value of its first cell. */
  lemma RunIsRepeat(cells: seq<int>, i: nat)
    requires i < |cells|
    ensures MaskedCells(cells, i, i + RunLength(cells, i, 1)) == Repeat(cells[i] % 32, RunLength(cells, i, 1))
  {
    var run := RunLength(cells, i, 1);
    RunLengthSpan(cells, i, 1);
    forall c | i <= c < i + run
      ensures cells[c] % 32 == cells[i] % 32
    {
      if c > i {
        MaskTwice(cells[i]);
      }
    }
    MaskedConstant(cells, i, i + run, cells[i] % 32);
  }

  /** Masking twice is masking once. */
  lemma MaskTwice(v: int)
    ensures (v % 32) % 32 == v % 32
  {
  }

  /** Cells that all mask to `v` read as a run of `v`. */
  lemma {:induction false} MaskedConstant(cells: seq<int>, lo: nat, hi: nat, v: int)
    requires lo <= hi <= |cells|
    requires forall c :: lo <= c < hi ==> cells[c] % 32 == v
    ensures MaskedCells(cells, lo, hi) == Repeat(v, hi - lo)
    decreases hi - lo
  {
    if lo < hi {
      MaskedConstant(cells, lo, hi - 1, v);
    }
  }

  /** A run block reads as its run of cells. */
  lemma RunBlockReads(v: byte, count: byte, rest: seq<byte>, lenientMarker: bool)
    requires v < 32 && count >= 3
    ensures RleCells([RunMarker, v, count] + rest, 0, lenientMarker) == Repeat(v, count) + RleCells(rest, 0, lenientMarker)
    ensures CanonicalRle([RunMarker, v, count] + rest, 0) == CanonicalRle(rest, 0)
  {
    var block: seq<byte> := [RunMarker, v, count];
    RleShift(block, rest, 0, lenientMarker);
    assert (block + rest)[0] == RunMarker && (block + rest)[1] == v && (block + rest)[2] == count;
  }

  lemma BlockReads(cells: seq<int>, i: nat, rest: seq<byte>, lenientMarker: bool)
    requires i < |cells|
    ensures RleCells(RleBlock(cells, i) + rest, 0, lenientMarker)
      == MaskedCells(cells, i, i + RunLength(cells, i, 1)) + RleCells(rest, 0, lenientMarker)
    ensures CanonicalRle(RleBlock(cells, i) + rest, 0) == CanonicalRle(rest, 0)
  {
    var run := RunLength(cells, i, 1);
    if run >= 3 {
      RunBlockReads(cells[i] % 32, run, rest, lenientMarker);
      RunIsRepeat(cells, i);
    } else {
      DirectPrefix(RleBlock(cells, i), rest, 0, lenientMarker);
    }
  }

  /**
   * The stream written for cells `i` onwards is canonical, and both readings of
   * it give back exactly those cells, masked to 5 bits.
   */
  lemma {:induction false} RleEncodeReadsBack(cells: seq<int>, i: nat, lenientMarker: bool)
    requires i <= |cells|
    ensures CanonicalRle(RleEncodeFrom(cells, i), 0)
    ensures RleCells(RleEncodeFrom(cells, i), 0, lenientMarker) == MaskedCells(cells, i, |cells|)
    decreases |cells| - i
  {
    if i < |cells| {
      var j := i + RunLength(cells, i, 1);
      RleEncodeReadsBack(cells, j, lenientMarker);
      RleEncodeStep(cells, i);
      assert CanonicalRle(RleEncodeFrom(cells, i), 0) by {
        BlockReads(cells, i, RleEncodeFrom(cells, j), lenientMarker);
        JoinCanonical(RleEncodeFrom(cells, i), RleBlock(cells, i), RleEncodeFrom(cells, j));
      }
      assert RleCells(RleEncodeFrom(cells, i), 0, lenientMarker) == MaskedCells(cells, i, |cells|) by {
        MaskedSplit(cells, i, j, |cells|);
        BlockReads(cells, i, RleEncodeFrom(cells, j), lenientMarker);
        JoinReads(RleEncodeFrom(cells, i), RleBlock(cells, i), RleEncodeFrom(cells, j), MaskedCells(cells, i, j),
          MaskedCells(cells, j, |cells|), MaskedCells(cells, i, |cells|), lenientMarker);
      }
    }
  }

  /** Chains the reading of one block with the reading of what follows it. */
  lemma JoinReads(enc: seq<byte>, block: seq<byte>, rest: seq<byte>, a: seq<int>, b: seq<int>, whole: seq<int>, lenientMarker: bool)
    requires enc == block + rest
    requires RleCells(block + rest, 0, lenientMarker) == a + RleCells(rest, 0, lenientMarker)
    requires RleCells(rest, 0, lenientMarker) == b && a + b == whole
    ensures RleCells(enc, 0, lenientMarker) == whole
  {
  }

  /** A block that keeps canonicity in front of a canonical rest. */
  lemma JoinCanonical(enc: seq<byte>, block: seq<byte>, rest: seq<byte>)
    requires enc == block + rest
    requires CanonicalRle(block + rest, 0) == CanonicalRle(rest, 0) && CanonicalRle(rest, 0)
    ensures CanonicalRle(enc, 0)
  {
  }

  /** The stream is never longer than the grid: a run of `c >= 3` cells takes 3 bytes. */
  lemma {:induction false} RleEncodeLength(cells: seq<int>, i: nat)
    requires i <= |cells|
    ensures |RleEncodeFrom(cells, i)| <= |cells| - i
    decreases |cells| - i
  {
    if i < |cells| {
      RleEncodeLength(cells, i + RunLength(cells, i, 1));
    }
  }

  /** The byte whose bit `k` is `bits[k]`, built as the packers build it with `byte |= 1 << bit`. */
  function PackBits(bits: seq<bool>): (r: nat)
    ensures r < Pow2(|bits|)
  {
    if bits == [] then 0 else (if bits[0] then 1 else 0) + 2 * PackBits(bits[1..])
  }

  lemma {:induction false} BitOfPackBits(bits: seq<bool>, k: nat)
    ensures BitOf(PackBits(bits), k) == (k < |bits| && bits[k])
    decreases k
  {
    if bits != [] && k > 0 {
      var b := if bits[0] then 1 else 0;
      assert (b + 2 * PackBits(bits[1..])) / 2 == PackBits(bits[1..]);
      BitOfPackBits(bits[1..], k - 1);
    } else if bits == [] && k > 0 {
      BitOfZero(k);
    }
  }

  lemma {:induction false} BitOfZero(k: nat)
    ensures !BitOf(0, k)
  {
    if k > 0 {
      BitOfZero(k - 1);
    }
  }

  /** Setting the next bit: `PackBits(bits) | (x << |bits|)`. */
  lemma {:induction false} PackBitsSnoc(bits: seq<bool>, x: bool)
    ensures PackBits(bits + [x]) == if x then SetBit(PackBits(bits), |bits|) else PackBits(bits)
  {
    BitOfPackBits(bits, |bits|);
    PackBitsSnocSum(bits, x);
  }

  lemma {:induction false} PackBitsSnocSum(bits: seq<bool>, x: bool)
    ensures PackBits(bits + [x]) == PackBits(bits) + (if x then Pow2(|bits|) else 0)
  {
    if bits != [] {
      assert (bits + [x])[1..] == bits[1..] + [x];
      PackBitsSnocSum(bits[1..], x);
    } else {
      assert [x][1..] == [];
    }
  }

  lemma {:induction false} Pow2AtMost256(n: nat)
    requires n <= 8
    ensures Pow2(n) <= 256
    decreases 8 - n
  {
    if n < 8 {
      Pow2AtMost256(n + 1);
    } else {
      assert Pow2(8) == 2 * 2 * 2 * 2 * 2 * 2 * 2 * 2 * Pow2(0);
    }
  }

  /** The cells packed into water byte `k`: at most eight, `water[8k + b] ?? false`. */
  function WaterChunk(water: seq<bool>, total: int, k: nat): (r: seq<bool>)
    requires 8 * k < total
    ensures |r| == Min(8, total - 8 * k) && forall b :: 0 <= b < |r| ==> r[b] == AtOr(water, 8 * k + b, false)
  {
    seq(Min(8, total - 8 * k), b requires 0 <= b < Min(8, total - 8 * k) => AtOr(water, 8 * k + b, false))
  }

  function WaterByte(bits: seq<bool>): byte
    requires |bits| <= 8
  {
    Pow2AtMost256(|bits|);
    PackBits(bits)
  }

  /** The water bytes the editors write: one byte per eight cells, the last one partly filled. */
  function WaterBytes(water: seq<bool>, total: int): (r: seq<byte>)
    ensures |r| == if total <= 0 then 0 else (total + 7) / 8
  {
    if total <= 0 then []
    else seq((total + 7) / 8, k requires 0 <= k < (total + 7) / 8 => WaterByte(WaterChunk(water, total, k)))
  }

  /** Water cell `k` of the packed grid is `water[k]`, and every cell past the grid is dry. */
  lemma WaterBytesReadBack(water: seq<bool>, total: int, k: nat)
    ensures WaterCell(WaterBytes(water, total), k) == (k < total && AtOr(water, k, false))
  {
    var bytes := WaterBytes(water, total);
    if k / 8 < |bytes| {
      var chunk := WaterChunk(water, total, k / 8);
      assert bytes[k / 8] == PackBits(chunk);
      BitOfPackBits(chunk, k % 8);
      assert 8 * (k / 8) + k % 8 == k;
    }
  }
}
