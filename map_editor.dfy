/**
 * The map editor page's codec for the `data` parameter of a battlemap link:
 * the terrain, water and scenery packers and unpackers, and the selection of
 * fields in `compactData` / `expandData`.
 *
 * JavaScript's `x & 0x1f` and `x & 0x0f` on an integer equal Dafny's Euclidean
 * `x % 32` and `x % 16`, and storing an integer into a `Uint8Array` keeps
 * `x % 256`; those are written as such below.
 */
module MapEditorCodec {
  import opened Common
  import opened Text
  import opened GridFormat

  // ---------------------------------------------------------------- terrain, run-length form

  /**
   * `packBackgroundsToBytes`: the run-length encoding of the first `total`
   * cells. A cell past the end of `bg` reads as `missing` (0 on this page; the
   * battlemap editor passes its default terrain id).
   */
  method PackBackgroundsToBytes(bg: seq<int>, total: int, missing: int) returns (output: seq<byte>)
    ensures output == RleEncodeFrom(EncoderCells(bg, total, missing), 0)
  {
    ghost var cells := EncoderCells(bg, total, missing);
    ghost var whole := RleEncodeFrom(cells, 0);
    output := [];
    var i: nat := 0;
    while i < total
      invariant i <= |cells|
      invariant output + RleEncodeFrom(cells, i) == whole
      decreases total - i
    {
      ghost var before := output;
      var next;
      output, next := PackRun(output, bg, total, missing, i);
      EncodeAdvance(before, cells, i, whole);
      i := next;
    }
  }

  /** One pass of the outer loop: the run at cell `i`, written as a marker triple or as direct values. */
  method PackRun(output: seq<byte>, bg: seq<int>, total: int, missing: int, i: nat) returns (out: seq<byte>, next: nat)
    requires i < total
    ensures out == output + RleBlock(EncoderCells(bg, total, missing), i)
    ensures next == i + RunLength(EncoderCells(bg, total, missing), i, 1)
  {
    var currentVal := AtOr(bg, i, missing) % 32;
    var runLength := MeasureRun(bg, total, missing, i);
    if runLength >= 3 {
      out := output + [RunMarker, currentVal, runLength];
    } else {
      out := AppendDirect(output, bg, total, missing, i, runLength);
    }
    next := i + runLength;
  }

  /** The inner loop that grows a run from the cell at `i`. */
  method MeasureRun(bg: seq<int>, total: int, missing: int, i: nat) returns (runLength: nat)
    requires i < total
    ensures runLength == RunLength(EncoderCells(bg, total, missing), i, 1)
  {
    ghost var cells := EncoderCells(bg, total, missing);
    var currentVal := AtOr(bg, i, missing) % 32;
    runLength := 1;
    while i + runLength < total && runLength < 255 && AtOr(bg, i + runLength, missing) == currentVal
      invariant 1 <= runLength <= 255 && i + runLength <= total
      invariant RunLength(cells, i, runLength) == RunLength(cells, i, 1)
      decreases 255 - runLength
    {
      runLength := runLength + 1;
    }
  }

  /** The loop that writes a short run as direct values, one masked byte per cell. */
  method AppendDirect(output: seq<byte>, bg: seq<int>, total: int, missing: int, i: nat, runLength: nat)
    returns (out: seq<byte>)
    requires i + runLength <= total
    ensures out == output + MaskedCells(EncoderCells(bg, total, missing), i, i + runLength)
  {
    ghost var cells := EncoderCells(bg, total, missing);
    out := output;
    var j := 0;
    while j < runLength && i + j < total
      invariant 0 <= j <= runLength
      invariant out == output + MaskedCells(cells, i, i + j)
    {
      assert MaskedCells(cells, i, i + j + 1) == MaskedCells(cells, i, i + j) + [cells[i + j] % 32];
      out := out + [AtOr(bg, i + j, missing) % 32];
      j := j + 1;
    }
  }

  /** Writing up to `count` copies of `value` from `start`, never past the end of the array. */
  method WriteRun(result: array<int>, start: nat, ghost consumed: seq<int>, value: int, count: nat) returns (end: nat)
    requires start <= result.Length && result[..start] == Take(consumed, result.Length)
    modifies result
    ensures start <= end <= result.Length
    ensures result[..end] == Take(consumed + Repeat(value, count), result.Length)
    ensures end < result.Length ==> |consumed + Repeat(value, count)| == end
  {
    end := start;
    var i := 0;
    while i < count && end < result.Length
      invariant 0 <= i <= count && start <= end <= result.Length
      invariant result[..end] == Take(consumed + Repeat(value, i), result.Length)
      invariant end < result.Length ==> |consumed + Repeat(value, i)| == end
    {
      result[end] := value;
      TakeSnoc(consumed + Repeat(value, i), value, result.Length);
      RepeatSplit(value, i, 1);
      assert result[..end + 1] == result[..end] + [value];
      end := end + 1;
      i := i + 1;
    }
    if i < count {
      TakeOfLongPrefix(consumed + Repeat(value, i), Repeat(value, count - i), result.Length);
      RepeatSplit(value, i, count - i);
      assert consumed + Repeat(value, i) + Repeat(value, count - i) == consumed + Repeat(value, count);
    }
  }

  /**
   * `unpackBackgroundsFromBytes`: the first `total` cells of the stream, a lone
   * trailing marker read as the direct value 31, the rest zero-filled.
   */
  method UnpackBackgroundsFromBytes(bytes: seq<byte>, total: nat) returns (cells: seq<int>)
    ensures cells == Resize(RleCells(bytes, 0, true), total, 0)
  {
    var result := new int[total];
    var resultIdx := DecodeRuns(result, bytes);
    ghost var decoded := Take(RleCells(bytes, 0, true), total);
    while resultIdx < total
      invariant |decoded| <= resultIdx <= total
      invariant result[..resultIdx] == decoded + Repeat(0, resultIdx - |decoded|)
    {
      result[resultIdx] := 0;
      assert result[..resultIdx + 1] == result[..resultIdx] + [0];
      resultIdx := resultIdx + 1;
    }
    assert result[..] == result[..total];
    cells := result[..];
  }

  /** The decoding loop of `unpackBackgroundsFromBytes`: the stream's cells, cut at the array's end. */
  method DecodeRuns(result: array<int>, bytes: seq<byte>) returns (resultIdx: nat)
    modifies result
    ensures resultIdx <= result.Length && result[..resultIdx] == Take(RleCells(bytes, 0, true), result.Length)
  {
    var total := result.Length;
    resultIdx := 0;
    var byteIdx := 0;
    ghost var consumed: seq<int> := [];
    ghost var all := RleCells(bytes, 0, true);
    while resultIdx < total && byteIdx < |bytes|
      invariant 0 <= byteIdx <= |bytes| && 0 <= resultIdx <= total
      invariant all == consumed + RleCells(bytes, byteIdx, true)
      invariant result[..resultIdx] == Take(consumed, total)
      invariant resultIdx < total ==> |consumed| == resultIdx
      decreases |bytes| - byteIdx
    {
      ghost var before := consumed;
      byteIdx, resultIdx, consumed := DecodeBlock(result, bytes, byteIdx, resultIdx, consumed);
      MoveBlock(before, consumed[|before|..], RleCells(bytes, byteIdx, true), all);
      assert before + consumed[|before|..] == consumed;
    }
    if resultIdx >= total {
      TakeOfLongPrefix(consumed, RleCells(bytes, byteIdx, true), total);
    }
  }

  /** One pass of the decoding loop: the run or the direct value at `byteIdx`, written from `resultIdx`. */
  method DecodeBlock(result: array<int>, bytes: seq<byte>, byteIdx: nat, resultIdx: nat, ghost consumed: seq<int>)
    returns (nextByte: nat, nextIdx: nat, ghost consumed': seq<int>)
    requires byteIdx < |bytes| && resultIdx < result.Length
    requires result[..resultIdx] == Take(consumed, result.Length) && |consumed| == resultIdx
    modifies result
    ensures byteIdx < nextByte <= |bytes| && resultIdx <= nextIdx <= result.Length
    ensures |consumed| <= |consumed'| && consumed'[..|consumed|] == consumed
    ensures RleCells(bytes, byteIdx, true) == consumed'[|consumed|..] + RleCells(bytes, nextByte, true)
    ensures result[..nextIdx] == Take(consumed', result.Length)
    ensures nextIdx < result.Length ==> |consumed'| == nextIdx
  {
    RleCellsStep(bytes, byteIdx, true);
    if bytes[byteIdx] == RunMarker && byteIdx + 2 < |bytes| {
      var value := bytes[byteIdx + 1] % 32;
      var count := bytes[byteIdx + 2];
      nextIdx := WriteRun(result, resultIdx, consumed, value, count);
      consumed' := consumed + Repeat(value, count);
      assert consumed'[|consumed|..] == Repeat(value, count);
      nextByte := byteIdx + 3;
    } else {
      var value := bytes[byteIdx] % 32;
      result[resultIdx] := value;
      TakeSnoc(consumed, value, result.Length);
      assert result[..resultIdx + 1] == result[..resultIdx] + [value];
      consumed' := consumed + [value];
      assert consumed'[|consumed|..] == [value];
      nextIdx := resultIdx + 1;
      nextByte := byteIdx + 1;
    }
  }

  /**
   * The page's terrain round trip: every grid comes back as its first `total`
   * cells masked to 5 bits, missing cells as 0.
   */
  lemma RunLengthRoundTrip(bg: seq<int>, total: nat)
    ensures Resize(RleCells(RleEncodeFrom(EncoderCells(bg, total, 0), 0), 0, true), total, 0)
      == MaskedCells(EncoderCells(bg, total, 0), 0, total)
  {
    var cells := EncoderCells(bg, total, 0);
    RleEncodeReadsBack(cells, 0, true);
    assert Resize(MaskedCells(cells, 0, total), total, 0) == MaskedCells(cells, 0, total);
  }

  /** On a grid of 5-bit ids of the right length the round trip is the identity. */
  lemma RunLengthRoundTripIdentity(bg: seq<int>, total: nat)
    requires |bg| == total && forall i :: 0 <= i < |bg| ==> 0 <= bg[i] < 32
    ensures Resize(RleCells(RleEncodeFrom(EncoderCells(bg, total, 0), 0), 0, true), total, 0) == bg
  {
    RunLengthRoundTrip(bg, total);
    var cells := EncoderCells(bg, total, 0);
    var m := MaskedCells(cells, 0, total);
    forall i | 0 <= i < total ensures m[i] == bg[i] {
      assert cells[i] == bg[i];
      MaskKeepsId(bg[i]);
    }
    assert m == bg;
  }

  // ---------------------------------------------------------------- terrain, legacy nibble form

  /** Byte `k` of the nibble form after cells `0 .. i - 1` have been written. */
  function NibbleByteUpTo(bg: seq<int>, i: int, k: nat): (r: byte)
  {
    var low := if 2 * k < i then AtOr(bg, 2 * k, 0) % 16 else 0;
    var high := if 2 * k + 1 < i then AtOr(bg, 2 * k + 1, 0) % 16 else 0;
    low + 16 * high
  }

  /** The nibble bytes of the first `total` cells: `ceil(total / 2)` bytes. */
  function NibbleBytes(bg: seq<int>, total: nat): (r: seq<byte>)
    ensures |r| == (total + 1) / 2
  {
    seq((total + 1) / 2, k requires 0 <= k < (total + 1) / 2 => NibbleByteUpTo(bg, total, k))
  }

  /**
   * `packBackgrounds` (legacy nibble form) before its Base64 step, on the
   * zero-filled `Uint8Array(ceil(total / 2))`. `None` stands for the RangeError
   * of a negative length, which `Math.ceil(total / 2)` reaches from `total <= -2`.
   */
  method PackNibbles(bg: seq<int>, total: int) returns (r: Option<seq<byte>>)
    ensures total <= -2 ==> r.None?
    ensures -1 <= total ==> r == Some(NibbleBytes(bg, Max(total, 0)))
  {
    if total <= -2 {
      return None;
    }
    var n: nat := Max(total, 0);
    var bytes := new byte[(n + 1) / 2](_ => 0);
    var i := 0;
    while i < n
      invariant 0 <= i <= n
      invariant forall k :: 0 <= k < bytes.Length ==> bytes[k] == NibbleByteUpTo(bg, i, k)
    {
      var val := AtOr(bg, i, 0) % 16;
      var idx := i / 2;
      if i % 2 == 0 {
        // (bytes[idx] & 0xf0) | val
        bytes[idx] := 16 * (bytes[idx] / 16) + val;
      } else {
        // (bytes[idx] & 0x0f) | (val << 4)
        bytes[idx] := bytes[idx] % 16 + 16 * val;
      }
      i := i + 1;
    }
    assert bytes[..] == NibbleBytes(bg, n);
    r := Some(bytes[..]);
  }

  /** `packBackgrounds` with its Base64 step, the library call, as a parameter. */
  method PackBackgrounds(bg: seq<int>, total: int, toBase64: seq<byte> -> string) returns (r: Option<string>)
    ensures total <= -2 ==> r.None?
    ensures -1 <= total ==> r == Some(toBase64(NibbleBytes(bg, Max(total, 0))))
  {
    var bytes := PackNibbles(bg, total);
    if bytes.None? {
      return None;
    }
    r := Some(toBase64(bytes.value));
  }

  /** `unpackBackgrounds`: the nibble cells of the decoded Base64 text. */
  method UnpackBackgrounds(b64: string, total: nat, fromBase64: string -> seq<byte>) returns (cells: seq<int>)
    ensures cells == NibbleCells(fromBase64(b64), total)
  {
    var bytes := fromBase64(b64);
    var result := new int[total];
    var i := 0;
    while i < total
      invariant 0 <= i <= total
      invariant forall k :: 0 <= k < i ==> result[k] == NibbleCell(bytes, k)
    {
      var idx := i / 2;
      var b := if idx < |bytes| then bytes[idx] else 0;
      result[i] := if i % 2 == 0 then b % 16 else (b / 16) % 16;
      i := i + 1;
    }
    cells := result[..];
  }

  /** The nibble round trip returns every cell masked to 4 bits; on ids below 16 it is the identity. */
  lemma NibbleRoundTrip(bg: seq<int>, total: nat, i: nat)
    requires i < total
    ensures NibbleCells(NibbleBytes(bg, total), total)[i] == AtOr(bg, i, 0) % 16
  {
    var bytes := NibbleBytes(bg, total);
    var k := i / 2;
    assert k < |bytes|;
    var low := AtOr(bg, 2 * k, 0) % 16;
    var high := if 2 * k + 1 < total then AtOr(bg, 2 * k + 1, 0) % 16 else 0;
    assert bytes[k] == low + 16 * high;
    assert (low + 16 * high) % 16 == low && (low + 16 * high) / 16 == high;
  }

  // ---------------------------------------------------------------- water

  /** `packWater`: eight cells per byte, least significant bit first. */
  method PackWater(water: seq<bool>, total: int) returns (output: seq<byte>)
    ensures output == WaterBytes(water, total)
  {
    output := [];
    var i := 0;
    while i < total
      invariant i == 8 * |output|
      invariant |output| == 0 || 8 * (|output| - 1) < total
      invariant forall k :: 0 <= k < |output| ==> 8 * k < total && output[k] == WaterByte(WaterChunk(water, total, k))
      decreases total - i
    {
      var byte := PackWaterByte(water, total, i);
      output := output + [byte];
      i := i + 8;
    }
    assert total > 0 ==> |output| == (total + 7) / 8;
  }

  /** The inner loop of `packWater`: the byte for cells `i .. i + 7`. */
  method PackWaterByte(water: seq<bool>, total: int, i: nat) returns (r: byte)
    requires i < total && i % 8 == 0
    ensures r == WaterByte(WaterChunk(water, total, i / 8))
  {
    var chunk := WaterChunk(water, total, i / 8);
    var byte: nat := 0;
    var bit := 0;
    while bit < 8 && i + bit < total
      invariant 0 <= bit <= |chunk|
      invariant byte == PackBits(chunk[..bit])
    {
      assert chunk[..bit + 1] == chunk[..bit] + [chunk[bit]];
      PackBitsSnoc(chunk[..bit], chunk[bit]);
      if AtOr(water, i + bit, false) {
        byte := SetBit(byte, bit);   // byte |= 1 << bit
      }
      bit := bit + 1;
    }
    assert chunk[..bit] == chunk;
    r := WaterByte(chunk);
  }

  /** `unpackWater`: `total` cells from a false-filled array, bit `k % 8` of byte `k / 8` each. */
  method UnpackWater(bytes: seq<byte>, total: nat) returns (cells: seq<bool>)
    ensures cells == WaterGrid(bytes, total)
  {
    var result := new bool[total](_ => false);
    var bitIndex := 0;
    for j := 0 to |bytes|
      invariant bitIndex == Min(8 * j, total)
      invariant forall k :: 0 <= k < bitIndex ==> result[k] == WaterCell(bytes, k)
      invariant forall k :: bitIndex <= k < total ==> !result[k]
    {
      var bit := 0;
      while bit < 8 && bitIndex < total
        invariant 0 <= bit <= 8
        invariant bitIndex == Min(8 * j + bit, total)
        invariant forall k :: 0 <= k < bitIndex ==> result[k] == WaterCell(bytes, k)
        invariant forall k :: bitIndex <= k < total ==> !result[k]
      {
        assert (8 * j + bit) / 8 == j && (8 * j + bit) % 8 == bit;
        result[bitIndex] := BitOf(bytes[j], bit);
        bitIndex := bitIndex + 1;
        bit := bit + 1;
      }
    }
    assert result[..] == WaterGrid(bytes, total);
    cells := result[..];
  }

  /** Water survives the round trip for any cell count, a multiple of eight or not; missing cells come back dry. */
  lemma WaterRoundTrip(water: seq<bool>, total: nat)
    ensures WaterGrid(WaterBytes(water, total), total) == Resize(water, total, false)
  {
    forall k | 0 <= k < total
      ensures WaterGrid(WaterBytes(water, total), total)[k] == Resize(water, total, false)[k]
    {
      WaterBytesReadBack(water, total, k);
    }
  }

  // ---------------------------------------------------------------- scenery objects

  /**
   * An environment object of the editor; `kind` is its `type` field. Position
   * and size are JavaScript numbers: the editor places objects at fractional
   * positions, while a decoded object holds whole numbers.
   */
  datatype EnvObject = EnvObject(id: int, kind: string, x: real, y: real, color: Option<string>, size: Option<real>)

  /** `Math.round`: the nearest integer, halves rounded up (towards positive infinity). */
  function JsRound(v: real): (r: int)
    ensures r as real - 0.5 <= v < r as real + 0.5
  {
    (v + 0.5).Floor
  }

  predicate Whole(v: real) { v == v.Floor as real }

  lemma RoundWhole(v: real)
    requires Whole(v)
    ensures JsRound(v) == v.Floor && JsRound(v) as real == v
  {
  }

  /** `Math.round(2.5)` is 3 and `Math.round(-2.5)` is -2; 10.4 becomes 10. */
  lemma RoundExamples()
    ensures JsRound(2.5) == 3 && JsRound(-2.5) == -2 && JsRound(10.4) == 10 && JsRound(10.6) == 11
  {
  }

  /** The type byte: the index in the type map, 0 for any other name. */
  function TypeCode(kind: string): (r: byte)
    ensures r < |SceneryTypeNames|
    ensures kind in SceneryTypeNames ==> SceneryTypeNames[r] == kind
    ensures kind !in SceneryTypeNames ==> r == 0
  {
    if kind == "stone" then 1 else if kind == "house" then 2 else 0
  }

  /** A colour channel as the byte array keeps `parseInt(h, 16)`: NaN becomes 0, any other value is taken modulo 256. */
  function ChannelByte(h: string): byte
  {
    match JsParseInt16(h)
    case None => 0
    case Some(v) => ToByte(v)
  }

  /** `hexToRgb`: the first `#` removed, then three two-character slices read as hex. */
  function HexToRgb(hex: string): (byte, byte, byte)
  {
    var h := RemoveFirst(hex, '#');
    (ChannelByte(JsSubstring(h, 0, 2)), ChannelByte(JsSubstring(h, 2, 4)), ChannelByte(JsSubstring(h, 4, 6)))
  }

  /** `obj.color && obj.color !== ''`. */
  predicate HasColor(o: EnvObject) { o.color.Some? && o.color.value != "" }

  /** The size byte: `min(255, max(0, Math.round(size)))`, applied here to the rounded size. */
  function ClampSize(s: int): (r: byte)
    ensures 0 <= s <= 255 ==> r == s
  {
    Min(255, Max(0, s))
  }

  /** `v & 0xFFFF` as two bytes, low byte first. */
  function Word16(v: int): (r: (byte, byte))
    ensures r.0 as int + 256 * r.1 as int == v % 65536
  {
    var w := v % 65536;
    (w % 256, w / 256)
  }

  /** Bit 0: the object has a colour; bit 1: it has a size. */
  function RecordFlags(o: EnvObject): (r: byte)
    ensures r % 2 == 1 <==> HasColor(o)
    ensures (r / 2) % 2 == 1 <==> o.size.Some?
  {
    (if HasColor(o) then 1 else 0) + (if o.size.Some? then 2 else 0)
  }

  function ColorBytes(o: EnvObject): (r: seq<byte>)
    ensures |r| == if HasColor(o) then 3 else 0
  {
    if HasColor(o) then var rgb := HexToRgb(o.color.value); [rgb.0, rgb.1, rgb.2] else []
  }

  function SizeBytes(o: EnvObject): (r: seq<byte>)
    ensures |r| == if o.size.Some? then 1 else 0
  {
    if o.size.Some? then [ClampSize(JsRound(o.size.value))] else []
  }

  /** The record `packEnvironmentObjects` writes for one object. */
  function EnvRecord(o: EnvObject): (r: seq<byte>)
    ensures |r| == 6 + |ColorBytes(o)| + |SizeBytes(o)|
  {
    var x := Word16(JsRound(o.x));
    var y := Word16(JsRound(o.y));
    [TypeCode(o.kind), x.0, x.1, y.0, y.1, RecordFlags(o)] + ColorBytes(o) + SizeBytes(o)
  }

  function PackEnv(objects: seq<EnvObject>): seq<byte>
  {
    if objects == [] then [] else EnvRecord(objects[0]) + PackEnv(objects[1..])
  }

  lemma {:induction false} PackEnvSnoc(objects: seq<EnvObject>, o: EnvObject)
    ensures PackEnv(objects + [o]) == PackEnv(objects) + EnvRecord(o)
  {
    if objects == [] {
      assert [o][1..] == [];
    } else {
      assert (objects + [o])[1..] == objects[1..] + [o];
      PackEnvSnoc(objects[1..], o);
    }
  }

  /** `packEnvironmentObjects`: the records of all objects, in order. */
  method PackEnvironmentObjects(objects: seq<EnvObject>) returns (output: seq<byte>)
    ensures output == PackEnv(objects)
  {
    output := [];
    for k := 0 to |objects|
      invariant output == PackEnv(objects[..k])
    {
      var record := WriteEnvRecord(objects[k]);
      PackEnvSnoc(objects[..k], objects[k]);
      PrefixSnoc(objects, k);
      output := output + record;
    }
    WholePrefix(objects);
  }

  /** The pushes of one pass of the loop in `packEnvironmentObjects`. */
  method WriteEnvRecord(obj: EnvObject) returns (record: seq<byte>)
    ensures record == EnvRecord(obj)
  {
    var x := Word16(JsRound(obj.x));
    var y := Word16(JsRound(obj.y));
    record := [TypeCode(obj.kind), x.0, x.1, y.0, y.1, RecordFlags(obj)];
    if HasColor(obj) {
      var rgb := HexToRgb(obj.color.value);
      record := record + [rgb.0, rgb.1, rgb.2];
    }
    if obj.size.Some? {
      record := record + [ClampSize(JsRound(obj.size.value))];
    }
  }

  /**
   * The object whose record starts at byte `i` of a stream, numbered `id`, and
   * the index after it. With only five bytes left the flags byte reads as
   * `undefined`, so the object has neither colour nor size and the index moves
   * past the end. `None` when a colour or a size is cut off.
   */
  function EnvRecordAt(bytes: seq<byte>, i: nat, id: int): (r: Option<(EnvObject, nat)>)
    requires i + 5 <= |bytes|
    ensures r.Some? ==> i + 6 <= r.value.1 <= |bytes| + 1
  {
    var kind := SceneryTypeName(bytes[i]);
    var x := (bytes[i + 1] as int) + 256 * (bytes[i + 2] as int);
    var y := (bytes[i + 3] as int) + 256 * (bytes[i + 4] as int);
    if i + 5 == |bytes| then Some((EnvObject(id, kind, x as real, y as real, None, None), i + 6))
    else
      var flags := bytes[i + 5];
      var hasColor := flags % 2 == 1;
      var hasSize := (flags / 2) % 2 == 1;
      var afterColor := if hasColor then i + 9 else i + 6;
      if hasColor && i + 9 > |bytes| then None
      else if hasSize && afterColor >= |bytes| then None
      else
        var color := if hasColor then Some(ColorHex(bytes[i + 6], bytes[i + 7], bytes[i + 8])) else None;
        var size := if hasSize then Some(bytes[afterColor] as real) else None;
        Some((EnvObject(id, kind, x as real, y as real, color, size), if hasSize then afterColor + 1 else afterColor))
  }

  /** The objects `unpackEnvironmentObjects` reads from byte `i` on, numbered from `id`. */
  function EnvFrom(bytes: seq<byte>, i: nat, id: int): seq<EnvObject>
    decreases |bytes| + 1 - i
  {
    if i + 5 > |bytes| then []
    else match EnvRecordAt(bytes, i, id)
      case None => []
      case Some((o, next)) => [o] + EnvFrom(bytes, next, id + 1)
  }

  /** Reading one record: the successive `bytes[byteIdx++]` reads of one pass. */
  method ReadEnvRecord(bytes: seq<byte>, start: nat, id: int) returns (rec: Option<(EnvObject, nat)>)
    requires start + 5 <= |bytes|
    ensures rec == EnvRecordAt(bytes, start, id)
  {
    var kind := SceneryTypeName(bytes[start]);
    var x := (bytes[start + 1] as int) + 256 * (bytes[start + 2] as int);
    var y := (bytes[start + 3] as int) + 256 * (bytes[start + 4] as int);
    var byteIdx := start + 5;
    // `bytes[length]` is undefined, and `undefined & 0x01` is 0
    var flags := if byteIdx < |bytes| then bytes[byteIdx] else 0;
    byteIdx := byteIdx + 1;
    var color: Option<string> := None;
    if flags % 2 == 1 {
      if byteIdx + 3 > |bytes| {
        return None;
      }
      color := Some(ColorHex(bytes[byteIdx], bytes[byteIdx + 1], bytes[byteIdx + 2]));
      byteIdx := byteIdx + 3;
    }
    var size: Option<real> := None;
    if (flags / 2) % 2 == 1 {
      if byteIdx >= |bytes| {
        return None;
      }
      size := Some(bytes[byteIdx] as real);
      byteIdx := byteIdx + 1;
    }
    rec := Some((EnvObject(id, kind, x as real, y as real, color, size), byteIdx));
  }

  /** `unpackEnvironmentObjects`: records until fewer than five bytes remain or a record is cut off; ids from 1. */
  method UnpackEnvironmentObjects(bytes: seq<byte>) returns (objects: seq<EnvObject>)
    ensures objects == EnvFrom(bytes, 0, 1)
  {
    objects := [];
    var byteIdx := 0;
    var objId := 1;
    while byteIdx < |bytes|
      invariant objects + EnvFrom(bytes, byteIdx, objId) == EnvFrom(bytes, 0, 1)
      decreases |bytes| - byteIdx
    {
      if byteIdx + 5 > |bytes| {
        break;
      }
      var rec := ReadEnvRecord(bytes, byteIdx, objId);
      if rec.None? {
        break;
      }
      MoveBlock(objects, [rec.value.0], EnvFrom(bytes, rec.value.1, objId + 1), EnvFrom(bytes, 0, 1));
      objects := objects + [rec.value.0];
      byteIdx := rec.value.1;
      objId := objId + 1;
    }
    assert EnvFrom(bytes, byteIdx, objId) == [];
    assert objects + [] == objects;
  }

  /** The colour as the record carries it, written back as `#rrggbb`. */
  function DecodedColor(c: string): (r: string)
    ensures |r| == 7
  {
    var rgb := HexToRgb(c);
    ColorHex(rgb.0, rgb.1, rgb.2)
  }

  /** What comes back for an object numbered `id`: the type, rounded coordinates, colour and rounded size as its record holds them. */
  function Decoded(o: EnvObject, id: int): EnvObject
  {
    EnvObject(id, SceneryTypeName(TypeCode(o.kind)), (JsRound(o.x) % 65536) as real, (JsRound(o.y) % 65536) as real,
      if HasColor(o) then Some(DecodedColor(o.color.value)) else None,
      if o.size.Some? then Some(ClampSize(JsRound(o.size.value)) as real) else None)
  }

  /** The objects decoded one by one, numbered from `id`. */
  function DecodedAll(objects: seq<EnvObject>, id: int): (r: seq<EnvObject>)
    ensures |r| == |objects|
    ensures forall k :: 0 <= k < |objects| ==> r[k] == Decoded(objects[k], id + k)
  {
    if objects == [] then [] else [Decoded(objects[0], id)] + DecodedAll(objects[1..], id + 1)
  }

  lemma {:induction false} EnvShift(p: seq<byte>, s: seq<byte>, i: nat, id: int)
    ensures EnvFrom(p + s, |p| + i, id) == EnvFrom(s, i, id)
    decreases |s| + 1 - i
  {
    if i + 5 <= |s| {
      EnvRecordAtShift(p, s, i, id);
      var r := EnvRecordAt(s, i, id);
      if r.Some? {
        EnvShift(p, s, r.value.1, id + 1);
      }
    }
  }

  lemma EnvRecordAtShift(p: seq<byte>, s: seq<byte>, i: nat, id: int)
    requires i + 5 <= |s|
    ensures EnvRecordAt(s, i, id).None? ==> EnvRecordAt(p + s, |p| + i, id).None?
    ensures EnvRecordAt(s, i, id).Some? ==>
      EnvRecordAt(p + s, |p| + i, id) == Some((EnvRecordAt(s, i, id).value.0, |p| + EnvRecordAt(s, i, id).value.1))
  {
    var t := p + s;
    forall k | 0 <= k < |s| ensures t[|p| + k] == s[k] { }
  }

  lemma RecordHeader(o: EnvObject, rest: seq<byte>)
    ensures var t := EnvRecord(o) + rest;
      |t| >= 6 && t[0] == TypeCode(o.kind) && t[5] == RecordFlags(o)
      && t[1] as int + 256 * t[2] as int == JsRound(o.x) % 65536
      && t[3] as int + 256 * t[4] as int == JsRound(o.y) % 65536
  {
    var x := Word16(JsRound(o.x));
    var y := Word16(JsRound(o.y));
    assert EnvRecord(o) == [TypeCode(o.kind), x.0, x.1, y.0, y.1, RecordFlags(o)] + ColorBytes(o) + SizeBytes(o);
  }

  lemma ColorBytesValue(o: EnvObject)
    requires HasColor(o)
    ensures var rgb := HexToRgb(o.color.value); ColorBytes(o) == [rgb.0, rgb.1, rgb.2]
  {
  }

  lemma MiddleAt(a: seq<byte>, b: seq<byte>, c: seq<byte>, rest: seq<byte>)
    requires |a| == 6 && |b| == 3
    ensures (a + b + c + rest)[6] == b[0] && (a + b + c + rest)[7] == b[1] && (a + b + c + rest)[8] == b[2]
  {
  }

  lemma RecordColor(o: EnvObject, rest: seq<byte>)
    requires HasColor(o)
    ensures var t := EnvRecord(o) + rest; var rgb := HexToRgb(o.color.value);
      |t| >= 9 && t[6] == rgb.0 && t[7] == rgb.1 && t[8] == rgb.2
  {
    var x := Word16(JsRound(o.x));
    var y := Word16(JsRound(o.y));
    var header := [TypeCode(o.kind), x.0, x.1, y.0, y.1, RecordFlags(o)];
    assert EnvRecord(o) == header + ColorBytes(o) + SizeBytes(o);
    ColorBytesValue(o);
    MiddleAt(header, ColorBytes(o), SizeBytes(o), rest);
  }

  lemma RecordSize(o: EnvObject, rest: seq<byte>)
    requires o.size.Some?
    ensures var t := EnvRecord(o) + rest; var at := 6 + |ColorBytes(o)|;
      at == |EnvRecord(o)| - 1 && t[at] == ClampSize(JsRound(o.size.value))
  {
    var x := Word16(JsRound(o.x));
    var y := Word16(JsRound(o.y));
    assert EnvRecord(o) == [TypeCode(o.kind), x.0, x.1, y.0, y.1, RecordFlags(o)] + ColorBytes(o) + [ClampSize(JsRound(o.size.value))];
  }

  lemma RecordAtOfRecord(o: EnvObject, rest: seq<byte>, id: int)
    ensures |EnvRecord(o) + rest| >= 6
    ensures EnvRecordAt(EnvRecord(o) + rest, 0, id) == Some((Decoded(o, id), |EnvRecord(o)|))
  {
    RecordHeader(o, rest);
    if HasColor(o) {
      RecordColor(o, rest);
    }
    if o.size.Some? {
      RecordSize(o, rest);
    }
    RecordAtFrom(EnvRecord(o) + rest, o, id, |EnvRecord(o)|);
  }

  /** A stream whose first `len` bytes hold the fields of `o` reads as `o`'s decoded form. */
  lemma RecordAtFrom(t: seq<byte>, o: EnvObject, id: int, len: nat)
    requires len == 6 + (if HasColor(o) then 3 else 0) + (if o.size.Some? then 1 else 0) && len <= |t|
    requires t[0] == TypeCode(o.kind) && t[5] == RecordFlags(o)
    requires t[1] as int + 256 * t[2] as int == JsRound(o.x) % 65536 && t[3] as int + 256 * t[4] as int == JsRound(o.y) % 65536
    requires HasColor(o) ==> var rgb := HexToRgb(o.color.value); t[6] == rgb.0 && t[7] == rgb.1 && t[8] == rgb.2
    requires o.size.Some? ==> t[len - 1] == ClampSize(JsRound(o.size.value))
    ensures EnvRecordAt(t, 0, id) == Some((Decoded(o, id), len))
  {
  }

  lemma EnvFromStep(bytes: seq<byte>, id: int, o: EnvObject, next: nat)
    requires 5 <= |bytes| && EnvRecordAt(bytes, 0, id) == Some((o, next))
    ensures EnvFrom(bytes, 0, id) == [o] + EnvFrom(bytes, next, id + 1)
  {
  }

  /** One record reads back as the decoded object, and the stream goes on after it. */
  lemma EnvRecordReads(o: EnvObject, rest: seq<byte>, id: int)
    ensures EnvFrom(EnvRecord(o) + rest, 0, id) == [Decoded(o, id)] + EnvFrom(rest, 0, id + 1)
  {
    FirstObject(o, rest, id);
    EnvShift(EnvRecord(o), rest, 0, id + 1);
  }

  lemma FirstObject(o: EnvObject, rest: seq<byte>, id: int)
    ensures EnvFrom(EnvRecord(o) + rest, 0, id) == [Decoded(o, id)] + EnvFrom(EnvRecord(o) + rest, |EnvRecord(o)|, id + 1)
  {
    RecordAtOfRecord(o, rest, id);
    EnvFromStep(EnvRecord(o) + rest, id, Decoded(o, id), |EnvRecord(o)|);
  }

  /** The scenery round trip: every object comes back as its decoded form, numbered from `id`. */
  lemma {:induction false} EnvRoundTrip(objects: seq<EnvObject>, id: int)
    ensures EnvFrom(PackEnv(objects), 0, id) == DecodedAll(objects, id)
  {
    if objects == [] {
      assert PackEnv(objects) == [];
    } else {
      var rest := PackEnv(objects[1..]);
      calc {
        EnvFrom(PackEnv(objects), 0, id);
        EnvFrom(EnvRecord(objects[0]) + rest, 0, id);
        { EnvRecordReads(objects[0], rest, id); }
        [Decoded(objects[0], id)] + EnvFrom(rest, 0, id + 1);
        { EnvRoundTrip(objects[1..], id + 1); }
        [Decoded(objects[0], id)] + DecodedAll(objects[1..], id + 1);
      }
    }
  }

  /** A colour the editor's picker yields: `#` and six hex digits. */
  predicate ValidHexColor(c: string)
  {
    |c| == 7 && c[0] == '#' && forall k :: 1 <= k < 7 ==> IsHexDigit(c[k])
  }

  /** An object the format carries exactly: a known type, whole 16-bit coordinates, a valid colour or none, a whole byte size or none. */
  predicate Representable(o: EnvObject)
  {
    o.kind in SceneryTypeNames && Whole(o.x) && Whole(o.y) && 0.0 <= o.x < 65536.0 && 0.0 <= o.y < 65536.0
    && (o.color.None? || ValidHexColor(o.color.value))
    && (o.size.None? || (Whole(o.size.value) && 0.0 <= o.size.value <= 255.0))
  }

  /** The object with its position and size rounded as the packer rounds them. */
  function Rounded(o: EnvObject): (r: EnvObject)
    ensures Whole(r.x) && Whole(r.y) && (r.size.Some? ==> Whole(r.size.value))
  {
    o.(x := JsRound(o.x) as real, y := JsRound(o.y) as real,
       size := if o.size.Some? then Some(JsRound(o.size.value) as real) else None)
  }

  /** The packer writes an object and its rounded form alike, so only the rounded position and size reach the link. */
  lemma PackedAsRounded(o: EnvObject)
    ensures EnvRecord(o) == EnvRecord(Rounded(o))
  {
    RoundWhole(JsRound(o.x) as real);
    RoundWhole(JsRound(o.y) as real);
    if o.size.Some? {
      RoundWhole(JsRound(o.size.value) as real);
    }
  }

  /** Rounding changes nothing about an object whose position and size are whole. */
  lemma RoundedWhole(o: EnvObject)
    requires Whole(o.x) && Whole(o.y) && (o.size.Some? ==> Whole(o.size.value))
    ensures Rounded(o) == o
  {
    RoundWhole(o.x);
    RoundWhole(o.y);
    if o.size.Some? {
      RoundWhole(o.size.value);
    }
  }

  lemma ChannelOfDigits(c: string, i: nat)
    requires i + 2 <= |c| && IsHexDigit(c[i]) && IsHexDigit(c[i + 1])
    ensures Hex2(ChannelByte(c[i..i + 2])) == [LowerChar(c[i]), LowerChar(c[i + 1])]
  {
    var s := c[i..i + 2];
    assert s[0] == c[i] && s[1] == c[i + 1];
    ParseTwoHexDigits(s);
    SmallByte(16 * HexValue(s[0]) + HexValue(s[1]));
  }

  lemma ValidColorChannels(c: string)
    requires ValidHexColor(c)
    ensures HexToRgb(c) == (ChannelByte(c[1..3]), ChannelByte(c[3..5]), ChannelByte(c[5..7]))
  {
    var h := c[1..];
    assert c == ['#'] + h;
    assert RemoveFirst(c, '#') == h;
    assert JsSubstring(h, 0, 2) == c[1..3];
    assert JsSubstring(h, 2, 4) == c[3..5];
    assert JsSubstring(h, 4, 6) == c[5..7];
  }

  /** The three channels of a valid colour print back as its digit pairs in lower case. */
  lemma ValidColorPairs(c: string)
    requires ValidHexColor(c)
    ensures Hex2(HexToRgb(c).0) == [LowerChar(c[1]), LowerChar(c[2])]
    ensures Hex2(HexToRgb(c).1) == [LowerChar(c[3]), LowerChar(c[4])]
    ensures Hex2(HexToRgb(c).2) == [LowerChar(c[5]), LowerChar(c[6])]
  {
    ValidColorChannels(c);
    ChannelOfDigits(c, 1);
    ChannelOfDigits(c, 3);
    ChannelOfDigits(c, 5);
  }

  /** The seven characters of `ColorHex`. */
  lemma ColorHexChars(r: byte, g: byte, b: byte)
    ensures ColorHex(r, g, b) == ['#', Hex2(r)[0], Hex2(r)[1], Hex2(g)[0], Hex2(g)[1], Hex2(b)[0], Hex2(b)[1]]
  {
  }

  /** Character by character, the decoded colour is the colour in lower case once its pairs print back. */
  lemma DecodedColorChars(c: string)
    requires |c| == 7 && c[0] == '#'
    requires Hex2(HexToRgb(c).0) == [LowerChar(c[1]), LowerChar(c[2])]
    requires Hex2(HexToRgb(c).1) == [LowerChar(c[3]), LowerChar(c[4])]
    requires Hex2(HexToRgb(c).2) == [LowerChar(c[5]), LowerChar(c[6])]
    ensures forall i :: 0 <= i < 7 ==> DecodedColor(c)[i] == LowerChar(c[i])
  {
    var rgb := HexToRgb(c);
    ColorHexChars(rgb.0, rgb.1, rgb.2);
    var out := DecodedColor(c);
    forall i | 0 <= i < 7 ensures out[i] == LowerChar(c[i]) {
      assert i == 0 || i == 1 || i == 2 || i == 3 || i == 4 || i == 5 || i == 6;
    }
  }

  lemma ValidColorReads(c: string)
    requires ValidHexColor(c)
    ensures DecodedColor(c) == Lower(c)
  {
    ValidColorPairs(c);
    DecodedColorChars(c);
    var out := DecodedColor(c);
    LowerPointwise(out, c);
  }

  /** The object as the editor holds it after a reload: numbered `id`, its colour in lower case. */
  function Renumbered(o: EnvObject, id: int): EnvObject
  {
    o.(id := id, color := if o.color.Some? then Some(Lower(o.color.value)) else None)
  }

  lemma KnownTypeReads(kind: string)
    requires kind in SceneryTypeNames
    ensures SceneryTypeName(TypeCode(kind)) == kind
  {
  }

  lemma ValidColorDecoded(o: EnvObject, id: int)
    requires o.color.None? || ValidHexColor(o.color.value)
    ensures Decoded(o, id).color == Renumbered(o, id).color
  {
    if o.color.Some? {
      assert HasColor(o);
      ValidColorReads(o.color.value);
    }
  }

  lemma RepresentableDecoded(o: EnvObject, id: int)
    requires Representable(o)
    ensures Decoded(o, id) == Renumbered(o, id)
  {
    KnownTypeReads(o.kind);
    ValidColorDecoded(o, id);
    RoundWhole(o.x);
    RoundWhole(o.y);
    if o.size.Some? {
      RoundWhole(o.size.value);
    }
  }

  /** An object whose rounded form is representable comes back as that rounded form, renumbered. */
  lemma RoundedDecoded(o: EnvObject, id: int)
    requires Representable(Rounded(o))
    ensures Decoded(o, id) == Renumbered(Rounded(o), id)
  {
    RepresentableDecoded(Rounded(o), id);
    PackedAsRounded(o);
    ValidColorDecoded(o, id);
  }

  /**
   * Objects whose rounded form is representable come back as that rounded
   * form: fractional positions and sizes rounded, ids 1 .. n, colours in lower
   * case. Whole-number objects come back unchanged but for ids and colours.
   */
  lemma RepresentableRoundTrip(objects: seq<EnvObject>)
    requires forall k :: 0 <= k < |objects| ==> Representable(Rounded(objects[k]))
    ensures var back := EnvFrom(PackEnv(objects), 0, 1);
      |back| == |objects| && forall k :: 0 <= k < |objects| ==> back[k] == Renumbered(Rounded(objects[k]), k + 1)
  {
    EnvRoundTrip(objects, 1);
    forall k | 0 <= k < |objects| ensures Decoded(objects[k], 1 + k) == Renumbered(Rounded(objects[k]), k + 1) {
      RoundedDecoded(objects[k], k + 1);
    }
  }

  /** An object the editor placed at (10.4, 20.5) with size 39.5 is written at (10, 21) with size 40. */
  lemma FractionalObjectRounded()
    ensures var o := EnvObject(7, "stone", 10.4, 20.5, None, Some(39.5));
      EnvFrom(PackEnv([o]), 0, 1) == [EnvObject(1, "stone", 10.0, 21.0, None, Some(40.0))]
  {
    var o := EnvObject(7, "stone", 10.4, 20.5, None, Some(39.5));
    EnvRoundTrip([o], 1);
    assert DecodedAll([o], 1) == [Decoded(o, 1)];
  }

  /** A type outside the map, such as "tree3", is written as 0 and read back as "tree". */
  lemma UnknownTypeReadsAsTree(o: EnvObject, id: int)
    requires o.kind !in SceneryTypeNames
    ensures TypeCode(o.kind) == 0 && Decoded(o, id).kind == "tree"
  {
  }
}
