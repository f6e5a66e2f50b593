/**
 * The request object of the battlemap image endpoint and its decoders for the
 * packed terrain, water and scenery fields (the `BattlemapImageRequest` DTO).
 */
module BattlemapRequest {
  import opened Common
  import opened Text
  import opened GridFormat

  /** Java's Base64 decoder; `None` stands for its IllegalArgumentException. */
  type Base64Decoder = string -> Option<seq<byte>>

  /**
   * A token as the renderer receives it. Coordinates are whole pixels; every
   * field may be absent (null).
   */
  datatype Token = Token(
    x: Option<int>, y: Option<int>, gmOnly: Option<bool>,
    color: Option<string>, avatarUrl: Option<string>, borderColor: Option<string>,
    envType: Option<string>, envColor: Option<string>, envSize: Option<int>)

  datatype Request = Request(
    gridWidth: Option<int>, gridHeight: Option<int>,
    canvasWidth: Option<int>, canvasHeight: Option<int>,
    cellBackgrounds: Option<seq<int>>, cellBackgroundsPacked: Packed,
    tokens: Option<seq<Token>>, environmentObjectsBinary: Packed,
    cellWaterPacked: Packed)

  /** The request as Jackson builds it from a JSON object with none of the fields: a 16 x 16 grid. */
  const EmptyRequest: Request :=
    Request(Some(16), Some(16), None, None, None, Missing, None, Missing, Missing)

  // ---------------------------------------------------------------- canvas size

  /** One side of the canvas in pixels: 32 per cell when the grid side is positive, else the legacy pixel size, else 512. */
  function PixelSize(grid: Option<int>, canvas: Option<int>): (r: int)
    ensures r > 0
    ensures grid.Some? && grid.value > 0 ==> r == 32 * grid.value
    ensures !(grid.Some? && grid.value > 0) ==> r == (if canvas.Some? && canvas.value > 0 then canvas.value else 512)
  {
    if grid.Some? && grid.value > 0 then grid.value * 32
    else if canvas.Some? && canvas.value > 0 then canvas.value
    else 512
  }

  function PixelWidth(req: Request): int { PixelSize(req.gridWidth, req.canvasWidth) }

  function PixelHeight(req: Request): int { PixelSize(req.gridHeight, req.canvasHeight) }

  /** The number of cells the decoders produce: `gw * gh` when both are present, otherwise 0. */
  function TotalCells(req: Request): int
  {
    if req.gridWidth.Some? && req.gridHeight.Some? then req.gridWidth.value * req.gridHeight.value else 0
  }

  // ---------------------------------------------------------------- payload bytes

  /** The bytes of a packed field that only accepts the number-list form. */
  function ListBytes(p: Packed): (r: Option<seq<byte>>)
    ensures r.Some? <==> p.NumberList?
  {
    if p.NumberList? then Some(ToBytes(p.items)) else None
  }

  /** The bytes of a packed field that accepts a number list or non-empty Base64 text. */
  function PayloadBytes(p: Packed, decode: Base64Decoder): (r: Option<seq<byte>>)
    ensures p.Missing? || p.OtherJson? || p == Base64Text("") ==> r.None?
    ensures p.NumberList? ==> r == Some(ToBytes(p.items))
  {
    match p
    case NumberList(_) => ListBytes(p)
    case Base64Text(s) => if s == "" then None else decode(s)
    case _ => None
  }

  /** The byte-copy loop that turns a JSON number list into a `byte[]`. */
  method CopyNumberList(items: seq<int>) returns (bytes: seq<byte>)
    ensures bytes == ToBytes(items)
  {
    bytes := [];
    var i := 0;
    while i < |items|
      invariant 0 <= i <= |items|
      invariant |bytes| == i
      invariant forall k :: 0 <= k < i ==> bytes[k] == ToByte(items[k])
    {
      bytes := bytes + [ToByte(items[i])];
      i := i + 1;
    }
  }

  method ReadPayload(p: Packed, decode: Base64Decoder, acceptText: bool) returns (r: Option<seq<byte>>)
    ensures r == if acceptText then PayloadBytes(p, decode) else ListBytes(p)
  {
    match p {
      case NumberList(items) =>
        var bytes := CopyNumberList(items);
        r := Some(bytes);
      case Base64Text(s) =>
        if !acceptText || s == "" {
          r := None;
        } else {
          r := decode(s);
        }
      case _ =>
        r := None;
    }
  }

  // ---------------------------------------------------------------- water

  /** The water grid the request carries: `None` (null) without a payload or without a positive cell count. */
  function WaterOf(req: Request, decode: Base64Decoder): (r: Option<seq<bool>>)
    ensures r.Some? <==> PayloadBytes(req.cellWaterPacked, decode).Some? && TotalCells(req) > 0
    ensures r.Some? ==> |r.value| == TotalCells(req)
    ensures r.Some? ==> forall k :: 0 <= k < |r.value| ==> r.value[k] == WaterCell(PayloadBytes(req.cellWaterPacked, decode).value, k)
  {
    var bytes := PayloadBytes(req.cellWaterPacked, decode);
    var total := TotalCells(req);
    if bytes.None? || total <= 0 then None
    else Some(WaterGrid(bytes.value, total))
  }

  method DecodeWater(req: Request, decode: Base64Decoder) returns (r: Option<seq<bool>>)
    ensures r == WaterOf(req, decode)
  {
    var payload := ReadPayload(req.cellWaterPacked, decode, true);
    if payload.None? {
      return None;
    }
    var bytes := payload.value;
    var total := TotalCells(req);
    if total <= 0 {
      return None;
    }
    var result := new bool[total](_ => false);
    var bitIndex := 0;
    var j := 0;
    while j < |bytes|
      invariant 0 <= j <= |bytes|
      invariant bitIndex == Min(8 * j, total)
      invariant forall k :: 0 <= k < bitIndex ==> result[k] == WaterCell(bytes, k)
      invariant forall k :: bitIndex <= k < total ==> !result[k]
    {
      bitIndex := UnpackWaterByte(result, bytes, j, bitIndex);
      j := j + 1;
    }
    WaterGridOf(result[..], bytes, total);
    r := Some(result[..]);
  }

  /** The inner loop: the eight bits of byte `j`, least significant first, while cells remain. */
  method UnpackWaterByte(result: array<bool>, bytes: seq<byte>, j: nat, bitIndex: nat) returns (next: nat)
    requires j < |bytes| && bitIndex == Min(8 * j, result.Length)
    requires forall k :: 0 <= k < bitIndex ==> result[k] == WaterCell(bytes, k)
    requires forall k :: bitIndex <= k < result.Length ==> !result[k]
    modifies result
    ensures next == Min(8 * (j + 1), result.Length)
    ensures forall k :: 0 <= k < next ==> result[k] == WaterCell(bytes, k)
    ensures forall k :: next <= k < result.Length ==> !result[k]
  {
    var b := bytes[j];
    var bit := 0;
    next := bitIndex;
    while bit < 8 && next < result.Length
      invariant 0 <= bit <= 8
      invariant next == Min(8 * j + bit, result.Length)
      invariant forall k :: 0 <= k < next ==> result[k] == WaterCell(bytes, k)
      invariant forall k :: next <= k < result.Length ==> !result[k]
    {
      BitPosition(j, bit);
      result[next] := BitOf(b, bit);
      next := next + 1;
      bit := bit + 1;
    }
  }

  /** Cell `8 * j + bit` sits in byte `j` at bit `bit`. */
  lemma BitPosition(j: nat, bit: nat)
    requires bit < 8
    ensures (8 * j + bit) / 8 == j && (8 * j + bit) % 8 == bit
  {
  }

  lemma WaterGridOf(s: seq<bool>, bytes: seq<byte>, total: nat)
    requires |s| == total && forall k :: 0 <= k < total ==> s[k] == WaterCell(bytes, k)
    ensures s == WaterGrid(bytes, total)
  {
  }

  // ---------------------------------------------------------------- terrain

  /** The length test that picks the nibble form: within one byte of `total / 2`. */
  predicate InNibbleWindow(len: int, total: int)
  {
    len <= total / 2 + 1 && len >= total / 2 - 1
  }

  /** The first `total` cells of a run-length stream read by the image renderer, zero-filled. */
  function RleGrid(bytes: seq<byte>, total: nat): (r: seq<int>)
    ensures |r| == total
  {
    Resize(RleCells(bytes, 0, false), total, 0)
  }

  /** The terrain grid decoded from the packed field, choosing the format by payload length alone. */
  function PackedBackgroundsOf(req: Request, decode: Base64Decoder): (r: Option<seq<int>>)
    ensures r.Some? <==> PayloadBytes(req.cellBackgroundsPacked, decode).Some? && TotalCells(req) > 0
    ensures r.Some? ==> |r.value| == TotalCells(req)
  {
    var bytes := PayloadBytes(req.cellBackgroundsPacked, decode);
    var total := TotalCells(req);
    if bytes.None? || total <= 0 then None
    else if InNibbleWindow(|bytes.value|, total) then Some(NibbleCells(bytes.value, total))
    else Some(RleGrid(bytes.value, total))
  }

  /** A payload that is a complete run-length stream of exactly `total` cells. */
  predicate CompleteRle(bytes: seq<byte>, total: int)
  {
    WellFormedRle(bytes, 0) && |RleCells(bytes, 0, false)| == total
  }

  /** The corrected format choice: a complete run-length stream is never read as nibbles. */
  predicate ReadAsNibbles(bytes: seq<byte>, total: int)
  {
    !CompleteRle(bytes, total) && InNibbleWindow(|bytes|, total)
  }

  /** `PackedBackgroundsOf` with the corrected format choice. */
  function CorrectedBackgroundsOf(req: Request, decode: Base64Decoder): (r: Option<seq<int>>)
    ensures r.Some? <==> PayloadBytes(req.cellBackgroundsPacked, decode).Some? && TotalCells(req) > 0
    ensures r.Some? ==> |r.value| == TotalCells(req)
  {
    var bytes := PayloadBytes(req.cellBackgroundsPacked, decode);
    var total := TotalCells(req);
    if bytes.None? || total <= 0 then None
    else if ReadAsNibbles(bytes.value, total) then Some(NibbleCells(bytes.value, total))
    else Some(RleGrid(bytes.value, total))
  }

  method DecodeNibbles(bytes: seq<byte>, total: nat) returns (result: seq<int>)
    ensures result == NibbleCells(bytes, total)
  {
    result := [];
    var i := 0;
    while i < total
      invariant 0 <= i <= total
      invariant |result| == i
      invariant forall k :: 0 <= k < i ==> result[k] == NibbleCell(bytes, k)
    {
      var byteIndex := i / 2;
      if byteIndex >= |bytes| {
        result := result + [0];
      } else {
        var b := bytes[byteIndex];
        var value := if i % 2 == 0 then b % 16 else (b / 16) % 16;
        result := result + [value];
      }
      i := i + 1;
    }
  }


  /** The inner loop of a run: up to `count` copies of `value`, never past `total` cells. */
  method AppendRun(result: seq<int>, ghost consumed: seq<int>, value: int, count: nat, total: nat) returns (out: seq<int>)
    requires result == Take(consumed, total)
    ensures out == Take(consumed + Repeat(value, count), total)
  {
    out := result;
    var i := 0;
    while i < count && |out| < total
      invariant 0 <= i <= count
      invariant out == Take(consumed + Repeat(value, i), total)
    {
      out := out + [value];
      i := i + 1;
    }
    if i < count {
      TakeOfLongPrefix(consumed + Repeat(value, i), Repeat(value, count - i), total);
      RepeatSplit(value, i, count - i);
      assert consumed + Repeat(value, i) + Repeat(value, count - i) == consumed + Repeat(value, count);
    }
  }



  /** Zero-filling the cells the stream did not reach. */
  method ZeroFill(result: seq<int>, total: nat) returns (out: seq<int>)
    requires |result| <= total
    ensures out == Resize(result, total, 0)
  {
    out := result;
    while |out| < total
      invariant |result| <= |out| <= total
      invariant out == result + Repeat(0, |out| - |result|)
      decreases total - |out|
    {
      out := out + [0];
    }
  }

  /** The run-length loop of the image renderer: stops at `total` cells or at a marker without two following bytes. */
  method DecodeRle(bytes: seq<byte>, total: nat) returns (result: seq<int>)
    ensures result == RleGrid(bytes, total)
  {
    result := [];
    var byteIdx := 0;
    ghost var consumed: seq<int> := [];
    ghost var all := RleCells(bytes, 0, false);
    while byteIdx < |bytes| && |result| < total
      invariant 0 <= byteIdx <= |bytes|
      invariant all == consumed + RleCells(bytes, byteIdx, false)
      invariant result == Take(consumed, total)
    {
      var stop, nextByte, out, block := ReadRleBlock(bytes, byteIdx, result, consumed, total);
      if stop {
        break;
      }
      MoveBlock(consumed, block, RleCells(bytes, nextByte, false), all);
      consumed := consumed + block;
      result := out;
      byteIdx := nextByte;
    }
    if |result| >= total {
      TakeOfLongPrefix(consumed, RleCells(bytes, byteIdx, false), total);
    } else {
      assert consumed + RleCells(bytes, byteIdx, false) == consumed;
    }
    result := ZeroFill(result, total);
  }

  /**
   * One pass of the run-length loop at byte `byteIdx`: a run, a direct byte, or a
   * marker without two following bytes, which stops the loop.
   */
  method ReadRleBlock(bytes: seq<byte>, byteIdx: nat, result: seq<int>, ghost consumed: seq<int>, total: nat)
    returns (stop: bool, nextByte: nat, out: seq<int>, ghost block: seq<int>)
    requires byteIdx < |bytes| && |result| < total && result == Take(consumed, total)
    ensures stop ==> RleCells(bytes, byteIdx, false) == []
    ensures !stop ==> byteIdx < nextByte <= |bytes|
    ensures !stop ==> RleCells(bytes, byteIdx, false) == block + RleCells(bytes, nextByte, false)
    ensures !stop ==> out == Take(consumed + block, total)
  {
    RleCellsStep(bytes, byteIdx, false);
    var currentByte := bytes[byteIdx];
    stop, nextByte, out, block := false, byteIdx + 1, result, [];
    if currentByte == RunMarker {
      if byteIdx + 2 < |bytes| {
        var value := bytes[byteIdx + 1] % 32;
        var count := bytes[byteIdx + 2];
        out := AppendRun(result, consumed, value, count, total);
        block := Repeat(value, count);
        nextByte := byteIdx + 3;
      } else {
        stop := true;
      }
    } else {
      TakeSnoc(consumed, currentByte % 32, total);
      block := [currentByte % 32];
      out := result + [currentByte % 32];
    }
  }

  /** `decodePackedBackgrounds` as written: nibbles whenever the length is in the window. */
  method DecodePackedBackgrounds(req: Request, decode: Base64Decoder) returns (r: Option<seq<int>>)
    ensures r == PackedBackgroundsOf(req, decode)
  {
    var payload := ReadPayload(req.cellBackgroundsPacked, decode, true);
    var total := TotalCells(req);
    if payload.None? || total <= 0 {
      return None;
    }
    var cells;
    if InNibbleWindow(|payload.value|, total) {
      cells := DecodeNibbles(payload.value, total);
    } else {
      cells := DecodeRle(payload.value, total);
    }
    r := Some(cells);
  }

  /** `decodePackedBackgrounds` with the corrected format choice, as the renderer in this model uses it. */
  method DecodePackedBackgroundsCorrected(req: Request, decode: Base64Decoder) returns (r: Option<seq<int>>)
    ensures r == CorrectedBackgroundsOf(req, decode)
  {
    var payload := ReadPayload(req.cellBackgroundsPacked, decode, true);
    var total := TotalCells(req);
    if payload.None? || total <= 0 {
      return None;
    }
    var cells;
    if ReadAsNibbles(payload.value, total) {
      cells := DecodeNibbles(payload.value, total);
    } else {
      cells := DecodeRle(payload.value, total);
    }
    r := Some(cells);
  }

  /** A raw `bg` list always wins over the packed field. */
  method GetCellBackgrounds(req: Request, decode: Base64Decoder) returns (r: Option<seq<int>>)
    ensures req.cellBackgrounds.Some? ==> r == req.cellBackgrounds
    ensures req.cellBackgrounds.None? ==> r == CorrectedBackgroundsOf(req, decode)
  {
    if req.cellBackgrounds.Some? {
      return req.cellBackgrounds;
    }
    r := DecodePackedBackgroundsCorrected(req, decode);
  }

  // ---------------------------------------------------------------- scenery

  /** What the scenery decoder yields: nothing (null), a token list, or the index it read out of bounds. */
  datatype Scenery = NotDecoded | Records(tokens: seq<Token>) | OutOfBounds(index: int, length: int)

  /** The token one scenery record becomes: never GM-only, with no avatar. */
  function SceneryToken(t: byte, x: int, y: int, color: Option<string>, size: Option<int>): Token
  {
    Token(Some(x), Some(y), Some(false), None, None, None, Some(SceneryTypeName(t)), color, size)
  }

  function PrependAll(ts: seq<Token>, s: Scenery): Scenery
  {
    if s.Records? then Records(ts + s.tokens) else s
  }

  /**
   * The record whose header starts at byte `i`: type, x and y (16-bit
   * little-endian), flags, then three colour bytes when bit 0 of the flags is
   * set and a size byte when bit 1 is set. `None` when the colour or the size
   * is cut off; otherwise the token and the index after the record.
   */
  function RecordAt(bytes: seq<byte>, i: nat): (r: Option<(Token, nat)>)
    requires i + 6 <= |bytes|
    ensures r.Some? ==> i + 6 <= r.value.1 <= |bytes|
  {
    var flags := bytes[i + 5];
    var hasColor := flags % 2 == 1;
    var hasSize := (flags / 2) % 2 == 1;
    var afterColor := if hasColor then i + 9 else i + 6;
    if hasColor && i + 9 > |bytes| then None
    else if hasSize && afterColor >= |bytes| then None
    else
      var color := if hasColor then Some(ColorHex(bytes[i + 6], bytes[i + 7], bytes[i + 8])) else None;
      var size := if hasSize then Some(bytes[afterColor] as int) else None;
      var next := if hasSize then afterColor + 1 else afterColor;
      var x := (bytes[i + 1] as int) + 256 * (bytes[i + 2] as int);
      var y := (bytes[i + 3] as int) + 256 * (bytes[i + 4] as int);
      Some((SceneryToken(bytes[i], x, y, color, size), next))
  }

  /**
   * The records of a scenery stream from byte `i`. A record is attempted only
   * when at least `minRecord` bytes remain; with fewer than six its flags byte
   * is read past the end. A cut-off colour or size ends the stream.
   */
  function SceneryFrom(bytes: seq<byte>, i: nat, minRecord: nat): Scenery
    decreases |bytes| - i
  {
    if i >= |bytes| || i + minRecord > |bytes| then Records([])
    else if i + 6 > |bytes| then OutOfBounds(i + 5, |bytes|)
    else match RecordAt(bytes, i)
      case None => Records([])
      case Some((t, next)) => PrependAll([t], SceneryFrom(bytes, next, minRecord))
  }

  /** The record-length guard as written: five bytes, although a record header has six. */
  const RecordGuardAsWritten: nat := 5

  /** The corrected guard: the six bytes of a record header. */
  const RecordGuard: nat := 6

  function SceneryOf(req: Request, minRecord: nat): Scenery
  {
    var bytes := ListBytes(req.environmentObjectsBinary);
    if bytes.None? then NotDecoded else SceneryFrom(bytes.value, 0, minRecord)
  }

  /** Reading one record after the header check: the successive `bytes[byteIdx++]` reads. */
  method ReadRecord(bytes: seq<byte>, start: nat) returns (rec: Option<(Token, nat)>)
    requires start + 6 <= |bytes|
    ensures rec == RecordAt(bytes, start)
  {
    var typeValue := bytes[start];
    var x := (bytes[start + 1] as int) + 256 * (bytes[start + 2] as int);
    var y := (bytes[start + 3] as int) + 256 * (bytes[start + 4] as int);
    var flags := bytes[start + 5];
    var byteIdx := start + 6;
    var color: Option<string> := None;
    if flags % 2 == 1 {
      if byteIdx + 3 > |bytes| {
        return None;
      }
      color := Some(ColorHex(bytes[byteIdx], bytes[byteIdx + 1], bytes[byteIdx + 2]));
      byteIdx := byteIdx + 3;
    }
    var size: Option<int> := None;
    if (flags / 2) % 2 == 1 {
      if byteIdx >= |bytes| {
        return None;
      }
      size := Some(bytes[byteIdx] as int);
      byteIdx := byteIdx + 1;
    }
    rec := Some((SceneryToken(typeValue, x, y, color, size), byteIdx));
  }

  lemma PrependAllTwice(a: seq<Token>, b: seq<Token>, s: Scenery)
    ensures PrependAll(a, PrependAll(b, s)) == PrependAll(a + b, s)
  {
    if s.Records? {
      assert a + (b + s.tokens) == (a + b) + s.tokens;
    }
  }

  /** The scenery decoding loop; `minRecord` is the record-length guard. */
  method DecodeEnvironmentObjects(req: Request, minRecord: nat) returns (r: Scenery)
    requires minRecord >= 5
    ensures r == SceneryOf(req, minRecord)
  {
    var payload := ReadPayload(req.environmentObjectsBinary, _ => None, false);
    if payload.None? {
      return NotDecoded;
    }
    var bytes := payload.value;
    var result: seq<Token> := [];
    var byteIdx := 0;
    while byteIdx < |bytes|
      invariant 0 <= byteIdx <= |bytes|
      invariant PrependAll(result, SceneryFrom(bytes, byteIdx, minRecord)) == SceneryFrom(bytes, 0, minRecord)
      decreases |bytes| - byteIdx
    {
      if byteIdx + minRecord > |bytes| {
        break;
      }
      if byteIdx + 5 >= |bytes| {
        // the flags byte lies past the end: ArrayIndexOutOfBoundsException
        return OutOfBounds(byteIdx + 5, |bytes|);
      }
      var rec := ReadRecord(bytes, byteIdx);
      if rec.None? {
        break;
      }
      PrependAllTwice(result, [rec.value.0], SceneryFrom(bytes, rec.value.1, minRecord));
      result := result + [rec.value.0];
      byteIdx := rec.value.1;
    }
    r := Records(result);
  }

  /** The regular tokens in request order, then the decoded scenery tokens in stream order. */
  method GetAllTokens(req: Request, minRecord: nat) returns (r: Result<seq<Token>, JavaException>)
    requires minRecord >= 5
    ensures !SceneryOf(req, minRecord).OutOfBounds? ==>
      r == Ok((if req.tokens.Some? then req.tokens.value else [])
              + (if SceneryOf(req, minRecord).Records? then SceneryOf(req, minRecord).tokens else []))
    ensures SceneryOf(req, minRecord).OutOfBounds? ==>
      r == Err(IndexOutOfBounds(SceneryOf(req, minRecord).index, SceneryOf(req, minRecord).length))
  {
    var all: seq<Token> := [];
    if req.tokens.Some? {
      all := all + req.tokens.value;
    }
    assert all == if req.tokens.Some? then req.tokens.value else [];
    var env := DecodeEnvironmentObjects(req, minRecord);
    if env.OutOfBounds? {
      return Err(IndexOutOfBounds(env.index, env.length));
    }
    if env.Records? && |env.tokens| > 0 {
      all := all + env.tokens;
    } else {
      assert all + [] == all;
    }
    r := Ok(all);
  }

  /** The exception Java raises for an array read at `index` in an array of `length` elements. */
  function IndexOutOfBounds(index: int, length: int): JavaException
  {
    OtherException("ArrayIndexOutOfBoundsException",
      Some("Index " + IntToString(index) + " out of bounds for length " + IntToString(length)))
  }
}
