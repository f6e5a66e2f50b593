/**
 * What the image renderer reads from the payloads the editors write: the
 * terrain, water and scenery streams of the frontend codec decoded by the
 * request decoders of the backend, including the two places where the
 * backend as written parts from the format.
 */
module CodecAgreement {
  import opened Common
  import opened GridFormat
  import opened BattlemapRequest
  import opened MapEditorCodec

  /** A request carrying only a grid size and a terrain payload. */
  function TerrainRequest(gw: int, gh: int, packed: Packed): Request
  {
    EmptyRequest.(gridWidth := Some(gw), gridHeight := Some(gh), cellBackgroundsPacked := packed)
  }

  // ---------------------------------------------------------------- terrain

  /** Every stream the editors write is a complete run-length stream of its grid. */
  lemma EditorRleIsComplete(bg: seq<int>, total: nat)
    ensures CompleteRle(RleEncodeFrom(EncoderCells(bg, total, 0), 0), total)
  {
    var cells := EncoderCells(bg, total, 0);
    var bytes := RleEncodeFrom(cells, 0);
    RleEncodeReadsBack(cells, 0, false);
    CanonicalIsWellFormed(bytes, 0);
  }

  /**
   * With the corrected format choice the renderer reads an editor's terrain
   * payload, in either transport form, as the editor itself does: the first
   * `gw * gh` cells masked to 5 bits.
   */
  lemma RendererReadsEditorTerrain(req: Request, decode: Base64Decoder, bg: seq<int>)
    requires TotalCells(req) > 0
    requires PayloadBytes(req.cellBackgroundsPacked, decode) == Some(RleEncodeFrom(EncoderCells(bg, TotalCells(req), 0), 0))
    ensures CorrectedBackgroundsOf(req, decode) == Some(MaskedCells(EncoderCells(bg, TotalCells(req), 0), 0, TotalCells(req)))
    ensures CorrectedBackgroundsOf(req, decode)
      == Some(Resize(RleCells(RleEncodeFrom(EncoderCells(bg, TotalCells(req), 0), 0), 0, true), TotalCells(req), 0))
  {
    var total: nat := TotalCells(req);
    var cells := EncoderCells(bg, total, 0);
    var bytes := RleEncodeFrom(cells, 0);
    EditorRleIsComplete(bg, total);
    RleEncodeReadsBack(cells, 0, false);
    assert RleGrid(bytes, total) == MaskedCells(cells, 0, total);
    RunLengthRoundTrip(bg, total);
  }

  /** On a grid of 5-bit ids the renderer gets back exactly the editor's grid. */
  lemma RendererReadsEditorGrid(req: Request, decode: Base64Decoder, bg: seq<int>)
    requires TotalCells(req) > 0 && |bg| == TotalCells(req)
    requires forall i :: 0 <= i < |bg| ==> 0 <= bg[i] < 32
    requires PayloadBytes(req.cellBackgroundsPacked, decode) == Some(RleEncodeFrom(EncoderCells(bg, TotalCells(req), 0), 0))
    ensures CorrectedBackgroundsOf(req, decode) == Some(bg)
  {
    RendererReadsEditorTerrain(req, decode, bg);
    RunLengthRoundTripIdentity(bg, TotalCells(req));
  }

  /** The stream the editors write for an 8 x 1 grid of seven 1s and a 2: one run and one direct cell. */
  lemma EightCellEncoding()
    ensures RleEncodeFrom(EncoderCells([1, 1, 1, 1, 1, 1, 1, 2], 8, 0), 0) == [RunMarker, 1, 7, 2]
  {
    var cells := EncoderCells([1, 1, 1, 1, 1, 1, 1, 2], 8, 0);
    assert cells == [1, 1, 1, 1, 1, 1, 1, 2];
    assert RunLength(cells, 0, 1) == 7;
    assert RunLength(cells, 7, 1) == 1;
    assert RleBlock(cells, 0) == [RunMarker, 1, 7];
    assert RleBlock(cells, 7) == MaskedCells(cells, 7, 8) == [2];
    calc {
      RleEncodeFrom(cells, 0);
      RleBlock(cells, 0) + RleEncodeFrom(cells, 7);
      RleBlock(cells, 0) + (RleBlock(cells, 7) + RleEncodeFrom(cells, 8));
      [RunMarker, 1, 7] + ([2] + []);
    }
  }

  /**
   * The backend's format choice as written reads that four-byte stream as
   * nibbles, because four is within one of 8 / 2: the first cell comes out
   * as 15 instead of 1. The corrected choice reads the grid.
   */
  lemma NibbleWindowMisreadsEditorStream(decode: Base64Decoder)
    ensures var req := TerrainRequest(8, 1, NumberList([RunMarker, 1, 7, 2]));
      PackedBackgroundsOf(req, decode).Some? && PackedBackgroundsOf(req, decode).value[0] == 15
      && CorrectedBackgroundsOf(req, decode) == Some([1, 1, 1, 1, 1, 1, 1, 2])
  {
    EightCellReadAsNibbles(decode);
    EightCellReadAsRuns(decode);
  }

  lemma EightCellReadAsNibbles(decode: Base64Decoder)
    ensures var req := TerrainRequest(8, 1, NumberList([RunMarker, 1, 7, 2]));
      PackedBackgroundsOf(req, decode).Some? && PackedBackgroundsOf(req, decode).value[0] == 15
  {
    var req := TerrainRequest(8, 1, NumberList([RunMarker, 1, 7, 2]));
    ToBytesOfBytes([RunMarker, 1, 7, 2]);
    assert PayloadBytes(req.cellBackgroundsPacked, decode) == Some([RunMarker, 1, 7, 2]);
    assert InNibbleWindow(4, 8);
    assert NibbleCell([RunMarker, 1, 7, 2], 0) == 15;
  }

  lemma EightCellReadAsRuns(decode: Base64Decoder)
    ensures CorrectedBackgroundsOf(TerrainRequest(8, 1, NumberList([RunMarker, 1, 7, 2])), decode) == Some([1, 1, 1, 1, 1, 1, 1, 2])
  {
    var req := TerrainRequest(8, 1, NumberList([RunMarker, 1, 7, 2]));
    var bg := [1, 1, 1, 1, 1, 1, 1, 2];
    assert TotalCells(req) == 8;
    EightCellEncoding();
    ToBytesOfBytes([RunMarker, 1, 7, 2]);
    assert PayloadBytes(req.cellBackgroundsPacked, decode) == Some([RunMarker, 1, 7, 2]);
    RendererReadsEditorGrid(req, decode, bg);
  }

  /** The legacy nibble packer's payload always falls in the length window. */
  lemma NibblePayloadInWindow(bg: seq<int>, total: nat)
    requires total > 0
    ensures InNibbleWindow(|NibbleBytes(bg, total)|, total)
  {
  }

  /**
   * The readers disagree on a marker with fewer than two bytes after it:
   * the editor reads it as a direct cell (31), the renderer ends the stream.
   * The editors never write one.
   */
  lemma TrailingMarkerReadings()
    ensures RleCells([5, RunMarker], 0, true) == [5, 31]
    ensures RleCells([5, RunMarker], 0, false) == [5]
    ensures !WellFormedRle([5, RunMarker], 0)
  {
    assert RleCells([5, RunMarker], 1, true) == [31] + RleCells([5, RunMarker], 2, true);
  }

  // ---------------------------------------------------------------- water

  /** The renderer reads an editor's water payload as the editor does: the first `gw * gh` flags, dry beyond the list. */
  lemma RendererReadsEditorWater(req: Request, decode: Base64Decoder, water: seq<bool>)
    requires TotalCells(req) > 0
    requires PayloadBytes(req.cellWaterPacked, decode) == Some(WaterBytes(water, TotalCells(req)))
    ensures BattlemapRequest.WaterOf(req, decode) == Some(Resize(water, TotalCells(req), false))
  {
    var total: nat := TotalCells(req);
    WaterRoundTrip(water, total);
    assert BattlemapRequest.WaterOf(req, decode).value == WaterGrid(WaterBytes(water, total), total);
  }

  // ---------------------------------------------------------------- scenery

  /** The token the renderer makes of a decoded editor object, whose position and size are whole numbers. */
  function AsToken(o: EnvObject): Token
  {
    Token(Some(o.x.Floor), Some(o.y.Floor), Some(false), None, None, None, Some(o.kind), o.color,
      if o.size.Some? then Some(o.size.value.Floor) else None)
  }

  function AsTokens(objects: seq<EnvObject>): (r: seq<Token>)
    ensures |r| == |objects| && forall k :: 0 <= k < |objects| ==> r[k] == AsToken(objects[k])
  {
    if objects == [] then [] else [AsToken(objects[0])] + AsTokens(objects[1..])
  }

  lemma RecordAtShift(p: seq<byte>, s: seq<byte>, i: nat)
    requires i + 6 <= |s|
    ensures RecordAt(s, i).None? ==> RecordAt(p + s, |p| + i).None?
    ensures RecordAt(s, i).Some? ==> RecordAt(p + s, |p| + i) == Some((RecordAt(s, i).value.0, |p| + RecordAt(s, i).value.1))
  {
    var t := p + s;
    forall k | 0 <= k < |s| ensures t[|p| + k] == s[k] { }
  }

  /** A prefix does not change how a stream reads, unless it ends in a failed read (whose index the prefix moves). */
  lemma {:induction false} SceneryShift(p: seq<byte>, s: seq<byte>, i: nat, minRecord: nat)
    requires !SceneryFrom(s, i, minRecord).OutOfBounds?
    ensures SceneryFrom(p + s, |p| + i, minRecord) == SceneryFrom(s, i, minRecord)
    decreases |s| - i
  {
    if i < |s| && i + minRecord <= |s| && i + 6 <= |s| {
      RecordAtShift(p, s, i);
      var r := RecordAt(s, i);
      if r.Some? {
        SceneryShift(p, s, r.value.1, minRecord);
      }
    }
  }

  /** The renderer reads one editor record as the token of the decoded object. */
  lemma RendererRecordOfEditorRecord(o: EnvObject, rest: seq<byte>, id: int)
    ensures |EnvRecord(o) + rest| >= 6
    ensures RecordAt(EnvRecord(o) + rest, 0) == Some((AsToken(Decoded(o, id)), |EnvRecord(o)|))
  {
    RecordHeader(o, rest);
    if HasColor(o) {
      RecordColor(o, rest);
    }
    if o.size.Some? {
      RecordSize(o, rest);
    }
    RendererRecordFrom(EnvRecord(o) + rest, o, id, |EnvRecord(o)|);
  }

  /** A stream whose first `len` bytes hold the fields of `o` reads in the renderer as the token of `o`'s decoded form. */
  lemma RendererRecordFrom(t: seq<byte>, o: EnvObject, id: int, len: nat)
    requires len == 6 + (if HasColor(o) then 3 else 0) + (if o.size.Some? then 1 else 0) && len <= |t|
    requires t[0] == TypeCode(o.kind) && t[5] == RecordFlags(o)
    requires t[1] as int + 256 * t[2] as int == JsRound(o.x) % 65536 && t[3] as int + 256 * t[4] as int == JsRound(o.y) % 65536
    requires HasColor(o) ==> var rgb := HexToRgb(o.color.value); t[6] == rgb.0 && t[7] == rgb.1 && t[8] == rgb.2
    requires o.size.Some? ==> t[len - 1] == ClampSize(JsRound(o.size.value))
    ensures RecordAt(t, 0) == Some((AsToken(Decoded(o, id)), len))
  {
    DecodedToken(o, id);
  }

  /** The decoded object's whole-number position and size, as the token holds them. */
  lemma DecodedToken(o: EnvObject, id: int)
    ensures AsToken(Decoded(o, id)) == Token(Some(JsRound(o.x) % 65536), Some(JsRound(o.y) % 65536), Some(false),
      None, None, None, Some(SceneryTypeName(TypeCode(o.kind))), Decoded(o, id).color,
      if o.size.Some? then Some(ClampSize(JsRound(o.size.value)) as int) else None)
  {
  }

  lemma SceneryStep(bytes: seq<byte>, minRecord: nat, t: Token, next: nat)
    requires 6 <= |bytes| && minRecord <= 6 && RecordAt(bytes, 0) == Some((t, next))
    ensures SceneryFrom(bytes, 0, minRecord) == PrependAll([t], SceneryFrom(bytes, next, minRecord))
  {
  }

  lemma SceneryAfterRecord(rec: seq<byte>, rest: seq<byte>, t: Token, minRecord: nat)
    requires 6 <= |rec| && minRecord <= 6 && RecordAt(rec + rest, 0) == Some((t, |rec|))
    requires !SceneryFrom(rest, 0, minRecord).OutOfBounds?
    ensures SceneryFrom(rec + rest, 0, minRecord) == PrependAll([t], SceneryFrom(rest, 0, minRecord))
  {
    SceneryStep(rec + rest, minRecord, t, |rec|);
    SceneryShift(rec, rest, 0, minRecord);
  }

  lemma RendererFirstRecord(o: EnvObject, rest: seq<byte>, id: int, minRecord: nat)
    requires minRecord <= 6
    requires !SceneryFrom(rest, 0, minRecord).OutOfBounds?
    ensures SceneryFrom(EnvRecord(o) + rest, 0, minRecord)
      == PrependAll([AsToken(Decoded(o, id))], SceneryFrom(rest, 0, minRecord))
  {
    RendererRecordOfEditorRecord(o, rest, id);
    SceneryAfterRecord(EnvRecord(o), rest, AsToken(Decoded(o, id)), minRecord);
  }

  /**
   * The renderer turns an editor's scenery payload into one token per
   * object, in order, carrying what the editor itself reads back. Since every
   * record has at least six bytes, the five-byte guard as written and the
   * corrected six-byte guard agree here.
   */
  lemma {:induction false} RendererReadsEditorScenery(objects: seq<EnvObject>, id: int, minRecord: nat)
    requires minRecord == RecordGuardAsWritten || minRecord == RecordGuard
    ensures SceneryFrom(PackEnv(objects), 0, minRecord) == Records(AsTokens(DecodedAll(objects, id)))
  {
    if objects == [] {
      assert PackEnv(objects) == [];
    } else {
      var rest := PackEnv(objects[1..]);
      RendererReadsEditorScenery(objects[1..], id + 1, minRecord);
      calc {
        SceneryFrom(PackEnv(objects), 0, minRecord);
        SceneryFrom(EnvRecord(objects[0]) + rest, 0, minRecord);
        { RendererFirstRecord(objects[0], rest, id, minRecord); }
        PrependAll([AsToken(Decoded(objects[0], id))], SceneryFrom(rest, 0, minRecord));
        { RendererReadsEditorScenery(objects[1..], id + 1, minRecord); }
        PrependAll([AsToken(Decoded(objects[0], id))], Records(AsTokens(DecodedAll(objects[1..], id + 1))));
        Records([AsToken(Decoded(objects[0], id))] + AsTokens(DecodedAll(objects[1..], id + 1)));
      }
    }
  }

  /** Both sides agree on an editor's scenery: the renderer's tokens are the tokens of the editor's own reading. */
  lemma SceneryReadingsAgree(objects: seq<EnvObject>)
    ensures SceneryFrom(PackEnv(objects), 0, RecordGuard) == Records(AsTokens(EnvFrom(PackEnv(objects), 0, 1)))
  {
    RendererReadsEditorScenery(objects, 1, RecordGuard);
    EnvRoundTrip(objects, 1);
  }

  /**
   * A stream ending in a bare five-byte header: the guard as written lets it
   * through and the flags read fails at index 5, where the six-byte guard
   * stops cleanly. The editor reads the header as an object without colour
   * or size.
   */
  lemma FiveByteTail()
    ensures SceneryFrom([0, 1, 0, 2, 0], 0, RecordGuardAsWritten) == OutOfBounds(5, 5)
    ensures SceneryFrom([0, 1, 0, 2, 0], 0, RecordGuard) == Records([])
    ensures EnvFrom([0, 1, 0, 2, 0], 0, 1) == [EnvObject(1, "tree", 1.0, 2.0, None, None)]
  {
    var bytes: seq<byte> := [0, 1, 0, 2, 0];
    assert EnvRecordAt(bytes, 0, 1) == Some((EnvObject(1, "tree", 1.0, 2.0, None, None), 6));
  }
}
