/**
 * The link payload of the map editor page: `compactData` turns the editor's
 * data into the short JSON object a shared link carries, `expandData` reads
 * such an object (of this or of an older layout) back into editor data, and
 * `encodeDataParam` / `decodeDataParam` choose between the gzip-compressed and
 * the plain JSON bytes. JSON, gzip, UTF-8 and Base64 are parameters.
 */
module MapEditorData {
  import opened Common
  import opened GridFormat
  import opened MapEditorCodec

  /** `BattlemapEditorData`; an absent member is `None`. */
  datatype EditorData<Tok> = EditorData(
    gridWidth: int,
    gridHeight: int,
    cellBackgrounds: Option<seq<int>>,
    cellWater: Option<seq<bool>>,
    tokens: Option<seq<Tok>>,
    environmentObjects: Option<seq<EnvObject>>)

  /** The object `compactData` builds: `gw`, `gh`, `ts` and, when worth writing, `eob`, `bgp` and `wp`. */
  datatype Payload<Tok> = Payload(gw: int, gh: int, ts: seq<Tok>, eob: Option<seq<byte>>, bgp: Option<seq<byte>>, wp: Option<seq<byte>>)

  /**
   * A parsed link object as `expandData` inspects it: each member absent (or
   * null), or of the JSON kind the code tests for. Old links carry
   * `gridWidth`, `cellBackgrounds`, `eo` / `environmentObjects`, `cellWater`
   * and `tokens`; new ones the short names.
   */
  datatype RawData<Tok> = RawData(
    gw: Option<int>, gridWidth: Option<int>, gh: Option<int>, gridHeight: Option<int>,
    cellBackgrounds: Option<seq<int>>, bgp: Packed,
    eob: Packed, eo: Option<seq<EnvObject>>, environmentObjects: Option<seq<EnvObject>>,
    cellWater: Option<seq<bool>>, wp: Packed,
    ts: Option<seq<Tok>>, tokens: Option<seq<Tok>>)

  /** `a ?? b`. */
  function OrElse<T>(a: Option<T>, b: T): (r: T)
    ensures a.Some? ==> r == a.value
    ensures a.None? ==> r == b
  {
    if a.Some? then a.value else b
  }

  /** `x && x.length > 0` for an optional array. */
  predicate NonEmpty<T>(x: Option<seq<T>>) { x.Some? && |x.value| > 0 }

  /** `bg.every(v => v === 0)`. */
  predicate AllDefault(bg: seq<int>) { forall i :: 0 <= i < |bg| ==> bg[i] == 0 }

  /** `water.some(w => w)`. */
  predicate AnyWater(water: seq<bool>) { exists i :: 0 <= i < |water| && water[i] }

  // ---------------------------------------------------------------- compactData

  /** The payload `compactData` builds from editor data. */
  function PayloadOf<Tok>(d: EditorData<Tok>): Payload<Tok>
  {
    var total := d.gridWidth * d.gridHeight;
    Payload(d.gridWidth, d.gridHeight, OrElse(d.tokens, []),
      if NonEmpty(d.environmentObjects) then Some(PackEnv(d.environmentObjects.value)) else None,
      if NonEmpty(d.cellBackgrounds) && !AllDefault(d.cellBackgrounds.value)
      then Some(RleEncodeFrom(EncoderCells(d.cellBackgrounds.value, total, 0), 0)) else None,
      if NonEmpty(d.cellWater) && AnyWater(d.cellWater.value) then Some(WaterBytes(d.cellWater.value, total)) else None)
  }

  /** `compactData`: objects, terrain and water are packed only when there is something to write. */
  method CompactData<Tok>(d: EditorData<Tok>) returns (p: Payload<Tok>)
    ensures p == PayloadOf(d)
  {
    var eob: Option<seq<byte>> := None;
    if d.environmentObjects.Some? && |d.environmentObjects.value| > 0 {
      var packed := PackEnvironmentObjects(d.environmentObjects.value);
      eob := Some(packed);
    }
    assert eob == PayloadOf(d).eob;
    var bgp: Option<seq<byte>> := None;
    if d.cellBackgrounds.Some? && |d.cellBackgrounds.value| > 0 {
      var allDefault := forall i :: 0 <= i < |d.cellBackgrounds.value| ==> d.cellBackgrounds.value[i] == 0;
      if !allDefault {
        var packed := PackBackgroundsToBytes(d.cellBackgrounds.value, d.gridWidth * d.gridHeight, 0);
        bgp := Some(packed);
      }
    }
    assert bgp == PayloadOf(d).bgp;
    var wp: Option<seq<byte>> := None;
    if d.cellWater.Some? && |d.cellWater.value| > 0 {
      var hasWater := exists i :: 0 <= i < |d.cellWater.value| && d.cellWater.value[i];
      if hasWater {
        var packed := PackWater(d.cellWater.value, d.gridWidth * d.gridHeight);
        wp := Some(packed);
      }
    }
    assert wp == PayloadOf(d).wp;
    p := Payload(d.gridWidth, d.gridHeight, OrElse(d.tokens, []), eob, bgp, wp);
  }

  /** A byte list as `Array.from(packed)` writes it into the JSON object, or the member left out. */
  function Listed(b: Option<seq<byte>>): Packed
  {
    if b.Some? then NumberList(b.value) else Missing
  }

  /** The payload as `JSON.parse(JSON.stringify(payload))` sees it. */
  function PayloadJson<Tok>(p: Payload<Tok>): RawData<Tok>
  {
    RawData(Some(p.gw), None, Some(p.gh), None, None, Listed(p.bgp), Listed(p.eob), None, None, None, Listed(p.wp), Some(p.ts), None)
  }

  // ---------------------------------------------------------------- expandData

  /** The terrain ids: `cellBackgrounds` as given, else `bgp` as Base64 nibbles (old) or an RLE byte list (new). */
  function BackgroundsOf<Tok>(raw: RawData<Tok>, total: nat, fromBase64: string -> seq<byte>): Option<seq<int>>
  {
    if raw.cellBackgrounds.Some? then raw.cellBackgrounds
    else match raw.bgp
      case Base64Text(t) => if t == "" then None else Some(NibbleCells(fromBase64(t), total))
      case NumberList(items) => Some(Resize(RleCells(ToBytes(items), 0, true), total, 0))
      case _ => None
  }

  /** The scenery: `eob` records, else the `eo` list, else the `environmentObjects` list, else none. */
  function SceneryOf<Tok>(raw: RawData<Tok>): seq<EnvObject>
  {
    if raw.eob.NumberList? then EnvFrom(ToBytes(raw.eob.items), 0, 1)
    else if raw.eo.Some? then raw.eo.value
    else if raw.environmentObjects.Some? then raw.environmentObjects.value
    else []
  }

  /** The water cells: `cellWater`, else `wp` bits; replaced by `total` dry cells when absent or of another length. */
  function WaterOf<Tok>(raw: RawData<Tok>, total: nat, fromBase64: string -> seq<byte>): (r: seq<bool>)
    ensures |r| == total
  {
    var given :=
      if raw.cellWater.Some? then raw.cellWater
      else match raw.wp
        case NumberList(items) => Some(WaterGrid(ToBytes(items), total))
        case Base64Text(t) => if t == "" then None else Some(WaterGrid(fromBase64(t), total))
        case _ => None;
    if given.None? || |given.value| != total then Repeat(false, total) else given.value
  }

  function GridWidthOf<Tok>(raw: RawData<Tok>): int { OrElse(raw.gw, OrElse(raw.gridWidth, 16)) }

  function GridHeightOf<Tok>(raw: RawData<Tok>): int { OrElse(raw.gh, OrElse(raw.gridHeight, 16)) }

  /** What `expandData` returns; `None` for the `RangeError` of `new Array(n)` when the cell count is negative. */
  function ExpandOf<Tok>(raw: RawData<Tok>, fromBase64: string -> seq<byte>): Option<EditorData<Tok>>
  {
    var gw := GridWidthOf(raw);
    var gh := GridHeightOf(raw);
    if gw * gh < 0 then None
    else
      Some(EditorData(gw, gh, BackgroundsOf(raw, gw * gh, fromBase64), Some(WaterOf(raw, gw * gh, fromBase64)),
        Some(OrElse(raw.ts, OrElse(raw.tokens, []))), Some(SceneryOf(raw))))
  }

  /** `expandData`, over the unpackers of the codec. */
  method ExpandData<Tok>(raw: RawData<Tok>, fromBase64: string -> seq<byte>) returns (r: Option<EditorData<Tok>>)
    ensures r == ExpandOf(raw, fromBase64)
  {
    var gridWidth := OrElse(raw.gw, OrElse(raw.gridWidth, 16));
    var gridHeight := OrElse(raw.gh, OrElse(raw.gridHeight, 16));
    if gridWidth * gridHeight < 0 {
      // `new Array(gridWidth * gridHeight)` throws a RangeError whatever was read before
      return None;
    }
    var total: nat := gridWidth * gridHeight;
    var cellBackgrounds := ExpandBackgrounds(raw, total, fromBase64);
    var environmentObjects := ExpandScenery(raw);
    var cellWater := ExpandWater(raw, total, fromBase64);
    r := Some(EditorData(gridWidth, gridHeight, cellBackgrounds, Some(cellWater),
      Some(OrElse(raw.ts, OrElse(raw.tokens, []))), Some(environmentObjects)));
  }

  /** The terrain part of `expandData`. */
  method ExpandBackgrounds<Tok>(raw: RawData<Tok>, total: nat, fromBase64: string -> seq<byte>)
    returns (cellBackgrounds: Option<seq<int>>)
    ensures cellBackgrounds == BackgroundsOf(raw, total, fromBase64)
  {
    cellBackgrounds := raw.cellBackgrounds;
    if cellBackgrounds.None? {
      match raw.bgp {
        case Base64Text(t) =>
          if t != "" {
            var cells := UnpackBackgrounds(t, total, fromBase64);
            cellBackgrounds := Some(cells);
          }
        case NumberList(items) =>
          var cells := UnpackBackgroundsFromBytes(ToBytes(items), total);
          cellBackgrounds := Some(cells);
        case _ =>
      }
    }
  }

  /** The scenery part of `expandData`. */
  method ExpandScenery<Tok>(raw: RawData<Tok>) returns (environmentObjects: seq<EnvObject>)
    ensures environmentObjects == SceneryOf(raw)
  {
    environmentObjects := [];
    if raw.eob.NumberList? {
      environmentObjects := UnpackEnvironmentObjects(ToBytes(raw.eob.items));
    } else if raw.eo.Some? {
      environmentObjects := raw.eo.value;
    } else if raw.environmentObjects.Some? {
      environmentObjects := raw.environmentObjects.value;
    }
  }

  /** The water part of `expandData`, with the final length check. */
  method ExpandWater<Tok>(raw: RawData<Tok>, total: nat, fromBase64: string -> seq<byte>) returns (water: seq<bool>)
    ensures water == WaterOf(raw, total, fromBase64)
  {
    var cellWater := raw.cellWater;
    if cellWater.None? {
      match raw.wp {
        case NumberList(items) =>
          var cells := UnpackWater(ToBytes(items), total);
          cellWater := Some(cells);
        case Base64Text(t) =>
          if t != "" {
            var cells := UnpackWater(fromBase64(t), total);
            cellWater := Some(cells);
          }
        case _ =>
      }
    }
    if cellWater.None? || |cellWater.value| != total {
      cellWater := Some(Repeat(false, total));
    }
    water := cellWater.value;
  }

  /** A link without size members is a 16 x 16 grid, and its water always has one cell per grid cell. */
  lemma ExpandDefaults<Tok>(raw: RawData<Tok>, fromBase64: string -> seq<byte>)
    ensures raw.gw.None? && raw.gridWidth.None? && raw.gh.None? && raw.gridHeight.None? ==>
      var e := ExpandOf(raw, fromBase64);
      e.Some? && e.value.gridWidth == 16 && e.value.gridHeight == 16 && |e.value.cellWater.value| == 256
    ensures ExpandOf(raw, fromBase64).Some? <==> GridWidthOf(raw) * GridHeightOf(raw) >= 0
    ensures var e := ExpandOf(raw, fromBase64);
      e.Some? ==> e.value.cellWater.Some? && |e.value.cellWater.value| == e.value.gridWidth * e.value.gridHeight
  {
  }

  // ---------------------------------------------------------------- round trip

  /** Through a link, the editor data comes back as the decoders of the packed members read them. */
  lemma CompactRoundTrip<Tok>(d: EditorData<Tok>, fromBase64: string -> seq<byte>)
    requires d.gridWidth * d.gridHeight >= 0
    ensures var total := d.gridWidth * d.gridHeight;
      var back := ExpandOf(PayloadJson(PayloadOf(d)), fromBase64);
      back.Some?
      && back.value.gridWidth == d.gridWidth && back.value.gridHeight == d.gridHeight
      && back.value.tokens == Some(OrElse(d.tokens, []))
      && back.value.environmentObjects
        == Some(if NonEmpty(d.environmentObjects) then DecodedAll(d.environmentObjects.value, 1) else [])
      && back.value.cellBackgrounds
        == (if NonEmpty(d.cellBackgrounds) && !AllDefault(d.cellBackgrounds.value)
            then Some(MaskedCells(EncoderCells(d.cellBackgrounds.value, total, 0), 0, total)) else None)
      && back.value.cellWater
        == Some(if NonEmpty(d.cellWater) && AnyWater(d.cellWater.value) then Resize(d.cellWater.value, total, false)
                else Repeat(false, total))
  {
    var total: nat := d.gridWidth * d.gridHeight;
    var p := PayloadOf(d);
    var raw := PayloadJson(p);
    assert GridWidthOf(raw) == d.gridWidth && GridHeightOf(raw) == d.gridHeight;
    CompactScenery(d);
    CompactBackgrounds(d, total, fromBase64);
    CompactWater(d, total, fromBase64);
  }

  /** The scenery member of the round trip on its own. */
  lemma CompactScenery<Tok>(d: EditorData<Tok>)
    ensures SceneryOf(PayloadJson(PayloadOf(d)))
      == if NonEmpty(d.environmentObjects) then DecodedAll(d.environmentObjects.value, 1) else []
  {
    var p := PayloadOf(d);
    if p.eob.Some? {
      ToBytesOfBytes(p.eob.value);
      EnvRoundTrip(d.environmentObjects.value, 1);
    }
  }

  /** The terrain member of the round trip on its own. */
  lemma CompactBackgrounds<Tok>(d: EditorData<Tok>, total: nat, fromBase64: string -> seq<byte>)
    requires total == d.gridWidth * d.gridHeight
    ensures BackgroundsOf(PayloadJson(PayloadOf(d)), total, fromBase64)
      == if NonEmpty(d.cellBackgrounds) && !AllDefault(d.cellBackgrounds.value)
         then Some(MaskedCells(EncoderCells(d.cellBackgrounds.value, total, 0), 0, total)) else None
  {
    var p := PayloadOf(d);
    if p.bgp.Some? {
      ToBytesOfBytes(p.bgp.value);
      RunLengthRoundTrip(d.cellBackgrounds.value, total);
    }
  }

  /** The water member of the round trip on its own. */
  lemma CompactWater<Tok>(d: EditorData<Tok>, total: nat, fromBase64: string -> seq<byte>)
    requires total == d.gridWidth * d.gridHeight
    ensures WaterOf(PayloadJson(PayloadOf(d)), total, fromBase64)
      == if NonEmpty(d.cellWater) && AnyWater(d.cellWater.value) then Resize(d.cellWater.value, total, false)
         else Repeat(false, total)
  {
    var p := PayloadOf(d);
    if p.wp.Some? {
      ToBytesOfBytes(p.wp.value);
      WaterRoundTrip(d.cellWater.value, total);
    }
  }

  /** Editor data the link format carries, up to the rounding of object positions and sizes. */
  predicate Consistent<Tok>(d: EditorData<Tok>)
  {
    var total := d.gridWidth * d.gridHeight;
    total >= 0
    && (d.cellBackgrounds.Some? ==>
          |d.cellBackgrounds.value| == total && forall i :: 0 <= i < total ==> 0 <= d.cellBackgrounds.value[i] < 32)
    && (d.cellWater.Some? ==> |d.cellWater.value| == total)
    && (d.environmentObjects.Some? ==>
          forall k :: 0 <= k < |d.environmentObjects.value| ==> Representable(Rounded(d.environmentObjects.value[k])))
  }

  /**
   * For consistent data a link is lossless up to what the editor treats alike:
   * an all-default terrain comes back absent, absent water as dry cells,
   * absent tokens and objects as empty lists, objects renumbered from 1 with
   * lower-case colours and their positions and sizes rounded as `Math.round`
   * rounds them.
   */
  lemma ConsistentRoundTrip<Tok>(d: EditorData<Tok>, fromBase64: string -> seq<byte>)
    requires Consistent(d)
    ensures var total := d.gridWidth * d.gridHeight;
      var back := ExpandOf(PayloadJson(PayloadOf(d)), fromBase64);
      back.Some?
      && back.value.gridWidth == d.gridWidth && back.value.gridHeight == d.gridHeight
      && back.value.tokens == Some(OrElse(d.tokens, []))
      && back.value.cellBackgrounds
        == (if NonEmpty(d.cellBackgrounds) && !AllDefault(d.cellBackgrounds.value) then d.cellBackgrounds else None)
      && back.value.cellWater == Some(if d.cellWater.Some? then d.cellWater.value else Repeat(false, total))
      && |back.value.environmentObjects.value| == |OrElse(d.environmentObjects, [])|
      && forall k :: 0 <= k < |back.value.environmentObjects.value| ==>
           back.value.environmentObjects.value[k] == Renumbered(Rounded(d.environmentObjects.value[k]), k + 1)
  {
    var total: nat := d.gridWidth * d.gridHeight;
    CompactRoundTrip(d, fromBase64);
    if NonEmpty(d.cellBackgrounds) && !AllDefault(d.cellBackgrounds.value) {
      FiveBitGridKept(d.cellBackgrounds.value, total);
    }
    if d.cellWater.Some? {
      FullWaterKept(d.cellWater.value, total);
    }
    if NonEmpty(d.environmentObjects) {
      RepresentableRoundTrip(d.environmentObjects.value);
      EnvRoundTrip(d.environmentObjects.value, 1);
    }
  }

  lemma FiveBitGridKept(bg: seq<int>, total: nat)
    requires |bg| == total && forall i :: 0 <= i < total ==> 0 <= bg[i] < 32
    ensures MaskedCells(EncoderCells(bg, total, 0), 0, total) == bg
  {
    var cells := EncoderCells(bg, total, 0);
    var m := MaskedCells(cells, 0, total);
    forall i | 0 <= i < total ensures m[i] == bg[i] {
      assert cells[i] == bg[i];
    }
  }

  lemma FullWaterKept(w: seq<bool>, total: nat)
    requires |w| == total
    ensures (if NonEmpty(Some(w)) && AnyWater(w) then Resize(w, total, false) else Repeat(false, total)) == w
  {
    if NonEmpty(Some(w)) && AnyWater(w) {
      assert Resize(w, total, false) == w;
    } else {
      forall i | 0 <= i < |w| ensures w[i] == false {
        if w[i] { assert AnyWater(w); }
      }
      assert w == Repeat(false, total);
    }
  }

  // ---------------------------------------------------------------- link text

  /** `encodeDataParam` before Base64: the gzip stream only when it saves more than 20 bytes. */
  function LinkBytes(json: seq<byte>, gzip: seq<byte> -> seq<byte>): (r: seq<byte>)
    ensures r == json || (r == gzip(json) && |r| + 20 < |json|)
  {
    var compressed := gzip(json);
    if |compressed| < |json| - 20 then compressed else json
  }

  /** `decodeDataParam` after Base64: gunzip, else unzip, else the bytes as they are. */
  function JsonBytesOf(bytes: seq<byte>, gunzip: seq<byte> -> Option<seq<byte>>, unzip: seq<byte> -> Option<seq<byte>>): seq<byte>
  {
    match gunzip(bytes)
    case Some(out) => out
    case None =>
      match unzip(bytes)
      case Some(out) => out
      case None => bytes
  }

  /**
   * Whichever form `encodeDataParam` chose, `decodeDataParam` recovers the
   * JSON bytes, provided gunzip inverts gzip and neither decompressor accepts
   * plain JSON text.
   */
  lemma LinkBytesRoundTrip(json: seq<byte>, gzip: seq<byte> -> seq<byte>,
                           gunzip: seq<byte> -> Option<seq<byte>>, unzip: seq<byte> -> Option<seq<byte>>)
    requires gunzip(gzip(json)) == Some(json)
    requires gunzip(json).None? && unzip(json).None?
    ensures JsonBytesOf(LinkBytes(json, gzip), gunzip, unzip) == json
    ensures |LinkBytes(json, gzip)| <= |json|
  {
  }
}
