/**
 * The grid state of the battlemap editor component: the background and water
 * arrays it resizes, paints and fills, the data it hands to its host page,
 * and the short preview object it packs for the image renderer. The two
 * packers are the same code as the map editor page's and share its model.
 */
module BattlemapEditor {
  import opened Common
  import opened GridFormat
  import MapEditorCodec
  import opened MapEditorData

  /** `s.slice(0, n)`: a negative end counts back from the end of `s`. */
  function SliceTo<T>(s: seq<T>, n: int): seq<T>
  {
    if n >= 0 then Take(s, n) else Take(s, Max(|s| + n, 0))
  }

  /** The background array after a grid size change: grown with `fill`, or cut. */
  function ResizedBackgrounds(bg: seq<int>, newSize: int, fill: int): (r: seq<int>)
    ensures 0 <= newSize ==> r == Resize(bg, newSize, fill)
  {
    if newSize > |bg| then bg + Repeat(fill, newSize - |bg|)
    else if newSize < |bg| then SliceTo(bg, newSize)
    else bg
  }

  /**
   * The water array after a grid size change, before `emitDataChanged` fits it:
   * grown by as many cells as the backgrounds grew (or made all dry when it
   * was empty), or cut when it is not empty.
   */
  function ResizedWater(water: seq<bool>, oldSize: nat, newSize: int): seq<bool>
  {
    if newSize > oldSize then
      (if |water| > 0 then water + Repeat(false, newSize - oldSize) else Repeat(false, newSize))
    else if newSize < oldSize then
      (if |water| > 0 then SliceTo(water, newSize) else water)
    else water
  }

  /** `emitDataChanged`'s fitting of the water array to `size` cells. */
  function FitWater(water: seq<bool>, size: int): (r: seq<bool>)
    ensures 0 <= size ==> r == Resize(water, size, false)
  {
    if |water| == size then water
    else if |water| < size then water + Repeat(false, size - |water|)
    else SliceTo(water, size)
  }

  /** Whether some cell differs from the default terrain id. */
  predicate Varied(bg: seq<int>, defaultId: int)
  {
    exists i :: 0 <= i < |bg| && bg[i] != defaultId
  }

  /** The object `updatePreview` packs, before its Base64 text: the tokens are left out. */
  datatype Preview = Preview(gw: int, gh: int, bgp: Option<seq<byte>>, wp: Option<seq<byte>>)

  /** The preview of a grid: terrain only when some cell is not the default, water only when some cell is wet. */
  function PreviewOf(gw: int, gh: int, bg: seq<int>, water: seq<bool>, defaultId: int): Preview
  {
    Preview(gw, gh,
      if Varied(bg, defaultId) && |bg| > 0 then Some(RleEncodeFrom(EncoderCells(bg, gw * gh, defaultId), 0)) else None,
      if AnyWater(water) && |water| > 0 then Some(WaterBytes(water, gw * gh)) else None)
  }

  /** The data `emitDataChanged` emits: backgrounds only when there are any, water only when some cell is wet. */
  function EmittedOf<Tok>(gw: int, gh: int, bg: seq<int>, water: seq<bool>, tokens: seq<Tok>, objects: seq<MapEditorCodec.EnvObject>): EditorData<Tok>
  {
    EditorData(gw, gh,
      if |bg| > 0 then Some(bg) else None,
      if |water| > 0 && AnyWater(water) then Some(water) else None,
      Some(tokens), Some(objects))
  }

  class BattlemapEditorComponent<Tok> {
    var gridWidth: int
    var gridHeight: int
    var cellBackgrounds: seq<int>
    var cellWater: seq<bool>
    var selectedBackgroundType: int
    /** Lower-case texture names to ids, and the ids of the loaded textures in order. */
    var backgroundNameMap: map<string, int>
    var availableBackgroundIds: seq<int>
    var tokens: seq<Tok>
    var environmentObjects: seq<MapEditorCodec.EnvObject>

    constructor (gridWidth: int, gridHeight: int, cellBackgrounds: seq<int>, cellWater: seq<bool>,
                 backgroundNameMap: map<string, int>, availableBackgroundIds: seq<int>,
                 tokens: seq<Tok>, environmentObjects: seq<MapEditorCodec.EnvObject>)
      ensures this.gridWidth == gridWidth && this.gridHeight == gridHeight
      ensures this.cellBackgrounds == cellBackgrounds && this.cellWater == cellWater
      ensures this.backgroundNameMap == backgroundNameMap && this.availableBackgroundIds == availableBackgroundIds
      ensures this.tokens == tokens && this.environmentObjects == environmentObjects
      ensures selectedBackgroundType == 0
    {
      this.gridWidth := gridWidth;
      this.gridHeight := gridHeight;
      this.cellBackgrounds := cellBackgrounds;
      this.cellWater := cellWater;
      this.backgroundNameMap := backgroundNameMap;
      this.availableBackgroundIds := availableBackgroundIds;
      this.tokens := tokens;
      this.environmentObjects := environmentObjects;
      selectedBackgroundType := 0;
    }

    /** The id of the texture named "default", else the first loaded texture, else 0. */
    function DefaultBackgroundId(): int
      reads this
    {
      if "default" in backgroundNameMap then backgroundNameMap["default"]
      else if |availableBackgroundIds| > 0 then availableBackgroundIds[0]
      else 0
    }

    function Emitted(): EditorData<Tok>
      reads this
    {
      EmittedOf(gridWidth, gridHeight, cellBackgrounds, cellWater, tokens, environmentObjects)
    }

    function CurrentPreview(): Preview
      reads this
    {
      PreviewOf(gridWidth, gridHeight, cellBackgrounds, cellWater, DefaultBackgroundId())
    }

    /**
     * Fits the water array to the grid (padding with dry cells or cutting) and
     * emits the data: backgrounds when there are any, water when a cell is wet.
     */
    method EmitDataChanged() returns (data: EditorData<Tok>)
      modifies this`cellWater
      ensures cellWater == FitWater(old(cellWater), gridWidth * gridHeight)
      ensures data == Emitted()
    {
      var expectedSize := gridWidth * gridHeight;
      if |cellWater| != expectedSize {
        if |cellWater| < expectedSize {
          cellWater := cellWater + Repeat(false, expectedSize - |cellWater|);
        } else {
          cellWater := SliceTo(cellWater, expectedSize);
        }
      }
      data := EmittedOf(gridWidth, gridHeight, cellBackgrounds, cellWater, tokens, environmentObjects);
    }

    /** Builds the preview object from the current grid; nothing changes. */
    method UpdatePreview() returns (p: Preview)
      ensures p == CurrentPreview()
      ensures p.bgp.Some? <==> Varied(cellBackgrounds, DefaultBackgroundId())
      ensures p.wp.Some? <==> AnyWater(cellWater)
    {
      var defaultBgId := DefaultBackgroundId();
      var bgp: Option<seq<byte>> := None;
      if Varied(cellBackgrounds, defaultBgId) && |cellBackgrounds| > 0 {
        var packed := PackBackgrounds(cellBackgrounds, gridWidth, gridHeight);
        bgp := Some(packed);
      }
      var wp: Option<seq<byte>> := None;
      if AnyWater(cellWater) && |cellWater| > 0 {
        var packedWater := PackWater(cellWater, gridWidth, gridHeight);
        wp := Some(packedWater);
      }
      p := Preview(gridWidth, gridHeight, bgp, wp);
    }

    /**
     * Paints cell (`col`, `row`) with the selected terrain: only the cell at
     * `row * gridWidth + col` changes, only when that index lies in the array
     * and the cell holds another id; only then is the data emitted.
     */
    method PaintCell(col: int, row: int) returns (emitted: Option<EditorData<Tok>>)
      modifies this`cellBackgrounds, this`cellWater
      ensures var index := row * gridWidth + col;
        if 0 <= index < |old(cellBackgrounds)| && old(cellBackgrounds)[index] != selectedBackgroundType then
          cellBackgrounds == old(cellBackgrounds)[index := selectedBackgroundType]
          && cellWater == FitWater(old(cellWater), gridWidth * gridHeight)
          && emitted == Some(Emitted())
        else
          cellBackgrounds == old(cellBackgrounds) && cellWater == old(cellWater) && emitted == None
    {
      emitted := None;
      var index := row * gridWidth + col;
      if 0 <= index < |cellBackgrounds| {
        if cellBackgrounds[index] != selectedBackgroundType {
          cellBackgrounds := cellBackgrounds[index := selectedBackgroundType];
          var data := EmitDataChanged();
          emitted := Some(data);
        }
      }
    }

    /**
     * Adds or removes water at cell (`col`, `row`): only the cell at
     * `row * gridWidth + col` changes, only when that index lies in the water
     * array and the cell differs; only then is the data emitted.
     */
    method PaintWaterCell(col: int, row: int, addWater: bool) returns (emitted: Option<EditorData<Tok>>)
      modifies this`cellWater
      ensures var index := row * gridWidth + col;
        if 0 <= index < |old(cellWater)| && old(cellWater)[index] != addWater then
          cellWater == FitWater(old(cellWater)[index := addWater], gridWidth * gridHeight)
          && emitted == Some(Emitted())
        else
          cellWater == old(cellWater) && emitted == None
    {
      emitted := None;
      var index := row * gridWidth + col;
      if 0 <= index < |cellWater| {
        if cellWater[index] != addWater {
          cellWater := cellWater[index := addWater];
          var data := EmitDataChanged();
          emitted := Some(data);
        }
      }
    }

    /**
     * Resizes both arrays to the new `gridWidth * gridHeight`: a larger grid
     * appends default terrain and dry cells, a smaller one cuts the arrays.
     * Cells keep their flat index, so a change of width moves them on the map.
     */
    method OnGridSizeChange() returns (preview: Preview, emitted: EditorData<Tok>)
      modifies this`cellBackgrounds, this`cellWater
      ensures var newSize := gridWidth * gridHeight;
        cellBackgrounds == ResizedBackgrounds(old(cellBackgrounds), newSize, DefaultBackgroundId())
        && cellWater == FitWater(ResizedWater(old(cellWater), |old(cellBackgrounds)|, newSize), newSize)
        && preview == PreviewOf(gridWidth, gridHeight, cellBackgrounds,
                                ResizedWater(old(cellWater), |old(cellBackgrounds)|, newSize), DefaultBackgroundId())
        && emitted == Emitted()
      ensures var newSize := gridWidth * gridHeight;
        0 <= newSize ==>
          cellBackgrounds == Resize(old(cellBackgrounds), newSize, DefaultBackgroundId())
          && cellWater == Resize(old(cellWater), newSize, false)
    {
      var oldSize := |cellBackgrounds|;
      var newSize := gridWidth * gridHeight;
      ResizeGrid();
      preview := UpdatePreview();
      emitted := EmitDataChanged();
      if 0 <= newSize {
        ResizedWaterFits(old(cellWater), oldSize, newSize);
      }
    }

    /** The resizing part of `onGridSizeChange`, before the preview and the change event. */
    method ResizeGrid()
      modifies this`cellBackgrounds, this`cellWater
      ensures cellBackgrounds == ResizedBackgrounds(old(cellBackgrounds), gridWidth * gridHeight, DefaultBackgroundId())
      ensures cellWater == ResizedWater(old(cellWater), |old(cellBackgrounds)|, gridWidth * gridHeight)
    {
      var oldSize := |cellBackgrounds|;
      var newSize := gridWidth * gridHeight;
      if newSize > oldSize {
        cellBackgrounds := cellBackgrounds + Repeat(DefaultBackgroundId(), newSize - oldSize);
        if |cellWater| > 0 {
          cellWater := cellWater + Repeat(false, newSize - oldSize);
        } else {
          cellWater := Repeat(false, newSize);
        }
      } else if newSize < oldSize {
        cellBackgrounds := SliceTo(cellBackgrounds, newSize);
        if |cellWater| > 0 {
          cellWater := SliceTo(cellWater, newSize);
        }
      }
    }

    /** Sets every cell to the selected terrain, keeping the length; nothing happens on an empty grid. */
    method FillAllBackgrounds() returns (emitted: Option<EditorData<Tok>>, preview: Option<Preview>)
      modifies this`cellBackgrounds, this`cellWater
      ensures |old(cellBackgrounds)| == 0 ==>
        cellBackgrounds == old(cellBackgrounds) && cellWater == old(cellWater) && emitted == None && preview == None
      ensures |old(cellBackgrounds)| > 0 ==>
        cellBackgrounds == Repeat(selectedBackgroundType, |old(cellBackgrounds)|)
        && cellWater == FitWater(old(cellWater), gridWidth * gridHeight)
        && emitted == Some(Emitted()) && preview == Some(CurrentPreview())
    {
      if |cellBackgrounds| == 0 {
        return None, None;
      }
      cellBackgrounds := Repeat(selectedBackgroundType, |cellBackgrounds|);
      var data := EmitDataChanged();
      var p := UpdatePreview();
      emitted, preview := Some(data), Some(p);
    }

    /** The 5-bit run-length stream of the grid, missing cells read as the default terrain. */
    method PackBackgrounds(bg: seq<int>, gridW: int, gridH: int) returns (output: seq<byte>)
      ensures output == RleEncodeFrom(EncoderCells(bg, gridW * gridH, DefaultBackgroundId()), 0)
    {
      output := MapEditorCodec.PackBackgroundsToBytes(bg, gridW * gridH, DefaultBackgroundId());
    }

    /** The water grid, one bit per cell, eight cells per byte. */
    method PackWater(water: seq<bool>, gridW: int, gridH: int) returns (output: seq<byte>)
      ensures output == WaterBytes(water, gridW * gridH)
    {
      output := MapEditorCodec.PackWater(water, gridW * gridH);
    }
  }

  /** After a size change and the fitting of `emitDataChanged`, the water array is the old one cut or padded dry. */
  lemma ResizedWaterFits(water: seq<bool>, oldSize: nat, newSize: nat)
    ensures FitWater(ResizedWater(water, oldSize, newSize), newSize) == Resize(water, newSize, false)
  {
    var r := FitWater(ResizedWater(water, oldSize, newSize), newSize);
    var e := Resize(water, newSize, false);
    forall i | 0 <= i < newSize ensures r[i] == e[i] {
    }
  }

  /**
   * The terrain stream of the battlemap editor is canonical (direct values and
   * run values at most 31, runs of 3 to 255 cells) and spells exactly
   * `gridW * gridH` cells: cell `i` is `bg[i]`, or the default id where `bg`
   * is too short, masked to 5 bits.
   */
  lemma PackedTerrainAccountsForGrid(bg: seq<int>, total: int, defaultId: int)
    ensures var bytes := RleEncodeFrom(EncoderCells(bg, total, defaultId), 0);
      CanonicalRle(bytes, 0)
      && |RleCells(bytes, 0, false)| == Max(total, 0)
      && forall i :: 0 <= i < Max(total, 0) ==> RleCells(bytes, 0, false)[i] == AtOr(bg, i, defaultId) % 32
  {
    var cells := EncoderCells(bg, total, defaultId);
    RleEncodeReadsBack(cells, 0, false);
  }

  /** Water byte `k` holds cell `8k + b` in bit `b`; there are ⌈n/8⌉ bytes. */
  lemma PackedWaterBits(water: seq<bool>, total: int, k: nat, b: nat)
    requires b < 8 && 8 * k + b < total
    ensures |WaterBytes(water, total)| == (total + 7) / 8
    ensures k < |WaterBytes(water, total)|
    ensures BitOf(WaterBytes(water, total)[k], b) == AtOr(water, 8 * k + b, false)
  {
    WaterBytesReadBack(water, total, 8 * k + b);
    assert (8 * k + b) / 8 == k && (8 * k + b) % 8 == b;
  }

  /**
   * What the renderer reads from a preview: the terrain stream spells the grid
   * with missing cells as the default id, the water bits the (padded) water
   * array; a missing terrain means every cell holds the default id, a missing
   * water that no cell is wet.
   */
  lemma PreviewReadsBack(gw: int, gh: int, bg: seq<int>, water: seq<bool>, defaultId: int)
    requires gw * gh >= 0
    ensures var p := PreviewOf(gw, gh, bg, water, defaultId);
      (p.bgp.Some? ==> RleCells(p.bgp.value, 0, false) == MaskedCells(EncoderCells(bg, gw * gh, defaultId), 0, gw * gh))
      && (p.bgp.None? ==> forall i :: 0 <= i < |bg| ==> bg[i] == defaultId)
      && (p.wp.Some? ==> WaterGrid(p.wp.value, gw * gh) == Resize(water, gw * gh, false))
      && (p.wp.None? ==> forall i :: 0 <= i < |water| ==> !water[i])
  {
    var total: nat := gw * gh;
    var p := PreviewOf(gw, gh, bg, water, defaultId);
    if p.bgp.Some? {
      RleEncodeReadsBack(EncoderCells(bg, total, defaultId), 0, false);
    } else {
      forall i | 0 <= i < |bg| ensures bg[i] == defaultId {
        if bg[i] != defaultId { assert Varied(bg, defaultId); }
      }
    }
    if p.wp.Some? {
      var g := WaterGrid(p.wp.value, total);
      forall k | 0 <= k < total ensures g[k] == Resize(water, total, false)[k] {
        WaterBytesReadBack(water, total, k);
      }
    } else {
      forall i | 0 <= i < |water| ensures !water[i] {
        if water[i] { assert AnyWater(water); }
      }
    }
  }

  /**
   * Data emitted after a size change of a grid whose terrain ids are 5-bit
   * values, together with scenery whose rounded positions and sizes fit the
   * format, is data the map editor page's link carries.
   */
  lemma EmittedAfterResizeIsConsistent<Tok>(gw: int, gh: int, bg: seq<int>, water: seq<bool>, tokens: seq<Tok>,
                                            objects: seq<MapEditorCodec.EnvObject>, defaultId: int)
    requires gw * gh >= 0 && 0 <= defaultId < 32
    requires forall i :: 0 <= i < |bg| ==> 0 <= bg[i] < 32
    requires forall k :: 0 <= k < |objects| ==> MapEditorCodec.Representable(MapEditorCodec.Rounded(objects[k]))
    ensures Consistent(EmittedOf(gw, gh, Resize(bg, gw * gh, defaultId), Resize(water, gw * gh, false), tokens, objects))
  {
  }
}
