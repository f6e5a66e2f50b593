/**
 * The document the battlemap image endpoint writes (`generateSVG`): the
 * `<svg>` header, the terrain, one shared `<defs>` block inserted right after
 * the header, the water layer, the tokens and the closing tag.
 *
 * The string builders of the source are `string` variables the methods
 * extend; the two `HashMap`s of clip-path builders are `Groups`, a key list
 * in first-insertion order with a map from key to the text collected so far.
 */
module SvgRender {
  import opened Common
  import opened Text
  import opened GridFormat
  import opened BattlemapRequest
  import opened BackgroundTextures
  import opened SvgText
  import opened WaterBlobs
  import opened WaterPaths
  import opened TokenMarkup

  /**
   * What the renderer takes from outside: SVG files by name, the regular
   * expressions applied to texture files, the squiggly clip outline of a
   * cell, the animated filter markup, URL encoding, Base64 and the API base
   * URL.
   */
  datatype Assets = Assets(
    svgOf: string -> Option<string>,
    stripXmlns: string -> string,
    drawingElements: (string, string, int, int) -> string,
    squiggle: (int, int, int, int, int, int) -> string,
    wiggleFilter: string,
    urlEncode: UrlEncoder,
    decode: Base64Decoder,
    baseUrl: string)

  const CellPixels: int := 32
  const GridFallback: int := 16
  const EarthBrown: string := "#8B4513"

  // ---------------------------------------------------------------- background colours

  /** The colours of the legacy terrain ids 0 to 4; anything else is earth brown. */
  function LegacyColor(bgType: int): (r: string)
    ensures bgType == 1 ==> r == "#90EE90"
    ensures bgType == 3 ==> r == "#696969"
    ensures bgType == 4 ==> r == "#F4A460"
    ensures bgType !in {1, 3, 4} ==> r == EarthBrown
  {
    if bgType == 1 then "#90EE90"
    else if bgType == 3 then "#696969"
    else if bgType == 4 then "#F4A460"
    else EarthBrown
  }

  /** `stream().filter(t -> t.getName().equals(name)).findFirst()`. */
  function FirstNamed(infos: seq<TextureInfo>, name: string): (r: Option<TextureInfo>)
    ensures r.Some? ==> r.value in infos && r.value.name == name
    ensures r.None? ==> forall i :: 0 <= i < |infos| ==> infos[i].name != name
  {
    if infos == [] then None
    else if infos[0].name == name then Some(infos[0])
    else FirstNamed(infos[1..], name)
  }

  lemma {:induction false} FirstNamedAt(infos: seq<TextureInfo>, name: string, k: nat)
    requires k < |infos| && infos[k].name == name
    requires forall i :: 0 <= i < k ==> infos[i].name != name
    ensures FirstNamed(infos, name) == Some(infos[k])
    decreases k
  {
    if k > 0 {
      FirstNamedAt(infos[1..], name, k - 1);
    }
  }

  /** `getBackgroundColor`: the registered texture's colour, else the legacy table. */
  function GetBackgroundColor(reg: Registry, bgType: int): string
    requires reg.Valid()
  {
    if reg.IsValidTextureId(bgType) then
      match FirstNamed(reg.GetAllTextures(), reg.GetTextureName(bgType))
      case Some(info) => info.color
      case None => LegacyColor(bgType)
    else LegacyColor(bgType)
  }

  /**
   * A registered id takes the colour of its own entry, the one the texture
   * file gave it; an unregistered id falls back to the legacy table.
   */
  lemma BackgroundColorRule(reg: Registry, bgType: int)
    requires reg.Valid()
    ensures reg.IsValidTextureId(bgType) ==>
      GetBackgroundColor(reg, bgType) == reg.EntryOf(bgType, reg.textureIdToName[bgType]).color
    ensures !reg.IsValidTextureId(bgType) ==> GetBackgroundColor(reg, bgType) == LegacyColor(bgType)
  {
    if reg.IsValidTextureId(bgType) {
      var infos := reg.GetAllTextures();
      var name := reg.GetTextureName(bgType);
      forall i | 0 <= i < bgType ensures infos[i].name != name {
        assert reg.textureNameToId[infos[i].name] == i;
      }
      FirstNamedAt(infos, name, bgType);
    }
  }

  // ---------------------------------------------------------------- grouping clip paths

  /** A `HashMap<K, StringBuilder>` filled with `computeIfAbsent(k, ...).append(text)`. */
  datatype Groups<K> = Groups(keys: seq<K>, paths: map<K, string>)

  ghost predicate GroupsValid<K(!new)>(g: Groups<K>)
  {
    && (forall k :: k in g.paths <==> k in g.keys)
    && (forall i, j :: 0 <= i < j < |g.keys| ==> g.keys[i] != g.keys[j])
  }

  /** The text collected under `k`, empty when `k` has no builder yet. */
  function PathsOf<K>(g: Groups<K>, k: K): string
  {
    if k in g.paths then g.paths[k] else ""
  }

  function AddPath<K(!new)>(g: Groups<K>, k: K, path: string): (r: Groups<K>)
    ensures PathsOf(r, k) == PathsOf(g, k) + path
    ensures forall j :: j != k ==> PathsOf(r, j) == PathsOf(g, j)
    ensures forall j :: j in r.paths <==> j in g.paths || j == k
  {
    if k in g.paths then Groups(g.keys, g.paths[k := g.paths[k] + path])
    else Groups(g.keys + [k], g.paths[k := path])
  }

  /** Appending keeps one key per builder and the key list in step with the map. */
  lemma AddPathValid<K(!new)>(g: Groups<K>, k: K, path: string)
    requires GroupsValid(g)
    ensures GroupsValid(AddPath(g, k, path))
  {
  }

  // ---------------------------------------------------------------- the first pass over the cells

  /** A plain cell rectangle: its top-left pixel and its fill colour. */
  datatype FlatCell = FlatCell(x: int, y: int, color: string)

  datatype Scan = Scan(flat: seq<FlatCell>, byType: Groups<int>, byName: Groups<string>)

  const EmptyScan: Scan := Scan([], Groups([], map[]), Groups([], map[]))

  /** "default" and "earth" cells are painted as plain rectangles. */
  predicate IsFlat(textureName: string) { textureName == "default" || textureName == "earth" }

  predicate Textured(reg: Registry, bgType: int)
  {
    !IsFlat(reg.GetTextureName(bgType))
  }

  function FlatRect(x: int, y: int, color: string): string
  {
    "<rect x='" + IntToString(x) + "' y='" + IntToString(y) + "' width='32' height='32' fill='" + color + "'/>"
  }

  /** The plain rectangles in the order the cells were visited. */
  function FlatMarkup(cells: seq<FlatCell>): string
  {
    if cells == [] then ""
    else
      var last := cells[|cells| - 1];
      FlatMarkup(cells[..|cells| - 1]) + FlatRect(last.x, last.y, last.color)
  }

  /** The squiggly outline of cell (`col`, `row`). */
  function CellOutline(assets: Assets, col: int, row: int): string
  {
    assets.squiggle(col * CellPixels, row * CellPixels, CellPixels, CellPixels, col, row)
  }

  ghost predicate ScanValid(scan: Scan)
  {
    GroupsValid(scan.byType) && GroupsValid(scan.byName)
  }

  /** One cell of the first pass: a flat rectangle, or its outline added to both groups. */
  function ScanStep(reg: Registry, scan: Scan, bgType: int, col: int, row: int, assets: Assets): Scan
    requires reg.Valid()
  {
    var name := reg.GetTextureName(bgType);
    if IsFlat(name) then
      scan.(flat := scan.flat + [FlatCell(col * CellPixels, row * CellPixels, GetBackgroundColor(reg, bgType))])
    else
      var outline := CellOutline(assets, col, row);
      scan.(byType := AddPath(scan.byType, bgType, outline), byName := AddPath(scan.byName, name, outline))
  }

  /** The column of cell `i` in a grid `gw` cells wide, `i % gw`, by repeated subtraction of rows. */
  function CellCol(i: nat, gw: int): nat
    requires gw > 0
    decreases i
  {
    if i < gw then i else CellCol(i - gw, gw)
  }

  /** The row of cell `i` in a grid `gw` cells wide, `i / gw`, by repeated subtraction of rows. */
  function CellRow(i: nat, gw: int): nat
    requires gw > 0
    decreases i
  {
    if i < gw then 0 else CellRow(i - gw, gw) + 1
  }

  /** Cell `row * gw + col` is column `col` of row `row`. */
  lemma {:induction false} CellAt(row: nat, col: nat, gw: int)
    requires 0 <= col < gw
    ensures CellCol(row * gw + col, gw) == col && CellRow(row * gw + col, gw) == row
  {
    if row > 0 {
      CellAt(row - 1, col, gw);
      assert row * gw + col - gw == (row - 1) * gw + col;
    }
  }

  /** The subtraction gives Java's `%` and `/` on the non-negative cell indexes. */
  lemma CellColRowAreDivMod(i: nat, gw: int)
    requires gw > 0
    ensures CellCol(i, gw) == i % gw && CellRow(i, gw) == i / gw
  {
    var row, col := i / gw, i % gw;
    assert i == row * gw + col;
    CellAt(row, col, gw);
  }

  /** The flat rectangles of the cells below `k` that are not textured, in row-major order. */
  function FlatCells(reg: Registry, bgs: seq<int>, gw: int, k: nat): seq<FlatCell>
    requires reg.Valid() && gw > 0 && k <= |bgs|
  {
    if k == 0 then []
    else
      FlatCells(reg, bgs, gw, k - 1)
      + (if Textured(reg, bgs[k - 1]) then []
         else [FlatCell(CellCol(k - 1, gw) * CellPixels, CellRow(k - 1, gw) * CellPixels, GetBackgroundColor(reg, bgs[k - 1]))])
  }

  /** The outline groups by texture id after the cells below `k`. */
  function TypeGroups(reg: Registry, bgs: seq<int>, gw: int, k: nat, assets: Assets): Groups<int>
    requires gw > 0 && k <= |bgs|
  {
    if k == 0 then EmptyScan.byType
    else
      var before := TypeGroups(reg, bgs, gw, k - 1, assets);
      if Textured(reg, bgs[k - 1]) then AddPath(before, bgs[k - 1], CellOutline(assets, CellCol(k - 1, gw), CellRow(k - 1, gw)))
      else before
  }

  /** The outline groups by texture name after the cells below `k`. */
  function NameGroups(reg: Registry, bgs: seq<int>, gw: int, k: nat, assets: Assets): Groups<string>
    requires gw > 0 && k <= |bgs|
  {
    if k == 0 then EmptyScan.byName
    else
      var before := NameGroups(reg, bgs, gw, k - 1, assets);
      if Textured(reg, bgs[k - 1])
      then AddPath(before, reg.GetTextureName(bgs[k - 1]), CellOutline(assets, CellCol(k - 1, gw), CellRow(k - 1, gw)))
      else before
  }

  /**
   * The first pass after the first `k` cells in row-major order (cell `k` is
   * column `k % gw` of row `k / gw`), its three outputs kept apart.
   */
  function ScanCells(reg: Registry, bgs: seq<int>, gw: int, k: nat, assets: Assets): Scan
    requires reg.Valid() && gw > 0 && k <= |bgs|
  {
    Scan(FlatCells(reg, bgs, gw, k), TypeGroups(reg, bgs, gw, k, assets), NameGroups(reg, bgs, gw, k, assets))
  }

  /** The first pass over one more cell is one more step. */
  lemma ScanCellsStep(reg: Registry, bgs: seq<int>, gw: int, k: nat, col: int, row: int, assets: Assets)
    requires reg.Valid() && gw > 0 && k < |bgs| && CellCol(k, gw) == col && CellRow(k, gw) == row
    ensures ScanCells(reg, bgs, gw, k + 1, assets)
      == ScanStep(reg, ScanCells(reg, bgs, gw, k, assets), bgs[k], col, row, assets)
  {
  }

  /** The ids of the textured cells below `k`. */
  function TexturedIds(reg: Registry, bgs: seq<int>, k: nat): set<int>
    requires k <= |bgs|
  {
    if k == 0 then {}
    else TexturedIds(reg, bgs, k - 1) + (if Textured(reg, bgs[k - 1]) then {bgs[k - 1]} else {})
  }

  /** The outlines of the textured cells below `k` whose id is `bgType`, in row-major order. */
  function TypeOutline(reg: Registry, bgs: seq<int>, gw: int, k: nat, assets: Assets, bgType: int): string
    requires gw > 0 && k <= |bgs|
  {
    if k == 0 then ""
    else
      TypeOutline(reg, bgs, gw, k - 1, assets, bgType)
      + (if bgs[k - 1] == bgType && Textured(reg, bgType) then CellOutline(assets, CellCol(k - 1, gw), CellRow(k - 1, gw)) else "")
  }

  /** The outlines of the textured cells below `k` whose texture is `name`, in row-major order. */
  function NameOutline(reg: Registry, bgs: seq<int>, gw: int, k: nat, assets: Assets, name: string): string
    requires gw > 0 && k <= |bgs|
  {
    if k == 0 then ""
    else
      NameOutline(reg, bgs, gw, k - 1, assets, name)
      + (if Textured(reg, bgs[k - 1]) && reg.GetTextureName(bgs[k - 1]) == name
         then CellOutline(assets, CellCol(k - 1, gw), CellRow(k - 1, gw)) else "")
  }

  /** The groups stay consistent through the first pass. */
  lemma {:induction false} ScanCellsValid(reg: Registry, bgs: seq<int>, gw: int, k: nat, assets: Assets)
    requires reg.Valid() && gw > 0 && k <= |bgs|
    ensures GroupsValid(TypeGroups(reg, bgs, gw, k, assets)) && GroupsValid(NameGroups(reg, bgs, gw, k, assets))
    decreases k
  {
    if k > 0 {
      ScanCellsValid(reg, bgs, gw, k - 1, assets);
      var t := bgs[k - 1];
      if Textured(reg, t) {
        var outline := CellOutline(assets, CellCol(k - 1, gw), CellRow(k - 1, gw));
        AddPathValid(TypeGroups(reg, bgs, gw, k - 1, assets), t, outline);
        AddPathValid(NameGroups(reg, bgs, gw, k - 1, assets), reg.GetTextureName(t), outline);
      }
    }
  }

  /** An id has a group exactly when one of its cells is textured. */
  lemma {:induction false} ScanTypeKeys(reg: Registry, bgs: seq<int>, gw: int, k: nat, assets: Assets)
    requires reg.Valid() && gw > 0 && k <= |bgs|
    ensures forall t :: t in TypeGroups(reg, bgs, gw, k, assets).paths <==> t in TexturedIds(reg, bgs, k)
    decreases k
  {
    if k > 0 {
      var j := k - 1;
      ScanTypeKeys(reg, bgs, gw, j, assets);
      TypeKeysStep(reg, bgs, gw, j, k, assets);
    }
  }

  lemma TypeKeysStep(reg: Registry, bgs: seq<int>, gw: int, j: nat, k: nat, assets: Assets)
    requires reg.Valid() && gw > 0 && k == j + 1 <= |bgs|
    requires forall t :: t in TypeGroups(reg, bgs, gw, j, assets).paths <==> t in TexturedIds(reg, bgs, j)
    ensures forall t :: t in TypeGroups(reg, bgs, gw, k, assets).paths <==> t in TexturedIds(reg, bgs, k)
  {
    var before, after := TypeGroups(reg, bgs, gw, j, assets), TypeGroups(reg, bgs, gw, k, assets);
    var t := bgs[j];
    if Textured(reg, t) {
      KeysStep(before, after, TexturedIds(reg, bgs, j), {t});
    } else {
      KeysStep(before, after, TexturedIds(reg, bgs, j), {});
    }
  }

  lemma KeysStep(before: Groups<int>, after: Groups<int>, seen: set<int>, added: set<int>)
    requires forall t :: t in before.paths <==> t in seen
    requires forall t :: t in after.paths <==> t in before.paths || t in added
    ensures forall t :: t in after.paths <==> t in seen + added
  {
  }

  /** Each id's group holds the outlines of exactly its textured cells, in row-major order. */
  lemma {:induction false} ScanTypePaths(reg: Registry, bgs: seq<int>, gw: int, k: nat, assets: Assets)
    requires reg.Valid() && gw > 0 && k <= |bgs|
    ensures forall t :: PathsOf(TypeGroups(reg, bgs, gw, k, assets), t) == TypeOutline(reg, bgs, gw, k, assets, t)
    decreases k
  {
    if k > 0 {
      ScanTypePaths(reg, bgs, gw, k - 1, assets);
    }
  }

  /** Each texture name's group holds the outlines of exactly its textured cells, in row-major order. */
  lemma {:induction false} ScanNamePaths(reg: Registry, bgs: seq<int>, gw: int, k: nat, assets: Assets)
    requires reg.Valid() && gw > 0 && k <= |bgs|
    ensures forall n :: PathsOf(NameGroups(reg, bgs, gw, k, assets), n) == NameOutline(reg, bgs, gw, k, assets, n)
    decreases k
  {
    if k > 0 {
      ScanNamePaths(reg, bgs, gw, k - 1, assets);
    }
  }

  /** Every id with a fill has its texture's clip path defined by the name groups. */
  lemma {:induction false} ScanNamesCoverTypes(reg: Registry, bgs: seq<int>, gw: int, k: nat, assets: Assets)
    requires reg.Valid() && gw > 0 && k <= |bgs|
    ensures forall t :: t in TypeGroups(reg, bgs, gw, k, assets).paths ==> reg.GetTextureName(t) in NameGroups(reg, bgs, gw, k, assets).paths
    decreases k
  {
    if k > 0 {
      ScanNamesCoverTypes(reg, bgs, gw, k - 1, assets);
      var before := TypeGroups(reg, bgs, gw, k - 1, assets);
      var after := TypeGroups(reg, bgs, gw, k, assets);
      forall t | t in after.paths ensures reg.GetTextureName(t) in NameGroups(reg, bgs, gw, k, assets).paths {
        if t != bgs[k - 1] || !Textured(reg, t) {
          assert t in before.paths;
        }
      }
    }
  }

  lemma CellInGrid(row: int, col: int, gw: int, gh: int)
    requires 0 <= row < gh && 0 <= col < gw
    ensures 0 <= row * gw && row * gw + col < gw * gh && (row + 1) * gw <= gw * gh && (row + 1) * gw == row * gw + gw
  {
    MulAtLeast(gh - row, gw);
    if row > 0 {
      MulAtLeast(row, gw);
    }
    assert (gh - row) * gw == gh * gw - row * gw;
  }

  /** The cells of row `row` lie in the grid, one after the other from `start`. */
  lemma RowInGrid(row: int, gw: int, gh: int, start: nat)
    requires 0 <= row < gh && gw > 0 && start == row * gw
    ensures start + gw <= gw * gh && start + gw == (row + 1) * gw
  {
    CellInGrid(row, 0, gw, gh);
  }

  /** Cell `start + col` of row `row` is in the grid, at column `col` of row `row`. */
  lemma RowCell(row: int, col: int, gw: int, gh: int, start: nat)
    requires 0 <= row < gh && 0 <= col < gw && start == row * gw
    ensures start + col < gw * gh && CellCol(start + col, gw) == col && CellRow(start + col, gw) == row
  {
    CellInGrid(row, col, gw, gh);
    CellAt(row, col, gw);
  }

  /** `for row < gh, col < gw`: the first pass over the cells in row-major order. */
  method ScanBackgrounds(reg: Registry, bgs: seq<int>, gw: int, gh: int, assets: Assets) returns (scan: Scan)
    requires reg.Valid() && gw > 0 && gh > 0 && |bgs| >= gw * gh
    ensures scan == ScanCells(reg, bgs, gw, gw * gh, assets)
  {
    scan := EmptyScan;
    ghost var start: nat := 0;
    for row := 0 to gh
      invariant start == row * gw && start <= gw * gh
      invariant scan == ScanCells(reg, bgs, gw, start, assets)
    {
      RowInGrid(row, gw, gh, start);
      scan := ScanRow(reg, bgs, gw, row, start, scan, assets);
      start := start + gw;
    }
    assert gh * gw == gw * gh;
  }

  /** The inner loop of the first pass: the cells of row `row`, which start at cell `start`, left to right. */
  method ScanRow(reg: Registry, bgs: seq<int>, gw: int, row: int, ghost start: nat, scan: Scan, assets: Assets)
    returns (next: Scan)
    requires reg.Valid() && gw > 0 && 0 <= row && start == row * gw && start + gw <= |bgs|
    requires scan == ScanCells(reg, bgs, gw, start, assets)
    ensures next == ScanCells(reg, bgs, gw, start + gw, assets)
  {
    next := scan;
    for col := 0 to gw
      invariant next == ScanCells(reg, bgs, gw, start + col, assets)
    {
      var index := row * gw + col;
      RowStep(reg, bgs, gw, row, col, start, assets);
      next := ScanCell(reg, next, bgs[index], col, row, assets);
    }
  }

  /** One more cell of row `row`, at column `col`, is one more step of the first pass. */
  lemma RowStep(reg: Registry, bgs: seq<int>, gw: int, row: int, col: int, start: nat, assets: Assets)
    requires reg.Valid() && 0 <= row && 0 <= col < gw && start == row * gw && start + col < |bgs|
    ensures row * gw + col == start + col
    ensures ScanCells(reg, bgs, gw, start + col + 1, assets)
      == ScanStep(reg, ScanCells(reg, bgs, gw, start + col, assets), bgs[start + col], col, row, assets)
  {
    CellAt(row, col, gw);
    ScanCellsStep(reg, bgs, gw, start + col, col, row, assets);
  }

  /** The body of the inner loop: cell (`col`, `row`) with id `bgType`. */
  method ScanCell(reg: Registry, scan: Scan, bgType: int, col: int, row: int, assets: Assets) returns (next: Scan)
    requires reg.Valid()
    ensures next == ScanStep(reg, scan, bgType, col, row, assets)
  {
    var x := col * CellPixels;
    var y := row * CellPixels;
    var textureName := reg.GetTextureName(bgType);
    if textureName == "default" || textureName == "earth" {
      var color := GetBackgroundColor(reg, bgType);
      next := scan.(flat := scan.flat + [FlatCell(x, y, color)]);
    } else {
      var squigglyPath := assets.squiggle(x, y, CellPixels, CellPixels, col, row);
      next := scan.(byType := AddPath(scan.byType, bgType, squigglyPath),
                    byName := AddPath(scan.byName, textureName, squigglyPath));
    }
  }

  // ---------------------------------------------------------------- the shared defs

  function ClipPathDef(textureName: string, paths: string): string
  {
    "<clipPath id='" + textureName + "-clip'>" + paths + "</clipPath>"
  }

  /** The `<defs>` content of a texture's file, "" when it has no id, no file or no defs. */
  function TextureDefsOf(reg: Registry, textureName: string, assets: Assets): string
  {
    match reg.GetTextureId(textureName)
    case None => ""
    case Some(id) =>
      match reg.GetTextureSvg(id, assets.svgOf)
      case None => ""
      case Some(svg) => if svg == "" then "" else ExtractDefsFromSvg(svg, assets.stripXmlns)
  }

  /** For each texture name in order: its clip path, then its texture's own defs. */
  function TextureDefs(reg: Registry, names: seq<string>, byName: Groups<string>, assets: Assets): string
  {
    if names == [] then ""
    else
      var last := names[|names| - 1];
      TextureDefs(reg, names[..|names| - 1], byName, assets) + ClipPathDef(last, PathsOf(byName, last)) + TextureDefsOf(reg, last, assets)
  }

  /**
   * The loop over the name groups. `loaded` is the source's set of textures
   * whose defs were written; since each name has one group it never
   * suppresses anything.
   */
  method EmitTextureDefs(reg: Registry, byName: Groups<string>, assets: Assets) returns (defs: string)
    requires GroupsValid(byName)
    ensures defs == TextureDefs(reg, byName.keys, byName, assets)
  {
    defs := "";
    var loaded: set<string> := {};
    for i := 0 to |byName.keys|
      invariant defs == TextureDefs(reg, byName.keys[..i], byName, assets)
      invariant forall n :: n in loaded ==> n in byName.keys[..i]
    {
      var textureName := byName.keys[i];
      ghost var done := byName.keys[..i + 1];
      assert done[..i] == byName.keys[..i] && done[i] == textureName;
      assert TextureDefs(reg, done, byName, assets)
        == TextureDefs(reg, byName.keys[..i], byName, assets) + ClipPathDef(textureName, PathsOf(byName, textureName))
           + TextureDefsOf(reg, textureName, assets);
      defs := defs + ClipPathDef(textureName, byName.paths[textureName]);
      assert textureName !in byName.keys[..i];
      var textureDefs := "";
      if textureName !in loaded {
        textureDefs := LoadTextureDefs(reg, textureName, assets);
        if textureDefs != "" {
          loaded := loaded + {textureName};
        }
      }
      assert textureDefs == TextureDefsOf(reg, textureName, assets);
      defs := defs + textureDefs;
    }
    assert byName.keys[..|byName.keys|] == byName.keys;
  }

  /** The lookup of one texture's defs: its id, its file, the file's `<defs>`. */
  method LoadTextureDefs(reg: Registry, textureName: string, assets: Assets) returns (textureDefs: string)
    ensures textureDefs == TextureDefsOf(reg, textureName, assets)
  {
    textureDefs := "";
    var textureId := reg.GetTextureId(textureName);
    if textureId.Some? {
      var textureSvg := reg.GetTextureSvg(textureId.value, assets.svgOf);
      if textureSvg.Some? && textureSvg.value != "" {
        textureDefs := ExtractDefsFromSvg(textureSvg.value, assets.stripXmlns);
      }
    }
  }

  // ---------------------------------------------------------------- the textured fills

  /** The fallback rectangle for a texture file without drawing elements. */
  function FallbackRect(width: int, height: int, color: string, filterId: string, clipPathId: string): string
  {
    "<rect x='-5' y='-5' width='" + IntToString(width) + "' height='" + IntToString(height) + "' fill='" + color + "'"
    + (if filterId != "" then " filter='" + filterId + "'" else "")
    + " clip-path='url(#" + clipPathId + ")'/>"
  }

  /** The solid rectangle for a texture without a file. */
  function SolidRect(width: int, height: int, color: string, clipPathId: string): string
  {
    "<rect x='0' y='0' width='" + IntToString(width) + "' height='" + IntToString(height)
    + "' fill='" + color + "' clip-path='url(#" + clipPathId + ")'/>"
  }

  /** What one id's group draws, clipped to its texture's outline. */
  function FillOf(reg: Registry, bgType: int, assets: Assets, width: int, height: int): string
    requires reg.Valid()
  {
    var clipPathId := reg.GetTextureName(bgType) + "-clip";
    var color := GetBackgroundColor(reg, bgType);
    match reg.GetTextureSvg(bgType, assets.svgOf)
    case Some(svg) =>
      if svg == "" then SolidRect(width, height, color, clipPathId)
      else
        var drawing := assets.drawingElements(svg, clipPathId, width, height);
        if drawing != "" then drawing else FallbackRect(width, height, color, reg.GetFilterId(bgType), clipPathId)
    case None => SolidRect(width, height, color, clipPathId)
  }

  function Fills(reg: Registry, types: seq<int>, assets: Assets, width: int, height: int): string
    requires reg.Valid()
  {
    if types == [] then ""
    else Fills(reg, types[..|types| - 1], assets, width, height) + FillOf(reg, types[|types| - 1], assets, width, height)
  }

  /** The loop over the id groups. */
  method EmitTextureFills(reg: Registry, types: seq<int>, assets: Assets, width: int, height: int)
    returns (fills: string)
    requires reg.Valid()
    ensures fills == Fills(reg, types, assets, width, height)
  {
    fills := "";
    for i := 0 to |types|
      invariant fills == Fills(reg, types[..i], assets, width, height)
    {
      assert types[..i + 1][..i] == types[..i];
      var bgType := types[i];
      var textureName := reg.GetTextureName(bgType);
      var clipPathId := textureName + "-clip";
      var filterId := reg.GetFilterId(bgType);
      var color := GetBackgroundColor(reg, bgType);
      var textureSvg := reg.GetTextureSvg(bgType, assets.svgOf);
      if textureSvg.Some? && textureSvg.value != "" {
        var drawingElements := assets.drawingElements(textureSvg.value, clipPathId, width, height);
        if drawingElements != "" {
          fills := fills + drawingElements;
        } else {
          fills := fills + FallbackRect(width, height, color, filterId, clipPathId);
        }
      } else {
        fills := fills + SolidRect(width, height, color, clipPathId);
      }
    }
    assert types[..|types|] == types;
  }

  // ---------------------------------------------------------------- tokens

  /** The tokens' markup in list order, so later tokens are drawn on top. */
  function TokensMarkup(tokens: seq<Token>, baseUrl: string, urlEncode: UrlEncoder): string
  {
    if tokens == [] then ""
    else TokensMarkup(tokens[..|tokens| - 1], baseUrl, urlEncode) + AddToken(tokens[|tokens| - 1], baseUrl, urlEncode)
  }

  method EmitTokens(tokens: seq<Token>, baseUrl: string, urlEncode: UrlEncoder) returns (markup: string)
    ensures markup == TokensMarkup(tokens, baseUrl, urlEncode)
  {
    markup := "";
    for i := 0 to |tokens|
      invariant markup == TokensMarkup(tokens[..i], baseUrl, urlEncode)
    {
      assert tokens[..i + 1][..i] == tokens[..i];
      markup := markup + AddToken(tokens[i], baseUrl, urlEncode);
    }
    assert tokens[..|tokens|] == tokens;
  }

  /** `getAllTokens` as a value: the exception it throws, or the request's tokens followed by the scenery. */
  function AllTokensOf(req: Request, minRecord: nat): Result<seq<Token>, JavaException>
  {
    match SceneryOf(req, minRecord)
    case OutOfBounds(index, length) => Err(IndexOutOfBounds(index, length))
    case Records(env) => Ok((if req.tokens.Some? then req.tokens.value else []) + env)
    case NotDecoded => Ok(if req.tokens.Some? then req.tokens.value else [])
  }

  /** With the six-byte guard the scenery decoder never reads past the end of the stream. */
  lemma {:induction false} SixByteGuardNeverOverruns(bytes: seq<byte>, i: nat)
    ensures !SceneryFrom(bytes, i, RecordGuard).OutOfBounds?
    decreases |bytes| - i
  {
    if !(i >= |bytes| || i + RecordGuard > |bytes|) {
      match RecordAt(bytes, i)
      case None =>
      case Some((t, next)) =>
        assert next > i;
        SixByteGuardNeverOverruns(bytes, next);
    }
  }

  // ---------------------------------------------------------------- water defs and the plain background

  /** `appendWaterFilterDefs`: the defs of the water texture file, if any, then the animated edge filter. */
  function WaterFilterDefs(assets: Assets): string
  {
    var fromFile :=
      match assets.svgOf("water")
      case Some(svg) => if svg == "" then "" else ExtractDefsFromSvg(svg, assets.stripXmlns)
      case None => "";
    fromFile + assets.wiggleFilter
  }

  /** Without usable cell data the map is one earth-coloured rectangle. */
  function EarthColor(reg: Registry): string
    requires reg.Valid()
  {
    match reg.GetTextureId("earth")
    case Some(earthId) => GetBackgroundColor(reg, earthId)
    case None => EarthBrown
  }

  function EarthRect(width: int, height: int, color: string): string
  {
    "<rect x='0' y='0' width='" + IntToString(width) + "' height='" + IntToString(height) + "' fill='" + color + "'/>"
  }

  // ---------------------------------------------------------------- the document

  /** A grid side as the renderer uses it: the request's value when positive, else 16. */
  function GridSide(side: Option<int>): (r: int)
    ensures r > 0
    ensures side.Some? && side.value > 0 ==> r == side.value
  {
    if side.Some? && side.value > 0 then side.value else GridFallback
  }

  /** `getCellBackgrounds`: the plain list when present, else the decoded packed grid. */
  function BackgroundsOf(req: Request, decode: Base64Decoder): Option<seq<int>>
  {
    if req.cellBackgrounds.Some? then req.cellBackgrounds else CorrectedBackgroundsOf(req, decode)
  }

  /** The cells are drawn one by one only when the list covers the whole grid. */
  predicate UseCells(cells: Option<seq<int>>, gw: int, gh: int)
  {
    cells.Some? && |cells.value| > 0 && |cells.value| >= gw * gh
  }

  /** The terrain drawn into the document and the defs it contributes. */
  datatype Terrain = Terrain(body: string, defs: string)

  function TerrainOf(reg: Registry, cells: Option<seq<int>>, gw: int, gh: int, assets: Assets, width: int, height: int): Terrain
    requires reg.Valid() && gw > 0 && gh > 0
  {
    if UseCells(cells, gw, gh) then
      var scan := ScanCells(reg, cells.value, gw, gw * gh, assets);
      Terrain(FlatMarkup(scan.flat) + Fills(reg, scan.byType.keys, assets, width, height), TextureDefs(reg, scan.byName.keys, scan.byName, assets))
    else Terrain(EarthRect(width, height, EarthColor(reg)), "")
  }

  /** The water layer for the blobs the flood fill found, drawn only when the request has water cells. */
  ghost function WaterLayerOf(water: Option<seq<bool>>, gw: int, gh: int, width: int, height: int, blobs: seq<set<int>>): WaterLayer
    requires gw > 0 && gh > 0
  {
    if water.Some? && |water.value| > 0 then LayerOf(blobs, gw, gh, WaterEdges(water.value, gw, gh), width, height)
    else WaterLayer("", "")
  }

  const SvgNamespace: string := "http://www.w3.org/2000/svg"
  const XlinkNamespace: string := "http://www.w3.org/1999/xlink"

  /** The opening `<svg>` tag with both namespaces and the pixel size. */
  function Header(width: int, height: int): string
  {
    "<svg xmlns='" + SvgNamespace + "' xmlns:xlink='" + XlinkNamespace + "' "
    + "width='" + IntToString(width) + "' height='" + IntToString(height) + "'>"
  }

  /**
   * The document before the tokens: the header, the shared defs (terrain,
   * water filter, water mask) inserted right after it when there are any,
   * the terrain and the water.
   */
  function Compose(header: string, terrain: Terrain, filterDefs: string, water: WaterLayer): string
  {
    var defs := terrain.defs + filterDefs + water.defs;
    var doc := header + terrain.body;
    (if defs != "" then InsertAfterFirstTagEnd(doc, "<defs>" + defs + "</defs>") else doc) + water.render
  }

  /** The map the request describes, for the blobs the flood fill finds. */
  ghost function MapOf(reg: Registry, req: Request, assets: Assets, blobs: seq<set<int>>): string
    requires reg.Valid()
  {
    var width := PixelWidth(req);
    var height := PixelHeight(req);
    var gw := GridSide(req.gridWidth);
    var gh := GridSide(req.gridHeight);
    Compose(Header(width, height),
      TerrainOf(reg, BackgroundsOf(req, assets.decode), gw, gh, assets, width, height),
      WaterFilterDefs(assets),
      WaterLayerOf(WaterOf(req, assets.decode), gw, gh, width, height, blobs))
  }

  function Page(drawn: string, tokens: string): string
  {
    Doctype + drawn + tokens + SvgClose
  }

  /**
   * `generateSVG`, given the blobs its flood fill finds: the map with the
   * tokens on top, or the exception `getAllTokens` throws.
   */
  ghost function Document(reg: Registry, req: Request, assets: Assets, minRecord: nat, blobs: seq<set<int>>)
    : Result<string, JavaException>
    requires reg.Valid()
  {
    match AllTokensOf(req, minRecord)
    case Err(e) => Err(e)
    case Ok(tokens) => Ok(Page(MapOf(reg, req, assets, blobs), TokensMarkup(tokens, assets.baseUrl, assets.urlEncode)))
  }

  /** The terrain part of `generateSVG`: three passes over the cells, or the earth rectangle. */
  method DrawTerrain(reg: Registry, cells: Option<seq<int>>, gw: int, gh: int, assets: Assets, width: int, height: int)
    returns (body: string, defs: string)
    requires reg.Valid() && gw > 0 && gh > 0
    ensures Terrain(body, defs) == TerrainOf(reg, cells, gw, gh, assets, width, height)
  {
    defs := "";
    if cells.Some? && |cells.value| > 0 && |cells.value| >= gw * gh {
      var scan := ScanBackgrounds(reg, cells.value, gw, gh, assets);
      CellInGrid(0, 0, gw, gh);
      ScanCellsValid(reg, cells.value, gw, gw * gh, assets);
      body := FlatMarkup(scan.flat);
      var textureDefs := EmitTextureDefs(reg, scan.byName, assets);
      defs := defs + textureDefs;
      var fills := EmitTextureFills(reg, scan.byType.keys, assets, width, height);
      body := body + fills;
    } else {
      var earthId := reg.GetTextureId("earth");
      var earthColor := if earthId.Some? then GetBackgroundColor(reg, earthId.value) else EarthBrown;
      body := EarthRect(width, height, earthColor);
    }
  }

  /** The water part of `generateSVG`: a layer only when the request decodes to a non-empty water grid. */
  method DrawWater(req: Request, decode: Base64Decoder, gw: int, gh: int, width: int, height: int)
    returns (water: WaterLayer, ghost blobs: seq<set<int>>)
    requires gw > 0 && gh > 0
    ensures water == WaterLayerOf(WaterOf(req, decode), gw, gh, width, height, blobs)
    ensures WaterOf(req, decode).Some? ==>
      && (forall c :: IsWater(WaterOf(req, decode).value, gw, gh, c) <==> InSome(blobs, c))
      && (forall m, n :: 0 <= m < n < |blobs| ==> blobs[m] !! blobs[n])
  {
    var cellWater := DecodeWater(req, decode);
    water := WaterLayer("", "");
    blobs := [];
    if cellWater.Some? && |cellWater.value| > 0 {
      water, blobs := RenderWaterLayer(cellWater.value, width, height, gw, gh);
    }
  }

  /** Everything `generateSVG` writes before the tokens. */
  method DrawMap(reg: Registry, req: Request, assets: Assets) returns (drawn: string, ghost blobs: seq<set<int>>)
    requires reg.Valid()
    ensures drawn == MapOf(reg, req, assets, blobs)
    ensures WaterOf(req, assets.decode).Some? ==>
      var water := WaterOf(req, assets.decode).value;
      && (forall c :: IsWater(water, GridSide(req.gridWidth), GridSide(req.gridHeight), c) <==> InSome(blobs, c))
      && (forall m, n :: 0 <= m < n < |blobs| ==> blobs[m] !! blobs[n])
  {
    var width := PixelWidth(req);
    var height := PixelHeight(req);
    var header := Header(width, height);
    var gridW := if req.gridWidth.Some? && req.gridWidth.value > 0 then req.gridWidth.value else GridFallback;
    var gridH := if req.gridHeight.Some? && req.gridHeight.value > 0 then req.gridHeight.value else GridFallback;
    var cellBackgrounds := GetCellBackgrounds(req, assets.decode);
    var terrainBody, terrainDefs := DrawTerrain(reg, cellBackgrounds, gridW, gridH, assets, width, height);
    var water;
    water, blobs := DrawWater(req, assets.decode, gridW, gridH, width, height);
    drawn := AssembleMap(header, terrainBody, terrainDefs, WaterFilterDefs(assets), water);
  }

  /** The builder steps that put header, defs, terrain and water together. */
  method AssembleMap(header: string, terrainBody: string, terrainDefs: string, filterDefs: string, water: WaterLayer)
    returns (builder: string)
    ensures builder == Compose(header, Terrain(terrainBody, terrainDefs), filterDefs, water)
  {
    builder := header + terrainBody;
    var defs := terrainDefs + filterDefs;
    if water.defs != "" {
      defs := defs + water.defs;
    }
    if |defs| > 0 {
      builder := InsertAfterFirstTagEnd(builder, "<defs>" + defs + "</defs>");
    }
    if water.render != "" {
      builder := builder + water.render;
    }
  }

  method GenerateSvg(reg: Registry, req: Request, assets: Assets, minRecord: nat)
    returns (r: Result<string, JavaException>, ghost blobs: seq<set<int>>)
    requires reg.Valid() && minRecord >= RecordGuardAsWritten
    ensures r == Document(reg, req, assets, minRecord, blobs)
    ensures WaterOf(req, assets.decode).Some? ==>
      var water := WaterOf(req, assets.decode).value;
      && (forall c :: IsWater(water, GridSide(req.gridWidth), GridSide(req.gridHeight), c) <==> InSome(blobs, c))
      && (forall m, n :: 0 <= m < n < |blobs| ==> blobs[m] !! blobs[n])
  {
    var builder;
    builder, blobs := DrawMap(reg, req, assets);
    var tokens := GetAllTokens(req, minRecord);
    AllTokensAgree(req, minRecord, tokens);
    if tokens.Err? {
      return Err(tokens.error), blobs;
    }
    var markup := EmitTokens(tokens.value, assets.baseUrl, assets.urlEncode);
    r := Ok(Page(builder, markup));
  }

  lemma AllTokensAgree(req: Request, minRecord: nat, r: Result<seq<Token>, JavaException>)
    requires !SceneryOf(req, minRecord).OutOfBounds? ==>
      r == Ok((if req.tokens.Some? then req.tokens.value else [])
              + (if SceneryOf(req, minRecord).Records? then SceneryOf(req, minRecord).tokens else []))
    requires SceneryOf(req, minRecord).OutOfBounds? ==>
      r == Err(IndexOutOfBounds(SceneryOf(req, minRecord).index, SceneryOf(req, minRecord).length))
    ensures r == AllTokensOf(req, minRecord)
  {
    if SceneryOf(req, minRecord).NotDecoded? {
      var own := if req.tokens.Some? then req.tokens.value else [];
      assert own + [] == own;
    }
  }

  // ---------------------------------------------------------------- properties of the document

  /** `'>'` occurs in a concatenation only where it occurs in a part. */
  lemma NoAngleInConcat(a: string, b: string)
    requires '>' !in a && '>' !in b
    ensures '>' !in a + b
  {
  }

  /** The header's only `>` is its last character, so the shared defs land right after it. */
  lemma HeaderEndsAtFirstAngle(width: int, height: int)
    ensures var header := Header(width, height);
      |header| > 1 && header[|header| - 1] == '>' && '>' !in header[..|header| - 1]
  {
    var w := IntToString(width);
    var h := IntToString(height);
    NoAngleInNumber(width);
    NoAngleInNumber(height);
    var open := "<svg xmlns='" + SvgNamespace + "' xmlns:xlink='" + XlinkNamespace + "' " + "width='";
    assert '>' !in SvgNamespace && '>' !in XlinkNamespace;
    NoAngleInConcat("<svg xmlns='", SvgNamespace);
    NoAngleInConcat("<svg xmlns='" + SvgNamespace, "' xmlns:xlink='");
    NoAngleInConcat("<svg xmlns='" + SvgNamespace + "' xmlns:xlink='", XlinkNamespace);
    NoAngleInConcat("<svg xmlns='" + SvgNamespace + "' xmlns:xlink='" + XlinkNamespace, "' ");
    NoAngleInConcat("<svg xmlns='" + SvgNamespace + "' xmlns:xlink='" + XlinkNamespace + "' ", "width='");
    NoAngleInConcat(open, w);
    NoAngleInConcat(open + w, "' height='");
    NoAngleInConcat(open + w + "' height='", h);
    NoAngleInConcat(open + w + "' height='" + h, "'");
    var header := Header(width, height);
    var body := open + w + "' height='" + h + "'";
    assert header == body + ">";
    assert header[..|header| - 1] == body;
  }

  /**
   * With at least one definition, the document is the header, one `<defs>`
   * block holding the terrain defs, the water filter and the water mask in
   * that order, the terrain, and the water above it.
   */
  lemma ComposeLayout(width: int, height: int, terrain: Terrain, filterDefs: string, water: WaterLayer)
    requires terrain.defs + filterDefs + water.defs != ""
    ensures Compose(Header(width, height), terrain, filterDefs, water)
      == Header(width, height) + "<defs>" + (terrain.defs + filterDefs + water.defs) + "</defs>" + terrain.body + water.render
  {
    HeaderEndsAtFirstAngle(width, height);
    ComposeAfterTag(Header(width, height), terrain, filterDefs, water);
  }

  /** `Compose` on any header whose only `>` ends it. */
  lemma ComposeAfterTag(header: string, terrain: Terrain, filterDefs: string, water: WaterLayer)
    requires terrain.defs + filterDefs + water.defs != ""
    requires |header| > 1 && header[|header| - 1] == '>' && '>' !in header[..|header| - 1]
    ensures Compose(header, terrain, filterDefs, water)
      == header + "<defs>" + (terrain.defs + filterDefs + water.defs) + "</defs>" + terrain.body + water.render
  {
    var block := "<defs>" + (terrain.defs + filterDefs + water.defs) + "</defs>";
    InsertAfterHeader(header, terrain.body, block);
  }

  /** The edge filter is always written, so every map carries exactly one defs block right after its header. */
  lemma MapLayout(reg: Registry, req: Request, assets: Assets, blobs: seq<set<int>>)
    requires reg.Valid() && assets.wiggleFilter != ""
    ensures var width, height := PixelWidth(req), PixelHeight(req);
      var gw, gh := GridSide(req.gridWidth), GridSide(req.gridHeight);
      var terrain := TerrainOf(reg, BackgroundsOf(req, assets.decode), gw, gh, assets, width, height);
      var water := WaterLayerOf(WaterOf(req, assets.decode), gw, gh, width, height, blobs);
      MapOf(reg, req, assets, blobs)
        == Header(width, height) + "<defs>" + (terrain.defs + WaterFilterDefs(assets) + water.defs) + "</defs>"
           + terrain.body + water.render
  {
    var width, height := PixelWidth(req), PixelHeight(req);
    var gw, gh := GridSide(req.gridWidth), GridSide(req.gridHeight);
    var terrain := TerrainOf(reg, BackgroundsOf(req, assets.decode), gw, gh, assets, width, height);
    var water := WaterLayerOf(WaterOf(req, assets.decode), gw, gh, width, height, blobs);
    assert |terrain.defs + WaterFilterDefs(assets) + water.defs| >= |assets.wiggleFilter|;
    ComposeLayout(width, height, terrain, WaterFilterDefs(assets), water);
  }

  /**
   * The document fails exactly when the scenery decoder reads past the end of
   * its stream, with the exception that read raises; with the six-byte guard
   * this never happens.
   */
  lemma DocumentFailsOnlyOnOverrun(reg: Registry, req: Request, assets: Assets, minRecord: nat, blobs: seq<set<int>>)
    requires reg.Valid()
    ensures Document(reg, req, assets, minRecord, blobs).Err? <==> SceneryOf(req, minRecord).OutOfBounds?
    ensures SceneryOf(req, minRecord).OutOfBounds? ==>
      Document(reg, req, assets, minRecord, blobs)
        == Err(IndexOutOfBounds(SceneryOf(req, minRecord).index, SceneryOf(req, minRecord).length))
    ensures minRecord == RecordGuard ==> Document(reg, req, assets, minRecord, blobs).Ok?
  {
    if minRecord == RecordGuard {
      var bytes := ListBytes(req.environmentObjectsBinary);
      if bytes.Some? {
        SixByteGuardNeverOverruns(bytes.value, 0);
      }
    }
  }

  /** Without a full cell list the terrain is a single rectangle in the registered earth colour, and it adds no defs. */
  lemma PlainTerrain(reg: Registry, cells: Option<seq<int>>, gw: int, gh: int, assets: Assets, width: int, height: int)
    requires reg.Valid() && gw > 0 && gh > 0 && !UseCells(cells, gw, gh)
    ensures TerrainOf(reg, cells, gw, gh, assets, width, height).defs == ""
    ensures TerrainOf(reg, cells, gw, gh, assets, width, height).body == EarthRect(width, height, EarthColor(reg))
    ensures reg.GetTextureId("earth").Some? ==>
      EarthColor(reg) == reg.EntryOf(reg.GetTextureId("earth").value, "earth").color
    ensures reg.GetTextureId("earth").None? ==> EarthColor(reg) == EarthBrown
  {
    var earthId := reg.GetTextureId("earth");
    if earthId.Some? {
      reg.LookupRoundTrip(earthId.value, "earth");
      BackgroundColorRule(reg, earthId.value);
    }
  }

  /**
   * With a full cell list, after the first pass: the fills (`Fills` over the
   * id groups) are drawn once per textured id, for exactly the ids of the
   * textured cells; the defs (`TextureDefs` over the name groups) hold one
   * clip path per texture name with the outlines of exactly its cells; and
   * every fill's clip path is among them.
   */
  lemma TexturedTerrain(reg: Registry, bgs: seq<int>, gw: int, gh: int, assets: Assets)
    requires reg.Valid() && gw > 0 && gh > 0 && |bgs| > 0 && |bgs| >= gw * gh
    ensures var byType, byName := TypeGroups(reg, bgs, gw, gw * gh, assets), NameGroups(reg, bgs, gw, gw * gh, assets);
      && (forall i, j :: 0 <= i < j < |byType.keys| ==> byType.keys[i] != byType.keys[j])
      && (forall t :: t in byType.keys <==> t in TexturedIds(reg, bgs, gw * gh))
      && (forall i, j :: 0 <= i < j < |byName.keys| ==> byName.keys[i] != byName.keys[j])
      && (forall n :: n in byName.keys ==> PathsOf(byName, n) == NameOutline(reg, bgs, gw, gw * gh, assets, n))
      && (forall t :: t in byType.keys ==> reg.GetTextureName(t) in byName.keys)
  {
    CellInGrid(0, 0, gw, gh);
    var total := gw * gh;
    ScanCellsValid(reg, bgs, gw, total, assets);
    ScanTypeKeys(reg, bgs, gw, total, assets);
    ScanNamePaths(reg, bgs, gw, total, assets);
    ScanNamesCoverTypes(reg, bgs, gw, total, assets);
  }

  /**
   * The guard as written at the level of the whole image: a request whose
   * scenery stream is one bare five-byte header makes the renderer fail with
   * the out-of-bounds read, which the endpoint turns into an error image; the
   * corrected guard draws the map.
   */
  lemma FiveByteSceneryFailsImage(reg: Registry, assets: Assets, blobs: seq<set<int>>)
    requires reg.Valid()
    ensures var req := EmptyRequest.(environmentObjectsBinary := NumberList([0, 1, 0, 2, 0]));
      && Document(reg, req, assets, RecordGuardAsWritten, blobs) == Err(IndexOutOfBounds(5, 5))
      && Document(reg, req, assets, RecordGuard, blobs).Ok?
  {
    var req := EmptyRequest.(environmentObjectsBinary := NumberList([0, 1, 0, 2, 0]));
    var bytes: seq<byte> := [0, 1, 0, 2, 0];
    var read := ToBytes([0, 1, 0, 2, 0]);
    assert read[0] == 0 && read[1] == 1 && read[2] == 0 && read[3] == 2 && read[4] == 0;
    assert read == bytes;
    assert ListBytes(req.environmentObjectsBinary) == Some(bytes);
    assert SceneryFrom(bytes, 0, RecordGuardAsWritten) == OutOfBounds(5, 5);
    DocumentFailsOnlyOnOverrun(reg, req, assets, RecordGuardAsWritten, blobs);
    DocumentFailsOnlyOnOverrun(reg, req, assets, RecordGuard, blobs);
  }
}
