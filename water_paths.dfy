/**
 * The water layer of the battlemap renderer: which corners of a water tile
 * are rounded, the rounded-rectangle path of a tile, the path of a blob, and
 * the mask and rectangle that draw all water, stretched past the map edges
 * where water touches them.
 */
module WaterPaths {
  import opened Text
  import opened WaterBlobs

  const CellSize: int := 32
  const CornerRadius: int := 8
  const EdgeOverlap: int := 5

  // ---------------------------------------------------------------- path commands

  datatype Point = Point(x: int, y: int)

  /** One command of an SVG path: `M x,y`, `L x,y`, a quarter arc `A r,r 0 0 1 x,y`, or `Z`. */
  datatype PathCommand = MoveTo(to: Point) | LineTo(to: Point) | ArcTo(radius: int, to: Point) | Close

  function PointText(p: Point): string
  {
    IntToString(p.x) + "," + IntToString(p.y)
  }

  function CommandText(c: PathCommand): string
  {
    match c
    case MoveTo(p) => "M " + PointText(p)
    case LineTo(p) => "L " + PointText(p)
    case ArcTo(r, p) => "A " + IntToString(r) + "," + IntToString(r) + " 0 0 1 " + PointText(p)
    case Close => "Z"
  }

  /** The commands written out, separated by single spaces. */
  function PathText(cs: seq<PathCommand>): string
  {
    if cs == [] then "" else if |cs| == 1 then CommandText(cs[0]) else CommandText(cs[0]) + " " + PathText(cs[1..])
  }

  lemma {:induction false} PathTextAppend(a: seq<PathCommand>, b: seq<PathCommand>)
    requires a != [] && b != []
    ensures PathText(a + b) == PathText(a) + " " + PathText(b)
    decreases |a|
  {
    if |a| == 1 {
      assert (a + b)[1..] == b;
    } else {
      assert (a + b)[1..] == a[1..] + b;
      PathTextAppend(a[1..], b);
    }
  }

  // ---------------------------------------------------------------- rounded rectangles

  /** A rectangle corner, with the unit steps along the edge it is entered by (backwards) and left by. */
  datatype Corner = Corner(at: Point, back: Point, ahead: Point)

  /** The corners in the order the outline visits them: top-left, top-right, bottom-right, bottom-left (clockwise on screen). */
  function Corners(x: int, y: int, w: int, h: int): seq<Corner>
  {
    [Corner(Point(x, y), Point(0, 1), Point(1, 0)),
     Corner(Point(x + w, y), Point(-1, 0), Point(0, 1)),
     Corner(Point(x + w, y + h), Point(0, -1), Point(-1, 0)),
     Corner(Point(x, y + h), Point(1, 0), Point(0, -1))]
  }

  function Step(p: Point, d: Point, r: int): Point
  {
    Point(p.x + r * d.x, p.y + r * d.y)
  }

  /**
   * The piece of the outline at one corner: the corner point itself, or, for
   * a positive radius, the point `r` before it and a quarter arc to the point
   * `r` after it. The first corner opens the path with a move.
   */
  function CornerCommands(c: Corner, r: int, first: bool): (cs: seq<PathCommand>)
    ensures cs != []
  {
    var p := if r > 0 then Step(c.at, c.back, r) else c.at;
    var start := if first then MoveTo(p) else LineTo(p);
    if r > 0 then [start, ArcTo(r, Step(c.at, c.ahead, r))] else [start]
  }

  /** The closed outline of the rectangle with corner radii `rs` (top-left, top-right, bottom-right, bottom-left). */
  function Outline(x: int, y: int, w: int, h: int, rs: seq<int>): seq<PathCommand>
    requires |rs| == 4
  {
    var cs := Corners(x, y, w, h);
    CornerCommands(cs[0], rs[0], true) + CornerCommands(cs[1], rs[1], false)
    + CornerCommands(cs[2], rs[2], false) + CornerCommands(cs[3], rs[3], false) + [Close]
  }

  function Pt(x: int, y: int): string { PointText(Point(x, y)) }

  function ArcText(r: int, x: int, y: int): string
  {
    "A " + IntToString(r) + "," + IntToString(r) + " 0 0 1 " + Pt(x, y) + " "
  }

  /** `createRoundedRectPath` for a tile at `(x, y)` of size `w` x `h` and four corner radii. */
  function RoundedRectPath(x: int, y: int, w: int, h: int, tl: int, tr: int, br: int, bl: int): string
  {
    if tl == 0 && tr == 0 && br == 0 && bl == 0 then
      "M " + Pt(x, y) + " L " + Pt(x + w, y) + " L " + Pt(x + w, y + h) + " L " + Pt(x, y + h) + " Z"
    else
      RoundedRectGeneral(x, y, w, h, tl, tr, br, bl)
  }

  /** The corner-by-corner construction `createRoundedRectPath` uses when some radius is non-zero. */
  function RoundedRectGeneral(x: int, y: int, w: int, h: int, tl: int, tr: int, br: int, bl: int): string
  {
    TopLeftPiece(x, y, tl) + TopRightPiece(x, y, w, tr) + BottomRightPiece(x, y, w, h, br) + BottomLeftPiece(x, y, h, bl) + "Z"
  }

  function TopLeftPiece(x: int, y: int, tl: int): string
  {
    if tl > 0 then "M " + Pt(x, y + tl) + " " + ArcText(tl, x + tl, y) else "M " + Pt(x, y) + " "
  }

  function TopRightPiece(x: int, y: int, w: int, tr: int): string
  {
    if tr > 0 then "L " + Pt(x + w - tr, y) + " " + ArcText(tr, x + w, y + tr) else "L " + Pt(x + w, y) + " "
  }

  function BottomRightPiece(x: int, y: int, w: int, h: int, br: int): string
  {
    if br > 0 then "L " + Pt(x + w, y + h - br) + " " + ArcText(br, x + w - br, y + h) else "L " + Pt(x + w, y + h) + " "
  }

  function BottomLeftPiece(x: int, y: int, h: int, bl: int): string
  {
    if bl > 0 then "L " + Pt(x + bl, y + h) + " " + ArcText(bl, x, y + h - bl) else "L " + Pt(x, y + h) + " "
  }

  /** The shortcut for four square corners writes what the corner-by-corner construction would. */
  lemma SquareShortcutAgrees(x: int, y: int, w: int, h: int)
    ensures RoundedRectPath(x, y, w, h, 0, 0, 0, 0) == RoundedRectGeneral(x, y, w, h, 0, 0, 0, 0)
  {
    SquareRegroup(Pt(x, y), Pt(x + w, y), Pt(x + w, y + h), Pt(x, y + h));
  }

  lemma SquareRegroup(a: string, b: string, c: string, d: string)
    ensures "M " + a + " L " + b + " L " + c + " L " + d + " Z" == ("M " + a + " ") + ("L " + b + " ") + ("L " + c + " ") + ("L " + d + " ") + "Z"
  {
    assert " L " == " " + "L ";
    assert " Z" == " " + "Z";
  }

  /** The text of one corner's commands, followed by the separator, in the shape the source writes it. */
  lemma CornerPieceText(c: Corner, r: int, first: bool)
    ensures PathText(CornerCommands(c, r, first)) + " " ==
      if r > 0 then (if first then "M " else "L ") + PointText(Step(c.at, c.back, r)) + " " + ArcText(r, Step(c.at, c.ahead, r).x, Step(c.at, c.ahead, r).y)
      else (if first then "M " else "L ") + PointText(c.at) + " "
  {
    var cs := CornerCommands(c, r, first);
    if r > 0 {
      assert cs[1..] == [ArcTo(r, Step(c.at, c.ahead, r))];
      assert PathText(cs) == CommandText(cs[0]) + " " + CommandText(cs[1]);
    }
  }

  lemma TopLeftText(x: int, y: int, w: int, h: int, tl: int)
    ensures TopLeftPiece(x, y, tl) == PathText(CornerCommands(Corners(x, y, w, h)[0], tl, true)) + " "
  {
    var c := Corners(x, y, w, h)[0];
    CornerPieceText(c, tl, true);
    assert Step(c.at, c.back, tl) == Point(x, y + tl) && Step(c.at, c.ahead, tl) == Point(x + tl, y);
  }

  lemma TopRightText(x: int, y: int, w: int, h: int, tr: int)
    ensures TopRightPiece(x, y, w, tr) == PathText(CornerCommands(Corners(x, y, w, h)[1], tr, false)) + " "
  {
    var c := Corners(x, y, w, h)[1];
    CornerPieceText(c, tr, false);
    assert Step(c.at, c.back, tr) == Point(x + w - tr, y) && Step(c.at, c.ahead, tr) == Point(x + w, y + tr);
  }

  lemma BottomRightText(x: int, y: int, w: int, h: int, br: int)
    ensures BottomRightPiece(x, y, w, h, br) == PathText(CornerCommands(Corners(x, y, w, h)[2], br, false)) + " "
  {
    var c := Corners(x, y, w, h)[2];
    CornerPieceText(c, br, false);
    assert Step(c.at, c.back, br) == Point(x + w, y + h - br) && Step(c.at, c.ahead, br) == Point(x + w - br, y + h);
  }

  lemma BottomLeftText(x: int, y: int, w: int, h: int, bl: int)
    ensures BottomLeftPiece(x, y, h, bl) == PathText(CornerCommands(Corners(x, y, w, h)[3], bl, false)) + " "
  {
    var c := Corners(x, y, w, h)[3];
    CornerPieceText(c, bl, false);
    assert Step(c.at, c.back, bl) == Point(x + bl, y + h) && Step(c.at, c.ahead, bl) == Point(x, y + h - bl);
  }

  /** Four pieces, each a command text followed by a space, then the closing command. */
  lemma JoinPieces(c0: seq<PathCommand>, c1: seq<PathCommand>, c2: seq<PathCommand>, c3: seq<PathCommand>)
    requires c0 != [] && c1 != [] && c2 != [] && c3 != []
    ensures (PathText(c0) + " ") + (PathText(c1) + " ") + (PathText(c2) + " ") + (PathText(c3) + " ") + "Z"
      == PathText(c0 + c1 + c2 + c3 + [Close])
  {
    PathTextAppend(c0, c1);
    PathTextAppend(c0 + c1, c2);
    PathTextAppend(c0 + c1 + c2, c3);
    PathTextAppend(c0 + c1 + c2 + c3, [Close]);
    assert PathText([Close]) == "Z";
    PieceRegroup(PathText(c0), PathText(c1), PathText(c2), PathText(c3));
  }

  lemma PieceRegroup(a: string, b: string, c: string, d: string)
    ensures (a + " ") + (b + " ") + (c + " ") + (d + " ") + "Z" == a + " " + b + " " + c + " " + d + " " + "Z"
  {
  }

  /** `createRoundedRectPath` traces the clockwise outline from the top-left corner, rounding exactly the corners with a positive radius. */
  lemma RoundedRectPathTracesOutline(x: int, y: int, w: int, h: int, tl: int, tr: int, br: int, bl: int)
    ensures RoundedRectPath(x, y, w, h, tl, tr, br, bl) == PathText(Outline(x, y, w, h, [tl, tr, br, bl]))
  {
    var cs := Corners(x, y, w, h);
    TopLeftText(x, y, w, h, tl);
    TopRightText(x, y, w, h, tr);
    BottomRightText(x, y, w, h, br);
    BottomLeftText(x, y, w, h, bl);
    JoinPieces(CornerCommands(cs[0], tl, true), CornerCommands(cs[1], tr, false), CornerCommands(cs[2], br, false), CornerCommands(cs[3], bl, false));
    if tl == 0 && tr == 0 && br == 0 && bl == 0 {
      SquareShortcutAgrees(x, y, w, h);
    }
  }

  /** The number of arcs in a command list. */
  function ArcCount(cs: seq<PathCommand>): nat
  {
    if cs == [] then 0 else (if cs[0].ArcTo? then 1 else 0) + ArcCount(cs[1..])
  }

  lemma {:induction false} ArcCountAppend(a: seq<PathCommand>, b: seq<PathCommand>)
    ensures ArcCount(a + b) == ArcCount(a) + ArcCount(b)
    decreases |a|
  {
    if a != [] {
      assert (a + b)[0] == a[0];
      assert (a + b)[1..] == a[1..] + b;
      ArcCountAppend(a[1..], b);
    } else {
      assert a + b == b;
    }
  }

  function Positive(r: int): nat { if r > 0 then 1 else 0 }

  lemma CornerShape(k: int, r: int, first: bool, x: int, y: int, w: int, h: int)
    requires 0 <= k < 4 && 0 <= w && 0 <= h && r <= w && r <= h
    ensures ArcCount(CornerCommands(Corners(x, y, w, h)[k], r, first)) == Positive(r)
    ensures forall d :: d in CornerCommands(Corners(x, y, w, h)[k], r, first) ==> !d.Close? && OnBorder(d.to, x, y, w, h)
  {
    var c := Corners(x, y, w, h)[k];
    var cs := CornerCommands(c, r, first);
    assert OnBorder(c.at, x, y, w, h);
    if r > 0 {
      assert cs[1..][1..] == [];
      assert ArcCount(cs[1..]) == 1;
      assert OnBorder(Step(c.at, c.back, r), x, y, w, h);
      assert OnBorder(Step(c.at, c.ahead, r), x, y, w, h);
      assert cs == [cs[0], cs[1]] && cs[0].to == Step(c.at, c.back, r) && cs[1].to == Step(c.at, c.ahead, r);
    } else {
      assert cs == [cs[0]] && cs[0].to == c.at;
    }
  }

  /**
   * The outline has one arc per corner with a positive radius, and each of
   * its points, arcs ends included, lies on the border of the rectangle when
   * no radius exceeds a side.
   */
  lemma OutlineShape(x: int, y: int, w: int, h: int, tl: int, tr: int, br: int, bl: int)
    requires 0 <= w && 0 <= h
    requires tl <= w && tl <= h && tr <= w && tr <= h && br <= w && br <= h && bl <= w && bl <= h
    ensures ArcCount(Outline(x, y, w, h, [tl, tr, br, bl])) == Positive(tl) + Positive(tr) + Positive(br) + Positive(bl)
    ensures forall c :: c in Outline(x, y, w, h, [tl, tr, br, bl]) && !c.Close? ==> OnBorder(c.to, x, y, w, h)
  {
    var cs := Corners(x, y, w, h);
    var c0, c1 := CornerCommands(cs[0], tl, true), CornerCommands(cs[1], tr, false);
    var c2, c3 := CornerCommands(cs[2], br, false), CornerCommands(cs[3], bl, false);
    CornerShape(0, tl, true, x, y, w, h);
    CornerShape(1, tr, false, x, y, w, h);
    CornerShape(2, br, false, x, y, w, h);
    CornerShape(3, bl, false, x, y, w, h);
    ArcCountAppend(c0, c1);
    ArcCountAppend(c0 + c1, c2);
    ArcCountAppend(c0 + c1 + c2, c3);
    ArcCountAppend(c0 + c1 + c2 + c3, [Close]);
    assert ArcCount([Close]) == 0;
  }

  predicate OnBorder(p: Point, x: int, y: int, w: int, h: int)
  {
    ((p.x == x || p.x == x + w) && y <= p.y <= y + h) || ((p.y == y || p.y == y + h) && x <= p.x <= x + w)
  }

  // ---------------------------------------------------------------- tiles

  /** The rounding decision for the four corners of one tile. */
  datatype RoundCorners = RoundCorners(topLeft: bool, topRight: bool, bottomRight: bool, bottomLeft: bool)

  /**
   * The corners of tile `index` that `createBlobPath` rounds: a corner is
   * rounded when both cells beside it and the cell diagonally across exist and
   * none of them belongs to the blob.
   */
  function CornersOf(blob: set<int>, w: int, h: int, index: int): RoundCorners
    requires w > 0
  {
    var row, col := index / w, index % w;
    var hasTop, hasRight, hasBottom, hasLeft := row > 0, col < w - 1, row < h - 1, col > 0;
    var top := hasTop && index - w in blob;
    var right := hasRight && index + 1 in blob;
    var bottom := hasBottom && index + w in blob;
    var left := hasLeft && index - 1 in blob;
    var topLeft := hasTop && hasLeft && index - w - 1 in blob;
    var topRight := hasTop && hasRight && index - w + 1 in blob;
    var bottomRight := hasBottom && hasRight && index + w + 1 in blob;
    var bottomLeft := hasBottom && hasLeft && index + w - 1 in blob;
    RoundCorners(
      hasTop && hasLeft && !top && !left && !topLeft,
      hasTop && hasRight && !top && !right && !topRight,
      hasBottom && hasRight && !bottom && !right && !bottomRight,
      hasBottom && hasLeft && !bottom && !left && !bottomLeft)
  }

  /** The cell at `row`, `col` of a grid `w` wide, when it lies in the `w` x `h` grid. */
  predicate CellFree(blob: set<int>, w: int, h: int, row: int, col: int)
  {
    0 <= row < h && 0 <= col < w && row * w + col !in blob
  }

  /**
   * In grid coordinates: the top-left corner of tile (row, col) is rounded
   * exactly when the cells above, to the left and above-left lie in the grid
   * outside the blob; likewise for the other three corners.
   */
  lemma CornerRule(blob: set<int>, w: int, h: int, index: int)
    requires w > 0 && 0 <= index < w * h
    ensures var row, col, rc := index / w, index % w, CornersOf(blob, w, h, index);
      && (rc.topLeft <==> CellFree(blob, w, h, row - 1, col) && CellFree(blob, w, h, row, col - 1) && CellFree(blob, w, h, row - 1, col - 1))
      && (rc.topRight <==> CellFree(blob, w, h, row - 1, col) && CellFree(blob, w, h, row, col + 1) && CellFree(blob, w, h, row - 1, col + 1))
      && (rc.bottomRight <==> CellFree(blob, w, h, row + 1, col) && CellFree(blob, w, h, row, col + 1) && CellFree(blob, w, h, row + 1, col + 1))
      && (rc.bottomLeft <==> CellFree(blob, w, h, row + 1, col) && CellFree(blob, w, h, row, col - 1) && CellFree(blob, w, h, row + 1, col - 1))
  {
    RowInGrid(index, w, h);
    var row, col := index / w, index % w;
    assert (row - 1) * w + col == index - w;
    assert (row + 1) * w + col == index + w;
    assert (row - 1) * w + col - 1 == index - w - 1;
    assert (row - 1) * w + col + 1 == index - w + 1;
    assert (row + 1) * w + col + 1 == index + w + 1;
    assert (row + 1) * w + col - 1 == index + w - 1;
  }

  /** Corners on the border of the grid are never rounded. */
  lemma BorderCornersStaySquare(blob: set<int>, w: int, h: int, index: int)
    requires w > 0
    ensures index / w == 0 ==> !CornersOf(blob, w, h, index).topLeft && !CornersOf(blob, w, h, index).topRight
    ensures index / w == h - 1 ==> !CornersOf(blob, w, h, index).bottomLeft && !CornersOf(blob, w, h, index).bottomRight
    ensures index % w == 0 ==> !CornersOf(blob, w, h, index).topLeft && !CornersOf(blob, w, h, index).bottomLeft
    ensures index % w == w - 1 ==> !CornersOf(blob, w, h, index).topRight && !CornersOf(blob, w, h, index).bottomRight
  {
  }

  /** A lone tile away from the grid border gets all four corners rounded. */
  lemma LoneInteriorTileIsRound(w: int, h: int, index: int)
    requires w > 0 && 0 < index / w < h - 1 && 0 < index % w < w - 1
    ensures CornersOf({index}, w, h, index) == RoundCorners(true, true, true, true)
  {
    assert w > 1;
  }

  /**
   * An L of three tiles on a 4 x 4 grid (cells 5, 6 and 9): the outer corner
   * of the bend is rounded, and no tile rounds the inner corner where the
   * three meet.
   */
  lemma ElbowInnerCornerStaysSquare()
    ensures CornersOf({5, 6, 9}, 4, 4, 5).topLeft
    ensures !CornersOf({5, 6, 9}, 4, 4, 5).bottomRight
    ensures !CornersOf({5, 6, 9}, 4, 4, 6).bottomLeft
    ensures !CornersOf({5, 6, 9}, 4, 4, 9).topRight
  {
  }

  datatype EdgeFlags = EdgeFlags(top: bool, bottom: bool, left: bool, right: bool)

  datatype Rect = Rect(x: int, y: int, width: int, height: int)

  /** The tile of cell `index`, stretched by the edge overlap on each map edge that has water. */
  function TileRect(w: int, h: int, flags: EdgeFlags, index: int): (r: Rect)
    requires w > 0
  {
    var row, col := index / w, index % w;
    var x0, y0 := col * CellSize, row * CellSize;
    var top := row == 0 && flags.top;
    var left := col == 0 && flags.left;
    var extendDown := row == h - 1 && flags.bottom;
    var extendRight := col == w - 1 && flags.right;
    Rect(if left then x0 - EdgeOverlap else x0,
         if top then y0 - EdgeOverlap else y0,
         CellSize + (if left then EdgeOverlap else 0) + (if extendRight then EdgeOverlap else 0),
         CellSize + (if top then EdgeOverlap else 0) + (if extendDown then EdgeOverlap else 0))
  }

  /** The path of one tile of a blob. */
  function TilePath(blob: set<int>, w: int, h: int, flags: EdgeFlags, index: int): string
    requires w > 0
  {
    var r := TileRect(w, h, flags, index);
    var c := CornersOf(blob, w, h, index);
    RoundedRectPath(r.x, r.y, r.width, r.height,
      if c.topLeft then CornerRadius else 0, if c.topRight then CornerRadius else 0,
      if c.bottomRight then CornerRadius else 0, if c.bottomLeft then CornerRadius else 0)
  }

  // ---------------------------------------------------------------- blob paths

  /** The cells of `blob` below `n`, ascending. */
  function BlobCells(blob: set<int>, n: int): (cs: seq<int>)
    ensures forall c :: c in cs <==> c in blob && 0 <= c < n
    decreases n
  {
    if n <= 0 then [] else BlobCells(blob, n - 1) + (if n - 1 in blob then [n - 1] else [])
  }

  /** The cells come in ascending order, each once. */
  lemma {:induction false} BlobCellsAscending(blob: set<int>, n: int)
    ensures forall i, j :: 0 <= i < j < |BlobCells(blob, n)| ==> BlobCells(blob, n)[i] < BlobCells(blob, n)[j]
    decreases n
  {
    if n > 0 {
      BlobCellsAscending(blob, n - 1);
      var prev := BlobCells(blob, n - 1);
      assert forall i :: 0 <= i < |prev| ==> prev[i] in prev;
    }
  }

  function TilePaths(blob: set<int>, w: int, h: int, flags: EdgeFlags, cells: seq<int>): seq<string>
    requires w > 0
  {
    if cells == [] then [] else TilePaths(blob, w, h, flags, cells[..|cells| - 1]) + [TilePath(blob, w, h, flags, cells[|cells| - 1])]
  }

  lemma {:induction false} JoinSnoc(parts: seq<string>, s: string)
    requires parts != []
    ensures Join(parts + [s], ' ') == Join(parts, ' ') + " " + s
    decreases |parts|
  {
    if |parts| == 1 {
      assert (parts + [s])[1..] == [s];
    } else {
      assert (parts + [s])[1..] == parts[1..] + [s];
      JoinSnoc(parts[1..], s);
    }
  }

  /**
   * `createBlobPath`: the tile paths of the blob, in ascending cell order,
   * separated by spaces; empty for an empty blob.
   */
  method CreateBlobPath(blob: set<int>, w: int, h: int, flags: EdgeFlags) returns (path: string)
    requires w > 0 && h > 0
    ensures path == Join(TilePaths(blob, w, h, flags, BlobCells(blob, w * h)), ' ')
  {
    if blob == {} {
      NoCells(blob, w * h);
      return "";
    }
    path := "";
    var first := true;
    ghost var parts: seq<string> := [];
    for k := 0 to w * h
      invariant parts == TilePaths(blob, w, h, flags, BlobCells(blob, k))
      invariant path == Join(parts, ' ')
      invariant first <==> parts == []
    {
      TilePathsStep(blob, w, h, flags, k);
      if k in blob {
        var tile := TilePath(blob, w, h, flags, k);
        JoinAppend(parts, tile);
        if first {
          path := path + tile;
          first := false;
        } else {
          path := path + " " + tile;
        }
        parts := parts + [tile];
      }
    }
  }

  lemma NoCells(blob: set<int>, n: int)
    requires blob == {}
    ensures BlobCells(blob, n) == []
  {
  }

  lemma TilePathsStep(blob: set<int>, w: int, h: int, flags: EdgeFlags, k: int)
    requires w > 0 && k >= 0
    ensures BlobCells(blob, k + 1) == BlobCells(blob, k) + (if k in blob then [k] else [])
    ensures TilePaths(blob, w, h, flags, BlobCells(blob, k + 1))
      == TilePaths(blob, w, h, flags, BlobCells(blob, k)) + (if k in blob then [TilePath(blob, w, h, flags, k)] else [])
  {
    var cs := BlobCells(blob, k + 1);
    if k in blob { assert cs[..|cs| - 1] == BlobCells(blob, k); } else { assert cs == BlobCells(blob, k); }
  }

  lemma JoinAppend(parts: seq<string>, s: string)
    ensures Join(parts + [s], ' ') == if parts == [] then s else Join(parts, ' ') + " " + s
  {
    if parts == [] {
      assert parts + [s] == [s];
    } else {
      JoinSnoc(parts, s);
    }
  }

  /** The tiles of a blob are exactly its cells inside the grid, each once. */
  lemma BlobPathTiles(blob: set<int>, w: int, h: int)
    requires w > 0 && h > 0
    ensures forall c :: c in BlobCells(blob, w * h) <==> c in blob && 0 <= c < w * h
    ensures BlobCells(blob, w * h) == [] <==> forall c :: c in blob ==> !(0 <= c < w * h)
    ensures forall i, j :: 0 <= i < j < |BlobCells(blob, w * h)| ==> BlobCells(blob, w * h)[i] != BlobCells(blob, w * h)[j]
  {
    BlobCellsAscending(blob, w * h);
    var cs := BlobCells(blob, w * h);
    if cs != [] {
      assert cs[0] in cs;
    }
  }

  /** A tile in the grid covers its cell; it sticks out by the overlap exactly on the map edges that have water. */
  lemma TileCoversCell(w: int, h: int, flags: EdgeFlags, index: int)
    requires w > 0 && 0 <= index < w * h
    ensures var r, row, col := TileRect(w, h, flags, index), index / w, index % w;
      && r.x == col * 32 - (if col == 0 && flags.left then 5 else 0)
      && r.y == row * 32 - (if row == 0 && flags.top then 5 else 0)
      && r.x + r.width == col * 32 + 32 + (if col == w - 1 && flags.right then 5 else 0)
      && r.y + r.height == row * 32 + 32 + (if row == h - 1 && flags.bottom then 5 else 0)
  {
  }

  // ---------------------------------------------------------------- the layer

  /** The mask and rectangle bounds: the canvas, stretched by the overlap on each edge that has water. */
  function LayerBounds(flags: EdgeFlags, canvasWidth: int, canvasHeight: int): Rect
  {
    Rect(if flags.left then -EdgeOverlap else 0, if flags.top then -EdgeOverlap else 0,
         canvasWidth + (if flags.left then EdgeOverlap else 0) + (if flags.right then EdgeOverlap else 0),
         canvasHeight + (if flags.top then EdgeOverlap else 0) + (if flags.bottom then EdgeOverlap else 0))
  }

  /** When the canvas is the grid at 32 pixels a cell, every tile lies inside the layer bounds. */
  lemma TilesInsideBounds(w: int, h: int, flags: EdgeFlags, index: int)
    requires w > 0 && 0 <= index < w * h
    ensures var r, b := TileRect(w, h, flags, index), LayerBounds(flags, w * 32, h * 32);
      b.x <= r.x && r.x + r.width <= b.x + b.width && b.y <= r.y && r.y + r.height <= b.y + b.height
  {
    TileCoversCell(w, h, flags, index);
    RowInGrid(index, w, h);
    var row, col := index / w, index % w;
    assert col * 32 + 32 <= w * 32;
    NextRowInGrid(row, w, h);
    assert row * 32 + 32 <= h * 32;
  }

  function MaskText(b: Rect, path: string): string
  {
    "<mask id='waterMask' maskUnits='userSpaceOnUse' x='" + IntToString(b.x) + "' y='" + IntToString(b.y)
    + "' width='" + IntToString(b.width) + "' height='" + IntToString(b.height) + "'>"
    + "<rect x='" + IntToString(b.x) + "' y='" + IntToString(b.y) + "' width='" + IntToString(b.width)
    + "' height='" + IntToString(b.height) + "' fill='black'/>"
    + "<g filter='url(#waterEdgeWiggle)'>" + "<path d='" + path + "' fill='white' fill-rule='evenodd'/>" + "</g>"
    + "</mask>"
  }

  function WaterRectText(b: Rect): string
  {
    "<rect x='" + IntToString(b.x) + "' y='" + IntToString(b.y) + "' width='" + IntToString(b.width)
    + "' height='" + IntToString(b.height) + "' fill='#003f7f' filter='url(#waterFilter)' fill-opacity='0.7' mask='url(#waterMask)'/>"
  }

  /** What `renderWaterLayer` hands back: markup for the shared defs and markup for the body. */
  datatype WaterLayer = WaterLayer(defs: string, render: string)

  /** Some blob cell satisfies `p`; only blobs before `n`, and cells of blob `n` below `k`, are looked at. */
  ghost predicate AnyCell(blobs: seq<set<int>>, n: int, k: int, p: int -> bool)
  {
    exists m, c :: 0 <= m < |blobs| && c in blobs[m] && (m < n || (m == n && 0 <= c < k)) && p(c)
  }

  lemma AnyCellStep(blobs: seq<set<int>>, n: int, k: int, p: int -> bool)
    requires 0 <= n < |blobs|
    requires 0 <= k
    ensures AnyCell(blobs, n, k + 1, p) <==> AnyCell(blobs, n, k, p) || (k in blobs[n] && p(k))
  {
    if AnyCell(blobs, n, k + 1, p) && !(k in blobs[n] && p(k)) {
      var m, c :| 0 <= m < |blobs| && c in blobs[m] && (m < n || (m == n && 0 <= c < k + 1)) && p(c);
      assert c != k || m != n;
    }
  }

  lemma AnyCellNext(blobs: seq<set<int>>, n: int, bound: int, p: int -> bool)
    requires 0 <= n < |blobs| && forall c :: c in blobs[n] ==> 0 <= c < bound
    ensures AnyCell(blobs, n, bound, p) <==> AnyCell(blobs, n + 1, 0, p)
  {
    if AnyCell(blobs, n + 1, 0, p) {
      var m, c :| 0 <= m < |blobs| && c in blobs[m] && (m < n + 1 || (m == n + 1 && 0 <= c < 0)) && p(c);
      if m == n {
        assert 0 <= c < bound;
      }
    }
  }

  lemma AnyCellStart(blobs: seq<set<int>>, p: int -> bool)
    ensures !AnyCell(blobs, 0, 0, p)
  {
  }

  /** The four edge flags, from the cells of the blobs. */
  ghost function EdgesOf(blobs: seq<set<int>>, w: int, h: int, n: int, k: int): EdgeFlags
    requires w > 0
  {
    EdgeFlags(AnyCell(blobs, n, k, c => c / w == 0), AnyCell(blobs, n, k, c => c / w == h - 1),
              AnyCell(blobs, n, k, c => c % w == 0), AnyCell(blobs, n, k, c => c % w == w - 1))
  }

  /** Loops over every cell of every blob, as `renderWaterLayer` does, and records which map edges have water. */
  method ComputeEdgeFlags(blobs: seq<set<int>>, w: int, h: int) returns (flags: EdgeFlags)
    requires w > 0 && h > 0
    requires forall n, c :: 0 <= n < |blobs| && c in blobs[n] ==> 0 <= c < w * h
    ensures flags == EdgesOf(blobs, w, h, |blobs|, 0)
  {
    flags := EdgeFlags(false, false, false, false);
    AnyCellStart(blobs, c => c / w == 0);
    AnyCellStart(blobs, c => c / w == h - 1);
    AnyCellStart(blobs, c => c % w == 0);
    AnyCellStart(blobs, c => c % w == w - 1);
    for n := 0 to |blobs|
      invariant flags == EdgesOf(blobs, w, h, n, 0)
    {
      for k := 0 to w * h
        invariant flags == EdgesOf(blobs, w, h, n, k)
      {
        AnyCellStep(blobs, n, k, c => c / w == 0);
        AnyCellStep(blobs, n, k, c => c / w == h - 1);
        AnyCellStep(blobs, n, k, c => c % w == 0);
        AnyCellStep(blobs, n, k, c => c % w == w - 1);
        if k in blobs[n] {
          var row, col := k / w, k % w;
          if row == 0 { flags := flags.(top := true); }
          if row == h - 1 { flags := flags.(bottom := true); }
          if col == 0 { flags := flags.(left := true); }
          if col == w - 1 { flags := flags.(right := true); }
        }
      }
      AnyCellNext(blobs, n, w * h, c => c / w == 0);
      AnyCellNext(blobs, n, w * h, c => c / w == h - 1);
      AnyCellNext(blobs, n, w * h, c => c % w == 0);
      AnyCellNext(blobs, n, w * h, c => c % w == w - 1);
    }
  }

  /** Some water cell lies in row `row`; some in column `col`. */
  ghost predicate WaterInRow(water: seq<bool>, w: int, h: int, row: int)
  {
    exists c :: IsWater(water, w, h, c) && c / w == row
  }

  ghost predicate WaterInColumn(water: seq<bool>, w: int, h: int, col: int)
  {
    exists c :: IsWater(water, w, h, c) && c % w == col
  }

  /** Which map edges have water. */
  ghost function WaterEdges(water: seq<bool>, w: int, h: int): EdgeFlags
  {
    EdgeFlags(WaterInRow(water, w, h, 0), WaterInRow(water, w, h, h - 1),
              WaterInColumn(water, w, h, 0), WaterInColumn(water, w, h, w - 1))
  }

  /** Blobs that cover exactly the water cells see the same map edges as the water. */
  lemma EdgesOfCover(water: seq<bool>, w: int, h: int, blobs: seq<set<int>>)
    requires w > 0
    requires forall c :: IsWater(water, w, h, c) <==> InSome(blobs, c)
    ensures EdgesOf(blobs, w, h, |blobs|, 0) == WaterEdges(water, w, h)
  {
    forall p: int -> bool ensures AnyCell(blobs, |blobs|, 0, p) <==> exists c :: IsWater(water, w, h, c) && p(c) {
      if AnyCell(blobs, |blobs|, 0, p) {
        var m, c :| 0 <= m < |blobs| && c in blobs[m] && (m < |blobs| || (m == |blobs| && 0 <= c < 0)) && p(c);
        assert InSome(blobs, c);
      }
      if exists c :: IsWater(water, w, h, c) && p(c) {
        var c :| IsWater(water, w, h, c) && p(c);
        assert InSome(blobs, c);
        var m :| 0 <= m < |blobs| && c in blobs[m];
        assert AnyCell(blobs, |blobs|, 0, p);
      }
    }
    ghost var pt := (c: int) => c / w == 0;
    assert AnyCell(blobs, |blobs|, 0, pt) <==> WaterInRow(water, w, h, 0);
    ghost var pb := (c: int) => c / w == h - 1;
    assert AnyCell(blobs, |blobs|, 0, pb) <==> WaterInRow(water, w, h, h - 1);
    ghost var pl := (c: int) => c % w == 0;
    assert AnyCell(blobs, |blobs|, 0, pl) <==> WaterInColumn(water, w, h, 0);
    ghost var pr := (c: int) => c % w == w - 1;
    assert AnyCell(blobs, |blobs|, 0, pr) <==> WaterInColumn(water, w, h, w - 1);
  }

  /** The blob paths with content, in blob order, separated by spaces. */
  function CombinedPath(blobs: seq<set<int>>, w: int, h: int, flags: EdgeFlags): string
    requires w > 0 && h > 0
    decreases |blobs|
  {
    if blobs == [] then ""
    else
      var rest := CombinedPath(blobs[..|blobs| - 1], w, h, flags);
      var p := Join(TilePaths(blobs[|blobs| - 1], w, h, flags, BlobCells(blobs[|blobs| - 1], w * h)), ' ');
      AppendPath(rest, p)
  }

  /** One more blob path: skipped when empty, after a space unless it is the first. */
  function AppendPath(combined: string, p: string): string
  {
    if p == "" then combined else if combined == "" then p else combined + " " + p
  }

  lemma CombinedPathStep(blobs: seq<set<int>>, n: nat, w: int, h: int, flags: EdgeFlags)
    requires w > 0 && h > 0 && n < |blobs|
    ensures CombinedPath(blobs[..n + 1], w, h, flags)
      == AppendPath(CombinedPath(blobs[..n], w, h, flags), Join(TilePaths(blobs[n], w, h, flags, BlobCells(blobs[n], w * h)), ' '))
  {
    assert blobs[..n + 1][..n] == blobs[..n];
  }

  /** The layer for the given blobs: nothing without a path, else the mask in the defs and the water rectangle in the body. */
  function LayerOf(blobs: seq<set<int>>, w: int, h: int, flags: EdgeFlags, canvasWidth: int, canvasHeight: int): WaterLayer
    requires w > 0 && h > 0
  {
    var path := CombinedPath(blobs, w, h, flags);
    if blobs == [] || path == "" then WaterLayer("", "")
    else WaterLayer(MaskText(LayerBounds(flags, canvasWidth, canvasHeight), path),
                    WaterRectText(LayerBounds(flags, canvasWidth, canvasHeight)))
  }

  /**
   * `renderWaterLayer`: the water areas of the grid become one mask whose
   * path holds every tile, and one filtered rectangle drawn through it. The
   * mask and rectangle reach 5 pixels past each map edge with water in its
   * outer row or column. Without water there is nothing to draw.
   */
  method RenderWaterLayer(water: seq<bool>, canvasWidth: int, canvasHeight: int, w: int, h: int)
    returns (layer: WaterLayer, ghost blobs: seq<set<int>>)
    requires w > 0 && h > 0
    ensures forall c :: IsWater(water, w, h, c) <==> InSome(blobs, c)
    ensures forall m, n :: 0 <= m < n < |blobs| ==> blobs[m] !! blobs[n]
    ensures layer == LayerOf(blobs, w, h, WaterEdges(water, w, h), canvasWidth, canvasHeight)
  {
    var found;
    ghost var seeds;
    found, seeds := FindConnectedWaterBlobs(water, w, h);
    blobs := found;
    if |found| == 0 {
      layer := WaterLayer("", "");
      return;
    }
    forall n, c | 0 <= n < |blobs| && c in blobs[n] ensures 0 <= c < w * h {
      assert InSome(blobs, c);
    }
    var flags := ComputeEdgeFlags(found, w, h);
    EdgesOfCover(water, w, h, blobs);
    var bounds := LayerBounds(flags, canvasWidth, canvasHeight);
    var combined := CombineBlobPaths(found, w, h, flags);
    if combined != "" {
      layer := WaterLayer(MaskText(bounds, combined), WaterRectText(bounds));
    } else {
      layer := WaterLayer("", "");
    }
  }

  /** A grid without water cells has no blob with a cell, hence no path and no layer. */
  lemma DryGridHasNoLayer(water: seq<bool>, w: int, h: int, blobs: seq<set<int>>, canvasWidth: int, canvasHeight: int)
    requires w > 0 && h > 0
    requires forall c :: IsWater(water, w, h, c) <==> InSome(blobs, c)
    requires forall c :: !IsWater(water, w, h, c)
    ensures LayerOf(blobs, w, h, WaterEdges(water, w, h), canvasWidth, canvasHeight) == WaterLayer("", "")
  {
    forall n | 0 <= n < |blobs| ensures blobs[n] == {} {
      forall c ensures c in blobs[n] ==> IsWater(water, w, h, c) {
        assert c in blobs[n] ==> InSome(blobs, c);
      }
      assert forall c :: c !in blobs[n];
    }
    EmptyBlobsHaveNoPath(blobs, w, h, WaterEdges(water, w, h));
  }

  lemma {:induction false} EmptyBlobsHaveNoPath(blobs: seq<set<int>>, w: int, h: int, flags: EdgeFlags)
    requires w > 0 && h > 0
    requires forall n :: 0 <= n < |blobs| ==> blobs[n] == {}
    ensures CombinedPath(blobs, w, h, flags) == ""
    decreases |blobs|
  {
    if blobs != [] {
      NoCells(blobs[|blobs| - 1], w * h);
      EmptyBlobsHaveNoPath(blobs[..|blobs| - 1], w, h, flags);
    }
  }

  /** The non-empty blob paths, in blob order, separated by spaces. */
  method CombineBlobPaths(blobs: seq<set<int>>, w: int, h: int, flags: EdgeFlags) returns (combined: string)
    requires w > 0 && h > 0
    ensures combined == CombinedPath(blobs, w, h, flags)
  {
    combined := "";
    var first := true;
    for n := 0 to |blobs|
      invariant combined == CombinedPath(blobs[..n], w, h, flags)
      invariant first <==> combined == ""
    {
      var p := CreateBlobPath(blobs[n], w, h, flags);
      CombinedPathStep(blobs, n, w, h, flags);
      if p != "" {
        if first {
          combined := combined + p;
          first := false;
        } else {
          combined := combined + " " + p;
        }
      }
    }
    assert blobs[..|blobs|] == blobs;
  }
}
