/**
 * The fog-of-war painting service of the battlemap editor
 * (`FogOfWarService`). Revealed cells are kept as `"x,y"` keys in a
 * JavaScript `Set`, modelled as the sequence of their cells in insertion
 * order without repetitions. A stroke paints cells one by one: in 'add' mode the fog
 * comes back over the cell, in 'remove' mode the cell is revealed.
 */
module Fog {
  import opened Common
  import opened Text

  datatype FogMode = Add | Remove

  /** A `FogRevealedArea`: one revealed grid cell. */
  datatype Area = Area(gridX: int, gridY: int)

  // ---------------------------------------------------------------- cell keys

  /** `getCellKey`: the template string `${gridX},${gridY}`. */
  function CellKey(gridX: int, gridY: int): string
  {
    IntToString(gridX) + "," + IntToString(gridY)
  }

  /**
   * `parseCellKey`: split at the commas and read the first two pieces as
   * numbers. It reads back the keys `CellKey` writes; `None` where a piece is
   * not a plain decimal integer (JavaScript's `Number` would also accept an
   * empty or padded piece, which no written key holds).
   */
  function ParseCellKey(key: string): Option<Area>
  {
    var parts := JsSplit(key, ',');
    var x := ParseDecimal(parts[0]);
    var y := if |parts| >= 2 then ParseDecimal(parts[1]) else None;
    if x.Some? && y.Some? then Some(Area(x.value, y.value)) else None
  }

  lemma NoCommaInInt(i: int)
    ensures ',' !in IntToString(i)
  {
    var s := IntToString(i);
    var digits := NatToString(if i < 0 then -i else i);
    forall k | 0 <= k < |s|
      ensures s[k] != ','
    {
      if i < 0 && k > 0 {
        assert s[k] == digits[k - 1];
        assert IsDigit(digits[k - 1]);
      } else if i >= 0 {
        assert IsDigit(digits[k]);
      }
    }
  }

  /** Reading a key back gives the cell it was made for. */
  lemma CellKeyRoundTrip(gridX: int, gridY: int)
    ensures ParseCellKey(CellKey(gridX, gridY)) == Some(Area(gridX, gridY))
  {
    NoCommaInInt(gridX);
    NoCommaInInt(gridY);
    JsSplitFirst(IntToString(gridX), IntToString(gridY), ',');
    ParseDecimalOfIntToString(gridX);
    ParseDecimalOfIntToString(gridY);
  }

  /** Two cells share a key only when they are the same cell. */
  lemma CellKeyInjective(a: Area, b: Area)
    requires CellKey(a.gridX, a.gridY) == CellKey(b.gridX, b.gridY)
    ensures a == b
  {
    CellKeyRoundTrip(a.gridX, a.gridY);
    CellKeyRoundTrip(b.gridX, b.gridY);
  }

  // ---------------------------------------------------------------- the JavaScript Set

  predicate Distinct<T(==)>(s: seq<T>)
  {
    forall i, j :: 0 <= i < j < |s| ==> s[i] != s[j]
  }

  /** `Set.add`: a new element goes to the end of the iteration order. */
  function SetAdd<T(==,!new)>(s: seq<T>, x: T): (r: seq<T>)
    ensures forall e :: e in r <==> e in s || e == x
    ensures Distinct(s) ==> Distinct(r)
  {
    if x in s then s else s + [x]
  }

  /** `Set.delete`: the element leaves, the others keep their order. */
  function SetDelete<T(==,!new)>(s: seq<T>, x: T): (r: seq<T>)
    ensures forall e :: e in r <==> e in s && e != x
    ensures Distinct(s) ==> Distinct(r)
  {
    if s == [] then []
    else
      var rest := SetDelete(s[1..], x);
      if s[0] == x then rest
      else
        assert Distinct(s) ==> s[0] !in s[1..];
        [s[0]] + rest
  }

  // ---------------------------------------------------------------- the service state

  /**
   * The service state. The `Set<string>` of keys is held as the cells the
   * keys were made from, in the same order: `CellKey` is injective and
   * `ParseCellKey` reads every key back, so a key set and its cell list
   * determine each other.
   */
  datatype FogState = FogState(revealed: seq<Area>, mode: FogMode, painting: bool, last: Option<Area>)

  /** Each revealed cell is held once. */
  predicate StateValid(s: FogState)
  {
    Distinct(s.revealed)
  }

  predicate Revealed(s: FogState, gridX: int, gridY: int)
  {
    Area(gridX, gridY) in s.revealed
  }

  /** The cells of `areas`, each once, in the order `setFogAreas` adds their keys. */
  function RevealedBy(areas: seq<Area>): seq<Area>
  {
    if areas == [] then [] else SetAdd(RevealedBy(areas[..|areas| - 1]), areas[|areas| - 1])
  }

  function StrokeStarted(s: FogState): FogState
  {
    s.(painting := true, last := None)
  }

  function StrokeStopped(s: FogState): FogState
  {
    s.(painting := false, last := None)
  }

  /** `paintCell`: ignored between strokes and on the cell painted last; otherwise hide or reveal one cell. */
  function Paint(s: FogState, gridX: int, gridY: int): FogState
  {
    var cell := Area(gridX, gridY);
    if !s.painting || s.last == Some(cell) then s
    else s.(last := Some(cell),
            revealed := if s.mode == Add then SetDelete(s.revealed, cell) else SetAdd(s.revealed, cell))
  }

  // ---------------------------------------------------------------- properties

  /** After `setFogAreas(areas)` each cell is held once, and a cell is revealed exactly when it is listed in `areas`. */
  lemma {:induction false} RevealedByListsAreas(areas: seq<Area>)
    ensures Distinct(RevealedBy(areas))
    ensures forall c :: c in RevealedBy(areas) <==> c in areas
  {
    if areas != [] {
      var init := areas[..|areas| - 1];
      RevealedByListsAreas(init);
      assert areas == init + [areas[|areas| - 1]];
    }
  }

  /** Setting the areas that were read restores the same revealed set, in the same order. */
  lemma {:induction false} FogAreasRoundTrip(cells: seq<Area>)
    requires Distinct(cells)
    ensures RevealedBy(cells) == cells
  {
    if cells != [] {
      var init := cells[..|cells| - 1];
      var c := cells[|cells| - 1];
      FogAreasRoundTrip(init);
      assert c !in init by {
        forall i | 0 <= i < |init| ensures init[i] != c { assert cells[i] == init[i]; }
      }
      assert cells == init + [c];
    }
  }

  /** Painting keeps each cell once. */
  lemma PaintKeepsValid(s: FogState, gridX: int, gridY: int)
    requires StateValid(s)
    ensures StateValid(Paint(s, gridX, gridY))
  {
  }
  /** Between strokes a paint changes nothing. */
  lemma PaintIgnoredBetweenStrokes(s: FogState, gridX: int, gridY: int)
    requires !s.painting
    ensures Paint(s, gridX, gridY) == s
  {
  }

  /** Painting the same cell twice in a row: the second time changes nothing. */
  lemma PaintTwiceIsPaintOnce(s: FogState, gridX: int, gridY: int)
    ensures Paint(Paint(s, gridX, gridY), gridX, gridY) == Paint(s, gridX, gridY)
  {
  }

  /**
   * A paint that is not skipped hides the cell in 'add' mode and reveals it in
   * 'remove' mode, and leaves every other cell as it was.
   */
  lemma PaintChangesOneCell(s: FogState, gridX: int, gridY: int)
    requires s.painting && s.last != Some(Area(gridX, gridY))
    ensures s.mode == Add ==> !Revealed(Paint(s, gridX, gridY), gridX, gridY)
    ensures s.mode == Remove ==> Revealed(Paint(s, gridX, gridY), gridX, gridY)
    ensures forall x, y :: (x, y) != (gridX, gridY) ==>
      (Revealed(Paint(s, gridX, gridY), x, y) <==> Revealed(s, x, y))
  {
  }

  /**
   * Starting or ending a stroke forgets the cell painted last, so the first
   * cell of a new stroke is always painted, even the one the last stroke ended on.
   */
  lemma NewStrokePaintsFirstCell(s: FogState, gridX: int, gridY: int)
    ensures StrokeStopped(s).last.None? && StrokeStarted(s).last.None?
    ensures var t := Paint(StrokeStarted(s), gridX, gridY);
      t.last == Some(Area(gridX, gridY)) && (Revealed(t, gridX, gridY) <==> s.mode == Remove)
  {
  }

  // ---------------------------------------------------------------- the service

  class FogOfWarService {
    /** The cells whose keys the `revealedCells` set holds, in insertion order. */
    var revealedCells: seq<Area>
    var fogMode: FogMode
    var isPainting: bool
    /** The cell whose key `lastPaintedCell` holds. */
    var lastPaintedCell: Option<Area>

    function State(): FogState
      reads this
    {
      FogState(revealedCells, fogMode, isPainting, lastPaintedCell)
    }

    ghost predicate Valid()
      reads this
    {
      StateValid(State())
    }

    constructor()
      ensures Valid()
      ensures State() == FogState([], Add, false, None)
    {
      revealedCells := [];
      fogMode := Add;
      isPainting := false;
      lastPaintedCell := None;
    }

    /** `setFogAreas`: the revealed set becomes exactly the listed cells. */
    method SetFogAreas(areas: seq<Area>)
      modifies this
      ensures State() == old(State()).(revealed := RevealedBy(areas))
      ensures Valid()
      ensures forall x, y :: IsCellRevealed(x, y) <==> Area(x, y) in areas
    {
      revealedCells := [];
      var i := 0;
      while i < |areas|
        invariant 0 <= i <= |areas|
        invariant revealedCells == RevealedBy(areas[..i])
        invariant fogMode == old(fogMode) && isPainting == old(isPainting) && lastPaintedCell == old(lastPaintedCell)
      {
        assert areas[..i + 1][..i] == areas[..i];
        revealedCells := SetAdd(revealedCells, areas[i]);
        i := i + 1;
      }
      assert areas[..|areas|] == areas;
      RevealedByListsAreas(areas);
    }

    /** `getFogAreas`: one area per revealed cell, in the set's order, each read back from its key. */
    method GetFogAreas() returns (areas: seq<Area>)
      ensures areas == revealedCells
    {
      areas := [];
      var i := 0;
      while i < |revealedCells|
        invariant 0 <= i <= |revealedCells|
        invariant areas == revealedCells[..i]
      {
        var area := ReadKey(revealedCells[i]);
        assert revealedCells[..i + 1] == revealedCells[..i] + [area];
        areas := areas + [area];
        i := i + 1;
      }
    }

    /** The area read back from the key of `cell`. */
    static method ReadKey(cell: Area) returns (area: Area)
      ensures area == cell
    {
      var key := CellKey(cell.gridX, cell.gridY);
      CellKeyRoundTrip(cell.gridX, cell.gridY);
      area := ParseCellKey(key).value;
    }

    /** `isCellRevealed`. */
    predicate IsCellRevealed(gridX: int, gridY: int)
      reads this
    {
      Revealed(State(), gridX, gridY)
    }

    method SetFogMode(mode: FogMode)
      modifies this
      ensures State() == old(State()).(mode := mode)
    {
      fogMode := mode;
    }

    method StartPainting()
      modifies this
      ensures State() == StrokeStarted(old(State()))
    {
      isPainting := true;
      lastPaintedCell := None;
    }

    method StopPainting()
      modifies this
      ensures State() == StrokeStopped(old(State()))
    {
      isPainting := false;
      lastPaintedCell := None;
    }

    /** `paintCell`. */
    method PaintCell(gridX: int, gridY: int)
      requires Valid()
      modifies this
      ensures State() == Paint(old(State()), gridX, gridY)
      ensures Valid()
    {
      if !isPainting {
        return;
      }
      var cell := Area(gridX, gridY);
      if lastPaintedCell == Some(cell) {
        return;
      }
      lastPaintedCell := Some(cell);
      if fogMode == Add {
        revealedCells := SetDelete(revealedCells, cell);
      } else {
        revealedCells := SetAdd(revealedCells, cell);
      }
    }
  }
}
