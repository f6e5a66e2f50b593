/**
 * The water areas of the battlemap renderer: a recursive flood fill marks
 * visited cells in an array and collects every 4-connected area of water
 * cells into one blob.
 */
module WaterBlobs {

  /** Cell `i` holds water and lies inside both the water array and the `w` x `h` grid. */
  predicate IsWater(water: seq<bool>, w: int, h: int, i: int)
  {
    0 <= i < |water| && i < w * h && water[i]
  }

  /** `j` is a cell the flood fill steps to from `i`: the one above, right, below or left, inside the grid. */
  predicate Neighbour(w: int, h: int, i: int, j: int)
  {
    w > 0 &&
    ((i / w > 0 && j == i - w) || (i % w < w - 1 && j == i + 1)
     || (i / w < h - 1 && j == i + w) || (i % w > 0 && j == i - 1))
  }

  /** A walk over water cells, each step to a neighbour. */
  ghost predicate IsWalk(water: seq<bool>, w: int, h: int, p: seq<int>)
  {
    |p| > 0
    && (forall k :: 0 <= k < |p| ==> IsWater(water, w, h, p[k]))
    && (forall k :: 0 <= k < |p| - 1 ==> Neighbour(w, h, p[k], p[k + 1]))
  }

  /** `c` lies in the 4-connected water area of `a`. */
  ghost predicate Reachable(water: seq<bool>, w: int, h: int, a: int, c: int)
  {
    exists p :: IsWalk(water, w, h, p) && p[0] == a && p[|p| - 1] == c
  }

  // ---------------------------------------------------------------- grid arithmetic

  lemma MulAtLeast(k: int, w: int)
    requires k >= 1 && w > 0
    ensures k * w >= w
  {
  }

  /** Row and column of `r * w + c` are `r` and `c`. */
  lemma DivMod(i: int, w: int, r: int, c: int)
    requires w > 0 && 0 <= c < w && i == r * w + c
    ensures i / w == r && i % w == c
  {
    var q, m := i / w, i % w;
    assert (r - q) * w == m - c;
    if r - q >= 1 {
      MulAtLeast(r - q, w);
    } else if r - q <= -1 {
      MulAtLeast(q - r, w);
    }
  }

  lemma RowInGrid(i: int, w: int, h: int)
    requires w > 0 && 0 <= i < w * h
    ensures 0 <= i / w < h && 0 <= i % w < w && i == (i / w) * w + i % w
  {
  }

  lemma NextRowInGrid(r: int, w: int, h: int)
    requires w > 0 && r < h
    ensures r * w + w <= h * w
  {
    var below := h - r - 1;
    assert below * w >= 0 by { assert below >= 0; }
    assert h * w - (r * w + w) == below * w;
  }

  lemma AboveGeometry(w: int, h: int, i: int)
    requires 0 <= i < w * h && w > 0 && i / w > 0
    ensures 0 <= i - w < w * h && (i - w) / w == i / w - 1 && (i - w) % w == i % w
    ensures Neighbour(w, h, i - w, i)
  {
    RowInGrid(i, w, h);
    DivMod(i - w, w, i / w - 1, i % w);
  }

  lemma RightGeometry(w: int, h: int, i: int)
    requires 0 <= i < w * h && w > 0 && i % w < w - 1
    ensures 0 <= i + 1 < w * h && (i + 1) / w == i / w && (i + 1) % w == i % w + 1
    ensures Neighbour(w, h, i + 1, i)
  {
    RowInGrid(i, w, h);
    NextRowInGrid(i / w, w, h);
    DivMod(i + 1, w, i / w, i % w + 1);
  }

  lemma BelowGeometry(w: int, h: int, i: int)
    requires 0 <= i < w * h && w > 0 && i / w < h - 1
    ensures 0 <= i + w < w * h && (i + w) / w == i / w + 1 && (i + w) % w == i % w
    ensures Neighbour(w, h, i + w, i)
  {
    RowInGrid(i, w, h);
    NextRowInGrid(i / w + 1, w, h);
    DivMod(i + w, w, i / w + 1, i % w);
  }

  lemma LeftGeometry(w: int, h: int, i: int)
    requires 0 <= i < w * h && w > 0 && i % w > 0
    ensures 0 <= i - 1 < w * h && (i - 1) / w == i / w && (i - 1) % w == i % w - 1
    ensures Neighbour(w, h, i - 1, i)
  {
    RowInGrid(i, w, h);
    DivMod(i - 1, w, i / w, i % w - 1);
  }

  /**
   * A neighbour lies in the grid, shares the row and is one column away or
   * shares the column and is one row away (so diagonal cells are never
   * neighbours), and the relation is symmetric.
   */
  lemma NeighbourGeometry(w: int, h: int, i: int, j: int)
    requires 0 <= i < w * h && Neighbour(w, h, i, j)
    ensures 0 <= j < w * h
    ensures (j / w == i / w && (j % w == i % w + 1 || j % w == i % w - 1))
         || (j % w == i % w && (j / w == i / w + 1 || j / w == i / w - 1))
    ensures Neighbour(w, h, j, i)
  {
    if i / w > 0 && j == i - w {
      AboveGeometry(w, h, i);
    } else if i % w < w - 1 && j == i + 1 {
      RightGeometry(w, h, i);
    } else if i / w < h - 1 && j == i + w {
      BelowGeometry(w, h, i);
    } else {
      LeftGeometry(w, h, i);
    }
  }

  // ---------------------------------------------------------------- walks

  lemma ReachSelf(water: seq<bool>, w: int, h: int, a: int)
    requires IsWater(water, w, h, a)
    ensures Reachable(water, w, h, a, a)
  {
    assert IsWalk(water, w, h, [a]);
  }

  /** A water cell reaches whatever its neighbour reaches. */
  lemma ReachPrepend(water: seq<bool>, w: int, h: int, a: int, n: int, c: int)
    requires IsWater(water, w, h, a) && Neighbour(w, h, a, n) && Reachable(water, w, h, n, c)
    ensures Reachable(water, w, h, a, c)
  {
    var p :| IsWalk(water, w, h, p) && p[0] == n && p[|p| - 1] == c;
    var q := [a] + p;
    assert forall k :: 1 <= k < |q| ==> q[k] == p[k - 1];
    assert IsWalk(water, w, h, q);
  }

  /** From a water cell without water neighbours a walk goes nowhere. */
  lemma IsolatedWalk(water: seq<bool>, w: int, h: int, a: int, p: seq<int>)
    requires IsWalk(water, w, h, p) && p[0] == a
    requires forall n :: Neighbour(w, h, a, n) ==> !IsWater(water, w, h, n)
    ensures |p| == 1
  {
    WalkSecond(water, w, h, p);
  }

  lemma WalkSecond(water: seq<bool>, w: int, h: int, p: seq<int>)
    requires IsWalk(water, w, h, p)
    ensures |p| > 1 ==> IsWater(water, w, h, p[1]) && Neighbour(w, h, p[0], p[1])
  {
  }

  /** Two water cells that touch only at a corner form two areas: on a 2 x 2 grid the diagonal pair is not connected. */
  lemma DiagonalCellsNotConnected()
    ensures !Reachable([true, false, false, true], 2, 2, 0, 3)
  {
    var water := [true, false, false, true];
    forall n | Neighbour(2, 2, 0, n) ensures !IsWater(water, 2, 2, n) {
      assert n == 1 || n == 2;
    }
    forall p | IsWalk(water, 2, 2, p) && p[0] == 0 ensures p[|p| - 1] != 3 {
      IsolatedWalk(water, 2, 2, 0, p);
    }
  }

  // ---------------------------------------------------------------- visited marks

  /** The number of unvisited cells. */
  function CountFalse(s: seq<bool>): nat
  {
    if s == [] then 0 else (if s[0] then 0 else 1) + CountFalse(s[1..])
  }

  /** Visited cells stay visited. */
  ghost predicate Grows(before: seq<bool>, after: seq<bool>)
  {
    |after| == |before| && forall i :: 0 <= i < |before| && before[i] ==> after[i]
  }

  /** `i` was visited between `before` and `after`. */
  predicate Added(before: seq<bool>, after: seq<bool>, i: int)
  {
    0 <= i < |before| && i < |after| && after[i] && !before[i]
  }

  /** Marking cells never adds unvisited ones; marking a new one removes one. */
  lemma {:induction false} CountShrinks(a: seq<bool>, b: seq<bool>, k: int)
    requires Grows(a, b)
    ensures CountFalse(b) <= CountFalse(a)
    ensures Added(a, b, k) ==> CountFalse(b) < CountFalse(a)
    decreases |a|
  {
    if a != [] {
      assert Grows(a[1..], b[1..]);
      CountShrinks(a[1..], b[1..], k - 1);
      assert Added(a, b, k) && k > 0 ==> Added(a[1..], b[1..], k - 1);
    }
  }

  /** Every water neighbour of `i` is visited. */
  ghost predicate Closed(water: seq<bool>, w: int, h: int, visited: seq<bool>, i: int)
  {
    forall j :: Neighbour(w, h, i, j) && IsWater(water, w, h, j) ==> 0 <= j < |visited| && visited[j]
  }

  /**
   * What a flood fill from `start` achieves: it only marks water cells of the
   * area of `start`, leaves every cell it marks with all its water neighbours
   * visited, and marks `start` when that is water.
   */
  ghost predicate FillDone(water: seq<bool>, w: int, h: int, start: int, before: seq<bool>, after: seq<bool>)
  {
    |before| == |water| && Grows(before, after)
    && (forall i :: Added(before, after, i) ==>
          IsWater(water, w, h, i) && Reachable(water, w, h, start, i) && Closed(water, w, h, after, i))
    && (IsWater(water, w, h, start) ==> after[start])
  }

  /** A fill from `start` in progress: `start` is marked, its own neighbours may still be open. */
  ghost predicate FillPartial(water: seq<bool>, w: int, h: int, start: int, before: seq<bool>, now: seq<bool>)
  {
    |before| == |water| && Grows(before, now) && IsWater(water, w, h, start) && Added(before, now, start)
    && (forall i :: Added(before, now, i) ==>
          IsWater(water, w, h, i) && Reachable(water, w, h, start, i) && (i == start || Closed(water, w, h, now, i)))
  }

  lemma FillStarts(water: seq<bool>, w: int, h: int, start: int, before: seq<bool>)
    requires |before| == |water| && IsWater(water, w, h, start) && !before[start]
    ensures FillPartial(water, w, h, start, before, before[start := true])
  {
    ReachSelf(water, w, h, start);
    var now := before[start := true];
    assert forall i :: Added(before, now, i) ==> i == start;
  }

  /** A finished fill from a neighbour `n` keeps the fill from `start` on track and leaves `n` marked. */
  lemma FillStep(water: seq<bool>, w: int, h: int, start: int, n: int, before: seq<bool>, x: seq<bool>, y: seq<bool>)
    requires FillPartial(water, w, h, start, before, x) && Neighbour(w, h, start, n)
    requires FillDone(water, w, h, n, x, y)
    ensures FillPartial(water, w, h, start, before, y)
    ensures IsWater(water, w, h, n) ==> y[n]
    ensures forall i :: Added(before, y, i) <==> Added(before, x, i) || Added(x, y, i)
  {
    forall i | Added(x, y, i) ensures Reachable(water, w, h, start, i) {
      ReachPrepend(water, w, h, start, n, i);
    }
  }

  lemma FillFinishes(water: seq<bool>, w: int, h: int, start: int, before: seq<bool>, now: seq<bool>)
    requires FillPartial(water, w, h, start, before, now)
    requires Closed(water, w, h, now, start)
    ensures FillDone(water, w, h, start, before, now)
    ensures CountFalse(now) < CountFalse(before)
  {
    CountShrinks(before, now, start);
  }

  lemma FillPartialCount(water: seq<bool>, w: int, h: int, start: int, before: seq<bool>, now: seq<bool>)
    requires FillPartial(water, w, h, start, before, now)
    ensures CountFalse(now) < CountFalse(before)
  {
    CountShrinks(before, now, start);
  }

  // ---------------------------------------------------------------- the flood fill

  /**
   * `floodFillWater`: from `start`, when it is an unvisited water cell of the
   * grid, mark it, add it to the blob and continue with the cell above, to
   * the right, below and to the left.
   */
  method FloodFill(water: seq<bool>, visited: array<bool>, blob: set<int>, start: int, w: int, h: int)
    returns (grown: set<int>)
    requires w > 0 && visited.Length == |water|
    modifies visited
    ensures FillDone(water, w, h, start, old(visited[..]), visited[..])
    ensures forall i :: i in grown <==> i in blob || Added(old(visited[..]), visited[..], i)
    decreases CountFalse(visited[..]), 1
  {
    if start < 0 || start >= visited.Length || start >= w * h {
      return blob;
    }
    if visited[start] || !water[start] {
      return blob;
    }
    ghost var v0 := visited[..];
    visited[start] := true;
    grown := blob + {start};
    assert visited[..] == v0[start := true];
    FillStarts(water, w, h, start, v0);
    var row := start / w;
    var col := start % w;
    ghost var s0 := visited[..];
    assert Collected(grown, blob, v0, s0);
    grown := FillNeighbour(water, visited, grown, start, start - w, row > 0, w, h, v0, blob);
    ghost var s1 := visited[..];
    grown := FillNeighbour(water, visited, grown, start, start + 1, col < w - 1, w, h, v0, blob);
    ghost var s2 := visited[..];
    grown := FillNeighbour(water, visited, grown, start, start + w, row < h - 1, w, h, v0, blob);
    ghost var s3 := visited[..];
    grown := FillNeighbour(water, visited, grown, start, start - 1, col > 0, w, h, v0, blob);
    ghost var s4 := visited[..];
    FourNeighboursDone(water, w, h, start, v0, s0, s1, s2, s3, s4);
    FillFinishes(water, w, h, start, v0, s4);
  }

  /** `grown` holds `blob` and the cells marked since `before`. */
  ghost predicate Collected(grown: set<int>, blob: set<int>, before: seq<bool>, now: seq<bool>)
  {
    forall i :: i in grown <==> i in blob || Added(before, now, i)
  }

  /** A water cell `j` is visited in `now`. */
  ghost predicate Settled(water: seq<bool>, w: int, h: int, now: seq<bool>, j: int)
  {
    IsWater(water, w, h, j) ==> 0 <= j < |now| && now[j]
  }

  /**
   * The marks around the step towards neighbour `n` of the fill from `start`:
   * when it is taken the fill is still on track and `n` is settled; when it
   * is not the marks are unchanged.
   */
  ghost predicate NeighbourDone(water: seq<bool>, w: int, h: int, start: int, v0: seq<bool>,
                                before: seq<bool>, after: seq<bool>, n: int, taken: bool)
  {
    if taken then FillPartial(water, w, h, start, v0, after) && Grows(before, after) && Settled(water, w, h, after, n)
    else after == before
  }

  lemma NeighbourDoneKeeps(water: seq<bool>, w: int, h: int, start: int, v0: seq<bool>,
                           before: seq<bool>, after: seq<bool>, n: int, taken: bool, j: int)
    requires NeighbourDone(water, w, h, start, v0, before, after, n, taken)
    requires Settled(water, w, h, before, j)
    ensures Settled(water, w, h, after, j)
  {
  }

  /** After the four neighbour steps the fill is on track and `start` is closed. */
  lemma FourNeighboursDone(water: seq<bool>, w: int, h: int, start: int, v0: seq<bool>,
                           s0: seq<bool>, s1: seq<bool>, s2: seq<bool>, s3: seq<bool>, s4: seq<bool>)
    requires w > 0 && FillPartial(water, w, h, start, v0, s0)
    requires NeighbourDone(water, w, h, start, v0, s0, s1, start - w, start / w > 0)
    requires NeighbourDone(water, w, h, start, v0, s1, s2, start + 1, start % w < w - 1)
    requires NeighbourDone(water, w, h, start, v0, s2, s3, start + w, start / w < h - 1)
    requires NeighbourDone(water, w, h, start, v0, s3, s4, start - 1, start % w > 0)
    ensures FillPartial(water, w, h, start, v0, s4)
    ensures Closed(water, w, h, s4, start)
  {
    var row, col := start / w, start % w;
    if row > 0 {
      NeighbourDoneKeeps(water, w, h, start, v0, s1, s2, start + 1, col < w - 1, start - w);
      NeighbourDoneKeeps(water, w, h, start, v0, s2, s3, start + w, row < h - 1, start - w);
      NeighbourDoneKeeps(water, w, h, start, v0, s3, s4, start - 1, col > 0, start - w);
    }
    if col < w - 1 {
      NeighbourDoneKeeps(water, w, h, start, v0, s2, s3, start + w, row < h - 1, start + 1);
      NeighbourDoneKeeps(water, w, h, start, v0, s3, s4, start - 1, col > 0, start + 1);
    }
    if row < h - 1 {
      NeighbourDoneKeeps(water, w, h, start, v0, s3, s4, start - 1, col > 0, start + w);
    }
    ClosedByFour(water, w, h, s4, start);
  }

  /** A cell whose four neighbours are settled is closed. */
  lemma ClosedByFour(water: seq<bool>, w: int, h: int, now: seq<bool>, i: int)
    requires w > 0
    requires i / w > 0 ==> Settled(water, w, h, now, i - w)
    requires i % w < w - 1 ==> Settled(water, w, h, now, i + 1)
    requires i / w < h - 1 ==> Settled(water, w, h, now, i + w)
    requires i % w > 0 ==> Settled(water, w, h, now, i - 1)
    ensures Closed(water, w, h, now, i)
  {
  }

  /**
   * One neighbour step of the fill from `start`, which began on the marks `v0`
   * with the blob `blob`: when `inGrid` holds, fill from the neighbour `n`.
   */
  method FillNeighbour(water: seq<bool>, visited: array<bool>, grown: set<int>, start: int, n: int, inGrid: bool,
                       w: int, h: int, ghost v0: seq<bool>, ghost blob: set<int>)
    returns (grown': set<int>)
    requires w > 0 && visited.Length == |water| && (inGrid ==> Neighbour(w, h, start, n))
    requires FillPartial(water, w, h, start, v0, visited[..])
    requires Collected(grown, blob, v0, visited[..])
    modifies visited
    ensures FillPartial(water, w, h, start, v0, visited[..])
    ensures NeighbourDone(water, w, h, start, v0, old(visited[..]), visited[..], n, inGrid)
    ensures Collected(grown', blob, v0, visited[..])
    decreases CountFalse(v0), 0
  {
    if inGrid {
      FillPartialCount(water, w, h, start, v0, visited[..]);
      ghost var x := visited[..];
      grown' := FloodFill(water, visited, grown, n, w, h);
      FillStep(water, w, h, start, n, v0, x, visited[..]);
    } else {
      grown' := grown;
    }
  }

  // ---------------------------------------------------------------- all blobs

  /** `c` lies in one of the blobs. */
  ghost predicate InSome(blobs: seq<set<int>>, c: int)
  {
    exists n :: 0 <= n < |blobs| && c in blobs[n]
  }

  lemma InSomeSnoc(blobs: seq<set<int>>, b: set<int>, c: int)
    ensures InSome(blobs + [b], c) <==> InSome(blobs, c) || c in b
  {
    if InSome(blobs, c) {
      var n :| 0 <= n < |blobs| && c in blobs[n];
      assert (blobs + [b])[n] == blobs[n];
    }
    if c in b {
      assert (blobs + [b])[|blobs|] == b;
    }
  }

  /**
   * When every visited cell was closed before a fill from `seed`, the cells
   * the fill adds are exactly the area of `seed`.
   */
  lemma AddedIsArea(water: seq<bool>, w: int, h: int, seed: int, before: seq<bool>, after: seq<bool>, c: int)
    requires FillDone(water, w, h, seed, before, after) && IsWater(water, w, h, seed) && !before[seed]
    requires forall i :: 0 <= i < |before| && before[i] ==> IsWater(water, w, h, i) && Closed(water, w, h, before, i)
    ensures Added(before, after, c) <==> Reachable(water, w, h, seed, c)
  {
    if Reachable(water, w, h, seed, c) {
      var p :| IsWalk(water, w, h, p) && p[0] == seed && p[|p| - 1] == c;
      WalkAdded(water, w, h, seed, before, after, p, |p| - 1);
    }
  }

  lemma {:induction false} WalkAdded(water: seq<bool>, w: int, h: int, seed: int, before: seq<bool>, after: seq<bool>, p: seq<int>, k: nat)
    requires FillDone(water, w, h, seed, before, after) && IsWater(water, w, h, seed) && !before[seed]
    requires forall i :: 0 <= i < |before| && before[i] ==> IsWater(water, w, h, i) && Closed(water, w, h, before, i)
    requires IsWalk(water, w, h, p) && p[0] == seed && k < |p|
    ensures Added(before, after, p[k])
    decreases k
  {
    if k > 0 {
      WalkAdded(water, w, h, seed, before, after, p, k - 1);
      var a, b := p[k - 1], p[k];
      assert Neighbour(w, h, a, b) && IsWater(water, w, h, b);
      NeighbourGeometry(w, h, a, b);
      assert !before[b];
    }
  }

  /** The state of the blob search after the cells below `i`. */
  ghost predicate SearchState(water: seq<bool>, w: int, h: int, i: int, visited: seq<bool>, blobs: seq<set<int>>, seeds: seq<int>)
  {
    |visited| == |water| && |seeds| == |blobs|
    && (forall c :: 0 <= c < |water| && visited[c] ==> IsWater(water, w, h, c) && Closed(water, w, h, visited, c))
    && (forall c :: 0 <= c < i && IsWater(water, w, h, c) ==> visited[c])
    && (forall c :: (0 <= c < |water| && visited[c]) <==> InSome(blobs, c))
    && (forall n :: 0 <= n < |blobs| ==> seeds[n] in blobs[n])
    && (forall n, c :: 0 <= n < |blobs| ==> (c in blobs[n] <==> Reachable(water, w, h, seeds[n], c)))
    && (forall m, n :: 0 <= m < n < |blobs| ==> blobs[m] !! blobs[n])
  }

  /** A fill from the unvisited water cell `i` adds the area of `i` as a new blob. */
  lemma SearchStep(water: seq<bool>, w: int, h: int, i: int, before: seq<bool>, after: seq<bool>,
                   blobs: seq<set<int>>, seeds: seq<int>, blob: set<int>)
    requires SearchState(water, w, h, i, before, blobs, seeds)
    requires IsWater(water, w, h, i) && !before[i]
    requires FillDone(water, w, h, i, before, after)
    requires forall c :: c in blob <==> Added(before, after, c)
    ensures i in blob
    ensures SearchState(water, w, h, i + 1, after, blobs + [blob], seeds + [i])
  {
    StepMarks(water, w, h, i, before, after);
    StepBlobs(water, w, h, i, before, after, blobs, seeds, blob);
    forall c ensures c in blob <==> Reachable(water, w, h, i, c) {
      AddedIsArea(water, w, h, i, before, after, c);
    }
    StepSeeds(water, w, h, i, blobs, seeds, blob);
  }

  /** The new blob is the area of its seed `i`, next to the earlier blobs and their seeds. */
  lemma StepSeeds(water: seq<bool>, w: int, h: int, i: int, blobs: seq<set<int>>, seeds: seq<int>, blob: set<int>)
    requires |seeds| == |blobs|
    requires forall n :: 0 <= n < |blobs| ==> seeds[n] in blobs[n]
    requires forall n, c :: 0 <= n < |blobs| ==> (c in blobs[n] <==> Reachable(water, w, h, seeds[n], c))
    requires i in blob && forall c :: c in blob <==> Reachable(water, w, h, i, c)
    ensures forall n :: 0 <= n < |blobs| + 1 ==> (seeds + [i])[n] in (blobs + [blob])[n]
    ensures forall n, c :: 0 <= n < |blobs| + 1 ==> (c in (blobs + [blob])[n] <==> Reachable(water, w, h, (seeds + [i])[n], c))
  {
    var bs, ss := blobs + [blob], seeds + [i];
    assert forall n :: 0 <= n < |blobs| ==> bs[n] == blobs[n] && ss[n] == seeds[n];
    assert bs[|blobs|] == blob && ss[|blobs|] == i;
  }

  /** After the fill, marked cells are closed water cells and every water cell up to `i` is marked. */
  lemma StepMarks(water: seq<bool>, w: int, h: int, i: int, before: seq<bool>, after: seq<bool>)
    requires |before| == |water|
    requires forall c :: 0 <= c < |water| && before[c] ==> IsWater(water, w, h, c) && Closed(water, w, h, before, c)
    requires forall c :: 0 <= c < i && IsWater(water, w, h, c) ==> before[c]
    requires IsWater(water, w, h, i) && FillDone(water, w, h, i, before, after)
    ensures forall c :: 0 <= c < |water| && after[c] ==> IsWater(water, w, h, c) && Closed(water, w, h, after, c)
    ensures forall c :: 0 <= c < i + 1 && IsWater(water, w, h, c) ==> after[c]
  {
    forall c | 0 <= c < |water| && after[c] ensures IsWater(water, w, h, c) && Closed(water, w, h, after, c) {
      if before[c] {
        assert Closed(water, w, h, before, c);
      } else {
        assert Added(before, after, c);
      }
    }
  }

  /** The new blob is disjoint from the earlier ones, and the marked cells are those of all blobs. */
  lemma StepBlobs(water: seq<bool>, w: int, h: int, i: int, before: seq<bool>, after: seq<bool>,
                  blobs: seq<set<int>>, seeds: seq<int>, blob: set<int>)
    requires |before| == |water| && Grows(before, after)
    requires forall c :: (0 <= c < |water| && before[c]) <==> InSome(blobs, c)
    requires forall m, n :: 0 <= m < n < |blobs| ==> blobs[m] !! blobs[n]
    requires forall c :: c in blob <==> Added(before, after, c)
    ensures forall c :: (0 <= c < |water| && after[c]) <==> InSome(blobs + [blob], c)
    ensures forall m, n :: 0 <= m < n < |blobs| + 1 ==> (blobs + [blob])[m] !! (blobs + [blob])[n]
  {
    forall c | InSome(blobs, c) ensures c !in blob {
      assert 0 <= c < |water| && before[c];
    }
    forall c ensures InSome(blobs + [blob], c) <==> InSome(blobs, c) || c in blob {
      InSomeSnoc(blobs, blob, c);
    }
    forall m | 0 <= m < |blobs| ensures blobs[m] !! blob {
      forall c | c in blobs[m] ensures c !in blob {
        assert InSome(blobs, c);
      }
    }
    var bs := blobs + [blob];
    assert forall n :: 0 <= n < |blobs| ==> bs[n] == blobs[n];
  }

  /** Cells that are not fresh water leave the search as it is. */
  lemma SearchSkip(water: seq<bool>, w: int, h: int, i: int, visited: seq<bool>, blobs: seq<set<int>>, seeds: seq<int>)
    requires SearchState(water, w, h, i, visited, blobs, seeds) && 0 <= i < |water|
    requires !IsWater(water, w, h, i) || visited[i]
    ensures SearchState(water, w, h, i + 1, visited, blobs, seeds)
  {
  }

  /**
   * `findConnectedWaterBlobs`: a flood fill from every unvisited water cell
   * with index below both the array length and `w * h`. The blobs are
   * disjoint, together cover exactly the water cells, and each one is the
   * whole 4-connected area of its seed cell.
   */
  method FindConnectedWaterBlobs(water: seq<bool>, w: int, h: int) returns (blobs: seq<set<int>>, ghost seeds: seq<int>)
    requires w > 0
    ensures |seeds| == |blobs|
    ensures forall n :: 0 <= n < |blobs| ==> seeds[n] in blobs[n]
    ensures forall n, c :: 0 <= n < |blobs| ==> (c in blobs[n] <==> Reachable(water, w, h, seeds[n], c))
    ensures forall m, n :: 0 <= m < n < |blobs| ==> blobs[m] !! blobs[n]
    ensures forall c :: IsWater(water, w, h, c) <==> InSome(blobs, c)
  {
    var visited := new bool[|water|](i => false);
    blobs := [];
    seeds := [];
    var i := 0;
    while i < |water| && i < w * h
      invariant 0 <= i <= |water| && visited.Length == |water|
      invariant SearchState(water, w, h, i, visited[..], blobs, seeds)
    {
      if water[i] && !visited[i] {
        ghost var before := visited[..];
        var blob := FloodFill(water, visited, {}, i, w, h);
        SearchStep(water, w, h, i, before, visited[..], blobs, seeds, blob);
        if blob != {} {
          blobs := blobs + [blob];
          seeds := seeds + [i];
        }
      } else {
        SearchSkip(water, w, h, i, visited[..], blobs, seeds);
      }
      i := i + 1;
    }
  }
}
