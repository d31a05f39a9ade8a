/**
 * Ground: the strip of ground tiles that scrolls left under the bird.
 * Tiles are kept as their x positions; a tile that has scrolled a whole
 * scene width past the origin is moved to the right of its ring
 * neighbour.  The tiles are updated one after another in index order,
 * in place.
 */
module Ground {
  import opened Tuning

  /**
   * A tile's new x: one scroll step left, unless that takes it past
   * -width, in which case it goes one tile width (less the seam
   * correction) right of the x its neighbour has at that moment.
   */
  function Placed(x: real, neighbour: real, width: real): real
  {
    if x - SPEED < -width then neighbour + width - SEAM_FUDGE else x - SPEED
  }

  /**
   * One frame of the strip.  Every tile moves SPEED left, unless that
   * takes it past -width: then it goes one tile width, less the seam
   * correction, right of its ring neighbour.  Every tile but the last
   * sees its right neighbour before that neighbour has moved this frame;
   * the last tile's neighbour is tile 0, which has already moved (or, in
   * a strip of one tile, the tile itself after its scroll step).
   */
  function RingStep(xs: seq<real>, width: real): (r: seq<real>)
    ensures |r| == |xs|
  {
    if |xs| == 0 then []
    else
      var n := |xs|;
      var front := seq(n - 1, i requires 0 <= i < n - 1 => Placed(xs[i], xs[i + 1], width));
      var last := if n == 1 then xs[0] - SPEED else front[0];
      front + [Placed(xs[n - 1], last, width)]
  }

  /**
   * The frame tile by tile: a tile that one scroll step does not take
   * past -width moves exactly SPEED left; one that it does lands a tile
   * width, less the seam correction, right of its ring neighbour, which
   * is the next tile as it was before the frame, or for the last tile
   * tile 0 as it is after the frame (the tile itself, scrolled, in a
   * strip of one).
   */
  lemma RingStepTiles(xs: seq<real>, width: real)
    ensures forall i :: 0 <= i < |xs| && xs[i] - SPEED >= -width ==> RingStep(xs, width)[i] == xs[i] - SPEED
    ensures forall i :: 0 <= i < |xs| - 1 && xs[i] - SPEED < -width ==> RingStep(xs, width)[i] == xs[i + 1] + width - SEAM_FUDGE
    ensures |xs| > 1 && xs[|xs| - 1] - SPEED < -width ==> RingStep(xs, width)[|xs| - 1] == RingStep(xs, width)[0] + width - SEAM_FUDGE
    ensures |xs| == 1 && xs[0] - SPEED < -width ==> RingStep(xs, width)[0] == xs[0] - SPEED + width - SEAM_FUDGE
  {
  }

  /** Tile i of the strip after one frame, as the loop computes it. */
  lemma RingStepAt(xs: seq<real>, width: real, i: nat)
    requires i < |xs|
    ensures RingStep(xs, width)[i] ==
      if i + 1 < |xs| then Placed(xs[i], xs[i + 1], width)
      else if i == 0 then Placed(xs[0], xs[0] - SPEED, width)
      else Placed(xs[i], RingStep(xs, width)[0], width)
  {
  }

  /** The loop over the tiles, in index order, updating each tile in place. */
  method ScrollRing(tiles: array<real>, width: real)
    modifies tiles
    ensures tiles[..] == RingStep(old(tiles[..]), width)
  {
    ghost var before := tiles[..];
    ghost var after := RingStep(before, width);
    var n := tiles.Length;
    var i := 0;
    while i < n
      invariant 0 <= i <= n
      invariant forall j :: 0 <= j < i ==> tiles[j] == after[j]
      invariant forall j :: i <= j < n ==> tiles[j] == before[j]
    {
      RingStepAt(before, width, i);
      tiles[i] := tiles[i] - SPEED;
      if tiles[i] < -width {
        var next := i + 1;
        if next == n {
          next := 0;
        }
        tiles[i] := tiles[next] + width - SEAM_FUDGE;
      }
      i := i + 1;
    }
  }

  // ---------------------------------------------------------------------
  // Seams of the two-tile strip the game builds

  /**
   * The two tiles lie side by side with no gap wider than SPEED -
   * SEAM_FUDGE and no overlap wider than SEAM_FUDGE, and the left tile has
   * not yet scrolled past -width.  Three placements occur: the initial
   * one (exactly one width apart), the one after tile 0 jumped (tile 0 to
   * the right, a width plus 0.05 apart, because tile 0 was placed against
   * tile 1's position before tile 1 moved), and the one after tile 1
   * jumped (tile 1 to the right, overlapping by the seam correction).
   */
  predicate Seamless(xs: seq<real>, width: real)
  {
    |xs| == 2 &&
    ((xs[0] >= -width && (xs[1] - xs[0] == width || xs[1] - xs[0] == width - SEAM_FUDGE)) ||
     (xs[1] >= -width && xs[0] - xs[1] == width + SPEED - SEAM_FUDGE))
  }

  /** The strip as the game sets it up: tile 0 at the origin, tile 1 one width to its right. */
  lemma InitialSeamless(width: real)
    requires width >= 0.0
    ensures Seamless([0.0, width], width)
  {
  }

  /**
   * One frame keeps the strip seamless, as long as a tile is wider than
   * one scroll step plus the seam correction (so the two tiles never jump
   * in the same frame).
   */
  lemma SeamPreserved(xs: seq<real>, width: real)
    requires width >= SPEED + SEAM_FUDGE
    requires Seamless(xs, width)
    ensures Seamless(RingStep(xs, width), width)
  {
    var r := RingStep(xs, width);
    assert r[0] == Placed(xs[0], xs[1], width);
    assert r[1] == Placed(xs[1], r[0], width);
  }

  /** The strip after a number of frames. */
  function Frames(xs: seq<real>, width: real, count: nat): (r: seq<real>)
    ensures |r| == |xs|
  {
    if count == 0 then xs else RingStep(Frames(xs, width, count - 1), width)
  }

  /**
   * However long the ground scrolls, the two tiles stay within SPEED -
   * SEAM_FUDGE of touching on one side and SEAM_FUDGE on the other.
   */
  lemma {:induction false} SeamlessForever(width: real, count: nat)
    requires width >= SPEED + SEAM_FUDGE
    ensures Seamless(Frames([0.0, width], width, count), width)
    ensures var r := Frames([0.0, width], width, count);
      width - SEAM_FUDGE <= (if r[1] >= r[0] then r[1] - r[0] else r[0] - r[1]) <= width + SPEED - SEAM_FUDGE
  {
    if count == 0 {
      InitialSeamless(width);
    } else {
      SeamlessForever(width, count - 1);
      SeamPreserved(Frames([0.0, width], width, count - 1), width);
    }
  }
}
