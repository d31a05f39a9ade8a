/**
 * Tuning constants of the game and the pure arithmetic that the
 * simulation uses inline: where a pipe is placed relative to the gap
 * centre, where the gap centre falls, how the bird tilts, and where the
 * ground line sits.  All quantities are exact reals; the game's
 * floating-point rounding is not modelled.
 */
module Tuning {

  /** Horizontal scroll per frame of pipes and ground tiles. */
  const SPEED: real := 1.6
  /** Downward acceleration applied to the bird's velocity. */
  const GRAVITY: real := 1100.0
  /** Upward velocity a flap gives the bird. */
  const FLAP: real := 320.0
  /** Period of the pipe spawner, in milliseconds. */
  const SPAWN_RATE: nat := 2600
  /** Vertical distance between the inner edges of a pipe pair. */
  const OPENING: real := 120.0
  /** Height of the visible ground strip above the screen's bottom. */
  const GROUND_HEIGHT: real := 64.0

  /** Sprite size of every pipe. */
  const PIPE_WIDTH: real := 52.0
  const PIPE_HEIGHT: real := 320.0
  /** How far right of the visible scene a pipe is spawned. */
  const SPAWN_MARGIN: real := 26.0
  /** Correction subtracted when a ground tile is moved to the right end of the strip. */
  const SEAM_FUDGE: real := 1.55
  /** Height of a ground tile as a fraction of the scene width. */
  const GROUND_ASPECT: real := 0.333333333
  /** The bird's fixed horizontal anchor, as a fraction of the scene width. */
  const PLAYER_ANCHOR: real := -0.3

  /** Math.PI, as the decimal that the double literal denotes to 16 digits. */
  const PI: real := 3.141592653589793

  /** Bird tilt limits: straight down and 45 degrees up. */
  const MIN_ANGLE: real := -PI / 2.0
  const MAX_ANGLE: real := PI / 4.0

  /** The vertical distance between the top pipe's y and the bottom pipe's y of one pair. */
  const PAIR_SPAN: int := 440

  /**
   * Vertical position of a pipe of a pair whose gap is centred at
   * openPos: the flipped (bottom) pipe sits a whole pipe height plus half
   * the opening below the centre, the top pipe half the opening above it,
   * both rounded down to a whole number.
   */
  function PipeY(openPos: real, flipped: bool): (r: int)
    ensures flipped ==> r as real <= openPos - OPENING / 2.0 - PIPE_HEIGHT < r as real + 1.0
    ensures !flipped ==> r as real <= openPos + OPENING / 2.0 < r as real + 1.0
  {
    if flipped then (openPos - OPENING / 2.0 - 320.0).Floor
    else (openPos + OPENING / 2.0).Floor
  }

  /**
   * The two pipes of a pair are always exactly OPENING + PIPE_HEIGHT
   * apart, whatever the gap centre: rounding down cannot split them
   * unevenly because that distance is a whole number.
   */
  lemma PairSpan(openPos: real)
    ensures PipeY(openPos, false) - PipeY(openPos, true) == PAIR_SPAN
    ensures PAIR_SPAN as real == OPENING + PIPE_HEIGHT
  {
  }

  /**
   * Gap centre for a scene of the given height and a random sample r:
   * the middle of the scene shifted by up to a tenth of its height either
   * way.
   */
  function GapCentre(height: real, r: real): (c: real)
    requires 0.0 <= r < 1.0
    ensures height >= 0.0 ==> height / 2.0 - height / 10.0 <= c <= height / 2.0 + height / 10.0
    ensures height > 0.0 ==> c < height / 2.0 + height / 10.0
  {
    var shift := (r - 0.5) * height * 0.2;
    ShiftBound(r - 0.5, height);
    height / 2.0 + shift
  }

  /** A sample offset in [-1/2, 1/2) scales a non-negative height by at most a half. */
  lemma ShiftBound(d: real, height: real)
    requires -0.5 <= d < 0.5
    ensures height >= 0.0 ==> -height * 0.1 <= d * height * 0.2 <= height * 0.1
    ensures height > 0.0 ==> d * height * 0.2 < height * 0.1
  {
    if height >= 0.0 {
      assert d * height <= 0.5 * height;
      assert -0.5 * height <= d * height;
    }
  }

  /**
   * Tilt of a bird that is above the ground: the velocity relative to a
   * flap, confined to the range from straight down to 45 degrees up.
   */
  function TiltAngle(velocity: real): (a: real)
    ensures MIN_ANGLE <= a <= MAX_ANGLE
    ensures MIN_ANGLE <= (FLAP + velocity) / FLAP <= MAX_ANGLE ==> a == (FLAP + velocity) / FLAP
    ensures (FLAP + velocity) / FLAP < MIN_ANGLE ==> a == MIN_ANGLE
    ensures (FLAP + velocity) / FLAP > MAX_ANGLE ==> a == MAX_ANGLE
  {
    Min(MAX_ANGLE, Max(MIN_ANGLE, (FLAP + velocity) / FLAP))
  }

  function Min(a: real, b: real): real { if a <= b then a else b }
  function Max(a: real, b: real): real { if a >= b then a else b }

  /**
   * The ground line: the top edge of a ground strip that is a third of
   * the scene width tall and shows GROUND_HEIGHT of itself above the
   * bottom of the scene.  The tile height cancels out.
   */
  function GroundTop(width: real, height: real): (top: real)
    ensures top == GROUND_HEIGHT / 2.0 - height / 2.0
  {
    var tileHeight := width * GROUND_ASPECT;
    var centreY := (height + (tileHeight - GROUND_HEIGHT)) * -0.5;
    centreY + tileHeight / 2.0
  }
}
