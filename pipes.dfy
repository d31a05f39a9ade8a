/**
 * Pipes: one pipe node as a value, what the spawner's sweep and one frame
 * do to it (scroll, collision test, pass-through scoring), the frame over
 * a sequence of pipes, and the exactly-once scoring rule.
 */
module Pipes {
  import opened Tuning

  /** The sprite a pipe was built with; a pipe keeps it for life. */
  datatype PipeName = Top | Bottom

  /** An axis-aligned box in scene coordinates (the x and y extent of a world bounding box). */
  datatype Box = Box(minX: real, maxX: real, minY: real, maxY: real)

  /** Closed boxes overlap when they overlap on both axes. */
  predicate Intersects(a: Box, b: Box)
  {
    !(b.maxX < a.minX || b.minX > a.maxX || b.maxY < a.minY || b.minY > a.maxY)
  }

  /**
   * Where a pipe's box lies relative to the pipe's position: the sprite
   * has a fixed size, so its box is the position plus fixed offsets.
   */
  datatype Extent = Extent(left: real, right: real, below: real, above: real)

  /** The box of a pipe at (x, y). */
  function PipeBox(e: Extent, x: real, y: real): Box
  {
    Box(x - e.left, x + e.right, y - e.below, y + e.above)
  }

  /** Everything a frame can read or change about one pipe. */
  datatype PipeState = PipeState(name: PipeName, x: real, y: real, alive: bool, passed: bool, velocity: real)

  // ---------------------------------------------------------------------
  // The spawner's sweep

  /** An alive pipe whose right edge has passed the left edge of the scene. */
  predicate OffScreen(s: PipeState, left: real)
  {
    s.alive && s.x + PIPE_WIDTH < left
  }

  /** What the sweep does to one pipe: an off-screen pipe is killed, any other is left as it is. */
  function Swept(s: PipeState, left: real): (t: PipeState)
    ensures t.alive <==> s.alive && !OffScreen(s, left)
    ensures t == s.(alive := t.alive)
  {
    if OffScreen(s, left) then s.(alive := false) else s
  }

  // ---------------------------------------------------------------------
  // One frame of the alive pipes

  /** What one frame did to one pipe: its new state, whether it hit the bird, whether it scored. */
  datatype Outcome = Outcome(pipe: PipeState, hit: bool, scored: bool)

  /**
   * One frame for one pipe: an alive pipe first moves by its velocity,
   * then is tested against the bird's box at its new place; a pipe that
   * hit scores nothing, otherwise a bottom pipe not yet passed that is now
   * left of the bird is marked passed and scores.  A dead pipe is skipped.
   */
  function Advance(s: PipeState, birdX: real, birdBox: Box, pipeExtent: Extent): (o: Outcome)
    ensures o.pipe == s.(x := o.pipe.x, passed := o.pipe.passed)
    ensures o.pipe.x == if s.alive then s.x + s.velocity else s.x
    ensures o.hit <==> s.alive && Intersects(PipeBox(pipeExtent, s.x + s.velocity, s.y), birdBox)
    ensures o.scored <==> s.alive && !o.hit && s.name == Bottom && !s.passed && s.x + s.velocity < birdX
    ensures o.pipe.passed <==> s.passed || o.scored
  {
    if !s.alive then Outcome(s, false, false)
    else
      var moved := s.(x := s.x + s.velocity);
      if Intersects(PipeBox(pipeExtent, moved.x, moved.y), birdBox) then Outcome(moved, true, false)
      else if moved.name == Bottom && !moved.passed && moved.x < birdX then Outcome(moved.(passed := true), false, true)
      else Outcome(moved, false, false)
  }

  /** What one frame did to all pipes: their new states, the points gained, whether any pipe hit the bird. */
  datatype FrameResult = FrameResult(pipes: seq<PipeState>, gained: nat, hit: bool)

  /**
   * One frame over the pipe group, in group order.  Each pipe's new state
   * depends on that pipe alone: a hit does not stop the later pipes from
   * moving or scoring.
   */
  function Scan(ss: seq<PipeState>, birdX: real, birdBox: Box, pipeExtent: Extent): (r: FrameResult)
    ensures |r.pipes| == |ss|
    ensures forall i :: 0 <= i < |ss| ==> r.pipes[i] == Advance(ss[i], birdX, birdBox, pipeExtent).pipe
    ensures r.hit <==> exists i :: 0 <= i < |ss| && Advance(ss[i], birdX, birdBox, pipeExtent).hit
    ensures r.gained <= |ss|
  {
    if ss == [] then FrameResult([], 0, false)
    else
      var n := |ss| - 1;
      var front := Scan(ss[..n], birdX, birdBox, pipeExtent);
      var o := Advance(ss[n], birdX, birdBox, pipeExtent);
      FrameResult(front.pipes + [o.pipe], front.gained + (if o.scored then 1 else 0), front.hit || o.hit)
  }

  /** An alive bottom pipe that has not been passed yet: the only kind that can still score. */
  predicate Unpassed(s: PipeState)
  {
    s.alive && s.name == Bottom && !s.passed
  }

  /** How many pipes can still score. */
  function CountUnpassed(ss: seq<PipeState>): nat
  {
    if ss == [] then 0
    else CountUnpassed(ss[..|ss| - 1]) + (if Unpassed(ss[|ss| - 1]) then 1 else 0)
  }

  /**
   * Exactly-once scoring over one frame: every point gained uses up one
   * pipe that could still score, so points gained plus pipes still able
   * to score is the same before and after the frame.
   */
  lemma {:induction false} ScanConservesScore(ss: seq<PipeState>, birdX: real, birdBox: Box, pipeExtent: Extent)
    ensures Scan(ss, birdX, birdBox, pipeExtent).gained + CountUnpassed(Scan(ss, birdX, birdBox, pipeExtent).pipes) == CountUnpassed(ss)
  {
    if ss != [] {
      var n := |ss| - 1;
      var r := Scan(ss, birdX, birdBox, pipeExtent);
      var front := Scan(ss[..n], birdX, birdBox, pipeExtent);
      ScanConservesScore(ss[..n], birdX, birdBox, pipeExtent);
      assert r.pipes[..n] == front.pipes;
    }
  }

  /** The bird's x and box during one frame. */
  datatype Frame = Frame(birdX: real, birdBox: Box)

  /** One pipe over a run of frames: its final state and how many times it scored. */
  function Replay(s: PipeState, frames: seq<Frame>, pipeExtent: Extent): (PipeState, nat)
  {
    if frames == [] then (s, 0)
    else
      var n := |frames| - 1;
      var (before, count) := Replay(s, frames[..n], pipeExtent);
      var o := Advance(before, frames[n].birdX, frames[n].birdBox, pipeExtent);
      (o.pipe, count + (if o.scored then 1 else 0))
  }

  /**
   * A pipe scores at most once however many frames it lives through; a
   * top pipe or one already passed never scores; a pipe that scored ends
   * up passed.
   */
  lemma {:induction false} ScoresAtMostOnce(s: PipeState, frames: seq<Frame>, pipeExtent: Extent)
    ensures Replay(s, frames, pipeExtent).1 <= 1
    ensures s.name == Top || s.passed ==> Replay(s, frames, pipeExtent).1 == 0
    ensures Replay(s, frames, pipeExtent).1 == 1 ==> Replay(s, frames, pipeExtent).0.passed
    ensures Replay(s, frames, pipeExtent).0.passed ==> s.passed || Replay(s, frames, pipeExtent).1 == 1
    ensures Replay(s, frames, pipeExtent).0.name == s.name
    ensures s.passed ==> Replay(s, frames, pipeExtent).0.passed
  {
    if frames != [] {
      ScoresAtMostOnce(s, frames[..|frames| - 1], pipeExtent);
    }
  }
}
