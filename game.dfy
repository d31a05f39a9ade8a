/**
 * The game component: the bird, the score, the started/over flags, the
 * pipe nodes with the group and the two dead lists, the ground strip and
 * the spawn timers, with the operations the frame driver, the spawn timer
 * and the touch handler call.
 */
module Flappy {
  import opened Tuning
  import opened Pipes
  import opened PipePool
  import Ground

  /** The velocity after gravity has acted for delta seconds. */
  function Pulled(velocity: real, delta: real): real
  {
    velocity - GRAVITY * delta
  }

  /** A height after moving at the given velocity for delta seconds. */
  function Travelled(y: real, velocity: real, delta: real): real
  {
    y + velocity * delta
  }

  class Game {
    /** Scene geometry, supplied by the renderer at setup. */
    const width: real
    const height: real
    const boundsLeft: real
    const boundsRight: real
    /** The ground line: the bird is on the ground when its y is at or below it. */
    const groundTop: real
    /** x positions of the ground tiles. */
    const ground: array<real>

    var started: bool
    var over: bool
    /** The misspelled flag that reset writes; nothing reads it. */
    var gameover: bool
    var score: nat
    var velocity: real
    var playerX: real
    var playerY: real
    var angle: real

    /** Every pipe node ever built, by id. */
    var nodes: seq<PipeState>
    /** The ids of the pipe group's members, in the order they were added. */
    var pipes: seq<nat>
    /** Ids of killed pipes kept for reuse, one list per orientation; the last one is reused first. */
    var deadTops: seq<nat>
    var deadBottoms: seq<nat>

    /** Ids of the spawn timers that are running. */
    var intervals: set<nat>
    /** Id of the last spawn timer started; 0 before any was. */
    var pillarInterval: nat
    /** Id the next timer will get; ids start at 1. */
    var nextInterval: nat

    /**
     * The pool invariant over the pipe fields; timer ids are positive and
     * below the next one to be handed out.
     */
    ghost predicate Valid()
      reads this
    {
      && Invariant(Pool(nodes, pipes, deadTops, deadBottoms))
      && 0 < nextInterval && pillarInterval < nextInterval
      && (forall id :: id in intervals ==> 0 < id < nextInterval)
    }

    /** The component's initial fields, then scene setup: two ground tiles, the bird, and a reset. */
    constructor (width: real, height: real, boundsLeft: real, boundsRight: real)
      ensures Valid() && fresh(ground)
      ensures this.width == width && this.height == height
      ensures this.boundsLeft == boundsLeft && this.boundsRight == boundsRight
      ensures groundTop == GroundTop(width, height) && ground[..] == [0.0, width]
      ensures !started && !over && !gameover && score == 0 && velocity == 0.0
      ensures playerX == width * PLAYER_ANCHOR && playerY == 0.0 && angle == 0.0
      ensures nodes == [] && pipes == [] && deadTops == [] && deadBottoms == []
      ensures intervals == {} && pillarInterval == 0 && nextInterval == 1
    {
      this.width := width;
      this.height := height;
      this.boundsLeft := boundsLeft;
      this.boundsRight := boundsRight;
      groundTop := GroundTop(width, height);
      ground := new real[2] [0.0, width];
      nodes, pipes, deadTops, deadBottoms := [], [], [], [];
      score := 0;
      over, started := false, false;
      velocity := 0.0;
      intervals, pillarInterval, nextInterval := {}, 0, 1;
      new;
      Reset();
    }

    /** Game over: latch the flag and stop the last spawn timer started. */
    method SetGameOver()
      modifies this`over, this`intervals
      ensures over && intervals == old(intervals) - {pillarInterval}
    {
      over := true;
      intervals := intervals - {pillarInterval};
    }

    method AddScore()
      modifies this`score
      ensures score == old(score) + 1
    {
      score := score + 1;
    }

    /**
     * Back to the idle state: not started, score 0, bird at its anchor and
     * level, pipe group emptied.  The killed pipes stay in the dead lists
     * and over is not cleared (reset writes the misspelled gameover).
     */
    method Reset()
      requires Valid()
      modifies this`started, this`gameover, this`score, this`playerX, this`playerY, this`angle, this`pipes
      ensures Valid()
      ensures !started && !gameover && score == 0
      ensures playerX == width * PLAYER_ANCHOR && playerY == 0.0 && angle == 0.0
      ensures pipes == []
    {
      started := false;
      gameover := false;
      score := 0;
      playerX, playerY := width * PLAYER_ANCHOR, 0.0;
      angle := 0.0;
      pipes := [];
    }

    /**
     * A touch.  The first touch after a reset starts the game and a new
     * spawn timer; then a bird that is not over flaps, and a game that is
     * over is reset (which leaves it over, and started again false).
     */
    method Tap()
      requires Valid()
      modifies this
      ensures Valid()
      ensures over == old(over) && nodes == old(nodes) && deadTops == old(deadTops) && deadBottoms == old(deadBottoms)
      ensures !old(started) ==>
        && nextInterval == old(nextInterval) + 1 && pillarInterval == old(nextInterval)
        && intervals == old(intervals) + {pillarInterval} && pillarInterval !in old(intervals)
      ensures old(started) ==>
        nextInterval == old(nextInterval) && pillarInterval == old(pillarInterval) && intervals == old(intervals)
      ensures !old(over) ==>
        && started && velocity == FLAP && score == old(score) && pipes == old(pipes) && gameover == old(gameover)
        && playerX == old(playerX) && playerY == old(playerY) && angle == old(angle)
      ensures old(over) ==>
        && !started && !gameover && score == 0 && pipes == [] && velocity == old(velocity)
        && playerX == width * PLAYER_ANCHOR && playerY == 0.0 && angle == 0.0
    {
      if !started {
        started := true;
        pillarInterval := nextInterval;
        intervals := intervals + {nextInterval};
        nextInterval := nextInterval + 1;
      }
      if !over {
        velocity := FLAP;
      } else {
        Reset();
      }
    }

    // -------------------------------------------------------------------
    // The spawner

    /**
     * The sweep over the group: every alive member whose right edge is
     * left of the scene is killed and its id pushed onto the dead list of
     * its orientation.
     */
    method SweepOffScreen()
      requires InRange(nodes, pipes)
      modifies this`nodes, this`deadTops, this`deadBottoms
      ensures Pool(nodes, pipes, deadTops, deadBottoms) == Sweep(old(Pool(nodes, pipes, deadTops, deadBottoms)), boundsLeft)
    {
      var i := 0;
      while i < |pipes|
        invariant 0 <= i <= |pipes|
        invariant Pool(nodes, pipes, deadTops, deadBottoms) == SweepAll(old(Pool(nodes, pipes, deadTops, deadBottoms)), pipes[..i], boundsLeft)
      {
        assert pipes[..i + 1][..i] == pipes[..i];
        Retire(pipes[i]);
        i := i + 1;
      }
      assert pipes[..i] == pipes;
    }

    /**
     * The sweep's callback for one pipe: an alive pipe past the left edge
     * is killed and pushed onto the dead list named like it.
     */
    method Retire(id: nat)
      requires id < |nodes|
      modifies this`nodes, this`deadTops, this`deadBottoms
      ensures Pool(nodes, pipes, deadTops, deadBottoms) == Cull(old(Pool(nodes, pipes, deadTops, deadBottoms)), id, boundsLeft)
    {
      var p := nodes[id];
      if p.alive && p.x + PIPE_WIDTH < boundsLeft {
        nodes := nodes[id := p.(alive := false)];
        if p.name == Top {
          deadTops := deadTops + [id];
        }
        if p.name == Bottom {
          deadBottoms := deadBottoms + [id];
        }
      }
    }

    /**
     * Spawn one pipe of a pair whose gap is centred at openPos, named by
     * flipped, at its pair height just right of the scene (see Spawn).
     */
    method SpawnPipe(openPos: real, flipped: bool) returns (id: nat)
      requires Valid()
      modifies this`nodes, this`pipes, this`deadTops, this`deadBottoms
      ensures Valid()
      ensures (Pool(nodes, pipes, deadTops, deadBottoms), id)
        == Spawn(old(Pool(nodes, pipes, deadTops, deadBottoms)), if flipped then Bottom else Top,
                 PipeY(openPos, flipped) as real, boundsRight + SPAWN_MARGIN)
    {
      var pipeY := PipeY(openPos, flipped);
      var key := if flipped then Bottom else Top;
      var end := boundsRight + SPAWN_MARGIN;
      var p: PipeState;
      if |deadTops| > 0 && key == Top {
        id := deadTops[|deadTops| - 1];
        deadTops := deadTops[..|deadTops| - 1];
        p := nodes[id].(alive := true);
        p := p.(x := end, y := pipeY as real);
      } else if |deadBottoms| > 0 && key == Bottom {
        id := deadBottoms[|deadBottoms| - 1];
        deadBottoms := deadBottoms[..|deadBottoms| - 1];
        p := nodes[id].(alive := true);
        p := p.(x := end, y := pipeY as real);
      } else {
        id := |nodes|;
        p := PipeState(key, 0.0, pipeY as real, true, false, 0.0);
        p := p.(x := end);
        nodes := nodes + [p];
        pipes := pipes + [id];
      }
      p := p.(velocity := -SPEED);
      nodes := nodes[id := p];
      assert id == |old(nodes)| ==> nodes == old(nodes) + [p];
      SpawnKeepsInvariant(old(Pool(nodes, pipes, deadTops, deadBottoms)), key, pipeY as real, end);
    }

    /**
     * The spawn timer's callback: sweep the pipes that left the scene back
     * to the pool, then spawn a top and a bottom pipe around one gap centre
     * drawn from the random sample r.
     */
    method SpawnPipes(r: real)
      requires Valid()
      requires 0.0 <= r < 1.0
      modifies this`nodes, this`pipes, this`deadTops, this`deadBottoms
      ensures Valid()
      ensures Pool(nodes, pipes, deadTops, deadBottoms)
        == SpawnPair(old(Pool(nodes, pipes, deadTops, deadBottoms)), boundsLeft, boundsRight + SPAWN_MARGIN, GapCentre(height, r)).pool
    {
      SweepKeepsInvariant(Pool(nodes, pipes, deadTops, deadBottoms), boundsLeft);
      SweepOffScreen();
      var pipeY := GapCentre(height, r);
      var _ := SpawnPipe(pipeY, false);
      var _ := SpawnPipe(pipeY, true);
    }

    // -------------------------------------------------------------------
    // The frame step

    /**
     * The loop over the alive pipes of a frame: each moves, is tested
     * against the bird's box (a hit ends the game but does not stop the
     * loop), and a bottom pipe the bird has just passed scores once.
     */
    method MovePipes(birdBox: Box, pipeExtent: Extent)
      requires InRange(nodes, pipes)
      modifies this`nodes, this`score, this`over, this`intervals
      ensures var m := MoveAll(old(nodes), pipes, playerX, birdBox, pipeExtent);
        && nodes == m.nodes
        && score == old(score) + m.gained
        && over == (old(over) || m.hit)
        && intervals == if m.hit then old(intervals) - {pillarInterval} else old(intervals)
    {
      var i := 0;
      while i < |pipes|
        invariant 0 <= i <= |pipes|
        invariant var m := MoveAll(old(nodes), pipes[..i], playerX, birdBox, pipeExtent);
          && nodes == m.nodes
          && score == old(score) + m.gained
          && over == (old(over) || m.hit)
          && intervals == if m.hit then old(intervals) - {pillarInterval} else old(intervals)
      {
        assert pipes[..i + 1][..i] == pipes[..i];
        MovePipe(pipes[i], birdBox, pipeExtent);
        i := i + 1;
      }
      assert pipes[..i] == pipes;
    }

    /**
     * The frame's callback for one pipe: an alive pipe moves by its
     * velocity, and then either hits the bird (game over) or, as a bottom
     * pipe not yet passed that is now left of the bird, is marked passed
     * and scores.
     */
    method MovePipe(id: nat, birdBox: Box, pipeExtent: Extent)
      requires id < |nodes|
      modifies this`nodes, this`score, this`over, this`intervals
      ensures var o := Advance(old(nodes[id]), playerX, birdBox, pipeExtent);
        && nodes == old(nodes)[id := o.pipe]
        && score == old(score) + (if o.scored then 1 else 0)
        && over == (old(over) || o.hit)
        && intervals == if o.hit then old(intervals) - {pillarInterval} else old(intervals)
    {
      var p := nodes[id];
      if p.alive {
        p := p.(x := p.x + p.velocity);
        if Intersects(PipeBox(pipeExtent, p.x, p.y), birdBox) {
          SetGameOver();
        } else if p.name == Bottom && !p.passed && p.x < playerX {
          p := p.(passed := true);
          AddScore();
        }
        nodes := nodes[id := p];
      }
    }

    /**
     * The started branch of a frame: gravity acts on the velocity; if the
     * game is not over, the pipes move (see MovePipes) and a bird at or
     * below the ground line ends the game.  Then a bird at or below the
     * ground line is put on it, stopped and pointed down, and one above it
     * is tilted by its velocity; either way it then moves by its velocity.
     */
    method Play(delta: real, birdBox: Box, pipeExtent: Extent)
      requires Valid()
      modifies this`velocity, this`playerY, this`angle, this`nodes, this`score, this`over, this`intervals
      ensures Valid()
      ensures old(over) ==>
        over && score == old(score) && intervals == old(intervals) && nodes == old(nodes)
      ensures !old(over) ==>
        var m := MoveAll(old(nodes), pipes, playerX, birdBox, pipeExtent);
        && nodes == m.nodes
        && score == old(score) + m.gained
        && over == (m.hit || old(playerY) <= groundTop)
        && intervals == if over then old(intervals) - {pillarInterval} else old(intervals)
      ensures old(playerY) <= groundTop ==>
        playerY == groundTop && velocity == 0.0 && angle == MIN_ANGLE
      ensures old(playerY) > groundTop ==>
        && velocity == Pulled(old(velocity), delta) && angle == TiltAngle(velocity)
        && playerY == Travelled(old(playerY), velocity, delta)
    {
      velocity := Pulled(velocity, delta);
      if !over {
        Collide(birdBox, pipeExtent);
      }
      Fly(delta);
    }

    /**
     * The not-over part of a started frame: the pipes move (see
     * MovePipes), then a bird at or below the ground line ends the game.
     */
    method Collide(birdBox: Box, pipeExtent: Extent)
      requires Valid()
      modifies this`nodes, this`score, this`over, this`intervals
      ensures Valid()
      ensures var m := MoveAll(old(nodes), pipes, playerX, birdBox, pipeExtent);
        && nodes == m.nodes
        && score == old(score) + m.gained
        && over == (old(over) || m.hit || playerY <= groundTop)
        && intervals == if m.hit || playerY <= groundTop then old(intervals) - {pillarInterval} else old(intervals)
    {
      ghost var p := Pool(nodes, pipes, deadTops, deadBottoms);
      ghost var q := p.(nodes := MoveAll(nodes, pipes, playerX, birdBox, pipeExtent).nodes);
      MoveAllKeepsInvariant(p, playerX, birdBox, pipeExtent);
      MovePipes(birdBox, pipeExtent);
      assert Pool(nodes, pipes, deadTops, deadBottoms) == q;
      if playerY <= groundTop {
        SetGameOver();
      }
    }

    /**
     * The bird's own step in a started frame: at or below the ground line
     * it is put on the line, stopped and pointed down; above it, it is
     * tilted by its velocity.  Either way it then moves by its velocity.
     */
    method Fly(delta: real)
      modifies this`velocity, this`playerY, this`angle
      ensures old(playerY) <= groundTop ==>
        playerY == groundTop && velocity == 0.0 && angle == MIN_ANGLE
      ensures old(playerY) > groundTop ==>
        && velocity == old(velocity) && angle == TiltAngle(velocity)
        && playerY == Travelled(old(playerY), velocity, delta)
    {
      var target := groundTop;
      if playerY <= target {
        angle := MIN_ANGLE;
        playerY := target;
        velocity := 0.0;
      } else {
        angle := TiltAngle(velocity);
      }
      playerY := Travelled(playerY, velocity, delta);
    }

    /** The branch of a frame before the start: the bird bobs (its height is the given sample) and stays level. */
    method Idle(bob: real)
      modifies this`playerY, this`angle
      ensures playerY == bob && angle == 0.0
    {
      playerY := bob;
      angle := 0.0;
    }

    /** The ground-ring loop of a frame: every tile scrolls, in index order (see Ground.ScrollRing). */
    method ScrollGround()
      modifies ground
      ensures ground[..] == Ground.RingStep(old(ground[..]), width)
    {
      Ground.ScrollRing(ground, width);
    }

    /**
     * One frame: the started branch (Play) or the idle one (Idle), then,
     * unless the game is over by now, one step of the ground.
     */
    method UpdateGame(delta: real, bob: real, birdBox: Box, pipeExtent: Extent)
      requires Valid()
      modifies this`velocity, this`playerY, this`angle, this`nodes, this`score, this`over, this`intervals, ground
      ensures Valid()
      ensures !old(started) ==> playerY == bob && angle == 0.0 && velocity == old(velocity)
      ensures !old(started) || old(over) ==>
        over == old(over) && score == old(score) && intervals == old(intervals) && nodes == old(nodes)
      ensures old(started) && !old(over) ==>
        var m := MoveAll(old(nodes), pipes, playerX, birdBox, pipeExtent);
        && nodes == m.nodes
        && score == old(score) + m.gained
        && over == (m.hit || old(playerY) <= groundTop)
        && intervals == if over then old(intervals) - {pillarInterval} else old(intervals)
      ensures old(started) && old(playerY) <= groundTop ==>
        playerY == groundTop && velocity == 0.0 && angle == MIN_ANGLE
      ensures old(started) && old(playerY) > groundTop ==>
        && velocity == Pulled(old(velocity), delta) && angle == TiltAngle(velocity)
        && playerY == Travelled(old(playerY), velocity, delta)
      ensures over ==> ground[..] == old(ground[..])
      ensures !over ==> ground[..] == Ground.RingStep(old(ground[..]), width)
    {
      if started {
        Play(delta, birdBox, pipeExtent);
      } else {
        Idle(bob);
      }
      if !over {
        ScrollGround();
      }
    }
  }
}
