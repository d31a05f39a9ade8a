/**
 * PipePool: the pipe nodes of the scene and the three lists that share
 * them.  A node is named by an id, its index in the table of nodes; the
 * pipe group and the two dead lists hold ids, so a killed pipe can be in
 * the group and in a dead list at once, and a pipe dropped from the group
 * by a reset can still sit in a dead list and be revived from it.
 */
module PipePool {
  import opened Tuning
  import opened Pipes

  /** No id occurs twice. */
  predicate Distinct(ids: seq<nat>)
  {
    forall i, j :: 0 <= i < j < |ids| ==> ids[i] != ids[j]
  }

  /** Every id names a node of the table. */
  predicate InRange(nodes: seq<PipeState>, ids: seq<nat>)
  {
    forall i :: 0 <= i < |ids| ==> ids[i] < |nodes|
  }

  /** The states of the nodes with the given ids, in order. */
  function Gather(nodes: seq<PipeState>, ids: seq<nat>): (ss: seq<PipeState>)
    requires InRange(nodes, ids)
    ensures |ss| == |ids|
    ensures forall i :: 0 <= i < |ids| ==> ss[i] == nodes[ids[i]]
  {
    seq(|ids|, i requires 0 <= i < |ids| => nodes[ids[i]])
  }

  /** The nodes, the group's members in the order they were added, and the two dead lists (the last id of each is reused first). */
  datatype Pool = Pool(nodes: seq<PipeState>, group: seq<nat>, deadTops: seq<nat>, deadBottoms: seq<nat>)

  /** The dead list of orientation k. */
  function Dead(p: Pool, k: PipeName): seq<nat>
  {
    if k == Top then p.deadTops else p.deadBottoms
  }

  /** A dead list of orientation k: distinct ids of dead nodes named k. */
  predicate Pooled(nodes: seq<PipeState>, dead: seq<nat>, k: PipeName)
  {
    && InRange(nodes, dead)
    && Distinct(dead)
    && forall i :: 0 <= i < |dead| ==> nodes[dead[i]].name == k && !nodes[dead[i]].alive
  }

  /**
   * The pool invariant: the group lists no node twice, each dead list
   * holds only dead nodes of its own orientation, and every dead member
   * of the group is waiting in a dead list.
   */
  predicate Invariant(p: Pool)
  {
    && InRange(p.nodes, p.group)
    && Distinct(p.group)
    && Pooled(p.nodes, p.deadTops, Top)
    && Pooled(p.nodes, p.deadBottoms, Bottom)
    && forall i :: 0 <= i < |p.group| && !p.nodes[p.group[i]].alive ==> p.group[i] in p.deadTops || p.group[i] in p.deadBottoms
  }

  // ---------------------------------------------------------------------
  // One frame over the group

  /** The node table after a frame, the points gained and whether some pipe hit the bird. */
  datatype Moved = Moved(nodes: seq<PipeState>, gained: nat, hit: bool)

  /**
   * The frame loop over the group: the nodes with the given ids are
   * advanced one after another, in order.
   */
  function MoveAll(nodes: seq<PipeState>, ids: seq<nat>, birdX: real, birdBox: Box, pipeExtent: Extent): (r: Moved)
    requires InRange(nodes, ids)
    ensures |r.nodes| == |nodes|
    ensures forall id :: 0 <= id < |nodes| ==> r.nodes[id].name == nodes[id].name && r.nodes[id].alive == nodes[id].alive
    ensures forall id :: 0 <= id < |nodes| && id !in ids ==> r.nodes[id] == nodes[id]
    ensures r.gained <= |ids|
  {
    if ids == [] then Moved(nodes, 0, false)
    else
      var n := |ids| - 1;
      var front := MoveAll(nodes, ids[..n], birdX, birdBox, pipeExtent);
      var o := Advance(front.nodes[ids[n]], birdX, birdBox, pipeExtent);
      Moved(front.nodes[ids[n] := o.pipe], front.gained + (if o.scored then 1 else 0), front.hit || o.hit)
  }

  /**
   * On a group without repeats the frame loop is the pipe-by-pipe frame:
   * each member ends up as Advance makes it, and the points and the hit
   * are those of Scan.
   */
  lemma {:induction false} MoveAllIsScan(nodes: seq<PipeState>, ids: seq<nat>, birdX: real, birdBox: Box, pipeExtent: Extent)
    requires InRange(nodes, ids) && Distinct(ids)
    ensures var r := MoveAll(nodes, ids, birdX, birdBox, pipeExtent);
      var f := Scan(Gather(nodes, ids), birdX, birdBox, pipeExtent);
      Gather(r.nodes, ids) == f.pipes && r.gained == f.gained && r.hit == f.hit
  {
    if ids != [] {
      var n := |ids| - 1;
      var id := ids[n];
      var front := MoveAll(nodes, ids[..n], birdX, birdBox, pipeExtent);
      MoveAllIsScan(nodes, ids[..n], birdX, birdBox, pipeExtent);
      assert id !in ids[..n];
      var ss := Gather(nodes, ids);
      assert ss[..n] == Gather(nodes, ids[..n]);
      assert front.nodes[id] == ss[n];
      var o := Advance(ss[n], birdX, birdBox, pipeExtent);
      GatherSnoc(front.nodes, ids[..n], id, o.pipe);
      assert ids[..n] + [id] == ids;
      var before := Scan(ss[..n], birdX, birdBox, pipeExtent);
      assert Scan(ss, birdX, birdBox, pipeExtent).pipes == before.pipes + [o.pipe];
    }
  }

  /** Writing a node that is not among ids and then gathering it last appends its new state. */
  lemma GatherSnoc(nodes: seq<PipeState>, ids: seq<nat>, id: nat, s: PipeState)
    requires InRange(nodes, ids) && id < |nodes| && id !in ids
    ensures InRange(nodes[id := s], ids + [id])
    ensures Gather(nodes[id := s], ids + [id]) == Gather(nodes, ids) + [s]
  {
    var g := Gather(nodes[id := s], ids + [id]);
    assert forall i :: 0 <= i < |ids| ==> (ids + [id])[i] == ids[i] != id;
  }

  /**
   * Exactly-once scoring over the group: the points a frame gains plus
   * the members that can still score is the same before and after the
   * frame, so every point uses up one unpassed bottom pipe.
   */
  lemma MoveAllConservesScore(p: Pool, birdX: real, birdBox: Box, pipeExtent: Extent)
    requires Invariant(p)
    ensures var m := MoveAll(p.nodes, p.group, birdX, birdBox, pipeExtent);
      m.gained + CountUnpassed(Gather(m.nodes, p.group)) == CountUnpassed(Gather(p.nodes, p.group))
  {
    MoveAllIsScan(p.nodes, p.group, birdX, birdBox, pipeExtent);
    ScanConservesScore(Gather(p.nodes, p.group), birdX, birdBox, pipeExtent);
  }

  /** The frame loop keeps the pool invariant: it changes no name and no alive flag. */
  lemma MoveAllKeepsInvariant(p: Pool, birdX: real, birdBox: Box, pipeExtent: Extent)
    requires Invariant(p)
    ensures Invariant(p.(nodes := MoveAll(p.nodes, p.group, birdX, birdBox, pipeExtent).nodes))
  {
  }

  // ---------------------------------------------------------------------
  // The spawner's sweep

  /**
   * The sweep's visit to one node: an off-screen node is killed and its
   * id pushed onto the dead list of its orientation; the group is not
   * touched.
   */
  function Cull(p: Pool, id: nat, left: real): (r: Pool)
    requires id < |p.nodes|
    ensures r.nodes == p.nodes[id := Swept(p.nodes[id], left)] && r.group == p.group
    ensures forall k :: Dead(r, k) == Dead(p, k) + (if OffScreen(p.nodes[id], left) && p.nodes[id].name == k then [id] else [])
  {
    var s := p.nodes[id];
    if OffScreen(s, left) then
      p.(nodes := p.nodes[id := s.(alive := false)],
         deadTops := p.deadTops + (if s.name == Top then [id] else []),
         deadBottoms := p.deadBottoms + (if s.name == Bottom then [id] else []))
    else p
  }

  /** The sweep loop: the nodes with the given ids are visited one after another, in order. */
  function SweepAll(p: Pool, ids: seq<nat>, left: real): (r: Pool)
    requires InRange(p.nodes, ids)
    ensures |r.nodes| == |p.nodes| && r.group == p.group
    ensures forall id :: 0 <= id < |p.nodes| ==> r.nodes[id] == p.nodes[id].(alive := r.nodes[id].alive)
    ensures forall id :: 0 <= id < |p.nodes| && r.nodes[id].alive ==> p.nodes[id].alive
    ensures forall id :: 0 <= id < |p.nodes| && id !in ids ==> r.nodes[id] == p.nodes[id]
    ensures p.deadTops <= r.deadTops && p.deadBottoms <= r.deadBottoms
  {
    if ids == [] then p
    else
      var n := |ids| - 1;
      Cull(SweepAll(p, ids[..n], left), ids[n], left)
  }

  /**
   * On a group without repeats the sweep kills exactly the members that
   * are off screen and leaves every other member as it was.
   */
  lemma {:induction false} SweepAllIsSwept(p: Pool, ids: seq<nat>, left: real)
    requires InRange(p.nodes, ids) && Distinct(ids)
    ensures var r := SweepAll(p, ids, left);
      forall i :: 0 <= i < |ids| ==> r.nodes[ids[i]] == Swept(p.nodes[ids[i]], left)
  {
    if ids != [] {
      var n := |ids| - 1;
      SweepAllIsSwept(p, ids[..n], left);
      assert ids[n] !in ids[..n];
      forall i | 0 <= i < n
        ensures ids[i] == ids[..n][i]
      {
      }
    }
  }

  /** The ids, in order, of the nodes named k that are off screen. */
  function OffScreenIds(nodes: seq<PipeState>, ids: seq<nat>, left: real, k: PipeName): seq<nat>
    requires InRange(nodes, ids)
  {
    if ids == [] then []
    else
      var n := |ids| - 1;
      var s := nodes[ids[n]];
      OffScreenIds(nodes, ids[..n], left, k) + (if OffScreen(s, left) && s.name == k then [ids[n]] else [])
  }

  /** An id is picked out exactly when it is in the group and its node is off screen and named k. */
  lemma {:induction false} OffScreenIdsMembers(nodes: seq<PipeState>, ids: seq<nat>, left: real, k: PipeName)
    requires InRange(nodes, ids)
    ensures forall id :: id in OffScreenIds(nodes, ids, left, k) <==>
      id in ids && id < |nodes| && OffScreen(nodes[id], left) && nodes[id].name == k
  {
    if ids != [] {
      var n := |ids| - 1;
      OffScreenIdsMembers(nodes, ids[..n], left, k);
      assert ids == ids[..n] + [ids[n]];
    }
  }

  /**
   * On a group without repeats the sweep appends to the dead list of
   * orientation k the members named k that are off screen, in group
   * order, and the list stays a dead list of orientation k.
   */
  lemma {:induction false} SweepAllCulls(p: Pool, ids: seq<nat>, left: real, k: PipeName)
    requires InRange(p.nodes, ids) && Distinct(ids)
    requires Pooled(p.nodes, Dead(p, k), k)
    ensures Dead(SweepAll(p, ids, left), k) == Dead(p, k) + OffScreenIds(p.nodes, ids, left, k)
    ensures Pooled(SweepAll(p, ids, left).nodes, Dead(SweepAll(p, ids, left), k), k)
  {
    if ids != [] {
      var n := |ids| - 1;
      var id := ids[n];
      var front := SweepAll(p, ids[..n], left);
      SweepAllCulls(p, ids[..n], left, k);
      assert id !in ids[..n];
      assert front.nodes[id] == p.nodes[id];
      var s := p.nodes[id];
      var picked := if OffScreen(s, left) && s.name == k then [id] else [];
      assert OffScreenIds(p.nodes, ids, left, k) == OffScreenIds(p.nodes, ids[..n], left, k) + picked;
      assert Dead(SweepAll(p, ids, left), k) == Dead(front, k) + picked;
      AppendAssoc(Dead(p, k), OffScreenIds(p.nodes, ids[..n], left, k), picked);
      CullKeepsPooled(front, id, left, k);
    }
  }

  /** Appending to a sequence is associative. */
  lemma AppendAssoc(a: seq<nat>, b: seq<nat>, c: seq<nat>)
    ensures a + (b + c) == (a + b) + c
  {
  }

  /** One visit of the sweep keeps a dead list a dead list. */
  lemma CullKeepsPooled(p: Pool, id: nat, left: real, k: PipeName)
    requires id < |p.nodes| && Pooled(p.nodes, Dead(p, k), k)
    ensures Pooled(Cull(p, id, left).nodes, Dead(Cull(p, id, left), k), k)
  {
    var s := p.nodes[id];
    if OffScreen(s, left) {
      var r := Cull(p, id, left);
      PooledKill(p.nodes, Dead(p, k), k, id);
      if s.name == k {
        assert Dead(r, k) == Dead(p, k) + [id];
      } else {
        assert Dead(r, k) == Dead(p, k);
      }
    }
  }

  /** Killing an alive node keeps a dead list a dead list, and one of its own orientation may take it. */
  lemma PooledKill(nodes: seq<PipeState>, dead: seq<nat>, k: PipeName, id: nat)
    requires Pooled(nodes, dead, k) && id < |nodes| && nodes[id].alive
    ensures Pooled(nodes[id := nodes[id].(alive := false)], dead, k)
    ensures nodes[id].name == k ==> Pooled(nodes[id := nodes[id].(alive := false)], dead + [id], k)
  {
    var after := nodes[id := nodes[id].(alive := false)];
    assert forall i :: 0 <= i < |dead| ==> dead[i] != id && after[dead[i]] == nodes[dead[i]];
    if nodes[id].name == k {
      var d := dead + [id];
      assert forall i :: 0 <= i < |dead| ==> d[i] == dead[i];
    }
  }

  /**
   * The sweep of the spawner: the group's members are visited in order,
   * and the killed ids pushed onto the dead lists.  The group stays as it
   * is, nothing but alive flags change, no node comes back to life, and
   * the dead lists only grow.
   */
  function Sweep(p: Pool, left: real): (r: Pool)
    requires InRange(p.nodes, p.group)
    ensures |r.nodes| == |p.nodes| && r.group == p.group
    ensures forall id :: 0 <= id < |p.nodes| ==> r.nodes[id] == p.nodes[id].(alive := r.nodes[id].alive)
    ensures forall id :: 0 <= id < |p.nodes| && r.nodes[id].alive ==> p.nodes[id].alive
    ensures p.deadTops <= r.deadTops && p.deadBottoms <= r.deadBottoms
  {
    SweepAll(p, p.group, left)
  }

  /** The sweep keeps the pool invariant. */
  lemma SweepKeepsInvariant(p: Pool, left: real)
    requires Invariant(p)
    ensures Invariant(Sweep(p, left))
  {
    var r := Sweep(p, left);
    SweepAllIsSwept(p, p.group, left);
    SweepAllCulls(p, p.group, left, Top);
    SweepAllCulls(p, p.group, left, Bottom);
    forall i | 0 <= i < |p.group| && !r.nodes[p.group[i]].alive
      ensures p.group[i] in r.deadTops || p.group[i] in r.deadBottoms
    {
      var g := p.group[i];
      var s := p.nodes[g];
      if s.alive {
        OffScreenIdsMembers(p.nodes, p.group, left, s.name);
        assert g in Dead(r, s.name);
      } else {
        assert g in Dead(p, Top) || g in Dead(p, Bottom);
      }
    }
  }

  // ---------------------------------------------------------------------
  // Spawning

  /**
   * The spawn of one pipe named k at (end, y).  The request for k pops
   * the last id of the dead list of orientation k, and only of that one,
   * and revives it; only when that list is empty is a new node built and
   * added to the group.  Either way the pipe is alive at (end, y) with
   * velocity -SPEED and no other node changes; a revived pipe keeps its
   * passed flag and is not put back into the group.  The id of the pipe
   * is returned beside the pool.
   */
  function Spawn(p: Pool, k: PipeName, y: real, end: real): (r: (Pool, nat))
    requires Pooled(p.nodes, p.deadTops, Top) && Pooled(p.nodes, p.deadBottoms, Bottom)
    ensures |p.nodes| <= |r.0.nodes| && r.1 < |r.0.nodes| && r.0.nodes[r.1] == PipeState(k, end, y, true, r.0.nodes[r.1].passed, -SPEED)
    ensures forall j :: 0 <= j < |p.nodes| && j != r.1 ==> r.0.nodes[j] == p.nodes[j]
    ensures Dead(r.0, if k == Top then Bottom else Top) == Dead(p, if k == Top then Bottom else Top)
    ensures |Dead(p, k)| > 0 ==>
      && r.1 == Dead(p, k)[|Dead(p, k)| - 1] && Dead(r.0, k) + [r.1] == Dead(p, k)
      && r.0.group == p.group && |r.0.nodes| == |p.nodes| && r.0.nodes[r.1].passed == p.nodes[r.1].passed
    ensures |Dead(p, k)| == 0 ==>
      && r.1 == |p.nodes| && |r.0.nodes| == |p.nodes| + 1 && r.0.group == p.group + [r.1]
      && Dead(r.0, k) == [] && !r.0.nodes[r.1].passed
  {
    if k == Top && |p.deadTops| > 0 then
      var id := p.deadTops[|p.deadTops| - 1];
      var q := p.nodes[id].(alive := true, x := end, y := y, velocity := -SPEED);
      (p.(nodes := p.nodes[id := q], deadTops := p.deadTops[..|p.deadTops| - 1]), id)
    else if k == Bottom && |p.deadBottoms| > 0 then
      var id := p.deadBottoms[|p.deadBottoms| - 1];
      var q := p.nodes[id].(alive := true, x := end, y := y, velocity := -SPEED);
      (p.(nodes := p.nodes[id := q], deadBottoms := p.deadBottoms[..|p.deadBottoms| - 1]), id)
    else
      var id := |p.nodes|;
      (p.(nodes := p.nodes + [PipeState(k, end, y, true, false, -SPEED)], group := p.group + [id]), id)
  }

  /** A spawn keeps the pool invariant. */
  lemma SpawnKeepsInvariant(p: Pool, k: PipeName, y: real, end: real)
    requires Invariant(p)
    ensures Invariant(Spawn(p, k, y, end).0)
  {
    if |Dead(p, k)| > 0 {
      ReviveKeepsInvariant(p, k, y, end);
    } else {
      BuildKeepsInvariant(p, k, y, end);
    }
  }

  /** Reviving the last pipe of the dead list of orientation k keeps the pool invariant. */
  lemma ReviveKeepsInvariant(p: Pool, k: PipeName, y: real, end: real)
    requires Invariant(p) && |Dead(p, k)| > 0
    ensures Invariant(Spawn(p, k, y, end).0)
  {
    var (q, id) := Spawn(p, k, y, end);
    var o := if k == Top then Bottom else Top;
    var v := q.nodes[id];
    var dead := Dead(p, k);
    var n := |dead| - 1;
    assert q.nodes == p.nodes[id := v] && q.group == p.group;
    assert Dead(q, k) == dead[..n] by {
      assert Dead(q, k) + [id] == dead;
    }
    PooledPop(p.nodes, dead, k, v);
    PooledUpdate(p.nodes, Dead(p, o), o, id, v);
    RevivedStillCovered(p.nodes, q.nodes, p.group, dead, Dead(q, k), Dead(p, o), id);
  }

  /**
   * After one node is revived and its id dropped from the end of its dead
   * list, every dead member of the group is still on one of the lists.
   */
  lemma RevivedStillCovered(nodes: seq<PipeState>, after: seq<PipeState>, group: seq<nat>,
                            dead: seq<nat>, rest: seq<nat>, other: seq<nat>, id: nat)
    requires InRange(nodes, group) && |after| == |nodes| && id < |after| && after[id].alive
    requires forall j :: 0 <= j < |nodes| && j != id ==> after[j] == nodes[j]
    requires dead == rest + [id]
    requires forall i :: 0 <= i < |group| && !nodes[group[i]].alive ==> group[i] in dead || group[i] in other
    ensures forall i :: 0 <= i < |group| && !after[group[i]].alive ==> group[i] in rest || group[i] in other
  {
    forall i | 0 <= i < |group| && !after[group[i]].alive
      ensures group[i] in rest || group[i] in other
    {
      assert group[i] != id && after[group[i]] == nodes[group[i]];
    }
  }

  /** Building a new pipe, when the dead list of orientation k is empty, keeps the pool invariant. */
  lemma BuildKeepsInvariant(p: Pool, k: PipeName, y: real, end: real)
    requires Invariant(p) && |Dead(p, k)| == 0
    ensures Invariant(Spawn(p, k, y, end).0)
  {
    var (q, id) := Spawn(p, k, y, end);
    var o := if k == Top then Bottom else Top;
    assert q.nodes == p.nodes + [q.nodes[id]];
    PooledAppend(p.nodes, Dead(p, o), o, q.nodes[id]);
    assert id !in p.group;
  }

  /** Popping the last id off a dead list and reviving that node leaves a dead list without it. */
  lemma PooledPop(nodes: seq<PipeState>, dead: seq<nat>, k: PipeName, v: PipeState)
    requires Pooled(nodes, dead, k) && |dead| > 0
    ensures dead[|dead| - 1] !in dead[..|dead| - 1]
    ensures Pooled(nodes[dead[|dead| - 1] := v], dead[..|dead| - 1], k)
  {
    var n := |dead| - 1;
    assert forall i :: 0 <= i < n ==> dead[..n][i] == dead[i] != dead[n];
  }

  /** Changing a node that is not on a dead list leaves the list a dead list. */
  lemma PooledUpdate(nodes: seq<PipeState>, dead: seq<nat>, k: PipeName, id: nat, v: PipeState)
    requires Pooled(nodes, dead, k) && id < |nodes| && nodes[id].name != k
    ensures id !in dead
    ensures Pooled(nodes[id := v], dead, k)
  {
  }

  /** Adding a node to the table leaves a dead list a dead list. */
  lemma PooledAppend(nodes: seq<PipeState>, dead: seq<nat>, k: PipeName, v: PipeState)
    requires Pooled(nodes, dead, k)
    ensures Pooled(nodes + [v], dead, k)
  {
  }

  /** A pair of pipes just spawned: the pool after them and the ids of its top and bottom pipe. */
  datatype Pair = Pair(pool: Pool, top: nat, bottom: nat)

  /**
   * One firing of the spawn timer: the sweep, then a top pipe and a
   * bottom (flipped) pipe around the same gap centre, both at end.
   */
  function SpawnPair(p: Pool, left: real, end: real, centre: real): (r: Pair)
    requires Invariant(p)
    ensures Invariant(r.pool)
  {
    SweepKeepsInvariant(p, left);
    var q := Sweep(p, left);
    var (q1, top) := Spawn(q, Top, PipeY(centre, false) as real, end);
    SpawnKeepsInvariant(q, Top, PipeY(centre, false) as real, end);
    var (q2, bottom) := Spawn(q1, Bottom, PipeY(centre, true) as real, end);
    SpawnKeepsInvariant(q1, Bottom, PipeY(centre, true) as real, end);
    Pair(q2, top, bottom)
  }

  /**
   * Gap geometry: the pair is two distinct alive pipes, a top one and a
   * bottom one, both at end and moving left at SPEED, the top one
   * exactly OPENING + PIPE_HEIGHT above the bottom one.
   */
  lemma PairGeometry(p: Pool, left: real, end: real, centre: real)
    requires Invariant(p)
    ensures var r := SpawnPair(p, left, end, centre);
      && r.top < |r.pool.nodes| && r.bottom < |r.pool.nodes| && r.top != r.bottom
      && var t, b := r.pool.nodes[r.top], r.pool.nodes[r.bottom];
      && t.name == Top && b.name == Bottom && t.alive && b.alive
      && t.x == b.x == end && t.velocity == b.velocity == -SPEED
      && t.y - b.y == OPENING + PIPE_HEIGHT
  {
    PairSpan(centre);
  }

  /**
   * A bottom pipe revived from the dead list keeps its passed flag, so a
   * pipe that was passed before it died never scores again, whatever
   * frames it lives through.
   */
  lemma RevivedPassedNeverScores(p: Pool, y: real, end: real, frames: seq<Frame>, pipeExtent: Extent)
    requires Pooled(p.nodes, p.deadTops, Top) && Pooled(p.nodes, p.deadBottoms, Bottom)
    requires |p.deadBottoms| > 0 && p.nodes[p.deadBottoms[|p.deadBottoms| - 1]].passed
    ensures var (q, id) := Spawn(p, Bottom, y, end);
      q.nodes[id].alive && Replay(q.nodes[id], frames, pipeExtent).1 == 0
  {
    var (q, id) := Spawn(p, Bottom, y, end);
    ScoresAtMostOnce(q.nodes[id], frames, pipeExtent);
  }
}
