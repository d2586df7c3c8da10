/**
 * The agent's per-tick movement state machine, as a function of the state it
 * reads and writes: the `moving` flag, the current move, the queue, the last
 * velocity command and the path preview. Whether the agent is within 0.1 of
 * its destination comes in as the flag `arrived`.
 */
module Movement {
  import opened Engine
  import opened MoveQueues

  /** The velocity last written to the rigid body. */
  datatype Velocity =
    | Zero
      /**
       * Unit direction from `from` to `target`, times the agent's speed. Unity's
       * `Normalize` gives the zero vector for a near-zero difference, so
       * `Toward(p, p)` stands for zero velocity.
       */
    | Toward(from: Vector3, target: Vector3)

  datatype Motion = Motion(
    moving: bool,
    currentMove: CellMove,
    moves: seq<CellMove>,
    velocity: Velocity,
    preview: seq<Vector3>)

  /** A tick's inputs: the agent's flattened position and the arrival test. */
  datatype Tick = Tick(here: Vector3, arrived: bool)

  /** A tick removes the head of the queue exactly when this holds. */
  predicate Advances(s: Motion, arrived: bool) {
    |s.moves| > 1 && (!s.moving || arrived)
  }

  /**
   * One tick with a non-empty queue: read the head; while moving, head for it
   * and redraw the preview; on arrival stop; then, if stopped and more than
   * one move is queued, drop the head and start moving again.
   */
  function MovementStep(s: Motion, here: Vector3, arrived: bool): (r: Motion)
    ensures s.moves == [] ==> r == s
    ensures s.moves != [] ==> r.moves != [] && r.currentMove == s.moves[0]
    ensures r.moves == if Advances(s, arrived) then s.moves[1..] else s.moves
    ensures s.moves != [] ==> (r.moving <==> Advances(s, arrived) || (s.moving && !arrived))
    ensures s.moves != [] && s.moving && arrived ==> r.velocity == Zero
    ensures s.moves != [] && s.moving && !arrived ==> r.velocity == Toward(here, s.moves[0].positionWorld)
    ensures s.moves != [] && s.moving ==> r.preview == PathPreview(here, s.moves)
    ensures !s.moving ==> r.velocity == s.velocity && r.preview == s.preview
  {
    if |s.moves| == 0 then s
    else
      var current := s.moves[0];
      var velocity := if s.moving then Toward(here, current.positionWorld) else s.velocity;
      var preview := if s.moving then PathPreview(here, s.moves) else s.preview;
      var moving := s.moving && !arrived;
      var velocity := if s.moving && arrived then Zero else velocity;
      if !moving && |s.moves| > 1 then Motion(true, current, s.moves[1..], velocity, preview)
      else Motion(moving, current, s.moves, velocity, preview)
  }

  /** The state after a sequence of ticks with nothing enqueued in between. */
  function Run(s: Motion, ticks: seq<Tick>): (r: Motion)
    decreases |ticks|
  {
    if ticks == [] then s
    else Run(MovementStep(s, ticks[0].here, ticks[0].arrived), ticks[1..])
  }

  /** With an empty queue no tick changes anything. */
  lemma {:induction false} EmptyQueueInert(s: Motion, ticks: seq<Tick>)
    requires s.moves == []
    ensures Run(s, ticks) == s
    decreases |ticks|
  {
    if ticks != [] {
      EmptyQueueInert(MovementStep(s, ticks[0].here, ticks[0].arrived), ticks[1..]);
    }
  }

  /**
   * A single queued move never starts an idle agent: however many ticks pass,
   * it stays idle, the move stays queued, and neither the velocity nor the
   * preview is touched.
   */
  lemma {:induction false} IdleSingleMoveNeverStarts(s: Motion, ticks: seq<Tick>)
    requires !s.moving && |s.moves| == 1
    ensures var r := Run(s, ticks);
      && !r.moving && r.moves == s.moves
      && r.velocity == s.velocity && r.preview == s.preview
    decreases |ticks|
  {
    if ticks != [] {
      IdleSingleMoveNeverStarts(MovementStep(s, ticks[0].here, ticks[0].arrived), ticks[1..]);
    }
  }

  /**
   * Ticks never empty a non-empty queue, remove at most one move each, and
   * always leave a suffix of the queue, in order.
   */
  lemma {:induction false} QueueNeverEmptied(s: Motion, ticks: seq<Tick>)
    requires s.moves != []
    ensures var r := Run(s, ticks);
      && r.moves != []
      && |r.moves| <= |s.moves| <= |r.moves| + |ticks|
      && r.moves == s.moves[|s.moves| - |r.moves|..]
    decreases |ticks|
  {
    if ticks != [] {
      var s' := MovementStep(s, ticks[0].here, ticks[0].arrived);
      QueueNeverEmptied(s', ticks[1..]);
      var r := Run(s', ticks[1..]);
      assert s'.moves == s.moves[|s.moves| - |s'.moves|..];
      assert s.moves[|s.moves| - |s'.moves|..][|s'.moves| - |r.moves|..] == s.moves[|s.moves| - |r.moves|..];
    }
  }

  /**
   * Ticks that all report arrival walk the queue down to its last move: after
   * one tick fewer than there are moves, only the last one is left.
   */
  lemma {:induction false} ArrivalsReachLastMove(s: Motion, ticks: seq<Tick>)
    requires s.moves != [] && |ticks| >= |s.moves| - 1
    requires forall i :: 0 <= i < |ticks| ==> ticks[i].arrived
    ensures Run(s, ticks).moves == [s.moves[|s.moves| - 1]]
    decreases |ticks|
  {
    if ticks == [] {
      assert |s.moves| == 1;
    } else {
      var s' := MovementStep(s, ticks[0].here, ticks[0].arrived);
      if |s.moves| == 1 {
        assert s'.moves == s.moves;
      } else {
        assert s'.moves == s.moves[1..];
      }
      ArrivalsReachLastMove(s', ticks[1..]);
    }
  }

  /**
   * When a second move joins a single move an idle agent never started, the
   * next tick drops the first move unvisited: the agent starts moving with only
   * the second move queued, and no velocity towards the first was ever written.
   * The tick after that heads for the second move.
   */
  lemma SecondMoveDropsFirst(s: Motion, ticks: seq<Tick>, second: CellMove, t1: Tick, t2: Tick)
    requires !s.moving && |s.moves| == 1
    ensures var idle := Run(s, ticks);
      var r1 := MovementStep(idle.(moves := idle.moves + [second]), t1.here, t1.arrived);
      var r2 := MovementStep(r1, t2.here, t2.arrived);
      && r1.moving && r1.moves == [second] && r1.currentMove == s.moves[0]
      && r1.velocity == s.velocity && r1.preview == s.preview
      && r2.currentMove == second
      && (!t2.arrived ==> r2.velocity == Toward(t2.here, second.positionWorld))
  {
    IdleSingleMoveNeverStarts(s, ticks);
  }
}
