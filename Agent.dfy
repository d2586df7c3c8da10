/**
 * An agent on the map: its transform position, the cell and world position it
 * last observed, its move queue and movement flags, and the commands that act
 * on them (teleporting, enqueueing a random destination, the per-frame
 * movement update).
 */
module Agents {
  import opened Engine
  import opened Maps
  import opened MoveQueues
  import opened Movement

  class Agent {
    var CurrentMap: Map
    var currentPositionMap: Vector2Int
    var currentPositionWorld: Vector3
    var moving: bool
    var moveQueue: MoveQueue
    var currentMove: CellMove
    var zLayer: real
    /** The transform's position, which teleports set and physics moves. */
    var position: Vector3
    /** The last velocity written to the rigid body. */
    var velocity: Velocity
    /** The vertices last handed to the path renderer. */
    var preview: seq<Vector3>

    /** The agent's map has been initialised. */
    ghost predicate Valid()
      reads this, CurrentMap
    {
      CurrentMap.Valid() && CurrentMap.isInitialized
    }

    /** The part of the state the movement update works on. */
    function MotionState(): Motion
      reads this, moveQueue
    {
      Motion(moving, currentMove, moveQueue.moves, velocity, preview)
    }

    /**
     * The state the agent starts in: on the agents' layer, teleported to the
     * centre of cell (0, 0), with that cell as its current move, idle and with
     * an empty queue.
     */
    constructor (level: Map)
      requires level.Valid() && level.isInitialized
      ensures Valid() && CurrentMap == level && fresh(moveQueue)
      ensures zLayer == AgentLayer && currentPositionMap == Vector2Int(0, 0)
      ensures position == level.GetCellCenterWorldOf(Vector2Int(0, 0)).(z := AgentLayer)
      ensures currentPositionWorld == level.GetCellCenterWorldOf(Vector2Int(0, 0))
      ensures currentMove == CellMove.Create(Vector2Int(0, 0), currentPositionWorld)
      ensures !moving && moveQueue.moves == [] && velocity == Zero && preview == []
    {
      CurrentMap := level;
      zLayer := AgentLayer;
      currentPositionMap := Vector2Int(0, 0);
      position := level.GetCellCenterWorldOf(Vector2Int(0, 0)).(z := AgentLayer);
      currentPositionWorld := level.GetCellCenterWorldOf(Vector2Int(0, 0));
      currentMove := CellMove.Create(Vector2Int(0, 0), level.GetCellCenterWorldOf(Vector2Int(0, 0)));
      moveQueue := new MoveQueue();
      moving := false;
      velocity := Zero;
      preview := [];
    }

    /** Puts the agent at the centre of cell (cellX, cellY), at its own depth. */
    method TeleportCellCenter(cellX: Int32, cellY: Int32)
      requires Valid()
      modifies this`position
      ensures position == CurrentMap.GetCellCenterWorld(cellX, cellY).(z := zLayer)
    {
      var cellCenterWorld := CurrentMap.GetCellCenterWorld(cellX, cellY);
      position := cellCenterWorld.(z := zLayer);
    }

    /** The overload that takes the cell as one vector. */
    method TeleportCellCenterOf(positionMap: Vector2Int)
      requires Valid()
      modifies this`position
      ensures position == CurrentMap.GetCellCenterWorldOf(positionMap).(z := zLayer)
    {
      var cellCenterWorld := CurrentMap.GetCellCenterWorldOf(positionMap);
      position := cellCenterWorld.(z := zLayer);
    }

    /** Puts the agent at the centre of a random cell of the map (the T key). */
    method TeleportRandomCell(sampleX: Sample, sampleY: Sample)
      requires Valid()
      modifies this`position
      ensures position == CurrentMap.GetRandomCellCenterWorld(sampleX, sampleY).(z := zLayer)
    {
      var cellCenterWorld := CurrentMap.GetRandomCellCenterWorld(sampleX, sampleY);
      position := cellCenterWorld.(z := zLayer);
    }

    /** Queues a move to a random cell of the map (the W key). */
    method EnqueueRandomMove(sampleX: Sample, sampleY: Sample)
      requires Valid()
      modifies moveQueue
      ensures var cell := CurrentMap.GetRandomPositionMap(sampleX, sampleY);
        && CurrentMap.InBounds(cell)
        && moveQueue.moves == old(moveQueue.moves) + [CellMove.Create(cell, CurrentMap.GetCellCenterWorldOf(cell))]
    {
      var cellPosition := CurrentMap.GetRandomPositionMap(sampleX, sampleY);
      var worldPosition := CurrentMap.GetCellCenterWorldOf(cellPosition);
      moveQueue.Add(CellMove.Create(cellPosition, worldPosition));
    }

    /**
     * The per-frame movement update: observe the position (flattened to depth
     * 0) and its cell, then take one step of the movement state machine.
     */
    method UpdateMovement(arrived: bool)
      requires Valid()
      modifies this, moveQueue
      ensures Valid() && CurrentMap == old(CurrentMap) && moveQueue == old(moveQueue)
      ensures position == old(position) && zLayer == old(zLayer)
      ensures currentPositionWorld == old(position).(z := 0.0)
      ensures currentPositionMap == CurrentMap.GetPositionMap(currentPositionWorld)
      ensures MotionState() == MovementStep(old(MotionState()), currentPositionWorld, arrived)
    {
      currentPositionWorld := position.(z := 0.0);
      currentPositionMap := CurrentMap.GetPositionMap(currentPositionWorld);

      if moveQueue.Count() > 0 {
        currentMove := moveQueue.GetCurrentMove();

        if moving {
          velocity := Toward(currentPositionWorld, currentMove.positionWorld);
          preview := moveQueue.Draw(currentPositionWorld);
        }

        if moving && arrived {
          moving := false;
          velocity := Zero;
        }

        if !moving && moveQueue.Count() > 1 {
          moveQueue.Next();
          moving := true;
        }
      }
    }
  }

  /**
   * An agent teleported to the centre of a cell observes that cell on its next
   * movement update, whatever its depth.
   */
  lemma TeleportedAgentLocatesCell(m: Map, c: Vector2Int, zLayer: real)
    requires m.isInitialized && m.GroundTilemap.Consistent()
    ensures m.GetPositionMap(m.GetCellCenterWorldOf(c).(z := zLayer).(z := 0.0)) == c
  {
    var centre := m.GetCellCenterWorldOf(c);
    PositionMapIgnoresDepth(m, centre, 0.0);
    PositionMapInvertsCellCenter(m, c);
  }
}
