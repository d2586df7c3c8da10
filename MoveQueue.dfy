/**
 * An agent's queue of pending moves: a list used first-in first-out, and the
 * path preview drawn from it (the agent's position followed by every queued
 * destination, on the agents' drawing layer).
 */
module MoveQueues {
  import opened Engine
  import Maps

  /** One queued destination: a map cell and the world position of its centre. */
  datatype CellMove = CellMove(positionMap: Vector2Int, positionWorld: Vector3)
  {
    /** The constructor keeps the cell and the world x and y, and flattens z to 0. */
    static function Create(positionMap: Vector2Int, positionWorld: Vector3): (m: CellMove)
      ensures m.positionMap == positionMap
      ensures m.positionWorld.x == positionWorld.x && m.positionWorld.y == positionWorld.y
      ensures m.positionWorld.z == 0.0
    {
      CellMove(positionMap, positionWorld.(z := 0.0))
    }
  }

  /** A world position moved onto the agents' drawing layer. */
  function OnAgentLayer(p: Vector3): (r: Vector3) {
    p.(z := Maps.AgentLayer)
  }

  /**
   * The vertices of the path preview, built one queued move at a time: the
   * start point, then the destination of each move in queue order.
   */
  function PathPreview(start: Vector3, moves: seq<CellMove>): (vertices: seq<Vector3>)
    ensures |vertices| == |moves| + 1
    ensures vertices[0].x == start.x && vertices[0].y == start.y
    ensures forall i :: 0 <= i < |moves| ==>
      vertices[i + 1].x == moves[i].positionWorld.x && vertices[i + 1].y == moves[i].positionWorld.y
    ensures forall i :: 0 <= i < |vertices| ==> vertices[i].z == Maps.AgentLayer
  {
    if moves == [] then [OnAgentLayer(start)]
    else PathPreview(start, moves[..|moves| - 1]) + [OnAgentLayer(moves[|moves| - 1].positionWorld)]
  }

  class MoveQueue {
    var moves: seq<CellMove>

    /** A new queue is empty. */
    constructor ()
      ensures moves == []
    {
      moves := [];
    }

    /** The number of queued moves; zero exactly when the queue is empty. */
    function Count(): (r: nat)
      reads this
      ensures r == |moves|
      ensures r == 0 <==> moves == []
    {
      |moves|
    }

    /** Appends at the tail; everything already queued stays where it was. */
    method Add(move: CellMove)
      modifies this
      ensures moves == old(moves) + [move]
      ensures Count() == old(Count()) + 1
    {
      moves := moves + [move];
    }

    /** Removes the head; the rest keep their order. */
    method Next()
      requires moves != []
      modifies this
      ensures moves == old(moves)[1..]
      ensures Count() == old(Count()) - 1
    {
      moves := moves[1..];
    }

    /** The head: the move queued earliest of those still queued. */
    function GetCurrentMove(): (r: CellMove)
      reads this
      requires moves != []
      ensures r == moves[0]
    {
      moves[0]
    }

    /** The vertices handed to the path renderer, written one corner at a time. */
    method Draw(startPositionWorld: Vector3) returns (vertices: seq<Vector3>)
      ensures vertices == PathPreview(startPositionWorld, moves)
    {
      vertices := [OnAgentLayer(startPositionWorld)];
      for index := 0 to |moves|
        invariant vertices == PathPreview(startPositionWorld, moves[..index])
      {
        var lineCorner := OnAgentLayer(moves[index].positionWorld);
        assert moves[..index + 1][..index] == moves[..index];
        vertices := vertices + [lineCorner];
      }
      assert moves[..|moves|] == moves;
    }
  }

  /** Moves come out of the queue in the order they were added. */
  method InsertionOrder(m1: CellMove, m2: CellMove, m3: CellMove) returns (first: CellMove, second: CellMove, third: CellMove, left: nat)
    ensures first == m1 && second == m2 && third == m3
    ensures left == 0
  {
    var q := new MoveQueue();
    q.Add(m1);
    q.Add(m2);
    q.Add(m3);
    first := q.GetCurrentMove();
    q.Next();
    second := q.GetCurrentMove();
    q.Next();
    third := q.GetCurrentMove();
    q.Next();
    left := q.Count();
  }
}
