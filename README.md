# Map and agent movement of DontSweatIt, in Dafny

A model of the two pieces of logic in this Unity prototype of a 2D tile game:

- **The map** (`Map`, Assets/Scripts/Map.cs). It is initialised lazily and once, from the
  Grid it sits on. It records the ground tilemap's origin and extents, takes the grid's cell
  size only when it is square, and fills a `SizeX × SizeY` array of tiles that are all
  traversable. It converts between map cells and world positions by adding or subtracting the
  origin around the tilemap's own lookups, and it draws random cells.
- **Agent movement** (`CellMove`, `MoveQueue` and `Agent`, Assets/Scripts/Agent.cs). Each
  agent has a first-in first-out queue of cell moves and a path preview drawn from it. Each
  frame a movement update runs a two-flag state machine over `moving`, `currentMove` and the
  queue. Teleports put the agent on a cell centre at its own drawing depth.

Files:

- `Engine.dfy` holds the engine-side values: Unity's vectors, C#'s wrapping 32-bit `int`
  arithmetic, the ground tilemap, and System.Random's `Next(lo, hi)`.
- `Map.dfy` holds the `Map` class.
- `MoveQueue.dfy` holds `CellMove`, the `MoveQueue` class and the path preview.
- `Movement.dfy` holds the per-tick state machine as a function, `MovementStep`, and
  lemmas about runs of ticks.
- `Agent.dfy` holds the `Agent` class. Its `UpdateMovement` is proved to perform exactly one
  `MovementStep`.

Foreign code and inputs:

- The tilemap's `WorldToCell` and `GetCellCenterWorld` are function values inside the
  `Tilemap` datatype. What the engine is assumed to guarantee of them is the predicate
  `Tilemap.Consistent`: `WorldToCell` maps the centre of each cell of layer 0 back to that
  cell's x and y, and the x and y of the cell it finds do not depend on the depth (z) of the
  position. Lemmas that need it take it as a precondition.
- The random source is a parameter. Each draw is a `Sample` in [0, 1), and
  `Next(lo, hi)` is `lo + (int)(sample * (hi - lo))`.
- The test "within 0.1 of the destination" is the boolean input `arrived`.
- A velocity write is the command `Zero` or `Toward(from, target)`. `Toward` stands for the
  unit vector from `from` to `target`, times the agent's speed. Unity's `Normalize` gives the
  zero vector when the difference is near zero, so `Toward(p, p)` stands for zero velocity.
- World coordinates are `real`s, and integer cells are C# `int`s with wrap-around. Under
  `Tilemap.Consistent`, the round trip from cell to world and back is proved even when adding
  the origin overflows.

Behaviour of the movement update, as written:

- With one queued move and `moving == false`, nothing ever starts (`IdleSingleMoveNeverStarts`).
- When a second move is queued, the first is removed without ever being headed for
  (`SecondMoveDropsFirst`).
- On arrival the agent stops. It restarts only if more than one move remains.
- The update never empties the queue, and it removes at most one move per tick (`QueueNeverEmptied`).
- `currentMove` is read before the queue advances. So after an advancing tick it still
  names the move that was just removed.
- The path preview is redrawn only while the agent is moving.

## Model

| member | source | states |
|---|---|---|
| `Engine.SubUndoesAdd` | Assets/Scripts/Map.cs:160-193 | subtracting the origin from a cell the origin was added to gives back the cell, with C# int wrap-around |
| `Engine.AddUndoesSub` | Assets/Scripts/Map.cs:160-165 | adding the origin back to a cell the origin was subtracted from gives back the cell, with C# int wrap-around |
| `Engine.RandomNext` | Assets/Scripts/Map.cs:169-170 | `Next(lo, hi)` returns a value in [lo, hi) when lo < hi, and lo when lo == hi |
| `Engine.RandomNextReaches` | Assets/Scripts/Map.cs:169-170 | every value in [lo, hi) is returned for some sample |
| `Maps.Map.constructor` | Assets/Scripts/Map.cs:80 | a new map is not initialised and has no tile array |
| `Maps.Map.ForceInitialize` | Assets/Scripts/Map.cs:90-145 | origin, extents and tilemap come from the ground tilemap; `CellSize` is replaced only when the grid's cell size is square, and otherwise keeps its old value, the error is reported and initialisation still completes; the tile array is new, `SizeX × SizeY`, every tile traversable; the map is initialised; a ground tilemap of at most 2 columns or at most 3 rows is excluded, because the logged `tiles[2, 3]` would be out of range |
| `Maps.Map.Initialize` | Assets/Scripts/Map.cs:82-88 | on an initialised map it changes nothing; otherwise it has the effect of `ForceInitialize`; afterwards the map is initialised |
| `Maps.Map.GetPositionMap` | Assets/Scripts/Map.cs:160-165 | the map cell of a world position is the tilemap cell minus the origin: adding the origin back to it gives the tilemap cell's x and y, even across wrap-around (its use is stated by `PositionMapInvertsCellCenter`) |
| `Maps.Map.GetCellCenterWorld` | Assets/Scripts/Map.cs:181-186 | under the engine assumption, locating the returned world centre with `GetPositionMap` gives back the cell (x, y): the origin added before the lookup is the one subtracted after it |
| `Maps.Map.GetCellCenterWorldOf` | Assets/Scripts/Map.cs:181-193 | the vector overload gives the same world centre as the (x, y) overload, for every cell |
| `Maps.Map.GetRandomPositionMap` | Assets/Scripts/Map.cs:167-172 | a random cell satisfies 0 <= x < SizeX and 0 <= y < SizeY |
| `Maps.Map.GetRandomCellCenterWorld` | Assets/Scripts/Map.cs:200-204 | the result is the centre of some cell inside the map, whatever the tile there; `RandomCellCenterLocates` and `RandomCellCenterReaches` state that it locates inside the map and that every such centre can be drawn |
| `Maps.PositionMapInvertsCellCenter` | Assets/Scripts/Map.cs:160-193 | under the tilemap round trip, `GetPositionMap(GetCellCenterWorld(c)) == c` for every cell `c`: the origin that is added is the one subtracted |
| `Maps.PositionMapIgnoresDepth` | Assets/Scripts/Map.cs:160-165 | the map cell of a position does not depend on its z; this restates the depth half of the `Tilemap.Consistent` engine assumption at the level of map cells, and the code adds nothing to it |
| `Maps.RandomPositionReaches` | Assets/Scripts/Map.cs:167-172 | every cell inside the map is drawn for some pair of samples |
| `Maps.RandomCellCenterLocates` | Assets/Scripts/Map.cs:195-204 | a random cell centre locates to a cell inside the map |
| `Maps.RandomCellCenterReaches` | Assets/Scripts/Map.cs:195-204 | the centre of every cell inside the map is a possible random cell centre, whatever the tiles say |
| `MoveQueues.CellMove.Create` | Assets/Scripts/Agent.cs:14-19 | a move keeps the given cell and the world x and y, and its world z is 0 |
| `MoveQueues.PathPreview` | Assets/Scripts/Agent.cs:64-76 | the preview has `Count + 1` vertices: vertex 0 is at the start point, vertex `i + 1` is at move `i`'s world position, and every vertex is on the agent layer |
| `MoveQueues.MoveQueue.constructor` | Assets/Scripts/Agent.cs:34-41 | a new queue is empty |
| `MoveQueues.MoveQueue.Count` | Assets/Scripts/Agent.cs:43-46 | the count is the number of queued moves, and it is 0 exactly when the queue is empty; `Add` and `Next` state how it changes |
| `MoveQueues.MoveQueue.Add` | Assets/Scripts/Agent.cs:48-52 | the new queue is the old one with the move at the tail, and `Count` grows by 1 |
| `MoveQueues.MoveQueue.Next` | Assets/Scripts/Agent.cs:54-57 | on a non-empty queue it removes exactly the head, keeps the rest in order, and `Count` drops by 1 |
| `MoveQueues.MoveQueue.GetCurrentMove` | Assets/Scripts/Agent.cs:59-62 | on a non-empty queue it returns the head; with `Add` and `Next` this is the earliest move still queued, as `InsertionOrder` shows |
| `MoveQueues.MoveQueue.Draw` | Assets/Scripts/Agent.cs:64-76 | the vertices written one corner at a time are the path preview of the queue from the start point |
| `MoveQueues.InsertionOrder` | Assets/Scripts/Agent.cs:43-62 | three moves added and then taken with `GetCurrentMove` and `Next` come out in insertion order, and the queue ends empty |
| `Movement.MovementStep` | Assets/Scripts/Agent.cs:233-260 | an empty queue changes nothing; otherwise `currentMove` becomes the head as it was before the tick, and the queue is never emptied; the head is removed exactly when more than one move is queued and the agent was idle or has arrived; the agent moves afterwards exactly when it advanced or was moving and has not arrived; arriving while moving leaves velocity zero; moving without arriving heads for the old head; the preview is redrawn from the old queue while moving; when idle, velocity and preview are untouched |
| `Movement.EmptyQueueInert` | Assets/Scripts/Agent.cs:228-233 | with an empty queue, any number of ticks leave the movement state unchanged |
| `Movement.IdleSingleMoveNeverStarts` | Assets/Scripts/Agent.cs:256-260 | an idle agent with one queued move stays idle forever; the move stays queued and no velocity or preview is written |
| `Movement.QueueNeverEmptied` | Assets/Scripts/Agent.cs:233-260 | over any run of ticks a non-empty queue stays non-empty, loses at most one move per tick, and is always a suffix of the original, in order |
| `Movement.ArrivalsReachLastMove` | Assets/Scripts/Agent.cs:250-260 | if every tick reports arrival, after one tick fewer than there are moves only the last move is left |
| `Movement.SecondMoveDropsFirst` | Assets/Scripts/Agent.cs:233-260 | when a second move joins an idle single move, the next tick removes the first unvisited and starts moving, with no velocity written towards it; `currentMove` still names the removed move; the tick after heads for the second move |
| `Agents.Agent.constructor` | Assets/Scripts/Agent.cs:122-147 | the agent starts on the agent layer, teleported to the centre of cell (0, 0), with that cell as its current move, idle, with an empty queue |
| `Agents.Agent.TeleportCellCenter` | Assets/Scripts/Agent.cs:158-163 | the position becomes the centre of cell (x, y), with z replaced by `zLayer` |
| `Agents.Agent.TeleportCellCenterOf` | Assets/Scripts/Agent.cs:165-170 | the position becomes the centre of the given cell, with z replaced by `zLayer` |
| `Agents.Agent.TeleportRandomCell` | Assets/Scripts/Agent.cs:176-181 | the position becomes the random cell centre, with z replaced by `zLayer` |
| `Agents.Agent.EnqueueRandomMove` | Assets/Scripts/Agent.cs:206-211 | the queue gains, at its tail, the move to a random cell inside the map and that cell's centre |
| `Agents.Agent.UpdateMovement` | Assets/Scripts/Agent.cs:226-262 | the observed world position is the transform position with z set to 0, and the observed cell is that position's map cell; the moving flag, current move, queue, velocity and preview take exactly one `MovementStep`; the transform and the map are untouched |
| `Agents.TeleportedAgentLocatesCell` | Assets/Scripts/Agent.cs:158-170 | an agent teleported to a cell centre, at any depth, observes that cell on its next movement update |

## Left out

- Assets/Scripts/Controls.cs is not part of this model. It only polls the mouse, projects through the camera and logs.
- Unity wiring is not modelled: the `Start` and `Update` callbacks, `GameObject.Find("Grid")`, `GetChild` and `GetComponent`. `Agent.Start` becomes the `Agent` constructor, which takes an already initialised map in place of calling `Map.Initialize` itself.
- `Debug.Log` and `Debug.LogError` are not modelled. The cell-size error is reported as `ForceInitialize`'s result, and the logged read of `tiles[2, 3]` is kept as a read.
- Loading `TerrainTilemap` (Map.cs:122-124) is not modelled, because it is only logged. `BaseGrid` is reduced to its cell size.
- The `random` field is left out. Its draws come in as `Sample` parameters, in the order the code makes them (x, then y).
- Tilemap internals (`WorldToCell`, `GetCellCenterWorld`, `origin`, `cellBounds`) are left out. They are function values and fields of `Tilemap`, constrained only by `Tilemap.Consistent`.
- `Tilemap.Consistent` is assumed for every `int` cell, but a float32 tilemap only round-trips cells of magnitude below about 2^24. Most cells reached by an overflowing origin addition are therefore outside what the engine provides. For example, with origin 10, map cell 2^31 − 6 wraps to −2^31 + 4, whose float32 centre rounds to −2^31 and locates back to map cell 2^31 − 10. So the wrap-around round trip in `PositionMapInvertsCellCenter` describes the integer arithmetic of Map.cs, not float32 engine behaviour.
- Float vector maths is left out: `Normalize`, `Vector3.Distance(...) < 0.1` (replaced by `arrived`), `direction * moveSpeed` (replaced by `Toward`) and float rounding (reals are used).
- `GetDirectionWorld` (Agent.cs:186-197) is not modelled. It is float-only and nothing calls it.
- The rigid body's integration of velocity into position between frames is not modelled. `UpdateMovement` reads whatever `position` holds.
- The Space-key `Time.timeScale` toggle is left out. Key detection in `Agent.Update` is left out too; the T and W keys' effects are `TeleportRandomCell` and `EnqueueRandomMove`, which a caller runs before `UpdateMovement` as `Update` does.
- The `LineRenderer` is not modelled. `Draw` returns its vertices, and the agent keeps the last ones drawn in `preview`, which starts empty. The renderer's initial vertices and the queue's `visible` flag are not modelled.
- `Tile.ToString` is left out.
