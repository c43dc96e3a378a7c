# strat: the deterministic simulation and its lockstep protocol, in Dafny

This project models the core of strat, a small real-time strategy game. Every
client runs the same simulation, and a server keeps the clients in step by
broadcasting one list of orders per tick. The model covers:

- **the wire codec** (`bitstream.dfy`, `order.dfy`, `settings.dfy`,
  `message.dfy`). The byte writer and reader are classes, and the primitives
  are raw fixed-width little-endian bytes. Strings and vectors carry a
  `size_t` length prefix, and orders, game settings and messages are tagged
  unions. Each encoding is a pure function, each decoding a pure function
  that returns the value and the unread rest, and the read/write methods are
  proved against them.
- **shared definitions** (`defs.dfy`): ids, building and resource kinds, the
  building size table, and the squared Euclidean and Manhattan distances.
- **the terrain grid** (`terrain.dfy`, `grid.dfy`). Map generation,
  `crater` and `raise` are modelled, and so is the two-phase `tick`:
  growth, then the neighbour cascade. So are `raiseWaterLevel` and the water
  flow of `waterTick`. The grid is an `array2` owned by the `Map` class.
- **the components** (`components.dfy`): buildings and their blocks, the
  main building's build queue, miners, and flying objects with their cargo.
- **the simulation state** (`simstate.dfy`): players and their resources,
  the entity store, building placement and `findClosestBuilding`, order
  validation and execution, and the creation of buildings, trees and
  flying objects.
- **the systems and the tick** (`systems.dfy`, `sim.dfy`). These are the
  miner, flying-object, main-building and landing systems, and
  `Sim::runTick`, which runs a tick's orders, then the terrain, then the
  systems.
- **the lockstep protocol** (`server.dfy`, `client.dfy`). The server admits
  players and starts the game. It buffers orders and starts a tick only
  when every client has caught up. The client checks its own orders before
  sending them. It runs exactly the orders a SERVER_TICK carries, and it
  reports each tick done at most once.

Some choices hold throughout the model:

- `Fixed` is modelled by `real`, and `Fixed::toInt` by `Floor`, which is only
  applied to non-negative values.
- An entity is its `GameObject` id. The ids come from `++entityCounter` and
  are never reused, so the store is a `map<EntityId, Entity>` and a dead
  handle is simply an id that is no longer in it.
- Whatever the source draws from outside is a parameter: the Perlin noise
  heights, `rand()`, `glfwGetTime`, ENet, the blocks and costs of
  `buildingTypeInfo`, `GridPoint::usable` and the neighbourhood of
  `forNeighbors`.
- The order in which the source visits a `std::set` (the growing points, the
  neighbours of `forNeighbors`) is a nondeterministic choice, and every
  result is proved for any such order.
- The entity manager is visited in ascending id order, from 1 to
  `entityCounter`: each system is stated as a trace with one step per id.

The model follows the code in these places:

- BUILD does not check that the main building belongs to the ordering
  player (`game/SimState.cc:121-140`).
- `raise` adds one level when the heights never drop in scan order, not only
  when they are all equal (`game/Map.cc:68-78`).
- A miner's fractional stock is lost when it launches, not kept
  (`game/SimSystems.cc:22-25`).
- A resource lands on any STORE, finished or not, and goes to the store's
  owner (`game/SimSystems.cc:67-75`).
- `Map::raiseWaterLevel` makes every point of height 0 a water source when
  the level is positive (`game/Map.cc:171-180`).
- A rocket divides the water of the hit point's own neighbours. It does not
  reach a second ring: the inner `forNeighbors` again visits the neighbours
  of the hit point (`game/SimSystems.cc:129-135`).
- Flow can drive water below zero (`TerrainRules.FlowCanDrainBelowZero`).
  A point whose growth target returns to 0 through a later `crater` can keep
  a non-zero progress.

## Model

| member | source | states |
|---|---|---|
| BitStream.Bytes | common/BitStream.hh:51-53 | the raw bytes of a fixed-width value have exactly that width |
| BitStream.Value | common/BitStream.hh:67-69 | the value read from n bytes is below 256^n |
| BitStream.ValueOfBytes | common/BitStream.hh:51-69 | reading back the bytes written for a value gives the value |
| BitStream.BytesInjective | common/BitStream.hh:51-53 | two values of one width with the same bytes are equal |
| BitStream.DecodePrim | common/BitStream.hh:67-69 | a primitive read succeeds exactly when `width` bytes remain, and it consumes exactly those |
| BitStream.DecodePrimBytes | common/BitStream.hh:51-69 | a written primitive is read back whatever follows it, leaving exactly what followed |
| BitStream.EncodeString | common/BitStream.cc:65-70 | a string is its 8-byte length, then its characters, with no terminator |
| BitStream.DecodeString | common/BitStream.cc:72-81 | a decoded string is non-empty and fits in what was read |
| BitStream.DecodeEncodeString | common/BitStream.cc:65-81 | a non-empty string round-trips and leaves what followed |
| BitStream.EmptyStringRejected | common/BitStream.cc:72-81 | an empty string is written as its prefix alone and cannot be read back, since readBytes asserts a positive size |
| BitStream.EncodeSeq | common/BitStream.hh:57-63 | a vector is its size, then the concatenated elements in order |
| BitStream.DecodeElems | common/BitStream.hh:80-81 | decoding n elements yields exactly n of them |
| BitStream.DecodeElemsConcat | common/BitStream.hh:57-82 | elements that each round-trip also round-trip when concatenated, in order |
| BitStream.DecodeEncodeSeq | common/BitStream.hh:57-82 | a vector whose elements round-trip round-trips with its order kept |
| BitStream.EmptySeq | common/BitStream.hh:57-82 | an empty vector is its size prefix alone, and it decodes to an empty vector |
| BitStream.DecodeElemsStep | common/BitStream.hh:80-81 | one element read is the first of the remaining ones, and the others follow from where it ended |
| BitStream.Writer.constructor | common/BitStream.cc:7-8 | a new writer is empty |
| BitStream.Writer.WriteBytes | common/BitStream.cc:10-17 | a non-empty write appends exactly its data and keeps the earlier bytes |
| BitStream.Writer.Reset | common/BitStream.cc:29-31 | reset empties the buffer, so its size is 0 |
| BitStream.WritePrim | common/BitStream.hh:51-53 | the buffer grows by exactly the raw bytes of the value |
| BitStream.WriteString | common/BitStream.cc:65-70 | the buffer grows by exactly EncodeString |
| BitStream.Reader.constructor | common/BitStream.cc:37-41 | a reader starts at position 0 over a non-empty buffer |
| BitStream.Reader.Rest | common/BitStream.cc:56-58 | the unread bytes are exactly those after the position |
| BitStream.Reader.Eof | common/BitStream.cc:52-54 | eof holds exactly when nothing is left to read |
| BitStream.Reader.ReadBytes | common/BitStream.cc:43-50 | the bytes read are the next `size` ones, and the rest follows them |
| BitStream.Reader.Skip | common/BitStream.cc:60-63 | skipping drops exactly `offset` bytes of the rest and never passes the end |
| BitStream.ReadPrim | common/BitStream.hh:67-69 | the value and the new rest are what DecodePrim gives |
| BitStream.ReadString | common/BitStream.cc:72-81 | the string and the new rest are what DecodeString gives |
| Defs.BuildingTypeFromOrdinal | common/Defs.cc:5-10 | an ordinal names a building type exactly when it is below BUILDING_MAX, and then the type has that ordinal (the four types of the size table; the stale enum of common/Defs.hh:17-22 is discussed under Left out) |
| Defs.BuildingTypeOrdinalRoundTrip | common/Defs.cc:5-10 | every building type is recovered from its ordinal |
| Defs.SqDistance | common/Defs.cc:12-16 | the squared distance is 0 exactly for equal points |
| Defs.SqDistanceSymmetric | common/Defs.cc:12-16 | the squared distance is symmetric |
| Defs.ManhattanDistance | common/Defs.cc:18-20 | the distance is non-negative, and 0 exactly when x and y agree (z is ignored) |
| Defs.ManhattanSymmetric | common/Defs.cc:18-20 | the Manhattan distance is symmetric |
| Defs.ManhattanTriangle | common/Defs.cc:18-20 | the Manhattan distance obeys the triangle inequality |
| Defs.HalfOffsetDistance | game/SimState.cc:341-346 | a point offset by a half in x is never at distance 0 from a grid-aligned point |
| Orders.Tag | common/Order.hh:10-19 | a tag fits the 4-byte enum, is 0 only for UNDEFINED, and is 7 or more exactly for a type past RAISE_MAP, which carries no fields |
| Orders.DecodeOrder | common/Order.cc:7-44 | a decoded order is never UNDEFINED |
| Orders.BuildRoundTrip | common/Order.cc:15-20 | the BUILD fields (object id, type, x, y) round-trip |
| Orders.ConstructRoundTrip | common/Order.cc:21-25 | the CONSTRUCT fields (queue, from, to) round-trip |
| Orders.AttackRoundTrip | common/Order.cc:26-30 | the ATTACK fields (object id, x, y) round-trip |
| Orders.RaiseMapRoundTrip | common/Order.cc:37-42 | the RAISE_MAP fields (x, y, w, h) round-trip |
| Orders.DecodeEncodePayload | common/Order.cc:11-43 | the payload of every variant but UNDEFINED is read back under its own tag |
| Orders.DecodeEncodeOrder | common/Order.cc:7-83 | every order but UNDEFINED round-trips and consumes exactly its own bytes |
| Orders.UndefinedRejected | common/Order.cc:12-14 | an UNDEFINED order never decodes, whatever follows |
| Orders.WritePayload | common/Order.cc:50-82 | the buffer grows by exactly the active variant's fields |
| Orders.WriteOrder | common/Order.cc:46-83 | the buffer grows by exactly EncodeOrder |
| Orders.ReadBuild | common/Order.cc:15-20 | the BUILD fields read are those DecodeBuild gives, and so is the rest |
| Orders.ReadConstruct | common/Order.cc:21-25 | the CONSTRUCT fields read are those DecodeConstruct gives |
| Orders.ReadAttack | common/Order.cc:26-30 | the ATTACK fields read are those DecodeAttack gives |
| Orders.ReadObjectId | common/Order.cc:31-36 | the STOP/REMOVE object id read is the one DecodeObjectId gives |
| Orders.ReadRaiseMap | common/Order.cc:37-42 | the RAISE_MAP fields read are those DecodeRaiseMap gives |
| Orders.ReadPayload | common/Order.cc:11-43 | the variant read under any tag but UNDEFINED is the one DecodePayload gives; a tag past RAISE_MAP reads nothing more |
| Orders.ReadOrder | common/Order.cc:7-44 | the order read and the rest are what DecodeOrder gives |
| Orders.DecodeEncodeOrders | common/BitStream.hh:57-82 | a list of orders round-trips with its order kept |
| Orders.WriteOrders | common/BitStream.hh:57-63 | the buffer grows by exactly the count and then each order |
| Orders.ReadOrders | common/BitStream.hh:73-82 | the orders read and the rest are what DecodeOrders gives |
| Orders.ReadOrderElems | common/BitStream.hh:80-81 | the element loop reads exactly the orders the decoder gives, in order |
| Settings.DecodeEncodePlayer | common/GameSettings.cc:5-17 | a player with a non-empty name round-trips |
| Settings.EmptyNameRejected | common/GameSettings.cc:5-17 | a player with an empty name cannot be read back |
| Settings.DecodeEncodeNumbers | common/GameSettings.cc:21-34 | the seed, map size, height limit and tick length round-trip |
| Settings.DecodeEncodeSettings | common/GameSettings.cc:19-35 | settings whose player names are all non-empty round-trip with the player order kept |
| Settings.WritePlayer | common/GameSettings.cc:12-17 | the buffer grows by exactly EncodePlayer |
| Settings.ReadPlayer | common/GameSettings.cc:5-10 | the player read and the rest are what DecodePlayer gives |
| Settings.WritePlayers | common/BitStream.hh:57-63 | the buffer grows by exactly the encoded player vector |
| Settings.ReadPlayers | common/BitStream.hh:73-82 | the players read and the rest are what the vector decoder gives |
| Settings.ReadPlayerElems | common/BitStream.hh:80-81 | the element loop reads exactly the players the decoder gives, in order |
| Settings.WriteSettings | common/GameSettings.cc:28-35 | the buffer grows by exactly EncodeSettings |
| Settings.ReadSettings | common/GameSettings.cc:19-26 | the settings read and the rest are what DecodeSettings gives |
| Messages.TypeTag | common/Message.hh:16-28 | a type fits the 4-byte enum, is 0 only for UNDEFINED, and is 7 or more exactly for a type past SERVER_START, which carries no payload |
| Messages.DecodeMessage | common/Message.cc:49-72 | a decoded message is never UNDEFINED |
| Messages.DecodeEncodeBody | common/Message.cc:49-99 | every payload is read back under its own tag |
| Messages.DecodeEncodeMessage | common/Message.cc:49-99 | every message write accepts is read back as itself, and exactly its bytes are consumed |
| Messages.EncodeMessageInjective | common/Message.cc:74-99 | two writable messages with the same bytes are equal |
| Messages.WriteBody | common/Message.cc:77-98 | the buffer grows by exactly the payload |
| Messages.WriteMessage | common/Message.cc:74-99 | the buffer grows by exactly EncodeMessage |
| Messages.ReadBody | common/Message.cc:49-72 | the message read under any type but UNDEFINED is the one DecodeBody gives; a type past SERVER_START reads nothing more |
| Messages.ToPacket | common/Message.cc:40-47 | a packet holds exactly the encoded message, and it is never empty |
| Messages.FromPacket | server/Server.cc:194-199 | reading a received packet gives the message DecodeMessage gives |
| Messages.PacketRoundTrip | common/Message.cc:40-99 | a message sent as a packet arrives as itself, with nothing left over |
| TerrainRules.BlankPoint | game/Map.cc:7-19 | a new point has height 0, no target, no water, no flags and no entity |
| TerrainRules.Neighbours | game/Map.cc:140-149 | the neighbours are exactly the adjacent points on the map, never the point itself |
| TerrainRules.NeighboursSymmetric | game/Map.cc:140-149 | being neighbours is symmetric |
| TerrainRules.GrowPoint | game/Map.cc:98-125 | a growing point keeps its eventual height and moves at most one step. A step upward spends one unit of positive target and sets cascadeUp; a step downward is the mirror. Below 1, only the progress advances. At 1 or more the water is lost and the overshoot kept, unless the target is reached |
| TerrainRules.GrowToTarget | game/Map.cc:107-125 | a point one step from its target that completes the step stops growing, with zero progress |
| TerrainRules.CraterPoint | game/Map.cc:59-65 | a crater heads for max(height - depth, 0) at rate 8 and changes nothing else |
| TerrainRules.RaisePoint | game/Map.cc:80-85 | a raised point heads for the common target at rate 1 and changes nothing else |
| TerrainRules.RaiseNeighbour | game/Map.cc:139-152 | an up-cascade lifts a neighbour's eventual height to one below the stepped point only when it was lower than that, and it never lowers it |
| TerrainRules.LowerNeighbour | game/Map.cc:153-167 | a down-cascade lowers a neighbour's eventual height to one above the stepped point only when it was higher than that, and it never raises it |
| TerrainRules.Flow | game/Map.cc:192-202 | a flow conserves the water of the pair and only moves water toward the lower surface; a dry or lower neighbour gives nothing |
| TerrainRules.FlowNoOvershoot | game/Map.cc:196-201 | when at most half the difference moves, the receiving surface stays at or below the giving one |
| TerrainRules.FlowCanDrainBelowZero | game/Map.cc:196-200 | nothing bounds a flow by the water the neighbour holds, so a high neighbour with a thin film goes negative |
| TerrainRules.TopUpAndClamp | game/Map.cc:205-214 | after a source's top-up, a point below the level never holds more than reaches the level, and a non-source that is short of it keeps its water |
| Grid.Map.constructor | game/Map.cc:7-19 | a new map has the given size, no growing points and a blank point at every position |
| Grid.Map.Generate | game/Map.cc:21-57 | every height is the noise height minus the floor. The floor is the lowest noise height, or heightLimit if that is lower. maxHeight is the highest floored height |
| Grid.Map.LoadHeights | game/Map.cc:31-44 | every point holds its noise height, and the minimum found is the lowest height or heightLimit |
| Grid.Map.FloorHeights | game/Map.cc:46-54 | every point is lowered by the floor, and maxHeight becomes the highest result |
| Grid.Map.Crater | game/Map.cc:59-65 | only point p changes, to CraterPoint, and p joins the growing set |
| Grid.Map.RectScan | game/Map.cc:68-75 | `top` is the highest point of the rectangle. allMaxHeight holds exactly when the heights never drop in visiting order |
| Grid.Map.RaiseRect | game/Map.cc:80-85 | exactly the rectangle's points head for the target, and exactly they join the growing set |
| Grid.Map.Raise | game/Map.cc:67-86 | the target is at least every height in the rectangle. It equals one of them exactly when the heights drop somewhere in scan order. A flat rectangle rises by one. Nothing outside the rectangle changes |
| Grid.Map.RaiseWaterLevel | game/Map.cc:171-180 | with a positive level, every point of height 0 becomes a water source, and nothing else changes |
| Grid.Map.Nbrs | game/Map.cc:140-149 | the points forNeighbors visits around a point are on the map and are not the point itself |
| Grid.Map.RaiseTargetSpec | game/Map.cc:67-77 | the height raise gives the rectangle is at least each of its heights, equals one of them exactly when some height drops in scan order, and is one above the common height of a flat rectangle |
| Grid.Map.Raised | game/Map.cc:80-85 | Map::raise on values keeps the map's points, sends every rectangle point to the raise target and adds the rectangle to the growing set |
| Grid.Map.Marked | game/SimState.cc:315-319 | marking a rectangle on values keeps the map's points and the growing set |
| Grid.Map.MarkRect | game/SimState.cc:315-319 | the entity occupies exactly the points of its rectangle, nothing else changes, and the grid after is Marked of the grid before, so a map dry above a level stays so |
| Grid.Map.SetEntity | game/SimState.cc:318 | only the one point changes, and it is occupied by the entity |
| Grid.Map.ScaleWater | game/SimSystems.cc:126-127 | a division of one point's water by d >= 1 keeps a share of it and changes nothing else |
| Grid.Map.DryAboveMonotone | game/Map.cc:190-215 | a map dry above a level is dry above every higher level |
| Grid.Map.Grow | game/Map.cc:89-133 | every growing point advances by GrowPoint and the others are unchanged. The points no longer growing leave the set. `destroyed` is exactly the entities on the points that grew |
| Grid.Map.Grown | game/Map.cc:89-133 | after the growth loop on values, exactly the growing points that still had growth ahead stay in the growing set |
| Grid.Map.CascadeUpFrom | game/Map.cc:139-152 | exactly the neighbours of p take RaiseNeighbour, and exactly those whose target changed join the growing set |
| Grid.Map.CascadeDownFrom | game/Map.cc:153-167 | exactly the neighbours of p take LowerNeighbour, and exactly those whose target changed join the growing set |
| Grid.Map.CascadeFrame | game/Map.cc:136-168 | the cascade pass changes only targets and rates, and it clears exactly the flags of the points it visits |
| Grid.Map.CascadeGrowing | game/Map.cc:136-168 | the growing set only gains points next to flagged ones, and every point whose target changed is growing |
| Grid.Map.CascadeSettles | game/Map.cc:136-168 | after the pass, every neighbour of an up-stepped point heads at most one below it. The same holds downward, except next to a point that stepped the other way |
| Grid.Map.CascadeMonotone | game/Map.cc:136-168 | targets only rise away from down-steps and only fall away from up-steps |
| Grid.Map.CascadeClears | game/Map.cc:151-166 | a pass that visits every flagged point leaves no point flagged |
| Grid.Map.CascadeDry | game/Map.cc:136-168 | the cascade changes neither heights nor water, so it keeps every point above the level dry |
| Grid.Map.Cascade | game/Map.cc:136-168 | the map after the second loop is CascadeSpec over the growing points in the visiting order, and no point is flagged |
| Grid.Map.CascadeSpec | game/Map.cc:136-168 | the second loop of Map::tick on values, visiting the points in the given order, keeps the map's points |
| Grid.Map.Tick | game/Map.cc:88-169 | Map::tick is the growth step followed by the cascade over the points still growing. It keeps the map valid and dry above the water level |
| Grid.Map.WaterTick | game/Map.cc:182-218 | the map after is exactly Sweeps of the map before: the columns x = 0, 1, ... in turn, each visiting its points y = 0, 1, ... (Column), each point as WaterVisit says with its neighbours in some order. Only water changes, points at or above the level are untouched, and every visited point below the level ends with at most what reaches the level |
| Grid.Map.WaterCell | game/Map.cc:188-214 | the neighbours are visited in some order `ns` of the forNeighbors set, and the map after is WaterVisit: below the level and short of it, (x, y) draws from each higher neighbour in that order, then below the level it is topped up and clamped; otherwise nothing changes. Only water changes, and only (x, y) gains any |
| Grid.Map.FlowAll | game/Map.cc:192-202 | the flows into a point from its neighbours change only water, and keep every point of the map |
| Grid.Map.FlowAllConserves | game/Map.cc:192-202 | the flows into a point from distinct neighbours conserve water: the point gains exactly what its neighbours lose |
| Grid.Map.WaterVisit | game/Map.cc:188-216 | one point's visit on values keeps every point of the map |
| Grid.Map.Sweeps | game/Map.cc:186-217 | the whole sweep on values keeps every point of the map |
| Grid.Map.SweepsFacts | game/Map.cc:186-217 | a sweep changes only water, keeps a map dry at and above the level dry there, and leaves every visited point with at most what reaches the level |
| Components.NewFlight | game/SimComponents.hh:212-217 | a new flight starts at progress 0 over a positive Manhattan distance between its ends |
| Components.NewBuilding | game/SimComponents.hh:42-49 | a finished building holds every block of its type, an unfinished one none |
| Components.UsableWhenPlaced | game/SimComponents.hh:118-121 | Building::isUsable: a building placed unfinished is not usable, and one placed finished is usable exactly when its point holds no water |
| Components.AddBlock | game/SimComponents.hh:62-74 | a finished building ignores the block. Otherwise it appends the block and is finished exactly when it holds every block of its type |
| Components.IsBlockNeeded | game/SimComponents.hh:80-92 | a block is needed exactly when the type lists it, it was not delivered and no live incoming block carries it |
| Components.AnyBlockNeeded | game/SimComponents.hh:94-103 | the result holds exactly when some block of the type is needed |
| Components.NextNeededBlock | game/SimComponents.hh:105-114 | the block returned is the first needed one in the type's order |
| Components.DeliveredNotNeeded | game/SimComponents.hh:62-92 | a delivered block is no longer needed |
| Components.IncomingNotNeeded | game/SimComponents.hh:76-92 | a block registered as incoming is no longer needed, and no other block changes |
| Components.CompleteNeedsNothing | game/SimComponents.hh:80-92 | a building holding every block of its type needs none |
| Components.RemoveFirst | game/SimComponents.hh:154-160 | removeFromQueue erases the first occurrence and keeps the others in order |
| Components.IndexOf | game/SimComponents.hh:154-157 | std::find stops at the first position holding the entity: it holds it and no earlier one does |
| Components.RemoveFirstPermutes | game/SimComponents.hh:154-160 | exactly one occurrence leaves the queue, and nothing else does |
| Components.RemoveHead | game/SimSystems.cc:147-157 | removing the queue's front leaves its tail |
| Components.RoleOf | game/SimState.cc:302-311 | MAIN gets an empty build queue, MINER an empty store, and other types no component |
| SimStates.QueueBuild | game/SimComponents.hh:141-152 | build() leaves exactly the one target in the queue, and queueBuild() appends it to the unchanged queue |
| SimStates.NewPlayerState | game/SimState.cc:7-11 | a new player has 30 of every resource |
| SimStates.TakeResources | game/SimState.cc:209 | every cost is deducted from an affordable stock |
| SimStates.HaveResourcesExact | game/SimState.cc:135 | haveResources holds exactly when some stock of the right shape plus the costs gives the player's stock, so takeResources never clamps |
| SimStates.GiveResources | game/SimSystems.cc:74 | one resource grows by the amount, and nothing else changes |
| SimStates.TakeGiveRoundTrip | game/SimState.cc:209 | taking an affordable cost and giving it back restores the stock |
| SimStates.RegisteredKeys | game/SimState.cc:422-430 | exactly the listed ids are registered |
| SimStates.RegisteredFirst | game/SimState.cc:425-427 | an id listed twice keeps its first entry, as std::map::emplace does |
| SimStates.RegisteredStock | game/SimState.cc:422-430 | every registered player starts with a full stock table |
| SimStates.PlayersFromSettings | game/SimState.cc:422-430 | the loop builds exactly Registered(players) |
| SimStates.CellOf | game/SimSystems.cc:64-65 | the grid point under a non-negative position contains it |
| SimStates.Extent | common/Defs.cc:5-10 | the x and y extent of a building type are those of the size table |
| SimStates.Without | game/Map.cc:99-102 | the store after destroying `gone` keeps exactly the other entities, unchanged |
| SimStates.AttackCoord | game/SimState.cc:238-248 | the rocket's coordinate is on the map, at most 5 before and 4 after the target, and unclamped when it fits |
| SimStates.StoreAdd | game/SimState.cc:295-296 | a sound new entity under the next id keeps the store sound |
| SimStates.StoreRemove | game/Map.cc:99-102 | destroying entities keeps the store sound |
| SimStates.MinersKeptBounded | game/SimSystems.cc:14-29 | a change that keeps the miners' stock keeps them below 2 + dt |
| SimStates.SimState.constructor | game/SimState.cc:13-21 | the map is generated from the settings, one player per listed player, and there are no entities, time 0 and water level 0 |
| SimStates.SimState.Populate | game/SimState.cc:23-45 | each listed player in list order gets a SpawnStep: a finished main on the first draw where one fits, exactly when some draw fits, and that player then owns a finished main. Then 20 TreeSteps follow: a tree on the first usable draw, exactly when some draw is usable. The count returned is the mains placed plus the trees placed, the counter grows by that count, the players are unchanged and no existing entity is lost |
| SimStates.SimState.PlaceSpawns | game/SimState.cc:24-32 | the spawn loop is a SpawnTrace over the listed players from the state before to the state after. Every player whose spawn was placed owns a finished main, and the counter grows by the number placed |
| SimStates.SimState.SpawnNext | game/SimState.cc:24-32 | one pass of the spawn loop extends the trace by one SpawnStep and keeps the count, the players and the earlier mains |
| SimStates.SimState.PlaceTrees | game/SimState.cc:35-45 | the tree loop is a TreeTrace of 20 steps from the state before to the state after, and the counter grows by the number placed |
| SimStates.SimState.TreeNext | game/SimState.cc:37-45 | one pass of the tree loop extends the trace by one TreeStep and keeps the count |
| SimStates.SimState.SpawnedMain | game/SimState.cc:31 | a placed spawn takes the next id and gives its player a finished main |
| SimStates.SimState.AddedMain | game/SimState.cc:31 | addBuilding of a finished MAIN for a player gives that player a finished main under the next id |
| SimStates.SimState.SpawnTraceSnoc | game/SimState.cc:24-32 | a spawn trace extends by the next player's SpawnStep |
| SimStates.SimState.TreeTraceSnoc | game/SimState.cc:37-45 | a tree trace extends by the next TreeStep |
| SimStates.SimState.MainsPlacedKept | game/SimState.cc:37-45 | placing trees keeps every spawned player's main |
| SimStates.SimState.MainsPlacedSnoc | game/SimState.cc:24-32 | the mains of earlier players survive the next spawn, and a placed spawn adds its player's main |
| SimStates.SimState.SpawnStepOf | game/SimState.cc:26-31 | the first fitting draw, or no fitting draw and no change, is a SpawnStep |
| SimStates.SimState.TreeStepOf | game/SimState.cc:39-44 | the first usable draw, or no usable draw and no change, is a TreeStep |
| SimStates.SimState.PlantedNow | game/SimState.cc:109-117 | the state placeTree leaves is Planted of the state before |
| SimStates.HasMainKept | game/SimState.cc:31 | a store that keeps every entity keeps every finished main |
| SimStates.FreshKeeps | game/SimState.cc:295-296 | adding an entity under a fresh id keeps every entity and every miner |
| SimStates.Count | game/SimState.cc:22-45 | the number of placements is at most the number of attempts, and 0 exactly when none succeeded |
| SimStates.CountSnoc | game/SimState.cc:22-45 | one more attempt adds one to the count exactly when it succeeds |
| SimStates.SimState.Drawn | game/SimState.cc:26-27 | the point a pair of rand() draws picks is on the map |
| SimStates.SimState.FirstPlaceable | game/SimState.cc:23-31 | the spawn loop stops at the first draw where a main fits, and none before it fits |
| SimStates.SimState.FirstUsable | game/SimState.cc:36-44 | the tree loop stops at the first draw on a usable point, and none before it is usable |
| SimStates.SimState.PlaceSpawn | game/SimState.cc:23-31 | the first drawn point where a main fits gets the player's finished main, and every earlier draw did not fit; with no fitting draw nothing changes. The step is a SpawnStep |
| SimStates.SimState.PlaceTreeDrawn | game/SimState.cc:36-44 | the first usable drawn point gets a tree, and no earlier draw was usable; with no usable draw nothing changes. The step is a TreeStep |
| SimStates.SimState.CanPlaceBuilding | game/SimState.cc:47-74 | the result holds exactly when the margin rectangle is on the map, level with p and usable |
| SimStates.SimState.FindClosestBuilding | game/SimState.cc:76-107 | the result is a finished building of the type and owner, on the closest scanned cell in range; ties go to the first cell visited. With no result, no scanned cell holds one |
| SimStates.ClosestUnique | game/SimState.cc:76-107 | the answer of findClosestBuilding is determined by the grid and the buildings |
| SimStates.SimState.PlaceTree | game/SimState.cc:109-117 | a neutral tree gets the next id and occupies exactly its point; the state after is Planted of the state before |
| SimStates.SimState.RectUsable | game/SimState.cc:163-169 | the result holds exactly when every point of the rectangle is usable, on the grid and on its snapshot |
| SimStates.SimState.IsOrderValid | game/SimState.cc:119-194 | the result holds exactly when ValidOrder holds: BUILD needs a finished main of any owner, a registered player who can pay, and a placeable site; CONSTRUCT a finished main and an unfinished building, of any owner; RAISE_MAP a usable rectangle on the map; ATTACK a finished tower of the player and a target on the map; every other type is invalid. Nothing changes |
| SimStates.SimState.IsBuildValid | game/SimState.cc:121-140 | the BUILD check holds exactly when ValidOrder holds |
| SimStates.SimState.IsRaiseValid | game/SimState.cc:155-168 | the RAISE_MAP check holds exactly when ValidOrder holds |
| SimStates.SimState.RunBuild | game/SimState.cc:200-212 | the state after is Built of the state before: the next id is an unfinished building of the type at p, queued at the end of the main's queue, occupying its rectangle, and the player pays the type's cost |
| SimStates.SimState.BuiltIs | game/SimState.cc:200-212 | Built is addBuilding, then queueBuild of the new id, then takeResources, in that order |
| SimStates.SimState.Place | game/SimState.cc:206-207 | the addBuilding step gives the next id to an unfinished building and leaves Added of the state before |
| SimStates.SimState.Pay | game/SimState.cc:209 | takeResources deducts the costs from the player's stock and changes nothing else |
| SimStates.SimState.Enqueue | game/SimState.cc:214-226 | build() replaces the queue with the target, and queueBuild() appends it |
| SimStates.SimState.RunAttack | game/SimState.cc:234-252 | one rocket flies from the tower to a map point at most 5 before and 4 after the target per axis |
| SimStates.SimState.RunRaiseMap | game/SimState.cc:228-232 | the rectangle heads for a common target at least its highest point |
| SimStates.SimState.RunOrder | game/SimState.cc:196-257 | the state after is Apply of the state before and the rolls: BUILD is Built, CONSTRUCT is Queued, RAISE_MAP is Map::raise on values and ATTACK is Attacked. Only BUILD spends resources, only BUILD and ATTACK draw an id, RAISE_MAP changes no entity, and no miner gains stock |
| SimStates.SimState.Apply | game/SimState.cc:196-257 | an order on values keeps time and level, draws an id exactly for BUILD and ATTACK, spends only on BUILD, and touches the growing set only on RAISE_MAP |
| SimStates.SimState.ApplyKeepsMiners | game/SimState.cc:196-257 | no order adds to a miner's stock |
| SimStates.SimState.TickLength | game/SimState.cc:289-291 | the tick length in seconds is tickLengthMs / 1000 |
| SimStates.SimState.AddBuilding | game/SimState.cc:293-322 | the building gets the next id with the component of its type, and the grid after is Marked: it occupies exactly its rectangle |
| SimStates.SimState.AddFlyingResource | game/SimState.cc:324-354 | a flying resource of the sender's owner goes from the top of one building to the top of the other |
| SimStates.SimState.AddFlyingBlock | game/SimState.cc:356-384 | a flying block goes from the sender's top to the block's place on the target |
| SimStates.SimState.AddRocket | game/SimState.cc:386-405 | a rocket goes from the sender's top to the target point at its height |
| SimStates.SimState.RaiseWaterLevel | game/SimState.cc:407-412 | the level goes up by one, and every point of height 0 becomes a source |
| SimStates.SimState.Tick | game/SimState.cc:414-420 | time advances by exactly one tick length, and nothing else changes |
| SimStates.SimState.Destroy | game/Map.cc:99-102 | exactly the entities in `gone` leave the store |
| Systems.StoredBounded | game/SimSystems.cc:14-29 | a miner never holds 2 + dt or more, and its stock only drops through a launch |
| Systems.LaunchAmount | game/SimSystems.cc:22-23 | a launch carries at least 2 and at most what was stored |
| Systems.MinerStep | game/SimSystems.cc:10-30 | an unfinished miner does nothing; below 2 it gains one tick length. From 2 on it launches its whole units to the closest store of its owner within 100, if there is one, and is emptied |
| Systems.MinerLaunch | game/SimSystems.cc:14-26 | the store searched for is the closest finished STORE of the miner's owner within 100, and a resource flies to it exactly when one is found |
| Systems.LaunchTo | game/SimSystems.cc:17-25 | the miner's whole units fly to the store under the next id, and the miner is emptied |
| Systems.LaunchedChanges | game/SimSystems.cc:17-26 | a launch adds at most the flying resource, and changes nothing but the miner |
| Systems.MinerSystem | game/SimSystems.cc:6-31 | the ids 1 to the counter at the start are visited in increasing order, each as MinerVisit says (the trace records the roster between visits): a non-miner or unfinished miner is skipped, below 2 a miner gains one tick length, from 2 on it launches to the closest store of its owner within 100. No miner ends up holding 2 + dt or more, and no entity is lost |
| Systems.VisitMiner | game/SimSystems.cc:10-30 | one visit is exactly MinerVisit, and keeps every miner bounded |
| Systems.MinerStepVisit | game/SimSystems.cc:10-30 | what MinerStep promises for a miner is a MinerVisit |
| Systems.MinerTraceSnoc | game/SimSystems.cc:6-31 | a trace of visits extends by the visit to the next id |
| Systems.MinersStayBounded | game/SimSystems.cc:10-30 | one miner's visit keeps every miner bounded |
| Systems.Advance | game/SimSystems.cc:38-42 | a step keeps the ends and distance, remembers the progress and never decreases it |
| Systems.FlightProgress | game/SimSystems.cc:34-42 | after n ticks that stay within 1, the progress has grown by n * dt * 5 / distance |
| Systems.FlightSum | game/SimSystems.cc:38-42 | n ticks add exactly the sum of their n steps to the progress |
| Systems.ResourceLanded | game/SimSystems.cc:58-78 | a resource landing on a map point holding a store goes to the store's owner, and otherwise nothing changes |
| Systems.BlockLanded | game/SimSystems.cc:84-101 | a block is delivered exactly when its target still exists and is unfinished. The target is then finished exactly when it holds every block of its type |
| Systems.RocketDrains | game/SimSystems.cc:118-135 | a rocket only digs and drains: no point gains water, height or target |
| Systems.RocketLanded | game/SimSystems.cc:107-138 | the hit point gets a crater of depth 2 and keeps 12/17 of its water. Each neighbour gets a crater of depth 1 and keeps 12/14 of its water, times 12/13 per neighbour. Everything else is unchanged |
| Systems.Land | game/SimSystems.cc:45-48 | the cargo's receiver runs and the landed object is destroyed; the state after is Landed of the state before: a resource goes to the store owner under the landing point, a block is delivered to its target, a rocket strikes the ground |
| Systems.LandResource | game/SimSystems.cc:58-78 | the store owner under the landing point, if any, gets the cargo, and the object is destroyed |
| Systems.LandBlock | game/SimSystems.cc:84-101 | the block is delivered to its target, and the object is destroyed |
| Systems.LandRocket | game/SimSystems.cc:107-138 | the grid is struck at the aimed point, so the ground after is StruckGround of the ground before, and the object is destroyed |
| Systems.Strike | game/SimSystems.cc:118-135 | RocketLanded on the grid leaves the ground StruckGround of the ground before |
| Systems.StruckAt | game/SimSystems.cc:118-135 | on StruckGround the hit point has a crater of depth 2, each neighbour one of depth 1 shared among the neighbours, and every other point is unchanged |
| Systems.StruckBridge | game/SimSystems.cc:118-135 | a grid that is Struck and has the struck points added to its growing set has StruckGround as its snapshot |
| Systems.FlyingStep | game/SimSystems.cc:37-50 | the object lands exactly when its advanced progress passes 1; otherwise only its flight changes. The state after is FlyVisit of the state before, so a landing is Landed: its cargo is delivered and the object is gone |
| Systems.VisitFlying | game/SimSystems.cc:37-50 | the visit to one id is FlyVisit: a non-flying id is skipped, a flying object advances or lands |
| Systems.FlyTraceSnoc | game/SimSystems.cc:37-50 | a trace of flying visits extends by the visit to the next id |
| Systems.FlyingSoFarStep | game/SimSystems.cc:37-50 | the visit to the next id keeps every other entity, and the visited one advances or is gone |
| Systems.FlyingSystem | game/SimSystems.cc:33-52 | the ids 1 to the counter are visited in increasing order, each as FlyVisit says, so each landing is Landed (resources credited, blocks delivered, craters dug). The roster after is Flown from the roster before: no id is drawn, every flying object advances or has landed and is gone, nothing else is removed or added, and no miner gains stock |
| Systems.HeadStale | game/SimSystems.cc:149-159 | a queue head is dropped exactly when it is gone, finished or needs no block |
| Systems.DropHead | game/SimSystems.cc:149-158 | removeFromQueue takes the head off the queue, and nothing else changes |
| Systems.LaunchBlock | game/SimSystems.cc:162-170 | the first needed block flies to the head under the next id and is registered as incoming, so it is no longer needed |
| Systems.DispatchedKeepsMiners | game/SimSystems.cc:162-170 | a block launch changes no miner's stock |
| Systems.ServeHead | game/SimSystems.cc:146-171 | a stale head is dropped. Before BUILD_SPEED seconds since the last launch nothing changes. Otherwise one block is launched |
| Systems.MainStep | game/SimSystems.cc:143-172 | an unfinished main or an empty queue is skipped. Otherwise the head is served |
| Systems.MainSystem | game/SimSystems.cc:140-173 | the ids 1 to the counter at the start are visited in increasing order, each as MainVisit says (the trace records the roster between visits): anything but a finished main with a non-empty queue is skipped, otherwise its head is served (a stale head dropped, nothing before BUILD_SPEED, else one block launched). No entity is lost, and no miner gains stock |
| Simulation.Sim.constructor | game/Sim.cc:6-16 | the state is built from the settings, the water level is 1 and every point of height 0 is a source |
| Simulation.Sim.RunOrderIfValid | game/Sim.cc:21-24 | an order runs exactly when isOrderValid accepts it in the current state, and the state after is then Apply of the state before; otherwise nothing changes |
| Simulation.Sim.RunOrders | game/Sim.cc:21-24 | the orders run in their order, each checked against the state the earlier ones left and applied exactly when valid there (OrderTrace, from the state before to the state after). If none runs, nothing changes |
| Simulation.OrderTraceSnoc | game/Sim.cc:21-24 | an order trace extends by one more order step |
| Simulation.Sim.TerrainPhase | game/Sim.cc:26-37 | SimState::tick and Map::tick, then waterTick, as TerrainRun says: time advances one tick, the growing points grow (Grown), what stands on them is destroyed, the cascade runs over them (CascadeSpec), then water flows as Sweeps says |
| Simulation.Sim.GrowPhase | game/Sim.cc:26-31 | SimState::tick and Map::tick leave the state Grew says |
| Simulation.Sim.WaterPhase | game/Sim.cc:33-37 | waterTick leaves the state Watered says: Sweeps on the ground, nothing else changed |
| Simulation.Sim.SystemsPhase | game/Sim.cc:39-46 | the miner system runs its trace over the ids, then the flying system runs its FlyTrace from the state the miners left, then the main-building system runs its trace over the ids; the players and the ground after are those the flying trace ends in; every miner stays bounded |
| Simulation.Sim.RunTick | game/Sim.cc:18-47 | a tick is TickRun with exactly the given orders: the order trace, then the terrain phases, then the miner, flying and main-building systems in that order, ending in the state after, whose players and ground are those the flying trace ends in. Time advances by exactly one tick length |
| Servers.Fanout | server/Server.cc:44-47 | broadcast sends one copy to every client, in connection order |
| Servers.PlayersOf | server/Server.cc:77-78 | the listed players are the clients' PlayerInfos, in connection order |
| Servers.NextPlayerId | server/Server.cc:181 | ++playerCounter wraps at 2^16 |
| Servers.Server.constructor | server/Server.cc:124-130 | the initial settings are a 256 x 256 map, height limit 15, 50 ms ticks and the given seed, with nothing started |
| Servers.Server.Broadcast | server/Server.cc:44-47 | the outbox grows by one copy per client, and nothing else changes |
| Servers.Server.StartTick | server/Server.cc:49-69 | the buffered orders go to every client as one SERVER_TICK, the buffer empties and one more tick is started. The two-tick drift bound holds |
| Servers.Server.StartGame | server/Server.cc:71-85 | the settings list every client's player in order and go to every client as SERVER_START |
| Servers.Server.MaybeStartGame | server/Server.cc:147-151 | with exactly the awaited number of clients, the game starts and two empty ticks go out; otherwise nothing changes |
| Servers.Server.PrevTickDone | server/Server.cc:153-165 | the result holds exactly when every client has finished the tick before the last one started |
| Servers.Server.MaybeStartTick | server/Server.cc:153-165 | after the start, a tick starts exactly when every client has caught up |
| Servers.Server.Connect | server/Server.cc:171-190 | a connection is accepted exactly before the start. The new client gets the next player id, team = id and colour = id % 4. Until the counter wraps, the ids are distinct and positive |
| Servers.Server.HandleMessage | server/Server.cc:87-116 | CLIENT_CONNECT records the name and answers with the player id. An order is buffered only after the start, with its player set to the sender's. A tick done counts one more tick. Anything else is ignored |
| Servers.Server.Disconnect | server/Server.cc:206-222 | exactly that client leaves, and the server quits once none are left |
| Clients.DoneCount | game/Client.cc:59-66 | the number of CLIENT_TICK_DONE messages sent is 0 exactly when none was sent |
| Clients.Client.constructor | game/Client.cc:10-18 | a new client has player id 0, no sim and no tick running |
| Clients.Client.Connect | game/Client.cc:53-56 | the hello CLIENT_CONNECT with the user name is sent |
| Clients.Client.Order | game/Client.cc:95-103 | an order is sent exactly when the local sim finds it valid, and it is never applied locally |
| Clients.Client.TickDone | game/Client.cc:59-66 | CLIENT_TICK_DONE is sent exactly when a running tick has elapsed, and the tick then stops. At most one is sent per tick run |
| Clients.Client.HandleMessage | game/Client.cc:110-139 | SERVER_CONNECT sets the player id, and SERVER_START builds a new sim from the settings. With a sim, SERVER_TICK runs a tick that is TickRun with exactly its orders from the sim's state, and starts the tick; anything else changes nothing. Nothing is sent |
| Clients.Client.Start | game/Client.cc:118-124 | the settings are kept, and a new sim is built from them at time 0 with water level 1 |
| Clients.Client.RunTick | game/Client.cc:129-133 | the sim runs a tick that is TickRun with exactly the received orders from its state before, time advances one tick and the tick starts |
| Clients.Client.StartTick | game/Client.cc:131-132 | the tick is marked running, and the sim, the player id and the outbox are unchanged |
| Clients.Client.Advance | game/Client.cc:129 | sim->runTick on the client's sim is TickRun with the given orders |

## Left out

- Fixed-point arithmetic is modelled by exact `real` arithmetic. Rounding of `Fixed` divisions, such as the water divisions and `dt * 5 / distance`, is not modelled.
- The Perlin noise of `Map::generate` and `srand`/`rand()` are inputs: the noise heights, the accepted spawn and tree draws, and one roll per ATTACK order.
- The rejection loops of the SimState constructor run until a draw fits. The model takes a finite list of draws, and when none fits it places nothing.
- `GridPoint::usable`, the block lists and costs of `buildingTypeInfo`, and the neighbourhood and visiting order of `forNeighbors` and `forRectangle` are parameters. Their definitions are not part of this model.
- The model's `forRectangle` visits x outer, y inner, with both bounds inclusive.
- The visiting order of the `std::set` growingPoints and of the neighbours of `forNeighbors` is a nondeterministic choice.
- The entity manager is visited in ascending id order, 1 to `entityCounter`. entityx visits by slot index and reuses freed slots, so its order can differ once entities have been destroyed. The order is observable in two places: two rockets whose craters overlap, where the `growthTarget` written last wins (`game/Map.cc:59-65` through `game/SimSystems.cc:118-124`), and two blocks that land at one building in the same tick, which arrive in that order.
- The bodies of `PlayerState::haveResources`, `takeResources` and `giveResources` are not part of this model. They are modelled from their names and uses.
- `SimState::getGameObject` is a map lookup by id. The source's linear scan, and its assert that ids are unique, are replaced by the store's keys.
- Landing events are not emitted. `Systems.Land` calls the receivers for the object's cargo directly, before destroying it, as the event manager would.
- RocketSystem's `assert(map.isPoint(p))` is not modelled. The model takes the cell under the target and requires it to be on the map.
- `Systems.ResourceLanded` treats a map point holding a non-building, such as a tree, as holding no store. The source dereferences a null Building handle there.
- Server.cc's ENet hosts, peers, packets and polling are replaced by an outbox of addressed messages. Events become method calls that name the client by its position.
- `Servers.Server.Connect`: player ids are distinct only until the 16-bit `playerCounter` wraps, and the model states no more than that.
- Server.cc starts the game only when `clients.size() == numWaitPlayers`, which is exactly 1. The model keeps that comparison.
- Server.cc puts into SERVER_START the names received so far. A name not yet received is empty, and the string writer asserts a non-empty size. The model's settings value may carry such a name; the codec lemmas require non-empty names.
- Client.cc's ENet connection, `glfwGetTime` and the update loop's polling are replaced. The time check is the input `elapsed`, and each received message is handed to `HandleMessage`.
- `Clients.Client.HandleMessage`: a repeated SERVER_START leaks the old Sim in the source. The model just replaces it.
- `SimState::tick`'s water-level rise is commented out in the source, and the model leaves it out too.
- `Simulation.Sim.RunTick` states the players and the ground at the end of a tick as those the flying trace ends in; the main-building system changes neither. The water and terrain phases before it are traced separately (`TerrainRun`).
- The property that no two adjacent points differ by more than 1 after a tick is not proved. `Grid.Map.CascadeSettles` states what the cascade does guarantee, about targets and not current heights. Growth starting in a later tick may break it again.
- Water below zero: `TerrainRules.Flow` does not bound the drawn water by the neighbour's water, as in the source (see `TerrainRules.FlowCanDrainBelowZero`).
- Profiling, logging, rendering, input, interpolation state and the `color` of FlyingResource (random floats for drawing) are left out.
- `Defs.BuildingTypeFromOrdinal`: `common/Defs.hh:17-22` is stale. It declares three types, `BUILDING_BASE`, `BUILDING_STORE` and `BUILDING_MINER`, with `BUILDING_MAX` equal to 3. `common/Defs.cc:5-10` has four size rows, and `game/SimState.cc` uses `BUILDING_MAIN` (lines 28, 130 and 152) and `BUILDING_TOWER` (line 187). The model assumes MAIN, STORE, MINER and TOWER as ordinals 0 to 3, with `BUILDING_MAX` equal to 4. This decides what BUILD's type field means on the wire (`Orders.DecodeBuild`) and which size row each type gets (`SimStates.Extent`).
- A short read is not modelled as a crash. `BitStreamReader::readBytes` asserts that enough bytes remain (`common/BitStream.cc:45-46`), so a truncated packet aborts the receiver. The decoders return `None` for it, and the read methods (`Messages.FromPacket`, `Orders.ReadOrder`, `Settings.ReadSettings` and the other readers) require that their decoder succeeds.
- `game/Map.hh` is stale, because it lacks most of what Map.cc uses. The point layout (`y * sizeX + x`) is replaced by an `array2` indexed [x, y].
- `Orders.DecodeBuild` rejects a building type of 4 or more. `common/Order.cc:17` stores the byte unchecked, and the later table lookup would read out of bounds.
- `SimStates.SimState.ValidOrder`: a BUILD order from an unregistered player is invalid. `game/SimState.cc:135` calls `getPlayer`, which asserts that the player exists (`game/SimState.cc:259-262`).
- `Grid.Map.WaterCell`: the guard at `game/Map.cc:191` carries a stray `*/`, so the line as shown does not compile. It is read as `p.water < Fixed(waterLevel - p.height)`. The `map.` prefix and `getTickLengthS()` in `Map::waterTick` are read as the map itself and the `tickLengthS` parameter.
- `Clients.Client.RunTick` sets `tickRunning` before the sim runs the tick, where `game/Client.cc:129-130` sets it after. Nothing reads it in between, so the state after is the same.
