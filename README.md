# Dungeon escape game — a verified model of its core

This project models the core of a small roguelike in Dafny. In the game, a
player walks a grid dungeon, fights ghosts, drinks health potions and looks for
the downstairs. The game is served to agents over an HTTP API. The model covers
these parts:

- **Game core.** Fighters and their hp bookkeeping, entities and inventories,
  the message log with its stacking rule, and the engine: per-step messages,
  enemy turns, field of view, and what the player stands on.
- **Content.** The tile kinds and the entity templates.
- **Event handlers.** Key tables, dispatch, potion use, action handling and the
  choice of the next screen. This includes the main menu and the setup of a new
  game.
- **Maps.** The custom map loaders that read a text map, and the map logger's
  inverse that writes a map back as text.
- **Procedural generator.** Floor tables, weighted-chance merging, rooms,
  tunnels, entity placement and `generate_dungeon`.
- **A\* script.** Loading, start and goal, neighbours, the heuristic, the search,
  path reconstruction and the path overlay.
- **API side.** Port and server configuration, the sprite directories, the
  shared game state and its snapshot, legal-action computation, and the action
  handler that drains the queue and handles restarts.
- **Older root tree.** Its fighter, entity templates, tiles, handlers, map
  loader, `new_game`, `check_stairs` and the engine's game-log writer.

Python semantics are written out where they matter:

- `int(x / 2)` truncates toward zero (`Core.TruncHalf`).
- `int()` on a string accepts whitespace, a sign and single underscores
  (`PyStr.ParseInt`). Only the ASCII digits are modelled (see "## Left out").
- `str.split`, `str.strip` and `str.splitlines` are modelled as functions.
- Dictionaries keep insertion order (`Procgen.Assign`).
- `heapq` pops the least `(f, g, point)` tuple (`Astar.MinIndex`).
- `random.choices` raises on an empty pool. So `place_entities` raises on a
  negative floor, and the generator passes that exception on.

Random draws, the field-of-view routine, the free-port oracle, directory
listings and environment variables are parameters of the model. Exceptions
become `raised` flags or `Result`/`Option` values.

Handler objects are compared by identity in the source
(`if handler is not self.handler`). The model keeps that distinction with the
`isNew` flag of `Handlers.Next`, which is true exactly when a new handler
object was returned.

The src tree and the older root tree disagree in a few places. The model
follows each tree's own code.

- **Fighter defence.** In the src tree the fighter has no defence. The older
  tree's fighter has one (`Core.Fighter.Legacy`).
- **Enemy templates.** The src tree's troll is the "Red Ghost". The older tree's
  troll is the "Crab", and its ghost hits harder.
- **Map loading.** The older loader strips the text before splitting it. It
  also fills unknown characters with a caller-given tile.
- **Engine construction in the src tree.** src/app/setup_game.py:34 passes
  `fov_mode` and `fov_radius` to an `Engine.__init__` that takes only
  `player` (src/core/engine.py:20). Python rejects the unknown keyword
  with `TypeError`, so the src tree's `new_game` never returns an engine.
  The model states this as written (`SetupGame.NewGameAsWritten`) and
  models the evidently intended call with the player alone
  (`SetupGame.NewGame`), which keeps the engine's fixed radius of 8. See
  "## Findings".

## Model

| member | source | states |
|---|---|---|
| Core.Clamp | src/core/components/fighter.py:24-28 | the stored hp is never negative and never above the maximum; a value inside the range is kept as is; it is zero exactly when the value or the maximum is at most zero |
| Core.TruncHalf | src/core/procgen.py:95-96 | halving truncates toward zero: for n ≥ 0 the result r satisfies 2r ≤ n < 2r + 2, and for negative n it rounds toward zero |
| Core.ScaledMaxHp | src/core/components/fighter.py:69-81 | the maximum hp a fighter is scaled to on a level above 1 always exceeds 100 |
| Core.ScaledMaxHpStep | src/core/components/fighter.py:69-81 | each level deeper adds exactly 15 to the scaled maximum |
| Core.ScaledMaxHpIncreasing | src/core/components/fighter.py:69-81 | the scaled maximum strictly grows with the level |
| Core.NewMessage | src/core/message_log.py:9-13 | a new message has count 1 and shows as its own text |
| Core.FullText | src/core/message_log.py:15-19 | the shown text starts with the message text, and is longer exactly when the count exceeds 1 |
| Core.Stacked | src/core/message_log.py:27-35 | after adding, the log is non-empty and its last message carries the added text |
| Core.StackedMeaning | src/core/message_log.py:27-35 | the log keeps its length exactly when stacking is on and the last message has the same text (its count goes up); otherwise the new message is appended; earlier messages are kept and the total count grows by one |
| Core.NonAdjacentRepeatIsSeparate | src/core/message_log.py:27-35 | a repeat of an earlier but not the latest message is appended as a separate message |
| Core.StepStacked | src/core/engine.py:33-38 | the per-step list ends with the added text and grows by at most one |
| Core.StepStackedInvariant | src/core/engine.py:33-38 | adding keeps the per-step list free of equal neighbouring texts and leaves all but its last entry unchanged |
| Core.Fighter.constructor | src/core/components/fighter.py:15-18 | a fighter starts at full hp with the given power and no defence |
| Core.Fighter.Legacy | components/fighter.py:16-20 | the older fighter starts at full hp and also carries a base defence |
| Core.Fighter.Power | src/core/components/fighter.py:30-32 | power is the base power |
| Core.Fighter.Defense | components/fighter.py:32-34 | defence is the base defence of the older fighter |
| Core.Fighter.Die | src/core/components/fighter.py:34-54 | the player becomes a corpse and both logs are reset to the death message; another actor becomes a corpse, leaves the map and its death message is stacked; an actor not on the map raises KeyError |
| Core.Fighter.SetHp | src/core/components/fighter.py:24-28 | every hp write stores the clamped value, and a write that lands on zero runs the death effect |
| Core.Fighter.Heal | src/core/components/fighter.py:56-64 | at full hp nothing is recovered; otherwise the recovered amount is what brings hp to min(hp + amount, max), so a non-negative amount recovers min(amount, max − hp) |
| Core.Fighter.TakeDamage | src/core/components/fighter.py:66-67 | damage lowers hp to the clamped difference and kills at zero |
| Core.Fighter.ApplyDungeonLevelScaling | src/core/components/fighter.py:69-81 | at level ≤ 1 nothing changes; above, the maximum becomes the scaled maximum, and a grown maximum adds its growth to hp with the adaptation message stacked in both logs |
| Core.ScalingMessage | src/core/components/fighter.py:78-81 | the adaptation message starts with the fixed phrase |
| Core.Entity.constructor | src/core/entity.py:23-43 | an entity holds the given position, look and blocking flag, and a given map gains it |
| Core.Entity.FromTemplate | src/core/entity.py:76-139 | an actor template gives a fresh fighter at full hp and an empty inventory of its capacity; an item template gives a consumable of its heal amount |
| Core.Entity.CopyOf | src/core/entity.py:49-55 | a deep copy has the same look and stats and its own fresh fighter and inventory |
| Core.Entity.Spawn | src/core/entity.py:49-55 | spawning adds a fresh copy at the given cell to the map and changes nothing else there |
| Core.Entity.Place | src/core/entity.py:57-65 | the entity moves to the cell; with a map it leaves its old map and joins the new one; an entity missing from its old map's set raises KeyError and joins nothing |
| Core.Entity.Move | src/core/entity.py:70-72 | the position shifts by the given delta |
| Core.Entity.GetAction | src/components/consumable.py:21-23 | a consumable's action is an item action of this item for the consumer |
| Core.Entity.Consume | src/components/consumable.py:32-37 | an item in an inventory leaves it (first occurrence only); one missing from its inventory raises |
| Core.Entity.ActivateHealing | src/components/consumable.py:44-55 | at full hp the potion is refused with "Your health is already full." and kept; otherwise it heals min(amount, missing hp), logs the recovery and is consumed |
| Core.Entity.ConsumeReported | src/components/consumable.py:48-53 | the recovery message is stacked in the log, and a potion held in its inventory leaves it (first occurrence only) |
| Core.IndexOf | src/components/inventory.py:17-21 | the index found is that of the first occurrence of the item |
| Core.RemoveFirst | src/components/inventory.py:17-21 | removal drops exactly one occurrence: one shorter, the multiset minus the item |
| Core.RemoveFirstKeepsOrder | src/components/inventory.py:17-21 | removal keeps the order of the other items |
| Core.Inventory.constructor | src/components/inventory.py:13-15 | an inventory starts empty with its capacity |
| Core.Inventory.Remove | src/components/inventory.py:17-21 | an item present is removed once; an absent one raises ValueError and nothing changes |
| Core.Inventory.Drop | src/components/inventory.py:17-21 | a dropped item leaves the inventory, lies at the owner's cell on the map and "You dropped the …" is logged |
| Core.MessageLog.AddMessage | src/core/message_log.py:27-35 | the log stacks the message, and the engine's per-step list records it too |
| Core.Engine.constructor | src/core/engine.py:20-26 | a new engine has step 0, not done, not on a custom map, and empty logs |
| Core.Engine.StartNewStep | src/core/engine.py:28-31 | a step clears the per-step messages and advances the counter by one |
| Core.Engine.AddStepMessage | src/core/engine.py:33-38 | a per-step message stacks onto an equal latest one and keeps neighbouring texts distinct |
| Core.Engine.CurrentLevel | src/core/engine.py:73-74 | the current level is the world's current floor |
| Core.Engine.HandleEnemyTurns | src/core/engine.py:40-46 | exactly the actors with an AI other than the player take a turn, each once |
| Core.Engine.UpdateFov | src/core/engine.py:48-56 | visible is the field of view of radius 8 from the player, and explored accumulates it |
| Core.Engine.PlayerTileType | src/core/engine.py:76-85 | "-" once the game is done, then "ladder/stairs" on the stairs, then the description of an item underfoot, otherwise "floor" |
| EntityFactories.Player | src/core/entity_factories.py:8-16 | the player has hp 100, power 4, no defence and 26 inventory slots |
| EntityFactories.Ghost | src/core/entity_factories.py:18-26 | the ghost has hp 10 and power 2 |
| EntityFactories.Troll | src/core/entity_factories.py:28-36 | the troll is the "Red Ghost" with hp 15 and power 8 |
| EntityFactories.HealthPotion | src/core/entity_factories.py:38-43 | the potion heals 5 and does not block |
| EntityFactories.TemplateNamesDistinct | src/core/entity_factories.py:8-43 | the four templates have different names |
| LegacyEntityFactories.GraphicGlyph | entity_factories.py:12-22 | the glyph is always the graphic code point |
| LegacyEntityFactories.Player | entity_factories.py:12-22 | the older player has hp 100, defence 1, power 4 and 26 slots |
| LegacyEntityFactories.Ghost | entity_factories.py:24-34 | the older ghost has hp 10, defence 0 and power 3 |
| LegacyEntityFactories.Troll | entity_factories.py:36-46 | the older troll is the "Crab" with hp 15, defence 0 and power 8 |
| LegacyEntityFactories.HealthPotion | entity_factories.py:48-53 | the older potion heals 5 |
| Tiles.NewTile | src/core/tile_types.py:25-33 | a tile carries the walkable and transparent flags and both graphics it is given |
| Tiles.Floor | src/core/tile_types.py:40-46 | floor is walkable and transparent, with different dark and lit characters |
| Tiles.Wall | src/core/tile_types.py:48-54 | wall blocks movement and sight |
| Tiles.DownStairs | src/core/tile_types.py:56-61 | stairs are walkable and transparent, with one character in two colours |
| Tiles.TileKindsDistinct | src/core/tile_types.py:40-61 | floor, wall, stairs and the void tile are pairwise different |
| LegacyTiles.Floor | tile_types.py:54-57 | the older floor is walkable and transparent |
| LegacyTiles.Wall | tile_types.py:62-65 | the older wall blocks movement and sight |
| LegacyTiles.DownStairs | tile_types.py:70-72 | the older stairs are walkable and transparent |
| LegacyTiles.SameAsCurrentTree | tile_types.py:54-72 | the older tiles equal the src tree's tiles |
| MapText.Width | src/core/custom_map_loader.py:33-35 | the width is the length of the longest line |
| MapText.LastInSpec | src/core/custom_map_loader.py:40-79 | a found position holds the character within the scanned part; none found means no scanned cell holds it |
| MapText.CellTile | src/core/custom_map_loader.py:40-79 | '#' is wall, ".@OTh>" are walkable, any other character keeps the fill tile |
| MapText.SpawnTemplate | src/core/custom_map_loader.py:40-79 | 'O', 'T' and 'h' spawn the ghost, the troll ("Red Ghost", or "Crab" in the older tree) and the potion; nothing else spawns |
| MapText.ScanCell | src/core/custom_map_loader.py:40-79 | scanning one more cell extends the loaded-so-far invariant by that cell |
| MapText.PlayerCell | src/core/custom_map_loader.py:50-54 | an '@' cell becomes floor and the player is placed there |
| MapText.StairsCell | src/core/custom_map_loader.py:55-58 | a '>' cell becomes stairs and is recorded as the downstairs |
| MapText.SpawnCell | src/core/custom_map_loader.py:59-76 | an 'O', 'T' or 'h' cell becomes floor and spawns its entity there |
| MapText.LoadCustomMapFromString | src/core/custom_map_loader.py:20-81 | the map has the lines' count and longest width, every cell's tile is read from its character (void beyond a line's end), the player stands on the last '@', the stairs are the last '>', and each spawn character's cell holds at least one spawned entity of its template |
| MapText.LoadCustomMap | src/core/custom_map_loader.py:84-98 | loading a file's contents is loading its text |
| MapText.LegacyScan | custom_map_loader.py:14-44 | the older scan loads the lines in the same way, with the given fill for unknown characters and the older templates |
| MapText.LegacyLoadFromString | custom_map_loader.py:6-46 | the older string loader scans the stripped text's lines |
| MapText.FileLines | custom_map_loader.py:49-50 | the lines of a file hold no newline, joined back they give the contents (less one final newline), and there are none only for empty contents |
| MapText.LegacyLoadCustomMap | custom_map_loader.py:48-88 | an empty file gives no map; any other file loads its lines |
| MapText.NameChar | src/core/map_logger.py:123-135 | only the player, ghost, troll and potion names have a map character, one of "@OTh" |
| MapText.TileChar | src/core/map_logger.py:108-117 | every tile is written as one of "#.> " |
| MapText.TablesInverse | src/core/map_logger.py:108-135 | writing a tile or entity back gives the character it was loaded from |
| MapText.EntityCharAt | src/core/map_logger.py:123-135 | a found character belongs to an entity standing at the cell; none found means no named entity stands there |
| MapText.ConvertRow | src/core/map_logger.py:81-121 | each written row has the map's width and each character fits its cell |
| MapText.ConvertMapToString | src/core/map_logger.py:81-121 | the written text has one row per map row, joined by newlines, each cell fitting the map |
| MapText.CellRoundTrip | src/core/map_logger.py:81-135 | a cell of a canonically loaded map is written back as the character it was read from |
| MapText.MapRoundTrip | src/core/map_logger.py:81-121 | loading a canonical map text and writing the map back gives the same text |
| Procgen.Reached | src/core/procgen.py:45-56 | the count of table entries reached is the prefix whose minimum floors are at most the floor |
| Procgen.ReachedUnique | src/core/procgen.py:45-56 | that prefix length is unique |
| Procgen.GetMaxValueForFloor | src/core/procgen.py:45-56 | the loop returns the specification's value for the table and floor |
| Procgen.MaxValueAt | src/core/procgen.py:45-56 | on an ascending table the value is that of the last entry whose minimum is at most the floor |
| Procgen.MonsterLimits | src/core/procgen.py:24-28 | at most 0, 2, 3 or 5 monsters per room, by floor below 1, below 4, below 6, and beyond |
| Procgen.ItemLimits | src/core/procgen.py:19-22 | at most 0, 1 or 2 items per room, by floor below 1, below 4, and beyond |
| Procgen.Assign | src/core/procgen.py:74 | assigning keeps every key's position and appends a new key at the end |
| Procgen.AssignMeaning | src/core/procgen.py:74 | after assigning, the key maps to the new weight, other keys are unchanged, and keys stay distinct |
| Procgen.AssignEach | src/core/procgen.py:70-74 | the inner loop assigns every entry in order |
| Procgen.MergeWeights | src/core/procgen.py:64-77 | the loop merges the tables up to the floor as the specification does |
| Procgen.AssignAllLookup | src/core/procgen.py:64-77 | the merged weight of a template is its last assigned weight |
| Procgen.AssignAllDistinct | src/core/procgen.py:64-77 | merged keys stay distinct |
| Procgen.MonsterPool | src/core/procgen.py:121-123 | monsters are drawn from the floor-0 table: only ghosts, weight 80 |
| Procgen.ItemPool | src/core/procgen.py:124-126 | on any floor ≥ 0 the item pool is the potion with weight 35; below floor 0 it is empty |
| Procgen.Chosen | src/core/procgen.py:79-81 | each draw picks a template of the pool |
| Procgen.IntersectsMeansSharedCell | src/core/procgen.py:104-110 | two rooms intersect exactly when their boxes share a cell, and intersection is symmetric |
| Procgen.CenterInside | src/core/procgen.py:93-102 | a room at least 2 wide and high has its center inside its inner area |
| Procgen.Segment | src/core/procgen.py:146-149 | a straight run from one end to the other has one cell per step, stays between the ends and moves one cell at a time |
| Procgen.TunnelShape | src/core/procgen.py:136-149 | an L-shaped tunnel starts and ends at the two centers, stays in their box and is connected cell to cell |
| Procgen.SpawnUnlessOccupied | src/core/procgen.py:128-133 | an occupied spot spawns nothing; a free one spawns a fresh copy there; entity cells stay distinct |
| Procgen.PlaceEntities | src/core/procgen.py:113-133 | a negative floor raises (empty item pool) and adds nothing; otherwise at most monsters + items fresh ghosts or potions are added inside the room, cells stay distinct |
| Procgen.PaintWalls | src/core/procgen.py:179-184 | exactly the room's border becomes wall |
| Procgen.PaintInner | src/core/procgen.py:187 | exactly the room's inside becomes floor |
| Procgen.DigCell | src/core/procgen.py:197-206 | the tunnel cell becomes floor and only void neighbours become wall |
| Procgen.PaintTunnel | src/core/procgen.py:196-206 | every tunnel cell is floor, floor stays floor, and other cells change only from void to wall |
| Procgen.AcceptedApart | src/core/procgen.py:167-177 | the accepted rooms never intersect one another, and the first draw is always accepted |
| Procgen.PaintRoom | src/core/procgen.py:179-187 | painting a room keeps every earlier room's inside floor and makes the new one's floor |
| Procgen.Connect | src/core/procgen.py:195-206 | digging the tunnel keeps every room's inside floor |
| Procgen.Populate | src/core/procgen.py:208 | placing entities raises exactly on a negative floor and otherwise keeps every entity inside a room |
| Procgen.AddRoom | src/core/procgen.py:174-210 | an accepted room is painted, connected and populated; the first room places the player at its center; it raises exactly when the player cannot be moved or the floor is negative |
| Procgen.PlaceStairs | src/core/procgen.py:212-216 | the stairs go at the last room's center and are recorded |
| Procgen.Rounds | src/core/procgen.py:167-210 | one round per draw: it raises exactly when some draw exists and the player cannot be moved or the floor is negative; otherwise the rooms are exactly the accepted draws, painted, connected and populated |
| Procgen.GenerateDungeon | src/core/procgen.py:152-225 | it raises exactly when some draw exists and the player cannot be placed or the floor is negative; otherwise the accepted rooms are pairwise apart, their insides are floor except the stairs, the stairs are at the last room's center, the player is at the first room's center, and every entity stands inside a room |
| Astar.Padded | scripts/astar_to_stairs.py:32-37 | each line is padded with spaces to the longest width and keeps its characters |
| Astar.LoadMap | scripts/astar_to_stairs.py:29-37 | the loop builds the padded grid of the text's lines |
| Astar.Manhattan | scripts/astar_to_stairs.py:79-81 | the distance is zero exactly between equal points |
| Astar.Neighbors | scripts/astar_to_stairs.py:71-76 | the neighbours are exactly the passable in-bounds cells one step away |
| Astar.Passables | scripts/astar_to_stairs.py:56-68 | filtering keeps exactly the in-bounds cells that are neither wall nor void |
| Astar.ManhattanAlong | scripts/astar_to_stairs.py:79-81 | along a walk the heuristic never exceeds the steps taken, so it is admissible |
| Astar.FindPlayerAndStairs | scripts/astar_to_stairs.py:40-53 | the start is the last '@' and the goal the last '>' in reading order; a missing '@' is reported first, then a missing '>' |
| Astar.FoundAreLast | scripts/astar_to_stairs.py:40-53 | the found cells hold '@' and '>', and no later cell does |
| Astar.MinIndex | scripts/astar_to_stairs.py:104 | the popped entry is a least (f, g, point) tuple of the heap |
| Astar.Relax | scripts/astar_to_stairs.py:109-114 | afterwards the neighbour is scored, at most one more than the current node; no recorded score rises, the heap only grows, and the search invariant and termination measure are kept |
| Astar.Expand | scripts/astar_to_stairs.py:108-114 | relaxing every neighbour keeps the search invariant |
| Astar.Reversed | scripts/astar_to_stairs.py:89 | reversal mirrors the positions |
| Astar.ReconstructPath | scripts/astar_to_stairs.py:84-90 | following the predecessors gives a walk from the start to the node, no longer than its score |
| Astar.ReachScored | scripts/astar_to_stairs.py:103-116 | once the heap is empty, every cell a walk reaches from the start has been scored |
| Astar.AStarSearch | scripts/astar_to_stairs.py:93-116 | the start alone when it is the goal; otherwise a walk to the goal that no other walk beats, or None exactly when no walk reaches the goal |
| Astar.PathOverlay | scripts/astar_to_stairs.py:119-128 | the path is drawn as '*' except on '@' and '>', and every other cell is unchanged |
| Astar.Report | scripts/astar_to_stairs.py:147-160 | "no path" exactly when the goal is unreachable; otherwise the moves are the shortest walk's steps, at least the Manhattan distance, and the total adds one for the stairs key |
| Astar.Run | scripts/astar_to_stairs.py:131-160 | the script exits on a missing '@' or '>', reports no path exactly when unreachable, and otherwise reports the shortest move count |
| PyStr.LStrip | custom_map_loader.py:8 | the leading whitespace is removed and no more |
| PyStr.RStrip | custom_map_loader.py:8 | the trailing whitespace is removed and no more |
| PyStr.Strip | custom_map_loader.py:8 | the stripped text has no whitespace at either end |
| PyStr.StripIdempotent | src/api/config.py:10 | stripping twice is stripping once |
| PyStr.Split | src/core/custom_map_loader.py:31 | splitting gives at least one piece and no piece holds the separator |
| PyStr.JoinSplit | src/core/custom_map_loader.py:31 | joining the pieces with the separator gives the text back |
| PyStr.SplitJoin | src/api/config.py:10 | splitting joined separator-free pieces gives the pieces back |
| PyStr.SplitLines | scripts/astar_to_stairs.py:31 | no line holds a line boundary, and there are no lines only for empty text |
| PyStr.FirstBoundary | scripts/astar_to_stairs.py:31 | the index found is that of the first line boundary, or the end |
| PyStr.RemoveAll | engine.py:49 | removing a pattern never lengthens the text and leaves text without it unchanged |
| PyStr.ParseInt | src/api/port_config.py:83 | a parse succeeds only on text that is not blank |
| PyStr.IntToString | src/api/port_config.py:81 | an integer is written as non-empty text |
| PyStr.NatToStringValue | src/api/port_config.py:81-83 | the digits written for a natural number read back as it |
| PyStr.IntStringRoundTrip | src/api/port_config.py:81-83 | every integer written as text parses back to itself |
| PortConfig.ValidatePort | src/api/port_config.py:50-70 | a port is valid exactly in 1024–65535, with the range message when not; a valid port has a warning exactly when it is reserved |
| PortConfig.ReservedPortsVerdict | src/api/port_config.py:20-28 | ports 80 and 443 are rejected outright; the other reserved ports are valid with a warning |
| PortConfig.GetPortFromEnv | src/api/port_config.py:73-90 | the port read is always valid: the environment's value when it parses and validates, otherwise 8000 |
| PortConfig.EnvPortRoundTrip | src/api/port_config.py:73-90 | a valid port written into API_PORT is read back; an invalid one gives the default |
| PortConfig.FindAvailablePort | src/api/port_config.py:93-115 | the first free port of the attempted range, or RuntimeError with the range in its message exactly when none is free |
| ApiConfig.NonEmpty | src/api/config.py:11 | exactly the non-empty parts are kept, each from the input, and never more than the input's count |
| ApiConfig.NonEmptyAppend | src/api/config.py:11 | filtering works part by part, so the kept parts keep their order |
| ApiConfig.ParseOrigins | src/api/config.py:7-11 | unset or empty gives ["*"]; otherwise every origin is non-empty and already stripped, and a text is an origin exactly when it is the non-empty strip of some comma-separated part |
| ApiConfig.OriginsSingle | src/api/config.py:7-11 | a value without a comma gives its stripped text, or nothing when that is blank |
| ApiConfig.OriginsCons | src/api/config.py:7-11 | the origins of "w,t" are w's origin followed by the origins of t, so the parts come back in order |
| ApiConfig.OriginsBlankThen | src/api/config.py:7-11 | a blank part before a clean origin is dropped |
| ApiConfig.OriginsDropBlank | src/api/config.py:7-11 | a blank part between two clean origins is dropped and the two keep their order: "a, ,b" reads as ["a", "b"] |
| ApiConfig.OriginsRoundTrip | src/api/config.py:7-11 | a list of clean origins written comma-separated is read back as is |
| ApiConfig.SeparatorsOnly | src/api/config.py:7-11 | a value of only commas and whitespace allows no origin at all |
| ApiConfig.GetServerSettings | src/api/config.py:14-27 | host defaults to "0.0.0.0", port to 8000 (also when it does not parse); the origins are those `ParseOrigins` reads from CORS_ORIGINS, ["*"] when it is unset |
| ApiConfig.SettingsPortRoundTrip | src/api/config.py:22-25 | any integer in API_PORT is the port the settings carry, in range or not |
| SpriteConfig.GetSpriteDirectory | src/api/sprite_config.py:25-42 | sizes 8 and 16 have their directories; any other size is a ValueError naming it |
| SpriteConfig.SpriteTablesAgree | src/api/sprite_config.py:13-22 | the default size is supported and every supported size has a directory |
| Handlers.TypeName | src/api/state.py:32-39 | the type name is "MainGameEventHandler" exactly for the main game handler |
| Handlers.MoveDelta | src/core/input_handlers.py:23-32 | every move is one step along one axis |
| Handlers.ArrowsAndWasdAgree | src/core/input_handlers.py:23-32 | arrows and WASD move alike, and only they move |
| Handlers.MainGameCommand | src/core/input_handlers.py:134-159 | space takes the stairs, move keys bump by their delta, wait keys wait, escape goes to the menu, g picks up and i drinks a potion, each exactly |
| Handlers.FirstPotion | src/core/input_handlers.py:122-132 | the index found is the first potion in the inventory, or none when there is no potion |
| Handlers.EndScreensLeaveOnlyToMenu | src/core/input_handlers.py:191-242 | the game-over and game-done screens go to the menu exactly on escape or q and otherwise do nothing; the prompt screen ignores exactly modifier keys |
| Handlers.UseHealthPotion | src/core/input_handlers.py:122-132 | with a potion the action drinks the first one; without one "You don't have any health potions!" is logged and there is no action |
| Handlers.DispatchEvent | src/core/input_handlers.py:49-54 | the dispatch is the handler's answer to the event, and the logs change only for the no-potion message |
| Handlers.LogAllCounts | src/core/message_log.py:27-35 | logging a list of messages adds one to the total count per message, keeps the per-step list free of equal neighbours, and leaves the last text last in both logs |
| Handlers.LogEach | src/core/message_log.py:27-35 | the loop logs each message in turn, as `LogAll` says |
| Handlers.ApplyEffect | src/core/input_handlers.py:89-90 | an action's or enemy turn's effect logs its messages, moves the player, writes hp clamped (a write of 0 runs the player's death, restarting both logs) and sets victory; exactly the entities it names as removed leave the map, never the player |
| Handlers.HandleAction | src/core/input_handlers.py:85-98 | an action is performed exactly when there is one and it completes; none changes nothing; a refused one only stacks its message in both logs; a performed one applies its effect, removes the entities it and the enemies' effect name, runs exactly the turns of the actors with an AI still on the map after the action, applies the enemies' effect, and sets the view from the player with explored growing by it; otherwise the map's entities are unchanged |
| Handlers.AfterTurn | src/core/input_handlers.py:67-83 | after a turn the next screen is game done when done, game over when the player is dead, else the main game |
| Handlers.HandleEvents | src/core/input_handlers.py:67-83 | a screen change returns the new handler and leaves the player's view untouched, quit exits, a non-action keeps the handler, an action advances the step and clears the per-step list; refused keeps the handler with only its message logged, completed applies the action's then the enemies' effects (their removed entities leave the map) and goes to `AfterTurn` of the resulting state, with explored only growing |
| LegacyHandlers.HandleEvents | input_handlers.py:78-105 | as in the src tree (the same next handler, step count, logged messages and applied effects), and exactly after a produced action the game state log of the resulting state is written |
| LegacyHandlers.StairsHeal | input_handlers.py:126-160 | going down the stairs leaves a living player with hp in (0, new max], never below scaling alone |
| LegacyHandlers.ScaleAndHeal | input_handlers.py:141-152 | the hp after the stairs are scaling followed by a heal of half the new maximum, capped |
| LegacyHandlers.DescendStairs | input_handlers.py:141-159 | after the stairs the last two messages are the descent and the refreshed message |
| LegacyHandlers.CheckStairs | input_handlers.py:126-160 | off the stairs nothing changes (player, hp, logs, entities, view and flags); on a custom map the game is done with its message; otherwise the floor changes, hp follows scaling then the half-maximum heal, the last two messages are the descent and the refreshed message, and the view is recomputed |
| SetupGame.SourceOf | src/app/setup_game.py:37-87 | a map string wins, then a custom file, else the generator |
| SetupGame.GivePotions | src/app/setup_game.py:96-102 | two distinct fresh potions are added to the inventory |
| SetupGame.OpenEngine | src/app/setup_game.py:32-35 | a fresh engine with a fresh copy of the player at full hp, flagged custom exactly when a custom map is used |
| SetupGame.UnexpectedKeyword | src/core/engine.py:20 | a keyword call binds exactly when every keyword is a declared parameter; otherwise the keyword reported is one passed and not declared |
| SetupGame.EngineCallRejected | src/app/setup_game.py:34 | the src tree's `Engine(player=…, fov_mode=…, fov_radius=…)` is rejected naming `fov_mode`, while the older tree's call with the player alone binds |
| SetupGame.NewGameAsWritten | src/app/setup_game.py:27-34 | the src tree's `new_game` as written raises `TypeError` naming `fov_mode` for every argument list |
| SetupGame.LoadSrcMap | src/app/setup_game.py:37-87 | the engine gets a fresh, unexplored map with the player on it: the string loader's map, the file loader's map of the file's text, or the generator's map of the world's size and accepted rooms |
| SetupGame.Welcome | src/app/setup_game.py:91-102 | the welcome message is the only message in both logs, and the inventory holds two distinct fresh potions of the template, each with the inventory as parent |
| SetupGame.FinishGame | src/app/setup_game.py:89-102 | the view is the field of view from the player with explored equal to it, then the welcome message and the two potions |
| SetupGame.SrcFinish | src/app/setup_game.py:89-102 | the src tree's ending over its map: the loaded map still is what it was, with the welcome message, the view and two "Health Potion" items healing 5 |
| SetupGame.NewGame | src/app/setup_game.py:27-104 | a fresh engine (custom exactly for a custom map or string, floor 1 on a custom map, else the generated floor) with the player at full hp 100, the map the source's loader or generator gives, the welcome message only, the view from the player, and two potions healing 5; the world parameters pass through |
| SetupGame.LoadLegacyMap | setup_game.py:48-82 | it raises exactly for an empty custom map file, leaving the map unset; otherwise the engine gets a fresh, unexplored map: the stripped string's map, the file's lines' map, or a generated one |
| SetupGame.LegacyAttachText | setup_game.py:59 | the map of the stripped string's lines, in the older format with the given fill |
| SetupGame.LegacyAttachFile | setup_game.py:71 | an empty file raises and leaves the map unset; any other gives the map of the file's lines |
| SetupGame.LegacyGenerate | setup_game.py:82 | the generated floor is a map of the layout's size holding only the player, who stands at the layout's start |
| SetupGame.LegacyOpen | setup_game.py:43-82 | a fresh engine around a copy of the older player (defence 1, empty inventory), flagged and floored as in the src tree, then the map step, raising exactly for an empty file |
| SetupGame.LegacyView | setup_game.py:84-97 | the loaded map still is what it was, with the welcome message, the view from the player and two potions |
| SetupGame.LegacyFinish | setup_game.py:84-100 | the game is started as `LegacyStarted` states, the first state log included, and step, done flag, custom flag and floor are untouched |
| SetupGame.LegacyNewGame | setup_game.py:30-102 | the older game uses the fixed world parameters; it raises exactly for an empty custom map file, with no map and no log; otherwise the map is the loader's or the generated one, the player has defence 1, the welcome message, the view, two potions, and the state log of step 0 |
| SetupGame.MenuChoiceOf | src/app/setup_game.py:145-157 | q or escape quits, n starts a generated game, s starts the custom map file, each exactly |
| SetupGame.MainMenuKeyDownAsWritten | src/app/setup_game.py:145-157 | as written, q or escape exits, n and s raise the `TypeError` of `new_game` and return no handler, and other keys stay on the menu |
| SetupGame.MainMenuKeyDown | src/app/setup_game.py:145-157 | with the corrected `new_game`, quitting exits, a start key gives a new main game handler over a fresh engine (custom exactly for s), and other keys stay on the menu |
| ApiState.OnStairsExact | src/api/state.py:127-138 | the legality test for the stairs agrees with the engine's exact cell test, so an adjacent cell is not legal |
| ApiState.Select | src/api/state.py:178-213 | a key is selected exactly when it is a candidate and legal, and order and distinctness are kept |
| ApiState.DedupeFrom | src/api/state.py:206-213 | dedupe keeps each unseen key once |
| ApiState.DedupeDistinct | src/api/state.py:206-213 | a list already free of repeats is kept as is |
| ApiState.DedupeLoop | src/api/state.py:206-213 | the loop computes the dedupe |
| ApiState.ComputeLegalActions | src/api/state.py:178-213 | none without an engine; otherwise the legal keys in their fixed order, without repeats, always including "." |
| ApiState.StepText | src/api/state.py:73-79 | a per-step message shows as the message log shows it, with "(xN)" for repeats |
| ApiState.StepTexts | src/api/state.py:71-79 | one shown text per step message, in order |
| ApiState.PotionCount | src/api/state.py:64-68 | potions are counted among the items |
| ApiState.EndReason | src/api/state.py:81-87 | "victory" exactly when done, "death" exactly when not done and dead, none otherwise |
| ApiState.CountPotions | src/api/state.py:64-68 | the loop counts the potions |
| ApiState.RenderSteps | src/api/state.py:71-79 | the loop renders the step messages |
| ApiState.GameState.constructor | src/api/state.py:15-24 | the state starts without engine or handler, at step 0, level 1, running, with an empty queue |
| ApiState.GameState.SetGameComponents | src/api/state.py:26-30 | the engine and handler are installed |
| ApiState.GameState.UpdateHandler | src/api/state.py:32-39 | the handler is stored, and the step count is reset exactly when the handler's type changed |
| ApiState.GameState.CheckAndResetLevelSteps | src/api/state.py:41-48 | a new floor resets the step count and records the floor; otherwise nothing changes |
| ApiState.GameState.IncrementStepCount | src/api/state.py:50-53 | the step count goes up by one |
| ApiState.GameState.QueueAction | src/api/state.py:106-108 | the action joins the end of the queue |
| ApiState.GameState.GetStateSnapshot | src/api/state.py:55-104 | a snapshot exists exactly with an engine and a playing or end screen, and each field is the corresponding engine or state value |
| ApiHandler.KeyOf | src/app/api_handler.py:25-40 | every mapped token is a real, non-modifier key |
| ApiHandler.LegalKeysMapped | src/app/api_handler.py:25-40 | every legal action key is mapped, and different tokens map to different keys |
| ApiHandler.FovArgs | src/app/api_handler.py:70-79 | a radius is given only when it parses; the default is "partial" with radius 8 |
| ApiHandler.ProceduralArgs | src/app/api_handler.py:98-118 | fewer than five parameters give the defaults, and a procedural restart never uses a custom map |
| ApiHandler.ParseRestart | src/app/api_handler.py:63-120 | the modes custom, custom|, string| and procedural| each give their request, any other mode the default, and only a malformed custom| or string| mode fails |
| ApiHandler.ProceduralRoundTrip | src/app/api_handler.py:98-118 | world parameters written as a procedural restart are read back as they were |
| ApiHandler.CustomRadius | src/app/api_handler.py:70-79 | a custom restart succeeds exactly when its radius parses, and then carries that radius |
| ApiHandler.AfterUpdate | src/api/state.py:32-39 | the handler's type is recorded and the count reset exactly when it changed |
| ApiHandler.KeyStepCount | src/app/api_handler.py:129-149 | a key that keeps the main game on the same level counts one step; a new level resets the count to at most one; the count never jumps |
| ApiHandler.DrainStep | src/app/api_handler.py:45-54 | a key that exits stops the drain; one that continues hands the next handler on |
| ApiHandler.DrainSuffix | src/app/api_handler.py:45-50 | what is left in the queue is a suffix of it |
| ApiHandler.DrainedNoRestart | src/app/api_handler.py:45-54 | a drain that empties the queue saw no restart |
| ApiHandler.DrainFirstRestart | src/app/api_handler.py:48-50 | a drain stops at the first restart, with its mode, leaving what follows it |
| ApiHandler.DrainDropsUnknown | src/app/api_handler.py:53-54 | tokens that are neither keys nor restarts are dropped and leave the handler as it was |
| ApiHandler.ApiActionHandler.constructor | src/app/api_handler.py:23-24 | the handler holds the shared state |
| ApiHandler.ApiActionHandler.HandleKeyAction | src/app/api_handler.py:129-149 | the next handler is the dispatch's answer, the counters advance as specified, and the state's handler changes only for a new handler object |
| ApiHandler.ApiActionHandler.HandleRestartAsWritten | src/app/api_handler.py:63-120 | as written, every restart raises: a radius that does not parse raises `ValueError`, and every `new_game` call, the procedural fallback included, raises `TypeError` |
| ApiHandler.ApiActionHandler.HandleRestart | src/app/api_handler.py:63-127 | with the corrected `new_game`, a mode whose radius does not parse changes nothing; otherwise a fresh engine under a new main game handler is installed, custom exactly as the mode says, with step count 0, its floor and the handler's type recorded |
| ApiHandler.ApiActionHandler.TakeTokens | src/app/api_handler.py:45-54 | the loop takes tokens as `DrainOf` says: what is left in the queue and why it stopped |
| ApiHandler.ApiActionHandler.ProcessActionsAsWritten | src/app/api_handler.py:42-61 | as written, the queue loses exactly the drained tokens, no engine is installed, and a restart's error is caught so the handler current at the restart is returned |
| ApiHandler.ApiActionHandler.ProcessActions | src/app/api_handler.py:42-61 | with the corrected `new_game`, the queue loses exactly the drained tokens; the result is the last handler, an exit, the restarted main game with its counters reset, or the current handler when the restart's mode raised |
| LegacyEngineLog.GameFolders | engine.py:41 | exactly the directories named "game_…" are kept |
| LegacyEngineLog.FolderNumbers | engine.py:46-52 | every folder number that parses is collected, and nothing else |
| LegacyEngineLog.MaxOf | engine.py:54 | the maximum is in the list and bounds it |
| LegacyEngineLog.NextGameIdFresh | engine.py:36-54 | the new game id exceeds every existing game folder's number, and is 1 when none parses |
| LegacyEngineLog.NextGameId | engine.py:36-54 | the method computes the next game id |
| LegacyEngineLog.CollectGameFolders | engine.py:41 | the loop collects the game folders |
| LegacyEngineLog.ParseFolderNumbers | engine.py:46-52 | the loop collects the parsed numbers |
| LegacyEngineLog.MaxNumber | engine.py:54 | the loop finds the maximum |
| LegacyEngineLog.MaxOfSnoc | engine.py:54 | a new last element is the maximum exactly when it exceeds the old one |
| LegacyEngineLog.FormatStep | engine.py:133-141 | a step line starts with "- " and the text, and is longer exactly for a repeated message |
| LegacyEngineLog.FormatSteps | engine.py:133-141 | one line per step message, in order |
| LegacyEngineLog.FormatStepMessages | engine.py:133-141 | the loop formats the step messages |
| LegacyEngineLog.BlockLines | engine.py:133-145 | the message block is its lines joined by newlines |
| LegacyEngineLog.StateTextHoldsBlock | engine.py:154-161 | the state text is the header, the message block and the footer, one per line |
| LegacyEngineLog.StateTextLinesRoundTrip | engine.py:154-161 | splitting the state text at newlines gives back its lines |
| LegacyEngineLog.LogGameState | engine.py:123-164 | the content written is the state text of the engine's level, step, messages, tile and hp |

## Left out

- SetupGame.NewGame: this is the corrected `new_game`, not the code as written, which always raises `TypeError` (`SetupGame.NewGameAsWritten`, see "## Findings"). It drops `fov_mode` and `fov_radius` because `Engine.__init__` takes only the player (src/core/engine.py:20), so the view radius stays the engine's fixed 8. `MainMenuKeyDown`, `HandleRestart` and `ProcessActions` build on it; their as-written variants state what the source does.
- PyStr.ParseInt: only the ASCII digits 0-9 are digits. Python's `int()` also accepts every other Unicode decimal digit, such as full-width "８０８０" or Arabic-Indic "٣". So `PortConfig.GetPortFromEnv` gives 8000 for such an `API_PORT`, where the source reads the number. Likewise `LegacyEngineLog.FolderNumbers` skips a folder such as "game_٣", which the source counts as 3.
- Procgen.GenerateDungeon: requires every draw to lie in the range `random.randint` draws it from, and a map size of at least 0. An empty range makes `randint` raise `ValueError`: `room_min_size > room_max_size`, a map not wider or higher than the room, or a room too narrow for an entity spot. That exception is not modelled. The same requirement (`SetupGame.DrawsFit`, `ApiHandler.RestartFits`) is on `SetupGame.NewGame`, `SetupGame.MainMenuKeyDown`, `ApiHandler.ApiActionHandler.HandleRestart` and `ApiHandler.ApiActionHandler.ProcessActions`. So the procedural restart's `except (ValueError, TypeError)` fallback to a default game is not reached for such a `ValueError`.
- Handlers.HandleAction: what `action.perform()` and the enemies' AI do is an input `Effect`, because actions.py and ai.py are not part of this model. An effect covers both logs, the player's move and hp (with its death), victory, and the other entities that leave the map's entity set. It does not cover inventory changes from picking up or drinking a potion. Nor does it cover other entities' hp, moves, or the corpse fields a killed enemy's `die` writes. The player must stand on the engine's map (`Handlers.InPlay`). `Handlers.HandleEvents`, `Handlers.ApplyEffect` and `LegacyHandlers.HandleEvents` share these limits.
- SetupGame.LegacyNewGame: the older tree's procedural generator is not part of this model. A generated floor is a map of an input layout's size that holds only the player, at the layout's start cell (`SetupGame.LegacyGenerate`). Its rooms, tiles and other entities are not stated.
- Core.Engine.CurrentLevel: requires a world with a current floor. `getattr`'s default of 1, for a world that is `None` or has no `current_floor`, is not modelled. Neither is the `AttributeError` of an engine that was never given a `game_world`: the class-level annotation binds no value. `ApiState.GameState.GetStateSnapshot` requires the same.
- ApiState.GameState.GetStateSnapshot: the tile the player stands on is stated for the done and stairs cases. Otherwise it is `Core.Engine.PlayerTileType`'s answer, which is not repeated in the contract.
- Procgen.GenerateDungeon: the map is not claimed to be connected. A room's walls are painted over earlier tunnels, which can cut them.
- Procgen.PlaceEntities: monsters are always drawn from the floor-0 table, as the source does (`Procgen.MonsterPool`). The weighted draw itself is an input (`random.choices` and `random.randint` results).
- ApiConfig.GetServerSettings: the port is not range-checked, as in the source.
- MapText.LegacyLoadCustomMap: text-mode newline translation of `\r\n` and `\r` is not modelled. Lines split on `\n` only.
- Core.Fighter.Die: a second call on an already dead actor is not guarded, as in the source. The contract shows what that call does.
- game_map.py is not part of this model. The map's size, tiles, entity set and downstairs cell are fields of `Core.GameMap`. `get_actor_at_location` becomes `Core.ActorAt`. The fill tile and the floor layout are inputs. `GameWorld` and `generate_floor` are not modelled.
- actions.py, ai.py and tcod's `compute_fov` are not part of this model. An action's result and the field-of-view function are parameters.
- Randomness: every draw of room sizes and positions, entity counts, spots, tunnel orientation and templates is a parameter.
- I/O: file reads, directory listings, environment variables, directory creation and file writes. The text read or written is an input or a result.
- The free-port check `is_port_available` is an oracle parameter. The sprite directory check on disk is left out.
- Printing and argument parsing in the A* script, console rendering, the sprite converter, HTTP routes, the observation module and the program entry points are left out.
- Threads, locks and the thread-safe queue are left out. The queue is a sequence and operations are atomic.
- RGB colour values are carried but not reasoned about.
- The map logger's `log_map` metadata and file output are left out. Only the map-to-text conversion is modelled.
- Astar.AStarSearch: the order among equal `(f, g, point)` heap entries follows tuple order only. Which of several shortest paths is returned is not stated.

## Findings

| source | as written | input that shows it | evidently intended | confidence | as-written member | corrected member |
|---|---|---|---|---|---|---|
| src/app/setup_game.py:34 | `Engine(player=player, fov_mode=fov_mode, fov_radius=fov_radius)`, but `Engine.__init__` (src/core/engine.py:20) declares only `player`, so every call raises `TypeError`; the main menu's n and s keys and every API restart, including the procedural fallback, then fail (`SetupGame.EngineCallRejected`, `SetupGame.MainMenuKeyDownAsWritten`, `ApiHandler.ApiActionHandler.HandleRestartAsWritten`) | any call, e.g. `new_game()` with its defaults | build the engine with `Engine(player=player)`, as the older tree does, and keep the rest of `new_game` | high; not executed | SetupGame.NewGameAsWritten | SetupGame.NewGame |
