/** Starting a game: `new_game` in both trees and the main menu's keys.
    The map comes from the custom-map loaders of `MapText` or from the
    generator of `Procgen`; what those read from outside (the file's text,
    the generator's random draws) is an input. */
module SetupGame {
  import opened Wrappers
  import opened PyStr
  import opened Tiles
  import opened EntityFactories
  import LegacyEntityFactories
  import opened Core
  import opened Handlers
  import opened LegacyEngineLog
  import MapText
  import Procgen

  /** Where a new game's map comes from. */
  datatype MapSource = FromString(text: string) | FromFile(path: string) | Generated

  /** The choice `new_game` makes: a non-empty map string first, then a
      custom map file, else a generated floor. */
  function SourceOf(useCustomMap: bool, customMapFile: string, customMapString: string): (s: MapSource)
    ensures s.FromString? <==> |customMapString| > 0
    ensures s.FromString? ==> s.text == customMapString
    ensures s.FromFile? <==> |customMapString| == 0 && useCustomMap
    ensures s.FromFile? ==> s.path == customMapFile
    ensures s.Generated? <==> |customMapString| == 0 && !useCustomMap
  {
    if |customMapString| > 0 then FromString(customMapString)
    else if useCustomMap then FromFile(customMapFile)
    else Generated
  }

  /** The world parameters `new_game` hands to `GameWorld`. */
  datatype WorldParams = WorldParams(maxRooms: int, roomMinSize: int, roomMaxSize: int,
                                     mapWidth: int, mapHeight: int)

  /** The src tree's defaults. */
  const SrcDefaults := WorldParams(30, 4, 6, 30, 30)
  /** The older tree's fixed parameters. */
  const LegacyParams := WorldParams(30, 2, 6, 30, 30)

  /** What the src tree's `new_game` gets from outside: the text of the
      custom map file (reading it is not part of this model); for a
      generated world, the floor number `GameWorld.generate_floor` sets, the
      tile a fresh map starts with, and the random draws of the generator's
      rounds (`game_map.py` is not part of this model). */
  datatype MapInput = MapInput(fileContents: string, floor: nat, fill: Tile, draws: seq<Procgen.RoomDraw>)

  /** The draws are one per round and each lies in the ranges it is drawn
      from, for a map of non-negative size. */
  predicate DrawsFit(p: WorldParams, input: MapInput) {
    && p.roomMinSize >= 0 && p.mapWidth >= 0 && p.mapHeight >= 0
    && |input.draws| == (if p.maxRooms < 0 then 0 else p.maxRooms)
    && forall i :: 0 <= i < |input.draws| ==>
         Procgen.DrawFits(input.draws[i], p.roomMinSize, p.roomMaxSize, p.mapWidth, p.mapHeight, input.floor)
  }

  /** What the older tree's generator produced, which is not part of this
      model: the map's size and the player's start cell. */
  datatype Layout = Layout(width: nat, height: nat, start: Pos)

  const WelcomeMessage := "Hello and welcome, adventurer, to yet another dungeon!"

  // ---------------------------------------------------------------- the engine call

  /** The parameters `Engine.__init__` declares besides `self`. */
  const EngineParams := ["player"]

  /** The keywords the src tree's `new_game` passes to `Engine(...)`. */
  const NewGameEngineKeywords := ["player", "fov_mode", "fov_radius"]

  /** Python's binding of keyword arguments: the first keyword the callee
      does not declare, which raises `TypeError`, or `None` when all bind. */
  function UnexpectedKeyword(params: seq<string>, keywords: seq<string>): (r: Option<string>)
    ensures r.None? <==> forall k :: k in keywords ==> k in params
    ensures r.Some? ==> r.value in keywords && r.value !in params
  {
    if keywords == [] then None
    else if keywords[0] !in params then Some(keywords[0])
    else UnexpectedKeyword(params, keywords[1..])
  }

  /** The src tree's `Engine(...)` call names `fov_mode`, which the engine
      does not take; the older tree's call, with the player alone, binds. */
  lemma EngineCallRejected()
    ensures UnexpectedKeyword(EngineParams, NewGameEngineKeywords) == Some("fov_mode")
    ensures UnexpectedKeyword(EngineParams, ["player"]).None?
  {
  }

  /** The src tree's `new_game` as written: the player copy is made, then
      the `Engine(...)` call raises `TypeError` whatever the arguments, so
      no game is ever started. The result is the keyword named in the
      error. */
  method NewGameAsWritten(useCustomMap: bool, customMapFile: string, customMapString: string,
                          params: WorldParams, fovMode: string, fovRadius: int)
    returns (raised: Option<string>)
    ensures raised == Some("fov_mode")
  {
    var _ := new Entity.FromTemplate(Player());
    EngineCallRejected();
    raised := UnexpectedKeyword(EngineParams, NewGameEngineKeywords);
  }

  /** The two potion copies `new_game` makes: each gets the inventory as
      parent, then both are appended. The source sets the parents in a loop
      of its own; nothing reads them in between, so setting each as it is
      made is the same. */
  method GivePotions(inv: Inventory, potion: Template) returns (potions: seq<Entity>)
    requires potion.kind.ItemKind?
    modifies inv`items
    ensures |potions| == 2 && potions[0] != potions[1]
    ensures forall p :: p in potions ==>
      && fresh(p) && p.cls == ItemEntity && p.name == potion.name
      && p.consumable == Some(potion.kind.healAmount) && p.parent == InInventory(inv)
    ensures inv.items == old(inv.items) + potions
  {
    potions := [];
    for i := 0 to 2
      invariant |potions| == i
      invariant forall j, k :: 0 <= j < k < i ==> potions[j] != potions[k]
      invariant forall p :: p in potions ==>
        && fresh(p) && p.cls == ItemEntity && p.name == potion.name
        && p.consumable == Some(potion.kind.healAmount) && p.parent == InInventory(inv)
      invariant inv.items == old(inv.items)
    {
      var p := new Entity.FromTemplate(potion);
      p.parent := InInventory(inv);
      potions := potions + [p];
    }
    for i := 0 to 2
      invariant forall p :: p in potions ==>
        && fresh(p) && p.cls == ItemEntity && p.name == potion.name
        && p.consumable == Some(potion.kind.healAmount) && p.parent == InInventory(inv)
      invariant inv.items == old(inv.items) + potions[..i]
    {
      inv.items := inv.items + [potions[i]];
    }
  }

  /** The first part of `new_game`: a copy of the player template, an
      engine around it, the custom-map flag and the floor number. */
  method OpenEngine(playerTemplate: Template, useCustomMap: bool, customMapFile: string,
                    customMapString: string, generatedFloor: int)
    returns (engine: Engine, source: MapSource)
    requires playerTemplate.kind.ActorKind?
    ensures source == SourceOf(useCustomMap, customMapFile, customMapString)
    ensures fresh(engine) && fresh(engine.messageLog) && fresh(engine.player)
    ensures engine.messageLog.engine == engine && engine.gameMap == null
    ensures engine.isUsingCustomMap == (useCustomMap || |customMapString| > 0)
    ensures engine.currentFloor == Some(if source.Generated? then generatedFloor else 1)
    ensures engine.stepCounter == 0 && !engine.gameDone
    ensures engine.messageLog.messages == [] && engine.stepMessages == []
    ensures engine.player.name == playerTemplate.name && engine.player.cls == ActorEntity
    ensures engine.player.parent == Unattached
    ensures engine.player.fighter != null && fresh(engine.player.fighter)
    ensures engine.player.fighter.hp == engine.player.fighter.maxHp == playerTemplate.kind.hp
    ensures engine.player.fighter.baseDefense == playerTemplate.kind.baseDefense
    ensures engine.player.inventory != null && fresh(engine.player.inventory)
    ensures engine.player.inventory.owner == engine.player && engine.player.inventory.items == []
  {
    var player := new Entity.FromTemplate(playerTemplate);
    engine := new Engine(player);
    engine.isUsingCustomMap := useCustomMap || |customMapString| > 0;
    if |customMapString| > 0 {
      source := FromString(customMapString);
      engine.currentFloor := Some(1);
    } else if useCustomMap {
      source := FromFile(customMapFile);
      engine.currentFloor := Some(1);
    } else {
      source := Generated;
      engine.currentFloor := Some(generatedFloor);
    }
  }

  /** A map the src tree's loaders or generator return for `source`. */
  predicate SrcMapFrom(gm: GameMap, player: Entity, source: MapSource, params: WorldParams, input: MapInput)
    reads gm, gm.entities, gm.tiles, player
  {
    match source
    case FromString(text) => MapText.Loaded(MapText.SrcFormat, gm, player, Split(text, '\n'))
    case FromFile(_) => MapText.Loaded(MapText.SrcFormat, gm, player, Split(input.fileContents, '\n'))
    case Generated =>
      && gm.width == params.mapWidth && gm.height == params.mapHeight
      && Procgen.Generated(gm, player, Procgen.Accepted(input.draws))
  }

  /** The map step of the src tree's `new_game`: `load_custom_map_from_string`,
      `load_custom_map` on the file's text, or the generator with the world
      parameters on the floor `generate_floor` sets. */
  method LoadSrcMap(engine: Engine, source: MapSource, params: WorldParams, input: MapInput)
    requires engine.player.parent == Unattached && engine.player.inventory != null
    requires engine.messageLog.engine == engine
    requires source.Generated? ==> DrawsFit(params, input)
    modifies engine`gameMap, engine.player`x, engine.player`y, engine.player`parent
    ensures engine.gameMap != null && fresh(engine.gameMap) && fresh(engine.gameMap.visible)
    ensures fresh(engine.gameMap.explored) && Playing(engine) && engine.gameMap.Unseen()
    ensures SrcMapFrom(engine.gameMap, engine.player, source, params, input)
  {
    var gm: GameMap;
    match source {
      case FromString(text) =>
        gm := MapText.LoadCustomMapFromString(text, engine);
      case FromFile(_) =>
        gm := MapText.LoadCustomMap(input.fileContents, engine);
      case Generated =>
        var raised;
        gm, raised := Procgen.GenerateDungeon(params.maxRooms, params.roomMinSize, params.roomMaxSize,
                                              params.mapWidth, params.mapHeight, engine, input.floor,
                                              input.fill, input.draws);
    }
    engine.gameMap := gm;
  }

  /** The welcome message and the two potions every new game gives the
      player; neither depends on the map. */
  method Welcome(engine: Engine, potionTemplate: Template)
    requires engine.messageLog.engine == engine && engine.player.inventory != null
    requires potionTemplate.kind.ItemKind?
    requires engine.messageLog.messages == [] && engine.stepMessages == []
    requires engine.player.inventory.items == []
    modifies engine.messageLog`messages, engine`stepMessages, engine.player.inventory`items
    ensures engine.messageLog.messages == [NewMessage(WelcomeMessage, WelcomeText)]
    ensures engine.stepMessages == [StepMessage(WelcomeMessage, 1)]
    ensures |engine.player.inventory.items| == 2
    ensures engine.player.inventory.items[0] != engine.player.inventory.items[1]
    ensures forall p :: p in engine.player.inventory.items ==>
      && fresh(p) && p.cls == ItemEntity && p.name == potionTemplate.name
      && p.consumable == Some(potionTemplate.kind.healAmount)
      && p.parent == InInventory(engine.player.inventory)
  {
    engine.messageLog.AddMessage(WelcomeMessage, WelcomeText, true);
    var _ := GivePotions(engine.player.inventory, potionTemplate);
  }

  /** The end both trees' `new_game` share: the view from the player's
      cell, the welcome message, and two potions in the inventory. */
  method FinishGame(engine: Engine, potionTemplate: Template, fov: (int, int, int, int, int) -> bool)
    requires Playing(engine) && engine.gameMap.Unseen() && potionTemplate.kind.ItemKind?
    requires engine.messageLog.messages == [] && engine.stepMessages == []
    requires engine.player.inventory.items == []
    modifies engine.gameMap.visible, engine.gameMap.explored, engine.messageLog`messages, engine`stepMessages
    modifies engine.player.inventory`items
    ensures engine.messageLog.messages == [NewMessage(WelcomeMessage, WelcomeText)]
    ensures engine.stepMessages == [StepMessage(WelcomeMessage, 1)]
    ensures forall x, y :: 0 <= x < engine.gameMap.width && 0 <= y < engine.gameMap.height ==>
      && engine.gameMap.visible[x, y] == fov(engine.player.x, engine.player.y, FovRadius, x, y)
      && engine.gameMap.explored[x, y] == engine.gameMap.visible[x, y]
    ensures |engine.player.inventory.items| == 2
    ensures engine.player.inventory.items[0] != engine.player.inventory.items[1]
    ensures forall p :: p in engine.player.inventory.items ==>
      && fresh(p) && p.cls == ItemEntity && p.name == potionTemplate.name
      && p.consumable == Some(potionTemplate.kind.healAmount)
      && p.parent == InInventory(engine.player.inventory)
  {
    engine.UpdateFov(fov);
    Welcome(engine, potionTemplate);
  }

  /** The src tree's `new_game` as evidently intended: the engine is built
      with the player alone, which is all `Engine.__init__` takes, so
      `fovMode` and `fovRadius` are dropped and the view keeps radius 8. */
  method NewGame(useCustomMap: bool, customMapFile: string, customMapString: string,
                 params: WorldParams, fovMode: string, fovRadius: int, input: MapInput,
                 fov: (int, int, int, int, int) -> bool)
    returns (engine: Engine, source: MapSource, world: WorldParams)
    requires SourceOf(useCustomMap, customMapFile, customMapString).Generated? ==> DrawsFit(params, input)
    ensures world == params
    ensures source == SourceOf(useCustomMap, customMapFile, customMapString)
    ensures fresh(engine) && engine.stepCounter == 0 && !engine.gameDone
    ensures engine.isUsingCustomMap == (useCustomMap || |customMapString| > 0)
    ensures engine.currentFloor == Some(if source.Generated? then input.floor as int else 1)
    ensures engine.messageLog.messages == [NewMessage(WelcomeMessage, WelcomeText)]
    ensures engine.stepMessages == [StepMessage(WelcomeMessage, 1)]
    ensures engine.gameMap != null && Playing(engine)
    ensures SrcMapFrom(engine.gameMap, engine.player, source, params, input)
    ensures engine.player.name == "Player" && engine.player.fighter != null
    ensures engine.player.fighter.hp == engine.player.fighter.maxHp == 100
    ensures forall x, y :: 0 <= x < engine.gameMap.width && 0 <= y < engine.gameMap.height ==>
      && engine.gameMap.visible[x, y] == fov(engine.player.x, engine.player.y, FovRadius, x, y)
      && engine.gameMap.explored[x, y] == engine.gameMap.visible[x, y]
    ensures |engine.player.inventory.items| == 2
    ensures forall p :: p in engine.player.inventory.items ==>
      p.name == "Health Potion" && p.consumable == Some(5) && p.parent == InInventory(engine.player.inventory)
  {
    world := params;
    engine, source := OpenEngine(Player(), useCustomMap, customMapFile, customMapString, input.floor);
    LoadSrcMap(engine, source, params, input);
    SrcFinish(engine, source, params, input, fov);
  }

  /** `FinishGame` with the src tree's potion, over a loaded map it leaves
      as it was. */
  method SrcFinish(engine: Engine, source: MapSource, params: WorldParams, input: MapInput,
                   fov: (int, int, int, int, int) -> bool)
    requires Playing(engine) && engine.gameMap.Unseen()
    requires engine.messageLog.messages == [] && engine.stepMessages == []
    requires engine.player.inventory.items == []
    modifies engine.gameMap.visible, engine.gameMap.explored, engine.messageLog`messages, engine`stepMessages
    modifies engine.player.inventory`items
    ensures SrcMapFrom(engine.gameMap, engine.player, source, params, input)
         == old(SrcMapFrom(engine.gameMap, engine.player, source, params, input))
    ensures engine.messageLog.messages == [NewMessage(WelcomeMessage, WelcomeText)]
    ensures engine.stepMessages == [StepMessage(WelcomeMessage, 1)]
    ensures forall x, y :: 0 <= x < engine.gameMap.width && 0 <= y < engine.gameMap.height ==>
      && engine.gameMap.visible[x, y] == fov(engine.player.x, engine.player.y, FovRadius, x, y)
      && engine.gameMap.explored[x, y] == engine.gameMap.visible[x, y]
    ensures |engine.player.inventory.items| == 2
    ensures forall p :: p in engine.player.inventory.items ==>
      p.name == "Health Potion" && p.consumable == Some(5) && p.parent == InInventory(engine.player.inventory)
  {
    FinishGame(engine, HealthPotion(), fov);
  }

  /** A map the older tree's loaders return for `source`; on a generated
      floor, a map of the layout's size with the player at its start cell
      (the older tree's generator is not part of this model). */
  predicate LegacyMapFrom(gm: GameMap, player: Entity, source: MapSource, useGraphic: Option<string>,
                          fill: Tile, fileContents: string, layout: Layout)
    reads gm, gm.entities, gm.tiles, player
  {
    var f := MapText.Format(true, useGraphic, fill);
    match source
    case FromString(text) => MapText.Loaded(f, gm, player, Split(Strip(text), '\n'))
    case FromFile(_) => MapText.Loaded(f, gm, player, MapText.FileLines(fileContents))
    case Generated =>
      && gm.Valid() && gm.width == layout.width && gm.height == layout.height
      && player in gm.entities && player.parent == OnMap(gm)
      && player.x == layout.start.x && player.y == layout.start.y
  }

  /** The map step of the older tree's `new_game`. An empty custom map file
      has no lines, and `max` over none raises `ValueError`: `raised`. */
  method LoadLegacyMap(engine: Engine, source: MapSource, useGraphic: Option<string>, fill: Tile,
                       fileContents: string, layout: Layout)
    returns (raised: bool)
    requires engine.player.parent == Unattached && engine.player.inventory != null
    requires engine.messageLog.engine == engine
    modifies engine`gameMap, engine.player`x, engine.player`y, engine.player`parent
    ensures raised <==> source.FromFile? && fileContents == ""
    ensures raised ==> engine.gameMap == old(engine.gameMap)
    ensures !raised ==>
      && engine.gameMap != null && fresh(engine.gameMap) && fresh(engine.gameMap.visible)
      && fresh(engine.gameMap.explored) && Playing(engine) && engine.gameMap.Unseen()
      && LegacyMapFrom(engine.gameMap, engine.player, source, useGraphic, fill, fileContents, layout)
  {
    raised := false;
    match source {
      case FromString(text) =>
        LegacyAttachText(engine, text, useGraphic, fill);
      case FromFile(_) =>
        raised := LegacyAttachFile(engine, fileContents, useGraphic, fill);
      case Generated =>
        LegacyGenerate(engine, layout, fill);
    }
  }

  /** The map step for a map string: its stripped lines, loaded. */
  method LegacyAttachText(engine: Engine, text: string, useGraphic: Option<string>, fill: Tile)
    requires engine.player.parent == Unattached && engine.player.inventory != null
    requires engine.messageLog.engine == engine
    modifies engine`gameMap, engine.player`x, engine.player`y, engine.player`parent
    ensures engine.gameMap != null && fresh(engine.gameMap) && fresh(engine.gameMap.visible)
    ensures fresh(engine.gameMap.explored) && Playing(engine) && engine.gameMap.Unseen()
    ensures MapText.Loaded(MapText.Format(true, useGraphic, fill), engine.gameMap, engine.player,
                           Split(Strip(text), '\n'))
  {
    engine.gameMap := MapText.LegacyLoadFromString(text, engine, useGraphic, fill);
  }

  /** The map step for a map file: its lines, loaded, or `raised` for an
      empty file. */
  method LegacyAttachFile(engine: Engine, fileContents: string, useGraphic: Option<string>, fill: Tile)
    returns (raised: bool)
    requires engine.player.parent == Unattached && engine.player.inventory != null
    requires engine.messageLog.engine == engine
    modifies engine`gameMap, engine.player`x, engine.player`y, engine.player`parent
    ensures raised <==> fileContents == ""
    ensures raised ==> engine.gameMap == old(engine.gameMap)
    ensures !raised ==>
      && engine.gameMap != null && fresh(engine.gameMap) && fresh(engine.gameMap.visible)
      && fresh(engine.gameMap.explored) && Playing(engine) && engine.gameMap.Unseen()
      && MapText.Loaded(MapText.Format(true, useGraphic, fill), engine.gameMap, engine.player,
                        MapText.FileLines(fileContents))
  {
    var loaded := MapText.LegacyLoadCustomMap(fileContents, engine, useGraphic, fill);
    if loaded.None? {
      return true;
    }
    engine.gameMap := loaded.value;
    raised := false;
  }

  /** The map step for a generated map: a map of the layout's size filled
      with `fill`, holding only the player, who stands at the layout's
      start. */
  method LegacyGenerate(engine: Engine, layout: Layout, fill: Tile)
    requires engine.player.inventory != null && engine.messageLog.engine == engine
    modifies engine`gameMap, engine.player`x, engine.player`y, engine.player`parent
    ensures engine.gameMap != null && fresh(engine.gameMap) && fresh(engine.gameMap.visible)
    ensures fresh(engine.gameMap.explored) && Playing(engine) && engine.gameMap.Unseen()
    ensures engine.gameMap.width == layout.width && engine.gameMap.height == layout.height
    ensures engine.gameMap.entities == {engine.player} && engine.player.parent == OnMap(engine.gameMap)
    ensures engine.player.x == layout.start.x && engine.player.y == layout.start.y
  {
    var player := engine.player;
    var gm := new GameMap(engine, layout.width, layout.height, {player}, fill);
    player.x, player.y := layout.start.x, layout.start.y;
    player.parent := OnMap(gm);
    engine.gameMap := gm;
  }

  /** The older tree's `new_game`: fixed world parameters, its own player
      template (with a defence stat), and a first state log at step 0. An
      empty custom map file raises before the view is computed. */
  method LegacyNewGame(useCustomMap: bool, customMapFile: string, customMapString: string,
                       useGraphic: Option<string>, fill: Tile, fileContents: string, layout: Layout,
                       generatedFloor: int, fov: (int, int, int, int, int) -> bool)
    returns (engine: Engine, source: MapSource, world: WorldParams, log: Option<string>, raised: bool)
    ensures world == LegacyParams
    ensures source == SourceOf(useCustomMap, customMapFile, customMapString)
    ensures raised <==> source.FromFile? && fileContents == ""
    ensures fresh(engine) && engine.stepCounter == 0 && !engine.gameDone
    ensures engine.isUsingCustomMap == (useCustomMap || |customMapString| > 0)
    ensures engine.currentFloor == Some(if source.Generated? then generatedFloor else 1)
    ensures raised ==> engine.gameMap == null && log == None
    ensures !raised ==> LegacyStarted(engine, source, useGraphic, fill, fileContents, layout, fov, log)
  {
    world := LegacyParams;
    log := None;
    engine, source, raised := LegacyOpen(useCustomMap, customMapFile, customMapString, useGraphic, fill,
                                         fileContents, layout, generatedFloor);
    if raised {
      return;
    }
    log := LegacyFinish(engine, fov, source, useGraphic, fill, fileContents, layout);
  }

  /** A legacy game once `new_game` has returned: the welcome message, the
      map as loaded or generated, the player's defence of 1, the view from
      the player, two potions, and `log` as the state log of it. */
  ghost predicate LegacyStarted(engine: Engine, source: MapSource, useGraphic: Option<string>, fill: Tile,
                                fileContents: string, layout: Layout, fov: (int, int, int, int, int) -> bool,
                                log: Option<string>)
    reads engine, engine.messageLog, engine.player, engine.player.fighter, engine.player.inventory
    reads if engine.gameMap == null then {} else {engine.gameMap, engine.gameMap.tiles, engine.gameMap.visible}
    reads if engine.gameMap == null then {} else engine.gameMap.entities
  {
    && engine.messageLog.messages == [NewMessage(WelcomeMessage, WelcomeText)]
    && engine.gameMap != null && Playing(engine)
    && LegacyMapFrom(engine.gameMap, engine.player, source, useGraphic, fill, fileContents, layout)
    && engine.player.fighter != null && engine.player.fighter.baseDefense == Some(1)
    && (forall x, y :: 0 <= x < engine.gameMap.width && 0 <= y < engine.gameMap.height ==>
          engine.gameMap.visible[x, y] == fov(engine.player.x, engine.player.y, FovRadius, x, y))
    && |engine.player.inventory.items| == 2
    && IsStateLog(engine, log)
  }

  /** The end of the older tree's `new_game`, over its loaded map: the view
      from the player, the welcome message, two potions and the first state
      log. */
  method LegacyFinish(engine: Engine, fov: (int, int, int, int, int) -> bool, source: MapSource,
                      useGraphic: Option<string>, fill: Tile, fileContents: string, layout: Layout)
    returns (log: Option<string>)
    requires Playing(engine) && engine.gameMap.Unseen()
    requires engine.messageLog.messages == [] && engine.stepMessages == []
    requires engine.player.fighter != null && engine.player.fighter.baseDefense == Some(1)
    requires engine.player.inventory.items == []
    requires LegacyMapFrom(engine.gameMap, engine.player, source, useGraphic, fill, fileContents, layout)
    modifies engine.gameMap.visible, engine.gameMap.explored, engine.messageLog`messages, engine`stepMessages
    modifies engine.player.inventory`items
    ensures LegacyStarted(engine, source, useGraphic, fill, fileContents, layout, fov, log)
    ensures unchanged(engine`stepCounter, engine`gameDone, engine`isUsingCustomMap, engine`currentFloor)
  {
    LegacyView(engine, fov, source, useGraphic, fill, fileContents, layout);
    log := LogGameState(engine);
  }

  /** `FinishGame` with the legacy potion, over a loaded map it leaves as it
      was. */
  method LegacyView(engine: Engine, fov: (int, int, int, int, int) -> bool, source: MapSource,
                    useGraphic: Option<string>, fill: Tile, fileContents: string, layout: Layout)
    requires Playing(engine) && engine.gameMap.Unseen()
    requires engine.messageLog.messages == [] && engine.stepMessages == []
    requires engine.player.inventory.items == []
    modifies engine.gameMap.visible, engine.gameMap.explored, engine.messageLog`messages, engine`stepMessages
    modifies engine.player.inventory`items
    ensures LegacyMapFrom(engine.gameMap, engine.player, source, useGraphic, fill, fileContents, layout)
         == old(LegacyMapFrom(engine.gameMap, engine.player, source, useGraphic, fill, fileContents, layout))
    ensures engine.messageLog.messages == [NewMessage(WelcomeMessage, WelcomeText)]
    ensures forall x, y :: 0 <= x < engine.gameMap.width && 0 <= y < engine.gameMap.height ==>
      engine.gameMap.visible[x, y] == fov(engine.player.x, engine.player.y, FovRadius, x, y)
    ensures |engine.player.inventory.items| == 2
  {
    FinishGame(engine, LegacyEntityFactories.HealthPotion(), fov);
  }

  /** The older tree's `new_game` up to its map: the engine around a copy of
      the legacy player, then the map, or `raised` for an empty map file. */
  method LegacyOpen(useCustomMap: bool, customMapFile: string, customMapString: string,
                    useGraphic: Option<string>, fill: Tile, fileContents: string, layout: Layout,
                    generatedFloor: int)
    returns (engine: Engine, source: MapSource, raised: bool)
    ensures source == SourceOf(useCustomMap, customMapFile, customMapString)
    ensures raised <==> source.FromFile? && fileContents == ""
    ensures fresh(engine) && fresh(engine.messageLog) && fresh(engine.player) && fresh(engine.player.inventory)
    ensures engine.stepCounter == 0 && !engine.gameDone
    ensures engine.isUsingCustomMap == (useCustomMap || |customMapString| > 0)
    ensures engine.currentFloor == Some(if source.Generated? then generatedFloor else 1)
    ensures engine.messageLog.messages == [] && engine.stepMessages == []
    ensures engine.player.fighter != null && engine.player.fighter.baseDefense == Some(1)
    ensures engine.player.inventory != null && engine.player.inventory.items == []
    ensures raised ==> engine.gameMap == null
    ensures !raised ==>
      && engine.gameMap != null && fresh(engine.gameMap) && fresh(engine.gameMap.visible)
      && fresh(engine.gameMap.explored) && Playing(engine) && engine.gameMap.Unseen()
      && LegacyMapFrom(engine.gameMap, engine.player, source, useGraphic, fill, fileContents, layout)
  {
    engine, source := OpenEngine(LegacyEntityFactories.Player(useGraphic), useCustomMap, customMapFile,
                                 customMapString, generatedFloor);
    raised := LoadLegacyMap(engine, source, useGraphic, fill, fileContents, layout);
  }

  const CustomMapFile := "custom_map.txt"

  /** What a key does on the main menu. */
  datatype MenuChoice = QuitGame | StartGenerated | StartCustomFile(path: string) | StayOnMenu

  /** `MainMenu.ev_keydown` (the same in both trees): Q or ESC quits, N
      starts a generated game, S the custom map file, anything else
      nothing. */
  function MenuChoiceOf(k: Key): (c: MenuChoice)
    ensures c == QuitGame <==> k == Q || k == Escape
    ensures c == StartGenerated <==> k == N
    ensures c.StartCustomFile? <==> k == S
    ensures c.StartCustomFile? ==> SourceOf(true, c.path, "") == FromFile(CustomMapFile)
    ensures c == StartGenerated ==> SourceOf(false, "", "").Generated?
  {
    if k == Q || k == Escape then QuitGame
    else if k == N then StartGenerated
    else if k == S then StartCustomFile(CustomMapFile)
    else StayOnMenu
  }

  /** The src tree's main menu as written: N and S call `new_game`, whose
      `TypeError` escapes `ev_keydown`; Q and ESC raise SystemExit. */
  method MainMenuKeyDownAsWritten(k: Key) returns (next: Option<Next>, raised: Option<string>)
    ensures MenuChoiceOf(k) == QuitGame <==> next == Some(SystemExit)
    ensures (MenuChoiceOf(k) == StartGenerated || MenuChoiceOf(k).StartCustomFile?) <==> raised.Some?
    ensures raised.Some? ==> next == None && raised == Some("fov_mode")
    ensures MenuChoiceOf(k) == StayOnMenu ==> next == None && raised == None
  {
    next, raised := None, None;
    match MenuChoiceOf(k)
    case QuitGame =>
      next := Some(SystemExit);
    case StartGenerated =>
      raised := NewGameAsWritten(false, "", "", SrcDefaults, "partial", 8);
    case StartCustomFile(path) =>
      raised := NewGameAsWritten(true, path, "", SrcDefaults, "partial", 8);
    case StayOnMenu =>
  }

  /** The main menu's key handling with the corrected `new_game`:
      SystemExit, a main-game handler over a fresh engine, or no change. */
  method MainMenuKeyDown(k: Key, input: MapInput, fov: (int, int, int, int, int) -> bool)
    returns (next: Option<Next>)
    requires DrawsFit(SrcDefaults, input)
    ensures MenuChoiceOf(k) == QuitGame <==> next == Some(SystemExit)
    ensures MenuChoiceOf(k) == StayOnMenu <==> next == None
    ensures (MenuChoiceOf(k) == StartGenerated || MenuChoiceOf(k).StartCustomFile?) ==>
      && next.Some? && next.value.Continue? && next.value.isNew && next.value.handler.EventHandler?
      && next.value.handler.kind == MainGameKind
      && fresh(next.value.handler.engine) && !next.value.handler.engine.gameDone
      && next.value.handler.engine.isUsingCustomMap == MenuChoiceOf(k).StartCustomFile?
  {
    match MenuChoiceOf(k)
    case QuitGame =>
      next := Some(SystemExit);
    case StartGenerated =>
      var engine, _, _ := NewGame(false, "", "", SrcDefaults, "partial", 8, input, fov);
      next := Some(Continue(EventHandler(MainGameKind, engine), true));
    case StartCustomFile(path) =>
      var engine, _, _ := NewGame(true, path, "", SrcDefaults, "partial", 8, input, fov);
      next := Some(Continue(EventHandler(MainGameKind, engine), true));
    case StayOnMenu =>
      next := None;
  }
}
