/** The API server's view of a running game: the session record with its
    per-level step count, the state snapshot it serves, and the legal-action
    list. The lock and the queue's thread safety are not modelled; the
    action queue is a sequence. */
module ApiState {
  import opened Wrappers
  import opened PyStr
  import opened Tiles
  import opened Core
  import opened Handlers

  // ---------------------------------------------------------------- legality

  function Abs(n: int): nat {
    if n < 0 then -n else n
  }

  /** `_on_stairs`: a map with a stairs cell, and the player at distance 0
      from it on both axes. */
  predicate OnStairsLegal(engine: Engine)
    reads engine, engine.player, engine.gameMap
  {
    engine.gameMap != null && engine.gameMap.downstairs.Some?
    && Abs(engine.player.x - engine.gameMap.downstairs.value.x) == 0
    && Abs(engine.player.y - engine.gameMap.downstairs.value.y) == 0
  }

  /** Stairs are legal exactly on the stairs cell the engine reports;
      standing next to them does not count. */
  lemma OnStairsExact(engine: Engine)
    requires engine.gameMap != null
    ensures OnStairsLegal(engine) <==> engine.OnStairs()
    ensures engine.gameMap.downstairs.Some? && Abs(engine.player.x - engine.gameMap.downstairs.value.x) == 1
      ==> !OnStairsLegal(engine)
  {
  }

  /** `_has_item_underfoot`. */
  predicate ItemUnderfootLegal(engine: Engine)
    reads engine, engine.player, engine.gameMap, if engine.gameMap == null then {} else engine.gameMap.entities
  {
    engine.gameMap != null && engine.ItemUnderfoot()
  }

  /** `_has_potion`: hp below the maximum and a consumable potion held. */
  predicate HasPotionLegal(engine: Engine)
    requires engine.player.fighter != null && engine.player.inventory != null
    reads engine, engine.player, engine.player.fighter, engine.player.inventory, engine.player.inventory.items
  {
    engine.player.fighter.hp < engine.player.fighter.maxHp
    && exists i :: 0 <= i < |engine.player.inventory.items| && IsPotion(engine.player.inventory.items[i])
  }

  /** `_can_bump`: the target cell is on the map and either holds an actor
      or is walkable. */
  predicate CanBump(engine: Engine, dx: int, dy: int)
    requires engine.gameMap != null ==> engine.gameMap.Valid()
    reads engine, engine.player, engine.gameMap
    reads if engine.gameMap == null then {} else engine.gameMap.entities
    reads if engine.gameMap == null then {} else {engine.gameMap.tiles}
  {
    var x, y := engine.player.x + dx, engine.player.y + dy;
    engine.gameMap != null && engine.gameMap.InBounds(x, y)
    && ((exists e :: e in engine.gameMap.entities && ActorAt(e, x, y)) || engine.gameMap.tiles[x, y].IsWalkable())
  }

  /** The player is out of play: the game is won or the player is dead. */
  predicate Finished(engine: Engine)
    reads engine, engine.player, engine.player.fighter
  {
    engine.gameDone || !engine.player.IsAlive()
  }

  /** The world an engine must have for the legality reads. */
  predicate Readable(engine: Engine)
    reads engine, engine.player, engine.gameMap
  {
    && engine.player.fighter != null && engine.player.inventory != null
    && (engine.gameMap != null ==> engine.gameMap.Valid())
  }

  /** The keys the legal-action list draws from, in the order it lists them. */
  const KeyOrder: seq<string> := ["w", "s", "a", "d", "g", "i", "space", ".", "esc", "q"]

  /** When each key is legal. */
  predicate Legal(engine: Engine, k: string)
    requires Readable(engine)
    reads engine, engine.player, engine.player.fighter, engine.player.inventory, engine.player.inventory.items
    reads engine.gameMap, if engine.gameMap == null then {} else engine.gameMap.entities
    reads if engine.gameMap == null then {} else {engine.gameMap.tiles}
  {
    if k == "w" then CanBump(engine, 0, -1)
    else if k == "s" then CanBump(engine, 0, 1)
    else if k == "a" then CanBump(engine, -1, 0)
    else if k == "d" then CanBump(engine, 1, 0)
    else if k == "g" then ItemUnderfootLegal(engine)
    else if k == "i" then HasPotionLegal(engine)
    else if k == "space" then OnStairsLegal(engine)
    else if k == "." then true
    else (k == "esc" || k == "q") && Finished(engine)
  }

  /** The legal keys of `keys`, in their order. */
  function Select(engine: Engine, keys: seq<string>): (r: seq<string>)
    requires Readable(engine)
    reads engine, engine.player, engine.player.fighter, engine.player.inventory, engine.player.inventory.items
    reads engine.gameMap, if engine.gameMap == null then {} else engine.gameMap.entities
    reads if engine.gameMap == null then {} else {engine.gameMap.tiles}
    ensures forall k :: k in r <==> k in keys && Legal(engine, k)
    ensures Distinct(keys) ==> Distinct(r)
  {
    if |keys| == 0 then []
    else if Legal(engine, keys[0]) then [keys[0]] + Select(engine, keys[1..])
    else Select(engine, keys[1..])
  }

  /** The keys `compute_legal_actions_unlocked` collects before removing
      duplicates: the legal ones, in key order. */
  function Candidates(engine: Engine): (keys: seq<string>)
    requires Readable(engine)
    reads engine, engine.player, engine.player.fighter, engine.player.inventory, engine.player.inventory.items
    reads engine.gameMap, if engine.gameMap == null then {} else engine.gameMap.entities
    reads if engine.gameMap == null then {} else {engine.gameMap.tiles}
  {
    Select(engine, KeyOrder)
  }

  predicate Distinct<T(==)>(s: seq<T>) {
    forall i, j :: 0 <= i < j < |s| ==> s[i] != s[j]
  }

  /** Order-preserving removal of repeats: an element is kept the first time
      it shows up and not in `seen`. */
  function DedupeFrom(s: seq<string>, seen: set<string>): (r: seq<string>)
    ensures forall x :: x in r <==> x in s && x !in seen
    ensures Distinct(r)
  {
    if |s| == 0 then []
    else if s[0] in seen then DedupeFrom(s[1..], seen)
    else [s[0]] + DedupeFrom(s[1..], seen + {s[0]})
  }

  function Dedupe(s: seq<string>): seq<string> {
    DedupeFrom(s, {})
  }

  /** A list with no repeats and nothing already seen is left as it is. */
  lemma {:induction false} DedupeDistinct(s: seq<string>, seen: set<string>)
    requires Distinct(s) && forall x :: x in s ==> x !in seen
    ensures DedupeFrom(s, seen) == s
  {
    if |s| > 0 {
      assert forall x :: x in s[1..] ==> x in s && x != s[0];
      DedupeDistinct(s[1..], seen + {s[0]});
    }
  }

  /** The seen-set loop of `compute_legal_actions_unlocked`. */
  method DedupeLoop(legal: seq<string>) returns (result: seq<string>)
    ensures result == Dedupe(legal)
  {
    var seen: set<string> := {};
    result := [];
    for i := 0 to |legal|
      invariant result + DedupeFrom(legal[i..], seen) == Dedupe(legal)
    {
      assert legal[i..][1..] == legal[i + 1..];
      if legal[i] !in seen {
        seen := seen + {legal[i]};
        result := result + [legal[i]];
      }
    }
    assert legal[|legal|..] == [];
  }

  /** `compute_legal_actions_unlocked`: nothing without an engine; else the
      legal keys in the order w, s, a, d, g, i, space, '.', esc, q, with no
      repeats and '.' always among them. */
  method ComputeLegalActions(engine: Engine?) returns (result: seq<string>)
    requires engine != null ==> Readable(engine)
    ensures engine == null ==> result == []
    ensures engine != null ==> result == Candidates(engine) && Distinct(result) && "." in result
    ensures engine != null ==> forall k :: k in result <==> k in KeyOrder && Legal(engine, k)
  {
    if engine == null {
      return [];
    }
    var legal := Candidates(engine);
    CandidatesFacts(engine);
    DedupeDistinct(legal, {});
    result := DedupeLoop(legal);
  }

  /** The candidates hold each legal key once, '.' always among them. */
  lemma CandidatesFacts(engine: Engine)
    requires Readable(engine)
    ensures Distinct(Candidates(engine)) && "." in Candidates(engine)
    ensures forall k :: k in Candidates(engine) <==> k in KeyOrder && Legal(engine, k)
  {
    var keys := KeyOrder;
    assert keys[7] == ".";
    assert Distinct(keys);
    assert Legal(engine, ".");
    var c := Select(engine, keys);
    assert "." in c;
  }

  // ---------------------------------------------------------------- snapshot

  /** A step-buffer entry as the API shows it: "text (xN)" for a repeat. */
  function StepText(m: StepMessage): (s: string)
    ensures s == FullText(Message(m.text, HealthRecovered, m.count))
  {
    if m.count > 1 then m.text + " (x" + IntToString(m.count) + ")" else m.text
  }

  function StepTexts(steps: seq<StepMessage>): (r: seq<string>)
    ensures |r| == |steps|
    ensures forall i :: 0 <= i < |steps| ==> r[i] == StepText(steps[i])
  {
    if |steps| == 0 then [] else [StepText(steps[0])] + StepTexts(steps[1..])
  }

  /** The number of held items whose name contains "Health Potion". */
  function PotionCount(items: seq<Entity>): (n: nat)
    reads items
    ensures n <= |items|
  {
    if |items| == 0 then 0
    else PotionCount(items[..|items| - 1]) + (if Contains(items[|items| - 1].name, "Health Potion") then 1 else 0)
  }

  /** The end reason: victory before death. */
  function EndReason(engine: Engine): (r: Option<string>)
    reads engine, engine.player, engine.player.fighter
    ensures r.Some? <==> Finished(engine)
    ensures r == Some("victory") <==> engine.gameDone
    ensures r == Some("death") <==> !engine.gameDone && !engine.player.IsAlive()
  {
    if engine.gameDone then Some("victory")
    else if !engine.player.IsAlive() then Some("death")
    else None
  }

  datatype Snapshot = Snapshot(
    dungeonLevel: int, stepCount: int, messageLog: seq<string>, standingOn: string,
    health: int, potionCount: nat, position: Pos, stairs: Option<Pos>,
    isDone: bool, endReason: Option<string>, legalActions: seq<string>)

  /** The handlers a snapshot is served under. */
  predicate Serving(h: Option<Handler>) {
    h.Some? && h.value.EventHandler? && h.value.kind in {MainGameKind, GameDoneKind, GameOverKind}
  }

  /** `ThreadSafeGameState`: the engine and handler the game loop installed,
      the step count of the current level, the last floor and handler type
      seen, and the queued action keys. */
  class GameState {
    var engine: Engine?
    var handler: Option<Handler>
    var stepCount: int
    var lastKnownLevel: int
    var lastKnownHandlerType: Option<string>
    var isRunning: bool
    var actionQueue: seq<string>

    /** A new session: no engine or handler, step count 0, level 1, no
        handler type recorded, running, nothing queued. */
    constructor ()
      ensures engine == null && handler == None && stepCount == 0 && lastKnownLevel == 1
      ensures lastKnownHandlerType == None && isRunning && actionQueue == []
    {
      engine := null;
      handler := None;
      stepCount := 0;
      lastKnownLevel := 1;
      lastKnownHandlerType := None;
      isRunning := true;
      actionQueue := [];
    }

    /** `set_game_components` (the renderer is not modelled). */
    method SetGameComponents(engine: Engine?, handler: Option<Handler>)
      modifies this`engine, this`handler
      ensures this.engine == engine && this.handler == handler
    {
      this.engine := engine;
      this.handler := handler;
    }

    /** `update_handler`: installs the handler; a change of handler type
        resets the step count and records the new type. */
    method UpdateHandler(h: Handler)
      modifies this`handler, this`stepCount, this`lastKnownHandlerType
      ensures handler == Some(h) && lastKnownHandlerType == Some(TypeName(h))
      ensures old(lastKnownHandlerType) != Some(TypeName(h)) ==> stepCount == 0
      ensures old(lastKnownHandlerType) == Some(TypeName(h)) ==> stepCount == old(stepCount)
    {
      handler := Some(h);
      var handlerType := TypeName(h);
      if lastKnownHandlerType != Some(handlerType) {
        stepCount := 0;
        lastKnownHandlerType := Some(handlerType);
      }
    }

    /** `check_and_reset_level_steps`: a floor other than the last one seen
        resets the step count and is recorded. */
    method CheckAndResetLevelSteps()
      modifies this`stepCount, this`lastKnownLevel
      ensures engine != null && engine.currentFloor.Some? && engine.currentFloor.value != old(lastKnownLevel) ==>
        stepCount == 0 && lastKnownLevel == engine.currentFloor.value
      ensures !(engine != null && engine.currentFloor.Some? && engine.currentFloor.value != old(lastKnownLevel)) ==>
        stepCount == old(stepCount) && lastKnownLevel == old(lastKnownLevel)
    {
      if engine != null && engine.currentFloor.Some? {
        var currentLevel := engine.currentFloor.value;
        if currentLevel != lastKnownLevel {
          stepCount := 0;
          lastKnownLevel := currentLevel;
        }
      }
    }

    /** `increment_step_count`. */
    method IncrementStepCount()
      modifies this`stepCount
      ensures stepCount == old(stepCount) + 1
    {
      stepCount := stepCount + 1;
    }

    /** `queue_action`. */
    method QueueAction(key: string)
      modifies this`actionQueue
      ensures actionQueue == old(actionQueue) + [key]
    {
      actionQueue := actionQueue + [key];
    }

    /** `get_state_snapshot`: nothing unless there is an engine and the
        handler is the main game, game-done or game-over; otherwise the
        floor, the level's step count, the step buffer as text, the tile
        under the player, hp, the potion count, position and stairs, the end
        flags and the legal actions. */
    method GetStateSnapshot() returns (snap: Option<Snapshot>)
      requires engine != null ==> Readable(engine) && engine.gameMap != null && engine.currentFloor.Some?
      ensures snap.Some? <==> engine != null && Serving(handler)
      ensures snap.Some? ==>
        && snap.value.dungeonLevel == engine.currentFloor.value
        && snap.value.stepCount == stepCount
        && snap.value.messageLog == StepTexts(engine.stepMessages)
        && snap.value.health == engine.player.fighter.hp
        && snap.value.potionCount == PotionCount(engine.player.inventory.items)
        && snap.value.position == Pos(engine.player.x, engine.player.y)
        && snap.value.stairs == engine.gameMap.downstairs
        && snap.value.isDone == Finished(engine)
        && snap.value.endReason == EndReason(engine)
        && snap.value.legalActions == Candidates(engine)
        && (engine.gameDone ==> snap.value.standingOn == "-")
        && (!engine.gameDone && engine.OnStairs() ==> snap.value.standingOn == "ladder/stairs")
    {
      if engine == null || !Serving(handler) {
        return None;
      }
      var tile := engine.PlayerTileType();
      assert engine.gameDone ==> tile == "-";
      assert !engine.gameDone && engine.OnStairs() ==> tile == "ladder/stairs";
      var potions := CountPotions(engine.player.inventory.items);
      var messages := RenderSteps(engine.stepMessages);
      var endReason := EndReason(engine);
      var isDone := endReason.Some?;
      var legal := ComputeLegalActions(engine);
      snap := Some(Snapshot(engine.currentFloor.value, stepCount, messages, tile,
                            engine.player.fighter.hp, potions, Pos(engine.player.x, engine.player.y),
                            engine.gameMap.downstairs, isDone, endReason, legal));
    }
  }

  /** The potion-counting loop of `get_state_snapshot`. */
  method CountPotions(items: seq<Entity>) returns (potions: nat)
    ensures potions == PotionCount(items)
  {
    potions := 0;
    for i := 0 to |items|
      invariant potions == PotionCount(items[..i])
    {
      assert items[..i + 1][..i] == items[..i];
      if Contains(items[i].name, "Health Potion") {
        potions := potions + 1;
      }
    }
    assert items[..|items|] == items;
  }

  /** The message-rendering loop of `get_state_snapshot`. */
  method RenderSteps(steps: seq<StepMessage>) returns (messages: seq<string>)
    ensures messages == StepTexts(steps)
  {
    messages := [];
    for i := 0 to |steps|
      invariant messages == StepTexts(steps[..i])
    {
      assert steps[..i + 1] == steps[..i] + [steps[i]];
      StepTextsSnoc(steps[..i], steps[i]);
      messages := messages + [StepText(steps[i])];
    }
    assert steps[..|steps|] == steps;
  }

  lemma {:induction false} StepTextsSnoc(steps: seq<StepMessage>, m: StepMessage)
    ensures StepTexts(steps + [m]) == StepTexts(steps) + [StepText(m)]
  {
    if |steps| > 0 {
      assert (steps + [m])[1..] == steps[1..] + [m];
      StepTextsSnoc(steps[1..], m);
    } else {
      assert steps + [m] == [m];
    }
  }
}
