/** The older tree's handlers. Their key tables and dispatch are the same as
    the src tree's (`Handlers.DispatchOf`); what differs is that
    `handle_events` writes the state log after every produced action, and
    that the engine handler carries `check_stairs`, whose only call is
    commented out. */
module LegacyHandlers {
  import opened Wrappers
  import opened PyStr
  import opened Core
  import opened Handlers
  import opened LegacyEngineLog

  /** `EventHandler.handle_events` of the older tree: as in the src tree, and
      after a produced action (performed or refused) the state log is
      written. Choosing the next handler reads the engine only, so it may
      follow the log. */
  method HandleEvents(h: Handler, ev: Event, result: Performed, enemies: Effect,
                      fov: (int, int, int, int, int) -> bool)
    returns (next: Next, log: Option<string>)
    requires h.EventHandler? && InPlay(h.engine)
    modifies h.engine.messageLog`messages, h.engine`stepMessages, h.engine`stepCounter, h.engine`gameDone
    modifies h.engine.player, h.engine.player.fighter`hp, h.engine.gameMap`entities
    modifies h.engine.gameMap.visible, h.engine.gameMap.explored
    ensures old(DispatchOf(h, ev)).ToAction? && result.Completed? ==>
      h.engine.gameMap.entities
      == old(h.engine.gameMap.entities) - (result.effect.removed - {h.engine.player})
         - (enemies.removed - {h.engine.player})
    ensures !(old(DispatchOf(h, ev)).ToAction? && result.Completed?) ==>
      h.engine.gameMap.entities == old(h.engine.gameMap.entities)
    ensures var d := old(DispatchOf(h, ev));
      && (d.ToHandler? ==> next == Continue(d.next, true) && h.engine.stepCounter == old(h.engine.stepCounter))
      && (d == Exit ==> next == SystemExit && h.engine.stepCounter == old(h.engine.stepCounter))
      && (d == NoAction ==> next == Continue(h, false) && h.engine.stepCounter == old(h.engine.stepCounter))
      && (!d.ToAction? ==> log == None)
      && (d.ToAction? ==> h.engine.stepCounter == old(h.engine.stepCounter) + 1 && IsStateLog(h.engine, log))
      && (d.ToAction? && result.Refused? ==>
            && next == Continue(h, false)
            && h.engine.stepMessages == [StepMessage(result.message, 1)]
            && h.engine.messageLog.messages
               == Stacked(old(h.engine.messageLog.messages), result.message, ImpossibleFg, true))
      && (d.ToAction? && result.Completed? ==>
            && next == Continue(AfterTurn(h.engine), true)
            && ViewOf(h.engine)
               == Applied(Applied(old(ViewOf(h.engine)).(steps := []), result.effect, h.engine.player.fighter.maxHp),
                          enemies, h.engine.player.fighter.maxHp))
  {
    var d := DispatchOf(h, ev);
    next := Handlers.HandleEvents(h, ev, result, enemies, fov);
    log := None;
    if d.ToAction? {
      log := LogGameState(h.engine);
    }
  }

  const CompletedMapMessage := "You have completed the map! Game Done."
  const DescendMessage := "You descend the staircase."

  function RefreshedMessage(healed: int): string {
    "You feel refreshed! Restored " + IntToString(healed) + " health."
  }

  /** The hp the stairs leave a player with who had `hp` of `maxHp` and went
      down to `floor`: level scaling first (a grown maximum adds its growth),
      then half the new maximum, capped at that maximum. */
  function StairsHp(hp: int, maxHp: int, floor: int): int {
    var newMax := if floor > 1 then ScaledMaxHp(floor) else maxHp;
    var scaled := if newMax > maxHp then hp + (newMax - maxHp) else hp;
    Min(scaled + TruncHalf(newMax), newMax)
  }

  /** A living player who goes down the stairs ends with hp in (0, max] and
      never below what scaling alone gave: the stairs heal, never hurt. */
  lemma StairsHeal(hp: int, maxHp: int, floor: int)
    requires 0 < hp <= maxHp
    ensures var newMax := if floor > 1 then ScaledMaxHp(floor) else maxHp;
      && 0 < StairsHp(hp, maxHp, floor) <= newMax
      && StairsHp(hp, maxHp, floor) >= Min(hp + (if newMax > maxHp then newMax - maxHp else 0), newMax)
  {
  }

  /** The hp part of the procedural branch of `check_stairs`: scaling to
      the new floor, then healing by half the new maximum, capped at it. */
  method ScaleAndHeal(f: Fighter, player: Entity, gm: GameMap, engine: Engine, newFloor: int)
    returns (heal: int)
    requires player.fighter == f && Wired(player, gm, engine)
    modifies f`hp, f`maxHp, player, gm`entities, engine`stepMessages, engine.messageLog`messages
    ensures f.maxHp == if newFloor > 1 then ScaledMaxHp(newFloor) else old(f.maxHp)
    ensures heal == TruncHalf(f.maxHp)
    ensures Wired(player, gm, engine)
    ensures 0 < old(f.hp) <= old(f.maxHp) ==> f.hp == StairsHp(old(f.hp), old(f.maxHp), newFloor)
  {
    ghost var hp0, max0 := f.hp, f.maxHp;
    var _ := f.ApplyDungeonLevelScaling(newFloor, player, gm, engine);
    ghost var scaled := if f.maxHp > max0 then hp0 + (f.maxHp - max0) else hp0;
    assert 0 < hp0 <= max0 ==> f.hp == scaled && 0 < f.hp && 0 < f.maxHp;
    heal := TruncHalf(f.maxHp);
    var _ := f.SetHp(Min(f.hp + heal, f.maxHp), player, gm, engine);
  }

  /** The procedural branch of `check_stairs` on the player's fighter:
      `ScaleAndHeal`, then the two messages. */
  method DescendStairs(f: Fighter, player: Entity, gm: GameMap, engine: Engine, newFloor: int)
    requires player.fighter == f && Wired(player, gm, engine)
    modifies f`hp, f`maxHp, player, gm`entities, engine`stepMessages, engine.messageLog`messages
    ensures f.maxHp == if newFloor > 1 then ScaledMaxHp(newFloor) else old(f.maxHp)
    ensures 0 < old(f.hp) <= old(f.maxHp) ==> f.hp == StairsHp(old(f.hp), old(f.maxHp), newFloor)
    ensures |engine.messageLog.messages| >= 2
    ensures engine.messageLog.messages[|engine.messageLog.messages| - 1].plainText
         == RefreshedMessage(TruncHalf(f.maxHp))
    ensures engine.messageLog.messages[|engine.messageLog.messages| - 2].plainText == DescendMessage
  {
    var heal := ScaleAndHeal(f, player, gm, engine, newFloor);
    engine.messageLog.AddMessage(DescendMessage, Descend, true);
    ghost var descended := engine.messageLog.messages;
    RefreshedIsNotDescend(heal);
    engine.messageLog.AddMessage(RefreshedMessage(heal), HealthRecovered, true);
    assert engine.messageLog.messages == descended + [NewMessage(RefreshedMessage(heal), HealthRecovered)];
  }

  lemma RefreshedIsNotDescend(heal: int)
    ensures RefreshedMessage(heal) != DescendMessage
  {
    assert RefreshedMessage(heal)[4] == 'f' != DescendMessage[4];
  }

  /** `check_stairs`: nothing unless the player stands on the stairs cell. On
      a custom map the game is done, with a message. Otherwise the world moves
      to `newFloor` (the floor generator is not part of this model), the
      player descends as `DescendStairs` says and the view is recomputed. */
  method CheckStairs(engine: Engine, newFloor: int, fov: (int, int, int, int, int) -> bool)
    requires Playing(engine) && engine.player.fighter != null
    requires Wired(engine.player, engine.gameMap, engine)
    modifies engine`gameDone, engine`currentFloor, engine`stepMessages, engine.messageLog`messages
    modifies engine.player, engine.player.fighter`hp, engine.player.fighter`maxHp, engine.gameMap`entities
    modifies engine.gameMap.visible, engine.gameMap.explored
    ensures !old(engine.OnStairs()) ==>
      && engine.gameDone == old(engine.gameDone) && engine.currentFloor == old(engine.currentFloor)
      && engine.messageLog.messages == old(engine.messageLog.messages)
      && engine.player.fighter.hp == old(engine.player.fighter.hp)
      && engine.player.fighter.maxHp == old(engine.player.fighter.maxHp)
    ensures !old(engine.OnStairs()) ==>
      && unchanged(engine.player) && unchanged(engine.gameMap.visible) && unchanged(engine.gameMap.explored)
      && engine.stepMessages == old(engine.stepMessages)
      && engine.gameMap.entities == old(engine.gameMap.entities)
    ensures old(engine.OnStairs()) && engine.isUsingCustomMap ==>
      && engine.gameDone && engine.currentFloor == old(engine.currentFloor)
      && engine.messageLog.messages
         == Stacked(old(engine.messageLog.messages), CompletedMapMessage, WelcomeText, true)
      && engine.player.fighter.hp == old(engine.player.fighter.hp)
    ensures old(engine.OnStairs()) && !engine.isUsingCustomMap ==>
      && engine.gameDone == old(engine.gameDone) && engine.currentFloor == Some(newFloor)
      && engine.player.fighter.maxHp
         == (if newFloor > 1 then ScaledMaxHp(newFloor) else old(engine.player.fighter.maxHp))
      && (0 < old(engine.player.fighter.hp) <= old(engine.player.fighter.maxHp) ==>
            engine.player.fighter.hp
            == StairsHp(old(engine.player.fighter.hp), old(engine.player.fighter.maxHp), newFloor))
      && |engine.messageLog.messages| >= 2
      && engine.messageLog.messages[|engine.messageLog.messages| - 1].plainText
         == RefreshedMessage(TruncHalf(engine.player.fighter.maxHp))
      && engine.messageLog.messages[|engine.messageLog.messages| - 2].plainText == DescendMessage
      && forall x, y :: 0 <= x < engine.gameMap.width && 0 <= y < engine.gameMap.height ==>
           engine.gameMap.visible[x, y] == fov(engine.player.x, engine.player.y, FovRadius, x, y)
  {
    var player, gm := engine.player, engine.gameMap;
    var f := player.fighter;
    if gm.downstairs != Some(Pos(player.x, player.y)) {
      return;
    }
    if engine.isUsingCustomMap {
      engine.messageLog.AddMessage(CompletedMapMessage, WelcomeText, true);
      engine.gameDone := true;
      return;
    }
    engine.currentFloor := Some(newFloor);
    DescendStairs(f, player, gm, engine, newFloor);
    engine.UpdateFov(fov);
  }
}
