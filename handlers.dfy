/** The event-handler state machine: key tables, what each handler makes of
    an event, and how `handle_events` turns an action into a step. The
    actions themselves are performed elsewhere; their outcome
    (done / `Impossible`) is an input. */
module Handlers {
  import opened Wrappers
  import opened PyStr
  import opened Core

  /** The keys the handlers look at; any other key is `OtherKey`. */
  datatype Key =
    | Up | Down | Left | Right | W | A | S | D
    | Period | Kp5 | Clear | Return | KpEnter
    | Escape | Space | G | I | Q | N
    | LShift | RShift | LCtrl | RCtrl | LAlt | RAlt
    | OtherKey(code: int)

  datatype Event = KeyDown(key: Key) | QuitEvent | OtherEvent

  /** The four handlers that hold an engine. */
  datatype HandlerKind = MainGameKind | AskUserKind | GameOverKind | GameDoneKind

  /** An active handler: the main menu, or one of the engine handlers. */
  datatype Handler = MainMenu | EventHandler(kind: HandlerKind, engine: Engine)

  /** The Python class name of a handler, which the API compares. */
  function TypeName(h: Handler): (name: string)
    ensures h.EventHandler? && h.kind == MainGameKind <==> name == "MainGameEventHandler"
  {
    match h
    case MainMenu => "MainMenu"
    case EventHandler(MainGameKind, _) => "MainGameEventHandler"
    case EventHandler(AskUserKind, _) => "AskUserEventHandler"
    case EventHandler(GameOverKind, _) => "GameOverEventHandler"
    case EventHandler(GameDoneKind, _) => "GameDoneEventHandler"
  }

  /** `MOVE_KEYS`. */
  function MoveDelta(k: Key): (d: Option<(int, int)>)
    ensures d.Some? ==> (d.value.0 == 0) != (d.value.1 == 0)
    ensures d.Some? ==> -1 <= d.value.0 <= 1 && -1 <= d.value.1 <= 1
  {
    match k
    case Up => Some((0, -1))
    case Down => Some((0, 1))
    case Left => Some((-1, 0))
    case Right => Some((1, 0))
    case W => Some((0, -1))
    case S => Some((0, 1))
    case A => Some((-1, 0))
    case D => Some((1, 0))
    case _ => None
  }

  /** The arrow keys and WASD give the same four unit steps, and those are
      the only move keys. */
  lemma ArrowsAndWasdAgree()
    ensures MoveDelta(Up) == MoveDelta(W) && MoveDelta(Down) == MoveDelta(S)
    ensures MoveDelta(Left) == MoveDelta(A) && MoveDelta(Right) == MoveDelta(D)
    ensures forall k :: MoveDelta(k).Some? <==> k in {Up, Down, Left, Right, W, A, S, D}
  {
  }

  /** `WAIT_KEYS`. */
  predicate IsWaitKey(k: Key) {
    k == Period || k == Kp5 || k == Clear
  }

  /** The modifier keys the ask-user handler ignores. */
  predicate IsModifier(k: Key) {
    k in {LShift, RShift, LCtrl, RCtrl, LAlt, RAlt}
  }

  /** What a key asks of the main game handler. */
  datatype Command = TakeStairs | Bump(dx: int, dy: int) | Wait | ToMenu | PickUp | UsePotion | NoCommand

  /** The key dispatch of `MainGameEventHandler.ev_keydown`: space first,
      then the move keys, the wait keys, escape, G and I. */
  function MainGameCommand(k: Key): (c: Command)
    ensures k == Space <==> c == TakeStairs
    ensures c.Bump? <==> MoveDelta(k).Some?
    ensures c.Bump? ==> MoveDelta(k) == Some((c.dx, c.dy))
    ensures c == Wait <==> IsWaitKey(k)
    ensures c == ToMenu <==> k == Escape
    ensures c == PickUp <==> k == G
    ensures c == UsePotion <==> k == I
  {
    if k == Space then TakeStairs
    else if MoveDelta(k).Some? then Bump(MoveDelta(k).value.0, MoveDelta(k).value.1)
    else if IsWaitKey(k) then Wait
    else if k == Escape then ToMenu
    else if k == G then PickUp
    else if k == I then UsePotion
    else NoCommand
  }

  /** The result of dispatching one event: a handler to switch to, an action
      to perform, nothing, or SystemExit. */
  datatype Dispatch = ToHandler(next: Handler) | ToAction(action: Action) | NoAction | Exit

  /** A potion `use_health_potion` would pick: a consumable whose name
      contains "Health Potion". */
  predicate IsPotion(e: Entity)
    reads e
  {
    e.consumable.Some? && Contains(e.name, "Health Potion")
  }

  /** The index of the first potion in an item list. */
  function FirstPotion(items: seq<Entity>): (r: Option<nat>)
    reads items
    ensures r.Some? ==> r.value < |items| && IsPotion(items[r.value])
    ensures r.Some? ==> forall j :: 0 <= j < r.value ==> !IsPotion(items[j])
    ensures r.None? ==> forall j :: 0 <= j < |items| ==> !IsPotion(items[j])
  {
    if |items| == 0 then None
    else if IsPotion(items[0]) then Some(0)
    else
      match FirstPotion(items[1..])
      case Some(i) => Some(i + 1)
      case None => None
  }

  /** An engine whose player carries an inventory and whose log reports to
      it, with a map attached. */
  predicate Playing(engine: Engine)
    reads engine, engine.messageLog, engine.player, engine.gameMap
  {
    && engine.player.inventory != null
    && engine.messageLog.engine == engine
    && engine.gameMap != null && engine.gameMap.Valid()
  }

  /** What dispatching `ev` to an engine handler yields. */
  function DispatchOf(h: Handler, ev: Event): (d: Dispatch)
    requires h.EventHandler? && h.engine.player.inventory != null
    reads h.engine, h.engine.player, h.engine.player.inventory, h.engine.player.inventory.items
  {
    var e := h.engine;
    match ev
    case QuitEvent => if h.kind == GameOverKind then NoAction else Exit
    case OtherEvent => NoAction
    case KeyDown(k) =>
      match h.kind
      case AskUserKind =>
        if IsModifier(k) then NoAction else ToHandler(EventHandler(MainGameKind, e))
      case GameOverKind =>
        if k == Escape || k == Q then ToHandler(MainMenu) else NoAction
      case GameDoneKind =>
        if k == Escape || k == Q then ToHandler(MainMenu) else NoAction
      case MainGameKind =>
        match MainGameCommand(k)
        case TakeStairs => ToAction(TakeStairsAction(e.player))
        case Bump(dx, dy) => ToAction(BumpAction(e.player, dx, dy))
        case Wait => ToAction(WaitAction(e.player))
        case ToMenu => ToHandler(MainMenu)
        case PickUp => ToAction(PickupAction(e.player))
        case UsePotion =>
          var items := e.player.inventory.items;
          (match FirstPotion(items)
           case Some(i) => ToAction(ItemAction(e.player, items[i]))
           case None => NoAction)
        case NoCommand => NoAction
  }

  /** Game-over and game-done leave only on ESC or Q, and only to the menu;
      ask-user leaves on every key but the six modifiers, back to the game. */
  lemma EndScreensLeaveOnlyToMenu(h: Handler, k: Key)
    requires h.EventHandler? && h.engine.player.inventory != null
    ensures h.kind in {GameOverKind, GameDoneKind} ==>
      (DispatchOf(h, KeyDown(k)) == ToHandler(MainMenu) <==> k in {Escape, Q})
      && DispatchOf(h, KeyDown(k)) in {ToHandler(MainMenu), NoAction}
    ensures h.kind == AskUserKind ==>
      (DispatchOf(h, KeyDown(k)) == NoAction <==> IsModifier(k))
  {
  }

  /** `MainGameEventHandler.use_health_potion`: the item action for the
      first potion held, or a message and no action. */
  method UseHealthPotion(engine: Engine) returns (action: Option<Action>)
    requires engine.player.inventory != null && engine.messageLog.engine == engine
    modifies engine.messageLog`messages, engine`stepMessages
    ensures var items := engine.player.inventory.items;
      match FirstPotion(items)
      case Some(i) =>
        && action == Some(ItemAction(engine.player, items[i]))
        && engine.messageLog.messages == old(engine.messageLog.messages)
        && engine.stepMessages == old(engine.stepMessages)
      case None =>
        && action == None
        && engine.messageLog.messages
           == Stacked(old(engine.messageLog.messages), NoPotionMessage, ImpossibleFg, true)
        && engine.stepMessages == StepStacked(old(engine.stepMessages), NoPotionMessage)
  {
    var items := engine.player.inventory.items;
    var i := 0;
    while i < |items|
      invariant 0 <= i <= |items|
      invariant forall j :: 0 <= j < i ==> !IsPotion(items[j])
    {
      if items[i].consumable.Some? && Contains(items[i].name, "Health Potion") {
        return Some(ItemAction(engine.player, items[i]));
      }
      i := i + 1;
    }
    engine.messageLog.AddMessage(NoPotionMessage, ImpossibleFg, true);
    return None;
  }

  const NoPotionMessage := "You don't have any health potions!"

  /** The dispatch of one event to an engine handler, as a method: only the
      I key's "no potion" message touches the engine. */
  method DispatchEvent(h: Handler, ev: Event) returns (d: Dispatch)
    requires h.EventHandler? && h.engine.player.inventory != null && h.engine.messageLog.engine == h.engine
    modifies h.engine.messageLog`messages, h.engine`stepMessages
    ensures d == old(DispatchOf(h, ev))
    ensures !(ev.KeyDown? && h.kind == MainGameKind && MainGameCommand(ev.key) == UsePotion && d == NoAction) ==>
      && h.engine.messageLog.messages == old(h.engine.messageLog.messages)
      && h.engine.stepMessages == old(h.engine.stepMessages)
  {
    if ev.KeyDown? && h.kind == MainGameKind && MainGameCommand(ev.key) == UsePotion {
      var a := UseHealthPotion(h.engine);
      d := if a.Some? then ToAction(a.value) else NoAction;
    } else {
      d := DispatchOf(h, ev);
    }
  }

  // ---------------------------------------------------------------- effects

  /** One message an action or an enemy logs through the message log. */
  datatype Logged = Logged(text: string, fg: Fg)

  /** What performing an action, or the enemies' turns, did to the state
      `handle_events` reads next. The actions and the AI are not part of
      this model, so an effect is an input: the messages logged through
      `add_message`, in order; the player's move; the value written through
      the player's hp setter after those messages, if any; whether the
      game was won; and the other entities that left the map, such as an
      enemy the attack killed or an item picked up. The player never leaves
      the map's entity set. */
  datatype Effect = Effect(logged: seq<Logged>, move: (int, int), hp: Option<int>, victory: bool,
                           removed: set<Entity>)

  /** The part of an engine an effect reaches: both logs, the player's
      cell and hp, and the victory flag. */
  datatype View = View(messages: seq<Message>, steps: seq<StepMessage>, x: int, y: int, hp: int, done: bool)

  function ViewOf(engine: Engine): View
    requires engine.player.fighter != null
    reads engine, engine.messageLog, engine.player, engine.player.fighter
  {
    View(engine.messageLog.messages, engine.stepMessages, engine.player.x, engine.player.y,
         engine.player.fighter.hp, engine.gameDone)
  }

  /** The message list and the step buffer after `add_message(text, fg)`
      of each logged message in turn. */
  function LogAll(msgs: seq<Message>, steps: seq<StepMessage>, logged: seq<Logged>)
    : (seq<Message>, seq<StepMessage>)
  {
    if logged == [] then (msgs, steps)
    else
      var before := LogAll(msgs, steps, logged[..|logged| - 1]);
      var last := logged[|logged| - 1];
      (Stacked(before.0, last.text, last.fg, true), StepStacked(before.1, last.text))
  }

  /** Logging accounts for one more `add_message` call per message, keeps
      the step buffer free of adjacent repeats, and leaves the last logged
      text last in both logs. */
  lemma {:induction false} LogAllCounts(msgs: seq<Message>, steps: seq<StepMessage>, logged: seq<Logged>)
    requires NoAdjacentRepeats(steps)
    ensures var r := LogAll(msgs, steps, logged);
      && TotalCount(r.0) == TotalCount(msgs) + |logged|
      && NoAdjacentRepeats(r.1)
      && (logged != [] ==>
            && r.0[|r.0| - 1].plainText == logged[|logged| - 1].text
            && r.1[|r.1| - 1].text == logged[|logged| - 1].text)
  {
    if logged != [] {
      var init := logged[..|logged| - 1];
      var last := logged[|logged| - 1];
      LogAllCounts(msgs, steps, init);
      var before := LogAll(msgs, steps, init);
      StackedMeaning(before.0, last.text, last.fg, true);
      StepStackedInvariant(before.1, last.text);
    }
  }

  /** The view after an effect on a player whose maximum hp is `maxHp`:
      the messages are logged, the player moves, the hp written is clamped,
      and a write that leaves 0 runs the player's `die`, which restarts
      both logs with the death message. */
  function Applied(v: View, eff: Effect, maxHp: int): View {
    var logs := LogAll(v.messages, v.steps, eff.logged);
    var hp := if eff.hp.Some? then Clamp(eff.hp.value, maxHp) else v.hp;
    var died := eff.hp.Some? && hp == 0;
    View(if died then [NewMessage("You died!", PlayerDie)] else logs.0,
         if died then [StepMessage("You died!", 1)] else logs.1,
         v.x + eff.move.0, v.y + eff.move.1, hp, v.done || eff.victory)
  }

  /** An engine an action can run on: `Playing`, and the player is a
      fighter standing on the engine's map, through which an action reaches
      the engine. */
  predicate InPlay(engine: Engine)
    reads engine, engine.messageLog, engine.player, engine.gameMap
  {
    && Playing(engine) && engine.player.fighter != null
    && Wired(engine.player, engine.gameMap, engine)
  }

  /** Logs each message in turn through the message log. */
  method LogEach(log: MessageLog, logged: seq<Logged>)
    requires log.engine != null
    modifies log`messages, log.engine`stepMessages
    ensures (log.messages, log.engine.stepMessages)
         == LogAll(old(log.messages), old(log.engine.stepMessages), logged)
  {
    for i := 0 to |logged|
      invariant (log.messages, log.engine.stepMessages)
             == LogAll(old(log.messages), old(log.engine.stepMessages), logged[..i])
    {
      log.AddMessage(logged[i].text, logged[i].fg, true);
      assert logged[..i + 1][..i] == logged[..i];
    }
    assert logged[..|logged|] == logged;
  }

  /** Carries out an effect with the operations the model has: the
      messages through `add_message`, the move, the hp setter (whose `die`
      may run), the victory flag, and the removal of the entities that left
      the map. No other entity's fields change. */
  method ApplyEffect(engine: Engine, eff: Effect)
    requires InPlay(engine)
    modifies engine.messageLog`messages, engine`stepMessages, engine`gameDone
    modifies engine.player, engine.player.fighter`hp, engine.gameMap`entities
    ensures InPlay(engine)
    ensures engine.gameMap.entities == old(engine.gameMap.entities) - (eff.removed - {engine.player})
    ensures ViewOf(engine) == Applied(old(ViewOf(engine)), eff, engine.player.fighter.maxHp)
  {
    var player, gm := engine.player, engine.gameMap;
    gm.entities := gm.entities - (eff.removed - {player});
    LogEach(engine.messageLog, eff.logged);
    player.Move(eff.move.0, eff.move.1);
    if eff.hp.Some? {
      var _ := player.fighter.SetHp(eff.hp.value, player, gm, engine);
    }
    if eff.victory {
      engine.gameDone := true;
    }
  }

  /** What `action.perform()` did: it completed with an effect, or raised
      `Impossible`. */
  datatype Performed = Completed(effect: Effect) | Refused(message: string)

  /** `handle_action`: no action, or a refused one, is not a turn (the
      refusal is logged); a completed one has its effect, lets the enemies
      act (with the effect `enemies`) and then recomputes the field of
      view. */
  method HandleAction(engine: Engine, action: Option<Action>, result: Performed, enemies: Effect,
                      fov: (int, int, int, int, int) -> bool)
    returns (performed: bool, acted: seq<Entity>)
    requires InPlay(engine)
    modifies engine.messageLog`messages, engine`stepMessages, engine`gameDone
    modifies engine.player, engine.player.fighter`hp, engine.gameMap`entities
    modifies engine.gameMap.visible, engine.gameMap.explored
    ensures InPlay(engine)
    ensures !performed ==> engine.gameMap.entities == old(engine.gameMap.entities)
    ensures action.Some? && result.Completed? ==>
      engine.gameMap.entities
      == old(engine.gameMap.entities) - (result.effect.removed - {engine.player}) - (enemies.removed - {engine.player})
    ensures performed <==> action.Some? && result.Completed?
    ensures !performed ==> unchanged(engine.gameMap.visible) && unchanged(engine.gameMap.explored) && acted == []
    ensures action.None? ==> ViewOf(engine) == old(ViewOf(engine))
    ensures action.Some? && result.Refused? ==>
      ViewOf(engine) == old(ViewOf(engine)).(
        messages := Stacked(old(engine.messageLog.messages), result.message, ImpossibleFg, true),
        steps := StepStacked(old(engine.stepMessages), result.message))
    ensures performed ==>
      ViewOf(engine) == Applied(Applied(old(ViewOf(engine)), result.effect, engine.player.fighter.maxHp),
                                enemies, engine.player.fighter.maxHp)
    ensures performed ==> forall e :: e in acted <==>
      && e in old(engine.gameMap.entities) && e !in result.effect.removed
      && e.cls == ActorEntity && e.hasAi && e != engine.player
    ensures performed ==> forall x, y :: 0 <= x < engine.gameMap.width && 0 <= y < engine.gameMap.height ==>
      && engine.gameMap.visible[x, y] == fov(engine.player.x, engine.player.y, FovRadius, x, y)
      && engine.gameMap.explored[x, y] == (old(engine.gameMap.explored[x, y]) || engine.gameMap.visible[x, y])
  {
    if action.None? {
      return false, [];
    }
    if result.Refused? {
      engine.messageLog.AddMessage(result.message, ImpossibleFg, true);
      return false, [];
    }
    ApplyEffect(engine, result.effect);
    acted := engine.HandleEnemyTurns();
    ApplyEffect(engine, enemies);
    engine.UpdateFov(fov);
    performed := true;
  }

  /** The handler `handle_events` moves to after a completed action:
      victory first, then death, else the main game. */
  function AfterTurn(engine: Engine): (h: Handler)
    reads engine, engine.player, engine.player.fighter
    ensures h.EventHandler? && h.engine == engine
    ensures h.kind == GameDoneKind <==> engine.gameDone
    ensures h.kind == GameOverKind <==> !engine.gameDone && !engine.player.IsAlive()
    ensures h.kind == MainGameKind <==> !engine.gameDone && engine.player.IsAlive()
  {
    if engine.gameDone then EventHandler(GameDoneKind, engine)
    else if !engine.player.IsAlive() then EventHandler(GameOverKind, engine)
    else EventHandler(MainGameKind, engine)
  }

  /** What `handle_events` returns: the next handler, or SystemExit.
      `isNew` tells a newly built handler object from the handler itself,
      which the API tells apart by identity. */
  datatype Next = Continue(handler: Handler, isNew: bool) | SystemExit

  /** `EventHandler.handle_events`: a returned handler passes straight
      through; an action starts a new step before it is performed; a
      completed action moves to `AfterTurn` of the state the turn left,
      anything else keeps the handler. */
  method HandleEvents(h: Handler, ev: Event, result: Performed, enemies: Effect,
                      fov: (int, int, int, int, int) -> bool)
    returns (next: Next)
    requires h.EventHandler? && InPlay(h.engine)
    modifies h.engine.messageLog`messages, h.engine`stepMessages, h.engine`stepCounter, h.engine`gameDone
    modifies h.engine.player, h.engine.player.fighter`hp, h.engine.gameMap`entities
    modifies h.engine.gameMap.visible, h.engine.gameMap.explored
    ensures InPlay(h.engine)
    ensures old(DispatchOf(h, ev)).ToAction? && result.Completed? ==>
      h.engine.gameMap.entities
      == old(h.engine.gameMap.entities) - (result.effect.removed - {h.engine.player})
         - (enemies.removed - {h.engine.player})
    ensures !(old(DispatchOf(h, ev)).ToAction? && result.Completed?) ==>
      h.engine.gameMap.entities == old(h.engine.gameMap.entities)
    ensures var d := old(DispatchOf(h, ev));
      && (d.ToHandler? ==>
            && next == Continue(d.next, true) && h.engine.stepCounter == old(h.engine.stepCounter)
            && ViewOf(h.engine) == old(ViewOf(h.engine)))
      && (d == Exit ==> next == SystemExit && h.engine.stepCounter == old(h.engine.stepCounter))
      && (d == NoAction ==> next == Continue(h, false) && h.engine.stepCounter == old(h.engine.stepCounter))
      && (d.ToAction? ==> h.engine.stepCounter == old(h.engine.stepCounter) + 1)
      && (d.ToAction? && result.Refused? ==>
            && next == Continue(h, false)
            && ViewOf(h.engine) == old(ViewOf(h.engine)).(
                 messages := Stacked(old(h.engine.messageLog.messages), result.message, ImpossibleFg, true),
                 steps := [StepMessage(result.message, 1)])
            && unchanged(h.engine.gameMap.explored))
      && (d.ToAction? && result.Completed? ==>
            && next == Continue(AfterTurn(h.engine), true)
            && ViewOf(h.engine)
               == Applied(Applied(old(ViewOf(h.engine)).(steps := []), result.effect, h.engine.player.fighter.maxHp),
                          enemies, h.engine.player.fighter.maxHp)
            && forall x, y :: 0 <= x < h.engine.gameMap.width && 0 <= y < h.engine.gameMap.height ==>
                 old(h.engine.gameMap.explored[x, y]) ==> h.engine.gameMap.explored[x, y])
  {
    var engine := h.engine;
    var d := DispatchEvent(h, ev);
    if d.ToHandler? {
      return Continue(d.next, true);
    }
    if d == Exit {
      return SystemExit;
    }
    var action: Option<Action> := None;
    if d.ToAction? {
      engine.StartNewStep();
      action := Some(d.action);
    }
    var performed, _ := HandleAction(engine, action, result, enemies, fov);
    if performed {
      next := Continue(AfterTurn(engine), true);
    } else {
      next := Continue(h, false);
    }
  }
}
