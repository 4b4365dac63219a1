/** The in-memory game world: fighters, entities, inventories, the map, the
    message log and the engine's per-step bookkeeping.

    The source reaches the engine through parent back-references
    (component -> entity -> map -> engine); here the entity, its map and the
    engine are passed as explicit handles, and `Wired` states the chain the
    back-references would have followed. The classes live in one module
    because they refer to each other both ways. */
module Core {
  import opened Wrappers
  import opened PyStr
  import opened Tiles
  import opened EntityFactories

  datatype Pos = Pos(x: int, y: int)

  /** The message colours by role; their RGB values are not part of this
      model. */
  datatype Fg = White | PlayerDie | EnemyDie | HealthRecovered | ImpossibleFg | WelcomeText | Descend

  datatype Message = Message(plainText: string, fg: Fg, count: int)

  /** An entry of the engine's per-step buffer. */
  datatype StepMessage = StepMessage(text: string, count: int)

  /** Where an entity lives: nowhere yet, on a map, or in an inventory. */
  datatype Parent = Unattached | OnMap(gm: GameMap) | InInventory(inv: Inventory)

  /** The Python class of an entity. */
  datatype EntityClass = PlainEntity | ActorEntity | ItemEntity

  /** The actions the handlers build; performing them is not part of this
      model. */
  datatype Action =
    | BumpAction(entity: Entity, dx: int, dy: int)
    | WaitAction(entity: Entity)
    | PickupAction(entity: Entity)
    | TakeStairsAction(entity: Entity)
    | ItemAction(entity: Entity, item: Entity)

  /** How an operation that may fail ended: normally, with `Impossible`
      carrying its message, or with another exception (KeyError, ValueError)
      propagating to the caller. */
  datatype Outcome = Done | Impossible(message: string) | Raised

  // ---------------------------------------------------------------- hp

  /** `max(0, min(value, max_hp))`. */
  function Clamp(value: int, maxHp: int): (r: int)
    ensures 0 <= r
    ensures 0 <= maxHp ==> r <= maxHp
    ensures 0 <= value <= maxHp ==> r == value
    ensures r == 0 <==> value <= 0 || maxHp <= 0
  {
    var m := if value < maxHp then value else maxHp;
    if m < 0 then 0 else m
  }

  /** `int(n * 0.5)` or `int(n / 2)`: half, truncated toward zero. */
  function TruncHalf(n: int): (r: int)
    ensures n >= 0 ==> 0 <= r && r + r <= n < r + r + 2
    ensures n < 0 ==> r <= 0 && n <= r + r < n + 2
  {
    if n >= 0 then n / 2 else -((-n) / 2)
  }

  function Min(a: int, b: int): int {
    if a < b then a else b
  }

  /** The maximum hp a fighter gets on dungeon level `level` > 1. */
  function ScaledMaxHp(level: int): (m: int)
    requires level > 1
    ensures m > 100
  {
    100 + (level - 1) * 15
  }

  /** Each level adds exactly 15 to the scaled maximum. */
  lemma ScaledMaxHpStep(level: int)
    requires level > 1
    ensures ScaledMaxHp(level + 1) == ScaledMaxHp(level) + 15
  {
  }

  /** The scaled maximum grows strictly with the level. */
  lemma {:induction false} ScaledMaxHpIncreasing(a: int, b: int)
    requires 1 < a < b
    ensures ScaledMaxHp(a) < ScaledMaxHp(b)
    decreases b - a
  {
    if a + 1 < b {
      ScaledMaxHpIncreasing(a + 1, b);
    }
    ScaledMaxHpStep(a);
  }

  // ---------------------------------------------------------------- messages

  /** `Message(text, fg)`: a new message has count 1. */
  function NewMessage(text: string, fg: Fg): (m: Message)
    ensures m.count == 1 && m.plainText == text && FullText(m) == text
  {
    Message(text, fg, 1)
  }

  /** `Message.full_text`: the plain text, with " (xN)" appended when the
      message has been stacked N > 1 times. */
  function FullText(m: Message): (s: string)
    ensures StartsWith(s, m.plainText)
    ensures |s| > |m.plainText| <==> m.count > 1
  {
    if m.count > 1 then m.plainText + " (x" + IntToString(m.count) + ")" else m.plainText
  }

  /** The message list after `add_message(text, fg, stack=stack)`. */
  function Stacked(msgs: seq<Message>, text: string, fg: Fg, stack: bool): (r: seq<Message>)
    ensures |r| > 0 && r[|r| - 1].plainText == text
  {
    if stack && |msgs| > 0 && msgs[|msgs| - 1].plainText == text then
      msgs[..|msgs| - 1] + [msgs[|msgs| - 1].(count := msgs[|msgs| - 1].count + 1)]
    else
      msgs + [NewMessage(text, fg)]
  }

  /** The number of `add_message` calls a list accounts for. */
  function TotalCount(msgs: seq<Message>): int {
    if |msgs| == 0 then 0 else TotalCount(msgs[..|msgs| - 1]) + msgs[|msgs| - 1].count
  }

  /** Stacking bumps the last message exactly when stacking is on and the
      text repeats the last message; otherwise it appends one message with
      count 1. Either way every earlier message is untouched and the total
      count grows by one. */
  lemma StackedMeaning(msgs: seq<Message>, text: string, fg: Fg, stack: bool)
    ensures var r := Stacked(msgs, text, fg, stack);
      && (|r| == |msgs| <==> stack && |msgs| > 0 && msgs[|msgs| - 1].plainText == text)
      && (|r| != |msgs| ==> |r| == |msgs| + 1 && r[..|msgs|] == msgs && r[|msgs|] == NewMessage(text, fg))
      && (|msgs| > 0 ==> r[..|msgs| - 1] == msgs[..|msgs| - 1])
      && TotalCount(r) == TotalCount(msgs) + 1
  {
    var r := Stacked(msgs, text, fg, stack);
    if stack && |msgs| > 0 && msgs[|msgs| - 1].plainText == text {
      assert r[..|r| - 1] == msgs[..|msgs| - 1];
    } else {
      assert r[..|r| - 1] == msgs;
    }
  }

  /** Only the last message is compared: a repeat of an earlier, non-last
      message is a new entry. */
  lemma NonAdjacentRepeatIsSeparate(a: Message, b: Message, fg: Fg)
    requires a.plainText != b.plainText
    ensures Stacked([a, b], a.plainText, fg, true) == [a, b, NewMessage(a.plainText, fg)]
  {
  }

  /** The step buffer after `add_step_message(text)`. */
  function StepStacked(steps: seq<StepMessage>, text: string): (r: seq<StepMessage>)
    ensures |r| > 0 && r[|r| - 1].text == text
    ensures |r| == |steps| || |r| == |steps| + 1
  {
    if |steps| > 0 && steps[|steps| - 1].text == text then
      steps[..|steps| - 1] + [steps[|steps| - 1].(count := steps[|steps| - 1].count + 1)]
    else
      steps + [StepMessage(text, 1)]
  }

  /** No two adjacent entries of the step buffer carry the same text. */
  predicate NoAdjacentRepeats(steps: seq<StepMessage>) {
    forall i :: 0 <= i < |steps| - 1 ==> steps[i].text != steps[i + 1].text
  }

  /** `add_step_message` keeps the buffer free of adjacent repeats, and
      every entry it keeps is unchanged except possibly the last. */
  lemma StepStackedInvariant(steps: seq<StepMessage>, text: string)
    requires NoAdjacentRepeats(steps)
    ensures NoAdjacentRepeats(StepStacked(steps, text))
    ensures |steps| > 0 ==> StepStacked(steps, text)[..|steps| - 1] == steps[..|steps| - 1]
  {
    var r := StepStacked(steps, text);
    if |steps| > 0 && steps[|steps| - 1].text == text {
      assert forall i :: 0 <= i < |r| - 1 ==> r[i] == steps[i];
    } else {
      assert forall i :: 0 <= i < |steps| ==> r[i] == steps[i];
    }
  }

  /** The handles a fighter reaches through its back-references: its owner
      lives on `gm`, whose engine is `engine`, whose log reports to it. */
  predicate Wired(owner: Entity, gm: GameMap, engine: Engine)
    reads owner, engine.messageLog
  {
    owner.parent == OnMap(gm) && gm.engine == engine && engine.messageLog.engine == engine
  }

  /** The corpse fields `die` writes; position and parent stay. */
  twostate predicate BecameCorpse(owner: Entity)
    reads owner
  {
    && owner.glyph == Char('%')
    && owner.color == Rgb(191, 0, 0)
    && !owner.blocksMovement
    && !owner.hasAi
    && owner.name == "remains of " + old(owner.name)
    && owner.renderOrder == Corpse
    && owner.x == old(owner.x) && owner.y == old(owner.y)
    && owner.parent == old(owner.parent)
  }

  /** What one run of `die` does, as it does it: the player keeps its place
      and both message buffers restart with the death message; any other
      actor leaves its map, or raises KeyError when it is no longer there. */
  twostate predicate DeathEffect(owner: Entity, gm: GameMap, engine: Engine, raised: bool)
    reads owner, gm, engine, engine.messageLog
  {
    if old(engine.player) == owner then
      && !raised
      && BecameCorpse(owner)
      && gm.entities == old(gm.entities)
      && engine.messageLog.messages == [NewMessage("You died!", PlayerDie)]
      && engine.stepMessages == [StepMessage("You died!", 1)]
    else if owner !in old(gm.entities) then
      && raised
      && unchanged(owner)
      && gm.entities == old(gm.entities)
      && engine.messageLog.messages == old(engine.messageLog.messages)
      && engine.stepMessages == old(engine.stepMessages)
    else
      && !raised
      && BecameCorpse(owner)
      && gm.entities == old(gm.entities) - {owner}
      && engine.messageLog.messages
         == Stacked(old(engine.messageLog.messages), old(owner.name) + " is dead!", EnemyDie, true)
      && engine.stepMessages == StepStacked(old(engine.stepMessages), old(owner.name) + " is dead!")
  }

  /** Nothing `die` could have touched has changed. */
  twostate predicate NoDeath(owner: Entity, gm: GameMap, engine: Engine, raised: bool)
    reads owner, gm, engine, engine.messageLog
  {
    && !raised
    && unchanged(owner)
    && gm.entities == old(gm.entities)
    && engine.messageLog.messages == old(engine.messageLog.messages)
    && engine.stepMessages == old(engine.stepMessages)
  }

  // ---------------------------------------------------------------- fighter

  /** The hp component of an actor. `baseDefense` is present only in the
      older tree, whose fighters carry a defence stat. */
  class Fighter {
    var maxHp: int
    var hp: int
    const basePower: int
    const baseDefense: Option<int>

    constructor (hp: int, basePower: int)
      ensures maxHp == hp && this.hp == hp && this.basePower == basePower && baseDefense == None
    {
      maxHp := hp;
      this.hp := hp;
      this.basePower := basePower;
      baseDefense := None;
    }

    /** The older tree's constructor: defence and power stored as given. */
    constructor Legacy(hp: int, baseDefense: int, basePower: int)
      ensures maxHp == hp && this.hp == hp && this.basePower == basePower
      ensures this.baseDefense == Some(baseDefense)
    {
      maxHp := hp;
      this.hp := hp;
      this.basePower := basePower;
      this.baseDefense := Some(baseDefense);
    }

    function Power(): (p: int)
      ensures p == basePower
    {
      basePower
    }

    function Defense(): (d: int)
      requires baseDefense.Some?
      ensures Some(d) == baseDefense
    {
      baseDefense.value
    }

    /** `die`: nothing guards a second call, so a corpse can die again. */
    method Die(owner: Entity, gm: GameMap, engine: Engine) returns (raised: bool)
      requires owner.fighter == this && Wired(owner, gm, engine)
      modifies owner, gm`entities, engine`stepMessages, engine.messageLog`messages
      ensures DeathEffect(owner, gm, engine, raised)
    {
      var text, fg;
      if engine.player == owner {
        text, fg := "You died!", PlayerDie;
        engine.messageLog.messages := [];
        engine.stepMessages := [];
      } else {
        text, fg := owner.name + " is dead!", EnemyDie;
        if owner !in gm.entities {
          return true;
        }
        gm.entities := gm.entities - {owner};
      }
      owner.glyph := Char('%');
      owner.color := Rgb(191, 0, 0);
      owner.blocksMovement := false;
      owner.hasAi := false;
      owner.name := "remains of " + owner.name;
      owner.renderOrder := Corpse;
      engine.messageLog.AddMessage(text, fg, true);
      raised := false;
    }

    /** The `hp` setter: stores the clamped value and runs `die` whenever the
        stored value is 0. */
    method SetHp(value: int, owner: Entity, gm: GameMap, engine: Engine) returns (raised: bool)
      requires owner.fighter == this && Wired(owner, gm, engine)
      modifies this`hp, owner, gm`entities, engine`stepMessages, engine.messageLog`messages
      ensures hp == Clamp(value, maxHp)
      ensures hp == 0 ==> DeathEffect(owner, gm, engine, raised)
      ensures hp != 0 ==> NoDeath(owner, gm, engine, raised)
    {
      hp := Clamp(value, maxHp);
      raised := false;
      if hp == 0 {
        raised := Die(owner, gm, engine);
      }
    }

    /** `heal`: returns the hp actually recovered. */
    method Heal(amount: int, owner: Entity, gm: GameMap, engine: Engine)
      returns (recovered: int, raised: bool)
      requires owner.fighter == this && Wired(owner, gm, engine)
      modifies this`hp, owner, gm`entities, engine`stepMessages, engine.messageLog`messages
      ensures old(hp) == maxHp ==> recovered == 0 && hp == old(hp) && NoDeath(owner, gm, engine, raised)
      ensures old(hp) != maxHp ==> recovered == Min(old(hp) + amount, maxHp) - old(hp)
      ensures old(hp) != maxHp ==> hp == Clamp(old(hp) + recovered, maxHp)
      ensures 0 <= old(hp) <= maxHp && 0 <= amount ==>
        recovered == Min(amount, maxHp - old(hp)) && hp == old(hp) + recovered <= maxHp
      ensures hp == 0 && old(hp) != maxHp ==> DeathEffect(owner, gm, engine, raised)
      ensures hp != 0 ==> NoDeath(owner, gm, engine, raised)
    {
      if hp == maxHp {
        return 0, false;
      }
      var newHp := hp + amount;
      if newHp > maxHp {
        newHp := maxHp;
      }
      recovered := newHp - hp;
      raised := SetHp(newHp, owner, gm, engine);
    }

    /** `take_damage`: hp minus the amount, through the setter. */
    method TakeDamage(amount: int, owner: Entity, gm: GameMap, engine: Engine) returns (raised: bool)
      requires owner.fighter == this && Wired(owner, gm, engine)
      modifies this`hp, owner, gm`entities, engine`stepMessages, engine.messageLog`messages
      ensures hp == Clamp(old(hp) - amount, maxHp)
      ensures hp == 0 ==> DeathEffect(owner, gm, engine, raised)
      ensures hp != 0 ==> NoDeath(owner, gm, engine, raised)
    {
      raised := SetHp(hp - amount, owner, gm, engine);
    }

    /** `apply_dungeon_level_scaling`: from level 2 on, the maximum becomes
        100 + 15 per level above 1, and only a growth of the maximum is added
        to hp (with a message naming it). A shrinking maximum leaves hp as it
        was, even above the new maximum. */
    method ApplyDungeonLevelScaling(level: int, owner: Entity, gm: GameMap, engine: Engine)
      returns (raised: bool)
      requires owner.fighter == this && Wired(owner, gm, engine)
      modifies this`maxHp, this`hp, owner, gm`entities, engine`stepMessages, engine.messageLog`messages
      ensures level <= 1 ==> maxHp == old(maxHp) && hp == old(hp) && NoDeath(owner, gm, engine, raised)
      ensures level > 1 ==> maxHp == ScaledMaxHp(level)
      ensures level > 1 && old(maxHp) >= maxHp ==> hp == old(hp) && NoDeath(owner, gm, engine, raised)
      ensures level > 1 && old(maxHp) < maxHp ==>
        var increase := maxHp - old(maxHp);
        && hp == Clamp(old(hp) + increase, maxHp)
        && (hp == 0 && !raised ==>
              && BecameCorpse(owner) && |engine.messageLog.messages| > 0
              && engine.messageLog.messages[|engine.messageLog.messages| - 1].plainText == ScalingMessage(increase))
        && (hp != 0 ==>
              && !raised && unchanged(owner) && gm.entities == old(gm.entities)
              && engine.messageLog.messages == Stacked(old(engine.messageLog.messages),
                   ScalingMessage(increase), HealthRecovered, true)
              && engine.stepMessages == StepStacked(old(engine.stepMessages), ScalingMessage(increase)))
      ensures level > 1 && 0 <= old(hp) <= old(maxHp) < maxHp ==>
        hp == old(hp) + (maxHp - old(maxHp)) <= maxHp
      ensures owner.parent == old(owner.parent)
    {
      if level <= 1 {
        return false;
      }
      var oldMax := maxHp;
      maxHp := 100 + (level - 1) * 15;
      raised := false;
      if oldMax < maxHp {
        raised := AddGrowth(maxHp - oldMax, owner, gm, engine);
      }
    }

    /** The grown-maximum branch of the scaling: hp gains the growth through
        the setter, then the message naming the growth is stacked, unless
        the setter raised. */
    method AddGrowth(increase: int, owner: Entity, gm: GameMap, engine: Engine) returns (raised: bool)
      requires owner.fighter == this && Wired(owner, gm, engine)
      modifies this`hp, owner, gm`entities, engine`stepMessages, engine.messageLog`messages
      ensures hp == Clamp(old(hp) + increase, maxHp)
      ensures hp == 0 && !raised ==>
        && BecameCorpse(owner) && |engine.messageLog.messages| > 0
        && engine.messageLog.messages[|engine.messageLog.messages| - 1].plainText == ScalingMessage(increase)
      ensures hp != 0 ==>
        && !raised && unchanged(owner) && gm.entities == old(gm.entities)
        && engine.messageLog.messages
           == Stacked(old(engine.messageLog.messages), ScalingMessage(increase), HealthRecovered, true)
        && engine.stepMessages == StepStacked(old(engine.stepMessages), ScalingMessage(increase))
      ensures owner.parent == old(owner.parent)
    {
      raised := SetHp(hp + increase, owner, gm, engine);
      if raised {
        return;
      }
      assert hp == 0 ==> BecameCorpse(owner);
      assert hp != 0 ==> NoDeath(owner, gm, engine, raised);
      var text := ScalingMessage(increase);
      engine.messageLog.AddMessage(text, HealthRecovered, true);
    }
  }

  function ScalingMessage(increase: int): (s: string)
    ensures StartsWith(s, "adapts to the dungeon's depth!")
  {
    "adapts to the dungeon's depth! Max health increased by " + IntToString(increase) + "!"
  }

  // ---------------------------------------------------------------- entities

  /** An entity on a map or in an inventory. The components an actor or an
      item carries are fixed when it is built; the fields `die` and `place`
      rewrite are variables. `hasAi` stands for the AI component, which
      `die` removes. */
  class Entity {
    var x: int
    var y: int
    var glyph: Glyph
    var color: Rgb
    var name: string
    var blocksMovement: bool
    var renderOrder: RenderOrder
    var parent: Parent
    var hasAi: bool
    const cls: EntityClass
    const fighter: Fighter?
    const inventory: Inventory?
    /** The heal amount of the item's HealingConsumable, if any. */
    const consumable: Option<int>

    /** `Entity(parent, x, y, ...)`: an entity given a map joins that map's
        entity set. */
    constructor (parent: Option<GameMap>, x: int, y: int, glyph: Glyph, color: Rgb, name: string,
                 blocksMovement: bool, renderOrder: RenderOrder)
      modifies if parent.Some? then {parent.value} else {}
      ensures this.x == x && this.y == y && this.glyph == glyph && this.color == color
      ensures this.name == name && this.blocksMovement == blocksMovement && this.renderOrder == renderOrder
      ensures cls == PlainEntity && fighter == null && inventory == null && consumable == None && !hasAi
      ensures parent.Some? ==>
        this.parent == OnMap(parent.value) && parent.value.entities == old(parent.value.entities) + {this}
      ensures parent.None? ==> this.parent == Unattached
    {
      this.x, this.y := x, y;
      this.glyph, this.color, this.name := glyph, color, name;
      this.blocksMovement, this.renderOrder := blocksMovement, renderOrder;
      this.parent := if parent.Some? then OnMap(parent.value) else Unattached;
      hasAi := false;
      cls := PlainEntity;
      fighter, inventory, consumable := null, null, None;
      new;
      if parent.Some? {
        parent.value.entities := parent.value.entities + {this};
      }
    }

    /** An `Actor` or `Item` built from one of the templates, at (0, 0) and
        without a parent: actors block movement, carry the AI and their own
        fighter and inventory; items do not block. */
    constructor FromTemplate(t: Template)
      ensures x == 0 && y == 0 && parent == Unattached
      ensures glyph == t.glyph && color == t.color && name == t.name
      ensures blocksMovement == t.BlocksMovement() && renderOrder == t.Order()
      ensures t.kind.ActorKind? ==>
        && cls == ActorEntity && hasAi && consumable == None
        && fighter != null && fresh(fighter)
        && fighter.hp == t.kind.hp && fighter.maxHp == t.kind.hp
        && fighter.basePower == t.kind.basePower && fighter.baseDefense == t.kind.baseDefense
        && inventory != null && fresh(inventory)
        && inventory.capacity == t.kind.capacity && inventory.items == [] && inventory.owner == this
      ensures t.kind.ItemKind? ==>
        cls == ItemEntity && !hasAi && fighter == null && inventory == null
        && consumable == Some(t.kind.healAmount)
    {
      x, y := 0, 0;
      glyph, color, name := t.glyph, t.color, t.name;
      blocksMovement, renderOrder := t.BlocksMovement(), t.Order();
      parent := Unattached;
      if t.kind.ActorKind? {
        cls, hasAi, consumable := ActorEntity, true, None;
        var f := new Fighter(t.kind.hp, t.kind.basePower);
        if t.kind.baseDefense.Some? {
          f := new Fighter.Legacy(t.kind.hp, t.kind.baseDefense.value, t.kind.basePower);
        }
        fighter := f;
        inventory := new Inventory(t.kind.capacity);
      } else {
        cls, hasAi, consumable := ItemEntity, false, Some(t.kind.healAmount);
        fighter, inventory := null, null;
      }
      new;
      if inventory != null {
        inventory.owner := this;
      }
    }

    /** The copy `spawn` makes: every field of `src`, with a fighter and an
        inventory of its own. The new inventory lists the same item objects
        as the template's (a shallow copy of the list, where `deepcopy`
        would copy the items too); the templates `spawn` copies carry empty
        inventories, so no item is shared. */
    constructor CopyOf(src: Entity, x: int, y: int, gm: GameMap)
      ensures this.x == x && this.y == y && parent == OnMap(gm)
      ensures SameLook(src) && cls == src.cls && hasAi == src.hasAi && consumable == src.consumable
      ensures (fighter == null) == (src.fighter == null)
      ensures fighter != null ==>
        && fresh(fighter) && fighter.hp == src.fighter.hp
        && fighter.maxHp == src.fighter.maxHp && fighter.basePower == src.fighter.basePower
        && fighter.baseDefense == src.fighter.baseDefense
      ensures (inventory == null) == (src.inventory == null)
      ensures inventory != null ==>
        && fresh(inventory) && inventory.capacity == src.inventory.capacity
        && inventory.items == src.inventory.items && inventory.owner == this
    {
      this.x, this.y := x, y;
      glyph, color, name := src.glyph, src.color, src.name;
      blocksMovement, renderOrder := src.blocksMovement, src.renderOrder;
      parent := OnMap(gm);
      cls, hasAi, consumable := src.cls, src.hasAi, src.consumable;
      if src.fighter != null {
        var f := new Fighter(src.fighter.hp, src.fighter.basePower);
        if src.fighter.baseDefense.Some? {
          f := new Fighter.Legacy(src.fighter.hp, src.fighter.baseDefense.value, src.fighter.basePower);
        }
        f.maxHp := src.fighter.maxHp;
        fighter := f;
      } else {
        fighter := null;
      }
      if src.inventory != null {
        var inv := new Inventory(src.inventory.capacity);
        inv.items := src.inventory.items;
        inventory := inv;
      } else {
        inventory := null;
      }
      new;
      if inventory != null {
        inventory.owner := this;
      }
    }

    /** Same glyph, colour, name, blocking and draw order. */
    predicate SameLook(other: Entity)
      reads this, other
    {
      glyph == other.glyph && color == other.color && name == other.name
      && blocksMovement == other.blocksMovement && renderOrder == other.renderOrder
    }

    /** `Actor.is_alive`: a fighter is present and its hp is positive. */
    predicate IsAlive()
      reads this, fighter
    {
      fighter != null && fighter.hp > 0
    }

    /** `spawn`: a copy at (x, y) registered in `gm`; the template itself
        (position, parent, membership) is untouched. */
    method Spawn(gm: GameMap, x: int, y: int) returns (clone: Entity)
      modifies gm`entities
      ensures fresh(clone) && clone.x == x && clone.y == y && clone.parent == OnMap(gm)
      ensures gm.entities == old(gm.entities) + {clone}
      ensures clone.SameLook(this) && clone.cls == cls && clone.hasAi == hasAi
      ensures clone.consumable == consumable
      ensures (clone.fighter == null) == (fighter == null)
      ensures clone.fighter != null ==>
        && fresh(clone.fighter) && clone.fighter.hp == fighter.hp && clone.fighter.maxHp == fighter.maxHp
    {
      clone := new Entity.CopyOf(this, x, y, gm);
      gm.entities := gm.entities + {clone};
    }

    /** `place`: moves the entity, and when a map is given re-parents it to
        that map, leaving its old map first. The removal from the old map
        raises KeyError when the entity is no longer in that map's set, after
        x and y have been written. */
    method Place(x: int, y: int, gm: Option<GameMap>) returns (raised: bool)
      modifies this`x, this`y, this`parent
      modifies (if gm.Some? && parent.OnMap? then {parent.gm} else {})`entities
      modifies (if gm.Some? then {gm.value} else {})`entities
      ensures this.x == x && this.y == y
      ensures gm.None? ==> !raised && parent == old(parent)
      ensures gm.Some? && old(parent).OnMap? && this !in old(parent.gm.entities) ==>
        raised && parent == old(parent) && old(parent.gm).entities == old(parent.gm.entities)
        && gm.value.entities == old(gm.value.entities)
      ensures gm.Some? && !(old(parent).OnMap? && this !in old(parent.gm.entities)) ==>
        && !raised && parent == OnMap(gm.value)
        && gm.value.entities == old(gm.value.entities) + {this}
        && (old(parent).OnMap? && old(parent.gm) != gm.value ==>
              old(parent.gm).entities == old(parent.gm.entities) - {this})
    {
      this.x := x;
      this.y := y;
      raised := false;
      if gm.Some? {
        if parent.OnMap? {
          if this !in parent.gm.entities {
            return true;
          }
          parent.gm.entities := parent.gm.entities - {this};
        }
        parent := OnMap(gm.value);
        gm.value.entities := gm.value.entities + {this};
      }
    }

    /** `move`: adds the delta, with no bounds or walkability check. */
    method Move(dx: int, dy: int)
      modifies this`x, this`y
      ensures x == old(x) + dx && y == old(y) + dy
    {
      x := x + dx;
      y := y + dy;
    }

    /** `Consumable.get_action`: the item action binding `consumer` to this
        item. */
    function GetAction(consumer: Entity): (a: Action)
      requires consumable.Some?
      ensures a.ItemAction? && a.entity == consumer && a.item == this
    {
      ItemAction(consumer, this)
    }

    /** `Consumable.consume`: removes this item from the inventory holding
        it (ValueError when it is not listed there); an item not held in an
        inventory is left alone. */
    method Consume() returns (raised: bool)
      modifies (if parent.InInventory? then {parent.inv} else {})`items
      ensures parent == old(parent)
      ensures !parent.InInventory? ==> !raised
      ensures parent.InInventory? && this in old(parent.inv.items) ==>
        !raised && parent.inv.items == RemoveFirst(old(parent.inv.items), this)
      ensures parent.InInventory? && this !in old(parent.inv.items) ==>
        raised && parent.inv.items == old(parent.inv.items)
    {
      raised := false;
      if parent.InInventory? {
        raised := parent.inv.Remove(this);
      }
    }

    /** `HealingConsumable.activate`: heals the consumer by at most the
        item's amount; a positive recovery is reported and uses the item up,
        a zero recovery is `Impossible` and keeps it. */
    method ActivateHealing(consumer: Entity, gm: GameMap, engine: Engine) returns (outcome: Outcome)
      requires cls == ItemEntity && consumable.Some?
      requires consumer.cls == ActorEntity && consumer.fighter != null && Wired(consumer, gm, engine)
      requires parent.InInventory? && parent.inv.owner == consumer
      modifies consumer.fighter`hp, consumer, gm`entities, engine`stepMessages,
        engine.messageLog`messages, parent.inv`items
      ensures parent == old(parent)
      ensures old(consumer.fighter.hp) == consumer.fighter.maxHp ==>
        outcome == Impossible("Your health is already full.") && parent.inv.items == old(parent.inv.items)
        && consumer.fighter.hp == old(consumer.fighter.hp)
      ensures
        (0 < old(consumer.fighter.hp) < consumer.fighter.maxHp && 0 < consumable.value
         && this in old(parent.inv.items)) ==>
        var recovered := Min(consumable.value, consumer.fighter.maxHp - old(consumer.fighter.hp));
        && outcome == Done
        && consumer.fighter.hp == old(consumer.fighter.hp) + recovered
        && engine.messageLog.messages
           == Stacked(old(engine.messageLog.messages), ConsumeMessage(old(name), recovered), HealthRecovered, true)
        && parent.inv.items == RemoveFirst(old(parent.inv.items), this)
    {
      var f := consumer.fighter;
      var inv := parent.inv;
      var recovered, raised := f.Heal(consumable.value, consumer, gm, engine);
      if raised {
        return Raised;
      }
      if recovered > 0 {
        outcome := ConsumeReported(recovered, engine);
        return;
      }
      return Impossible("Your health is already full.");
    }

    /** The positive-recovery end of `activate`: the message, then the item
        used up. */
    method ConsumeReported(recovered: int, engine: Engine) returns (outcome: Outcome)
      requires parent.InInventory? && engine.messageLog.engine == engine
      modifies engine`stepMessages, engine.messageLog`messages, parent.inv`items
      ensures parent == old(parent)
      ensures engine.messageLog.messages
        == Stacked(old(engine.messageLog.messages), ConsumeMessage(name, recovered), HealthRecovered, true)
      ensures this in old(parent.inv.items) ==>
        outcome == Done && parent.inv.items == RemoveFirst(old(parent.inv.items), this)
    {
      engine.messageLog.AddMessage(ConsumeMessage(name, recovered), HealthRecovered, true);
      var raised := Consume();
      return if raised then Raised else Done;
    }
  }

  function ConsumeMessage(itemName: string, recovered: int): string {
    "You consume the " + itemName + ", and recover " + IntToString(recovered) + " HP!"
  }

  /** The index of the first occurrence of `e` in `s`. */
  function IndexOf<T(==)>(s: seq<T>, e: T): (i: nat)
    requires e in s
    ensures i < |s| && s[i] == e && e !in s[..i]
  {
    if s[0] == e then 0 else 1 + IndexOf(s[1..], e)
  }

  /** `list.remove(e)`: the first occurrence of `e` taken out, everything
      else kept in order. */
  function RemoveFirst<T(==)>(s: seq<T>, e: T): (r: seq<T>)
    requires e in s
    ensures |r| == |s| - 1
    ensures multiset(r) == multiset(s) - multiset{e}
  {
    var i := IndexOf(s, e);
    assert s == s[..i] + [e] + s[i + 1..];
    s[..i] + s[i + 1..]
  }

  /** The items removed and kept by `RemoveFirst`: the others stay in their
      order. */
  lemma RemoveFirstKeepsOrder<T>(s: seq<T>, e: T)
    requires e in s
    ensures var i := IndexOf(s, e);
      RemoveFirst(s, e)[..i] == s[..i] && RemoveFirst(s, e)[i..] == s[i + 1..]
  {
  }

  /** A fresh copy of template `t` at (x, y), added to `gm`'s entity set:
      `spawn` on a template, or a deep copy followed by `place`. */
  method Instantiate(t: Template, gm: GameMap, x: int, y: int) returns (e: Entity)
    modifies gm`entities
    ensures fresh(e) && e.x == x && e.y == y && e.parent == OnMap(gm) && e.name == t.name
    ensures e.blocksMovement == t.BlocksMovement() && e.cls == (if t.kind.ActorKind? then ActorEntity else ItemEntity)
    ensures gm.entities == old(gm.entities) + {e}
  {
    e := new Entity.FromTemplate(t);
    var _ := e.Place(x, y, Some(gm));
    gm.entities := gm.entities + {e};
  }

  // ---------------------------------------------------------------- inventory

  class Inventory {
    const capacity: int
    var items: seq<Entity>
    /** The actor holding this inventory, once it has been attached. */
    var owner: Entity?

    /** A new inventory has the given capacity and no items. */
    constructor (capacity: int)
      ensures this.capacity == capacity && items == [] && owner == null
    {
      this.capacity := capacity;
      items := [];
      owner := null;
    }

    /** `items.remove(item)`; raises ValueError when the item is absent. */
    method Remove(item: Entity) returns (raised: bool)
      modifies this`items
      ensures item in old(items) ==> !raised && items == RemoveFirst(old(items), item)
      ensures item !in old(items) ==> raised && items == old(items)
    {
      if item !in items {
        return true;
      }
      items := RemoveFirst(items, item);
      raised := false;
    }

    /** `drop`: takes the item out of the list, places it at the owner's
        position on the owner's map and reports it. */
    method Drop(item: Entity, gm: GameMap, engine: Engine) returns (raised: bool)
      requires owner != null && Wired(owner, gm, engine)
      requires item.parent == InInventory(this)
      modifies this`items, item`x, item`y, item`parent, gm`entities,
        engine`stepMessages, engine.messageLog`messages
      ensures item !in old(items) ==> raised && items == old(items) && unchanged(item)
      ensures item in old(items) ==>
        && !raised
        && items == RemoveFirst(old(items), item)
        && item.x == owner.x && item.y == owner.y && item.parent == OnMap(gm)
        && gm.entities == old(gm.entities) + {item}
        && engine.messageLog.messages
           == Stacked(old(engine.messageLog.messages), "You dropped the " + item.name + ".", White, true)
        && engine.stepMessages == StepStacked(old(engine.stepMessages), "You dropped the " + item.name + ".")
    {
      raised := Remove(item);
      if raised {
        return;
      }
      raised := item.Place(owner.x, owner.y, Some(gm));
      engine.messageLog.AddMessage("You dropped the " + item.name + ".", White, true);
    }
  }

  // ---------------------------------------------------------------- map

  /** The part of the game map this model needs: its size, the tile array,
      the visibility masks and the entity set. The map class itself is not
      part of this model, so its constructor only sizes the arrays. */
  class GameMap {
    const engine: Engine
    const width: int
    const height: int
    const tiles: array2<Tile>
    const visible: array2<bool>
    const explored: array2<bool>
    var entities: set<Entity>
    var downstairs: Option<Pos>

    constructor (engine: Engine, width: nat, height: nat, entities: set<Entity>, fill: Tile)
      ensures this.engine == engine && this.width == width && this.height == height
      ensures this.entities == entities && downstairs == None && Valid()
      ensures fresh(tiles) && fresh(visible) && fresh(explored)
      ensures forall x, y :: 0 <= x < width && 0 <= y < height ==>
        tiles[x, y] == fill && !visible[x, y] && !explored[x, y]
    {
      this.engine, this.width, this.height := engine, width, height;
      this.entities := entities;
      downstairs := None;
      tiles := new Tile[width, height]((x, y) => fill);
      visible := new bool[width, height]((x, y) => false);
      explored := new bool[width, height]((x, y) => false);
    }

    /** The arrays have the map's size, and the two masks are distinct
        arrays. */
    predicate Valid()
      reads this
    {
      && tiles.Length0 == width && tiles.Length1 == height
      && visible.Length0 == width && visible.Length1 == height
      && explored.Length0 == width && explored.Length1 == height
      && visible != explored
    }

    predicate InBounds(x: int, y: int) {
      0 <= x < width && 0 <= y < height
    }

    /** Nothing seen yet: no cell is visible or explored. */
    predicate Unseen()
      requires Valid()
      reads this, visible, explored
    {
      forall x, y :: 0 <= x < width && 0 <= y < height ==> !visible[x, y] && !explored[x, y]
    }
  }

  /** `e` is an item lying at (x, y). */
  predicate ItemAt(e: Entity, x: int, y: int)
    reads e
  {
    e.cls == ItemEntity && e.x == x && e.y == y
  }

  /** `e` is an actor standing at (x, y). */
  predicate ActorAt(e: Entity, x: int, y: int)
    reads e
  {
    e.cls == ActorEntity && e.x == x && e.y == y
  }

  function ItemDescription(itemName: string): string {
    "item(" + itemName + ") (press 'g' to pick up)"
  }

  // ---------------------------------------------------------------- log

  class MessageLog {
    var messages: seq<Message>
    var engine: Engine?

    constructor ()
      ensures messages == [] && engine == null
    {
      messages := [];
      engine := null;
    }

    /** `add_message`: stacks onto the last message or appends, and always
        forwards the text to the engine's step buffer. */
    method AddMessage(text: string, fg: Fg, stack: bool)
      modifies this`messages, (if engine == null then {} else {engine})`stepMessages
      ensures messages == Stacked(old(messages), text, fg, stack)
      ensures engine != null ==> engine.stepMessages == StepStacked(old(engine.stepMessages), text)
    {
      if stack && |messages| > 0 && messages[|messages| - 1].plainText == text {
        var last := messages[|messages| - 1];
        messages := messages[..|messages| - 1] + [last.(count := last.count + 1)];
      } else {
        messages := messages + [NewMessage(text, fg)];
      }
      if engine != null {
        engine.AddStepMessage(text);
      }
    }
  }

  // ---------------------------------------------------------------- engine

  /** The radius `update_fov` passes to the field-of-view computation. */
  const FovRadius := 8

  /** The engine: the log, the player, the step counter and buffer, the
      game-over flag, the current map and the current floor of the world
      (`None` until a world is attached). */
  class Engine {
    const messageLog: MessageLog
    var player: Entity
    var stepCounter: int
    var isUsingCustomMap: bool
    var gameDone: bool
    var stepMessages: seq<StepMessage>
    var gameMap: GameMap?
    var currentFloor: Option<int>

    /** A new engine: counter 0, not done, not custom, empty buffer, and a
        message log reporting to it. */
    constructor (player: Entity)
      ensures this.player == player && stepCounter == 0 && !gameDone && !isUsingCustomMap
      ensures stepMessages == [] && gameMap == null && currentFloor == None
      ensures fresh(messageLog) && messageLog.messages == [] && messageLog.engine == this
    {
      messageLog := new MessageLog();
      this.player := player;
      stepCounter := 0;
      isUsingCustomMap := false;
      gameDone := false;
      stepMessages := [];
      gameMap := null;
      currentFloor := None;
      new;
      messageLog.engine := this;
    }

    /** `start_new_step`: an empty buffer and one more step. */
    method StartNewStep()
      modifies this`stepMessages, this`stepCounter
      ensures stepMessages == [] && stepCounter == old(stepCounter) + 1
    {
      stepMessages := [];
      stepCounter := stepCounter + 1;
    }

    /** `add_step_message`: bumps the last entry on a repeat, else appends;
        the buffer never holds two adjacent entries with the same text. */
    method AddStepMessage(text: string)
      modifies this`stepMessages
      ensures stepMessages == StepStacked(old(stepMessages), text)
      ensures NoAdjacentRepeats(old(stepMessages)) ==> NoAdjacentRepeats(stepMessages)
    {
      if NoAdjacentRepeats(stepMessages) {
        StepStackedInvariant(stepMessages, text);
      }
      if |stepMessages| > 0 && stepMessages[|stepMessages| - 1].text == text {
        var last := stepMessages[|stepMessages| - 1];
        stepMessages := stepMessages[..|stepMessages| - 1] + [last.(count := last.count + 1)];
      } else {
        stepMessages := stepMessages + [StepMessage(text, 1)];
      }
    }

    /** `get_current_level`. */
    function CurrentLevel(): (level: int)
      reads this
      requires currentFloor.Some?
      ensures Some(level) == currentFloor
    {
      currentFloor.value
    }

    /** The actors the enemy sweep lets act: actors on the map that still
        have an AI, other than the player. */
    ghost predicate TakesEnemyTurn(e: Entity)
      reads this, gameMap, e
      requires gameMap != null
    {
      e in gameMap.entities && e.cls == ActorEntity && e.hasAi && e != player
    }

    /** `handle_enemy_turns`: visits the set of actors minus the player in
        some order and lets each that has an AI act once. The AI's own move is
        not part of this model, and an `Impossible` it raises is swallowed, so
        the result is the list of actors that were asked to act. */
    method HandleEnemyTurns() returns (acted: seq<Entity>)
      requires gameMap != null
      ensures forall e :: e in acted <==> TakesEnemyTurn(e)
      ensures forall i, j :: 0 <= i < j < |acted| ==> acted[i] != acted[j]
      ensures player !in acted
    {
      var pending := (set e | e in gameMap.entities && e.cls == ActorEntity) - {player};
      acted := [];
      while pending != {}
        invariant pending <= gameMap.entities
        invariant forall e :: e in acted <==> TakesEnemyTurn(e) && e !in pending
        invariant forall e :: e in pending ==> e.cls == ActorEntity && e != player
        invariant forall e ::
          (e in gameMap.entities && e.cls == ActorEntity && e != player && e !in acted && e.hasAi) ==> e in pending
        invariant forall i, j :: 0 <= i < j < |acted| ==> acted[i] != acted[j]
        decreases |pending|
      {
        var e :| e in pending;
        if e.hasAi {
          acted := acted + [e];
        }
        pending := pending - {e};
      }
    }

    /** `update_fov`: the visible mask is replaced by the field of view from
        the player's position with radius 8, and every visible cell is added
        to the explored mask, which therefore only grows. */
    method UpdateFov(fov: (int, int, int, int, int) -> bool)
      requires gameMap != null && gameMap.Valid()
      modifies gameMap.visible, gameMap.explored
      ensures forall x, y :: 0 <= x < gameMap.width && 0 <= y < gameMap.height ==>
        && gameMap.visible[x, y] == fov(player.x, player.y, FovRadius, x, y)
        && gameMap.explored[x, y] == (old(gameMap.explored[x, y]) || gameMap.visible[x, y])
    {
      var vis, exp := gameMap.visible, gameMap.explored;
      var px, py := player.x, player.y;
      var x := 0;
      while x < vis.Length0
        invariant 0 <= x <= vis.Length0
        invariant forall i, j :: 0 <= i < x && 0 <= j < vis.Length1 ==>
          vis[i, j] == fov(px, py, FovRadius, i, j) && exp[i, j] == (old(exp[i, j]) || vis[i, j])
        invariant forall i, j :: x <= i < vis.Length0 && 0 <= j < vis.Length1 ==> exp[i, j] == old(exp[i, j])
      {
        var y := 0;
        while y < vis.Length1
          invariant 0 <= y <= vis.Length1
          invariant forall i, j :: 0 <= i < x && 0 <= j < vis.Length1 ==>
            vis[i, j] == fov(px, py, FovRadius, i, j) && exp[i, j] == (old(exp[i, j]) || vis[i, j])
          invariant forall j :: 0 <= j < y ==>
            vis[x, j] == fov(px, py, FovRadius, x, j) && exp[x, j] == (old(exp[x, j]) || vis[x, j])
          invariant forall i, j :: x <= i < vis.Length0 && 0 <= j < vis.Length1 && (i > x || j >= y) ==>
            exp[i, j] == old(exp[i, j])
        {
          vis[x, y] := fov(px, py, FovRadius, x, y);
          exp[x, y] := exp[x, y] || vis[x, y];
          y := y + 1;
        }
        x := x + 1;
      }
    }

    /** The player stands on the recorded stairs cell. */
    predicate OnStairs()
      reads this, player, gameMap
      requires gameMap != null
    {
      gameMap.downstairs == Some(Pos(player.x, player.y))
    }

    /** Some item of the map lies under the player. */
    predicate ItemUnderfoot()
      reads this, player, gameMap, gameMap.entities
      requires gameMap != null
    {
      exists e :: e in gameMap.entities && ItemAt(e, player.x, player.y)
    }

    /** `get_player_tile_type`: "-" once the game is done, then the stairs,
        then the name of an item underfoot (whichever the set yields first),
        else "floor". */
    method PlayerTileType() returns (r: string)
      requires gameMap != null
      ensures gameDone ==> r == "-"
      ensures !gameDone && OnStairs() ==> r == "ladder/stairs"
      ensures !gameDone && !OnStairs() && ItemUnderfoot() ==>
        exists e :: e in gameMap.entities && ItemAt(e, player.x, player.y) && r == ItemDescription(e.name)
      ensures !gameDone && !OnStairs() && !ItemUnderfoot() ==> r == "floor"
    {
      if gameDone {
        return "-";
      }
      var px, py := player.x, player.y;
      if gameMap.downstairs == Some(Pos(px, py)) {
        return "ladder/stairs";
      }
      var pending := set e | e in gameMap.entities && e.cls == ItemEntity;
      while pending != {}
        invariant pending <= gameMap.entities
        invariant forall e :: e in pending ==> e.cls == ItemEntity
        invariant forall e :: e in gameMap.entities && ItemAt(e, px, py) ==> e in pending
        decreases |pending|
      {
        var e :| e in pending;
        if e.x == px && e.y == py {
          assert ItemAt(e, px, py);
          return ItemDescription(e.name);
        }
        pending := pending - {e};
      }
      return "floor";
    }
  }
}
