/** The entity templates the game copies when it populates a map: three
    actors and the healing potion, in the current tree and in the older tree
    at the repository root. */
module EntityFactories {
  import opened Wrappers
  import opened Tiles

  /** What an entity is drawn with: a code point of the tile sheet, or a
      plain character. */
  datatype Glyph = Code(code: int) | Char(c: char)

  /** Draw order; corpses go under items, items under actors. */
  datatype RenderOrder = Corpse | ItemOrder | ActorOrder

  /** The one AI component the templates use. */
  datatype Ai = HostileEnemy

  /** The components that make an entity an actor or an item. */
  datatype Kind =
    | ActorKind(ai: Ai, hp: int, baseDefense: Option<int>, basePower: int, capacity: int)
    | ItemKind(healAmount: int)

  datatype Template = Template(glyph: Glyph, color: Rgb, name: string, kind: Kind)
  {
    /** Actors block movement and items do not. */
    predicate BlocksMovement() {
      kind.ActorKind?
    }

    function Order(): RenderOrder {
      if kind.ActorKind? then ActorOrder else ItemOrder
    }
  }

  const ActorColor := Rgb(71, 108, 108)

  function Player(): (t: Template)
    ensures t.name == "Player" && t.BlocksMovement()
    ensures t.kind == ActorKind(HostileEnemy, 100, None, 4, 26)
  {
    Template(Code(0x100000), ActorColor, "Player", ActorKind(HostileEnemy, 100, None, 4, 26))
  }

  function Ghost(): (t: Template)
    ensures t.name == "Ghost" && t.BlocksMovement()
    ensures t.kind == ActorKind(HostileEnemy, 10, None, 2, 0)
  {
    Template(Code(0x100001), ActorColor, "Ghost", ActorKind(HostileEnemy, 10, None, 2, 0))
  }

  function Troll(): (t: Template)
    ensures t.name == "Red Ghost" && t.BlocksMovement()
    ensures t.kind == ActorKind(HostileEnemy, 15, None, 8, 0)
  {
    Template(Code(0x100002), ActorColor, "Red Ghost", ActorKind(HostileEnemy, 15, None, 8, 0))
  }

  function HealthPotion(): (t: Template)
    ensures t.name == "Health Potion" && !t.BlocksMovement()
    ensures t.kind == ItemKind(5)
  {
    Template(Code(0x100008), Rgb(127, 0, 255), "Health Potion", ItemKind(5))
  }

  /** The four templates have four different names, which is what the map
      serialiser keys its characters on. */
  lemma TemplateNamesDistinct()
    ensures Player().name != Ghost().name && Player().name != Troll().name
    ensures Player().name != HealthPotion().name && Ghost().name != Troll().name
    ensures Ghost().name != HealthPotion().name && Troll().name != HealthPotion().name
  {
  }
}

/** The templates of the older tree: the fighters carry a defence value, the
    ghost hits harder, and the strong enemy is called "Crab". */
module LegacyEntityFactories {
  import opened Wrappers
  import opened Tiles
  import opened EntityFactories

  /** The glyph choice of the older tree: its condition ends in `or True`, so
      the code point is chosen whatever the environment holds. */
  function GraphicGlyph(useGraphic: Option<string>, code: int, fallback: char): (g: Glyph)
    ensures g == Code(code)
  {
    if useGraphic == Some("1") || true then Code(code) else Char(fallback)
  }

  function Player(useGraphic: Option<string>): (t: Template)
    ensures t.name == "Player" && t.glyph == Code(0x100000)
    ensures t.kind == ActorKind(HostileEnemy, 100, Some(1), 4, 26)
  {
    Template(GraphicGlyph(useGraphic, 0x100000, '@'), ActorColor, "Player",
      ActorKind(HostileEnemy, 100, Some(1), 4, 26))
  }

  function Ghost(useGraphic: Option<string>): (t: Template)
    ensures t.name == "Ghost" && t.glyph == Code(0x100001)
    ensures t.kind == ActorKind(HostileEnemy, 10, Some(0), 3, 0)
  {
    Template(GraphicGlyph(useGraphic, 0x100001, 'O'), ActorColor, "Ghost",
      ActorKind(HostileEnemy, 10, Some(0), 3, 0))
  }

  function Troll(useGraphic: Option<string>): (t: Template)
    ensures t.name == "Crab" && t.glyph == Code(0x100002)
    ensures t.kind == ActorKind(HostileEnemy, 15, Some(0), 8, 0)
  {
    Template(GraphicGlyph(useGraphic, 0x100002, 'T'), ActorColor, "Crab",
      ActorKind(HostileEnemy, 15, Some(0), 8, 0))
  }

  function HealthPotion(): (t: Template)
    ensures t.name == "Health Potion" && t.glyph == Code(0x100008)
    ensures t.kind == ItemKind(5)
  {
    Template(if true then Code(0x100008) else Char('h'), Rgb(127, 0, 255), "Health Potion", ItemKind(5))
  }
}
