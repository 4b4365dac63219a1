/** Tile records of the current tree: a tile is an immutable value packing
    walkability, transparency and the glyphs drawn out of and in view. */
module Tiles {

  datatype Rgb = Rgb(r: int, g: int, b: int)

  /** A glyph cell: a code point with foreground and background colours. */
  datatype Graphic = Graphic(ch: int, fg: Rgb, bg: Rgb)

  /** A tile record. `Void` stands for the tile the map code uses for empty
      space; its definition is not part of this model, so it is kept as a
      value distinct from every record `NewTile` builds. */
  datatype Tile =
    | Tile(walkable: bool, transparent: bool, dark: Graphic, light: Graphic)
    | Void
  {
    /** Void is neither walkable nor transparent. */
    predicate IsWalkable() {
      Tile? && walkable
    }

    predicate IsTransparent() {
      Tile? && transparent
    }
  }

  /** `new_tile`: keyword-only, so each field lands where it is named. */
  function NewTile(walkable: bool, transparent: bool, dark: Graphic, light: Graphic): (t: Tile)
    ensures t.Tile? && t.IsWalkable() == walkable && t.IsTransparent() == transparent
    ensures t.dark == dark && t.light == light
  {
    Tile(walkable, transparent, dark, light)
  }

  const White := Rgb(255, 255, 255)
  const Black := Rgb(0, 0, 0)

  function Floor(): (t: Tile)
    ensures t.IsWalkable() && t.IsTransparent()
    ensures t.dark.ch != t.light.ch
  {
    NewTile(true, true, Graphic(0x100004, White, Black), Graphic(0x100003, White, Black))
  }

  function Wall(): (t: Tile)
    ensures !t.IsWalkable() && !t.IsTransparent()
    ensures t.Tile? && t.dark.ch != t.light.ch
  {
    NewTile(false, false, Graphic(0x100006, White, Black), Graphic(0x100005, White, Black))
  }

  function DownStairs(): (t: Tile)
    ensures t.IsWalkable() && t.IsTransparent()
    ensures t.dark.ch == t.light.ch && t.dark != t.light
  {
    NewTile(true, true,
      Graphic(0x100007, Rgb(0, 0, 100), Rgb(50, 50, 150)),
      Graphic(0x100007, White, Rgb(200, 180, 50)))
  }

  /** The four tile kinds the map formats use are pairwise different, so an
      equality test on a tile tells which kind it is. */
  lemma TileKindsDistinct()
    ensures Floor() != Wall() && Floor() != DownStairs() && Wall() != DownStairs()
    ensures Floor() != Void && Wall() != Void && DownStairs() != Void
  {
  }
}

/** Tile records of the older tree at the repository root; the records it
    keeps are the same as the current tree's. */
module LegacyTiles {
  import Tiles

  function Floor(): (t: Tiles.Tile)
    ensures t.IsWalkable() && t.IsTransparent()
  {
    Tiles.NewTile(true, true,
      Tiles.Graphic(0x100004, Tiles.White, Tiles.Black),
      Tiles.Graphic(0x100003, Tiles.White, Tiles.Black))
  }

  function Wall(): (t: Tiles.Tile)
    ensures !t.IsWalkable() && !t.IsTransparent()
  {
    Tiles.NewTile(false, false,
      Tiles.Graphic(0x100006, Tiles.White, Tiles.Black),
      Tiles.Graphic(0x100005, Tiles.White, Tiles.Black))
  }

  function DownStairs(): (t: Tiles.Tile)
    ensures t.IsWalkable() && t.IsTransparent()
  {
    Tiles.NewTile(true, true,
      Tiles.Graphic(0x100007, Tiles.Rgb(0, 0, 100), Tiles.Rgb(50, 50, 150)),
      Tiles.Graphic(0x100007, Tiles.White, Tiles.Rgb(200, 180, 50)))
  }

  lemma SameAsCurrentTree()
    ensures Floor() == Tiles.Floor() && Wall() == Tiles.Wall() && DownStairs() == Tiles.DownStairs()
  {
  }
}
