/** The map text format: the loaders that turn a map string into a game map
    (the current tree's and the older tree's), and the map logger's
    converter that writes a game map back as text.

    '#' wall, '.' floor, '>' stairs, '@' the player, 'O' a ghost, 'T' the
    strong enemy, 'h' a health potion (the last four on floor), ' ' void. */
module MapText {
  import opened Wrappers
  import opened PyStr
  import opened Tiles
  import opened EntityFactories
  import LegacyEntityFactories
  import LegacyTiles
  import opened Core

  // ---------------------------------------------------------------- text

  /** `max(len(line) for line in lines)`, 0 for no lines. */
  function Width(lines: seq<string>): (w: nat)
    ensures forall y :: 0 <= y < |lines| ==> |lines[y]| <= w
    ensures |lines| > 0 ==> exists y :: 0 <= y < |lines| && |lines[y]| == w
  {
    if |lines| == 0 then 0
    else
      var w := Width(lines[1..]);
      assert forall y :: 1 <= y < |lines| ==> lines[y] == lines[1..][y - 1];
      if |lines[0]| >= w then |lines[0]| else w
  }

  /** The character at (x, y), a line being padded with spaces. */
  function CharAt(lines: seq<string>, x: int, y: int): char
    requires 0 <= y < |lines| && 0 <= x
  {
    if x < |lines[y]| then lines[y][x] else ' '
  }

  /** The cells of a scan that reached row `sy`, column `sx`. */
  predicate Processed(x: int, y: int, sx: int, sy: int) {
    y < sy || (y == sy && x < sx)
  }

  /** The last cell holding `ch` among the cells scanned before (sx, sy) in
      row-major order. */
  function LastIn(lines: seq<string>, width: nat, ch: char, sy: nat, sx: nat): (p: Option<Pos>)
    requires sy <= |lines| && sx <= width && (sx > 0 ==> sy < |lines|)
    decreases sy, sx
  {
    if sx > 0 then
      if CharAt(lines, sx - 1, sy) == ch then Some(Pos(sx - 1, sy)) else LastIn(lines, width, ch, sy, sx - 1)
    else if sy > 0 then LastIn(lines, width, ch, sy - 1, width)
    else None
  }

  /** `LastIn` names a scanned cell holding `ch`, and `None` means no
      scanned cell holds it. */
  lemma {:induction false} LastInSpec(lines: seq<string>, width: nat, ch: char, sy: nat, sx: nat)
    requires sy <= |lines| && sx <= width && (sx > 0 ==> sy < |lines|)
    ensures var p := LastIn(lines, width, ch, sy, sx);
      && (p.Some? ==> 0 <= p.value.x < width && 0 <= p.value.y < |lines|
                      && Processed(p.value.x, p.value.y, sx, sy) && CharAt(lines, p.value.x, p.value.y) == ch)
      && (p.None? ==> forall x, y :: 0 <= x < width && 0 <= y < |lines| && Processed(x, y, sx, sy)
                                     ==> CharAt(lines, x, y) != ch)
    decreases sy, sx
  {
    if sx > 0 {
      if CharAt(lines, sx - 1, sy) != ch {
        LastInSpec(lines, width, ch, sy, sx - 1);
      }
    } else if sy > 0 {
      LastInSpec(lines, width, ch, sy - 1, width);
    }
  }

  // ---------------------------------------------------------------- loading

  /** What differs between the two loaders: which tree's records and
      templates they use, and the tile a cell keeps when no branch writes
      it (void in the current tree, which fills the map with void first;
      the map's own initial tile in the older one). */
  datatype Format = Format(legacy: bool, useGraphic: Option<string>, fill: Tile)

  const SrcFormat := Format(false, None, Void)

  /** The tile a character gives; an unhandled character keeps the fill. */
  function CellTile(f: Format, c: char): (t: Tile)
    ensures c == '#' ==> !t.IsWalkable()
    ensures c in ".@OTh>" ==> t.IsWalkable()
    ensures c !in "#.@OTh>" ==> t == f.fill
  {
    if c == '#' then (if f.legacy then LegacyTiles.Wall() else Wall())
    else if c == '.' || c == '@' || c == 'O' || c == 'T' || c == 'h' then
      (if f.legacy then LegacyTiles.Floor() else Floor())
    else if c == '>' then (if f.legacy then LegacyTiles.DownStairs() else DownStairs())
    else f.fill
  }

  /** The template a character places a copy of. */
  function SpawnTemplate(f: Format, c: char): (t: Option<Template>)
    ensures t.Some? <==> c == 'O' || c == 'T' || c == 'h'
    ensures c == 'O' ==> t.value.name == "Ghost"
    ensures c == 'T' ==> t.value.name == (if f.legacy then "Crab" else "Red Ghost")
    ensures c == 'h' ==> t.value.name == "Health Potion" && t.value.kind.ItemKind?
  {
    if c == 'O' then Some(if f.legacy then LegacyEntityFactories.Ghost(f.useGraphic) else Ghost())
    else if c == 'T' then Some(if f.legacy then LegacyEntityFactories.Troll(f.useGraphic) else Troll())
    else if c == 'h' then Some(if f.legacy then LegacyEntityFactories.HealthPotion() else HealthPotion())
    else None
  }

  /** The player is on the map at `at`, or, when no '@' was met, still
      off any map. */
  predicate PlayerPlaced(gm: GameMap, player: Entity, at: Option<Pos>)
    reads gm, player
  {
    if at.Some? then player in gm.entities && player.x == at.value.x && player.y == at.value.y && player.parent == OnMap(gm)
    else player !in gm.entities && player.parent == Unattached
  }

  /** `e` is the copy a scanned 'O', 'T' or 'h' placed. */
  predicate Spawned(f: Format, gm: GameMap, e: Entity, lines: seq<string>, sy: int, sx: int)
    reads e
  {
    && 0 <= e.x < gm.width && 0 <= e.y < gm.height && gm.height == |lines|
    && Processed(e.x, e.y, sx, sy)
    && SpawnTemplate(f, CharAt(lines, e.x, e.y)).Some?
    && e.name == SpawnTemplate(f, CharAt(lines, e.x, e.y)).value.name
    && e.parent == OnMap(gm)
  }

  /** The tile array and the lines agree in size, and (sx, sy) is a scan
      position. */
  predicate Shape(gm: GameMap, lines: seq<string>, sy: nat, sx: nat) {
    && gm.tiles.Length0 == gm.width == Width(lines) && gm.tiles.Length1 == gm.height == |lines|
    && sy <= |lines| && sx <= gm.width && (sx > 0 ==> sy < |lines|)
  }

  /** Scanned cells hold their character's tile, the others the fill. */
  predicate TilesScanned(f: Format, gm: GameMap, lines: seq<string>, sy: nat, sx: nat)
    reads gm.tiles
  {
    && Shape(gm, lines, sy, sx)
    && forall x, y :: 0 <= x < gm.width && 0 <= y < gm.height ==>
         gm.tiles[x, y] == if Processed(x, y, sx, sy) then CellTile(f, CharAt(lines, x, y)) else f.fill
  }

  /** The stairs are the last scanned '>', the player is on the last
      scanned '@'. */
  predicate MarksScanned(gm: GameMap, player: Entity, lines: seq<string>, sy: nat, sx: nat)
    reads gm, player
  {
    && Shape(gm, lines, sy, sx)
    && gm.downstairs == LastIn(lines, gm.width, '>', sy, sx)
    && PlayerPlaced(gm, player, LastIn(lines, gm.width, '@', sy, sx))
  }

  /** The entities `es` are the copies of the scanned 'O', 'T' and 'h'
      cells, and each of those cells has at least one. */
  predicate CopiesIn(f: Format, gm: GameMap, lines: seq<string>, sy: nat, sx: nat, es: set<Entity>)
    reads es
  {
    && (forall e :: e in es ==> Spawned(f, gm, e, lines, sy, sx))
    && (forall x, y ::
          (0 <= x < gm.width && 0 <= y < gm.height && y < |lines| && Processed(x, y, sx, sy)
           && SpawnTemplate(f, CharAt(lines, x, y)).Some?) ==>
          exists e :: e in es && e.x == x && e.y == y)
  }

  /** Every entity but the player is the copy of a scanned 'O', 'T' or 'h',
      and each of those has at least one. */
  predicate SpawnsScanned(f: Format, gm: GameMap, player: Entity, lines: seq<string>, sy: nat, sx: nat)
    reads gm, gm.entities
  {
    CopiesIn(f, gm, lines, sy, sx, gm.entities - {player})
  }

  /** The state of a loader that has scanned the cells before (sx, sy). */
  predicate Scanned(f: Format, gm: GameMap, player: Entity, lines: seq<string>, sy: nat, sx: nat)
    reads gm, gm.entities, gm.tiles, player
  {
    && gm.Valid()
    && TilesScanned(f, gm, lines, sy, sx)
    && MarksScanned(gm, player, lines, sy, sx)
    && SpawnsScanned(f, gm, player, lines, sy, sx)
  }

  /** A loaded map: every cell scanned. Each cell carries its character's
      tile; the stairs are the last '>'; the player stands on the last '@'
      (or is not on the map without one); every 'O', 'T' and 'h' has its
      own copy of the template, and the map holds nothing else. */
  predicate Loaded(f: Format, gm: GameMap, player: Entity, lines: seq<string>)
    reads gm, gm.entities, gm.tiles, player
  {
    Scanned(f, gm, player, lines, |lines|, 0)
  }

  /** Scanning a cell that is neither '>' nor '@' leaves the marks. */
  lemma MarksStep(gm: GameMap, player: Entity, lines: seq<string>, x: nat, y: nat)
    requires MarksScanned(gm, player, lines, y, x) && y < |lines| && x < gm.width
    requires CharAt(lines, x, y) != '>' && CharAt(lines, x, y) != '@'
    ensures MarksScanned(gm, player, lines, y, x + 1)
  {
  }

  /** Scanning a cell that places nothing leaves the copies. */
  lemma SpawnsStep(f: Format, gm: GameMap, player: Entity, lines: seq<string>, x: nat, y: nat)
    requires SpawnsScanned(f, gm, player, lines, y, x) && y < |lines| && x < gm.width
    requires SpawnTemplate(f, CharAt(lines, x, y)).None?
    ensures SpawnsScanned(f, gm, player, lines, y, x + 1)
  {
    assert forall e :: e in gm.entities - {player} ==> Spawned(f, gm, e, lines, y, x);
  }

  /** Writing a cell's tile. */
  method WriteTile(f: Format, gm: GameMap, lines: seq<string>, x: nat, y: nat, t: Tile)
    requires TilesScanned(f, gm, lines, y, x) && y < |lines| && x < gm.width
    requires t == CellTile(f, CharAt(lines, x, y))
    modifies gm.tiles
    ensures TilesScanned(f, gm, lines, y, x + 1)
  {
    gm.tiles[x, y] := t;
  }

  /** A cell whose tile is the fill needs no write. */
  lemma KeepTile(f: Format, gm: GameMap, lines: seq<string>, x: nat, y: nat)
    requires TilesScanned(f, gm, lines, y, x) && y < |lines| && x < gm.width
    requires CellTile(f, CharAt(lines, x, y)) == f.fill
    ensures TilesScanned(f, gm, lines, y, x + 1)
  {
  }

  /** `place` of a player that is off any map, or already on this one. */
  method PutPlayer(gm: GameMap, player: Entity, x: nat, y: nat)
    requires player.parent == Unattached || (player.parent == OnMap(gm) && player in gm.entities)
    modifies gm`entities, player`x, player`y, player`parent
    ensures player.x == x && player.y == y && player.parent == OnMap(gm)
    ensures gm.entities == old(gm.entities) + {player}
  {
    var _ := player.Place(x, y, Some(gm));
  }

  /** '@': floor, and the player is placed there (and added to the set). */
  method PlayerCell(f: Format, gm: GameMap, player: Entity, lines: seq<string>, x: nat, y: nat)
    requires Scanned(f, gm, player, lines, y, x) && y < |lines| && x < gm.width && CharAt(lines, x, y) == '@'
    modifies gm.tiles, gm`entities, player`x, player`y, player`parent
    ensures Scanned(f, gm, player, lines, y, x + 1)
  {
    WriteTile(f, gm, lines, x, y, if f.legacy then LegacyTiles.Floor() else Floor());
    SpawnsStep(f, gm, player, lines, x, y);
    ghost var others := gm.entities - {player};
    PutPlayer(gm, player, x, y);
    gm.entities := gm.entities + {player};
    assert gm.entities - {player} == others;
  }

  /** '>': stairs, recorded as the stairs location. */
  method StairsCell(f: Format, gm: GameMap, player: Entity, lines: seq<string>, x: nat, y: nat)
    requires Scanned(f, gm, player, lines, y, x) && y < |lines| && x < gm.width && CharAt(lines, x, y) == '>'
    modifies gm.tiles, gm`downstairs
    ensures Scanned(f, gm, player, lines, y, x + 1)
  {
    WriteTile(f, gm, lines, x, y, if f.legacy then LegacyTiles.DownStairs() else DownStairs());
    SpawnsStep(f, gm, player, lines, x, y);
    gm.downstairs := Some(Pos(x, y));
  }

  /** 'O', 'T', 'h': floor, and a copy of the template placed there. */
  method SpawnCell(f: Format, gm: GameMap, player: Entity, lines: seq<string>, x: nat, y: nat)
    requires Scanned(f, gm, player, lines, y, x) && y < |lines| && x < gm.width
    requires SpawnTemplate(f, CharAt(lines, x, y)).Some?
    modifies gm.tiles, gm`entities
    ensures Scanned(f, gm, player, lines, y, x + 1)
  {
    WriteTile(f, gm, lines, x, y, if f.legacy then LegacyTiles.Floor() else Floor());
    MarksStep(gm, player, lines, x, y);
    AddCopy(f, gm, player, lines, x, y);
  }

  /** The copy of the template at a spawn cell whose tile and marks are
      already scanned joins the map. */
  method AddCopy(f: Format, gm: GameMap, player: Entity, lines: seq<string>, x: nat, y: nat)
    requires gm.Valid() && TilesScanned(f, gm, lines, y, x + 1) && MarksScanned(gm, player, lines, y, x + 1)
    requires SpawnsScanned(f, gm, player, lines, y, x) && y < |lines| && x < gm.width
    requires SpawnTemplate(f, CharAt(lines, x, y)).Some?
    modifies gm`entities
    ensures Scanned(f, gm, player, lines, y, x + 1)
  {
    ghost var others := gm.entities - {player};
    var e := Instantiate(SpawnTemplate(f, CharAt(lines, x, y)).value, gm, x, y);
    CopiesGrow(f, gm, lines, x, y, others, e);
    assert gm.entities - {player} == others + {e};
  }

  /** The copy made at the scanned spawn cell joins the copies. */
  lemma CopiesGrow(f: Format, gm: GameMap, lines: seq<string>, x: nat, y: nat, es: set<Entity>, e: Entity)
    requires CopiesIn(f, gm, lines, y, x, es) && y < |lines| && x < gm.width && gm.height == |lines|
    requires e.x == x && e.y == y && e.parent == OnMap(gm)
    requires SpawnTemplate(f, CharAt(lines, x, y)).Some? && e.name == SpawnTemplate(f, CharAt(lines, x, y)).value.name
    ensures CopiesIn(f, gm, lines, y, x + 1, es + {e})
  {
    assert Spawned(f, gm, e, lines, y, x + 1);
  }

  /** One cell of the scan, as the loop bodies of both loaders handle it. */
  method ScanCell(f: Format, gm: GameMap, player: Entity, lines: seq<string>, x: nat, y: nat)
    requires Scanned(f, gm, player, lines, y, x) && y < |lines| && x < gm.width
    requires f.legacy || f.fill == Void
    modifies gm.tiles, gm`entities, gm`downstairs, player`x, player`y, player`parent
    ensures Scanned(f, gm, player, lines, y, x + 1)
  {
    var c := CharAt(lines, x, y);
    if c == '#' {
      WriteTile(f, gm, lines, x, y, if f.legacy then LegacyTiles.Wall() else Wall());
      MarksStep(gm, player, lines, x, y);
      SpawnsStep(f, gm, player, lines, x, y);
    } else if c == '.' {
      WriteTile(f, gm, lines, x, y, if f.legacy then LegacyTiles.Floor() else Floor());
      MarksStep(gm, player, lines, x, y);
      SpawnsStep(f, gm, player, lines, x, y);
    } else if c == '@' {
      PlayerCell(f, gm, player, lines, x, y);
    } else if c == '>' {
      StairsCell(f, gm, player, lines, x, y);
    } else if c == 'O' || c == 'T' || c == 'h' {
      SpawnCell(f, gm, player, lines, x, y);
    } else if c == ' ' && !f.legacy {
      WriteTile(f, gm, lines, x, y, Void);
      MarksStep(gm, player, lines, x, y);
      SpawnsStep(f, gm, player, lines, x, y);
    } else {
      KeepTile(f, gm, lines, x, y);
      MarksStep(gm, player, lines, x, y);
      SpawnsStep(f, gm, player, lines, x, y);
    }
  }

  /** A padding cell (past the end of its line) needs no write. */
  lemma PadCell(f: Format, gm: GameMap, player: Entity, lines: seq<string>, x: nat, y: nat)
    requires Scanned(f, gm, player, lines, y, x) && y < |lines| && |lines[y]| <= x < gm.width
    ensures Scanned(f, gm, player, lines, y, x + 1)
  {
  }

  lemma {:induction false} PadRow(f: Format, gm: GameMap, player: Entity, lines: seq<string>, x: nat, y: nat)
    requires gm.Valid()
    requires Scanned(f, gm, player, lines, y, x) && y < |lines| && |lines[y]| <= x <= gm.width
    ensures Scanned(f, gm, player, lines, y, gm.width)
    decreases gm.width - x
  {
    if x < gm.width {
      PadCell(f, gm, player, lines, x, y);
      PadRow(f, gm, player, lines, x + 1, y);
    }
  }

  /** The end of a row is the start of the next. */
  lemma NextRow(f: Format, gm: GameMap, player: Entity, lines: seq<string>, y: nat)
    requires gm.Valid()
    requires Scanned(f, gm, player, lines, y, gm.width) && y < |lines|
    ensures Scanned(f, gm, player, lines, y + 1, 0)
  {
    assert LastIn(lines, gm.width, '>', y + 1, 0) == LastIn(lines, gm.width, '>', y, gm.width);
    assert LastIn(lines, gm.width, '@', y + 1, 0) == LastIn(lines, gm.width, '@', y, gm.width);
    assert forall x, y' :: 0 <= x < gm.width ==> (Processed(x, y', gm.width, y) <==> Processed(x, y', 0, y + 1));
  }

  /** `load_custom_map_from_string` of the current tree: the lines are the
      string split on '\n' as they are; every cell of the longest line's
      width is visited, a short line reading as spaces. */
  method LoadCustomMapFromString(mapString: string, engine: Engine) returns (gm: GameMap)
    requires engine.player.parent == Unattached
    modifies engine.player`x, engine.player`y, engine.player`parent
    ensures fresh(gm) && fresh(gm.visible) && fresh(gm.explored) && gm.engine == engine
    ensures Loaded(SrcFormat, gm, engine.player, Split(mapString, '\n')) && gm.Unseen()
  {
    var lines := Split(mapString, '\n');
    var width := Width(lines);
    gm := new GameMap(engine, width, |lines|, {}, Void);
    var player := engine.player;
    for y := 0 to |lines|
      invariant Scanned(SrcFormat, gm, player, lines, y, 0)
      invariant gm.Unseen()
    {
      ScanRow(SrcFormat, gm, player, lines, y, width);
    }
  }

  /** One row of a scan: the cells before `upto` are visited one by one and
      the rest of the row, past the end of its line, is padding. */
  method ScanRow(f: Format, gm: GameMap, player: Entity, lines: seq<string>, y: nat, upto: nat)
    requires Scanned(f, gm, player, lines, y, 0) && y < |lines| && |lines[y]| <= upto <= gm.width
    requires f.legacy || f.fill == Void
    modifies gm.tiles, gm`entities, gm`downstairs, player`x, player`y, player`parent
    ensures Scanned(f, gm, player, lines, y + 1, 0)
  {
    for x := 0 to upto
      invariant Scanned(f, gm, player, lines, y, x)
    {
      ScanCell(f, gm, player, lines, x, y);
    }
    PadRow(f, gm, player, lines, upto, y);
    NextRow(f, gm, player, lines, y);
  }

  /** `load_custom_map` of the current tree: the string loader on the
      file's contents (reading the file is not part of this model). */
  method LoadCustomMap(contents: string, engine: Engine) returns (gm: GameMap)
    requires engine.player.parent == Unattached
    modifies engine.player`x, engine.player`y, engine.player`parent
    ensures fresh(gm) && fresh(gm.visible) && fresh(gm.explored) && gm.engine == engine
    ensures Loaded(SrcFormat, gm, engine.player, Split(contents, '\n')) && gm.Unseen()
  {
    gm := LoadCustomMapFromString(contents, engine);
  }

  /** The older loaders' scan: only the characters a line has are visited,
      so the cells past its end keep the map's initial tile. */
  method LegacyScan(lines: seq<string>, engine: Engine, useGraphic: Option<string>, fill: Tile)
    returns (gm: GameMap)
    requires engine.player.parent == Unattached
    modifies engine.player`x, engine.player`y, engine.player`parent
    ensures fresh(gm) && fresh(gm.visible) && fresh(gm.explored) && gm.engine == engine
    ensures Loaded(Format(true, useGraphic, fill), gm, engine.player, lines) && gm.Unseen()
  {
    var f := Format(true, useGraphic, fill);
    var width := Width(lines);
    gm := new GameMap(engine, width, |lines|, {}, fill);
    var player := engine.player;
    for y := 0 to |lines|
      invariant Scanned(f, gm, player, lines, y, 0)
      invariant gm.Unseen()
    {
      ScanRow(f, gm, player, lines, y, |lines[y]|);
    }
  }

  /** `load_custom_map_from_string` of the older tree: the whole string is
      stripped of surrounding whitespace first. `fill` is the tile the
      map class starts every cell with, which is not part of this model. */
  method LegacyLoadFromString(mapString: string, engine: Engine, useGraphic: Option<string>, fill: Tile)
    returns (gm: GameMap)
    requires engine.player.parent == Unattached
    modifies engine.player`x, engine.player`y, engine.player`parent
    ensures fresh(gm) && fresh(gm.visible) && fresh(gm.explored) && gm.engine == engine
    ensures Loaded(Format(true, useGraphic, fill), gm, engine.player, Split(Strip(mapString), '\n'))
    ensures gm.Unseen()
  {
    gm := LegacyScan(Split(Strip(mapString), '\n'), engine, useGraphic, fill);
  }

  /** The lines iterating over a file yields, each without its '\n': a
      final newline ends the last line rather than starting an empty one. */
  function FileLines(contents: string): (lines: seq<string>)
    ensures forall k :: 0 <= k < |lines| ==> '\n' !in lines[k]
    ensures contents != "" ==> Join(lines, '\n') + (if contents[|contents| - 1] == '\n' then "\n" else "") == contents
    ensures lines == [] <==> contents == ""
  {
    var parts := Split(contents, '\n');
    JoinSplit(contents, '\n');
    if |parts| > 1 && parts[|parts| - 1] == "" then
      JoinAppend(parts[..|parts| - 1], [""], '\n');
      assert parts == parts[..|parts| - 1] + [""];
      parts[..|parts| - 1]
    else if contents == "" then []
    else
      assert |parts| == 1 ==> parts[0] == Join(parts, '\n');
      LastPieceLastChar(parts);
      parts
  }

  lemma {:induction false} LastPieceLastChar(parts: seq<string>)
    requires |parts| > 0 && parts[|parts| - 1] != ""
    ensures var s := Join(parts, '\n'); |s| > 0 && s[|s| - 1] == parts[|parts| - 1][|parts[|parts| - 1]| - 1]
  {
    if |parts| > 1 {
      var rest := parts[1..];
      assert rest[|rest| - 1] == parts[|parts| - 1];
      LastPieceLastChar(rest);
      var tail := Join(rest, '\n');
      assert Join(parts, '\n') == parts[0] + ['\n'] + tail;
    }
  }

  /** `load_custom_map` of the older tree: the file's lines (the file read
      is not part of this model). An empty file has no lines, and `max` of
      no lengths raises `ValueError`: `None`. */
  method LegacyLoadCustomMap(contents: string, engine: Engine, useGraphic: Option<string>, fill: Tile)
    returns (gm: Option<GameMap>)
    requires engine.player.parent == Unattached
    modifies engine.player`x, engine.player`y, engine.player`parent
    ensures gm.None? <==> contents == ""
    ensures gm.Some? ==>
      && fresh(gm.value) && fresh(gm.value.visible) && fresh(gm.value.explored) && gm.value.engine == engine
      && Loaded(Format(true, useGraphic, fill), gm.value, engine.player, FileLines(contents))
      && gm.value.Unseen()
  {
    var lines := FileLines(contents);
    if lines == [] {
      return None;
    }
    var m := LegacyScan(lines, engine, useGraphic, fill);
    gm := Some(m);
  }

  // ---------------------------------------------------------------- logging

  /** `_get_entity_char_at`'s name table. */
  function NameChar(name: string): (c: Option<char>)
    ensures c.Some? ==> c.value in "@OTh"
  {
    if name == "Player" then Some('@')
    else if name == "Ghost" then Some('O')
    else if name == "Red Ghost" then Some('T')
    else if name == "Health Potion" then Some('h')
    else None
  }

  /** `_convert_map_to_string`'s tile table. */
  function TileChar(t: Tile): (c: char)
    ensures c in "#.> "
  {
    if t == Wall() then '#'
    else if t == Floor() then '.'
    else if t == DownStairs() then '>'
    else ' '
  }

  /** The converter's table is the loader's read backwards: each of the
      eight characters loads as a tile or template that writes it back. */
  lemma TablesInverse()
    ensures forall c :: c in "#.> " ==> TileChar(CellTile(SrcFormat, c)) == c
    ensures forall c :: c in "OTh" ==> NameChar(SpawnTemplate(SrcFormat, c).value.name) == Some(c)
    ensures NameChar(Player().name) == Some('@')
  {
    TileKindsDistinct();
  }

  /** Some entity with a known name stands at (x, y). */
  predicate NamedAt(gm: GameMap, x: int, y: int)
    reads gm, gm.entities
  {
    exists e :: e in gm.entities && e.x == x && e.y == y && NameChar(e.name).Some?
  }

  /** `c` is what the converter may write at (x, y): the character of a
      named entity there (whichever the set yields first), else the tile's. */
  predicate CellFits(gm: GameMap, x: int, y: int, c: char)
    requires gm.Valid() && 0 <= x < gm.width && 0 <= y < gm.height
    reads gm, gm.entities, gm.tiles
  {
    if NamedAt(gm, x, y) then exists e :: e in gm.entities && e.x == x && e.y == y && NameChar(e.name) == Some(c)
    else c == TileChar(gm.tiles[x, y])
  }

  /** `_get_entity_char_at`: searches the map's entities at (x, y) for one
      whose name has a character; other names do not stop the search. */
  method EntityCharAt(gm: GameMap, x: int, y: int) returns (c: Option<char>)
    ensures c.Some? ==> exists e :: e in gm.entities && e.x == x && e.y == y && NameChar(e.name) == c
    ensures c.None? ==> !NamedAt(gm, x, y)
  {
    var pending := gm.entities;
    while pending != {}
      invariant pending <= gm.entities
      invariant forall e :: e in gm.entities && e.x == x && e.y == y && NameChar(e.name).Some? ==> e in pending
      decreases |pending|
    {
      var e :| e in pending;
      if e.x == x && e.y == y {
        var ch := NameChar(e.name);
        if ch.Some? {
          return ch;
        }
      }
      pending := pending - {e};
    }
    return None;
  }

  predicate RowFits(gm: GameMap, y: int, row: string)
    requires gm.Valid() && 0 <= y < gm.height
    reads gm, gm.entities, gm.tiles
  {
    |row| == gm.width && '\n' !in row && forall x :: 0 <= x < gm.width ==> CellFits(gm, x, y, row[x])
  }

  /** `s` is a text of the map: `height` rows of `width` characters joined by
      '\n', with no newline at the end, each character fitting its cell. */
  predicate IsMapText(gm: GameMap, s: string)
    requires gm.Valid()
    reads gm, gm.entities, gm.tiles
  {
    && (gm.height == 0 ==> s == "")
    && (gm.height > 0 ==>
          var rows := Split(s, '\n');
          |rows| == gm.height && forall y :: 0 <= y < gm.height ==> RowFits(gm, y, rows[y]))
  }

  /** One row of `_convert_map_to_string`. */
  method ConvertRow(gm: GameMap, y: int) returns (line: string)
    requires gm.Valid() && 0 <= y < gm.height
    ensures RowFits(gm, y, line)
  {
    line := [];
    for x := 0 to gm.width
      invariant |line| == x && '\n' !in line
      invariant forall i :: 0 <= i < x ==> CellFits(gm, i, y, line[i])
    {
      var ec := EntityCharAt(gm, x, y);
      var c;
      if ec.Some? {
        c := ec.value;
      } else {
        var tile := gm.tiles[x, y];
        if tile == Wall() {
          c := '#';
        } else if tile == Floor() {
          c := '.';
        } else if tile == DownStairs() {
          c := '>';
        } else {
          c := ' ';
        }
      }
      line := line + [c];
    }
  }

  /** `_convert_map_to_string`: the rows joined by '\n'. */
  method ConvertMapToString(gm: GameMap) returns (s: string)
    requires gm.Valid()
    ensures IsMapText(gm, s)
  {
    var lines: seq<string> := [];
    for y := 0 to gm.height
      invariant |lines| == y
      invariant forall j :: 0 <= j < y ==> RowFits(gm, j, lines[j])
    {
      var line := ConvertRow(gm, y);
      lines := lines + [line];
    }
    s := Join(lines, '\n');
    if |lines| > 0 {
      SplitJoin(lines, '\n');
    }
  }

  // ---------------------------------------------------------------- round trip

  /** A map text the converter can give back unchanged: every line as long
      as the longest, only the eight format characters, at most one '@'. */
  predicate Canonical(lines: seq<string>) {
    && |lines| > 0
    && (forall y :: 0 <= y < |lines| ==> |lines[y]| == Width(lines))
    && (forall y, x :: 0 <= y < |lines| && 0 <= x < |lines[y]| ==> lines[y][x] in "#.>@OTh ")
    && (forall y1, x1, y2, x2 ::
          (0 <= y1 < |lines| && 0 <= x1 < |lines[y1]| && 0 <= y2 < |lines| && 0 <= x2 < |lines[y2]|
           && lines[y1][x1] == '@' && lines[y2][x2] == '@') ==> y1 == y2 && x1 == x2)
  }

  /** On a loaded canonical map the only character that fits a cell is the
      one the text has there. */
  lemma CellRoundTrip(gm: GameMap, player: Entity, lines: seq<string>, x: int, y: int, c: char)
    requires Loaded(SrcFormat, gm, player, lines) && player.name == "Player" && Canonical(lines)
    requires 0 <= x < gm.width && 0 <= y < gm.height && CellFits(gm, x, y, c)
    ensures c == lines[y][x]
  {
    var ch := lines[y][x];
    assert CharAt(lines, x, y) == ch;
    TablesInverse();
    LastInSpec(lines, gm.width, '@', |lines|, 0);
    var at := LastIn(lines, gm.width, '@', |lines|, 0);
    assert player in gm.entities ==> at.Some? && CharAt(lines, player.x, player.y) == '@';
    // Every entity at (x, y) other than the player is the copy for `ch`.
    forall e | e in gm.entities && e != player && e.x == x && e.y == y
      ensures SpawnTemplate(SrcFormat, ch).Some? && e.name == SpawnTemplate(SrcFormat, ch).value.name
    {
      assert e in gm.entities - {player};
    }
    if ch == '@' {
      assert at == Some(Pos(x, y));
      assert NamedAt(gm, x, y);
    } else if ch == 'O' || ch == 'T' || ch == 'h' {
      var e :| e in gm.entities - {player} && e.x == x && e.y == y;
      assert NamedAt(gm, x, y);
    } else {
      assert !NamedAt(gm, x, y);
      assert ch in "#.> ";
    }
  }

  /** Loading a canonical map text and converting the map back gives the
      same text. */
  lemma MapRoundTrip(gm: GameMap, player: Entity, text: string, s: string)
    requires Loaded(SrcFormat, gm, player, Split(text, '\n')) && player.name == "Player"
    requires Canonical(Split(text, '\n'))
    requires IsMapText(gm, s)
    ensures s == text
  {
    var lines := Split(text, '\n');
    var rows := Split(s, '\n');
    assert |rows| == |lines|;
    forall y | 0 <= y < |lines|
      ensures rows[y] == lines[y]
    {
      assert RowFits(gm, y, rows[y]);
      forall x | 0 <= x < |lines[y]|
        ensures rows[y][x] == lines[y][x]
      {
        CellRoundTrip(gm, player, lines, x, y, rows[y][x]);
      }
    }
    assert rows == lines;
    JoinSplit(text, '\n');
    JoinSplit(s, '\n');
  }
}
