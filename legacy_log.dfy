/** The older tree's engine bookkeeping that the src tree dropped: choosing
    the next `game_N` id from the log folders, and the text of the game-state
    log written after every action. The file system is not modelled: the
    folder listing is an input and the log text is returned. */
module LegacyEngineLog {
  import opened Wrappers
  import opened PyStr
  import opened Core

  // ---------------------------------------------------------------- game ids

  const GamePrefix := "game_"

  /** The folders `get_next_game_id` considers: directories whose name starts
      with "game_". A listing entry is a name and whether it is a directory. */
  function GameFolders(entries: seq<(string, bool)>): (r: seq<string>)
    ensures forall f :: f in r ==> StartsWith(f, GamePrefix)
    ensures forall e :: e in entries && e.1 && StartsWith(e.0, GamePrefix) ==> e.0 in r
  {
    if |entries| == 0 then []
    else
      var rest := GameFolders(entries[1..]);
      if entries[0].1 && StartsWith(entries[0].0, GamePrefix) then [entries[0].0] + rest else rest
  }

  /** The number a folder stands for: its name with every "game_" removed,
      read as an integer; `None` where `int()` raises `ValueError`. */
  function FolderNumber(folder: string): Option<int> {
    ParseInt(RemoveAll(folder, GamePrefix))
  }

  /** The numbers of the folders that parse, in listing order. */
  function FolderNumbers(folders: seq<string>): (r: seq<int>)
    ensures |r| <= |folders|
    ensures forall f :: f in folders && FolderNumber(f).Some? ==> FolderNumber(f).value in r
    ensures forall n :: n in r ==> exists f :: f in folders && FolderNumber(f) == Some(n)
  {
    if |folders| == 0 then []
    else
      var rest := FolderNumbers(folders[1..]);
      assert forall f :: f in folders[1..] ==> f in folders;
      match FolderNumber(folders[0])
      case Some(n) => [n] + rest
      case None => rest
  }

  function MaxOf(s: seq<int>): (m: int)
    requires |s| > 0
    ensures m in s && forall n :: n in s ==> n <= m
  {
    if |s| == 1 then s[0]
    else
      var rest := MaxOf(s[1..]);
      assert forall n :: n in s ==> n == s[0] || n in s[1..];
      if s[0] >= rest then s[0] else rest
  }

  /** The id `get_next_game_id` picks: one more than the largest folder
      number, or 1 when there is none. */
  function NextGameIdOf(entries: seq<(string, bool)>): int {
    var nums := FolderNumbers(GameFolders(entries));
    if |GameFolders(entries)| == 0 then 1
    else if |nums| == 0 then 1
    else MaxOf(nums) + 1
  }

  /** The id is fresh: it is larger than the number of every game folder that
      parses, and it is 1 when no folder parses. */
  lemma NextGameIdFresh(entries: seq<(string, bool)>)
    ensures forall e :: e in entries && e.1 && StartsWith(e.0, GamePrefix) && FolderNumber(e.0).Some? ==>
      FolderNumber(e.0).value < NextGameIdOf(entries)
    ensures (forall e :: e in entries && e.1 && StartsWith(e.0, GamePrefix) ==> FolderNumber(e.0).None?) ==>
      NextGameIdOf(entries) == 1
  {
    var folders := GameFolders(entries);
    var nums := FolderNumbers(folders);
    if |nums| > 0 {
      var m := MaxOf(nums);
      var n :| n in nums;
      var f :| f in folders && FolderNumber(f) == Some(n);
      assert exists e :: e in entries && e.1 && StartsWith(e.0, GamePrefix) && e.0 == f by {
        GameFoldersFromEntries(entries, f);
      }
    }
  }

  /** Every game folder comes from a directory entry of the listing. */
  lemma {:induction false} GameFoldersFromEntries(entries: seq<(string, bool)>, f: string)
    requires f in GameFolders(entries)
    ensures exists e :: e in entries && e.1 && StartsWith(e.0, GamePrefix) && e.0 == f
  {
    if entries[0].1 && StartsWith(entries[0].0, GamePrefix) && entries[0].0 == f {
      assert entries[0] in entries;
    } else {
      GameFoldersFromEntries(entries[1..], f);
      var e :| e in entries[1..] && e.1 && StartsWith(e.0, GamePrefix) && e.0 == f;
      assert e in entries;
    }
  }

  /** `get_next_game_id` over a directory listing: collect the game folders,
      parse each (skipping the ones that do not parse) and keep the maximum. */
  method NextGameId(entries: seq<(string, bool)>) returns (id: int)
    ensures id == NextGameIdOf(entries)
  {
    var folders := CollectGameFolders(entries);
    if |folders| == 0 {
      return 1;
    }
    var numbers := ParseFolderNumbers(folders);
    if |numbers| == 0 {
      return 1;
    }
    var best := MaxNumber(numbers);
    id := best + 1;
  }

  /** The list comprehension of `get_next_game_id`. */
  method CollectGameFolders(entries: seq<(string, bool)>) returns (folders: seq<string>)
    ensures folders == GameFolders(entries)
  {
    folders := [];
    var i := |entries|;
    while i > 0
      invariant 0 <= i <= |entries|
      invariant folders == GameFolders(entries[i..])
    {
      i := i - 1;
      assert entries[i..][1..] == entries[i + 1..];
      if entries[i].1 && StartsWith(entries[i].0, GamePrefix) {
        folders := [entries[i].0] + folders;
      }
    }
  }

  /** The parsing loop of `get_next_game_id`: a `ValueError` skips the folder. */
  method ParseFolderNumbers(folders: seq<string>) returns (numbers: seq<int>)
    ensures numbers == FolderNumbers(folders)
  {
    numbers := [];
    var j := |folders|;
    while j > 0
      invariant 0 <= j <= |folders|
      invariant numbers == FolderNumbers(folders[j..])
    {
      j := j - 1;
      assert folders[j..][1..] == folders[j + 1..];
      var num := FolderNumber(folders[j]);
      if num.Some? {
        numbers := [num.value] + numbers;
      }
    }
  }

  /** `max(game_numbers)`. */
  method MaxNumber(numbers: seq<int>) returns (best: int)
    requires |numbers| > 0
    ensures best == MaxOf(numbers)
  {
    best := numbers[0];
    var k := 1;
    while k < |numbers|
      invariant 1 <= k <= |numbers|
      invariant best == MaxOf(numbers[..k])
    {
      MaxOfSnoc(numbers[..k], numbers[k]);
      assert numbers[..k + 1] == numbers[..k] + [numbers[k]];
      if numbers[k] > best {
        best := numbers[k];
      }
      k := k + 1;
    }
    assert numbers[..|numbers|] == numbers;
  }

  /** The maximum of a list with one more element at the end. */
  lemma MaxOfSnoc(s: seq<int>, x: int)
    requires |s| > 0
    ensures MaxOf(s + [x]) == if x > MaxOf(s) then x else MaxOf(s)
  {
    var m := MaxOf(s + [x]);
    assert forall n :: n in s ==> n in s + [x];
    assert x in s + [x];
  }

  // ---------------------------------------------------------------- state log

  /** One line of the step buffer: "- text", with " (N times)" when the
      message repeated. */
  function FormatStep(m: StepMessage): (line: string)
    ensures StartsWith(line, "- " + m.text)
    ensures m.count > 1 <==> |line| > |"- " + m.text|
  {
    if m.count > 1 then "- " + m.text + " (" + IntToString(m.count) + " times)"
    else "- " + m.text
  }

  function FormatSteps(steps: seq<StepMessage>): (lines: seq<string>)
    ensures |lines| == |steps|
    ensures forall i :: 0 <= i < |steps| ==> lines[i] == FormatStep(steps[i])
  {
    if |steps| == 0 then [] else [FormatStep(steps[0])] + FormatSteps(steps[1..])
  }

  /** The formatting loop of `log_game_state`. */
  method FormatStepMessages(steps: seq<StepMessage>) returns (lines: seq<string>)
    ensures lines == FormatSteps(steps)
  {
    lines := [];
    for i := 0 to |steps|
      invariant lines == FormatSteps(steps[..i])
    {
      assert steps[..i + 1] == steps[..i] + [steps[i]];
      lines := lines + [FormatStep(steps[i])];
    }
    assert steps[..|steps|] == steps;
  }

  const DoneLine := "- Game Done Congratulation (Press 'q' to quit)"

  /** The message block: the done line once the game is done, else the
      formatted buffer joined by newlines (empty when the buffer is). */
  function MessageBlock(steps: seq<StepMessage>, done: bool): string {
    if done then DoneLine else Join(FormatSteps(steps), '\n')
  }

  /** The lines the message block occupies: the done line, one empty line
      for an empty buffer, else one line per buffered message. */
  function BlockLines(steps: seq<StepMessage>, done: bool): (lines: seq<string>)
    ensures |lines| > 0
    ensures Join(lines, '\n') == MessageBlock(steps, done)
  {
    if done then [DoneLine] else if steps == [] then [""] else FormatSteps(steps)
  }

  function HeadLines(level: int, step: int): seq<string> {
    ["current level: " + IntToString(level), "step: " + IntToString(step), "message log:"]
  }

  function FootLines(tile: string, hp: int, maxHp: int): seq<string> {
    ["", "player standing on: " + tile, "player's health: " + IntToString(hp) + "/" + IntToString(maxHp), ""]
  }

  /** The lines of the log, in order; the text ends with a newline, so the
      last line is empty. */
  function StateLines(level: int, step: int, steps: seq<StepMessage>, done: bool,
                      tile: string, hp: int, maxHp: int): seq<string>
  {
    HeadLines(level, step) + BlockLines(steps, done) + FootLines(tile, hp, maxHp)
  }

  /** The whole log text for a floor, a step count, the step buffer, the done
      flag, the tile description and the player's hp: the template's lines
      joined by newlines. */
  function StateText(level: int, step: int, steps: seq<StepMessage>, done: bool,
                     tile: string, hp: int, maxHp: int): string
  {
    Join(StateLines(level, step, steps, done, tile, hp, maxHp), '\n')
  }

  /** The message block sits in the log as one piece between the header and
      the footer, whatever newlines the messages themselves hold. */
  lemma StateTextHoldsBlock(level: int, step: int, steps: seq<StepMessage>, done: bool,
                            tile: string, hp: int, maxHp: int)
    ensures StateText(level, step, steps, done, tile, hp, maxHp)
         == Join(HeadLines(level, step), '\n') + "\n" + MessageBlock(steps, done) + "\n"
            + Join(FootLines(tile, hp, maxHp), '\n')
  {
    var head, block, foot := HeadLines(level, step), BlockLines(steps, done), FootLines(tile, hp, maxHp);
    JoinAppend(head + block, foot, '\n');
    JoinAppend(head, block, '\n');
  }

  /** No line holds a newline. */
  predicate NoNewlines(lines: seq<string>) {
    forall k :: 0 <= k < |lines| ==> '\n' !in lines[k]
  }

  /** When no message text and not the tile description holds a newline,
      splitting the log at newlines gives back exactly its lines: the level,
      the step, the header, one line per buffered message (or the done line),
      then the tile and the health. */
  lemma StateTextLinesRoundTrip(level: int, step: int, steps: seq<StepMessage>, done: bool,
                                tile: string, hp: int, maxHp: int)
    requires forall i :: 0 <= i < |steps| ==> '\n' !in steps[i].text
    requires '\n' !in tile
    ensures Split(StateText(level, step, steps, done, tile, hp, maxHp), '\n')
         == StateLines(level, step, steps, done, tile, hp, maxHp)
  {
    var head, block, foot := HeadLines(level, step), BlockLines(steps, done), FootLines(tile, hp, maxHp);
    HeadNoNewlines(level, step);
    BlockNoNewlines(steps, done);
    FootNoNewlines(tile, hp, maxHp);
    assert NoNewlines(head + block + foot);
    SplitJoin(head + block + foot, '\n');
  }

  lemma HeadNoNewlines(level: int, step: int)
    ensures NoNewlines(HeadLines(level, step))
  {
    IntToStringNoNewline(level);
    IntToStringNoNewline(step);
  }

  lemma FootNoNewlines(tile: string, hp: int, maxHp: int)
    requires '\n' !in tile
    ensures NoNewlines(FootLines(tile, hp, maxHp))
  {
    IntToStringNoNewline(hp);
    IntToStringNoNewline(maxHp);
  }

  lemma BlockNoNewlines(steps: seq<StepMessage>, done: bool)
    requires forall i :: 0 <= i < |steps| ==> '\n' !in steps[i].text
    ensures NoNewlines(BlockLines(steps, done))
  {
    if done {
      DoneLineNoNewline();
    } else if steps != [] {
      forall i | 0 <= i < |steps|
        ensures '\n' !in FormatStep(steps[i])
      {
        FormatStepNoNewline(steps[i]);
      }
    }
  }

  lemma DoneLineNoNewline()
    ensures '\n' !in DoneLine
  {
    assert '\n' !in "- Game " && '\n' !in "Done Congr";
    assert '\n' !in "atulation " && '\n' !in "(Press 'q'" && '\n' !in " to quit)";
  }

  lemma FormatStepNoNewline(m: StepMessage)
    requires '\n' !in m.text
    ensures '\n' !in FormatStep(m)
  {
    var lead, open, close := "- ", " (", " times)";
    assert '\n' !in lead && '\n' !in open && '\n' !in close;
    if m.count > 1 {
      IntToStringNoNewline(m.count);
      assert FormatStep(m) == lead + m.text + open + IntToString(m.count) + close;
    }
  }

  lemma IntToStringNoNewline(n: int)
    ensures '\n' !in IntToString(n)
  {
    var d := NatToString(if n < 0 then -n else n);
    assert forall i :: 0 <= i < |d| ==> IsDigit(d[i]);
  }

  /** `tile` is what `get_player_tile_type` may answer for the engine. */
  predicate TileFits(engine: Engine, tile: string)
    requires engine.gameMap != null
    reads engine, engine.player, engine.gameMap, engine.gameMap.entities
  {
    && (engine.gameDone ==> tile == "-")
    && (!engine.gameDone && engine.OnStairs() ==> tile == "ladder/stairs")
    && (!engine.gameDone && !engine.OnStairs() && engine.ItemUnderfoot() ==>
          exists e :: e in engine.gameMap.entities && ItemAt(e, engine.player.x, engine.player.y)
                      && tile == ItemDescription(e.name))
    && (!engine.gameDone && !engine.OnStairs() && !engine.ItemUnderfoot() ==> tile == "floor")
  }

  /** `content` is what `log_game_state` writes for the engine as it is:
      nothing without a world, else the log text for the current floor, step,
      buffer, tile under the player and hp. */
  ghost predicate IsStateLog(engine: Engine, content: Option<string>)
    requires engine.gameMap != null && engine.player.fighter != null
    reads engine, engine.player, engine.player.fighter, engine.gameMap, engine.gameMap.entities
  {
    match engine.currentFloor
    case None => content == None
    case Some(level) =>
      exists tile :: TileFits(engine, tile)
        && content == Some(StateText(level, engine.stepCounter, engine.stepMessages, engine.gameDone,
                                     tile, engine.player.fighter.hp, engine.player.fighter.maxHp))
  }

  /** `log_game_state`, returning the text it would write. */
  method LogGameState(engine: Engine) returns (content: Option<string>)
    requires engine.gameMap != null && engine.player.fighter != null
    ensures IsStateLog(engine, content)
  {
    if engine.currentFloor.None? {
      return None;
    }
    var block := FormatStepMessages(engine.stepMessages);
    if block == [] {
      block := [""];
    }
    if engine.gameDone {
      block := [DoneLine];
    }
    var tile := engine.PlayerTileType();
    var f := engine.player.fighter;
    content := Some(Join(HeadLines(engine.currentFloor.value, engine.stepCounter) + block
                         + FootLines(tile, f.hp, f.maxHp), '\n'));
    assert TileFits(engine, tile);
  }
}
