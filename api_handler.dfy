/** The API side of the game loop: the action queue is drained one token at
    a time, key tokens are fed to the current handler, and a restart token
    starts a fresh game and ends the drain. What a handler does with a key is
    modelled in `Handlers`; here it is an input function. */
module ApiHandler {
  import opened Wrappers
  import opened PyStr
  import opened Core
  import opened Handlers
  import opened SetupGame
  import opened ApiState

  // ---------------------------------------------------------------- keys

  /** `key_mapping`: the tokens the API turns into key presses. */
  function KeyOf(token: string): (k: Option<Key>)
    ensures k.Some? ==> k.value != OtherKey(0) && !IsModifier(k.value)
  {
    if token == "w" then Some(W)
    else if token == "a" then Some(A)
    else if token == "s" then Some(S)
    else if token == "d" then Some(D)
    else if token == "up" then Some(Up)
    else if token == "down" then Some(Down)
    else if token == "left" then Some(Left)
    else if token == "right" then Some(Right)
    else if token == "space" then Some(Space)
    else if token == "g" then Some(G)
    else if token == "i" then Some(I)
    else if token == "." then Some(Period)
    else if token == "esc" then Some(Escape)
    else if token == "q" then Some(Q)
    else None
  }

  /** Every key the legal-action list can offer is one the API can press,
      and different tokens press different keys. */
  lemma LegalKeysMapped()
    ensures forall t :: t in KeyOrder ==> KeyOf(t).Some?
    ensures forall t, u :: KeyOf(t).Some? && KeyOf(t) == KeyOf(u) ==> t == u
  {
  }

  // ---------------------------------------------------------------- restart

  /** The arguments a restart passes to `new_game`. */
  datatype RestartRequest = RestartRequest(
    useCustomMap: bool, customMapFile: string, customMapString: string,
    params: WorldParams, fovMode: string, fovRadius: int)

  /** `new_game(use_custom_map=False)`: every default. */
  const DefaultRestart := RestartRequest(false, "", "", SrcDefaults, "partial", 8)

  /** A FOV mode and radius from "mode,radius": the mode defaults to
      "partial", the radius to 8; a radius that is not an integer is the
      `ValueError` of `int()`, here `None`. */
  function FovArgs(parts: seq<string>): (r: Option<(string, int)>)
    ensures |parts| > 1 ==> (r.Some? <==> ParseInt(parts[1]).Some?)
    ensures |parts| <= 1 ==> r.Some? && r.value.1 == 8
    ensures r.Some? ==> r.value.0 == if |parts| > 0 then parts[0] else "partial"
  {
    var mode := if |parts| > 0 then parts[0] else "partial";
    if |parts| > 1 then
      match ParseInt(parts[1])
      case Some(radius) => Some((mode, radius))
      case None => None
    else Some((mode, 8))
  }

  /** The five integers and the optional FOV fields of "procedural|…"; any
      failure gives the default game. */
  function ProceduralArgs(parts: seq<string>): (r: RestartRequest)
    ensures |parts| < 5 ==> r == DefaultRestart
    ensures !r.useCustomMap && r.customMapString == ""
  {
    if |parts| < 5 then DefaultRestart
    else
      FromFields(ParseInt(parts[0]), ParseInt(parts[1]), ParseInt(parts[2]), ParseInt(parts[3]), ParseInt(parts[4]),
                 if |parts| > 5 then parts[5] else "partial",
                 if |parts| > 6 then ParseInt(parts[6]) else Some(8))
  }

  /** The parsed fields as new-game arguments, or the default game when one
      of them failed to parse. */
  function FromFields(maxRooms: Option<int>, minSize: Option<int>, maxSize: Option<int>, width: Option<int>,
                      height: Option<int>, fovMode: string, radius: Option<int>): (r: RestartRequest)
    ensures !r.useCustomMap && r.customMapString == ""
  {
    if maxRooms.None? || minSize.None? || maxSize.None? || width.None? || height.None? || radius.None? then
      DefaultRestart
    else
      RestartRequest(false, "", "",
                     WorldParams(maxRooms.value, minSize.value, maxSize.value, width.value, height.value),
                     fovMode, radius.value)
  }

  /** `_handle_restart`'s reading of the mode (the token after "restart_"):
      the new-game arguments, or `None` for the `ValueError` that a bad
      radius of "custom|" or "string|" raises out of it. */
  function ParseRestart(mode: string): (r: Option<RestartRequest>)
    ensures r.None? ==> StartsWith(mode, "custom|") || StartsWith(mode, "string|")
    ensures StartsWith(mode, "custom|") && r.Some? ==> r.value.useCustomMap && r.value.customMapFile == CustomMapFile
    ensures mode == "custom" ==> r == Some(DefaultRestart.(useCustomMap := true, customMapFile := CustomMapFile))
    ensures (!StartsWith(mode, "custom|") && mode != "custom" && !StartsWith(mode, "string|")
             && !StartsWith(mode, "procedural|")) ==> r == Some(DefaultRestart)
  {
    if StartsWith(mode, "custom|") then
      match FovArgs(Split(mode[7..], ','))
      case Some((m, radius)) => Some(RestartRequest(true, CustomMapFile, "", SrcDefaults, m, radius))
      case None => None
    else if mode == "custom" then
      Some(RestartRequest(true, CustomMapFile, "", SrcDefaults, "partial", 8))
    else if StartsWith(mode, "string|") then
      var parts := Split(mode[7..], '|');
      var fov := if |parts| > 1 then FovArgs(Split(parts[1], ',')) else Some(("partial", 8));
      match fov
      case Some((m, radius)) => Some(RestartRequest(false, "", parts[0], SrcDefaults, m, radius))
      case None => None
    else if StartsWith(mode, "procedural|") then
      Some(ProceduralArgs(Split(mode[11..], ',')))
    else
      Some(DefaultRestart)
  }

  /** The map input fits a restart's world: only a generated world uses
      the draws. */
  predicate RestartFits(mode: string, input: MapInput) {
    ParseRestart(mode).Some? ==>
      var r := ParseRestart(mode).value;
      SourceOf(r.useCustomMap, r.customMapFile, r.customMapString).Generated? ==> DrawsFit(r.params, input)
  }

  lemma IntToStringNoComma(n: int)
    ensures ',' !in IntToString(n)
  {
    var d := NatToString(if n < 0 then -n else n);
    assert forall i :: 0 <= i < |d| ==> IsDigit(d[i]);
  }

  /** The comma-separated form of world parameters, as a client writes it. */
  function ParamsText(p: WorldParams): seq<string> {
    [IntToString(p.maxRooms), IntToString(p.roomMinSize), IntToString(p.roomMaxSize),
     IntToString(p.mapWidth), IntToString(p.mapHeight)]
  }

  /** A procedural restart written from any world parameters, a comma-free
      FOV mode and a radius reads back as exactly those arguments. */
  lemma ProceduralRoundTrip(p: WorldParams, fovMode: string, radius: int)
    requires ',' !in fovMode
    ensures ParseRestart("procedural|" + Join(ParamsText(p) + [fovMode, IntToString(radius)], ','))
         == Some(RestartRequest(false, "", "", p, fovMode, radius))
  {
    var parts := ParamsText(p) + [fovMode, IntToString(radius)];
    IntToStringNoComma(p.maxRooms);
    IntToStringNoComma(p.roomMinSize);
    IntToStringNoComma(p.roomMaxSize);
    IntToStringNoComma(p.mapWidth);
    IntToStringNoComma(p.mapHeight);
    IntToStringNoComma(radius);
    assert forall k :: 0 <= k < |parts| ==> ',' !in parts[k];
    SplitJoin(parts, ',');
    ProceduralPrefix(Join(parts, ','));
    ProceduralFields(p, fovMode, radius);
  }

  /** A mode starting "procedural|" is read as the comma-separated fields
      after the bar. */
  lemma ProceduralPrefix(rest: string)
    ensures ParseRestart("procedural|" + rest) == Some(ProceduralArgs(Split(rest, ',')))
  {
    var mode := "procedural|" + rest;
    assert mode[11..] == rest;
    assert StartsWith(mode, "procedural|");
    assert !StartsWith(mode, "custom|") by { assert mode[0] != "custom|"[0]; }
    assert !StartsWith(mode, "string|") by { assert mode[0] != "string|"[0]; }
    assert mode != "custom" by { assert mode[0] != "custom"[0]; }
  }

  /** The written fields read back as the world parameters, FOV mode and
      radius. */
  lemma ProceduralFields(p: WorldParams, fovMode: string, radius: int)
    ensures ProceduralArgs(ParamsText(p) + [fovMode, IntToString(radius)])
         == RestartRequest(false, "", "", p, fovMode, radius)
  {
    var a0, a1, a2 := IntToString(p.maxRooms), IntToString(p.roomMinSize), IntToString(p.roomMaxSize);
    var a3, a4, a6 := IntToString(p.mapWidth), IntToString(p.mapHeight), IntToString(radius);
    IntStringRoundTrip(p.maxRooms);
    IntStringRoundTrip(p.roomMinSize);
    IntStringRoundTrip(p.roomMaxSize);
    IntStringRoundTrip(p.mapWidth);
    IntStringRoundTrip(p.mapHeight);
    IntStringRoundTrip(radius);
    assert ParamsText(p) + [fovMode, IntToString(radius)] == [a0, a1, a2, a3, a4, fovMode, a6];
    SevenFields(a0, a1, a2, a3, a4, fovMode, a6, p, radius);
  }

  /** Seven fields that all parse give their values. */
  lemma SevenFields(a0: string, a1: string, a2: string, a3: string, a4: string, fovMode: string, a6: string,
                    p: WorldParams, radius: int)
    requires ParseInt(a0) == Some(p.maxRooms) && ParseInt(a1) == Some(p.roomMinSize)
    requires ParseInt(a2) == Some(p.roomMaxSize) && ParseInt(a3) == Some(p.mapWidth)
    requires ParseInt(a4) == Some(p.mapHeight) && ParseInt(a6) == Some(radius)
    ensures ProceduralArgs([a0, a1, a2, a3, a4, fovMode, a6]) == RestartRequest(false, "", "", p, fovMode, radius)
  {
    var parts := [a0, a1, a2, a3, a4, fovMode, a6];
    assert ProceduralArgs(parts)
        == FromFields(ParseInt(a0), ParseInt(a1), ParseInt(a2), ParseInt(a3), ParseInt(a4), fovMode, ParseInt(a6));
  }

  /** A custom-file restart whose radius is not an integer raises; one whose
      radius is reads it back. */
  lemma CustomRadius(fovMode: string, radius: string)
    requires ',' !in fovMode && ',' !in radius
    ensures ParseRestart("custom|" + fovMode + "," + radius).Some? <==> ParseInt(radius).Some?
    ensures ParseInt(radius).Some? ==>
      ParseRestart("custom|" + fovMode + "," + radius)
      == Some(RestartRequest(true, CustomMapFile, "", SrcDefaults, fovMode, ParseInt(radius).value))
  {
    var mode := "custom|" + fovMode + "," + radius;
    assert StartsWith(mode, "custom|");
    assert mode[7..] == fovMode + [','] + radius;
    SplitPrefix(fovMode, radius, ',');
    SplitNoSep(radius, ',');
  }

  // ---------------------------------------------------------------- counters

  /** The session counters the key path updates. */
  datatype Counters = Counters(stepCount: int, lastKnownLevel: int, lastKnownHandlerType: Option<string>)

  predicate IsMainGame(h: Handler) {
    h.EventHandler? && h.kind == MainGameKind
  }

  /** The floor `check_and_reset_level_steps` sees. */
  function FloorOf(engine: Engine?): Option<int>
    reads engine
  {
    if engine == null then None else engine.currentFloor
  }

  /** `update_handler` on the counters. */
  function AfterUpdate(c: Counters, h: Handler): (r: Counters)
    ensures r.lastKnownHandlerType == Some(TypeName(h)) && r.lastKnownLevel == c.lastKnownLevel
    ensures r.stepCount == if c.lastKnownHandlerType == Some(TypeName(h)) then c.stepCount else 0
  {
    if c.lastKnownHandlerType != Some(TypeName(h)) then
      c.(stepCount := 0, lastKnownHandlerType := Some(TypeName(h)))
    else c
  }

  /** The counters after one key token: the level check on `floor`, then,
      unless the handler raised SystemExit, the handler update when a new
      handler object came back and the step increment when it was and still is the
      main game. */
  function AfterKey(c: Counters, floor: Option<int>, h: Handler, n: Next): Counters {
    var c1 := if floor.Some? && floor.value != c.lastKnownLevel then c.(stepCount := 0, lastKnownLevel := floor.value) else c;
    if n.SystemExit? then c1
    else
      var c2 := if n.isNew then AfterUpdate(c1, n.handler) else c1;
      if IsMainGame(h) && IsMainGame(n.handler) then c2.(stepCount := c2.stepCount + 1) else c2
  }

  /** A move that stays in the main game on the same floor counts exactly one
      step; a key that leaves the main game or changes the floor never adds
      to the old count; the count never grows by more than one. */
  lemma KeyStepCount(c: Counters, floor: Option<int>, h: Handler, n: Next)
    requires c.stepCount >= 0
    ensures var r := AfterKey(c, floor, h, n);
      && (n.Continue? && IsMainGame(h) && IsMainGame(n.handler) && floor in {None, Some(c.lastKnownLevel)}
          && (!n.isNew || c.lastKnownHandlerType == Some("MainGameEventHandler"))
          ==> r.stepCount == c.stepCount + 1)
      && (!(n.Continue? && IsMainGame(h) && IsMainGame(n.handler)) ==> r.stepCount == 0 || r.stepCount == c.stepCount)
      && (floor.Some? && floor.value != c.lastKnownLevel ==> r.stepCount <= 1 && r.lastKnownLevel == floor.value)
      && 0 <= r.stepCount <= c.stepCount + 1
  {
  }

  // ---------------------------------------------------------------- drain

  /** Why a drain stopped: the queue ran dry, a handler raised SystemExit,
      or a restart token was taken with the handler current at that point. */
  datatype Stop = Drained(handler: Handler) | ExitRaised | Restart(mode: string, handler: Handler)

  datatype Drain = Drain(rest: seq<string>, stop: Stop)

  predicate IsRestart(token: string) {
    StartsWith(token, "restart_")
  }

  /** What `process_actions` does with a queue, token by token. */
  function DrainOf(q: seq<string>, h: Handler, dispatch: (Handler, Key) -> Next): Drain {
    if q == [] then Drain([], Drained(h))
    else if IsRestart(q[0]) then Drain(q[1..], Restart(q[0][8..], h))
    else
      match KeyOf(q[0])
      case None => DrainOf(q[1..], h, dispatch)
      case Some(k) =>
        match dispatch(h, k)
        case SystemExit => Drain(q[1..], ExitRaised)
        case Continue(next, _) => DrainOf(q[1..], next, dispatch)
  }

  /** The handler a non-restart token leaves, when it does not raise. */
  function After(token: string, h: Handler, dispatch: (Handler, Key) -> Next): Next {
    match KeyOf(token)
    case None => Continue(h, false)
    case Some(k) => dispatch(h, k)
  }

  lemma DrainStep(q: seq<string>, h: Handler, dispatch: (Handler, Key) -> Next)
    requires q != [] && !IsRestart(q[0])
    ensures After(q[0], h, dispatch).SystemExit? ==> DrainOf(q, h, dispatch) == Drain(q[1..], ExitRaised)
    ensures After(q[0], h, dispatch).Continue? ==>
      DrainOf(q, h, dispatch) == DrainOf(q[1..], After(q[0], h, dispatch).handler, dispatch)
  {
  }

  /** A drain takes a prefix of the queue and leaves the rest in order. */
  lemma {:induction false} DrainSuffix(q: seq<string>, h: Handler, dispatch: (Handler, Key) -> Next)
    ensures var d := DrainOf(q, h, dispatch);
      |d.rest| <= |q| && d.rest == q[|q| - |d.rest|..]
  {
    if q != [] && !IsRestart(q[0]) {
      DrainStep(q, h, dispatch);
      var n := After(q[0], h, dispatch);
      if n.Continue? {
        DrainSuffix(q[1..], n.handler, dispatch);
        var rest := DrainOf(q[1..], n.handler, dispatch).rest;
        assert q[1..][|q| - 1 - |rest|..] == q[|q| - |rest|..];
      }
    }
  }

  /** A drain that runs dry met no restart token. */
  lemma {:induction false} DrainedNoRestart(q: seq<string>, h: Handler, dispatch: (Handler, Key) -> Next)
    ensures var d := DrainOf(q, h, dispatch);
      d.stop.Drained? ==> d.rest == [] && forall i :: 0 <= i < |q| ==> !IsRestart(q[i])
  {
    if q != [] && !IsRestart(q[0]) {
      DrainStep(q, h, dispatch);
      var n := After(q[0], h, dispatch);
      if n.Continue? {
        DrainedNoRestart(q[1..], n.handler, dispatch);
        assert forall i :: 1 <= i < |q| ==> q[i] == q[1..][i - 1];
      }
    }
  }

  /** A drain that stops at a restart stops at the first one, and the
      tokens after it stay queued. */
  lemma {:induction false} DrainFirstRestart(q: seq<string>, h: Handler, dispatch: (Handler, Key) -> Next)
    ensures var d := DrainOf(q, h, dispatch);
      d.stop.Restart? ==>
        var i := |q| - |d.rest| - 1;
        && 0 <= i && IsRestart(q[i]) && d.stop.mode == q[i][8..] && d.rest == q[i + 1..]
        && forall j :: 0 <= j < i ==> !IsRestart(q[j])
  {
    DrainSuffix(q, h, dispatch);
    if q != [] && !IsRestart(q[0]) {
      DrainStep(q, h, dispatch);
      var n := After(q[0], h, dispatch);
      if n.Continue? && DrainOf(q[1..], n.handler, dispatch).stop.Restart? {
        var d := DrainOf(q[1..], n.handler, dispatch);
        DrainFirstRestart(q[1..], n.handler, dispatch);
        var i := |q| - |d.rest| - 1;
        assert q[i] == q[1..][i - 1];
        assert q[i + 1..] == q[1..][i..];
        forall j | 0 <= j < i
          ensures !IsRestart(q[j])
        {
          if j > 0 {
            assert q[j] == q[1..][j - 1];
          }
        }
      }
    }
  }

  /** Tokens that are neither restarts nor keys are dropped: a queue of them
      drains to nothing and leaves the handler as it was. */
  lemma {:induction false} DrainDropsUnknown(q: seq<string>, h: Handler, dispatch: (Handler, Key) -> Next)
    requires forall i :: 0 <= i < |q| ==> !IsRestart(q[i]) && KeyOf(q[i]).None?
    ensures DrainOf(q, h, dispatch) == Drain([], Drained(h))
  {
    if q != [] {
      DrainDropsUnknown(q[1..], h, dispatch);
    }
  }

  /** What `process_actions` hands back: the handler to run, or the
      SystemExit that escapes it (it is not an `Exception`). */
  datatype Outcome = Returned(handler: Handler) | Exited

  /** `APIActionHandler`, over the session it serves. */
  class ApiActionHandler {
    const gameState: GameState

    constructor (gameState: GameState)
      ensures this.gameState == gameState
    {
      this.gameState := gameState;
    }

    function CountersOf(): Counters
      reads this, gameState
    {
      Counters(gameState.stepCount, gameState.lastKnownLevel, gameState.lastKnownHandlerType)
    }

    /** `_handle_key_action`: the level check, the handler's reaction to
        the key, the handler update when a new handler object came back
        (handlers compare by identity), and the step increment
        when the handler was and still is the main game. */
    method HandleKeyAction(k: Key, handler: Handler, dispatch: (Handler, Key) -> Next) returns (next: Next)
      modifies gameState`stepCount, gameState`lastKnownLevel, gameState`handler, gameState`lastKnownHandlerType
      ensures next == dispatch(handler, k)
      ensures CountersOf() == AfterKey(old(CountersOf()), old(FloorOf(gameState.engine)), handler, next)
      ensures next.Continue? && next.isNew ==> gameState.handler == Some(next.handler)
      ensures !(next.Continue? && next.isNew) ==> gameState.handler == old(gameState.handler)
    {
      gameState.CheckAndResetLevelSteps();
      var wasInGame := IsMainGame(handler);
      next := dispatch(handler, k);
      if next.SystemExit? {
        return;
      }
      var h := next.handler;
      if next.isNew {
        gameState.UpdateHandler(h);
      }
      if wasInGame && IsMainGame(h) {
        gameState.IncrementStepCount();
      }
    }

    /** `_handle_restart` as written: a mode whose radius does not parse
        raises `ValueError`; every other mode reaches `new_game`, whose
        `TypeError` escapes (for "procedural|" the fallback call in the
        `except` raises it again). Nothing changes first. */
    method HandleRestartAsWritten(mode: string) returns (raised: bool)
      ensures raised
    {
      var req := ParseRestart(mode);
      if req.None? {
        return true;
      }
      var r := req.value;
      var error := NewGameAsWritten(r.useCustomMap, r.customMapFile, r.customMapString, r.params, r.fovMode,
                                    r.fovRadius);
      if error.Some? && StartsWith(mode, "procedural|") {
        error := NewGameAsWritten(false, "", "", SrcDefaults, "partial", 8);
      }
      raised := error.Some?;
    }

    /** `_handle_restart` with the corrected `new_game`: the mode's
        new-game arguments start a fresh game on the map `input` yields,
        installed under a new main-game handler with the counters reset. A
        mode whose radius does not parse raises before anything changes. */
    method HandleRestart(mode: string, input: MapInput, fov: (int, int, int, int, int) -> bool)
      returns (h: Option<Handler>)
      requires RestartFits(mode, input)
      modifies gameState`engine, gameState`handler, gameState`stepCount, gameState`lastKnownLevel
      modifies gameState`lastKnownHandlerType
      ensures ParseRestart(mode).None? ==>
        && h == None && CountersOf() == old(CountersOf())
        && gameState.engine == old(gameState.engine) && gameState.handler == old(gameState.handler)
      ensures ParseRestart(mode).Some? ==>
        var req := ParseRestart(mode).value;
        var source := SourceOf(req.useCustomMap, req.customMapFile, req.customMapString);
        && gameState.engine != null && fresh(gameState.engine)
        && h == Some(EventHandler(MainGameKind, gameState.engine)) && gameState.handler == h
        && CountersOf() == Counters(0, if source.Generated? then input.floor else 1, Some("MainGameEventHandler"))
        && gameState.engine.isUsingCustomMap == (req.useCustomMap || |req.customMapString| > 0)
        && !gameState.engine.gameDone && gameState.engine.stepCounter == 0
    {
      var req := ParseRestart(mode);
      if req.None? {
        return None;
      }
      var r := req.value;
      var engine, _, _ := NewGame(r.useCustomMap, r.customMapFile, r.customMapString, r.params, r.fovMode,
                                  r.fovRadius, input, fov);
      var handler := EventHandler(MainGameKind, engine);
      gameState.SetGameComponents(engine, Some(handler));
      gameState.stepCount := 0;
      gameState.lastKnownLevel := engine.currentFloor.value;
      gameState.lastKnownHandlerType := Some(TypeName(handler));
      h := Some(handler);
    }

    /** The loop of `process_actions` up to the first restart token, as
        `DrainOf` says: key tokens go to the handler, other tokens are
        dropped. */
    method TakeTokens(handler: Handler, dispatch: (Handler, Key) -> Next) returns (stop: Stop)
      modifies gameState`actionQueue, gameState`handler, gameState`stepCount
      modifies gameState`lastKnownLevel, gameState`lastKnownHandlerType
      ensures DrainOf(old(gameState.actionQueue), handler, dispatch) == Drain(gameState.actionQueue, stop)
    {
      var h := handler;
      while gameState.actionQueue != []
        invariant DrainOf(gameState.actionQueue, h, dispatch) == DrainOf(old(gameState.actionQueue), handler, dispatch)
        decreases |gameState.actionQueue|
      {
        var token := gameState.actionQueue[0];
        gameState.actionQueue := gameState.actionQueue[1..];
        if IsRestart(token) {
          return Restart(token[8..], h);
        }
        var k := KeyOf(token);
        if k.Some? {
          var next := HandleKeyAction(k.value, h, dispatch);
          if next.SystemExit? {
            return ExitRaised;
          }
          h := next.handler;
        }
      }
      return Drained(h);
    }

    /** `process_actions` as written: the restart raises inside the `try`,
        and the `except Exception` returns the handler current at that
        point, with no new game installed. */
    method ProcessActionsAsWritten(handler: Handler, dispatch: (Handler, Key) -> Next)
      returns (outcome: Outcome)
      modifies gameState`actionQueue, gameState`handler, gameState`stepCount
      modifies gameState`lastKnownLevel, gameState`lastKnownHandlerType
      ensures var d := DrainOf(old(gameState.actionQueue), handler, dispatch);
        && gameState.actionQueue == d.rest && gameState.engine == old(gameState.engine)
        && (d.stop.Drained? ==> outcome == Returned(d.stop.handler))
        && (d.stop.ExitRaised? ==> outcome == Exited)
        && (d.stop.Restart? ==> outcome == Returned(d.stop.handler))
    {
      var stop := TakeTokens(handler, dispatch);
      match stop
      case Drained(h) =>
        outcome := Returned(h);
      case ExitRaised =>
        outcome := Exited;
      case Restart(mode, h) =>
        var _ := HandleRestartAsWritten(mode);
        outcome := Returned(h);
    }

    /** `process_actions` with the corrected `new_game`: takes tokens off
        the queue as `DrainOf` says, and returns the handler to run on. A
        restart returns the fresh main-game handler, or the current one
        when its mode raised. */
    method ProcessActions(handler: Handler, dispatch: (Handler, Key) -> Next, input: MapInput,
                          fov: (int, int, int, int, int) -> bool)
      returns (outcome: Outcome)
      requires forall i :: 0 <= i < |gameState.actionQueue| && IsRestart(gameState.actionQueue[i]) ==>
        RestartFits(gameState.actionQueue[i][8..], input)
      modifies gameState`actionQueue, gameState`engine, gameState`handler, gameState`stepCount
      modifies gameState`lastKnownLevel, gameState`lastKnownHandlerType
      ensures var d := DrainOf(old(gameState.actionQueue), handler, dispatch);
        && gameState.actionQueue == d.rest
        && (d.stop.Drained? ==> outcome == Returned(d.stop.handler))
        && (d.stop.ExitRaised? ==> outcome == Exited)
        && (d.stop.Restart? && ParseRestart(d.stop.mode).None? ==> outcome == Returned(d.stop.handler))
        && (d.stop.Restart? && ParseRestart(d.stop.mode).Some? ==>
              && gameState.engine != null && fresh(gameState.engine)
              && outcome == Returned(EventHandler(MainGameKind, gameState.engine))
              && gameState.stepCount == 0 && gameState.lastKnownHandlerType == Some("MainGameEventHandler"))
    {
      DrainFirstRestart(gameState.actionQueue, handler, dispatch);
      var stop := TakeTokens(handler, dispatch);
      match stop
      case Drained(h) =>
        outcome := Returned(h);
      case ExitRaised =>
        outcome := Exited;
      case Restart(mode, h) =>
        var started := HandleRestart(mode, input, fov);
        outcome := Returned(if started.Some? then started.value else h);
    }
  }
}
