/** The stand-alone A* script that measures how many moves separate the
    player '@' from the stairs '>' on a map printed as text: '#' (wall) and
    ' ' (void) block, every other character is walkable. The grid is the
    list of rows, `grid[y][x]`; a point is `Pos(x, y)`. */
module Astar {
  import opened Wrappers
  import opened PyStr
  import opened Core
  import opened MapText

  type Grid = seq<seq<char>>

  // ---------------------------------------------------------------- the map

  /** Every row as long as the first, as `load_map` makes them. */
  predicate Rect(grid: Grid) {
    forall y :: 0 <= y < |grid| ==> |grid[y]| == |grid[0]|
  }

  /** The lines, each padded with spaces to the longest one's length: a
      rectangle that reads as the text does, with ' ' past a line's end. */
  function Padded(lines: seq<string>): (grid: Grid)
    ensures |grid| == |lines| && Rect(grid)
    ensures forall y :: 0 <= y < |grid| ==> |grid[y]| == Width(lines) && lines[y] <= grid[y]
    ensures forall y, x :: 0 <= y < |grid| && 0 <= x < Width(lines) ==> grid[y][x] == CharAt(lines, x, y)
  {
    seq(|lines|, y requires 0 <= y < |lines| => lines[y] + seq(Width(lines) - |lines[y]|, _ => ' '))
  }

  /** `load_map` on the file's text: its lines, padded. */
  method LoadMap(text: string) returns (grid: Grid)
    ensures grid == Padded(SplitLines(text))
  {
    var lines := SplitLines(text);
    var width := Width(lines);
    grid := [];
    for y := 0 to |lines|
      invariant grid == Padded(lines)[..y]
    {
      var row := lines[y] + seq(width - |lines[y]|, _ => ' ');
      grid := grid + [row];
    }
  }

  /** `in_bounds`: the row count and the first row's length bound the map. */
  predicate InBounds(grid: Grid, p: Pos) {
    0 <= p.y < |grid| && 0 <= p.x < |grid[0]|
  }

  /** `is_passable`: anything but a wall '#' or void ' '. */
  predicate Passable(grid: Grid, p: Pos)
    requires Rect(grid) && InBounds(grid, p)
  {
    grid[p.y][p.x] != '#' && grid[p.y][p.x] != ' '
  }

  /** `heuristic`: the Manhattan distance. */
  function Manhattan(a: Pos, b: Pos): (d: nat)
    ensures d == 0 <==> a == b
  {
    (if a.x >= b.x then a.x - b.x else b.x - a.x) + (if a.y >= b.y then a.y - b.y else b.y - a.y)
  }

  /** One move from `a` reaches `b`: an orthogonal step onto a passable cell
      of the map. */
  predicate Adjacent(grid: Grid, a: Pos, b: Pos)
    requires Rect(grid)
  {
    InBounds(grid, b) && Passable(grid, b) && Manhattan(a, b) == 1
  }

  /** `neighbors`: the passable cells in bounds among north, south, west and
      east, in that order; exactly the cells one move away. */
  function Neighbors(grid: Grid, p: Pos): (r: seq<Pos>)
    requires Rect(grid)
    ensures |r| <= 4
    ensures forall q :: q in r <==> Adjacent(grid, p, q)
  {
    var around := [Pos(p.x, p.y - 1), Pos(p.x, p.y + 1), Pos(p.x - 1, p.y), Pos(p.x + 1, p.y)];
    assert forall q :: Manhattan(p, q) == 1 <==> q in around;
    Passables(grid, around)
  }

  /** The candidates that are in bounds and passable, order kept. */
  function Passables(grid: Grid, cands: seq<Pos>): (r: seq<Pos>)
    requires Rect(grid)
    ensures |r| <= |cands|
    ensures forall q :: q in r <==> q in cands && InBounds(grid, q) && Passable(grid, q)
  {
    if |cands| == 0 then []
    else
      var rest := Passables(grid, cands[1..]);
      if InBounds(grid, cands[0]) && Passable(grid, cands[0]) then [cands[0]] + rest else rest
  }

  /** `path` walks from `a` to `b` one move at a time. */
  predicate IsPath(grid: Grid, path: seq<Pos>, a: Pos, b: Pos)
    requires Rect(grid)
  {
    && |path| > 0 && path[0] == a && path[|path| - 1] == b
    && forall i :: 0 <= i < |path| - 1 ==> Adjacent(grid, path[i], path[i + 1])
  }

  /** The heuristic never overestimates: a walk between two of its cells
      takes at least their Manhattan distance in moves. */
  lemma {:induction false} ManhattanAlong(grid: Grid, path: seq<Pos>, j: nat, k: nat)
    requires Rect(grid) && j <= k < |path|
    requires forall i :: 0 <= i < |path| - 1 ==> Adjacent(grid, path[i], path[i + 1])
    ensures Manhattan(path[j], path[k]) <= k - j
    decreases k
  {
    if j < k {
      ManhattanAlong(grid, path, j, k - 1);
      assert Adjacent(grid, path[k - 1], path[k]);
    }
  }

  // ---------------------------------------------------------------- start and goal

  /** Past the end of row `y`, the padding holds neither '@' nor '>'. */
  lemma {:induction false} LastInPadding(lines: seq<string>, width: nat, ch: char, y: nat, x: nat)
    requires y < |lines| && |lines[y]| <= x <= width && ch != ' '
    ensures LastIn(lines, width, ch, y, x) == LastIn(lines, width, ch, y, |lines[y]|)
    decreases x
  {
    if x > |lines[y]| {
      LastInPadding(lines, width, ch, y, x - 1);
    }
  }

  /** `LastIn` is the last such cell: no cell scanned after it holds `ch`. */
  lemma {:induction false} LastInIsLast(lines: seq<string>, width: nat, ch: char, sy: nat, sx: nat)
    requires sy <= |lines| && sx <= width && (sx > 0 ==> sy < |lines|)
    ensures var p := LastIn(lines, width, ch, sy, sx);
      p.Some? ==> forall x, y :: (0 <= x < width && 0 <= y < |lines| && Processed(x, y, sx, sy)
                                  && !Processed(x, y, p.value.x + 1, p.value.y)) ==> CharAt(lines, x, y) != ch
    decreases sy, sx
  {
    if sx > 0 {
      if CharAt(lines, sx - 1, sy) != ch {
        LastInIsLast(lines, width, ch, sy, sx - 1);
      }
    } else if sy > 0 {
      LastInIsLast(lines, width, ch, sy - 1, width);
    }
  }

  /** `find_player_and_stairs`: the last '@' and the last '>' in row-major
      order; the script exits when either is missing, the player first. */
  method FindPlayerAndStairs(grid: Grid) returns (r: Result<(Pos, Pos), string>)
    ensures var pl := LastIn(grid, Width(grid), '@', |grid|, 0);
            var st := LastIn(grid, Width(grid), '>', |grid|, 0);
      r == if pl.None? then Failure("Player '@' not found in map")
           else if st.None? then Failure("Stairs '>' not found in map")
           else Success((pl.value, st.value))
  {
    var width := Width(grid);
    var player: Option<Pos> := None;
    var stairs: Option<Pos> := None;
    for y := 0 to |grid|
      invariant player == LastIn(grid, width, '@', y, 0)
      invariant stairs == LastIn(grid, width, '>', y, 0)
    {
      for x := 0 to |grid[y]|
        invariant player == LastIn(grid, width, '@', y, x)
        invariant stairs == LastIn(grid, width, '>', y, x)
      {
        if grid[y][x] == '@' {
          player := Some(Pos(x, y));
        } else if grid[y][x] == '>' {
          stairs := Some(Pos(x, y));
        }
      }
      LastInPadding(grid, width, '@', y, width);
      LastInPadding(grid, width, '>', y, width);
    }
    if player.None? {
      return Failure("Player '@' not found in map");
    }
    if stairs.None? {
      return Failure("Stairs '>' not found in map");
    }
    r := Success((player.value, stairs.value));
  }

  /** What `find_player_and_stairs` returns holds '@' and '>', with no '@'
      or '>' after them in row-major order. */
  lemma FoundAreLast(grid: Grid, player: Pos, stairs: Pos)
    requires Rect(grid)
    requires LastIn(grid, Width(grid), '@', |grid|, 0) == Some(player)
    requires LastIn(grid, Width(grid), '>', |grid|, 0) == Some(stairs)
    ensures InBounds(grid, player) && grid[player.y][player.x] == '@'
    ensures InBounds(grid, stairs) && grid[stairs.y][stairs.x] == '>'
    ensures forall x, y :: 0 <= y < |grid| && 0 <= x < |grid[y]| && (y > player.y || (y == player.y && x > player.x))
                           ==> grid[y][x] != '@'
    ensures forall x, y :: 0 <= y < |grid| && 0 <= x < |grid[y]| && (y > stairs.y || (y == stairs.y && x > stairs.x))
                           ==> grid[y][x] != '>'
  {
    LastInSpec(grid, Width(grid), '@', |grid|, 0);
    LastInSpec(grid, Width(grid), '>', |grid|, 0);
    LastInIsLast(grid, Width(grid), '@', |grid|, 0);
    LastInIsLast(grid, Width(grid), '>', |grid|, 0);
    forall x, y | 0 <= y < |grid| && 0 <= x < |grid[y]|
      ensures CharAt(grid, x, y) == grid[y][x] && x < Width(grid) && Processed(x, y, 0, |grid|)
    {
    }
  }

  // ---------------------------------------------------------------- search

  /** An entry of the open heap: the tuple `(f, g, point)`. */
  datatype Entry = Entry(f: int, g: nat, p: Pos)

  /** Python's tuple order on entries, which `heapq` pops by. */
  predicate EntryLe(a: Entry, b: Entry) {
    a.f < b.f || (a.f == b.f && (a.g < b.g || (a.g == b.g &&
      (a.p.x < b.p.x || (a.p.x == b.p.x && a.p.y <= b.p.y)))))
  }

  /** The position of a least entry: what `heapq.heappop` takes out. */
  function MinIndex(heap: seq<Entry>): (i: nat)
    requires |heap| > 0
    ensures i < |heap| && forall j :: 0 <= j < |heap| ==> EntryLe(heap[i], heap[j])
  {
    if |heap| == 1 then 0
    else
      var k := MinIndex(heap[1..]) + 1;
      assert forall j :: 1 <= j < |heap| ==> heap[j] == heap[1..][j - 1];
      if EntryLe(heap[0], heap[k]) then 0 else k
  }

  /** `came_from` and `g_score` form a tree rooted at `start`: every other
      scored point came by one move from a point of lower score. */
  predicate Tree(grid: Grid, start: Pos, cameFrom: map<Pos, Pos>, g: map<Pos, nat>)
    requires Rect(grid)
  {
    && start in g && g[start] == 0 && start !in cameFrom
    && (forall p :: p in cameFrom ==>
          p in g && cameFrom[p] in g && g[cameFrom[p]] < g[p] && Adjacent(grid, cameFrom[p], p))
    && (forall p :: p in g ==> p == start || p in cameFrom)
  }

  /** Each queued entry is for a scored point and was pushed with a score
      no better than the current one; all but the start's first entry
      carry `f = g + heuristic`. */
  predicate EntriesScored(heap: seq<Entry>, start: Pos, g: map<Pos, nat>, goal: Pos) {
    forall i :: 0 <= i < |heap| ==>
      && heap[i].p in g && heap[i].g >= g[heap[i].p]
      && (heap[i].p == start || heap[i].f == heap[i].g + Manhattan(heap[i].p, goal))
  }

  /** Every neighbour of `p` is scored, at most one more than `p`. */
  ghost predicate Settled(grid: Grid, g: map<Pos, nat>, p: Pos)
    requires Rect(grid) && p in g
  {
    forall q :: Adjacent(grid, p, q) ==> q in g && g[q] <= g[p] + 1
  }

  /** `p` is queued with its current score and an `f` no greater than its
      score plus the heuristic, or its neighbours were scored from that
      score. */
  ghost predicate Pending(grid: Grid, heap: seq<Entry>, g: map<Pos, nat>, goal: Pos, p: Pos)
    requires Rect(grid) && p in g
  {
    Holds(heap, p, g[p], g[p] + Manhattan(p, goal)) || Settled(grid, g, p)
  }

  /** Some entry for `p` carries score `score` and an `f` of at most `f`. */
  predicate Holds(heap: seq<Entry>, p: Pos, score: nat, f: int) {
    exists i :: 0 <= i < |heap| && heap[i].p == p && heap[i].g == score && heap[i].f <= f
  }

  /** Every scored point but those in `busy` is pending. */
  ghost predicate Frontier(grid: Grid, heap: seq<Entry>, g: map<Pos, nat>, goal: Pos, busy: set<Pos>)
    requires Rect(grid)
  {
    forall p :: p in g && p !in busy ==> Pending(grid, heap, g, goal, p)
  }

  predicate Queued(heap: seq<Entry>, p: Pos) {
    exists i :: 0 <= i < |heap| && heap[i].p == p
  }

  /** The state the main loop of `a_star_search` keeps. */
  ghost predicate Searching(grid: Grid, start: Pos, goal: Pos, heap: seq<Entry>, cameFrom: map<Pos, Pos>, g: map<Pos, nat>, busy: set<Pos>)
    requires Rect(grid)
  {
    && Tree(grid, start, cameFrom, g)
    && EntriesScored(heap, start, g, goal)
    && Frontier(grid, heap, g, goal, busy)
    && (goal in g ==> Queued(heap, goal))
  }

  // The termination measure: the unscored cells of the map, then the sum of
  // the scores of its cells, then the heap's size.

  /** The cells of a `width` by `height` map, row by row. */
  function Cells(width: nat, height: nat): seq<Pos> {
    if height == 0 then [] else Cells(width, height - 1) + seq(width, x => Pos(x, height - 1))
  }

  lemma {:induction false} CellsCover(width: nat, height: nat, p: Pos)
    requires 0 <= p.x < width && 0 <= p.y < height
    ensures p in Cells(width, height)
  {
    var row := seq(width, x => Pos(x, height - 1));
    if p.y == height - 1 {
      assert row[p.x] == p;
    } else {
      CellsCover(width, height - 1, p);
    }
  }

  function GridCells(grid: Grid): seq<Pos> {
    if |grid| == 0 then [] else Cells(|grid[0]|, |grid|)
  }

  lemma GridCellsCover(grid: Grid)
    ensures forall p :: InBounds(grid, p) ==> p in GridCells(grid)
  {
    forall p | InBounds(grid, p)
      ensures p in GridCells(grid)
    {
      CellsCover(|grid[0]|, |grid|, p);
    }
  }

  function Unscored(cells: seq<Pos>, g: map<Pos, nat>): nat {
    if |cells| == 0 then 0 else (if cells[0] in g then 0 else 1) + Unscored(cells[1..], g)
  }

  function ScoreSum(cells: seq<Pos>, g: map<Pos, nat>): nat {
    if |cells| == 0 then 0 else (if cells[0] in g then g[cells[0]] else 0) + ScoreSum(cells[1..], g)
  }

  /** Scoring a new point leaves fewer unscored cells. */
  lemma {:induction false} ScoreNew(cells: seq<Pos>, g: map<Pos, nat>, n: Pos, v: nat)
    requires n !in g && n in cells
    ensures Unscored(cells, g[n := v]) < Unscored(cells, g)
  {
    if cells[0] != n {
      ScoreNew(cells[1..], g, n, v);
    } else {
      ScoreKeys(cells[1..], g, n, v);
    }
  }

  lemma {:induction false} ScoreKeys(cells: seq<Pos>, g: map<Pos, nat>, n: Pos, v: nat)
    ensures Unscored(cells, g[n := v]) <= Unscored(cells, g)
    ensures n in g ==> Unscored(cells, g[n := v]) == Unscored(cells, g)
  {
    if |cells| > 0 {
      ScoreKeys(cells[1..], g, n, v);
    }
  }

  /** Lowering a point's score lowers the sum. */
  lemma {:induction false} ScoreLower(cells: seq<Pos>, g: map<Pos, nat>, n: Pos, v: nat)
    requires n in g && v < g[n] && n in cells
    ensures ScoreSum(cells, g[n := v]) < ScoreSum(cells, g)
  {
    if cells[0] != n {
      ScoreLower(cells[1..], g, n, v);
    } else {
      ScoreNoHigher(cells[1..], g, n, v);
    }
  }

  lemma {:induction false} ScoreNoHigher(cells: seq<Pos>, g: map<Pos, nat>, n: Pos, v: nat)
    requires n in g && v <= g[n]
    ensures ScoreSum(cells, g[n := v]) <= ScoreSum(cells, g)
  {
    if |cells| > 0 {
      ScoreNoHigher(cells[1..], g, n, v);
    }
  }

  /** The measure (unscored, score sum, heap size) of `b` is at most that of
      `a`, lexicographically. */
  ghost predicate MeasureLe(cells: seq<Pos>, g: map<Pos, nat>, heap: seq<Entry>, g': map<Pos, nat>, heap': seq<Entry>) {
    && Unscored(cells, g') <= Unscored(cells, g)
    && (Unscored(cells, g') == Unscored(cells, g) ==>
          && ScoreSum(cells, g') <= ScoreSum(cells, g)
          && (ScoreSum(cells, g') == ScoreSum(cells, g) ==> |heap'| <= |heap|))
  }

  /** Every cell of the map is in `cells`. */
  ghost predicate Covers(grid: Grid, cells: seq<Pos>) {
    forall p :: InBounds(grid, p) ==> p in cells
  }

  /** The body of the neighbour loop for one neighbour `n` of `current`:
      a better score through `current` is recorded and queued. */
  method Relax(grid: Grid, ghost cells: seq<Pos>, start: Pos, goal: Pos, current: Pos, n: Pos,
               heap: seq<Entry>, cameFrom: map<Pos, Pos>, g: map<Pos, nat>)
    returns (heap': seq<Entry>, cameFrom': map<Pos, Pos>, g': map<Pos, nat>)
    requires Rect(grid) && Covers(grid, cells) && current in g && Adjacent(grid, current, n)
    requires Searching(grid, start, goal, heap, cameFrom, g, {current})
    ensures Searching(grid, start, goal, heap', cameFrom', g', {current})
    ensures g'.Keys == g.Keys + {n} && g'[current] == g[current] && g'[n] <= g[current] + 1
    ensures forall p :: p in g ==> g'[p] <= g[p]
    ensures heap <= heap'
    ensures MeasureLe(cells, g, heap, g', heap')
  {
    var tentative := g[current] + 1;
    if n !in g || tentative < g[n] {
      assert n in cells;
      RelaxMeasure(cells, g, n, tentative, heap, heap + [Entry(tentative + Manhattan(n, goal), tentative, n)]);
      RelaxKeeps(grid, start, goal, current, n, heap, cameFrom, g);
      cameFrom' := cameFrom[n := current];
      g' := g[n := tentative];
      heap' := heap + [Entry(tentative + Manhattan(n, goal), tentative, n)];
    } else {
      heap', cameFrom', g' := heap, cameFrom, g;
    }
  }

  lemma RelaxKeeps(grid: Grid, start: Pos, goal: Pos, current: Pos, n: Pos,
                   heap: seq<Entry>, cameFrom: map<Pos, Pos>, g: map<Pos, nat>)
    requires Rect(grid) && current in g && Adjacent(grid, current, n)
    requires Searching(grid, start, goal, heap, cameFrom, g, {current}) && (n !in g || g[current] + 1 < g[n])
    ensures Searching(grid, start, goal, heap + [Entry(g[current] + 1 + Manhattan(n, goal), g[current] + 1, n)],
                      cameFrom[n := current], g[n := g[current] + 1], {current})
  {
    RelaxTree(grid, start, current, n, cameFrom, g);
    RelaxEntries(heap, start, g, goal, current, n);
    RelaxFrontier(grid, heap, g, goal, current, n);
    RelaxQueued(heap, g, goal, current, n);
  }

  lemma RelaxMeasure(cells: seq<Pos>, g: map<Pos, nat>, n: Pos, v: nat, heap: seq<Entry>, heap': seq<Entry>)
    requires n in cells && (n !in g || v < g[n])
    ensures MeasureLe(cells, g, heap, g[n := v], heap')
  {
    if n !in g {
      ScoreNew(cells, g, n, v);
    } else {
      ScoreKeys(cells, g, n, v);
      ScoreLower(cells, g, n, v);
    }
  }

  lemma RelaxTree(grid: Grid, start: Pos, current: Pos, n: Pos, cameFrom: map<Pos, Pos>, g: map<Pos, nat>)
    requires Rect(grid) && current in g && Adjacent(grid, current, n)
    requires Tree(grid, start, cameFrom, g) && (n !in g || g[current] + 1 < g[n])
    ensures Tree(grid, start, cameFrom[n := current], g[n := g[current] + 1])
  {
  }

  lemma RelaxEntries(heap: seq<Entry>, start: Pos, g: map<Pos, nat>, goal: Pos, current: Pos, n: Pos)
    requires current in g && EntriesScored(heap, start, g, goal) && (n !in g || g[current] + 1 < g[n])
    ensures EntriesScored(heap + [Entry(g[current] + 1 + Manhattan(n, goal), g[current] + 1, n)],
                          start, g[n := g[current] + 1], goal)
  {
  }

  lemma RelaxFrontier(grid: Grid, heap: seq<Entry>, g: map<Pos, nat>, goal: Pos, current: Pos, n: Pos)
    requires Rect(grid) && current in g && Adjacent(grid, current, n)
    requires Frontier(grid, heap, g, goal, {current}) && (n !in g || g[current] + 1 < g[n])
    ensures Frontier(grid, heap + [Entry(g[current] + 1 + Manhattan(n, goal), g[current] + 1, n)],
                     g[n := g[current] + 1], goal, {current})
  {
    var g' := g[n := g[current] + 1];
    var heap' := heap + [Entry(g[current] + 1 + Manhattan(n, goal), g[current] + 1, n)];
    forall p | p in g' && p != current
      ensures Pending(grid, heap', g', goal, p)
    {
      if p == n {
        assert heap'[|heap|].p == p && heap'[|heap|].g == g'[p];
      } else {
        assert Pending(grid, heap, g, goal, p);
        if Holds(heap, p, g[p], g[p] + Manhattan(p, goal)) {
          var i :| 0 <= i < |heap| && heap[i].p == p && heap[i].g == g[p] && heap[i].f <= g[p] + Manhattan(p, goal);
          assert heap'[i] == heap[i];
        } else {
          assert Settled(grid, g, p);
          assert Settled(grid, g', p);
        }
      }
    }
  }

  lemma RelaxQueued(heap: seq<Entry>, g: map<Pos, nat>, goal: Pos, current: Pos, n: Pos)
    requires current in g && (goal in g ==> Queued(heap, goal))
    ensures goal in g[n := g[current] + 1] ==>
      Queued(heap + [Entry(g[current] + 1 + Manhattan(n, goal), g[current] + 1, n)], goal)
  {
    var heap' := heap + [Entry(g[current] + 1 + Manhattan(n, goal), g[current] + 1, n)];
    if goal == n {
      assert heap'[|heap|].p == goal;
    } else if goal in g {
      var i :| 0 <= i < |heap| && heap[i].p == goal;
      assert heap'[i].p == goal;
    }
  }

  lemma MeasureTrans(cells: seq<Pos>, g1: map<Pos, nat>, h1: seq<Entry>, g2: map<Pos, nat>, h2: seq<Entry>,
                     g3: map<Pos, nat>, h3: seq<Entry>)
    requires MeasureLe(cells, g1, h1, g2, h2) && MeasureLe(cells, g2, h2, g3, h3)
    ensures MeasureLe(cells, g1, h1, g3, h3)
  {
  }

  /** The loop over `neighbors(grid, current)`: afterwards `current` is
      settled, so every scored point is pending again. */
  method Expand(grid: Grid, ghost cells: seq<Pos>, start: Pos, goal: Pos, current: Pos,
                heap: seq<Entry>, cameFrom: map<Pos, Pos>, g: map<Pos, nat>)
    returns (heap': seq<Entry>, cameFrom': map<Pos, Pos>, g': map<Pos, nat>)
    requires Rect(grid) && Covers(grid, cells) && current in g
    requires Searching(grid, start, goal, heap, cameFrom, g, {current})
    ensures Searching(grid, start, goal, heap', cameFrom', g', {})
    ensures MeasureLe(cells, g, heap, g', heap')
  {
    var nbrs := Neighbors(grid, current);
    heap', cameFrom', g' := heap, cameFrom, g;
    for k := 0 to |nbrs|
      invariant Searching(grid, start, goal, heap', cameFrom', g', {current})
      invariant current in g' && g'[current] == g[current]
      invariant forall j :: 0 <= j < k ==> nbrs[j] in g' && g'[nbrs[j]] <= g[current] + 1
      invariant MeasureLe(cells, g, heap, g', heap')
    {
      var h2, c2, g2 := Relax(grid, cells, start, goal, current, nbrs[k], heap', cameFrom', g');
      MeasureTrans(cells, g, heap, g', heap', g2, h2);
      forall j | 0 <= j < k + 1
        ensures nbrs[j] in g2 && g2[nbrs[j]] <= g[current] + 1
      {
        if j < k {
          assert g2[nbrs[j]] <= g'[nbrs[j]];
        }
      }
      heap', cameFrom', g' := h2, c2, g2;
    }
    SettleCurrent(grid, heap', g', goal, current, g[current]);
  }

  lemma SettleCurrent(grid: Grid, heap: seq<Entry>, g: map<Pos, nat>, goal: Pos, current: Pos, score: nat)
    requires Rect(grid) && current in g && g[current] == score
    requires Frontier(grid, heap, g, goal, {current})
    requires var nbrs := Neighbors(grid, current);
      forall j :: 0 <= j < |nbrs| ==> nbrs[j] in g && g[nbrs[j]] <= score + 1
    ensures Frontier(grid, heap, g, goal, {})
  {
    var nbrs := Neighbors(grid, current);
    forall q | Adjacent(grid, current, q)
      ensures q in g && g[q] <= g[current] + 1
    {
      var j :| 0 <= j < |nbrs| && nbrs[j] == q;
    }
    assert Settled(grid, g, current);
  }

  lemma InRest(heap: seq<Entry>, i: nat, e: Entry)
    requires i < |heap| && e in heap && e != heap[i]
    ensures e in heap[..i] + heap[i + 1..]
  {
    var j :| 0 <= j < |heap| && heap[j] == e;
    if j < i {
      assert (heap[..i] + heap[i + 1..])[j] == e;
    } else {
      assert (heap[..i] + heap[i + 1..])[j - 1] == e;
    }
  }

  /** Popping the entry for `current` keeps every other point pending. */
  lemma PopKeeps(grid: Grid, start: Pos, goal: Pos, heap: seq<Entry>, cameFrom: map<Pos, Pos>, g: map<Pos, nat>, i: nat)
    requires Rect(grid) && i < |heap| && heap[i].p != goal
    requires Searching(grid, start, goal, heap, cameFrom, g, {})
    ensures Searching(grid, start, goal, heap[..i] + heap[i + 1..], cameFrom, g, {heap[i].p})
  {
    var rest := heap[..i] + heap[i + 1..];
    assert forall j :: 0 <= j < |rest| ==> rest[j] in heap;
    forall p | p in g && p != heap[i].p
      ensures Pending(grid, rest, g, goal, p)
    {
      assert Pending(grid, heap, g, goal, p);
      if Holds(heap, p, g[p], g[p] + Manhattan(p, goal)) {
        var j :| 0 <= j < |heap| && heap[j].p == p && heap[j].g == g[p] && heap[j].f <= g[p] + Manhattan(p, goal);
        InRest(heap, i, heap[j]);
        var k :| 0 <= k < |rest| && rest[k] == heap[j];
      }
    }
    if goal in g {
      var j :| 0 <= j < |heap| && heap[j].p == goal;
      InRest(heap, i, heap[j]);
      var k :| 0 <= k < |rest| && rest[k] == heap[j];
    }
  }

  /** `s.reverse()`. */
  function Reversed<T>(s: seq<T>): (r: seq<T>)
    ensures |r| == |s| && forall i :: 0 <= i < |s| ==> r[i] == s[|s| - 1 - i]
  {
    if |s| == 0 then [] else [s[|s| - 1]] + Reversed(s[..|s| - 1])
  }

  /** `reconstruct_path`: follows `came_from` back to the start, then
      reverses; the walk takes at most `current`'s score in moves. */
  method ReconstructPath(cameFrom: map<Pos, Pos>, current: Pos, ghost grid: Grid, ghost start: Pos, ghost g: map<Pos, nat>)
    returns (path: seq<Pos>)
    requires Rect(grid) && Tree(grid, start, cameFrom, g) && current in g
    ensures IsPath(grid, path, start, current) && |path| - 1 <= g[current]
  {
    var cur := current;
    path := [cur];
    while cur in cameFrom
      invariant cur in g && |path| > 0 && path[0] == current && path[|path| - 1] == cur
      invariant forall i :: 0 <= i < |path| - 1 ==> Adjacent(grid, path[i + 1], path[i])
      invariant |path| - 1 + g[cur] <= g[current]
      decreases g[cur]
    {
      cur := cameFrom[cur];
      path := path + [cur];
    }
    path := Reversed(path);
  }

  /** When the goal is popped, its score is at most the length of any walk
      from the start: some point of that walk is queued with an `f` no
      greater, and the goal's entry was the least. */
  lemma GoalBound(grid: Grid, start: Pos, goal: Pos, heap: seq<Entry>, cameFrom: map<Pos, Pos>, g: map<Pos, nat>,
                  i: nat, walk: seq<Pos>)
    requires Rect(grid) && Searching(grid, start, goal, heap, cameFrom, g, {})
    requires i < |heap| && heap[i].p == goal && forall j :: 0 <= j < |heap| ==> EntryLe(heap[i], heap[j])
    requires IsPath(grid, walk, start, goal)
    ensures goal in g && g[goal] <= |walk| - 1
  {
    GoalWalk(grid, goal, heap, g, walk, 0);
    if exists k :: 0 <= k < |heap| && heap[k].f <= |walk| - 1 {
      var k :| 0 <= k < |heap| && heap[k].f <= |walk| - 1;
      assert EntryLe(heap[i], heap[k]);
    }
  }

  lemma {:induction false} GoalWalk(grid: Grid, goal: Pos, heap: seq<Entry>, g: map<Pos, nat>, walk: seq<Pos>, j: nat)
    requires Rect(grid) && Frontier(grid, heap, g, goal, {})
    requires j < |walk| && walk[|walk| - 1] == goal
    requires forall i :: 0 <= i < |walk| - 1 ==> Adjacent(grid, walk[i], walk[i + 1])
    requires walk[j] in g && g[walk[j]] <= j
    ensures (goal in g && g[goal] <= |walk| - 1) || exists k :: 0 <= k < |heap| && heap[k].f <= |walk| - 1
    decreases |walk| - j
  {
    if j < |walk| - 1 {
      var p := walk[j];
      assert Pending(grid, heap, g, goal, p);
      if Holds(heap, p, g[p], g[p] + Manhattan(p, goal)) {
        ManhattanAlong(grid, walk, j, |walk| - 1);
        var k :| 0 <= k < |heap| && heap[k].p == p && heap[k].g == g[p] && heap[k].f <= g[p] + Manhattan(p, goal);
      } else {
        assert Adjacent(grid, walk[j], walk[j + 1]);
        GoalWalk(grid, goal, heap, g, walk, j + 1);
      }
    }
  }

  /** With nothing queued, every walk from a scored point stays on scored
      points. */
  lemma {:induction false} WalkScored(grid: Grid, goal: Pos, g: map<Pos, nat>, walk: seq<Pos>, k: nat)
    requires Rect(grid) && Frontier(grid, [], g, goal, {})
    requires k < |walk| && walk[0] in g
    requires forall i :: 0 <= i < |walk| - 1 ==> Adjacent(grid, walk[i], walk[i + 1])
    ensures walk[k] in g
  {
    if k > 0 {
      WalkScored(grid, goal, g, walk, k - 1);
      assert Pending(grid, [], g, goal, walk[k - 1]);
      assert Adjacent(grid, walk[k - 1], walk[k]);
    }
  }

  /** With nothing queued, every walk from the start ends on a scored point. */
  lemma ReachScored(grid: Grid, start: Pos, goal: Pos, g: map<Pos, nat>)
    requires Rect(grid) && Frontier(grid, [], g, goal, {}) && start in g
    ensures forall walk :: |walk| > 0 && IsPath(grid, walk, start, walk[|walk| - 1]) ==> walk[|walk| - 1] in g
  {
    forall walk | |walk| > 0 && IsPath(grid, walk, start, walk[|walk| - 1])
      ensures walk[|walk| - 1] in g
    {
      WalkScored(grid, goal, g, walk, |walk| - 1);
    }
  }

  /** `a_star_search`: `[start]` when start and goal coincide; otherwise a
      walk from start to goal that no other walk beats, or `None` exactly
      when no walk reaches the goal. */
  method AStarSearch(grid: Grid, start: Pos, goal: Pos) returns (r: Option<seq<Pos>>)
    requires Rect(grid)
    ensures start == goal ==> r == Some([start])
    ensures r.Some? ==> IsPath(grid, r.value, start, goal)
    ensures r.Some? ==> forall walk :: IsPath(grid, walk, start, goal) ==> |r.value| <= |walk|
    ensures r.None? ==> forall walk :: !IsPath(grid, walk, start, goal)
  {
    if start == goal {
      return Some([start]);
    }
    var heap := [Entry(0, 0, start)];
    var cameFrom: map<Pos, Pos> := map[];
    var g: map<Pos, nat> := map[start := 0];
    ghost var cells := GridCells(grid);
    GridCellsCover(grid);
    assert Holds(heap, start, 0, Manhattan(start, goal)) && heap[0].p == start;
    while |heap| > 0
      invariant Searching(grid, start, goal, heap, cameFrom, g, {})
      decreases Unscored(cells, g), ScoreSum(cells, g), |heap|
    {
      var i := MinIndex(heap);
      ghost var queued := heap;
      var current := heap[i].p;
      heap := heap[..i] + heap[i + 1..];
      if current == goal {
        forall walk | IsPath(grid, walk, start, goal)
          ensures g[goal] <= |walk| - 1
        {
          GoalBound(grid, start, goal, queued, cameFrom, g, i, walk);
        }
        var path := ReconstructPath(cameFrom, current, grid, start, g);
        return Some(path);
      }
      PopKeeps(grid, start, goal, queued, cameFrom, g, i);
      heap, cameFrom, g := Expand(grid, cells, start, goal, current, heap, cameFrom, g);
    }
    ReachScored(grid, start, goal, g);
    return None;
  }

  // ---------------------------------------------------------------- report

  /** `pretty_print_with_path` without the printing: a copy of the map with
      every cell of the path shown as '*', except the '@' and the '>'. */
  method PathOverlay(grid: Grid, path: seq<Pos>) returns (shown: Grid)
    requires Rect(grid) && forall i :: 0 <= i < |path| ==> InBounds(grid, path[i])
    ensures |shown| == |grid| && Rect(shown) && (|grid| > 0 ==> |shown[0]| == |grid[0]|)
    ensures forall y, x :: 0 <= y < |grid| && 0 <= x < |grid[y]| ==>
      shown[y][x] == if Pos(x, y) in path && grid[y][x] != '@' && grid[y][x] != '>' then '*' else grid[y][x]
  {
    shown := grid;
    for k := 0 to |path|
      invariant |shown| == |grid| && forall y :: 0 <= y < |grid| ==> |shown[y]| == |grid[y]|
      invariant forall y, x :: 0 <= y < |grid| && 0 <= x < |grid[y]| ==>
        shown[y][x] == if Pos(x, y) in path[..k] && grid[y][x] != '@' && grid[y][x] != '>' then '*' else grid[y][x]
    {
      var p := path[k];
      assert path[..k + 1] == path[..k] + [p];
      if shown[p.y][p.x] != '@' && shown[p.y][p.x] != '>' {
        shown := shown[p.y := shown[p.y][p.x := '*']];
      }
    }
    assert path[..|path|] == path;
  }

  /** What the script reports. */
  datatype Outcome =
    | Exit(message: string)
    | NoPath
    | Steps(moves: int, total: int, overlay: Option<Grid>)

  /** The script once '@' and '>' are found: no path, or the moves of a
      shortest path and that number plus one for pressing space, with the
      overlay on request. */
  method Report(grid: Grid, start: Pos, goal: Pos, showPath: bool) returns (o: Outcome)
    requires Rect(grid) && InBounds(grid, start)
    ensures !o.Exit?
    ensures o.NoPath? <==> forall walk :: !IsPath(grid, walk, start, goal)
    ensures o.Steps? ==>
      && o.total == o.moves + 1 && (o.overlay.Some? <==> showPath)
      && Manhattan(start, goal) <= o.moves
      && (exists walk :: IsPath(grid, walk, start, goal) && |walk| - 1 == o.moves)
      && (forall walk :: IsPath(grid, walk, start, goal) ==> o.moves <= |walk| - 1)
  {
    var path := AStarSearch(grid, start, goal);
    if path.None? {
      return NoPath;
    }
    var moves := |path.value| - 1;
    var total := moves + 1;
    ManhattanAlong(grid, path.value, 0, moves);
    var overlay: Option<Grid> := None;
    if showPath {
      forall i | 0 <= i < |path.value|
        ensures InBounds(grid, path.value[i])
      {
        if i > 0 {
          assert Adjacent(grid, path.value[i - 1], path.value[i]);
        }
      }
      var shown := PathOverlay(grid, path.value);
      overlay := Some(shown);
    }
    o := Steps(moves, total, overlay);
  }

  /** `main` on a map's text: exit when '@' or '>' is missing, the player
      first; otherwise the report on the last '@' and the last '>'. */
  method Run(text: string, showPath: bool) returns (o: Outcome)
    ensures var grid := Padded(SplitLines(text));
            var pl := LastIn(grid, Width(grid), '@', |grid|, 0);
            var st := LastIn(grid, Width(grid), '>', |grid|, 0);
      && (o.Exit? <==> pl.None? || st.None?)
      && (o.NoPath? <==> pl.Some? && st.Some? && forall walk :: !IsPath(grid, walk, pl.value, st.value))
      && (o.Steps? ==>
            && pl.Some? && st.Some?
            && o.total == o.moves + 1 && (o.overlay.Some? <==> showPath)
            && Manhattan(pl.value, st.value) <= o.moves
            && (exists walk :: IsPath(grid, walk, pl.value, st.value) && |walk| - 1 == o.moves)
            && (forall walk :: IsPath(grid, walk, pl.value, st.value) ==> o.moves <= |walk| - 1))
  {
    var grid := LoadMap(text);
    var found := FindPlayerAndStairs(grid);
    if found.Failure? {
      return Exit(found.error);
    }
    var (start, goal) := found.value;
    FoundAreLast(grid, start, goal);
    o := Report(grid, start, goal, showPath);
  }
}
