/** Procedural floors (src/core/procgen.py): the per-floor limit tables,
    the weight-table merge, rectangular rooms, the L-shaped tunnels, and the
    dungeon generator. Every random draw is an input. */
module Procgen {
  import opened Wrappers
  import opened Tiles
  import opened EntityFactories
  import opened Core

  // ---------------------------------------------------------------- floor tables

  /** `(floor_minimum, value)` pairs, in ascending floor order. */
  const MaxItemsByFloor: seq<(int, int)> := [(1, 1), (4, 2)]
  const MaxMonstersByFloor: seq<(int, int)> := [(1, 2), (4, 3), (6, 5)]

  /** Where a scan over `(key, ...)` entries that stops at the first key
      above `floor` stops: the number of entries it takes. */
  function Reached<V>(table: seq<(int, V)>, floor: int): (n: nat)
    ensures n <= |table|
    ensures forall i :: 0 <= i < n ==> table[i].0 <= floor
    ensures n < |table| ==> table[n].0 > floor
  {
    if |table| == 0 || table[0].0 > floor then 0
    else
      var n := 1 + Reached(table[1..], floor);
      assert forall i :: 1 <= i < n ==> table[i] == table[1..][i - 1];
      n
  }

  /** The entries a stopping scan takes are exactly those before the first
      key above `floor`. */
  lemma ReachedUnique<V>(table: seq<(int, V)>, floor: int, n: nat)
    requires n <= |table| && (forall i :: 0 <= i < n ==> table[i].0 <= floor)
    requires n < |table| ==> table[n].0 > floor
    ensures Reached(table, floor) == n
  {
  }

  /** The value the scan of `get_max_value_for_floor` ends with: that of the
      last entry taken, 0 when none is. */
  function MaxValueFor(table: seq<(int, int)>, floor: int): int {
    var n := Reached(table, floor);
    if n == 0 then 0 else table[n - 1].1
  }

  /** `get_max_value_for_floor`. */
  method GetMaxValueForFloor(table: seq<(int, int)>, floor: int) returns (v: int)
    ensures v == MaxValueFor(table, floor)
  {
    v := 0;
    var i := 0;
    while i < |table|
      invariant 0 <= i <= |table|
      invariant forall j :: 0 <= j < i ==> table[j].0 <= floor
      invariant v == if i == 0 then 0 else table[i - 1].1
    {
      if table[i].0 > floor {
        break;
      }
      v := table[i].1;
      i := i + 1;
    }
    ReachedUnique(table, floor, i);
  }

  predicate Ascending(table: seq<(int, int)>) {
    forall i, j :: 0 <= i < j < |table| ==> table[i].0 < table[j].0
  }

  /** On an ascending table the value is that of the entry with the
      largest minimum not above the floor. */
  lemma MaxValueAt(table: seq<(int, int)>, floor: int, i: nat)
    requires Ascending(table) && i < |table| && table[i].0 <= floor
    requires i + 1 == |table| || floor < table[i + 1].0
    ensures MaxValueFor(table, floor) == table[i].1
  {
    forall j | 0 <= j <= i
      ensures table[j].0 <= floor
    {
      if j < i {
        assert table[j].0 < table[i].0;
      }
    }
    ReachedUnique(table, floor, i + 1);
  }

  /** The monster limits: none before floor 1, then 2, from floor 4 on 3,
      from floor 6 on 5. */
  lemma MonsterLimits(floor: int)
    ensures MaxValueFor(MaxMonstersByFloor, floor)
         == if floor < 1 then 0 else if floor < 4 then 2 else if floor < 6 then 3 else 5
  {
    if floor >= 6 {
      MaxValueAt(MaxMonstersByFloor, floor, 2);
    } else if floor >= 4 {
      MaxValueAt(MaxMonstersByFloor, floor, 1);
    } else if floor >= 1 {
      MaxValueAt(MaxMonstersByFloor, floor, 0);
    }
  }

  /** The item limits: none before floor 1, then 1, from floor 4 on 2. */
  lemma ItemLimits(floor: int)
    ensures MaxValueFor(MaxItemsByFloor, floor) == if floor < 1 then 0 else if floor < 4 then 1 else 2
  {
    if floor >= 4 {
      MaxValueAt(MaxItemsByFloor, floor, 1);
    } else if floor >= 1 {
      MaxValueAt(MaxItemsByFloor, floor, 0);
    }
  }

  // ---------------------------------------------------------------- weights

  /** An insertion-ordered dict from templates to weights. */
  type Weights = seq<(Template, int)>

  /** `{floor_key: [(template, weight), ...]}`, in the dict's order. */
  const ItemChances: seq<(int, Weights)> :=
    [(0, [(HealthPotion(), 35)]), (2, [(HealthPotion(), 35)]), (4, [(HealthPotion(), 35)]), (6, [(HealthPotion(), 35)])]
  const EnemyChances: seq<(int, Weights)> :=
    [(0, [(Ghost(), 80)]), (3, [(Troll(), 15)]), (5, [(Troll(), 30)]), (7, [(Troll(), 60)])]

  function Lookup(m: Weights, t: Template): Option<int> {
    if |m| == 0 then None else if m[0].0 == t then Some(m[0].1) else Lookup(m[1..], t)
  }

  predicate DistinctKeys(m: Weights) {
    forall i, j :: 0 <= i < j < |m| ==> m[i].0 != m[j].0
  }

  /** `d[t] = w`: an existing key keeps its place and takes the new weight,
      a new key goes last. */
  function Assign(m: Weights, t: Template, w: int): (r: Weights)
    ensures |r| == |m| + (if Lookup(m, t).None? then 1 else 0)
    ensures forall i :: 0 <= i < |m| ==> r[i].0 == m[i].0
    ensures Lookup(m, t).None? ==> r[|m|] == (t, w)
  {
    if |m| == 0 then [(t, w)]
    else if m[0].0 == t then [(t, w)] + m[1..]
    else
      var r := [m[0]] + Assign(m[1..], t, w);
      assert forall i :: 1 <= i < |m| ==> m[i] == m[1..][i - 1];
      r
  }

  /** After `d[t] = w`, `t` has weight `w`, every other key what it had, and
      keys stay distinct. */
  lemma AssignMeaning(m: Weights, t: Template, w: int)
    ensures Lookup(Assign(m, t, w), t) == Some(w)
    ensures forall u :: u != t ==> Lookup(Assign(m, t, w), u) == Lookup(m, u)
    ensures DistinctKeys(m) ==> DistinctKeys(Assign(m, t, w))
  {
    AssignLookup(m, t, w);
    if DistinctKeys(m) {
      AssignDistinct(m, t, w);
    }
  }

  lemma {:induction false} AssignLookup(m: Weights, t: Template, w: int)
    ensures Lookup(Assign(m, t, w), t) == Some(w)
    ensures forall u :: u != t ==> Lookup(Assign(m, t, w), u) == Lookup(m, u)
  {
    if |m| > 0 && m[0].0 != t {
      AssignLookup(m[1..], t, w);
      var r := Assign(m, t, w);
      assert r == [m[0]] + Assign(m[1..], t, w);
      assert r[1..] == Assign(m[1..], t, w);
    }
  }

  lemma {:induction false} AssignDistinct(m: Weights, t: Template, w: int)
    requires DistinctKeys(m)
    ensures DistinctKeys(Assign(m, t, w))
  {
    if |m| > 0 && m[0].0 != t {
      var r := Assign(m, t, w);
      var rest := Assign(m[1..], t, w);
      assert DistinctKeys(m[1..]) by {
        assert forall i :: 1 <= i < |m| ==> m[i] == m[1..][i - 1];
      }
      AssignDistinct(m[1..], t, w);
      assert r == [m[0]] + rest;
      forall i | 0 <= i < |rest|
        ensures rest[i].0 != m[0].0
      {
        if i < |m| - 1 {
          assert rest[i].0 == m[1..][i].0 == m[i + 1].0;
        } else {
          LookupNoneMeansAbsent(m[1..], t);
        }
      }
      DistinctCons(m[0], rest);
    }
  }

  /** A new key in front of distinct keys keeps them distinct. */
  lemma DistinctCons(x: (Template, int), rest: Weights)
    requires DistinctKeys(rest) && forall i :: 0 <= i < |rest| ==> rest[i].0 != x.0
    ensures DistinctKeys([x] + rest)
  {
    var r := [x] + rest;
    forall i, j | 0 <= i < j < |r|
      ensures r[i].0 != r[j].0
    {
      assert r[j] == rest[j - 1];
      if i > 0 {
        assert r[i] == rest[i - 1];
      }
    }
  }

  lemma {:induction false} LookupNoneMeansAbsent(m: Weights, t: Template)
    requires Lookup(m, t).None?
    ensures forall i :: 0 <= i < |m| ==> m[i].0 != t
  {
    if |m| > 0 {
      LookupNoneMeansAbsent(m[1..], t);
      assert forall i :: 1 <= i < |m| ==> m[i] == m[1..][i - 1];
    }
  }

  /** The assignments `d[t] = w` for each entry of `es`, in order. */
  function AssignAll(m: Weights, es: Weights): Weights {
    if |es| == 0 then m else
      var last := es[|es| - 1];
      Assign(AssignAll(m, es[..|es| - 1]), last.0, last.1)
  }

  /** The weight of the last entry of `es` for `t`. */
  function LastOf(es: Weights, t: Template): Option<int> {
    if |es| == 0 then None
    else if es[|es| - 1].0 == t then Some(es[|es| - 1].1)
    else LastOf(es[..|es| - 1], t)
  }

  /** The values of the taken tables, one after another. */
  function Flatten(tables: seq<(int, Weights)>): Weights {
    if |tables| == 0 then [] else Flatten(tables[..|tables| - 1]) + tables[|tables| - 1].1
  }

  /** The dict `get_entities_at_random` builds before drawing. */
  function Merged(tables: seq<(int, Weights)>, floor: int): Weights {
    AssignAll([], Flatten(tables[..Reached(tables, floor)]))
  }

  lemma AssignAllSnoc(m: Weights, es: Weights, e: (Template, int))
    ensures AssignAll(m, es + [e]) == Assign(AssignAll(m, es), e.0, e.1)
  {
    assert (es + [e])[..|es|] == es;
  }

  /** Assigning `a` then `b` is assigning `a + b`. */
  lemma {:induction false} AssignAllAppend(m: Weights, a: Weights, b: Weights)
    ensures AssignAll(m, a + b) == AssignAll(AssignAll(m, a), b)
    decreases |b|
  {
    if |b| == 0 {
      assert a + b == a;
    } else {
      var init, last := b[..|b| - 1], b[|b| - 1];
      AssignAllAppend(m, a, init);
      assert (a + b)[..|a + b| - 1] == a + init;
      calc {
        AssignAll(m, a + b);
        Assign(AssignAll(m, a + init), last.0, last.1);
        Assign(AssignAll(AssignAll(m, a), init), last.0, last.1);
        AssignAll(AssignAll(m, a), b);
      }
    }
  }

  /** The inner loop of the merge: `d[t] = w` for each pair of one table. */
  method AssignEach(m: Weights, values: Weights) returns (r: Weights)
    ensures r == AssignAll(m, values)
  {
    r := m;
    for j := 0 to |values|
      invariant r == AssignAll(m, values[..j])
    {
      AssignAllSnoc(m, values[..j], values[j]);
      assert values[..j + 1] == values[..j] + [values[j]];
      r := Assign(r, values[j].0, values[j].1);
    }
    assert values[..|values|] == values;
  }

  /** The merge loop of `get_entities_at_random`: the tables in order,
      stopping at the first key above `floor`. */
  method MergeWeights(tables: seq<(int, Weights)>, floor: int) returns (m: Weights)
    ensures m == Merged(tables, floor)
  {
    m := [];
    var i := 0;
    while i < |tables|
      invariant 0 <= i <= |tables|
      invariant forall k :: 0 <= k < i ==> tables[k].0 <= floor
      invariant m == AssignAll([], Flatten(tables[..i]))
    {
      if tables[i].0 > floor {
        break;
      }
      m := AssignEach(m, tables[i].1);
      AssignAllAppend([], Flatten(tables[..i]), tables[i].1);
      assert tables[..i + 1][..i] == tables[..i];
      i := i + 1;
    }
    ReachedUnique(tables, floor, i);
  }

  /** Later entries override earlier ones: after the merge each template
      has the weight of its last entry, and templates without an entry keep
      what they had. */
  lemma {:induction false} AssignAllLookup(m: Weights, es: Weights, t: Template)
    ensures Lookup(AssignAll(m, es), t) == if LastOf(es, t).Some? then LastOf(es, t) else Lookup(m, t)
    decreases |es|
  {
    if |es| > 0 {
      AssignAllLookup(m, es[..|es| - 1], t);
      AssignMeaning(AssignAll(m, es[..|es| - 1]), es[|es| - 1].0, es[|es| - 1].1);
    }
  }

  /** The merge has each template once. */
  lemma {:induction false} AssignAllDistinct(m: Weights, es: Weights)
    requires DistinctKeys(m)
    ensures DistinctKeys(AssignAll(m, es))
    decreases |es|
  {
    if |es| > 0 {
      AssignAllDistinct(m, es[..|es| - 1]);
      AssignMeaning(AssignAll(m, es[..|es| - 1]), es[|es| - 1].0, es[|es| - 1].1);
    }
  }

  /** Monsters are always drawn from the floor-0 merge, which holds the
      ghost alone: the strong enemy's weights are never used. */
  lemma MonsterPool()
    ensures Merged(EnemyChances, 0) == [(Ghost(), 80)]
  {
    ReachedUnique(EnemyChances, 0, 1);
    assert EnemyChances[..1] == [EnemyChances[0]];
    assert Flatten(EnemyChances[..1]) == [(Ghost(), 80)] by {
      assert EnemyChances[..1][..0] == [];
    }
  }

  /** The first `n` item tables, flattened, are `n` potion entries. */
  lemma {:induction false} PotionTables(n: nat)
    requires n <= |ItemChances|
    ensures Flatten(ItemChances[..n]) == seq(n, _ => (HealthPotion(), 35))
  {
    if n > 0 {
      PotionTables(n - 1);
      assert ItemChances[..n][..n - 1] == ItemChances[..n - 1];
      assert ItemChances[n - 1].1 == [(HealthPotion(), 35)];
    }
  }

  /** Assigning the same entry `k` times, from an empty dict, leaves one
      entry. */
  lemma {:induction false} RepeatedEntry(e: (Template, int), k: nat)
    requires k >= 1
    ensures AssignAll([], seq(k, _ => e)) == [e]
  {
    var es := seq(k - 1, _ => e);
    assert seq(k, _ => e) == es + [e];
    AssignAllSnoc([], es, e);
    if k > 1 {
      RepeatedEntry(e, k - 1);
    } else {
      assert es == [];
    }
  }

  /** Items come from a single-entry pool on every floor from 0 on, and
      from an empty one below. */
  lemma ItemPool(floor: int)
    ensures floor >= 0 ==> Merged(ItemChances, floor) == [(HealthPotion(), 35)]
    ensures floor < 0 ==> Merged(ItemChances, floor) == []
  {
    var n := Reached(ItemChances, floor);
    if floor >= 0 {
      assert n >= 1;
      PotionTables(n);
      RepeatedEntry((HealthPotion(), 35), n);
    } else {
      assert n == 0;
      assert ItemChances[..0] == [];
    }
  }

  /** `random.choices(population, k)` with the drawn indices given: the
      population's templates at those indices. */
  function Chosen(m: Weights, picks: seq<nat>): (r: seq<Template>)
    requires forall i :: 0 <= i < |picks| ==> picks[i] < |m|
    ensures |r| == |picks|
    ensures forall i :: 0 <= i < |r| ==> Lookup(m, r[i]).Some?
  {
    LookupPresent(m);
    seq(|picks|, i requires 0 <= i < |picks| => m[picks[i]].0)
  }

  /** Draws from a one-entry dict all give its key. */
  lemma ChosenSingle(m: Weights, picks: seq<nat>)
    requires |m| == 1 && forall i :: 0 <= i < |picks| ==> picks[i] < |m|
    ensures forall i :: 0 <= i < |picks| ==> Chosen(m, picks)[i] == m[0].0
  {
  }

  /** Every key of the dict is found by `Lookup`. */
  lemma {:induction false} LookupPresent(m: Weights)
    ensures forall i :: 0 <= i < |m| ==> Lookup(m, m[i].0).Some?
  {
    if |m| > 0 {
      LookupPresent(m[1..]);
      assert forall i :: 1 <= i < |m| ==> m[i] == m[1..][i - 1];
    }
  }

  // ---------------------------------------------------------------- rooms

  /** `RectangularRoom`: the corners of its closed box, walls included. */
  datatype Room = Room(x1: int, y1: int, x2: int, y2: int)
  {
    /** `center`: the truncated midpoint. */
    function Center(): Pos {
      Pos(TruncHalf(x1 + x2), TruncHalf(y1 + y2))
    }

    /** The cells of `inner`: the box without its border. */
    predicate InInner(x: int, y: int) {
      x1 < x < x2 && y1 < y < y2
    }

    /** The closed box, border included. */
    predicate InBox(x: int, y: int) {
      x1 <= x <= x2 && y1 <= y <= y2
    }

    predicate OnBorder(x: int, y: int) {
      InBox(x, y) && (x == x1 || x == x2 || y == y1 || y == y2)
    }

    /** `intersects`, with inclusive bounds. */
    predicate Intersects(other: Room) {
      x1 <= other.x2 && x2 >= other.x1 && y1 <= other.y2 && y2 >= other.y1
    }

    predicate WellFormed() {
      x1 <= x2 && y1 <= y2
    }
  }

  /** `RectangularRoom(x, y, width, height)`. */
  function NewRoom(x: int, y: int, width: int, height: int): Room {
    Room(x, y, x + width, y + height)
  }

  /** Two rooms intersect exactly when their closed boxes (walls included)
      share a cell; so the test is symmetric. */
  lemma IntersectsMeansSharedCell(a: Room, b: Room)
    requires a.WellFormed() && b.WellFormed()
    ensures a.Intersects(b) <==> exists x, y :: a.InBox(x, y) && b.InBox(x, y)
    ensures a.Intersects(b) == b.Intersects(a)
  {
    if a.Intersects(b) {
      var x := if a.x1 < b.x1 then b.x1 else a.x1;
      var y := if a.y1 < b.y1 then b.y1 else a.y1;
      assert a.InBox(x, y) && b.InBox(x, y);
    }
  }

  /** A room at least two wide and high has its center inside, off the
      walls. */
  lemma CenterInside(r: Room)
    requires 0 <= r.x1 && 0 <= r.y1 && r.x2 - r.x1 >= 2 && r.y2 - r.y1 >= 2
    ensures r.InInner(r.Center().x, r.Center().y)
  {
  }

  // ---------------------------------------------------------------- tunnels

  function Abs(n: int): nat {
    if n < 0 then -n else n
  }

  /** One step from `a` toward `b` along the axis they differ on. */
  function StepToward(a: Pos, b: Pos): Pos {
    if a.x < b.x then Pos(a.x + 1, a.y)
    else if a.x > b.x then Pos(a.x - 1, a.y)
    else if a.y < b.y then Pos(a.x, a.y + 1)
    else if a.y > b.y then Pos(a.x, a.y - 1)
    else a
  }

  /** `p` lies in the bounding box of `a` and `b`. */
  predicate Between(a: Pos, b: Pos, p: Pos) {
    && (a.x <= p.x <= b.x || b.x <= p.x <= a.x)
    && (a.y <= p.y <= b.y || b.y <= p.y <= a.y)
  }

  /** The same cell or one of its four neighbours. */
  predicate Touching(p: Pos, q: Pos) {
    Abs(p.x - q.x) + Abs(p.y - q.y) <= 1
  }

  /** `tcod.los.bresenham` between two cells on one row or one column: the
      straight run of cells from `a` to `b`, both included. */
  function Segment(a: Pos, b: Pos): (r: seq<Pos>)
    requires a.x == b.x || a.y == b.y
    ensures |r| == Abs(a.x - b.x) + Abs(a.y - b.y) + 1
    ensures r[0] == a && r[|r| - 1] == b
    ensures forall i :: 0 <= i < |r| ==> Between(a, b, r[i])
    ensures forall i :: 0 <= i < |r| - 1 ==> Touching(r[i], r[i + 1])
    decreases Abs(a.x - b.x) + Abs(a.y - b.y)
  {
    if a == b then [a]
    else
      var rest := Segment(StepToward(a, b), b);
      assert forall i :: 1 <= i < |rest| + 1 ==> ([a] + rest)[i] == rest[i - 1];
      [a] + rest
  }

  /** `tunnel_between`: to the corner along one axis, then to the end
      along the other; `horizontalFirst` is the draw `random.random() < 0.5`.
      The corner is yielded by both legs. */
  function Tunnel(start: Pos, end: Pos, horizontalFirst: bool): seq<Pos> {
    var corner := if horizontalFirst then Pos(end.x, start.y) else Pos(start.x, end.y);
    Segment(start, corner) + Segment(corner, end)
  }

  /** A tunnel runs from `start` to `end` through touching cells, all in
      the two centers' bounding box. */
  lemma TunnelShape(start: Pos, end: Pos, horizontalFirst: bool)
    ensures var t := Tunnel(start, end, horizontalFirst);
      && |t| >= 2 && t[0] == start && t[|t| - 1] == end
      && (forall i :: 0 <= i < |t| ==> Between(start, end, t[i]))
      && (forall i :: 0 <= i < |t| - 1 ==> Touching(t[i], t[i + 1]))
  {
    var corner := if horizontalFirst then Pos(end.x, start.y) else Pos(start.x, end.y);
    var s1, s2 := Segment(start, corner), Segment(corner, end);
    var t := s1 + s2;
    assert forall i :: |s1| <= i < |t| ==> t[i] == s2[i - |s1|];
    assert forall i :: 0 <= i < |s1| ==> Between(start, end, s1[i]);
    assert forall i :: 0 <= i < |s2| ==> Between(start, end, s2[i]);
    assert Touching(t[|s1| - 1], t[|s1|]);
  }

  // ---------------------------------------------------------------- entities

  /** The draws of one `place_entities` call: the two counts
      (`random.randint(0, limit)`), the indices `random.choices` picked,
      and one cell per chosen entity, monsters first. */
  datatype Placement = Placement(monsters: int, items: int, monsterPicks: seq<nat>, itemPicks: seq<nat>, spots: seq<Pos>)

  /** The draws lie in the ranges they are drawn from: counts up to the
      floor's limits, indices into the merged pools, cells inside the room. */
  predicate PlacementFits(p: Placement, room: Room, floor: int) {
    && 0 <= p.monsters <= MaxValueFor(MaxMonstersByFloor, floor)
    && 0 <= p.items <= MaxValueFor(MaxItemsByFloor, floor)
    && |p.monsterPicks| == p.monsters && |p.itemPicks| == p.items
    && (forall i :: 0 <= i < |p.monsterPicks| ==> p.monsterPicks[i] < |Merged(EnemyChances, 0)|)
    && (forall i :: 0 <= i < |p.itemPicks| ==> p.itemPicks[i] < |Merged(ItemChances, floor)|)
    && |p.spots| == p.monsters + p.items
    && (forall i :: 0 <= i < |p.spots| ==> room.InInner(p.spots[i].x, p.spots[i].y))
  }

  /** No two entities of `es` share a cell. */
  predicate DistinctCells(es: set<Entity>)
    reads es
  {
    forall a, b :: a in es && b in es && a != b ==> a.x != b.x || a.y != b.y
  }

  /** An entity a procedural floor adds: a ghost or a potion, on the map. */
  predicate Populated(e: Entity, dungeon: GameMap)
    reads e
  {
    (e.name == "Ghost" || e.name == "Health Potion") && e.parent == OnMap(dungeon)
  }

  /** The spawn step of `place_entities`: a copy of `t` at `spot`, unless
      an entity already stands there. */
  method SpawnUnlessOccupied(t: Template, dungeon: GameMap, spot: Pos) returns (e: Entity?)
    modifies dungeon`entities
    ensures (exists o :: o in old(dungeon.entities) && o.x == spot.x && o.y == spot.y) <==> e == null
    ensures e == null ==> dungeon.entities == old(dungeon.entities)
    ensures e != null ==>
      && fresh(e) && e.x == spot.x && e.y == spot.y && e.name == t.name && e.parent == OnMap(dungeon)
      && dungeon.entities == old(dungeon.entities) + {e}
    ensures DistinctCells(old(dungeon.entities)) ==> DistinctCells(dungeon.entities)
  {
    if exists o :: o in dungeon.entities && o.x == spot.x && o.y == spot.y {
      return null;
    }
    e := Instantiate(t, dungeon, spot.x, spot.y);
  }

  /** The spawn loop of `place_entities`: each chosen template at its
      drawn cell, skipping occupied cells. */
  method SpawnAll(chosen: seq<Template>, spots: seq<Pos>, room: Room, dungeon: GameMap)
    requires |spots| == |chosen|
    requires forall i :: 0 <= i < |spots| ==> room.InInner(spots[i].x, spots[i].y)
    requires forall i :: 0 <= i < |chosen| ==> chosen[i].name == "Ghost" || chosen[i].name == "Health Potion"
    modifies dungeon`entities
    ensures old(dungeon.entities) <= dungeon.entities
    ensures |dungeon.entities - old(dungeon.entities)| <= |chosen|
    ensures forall e :: e in dungeon.entities - old(dungeon.entities) ==>
      fresh(e) && room.InInner(e.x, e.y) && Populated(e, dungeon)
    ensures DistinctCells(old(dungeon.entities)) ==> DistinctCells(dungeon.entities)
  {
    ghost var added: set<Entity> := {};
    ghost var distinct := DistinctCells(dungeon.entities);
    for i := 0 to |chosen|
      invariant dungeon.entities == old(dungeon.entities) + added
      invariant |added| <= i
      invariant forall e :: e in added ==> fresh(e) && room.InInner(e.x, e.y) && Populated(e, dungeon)
      invariant distinct ==> DistinctCells(dungeon.entities)
    {
      var e := SpawnUnlessOccupied(chosen[i], dungeon, spots[i]);
      if e != null {
        assert Populated(e, dungeon) && room.InInner(e.x, e.y);
        added := added + {e};
      }
    }
    assert added !! old(dungeon.entities);
    assert dungeon.entities - old(dungeon.entities) == added;
  }

  /** `place_entities`: draws the monsters (always from the floor-0 table)
      and the items, and spawns each at its drawn cell unless an entity is
      already there. Below floor 0 the item pool is empty and
      `random.choices` raises IndexError before anything is spawned. */
  method PlaceEntities(room: Room, dungeon: GameMap, floor: int, p: Placement) returns (raised: bool)
    requires PlacementFits(p, room, floor)
    modifies dungeon`entities
    ensures raised <==> floor < 0
    ensures raised ==> dungeon.entities == old(dungeon.entities)
    ensures old(dungeon.entities) <= dungeon.entities
    ensures |dungeon.entities - old(dungeon.entities)| <= p.monsters + p.items
    ensures forall e :: e in dungeon.entities - old(dungeon.entities) ==>
      fresh(e) && room.InInner(e.x, e.y) && Populated(e, dungeon)
    ensures DistinctCells(old(dungeon.entities)) ==> DistinctCells(dungeon.entities)
  {
    var chosen;
    chosen, raised := DrawTemplates(floor, p);
    if raised {
      return;
    }
    SpawnAll(chosen, p.spots, room, dungeon);
  }

  /** The draws of `place_entities`: the monsters (from the floor-0 pool,
      always the ghost) then the items (the potion), or the `IndexError`
      of an empty item pool below floor 0. */
  method DrawTemplates(floor: int, p: Placement) returns (chosen: seq<Template>, raised: bool)
    requires |p.monsterPicks| == p.monsters && |p.itemPicks| == p.items
    requires forall i :: 0 <= i < |p.monsterPicks| ==> p.monsterPicks[i] < |Merged(EnemyChances, 0)|
    requires forall i :: 0 <= i < |p.itemPicks| ==> p.itemPicks[i] < |Merged(ItemChances, floor)|
    ensures raised <==> floor < 0
    ensures !raised ==> |chosen| == p.monsters + p.items
    ensures !raised ==> forall i :: 0 <= i < |chosen| ==>
      chosen[i].name == (if i < p.monsters then "Ghost" else "Health Potion")
  {
    var monsterPool := MergeWeights(EnemyChances, 0);
    var itemPool := MergeWeights(ItemChances, floor);
    MonsterPool();
    ItemPool(floor);
    if |itemPool| == 0 {
      return [], true;
    }
    var monsters := Chosen(monsterPool, p.monsterPicks);
    var items := Chosen(itemPool, p.itemPicks);
    ChosenSingle(monsterPool, p.monsterPicks);
    ChosenSingle(itemPool, p.itemPicks);
    chosen, raised := monsters + items, false;
    forall i | 0 <= i < |chosen|
      ensures chosen[i].name == (if i < p.monsters then "Ghost" else "Health Potion")
    {
      if i >= |monsters| {
        assert chosen[i] == items[i - |monsters|];
      }
    }
  }

  // ---------------------------------------------------------------- painting

  /** The room, walls included, lies on a map of this size. */
  predicate RoomOnMap(r: Room, width: int, height: int) {
    0 <= r.x1 <= r.x2 < width && 0 <= r.y1 <= r.y2 < height
  }

  /** The wall loop of `generate_dungeon`: wall on every border cell. */
  method PaintWalls(dungeon: GameMap, r: Room)
    requires dungeon.Valid() && RoomOnMap(r, dungeon.width, dungeon.height)
    modifies dungeon.tiles
    ensures forall x, y :: 0 <= x < dungeon.width && 0 <= y < dungeon.height ==>
      dungeon.tiles[x, y] == if r.OnBorder(x, y) then Wall() else old(dungeon.tiles[x, y])
  {
    for x := r.x1 to r.x2 + 1
      invariant forall i, j :: 0 <= i < dungeon.width && 0 <= j < dungeon.height ==>
        dungeon.tiles[i, j] == if r.OnBorder(i, j) && i < x then Wall() else old(dungeon.tiles[i, j])
    {
      for y := r.y1 to r.y2 + 1
        invariant forall i, j :: 0 <= i < dungeon.width && 0 <= j < dungeon.height ==>
          dungeon.tiles[i, j]
          == if r.OnBorder(i, j) && (i < x || (i == x && j < y)) then Wall() else old(dungeon.tiles[i, j])
      {
        if x == r.x1 || x == r.x2 || y == r.y1 || y == r.y2 {
          dungeon.tiles[x, y] := Wall();
        }
      }
    }
  }

  /** `dungeon.tiles[room.inner] = floor`. */
  method PaintInner(dungeon: GameMap, r: Room)
    requires dungeon.Valid() && RoomOnMap(r, dungeon.width, dungeon.height)
    modifies dungeon.tiles
    ensures forall x, y :: 0 <= x < dungeon.width && 0 <= y < dungeon.height ==>
      dungeon.tiles[x, y] == if r.InInner(x, y) then Floor() else old(dungeon.tiles[x, y])
  {
    // The slices are empty when the room has no inside.
    var xEnd, yEnd := if r.x2 > r.x1 then r.x2 else r.x1 + 1, if r.y2 > r.y1 then r.y2 else r.y1 + 1;
    for x := r.x1 + 1 to xEnd
      invariant forall i, j :: 0 <= i < dungeon.width && 0 <= j < dungeon.height ==>
        dungeon.tiles[i, j] == if r.InInner(i, j) && i < x then Floor() else old(dungeon.tiles[i, j])
    {
      for y := r.y1 + 1 to yEnd
        invariant forall i, j :: 0 <= i < dungeon.width && 0 <= j < dungeon.height ==>
          dungeon.tiles[i, j]
          == if r.InInner(i, j) && (i < x || (i == x && j < y)) then Floor() else old(dungeon.tiles[i, j])
      {
        dungeon.tiles[x, y] := Floor();
      }
    }
  }

  /** (x, y) is one of the eight cells around `c`. */
  predicate Around(c: Pos, x: int, y: int) {
    -1 <= x - c.x <= 1 && -1 <= y - c.y <= 1 && (x != c.x || y != c.y)
  }

  /** One tunnel cell: floor there, then a wall on each void cell around it
      that is on the map. */
  method DigCell(dungeon: GameMap, c: Pos)
    requires dungeon.Valid() && dungeon.InBounds(c.x, c.y)
    modifies dungeon.tiles
    ensures forall x, y :: 0 <= x < dungeon.width && 0 <= y < dungeon.height ==>
      dungeon.tiles[x, y]
      == if x == c.x && y == c.y then Floor()
         else if Around(c, x, y) && old(dungeon.tiles[x, y]) == Void then Wall()
         else old(dungeon.tiles[x, y])
  {
    dungeon.tiles[c.x, c.y] := Floor();
    for dx := -1 to 2
      invariant forall x, y :: 0 <= x < dungeon.width && 0 <= y < dungeon.height ==>
        dungeon.tiles[x, y]
        == if x == c.x && y == c.y then Floor()
           else if Around(c, x, y) && x - c.x < dx && old(dungeon.tiles[x, y]) == Void then Wall()
           else old(dungeon.tiles[x, y])
    {
      for dy := -1 to 2
        invariant forall x, y :: 0 <= x < dungeon.width && 0 <= y < dungeon.height ==>
          dungeon.tiles[x, y]
          == if x == c.x && y == c.y then Floor()
             else if Around(c, x, y) && (x - c.x < dx || (x - c.x == dx && y - c.y < dy))
                     && old(dungeon.tiles[x, y]) == Void then Wall()
             else old(dungeon.tiles[x, y])
      {
        if dx == 0 && dy == 0 {
          continue;
        }
        var nx, ny := c.x + dx, c.y + dy;
        if 0 <= nx < dungeon.width && 0 <= ny < dungeon.height && dungeon.tiles[nx, ny] == Void {
          dungeon.tiles[nx, ny] := Wall();
        }
      }
    }
  }

  /** The tunnel loop of `generate_dungeon`. Its cells end as floor, no
      floor is lost, and the only other change is void turned to wall. */
  method PaintTunnel(dungeon: GameMap, cells: seq<Pos>)
    requires dungeon.Valid()
    requires forall i :: 0 <= i < |cells| ==> 0 <= cells[i].x < dungeon.width && 0 <= cells[i].y < dungeon.height
    modifies dungeon.tiles
    ensures forall i :: 0 <= i < |cells| ==> dungeon.tiles[cells[i].x, cells[i].y] == Floor()
    ensures forall x, y :: 0 <= x < dungeon.width && 0 <= y < dungeon.height ==>
      && (old(dungeon.tiles[x, y]) == Floor() ==> dungeon.tiles[x, y] == Floor())
      && (dungeon.tiles[x, y] == old(dungeon.tiles[x, y]) || dungeon.tiles[x, y] == Floor()
          || (old(dungeon.tiles[x, y]) == Void && dungeon.tiles[x, y] == Wall()))
  {
    for k := 0 to |cells|
      invariant forall i :: 0 <= i < k ==> dungeon.tiles[cells[i].x, cells[i].y] == Floor()
      invariant forall x, y :: 0 <= x < dungeon.width && 0 <= y < dungeon.height ==>
        && (old(dungeon.tiles[x, y]) == Floor() ==> dungeon.tiles[x, y] == Floor())
        && (dungeon.tiles[x, y] == old(dungeon.tiles[x, y]) || dungeon.tiles[x, y] == Floor()
            || (old(dungeon.tiles[x, y]) == Void && dungeon.tiles[x, y] == Wall()))
    {
      DigCell(dungeon, cells[k]);
    }
  }

  // ---------------------------------------------------------------- generation

  /** The draws of one round of the room loop: the size, the corner, the
      tunnel's bend (used for every accepted room but the first) and the
      entities' draws (used for accepted rooms). */
  datatype RoomDraw = RoomDraw(width: int, height: int, x: int, y: int, horizontalFirst: bool, placement: Placement)

  function RoomOf(d: RoomDraw): Room {
    NewRoom(d.x, d.y, d.width, d.height)
  }

  /** The draws lie in the ranges of their `random.randint` calls. */
  predicate DrawFits(d: RoomDraw, roomMin: int, roomMax: int, mapWidth: int, mapHeight: int, floor: int) {
    && roomMin <= d.width <= roomMax && roomMin <= d.height <= roomMax
    && 0 <= d.x <= mapWidth - d.width - 1 && 0 <= d.y <= mapHeight - d.height - 1
    && PlacementFits(d.placement, RoomOf(d), floor)
  }

  /** The rooms the loop keeps: each drawn room that intersects none of
      those kept before it. */
  function Accepted(ds: seq<RoomDraw>): seq<Room> {
    if |ds| == 0 then []
    else
      var kept := Accepted(ds[..|ds| - 1]);
      var r := RoomOf(ds[|ds| - 1]);
      if exists k :: 0 <= k < |kept| && r.Intersects(kept[k]) then kept else kept + [r]
  }

  predicate PairwiseApart(rooms: seq<Room>) {
    forall i, j :: 0 <= i < |rooms| && 0 <= j < |rooms| && i != j ==> !rooms[i].Intersects(rooms[j])
  }

  /** No two kept rooms intersect, and the first draw is always kept. */
  lemma {:induction false} AcceptedApart(ds: seq<RoomDraw>)
    ensures PairwiseApart(Accepted(ds))
    ensures |ds| > 0 ==> |Accepted(ds)| > 0 && Accepted(ds)[0] == RoomOf(ds[0])
  {
    if |ds| > 0 {
      var init := ds[..|ds| - 1];
      AcceptedApart(init);
      if |ds| == 1 {
        assert init == [];
      } else {
        assert init[0] == ds[0];
      }
    }
  }

  /** The center of a room on the map lies in its box. */
  lemma CenterInBox(r: Room)
    requires 0 <= r.x1 <= r.x2 && 0 <= r.y1 <= r.y2
    ensures r.InBox(r.Center().x, r.Center().y)
  {
  }

  /** Each kept room's inside is floor, but for the cell `except`. */
  predicate InsidesFloor(dungeon: GameMap, rooms: seq<Room>, except: Option<Pos>)
    reads dungeon.tiles
  {
    && dungeon.tiles.Length0 == dungeon.width && dungeon.tiles.Length1 == dungeon.height
    && forall k, x, y :: (0 <= k < |rooms| && 0 <= x < dungeon.width && 0 <= y < dungeon.height
                          && rooms[k].InInner(x, y) && except != Some(Pos(x, y))) ==> dungeon.tiles[x, y] == Floor()
  }

  /** The player is on the map, no two entities share a cell, and every
      other entity is a ghost or a potion inside some kept room (there are
      none before the first room). */
  predicate EntitiesPlaced(dungeon: GameMap, player: Entity, rooms: seq<Room>)
    reads dungeon, dungeon.entities
  {
    && player in dungeon.entities && DistinctCells(dungeon.entities)
    && (|rooms| == 0 ==> dungeon.entities == {player})
    && (forall e :: e in dungeon.entities && e != player ==>
          Populated(e, dungeon) && exists k :: 0 <= k < |rooms| && rooms[k].InInner(e.x, e.y))
  }

  /** The player stands at the first room's center. */
  predicate PlayerAtStart(dungeon: GameMap, player: Entity, rooms: seq<Room>)
    reads player
  {
    |rooms| > 0 ==> player.x == rooms[0].Center().x && player.y == rooms[0].Center().y && player.parent == OnMap(dungeon)
  }

  /** The state between two rounds of the room loop, for the rooms kept so
      far; no stairs yet. */
  predicate Building(dungeon: GameMap, player: Entity, rooms: seq<Room>)
    reads dungeon, dungeon.entities, dungeon.tiles, player
  {
    && dungeon.Valid() && dungeon.downstairs == None
    && (forall k :: 0 <= k < |rooms| ==> RoomOnMap(rooms[k], dungeon.width, dungeon.height))
    && PairwiseApart(rooms)
    && InsidesFloor(dungeon, rooms, None)
    && EntitiesPlaced(dungeon, player, rooms)
    && PlayerAtStart(dungeon, player, rooms)
  }

  /** The player's `place` raises KeyError: its parent is a map that no
      longer holds it. */
  predicate StrayPlayer(player: Entity)
    reads player, if player.parent.OnMap? then {player.parent.gm} else {}
  {
    player.parent.OnMap? && player !in player.parent.gm.entities
  }

  /** Walls, then floor, for a room apart from the kept ones: their
      insides stay floor and the new inside is floor. */
  method PaintRoom(dungeon: GameMap, rooms: seq<Room>, r: Room)
    requires dungeon.Valid() && InsidesFloor(dungeon, rooms, None) && RoomOnMap(r, dungeon.width, dungeon.height)
    requires forall k :: 0 <= k < |rooms| ==> RoomOnMap(rooms[k], dungeon.width, dungeon.height)
    requires forall k :: 0 <= k < |rooms| ==> !r.Intersects(rooms[k])
    modifies dungeon.tiles
    ensures InsidesFloor(dungeon, rooms + [r], None)
  {
    PaintWalls(dungeon, r);
    PaintInner(dungeon, r);
    forall k | 0 <= k < |rooms| {
      IntersectsMeansSharedCell(r, rooms[k]);
    }
    assert forall k :: 0 <= k < |rooms| ==> (rooms + [r])[k] == rooms[k];
  }

  /** The tunnel from the previous room's center to the new one's. */
  method Connect(dungeon: GameMap, rooms: seq<Room>, horizontalFirst: bool)
    requires dungeon.Valid() && |rooms| >= 2 && InsidesFloor(dungeon, rooms, None)
    requires forall k :: 0 <= k < |rooms| ==> RoomOnMap(rooms[k], dungeon.width, dungeon.height)
    modifies dungeon.tiles
    ensures InsidesFloor(dungeon, rooms, None)
  {
    var prev, r := rooms[|rooms| - 2], rooms[|rooms| - 1];
    CenterInBox(prev);
    CenterInBox(r);
    TunnelShape(prev.Center(), r.Center(), horizontalFirst);
    PaintTunnel(dungeon, Tunnel(prev.Center(), r.Center(), horizontalFirst));
  }

  /** Keeping one more room keeps every entity inside a kept room. */
  lemma PlacedGrow(dungeon: GameMap, player: Entity, rooms: seq<Room>, r: Room)
    requires EntitiesPlaced(dungeon, player, rooms)
    ensures EntitiesPlaced(dungeon, player, rooms + [r])
  {
    forall e | e in dungeon.entities && e != player
      ensures exists k :: 0 <= k < |rooms + [r]| && (rooms + [r])[k].InInner(e.x, e.y)
    {
      var k :| 0 <= k < |rooms| && rooms[k].InInner(e.x, e.y);
      assert (rooms + [r])[k] == rooms[k];
    }
  }

  /** `place_entities` for the newest kept room. */
  method Populate(dungeon: GameMap, player: Entity, rooms: seq<Room>, floor: int, p: Placement)
    returns (raised: bool)
    requires |rooms| > 0 && EntitiesPlaced(dungeon, player, rooms)
    requires PlacementFits(p, rooms[|rooms| - 1], floor)
    modifies dungeon`entities
    ensures raised <==> floor < 0
    ensures !raised ==> EntitiesPlaced(dungeon, player, rooms)
  {
    var r := rooms[|rooms| - 1];
    ghost var before := dungeon.entities;
    raised := PlaceEntities(r, dungeon, floor, p);
    if raised {
      return;
    }
    forall e | e in dungeon.entities && e != player
      ensures exists k :: 0 <= k < |rooms| && rooms[k].InInner(e.x, e.y)
    {
      if e !in before {
        assert rooms[|rooms| - 1].InInner(e.x, e.y);
      }
    }
  }

  /** One accepted round of the room loop, after the intersection test:
      paint the room, place the player (first room) or dig the tunnel from
      the previous room (later ones), then place the entities. */
  method AddRoom(dungeon: GameMap, player: Entity, rooms: seq<Room>, d: RoomDraw, floor: int)
    returns (raised: bool)
    requires Building(dungeon, player, rooms)
    requires RoomOnMap(RoomOf(d), dungeon.width, dungeon.height) && PlacementFits(d.placement, RoomOf(d), floor)
    requires forall k :: 0 <= k < |rooms| ==> !RoomOf(d).Intersects(rooms[k])
    requires |rooms| == 0 && player.parent.OnMap? ==> player.parent.gm != dungeon
    modifies dungeon.tiles, dungeon`entities, player`x, player`y, player`parent
    modifies (if |rooms| == 0 && player.parent.OnMap? then {player.parent.gm} else {})`entities
    ensures raised <==> (|rooms| == 0 && old(StrayPlayer(player))) || floor < 0
    ensures !raised ==> Building(dungeon, player, rooms + [RoomOf(d)])
  {
    var r := RoomOf(d);
    var rooms' := rooms + [r];
    PaintRoom(dungeon, rooms, r);
    if |rooms| == 0 {
      raised := player.Place(r.Center().x, r.Center().y, Some(dungeon));
      if raised {
        return;
      }
      assert dungeon.entities == {player};
      assert EntitiesPlaced(dungeon, player, rooms');
    } else {
      PlacedGrow(dungeon, player, rooms, r);
      Connect(dungeon, rooms', d.horizontalFirst);
    }
    raised := Populate(dungeon, player, rooms', floor, d.placement);
    if raised {
      return;
    }
    assert forall k :: 0 <= k < |rooms| ==> rooms'[k] == rooms[k];
  }

  /** The downstairs: at the last kept room's center, or none when no room
      was kept. */
  predicate StairsAtLast(dungeon: GameMap, rooms: seq<Room>)
    reads dungeon, dungeon.tiles
  {
    && (|rooms| == 0 ==> dungeon.downstairs == None)
    && (|rooms| > 0 ==>
          var c := rooms[|rooms| - 1].Center();
          && dungeon.downstairs == Some(Pos(c.x, c.y))
          && 0 <= c.x < dungeon.tiles.Length0 && 0 <= c.y < dungeon.tiles.Length1
          && dungeon.tiles[c.x, c.y] == DownStairs())
  }

  /** The map `generate_dungeon` returns, for the rooms it kept. */
  predicate Generated(dungeon: GameMap, player: Entity, rooms: seq<Room>)
    reads dungeon, dungeon.entities, dungeon.tiles, player
  {
    && dungeon.Valid()
    && (forall k :: 0 <= k < |rooms| ==> RoomOnMap(rooms[k], dungeon.width, dungeon.height))
    && PairwiseApart(rooms)
    && InsidesFloor(dungeon, rooms, dungeon.downstairs)
    && StairsAtLast(dungeon, rooms)
    && EntitiesPlaced(dungeon, player, rooms)
    && PlayerAtStart(dungeon, player, rooms)
  }

  /** The downstairs at the center of the last kept room. */
  method PlaceStairs(dungeon: GameMap, player: Entity, rooms: seq<Room>)
    requires Building(dungeon, player, rooms) && |rooms| > 0
    modifies dungeon.tiles, dungeon`downstairs
    ensures Generated(dungeon, player, rooms)
  {
    var c := rooms[|rooms| - 1].Center();
    CenterInBox(rooms[|rooms| - 1]);
    dungeon.tiles[c.x, c.y] := DownStairs();
    dungeon.downstairs := Some(Pos(c.x, c.y));
  }

  /** `generate_dungeon`: one round per draw (`max_rooms` of them); the map
      starts out holding only the player and filled with `fill`. It raises
      exactly when some room is drawn and either the player cannot be placed
      or the floor is negative; otherwise the map holds the kept rooms with
      the player at the first one's center and the stairs at the last one's. */
  method GenerateDungeon(maxRooms: int, roomMin: int, roomMax: int, mapWidth: nat, mapHeight: nat,
                         engine: Engine, floor: int, fill: Tile, draws: seq<RoomDraw>)
    returns (dungeon: GameMap, raised: bool)
    requires roomMin >= 0 && |draws| == (if maxRooms < 0 then 0 else maxRooms)
    requires forall i :: 0 <= i < |draws| ==> DrawFits(draws[i], roomMin, roomMax, mapWidth, mapHeight, floor)
    modifies engine.player`x, engine.player`y, engine.player`parent
    modifies (if engine.player.parent.OnMap? then {engine.player.parent.gm} else {})`entities
    ensures fresh(dungeon) && fresh(dungeon.visible) && fresh(dungeon.explored)
    ensures dungeon.engine == engine && dungeon.width == mapWidth && dungeon.height == mapHeight
    ensures raised <==> |draws| > 0 && (old(StrayPlayer(engine.player)) || floor < 0)
    ensures !raised ==> Generated(dungeon, engine.player, Accepted(draws)) && dungeon.Unseen()
  {
    var player := engine.player;
    dungeon := new GameMap(engine, mapWidth, mapHeight, {player}, fill);
    var rooms;
    rooms, raised := Rounds(dungeon, player, roomMin, roomMax, floor, draws);
    if !raised && |rooms| > 0 {
      PlaceStairs(dungeon, player, rooms);
    }
  }

  /** The rounds of `generate_dungeon`, one per draw, on a map that is not
      the player's current one. */
  method Rounds(dungeon: GameMap, player: Entity, roomMin: int, roomMax: int, floor: int, draws: seq<RoomDraw>)
    returns (rooms: seq<Room>, raised: bool)
    requires Building(dungeon, player, []) && roomMin >= 0
    requires player.parent.OnMap? ==> player.parent.gm != dungeon
    requires forall i :: 0 <= i < |draws| ==>
      DrawFits(draws[i], roomMin, roomMax, dungeon.width, dungeon.height, floor)
    modifies dungeon.tiles, dungeon`entities, player`x, player`y, player`parent
    modifies (if player.parent.OnMap? then {player.parent.gm} else {})`entities
    ensures raised <==> |draws| > 0 && (old(StrayPlayer(player)) || floor < 0)
    ensures !raised ==> rooms == Accepted(draws) && Building(dungeon, player, rooms)
  {
    rooms := [];
    raised := false;
    for i := 0 to |draws|
      invariant rooms == Accepted(draws[..i])
      invariant Building(dungeon, player, rooms)
      invariant i == 0 ==> player.parent == old(player.parent)
      invariant i == 0 && player.parent.OnMap? ==> player.parent.gm.entities == old(player.parent.gm.entities)
      invariant i > 0 ==> |rooms| > 0 && floor >= 0 && !old(StrayPlayer(player))
    {
      AcceptedApart(draws[..i + 1]);
      assert draws[..i + 1][..i] == draws[..i];
      var d := draws[i];
      var r := RoomOf(d);
      if exists k :: 0 <= k < |rooms| && r.Intersects(rooms[k]) {
        continue;
      }
      raised := AddRoom(dungeon, player, rooms, d, floor);
      if raised {
        return;
      }
      rooms := rooms + [r];
    }
    assert draws[..|draws|] == draws;
  }
}
