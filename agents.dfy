/** The agents of the ecosystem: rabbits (foragers), foxes (predators) and
    food. Each agent is a small state machine over its counters and flags,
    perceives a window of the shared world map, and moves one lattice unit
    on the action its policy chooses. The policy itself is not modelled: the
    action is a parameter of Move. */
module Agents {
  import opened Constants
  import Masks

  datatype Species = Rabbit | Fox | Food

  /** int(agent): the class code an agent reports. */
  function Code(cfg: Config, s: Species): int
  {
    match s
    case Rabbit => cfg.rabbitCode
    case Fox => cfg.foxCode
    case Food => cfg.foodCode
  }

  /** The range [lo, hi) the death threshold of each class is drawn from. */
  function LifespanRange(s: Species): (r: (int, int))
    ensures 0 < r.0 < r.1
  {
    match s
    case Rabbit => (250, 300)
    case Fox => (400, 600)
    case Food => (45, 155)
  }

  /** How much food an agent of each class must gather to reproduce. */
  function FoodThreshold(s: Species): (n: int)
    ensures n >= 1
  {
    match s
    case Rabbit => 3
    case Fox => 1
    case Food => 1
  }

  function Speed(cfg: Config, s: Species): int
    requires s != Food
  {
    if s == Rabbit then cfg.rabbitSpeed else cfg.foxSpeed
  }

  /** 10 // speed: the number of ticks between two activations. */
  function Cadence(speed: int): (c: int)
    requires 1 <= speed <= 10
    ensures c >= 1 && c * speed <= 10 < (c + 1) * speed
  {
    10 / speed
  }

  /** Whether a rabbit or fox whose tick counter has just reached `fps` scans
      and moves on this tick. Food never does. */
  predicate Active(cfg: Config, s: Species, fps: int)
    requires cfg.Valid()
  {
    s != Food && fps % Cadence(Speed(cfg, s)) == 0
  }

  /** One death-threshold draw per class; an agent uses the one of its own class. */
  datatype Lifespans = Lifespans(rabbit: int, fox: int, food: int)
  {
    predicate Valid()
    {
      && LifespanRange(Rabbit).0 <= rabbit < LifespanRange(Rabbit).1
      && LifespanRange(Fox).0 <= fox < LifespanRange(Fox).1
      && LifespanRange(Food).0 <= food < LifespanRange(Food).1
    }

    function For(s: Species): (n: int)
      ensures Valid() ==> LifespanRange(s).0 <= n < LifespanRange(s).1
    {
      match s
      case Rabbit => rabbit
      case Fox => fox
      case Food => food
    }
  }

  type Coord = (int, int)

  /** A value of the world map: an agent, or the integer 0 the death sweep
      leaves on the cell of a removed agent. An absent key is grass. */
  datatype Cell = Occupied(agent: Agent) | Vacated

  type World = map<Coord, Cell>

  /** int(item) of a map value. */
  function ItemCode(cfg: Config, item: Cell): int
  {
    match item
    case Occupied(a) => Code(cfg, a.species)
    case Vacated => 0
  }

  /** int(world.get(p, absent)). */
  function CellCode(cfg: Config, world: World, p: Coord, absent: int): int
  {
    if p in world then ItemCode(cfg, world[p]) else absent
  }

  /** world.get(p, 0): what a collision at p is handled against. */
  function ItemAt(world: World, p: Coord): Cell
  {
    if p in world then world[p] else Vacated
  }

  /** The agent a move towards p can affect, if p holds one. */
  function Targets(world: World, p: Coord): set<Agent>
  {
    if p in world && world[p].Occupied? then {world[p].agent} else {}
  }

  predicate Holds(world: World, p: Coord, s: Species)
  {
    p in world && world[p].Occupied? && world[p].agent.species == s
  }

  // ---------------------------------------------------------------------
  // Movement geometry

  /** The lattice step of each action code: 1 west, 2 north, 3 east, 4 south,
      5 to 8 the diagonals; any other code (the policy's ninth action among
      them) stays put. */
  function Offset(action: int): (d: Coord)
    ensures 1 <= action <= 8 ==> d != (0, 0) && -1 <= d.0 <= 1 && -1 <= d.1 <= 1
    ensures !(1 <= action <= 8) ==> d == (0, 0)
  {
    match action
    case 1 => (-1, 0)
    case 2 => (0, -1)
    case 3 => (1, 0)
    case 4 => (0, 1)
    case 5 => (-1, -1)
    case 6 => (1, -1)
    case 7 => (1, 1)
    case 8 => (-1, 1)
    case _ => (0, 0)
  }

  /** The eight actions reach the eight neighbours, each exactly once. */
  lemma OffsetsAreTheNeighbours(dx: int, dy: int)
    requires -1 <= dx <= 1 && -1 <= dy <= 1 && (dx, dy) != (0, 0)
    ensures exists a :: 1 <= a <= 8 && Offset(a) == (dx, dy)
    ensures forall a, b :: 1 <= a <= 8 && 1 <= b <= 8 && Offset(a) == (dx, dy) && Offset(b) == (dx, dy) ==> a == b
  {
    var a := if (dx, dy) == (-1, 0) then 1 else if (dx, dy) == (0, -1) then 2
      else if (dx, dy) == (1, 0) then 3 else if (dx, dy) == (0, 1) then 4
      else if (dx, dy) == (-1, -1) then 5 else if (dx, dy) == (1, -1) then 6
      else if (dx, dy) == (1, 1) then 7 else 8;
    assert Offset(a) == (dx, dy);
  }

  predicate OnLattice(cfg: Config, x: int, y: int)
  {
    0 <= x <= cfg.width && 0 <= y <= cfg.height
  }

  /** The death test of each action, made on the coordinate before the shift. */
  predicate CrossesBoundary(cfg: Config, x: int, y: int, action: int)
  {
    match action
    case 1 => x < 0
    case 2 => y < 0
    case 3 => x > cfg.width
    case 4 => y > cfg.height
    case 5 => y < 0 || x < 0
    case 6 => y < 0 || x > cfg.width
    case 7 => y > cfg.height || x > cfg.width
    case 8 => y > cfg.height || x < 0
    case _ => false
  }

  /** The test kills an agent exactly when it already stands off the lattice
      on the side it moves towards: an agent that steps off the lattice
      survives that step, and only its next step further out kills it. */
  lemma CrossesBoundaryMeaning(cfg: Config, x: int, y: int, action: int)
    ensures CrossesBoundary(cfg, x, y, action) <==>
      var d := Offset(action);
      (d.0 < 0 && x < 0) || (d.0 > 0 && x > cfg.width) || (d.1 < 0 && y < 0) || (d.1 > 0 && y > cfg.height)
    ensures OnLattice(cfg, x, y) ==> !CrossesBoundary(cfg, x, y, action)
  {
  }

  // ---------------------------------------------------------------------
  // The state machine on values

  /** The mutable counters and flags of an agent, and its position. */
  datatype Vitals = Vitals(
    fps: int,        // ticks lived (_fps_counter_)
    toDie: int,      // starvation counter (_to_die_counter_)
    food: int,       // food gathered towards the next offspring (_food_counter_)
    eaten: int,      // food gathered over the agent's life (_food_eaten_)
    dead: bool,
    reproduce: bool,
    x: int,
    y: int)

  /** The vitals of an agent just made at cell p. */
  function Newborn(p: Coord): Vitals
  {
    Vitals(0, 0, 0, 0, false, false, p.0, p.1)
  }

  /** Agent.step: one more tick; death once starvation has reached the
      threshold, otherwise readiness to reproduce once enough food is gathered. */
  function Stepped(v: Vitals, dieThreshold: int, foodThreshold: int): (r: Vitals)
    ensures r.fps == v.fps + 1
    ensures r.dead <==> v.dead || v.toDie >= dieThreshold
    ensures r.reproduce <==> v.reproduce || (v.toDie < dieThreshold && v.food >= foodThreshold)
    ensures r.(fps := v.fps, dead := v.dead, reproduce := v.reproduce) == v
  {
    var w := v.(fps := v.fps + 1);
    if w.toDie >= dieThreshold then w.(dead := true)
    else if w.food >= foodThreshold then w.(reproduce := true)
    else w
  }

  /** Food.step: food ages on every tick, ripens by one every 50th tick, and
      then takes the same death and reproduction decisions. */
  function Ripened(v: Vitals, dieThreshold: int, foodThreshold: int): (r: Vitals)
    ensures r.fps == v.fps + 1 && r.toDie == v.toDie + 1
    ensures r.food == v.food + (if (v.fps + 1) % 50 == 0 then 1 else 0)
    ensures r.dead <==> v.dead || r.toDie >= dieThreshold
    ensures r.reproduce <==> v.reproduce || (r.toDie < dieThreshold && r.food >= foodThreshold)
    ensures r.eaten == v.eaten && r.x == v.x && r.y == v.y
  {
    var w := v.(fps := v.fps + 1, toDie := v.toDie + 1);
    var w' := if w.fps % 50 == 0 then w.(food := w.food + 1) else w;
    if w'.toDie >= dieThreshold then w'.(dead := true)
    else if w'.food >= foodThreshold then w'.(reproduce := true)
    else w'
  }

  function AfterStep(s: Species, v: Vitals, dieThreshold: int, foodThreshold: int): Vitals
  {
    if s == Food then Ripened(v, dieThreshold, foodThreshold) else Stepped(v, dieThreshold, foodThreshold)
  }

  /** What a collision does to the agent that was run into. */
  datatype Effect = Unaffected | Killed | Fed

  /** item.die() and item.eat(). */
  function Affected(v: Vitals, e: Effect): Vitals
  {
    match e
    case Unaffected => v
    case Killed => v.(dead := true)
    case Fed => v.(food := v.food + 1, eaten := v.eaten + 1)
  }

  /** Rabbit.handle_collision and Fox.handle_collision (a food agent has the
      base class's, which does nothing), given int(item) of the cell run into. */
  function Collision(cfg: Config, s: Species, v: Vitals, target: int): (Vitals, Effect)
  {
    if s == Rabbit && target == cfg.foodCode then
      (v.(food := v.food + 1, eaten := v.eaten + 1, toDie := 0), Killed)
    else if s == Rabbit && target == cfg.foxCode then
      (v.(dead := true), Fed)
    else if s == Fox && target == cfg.rabbitCode then
      (v.(food := v.food + 1, eaten := v.eaten + 1, toDie := 0), Killed)
    else
      (v, Unaffected)
  }

  /** The moving part of Agent.move on the vitals w after the step, for an
      action in 1..8: handle the collision with the target cell, which is read
      from the world before the shift, add one unit of starvation, test the
      boundary on the coordinate before the shift, and shift by one unit. */
  function Shifted(cfg: Config, s: Species, w: Vitals, world: World, action: int): (Vitals, Effect)
  {
    var d := Offset(action);
    var (c, e) := Collision(cfg, s, w, CellCode(cfg, world, (w.x + d.0, w.y + d.1), 0));
    (c.(toDie := c.toDie + 1, dead := c.dead || CrossesBoundary(cfg, w.x, w.y, action),
        x := w.x + d.0, y := w.y + d.1), e)
  }

  /** Agent.move (and Food.move) on values: the agent's new vitals and what
      happens to the agent in the target cell. */
  function Moved(cfg: Config, s: Species, dieThreshold: int, foodThreshold: int,
                 v: Vitals, world: World, action: int): (Vitals, Effect)
    requires cfg.Valid()
  {
    var w := AfterStep(s, v, dieThreshold, foodThreshold);
    if !Active(cfg, s, w.fps) || !(1 <= action <= 8) then (w, Unaffected)
    else Shifted(cfg, s, w, world, action)
  }

  /** What one move does: it always ticks and never clears a flag; on an
      idle tick or for an action that is no move it is just the step;
      otherwise the agent shifts by one unit and the class of the agent in
      the target cell decides the collision. */
  lemma MovedMeaning(cfg: Config, s: Species, dieThreshold: int, foodThreshold: int,
                     v: Vitals, world: World, action: int)
    requires cfg.Valid()
    ensures var r := Moved(cfg, s, dieThreshold, foodThreshold, v, world, action);
            r.0.fps == v.fps + 1 && (v.dead ==> r.0.dead) && (v.reproduce ==> r.0.reproduce)
    // an idle tick, or an action that is no move: nothing beyond the step
    ensures !Active(cfg, s, v.fps + 1) || !(1 <= action <= 8) ==>
              Moved(cfg, s, dieThreshold, foodThreshold, v, world, action)
                == (AfterStep(s, v, dieThreshold, foodThreshold), Unaffected)
    ensures Active(cfg, s, v.fps + 1) && 1 <= action <= 8 ==>
              var r := Moved(cfg, s, dieThreshold, foodThreshold, v, world, action);
              var w := Stepped(v, dieThreshold, foodThreshold);
              var p := (v.x + Offset(action).0, v.y + Offset(action).1);
              && (r.0.x, r.0.y) == p
              && r.0.reproduce == w.reproduce
              // rabbit onto food, fox onto rabbit: a meal, and starvation ends the move at 1
              && (if (s == Rabbit && Holds(world, p, Food)) || (s == Fox && Holds(world, p, Rabbit)) then
                    && r.1 == Killed && r.0.food == w.food + 1 && r.0.eaten == w.eaten + 1 && r.0.toDie == 1
                    && (r.0.dead <==> w.dead || CrossesBoundary(cfg, v.x, v.y, action))
                  // rabbit onto fox: the rabbit dies and the fox is fed
                  else if s == Rabbit && Holds(world, p, Fox) then
                    && r.1 == Fed && r.0.dead && r.0.food == w.food && r.0.eaten == w.eaten
                    && r.0.toDie == w.toDie + 1
                  // anything else: no effect, one more unit of starvation
                  else
                    && r.1 == Unaffected && r.0.food == w.food && r.0.eaten == w.eaten
                    && r.0.toDie == w.toDie + 1
                    && (r.0.dead <==> w.dead || CrossesBoundary(cfg, v.x, v.y, action)))
  {
  }

  /** The bounds of one move: one tick, at most one unit on each axis, no
      death or gathered food undone. */
  lemma MovedBounds(cfg: Config, s: Species, dieThreshold: int, foodThreshold: int,
                    v: Vitals, world: World, action: int)
    requires cfg.Valid()
    ensures var r := Moved(cfg, s, dieThreshold, foodThreshold, v, world, action).0;
            && r.fps == v.fps + 1
            && -1 <= r.x - v.x <= 1 && -1 <= r.y - v.y <= 1
            && (v.dead ==> r.dead) && r.eaten >= v.eaten
  {
  }

  /** A collision only ever affects an agent of another class, never the mover. */
  lemma CollisionTargetsAnother(cfg: Config, s: Species, v: Vitals, item: Cell)
    requires cfg.Valid() && Collision(cfg, s, v, ItemCode(cfg, item)).1 != Unaffected
    ensures item.Occupied? && item.agent.species != s
  {
  }

  /** Likewise for a whole move: whatever it affects is an agent of another
      class standing in the target cell. */
  lemma MovedTargetsAnother(cfg: Config, s: Species, dieThreshold: int, foodThreshold: int,
                            v: Vitals, world: World, action: int, m: (Vitals, Effect), item: Cell)
    requires cfg.Valid()
    requires m == Moved(cfg, s, dieThreshold, foodThreshold, v, world, action)
    requires item == ItemAt(world, (v.x + Offset(action).0, v.y + Offset(action).1))
    ensures m.1 != Unaffected ==> item.Occupied? && item.agent.species != s
  {
    if m.1 != Unaffected {
      CollisionTargetsAnother(cfg, s, Stepped(v, dieThreshold, foodThreshold), item);
    }
  }

  // ---------------------------------------------------------------------
  // Perception

  /** One entry of the scan buffer of a rabbit or fox for world cell p, given
      the entry's value from the previous scan: off the lattice -1, otherwise
      the class table of the scanning agent; a code the table does not list
      (the 0 of a vacated cell, when grass is not coded 0) leaves the entry as
      it was. */
  function Sensed(cfg: Config, s: Species, world: World, p: Coord, prev: int): (r: int)
    requires cfg.Valid() && s != Food
    ensures !OnLattice(cfg, p.0, p.1) ==> r == -1
    ensures OnLattice(cfg, p.0, p.1) && p !in world ==> r == 0
    ensures OnLattice(cfg, p.0, p.1) && Holds(world, p, Fox) ==> r == (if s == Rabbit then -1 else 0)
    ensures OnLattice(cfg, p.0, p.1) && Holds(world, p, Food) ==> r == (if s == Rabbit then 1 else 0)
    ensures OnLattice(cfg, p.0, p.1) && Holds(world, p, Rabbit) ==> r == (if s == Rabbit then 0 else 1)
    ensures OnLattice(cfg, p.0, p.1) && p in world && world[p] == Vacated ==>
              r == (if cfg.grassCode == 0 then 0 else prev)
    ensures -1 <= prev <= 1 ==> -1 <= r <= 1
  {
    if p.0 < 0 || p.0 > cfg.width || p.1 < 0 || p.1 > cfg.height then -1
    else
      var value := CellCode(cfg, world, p, cfg.grassCode);
      if s == Rabbit then
        if value == cfg.foxCode then -1
        else if value == cfg.foodCode then 1
        else if value == cfg.grassCode then 0
        else if value == cfg.rabbitCode then 0
        else prev
      else
        if value == cfg.foxCode then 0
        else if value == cfg.foodCode then 0
        else if value == cfg.grassCode then 0
        else if value == cfg.rabbitCode then 1
        else prev
  }

  /** The world cell that entry k of the scan buffer of an agent at (x, y)
      encodes. */
  function WindowCell(cfg: Config, x: int, y: int, k: int): Coord
  {
    (x - cfg.radius + k / cfg.Diameter(), y - cfg.radius + k % cfg.Diameter())
  }

  /** Entry i * D + j is cell (x - R + i, y - R + j), and the D * D entries
      cover the window exactly once. */
  lemma WindowCellAt(cfg: Config, x: int, y: int, i: int, j: int)
    requires 0 <= i < cfg.Diameter() && 0 <= j < cfg.Diameter()
    ensures 0 <= i * cfg.Diameter() + j < cfg.Diameter() * cfg.Diameter()
    ensures WindowCell(cfg, x, y, i * cfg.Diameter() + j) == (x - cfg.radius + i, y - cfg.radius + j)
  {
    Masks.FlatIndex(cfg.Diameter(), i, j);
  }

  // ---------------------------------------------------------------------
  // The agent object

  class Agent {
    const cfg: Config
    const species: Species
    const dieThreshold: int
    const foodThreshold: int
    /** The agent whose policy parameters were loaded into this agent's policy
        when it was made, or null. */
    const brainSource: Agent?
    /** The current and the previous scan buffer (_area_, _previous_area_). */
    const area: array<int>
    const previousArea: array<int>

    var fps: int
    var toDie: int
    var food: int
    var eaten: int
    var dead: bool
    var reproduce: bool
    var x: int
    var y: int

    /** What holds of an agent from its construction on; it speaks of
        constant fields only, so no update can break it. */
    ghost predicate Valid()
    {
      && cfg.Valid()
      && LifespanRange(species).0 <= dieThreshold < LifespanRange(species).1
      && foodThreshold == FoodThreshold(species)
      && area.Length == cfg.Diameter() * cfg.Diameter()
      && previousArea.Length == area.Length
      && area != previousArea
    }

    /** Every entry of both scan buffers lies in {-1, 0, 1}. */
    ghost predicate Observed()
      reads area, previousArea
    {
      && (forall k :: 0 <= k < area.Length ==> -1 <= area[k] <= 1)
      && (forall k :: 0 <= k < previousArea.Length ==> -1 <= previousArea[k] <= 1)
    }

    function View(): Vitals
      reads this
    {
      Vitals(fps, toDie, food, eaten, dead, reproduce, x, y)
    }

    function Position(): Coord
      reads this`x, this`y
    {
      (x, y)
    }

    /** A new agent of class `species` at `start`, with its death threshold
        drawn from the class's range, zeroed counters and zeroed buffers. */
    constructor (cfg: Config, species: Species, start: Coord, dieThreshold: int, brainSource: Agent?)
      requires cfg.Valid()
      requires LifespanRange(species).0 <= dieThreshold < LifespanRange(species).1
      ensures Valid() && Observed()
      ensures this.cfg == cfg && this.species == species && this.dieThreshold == dieThreshold
      ensures this.brainSource == brainSource
      ensures View() == Newborn(start)
      ensures fresh(area) && fresh(previousArea)
    {
      this.cfg := cfg;
      this.species := species;
      this.dieThreshold := dieThreshold;
      this.foodThreshold := FoodThreshold(species);
      this.brainSource := brainSource;
      var d := cfg.Diameter();
      area := new int[d * d](_ => 0);
      previousArea := new int[d * d](_ => 0);
      fps, toDie, food, eaten := 0, 0, 0, 0;
      dead, reproduce := false, false;
      x, y := start.0, start.1;
    }

    method Die()
      modifies this`dead
      ensures View() == Affected(old(View()), Killed)
    {
      dead := true;
    }

    method Eat()
      modifies this`food, this`eaten
      ensures View() == Affected(old(View()), Fed)
    {
      food := food + 1;
      eaten := eaten + 1;
    }

    /** The offspring has been placed: the flag clears and the food counter restarts. */
    method ReproduceDone()
      modifies this`reproduce, this`food
      ensures View() == old(View()).(reproduce := false, food := 0)
    {
      reproduce := false;
      food := 0;
    }

    /** The position setter. */
    method SetPosition(p: Coord)
      modifies this`x, this`y
      ensures View() == old(View()).(x := p.0, y := p.1)
    {
      x, y := p.0, p.1;
    }

    /** Agent.step, or Food.step for a food agent. */
    method Step()
      requires Valid()
      modifies this`fps, this`toDie, this`food, this`dead, this`reproduce
      ensures View() == AfterStep(species, old(View()), dieThreshold, foodThreshold)
    {
      if species == Food {
        fps := fps + 1;
        toDie := toDie + 1;
        if fps % 50 == 0 {
          food := food + 1;
        }
        if toDie >= dieThreshold {
          dead := true;
        } else if food >= foodThreshold {
          reproduce := true;
        }
      } else {
        fps := fps + 1;
        if toDie >= dieThreshold {
          dead := true;
        } else if food >= foodThreshold {
          reproduce := true;
        }
      }
    }

    /** The nested loop of Rabbit.scan_area and Fox.scan_area: entry
        i * D + j of the buffer encodes world cell (x - R + i, y - R + j)
        (see WindowCellAt). */
    method Perceive(world: World)
      requires Valid() && species != Food
      modifies area
      ensures forall k :: 0 <= k < area.Length ==>
                area[k] == Sensed(cfg, species, world, WindowCell(cfg, x, y, k), old(area[k]))
    {
      var D := cfg.Diameter();
      var i, base := 0, 0;
      while i < D
        invariant 0 <= i <= D && base == i * D && base <= area.Length
        invariant forall k :: 0 <= k < base ==>
                    area[k] == Sensed(cfg, species, world, WindowCell(cfg, x, y, k), old(area[k]))
        invariant forall k :: base <= k < area.Length ==> area[k] == old(area[k])
      {
        Masks.MulAtLeast(D, D, i + 1);
        assert D * (i + 1) == base + D;
        PerceiveRow(world, i, base);
        i, base := i + 1, base + D;
      }
    }

    /** Row i of the nested scan loop: the entries base .. base + D - 1 of
        the buffer, base being i * D, are the cells of column x - R + i. */
    method PerceiveRow(world: World, i: nat, base: nat)
      requires Valid() && species != Food
      requires i < cfg.Diameter() && base == i * cfg.Diameter() && base + cfg.Diameter() <= area.Length
      modifies area
      ensures forall k :: base <= k < base + cfg.Diameter() ==>
                area[k] == Sensed(cfg, species, world, WindowCell(cfg, x, y, k), old(area[k]))
      ensures forall k :: 0 <= k < area.Length && !(base <= k < base + cfg.Diameter()) ==> area[k] == old(area[k])
    {
      var D := cfg.Diameter();
      var j := 0;
      while j < D
        invariant 0 <= j <= D
        invariant forall k :: base <= k < base + j ==>
                    area[k] == Sensed(cfg, species, world, WindowCell(cfg, x, y, k), old(area[k]))
        invariant forall k :: 0 <= k < area.Length && !(base <= k < base + j) ==> area[k] == old(area[k])
      {
        WindowCellAt(cfg, x, y, i, j);
        area[base + j] := Sensed(cfg, species, world, (x - cfg.radius + i, y - cfg.radius + j), area[base + j]);
        j := j + 1;
      }
    }

    /** numpy.copyto(previous_area, area). */
    method KeepScan()
      requires Valid()
      modifies previousArea
      ensures previousArea[..] == area[..]
    {
      var k := 0;
      while k < area.Length
        invariant 0 <= k <= area.Length
        invariant forall m :: 0 <= m < k ==> previousArea[m] == area[m]
      {
        previousArea[k] := area[k];
        k := k + 1;
      }
    }

    /** Rabbit.scan_area and Fox.scan_area (Food's does nothing): encode the
        window into the buffer, compute the reward signal of the rings against
        the previous buffer (it goes to the policy, which is not modelled),
        and copy the buffer into the previous one. */
    method ScanArea(world: World) returns (deltas: seq<int>)
      requires Valid()
      modifies area, previousArea
      ensures species == Food ==> area[..] == old(area[..]) && previousArea[..] == old(previousArea[..]) && deltas == []
      ensures species != Food ==>
                && (forall k :: 0 <= k < area.Length ==>
                      area[k] == Sensed(cfg, species, world, WindowCell(cfg, x, y, k), old(area[k])))
                && previousArea[..] == area[..]
                && deltas == (if fps > 0 then Masks.RingDeltas(cfg.Diameter(), area[..], old(previousArea[..])) else [])
      ensures old(Observed()) ==> Observed()
    {
      if species == Food {
        return [];
      }
      Perceive(world);
      if fps > 0 {
        deltas := Masks.RingDeltas(cfg.Diameter(), area[..], previousArea[..]);
      } else {
        deltas := [];
      }
      KeepScan();
    }

    /** Rabbit.handle_collision, Fox.handle_collision, and the base class's
        (which does nothing) for food. */
    method HandleCollision(item: Cell)
      requires Valid()
      modifies this, if item.Occupied? then {item.agent} else {}
      ensures View() == Collision(cfg, species, old(View()), ItemCode(cfg, item)).0
      ensures item.Occupied? && item.agent != this ==>
                item.agent.View() == Affected(old(item.agent.View()), Collision(cfg, species, old(View()), ItemCode(cfg, item)).1)
    {
      var code := ItemCode(cfg, item);
      if species == Rabbit {
        if code == cfg.foodCode {
          food := food + 1;
          eaten := eaten + 1;
          toDie := 0;
          item.agent.Die();
        } else if code == cfg.foxCode {
          Die();
          item.agent.Eat();
        }
      } else if species == Fox {
        if code == cfg.rabbitCode {
          food := food + 1;
          eaten := eaten + 1;
          toDie := 0;
          item.agent.Die();
        }
      }
    }

    /** The moving part of Agent.move, for an action in 1..8. */
    method Advance(world: World, action: int)
      requires Valid() && 1 <= action <= 8
      modifies this, Targets(world, (x + Offset(action).0, y + Offset(action).1))
      ensures View() == Shifted(cfg, species, old(View()), world, action).0
      ensures var item := ItemAt(world, (old(x) + Offset(action).0, old(y) + Offset(action).1));
              item.Occupied? && item.agent != this ==>
                item.agent.View() == Affected(old(item.agent.View()), Shifted(cfg, species, old(View()), world, action).1)
    {
      var d := Offset(action);
      var item := ItemAt(world, (x + d.0, y + d.1));
      ghost var c := Collision(cfg, species, View(), ItemCode(cfg, item));
      ghost var m := Shifted(cfg, species, View(), world, action);
      ghost var cross := CrossesBoundary(cfg, x, y, action);
      assert ItemCode(cfg, item) == CellCode(cfg, world, (x + d.0, y + d.1), 0);
      assert m == (c.0.(toDie := c.0.toDie + 1, dead := c.0.dead || cross, x := x + d.0, y := y + d.1), c.1);
      HandleCollision(item);
      ghost var target := if item.Occupied? then item.agent.View() else View();
      assert View() == c.0;
      toDie, dead, x, y := toDie + 1, dead || CrossesBoundary(cfg, x, y, action), x + d.0, y + d.1;
      assert item.Occupied? && item.agent != this ==> item.agent.View() == target;
    }

    /** Agent.move (Food.move for a food agent): step; then, on an active
        tick, scan, and for an action in 1..8 advance. */
    method Move(world: World, action: int) returns (deltas: seq<int>, ghost m: (Vitals, Effect), ghost item: Cell)
      requires Valid()
      modifies this, area, previousArea, Targets(world, (x + Offset(action).0, y + Offset(action).1))
      ensures m == Moved(cfg, species, dieThreshold, foodThreshold, old(View()), world, action)
      ensures item == ItemAt(world, (old(x) + Offset(action).0, old(y) + Offset(action).1))
      ensures View() == m.0
      ensures item.Occupied? && item.agent != this ==> item.agent.View() == Affected(old(item.agent.View()), m.1)
      ensures !Active(cfg, species, old(fps) + 1) ==>
                area[..] == old(area[..]) && previousArea[..] == old(previousArea[..]) && deltas == []
      ensures Active(cfg, species, old(fps) + 1) ==> previousArea[..] == area[..]
      ensures Active(cfg, species, old(fps) + 1) && species != Food ==>
                && (forall k :: 0 <= k < area.Length ==>
                      area[k] == Sensed(cfg, species, world, WindowCell(cfg, old(x), old(y), k), old(area[k])))
                && deltas == (if old(fps) + 1 > 0 then Masks.RingDeltas(cfg.Diameter(), area[..], old(previousArea[..])) else [])
      ensures old(Observed()) ==> Observed()
    {
      m := Moved(cfg, species, dieThreshold, foodThreshold, View(), world, action);
      item := ItemAt(world, (x + Offset(action).0, y + Offset(action).1));
      Step();
      if Active(cfg, species, fps) {
        deltas := ScanArea(world);
        if 1 <= action <= 8 {
          Advance(world, action);
        }
      } else {
        deltas := [];
      }
    }
  }

  // ---------------------------------------------------------------------
  // Properties over many ticks

  /** The vitals of an agent after it has moved once per action. */
  function MovedMany(cfg: Config, s: Species, dieThreshold: int, foodThreshold: int,
                     v: Vitals, world: World, actions: seq<int>): Vitals
    requires cfg.Valid()
    decreases |actions|
  {
    if actions == [] then v
    else MovedMany(cfg, s, dieThreshold, foodThreshold,
                   Moved(cfg, s, dieThreshold, foodThreshold, v, world, actions[0]).0, world, actions[1..])
  }

  /** Standing still does not starve: an agent whose every action is no move
      keeps its position and starvation counter, so it never reaches its
      death threshold if it has not already. */
  lemma {:induction false} StayingPutNeverStarves(cfg: Config, s: Species, dieThreshold: int, foodThreshold: int,
                                                 v: Vitals, world: World, actions: seq<int>)
    requires cfg.Valid() && s != Food
    requires forall k :: 0 <= k < |actions| ==> !(1 <= actions[k] <= 8)
    decreases |actions|
    ensures var r := MovedMany(cfg, s, dieThreshold, foodThreshold, v, world, actions);
            && r.toDie == v.toDie && r.x == v.x && r.y == v.y && r.fps == v.fps + |actions|
            && (v.toDie < dieThreshold ==> r.dead == v.dead)
  {
    if actions != [] {
      var v' := Moved(cfg, s, dieThreshold, foodThreshold, v, world, actions[0]).0;
      StayingPutNeverStarves(cfg, s, dieThreshold, foodThreshold, v', world, actions[1..]);
    }
  }

  /** A food agent after n ticks. */
  function Ripening(v: Vitals, dieThreshold: int, foodThreshold: int, n: nat): Vitals
    decreases n
  {
    if n == 0 then v else Ripening(Ripened(v, dieThreshold, foodThreshold), dieThreshold, foodThreshold, n - 1)
  }

  /** Over n ticks food never moves, ages by n, ripens once per multiple of
      50 its tick counter passes, and is dead by the time its age reaches the
      death threshold. */
  lemma {:induction false} FoodLifecycle(v: Vitals, dieThreshold: int, foodThreshold: int, n: nat)
    requires v.fps >= 0
    decreases n
    ensures var r := Ripening(v, dieThreshold, foodThreshold, n);
            && r.x == v.x && r.y == v.y && r.eaten == v.eaten
            && r.fps == v.fps + n && r.toDie == v.toDie + n
            && r.food == v.food + (v.fps + n) / 50 - v.fps / 50
            && (v.dead ==> r.dead)
            && (n > 0 && v.toDie + n >= dieThreshold ==> r.dead)
  {
    if n > 0 {
      var v' := Ripened(v, dieThreshold, foodThreshold);
      FoodLifecycle(v', dieThreshold, foodThreshold, n - 1);
      assert (v.fps + 1) / 50 - v.fps / 50 == (if (v.fps + 1) % 50 == 0 then 1 else 0);
    }
  }
}
