/** The simulation loop: a list of agents and a map from lattice cells to
    the agent drawn there, rebuilt every tick; the sweeps that move, cull and
    breed the agents; and the census that resets or refills the world. */
module Ecosystem {
  import opened Constants
  import opened Agents
  import opened Bookkeeping

  // ---------------------------------------------------------------------
  // The moving sweep on values

  /** The vitals of every listed agent, in list order. */
  ghost function Views(s: seq<Agent>): (r: seq<Vitals>)
    reads set a | a in s
    ensures |r| == |s| && forall k :: 0 <= k < |s| ==> r[k] == s[k].View()
  {
    if s == [] then [] else Views(s[..|s| - 1]) + [s[|s| - 1].View()]
  }

  /** Views is determined pointwise. */
  lemma ViewsAre(s: seq<Agent>, r: seq<Vitals>)
    requires |r| == |s| && forall k :: 0 <= k < |s| ==> s[k].View() == r[k]
    ensures Views(s) == r
  {
  }

  /** The map entry each listed agent writes when the map is rebuilt. */
  ghost function Placements(s: seq<Agent>): (r: seq<(Coord, Cell)>)
    reads set a | a in s
    ensures |r| == |s| && forall k :: 0 <= k < |s| ==> r[k] == (s[k].Position(), Occupied(s[k]))
  {
    if s == [] then [] else Placements(s[..|s| - 1]) + [(s[|s| - 1].Position(), Occupied(s[|s| - 1]))]
  }

  /** The agents and scan buffers a sweep over the list may change. */
  ghost function Footprint(s: seq<Agent>): set<object>
  {
    (set a | a in s :: a as object) + (set a | a in s :: a.area as object)
      + (set a | a in s :: a.previousArea as object)
  }

  /** The list's vitals once the agent at index i has taken the move m and
      the collision m.1 has reached the occupant of the target cell, when
      that occupant is listed. */
  function Apply(s: seq<Agent>, views: seq<Vitals>, i: nat, m: (Vitals, Effect), item: Cell): (r: seq<Vitals>)
    requires |views| == |s| && i < |s|
    ensures |r| == |s|
  {
    var r0 := views[i := m.0];
    if m.1 != Unaffected && item.Occupied? && item.agent in s then
      var j := IndexOf(s, item.agent);
      r0[j := Affected(r0[j], m.1)]
    else r0
  }

  /** What Apply changes: the mover's vitals and, when the collision reaches
      a listed agent other than the mover, those of that agent. */
  lemma ApplyShape(s: seq<Agent>, views: seq<Vitals>, i: nat, m: (Vitals, Effect), item: Cell)
    requires |views| == |s| && i < |s| && Distinct(s)
    requires m.1 != Unaffected ==> item.Occupied? && item.agent.species != s[i].species
    ensures var r := Apply(s, views, i, m, item);
            && r[i] == m.0
            && forall k :: 0 <= k < |s| && k != i ==>
                 r[k] == (if item.Occupied? && s[k] == item.agent then Affected(views[k], m.1) else views[k])
  {
  }

  /** A sweep's footprint holds agents and their buffers, never the simulation. */
  lemma FootprintIsAgents(s: seq<Agent>, sim: object)
    requires sim is Simulation
    ensures sim !in Footprint(s)
  {
  }

  /** Agent i of the list moves on `action`: its own vitals, and those of
      the listed agent in its target cell, change as Moved says. The map is
      the one of the start of the sweep. */
  function MoveOne(cfg: Config, s: seq<Agent>, world: World, views: seq<Vitals>, i: nat, action: int): (r: seq<Vitals>)
    requires cfg.Valid() && |views| == |s| && i < |s|
    ensures |r| == |s|
  {
    var a := s[i];
    Apply(s, views, i, Moved(cfg, a.species, a.dieThreshold, a.foodThreshold, views[i], world, action),
          ItemAt(world, (views[i].x + Offset(action).0, views[i].y + Offset(action).1)))
  }

  /** The vitals after the first n agents of the list have moved, in order. */
  function MoveUpTo(cfg: Config, s: seq<Agent>, world: World, views: seq<Vitals>, actions: seq<int>, n: nat): (r: seq<Vitals>)
    requires cfg.Valid() && |views| == |s| && |actions| == |s| && n <= |s|
    ensures |r| == |s|
    decreases n
  {
    if n == 0 then views
    else MoveOne(cfg, s, world, MoveUpTo(cfg, s, world, views, actions, n - 1), n - 1, actions[n - 1])
  }

  /** MoveUpTo one agent further, through the move that agent makes. */
  lemma MoveUpToNext(cfg: Config, s: seq<Agent>, world: World, views: seq<Vitals>, actions: seq<int>, i: nat,
                     cur: seq<Vitals>, m: (Vitals, Effect), item: Cell)
    requires cfg.Valid() && |views| == |s| && |actions| == |s| && i < |s|
    requires cur == MoveUpTo(cfg, s, world, views, actions, i)
    requires m == Moved(cfg, s[i].species, s[i].dieThreshold, s[i].foodThreshold, cur[i], world, actions[i])
    requires item == ItemAt(world, (cur[i].x + Offset(actions[i]).0, cur[i].y + Offset(actions[i]).1))
    ensures MoveUpTo(cfg, s, world, views, actions, i + 1) == Apply(s, cur, i, m, item)
  {
  }

  /** MoveOne's update of the target agent keeps its tick count and position
      and undoes no death or food. */
  lemma AffectedBounds(r: seq<Vitals>, r0: seq<Vitals>)
    requires |r| == |r0|
    requires r == r0 || exists j, e :: 0 <= j < |r0| && r == r0[j := Affected(r0[j], e)]
    ensures forall k :: 0 <= k < |r| ==>
              r[k].fps == r0[k].fps && r[k].x == r0[k].x && r[k].y == r0[k].y
              && (r0[k].dead ==> r[k].dead) && r[k].eaten >= r0[k].eaten
  {
  }

  /** Over a whole sweep every agent ticks exactly once, shifts by at most
      one unit on each axis, and no death or gathered food is undone. */
  lemma {:induction false} SweepTicksEveryone(cfg: Config, s: seq<Agent>, world: World, views: seq<Vitals>,
                                             actions: seq<int>, n: nat)
    requires cfg.Valid() && |views| == |s| && |actions| == |s| && n <= |s|
    decreases n
    ensures var r := MoveUpTo(cfg, s, world, views, actions, n);
            forall k :: 0 <= k < |s| ==>
              && r[k].fps == views[k].fps + (if k < n then 1 else 0)
              && -1 <= r[k].x - views[k].x <= 1 && -1 <= r[k].y - views[k].y <= 1
              && (k >= n ==> r[k].x == views[k].x && r[k].y == views[k].y)
              && (views[k].dead ==> r[k].dead)
              && r[k].eaten >= views[k].eaten
  {
    if n > 0 {
      SweepTicksEveryone(cfg, s, world, views, actions, n - 1);
      var prev := MoveUpTo(cfg, s, world, views, actions, n - 1);
      var a := s[n - 1];
      MovedBounds(cfg, a.species, a.dieThreshold, a.foodThreshold, prev[n - 1], world, actions[n - 1]);
      var r0 := prev[n - 1 := Moved(cfg, a.species, a.dieThreshold, a.foodThreshold, prev[n - 1], world, actions[n - 1]).0];
      var r := MoveUpTo(cfg, s, world, views, actions, n);
      AffectedBounds(r, r0);
      forall k | 0 <= k < |s|
        ensures r[k].fps == views[k].fps + (if k < n then 1 else 0)
        ensures -1 <= r[k].x - views[k].x <= 1 && -1 <= r[k].y - views[k].y <= 1
        ensures k >= n ==> r[k].x == views[k].x && r[k].y == views[k].y
        ensures (views[k].dead ==> r[k].dead) && r[k].eaten >= views[k].eaten
      {
        if k != n - 1 {
          assert r0[k] == prev[k];
        }
      }
    }
  }

  /** An agent whose class never collides with anything and whose moves are
      its own: the sweep changes it exactly as Moved says. In particular a
      food agent's vitals after a sweep are its Ripened vitals unless a
      rabbit ate it. */
  lemma {:induction false} SweepMovesLoneAgent(cfg: Config, s: seq<Agent>, world: World, views: seq<Vitals>,
                                              actions: seq<int>, k: nat, n: nat)
    requires cfg.Valid() && |views| == |s| && |actions| == |s| && k < n <= |s|
    requires forall p :: p in world && world[p].Occupied? ==> world[p].agent != s[k]
    decreases n
    ensures MoveUpTo(cfg, s, world, views, actions, n)[k]
            == Moved(cfg, s[k].species, s[k].dieThreshold, s[k].foodThreshold, views[k], world, actions[k]).0
  {
    if n - 1 > k {
      SweepMovesLoneAgent(cfg, s, world, views, actions, k, n - 1);
    } else {
      SweepUntouched(cfg, s, world, views, actions, k, k);
    }
  }

  /** An agent nobody can run into keeps its vitals until its own turn. */
  lemma {:induction false} SweepUntouched(cfg: Config, s: seq<Agent>, world: World, views: seq<Vitals>,
                                         actions: seq<int>, k: nat, n: nat)
    requires cfg.Valid() && |views| == |s| && |actions| == |s| && n <= k < |s|
    requires forall p :: p in world && world[p].Occupied? ==> world[p].agent != s[k]
    decreases n
    ensures MoveUpTo(cfg, s, world, views, actions, n)[k] == views[k]
  {
    if n > 0 {
      SweepUntouched(cfg, s, world, views, actions, k, n - 1);
    }
  }

  /** The rebuilt map: its keys are exactly the agents' cells, dead agents'
      included, and each holds the last agent in list order standing there. */
  lemma RebuiltMap(s: seq<Agent>, p: Coord)
    ensures p in Overlay(map[], Placements(s)) <==> exists k :: 0 <= k < |s| && s[k].Position() == p
    ensures p in Overlay(map[], Placements(s)) ==>
              exists k :: 0 <= k < |s| && Overlay(map[], Placements(s))[p] == Occupied(s[k]) && s[k].Position() == p
                && forall k' :: k < k' < |s| ==> s[k'].Position() != p
  {
    var e := Placements(s);
    OverlayAt(map[], e, p);
    var j := LastIndexOf(e, p);
    if exists k :: 0 <= k < |s| && s[k].Position() == p {
      var k :| 0 <= k < |s| && s[k].Position() == p;
      assert e[k].0 == p;
    }
    if j >= 0 {
      assert s[j].Position() == p;
      forall k' | j < k' < |s|
        ensures s[k'].Position() != p
      {
        assert e[k'].0 != p;
      }
    }
  }

  /** What a sweep over the list needs: valid agents of this configuration,
      listed once each, and a map that holds listed agents only. */
  ghost predicate Sweepable(cfg: Config, s: seq<Agent>, world: World)
  {
    && cfg.Valid() && Distinct(s)
    && (forall a :: a in s ==> a.Valid() && a.cfg == cfg)
    && (forall p :: p in world && world[p].Occupied? ==> world[p].agent in s)
  }

  /** The loop of move_agents has moved the first n agents: the list's
      vitals are `cur`, which is what MoveUpTo predicts. */
  ghost predicate Reached(cfg: Config, s: seq<Agent>, world: World, views: seq<Vitals>, actions: seq<int>,
                          n: nat, cur: seq<Vitals>)
    reads set a | a in s
  {
    && cfg.Valid() && |views| == |s| && |actions| == |s| && n <= |s|
    && cur == MoveUpTo(cfg, s, world, views, actions, n)
    && forall k :: 0 <= k < |s| ==> s[k].View() == cur[k]
  }

  /** The first loop of move_agents. */
  method MoveAll(cfg: Config, agents: seq<Agent>, world: World, actions: seq<int>, ghost views: seq<Vitals>)
    requires Sweepable(cfg, agents, world) && |actions| == |agents|
    requires Reached(cfg, agents, world, views, actions, 0, views)
    modifies Footprint(agents)
    ensures Reached(cfg, agents, world, views, actions, |agents|, MoveUpTo(cfg, agents, world, views, actions, |agents|))
  {
    ghost var cur := views;
    var i := 0;
    while i < |agents|
      invariant 0 <= i <= |agents|
      invariant Reached(cfg, agents, world, views, actions, i, cur)
      modifies Footprint(agents)
    {
      cur := MoveNext(cfg, agents, world, views, actions, i, cur);
      i := i + 1;
    }
  }

  /** One iteration of move_agents's first loop, as a step of MoveUpTo. */
  method MoveNext(cfg: Config, agents: seq<Agent>, world: World, ghost views: seq<Vitals>, actions: seq<int>, i: nat,
                  ghost cur: seq<Vitals>) returns (ghost next: seq<Vitals>)
    requires Sweepable(cfg, agents, world) && |actions| == |agents| && i < |agents|
    requires Reached(cfg, agents, world, views, actions, i, cur)
    modifies Footprint(agents)
    ensures Reached(cfg, agents, world, views, actions, i + 1, next)
  {
    var a := agents[i];
    assert a in agents && a.View() == cur[i];
    ghost var m := Moved(cfg, a.species, a.dieThreshold, a.foodThreshold, cur[i], world, actions[i]);
    ghost var item := ItemAt(world, (cur[i].x + Offset(actions[i]).0, cur[i].y + Offset(actions[i]).1));
    MovedTargetsAnother(cfg, a.species, a.dieThreshold, a.foodThreshold, cur[i], world, actions[i], m, item);
    assert item.Occupied? ==> item.agent in agents;
    MoveStep(agents, world, i, actions[i], m, item, cur);
    next := Apply(agents, cur, i, m, item);
    MoveLanded(cfg, agents, world, views, actions, i, cur, m, item);
  }

  /** After agent i's move, as MoveStep leaves the list: the list's vitals
      are the next step of MoveUpTo. */
  lemma MoveLanded(cfg: Config, agents: seq<Agent>, world: World, views: seq<Vitals>, actions: seq<int>, i: nat,
                   cur: seq<Vitals>, m: (Vitals, Effect), item: Cell)
    requires Sweepable(cfg, agents, world) && |actions| == |agents| && |views| == |agents| && i < |agents|
    requires |cur| == |agents| && cur == MoveUpTo(cfg, agents, world, views, actions, i)
    requires m == Moved(cfg, agents[i].species, agents[i].dieThreshold, agents[i].foodThreshold, cur[i], world, actions[i])
    requires item == ItemAt(world, (cur[i].x + Offset(actions[i]).0, cur[i].y + Offset(actions[i]).1))
    requires m.1 != Unaffected ==> item.Occupied? && item.agent.species != agents[i].species
    requires agents[i].View() == m.0
    requires forall k :: 0 <= k < |agents| && k != i && item.Occupied? && agents[k] == item.agent ==>
               agents[k].View() == Affected(cur[k], m.1)
    requires forall k :: 0 <= k < |agents| && k != i && !(item.Occupied? && agents[k] == item.agent) ==>
               agents[k].View() == cur[k]
    ensures Reached(cfg, agents, world, views, actions, i + 1, Apply(agents, cur, i, m, item))
  {
    ApplyShape(agents, cur, i, m, item);
    MoveUpToNext(cfg, agents, world, views, actions, i, cur, m, item);
  }

  /** Agent i of the list takes its move; besides it, only the listed agent
      in its target cell changes. The list's vitals were `before`. */
  method MoveStep(agents: seq<Agent>, world: World, i: nat, action: int, ghost m: (Vitals, Effect), ghost item: Cell,
                  ghost before: seq<Vitals>)
    requires i < |agents| && agents[i].Valid() && Distinct(agents)
    requires |before| == |agents| && forall k :: 0 <= k < |agents| ==> agents[k].View() == before[k]
    requires item == ItemAt(world, (before[i].x + Offset(action).0, before[i].y + Offset(action).1))
    requires item.Occupied? ==> item.agent in agents
    requires m == Moved(agents[i].cfg, agents[i].species, agents[i].dieThreshold, agents[i].foodThreshold,
                        before[i], world, action)
    modifies Footprint(agents)
    ensures agents[i].View() == m.0
    ensures forall k :: 0 <= k < |agents| && k != i && item.Occupied? && agents[k] == item.agent ==>
              agents[k].View() == Affected(before[k], m.1)
    ensures forall k :: 0 <= k < |agents| && k != i && !(item.Occupied? && agents[k] == item.agent) ==>
              agents[k].View() == before[k]
  {
    var a := agents[i];
    ghost var dest := (a.x + Offset(action).0, a.y + Offset(action).1);
    assert a in agents;
    assert a in Footprint(agents) && a.area in Footprint(agents) && a.previousArea in Footprint(agents);
    assert item.Occupied? ==> item.agent in Footprint(agents);
    var deltas, m', item' := a.Move(world, action);
    forall k | 0 <= k < |agents| && k != i && item.Occupied? && agents[k] == item.agent
      ensures agents[k].View() == Affected(before[k], m.1)
    {
      assert agents[k] != a;
    }
    forall k | 0 <= k < |agents| && k != i && !(item.Occupied? && agents[k] == item.agent)
      ensures agents[k].View() == before[k]
    {
      assert agents[k] != a && agents[k] !in Targets(world, dest);
    }
  }

  /** The loop of move_agents that makes the map anew from the list. */
  method Rebuilt(agents: seq<Agent>) returns (w: World)
    ensures w == Overlay(map[], Placements(agents))
  {
    ghost var placed := Placements(agents);
    w := map[];
    var k := 0;
    while k < |agents|
      invariant 0 <= k <= |agents|
      invariant w == Overlay(map[], placed[..k])
    {
      assert placed[k] == (agents[k].Position(), Occupied(agents[k]));
      OverlayPrefix(map[], placed, k);
      w := w[agents[k].Position() := Occupied(agents[k])];
      k := k + 1;
    }
    assert placed[..|agents|] == placed;
  }

  /** The rebuilt map holds only listed agents, each at its own cell, and
      every listed agent's cell is a key. */
  lemma RebuiltSound(s: seq<Agent>)
    ensures var w := Overlay(map[], Placements(s));
            forall p :: p in w && w[p].Occupied? ==> w[p].agent in s && w[p].agent.Position() == p
    ensures forall a :: a in s ==> a.Position() in Overlay(map[], Placements(s))
  {
    var w := Overlay(map[], Placements(s));
    forall p | p in w && w[p].Occupied?
      ensures w[p].agent in s && w[p].agent.Position() == p
    {
      RebuiltMap(s, p);
    }
    forall a | a in s
      ensures a.Position() in w
    {
      RebuiltMap(s, a.Position());
    }
  }

  // ---------------------------------------------------------------------
  // The simulation

  /** The draws behind one new agent made by fill_unit: the death threshold
      of each class, and the coordinates get_random_coordinate returns, the
      first at construction and the others one per reroll. */
  datatype Spawn = Spawn(lifespans: Lifespans, draws: seq<Coord>)

  /** The draws behind one reproduction: the offspring's death thresholds, its
      own random start coordinate (only ever used for the occupancy test),
      and the two offsets of random.randint(-7, 7). */
  datatype Birth = Birth(lifespans: Lifespans, probe: Coord, dx: int, dy: int)
  {
    predicate Valid()
    {
      lifespans.Valid() && -7 <= dx <= 7 && -7 <= dy <= 7
    }
  }

  /** The number of passes of `for index in range(n)`. */
  function Range(n: int): nat
  {
    if n < 0 then 0 else n
  }

  /** Whether a cell counts as taken in fill_unit: world.get(p, 0) is an
      agent. A vacated cell (the map holds 0) and an absent one are free. */
  predicate Taken(world: World, p: Coord)
  {
    p in world && world[p].Occupied?
  }

  /** The cells fill_unit treats as taken. */
  function Occupants(world: World): set<Coord>
  {
    set p | p in world && world[p].Occupied?
  }

  function Cells(s: seq<Coord>): set<Coord>
  {
    set p | p in s
  }

  /** The index of the first draw outside `taken`, or -1 if there is none. */
  function FirstOutside(taken: set<Coord>, draws: seq<Coord>): (r: int)
    ensures -1 <= r < |draws|
    ensures r >= 0 ==> draws[r] !in taken
    ensures forall k :: 0 <= k < |draws| && (r < 0 || k < r) ==> draws[k] in taken
  {
    if draws == [] then -1
    else if draws[0] !in taken then 0
    else var r := FirstOutside(taken, draws[1..]); if r < 0 then -1 else r + 1
  }

  /** The cells the first n passes of fill_unit settle on when the cells of
      `taken` are occupied: each unit takes the first of its draws that no
      earlier unit and no occupant holds. The list stops short at the first
      unit whose draws are all taken, or for which there are no draws. */
  function Spots(taken: set<Coord>, spawns: seq<Spawn>, n: nat): (r: seq<Coord>)
    ensures |r| <= n && |r| <= |spawns|
  {
    if n == 0 then []
    else
      var prev := Spots(taken, spawns, n - 1);
      if |prev| < n - 1 || n - 1 >= |spawns| then prev
      else
        var k := FirstOutside(taken + Cells(prev), spawns[n - 1].draws);
        if k < 0 then prev else prev + [spawns[n - 1].draws[k]]
  }

  /** Once a unit finds no free cell, no later pass places anything. */
  lemma {:induction false} SpotsStuck(taken: set<Coord>, spawns: seq<Spawn>, i: nat, m: nat)
    requires i <= m && |Spots(taken, spawns, i)| < i
    ensures Spots(taken, spawns, m) == Spots(taken, spawns, i)
    decreases m
  {
    if m > i {
      SpotsStuck(taken, spawns, i, m - 1);
    }
  }

  /** Later passes only ever extend the placements. */
  lemma {:induction false} SpotsPrefix(taken: set<Coord>, spawns: seq<Spawn>, i: nat, n: nat)
    requires i <= n && |Spots(taken, spawns, n)| >= i
    ensures |Spots(taken, spawns, i)| == i && Spots(taken, spawns, n)[..i] == Spots(taken, spawns, i)
    decreases n
  {
    if n > i {
      SpotsPrefix(taken, spawns, i, n - 1);
    }
  }

  lemma {:induction false} SpotsGrow(taken: set<Coord>, spawns: seq<Spawn>, i: nat, n: nat)
    requires i <= n
    ensures |Spots(taken, spawns, i)| <= |Spots(taken, spawns, n)|
    decreases n
  {
    if n > i {
      SpotsGrow(taken, spawns, i, n - 1);
    }
  }

  /** The k-th placement is the first draw of unit k that is neither taken
      nor held by an earlier unit. */
  lemma SpotAt(taken: set<Coord>, spawns: seq<Spawn>, n: nat, k: nat)
    requires k < |Spots(taken, spawns, n)|
    ensures var r := Spots(taken, spawns, n);
      && var f := FirstOutside(taken + Cells(r[..k]), spawns[k].draws);
      && f >= 0 && r[k] == spawns[k].draws[f]
  {
    SpotsPrefix(taken, spawns, k + 1, n);
    SpotsPrefix(taken, spawns, k, n);
    var r := Spots(taken, spawns, n);
    assert r[..k + 1][..k] == r[..k];
  }

  /** No unit of fill_unit lands on a taken cell or on another new unit. */
  lemma SpotsFresh(taken: set<Coord>, spawns: seq<Spawn>, n: nat)
    ensures var r := Spots(taken, spawns, n);
      && (forall k :: 0 <= k < |r| ==> r[k] !in taken)
      && (forall j, k :: 0 <= j < k < |r| ==> r[j] != r[k])
  {
    var r := Spots(taken, spawns, n);
    forall k | 0 <= k < |r|
      ensures r[k] !in taken + Cells(r[..k])
    {
      SpotAt(taken, spawns, n, k);
    }
    forall j, k | 0 <= j < k < |r|
      ensures r[j] != r[k]
    {
      assert r[..k][j] == r[j];
    }
  }

  /** Each unit of fill_unit lands on one of its own draws, and on none
      later than the first of them that is free. */
  lemma SpotsDrawn(taken: set<Coord>, spawns: seq<Spawn>, n: nat)
    ensures var r := Spots(taken, spawns, n);
      && (forall k :: 0 <= k < |r| ==> r[k] in spawns[k].draws)
      && (forall k, e :: 0 <= k < |r| && 0 <= e < |spawns[k].draws| && spawns[k].draws[e] !in taken + Cells(r[..k]) ==>
            r[k] in spawns[k].draws[..e + 1])
  {
    var r := Spots(taken, spawns, n);
    forall k | 0 <= k < |r|
      ensures r[k] in spawns[k].draws
      ensures forall e :: 0 <= e < |spawns[k].draws| && spawns[k].draws[e] !in taken + Cells(r[..k]) ==>
                r[k] in spawns[k].draws[..e + 1]
    {
      SpotAt(taken, spawns, n, k);
      var d := spawns[k].draws;
      var f := FirstOutside(taken + Cells(r[..k]), d);
      forall e | 0 <= e < |d| && d[e] !in taken + Cells(r[..k])
        ensures r[k] in d[..e + 1]
      {
        assert f <= e;
        assert d[..e + 1][f] == r[k];
      }
    }
  }

  /** A unit of fill_unit is missing only when there are no draws left for
      it or all of its draws are taken. */
  lemma SpotsShort(taken: set<Coord>, spawns: seq<Spawn>, n: nat)
    ensures var r := Spots(taken, spawns, n);
      |r| < n && |r| < |spawns| ==> forall d :: d in spawns[|r|].draws ==> d in taken + Cells(r)
  {
    var r := Spots(taken, spawns, n);
    var i := |r|;
    if i < n && i < |spawns| {
      SpotsPrefix(taken, spawns, i, n);
      SpotsGrow(taken, spawns, i + 1, n);
      assert Spots(taken, spawns, i + 1) == r;
    }
  }

  /** The map entries the units placed by fill_unit write. */
  function Pairs(spots: seq<Coord>, units: seq<Agent>): (r: seq<(Coord, Cell)>)
    requires |spots| == |units|
    ensures |r| == |spots| && forall j :: 0 <= j < |r| ==> r[j] == (spots[j], Occupied(units[j]))
  {
    if spots == [] then [] else Pairs(spots[..|spots| - 1], units[..|units| - 1]) + [(spots[|spots| - 1], Occupied(units[|units| - 1]))]
  }

  /** The constant fields of a unit fill_unit makes from the draws `spawn`:
      the requested class, the death threshold drawn for it, and the
      reference unit, if any, as the source of its policy. */
  predicate Made(u: Agent, species: Species, spawn: Spawn, reference: Agent?)
  {
    u.species == species && u.dieThreshold == spawn.lifespans.For(species) && u.brainSource == reference
  }

  /** The list s, the map w and the vitals vs once fill_unit has placed i units
      after the list s0 with vitals views0 and the map world0. */
  ghost predicate Filling(s0: seq<Agent>, views0: seq<Vitals>, world0: World, species: Species, reference: Agent?,
                          spawns: seq<Spawn>, i: nat, s: seq<Agent>, w: World, vs: seq<Vitals>)
  {
    var spots := Spots(Occupants(world0), spawns, i);
    && |spots| == i
    && Enlisted(s0, views0, species, reference, spawns, spots, s, vs)
    && Drawn(world0, spots, s[|s0|..], w)
  }

  /** The units placed at `spots` follow s0 in the list, with their class,
      draws and reference, each a newborn at its spot. */
  ghost predicate Enlisted(s0: seq<Agent>, views0: seq<Vitals>, species: Species, reference: Agent?,
                           spawns: seq<Spawn>, spots: seq<Coord>, s: seq<Agent>, vs: seq<Vitals>)
  {
    && |views0| == |s0| && |s| == |s0| + |spots| && |vs| == |s|
    && s[..|s0|] == s0 && vs[..|s0|] == views0
    && Batch(species, reference, spawns, spots, s[|s0|..], vs[|s0|..])
  }

  /** The units made by the first |spots| passes of fill_unit, with their
      vitals: each of the class asked for, from its own draws, a newborn at its spot. */
  ghost predicate Batch(species: Species, reference: Agent?, spawns: seq<Spawn>, spots: seq<Coord>,
                        units: seq<Agent>, views: seq<Vitals>)
  {
    && |spots| <= |spawns| && |units| == |spots|
    && (forall j :: 0 <= j < |spots| ==> Made(units[j], species, spawns[j], reference))
    && views == Newborns(spots)
  }

  lemma BatchStep(species: Species, reference: Agent?, spawns: seq<Spawn>, spots: seq<Coord>,
                  units: seq<Agent>, views: seq<Vitals>, u: Agent, p: Coord)
    requires Batch(species, reference, spawns, spots, units, views) && |spots| < |spawns|
    requires Made(u, species, spawns[|spots|], reference)
    ensures Batch(species, reference, spawns, spots + [p], units + [u], views + [Newborn(p)])
  {
    assert (spots + [p])[..|spots|] == spots;
    forall j | 0 <= j < |spots| + 1
      ensures Made((units + [u])[j], species, spawns[j], reference)
    {
      if j < |spots| {
        assert (units + [u])[j] == units[j];
      }
    }
  }

  lemma EnlistedStep(s0: seq<Agent>, views0: seq<Vitals>, species: Species, reference: Agent?,
                     spawns: seq<Spawn>, spots: seq<Coord>, s: seq<Agent>, vs: seq<Vitals>, u: Agent, p: Coord)
    requires Enlisted(s0, views0, species, reference, spawns, spots, s, vs) && |spots| < |spawns|
    requires Made(u, species, spawns[|spots|], reference)
    ensures Enlisted(s0, views0, species, reference, spawns, spots + [p], s + [u], vs + [Newborn(p)])
  {
    BatchStep(species, reference, spawns, spots, s[|s0|..], vs[|s0|..], u, p);
    SnocSlices(s, |s0|, u);
    SnocSlices(vs, |s0|, Newborn(p));
  }

  /** The map w is world0 with each unit written at its spot. */
  ghost predicate Drawn(world0: World, spots: seq<Coord>, units: seq<Agent>, w: World)
  {
    && |units| == |spots|
    && w == Overlay(world0, Pairs(spots, units))
    && Occupants(w) == Occupants(world0) + Cells(spots)
  }

  lemma DrawnStep(world0: World, spots: seq<Coord>, units: seq<Agent>, w: World, u: Agent, p: Coord)
    requires Drawn(world0, spots, units, w)
    ensures Drawn(world0, spots + [p], units + [u], w[p := Occupied(u)])
  {
    assert Pairs(spots + [p], units + [u]) == Pairs(spots, units) + [(p, Occupied(u))];
    OverlayAppend(world0, Pairs(spots, units), (p, Occupied(u)));
    assert Cells(spots + [p]) == Cells(spots) + {p};
    assert Occupants(w[p := Occupied(u)]) == Occupants(w) + {p};
  }

  lemma SpotsNext(taken: set<Coord>, spawns: seq<Spawn>, i: nat, k: int)
    requires |Spots(taken, spawns, i)| == i && i < |spawns|
    requires k == FirstOutside(taken + Cells(Spots(taken, spawns, i)), spawns[i].draws) && k >= 0
    ensures Spots(taken, spawns, i + 1) == Spots(taken, spawns, i) + [spawns[i].draws[k]]
  {
  }

  /** Placing unit u at the next spot is a step of Filling. */
  lemma FillingStep(s0: seq<Agent>, views0: seq<Vitals>, world0: World, species: Species, reference: Agent?,
                    spawns: seq<Spawn>, i: nat, s: seq<Agent>, w: World, vs: seq<Vitals>, u: Agent, k: int)
    requires Filling(s0, views0, world0, species, reference, spawns, i, s, w, vs) && i < |spawns|
    requires k == FirstOutside(Occupants(w), spawns[i].draws) && k >= 0
    requires Made(u, species, spawns[i], reference)
    ensures Filling(s0, views0, world0, species, reference, spawns, i + 1, s + [u],
                    w[spawns[i].draws[k] := Occupied(u)], vs + [Newborn(spawns[i].draws[k])])
  {
    var spots := Spots(Occupants(world0), spawns, i);
    var p := spawns[i].draws[k];
    FillingSpot(s0, views0, world0, species, reference, spawns, i, s, w, vs, k);
    FillingEnlist(s0, views0, world0, species, reference, spawns, i, s, w, vs, u, k);
    FillingDraw(s0, views0, world0, species, reference, spawns, i, s, w, vs, u, k);
    FillingIntro(s0, views0, world0, species, reference, spawns, i + 1, spots + [p], s + [u],
                 w[p := Occupied(u)], vs + [Newborn(p)]);
  }


  lemma FillingSpot(s0: seq<Agent>, views0: seq<Vitals>, world0: World, species: Species, reference: Agent?,
                    spawns: seq<Spawn>, i: nat, s: seq<Agent>, w: World, vs: seq<Vitals>, k: int)
    requires Filling(s0, views0, world0, species, reference, spawns, i, s, w, vs) && i < |spawns|
    requires k == FirstOutside(Occupants(w), spawns[i].draws) && k >= 0
    ensures Spots(Occupants(world0), spawns, i + 1) == Spots(Occupants(world0), spawns, i) + [spawns[i].draws[k]]
  {
    SpotsNext(Occupants(world0), spawns, i, k);
  }

  lemma FillingEnlist(s0: seq<Agent>, views0: seq<Vitals>, world0: World, species: Species, reference: Agent?,
                    spawns: seq<Spawn>, i: nat, s: seq<Agent>, w: World, vs: seq<Vitals>, u: Agent, k: int)
    requires Filling(s0, views0, world0, species, reference, spawns, i, s, w, vs) && i < |spawns|
    requires k == FirstOutside(Occupants(w), spawns[i].draws) && k >= 0
    requires Made(u, species, spawns[i], reference)
    ensures Enlisted(s0, views0, species, reference, spawns, Spots(Occupants(world0), spawns, i) + [spawns[i].draws[k]], s + [u], vs + [Newborn(spawns[i].draws[k])])
  {
    var spots := Spots(Occupants(world0), spawns, i);
    var p := spawns[i].draws[k];
    EnlistedStep(s0, views0, species, reference, spawns, spots, s, vs, u, p);
  }
  lemma FillingDraw(s0: seq<Agent>, views0: seq<Vitals>, world0: World, species: Species, reference: Agent?,
                    spawns: seq<Spawn>, i: nat, s: seq<Agent>, w: World, vs: seq<Vitals>, u: Agent, k: int)
    requires Filling(s0, views0, world0, species, reference, spawns, i, s, w, vs) && i < |spawns|
    requires k == FirstOutside(Occupants(w), spawns[i].draws) && k >= 0
    requires Made(u, species, spawns[i], reference)
    ensures Drawn(world0, Spots(Occupants(world0), spawns, i) + [spawns[i].draws[k]], (s + [u])[|s0|..], w[spawns[i].draws[k] := Occupied(u)])
  {
    var spots := Spots(Occupants(world0), spawns, i);
    var p := spawns[i].draws[k];
    DrawnStep(world0, spots, s[|s0|..], w, u, p);
    SnocSlices(s, |s0|, u);
  }
  lemma FillingIntro(s0: seq<Agent>, views0: seq<Vitals>, world0: World, species: Species, reference: Agent?,
                     spawns: seq<Spawn>, i: nat, spots: seq<Coord>, s: seq<Agent>, w: World, vs: seq<Vitals>)
    requires spots == Spots(Occupants(world0), spawns, i) && |spots| == i
    requires Enlisted(s0, views0, species, reference, spawns, spots, s, vs)
    requires Drawn(world0, spots, s[|s0|..], w)
    ensures Filling(s0, views0, world0, species, reference, spawns, i, s, w, vs)
  {
  }

  /** A pass that places nothing ends fill_unit's placements for good. */
  lemma FillingStuck(taken: set<Coord>, spawns: seq<Spawn>, i: nat, taken': set<Coord>)
    requires |Spots(taken, spawns, i)| == i && taken' == taken + Cells(Spots(taken, spawns, i))
    requires i >= |spawns| || FirstOutside(taken', spawns[i].draws) < 0
    ensures Spots(taken, spawns, i + 1) == Spots(taken, spawns, i)
  {
  }

  /** A pass that finds no cell ends the filling: no later pass adds a spot. */
  lemma SpotsHalt(taken: set<Coord>, spawns: seq<Spawn>, i: nat, m: nat)
    requires i < m && |Spots(taken, spawns, i)| == i && Spots(taken, spawns, i + 1) == Spots(taken, spawns, i)
    ensures |Spots(taken, spawns, m)| == i
  {
    SpotsStuck(taken, spawns, i + 1, m);
  }

  /** The state after fill_unit's loop, in the terms of its contract. */
  lemma FillingDone(s0: seq<Agent>, views0: seq<Vitals>, world0: World, species: Species, reference: Agent?,
                    spawns: seq<Spawn>, m: nat, i: nat, ok: bool, s: seq<Agent>, w: World, vs: seq<Vitals>)
    requires Filling(s0, views0, world0, species, reference, spawns, i, s, w, vs)
    requires i <= m && (ok ==> i == m) && (!ok ==> i < m && |Spots(Occupants(world0), spawns, m)| == i)
    ensures ok <==> |Spots(Occupants(world0), spawns, m)| == m
    ensures Filling(s0, views0, world0, species, reference, spawns, |Spots(Occupants(world0), spawns, m)|, s, w, vs)
    ensures ok ==> Filling(s0, views0, world0, species, reference, spawns, m, s, w, vs)
  {
  }

  /** The draws behind one fill_world: one Spawn per unit of each class. */
  datatype Stock = Stock(rabbits: seq<Spawn>, food: seq<Spawn>, foxes: seq<Spawn>)
  {
    predicate Valid()
    {
      && (forall k :: 0 <= k < |rabbits| ==> rabbits[k].lifespans.Valid())
      && (forall k :: 0 <= k < |food| ==> food[k].lifespans.Valid())
      && (forall k :: 0 <= k < |foxes| ==> foxes[k].lifespans.Valid())
    }
  }

  /** The vitals of newborns at the given cells. */
  function Newborns(spots: seq<Coord>): (r: seq<Vitals>)
    ensures |r| == |spots| && forall j :: 0 <= j < |r| ==> r[j] == Newborn(spots[j])
  {
    if spots == [] then [] else Newborns(spots[..|spots| - 1]) + [Newborn(spots[|spots| - 1])]
  }

  /** The cells of a fill_world from an empty world: the rabbits first, then
      the food avoiding the rabbits, then the foxes avoiding both. */
  function StockSpots(draws: Stock, rabbits: nat, food: nat, foxes: nat): (seq<Coord>, seq<Coord>, seq<Coord>)
  {
    var r := Spots({}, draws.rabbits, rabbits);
    var f := Spots(Cells(r), draws.food, food);
    var x := Spots(Cells(r) + Cells(f), draws.foxes, foxes);
    (r, f, x)
  }

  /** The list s, map w and vitals vs a complete fill_world makes from an
      empty world with no reference units: R rabbits, F food and X foxes,
      in that order, none with a policy source, each a newborn at its cell. */
  ghost predicate Stocked(draws: Stock, rabbits: nat, food: nat, foxes: nat, s: seq<Agent>, w: World, vs: seq<Vitals>)
  {
    var (r, f, x) := StockSpots(draws, rabbits, food, foxes);
    && |r| == rabbits && |f| == food && |x| == foxes
    && |s| == rabbits + food + foxes && |vs| == |s|
    && Batch(Rabbit, null, draws.rabbits, r, s[..rabbits], vs[..rabbits])
    && Batch(Food, null, draws.food, f, s[rabbits..rabbits + food], vs[rabbits..rabbits + food])
    && Batch(Fox, null, draws.foxes, x, s[rabbits + food..], vs[rabbits + food..])
    && w == Overlay(map[], Pairs(r + f + x, s))
  }

  lemma PairsConcat(a: seq<Coord>, b: seq<Coord>, s: seq<Agent>, t: seq<Agent>)
    requires |a| == |s| && |b| == |t|
    ensures Pairs(a + b, s + t) == Pairs(a, s) + Pairs(b, t)
  {
  }

  /** The three passes of fill_world from an empty world, with null
      references, make exactly a Stocked world. */
  lemma StockedFromFills(draws: Stock, rabbits: nat, food: nat, foxes: nat,
                         s1: seq<Agent>, w1: World, vs1: seq<Vitals>, s2: seq<Agent>, w2: World, vs2: seq<Vitals>,
                         s: seq<Agent>, w: World, vs: seq<Vitals>)
    requires Filling([], [], map[], Rabbit, null, draws.rabbits, rabbits, s1, w1, vs1)
    requires Filling(s1, vs1, w1, Food, null, draws.food, food, s2, w2, vs2)
    requires Filling(s2, vs2, w2, Fox, null, draws.foxes, foxes, s, w, vs)
    ensures Stocked(draws, rabbits, food, foxes, s, w, vs)
  {
    var r := Spots(Occupants(map[]), draws.rabbits, rabbits);
    var f := Spots(Occupants(w1), draws.food, food);
    var x := Spots(Occupants(w2), draws.foxes, foxes);
    assert s1[0..] == s1;
    StockSpotsFrom(draws, rabbits, food, foxes, r, f, x, w1, w2);
    StockedLists(draws, rabbits, food, foxes, r, f, x, s1, vs1, s2, vs2, s, vs);
    OverlayChain(w1, w2, w, Pairs(r, s1), Pairs(f, s2[|s1|..]), Pairs(x, s[|s2|..]));
    PairsJoin(r, f, x, s1, s2, s);
    StockedIntro(draws, rabbits, food, foxes, r, f, x, s, w, vs);
  }

  lemma StockSpotsFrom(draws: Stock, rabbits: nat, food: nat, foxes: nat, r: seq<Coord>, f: seq<Coord>, x: seq<Coord>,
                       w1: World, w2: World)
    requires r == Spots(Occupants(map[]), draws.rabbits, rabbits) && Occupants(w1) == Occupants(map[]) + Cells(r)
    requires f == Spots(Occupants(w1), draws.food, food) && Occupants(w2) == Occupants(w1) + Cells(f)
    requires x == Spots(Occupants(w2), draws.foxes, foxes)
    ensures StockSpots(draws, rabbits, food, foxes) == (r, f, x)
  {
    assert Occupants(map[]) == {};
    assert Occupants(w1) == Cells(r);
  }

  lemma StockedIntro(draws: Stock, rabbits: nat, food: nat, foxes: nat, r: seq<Coord>, f: seq<Coord>, x: seq<Coord>,
                     s: seq<Agent>, w: World, vs: seq<Vitals>)
    requires StockSpots(draws, rabbits, food, foxes) == (r, f, x)
    requires |r| == rabbits && |f| == food && |x| == foxes
    requires |s| == rabbits + food + foxes && |vs| == |s|
    requires Batch(Rabbit, null, draws.rabbits, r, s[..rabbits], vs[..rabbits])
    requires Batch(Food, null, draws.food, f, s[rabbits..rabbits + food], vs[rabbits..rabbits + food])
    requires Batch(Fox, null, draws.foxes, x, s[rabbits + food..], vs[rabbits + food..])
    requires w == Overlay(map[], Pairs(r + f + x, s))
    ensures Stocked(draws, rabbits, food, foxes, s, w, vs)
  {
  }

  lemma StockedLists(draws: Stock, rabbits: nat, food: nat, foxes: nat, r: seq<Coord>, f: seq<Coord>, x: seq<Coord>,
                     s1: seq<Agent>, vs1: seq<Vitals>, s2: seq<Agent>, vs2: seq<Vitals>, s: seq<Agent>, vs: seq<Vitals>)
    requires |r| == rabbits && |f| == food && |x| == foxes
    requires Enlisted([], [], Rabbit, null, draws.rabbits, r, s1, vs1)
    requires Enlisted(s1, vs1, Food, null, draws.food, f, s2, vs2)
    requires Enlisted(s2, vs2, Fox, null, draws.foxes, x, s, vs)
    ensures |s| == rabbits + food + foxes && |vs| == |s|
    ensures Batch(Rabbit, null, draws.rabbits, r, s[..rabbits], vs[..rabbits])
    ensures Batch(Food, null, draws.food, f, s[rabbits..rabbits + food], vs[rabbits..rabbits + food])
    ensures Batch(Fox, null, draws.foxes, x, s[rabbits + food..], vs[rabbits + food..])
  {
    var n1, n2 := |s1|, |s2|;
    assert n1 == rabbits && n2 == rabbits + food;
    assert s1[0..] == s1 && vs1[0..] == vs1;
    assert s[..n2][..n1] == s[..n1] && vs[..n2][..n1] == vs[..n1];
    assert s[..n2][n1..] == s[n1..n2] && vs[..n2][n1..] == vs[n1..n2];
  }

  lemma PairsJoin(r: seq<Coord>, f: seq<Coord>, x: seq<Coord>, s1: seq<Agent>, s2: seq<Agent>, s: seq<Agent>)
    requires |s1| == |r| && |s2| == |r| + |f| && |s| == |r| + |f| + |x|
    requires s2[..|s1|] == s1 && s[..|s2|] == s2
    ensures Pairs(r, s1) + Pairs(f, s2[|s1|..]) + Pairs(x, s[|s2|..]) == Pairs(r + f + x, s)
  {
    SplitAt(s2, |s1|);
    SplitAt(s, |s2|);
    PairsConcat(r, f, s1, s2[|s1|..]);
    PairsConcat(r + f, x, s2, s[|s2|..]);
  }

  // ---------------------------------------------------------------------
  // The death sweep over agents

  /** The agents check_dead removes when it gets to them: the dead, and the
      living whose cell is not a key of the map. */
  ghost function Doomed(s: seq<Agent>, world: World): set<Agent>
    reads set a | a in s
  {
    set a | a in s && (a.dead || a.Position() !in world)
  }

  /** The map once check_dead has removed the agents `gone`, in order: the
      cell of a removed dead agent, if it is a key, is set to 0. */
  ghost function Vacate(world: World, gone: seq<Agent>): World
    reads set a | a in gone
  {
    if gone == [] then world
    else
      var w := Vacate(world, gone[..|gone| - 1]);
      var a := gone[|gone| - 1];
      if a.dead && a.Position() in w then w[a.Position() := Vacated] else w
  }

  /** Vacate keeps the keys; a key holds 0 afterwards exactly when a removed
      dead agent stood there, and otherwise keeps its value. */
  lemma {:induction false} VacateAt(world: World, gone: seq<Agent>, p: Coord)
    ensures p in Vacate(world, gone) <==> p in world
    ensures p in world ==>
              Vacate(world, gone)[p]
              == if exists k :: 0 <= k < |gone| && gone[k].dead && gone[k].Position() == p then Vacated else world[p]
  {
    if gone != [] {
      var g := gone[..|gone| - 1];
      VacateAt(world, g, p);
      if p in world && exists k :: 0 <= k < |gone| - 1 && g[k].dead && g[k].Position() == p {
        var k :| 0 <= k < |gone| - 1 && g[k].dead && g[k].Position() == p;
        assert gone[k] == g[k];
      }
      if exists k :: 0 <= k < |gone| && gone[k].dead && gone[k].Position() == p {
        var k :| 0 <= k < |gone| && gone[k].dead && gone[k].Position() == p;
        if k < |gone| - 1 {
          assert g[k] == gone[k];
        }
      }
    }
  }

  /** The loop of check_dead has reached index i of the shortened list s,
      having removed `culled` from s0 and vacated their cells in world0. */
  ghost predicate Culling(s0: seq<Agent>, world0: World, doomed: set<Agent>, s: seq<Agent>, world: World,
                          i: nat, culled: seq<Agent>)
    reads set a | a in culled
  {
    && i <= |s| + 1
    && (forall a :: a in s ==> a in s0)
    && world.Keys == world0.Keys
    && SweepFrom(s, doomed, i) == SweepFrom(s0, doomed, 0)
    && culled + CulledFrom(s, doomed, i) == CulledFrom(s0, doomed, 0)
    && world == Vacate(world0, culled)
  }

  /** One iteration of check_dead that removes agent i. */
  lemma CullRemove(s0: seq<Agent>, world0: World, doomed: set<Agent>, s: seq<Agent>, world: World,
                   i: nat, culled: seq<Agent>)
    requires Culling(s0, world0, doomed, s, world, i, culled) && doomed == Doomed(s0, world0)
    requires i < |s| && (s[i].dead || s[i].Position() !in world)
    ensures Culling(s0, world0, doomed, s[..i] + s[i + 1..],
                    if s[i].dead && s[i].Position() in world then world[s[i].Position() := Vacated] else world,
                    i + 1, culled + [s[i]])
  {
    var a := s[i];
    assert a in s0;
    assert a in doomed;
    assert CulledFrom(s, doomed, i) == [a] + CulledFrom(s[..i] + s[i + 1..], doomed, i + 1);
    assert (culled + [a])[..|culled|] == culled;
    forall b | b in s[..i] + s[i + 1..]
      ensures b in s0
    {
      assert b in s;
    }
  }

  /** One iteration of check_dead that keeps agent i. */
  lemma CullKeep(s0: seq<Agent>, world0: World, doomed: set<Agent>, s: seq<Agent>, world: World,
                 i: nat, culled: seq<Agent>)
    requires Culling(s0, world0, doomed, s, world, i, culled) && doomed == Doomed(s0, world0)
    requires i < |s| && !s[i].dead && s[i].Position() in world
    ensures Culling(s0, world0, doomed, s, world, i + 1, culled)
  {
    assert s[i] in s0;
    assert s[i] !in doomed;
  }

  /** The loop of check_dead has run off the end of the list. */
  lemma CullDone(s0: seq<Agent>, world0: World, doomed: set<Agent>, s: seq<Agent>, world: World,
                 i: nat, culled: seq<Agent>)
    requires Culling(s0, world0, doomed, s, world, i, culled) && i >= |s|
    ensures s == Survivors(s0, doomed) && culled == Casualties(s0, doomed)
    ensures world == Vacate(world0, Casualties(s0, doomed))
  {
    SweepIsSurvivors(s0, doomed);
    assert culled + [] == culled;
  }

  /** After check_dead the map still holds listed agents only, each at its
      own cell: an agent entry that survives the sweep belongs to an agent
      that survives it. */
  lemma CullSound(s: seq<Agent>, world: World)
    requires forall p :: p in world && world[p].Occupied? ==> world[p].agent in s && world[p].agent.Position() == p
    ensures var d := Doomed(s, world);
            var w := Vacate(world, Casualties(s, d));
            forall p :: p in w && w[p].Occupied? ==> w[p].agent in Survivors(s, d) && w[p].agent.Position() == p
  {
    var d := Doomed(s, world);
    var gone := Casualties(s, d);
    var w := Vacate(world, gone);
    CasualtiesAreDoomed(s, d);
    SurvivorsSplitList(s, d);
    forall p | p in w && w[p].Occupied?
      ensures w[p].agent in Survivors(s, d) && w[p].agent.Position() == p
    {
      VacateAt(world, gone, p);
      var b := world[p].agent;
      assert w[p] == world[p];
      assert b !in gone;
      assert b in multiset(s);
    }
  }

  // ---------------------------------------------------------------------
  // The reproduction sweep on values

  /** Where an offspring is put: its parent's cell shifted by the two offsets. */
  function Landing(v: Vitals, b: Birth): (p: Coord)
    ensures b.Valid() ==> -7 <= p.0 - v.x <= 7 && -7 <= p.1 - v.y <= 7
  {
    (v.x + b.dx, v.y + b.dy)
  }

  /** Whether a parent with vitals v gets an offspring: it is ready, and the
      offspring's own start coordinate is not a key of the map. */
  predicate Breeds(keys: set<Coord>, v: Vitals, b: Birth)
  {
    v.reproduce && b.probe !in keys
  }

  /** The keys of the map once check_reproduce has visited the first n
      agents of the list, whose vitals were `views` at the start. */
  function KeysAfter(keys: set<Coord>, views: seq<Vitals>, births: seq<Birth>, n: nat): (r: set<Coord>)
    requires |births| == |views| && n <= |views|
    ensures keys <= r
    decreases n
  {
    if n == 0 then keys
    else
      var k := KeysAfter(keys, views, births, n - 1);
      if Breeds(k, views[n - 1], births[n - 1]) then k + {Landing(views[n - 1], births[n - 1])} else k
  }

  /** The indices, among the first n, of the agents that get an offspring. */
  function Breeders(keys: set<Coord>, views: seq<Vitals>, births: seq<Birth>, n: nat): (r: seq<nat>)
    requires |births| == |views| && n <= |views|
    ensures |r| <= n
    ensures forall j :: 0 <= j < |r| ==> r[j] < n
    ensures forall j, j' :: 0 <= j < j' < |r| ==> r[j] < r[j']
    decreases n
  {
    if n == 0 then []
    else
      Breeders(keys, views, births, n - 1)
      + if Breeds(KeysAfter(keys, views, births, n - 1), views[n - 1], births[n - 1]) then [n - 1] else []
  }

  /** The map entries the offspring `kids` of the parents `bred` write. */
  function Litter(views: seq<Vitals>, births: seq<Birth>, bred: seq<nat>, kids: seq<Agent>): (r: seq<(Coord, Cell)>)
    requires |kids| == |bred| && forall j :: 0 <= j < |bred| ==> bred[j] < |views| && bred[j] < |births|
    ensures |r| == |kids|
    ensures forall j :: 0 <= j < |kids| ==> r[j] == (Landing(views[bred[j]], births[bred[j]]), Occupied(kids[j]))
    decreases |kids|
  {
    if kids == [] then []
    else
      var j := |kids| - 1;
      Litter(views, births, bred[..j], kids[..j]) + [(Landing(views[bred[j]], births[bred[j]]), Occupied(kids[j]))]
  }

  /** A visited agent gets an offspring exactly when it is ready and its
      offspring's start coordinate is not a key of the map as that visit
      finds it. */
  lemma {:induction false} BreedersExactly(keys: set<Coord>, views: seq<Vitals>, births: seq<Birth>, n: nat, k: nat)
    requires |births| == |views| && k < n <= |views|
    ensures k in Breeders(keys, views, births, n) <==> Breeds(KeysAfter(keys, views, births, k), views[k], births[k])
    decreases n
  {
    if k < n - 1 {
      BreedersExactly(keys, views, births, n - 1, k);
      assert k != n - 1;
    } else {
      assert k !in Breeders(keys, views, births, n - 1);
    }
  }

  /** The cells the offspring of the parents `bred` are put on. */
  function LandingSet(views: seq<Vitals>, births: seq<Birth>, bred: seq<nat>): set<Coord>
    requires forall j :: 0 <= j < |bred| ==> bred[j] < |views| && bred[j] < |births|
    decreases |bred|
  {
    if bred == [] then {}
    else
      var j := |bred| - 1;
      LandingSet(views, births, bred[..j]) + {Landing(views[bred[j]], births[bred[j]])}
  }

  /** The map gains exactly the cells the offspring are put on. */
  lemma {:induction false} KeysAfterLandings(keys: set<Coord>, views: seq<Vitals>, births: seq<Birth>, n: nat)
    requires |births| == |views| && n <= |views|
    ensures KeysAfter(keys, views, births, n) == keys + LandingSet(views, births, Breeders(keys, views, births, n))
    decreases n
  {
    if n > 0 {
      KeysAfterLandings(keys, views, births, n - 1);
      var prev := Breeders(keys, views, births, n - 1);
      if Breeds(KeysAfter(keys, views, births, n - 1), views[n - 1], births[n - 1]) {
        var bred := prev + [n - 1];
        assert Breeders(keys, views, births, n) == bred;
        assert bred[..|prev|] == prev && bred[|prev|] == n - 1;
        assert LandingSet(views, births, bred)
               == LandingSet(views, births, prev) + {Landing(views[n - 1], births[n - 1])};
      } else {
        assert Breeders(keys, views, births, n) == prev;
      }
    }
  }

  /** The entries of one more offspring extend the map by its cell. */
  lemma LitterGrows(world0: World, views: seq<Vitals>, births: seq<Birth>, bred: seq<nat>, kids: seq<Agent>,
                    i: nat, c: Agent)
    requires |kids| == |bred| && forall j :: 0 <= j < |bred| ==> bred[j] < |views| && bred[j] < |births|
    requires i < |views| && i < |births|
    ensures Overlay(world0, Litter(views, births, bred + [i], kids + [c]))
            == Overlay(world0, Litter(views, births, bred, kids))[Landing(views[i], births[i]) := Occupied(c)]
  {
    var e := Litter(views, births, bred + [i], kids + [c]);
    assert (bred + [i])[..|bred|] == bred && (kids + [c])[..|kids|] == kids;
    assert e == Litter(views, births, bred, kids) + [(Landing(views[i], births[i]), Occupied(c))];
    OverlayAppend(world0, Litter(views, births, bred, kids), (Landing(views[i], births[i]), Occupied(c)));
  }

  /** The constant fields of an offspring as check_reproduce makes it: the
      parent's class and configuration, its own death threshold draw, and
      the parent as the source of its policy when the class has one. */
  predicate Kin(c: Agent, parent: Agent, b: Birth)
  {
    && c.cfg == parent.cfg && c.species == parent.species
    && c.dieThreshold == b.lifespans.For(parent.species)
    && c.brainSource == (if parent.species == Food then null else parent)
  }

  /** The list s and the map w once check_reproduce has visited the first n
      agents of s0: the offspring follow s0 in the order of their parents,
      and the map is world0 with each offspring written at its cell. */
  ghost predicate Laid(s0: seq<Agent>, views: seq<Vitals>, births: seq<Birth>, world0: World, n: nat,
                       s: seq<Agent>, w: World)
  {
    && |views| == |s0| && |births| == |s0| && n <= |s0|
    && var bred := Breeders(world0.Keys, views, births, n);
       && |s| == |s0| + |bred| && s[..|s0|] == s0
       && (forall j :: 0 <= j < |bred| ==> Kin(s[|s0| + j], s0[bred[j]], births[bred[j]]))
       && w == Overlay(world0, Litter(views, births, bred, s[|s0|..]))
       && w.Keys == KeysAfter(world0.Keys, views, births, n)
  }

  /** The vitals vs of the list once check_reproduce has visited the first
      n agents: a parent that got an offspring is done reproducing and
      starts gathering food anew, and each offspring is a newborn at its
      landing cell. */
  ghost predicate Grown(views: seq<Vitals>, births: seq<Birth>, keys: set<Coord>, n: nat, vs: seq<Vitals>)
  {
    && |births| == |views| && n <= |views|
    && var bred := Breeders(keys, views, births, n);
       && |vs| == |views| + |bred|
       && (forall k :: 0 <= k < |views| ==>
             vs[k] == if k in bred then views[k].(reproduce := false, food := 0) else views[k])
       && (forall j :: 0 <= j < |bred| ==> vs[|views| + j] == Newborn(Landing(views[bred[j]], births[bred[j]])))
  }

  /** Offspring are never ready to reproduce while the sweep runs. */
  lemma NewbornIdle(views: seq<Vitals>, births: seq<Birth>, keys: set<Coord>, vs: seq<Vitals>, i: nat)
    requires Grown(views, births, keys, |views|, vs) && |views| <= i < |vs|
    ensures !vs[i].reproduce
  {
    var bred := Breeders(keys, views, births, |views|);
    assert vs[|views| + (i - |views|)] == Newborn(Landing(views[bred[i - |views|]], births[bred[i - |views|]]));
  }

  /** A visit that makes no offspring leaves list and map as they are. */
  lemma LaidSkip(s0: seq<Agent>, views: seq<Vitals>, births: seq<Birth>, world0: World, n: nat,
                 s: seq<Agent>, w: World)
    requires Laid(s0, views, births, world0, n, s, w) && n < |s0|
    requires !Breeds(KeysAfter(world0.Keys, views, births, n), views[n], births[n])
    ensures Laid(s0, views, births, world0, n + 1, s, w)
  {
    var bred := Breeders(world0.Keys, views, births, n);
    assert Breeders(world0.Keys, views, births, n + 1) == bred + [];
    assert Breeders(world0.Keys, views, births, n + 1) == bred;
    assert |s| == |s0| + |bred| && s[..|s0|] == s0;
    assert (forall j :: 0 <= j < |bred| ==> Kin(s[|s0| + j], s0[bred[j]], births[bred[j]]));
    assert w == Overlay(world0, Litter(views, births, bred, s[|s0|..]));
    assert w.Keys == KeysAfter(world0.Keys, views, births, n + 1);
  }

  lemma GrownSkip(views: seq<Vitals>, births: seq<Birth>, keys: set<Coord>, n: nat, vs: seq<Vitals>)
    requires Grown(views, births, keys, n, vs) && n < |views|
    requires !Breeds(KeysAfter(keys, views, births, n), views[n], births[n])
    ensures Grown(views, births, keys, n + 1, vs)
  {
    assert Breeders(keys, views, births, n + 1) == Breeders(keys, views, births, n) + [];
  }

  /** A visit that makes the offspring c appends it and writes it at its cell. */
  lemma LaidBreed(s0: seq<Agent>, views: seq<Vitals>, births: seq<Birth>, world0: World, n: nat,
                  s: seq<Agent>, w: World, c: Agent)
    requires Laid(s0, views, births, world0, n, s, w) && n < |s0|
    requires Breeds(KeysAfter(world0.Keys, views, births, n), views[n], births[n])
    requires Kin(c, s0[n], births[n])
    ensures Laid(s0, views, births, world0, n + 1, s + [c], w[Landing(views[n], births[n]) := Occupied(c)])
  {
    var bred := Breeders(world0.Keys, views, births, n);
    var l := Landing(views[n], births[n]);
    BreedersNext(world0.Keys, views, births, n);
    SnocSlices(s, |s0|, c);
    LaidKin(s0, births, bred, s, n, c);
    LitterGrows(world0, views, births, bred, s[|s0|..], n, c);
    KeysUpdate(w, l, Occupied(c));
    LaidIntro(s0, views, births, world0, n + 1, bred + [n], s + [c], w[l := Occupied(c)]);
  }

  lemma BreedersNext(keys: set<Coord>, views: seq<Vitals>, births: seq<Birth>, n: nat)
    requires |births| == |views| && n < |views|
    requires Breeds(KeysAfter(keys, views, births, n), views[n], births[n])
    ensures Breeders(keys, views, births, n + 1) == Breeders(keys, views, births, n) + [n]
    ensures KeysAfter(keys, views, births, n + 1) == KeysAfter(keys, views, births, n) + {Landing(views[n], births[n])}
  {
  }

  lemma KeysUpdate(w: World, p: Coord, v: Cell)
    ensures w[p := v].Keys == w.Keys + {p}
  {
  }

  lemma LaidKin(s0: seq<Agent>, births: seq<Birth>, bred: seq<nat>, s: seq<Agent>, n: nat, c: Agent)
    requires |s| == |s0| + |bred| && n < |s0| && |births| == |s0|
    requires forall j :: 0 <= j < |bred| ==> bred[j] < |s0|
    requires forall j :: 0 <= j < |bred| ==> Kin(s[|s0| + j], s0[bred[j]], births[bred[j]])
    requires Kin(c, s0[n], births[n])
    ensures forall j :: 0 <= j < |bred + [n]| ==> Kin((s + [c])[|s0| + j], s0[(bred + [n])[j]], births[(bred + [n])[j]])
  {
    forall j | 0 <= j < |bred + [n]|
      ensures Kin((s + [c])[|s0| + j], s0[(bred + [n])[j]], births[(bred + [n])[j]])
    {
      if j < |bred| {
        assert (s + [c])[|s0| + j] == s[|s0| + j] && (bred + [n])[j] == bred[j];
      }
    }
  }

  lemma LaidIntro(s0: seq<Agent>, views: seq<Vitals>, births: seq<Birth>, world0: World, n: nat,
                  bred: seq<nat>, s: seq<Agent>, w: World)
    requires |views| == |s0| && |births| == |s0| && n <= |s0|
    requires bred == Breeders(world0.Keys, views, births, n)
    requires |s| == |s0| + |bred| && s[..|s0|] == s0
    requires forall j :: 0 <= j < |bred| ==> Kin(s[|s0| + j], s0[bred[j]], births[bred[j]])
    requires w == Overlay(world0, Litter(views, births, bred, s[|s0|..]))
    requires w.Keys == KeysAfter(world0.Keys, views, births, n)
    ensures Laid(s0, views, births, world0, n, s, w)
  {
  }

  /** A visit that makes an offspring resets the parent and adds a newborn. */
  lemma GrownBreed(views: seq<Vitals>, births: seq<Birth>, keys: set<Coord>, n: nat, vs: seq<Vitals>)
    requires Grown(views, births, keys, n, vs) && n < |views|
    requires Breeds(KeysAfter(keys, views, births, n), views[n], births[n])
    ensures Grown(views, births, keys, n + 1,
                  vs[n := views[n].(reproduce := false, food := 0)] + [Newborn(Landing(views[n], births[n]))])
  {
    var bred := Breeders(keys, views, births, n);
    assert n !in bred;
    assert Breeders(keys, views, births, n + 1) == bred + [n];
  }

  /* ---------------------------------------------------------------------
     count_agents: the census of the list, the best agent of each class,
     and the two refill rules that steer the population.
     --------------------------------------------------------------------- */

  /** How many agents of class sp the list holds. */
  function Headcount(s: seq<Agent>, sp: Species): (r: nat)
    ensures r <= |s|
  {
    if s == [] then 0
    else Headcount(s[..|s| - 1], sp) + (if s[|s| - 1].species == sp then 1 else 0)
  }

  /** Every agent is counted once, under its own class. */
  lemma {:induction false} HeadcountsAddUp(s: seq<Agent>)
    ensures Headcount(s, Rabbit) + Headcount(s, Fox) + Headcount(s, Food) == |s|
    decreases |s|
  {
    if s != [] {
      HeadcountsAddUp(s[..|s| - 1]);
    }
  }

  /** A class is counted zero times exactly when no listed agent belongs to it. */
  lemma {:induction false} HeadcountZero(s: seq<Agent>, sp: Species)
    ensures Headcount(s, sp) == 0 <==> forall a :: a in s ==> a.species != sp
    decreases |s|
  {
    if s != [] {
      HeadcountZero(s[..|s| - 1], sp);
      assert forall a :: a in s ==> a in s[..|s| - 1] || a == s[|s| - 1];
    }
  }

  /** The agent count_agents keeps as the best of class sp after going through
      s: it starts from init (the one kept by earlier ticks, possibly no longer
      listed), and a listed agent of the class takes its place when nothing is
      kept yet or when it has eaten strictly more over its life. */
  function Champion(s: seq<Agent>, sp: Species, init: Agent?): (r: Agent?)
    reads (set a | a in s), init
    ensures r == init || (r in s && r.species == sp)
  {
    if s == [] then init
    else
      var c := Champion(s[..|s| - 1], sp, init);
      var a := s[|s| - 1];
      if a.species == sp && (c == null || c.eaten < a.eaten) then a else c
  }

  /** The kept agent has eaten at least as much as every listed agent of its
      class and as the one kept before; there is none only when nothing was
      kept and the class is absent; a newly kept agent beats the old one
      strictly. */
  lemma {:induction false} ChampionBest(s: seq<Agent>, sp: Species, init: Agent?)
    ensures var r := Champion(s, sp, init);
            && (forall a :: a in s && a.species == sp ==> r != null && a.eaten <= r.eaten)
            && (init != null ==> r != null && init.eaten <= r.eaten)
            && (r == null <==> init == null && Headcount(s, sp) == 0)
            && (r != init ==> init == null || init.eaten < r.eaten)
    decreases |s|
  {
    if s != [] {
      var s' := s[..|s| - 1];
      ChampionBest(s', sp, init);
      HeadcountZero(s', sp);
      HeadcountZero(s, sp);
      assert forall a :: a in s ==> a in s' || a == s[|s| - 1];
    }
  }

  /** The census of a list one agent longer. */
  lemma CensusStep(s: seq<Agent>, i: nat, sp: Species, init: Agent?)
    requires i < |s|
    ensures Headcount(s[..i + 1], sp) == Headcount(s[..i], sp) + (if s[i].species == sp then 1 else 0)
    ensures var c := Champion(s[..i], sp, init);
            Champion(s[..i + 1], sp, init) == if s[i].species == sp && (c == null || c.eaten < s[i].eaten) then s[i] else c
  {
    assert s[..i + 1][..i] == s[..i];
  }

  /** The numbers count_agents steers by. */
  datatype Dials = Dials(
    foxesNumber: int,     // foxes a refill places
    epoch: int,           // ticks since the last reset
    foxRefills: nat,      // high-water refills caused by foxes
    rabbitRefills: nat,   // high-water refills caused by rabbits
    rabbitShare: real,    // rabbits per target rabbit above which rabbits trigger a refill
    rabbitEpochs: real,   // ticks after which rabbits may trigger a refill
    foxShare: real,
    foxEpochs: real)
  {
    /** What the starting values guarantee and every refill keeps: positive
        shares, non-negative epoch thresholds and a non-negative epoch. */
    predicate Sound()
    {
      0.0 < rabbitShare && 0.0 < foxShare && 0.0 <= rabbitEpochs && 0.0 <= foxEpochs && 0 <= epoch
    }
  }

  function Min(a: real, b: real): (r: real)
    ensures r <= a && r <= b && (r == a || r == b)
  {
    if a <= b then a else b
  }

  /** The low-water rule of count_agents: too few rabbits (fewer than a tenth
      of the rabbit target, by floor division) lowers the fox target by 25,
      otherwise too few foxes raises it by 25; either one clears and refills
      the world, which restarts the epoch. The flag says whether it fired. */
  function LowWater(d: Dials, rabbitsNumber: int, rabbit: nat, fox: nat): (r: (Dials, bool))
  {
    if rabbit < rabbitsNumber / 10 then (d.(foxesNumber := d.foxesNumber - 25, epoch := 0), true)
    else if fox < d.foxesNumber / 10 then (d.(foxesNumber := d.foxesNumber + 25, epoch := 0), true)
    else (d, false)
  }

  /** The high-water rule, applied after the low-water rule to its dials and
      to the counts taken before any refill: a population above its share of
      the target, once enough ticks have passed, clears and refills the world,
      counts a refill against its class, raises that class's share by a tenth
      and its epoch threshold by half, and restarts the epoch at a value that
      grows with the refills made so far. Rabbits are checked first. */
  function HighWater(d: Dials, rabbitsNumber: int, rabbit: nat, fox: nat, decay: nat): (r: (Dials, bool))
  {
    if (rabbit as real) > (rabbitsNumber as real) * d.rabbitShare && (d.epoch as real) > d.rabbitEpochs then
      var refills := d.rabbitRefills + 1;
      (d.(rabbitRefills := refills, rabbitShare := d.rabbitShare * 1.1, rabbitEpochs := d.rabbitEpochs * 1.5,
          epoch := ((d.foxRefills + refills) * decay) / 2), true)
    else if (fox as real) > (d.foxesNumber as real) * d.foxShare && (d.epoch as real) > d.foxEpochs then
      var epochs := d.foxEpochs * 1.5;
      (d.(foxRefills := d.foxRefills + 1, foxShare := d.foxShare * 1.1, foxEpochs := epochs,
          epoch := (Min(epochs, d.rabbitEpochs) / 2.0).Floor), true)
    else (d, false)
  }

  /** Both rules in their order. */
  function Recount(d: Dials, rabbitsNumber: int, rabbit: nat, fox: nat, decay: nat): Dials
  {
    HighWater(LowWater(d, rabbitsNumber, rabbit, fox).0, rabbitsNumber, rabbit, fox, decay).0
  }

  /** The low-water rule moves the fox target by exactly 25 when it fires and
      leaves every dial alone otherwise; it never touches the refill counts
      or thresholds. */
  lemma LowWaterMeaning(d: Dials, rabbitsNumber: int, rabbit: nat, fox: nat)
    ensures var (e, fired) := LowWater(d, rabbitsNumber, rabbit, fox);
            && (fired <==> 10 * rabbit < rabbitsNumber - rabbitsNumber % 10 || 10 * fox < d.foxesNumber - d.foxesNumber % 10)
            && (fired ==> e.epoch == 0 && (e.foxesNumber == d.foxesNumber - 25 || e.foxesNumber == d.foxesNumber + 25))
            && (fired && 10 * rabbit < rabbitsNumber - rabbitsNumber % 10 ==> e.foxesNumber == d.foxesNumber - 25)
            && (fired && !(10 * rabbit < rabbitsNumber - rabbitsNumber % 10) ==> e.foxesNumber == d.foxesNumber + 25)
            && (!fired ==> e == d)
            && e.(foxesNumber := d.foxesNumber, epoch := d.epoch) == d
  {
  }

  /** Sound dials stay sound through a recount. */
  lemma RecountSound(d: Dials, rabbitsNumber: int, rabbit: nat, fox: nat, decay: nat)
    requires d.Sound()
    ensures Recount(d, rabbitsNumber, rabbit, fox, decay).Sound()
  {
  }

  /** With sound dials a tick refills the world at most once: a low-water
      refill restarts the epoch at 0, which no epoch threshold lies below. */
  lemma OneRefillPerTick(d: Dials, rabbitsNumber: int, rabbit: nat, fox: nat, decay: nat)
    requires d.Sound() && LowWater(d, rabbitsNumber, rabbit, fox).1
    ensures !HighWater(LowWater(d, rabbitsNumber, rabbit, fox).0, rabbitsNumber, rabbit, fox, decay).1
  {
  }

  /** A high-water refill is charged to exactly one class, whose share and
      epoch threshold it strictly raises while the other class's stay; with
      no refill nothing changes. */
  lemma HighWaterRaisesTheBar(d: Dials, rabbitsNumber: int, rabbit: nat, fox: nat, decay: nat)
    requires d.Sound()
    ensures var (e, fired) := HighWater(d, rabbitsNumber, rabbit, fox, decay);
            && e.foxRefills + e.rabbitRefills == d.foxRefills + d.rabbitRefills + (if fired then 1 else 0)
            && (e.rabbitRefills > d.rabbitRefills ==>
                  e.rabbitShare > d.rabbitShare && e.rabbitEpochs >= d.rabbitEpochs
                  && e.foxShare == d.foxShare && e.foxEpochs == d.foxEpochs)
            && (e.foxRefills > d.foxRefills ==>
                  e.foxShare > d.foxShare && e.foxEpochs >= d.foxEpochs
                  && e.rabbitShare == d.rabbitShare && e.rabbitEpochs == d.rabbitEpochs)
            && (fired ==> (rabbit as real) > (rabbitsNumber as real) * d.rabbitShare
                            || (fox as real) > (d.foxesNumber as real) * d.foxShare)
            && (!fired ==> e == d)
            && e.foxesNumber == d.foxesNumber
  {
  }

  class Simulation {
    const cfg: Config
    var rabbitsNumber: int
    var foxesNumber: int
    var foodNumber: int

    var agents: seq<Agent>
    var world: World
    var epoch: int
    var foxRefills: nat
    var rabbitRefills: nat
    var rabbitRefillThreshold: real
    var rabbitEpochsRefillThreshold: real
    var foxRefillThreshold: real
    var foxEpochsRefillThreshold: real
    var lastRabbit: Agent?
    var lastFox: Agent?
    var foodCounts: seq<int>
    var rabbitCounts: seq<int>
    var foxCounts: seq<int>

    constructor (cfg: Config, rabbitsNumber: int, foxesNumber: int, foodNumber: int)
      requires cfg.Valid()
      ensures Valid() && this.cfg == cfg && agents == [] && world == map[]
      ensures this.rabbitsNumber == rabbitsNumber && this.foodNumber == foodNumber
      ensures CurrentDials() == Dials(foxesNumber, 0, 0, 0, cfg.refillShare, cfg.refillEpochs,
                                      cfg.refillShare, cfg.refillEpochs)
      ensures CurrentDials().Sound()
      ensures lastRabbit == null && lastFox == null && foodCounts == [] && foxCounts == [] && rabbitCounts == []
    {
      this.cfg := cfg;
      this.rabbitsNumber := rabbitsNumber;
      this.foxesNumber := foxesNumber;
      this.foodNumber := foodNumber;
      agents := [];
      world := map[];
      epoch := 0;
      foxRefills := 0;
      rabbitRefills := 0;
      rabbitRefillThreshold := cfg.refillShare;
      rabbitEpochsRefillThreshold := cfg.refillEpochs;
      foxRefillThreshold := cfg.refillShare;
      foxEpochsRefillThreshold := cfg.refillEpochs;
      lastRabbit := null;
      lastFox := null;
      foodCounts := [];
      rabbitCounts := [];
      foxCounts := [];
    }

    /** The map only ever holds listed agents, each at its own cell. */
    ghost predicate WorldSound()
      reads this`agents, this`world, set a | a in agents
    {
      forall p :: p in world && world[p].Occupied? ==>
        world[p].agent in agents && world[p].agent.Position() == p
    }

    ghost predicate Valid()
      reads this`agents, this`world, set a | a in agents
    {
      && cfg.Valid()
      && Distinct(agents)
      && (forall a :: a in agents ==> a.Valid() && a.cfg == cfg)
      && WorldSound()
    }

    /** move_agents: every listed agent moves in list order against the map
        of the previous tick; then the map is rebuilt from the list. */
    method MoveAgents(actions: seq<int>)
      requires Valid() && |actions| == |agents|
      modifies this`world, Footprint(agents)
      ensures Valid() && agents == old(agents)
      ensures Views(agents) == MoveUpTo(cfg, agents, old(world), old(Views(agents)), actions, |agents|)
      ensures world == Overlay(map[], Placements(agents))
      ensures forall a :: a in agents ==> a.Position() in world
    {
      ghost var views := Views(agents);
      assert Reached(cfg, agents, world, views, actions, 0, views);
      FootprintIsAgents(agents, this);
      MoveAll(cfg, agents, world, actions, views);
      ViewsAre(agents, MoveUpTo(cfg, agents, old(world), views, actions, |agents|));
      Rebuild();
    }

    /** check_dead. */
    method CheckDead()
      requires Valid()
      modifies this`agents, this`world
      ensures Valid()
      ensures agents == Survivors(old(agents), Doomed(old(agents), old(world)))
      ensures world == Vacate(old(world), Casualties(old(agents), Doomed(old(agents), old(world))))
    {
      Cull(Doomed(agents, world));
      SurvivorsDistinct(old(agents), Doomed(old(agents), old(world)));
      SurvivorsWithin(old(agents), Doomed(old(agents), old(world)));
      CullSound(old(agents), old(world));
    }

    /** The loop of check_dead: one pass over the list that removes the
        agents of `doomed` as it meets them, the iterator moving on after
        each removal. */
    method Cull(ghost doomed: set<Agent>)
      requires doomed == Doomed(agents, world)
      modifies this`agents, this`world
      ensures agents == Survivors(old(agents), doomed)
      ensures world == Vacate(old(world), Casualties(old(agents), doomed))
    {
      ghost var s0 := agents;
      ghost var culled: seq<Agent> := [];
      var i := 0;
      while i < |agents|
        invariant Culling(s0, old(world), doomed, agents, world, i, culled)
        decreases |agents| + 1 - i
      {
        var a := agents[i];
        if a.dead || a.Position() !in world {
          CullRemove(s0, old(world), doomed, agents, world, i, culled);
          agents := agents[..i] + agents[i + 1..];
          if a.dead && a.Position() in world {
            world := world[a.Position() := Vacated];
          }
          culled := culled + [a];
        } else {
          CullKeep(s0, old(world), doomed, agents, world, i, culled);
        }
        i := i + 1;
      }
      CullDone(s0, old(world), doomed, agents, world, i, culled);
    }

    /** The loop of check_reproduce has visited the first n agents of the
        list s0, whose vitals were `views`. */
    ghost predicate Breeding(s0: seq<Agent>, views: seq<Vitals>, births: seq<Birth>, world0: World, n: nat)
      reads this, set a | a in agents
    {
      && Valid()
      && Laid(s0, views, births, world0, n, agents, world)
      && Grown(views, births, world0.Keys, n, Views(agents))
    }

    /** check_reproduce: every agent of the list, offspring appended on the
        way included, is visited once; a ready one gets an offspring unless
        the offspring's start coordinate is already a key of the map. */
    method CheckReproduce(births: seq<Birth>)
      requires Valid() && |births| == |agents|
      requires forall k :: 0 <= k < |births| ==> births[k].Valid()
      modifies this`agents, this`world, set a | a in agents
      ensures Breeding(old(agents), old(Views(agents)), births, old(world), |old(agents)|)
    {
      ghost var s0 := agents;
      ghost var views := Views(agents);
      EndSlices(agents);
      assert Breeding(s0, views, births, world, 0);
      var i := 0;
      ghost var n := 0;
      while i < |agents|
        invariant i <= |agents| <= |s0| + n && n == (if i < |s0| then i else |s0|)
        invariant Breeding(s0, views, births, old(world), n)
        decreases 2 * |s0| - i
      {
        n := Visit(s0, views, births, old(world), i, n);
        i := i + 1;
      }
    }

    /** The body of check_reproduce's loop, at index i of the growing list. */
    method Visit(ghost s0: seq<Agent>, ghost views: seq<Vitals>, births: seq<Birth>, ghost world0: World, i: nat,
                 ghost n: nat) returns (ghost n': nat)
      requires Breeding(s0, views, births, world0, n) && i < |agents| && n == (if i < |s0| then i else |s0|)
      requires forall k :: 0 <= k < |births| ==> births[k].Valid()
      modifies this`agents, this`world, set a | a in s0
      ensures Breeding(s0, views, births, world0, n') && n' == (if i + 1 < |s0| then i + 1 else |s0|)
      ensures |agents| <= |s0| + n'
    {
      n' := if i + 1 < |s0| then i + 1 else |s0|;
      if agents[i].reproduce {
        if i >= |s0| {
          assert Views(agents)[i] == agents[i].View();
          NewbornIdle(views, births, world0.Keys, Views(agents), i);
          assert false;
        }
        Breed(s0, views, births, world0, i, n');
      } else if i < |s0| {
        Idle(s0, views, births, world0, i, n');
      }
    }

    /** A visit to an agent of the original list that is not ready. */
    lemma Idle(s0: seq<Agent>, views: seq<Vitals>, births: seq<Birth>, world0: World, i: nat, n': nat)
      requires Breeding(s0, views, births, world0, i) && i < |s0| && !agents[i].reproduce && n' == i + 1
      ensures Breeding(s0, views, births, world0, n') && |agents| <= |s0| + n'
    {
      assert i !in Breeders(world0.Keys, views, births, i);
      assert Views(agents)[i] == agents[i].View();
      LaidSkip(s0, views, births, world0, i, agents, world);
      GrownSkip(views, births, world0.Keys, i, Views(agents));
    }

    /** A visit to a ready agent of the original list: it makes an offspring
        of its class and keeps it only if the offspring's start coordinate
        is not a key of the map. */
    method Breed(ghost s0: seq<Agent>, ghost views: seq<Vitals>, births: seq<Birth>, ghost world0: World, i: nat,
                 ghost n': nat)
      requires Breeding(s0, views, births, world0, i) && i < |s0| && agents[i].reproduce && n' == i + 1
      requires forall k :: 0 <= k < |births| ==> births[k].Valid()
      modifies this`agents, this`world, agents[i]
      ensures Breeding(s0, views, births, world0, n') && |agents| <= |s0| + n'
    {
      var kid := Offspring(agents[i], births[i]);
      if kid.Position() in world {
        Discard(s0, views, births, world0, i, n');
      } else {
        Keep(s0, views, births, world0, i, n', kid);
      }
    }

    /** The offspring of parent: an agent of its class at the birth's start
        coordinate, whose brain is copied from the parent unless it is food. */
    method Offspring(parent: Agent, b: Birth) returns (kid: Agent)
      requires parent.Valid() && b.Valid()
      ensures fresh(kid) && kid.Valid() && Kin(kid, parent, b)
      ensures kid.View() == Newborn(b.probe) && kid.Position() == b.probe
    {
      kid := new Agent(parent.cfg, parent.species, b.probe, b.lifespans.For(parent.species),
                       if parent.species == Food then null else parent);
    }

    /** The offspring's start coordinate is a key of the map: nothing changes. */
    lemma Discard(s0: seq<Agent>, views: seq<Vitals>, births: seq<Birth>, world0: World, i: nat, n': nat)
      requires Breeding(s0, views, births, world0, i) && i < |s0| && n' == i + 1
      requires births[i].probe in world
      ensures Breeding(s0, views, births, world0, n') && |agents| <= |s0| + n'
    {
      LaidSkip(s0, views, births, world0, i, agents, world);
      GrownSkip(views, births, world0.Keys, i, Views(agents));
    }

    /** The offspring is kept: it lands near its parent, which is done reproducing. */
    method Keep(ghost s0: seq<Agent>, ghost views: seq<Vitals>, births: seq<Birth>, ghost world0: World, i: nat,
                ghost n': nat, kid: Agent)
      requires Breeding(s0, views, births, world0, i) && i < |s0| && agents[i].reproduce && n' == i + 1
      requires births[i].probe !in world
      requires kid.Valid() && Kin(kid, agents[i], births[i]) && kid.View() == Newborn(births[i].probe) && kid !in agents
      modifies this`agents, this`world, kid, agents[i]
      ensures Breeding(s0, views, births, world0, n') && |agents| <= |s0| + n'
    {
      ghost var s, w, vs := agents, world, Views(agents);
      assert vs[i] == agents[i].View();
      assert i !in Breeders(world0.Keys, views, births, i);
      assert vs[i] == views[i];
      assert s0[i] == agents[i];
      LaidBreed(s0, views, births, world0, i, s, w, kid);
      GrownBreed(views, births, world0.Keys, i, vs);
      Settle(i, kid, births[i], views[i]);
    }

    /** A kept offspring: fill_particular_unit puts it near its parent, whose
        vitals were v, then the parent's reproduce_done. */
    method Settle(i: nat, kid: Agent, b: Birth, ghost v: Vitals)
      requires Valid() && i < |agents| && kid.Valid() && kid.cfg == cfg && kid !in agents
      requires v == agents[i].View() && kid.View() == Newborn(b.probe)
      modifies this`agents, this`world, kid`x, kid`y, agents[i]
      ensures Valid() && agents == old(agents) + [kid]
      ensures world == old(world)[Landing(v, b) := Occupied(kid)]
      ensures Views(agents) == old(Views(agents))[i := v.(reproduce := false, food := 0)] + [Newborn(Landing(v, b))]
    {
      ghost var vs := Views(agents);
      FillParticularUnit(kid, agents[i].Position(), b.dx, b.dy);
      assert kid.View() == Newborn(Landing(v, b));
      ViewsAre(agents, vs + [kid.View()]);
      ResetParent(i);
    }

    /** reproduce_done on the agent at index i of the list. */
    method ResetParent(i: nat)
      requires Valid() && i < |agents|
      modifies agents[i]
      ensures Valid()
      ensures Views(agents) == old(Views(agents))[i := old(agents[i].View()).(reproduce := false, food := 0)]
    {
      ghost var vs' := Views(agents)[i := agents[i].View().(reproduce := false, food := 0)];
      var parent := agents[i];
      parent.ReproduceDone();
      forall k | 0 <= k < |agents|
        ensures agents[k].View() == vs'[k]
      {
        if k != i {
          assert agents[k] != parent;
        }
      }
      ViewsAre(agents, vs');
    }

    /** fill_particular_unit: the unit is put at the center shifted by the
        two offsets, appended to the list and written into the map. */
    method FillParticularUnit(unit: Agent, center: Coord, dx: int, dy: int)
      requires Valid() && unit.Valid() && unit.cfg == cfg && unit !in agents
      modifies this`agents, this`world, unit`x, unit`y
      ensures unit.View() == old(unit.View()).(x := center.0 + dx, y := center.1 + dy)
      ensures agents == old(agents) + [unit]
      ensures world == old(world)[unit.Position() := Occupied(unit)]
      ensures Valid()
    {
      assert unit !in (set a | a in agents);
      unit.SetPosition((center.0 + dx, center.1 + dy));
      Enlist(unit);
    }

    /** The tail of fill_unit's and fill_particular_unit's loops: the unit is
        appended to the list and written into the map at its cell. */
    method Enlist(unit: Agent)
      requires Valid() && unit.Valid() && unit.cfg == cfg && unit !in agents
      modifies this`agents, this`world
      ensures agents == old(agents) + [unit]
      ensures world == old(world)[unit.Position() := Occupied(unit)]
      ensures Valid()
      ensures Views(agents) == old(Views(agents)) + [unit.View()]
    {
      ghost var vs := Views(agents);
      agents := agents + [unit];
      world := world[unit.Position() := Occupied(unit)];
      ViewsAre(agents, vs + [unit.View()]);
    }

    /** fill_unit: range(n) passes, each making a unit of class `species` from
        its draws, rerolling its position while the map holds an agent there,
        and enlisting it. ok is false when a pass runs out of draws, where
        fill_unit would go on rerolling; the passes made so far stay. */
    method FillUnit(species: Species, n: int, reference: Agent?, spawns: seq<Spawn>) returns (ok: bool)
      requires Valid()
      requires forall k :: 0 <= k < |spawns| ==> spawns[k].lifespans.Valid()
      modifies this`agents, this`world
      ensures Valid()
      ensures ok <==> |Spots(Occupants(old(world)), spawns, Range(n))| == Range(n)
      ensures Filling(old(agents), old(Views(agents)), old(world), species, reference, spawns,
                      |Spots(Occupants(old(world)), spawns, Range(n))|, agents, world, Views(agents))
      ensures ok ==> Filling(old(agents), old(Views(agents)), old(world), species, reference, spawns, Range(n),
                             agents, world, Views(agents))
    {
      EndSlices(agents);
      var m, i := Range(n), 0;
      ok := true;
      while ok && i < m
        invariant i <= m && Valid() && (!ok ==> i < m)
        invariant Filling(old(agents), old(Views(agents)), old(world), species, reference, spawns, i, agents, world, Views(agents))
        invariant !ok ==> |Spots(Occupants(old(world)), spawns, m)| == i
        decreases m - i, ok
      {
        ok, i := Pass(old(agents), old(Views(agents)), old(world), species, reference, spawns, m, i);
      }
      FillingDone(old(agents), old(Views(agents)), old(world), species, reference, spawns, m, i, ok,
                  agents, world, Views(agents));
    }

    /** One pass of fill_unit's loop: the next spot, or the end of the filling. */
    method Pass(ghost s0: seq<Agent>, ghost views0: seq<Vitals>, ghost world0: World, species: Species,
                reference: Agent?, spawns: seq<Spawn>, m: nat, i: nat) returns (ok: bool, j: nat)
      requires Valid() && i < m && Filling(s0, views0, world0, species, reference, spawns, i, agents, world, Views(agents))
      requires forall k :: 0 <= k < |spawns| ==> spawns[k].lifespans.Valid()
      modifies this`agents, this`world
      ensures j <= m && Valid() && (!ok ==> j < m)
      ensures Filling(s0, views0, world0, species, reference, spawns, j, agents, world, Views(agents))
      ensures !ok ==> |Spots(Occupants(world0), spawns, m)| == j
      ensures j == if ok then i + 1 else i
    {
      ok := Place(s0, views0, world0, species, reference, spawns, i);
      if ok {
        j := i + 1;
      } else {
        j := i;
        SpotsHalt(Occupants(world0), spawns, i, m);
      }
    }

    method Place(ghost s0: seq<Agent>, ghost views0: seq<Vitals>, ghost world0: World, species: Species,
                 reference: Agent?, spawns: seq<Spawn>, i: nat) returns (ok: bool)
      requires Valid() && Filling(s0, views0, world0, species, reference, spawns, i, agents, world, Views(agents))
      requires forall k :: 0 <= k < |spawns| ==> spawns[k].lifespans.Valid()
      modifies this`agents, this`world
      ensures Valid()
      ensures ok ==> Filling(s0, views0, world0, species, reference, spawns, i + 1, agents, world, Views(agents))
      ensures !ok ==> Filling(s0, views0, world0, species, reference, spawns, i, agents, world, Views(agents))
      ensures !ok ==> Spots(Occupants(world0), spawns, i + 1) == Spots(Occupants(world0), spawns, i)
    {
      if i >= |spawns| || |spawns[i].draws| == 0 {
        FillingStuck(Occupants(world0), spawns, i, Occupants(world));
        return false;
      }
      var unit;
      ghost var k;
      unit, ok, k := Draft(species, spawns[i], reference);
      if ok {
        Commit(s0, views0, world0, species, reference, spawns, i, unit, k);
      } else {
        FillingStuck(Occupants(world0), spawns, i, Occupants(world));
      }
    }

    /** The unit of a pass of fill_unit, made at its first draw and rerolled. */
    method Draft(species: Species, spawn: Spawn, reference: Agent?) returns (unit: Agent, ok: bool, ghost k: int)
      requires cfg.Valid() && spawn.lifespans.Valid() && 0 < |spawn.draws|
      ensures fresh(unit) && unit.Valid() && unit.cfg == cfg && Made(unit, species, spawn, reference)
      ensures k == FirstOutside(Occupants(world), spawn.draws) && (ok <==> k >= 0)
      ensures ok ==> unit.View() == Newborn(spawn.draws[k])
    {
      unit := new Agent(cfg, species, spawn.draws[0], spawn.lifespans.For(species), reference);
      ok, k := Reroll(unit, spawn.draws);
    }

    /** The pass has found its unit a free cell k of its draws. */
    method Commit(ghost s0: seq<Agent>, ghost views0: seq<Vitals>, ghost world0: World, ghost species: Species,
                  ghost reference: Agent?, ghost spawns: seq<Spawn>, ghost i: nat, unit: Agent, ghost k: int)
      requires Valid() && Filling(s0, views0, world0, species, reference, spawns, i, agents, world, Views(agents))
      requires i < |spawns| && k == FirstOutside(Occupants(world), spawns[i].draws) && k >= 0
      requires unit.Valid() && unit.cfg == cfg && unit !in agents && Made(unit, species, spawns[i], reference)
      requires unit.View() == Newborn(spawns[i].draws[k])
      modifies this`agents, this`world
      ensures Valid()
      ensures Filling(s0, views0, world0, species, reference, spawns, i + 1, agents, world, Views(agents))
    {
      ghost var s, w, vs := agents, world, Views(agents);
      Enlist(unit);
      FillingStep(s0, views0, world0, species, reference, spawns, i, s, w, vs, unit, k);
    }

    /** The reroll loop of fill_unit: the unit takes the draws in turn while
        the map holds an agent at its position. k is the draw it settles on. */
    method Reroll(unit: Agent, draws: seq<Coord>) returns (ok: bool, ghost k: int)
      requires 0 < |draws| && unit.Position() == draws[0]
      modifies unit`x, unit`y
      ensures k == FirstOutside(Occupants(world), draws) && (ok <==> k >= 0)
      ensures ok ==> unit.View() == old(unit.View()).(x := draws[k].0, y := draws[k].1)
    {
      var j := 0;
      while Taken(world, unit.Position())
        invariant j < |draws| && unit.View() == old(unit.View()).(x := draws[j].0, y := draws[j].1)
        invariant forall e :: 0 <= e < j ==> draws[e] in Occupants(world)
        decreases |draws| - j
      {
        j := j + 1;
        if j == |draws| {
          return false, -1;
        }
        unit.SetPosition(draws[j]);
      }
      return true, j;
    }

    /** The second loop of move_agents: the map is made anew from the list,
        each agent overwriting whatever an earlier one left at its cell. */
    method Rebuild()
      modifies this`world
      ensures world == Overlay(map[], Placements(agents))
      ensures WorldSound()
      ensures forall a :: a in agents ==> a.Position() in world
    {
      world := Rebuilt(agents);
      RebuiltSound(agents);
    }

    /** The list and map hold exactly a complete refill from the draws, with
        the current unit targets. */
    ghost predicate Refilled(draws: Stock)
      reads this`agents, this`world, this`rabbitsNumber, this`foodNumber, this`foxesNumber, set a | a in agents
    {
      Stocked(draws, Range(rabbitsNumber), Range(foodNumber), Range(foxesNumber), agents, world, Views(agents))
    }

    /** The steering numbers of count_agents, as one value. */
    ghost function CurrentDials(): Dials
      reads this`foxesNumber, this`epoch, this`foxRefills, this`rabbitRefills, this`rabbitRefillThreshold,
            this`rabbitEpochsRefillThreshold, this`foxRefillThreshold, this`foxEpochsRefillThreshold
    {
      Dials(foxesNumber, epoch, foxRefills, rabbitRefills, rabbitRefillThreshold, rabbitEpochsRefillThreshold,
            foxRefillThreshold, foxEpochsRefillThreshold)
    }

    /** fill_world: the rabbits, each carrying the policy of the best rabbit
        kept, then the food, then the foxes, carrying the policy of the best
        fox kept; each pass starts from the list and map the previous one
        left. ok is false when a pass ran out of draws; the passes before it
        are then done and no later one starts. */
    method FillWorld(draws: Stock) returns (ok: bool, ghost s1: seq<Agent>, ghost w1: World, ghost vs1: seq<Vitals>,
                                            ghost s2: seq<Agent>, ghost w2: World, ghost vs2: seq<Vitals>)
      requires Valid() && draws.Valid()
      modifies this`agents, this`world
      ensures Valid()
      ensures ok ==> Filling(old(agents), old(Views(agents)), old(world), Rabbit, old(lastRabbit), draws.rabbits,
                             Range(old(rabbitsNumber)), s1, w1, vs1)
      ensures ok ==> Filling(s1, vs1, w1, Food, null, draws.food, Range(old(foodNumber)), s2, w2, vs2)
      ensures ok ==> Filling(s2, vs2, w2, Fox, old(lastFox), draws.foxes, Range(old(foxesNumber)),
                             agents, world, Views(agents))
    {
      ok, s1, w1, vs1, s2, w2, vs2 := FillAll(draws, rabbitsNumber, foodNumber, foxesNumber, lastRabbit, lastFox,
                                              agents, world, Views(agents));
    }

    /** The three passes of fill_world, with the unit counts and reference
        units given, from the list s0, map w0 and vitals vs0. */
    method FillAll(draws: Stock, rabbits: int, food: int, foxes: int, rabbitRef: Agent?, foxRef: Agent?,
                   ghost s0: seq<Agent>, ghost w0: World, ghost vs0: seq<Vitals>)
      returns (ok: bool, ghost s1: seq<Agent>, ghost w1: World, ghost vs1: seq<Vitals>,
               ghost s2: seq<Agent>, ghost w2: World, ghost vs2: seq<Vitals>)
      requires Valid() && draws.Valid() && s0 == agents && w0 == world && vs0 == Views(agents)
      modifies this`agents, this`world
      ensures Valid()
      ensures ok ==> Filling(s0, vs0, w0, Rabbit, rabbitRef, draws.rabbits, Range(rabbits), s1, w1, vs1)
      ensures ok ==> Filling(s1, vs1, w1, Food, null, draws.food, Range(food), s2, w2, vs2)
      ensures ok ==> Filling(s2, vs2, w2, Fox, foxRef, draws.foxes, Range(foxes), agents, world, Views(agents))
    {
      ok := FillPass(Rabbit, rabbits, rabbitRef, draws.rabbits, s0, w0, vs0);
      s1, w1, vs1 := agents, world, Views(agents);
      s2, w2, vs2 := s1, w1, vs1;
      if ok {
        ok, s2, w2, vs2 := FillRest(draws, food, foxes, foxRef, s1, w1, vs1);
      }
    }

    /** The food and fox passes of fill_world, with food and foxes units to
        place and the fox reference foxRef, after the rabbit pass left s1, w1 and vs1. */
    method FillRest(draws: Stock, food: int, foxes: int, foxRef: Agent?,
                    ghost s1: seq<Agent>, ghost w1: World, ghost vs1: seq<Vitals>)
      returns (ok: bool, ghost s2: seq<Agent>, ghost w2: World, ghost vs2: seq<Vitals>)
      requires Valid() && draws.Valid() && s1 == agents && w1 == world && vs1 == Views(agents)
      modifies this`agents, this`world
      ensures Valid()
      ensures ok ==> Filling(s1, vs1, w1, Food, null, draws.food, Range(food), s2, w2, vs2)
      ensures ok ==> Filling(s2, vs2, w2, Fox, foxRef, draws.foxes, Range(foxes), agents, world, Views(agents))
    {
      ok := FillPass(Food, food, null, draws.food, s1, w1, vs1);
      s2, w2, vs2 := agents, world, Views(agents);
      if ok {
        ok := FillPass(Fox, foxes, foxRef, draws.foxes, s2, w2, vs2);
      }
    }

    /** fill_unit from the list s0, map w0 and vitals vs0, when it places all its units. */
    method FillPass(species: Species, n: int, reference: Agent?, spawns: seq<Spawn>,
                    ghost s0: seq<Agent>, ghost w0: World, ghost vs0: seq<Vitals>) returns (ok: bool)
      requires Valid() && s0 == agents && w0 == world && vs0 == Views(agents)
      requires forall k :: 0 <= k < |spawns| ==> spawns[k].lifespans.Valid()
      modifies this`agents, this`world
      ensures Valid()
      ensures ok ==> Filling(s0, vs0, w0, species, reference, spawns, Range(n), agents, world, Views(agents))
    {
      ok := FillUnit(species, n, reference, spawns);
    }

    /** clear_world: an empty list and map, the epoch back at 0, and no best
        rabbit or fox kept. */
    method ClearWorld()
      requires Valid()
      modifies this`agents, this`world, this`epoch, this`lastFox, this`lastRabbit
      ensures Valid() && agents == [] && world == map[] && epoch == 0 && lastFox == null && lastRabbit == null
    {
      agents := [];
      world := map[];
      epoch := 0;
      lastFox := null;
      lastRabbit := null;
    }

    /** The reset count_agents makes, clear_world then fill_world, with the
        epoch left at restart (fill_world does not read it): since the kept
        rabbit and fox were just cleared, no unit copies a policy, and a
        complete refill is exactly a Stocked world from those draws. */
    method Refill(draws: Stock, restart: int) returns (ok: bool)
      requires Valid() && draws.Valid()
      modifies this`agents, this`world, this`epoch, this`lastFox, this`lastRabbit
      ensures Valid() && epoch == restart && lastFox == null && lastRabbit == null
      ensures ok ==> Refilled(draws)
    {
      ClearWorld();
      epoch := restart;
      ghost var s1, w1, vs1, s2, w2, vs2;
      ok, s1, w1, vs1, s2, w2, vs2 := FillWorld(draws);
      if ok {
        StockedFromFills(draws, Range(rabbitsNumber), Range(foodNumber), Range(foxesNumber),
                         s1, w1, vs1, s2, w2, vs2, agents, world, Views(agents));
      }
    }

    /** The census loop of count_agents: the agents of each class, and the
        best rabbit and fox, each kept from earlier ticks until a listed one
        of its class has eaten strictly more. */
    method Tally() returns (food: nat, fox: nat, rabbit: nat)
      requires Valid()
      modifies this`lastFox, this`lastRabbit
      ensures Valid()
      ensures food == Headcount(agents, Food) && fox == Headcount(agents, Fox) && rabbit == Headcount(agents, Rabbit)
      ensures lastFox == old(Champion(agents, Fox, lastFox)) && lastRabbit == old(Champion(agents, Rabbit, lastRabbit))
    {
      food, fox, rabbit := 0, 0, 0;
      var i := 0;
      while i < |agents|
        invariant i <= |agents|
        invariant food == Headcount(agents[..i], Food) && fox == Headcount(agents[..i], Fox)
        invariant rabbit == Headcount(agents[..i], Rabbit)
        invariant lastFox == Champion(agents[..i], Fox, old(lastFox))
        invariant lastRabbit == Champion(agents[..i], Rabbit, old(lastRabbit))
      {
        food, fox, rabbit := TallyOne(i, old(lastFox), old(lastRabbit), food, fox, rabbit);
        i := i + 1;
      }
      EndSlices(agents);
    }

    /** One agent of the census loop. */
    method TallyOne(i: nat, ghost foxes0: Agent?, ghost rabbits0: Agent?, food: nat, fox: nat, rabbit: nat)
      returns (food': nat, fox': nat, rabbit': nat)
      requires i < |agents|
      requires food == Headcount(agents[..i], Food) && fox == Headcount(agents[..i], Fox)
      requires rabbit == Headcount(agents[..i], Rabbit)
      requires lastFox == Champion(agents[..i], Fox, foxes0) && lastRabbit == Champion(agents[..i], Rabbit, rabbits0)
      modifies this`lastFox, this`lastRabbit
      ensures food' == Headcount(agents[..i + 1], Food) && fox' == Headcount(agents[..i + 1], Fox)
      ensures rabbit' == Headcount(agents[..i + 1], Rabbit)
      ensures lastFox == Champion(agents[..i + 1], Fox, foxes0) && lastRabbit == Champion(agents[..i + 1], Rabbit, rabbits0)
    {
      CensusStep(agents, i, Food, null);
      CensusStep(agents, i, Fox, foxes0);
      CensusStep(agents, i, Rabbit, rabbits0);
      var agent := agents[i];
      food', fox', rabbit' := food, fox, rabbit;
      if agent.species == Food {
        food' := food + 1;
      } else if agent.species == Fox {
        fox' := fox + 1;
        if lastFox == null || lastFox.eaten < agent.eaten {
          lastFox := agent;
        }
      } else {
        rabbit' := rabbit + 1;
        if lastRabbit == null || lastRabbit.eaten < agent.eaten {
          lastRabbit := agent;
        }
      }
    }

    /** The low-water half of count_agents, given the census. */
    method Ebb(rabbit: nat, fox: nat, draws: Stock) returns (ok: bool, fired: bool)
      requires Valid() && draws.Valid()
      modifies this`agents, this`world, this`epoch, this`lastFox, this`lastRabbit, this`foxesNumber
      ensures Valid()
      ensures (CurrentDials(), fired) == LowWater(old(CurrentDials()), rabbitsNumber, rabbit, fox)
      ensures !fired ==> ok && agents == old(agents) && world == old(world)
                         && lastFox == old(lastFox) && lastRabbit == old(lastRabbit)
      ensures fired ==> lastFox == null && lastRabbit == null
      ensures fired && ok ==>
                Refilled(draws)
    {
      ok, fired := true, false;
      if rabbit < rabbitsNumber / 10 {
        foxesNumber := foxesNumber - 25;
        ok := Refill(draws, 0);
        fired := true;
      } else if fox < foxesNumber / 10 {
        foxesNumber := foxesNumber + 25;
        ok := Refill(draws, 0);
        fired := true;
      }
    }

    /** Too many rabbits: a refill charged to the rabbits. */
    method RabbitFlood(rabbit: nat, fox: nat, draws: Stock) returns (ok: bool)
      requires Valid() && draws.Valid()
      requires (rabbit as real) > (rabbitsNumber as real) * rabbitRefillThreshold
               && (epoch as real) > rabbitEpochsRefillThreshold
      modifies this`agents, this`world, this`epoch, this`lastFox, this`lastRabbit, this`rabbitRefills,
               this`rabbitRefillThreshold, this`rabbitEpochsRefillThreshold
      ensures Valid()
      ensures (CurrentDials(), true) == HighWater(old(CurrentDials()), rabbitsNumber, rabbit, fox, cfg.decay)
      ensures lastFox == null && lastRabbit == null
      ensures ok ==> Refilled(draws)
    {
      rabbitRefills := rabbitRefills + 1;
      rabbitRefillThreshold := rabbitRefillThreshold * 1.1;
      rabbitEpochsRefillThreshold := rabbitEpochsRefillThreshold * 1.5;
      ok := Refill(draws, ((foxRefills + rabbitRefills) * cfg.decay) / 2);
    }

    /** Too many foxes: a refill charged to the foxes. */
    method FoxFlood(rabbit: nat, fox: nat, draws: Stock) returns (ok: bool)
      requires Valid() && draws.Valid()
      requires !((rabbit as real) > (rabbitsNumber as real) * rabbitRefillThreshold
                 && (epoch as real) > rabbitEpochsRefillThreshold)
      requires (fox as real) > (foxesNumber as real) * foxRefillThreshold && (epoch as real) > foxEpochsRefillThreshold
      modifies this`agents, this`world, this`epoch, this`lastFox, this`lastRabbit, this`foxRefills,
               this`foxRefillThreshold, this`foxEpochsRefillThreshold
      ensures Valid()
      ensures (CurrentDials(), true) == HighWater(old(CurrentDials()), rabbitsNumber, rabbit, fox, cfg.decay)
      ensures lastFox == null && lastRabbit == null
      ensures ok ==> Refilled(draws)
    {
      foxRefills := foxRefills + 1;
      foxRefillThreshold := foxRefillThreshold * 1.1;
      foxEpochsRefillThreshold := foxEpochsRefillThreshold * 1.5;
      ok := Refill(draws, (Min(foxEpochsRefillThreshold, rabbitEpochsRefillThreshold) / 2.0).Floor);
    }

    /** count_agents: the census, the low-water rule, the high-water rule on
        the same census, and one entry per class appended to the counters.
        The dials move as Recount says; a world that no rule refilled keeps
        its list and map, and one that was refilled holds exactly the units of
        the last refill's draws. ok is false when a refill ran out of draws. */
    method CountAgents(low: Stock, high: Stock) returns (ok: bool)
      requires Valid() && low.Valid() && high.Valid()
      modifies this`agents, this`world, this`epoch, this`lastFox, this`lastRabbit, this`foxesNumber,
               this`rabbitRefills, this`foxRefills, this`rabbitRefillThreshold, this`rabbitEpochsRefillThreshold,
               this`foxRefillThreshold, this`foxEpochsRefillThreshold, this`foodCounts, this`foxCounts,
               this`rabbitCounts
      ensures Valid()
      ensures foodCounts == old(foodCounts) + [Headcount(old(agents), Food)]
      ensures foxCounts == old(foxCounts) + [Headcount(old(agents), Fox)]
      ensures rabbitCounts == old(rabbitCounts) + [Headcount(old(agents), Rabbit)]
      ensures CurrentDials() == Recount(old(CurrentDials()), rabbitsNumber, Headcount(old(agents), Rabbit),
                                        Headcount(old(agents), Fox), cfg.decay)
      ensures old(CurrentDials()).Sound() ==> CurrentDials().Sound()
      ensures var ebb := LowWater(old(CurrentDials()), rabbitsNumber, Headcount(old(agents), Rabbit),
                                  Headcount(old(agents), Fox));
              var flood := HighWater(ebb.0, rabbitsNumber, Headcount(old(agents), Rabbit),
                                     Headcount(old(agents), Fox), cfg.decay);
              && (!ebb.1 && !flood.1 ==>
                    && agents == old(agents) && world == old(world)
                    && lastFox == old(Champion(agents, Fox, lastFox))
                    && lastRabbit == old(Champion(agents, Rabbit, lastRabbit)))
              && (ebb.1 || flood.1 ==> lastFox == null && lastRabbit == null)
              && (ok && (ebb.1 || flood.1) ==> Refilled(if flood.1 then high else low))
    {
      var food, fox, rabbit := Tally();
      // The counters take the census before the rules run; nothing the rules
      // do reads or writes them, so this is the order of the source's effects.
      foodCounts := foodCounts + [food];
      foxCounts := foxCounts + [fox];
      rabbitCounts := rabbitCounts + [rabbit];
      ok := Steer(rabbit, fox, low, high);
      if old(CurrentDials()).Sound() {
        RecountSound(old(CurrentDials()), rabbitsNumber, rabbit, fox, cfg.decay);
      }
    }

    /** Both refill rules of count_agents on the census rabbit and fox. */
    method Steer(rabbit: nat, fox: nat, low: Stock, high: Stock) returns (ok: bool)
      requires Valid() && low.Valid() && high.Valid()
      modifies this`agents, this`world, this`epoch, this`lastFox, this`lastRabbit, this`foxesNumber,
               this`rabbitRefills, this`foxRefills, this`rabbitRefillThreshold, this`rabbitEpochsRefillThreshold,
               this`foxRefillThreshold, this`foxEpochsRefillThreshold
      ensures Valid()
      ensures CurrentDials() == Recount(old(CurrentDials()), rabbitsNumber, rabbit, fox, cfg.decay)
      ensures var ebb := LowWater(old(CurrentDials()), rabbitsNumber, rabbit, fox);
              var flood := HighWater(ebb.0, rabbitsNumber, rabbit, fox, cfg.decay);
              && (!ebb.1 && !flood.1 ==> agents == old(agents) && world == old(world)
                                         && lastFox == old(lastFox) && lastRabbit == old(lastRabbit))
              && (ebb.1 || flood.1 ==> lastFox == null && lastRabbit == null)
              && (ok && (ebb.1 || flood.1) ==> Refilled(if flood.1 then high else low))
    {
      var ebbed, ebb := Ebb(rabbit, fox, low);
      var flooded, flood := true, false;
      if (rabbit as real) > (rabbitsNumber as real) * rabbitRefillThreshold
         && (epoch as real) > rabbitEpochsRefillThreshold {
        flooded := RabbitFlood(rabbit, fox, high);
        flood := true;
      } else if (fox as real) > (foxesNumber as real) * foxRefillThreshold
                && (epoch as real) > foxEpochsRefillThreshold {
        flooded := FoxFlood(rabbit, fox, high);
        flood := true;
      }
      ok := (!ebb || ebbed) && (!flood || flooded);
    }


    /** One pass of run's loop, without the key events, the policy updates and
        the drawing: the agents' part of the tick, count_agents, and the epoch
        advancing by one. actions holds one policy output per listed agent,
        births one draw per agent left after check_dead, low and high the
        draws of the two refills. ok is false when these run short; a tick cut
        short by actions or births stops right there. */
    method Tick(actions: seq<int>, births: seq<Birth>, low: Stock, high: Stock) returns (ok: bool)
      requires Valid() && low.Valid() && high.Valid()
      requires forall k :: 0 <= k < |births| ==> births[k].Valid()
      modifies this`agents, this`world, this`epoch, this`lastFox, this`lastRabbit, this`foxesNumber,
               this`rabbitRefills, this`foxRefills, this`rabbitRefillThreshold, this`rabbitEpochsRefillThreshold,
               this`foxRefillThreshold, this`foxEpochsRefillThreshold, this`foodCounts, this`foxCounts,
               this`rabbitCounts, Footprint(agents)
      ensures Valid()
      ensures old(CurrentDials()).Sound() ==> CurrentDials().Sound()
      ensures ok ==> |foodCounts| == |old(foodCounts)| + 1 && |foxCounts| == |old(foxCounts)| + 1
                     && |rabbitCounts| == |old(rabbitCounts)| + 1
      ensures ok && old(CurrentDials()).Sound() ==> epoch >= 1
    {
      FootprintIsAgents(agents, this);
      ok := Live(actions, births);
      if !ok {
        return;
      }
      ok := Close(low, high);
    }

    /** The end of a tick: count_agents, then the epoch advances by one. */
    method Close(low: Stock, high: Stock) returns (ok: bool)
      requires Valid() && low.Valid() && high.Valid()
      modifies this`agents, this`world, this`epoch, this`lastFox, this`lastRabbit, this`foxesNumber,
               this`rabbitRefills, this`foxRefills, this`rabbitRefillThreshold, this`rabbitEpochsRefillThreshold,
               this`foxRefillThreshold, this`foxEpochsRefillThreshold, this`foodCounts, this`foxCounts,
               this`rabbitCounts
      ensures Valid()
      ensures old(CurrentDials()).Sound() ==> CurrentDials().Sound() && epoch >= 1
      ensures |foodCounts| == |old(foodCounts)| + 1 && |foxCounts| == |old(foxCounts)| + 1
              && |rabbitCounts| == |old(rabbitCounts)| + 1
    {
      ok := CountAgents(low, high);
      NextEpoch();
    }

    /** The epoch advances by one tick. */
    method NextEpoch()
      requires Valid()
      modifies this`epoch
      ensures Valid() && CurrentDials() == old(CurrentDials()).(epoch := old(epoch) + 1)
      ensures old(CurrentDials()).Sound() ==> CurrentDials().Sound() && epoch >= 1
    {
      epoch := epoch + 1;
    }

    /** The agents' part of a tick: move_agents, check_dead, check_reproduce. */
    method Live(actions: seq<int>, births: seq<Birth>) returns (ok: bool)
      requires Valid() && forall k :: 0 <= k < |births| ==> births[k].Valid()
      modifies this`agents, this`world, Footprint(agents)
      ensures Valid()
    {
      if |actions| < |agents| {
        return false;
      }
      MoveAgents(actions[..|agents|]);
      ghost var s, w := agents, world;
      CheckDead();
      if |births| < |agents| {
        return false;
      }
      SurvivorsWithin(s, Doomed(s, w));
      CheckReproduce(births[..|agents|]);
      ok := true;
    }

  }
}
