# rabbits: a verified model of the ecosystem engine

The model covers the engine of a predator–prey simulator. Rabbits and food
lie on an integer lattice. Rabbits forage for food, foxes hunt rabbits, and
food ages, ripens and seeds new food.

The simulation keeps two things: a list of agents, and a map from lattice
cells to what stands there. A map value is either an agent or the integer 0
that the death sweep leaves behind. A missing key is grass.

Each tick runs these steps in order:

1. `move_agents`: every agent moves against the previous tick's map, and the map is then rebuilt.
2. `check_dead`: the dead and the stranded are swept from the list.
3. `check_reproduce`: the ready agents breed.
4. `count_agents`: takes a census. It also resets and refills the world, either when a population collapses or when it floods.

## How the model is organised

- `constants.dfy` (`Constants`) holds the tunable constants as a single `Config` value. These are the scan radius, the lattice size, the class codes, the grass code, the speeds, the decay constant and the initial refill thresholds.
- `masks.dfy` (`Masks`) builds the ring masks over the flattened observation window. It builds them with the same slice assignments and flattening as the source, on a 3-D array and a 2-D array. It then proves what the masks select.
- `bookkeeping.dfy` (`Bookkeeping`) holds generic pure definitions:
  - the last-writer-wins map fold `Overlay`;
  - the Python sweep `for x in s: if ...: s.remove(x)`, which skips the element after each one it removes. The loop as written (`SweepFrom`) is shown equal to a structural reference (`Survivors`/`Casualties`).
- `agents.dfy` (`Agents`) models `agent.py`.
  - Each agent is a `class Agent`. Its counters, flags and position are mutable fields, and its two scan buffers are arrays.
  - Every method is proved against a pure function on the `Vitals` value of the agent: `Stepped`, `Ripened`, `Collision`, `Shifted`, `Moved` and `Sensed`.
  - The properties of those functions are lemmas.
- `ecosystem.dfy` (`Ecosystem`) models `simulation.py` as `class Simulation`. It has the agent list as a `seq<Agent>`, the map as a `map<Coord, Cell>`, and the counters, thresholds and count series as fields.
  - Each sweep is an index loop like the source's. The removal sweep advances its index after a removal. The breeding sweep also visits the offspring it appends.
  - Each sweep is proved against a value-level definition:
    - `MoveUpTo` and `Overlay` for `move_agents`;
    - `Survivors`, `Casualties`, `Doomed` and `Vacate` for `check_dead`;
    - `Breeders`, `KeysAfter` and `Litter` for `check_reproduce`;
    - `Spots` for `fill_unit`;
    - `Headcount`, `Champion`, `LowWater` and `HighWater` for `count_agents`.

## Inputs in place of randomness and the policy

- **The policy network.** `Move` takes the action code as a parameter (one per agent in `MoveAgents`). `ScanArea` returns the reward signal it would hand to the policy.
- **`numpy.random.randint` death thresholds.** These are `Lifespans` values, one draw per class, each in its class's half-open range.
- **`get_random_coordinate`.**
  - A `Spawn` holds the unit's first coordinate and one coordinate per reroll.
  - A `Birth` holds an offspring's own start coordinate, its thresholds and the two `random.randint(-7, 7)` offsets.
  - A `Stock` holds the spawns of one `fill_world`.
- **Running out of draws.** When the coordinate draws of `fill_unit` run out, the method returns `ok == false`. At that point the source would keep rerolling.
- **Too few actions or births.** `Tick` also returns `ok == false` when it receives fewer actions or births than it needs. This has no counterpart in the source, where the policy always answers and every birth draws its own coordinates. It comes only from taking those as inputs.

## Behaviour as written

- **Value 0 in a scan.** A map value 0 matches no class code. When the grass code is not 0 either, `Rabbit.scan_area` and `Fox.scan_area` leave that buffer entry at its previous value. So "every entry is rewritten" holds only when no cell holds 0 or the grass code is 0. `Agents.Sensed` models the code, and passes the previous entry in as `prev`.
- **The reproduction occupancy check.** `check_reproduce` tests the offspring's own random start coordinate against the map, not the cell the offspring is then placed on. The offspring is placed at the parent's cell plus two offsets in [-7, 7], and overwrites what is there. `Ecosystem.Breeds` and `Ecosystem.Landing` keep these two cells apart.
- **Boundary death.** The boundary test reads the coordinate before the shift. An agent that steps off the lattice survives that step.
- **A reset copies no policy.** `clear_world` forgets the best rabbit and fox just before `fill_world` runs. So a refill made by `count_agents` never copies a policy.
- **The high-water rules read state from after the low-water rule.** They use the census taken before any refill. They read the epoch and the fox target as the low-water rule left them.

## Model

| member | source | states |
|---|---|---|
| Agents.LifespanRange | source/agent.py:199-202 | the death-threshold range of each class is a non-empty range of positive numbers: (250, 300) rabbits, (400, 600) foxes, (45, 155) food |
| Agents.FoodThreshold | source/agent.py:199-202 | the food an agent must gather before it reproduces is at least 1 (3 for rabbits, 1 for foxes and food) |
| Agents.Lifespans.For | source/agent.py:22 | the threshold drawn for a class lies in that class's half-open range |
| Agents.Cadence | source/agent.py:56 | `10 // speed` is the largest c with c * speed <= 10, and is at least 1 for speeds 1..10 |
| Agents.Offset | source/agent.py:62-141 | actions 1..8 move exactly one unit on each axis that changes, and never stay put; every other action stays put |
| Agents.OffsetsAreTheNeighbours | source/agent.py:62-141 | each of the eight neighbouring cells is reached by exactly one action in 1..8 |
| Agents.CrossesBoundaryMeaning | source/agent.py:67-70 | an action kills the agent iff the pre-move coordinate is already off the lattice on the side it moves towards; an agent on the lattice survives every move |
| Agents.Stepped | source/agent.py:148-154 | a step adds exactly one tick; the agent is dead afterwards iff it was dead or starvation had reached the threshold; it is ready afterwards iff it was ready, or was not starving and had gathered enough food; nothing else changes |
| Agents.Ripened | source/agent.py:250-260 | a food step adds one tick and one unit of age; it ripens by one exactly when the new tick count is a multiple of 50; it then decides death and readiness on the new values; it never moves |
| Agents.MovedMeaning | source/agent.py:53-141 | a move always ticks once and never clears a flag; an idle tick, or a non-move action, is just the step; otherwise the agent shifts by the action's unit, and the class in the target cell decides the outcome: rabbit onto food or fox onto rabbit is a meal that kills the target and leaves starvation at 1; rabbit onto fox kills the rabbit and feeds the fox; anything else adds one unit of starvation |
| Agents.MovedBounds | source/agent.py:53-141 | one move is one tick and at most one unit of travel on each axis, and it undoes no death and no food eaten |
| Agents.CollisionTargetsAnother | source/agent.py:231-242 | a collision with an effect always hits an agent of another class |
| Agents.MovedTargetsAnother | source/agent.py:62-141 | whatever a move affects is an agent of another class standing in the target cell, read from the map before the shift |
| Agents.Sensed | source/agent.py:207-222 | a scanned cell off the lattice reads -1; grass reads 0; for a rabbit fox/food/rabbit read -1/1/0; for a fox rabbit reads 1 and every other class 0; a 0 map value reads 0 when grass is coded 0 and keeps the previous entry otherwise; entries stay in {-1, 0, 1} |
| Agents.WindowCellAt | source/agent.py:207-208 | buffer entry i * D + j lies in the buffer and encodes world cell (x - R + i, y - R + j) |
| Agents.Agent.constructor | source/agent.py:12-38 | the new agent has its class, configuration, drawn threshold and policy source; it is a newborn at its start cell with fresh zeroed buffers of length D * D |
| Agents.Agent.Die | source/agent.py:156-157 | the dead flag is set and every other part of the agent's vitals is unchanged |
| Agents.Agent.Eat | source/agent.py:159-161 | the food counter and the lifetime food count each gain one, and every other part of the agent's vitals is unchanged |
| Agents.Agent.ReproduceDone | source/agent.py:163-165 | the reproduce flag is cleared and the food counter restarts at 0; nothing else changes |
| Agents.Agent.SetPosition | source/agent.py:171-173 | only the position changes, and it becomes the given cell |
| Agents.Agent.Step | source/agent.py:148-154 | the new vitals are Stepped of the old (Ripened for food) |
| Agents.Agent.PerceiveRow | source/agent.py:207-222 | one row of the nested scan loop writes entries base .. base + D - 1 as Sensed says and no others |
| Agents.Agent.Perceive | source/agent.py:204-222 | after the nested loop, every buffer entry k holds Sensed of its window cell |
| Agents.Agent.KeepScan | source/agent.py:227-229 | the previous buffer equals the current one element-wise |
| Agents.Agent.ScanArea | source/agent.py:204-229 | for a rabbit or fox, every entry is Sensed of its cell, the previous buffer equals the current one afterwards, and the reward signal is the ring deltas against the old previous buffer (none when the tick counter is 0, which `move` never reaches, since it steps before it scans); food changes nothing; buffers in {-1, 0, 1} stay so |
| Agents.Agent.HandleCollision | source/agent.py:231-242 | the mover's new vitals and the target agent's are as the Collision table says for the target's class code |
| Agents.Agent.Advance | source/agent.py:60-141 | an action in 1..8 leaves the mover's vitals as Shifted says, and affects the agent in the target cell as the collision says |
| Agents.Agent.Move | source/agent.py:53-141 | the agent's new vitals, and the effect on the agent in the target cell, are exactly Moved of the old vitals and the map; on an idle tick the buffers are untouched; after an active tick the previous buffer equals the current one, and for a rabbit or fox every buffer entry is Sensed of its window cell around the pre-move position and the returned reward signal is the ring deltas against the old previous buffer |
| Agents.StayingPutNeverStarves | source/agent.py:53-154 | an agent whose actions are never moves keeps its cell and starvation counter over any number of ticks, and so never starves |
| Agents.FoodLifecycle | source/agent.py:250-263 | over n ticks food never moves, ages by exactly n, ripens once per multiple of 50 it passes, and is dead once its age reaches the threshold |
| Masks.MarkRow | source/utils.py:8 | the slice assignment sets exactly cells lo..hi-1 of one row of one mask and keeps every other cell |
| Masks.MarkColumn | source/utils.py:9-10 | the slice assignment sets exactly rows lo..hi-1 of one column of one mask and keeps every other cell |
| Masks.BuildScanMasks | source/utils.py:5-16 | there are D // 2 masks of D * D flags each, and mask m holds exactly the flat indices of the square frame m cells in from the edge |
| Masks.MaskSelectsRing | source/utils.py:7-16 | flat index i * D + j lies on mask m iff its cell is at Chebyshev distance R - m from the window's centre |
| Masks.MasksPartitionWindow | source/utils.py:7-11 | the centre lies on no mask, every other index lies on its own ring's mask, and no index lies on two masks |
| Masks.MaskSize | source/utils.py:8-11 | mask m of an odd window marks exactly 8 * (R - m) indices |
| Masks.RingDeltas | source/agent.py:225 | the reward signal has one entry per mask |
| Masks.RingSumIsDistanceSum | source/agent.py:225 | the masked sum of cur - prev over mask m equals the sum of cur - prev over the window cells at Chebyshev distance R - m from the centre |
| Masks.RingDeltasMeaning | source/agent.py:225 | entry m of the reward signal is the total change over the window cells at Chebyshev distance R - m from the agent, outermost ring first |
| Masks.RingDeltasUnchanged | source/agent.py:225 | an unchanged observation gives a zero signal on every ring |
| Bookkeeping.OverlayAt | source/simulation.py:109-112 | after entries are written one by one, a key is present iff it was in the base or was written, and it holds the last value written there |
| Bookkeeping.SweepIsSurvivors | source/simulation.py:115-122 | the remove-while-iterating loop keeps exactly Survivors and removes exactly Casualties |
| Bookkeeping.SurvivorsKeepOrder | source/simulation.py:115-122 | the kept agents keep their relative order |
| Bookkeeping.SurvivorsSplitList | source/simulation.py:115-122 | the kept and the removed agents together are the list, as a multiset |
| Bookkeeping.CasualtiesAreDoomed | source/simulation.py:115-122 | only doomed agents are removed |
| Bookkeeping.SparedSurvive | source/simulation.py:115-122 | an agent that is not doomed is kept |
| Bookkeeping.SuccessorOfCasualtySurvives | source/simulation.py:115-117 | the element right after a removed one is skipped, so it stays even when doomed |
| Bookkeeping.SurvivorsWithin | source/simulation.py:115-122 | the sweep keeps only elements of the list |
| Bookkeeping.SurvivorsDistinct | source/simulation.py:115-122 | a list without duplicates stays without duplicates |
| Ecosystem.SweepTicksEveryone | source/simulation.py:105-107 | over the sweep every listed agent ticks exactly once, each travels at most one unit on each axis, agents not yet reached have not moved, and no death or food eaten is undone |
| Ecosystem.SweepMovesLoneAgent | source/simulation.py:105-107 | an agent no map cell points to is changed by the sweep exactly as its own Moved says |
| Ecosystem.SweepUntouched | source/simulation.py:105-107 | an agent no map cell points to keeps its vitals until its own turn |
| Ecosystem.MoveAll | source/simulation.py:106-107 | after the first loop of move_agents the agents' vitals are MoveUpTo of the old ones for the given actions |
| Ecosystem.MoveNext | source/simulation.py:106-107 | one iteration advances the vitals by exactly one step of MoveUpTo |
| Ecosystem.MoveStep | source/simulation.py:106-107 | agent i takes its Moved vitals; the listed agent in its target cell takes the collision's effect; no other agent changes |
| Ecosystem.Rebuilt | source/simulation.py:109-112 | the rebuilt map is the last-writer-wins fold of each listed agent's (cell, agent) entry |
| Ecosystem.RebuiltMap | source/simulation.py:109-112 | the rebuilt map's keys are exactly the listed agents' cells, dead agents included, and each holds the last agent in list order there |
| Ecosystem.RebuiltSound | source/simulation.py:109-112 | the rebuilt map holds only listed agents, each at its own cell, and every listed agent's cell is a key |
| Ecosystem.FirstOutside | source/simulation.py:72-73 | the reroll settles on the first draw that is not taken, and every earlier draw was taken; -1 means all were taken |
| Ecosystem.SpotsFresh | source/simulation.py:60-76 | no unit of fill_unit lands on a taken cell or on the cell of another new unit |
| Ecosystem.SpotsDrawn | source/simulation.py:72-73 | each unit lands on one of its own draws, and never past the first free one |
| Ecosystem.SpotsShort | source/simulation.py:60-76 | a unit goes unplaced only when it has no draws left or all of its draws are taken |
| Ecosystem.StockedFromFills | source/simulation.py:87-90 | three fill passes from an empty world, with no reference units, make exactly the rabbits, then the food, then the foxes of the draws |
| Ecosystem.VacateAt | source/simulation.py:119-120 | check_dead keeps the map's keys; a key holds 0 afterwards iff a removed dead agent stood there, and is unchanged otherwise |
| Ecosystem.CullSound | source/simulation.py:114-122 | after the sweep, every agent entry left in the map belongs to a kept agent at its own cell |
| Ecosystem.Landing | source/simulation.py:82 | an offspring lands within 7 cells of its parent on each axis |
| Ecosystem.BreedersExactly | source/simulation.py:125-130 | a visited parent gets an offspring iff it is ready and its offspring's start coordinate is not a key of the map as the visit finds it |
| Ecosystem.KeysAfterLandings | source/simulation.py:125-141 | the map gains exactly the cells the offspring land on |
| Ecosystem.NewbornIdle | source/simulation.py:125-126 | an offspring visited by the same sweep is never ready, so it never breeds |
| Ecosystem.Champion | source/simulation.py:148-160 | the kept best agent is the one kept before, or a listed agent of the class |
| Ecosystem.HeadcountsAddUp | source/simulation.py:148-157 | the food, fox and rabbit counts add up to the length of the list |
| Ecosystem.HeadcountZero | source/simulation.py:148-157 | a class counts zero iff no listed agent belongs to it |
| Ecosystem.ChampionBest | source/simulation.py:148-160 | the kept agent has eaten at least as much as every listed agent of its class and as the one kept before; there is none only when none was kept and the class is absent; a replacement has eaten strictly more |
| Ecosystem.LowWaterMeaning | source/simulation.py:162-175 | the low-water rule fires iff rabbits are below a tenth of the rabbit target, or foxes below a tenth of the fox target (floor division); when rabbits are short the fox target drops by 25, otherwise it rises by 25; either way the epoch restarts at 0; no other dial changes |
| Ecosystem.HighWaterRaisesTheBar | source/simulation.py:177-198 | a high-water refill is charged to exactly one class, strictly raises that class's share and does not lower its epoch threshold, and leaves the other class's alone; it fires only on a population above its share; without it nothing changes |
| Ecosystem.OneRefillPerTick | source/simulation.py:162-198 | with sound dials, a low-water refill rules out a high-water refill in the same tick |
| Ecosystem.RecountSound | source/simulation.py:162-198 | positive shares, non-negative epoch thresholds and a non-negative epoch survive both rules |
| Ecosystem.Simulation.constructor | source/simulation.py:18-46 | the simulation starts empty, with the given targets, epoch 0, no refills, both classes' thresholds at their initial values, nothing remembered and empty count series; its dials are sound |
| Ecosystem.Simulation.MoveAgents | source/simulation.py:105-112 | the list is unchanged; the vitals are MoveUpTo of the old ones against the old map; the map is rebuilt last-writer-wins from the list, and every listed agent's cell is a key |
| Ecosystem.Simulation.CheckDead | source/simulation.py:114-122 | the list becomes the survivors of removing the dead and those whose cell is not a key, skipping after each removal; the map is Vacate of the casualties; the map stays sound |
| Ecosystem.Simulation.Cull | source/simulation.py:115-122 | the index loop that advances after each removal leaves exactly Survivors, and vacates exactly the cells of dead casualties |
| Ecosystem.Simulation.CheckReproduce | source/simulation.py:124-141 | for each original agent in order, a parent breeds iff BreedersExactly holds. Offspring follow the list in parent order, each of its parent's class; each is written at its landing cell. A parent that bred is reset; one that did not keeps its vitals, reproduce flag included |
| Ecosystem.Simulation.Offspring | source/simulation.py:127-134 | the offspring has its parent's class, its own threshold draw, and its parent as policy source unless it is food; it is a newborn at its own start coordinate |
| Ecosystem.Simulation.Settle | source/simulation.py:136-141 | the offspring is appended and written at its landing cell; the parent's reproduce flag clears and its food counter restarts at 0 |
| Ecosystem.Simulation.FillParticularUnit | source/simulation.py:78-85 | the unit is moved to the centre plus the offsets, appended to the list, and written into the map at that cell |
| Ecosystem.Simulation.FillUnit | source/simulation.py:60-76 | the list and map gain exactly the units Spots places, each of the requested class with its own draws and reference, a newborn at its spot; ok iff all n were placed |
| Ecosystem.Simulation.Reroll | source/simulation.py:72-73 | the unit ends on the first draw whose cell holds no agent, iff there is one |
| Ecosystem.Simulation.Rebuild | source/simulation.py:109-112 | the map becomes the last-writer-wins fold of the list's entries, holds only listed agents at their own cells, and has every listed cell as a key |
| Ecosystem.Simulation.FillWorld | source/simulation.py:87-90 | when every pass completes: the rabbits (with the kept rabbit as reference), then the food, then the foxes (with the kept fox as reference), each pass starting from what the previous one left |
| Ecosystem.Simulation.ClearWorld | source/simulation.py:92-97 | the list and map are empty, the epoch is 0, and no best rabbit or fox is kept |
| Ecosystem.Simulation.Refill | source/simulation.py:165-166 | after clear_world then fill_world, nothing is remembered and a complete refill is exactly the Stocked world of the draws, with no policy copied |
| Ecosystem.Simulation.Tally | source/simulation.py:148-160 | the census loop counts each class exactly, and keeps as best rabbit and fox the Champion of the list |
| Ecosystem.Simulation.Ebb | source/simulation.py:162-175 | the dials move as LowWater says; without a refill the world is untouched; with one, the world is a complete refill from the draws |
| Ecosystem.Simulation.RabbitFlood | source/simulation.py:177-187 | a rabbit high-water refill: one more rabbit refill, the rabbit share x 1.1, the rabbit epoch threshold x 1.5, and the epoch restarts at ((fox refills + rabbit refills) * DECAY) // 2, as HighWater says |
| Ecosystem.Simulation.FoxFlood | source/simulation.py:188-198 | a fox high-water refill: one more fox refill, the fox share x 1.1, the fox epoch threshold x 1.5, and the epoch restarts at the floor of half the smaller epoch threshold, as HighWater says |
| Ecosystem.Simulation.CountAgents | source/simulation.py:143-202 | each count series gains exactly one entry, the census of the list at entry, refill or not; the dials move as Recount says and stay sound when they were sound; without a refill the world is untouched; after a refill nothing is remembered and the world is the last refill's draws |
| Ecosystem.Simulation.NextEpoch | source/simulation.py:235 | the epoch advances by one and no other dial changes |
| Ecosystem.Simulation.Tick | source/simulation.py:225-235 | a tick keeps the simulation's invariant and keeps sound dials sound; a completed tick grows each count series by one and ends with a positive epoch |

## Left out

- `source/brain.py` and everything it does are not part of this model: the policy's forward pass, `reward_once`, `backward`, `update_brains`, `mutate`, and what `calculate_reward` does with its argument. The action is a parameter. The reward argument is returned by `ScanArea` as `RingDeltas`. `load_state_dict` is recorded only as the agent's `brainSource`.
- Rendering and I/O are out: `draw`, `draw_world`, `draw_end`, the plots, the pygame event queue, the clock and the display. The SPACE and C keys call `fill_world` and `clear_world`, which are modelled as `FillWorld` and `ClearWorld`.
- `get_random_coordinate`, `numpy.random.randint` and `random.randint` are replaced by the `Spawn`, `Birth` and `Stock` inputs.
- `Ecosystem.Simulation.FillUnit`: does not model running forever. When a unit's draws are used up, it stops with `ok == false`, where the source would keep rerolling.
- `Ecosystem.Simulation.FillWorld`: states nothing about the lists when a pass runs out of draws (`ok == false`), beyond the invariant.
- `Ecosystem.Simulation.CountAgents`: when a refill runs out of draws, it states only the dials, the count series and the invariant, not the partial refill.
- `Ecosystem.Simulation.Tick`: states only the invariant, sound dials and the growth of the count series. It does not restate the contracts of its four steps, which `Live` and `Close` chain together. A tick cut short by too few actions or births stops where the shortfall is met.
- `run` is modelled one pass at a time (`Tick`), not as its endless loop. Its first `fill_world` is `FillWorld`.
- Positions are integers. The float coordinates of `get_random_coordinate`, the float speeds, and `pygame.Rect`'s truncation are not modelled.
- Thresholds are exact reals multiplied by 11/10 and 3/2, not binary floats. The fox-branch epoch is the floor of a real, kept as an integer where Python keeps a float. `DECAY` is a natural number.
- The scan buffers are integer arrays, not `numpy.float32` arrays. Every value written is -1, 0 or 1, so nothing is lost.
- These fields are never read by the modelled operations and are left out: `_name_`, `_color_`, `_number_` (the class code stands in for it), `_previous_move_`, `_same_moves_counter_`, `_old_position_`, and the agent's `_world_` reference (the map is passed in).
- `source/constants.py` is not part of this model. Its constants are fields of `Config`, with the requirements the code needs: distinct non-zero class codes, a grass code distinct from them, speeds in 1..10, a positive starting refill share and a non-negative starting refill epoch count. SCAN_DIAMETER is not a field: `Config.Diameter` fixes it as 2 * SCAN_RADIUS + 1, an odd side with SCAN_DIAMETER // 2 == SCAN_RADIUS. The scan index i * SCAN_DIAMETER + j and the D // 2 masks rely on this.
- In `count_agents`, the model appends to the count series before the refill rules, not after them. The rules never read or write the series, so the resulting state is the same.
