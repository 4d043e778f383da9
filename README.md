# Falling-sand engine: a verified model of the simulation core

This project models `src/simulation.c`, the engine of a small falling-sand game,
and proves properties of that model. The engine's state is:

- a W×H row-major grid of references into a fixed pool of W×H particle slots;
- a LIFO stack of free slots (`free_list`, `free_count`);
- a 32-bit xorshift generator;
- a tick counter.

Its operations are:

- `sim_init`, `sim_spawn_particles` and `sim_remove_particle`;
- the grid primitives `get_particle`, `set_particle` and `swap_particles`;
- the movement rules `can_displace`, `update_powder`, `update_liquid` and `update_particle`;
- the tick `sim_update`;
- the two circular brushes `sim_brush_cirlce` and `sim_brush_erase`.

The project has two layers.

- **Values.** `SimState` is a snapshot of the whole `Simulation` struct, and the
  operations are functions on it. The pool invariant, the movement rules, the tick
  and the brushes are stated and proved on these functions. The modules are
  `Particles`, `Grid`, `Rng`, `Pool`, `Rules`, `Tick` and `Brush`.
- **The class.** `Engine.Simulation` keeps the grid, the pool and the free list in
  arrays and updates them in place, loop by loop, as the C code does. Each of its
  methods is proved to leave `State()` equal to the function that specifies it. The
  constructor and the public operations `Spawn`, `Remove`, `Update`, `BrushCircle` and
  `BrushErase` also keep `Valid()`, the pool invariant, as do the brush helpers
  `PaintRow`, `PaintAt`, `EraseRow` and `EraseAt`. The internal steps (`SetParticle`,
  `SwapParticles`, the movement rules and the scan loops) promise only their new
  `State()`. The pool invariant across a tick follows from `Tick.TickKeepsInvariant`.

A grid cell is `Empty` (the C null pointer) or `Ref(slot)`. The model stores the
slot index where the C code stores a pointer into the pool. So
`sim_remove_particle`'s pointer arithmetic becomes the stored index.

The pool invariant is one multiset equation: the slots the grid references, plus the
free stack `free_list[0 .. free_count)`, are exactly the slots `0 .. W*H-1`. From it
the model derives:

- `free_count` plus the number of occupied cells is `W*H`;
- occupied cells hold distinct slots;
- the free stack holds exactly the unreferenced slots.

## Model

| member | source | states |
|---|---|---|
| Rng.XorShift | src/simulation.c:7-12 | rng_xorshift: the state is xored with itself shifted left by 13, then right by 17, then left by 5, on 32 unsigned bits |
| Rng.NonZeroStaysNonZero | src/simulation.c:7-12 | the xorshift step (shifts 13, 17, 5 on 32 bits) maps a non-zero state to a non-zero state |
| Rng.Direction | src/simulation.c:146 | the drawn direction is -1 exactly when the generator output is odd, else +1 |
| Engine.Simulation.NextRandom | src/simulation.c:7-12 | rng_xorshift advances only the generator state and returns the new state |
| Pool.InitState | src/simulation.c:14-38 | the state sim_init leaves (empty grid, free_list[i] = i, free_count = W*H) satisfies the pool invariant and has no occupied cell |
| Engine.Simulation.constructor | src/simulation.c:14-38 | sim_init builds fresh arrays whose state is InitState for the given seed and keeps the class invariant |
| Grid.GridIndex | src/simulation.c:50-52 | get_grid_idx: the row-major index y*W + x, with no bounds check |
| Grid.InBounds | src/simulation.c:54-56 | in_bounds: 0 <= x < W and 0 <= y < H |
| Grid.IndexInRange | src/simulation.c:50-56 | an in-bounds (x, y) has a row-major index inside the grid |
| Grid.IndexInjective | src/simulation.c:50-52 | distinct in-bounds cells have distinct indices |
| Pool.GetParticle | src/simulation.c:58-62 | get_particle yields empty outside the grid, and any slot it yields is a valid pool index |
| Engine.Simulation.Get | src/simulation.c:58-62 | the method reads the cell GetParticle specifies |
| Pool.SetCell | src/simulation.c:64-68 | set_particle writes the cell only when (x, y) is in bounds and keeps the grid's size |
| Pool.GetAfterSet | src/simulation.c:64-68 | after set_particle the written cell reads back inside the grid and every other cell is unchanged |
| Engine.Simulation.SetParticle | src/simulation.c:64-68 | the method writes the cell SetCell specifies and nothing outside the grid |
| Pool.Swap | src/simulation.c:70-77 | swap_particles keeps the multiset of referenced slots, the free stack and every particle record |
| Pool.SwapExchanges | src/simulation.c:70-77 | the two cells exchange occupants and every other cell is unchanged |
| Engine.Simulation.SwapParticles | src/simulation.c:70-77 | the in-place exchange of two array entries is Swap |
| Pool.SpawnOk | src/simulation.c:80 | a spawn goes ahead exactly when (x, y) is in bounds, the cell is empty and free_count is not 0 |
| Particles.NewParticle | src/simulation.c:87 | the particle a spawn creates has the requested type, zero velocity and a clear updated flag |
| Pool.Spawn | src/simulation.c:79-91 | sim_spawn_particles keeps the pool invariant |
| Pool.SpawnEffect | src/simulation.c:79-91 | out of bounds, on an occupied cell or with free_count = 0 nothing changes; otherwise free_count drops by one and the cell holds the former top of the free list, which now holds a fresh particle |
| Pool.SpawnLeavesOthers | src/simulation.c:79-91 | spawning at one cell leaves every other cell unchanged |
| Pool.PopKeepsInvariant | src/simulation.c:84-89 | popping the top free slot into an empty cell keeps the pool invariant |
| Engine.Simulation.Spawn | src/simulation.c:79-91 | the method returns true exactly when the spawn conditions hold, its new state is Spawn, and it keeps the class invariant |
| Pool.Remove | src/simulation.c:93-101 | sim_remove_particle keeps the pool invariant |
| Pool.RemoveEffect | src/simulation.c:93-101 | on an empty or outside cell nothing changes; otherwise the cell empties, its slot is pushed on the free stack, and free_count rises by one without passing W*H |
| Pool.RemoveLeavesOthers | src/simulation.c:93-101 | removing at one cell leaves every other cell unchanged |
| Pool.PushKeepsInvariant | src/simulation.c:98-100 | there is room on the free stack for the slot of an occupied cell, and pushing it while clearing the cell keeps the pool invariant |
| Pool.SpawnThenRemove | src/simulation.c:79-101 | a spawn then a remove at the same cell restore the grid, the free list and free_count |
| Engine.Simulation.Remove | src/simulation.c:93-101 | the method's new state is Remove and it keeps the class invariant |
| Grid.CountBalance | src/simulation.c:32-35 | under the pool invariant, free_count plus the number of occupied cells is W*H |
| Grid.SlotsDistinct | src/simulation.c:84-89 | no two occupied cells hold the same slot |
| Grid.FreeSlotUnreferenced | src/simulation.c:84 | a slot on the free stack is a pool index, appears on the stack once and is referenced by no cell |
| Grid.RefSlotNotFree | src/simulation.c:98-99 | a referenced slot is a pool index and is not on the free stack |
| Grid.SlotAccountedFor | src/simulation.c:32-35 | every slot is referenced or free |
| Rules.CanDisplace | src/simulation.c:103-116 | can_displace: false for an absent mover, true for an empty target, false for a solid target, otherwise whether the mover is strictly denser |
| Rules.DisplacementIsStrict | src/simulation.c:103-116 | a solid is never displaced, equal densities never displace each other, and displacement is never mutual |
| Engine.Simulation.Displaces | src/simulation.c:103-116 | the method's answer is CanDisplace: false for an absent mover, true for an empty target, false for a solid target, otherwise the density comparison |
| Rules.Accelerate | src/simulation.c:124-131 | after gravity and the clamps the vertical speed is at most the fall limit and the horizontal speed within the side limit; type and flag unchanged |
| Engine.Simulation.Accelerate | src/simulation.c:124-131 | the in-place velocity update is Accelerated |
| Rules.Trunc | src/simulation.c:133 | the int cast truncates toward zero |
| Rules.FallReach | src/simulation.c:133-134 | move_y is the vertical speed truncated toward zero when that speed is at least 1, and 1 otherwise |
| Rules.FallReachClamped | src/simulation.c:124-134 | move_y lies in 1..8 for powder and in 1..6 for liquid |
| Rules.FallSearch | src/simulation.c:136-144 | the straight-down search returns the farthest open offset up to move_y, with no open offset beyond it, or 0 when none is open |
| Engine.Simulation.FallScan | src/simulation.c:136-144 | the downward loop returns FallSearch |
| Rules.Diagonal | src/simulation.c:146-164 | the cell below in direction dir is taken when open, else the one in the other direction, else the mover stays, and then neither is open |
| Engine.Simulation.DiagonalScan | src/simulation.c:148-164 | the guarded diagonal tests return Diagonal |
| Rules.PowderMove | src/simulation.c:136-164 | a fall is taken when some offset is open and leaves the generator alone; otherwise one draw picks the diagonal order |
| Rules.PowderVelocity | src/simulation.c:152-167 | the velocity update of each branch keeps type and flag |
| Rules.PowderStep | src/simulation.c:118-168 | a powder step keeps the shape, the referenced slots, the free stack, every type and every flag |
| Rules.PowderNeverRises | src/simulation.c:118-168 | the powder particle ends in its own cell or in a lower row |
| Engine.Simulation.UpdatePowder | src/simulation.c:118-168 | the method's new state is PowderStep |
| Engine.Simulation.Settle | src/simulation.c:140-167 | the swap of the branch taken followed by the velocity write is Displace after the pool write |
| Rules.FlowDistance | src/simulation.c:209 | flow_distance lies in 1..4 for viscosity in [0, 1] |
| Rules.FlowDistanceAntitone | src/simulation.c:209 | higher viscosity never gives a longer flow distance |
| Rules.FlowSearch | src/simulation.c:215-228 | a lateral scan returns 0 or an offset within flow_distance whose cell is in bounds and displaceable |
| Rules.FlowOnlyReachesNeighbour | src/simulation.c:215-228 | as written, a lateral scan moves exactly when the neighbouring cell is open, and only to it |
| Engine.Simulation.FlowScan | src/simulation.c:215-228 | the lateral loop returns FlowSearch |
| Rules.Lateral | src/simulation.c:210-229 | flow goes one cell, in flow_dir when open, otherwise in the other direction; when the mover stays neither neighbour is open |
| Engine.Simulation.LateralScan | src/simulation.c:212-229 | the two-direction loop returns Lateral |
| Rules.MovesIgnoreRng | src/simulation.c:195-229 | the diagonal and lateral choices depend on the grid and pool, not on the generator state |
| Rules.LiquidMove | src/simulation.c:185-229 | fall first; otherwise one draw and the diagonals; only when both fail a second draw and the lateral flow |
| Rules.LiquidVelocity | src/simulation.c:223-232 | the velocity update of each branch keeps type and flag |
| Rules.LiquidStep | src/simulation.c:170-233 | a liquid step keeps the shape, the referenced slots, the free stack, every type and every flag |
| Rules.LiquidNeverRises | src/simulation.c:170-233 | the liquid particle ends in its own row or a lower one |
| Rules.GuardedDiagonalStaysInside | src/simulation.c:197-207 | with the bounds test, every diagonal a liquid takes is one column across and one row down, inside the grid |
| Rules.UnguardedDiagonalLeavesGrid | src/simulation.c:197-207 | as written, on the bottom row the diagonal swap is always attempted, at an index past the grid or, at x = 0 going left, at the far end of the row |
| Rules.UnguardedDiagonalWraps | src/simulation.c:197-207 | as written, away from the bottom row, the diagonal swap at the right edge going right reaches column 0 two rows down, and at the left edge going left it reaches the far end of the same row |
| Engine.Simulation.UpdateLiquid | src/simulation.c:170-233 | the method's new state is LiquidStep |
| Engine.Simulation.Spread | src/simulation.c:195-232 | once nothing below is open, the diagonal and lateral part of the method follows LiquidMove |
| Rules.Displace | src/simulation.c:140-222 | carrying out a move keeps the shape, the referenced slots, the pool and the generator |
| Rules.MoverLands | src/simulation.c:140-222 | after a move the mover's slot is in the target cell |
| Tick.Dispatch | src/simulation.c:283-286 | a rule runs at (x, y) exactly when the cell is occupied by a particle not yet flagged in this tick |
| Tick.UpdateParticle | src/simulation.c:283-300 | update_particle sets the occupant's flag and no other, keeps the referenced slots, and changes nothing when no rule runs |
| Tick.SolidAndGasStay | src/simulation.c:292-299 | a solid or gas particle is not moved and the generator is not drawn |
| Engine.Simulation.UpdateParticle | src/simulation.c:283-300 | the method's new state is UpdateParticle |
| Tick.ResetFlags | src/simulation.c:344-348 | after the reset loop has reached cell n, exactly the slots referenced by cells before n are unflagged and every other field is unchanged |
| Engine.Simulation.ClearFlags | src/simulation.c:344-348 | the reset loop leaves the pool ResetFlags specifies |
| Tick.LeftToRight | src/simulation.c:350 | rows are scanned left to right exactly when the incremented tick counter is even |
| Tick.Prepared | src/simulation.c:342-348 | the counter advances by one and the grid is unchanged |
| Tick.PreparedClearsFlags | src/simulation.c:344-348 | after the reset no particle on the grid is flagged |
| Tick.RowCells | src/simulation.c:353-361 | row y lists its W cells in order: the k-th is (k, y) left to right and (W-1-k, y) right to left |
| Tick.RowsFrom | src/simulation.c:352-362 | the visiting order: the rows from H-1 up to y, each row's cells in the tick's direction |
| Tick.RowsFromOrder | src/simulation.c:350-362 | the scan visits every in-bounds cell exactly once, rows bottom to top, left to right exactly on even ticks |
| Tick.Scan | src/simulation.c:352-362 | update_particle applied to each cell of the visiting order in turn; it keeps the grid shape, the referenced slots, the free stack and every particle's type |
| Tick.ScanStep | src/simulation.c:352-362 | visiting one more cell extends a scan by one update |
| Tick.ScanAppend | src/simulation.c:352-362 | scanning two lists of cells is scanning the second from where the first left off |
| Tick.ScanRowStep | src/simulation.c:353-361 | visiting the k-th cell of a row, in either direction, extends the scan of the row's first k cells |
| Tick.StepRunsSlotOnce | src/simulation.c:283-288 | one visit keeps the log of run slots flagged and free of repeats |
| Tick.ScanRunsEachSlotOnce | src/simulation.c:352-362 | along a scan every slot whose rule ran is flagged and none ran twice |
| Tick.Tick | src/simulation.c:342-362 | a tick advances the counter and keeps the free stack, the referenced slots and every particle's type |
| Tick.TickKeepsInvariant | src/simulation.c:342-362 | a tick keeps the pool invariant |
| Tick.TickMovesEachParticleOnce | src/simulation.c:342-362 | within a tick each particle's rule runs at most once and its flag is set at the end |
| Engine.Simulation.Update | src/simulation.c:342-362 | sim_update's new state is Tick, and it keeps the class invariant |
| Engine.Simulation.ScanRows | src/simulation.c:352-362 | the row loop is the scan of all rows in the tick's direction |
| Engine.Simulation.ScanRow | src/simulation.c:353-361 | one row is scanned in the direction left_to_right selects |
| Engine.Simulation.ScanRowRight | src/simulation.c:354-356 | the ascending column loop is the scan of the row left to right |
| Engine.Simulation.ScanRowLeft | src/simulation.c:358-360 | the descending column loop is the scan of the row right to left |
| Brush.SqIsProduct | src/simulation.c:366 | the linear square used by the disc test equals the product |
| Brush.WithinIsProductTest | src/simulation.c:370 | the disc test used by the model is dx*dx + dy*dy <= r*r |
| Brush.SweepMembers | src/simulation.c:368-371 | from row dy and column dx on, the loops visit exactly the disc offsets at or after that position in row-major order |
| Brush.DiscMembers | src/simulation.c:368-371 | the brush visits exactly the offsets with -r <= dx, dy <= r and dx*dx + dy*dy <= r*r |
| Brush.SweepTake | src/simulation.c:368-371 | an offset inside the disc is visited first and the rest follows |
| Brush.LoopsVisitSweep | src/simulation.c:368-378 | the nested brush loops apply their body at exactly the disc offsets, in row-major order |
| Brush.PaintAll | src/simulation.c:365-379 | painting keeps the pool invariant |
| Brush.EraseAll | src/simulation.c:381-395 | erasing keeps the pool invariant |
| Brush.PaintLoopsPaintDisc | src/simulation.c:365-379 | running the painting loops from the first row and column spawns at every disc offset in order |
| Brush.EraseLoopsEraseDisc | src/simulation.c:381-395 | running the erasing loops from the first row and column removes at every disc offset in order |
| Brush.PaintAllAlong | src/simulation.c:365-379 | painting a list of offsets is the run of its spawn steps |
| Brush.EraseAllAlong | src/simulation.c:381-395 | erasing a list of offsets is the run of its remove steps |
| Brush.PaintLoopsStep | src/simulation.c:369-376 | one pass of the painting loop spawns exactly when the offset lies in the disc |
| Brush.EraseLoopsStep | src/simulation.c:385-392 | one pass of the erasing loop removes exactly when the offset lies in the disc |
| Brush.PaintFillsAt | src/simulation.c:365-379 | after painting, every painted cell is occupied, outside the grid, or the pool is exhausted |
| Brush.PaintKeepsBlocked | src/simulation.c:365-379 | painting never frees a cell nor refills the pool |
| Brush.PaintLeavesOutside | src/simulation.c:365-379 | painting leaves every cell at an unlisted offset unchanged |
| Brush.PaintedStepIsNoOp | src/simulation.c:365-379 | after painting, a further spawn at any painted offset changes nothing |
| Brush.PaintIdempotent | src/simulation.c:365-379 | painting the same disc twice equals painting it once |
| Brush.EraseClears | src/simulation.c:381-395 | after erasing, every erased cell is empty |
| Brush.EraseLeavesOutside | src/simulation.c:381-395 | erasing leaves every cell at an unlisted offset unchanged |
| Brush.EraseBrushEffect | src/simulation.c:381-395 | the erase brush empties exactly the disc around the centre and leaves every other cell unchanged |
| Brush.PaintBrushEffect | src/simulation.c:365-379 | the paint brush fills every in-grid disc cell unless the pool runs out, and leaves every other cell unchanged |
| Brush.PaintThenEraseRestores | src/simulation.c:365-395 | erasing after painting a disc that was empty restores the grid and free_count |
| Engine.Simulation.BrushCircle | src/simulation.c:365-379 | the nested loops leave the state PaintAll over the disc, keeping the class invariant |
| Engine.Simulation.PaintRow | src/simulation.c:369-378 | one row of the painting loops advances the loop state by one row |
| Engine.Simulation.PaintAt | src/simulation.c:370-376 | one pass of the inner painting loop advances the loop state by one offset |
| Engine.Simulation.BrushErase | src/simulation.c:381-395 | the nested loops leave the state EraseAll over the disc, keeping the class invariant |
| Engine.Simulation.EraseRow | src/simulation.c:385-394 | one row of the erasing loops advances the loop state by one row |
| Engine.Simulation.EraseAt | src/simulation.c:386-392 | one pass of the inner erasing loop advances the loop state by one offset |

## Notes on the source

- **Lateral flow.** `update_liquid`'s flow loop looks as if it scans up to
  `flow_distance` cells, but as written it never passes the first one. For a present
  mover, `can_displace` accepts an empty cell. So the neighbouring cell is either
  taken, or is occupied and stops the scan. `flow_distance` matters only through being
  at least 1. `Rules.FlowOnlyReachesNeighbour` proves this, and the model follows the
  code.
- **Tick counter.** `sim_update` reads `current_tick`, which `sim_init` never sets. The
  model starts it at 0, as the zero-initialised global that holds the simulation does.
- **Particle table.** The property table (`particles_get_properties`) is a parameter of
  the model: a total map from particle type to state, density and viscosity. The only
  hypothesis is that every viscosity lies in [0, 1]. The pool's initial contents are
  left unspecified, as `malloc` leaves them.

## Findings

| source | as written | input that shows it | evidently intended | confidence | as-written member | corrected member |
|---|---|---|---|---|---|---|
| src/simulation.c:197-207 | `update_liquid` reads and swaps with the two diagonal cells below without an `in_bounds` test. `get_particle` returns NULL outside the grid, `can_displace(p, NULL)` is true, and `swap_particles` does no bounds check. | A liquid particle at (x, H-1), on the bottom row, with x + dir >= 0: nothing below is open, so it swaps with grid index H*W + x + dir, past the end of the grid. At (0, H-1) with dir = -1 it swaps with (W-1, H-1) instead. On any row y < H-1, when no straight-down cell is open: at (W-1, y) with dir = +1 it swaps with (0, y+2), and at (0, y) with dir = -1 it swaps with (W-1, y), the far end of its own row. | The same `in_bounds` guard that `update_powder` puts on its diagonal tests (lines 148 and 157) | not executed; high | Rules.UnguardedDiagonalLeavesGrid | Rules.GuardedDiagonalStaysInside |

`Rules.DiagonalTakenAsWritten` is the unguarded test. `Rules.UnguardedDiagonalLeavesGrid`
and `Rules.UnguardedDiagonalWraps` show where it leads. The rest of the model uses the
guarded test, through `Rules.Diagonal` inside `Rules.LiquidMove`, and
`Engine.Simulation.UpdateLiquid` is proved against that.

## Left out

- Rules.Accelerate: velocities and the decay and clamp arithmetic are exact reals, not IEEE single-precision floats, so rounding is not modelled.
- Engine.Simulation.BrushCircle: `dx * dx + dy * dy`, `radius * radius` and `cx + dx` are unbounded integers. In the source's 32-bit `int` the sum `dx * dx + dy * dy` reaches 2·r² and overflows from radius 32768 on, so corner offsets outside the disc would wrap negative and pass the test; `radius * radius` itself overflows from 46341. The model does not capture either overflow.
- Engine.Simulation.BrushErase: the same unbounded `dx * dx + dy * dy` (overflowing from radius 32768) and `radius * radius` (from 46341) as BrushCircle.
- Engine.Simulation.Update: `current_tick` is an unbounded natural; the source's `int` counter would overflow after 2^31 - 1 ticks.
- Brush.PaintThenEraseRestores: restores the grid and free_count, not the order of the free list nor the particle records, which the source does not restore either.
- The clock seed `time(NULL)` in `sim_init` is a constructor parameter.
- Allocation failure in `sim_init`, and `sim_cleanup`, are not modelled: `calloc`, `malloc` and `free` are foreign calls, and the constructor always builds fresh arrays.
- `particles_get_properties` and `particle_create` are not part of this model. The property table is a parameter, and a fresh particle has zero velocity and a clear flag. The colour field is rendering data and is omitted.
- `common.h` is not part of this model: W and H are positive constructor parameters, and GRAVITY is 0.5 as `include/simulation.h` defines it.
- `src/game.c`, the SDL front end, is not modelled: input, rendering and frame pacing are I/O.
- The commented-out `update_sand`, `update_water` and the old scan loop of `sim_update` are dead code and are not modelled.
- Brush disc test: the model writes dx*dx + dy*dy as a sum of odd numbers (`Brush.Sq`), and `Brush.WithinIsProductTest` proves that this equals the product.
- Loop factoring: the brush methods run their inner loop and loop body through `PaintRow`/`PaintAt` and `EraseRow`/`EraseAt`. `update_liquid` runs its diagonal and lateral part through `Spread`. This changes the method structure only, not the order of effects.
