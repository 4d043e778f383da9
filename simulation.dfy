// The Simulation struct of src/simulation.c as a class over arrays: the grid of slot
// references, the particle pool and the free-slot stack are updated in place, and
// every method is proved against the function on snapshots that specifies it.

module Engine {
  import opened Particles
  import opened Grid
  import opened Rng
  import opened Pool
  import opened Rules
  import opened Tick
  import opened Brush

  class Simulation {
    const width: nat
    const height: nat
    /** The property table; particles_get_properties is not part of this model. */
    const props: Registry
    const grid: array<Cell>
    const pool: array<Particle>
    const freeList: array<nat>
    var freeCount: nat
    var rngState: bv32
    var currentTick: nat

    function Cfg(): Config
    {
      Config(width, height, props)
    }

    /** The whole mutable state as one value. */
    function State(): SimState
      reads this, grid, pool, freeList
    {
      SimState(grid[..], pool[..], freeList[..], freeCount, rngState, currentTick)
    }

    ghost predicate Valid()
      reads this, grid, pool, freeList
    {
      ConfigOk(Cfg()) && Invariant(Cfg(), State())
    }

    /** sim_init: an empty grid, every slot free and free_list[i] == i. The seed that
        the engine takes from the clock is a parameter; the pool's initial contents are
        unspecified. */
    constructor (w: nat, h: nat, table: Registry, seed: bv32)
      requires w > 0 && h > 0 && WellFormedRegistry(table)
      ensures Valid() && fresh(grid) && fresh(pool) && fresh(freeList)
      ensures Cfg() == Config(w, h, table)
      ensures State() == InitState(Cfg(), pool[..], seed)
    {
      var n := w * h;
      var free := new nat[n](_ => 0);
      var i := 0;
      while i < n
        invariant 0 <= i <= n
        invariant forall k :: 0 <= k < i ==> free[k] == k
      {
        free[i] := i;
        i := i + 1;
      }
      width, height, props := w, h, table;
      grid := new Cell[n](_ => Empty);
      pool := new Particle[n](_ => NewParticle(None));
      freeList := free;
      freeCount := n;
      rngState := seed;
      currentTick := 0;
      new;
      assert grid[..] == seq(n, _ => Empty);
      assert freeList[..] == seq(n, k => k);
      assert State() == InitState(Cfg(), pool[..], seed);
    }

    /** rng_xorshift: advance the generator and return its new state. */
    method NextRandom() returns (r: bv32)
      modifies this
      ensures State() == old(State()).(rng := XorShift(old(rngState)))
      ensures r == rngState
    {
      rngState := XorShift(rngState);
      r := rngState;
    }

    /** get_particle. */
    method Get(x: int, y: int) returns (p: Cell)
      requires WellShaped(Cfg(), State())
      ensures p == GetParticle(Cfg(), State(), x, y)
    {
      if !InBounds(width, height, x, y) {
        return Empty;
      }
      IndexInRange(width, height, x, y);
      p := grid[GridIndex(width, x, y)];
    }

    /** set_particle. */
    method SetParticle(x: int, y: int, p: Cell)
      requires grid.Length == Capacity(Cfg())
      modifies grid
      ensures State() == SetCell(Cfg(), old(State()), x, y, p)
    {
      if !InBounds(width, height, x, y) {
        return;
      }
      IndexInRange(width, height, x, y);
      grid[GridIndex(width, x, y)] := p;
    }

    /** swap_particles: both cells must lie inside the grid. */
    method SwapParticles(x1: int, y1: int, x2: int, y2: int)
      requires WellShaped(Cfg(), State())
      requires InBounds(width, height, x1, y1) && InBounds(width, height, x2, y2)
      modifies grid
      ensures State() == Swap(Cfg(), old(State()), x1, y1, x2, y2)
    {
      IndexInRange(width, height, x1, y1);
      IndexInRange(width, height, x2, y2);
      var i, j := GridIndex(width, x1, y1), GridIndex(width, x2, y2);
      var tmp := grid[i];
      grid[i] := grid[j];
      grid[j] := tmp;
    }

    /** sim_spawn_particles. */
    method Spawn(x: int, y: int, t: ParticleType) returns (ok: bool)
      requires Valid()
      modifies this, grid, pool
      ensures Valid()
      ensures ok == SpawnOk(Cfg(), old(State()), x, y)
      ensures State() == Pool.Spawn(Cfg(), old(State()), x, y, t)
    {
      if !InBounds(width, height, x, y) {
        return false;
      }
      var here := Get(x, y);
      if here.Ref? || freeCount == 0 {
        return false;
      }
      ghost var st0 := State();
      assert SpawnOk(Cfg(), st0, x, y);
      freeCount := freeCount - 1;
      var idx := freeList[freeCount];
      pool[idx] := NewParticle(t);
      ghost var st1 := st0.(pool := st0.pool[idx := NewParticle(t)], freeCount := st0.freeCount - 1);
      assert State() == st1;
      SetParticle(x, y, Ref(idx));
      assert State() == SetCell(Cfg(), st1, x, y, Ref(idx)) == Pool.Spawn(Cfg(), st0, x, y, t);
      ok := true;
    }

    /** sim_remove_particle. */
    method Remove(x: int, y: int)
      requires Valid()
      modifies this, grid, freeList
      ensures Valid()
      ensures State() == Pool.Remove(Cfg(), old(State()), x, y)
    {
      ghost var c, st0 := Cfg(), State();
      var p := Get(x, y);
      if p.Empty? {
        return;
      }
      IndexInRange(width, height, x, y);
      PushKeepsInvariant(st0.grid, FreeStack(st0), Capacity(c), GridIndex(width, x, y));
      freeList[freeCount] := p.slot;
      freeCount := freeCount + 1;
      ghost var st1 := st0.(freeList := st0.freeList[st0.freeCount := p.slot], freeCount := st0.freeCount + 1);
      assert State() == st1;
      SetParticle(x, y, Empty);
      assert State() == SetCell(c, st1, x, y, Empty) == Pool.Remove(c, st0, x, y);
    }

    /** can_displace, reading the two particles' types. */
    method Displaces(a: Cell, b: Cell) returns (ok: bool)
      requires a.Ref? ==> a.slot < pool.Length
      requires b.Ref? ==> b.slot < pool.Length
      ensures ok == CanDisplace(props, pool[..], a, b)
    {
      if a.Empty? {
        return false;
      }
      if b.Empty? {
        return true;
      }
      var pa, pb := props(pool[a.slot].kind), props(pool[b.slot].kind);
      if pb.state == Solid {
        return false;
      }
      return pa.density > pb.density;
    }

    /** The straight-down loop of update_powder and update_liquid: offsets reach down to
        1, the first open one wins; 0 when none is. */
    method FallScan(p: Cell, x: int, y: int, reach: nat) returns (j: nat)
      requires WellShaped(Cfg(), State()) && p.Ref? && p.slot < pool.Length
      ensures j == FallSearch(Cfg(), State(), p, x, y, reach)
    {
      var i := reach;
      while i >= 1
        invariant 0 <= i <= reach
        invariant FallSearch(Cfg(), State(), p, x, y, reach) == FallSearch(Cfg(), State(), p, x, y, i)
      {
        if InBounds(width, height, x, y + i) {
          var below := Get(x, y + i);
          var ok := Displaces(p, below);
          if ok {
            return i;
          }
        }
        i := i - 1;
      }
      return 0;
    }

    /** One direction of the lateral-flow loop of update_liquid, for any mover. */
    method FlowScan(p: Cell, x: int, y: int, dir: int, dist: int) returns (j: int)
      requires WellShaped(Cfg(), State()) && (p.Ref? ==> p.slot < pool.Length)
      ensures j == FlowSearch(Cfg(), State(), p, x, y, dir, 1, dist)
    {
      var i := 1;
      while i <= dist
        invariant 1 <= i
        invariant FlowSearch(Cfg(), State(), p, x, y, dir, 1, dist) == FlowSearch(Cfg(), State(), p, x, y, dir, i, dist)
        decreases dist - i
      {
        var nx := x + i * dir;
        var side := Get(nx, y);
        if !InBounds(width, height, nx, y) {
          return 0;
        }
        var ok := Displaces(p, side);
        if ok {
          return i;
        } else if side.Ref? {
          return 0;
        }
        i := i + 1;
      }
      return 0;
    }

    /** Gravity and the speed clamps, applied to the record in slot s. */
    method Accelerate(s: nat, maxFall: real, maxSide: real)
      requires s < pool.Length && maxSide >= 0.0
      modifies pool
      ensures State() == Accelerated(old(State()), s, maxFall, maxSide)
    {
      var q := pool[s];
      q := q.(vy := q.vy + Gravity);
      if q.vy > maxFall {
        q := q.(vy := maxFall);
      }
      if q.vx > maxSide {
        q := q.(vx := maxSide);
      }
      if q.vx < -maxSide {
        q := q.(vx := -maxSide);
      }
      pool[s] := q;
    }

    /** The two diagonal tests shared by update_powder and update_liquid: the cell
        below in direction dir, then the one below in the other direction. */
    method DiagonalScan(p: Cell, x: int, y: int, dir: int) returns (m: Move)
      requires WellShaped(Cfg(), State()) && p.Ref? && p.slot < pool.Length
      requires dir == 1 || dir == -1
      ensures m == Diagonal(Cfg(), State(), p, x, y, dir)
    {
      if InBounds(width, height, x + dir, y + 1) {
        var diag := Get(x + dir, y + 1);
        var ok := Displaces(p, diag);
        if ok {
          return Slide(dir);
        }
      }
      if InBounds(width, height, x - dir, y + 1) {
        var diag := Get(x - dir, y + 1);
        var ok := Displaces(p, diag);
        if ok {
          return Slide(-dir);
        }
      }
      return Stay;
    }

    /** The lateral-flow loop of update_liquid: direction dir first, then -dir. */
    method LateralScan(p: Cell, x: int, y: int, dir: int, dist: int) returns (m: Move)
      requires WellShaped(Cfg(), State()) && p.Ref? && p.slot < pool.Length
      requires dir == 1 || dir == -1
      ensures m == Lateral(Cfg(), State(), p, x, y, dir, dist)
    {
      for d := 0 to 2
        invariant d >= 1 ==> FlowSearch(Cfg(), State(), p, x, y, dir, 1, dist) == 0
        invariant d >= 2 ==> FlowSearch(Cfg(), State(), p, x, y, -dir, 1, dist) == 0
      {
        var current := if d == 0 then dir else -dir;
        var i := FlowScan(p, x, y, current, dist);
        if i > 0 {
          return Flow(i * current);
        }
      }
      return Stay;
    }

    /** Carry out a move and leave the mover's record in slot s as v: the swap of the
        branch taken, followed by its velocity update. */
    method Settle(x: int, y: int, s: nat, m: Move, v: Particle)
      requires WellShaped(Cfg(), State()) && s < pool.Length
      requires InBounds(width, height, x, y)
      requires !m.Stay? ==> InBounds(width, height, Target(m, x, y).0, Target(m, x, y).1)
      modifies grid, pool
      ensures State() == Displace(Cfg(), old(State()).(pool := old(pool[..])[s := v]), x, y, m)
    {
      ghost var st0 := State();
      if !m.Stay? {
        SwapParticles(x, y, Target(m, x, y).0, Target(m, x, y).1);
        SwapCommutes(Cfg(), st0, x, y, Target(m, x, y).0, Target(m, x, y).1, st0.pool[s := v]);
      }
      pool[s] := v;
    }

    /** update_powder. */
    method UpdatePowder(x: int, y: int)
      requires WellShaped(Cfg(), State())
      modifies this, grid, pool
      ensures State() == PowderStep(Cfg(), old(State()), x, y)
    {
      ghost var c, st0 := Cfg(), State();
      var p := Get(x, y);
      if p.Empty? {
        return;
      }
      var s := p.slot;
      Accelerate(s, PowderMaxFall, PowderMaxSide);
      ghost var st1 := State();
      ghost var a := st1.pool[s];
      var moveY := Trunc(pool[s].vy);
      if moveY < 1 {
        moveY := 1;
      }
      assert moveY == FallReach(a.vy);
      var fall := FallScan(p, x, y, moveY);
      if fall > 0 {
        assert PowderMove(c, st1, p, x, y, moveY) == (Fall(fall), st1.rng);
        Settle(x, y, s, Fall(fall), pool[s]);
        assert st1.(pool := st1.pool[s := a]) == st1.(pool := st1.pool[s := a], rng := st1.rng);
        return;
      }
      var r := NextRandom();
      var dir := Direction(r);
      ghost var st2 := State();
      SameCellsSameOpen(c, st1, st2, p, x + dir, y + 1);
      SameCellsSameOpen(c, st1, st2, p, x - dir, y + 1);
      var m := DiagonalScan(p, x, y, dir);
      assert PowderMove(c, st1, p, x, y, moveY) == (m, r);
      var v := pool[s];
      if m.Slide? {
        v := v.(vx := m.dx as real * 0.5);
      } else {
        v := v.(vy := v.vy * 0.5, vx := v.vx * 0.8);
      }
      assert v == PowderVelocity(a, m);
      Settle(x, y, s, m, v);
      assert st2.(pool := st2.pool[s := v]) == st1.(pool := st1.pool[s := v], rng := r);
    }

    /** update_liquid, with the diagonal cells tested for bounds (see README, Findings). */
    method UpdateLiquid(x: int, y: int)
      requires WellShaped(Cfg(), State())
      modifies this, grid, pool
      ensures State() == LiquidStep(Cfg(), old(State()), x, y)
    {
      ghost var c, st0 := Cfg(), State();
      var p := Get(x, y);
      if p.Empty? {
        return;
      }
      var s := p.slot;
      var dist := FlowDistance(props(pool[s].kind).viscosity);
      Accelerate(s, LiquidMaxFall, LiquidMaxSide);
      ghost var st1 := State();
      ghost var a := st1.pool[s];
      var moveY := Trunc(pool[s].vy);
      if moveY < 1 {
        moveY := 1;
      }
      assert moveY == FallReach(a.vy);
      var fall := FallScan(p, x, y, moveY);
      if fall > 0 {
        assert LiquidMove(c, st1, p, x, y, moveY, dist) == (Fall(fall), st1.rng);
        Settle(x, y, s, Fall(fall), pool[s]);
        assert st1.(pool := st1.pool[s := a]) == st1.(pool := st1.pool[s := a], rng := st1.rng);
        return;
      }
      Spread(p, x, y, moveY, dist);
    }

    /** The rest of update_liquid once nothing below is open: the diagonals, then the
        lateral flow, with the velocity update of the branch taken. */
    method Spread(p: Cell, x: int, y: int, reach: nat, dist: int)
      requires WellShaped(Cfg(), State()) && InBounds(width, height, x, y)
      requires p == GetParticle(Cfg(), State(), x, y) && p.Ref?
      requires FallSearch(Cfg(), State(), p, x, y, reach) == 0
      modifies this, grid, pool
      ensures var r := LiquidMove(Cfg(), old(State()), p, x, y, reach, dist);
              State() == Displace(Cfg(), old(State()).(pool := old(pool[..])[p.slot := LiquidVelocity(old(pool[p.slot]), r.0)], rng := r.1), x, y, r.0)
    {
      ghost var c, st1 := Cfg(), State();
      var s := p.slot;
      ghost var a := pool[s];
      var r := NextRandom();
      var dir := Direction(r);
      ghost var st2 := State();
      MovesIgnoreRng(c, st1, r, p, x, y, dir, dist);
      var m := DiagonalScan(p, x, y, dir);
      if m.Slide? {
        assert LiquidMove(c, st1, p, x, y, reach, dist) == (m, r);
        Settle(x, y, s, m, pool[s]);
        assert st2.(pool := st2.pool[s := a]) == st1.(pool := st1.pool[s := a], rng := r);
        return;
      }
      var r2 := NextRandom();
      var flowDir := Direction(r2);
      ghost var st3 := State();
      assert st3 == st1.(rng := r2);
      MovesIgnoreRng(c, st1, r2, p, x, y, flowDir, dist);
      m := LateralScan(p, x, y, flowDir, dist);
      assert Diagonal(c, st1, p, x, y, dir).Stay? && r2 == XorShift(XorShift(st1.rng));
      assert m == Lateral(c, st1, p, x, y, flowDir, dist);
      assert LiquidMove(c, st1, p, x, y, reach, dist) == (m, r2);
      var v := pool[s];
      if m.Flow? {
        v := v.(vx := m.dx as real);
      } else {
        v := v.(vy := v.vy * 0.3, vx := v.vx * 0.9);
      }
      assert v == LiquidVelocity(a, m);
      assert m.Flow? ==> Open(c, st3, p, x + m.dx, y);
      assert m.Flow? ==> InBounds(width, height, x + m.dx, y);
      Settle(x, y, s, m, v);
      assert st3.(pool := st3.pool[s := v]) == st1.(pool := st1.pool[s := v], rng := r2);
    }

    /** update_particle: flag the occupant and run the rule of its state class. */
    method UpdateParticle(x: int, y: int)
      requires WellShaped(Cfg(), State())
      modifies this, grid, pool
      ensures State() == Tick.UpdateParticle(Cfg(), old(State()), x, y)
    {
      var p := Get(x, y);
      if p.Empty? || pool[p.slot].updated {
        return;
      }
      pool[p.slot] := pool[p.slot].(updated := true);
      match props(pool[p.slot].kind).state
      case Powder => UpdatePowder(x, y);
      case Liquid => UpdateLiquid(x, y);
      case _ =>
    }

    /** sim_update: advance the tick counter, clear the flag of every particle on the
        grid, then visit the rows bottom to top, left to right on even ticks. */
    method Update()
      requires Valid()
      modifies this, grid, pool
      ensures Valid()
      ensures State() == Tick.Tick(Cfg(), old(State()))
    {
      ghost var c, st0 := Cfg(), State();
      currentTick := currentTick + 1;
      ClearFlags();
      ghost var st1 := State();
      assert st1 == Prepared(c, st0);
      var ltr := currentTick % 2 == 0;
      ScanRows(ltr);
      assert ltr == LeftToRight(st1.tick);
      TickKeepsInvariant(c, st0);
    }

    /** The row loop of sim_update: rows from height - 1 up to 0, each in the direction
        ltr gives. */
    method ScanRows(ltr: bool)
      requires WellShaped(Cfg(), State())
      modifies this, grid, pool
      ensures State() == Scan(Cfg(), old(State()), RowsFrom(width, height, 0, ltr))
    {
      ghost var c, st1 := Cfg(), State();
      for y := height downto 0
        invariant WellShaped(c, State())
        invariant State() == Scan(c, st1, RowsFrom(width, height, y, ltr))
      {
        ghost var done := RowsFrom(width, height, y + 1, ltr);
        ScanAppend(c, st1, done, RowCells(width, y, ltr));
        ScanRow(y, ltr);
      }
    }

    /** The reset loop of sim_update: clear the flag of the particle in every cell. */
    method ClearFlags()
      requires WellShaped(Cfg(), State())
      modifies pool
      ensures pool[..] == ResetFlags(grid[..], old(pool[..]), grid.Length)
    {
      for i := 0 to grid.Length
        invariant pool[..] == ResetFlags(grid[..], old(pool[..]), i)
      {
        if grid[i].Ref? {
          pool[grid[i].slot] := pool[grid[i].slot].(updated := false);
        }
      }
    }

    /** One row of the scan of sim_update, in the direction of the tick. */
    method ScanRow(y: int, ltr: bool)
      requires WellShaped(Cfg(), State())
      modifies this, grid, pool
      ensures State() == Scan(Cfg(), old(State()), RowCells(width, y, ltr))
    {
      if ltr {
        ScanRowRight(y);
      } else {
        ScanRowLeft(y);
      }
    }

    /** The row loop of an even tick: x from 0 up to width - 1. */
    method ScanRowRight(y: int)
      requires WellShaped(Cfg(), State())
      modifies this, grid, pool
      ensures State() == Scan(Cfg(), old(State()), RowCells(width, y, true))
    {
      ghost var c, st0 := Cfg(), State();
      ghost var row := RowCells(width, y, true);
      for x := 0 to width
        invariant WellShaped(c, State())
        invariant State() == Scan(c, st0, row[..x])
      {
        ScanRowStep(c, st0, width, y, true, x, x);
        UpdateParticle(x, y);
      }
      assert row[..width] == row;
    }

    /** The row loop of an odd tick: x from width - 1 down to 0. */
    method ScanRowLeft(y: int)
      requires WellShaped(Cfg(), State())
      modifies this, grid, pool
      ensures State() == Scan(Cfg(), old(State()), RowCells(width, y, false))
    {
      ghost var c, st0 := Cfg(), State();
      ghost var row := RowCells(width, y, false);
      for k := 0 to width
        invariant WellShaped(c, State())
        invariant State() == Scan(c, st0, row[..k])
      {
        var x := width - 1 - k;
        ScanRowStep(c, st0, width, y, false, k, x);
        UpdateParticle(x, y);
      }
      assert row[..width] == row;
    }

    /** sim_brush_cirlce: spawn at every offset of the disc of the given radius around
        (cx, cy), row by row. */
    method BrushCircle(cx: int, cy: int, radius: int, t: ParticleType)
      requires Valid()
      modifies this, grid, pool
      ensures Valid()
      ensures State() == PaintAll(Cfg(), old(State()), cx, cy, Disc(radius), t)
    {
      ghost var c, st0 := Cfg(), State();
      ghost var step := SpawnStep(c, cx, cy, t);
      ghost var goal := Loops(step, st0, radius, -radius, -radius);
      var r2 := radius * radius;
      SqIsProduct(radius);
      var dy := -radius;
      while dy <= radius
        invariant Valid()
        invariant Loops(step, State(), radius, dy, -radius) == goal
        decreases radius - dy
      {
        PaintRow(cx, cy, radius, r2, dy, t);
        dy := dy + 1;
      }
      PaintLoopsPaintDisc(c, st0, cx, cy, radius, t);
    }

    /** The inner loop of sim_brush_cirlce: one row of the disc. */
    method PaintRow(cx: int, cy: int, radius: int, r2: int, dy: int, t: ParticleType)
      requires Valid() && r2 == Sq(radius) && dy <= radius
      modifies this, grid, pool
      ensures Valid()
      ensures var step := SpawnStep(Cfg(), cx, cy, t);
              Loops(step, State(), radius, dy + 1, -radius) == Loops(step, old(State()), radius, dy, -radius)
    {
      ghost var step := SpawnStep(Cfg(), cx, cy, t);
      ghost var goal := Loops(step, State(), radius, dy, -radius);
      var dx := -radius;
      while dx <= radius
        invariant Valid()
        invariant Loops(step, State(), radius, dy, dx) == goal
        decreases radius - dx
      {
        PaintAt(cx, cy, radius, r2, dy, dx, t);
        dx := dx + 1;
      }
    }

    /** One pass of the inner loop: the disc test, then the spawn at (cx + dx, cy + dy). */
    method PaintAt(cx: int, cy: int, radius: int, r2: int, dy: int, dx: int, t: ParticleType)
      requires Valid() && r2 == Sq(radius) && dy <= radius && dx <= radius
      modifies this, grid, pool
      ensures Valid()
      ensures var step := SpawnStep(Cfg(), cx, cy, t);
              Loops(step, State(), radius, dy, dx + 1) == Loops(step, old(State()), radius, dy, dx)
    {
      PaintLoopsStep(Cfg(), State(), cx, cy, radius, dy, dx, t);
      if Within(r2, dx, dy) {
        var _ := Spawn(cx + dx, cy + dy, t);
      }
    }

    /** sim_brush_erase: remove at every offset of the disc of the given radius around
        (cx, cy), row by row. */
    method BrushErase(cx: int, cy: int, radius: int)
      requires Valid()
      modifies this, grid, freeList
      ensures Valid()
      ensures State() == EraseAll(Cfg(), old(State()), cx, cy, Disc(radius))
    {
      ghost var c, st0 := Cfg(), State();
      ghost var step := RemoveStep(c, cx, cy);
      ghost var goal := Loops(step, st0, radius, -radius, -radius);
      var r2 := radius * radius;
      SqIsProduct(radius);
      var dy := -radius;
      while dy <= radius
        invariant Valid()
        invariant Loops(step, State(), radius, dy, -radius) == goal
        decreases radius - dy
      {
        EraseRow(cx, cy, radius, r2, dy);
        dy := dy + 1;
      }
      EraseLoopsEraseDisc(c, st0, cx, cy, radius);
    }

    /** The inner loop of sim_brush_erase: one row of the disc. */
    method EraseRow(cx: int, cy: int, radius: int, r2: int, dy: int)
      requires Valid() && r2 == Sq(radius) && dy <= radius
      modifies this, grid, freeList
      ensures Valid()
      ensures var step := RemoveStep(Cfg(), cx, cy);
              Loops(step, State(), radius, dy + 1, -radius) == Loops(step, old(State()), radius, dy, -radius)
    {
      ghost var step := RemoveStep(Cfg(), cx, cy);
      ghost var goal := Loops(step, State(), radius, dy, -radius);
      var dx := -radius;
      while dx <= radius
        invariant Valid()
        invariant Loops(step, State(), radius, dy, dx) == goal
        decreases radius - dx
      {
        EraseAt(cx, cy, radius, r2, dy, dx);
        dx := dx + 1;
      }
    }

    /** One pass of the inner loop: the disc test, then the removal at (cx + dx, cy + dy). */
    method EraseAt(cx: int, cy: int, radius: int, r2: int, dy: int, dx: int)
      requires Valid() && r2 == Sq(radius) && dy <= radius && dx <= radius
      modifies this, grid, freeList
      ensures Valid()
      ensures var step := RemoveStep(Cfg(), cx, cy);
              Loops(step, State(), radius, dy, dx + 1) == Loops(step, old(State()), radius, dy, dx)
    {
      EraseLoopsStep(Cfg(), State(), cx, cy, radius, dy, dx);
      if Within(r2, dx, dy) {
        Remove(cx + dx, cy + dy);
      }
    }
  }
}
