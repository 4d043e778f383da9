// The movement rules of src/simulation.c: can_displace, update_powder and
// update_liquid, as functions on the simulation snapshot.

module Rules {
  import opened Particles
  import opened Grid
  import opened Rng
  import opened Pool

  /** The vertical acceleration added every tick (GRAVITY). */
  const Gravity: real := 0.5
  const PowderMaxFall: real := 8.0
  const PowderMaxSide: real := 4.0
  const LiquidMaxFall: real := 6.0
  const LiquidMaxSide: real := 3.0

  /** can_displace: whether mover `a` may take the place of `b`. */
  predicate CanDisplace(props: Registry, pool: seq<Particle>, a: Cell, b: Cell)
    requires a.Ref? ==> a.slot < |pool|
    requires b.Ref? ==> b.slot < |pool|
  {
    if a.Empty? then false
    else if b.Empty? then true
    else if props(pool[b.slot].kind).state == Solid then false
    else props(pool[a.slot].kind).density > props(pool[b.slot].kind).density
  }

  /** A solid is never displaced, two particles of equal density (sand on sand) never
      displace each other, and displacement is never mutual. */
  lemma DisplacementIsStrict(props: Registry, pool: seq<Particle>, a: Cell, b: Cell)
    requires a.Ref? && a.slot < |pool| && b.Ref? && b.slot < |pool|
    ensures props(pool[b.slot].kind).state == Solid ==> !CanDisplace(props, pool, a, b)
    ensures props(pool[a.slot].kind).density == props(pool[b.slot].kind).density
            ==> !CanDisplace(props, pool, a, b)
    ensures !(CanDisplace(props, pool, a, b) && CanDisplace(props, pool, b, a))
  {
  }

  /** C's conversion of a float to int, which truncates toward zero. */
  function Trunc(v: real): (n: int)
    ensures v >= 0.0 ==> n as real <= v < n as real + 1.0
    ensures v < 0.0 ==> n as real - 1.0 < v <= n as real
  {
    if v >= 0.0 then v.Floor else -((-v).Floor)
  }

  /** Gravity and the speed clamps applied at the start of a powder or liquid update. */
  function Accelerate(p: Particle, maxFall: real, maxSide: real): (q: Particle)
    requires maxSide >= 0.0
    ensures q.kind == p.kind && q.updated == p.updated
    ensures q.vy <= maxFall && -maxSide <= q.vx <= maxSide
  {
    var vy := p.vy + Gravity;
    p.(vy := if vy > maxFall then maxFall else vy,
       vx := if p.vx > maxSide then maxSide else if p.vx < -maxSide then -maxSide else p.vx)
  }

  /** The state with the particle in slot `s` accelerated. */
  function Accelerated(st: SimState, s: nat, maxFall: real, maxSide: real): SimState
    requires s < |st.pool| && maxSide >= 0.0
  {
    st.(pool := st.pool[s := Accelerate(st.pool[s], maxFall, maxSide)])
  }

  /** move_y: the farthest row offset to try, at least one. */
  function FallReach(vy: real): (n: nat)
    ensures n >= 1
    ensures vy >= 1.0 ==> n as real <= vy < n as real + 1.0
    ensures vy < 1.0 ==> n == 1
  {
    var m := Trunc(vy);
    if m < 1 then 1 else m
  }

  /** move_y never exceeds the fall-speed clamp: 8 rows for powder, 6 for liquid. */
  lemma FallReachClamped(p: Particle)
    ensures 1 <= FallReach(Accelerate(p, PowderMaxFall, PowderMaxSide).vy) <= 8
    ensures 1 <= FallReach(Accelerate(p, LiquidMaxFall, LiquidMaxSide).vy) <= 6
  {
  }

  /** flow_distance: lower viscosity gives a longer lateral reach. */
  function FlowDistance(viscosity: real): (d: int)
    ensures 0.0 <= viscosity <= 1.0 ==> 1 <= d <= 4
  {
    Trunc(3.0 * (1.0 - viscosity)) + 1
  }

  lemma FlowDistanceAntitone(v1: real, v2: real)
    requires 0.0 <= v1 <= v2 <= 1.0
    ensures FlowDistance(v2) <= FlowDistance(v1)
  {
  }

  /** Whether mover `p` may be moved into (tx, ty): the cell is inside the grid and
      displaceable. */
  predicate Open(c: Config, st: SimState, p: Cell, tx: int, ty: int)
    requires WellShaped(c, st) && (p.Ref? ==> p.slot < |st.pool|)
  {
    InBounds(c.width, c.height, tx, ty) && CanDisplace(c.props, st.pool, p, GetParticle(c, st, tx, ty))
  }

  /** Open depends only on the grid and the pool. */
  lemma SameCellsSameOpen(c: Config, st: SimState, st': SimState, p: Cell, tx: int, ty: int)
    requires WellShaped(c, st) && WellShaped(c, st') && (p.Ref? ==> p.slot < |st.pool|)
    requires st.grid == st'.grid && forall s :: 0 <= s < |st.pool| ==> st'.pool[s].kind == st.pool[s].kind
    ensures Open(c, st, p, tx, ty) == Open(c, st', p, tx, ty)
  {
  }

  /** Open for the cell k rows below (x, y). */
  predicate OpenBelow(c: Config, st: SimState, p: Cell, x: int, y: int, k: int)
    requires WellShaped(c, st) && (p.Ref? ==> p.slot < |st.pool|)
  {
    Open(c, st, p, x, y + k)
  }

  /** Open for the cell i steps in direction dir on the row of (x, y). */
  predicate OpenSide(c: Config, st: SimState, p: Cell, x: int, y: int, dir: int, i: int)
    requires WellShaped(c, st) && (p.Ref? ==> p.slot < |st.pool|)
  {
    Open(c, st, p, x + i * dir, y)
  }

  /** The straight-down search: offsets i, i-1, ..., 1 are tried in turn and the first
      open one wins, so the result is the farthest open offset; 0 when none is. */
  function FallSearch(c: Config, st: SimState, p: Cell, x: int, y: int, i: nat): (j: nat)
    requires WellShaped(c, st) && p.Ref? && p.slot < |st.pool|
    ensures j <= i
    ensures j > 0 ==> OpenBelow(c, st, p, x, y, j)
    ensures forall k :: j < k <= i ==> !OpenBelow(c, st, p, x, y, k)
    decreases i
  {
    if i == 0 then 0
    else if OpenBelow(c, st, p, x, y, i) then i
    else FallSearch(c, st, p, x, y, i - 1)
  }

  /** One direction of the lateral-flow scan, from step i up to dist: it stops at the
      first cell outside the grid or occupied by a particle it cannot displace, takes
      the first displaceable one, and steps on over the rest. Returns 0 for no move. */
  function FlowSearch(c: Config, st: SimState, p: Cell, x: int, y: int, dir: int, i: int, dist: int): (j: int)
    requires WellShaped(c, st) && (p.Ref? ==> p.slot < |st.pool|)
    requires i >= 1
    ensures j == 0 || (i <= j <= dist && OpenSide(c, st, p, x, y, dir, j))
    decreases dist - i + 1
  {
    if i > dist then 0
    else
      var nx := x + i * dir;
      var side := GetParticle(c, st, nx, y);
      if !InBounds(c.width, c.height, nx, y) then 0
      else if CanDisplace(c.props, st.pool, p, side) then i
      else if side.Ref? then 0
      else FlowSearch(c, st, p, x, y, dir, i + 1, dist)
  }

  /** As written, the flow scan can never pass its first cell: for a present mover an
      empty cell is always displaceable, so the scan either moves one step or stops.
      flow_distance therefore only matters through being at least 1. */
  lemma FlowOnlyReachesNeighbour(c: Config, st: SimState, p: Cell, x: int, y: int, dir: int, dist: int)
    requires WellShaped(c, st) && p.Ref? && p.slot < |st.pool|
    ensures FlowSearch(c, st, p, x, y, dir, 1, dist)
         == if 1 <= dist && Open(c, st, p, x + dir, y) then 1 else 0
  {
  }

  /** The outcome of one movement rule: stay, fall dy rows straight down, slide to the
      diagonal below at column offset dx, or flow dx columns along the row. */
  datatype Move = Stay | Fall(dy: int) | Slide(dx: int) | Flow(dx: int)

  /** The cell a move leads to from (x, y). */
  function Target(m: Move, x: int, y: int): (int, int)
  {
    match m
    case Stay => (x, y)
    case Fall(dy) => (x, y + dy)
    case Slide(dx) => (x + dx, y + 1)
    case Flow(dx) => (x + dx, y)
  }

  /** The diagonal step shared by both rules: the cell below in direction dir first,
      then the one below in the other direction. */
  function Diagonal(c: Config, st: SimState, p: Cell, x: int, y: int, dir: int): (m: Move)
    requires WellShaped(c, st) && p.Ref? && p.slot < |st.pool|
    requires dir == 1 || dir == -1
    ensures m.Slide? || m.Stay?
    ensures m.Slide? ==> Open(c, st, p, x + m.dx, y + 1)
                         && (m.dx == dir || (m.dx == -dir && !Open(c, st, p, x + dir, y + 1)))
    ensures m.Stay? ==> !Open(c, st, p, x + 1, y + 1) && !Open(c, st, p, x - 1, y + 1)
  {
    if Open(c, st, p, x + dir, y + 1) then Slide(dir)
    else if Open(c, st, p, x - dir, y + 1) then Slide(-dir)
    else Stay
  }

  /** The lateral step of the liquid rule: the scan in direction dir first, then the
      scan in the other direction. As written each scan reaches only the neighbour. */
  function Lateral(c: Config, st: SimState, p: Cell, x: int, y: int, dir: int, dist: int): (m: Move)
    requires WellShaped(c, st) && p.Ref? && p.slot < |st.pool|
    requires dir == 1 || dir == -1
    ensures m.Flow? || m.Stay?
    ensures m.Flow? ==> 1 <= dist && (m.dx == 1 || m.dx == -1) && Open(c, st, p, x + m.dx, y)
                        && (m.dx == dir || (m.dx == -dir && !Open(c, st, p, x + dir, y)))
    ensures m.Stay? && 1 <= dist ==> !Open(c, st, p, x + 1, y) && !Open(c, st, p, x - 1, y)
  {
    FlowOnlyReachesNeighbour(c, st, p, x, y, dir, dist);
    FlowOnlyReachesNeighbour(c, st, p, x, y, -dir, dist);
    var ahead := FlowSearch(c, st, p, x, y, dir, 1, dist);
    if ahead > 0 then Flow(ahead * dir)
    else
      var back := FlowSearch(c, st, p, x, y, -dir, 1, dist);
      if back > 0 then Flow(back * -dir)
      else Stay
  }

  /** The diagonal and lateral choices read only the grid and the pool, never the
      generator state. */
  lemma MovesIgnoreRng(c: Config, st: SimState, rng: bv32, p: Cell, x: int, y: int, dir: int, dist: int)
    requires WellShaped(c, st) && p.Ref? && p.slot < |st.pool|
    requires dir == 1 || dir == -1
    ensures Diagonal(c, st.(rng := rng), p, x, y, dir) == Diagonal(c, st, p, x, y, dir)
    ensures Lateral(c, st.(rng := rng), p, x, y, dir, dist) == Lateral(c, st, p, x, y, dir, dist)
  {
    var st' := st.(rng := rng);
    SameCellsSameOpen(c, st, st', p, x + dir, y + 1);
    SameCellsSameOpen(c, st, st', p, x - dir, y + 1);
    SameCellsSameOpen(c, st, st', p, x + dir, y);
    SameCellsSameOpen(c, st, st', p, x - dir, y);
    FlowOnlyReachesNeighbour(c, st, p, x, y, dir, dist);
    FlowOnlyReachesNeighbour(c, st, p, x, y, -dir, dist);
    FlowOnlyReachesNeighbour(c, st', p, x, y, dir, dist);
    FlowOnlyReachesNeighbour(c, st', p, x, y, -dir, dist);
  }

  /** The choice update_powder makes for mover p at (x, y), and the generator state
      after it: straight down first, then the diagonals in a random order. */
  function PowderMove(c: Config, st: SimState, p: Cell, x: int, y: int, reach: nat): (r: (Move, bv32))
    requires WellShaped(c, st) && p.Ref? && p.slot < |st.pool|
    ensures r.0.Fall? ==> 1 <= r.0.dy <= reach && OpenBelow(c, st, p, x, y, r.0.dy)
                          && (forall k :: r.0.dy < k <= reach ==> !OpenBelow(c, st, p, x, y, k))
                          && r.1 == st.rng
    ensures !r.0.Fall? ==> (forall k :: 1 <= k <= reach ==> !OpenBelow(c, st, p, x, y, k))
                           && r.1 == XorShift(st.rng)
                           && r.0 == Diagonal(c, st, p, x, y, Direction(r.1))
  {
    var fall := FallSearch(c, st, p, x, y, reach);
    if fall > 0 then (Fall(fall), st.rng)
    else
      var rng := XorShift(st.rng);
      (Diagonal(c, st, p, x, y, Direction(rng)), rng)
  }

  /** The choice update_liquid makes: as for powder, then lateral flow in a second
      random direction and then the opposite one. The diagonal cells are tested for
      bounds here; see DiagonalTakenAsWritten for the test as the source writes it. */
  function LiquidMove(c: Config, st: SimState, p: Cell, x: int, y: int, reach: nat, dist: int): (r: (Move, bv32))
    requires WellShaped(c, st) && p.Ref? && p.slot < |st.pool|
    ensures r.0.Fall? ==> 1 <= r.0.dy <= reach && OpenBelow(c, st, p, x, y, r.0.dy)
                          && (forall k :: r.0.dy < k <= reach ==> !OpenBelow(c, st, p, x, y, k))
                          && r.1 == st.rng
    ensures !r.0.Fall? ==> forall k :: 1 <= k <= reach ==> !OpenBelow(c, st, p, x, y, k)
    ensures r.0.Slide? ==> r.1 == XorShift(st.rng) && r.0 == Diagonal(c, st, p, x, y, Direction(r.1))
    ensures r.0.Flow? || r.0.Stay? ==>
              && Diagonal(c, st, p, x, y, Direction(XorShift(st.rng))).Stay?
              && r.1 == XorShift(XorShift(st.rng))
              && r.0 == Lateral(c, st, p, x, y, Direction(r.1), dist)
  {
    var fall := FallSearch(c, st, p, x, y, reach);
    if fall > 0 then (Fall(fall), st.rng)
    else
      var rng := XorShift(st.rng);
      var diag := Diagonal(c, st, p, x, y, Direction(rng));
      if diag.Slide? then (diag, rng)
      else
        var rng2 := XorShift(rng);
        (Lateral(c, st, p, x, y, Direction(rng2), dist), rng2)
  }

  /** Carry out a move: swap the mover with the cell it moves to. */
  function Displace(c: Config, st: SimState, x: int, y: int, m: Move): (r: SimState)
    requires WellShaped(c, st) && InBounds(c.width, c.height, x, y)
    requires !m.Stay? ==> InBounds(c.width, c.height, Target(m, x, y).0, Target(m, x, y).1)
    ensures WellShaped(c, r) && Conserves(st, r) && r.pool == st.pool && r.rng == st.rng
  {
    if m.Stay? then st else Swap(c, st, x, y, Target(m, x, y).0, Target(m, x, y).1)
  }

  /** The velocity a powder particle leaves with: damped when it stays, a sideways
      kick of half a cell after a diagonal slide, unchanged after a fall. */
  function PowderVelocity(a: Particle, m: Move): (q: Particle)
    ensures q.kind == a.kind && q.updated == a.updated
  {
    match m
    case Stay => a.(vy := a.vy * 0.5, vx := a.vx * 0.8)
    case Slide(dx) => a.(vx := dx as real * 0.5)
    case _ => a
  }

  /** The velocity a liquid particle leaves with: damped when it stays, one cell per
      tick sideways after a lateral flow, unchanged after a fall or a slide. */
  function LiquidVelocity(a: Particle, m: Move): (q: Particle)
    ensures q.kind == a.kind && q.updated == a.updated
  {
    match m
    case Stay => a.(vy := a.vy * 0.3, vx := a.vx * 0.9)
    case Flow(dx) => a.(vx := dx as real)
    case _ => a
  }

  /** A swap only touches the grid, so it commutes with writing the pool. */
  lemma SwapCommutes(c: Config, st: SimState, x1: int, y1: int, x2: int, y2: int, pool: seq<Particle>)
    requires WellShaped(c, st) && |pool| == |st.pool|
    requires InBounds(c.width, c.height, x1, y1) && InBounds(c.width, c.height, x2, y2)
    ensures Swap(c, st, x1, y1, x2, y2).(pool := pool) == Swap(c, st.(pool := pool), x1, y1, x2, y2)
  {
  }

  /** update_powder: one step of the powder rule at (x, y). */
  function PowderStep(c: Config, st: SimState, x: int, y: int): (r: SimState)
    requires WellShaped(c, st)
    ensures WellShaped(c, r) && Conserves(st, r)
    ensures forall s :: 0 <= s < |st.pool| ==> r.pool[s].updated == st.pool[s].updated
  {
    var p := GetParticle(c, st, x, y);
    if p.Empty? then st
    else
      var st1 := Accelerated(st, p.slot, PowderMaxFall, PowderMaxSide);
      var a := st1.pool[p.slot];
      var (m, rng) := PowderMove(c, st1, p, x, y, FallReach(a.vy));
      Displace(c, st1.(pool := st1.pool[p.slot := PowderVelocity(a, m)], rng := rng), x, y, m)
  }

  /** update_liquid: one step of the liquid rule at (x, y). */
  function LiquidStep(c: Config, st: SimState, x: int, y: int): (r: SimState)
    requires WellShaped(c, st)
    ensures WellShaped(c, r) && Conserves(st, r)
    ensures forall s :: 0 <= s < |st.pool| ==> r.pool[s].updated == st.pool[s].updated
  {
    var p := GetParticle(c, st, x, y);
    if p.Empty? then st
    else
      var dist := FlowDistance(c.props(st.pool[p.slot].kind).viscosity);
      var st1 := Accelerated(st, p.slot, LiquidMaxFall, LiquidMaxSide);
      var a := st1.pool[p.slot];
      var (m, rng) := LiquidMove(c, st1, p, x, y, FallReach(a.vy), dist);
      Displace(c, st1.(pool := st1.pool[p.slot := LiquidVelocity(a, m)], rng := rng), x, y, m)
  }

  /** A powder step never lifts its particle: it ends in its own cell or in a lower row. */
  lemma PowderNeverRises(c: Config, st: SimState, x: int, y: int)
    requires WellShaped(c, st) && GetParticle(c, st, x, y).Ref?
    ensures exists tx, ty :: (ty > y || (tx == x && ty == y))
                             && GetParticle(c, PowderStep(c, st, x, y), tx, ty) == GetParticle(c, st, x, y)
  {
    var p := GetParticle(c, st, x, y);
    var st1 := Accelerated(st, p.slot, PowderMaxFall, PowderMaxSide);
    var m := PowderMove(c, st1, p, x, y, FallReach(st1.pool[p.slot].vy)).0;
    var (tx, ty) := Target(m, x, y);
    MoverLands(c, st, PowderStep(c, st, x, y), x, y, m);
    assert GetParticle(c, PowderStep(c, st, x, y), tx, ty) == p;
  }

  /** A liquid step never lifts its particle: it ends in its own row or a lower one. */
  lemma LiquidNeverRises(c: Config, st: SimState, x: int, y: int)
    requires WellShaped(c, st) && GetParticle(c, st, x, y).Ref?
    ensures exists tx, ty :: ty >= y && GetParticle(c, LiquidStep(c, st, x, y), tx, ty) == GetParticle(c, st, x, y)
  {
    var p := GetParticle(c, st, x, y);
    var dist := FlowDistance(c.props(st.pool[p.slot].kind).viscosity);
    var st1 := Accelerated(st, p.slot, LiquidMaxFall, LiquidMaxSide);
    var m := LiquidMove(c, st1, p, x, y, FallReach(st1.pool[p.slot].vy), dist).0;
    var (tx, ty) := Target(m, x, y);
    MoverLands(c, st, LiquidStep(c, st, x, y), x, y, m);
    assert GetParticle(c, LiquidStep(c, st, x, y), tx, ty) == p;
  }

  /** After a move the mover's slot is in the target cell. */
  lemma MoverLands(c: Config, st: SimState, r: SimState, x: int, y: int, m: Move)
    requires WellShaped(c, st) && WellShaped(c, r) && InBounds(c.width, c.height, x, y)
    requires !m.Stay? ==> InBounds(c.width, c.height, Target(m, x, y).0, Target(m, x, y).1)
    requires r.grid == Displace(c, st, x, y, m).grid
    ensures GetParticle(c, r, Target(m, x, y).0, Target(m, x, y).1) == GetParticle(c, st, x, y)
  {
    var (tx, ty) := Target(m, x, y);
    var i := GridIndex(c.width, x, y);
    IndexInRange(c.width, c.height, x, y);
    if !m.Stay? {
      var j := GridIndex(c.width, tx, ty);
      IndexInRange(c.width, c.height, tx, ty);
      assert r.grid == st.grid[i := st.grid[j]][j := st.grid[i]];
      assert r.grid[j] == st.grid[i];
    }
  }

  /** The liquid diagonal test as the source writes it, without an in_bounds guard:
      whether swap_particles is called toward (x + dir, y + 1). */
  predicate DiagonalTakenAsWritten(c: Config, st: SimState, p: Cell, x: int, y: int, dir: int)
    requires WellShaped(c, st) && (p.Ref? ==> p.slot < |st.pool|)
  {
    CanDisplace(c.props, st.pool, p, GetParticle(c, st, x + dir, y + 1))
  }

  /** On the bottom row no straight-down cell exists, get_particle returns NULL for the
      diagonal below, and can_displace accepts NULL: the unguarded swap is always
      attempted, with a grid index past the end of the grid, or, at x = 0 going left,
      the index of the opposite end of the same row. */
  lemma UnguardedDiagonalLeavesGrid(c: Config, st: SimState, p: Cell, x: int, dir: int, reach: nat)
    requires WellShaped(c, st) && c.width > 0 && c.height > 0 && p.Ref? && p.slot < |st.pool|
    requires 0 <= x < c.width && (dir == 1 || dir == -1)
    ensures FallSearch(c, st, p, x, c.height - 1, reach) == 0
    ensures DiagonalTakenAsWritten(c, st, p, x, c.height - 1, dir)
    ensures !(x == 0 && dir == -1) ==> GridIndex(c.width, x + dir, c.height) >= Capacity(c)
    ensures x == 0 && dir == -1 ==> GridIndex(c.width, x + dir, c.height) == GridIndex(c.width, c.width - 1, c.height - 1)
  {
  }

  /** Away from the bottom row the unguarded diagonal wraps. When nothing straight
      down is open, the swap is attempted at the grid edges: at the right edge going
      right it reaches column 0 two rows down, and at the left edge going left it
      reaches the far end of the particle's own row. */
  lemma UnguardedDiagonalWraps(c: Config, st: SimState, p: Cell, y: int)
    requires WellShaped(c, st) && c.width > 0 && p.Ref? && p.slot < |st.pool|
    requires 0 <= y < c.height - 1
    ensures DiagonalTakenAsWritten(c, st, p, c.width - 1, y, 1)
    ensures GridIndex(c.width, c.width - 1 + 1, y + 1) == GridIndex(c.width, 0, y + 2)
    ensures DiagonalTakenAsWritten(c, st, p, 0, y, -1)
    ensures GridIndex(c.width, 0 - 1, y + 1) == GridIndex(c.width, c.width - 1, y)
  {
  }

  /** With the guard, every diagonal a liquid takes stays inside the grid, one row down
      and one column across. */
  lemma GuardedDiagonalStaysInside(c: Config, st: SimState, p: Cell, x: int, y: int, reach: nat, dist: int)
    requires WellShaped(c, st) && p.Ref? && p.slot < |st.pool|
    requires LiquidMove(c, st, p, x, y, reach, dist).0.Slide?
    ensures var dx := LiquidMove(c, st, p, x, y, reach, dist).0.dx;
            (dx == 1 || dx == -1) && InBounds(c.width, c.height, x + dx, y + 1)
  {
  }
}
