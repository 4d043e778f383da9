// The circular brushes of src/simulation.c (sim_brush_cirlce and sim_brush_erase):
// spawn or remove at every offset of a disc, in the order the nested loops visit them.

module Brush {
  import opened Particles
  import opened Grid
  import opened Pool

  /** n * n, built up from odd numbers (1 + 3 + ... + (2n - 1)), so that the disc test
      stays linear for the solver; SqIsProduct shows it is the product. */
  function Sq(n: int): nat
    decreases if n < 0 then 1 - n else n
  {
    if n < 0 then Sq(-n) else if n == 0 then 0 else Sq(n - 1) + 2 * n - 1
  }

  /** Sq is the square. */
  lemma {:induction false} SqIsProduct(n: int)
    ensures Sq(n) == n * n
    decreases if n < 0 then 1 - n else n
  {
    if n < 0 {
      SqIsProduct(-n);
    } else if n > 0 {
      SqIsProduct(n - 1);
    }
  }

  /** The test both brush loops make: dx*dx + dy*dy does not exceed r2. */
  predicate Within(r2: int, dx: int, dy: int)
  {
    Sq(dx) + Sq(dy) <= r2
  }

  /** Within is the product test of the source. */
  lemma WithinIsProductTest(r2: int, dx: int, dy: int)
    ensures Within(r2, dx, dy) <==> dx * dx + dy * dy <= r2
  {
    SqIsProduct(dx);
    SqIsProduct(dy);
  }

  /** The disc offsets (dx, dy) the brush loops still visit from row dy, column dx on:
      rows dy .. r, columns -r .. r, keeping those with dx*dx + dy*dy <= r*r. */
  function Sweep(r: int, dy: int, dx: int): seq<(int, int)>
    decreases r - dy + 1, r - dx + 1
  {
    if dy > r then []
    else if dx > r then Sweep(r, dy + 1, -r)
    else if !Within(Sq(r), dx, dy) then Sweep(r, dy, dx + 1)
    else [(dx, dy)] + Sweep(r, dy, dx + 1)
  }

  /** All offsets of a brush of radius r. */
  function Disc(r: int): seq<(int, int)>
  {
    Sweep(r, -r, -r)
  }

  /** The disc of radius r: the square -r .. r by -r .. r, cut by the brush test. */
  predicate InDisc(r: int, dx: int, dy: int)
  {
    -r <= dx <= r && -r <= dy <= r && Within(Sq(r), dx, dy)
  }

  /** An offset is still to be visited from (dy, dx) on exactly when it lies in the disc
      at or after that position in row-major order. */
  lemma {:induction false} SweepMembers(r: int, dy: int, dx: int, a: int, b: int)
    requires -r <= dx && -r <= dy
    ensures (a, b) in Sweep(r, dy, dx)
        <==> InDisc(r, a, b) && (b > dy || (b == dy && a >= dx))
    decreases r - dy + 1, r - dx + 1
  {
    if dy > r {
      assert Sweep(r, dy, dx) == [];
    } else if dx > r {
      assert Sweep(r, dy, dx) == Sweep(r, dy + 1, -r);
      SweepMembers(r, dy + 1, -r, a, b);
    } else {
      SweepMembers(r, dy, dx + 1, a, b);
      var rest := Sweep(r, dy, dx + 1);
      var here := Within(Sq(r), dx, dy);
      assert Sweep(r, dy, dx) == if here then [(dx, dy)] + rest else rest;
      if (a, b) == (dx, dy) {
        assert InDisc(r, a, b) == here;
      } else {
        assert (a, b) in Sweep(r, dy, dx) <==> (a, b) in rest;
      }
    }
  }

  /** The brush covers exactly the disc: -r <= dx, dy <= r and dx*dx + dy*dy <= r*r. */
  lemma DiscMembers(r: int, dx: int, dy: int)
    ensures (dx, dy) in Disc(r) <==> InDisc(r, dx, dy)
  {
    SweepMembers(r, -r, -r, dx, dy);
  }

  /** A column of the brush loops inside the disc: the sweep visits it first. */
  lemma SweepTake(r: int, dy: int, dx: int)
    requires dy <= r && dx <= r && Within(Sq(r), dx, dy)
    ensures var s := Sweep(r, dy, dx); s != [] && s[0] == (dx, dy) && s[1..] == Sweep(r, dy, dx + 1)
  {
    var rest := Sweep(r, dy, dx + 1);
    assert Sweep(r, dy, dx) == [(dx, dy)] + rest;
    assert ([(dx, dy)] + rest)[1..] == rest;
  }

  /** sim_brush_cirlce: sim_spawn_particles at every disc offset around (cx, cy). */
  function PaintAll(c: Config, st: SimState, cx: int, cy: int, offs: seq<(int, int)>, t: ParticleType): (r: SimState)
    requires Invariant(c, st)
    ensures Invariant(c, r)
    decreases |offs|
  {
    if offs == [] then st
    else PaintAll(c, Spawn(c, st, cx + offs[0].0, cy + offs[0].1, t), cx, cy, offs[1..], t)
  }

  /** sim_brush_erase: sim_remove_particle at every disc offset around (cx, cy). */
  function EraseAll(c: Config, st: SimState, cx: int, cy: int, offs: seq<(int, int)>): (r: SimState)
    requires Invariant(c, st)
    ensures Invariant(c, r)
    decreases |offs|
  {
    if offs == [] then st
    else EraseAll(c, Remove(c, st, cx + offs[0].0, cy + offs[0].1), cx, cy, offs[1..])
  }

  /** The nested loops of both brushes from row dy, column dx on: rows dy .. r, columns
      -r .. r, applying step at each offset inside the disc. */
  function Loops<S>(step: (S, (int, int)) -> S, s: S, r: int, dy: int, dx: int): S
    decreases r - dy + 1, r - dx + 1
  {
    if dy > r then s
    else if dx > r then Loops(step, s, r, dy + 1, -r)
    else Loops(step, if Within(Sq(r), dx, dy) then step(s, (dx, dy)) else s, r, dy, dx + 1)
  }

  /** step applied at each offset of offs, first to last. */
  function Along<S>(step: (S, (int, int)) -> S, s: S, offs: seq<(int, int)>): S
    decreases |offs|
  {
    if offs == [] then s else Along(step, step(s, offs[0]), offs[1..])
  }

  /** A property every step keeps holds after any run of steps. */
  lemma {:induction false} AlongKeeps<S>(step: (S, (int, int)) -> S, P: S -> bool, s: S, offs: seq<(int, int)>)
    requires P(s)
    requires forall s', o :: P(s') ==> P(step(s', o))
    ensures P(Along(step, s, offs))
    decreases |offs|
  {
    if offs != [] {
      AlongKeeps(step, P, step(s, offs[0]), offs[1..]);
    }
  }

  /** A property every step at an offset other than q keeps holds after a run of steps
      that never visits q. */
  lemma {:induction false} AlongKeepsAway<S>(step: (S, (int, int)) -> S, P: S -> bool, s: S, offs: seq<(int, int)>, q: (int, int))
    requires P(s) && q !in offs
    requires forall s', o :: P(s') && o != q ==> P(step(s', o))
    ensures P(Along(step, s, offs))
    decreases |offs|
  {
    if offs != [] {
      AlongKeepsAway(step, P, step(s, offs[0]), offs[1..], q);
    }
  }

  /** When a step at q establishes B at q and every step keeps B at q (both under an
      invariant I that every step keeps), a run that visits q ends with B at q. */
  lemma {:induction false} AlongReaches<S>(step: (S, (int, int)) -> S, I: S -> bool, B: S -> bool, s: S, offs: seq<(int, int)>, q: (int, int))
    requires I(s) && q in offs
    requires forall s', o :: I(s') ==> I(step(s', o))
    requires forall s' :: I(s') ==> B(step(s', q))
    requires forall s', o :: I(s') && B(s') ==> B(step(s', o))
    ensures B(Along(step, s, offs))
    decreases |offs|
  {
    if offs[0] == q {
      AlongKeeps(step, s' => I(s') && B(s'), step(s, q), offs[1..]);
    } else {
      assert q in offs[1..];
      AlongReaches(step, I, B, step(s, offs[0]), offs[1..], q);
    }
  }

  /** A run of steps none of which changes s leaves s as it was. */
  lemma {:induction false} AlongFixed<S>(step: (S, (int, int)) -> S, s: S, offs: seq<(int, int)>)
    requires forall o :: o in offs ==> step(s, o) == s
    ensures Along(step, s, offs) == s
    decreases |offs|
  {
    if offs != [] {
      assert step(s, offs[0]) == s;
      AlongFixed(step, s, offs[1..]);
    }
  }

  /** The loops visit exactly the offsets Sweep lists, in its order. */
  lemma {:induction false} LoopsVisitSweep<S>(step: (S, (int, int)) -> S, s: S, r: int, dy: int, dx: int)
    ensures Loops(step, s, r, dy, dx) == Along(step, s, Sweep(r, dy, dx))
    decreases r - dy + 1, r - dx + 1
  {
    if dy > r {
      assert Sweep(r, dy, dx) == [];
    } else if dx > r {
      assert Sweep(r, dy, dx) == Sweep(r, dy + 1, -r);
      LoopsVisitSweep(step, s, r, dy + 1, -r);
    } else if Within(Sq(r), dx, dy) {
      SweepTake(r, dy, dx);
      LoopsVisitSweep(step, step(s, (dx, dy)), r, dy, dx + 1);
    } else {
      assert Sweep(r, dy, dx) == Sweep(r, dy, dx + 1);
      LoopsVisitSweep(step, s, r, dy, dx + 1);
    }
  }

  /** The body of the painting loops: sim_spawn_particles at (cx, cy) plus the offset. */
  ghost function SpawnStep(c: Config, cx: int, cy: int, t: ParticleType): (SimState, (int, int)) -> SimState
  {
    (st: SimState, o: (int, int)) => if Invariant(c, st) then Spawn(c, st, cx + o.0, cy + o.1, t) else st
  }

  /** The body of the erasing loops: sim_remove_particle at (cx, cy) plus the offset. */
  ghost function RemoveStep(c: Config, cx: int, cy: int): (SimState, (int, int)) -> SimState
  {
    (st: SimState, o: (int, int)) => if Invariant(c, st) then Remove(c, st, cx + o.0, cy + o.1) else st
  }

  /** PaintAll is the run of painting steps along the offsets. */
  lemma {:induction false} PaintAllAlong(c: Config, st: SimState, cx: int, cy: int, offs: seq<(int, int)>, t: ParticleType)
    requires Invariant(c, st)
    ensures PaintAll(c, st, cx, cy, offs, t) == Along(SpawnStep(c, cx, cy, t), st, offs)
    decreases |offs|
  {
    if offs != [] {
      PaintAllAlong(c, Spawn(c, st, cx + offs[0].0, cy + offs[0].1, t), cx, cy, offs[1..], t);
    }
  }

  /** EraseAll is the run of erasing steps along the offsets. */
  lemma {:induction false} EraseAllAlong(c: Config, st: SimState, cx: int, cy: int, offs: seq<(int, int)>)
    requires Invariant(c, st)
    ensures EraseAll(c, st, cx, cy, offs) == Along(RemoveStep(c, cx, cy), st, offs)
    decreases |offs|
  {
    if offs != [] {
      EraseAllAlong(c, Remove(c, st, cx + offs[0].0, cy + offs[0].1), cx, cy, offs[1..]);
    }
  }

  /** One pass of the inner painting loop: spawn at the offset when it lies in the disc. */
  lemma PaintLoopsStep(c: Config, st: SimState, cx: int, cy: int, r: int, dy: int, dx: int, t: ParticleType)
    requires Invariant(c, st) && dy <= r && dx <= r
    ensures Loops(SpawnStep(c, cx, cy, t), st, r, dy, dx)
            == Loops(SpawnStep(c, cx, cy, t), if Within(Sq(r), dx, dy) then Spawn(c, st, cx + dx, cy + dy, t) else st, r, dy, dx + 1)
  {
  }

  /** One pass of the inner erasing loop: remove at the offset when it lies in the disc. */
  lemma EraseLoopsStep(c: Config, st: SimState, cx: int, cy: int, r: int, dy: int, dx: int)
    requires Invariant(c, st) && dy <= r && dx <= r
    ensures Loops(RemoveStep(c, cx, cy), st, r, dy, dx)
            == Loops(RemoveStep(c, cx, cy), if Within(Sq(r), dx, dy) then Remove(c, st, cx + dx, cy + dy) else st, r, dy, dx + 1)
  {
  }

  /** Running the loops of sim_brush_cirlce from the first row and column paints the
      whole disc. */
  lemma PaintLoopsPaintDisc(c: Config, st: SimState, cx: int, cy: int, r: int, t: ParticleType)
    requires Invariant(c, st)
    ensures Loops(SpawnStep(c, cx, cy, t), st, r, -r, -r) == PaintAll(c, st, cx, cy, Disc(r), t)
  {
    LoopsVisitSweep(SpawnStep(c, cx, cy, t), st, r, -r, -r);
    PaintAllAlong(c, st, cx, cy, Disc(r), t);
  }

  /** Running the loops of sim_brush_erase from the first row and column erases the
      whole disc. */
  lemma EraseLoopsEraseDisc(c: Config, st: SimState, cx: int, cy: int, r: int)
    requires Invariant(c, st)
    ensures Loops(RemoveStep(c, cx, cy), st, r, -r, -r) == EraseAll(c, st, cx, cy, Disc(r))
  {
    LoopsVisitSweep(RemoveStep(c, cx, cy), st, r, -r, -r);
    EraseAllAlong(c, st, cx, cy, Disc(r));
  }

  /** A cell that needs no spawn: outside the grid, already occupied, or no slot left. */
  predicate Blocked(c: Config, st: SimState, x: int, y: int)
    requires WellShaped(c, st)
  {
    !InBounds(c.width, c.height, x, y) || GetParticle(c, st, x, y).Ref? || st.freeCount == 0
  }

  /** A spawn blocks its own cell. */
  lemma SpawnBlocks(c: Config, st: SimState, x: int, y: int, t: ParticleType)
    requires Invariant(c, st)
    ensures Blocked(c, Spawn(c, st, x, y, t), x, y)
  {
    if SpawnOk(c, st, x, y) {
      IndexInRange(c.width, c.height, x, y);
    }
  }

  /** Spawning keeps every blocked cell blocked. */
  lemma SpawnKeepsBlocked(c: Config, st: SimState, x: int, y: int, t: ParticleType, x': int, y': int)
    requires Invariant(c, st) && Blocked(c, st, x', y')
    ensures Blocked(c, Spawn(c, st, x, y, t), x', y')
  {
    var r := Spawn(c, st, x, y, t);
    if SpawnOk(c, st, x, y) && InBounds(c.width, c.height, x', y') && GetParticle(c, st, x', y').Ref? {
      IndexInRange(c.width, c.height, x, y);
      IndexInRange(c.width, c.height, x', y');
      if GridIndex(c.width, x, y) == GridIndex(c.width, x', y') {
        IndexInjective(c.width, x, y, x', y');
      }
    }
  }

  /** Spawning at a blocked cell changes nothing. */
  lemma SpawnBlockedIsNoOp(c: Config, st: SimState, x: int, y: int, t: ParticleType)
    requires Invariant(c, st) && Blocked(c, st, x, y)
    ensures Spawn(c, st, x, y, t) == st
  {
  }

  /** Removing empties its own cell. */
  lemma RemoveClears(c: Config, st: SimState, x: int, y: int)
    requires Invariant(c, st)
    ensures GetParticle(c, Remove(c, st, x, y), x, y).Empty?
  {
    if GetParticle(c, st, x, y).Ref? {
      IndexInRange(c.width, c.height, x, y);
    }
  }

  /** Removing never fills a cell. */
  lemma RemoveKeepsEmpty(c: Config, st: SimState, x: int, y: int, x': int, y': int)
    requires Invariant(c, st) && GetParticle(c, st, x', y').Empty?
    ensures GetParticle(c, Remove(c, st, x, y), x', y').Empty?
  {
    if GetParticle(c, st, x, y).Ref? && InBounds(c.width, c.height, x', y') {
      IndexInRange(c.width, c.height, x, y);
      IndexInRange(c.width, c.height, x', y');
    }
  }

  /** A painting step at the offset of (x, y) on a valid state spawns at (x, y). */
  lemma SpawnStepAt(c: Config, cx: int, cy: int, t: ParticleType, s: SimState, x: int, y: int)
    requires Invariant(c, s)
    ensures SpawnStep(c, cx, cy, t)(s, (x - cx, y - cy)) == Spawn(c, s, x, y, t)
  {
    assert cx + (x - cx) == x && cy + (y - cy) == y;
  }

  /** An erasing step at the offset of (x, y) on a valid state removes at (x, y). */
  lemma RemoveStepAt(c: Config, cx: int, cy: int, s: SimState, x: int, y: int)
    requires Invariant(c, s)
    ensures RemoveStep(c, cx, cy)(s, (x - cx, y - cy)) == Remove(c, s, x, y)
  {
    assert cx + (x - cx) == x && cy + (y - cy) == y;
  }

  /** The pool invariant, as a predicate on states. */
  ghost function Consistent(c: Config): SimState -> bool
  {
    (s: SimState) => Invariant(c, s)
  }

  /** A valid state in which (x, y) is blocked, as a predicate on states. */
  ghost function BlockedAt(c: Config, x: int, y: int): SimState -> bool
  {
    (s: SimState) => Invariant(c, s) && Blocked(c, s, x, y)
  }

  /** A valid state that holds v at (x, y), as a predicate on states. */
  ghost function CellIs(c: Config, x: int, y: int, v: Cell): SimState -> bool
  {
    (s: SimState) => Invariant(c, s) && GetParticle(c, s, x, y) == v
  }

  /** A valid state in which (x, y) is empty, as a predicate on states. */
  ghost function EmptyAt(c: Config, x: int, y: int): SimState -> bool
  {
    (s: SimState) => Invariant(c, s) && GetParticle(c, s, x, y).Empty?
  }

  /** A step of the painting loops on a valid state is a spawn. */
  lemma SpawnStepSpawns(c: Config, cx: int, cy: int, t: ParticleType, s: SimState, o: (int, int))
    requires Invariant(c, s)
    ensures SpawnStep(c, cx, cy, t)(s, o) == Spawn(c, s, cx + o.0, cy + o.1, t)
  {
  }

  /** A step of the erasing loops on a valid state is a removal. */
  lemma RemoveStepRemoves(c: Config, cx: int, cy: int, s: SimState, o: (int, int))
    requires Invariant(c, s)
    ensures RemoveStep(c, cx, cy)(s, o) == Remove(c, s, cx + o.0, cy + o.1)
  {
  }

  /** Every painting step keeps the pool invariant. */
  lemma SpawnStepKeepsInvariant(c: Config, cx: int, cy: int, t: ParticleType)
    ensures forall s, o :: Consistent(c)(s) ==> Consistent(c)(SpawnStep(c, cx, cy, t)(s, o))
  {
    forall s, o | Consistent(c)(s)
      ensures Consistent(c)(SpawnStep(c, cx, cy, t)(s, o))
    {
      SpawnStepSpawns(c, cx, cy, t, s, o);
    }
  }

  /** A painting step at the offset of (x, y) leaves (x, y) blocked. */
  lemma SpawnStepBlocks(c: Config, cx: int, cy: int, t: ParticleType, x: int, y: int)
    ensures forall s :: Consistent(c)(s) ==> BlockedAt(c, x, y)(SpawnStep(c, cx, cy, t)(s, (x - cx, y - cy)))
  {
    forall s | Consistent(c)(s)
      ensures BlockedAt(c, x, y)(SpawnStep(c, cx, cy, t)(s, (x - cx, y - cy)))
    {
      SpawnStepAt(c, cx, cy, t, s, x, y);
      SpawnBlocks(c, s, x, y, t);
    }
  }

  /** Every painting step keeps (x, y) blocked once it is. */
  lemma SpawnStepKeepsBlocked(c: Config, cx: int, cy: int, t: ParticleType, x: int, y: int)
    ensures forall s, o :: Consistent(c)(s) && BlockedAt(c, x, y)(s) ==> BlockedAt(c, x, y)(SpawnStep(c, cx, cy, t)(s, o))
  {
    forall s, o | Consistent(c)(s) && BlockedAt(c, x, y)(s)
      ensures BlockedAt(c, x, y)(SpawnStep(c, cx, cy, t)(s, o))
    {
      SpawnStepSpawns(c, cx, cy, t, s, o);
      SpawnKeepsBlocked(c, s, cx + o.0, cy + o.1, t, x, y);
    }
  }

  /** A painting step at any offset but that of (x, y) leaves (x, y) as it was. */
  lemma SpawnStepLeavesOthers(c: Config, cx: int, cy: int, t: ParticleType, x: int, y: int, v: Cell)
    ensures forall s, o :: CellIs(c, x, y, v)(s) && o != (x - cx, y - cy) ==> CellIs(c, x, y, v)(SpawnStep(c, cx, cy, t)(s, o))
  {
    forall s, o | CellIs(c, x, y, v)(s) && o != (x - cx, y - cy)
      ensures CellIs(c, x, y, v)(SpawnStep(c, cx, cy, t)(s, o))
    {
      SpawnStepLeavesCell(c, cx, cy, t, x, y, s, o);
    }
  }

  /** SpawnStepLeavesOthers at one state and one offset. */
  lemma SpawnStepLeavesCell(c: Config, cx: int, cy: int, t: ParticleType, x: int, y: int, s: SimState, o: (int, int))
    requires Invariant(c, s) && o != (x - cx, y - cy)
    ensures var s' := SpawnStep(c, cx, cy, t)(s, o);
            Invariant(c, s') && GetParticle(c, s', x, y) == GetParticle(c, s, x, y)
  {
    SpawnStepSpawns(c, cx, cy, t, s, o);
    SpawnLeavesOthers(c, s, cx + o.0, cy + o.1, t, x, y);
  }

  /** Every erasing step keeps the pool invariant. */
  lemma RemoveStepKeepsInvariant(c: Config, cx: int, cy: int)
    ensures forall s, o :: Consistent(c)(s) ==> Consistent(c)(RemoveStep(c, cx, cy)(s, o))
  {
    forall s, o | Consistent(c)(s)
      ensures Consistent(c)(RemoveStep(c, cx, cy)(s, o))
    {
      RemoveStepRemoves(c, cx, cy, s, o);
    }
  }

  /** An erasing step at the offset of (x, y) leaves (x, y) empty. */
  lemma RemoveStepClears(c: Config, cx: int, cy: int, x: int, y: int)
    ensures forall s :: Consistent(c)(s) ==> EmptyAt(c, x, y)(RemoveStep(c, cx, cy)(s, (x - cx, y - cy)))
  {
    forall s | Consistent(c)(s)
      ensures EmptyAt(c, x, y)(RemoveStep(c, cx, cy)(s, (x - cx, y - cy)))
    {
      RemoveStepAt(c, cx, cy, s, x, y);
      RemoveClears(c, s, x, y);
    }
  }

  /** Every erasing step keeps (x, y) empty once it is. */
  lemma RemoveStepKeepsEmpty(c: Config, cx: int, cy: int, x: int, y: int)
    ensures forall s, o :: Consistent(c)(s) && EmptyAt(c, x, y)(s) ==> EmptyAt(c, x, y)(RemoveStep(c, cx, cy)(s, o))
  {
    forall s, o | Consistent(c)(s) && EmptyAt(c, x, y)(s)
      ensures EmptyAt(c, x, y)(RemoveStep(c, cx, cy)(s, o))
    {
      RemoveStepRemoves(c, cx, cy, s, o);
      RemoveKeepsEmpty(c, s, cx + o.0, cy + o.1, x, y);
    }
  }

  /** An erasing step at any offset but that of (x, y) leaves (x, y) as it was. */
  lemma RemoveStepLeavesOthers(c: Config, cx: int, cy: int, x: int, y: int, v: Cell)
    ensures forall s, o :: CellIs(c, x, y, v)(s) && o != (x - cx, y - cy) ==> CellIs(c, x, y, v)(RemoveStep(c, cx, cy)(s, o))
  {
    forall s, o | CellIs(c, x, y, v)(s) && o != (x - cx, y - cy)
      ensures CellIs(c, x, y, v)(RemoveStep(c, cx, cy)(s, o))
    {
      RemoveStepLeavesCell(c, cx, cy, x, y, s, o);
    }
  }

  /** RemoveStepLeavesOthers at one state and one offset. */
  lemma RemoveStepLeavesCell(c: Config, cx: int, cy: int, x: int, y: int, s: SimState, o: (int, int))
    requires Invariant(c, s) && o != (x - cx, y - cy)
    ensures var s' := RemoveStep(c, cx, cy)(s, o);
            Invariant(c, s') && GetParticle(c, s', x, y) == GetParticle(c, s, x, y)
  {
    RemoveStepRemoves(c, cx, cy, s, o);
    RemoveLeavesOthers(c, s, cx + o.0, cy + o.1, x, y);
  }

  /** After painting, the cell at every painted offset is blocked: occupied, outside the
      grid, or the pool ran out of slots. */
  lemma PaintFillsAt(c: Config, st: SimState, cx: int, cy: int, offs: seq<(int, int)>, t: ParticleType, x: int, y: int)
    requires Invariant(c, st) && (x - cx, y - cy) in offs
    ensures Blocked(c, PaintAll(c, st, cx, cy, offs, t), x, y)
  {
    SpawnStepKeepsInvariant(c, cx, cy, t);
    SpawnStepBlocks(c, cx, cy, t, x, y);
    SpawnStepKeepsBlocked(c, cx, cy, t, x, y);
    AlongReaches(SpawnStep(c, cx, cy, t), Consistent(c), BlockedAt(c, x, y), st, offs, (x - cx, y - cy));
    PaintAllAlong(c, st, cx, cy, offs, t);
  }

  /** Painting keeps every blocked cell blocked. */
  lemma PaintKeepsBlocked(c: Config, st: SimState, cx: int, cy: int, offs: seq<(int, int)>, t: ParticleType, x: int, y: int)
    requires Invariant(c, st) && Blocked(c, st, x, y)
    ensures Blocked(c, PaintAll(c, st, cx, cy, offs, t), x, y)
  {
    SpawnStepKeepsBlocked(c, cx, cy, t, x, y);
    AlongKeeps(SpawnStep(c, cx, cy, t), BlockedAt(c, x, y), st, offs);
    PaintAllAlong(c, st, cx, cy, offs, t);
  }

  /** Painting leaves every cell outside the disc as it was. */
  lemma PaintLeavesOutside(c: Config, st: SimState, cx: int, cy: int, offs: seq<(int, int)>, t: ParticleType, x: int, y: int)
    requires Invariant(c, st) && (x - cx, y - cy) !in offs
    ensures GetParticle(c, PaintAll(c, st, cx, cy, offs, t), x, y) == GetParticle(c, st, x, y)
  {
    SpawnStepLeavesOthers(c, cx, cy, t, x, y, GetParticle(c, st, x, y));
    AlongKeepsAway(SpawnStep(c, cx, cy, t), CellIs(c, x, y, GetParticle(c, st, x, y)), st, offs, (x - cx, y - cy));
    PaintAllAlong(c, st, cx, cy, offs, t);
  }

  /** After painting, a further step at any painted offset changes nothing. */
  lemma PaintedStepIsNoOp(c: Config, st: SimState, cx: int, cy: int, offs: seq<(int, int)>, t: ParticleType, o: (int, int))
    requires Invariant(c, st) && o in offs
    ensures var once := PaintAll(c, st, cx, cy, offs, t);
            SpawnStep(c, cx, cy, t)(once, o) == once
  {
    var once := PaintAll(c, st, cx, cy, offs, t);
    var x, y := cx + o.0, cy + o.1;
    assert (x - cx, y - cy) == o;
    PaintFillsAt(c, st, cx, cy, offs, t, x, y);
    SpawnStepSpawns(c, cx, cy, t, once, o);
    SpawnBlockedIsNoOp(c, once, x, y, t);
  }

  /** Painting the same disc twice is the same as painting it once. */
  lemma PaintIdempotent(c: Config, st: SimState, cx: int, cy: int, radius: int, t: ParticleType)
    requires Invariant(c, st)
    ensures var once := PaintAll(c, st, cx, cy, Disc(radius), t);
            PaintAll(c, once, cx, cy, Disc(radius), t) == once
  {
    var once := PaintAll(c, st, cx, cy, Disc(radius), t);
    forall o | o in Disc(radius)
      ensures SpawnStep(c, cx, cy, t)(once, o) == once
    {
      PaintedStepIsNoOp(c, st, cx, cy, Disc(radius), t, o);
    }
    AlongFixed(SpawnStep(c, cx, cy, t), once, Disc(radius));
    PaintAllAlong(c, once, cx, cy, Disc(radius), t);
  }

  /** After erasing, every erased cell is empty. */
  lemma EraseClears(c: Config, st: SimState, cx: int, cy: int, offs: seq<(int, int)>, x: int, y: int)
    requires Invariant(c, st) && (x - cx, y - cy) in offs
    ensures GetParticle(c, EraseAll(c, st, cx, cy, offs), x, y).Empty?
  {
    RemoveStepKeepsInvariant(c, cx, cy);
    RemoveStepClears(c, cx, cy, x, y);
    RemoveStepKeepsEmpty(c, cx, cy, x, y);
    AlongReaches(RemoveStep(c, cx, cy), Consistent(c), EmptyAt(c, x, y), st, offs, (x - cx, y - cy));
    EraseAllAlong(c, st, cx, cy, offs);
  }

  /** Erasing leaves every cell at no listed offset as it was. */
  lemma EraseLeavesOutside(c: Config, st: SimState, cx: int, cy: int, offs: seq<(int, int)>, x: int, y: int)
    requires Invariant(c, st) && (x - cx, y - cy) !in offs
    ensures GetParticle(c, EraseAll(c, st, cx, cy, offs), x, y) == GetParticle(c, st, x, y)
  {
    RemoveStepLeavesOthers(c, cx, cy, x, y, GetParticle(c, st, x, y));
    AlongKeepsAway(RemoveStep(c, cx, cy), CellIs(c, x, y, GetParticle(c, st, x, y)), st, offs, (x - cx, y - cy));
    EraseAllAlong(c, st, cx, cy, offs);
  }

  /** The erase brush empties exactly the disc around (cx, cy) and leaves every other
      cell as it was. */
  lemma EraseBrushEffect(c: Config, st: SimState, cx: int, cy: int, radius: int, x: int, y: int)
    requires Invariant(c, st)
    ensures InDisc(radius, x - cx, y - cy) ==> GetParticle(c, EraseAll(c, st, cx, cy, Disc(radius)), x, y).Empty?
    ensures !InDisc(radius, x - cx, y - cy)
            ==> GetParticle(c, EraseAll(c, st, cx, cy, Disc(radius)), x, y) == GetParticle(c, st, x, y)
  {
    DiscMembers(radius, x - cx, y - cy);
    if InDisc(radius, x - cx, y - cy) {
      EraseClears(c, st, cx, cy, Disc(radius), x, y);
    } else {
      EraseLeavesOutside(c, st, cx, cy, Disc(radius), x, y);
    }
  }

  /** The paint brush leaves every cell outside the disc as it was, and inside the disc
      every cell is occupied unless the pool ran out of slots. */
  lemma PaintBrushEffect(c: Config, st: SimState, cx: int, cy: int, radius: int, t: ParticleType, x: int, y: int)
    requires Invariant(c, st)
    ensures var r := PaintAll(c, st, cx, cy, Disc(radius), t);
            InDisc(radius, x - cx, y - cy) && InBounds(c.width, c.height, x, y)
            ==> GetParticle(c, r, x, y).Ref? || r.freeCount == 0
    ensures !InDisc(radius, x - cx, y - cy)
            ==> GetParticle(c, PaintAll(c, st, cx, cy, Disc(radius), t), x, y) == GetParticle(c, st, x, y)
  {
    DiscMembers(radius, x - cx, y - cy);
    if InDisc(radius, x - cx, y - cy) {
      PaintFillsAt(c, st, cx, cy, Disc(radius), t, x, y);
    } else {
      PaintLeavesOutside(c, st, cx, cy, Disc(radius), t, x, y);
    }
  }

  /** The cell of grid index i: column i % w of row i / w. */
  lemma CellOfIndex(w: nat, h: nat, i: int)
    requires 0 <= i < w * h
    ensures w > 0 && InBounds(w, h, i % w, i / w) && GridIndex(w, i % w, i / w) == i
  {
    assert w > 0;
  }

  /** Painting and then erasing the same disc returns a cell to what it was, when every
      cell of the disc was empty to begin with. */
  lemma PaintThenEraseCell(c: Config, st: SimState, cx: int, cy: int, radius: int, t: ParticleType, i: int)
    requires Invariant(c, st) && 0 <= i < |st.grid|
    requires forall dx, dy :: InDisc(radius, dx, dy) ==> GetParticle(c, st, cx + dx, cy + dy).Empty?
    ensures var p := PaintAll(c, st, cx, cy, Disc(radius), t);
            EraseAll(c, p, cx, cy, Disc(radius)).grid[i] == st.grid[i]
  {
    var p := PaintAll(c, st, cx, cy, Disc(radius), t);
    var r := EraseAll(c, p, cx, cy, Disc(radius));
    var w := c.width;
    CellOfIndex(w, c.height, i);
    var x, y := i % w, i / w;
    PaintBrushEffect(c, st, cx, cy, radius, t, x, y);
    EraseBrushEffect(c, p, cx, cy, radius, x, y);
    if InDisc(radius, x - cx, y - cy) {
      assert GetParticle(c, st, cx + (x - cx), cy + (y - cy)).Empty?;
    }
    assert GetParticle(c, r, x, y) == r.grid[i] && GetParticle(c, st, x, y) == st.grid[i];
  }

  /** Erasing after painting over a disc that was empty restores the grid and
      free_count. */
  lemma PaintThenEraseRestores(c: Config, st: SimState, cx: int, cy: int, radius: int, t: ParticleType)
    requires Invariant(c, st)
    requires forall dx, dy :: InDisc(radius, dx, dy) ==> GetParticle(c, st, cx + dx, cy + dy).Empty?
    ensures var r := EraseAll(c, PaintAll(c, st, cx, cy, Disc(radius), t), cx, cy, Disc(radius));
            r.grid == st.grid && r.freeCount == st.freeCount
  {
    var r := EraseAll(c, PaintAll(c, st, cx, cy, Disc(radius), t), cx, cy, Disc(radius));
    forall i | 0 <= i < |st.grid|
      ensures r.grid[i] == st.grid[i]
    {
      PaintThenEraseCell(c, st, cx, cy, radius, t, i);
    }
    assert r.grid == st.grid;
    CountBalance(r.grid, FreeStack(r), Capacity(c));
    CountBalance(st.grid, FreeStack(st), Capacity(c));
  }
}
