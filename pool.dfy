// The cell pool and grid of src/simulation.c as values: a snapshot of the simulation
// state, the pool invariant over it, and the grid and pool primitives (get_particle,
// set_particle, swap_particles, sim_spawn_particles, sim_remove_particle, sim_init).

module Pool {
  import opened Particles
  import opened Grid

  /** The fixed parameters of a simulation: the grid size and the property table. */
  datatype Config = Config(width: nat, height: nat, props: Registry)

  predicate ConfigOk(c: Config)
  {
    c.width > 0 && c.height > 0 && WellFormedRegistry(c.props)
  }

  /** Number of cells, and of pool slots. */
  function Capacity(c: Config): nat
  {
    c.width * c.height
  }

  /** Everything the engine keeps in its Simulation struct, as one value. */
  datatype SimState = SimState(
    grid: seq<Cell>,
    pool: seq<Particle>,
    freeList: seq<nat>,
    freeCount: nat,
    rng: bv32,
    tick: nat)

  /** The array sizes, and every stored slot index is a valid pool index. */
  predicate WellShaped(c: Config, st: SimState)
  {
    && |st.grid| == Capacity(c)
    && |st.pool| == Capacity(c)
    && |st.freeList| == Capacity(c)
    && st.freeCount <= Capacity(c)
    && CellsInRange(st.grid, Capacity(c))
    && forall k :: 0 <= k < st.freeCount ==> st.freeList[k] < Capacity(c)
  }

  /** The live part of the free list, bottom to top. */
  function FreeStack(st: SimState): seq<nat>
    requires st.freeCount <= |st.freeList|
  {
    st.freeList[..st.freeCount]
  }

  /** The class invariant of the simulation: the shape, and the pool invariant. */
  ghost predicate Invariant(c: Config, st: SimState)
  {
    WellShaped(c, st) && PoolInvariant(st.grid, FreeStack(st), Capacity(c))
  }

  /** What a movement step keeps: no slot is allocated or freed, and every particle
      keeps its type. */
  ghost predicate Conserves(st: SimState, r: SimState)
  {
    && r.freeList == st.freeList
    && r.freeCount == st.freeCount
    && r.tick == st.tick
    && |r.grid| == |st.grid|
    && |r.pool| == |st.pool|
    && RefSlots(r.grid) == RefSlots(st.grid)
    && forall s :: 0 <= s < |st.pool| ==> r.pool[s].kind == st.pool[s].kind
  }

  lemma ConservesInvariant(c: Config, st: SimState, r: SimState)
    requires Invariant(c, st) && WellShaped(c, r) && Conserves(st, r)
    ensures Invariant(c, r)
  {
  }

  /** get_particle: the occupant of (x, y), or empty outside the grid. */
  function GetParticle(c: Config, st: SimState, x: int, y: int): (r: Cell)
    requires WellShaped(c, st)
    ensures r.Ref? ==> InBounds(c.width, c.height, x, y) && r.slot < |st.pool|
  {
    if !InBounds(c.width, c.height, x, y) then Empty
    else
      IndexInRange(c.width, c.height, x, y);
      st.grid[GridIndex(c.width, x, y)]
  }

  /** set_particle: overwrite the cell at (x, y); nothing happens outside the grid. */
  function SetCell(c: Config, st: SimState, x: int, y: int, cell: Cell): (r: SimState)
    requires |st.grid| == Capacity(c)
    ensures |r.grid| == |st.grid|
  {
    if !InBounds(c.width, c.height, x, y) then st
    else
      IndexInRange(c.width, c.height, x, y);
      st.(grid := st.grid[GridIndex(c.width, x, y) := cell])
  }

  /** swap_particles: exchange the occupants of two in-bounds cells. */
  function Swap(c: Config, st: SimState, x1: int, y1: int, x2: int, y2: int): (r: SimState)
    requires WellShaped(c, st)
    requires InBounds(c.width, c.height, x1, y1) && InBounds(c.width, c.height, x2, y2)
    ensures WellShaped(c, r) && Conserves(st, r)
    ensures r.pool == st.pool && r.rng == st.rng
  {
    var i, j := GridIndex(c.width, x1, y1), GridIndex(c.width, x2, y2);
    IndexInRange(c.width, c.height, x1, y1);
    IndexInRange(c.width, c.height, x2, y2);
    SwapKeepsRefs(st.grid, i, j);
    st.(grid := st.grid[i := st.grid[j]][j := st.grid[i]])
  }

  /** The condition under which sim_spawn_particles succeeds. */
  predicate SpawnOk(c: Config, st: SimState, x: int, y: int)
    requires WellShaped(c, st)
  {
    InBounds(c.width, c.height, x, y) && GetParticle(c, st, x, y).Empty? && st.freeCount != 0
  }

  /** sim_spawn_particles: pop the top free slot, give it a fresh particle and bind it
      to (x, y); a no-op unless SpawnOk. */
  function Spawn(c: Config, st: SimState, x: int, y: int, t: ParticleType): (r: SimState)
    requires Invariant(c, st)
    ensures Invariant(c, r)
  {
    if !SpawnOk(c, st, x, y) then st
    else
      var fc := st.freeCount - 1;
      var s := st.freeList[fc];
      IndexInRange(c.width, c.height, x, y);
      PopKeepsInvariant(st.grid, FreeStack(st), Capacity(c), GridIndex(c.width, x, y));
      assert FreeStack(st)[..fc] == st.freeList[..fc];
      SetCell(c, st.(pool := st.pool[s := NewParticle(t)], freeCount := fc), x, y, Ref(s))
  }

  /** sim_remove_particle: push the slot of (x, y) on the free list and clear the cell;
      a no-op on an empty or out-of-bounds cell. */
  function Remove(c: Config, st: SimState, x: int, y: int): (r: SimState)
    requires Invariant(c, st)
    ensures Invariant(c, r)
  {
    var p := GetParticle(c, st, x, y);
    if p.Empty? then st
    else
      var i := GridIndex(c.width, x, y);
      IndexInRange(c.width, c.height, x, y);
      PushKeepsInvariant(st.grid, FreeStack(st), Capacity(c), i);
      var fl := st.freeList[st.freeCount := p.slot];
      assert fl[..st.freeCount + 1] == FreeStack(st) + [p.slot];
      SetCell(c, st.(freeList := fl, freeCount := st.freeCount + 1), x, y, Empty)
  }

  /** Spawning at one cell leaves every other cell as it was. */
  lemma SpawnLeavesOthers(c: Config, st: SimState, x: int, y: int, t: ParticleType, x': int, y': int)
    requires Invariant(c, st) && (x != x' || y != y')
    ensures GetParticle(c, Spawn(c, st, x, y, t), x', y') == GetParticle(c, st, x', y')
  {
    if SpawnOk(c, st, x, y) && InBounds(c.width, c.height, x', y') {
      IndexInRange(c.width, c.height, x, y);
      IndexInRange(c.width, c.height, x', y');
      if GridIndex(c.width, x, y) == GridIndex(c.width, x', y') {
        IndexInjective(c.width, x, y, x', y');
      }
    }
  }

  /** Removing at one cell leaves every other cell as it was. */
  lemma RemoveLeavesOthers(c: Config, st: SimState, x: int, y: int, x': int, y': int)
    requires Invariant(c, st) && (x != x' || y != y')
    ensures GetParticle(c, Remove(c, st, x, y), x', y') == GetParticle(c, st, x', y')
  {
    if GetParticle(c, st, x, y).Ref? && InBounds(c.width, c.height, x', y') {
      IndexInRange(c.width, c.height, x, y);
      IndexInRange(c.width, c.height, x', y');
      if GridIndex(c.width, x, y) == GridIndex(c.width, x', y') {
        IndexInjective(c.width, x, y, x', y');
      }
    }
  }

  /** set_particle then get_particle: the written cell reads back inside the grid, and
      every other cell is unchanged. */
  lemma GetAfterSet(c: Config, st: SimState, x: int, y: int, cell: Cell, x': int, y': int)
    requires WellShaped(c, st) && (cell.Ref? ==> cell.slot < Capacity(c))
    ensures WellShaped(c, SetCell(c, st, x, y, cell))
    ensures GetParticle(c, SetCell(c, st, x, y, cell), x', y')
         == if (x', y') == (x, y) && InBounds(c.width, c.height, x, y) then cell else GetParticle(c, st, x', y')
  {
    if InBounds(c.width, c.height, x, y) && InBounds(c.width, c.height, x', y') {
      IndexInRange(c.width, c.height, x, y);
      IndexInRange(c.width, c.height, x', y');
      if GridIndex(c.width, x, y) == GridIndex(c.width, x', y') {
        IndexInjective(c.width, x, y, x', y');
      }
    }
  }

  /** swap_particles exchanges the occupants of its two cells and leaves every other
      cell as it was. */
  lemma SwapExchanges(c: Config, st: SimState, x1: int, y1: int, x2: int, y2: int, x: int, y: int)
    requires WellShaped(c, st)
    requires InBounds(c.width, c.height, x1, y1) && InBounds(c.width, c.height, x2, y2)
    ensures GetParticle(c, Swap(c, st, x1, y1, x2, y2), x, y)
         == if (x, y) == (x2, y2) then GetParticle(c, st, x1, y1)
            else if (x, y) == (x1, y1) then GetParticle(c, st, x2, y2)
            else GetParticle(c, st, x, y)
  {
    IndexInRange(c.width, c.height, x1, y1);
    IndexInRange(c.width, c.height, x2, y2);
    if InBounds(c.width, c.height, x, y) {
      IndexInRange(c.width, c.height, x, y);
      if GridIndex(c.width, x, y) == GridIndex(c.width, x1, y1) {
        IndexInjective(c.width, x, y, x1, y1);
      }
      if GridIndex(c.width, x, y) == GridIndex(c.width, x2, y2) {
        IndexInjective(c.width, x, y, x2, y2);
      }
    }
  }

  /** sim_spawn_particles: when SpawnOk fails nothing changes; otherwise free_count
      drops by one, the cell holds the slot that was on top of the free list, and that
      slot holds a fresh particle. SpawnLeavesOthers covers the other cells. */
  lemma SpawnEffect(c: Config, st: SimState, x: int, y: int, t: ParticleType)
    requires Invariant(c, st)
    ensures !SpawnOk(c, st, x, y) ==> Spawn(c, st, x, y, t) == st
    ensures SpawnOk(c, st, x, y) ==>
              var r, s := Spawn(c, st, x, y, t), st.freeList[st.freeCount - 1];
              && r.freeCount == st.freeCount - 1 && r.freeList == st.freeList
              && GetParticle(c, r, x, y) == Ref(s)
              && r.pool == st.pool[s := NewParticle(t)]
  {
    if SpawnOk(c, st, x, y) {
      IndexInRange(c.width, c.height, x, y);
    }
  }

  /** sim_remove_particle: on an empty or outside cell nothing changes; otherwise the
      cell is emptied, its slot is pushed on top of the free list and free_count rises
      by one, never past W*H. RemoveLeavesOthers covers the other cells. */
  lemma RemoveEffect(c: Config, st: SimState, x: int, y: int)
    requires Invariant(c, st)
    ensures GetParticle(c, st, x, y).Empty? ==> Remove(c, st, x, y) == st
    ensures GetParticle(c, st, x, y).Ref? ==>
              var r := Remove(c, st, x, y);
              && r.freeCount == st.freeCount + 1 <= Capacity(c)
              && FreeStack(r) == FreeStack(st) + [GetParticle(c, st, x, y).slot]
              && GetParticle(c, r, x, y).Empty?
              && r.pool == st.pool
  {
    var p := GetParticle(c, st, x, y);
    if p.Ref? {
      IndexInRange(c.width, c.height, x, y);
      var r := Remove(c, st, x, y);
      assert FreeStack(r) == st.freeList[st.freeCount := p.slot][..st.freeCount + 1];
    }
  }

  /** The state sim_init leaves: every cell empty, free_list[i] == i, free_count == W*H.
      The pool's contents are whatever the allocator returned. */
  function InitState(c: Config, pool: seq<Particle>, seed: bv32): (r: SimState)
    requires |pool| == Capacity(c)
    ensures Invariant(c, r)
    ensures Occupied(r.grid) == 0 && r.freeCount == Capacity(c)
  {
    var n := Capacity(c);
    EmptyGridHasNoRefs(n);
    IdentityListHoldsAllSlots(n);
    OccupiedCountsRefs(seq(n, _ => Empty));
    assert seq(n, i => i)[..n] == seq(n, i => i);
    SimState(seq(n, _ => Empty), pool, seq(n, i => i), n, seed, 0)
  }

  /** Popping the top free slot into an empty cell keeps the pool invariant. */
  lemma PopKeepsInvariant(g: seq<Cell>, free: seq<nat>, n: nat, i: nat)
    requires PoolInvariant(g, free, n)
    requires i < |g| && g[i].Empty? && |free| > 0
    ensures PoolInvariant(g[i := Ref(free[|free| - 1])], free[..|free| - 1], n)
  {
    var k := |free| - 1;
    var s := free[k];
    RefSlotsUpdate(g, i, Ref(s));
    assert free == free[..k] + [s];
    var a, b, f := RefSlots(g[i := Ref(s)]), RefSlots(g), multiset(free[..k]);
    assert a == b + multiset{s};
    assert multiset(free) == f + multiset{s};
    assert a + f == b + multiset(free);
  }

  /** Pushing the slot of an occupied cell and clearing the cell keeps the pool
      invariant, and there is room on the free list for it. */
  lemma PushKeepsInvariant(g: seq<Cell>, free: seq<nat>, n: nat, i: nat)
    requires PoolInvariant(g, free, n)
    requires i < |g| && g[i].Ref?
    ensures |free| < n
    ensures PoolInvariant(g[i := Empty], free + [g[i].slot], n)
  {
    RefIsCounted(g, i);
    OccupiedCountsRefs(g);
    CountBalance(g, free, n);
  }

  /** Spawning and then removing at the same cell restores the grid, the free list and
      free_count; only the slot's particle record has been rewritten. */
  lemma SpawnThenRemove(c: Config, st: SimState, x: int, y: int, t: ParticleType)
    requires Invariant(c, st) && SpawnOk(c, st, x, y)
    ensures Remove(c, Spawn(c, st, x, y, t), x, y)
         == st.(pool := st.pool[st.freeList[st.freeCount - 1] := NewParticle(t)])
  {
    var i := GridIndex(c.width, x, y);
    IndexInRange(c.width, c.height, x, y);
    var s := st.freeList[st.freeCount - 1];
    var r := Remove(c, Spawn(c, st, x, y, t), x, y);
    assert r.grid == st.grid[i := Ref(s)][i := Empty];
    assert r.grid == st.grid;
    assert r.freeList == st.freeList[st.freeCount - 1 := s];
  }
}
