// One simulation tick (update_particle and sim_update of src/simulation.c): reset the
// per-tick flags, then visit every cell row by row from the bottom, alternating the
// horizontal direction between ticks.

module Tick {
  import opened Particles
  import opened Grid
  import opened Pool
  import opened Rules

  /** The slot whose rule update_particle runs at (x, y): the occupant, unless it has
      already been updated in this tick. */
  function Dispatch(c: Config, st: SimState, x: int, y: int): (d: seq<nat>)
    requires WellShaped(c, st)
    ensures |d| <= 1
    ensures |d| == 1 <==> GetParticle(c, st, x, y).Ref? && !st.pool[GetParticle(c, st, x, y).slot].updated
    ensures |d| == 1 ==> d[0] == GetParticle(c, st, x, y).slot
  {
    var p := GetParticle(c, st, x, y);
    if p.Ref? && !st.pool[p.slot].updated then [p.slot] else []
  }

  /** update_particle: mark the occupant as updated and run the rule of its state
      class; powders and liquids move, every other class stays put. */
  function UpdateParticle(c: Config, st: SimState, x: int, y: int): (r: SimState)
    requires WellShaped(c, st)
    ensures WellShaped(c, r) && Conserves(st, r)
    ensures Dispatch(c, st, x, y) == [] ==> r == st
    ensures forall s :: 0 <= s < |st.pool| ==>
              r.pool[s].updated == (st.pool[s].updated || Dispatch(c, st, x, y) == [s])
  {
    var p := GetParticle(c, st, x, y);
    if p.Empty? || st.pool[p.slot].updated then st
    else
      var st1 := st.(pool := st.pool[p.slot := st.pool[p.slot].(updated := true)]);
      match c.props(st.pool[p.slot].kind).state
      case Powder => PowderStep(c, st1, x, y)
      case Liquid => LiquidStep(c, st1, x, y)
      case _ => st1
  }

  /** update_particle moves only powders and liquids: a solid or a gas is flagged and
      stays where it is, and the generator is not drawn. */
  lemma SolidAndGasStay(c: Config, st: SimState, x: int, y: int)
    requires WellShaped(c, st) && GetParticle(c, st, x, y).Ref?
    requires var k := c.props(st.pool[GetParticle(c, st, x, y).slot].kind).state; k == Solid || k == Gas
    ensures var r := UpdateParticle(c, st, x, y);
            r.grid == st.grid && r.rng == st.rng
  {
  }

  /** Visit the cells in order, left to right. */
  function Scan(c: Config, st: SimState, cells: seq<(int, int)>): (r: SimState)
    requires WellShaped(c, st)
    ensures WellShaped(c, r) && Conserves(st, r)
    decreases |cells|
  {
    if cells == [] then st
    else
      var last := cells[|cells| - 1];
      UpdateParticle(c, Scan(c, st, cells[..|cells| - 1]), last.0, last.1)
  }

  /** Visiting one more cell extends a scan by one update. */
  lemma ScanStep(c: Config, st: SimState, cells: seq<(int, int)>, cell: (int, int))
    requires WellShaped(c, st)
    ensures Scan(c, st, cells + [cell]) == UpdateParticle(c, Scan(c, st, cells), cell.0, cell.1)
  {
    assert (cells + [cell])[..|cells|] == cells;
  }

  /** A non-empty list is its front followed by its last element, also after a prefix. */
  lemma SplitLast<T>(a: seq<T>, b: seq<T>)
    requires b != []
    ensures b == b[..|b| - 1] + [b[|b| - 1]]
    ensures a + b == (a + b[..|b| - 1]) + [b[|b| - 1]]
  {
    assert b == b[..|b| - 1] + [b[|b| - 1]];
  }

  /** A scan of two lists of cells is the scan of the second from where the first
      left off. */
  lemma {:induction false} ScanAppend(c: Config, st: SimState, a: seq<(int, int)>, b: seq<(int, int)>)
    requires WellShaped(c, st)
    ensures Scan(c, st, a + b) == Scan(c, Scan(c, st, a), b)
    decreases |b|
  {
    if b == [] {
      assert a + b == a;
    } else {
      var init, last := b[..|b| - 1], b[|b| - 1];
      SplitLast(a, b);
      ScanAppend(c, st, a, init);
      ScanStep(c, st, a + init, last);
      ScanStep(c, Scan(c, st, a), init, last);
    }
  }

  /** The slots whose rules ran during a scan, in order. */
  function ScanLog(c: Config, st: SimState, cells: seq<(int, int)>): seq<nat>
    requires WellShaped(c, st)
    decreases |cells|
  {
    if cells == [] then []
    else
      var init := cells[..|cells| - 1];
      var last := cells[|cells| - 1];
      ScanLog(c, st, init) + Dispatch(c, Scan(c, st, init), last.0, last.1)
  }

  /** Every logged slot is a pool slot whose flag is set. */
  predicate AllFlagged(pool: seq<Particle>, log: seq<nat>)
  {
    forall i :: 0 <= i < |log| ==> log[i] < |pool| && pool[log[i]].updated
  }

  /** No slot is logged twice. */
  predicate Distinct(log: seq<nat>)
  {
    forall i, j :: 0 <= i < j < |log| ==> log[i] != log[j]
  }

  /** A rule runs only on a particle not yet flagged, and flags it: every logged slot is
      flagged afterwards and no slot is logged twice. */
  lemma {:induction false} ScanRunsEachSlotOnce(c: Config, st: SimState, cells: seq<(int, int)>)
    requires WellShaped(c, st)
    ensures AllFlagged(Scan(c, st, cells).pool, ScanLog(c, st, cells))
    ensures Distinct(ScanLog(c, st, cells))
    decreases |cells|
  {
    if cells != [] {
      var init := cells[..|cells| - 1];
      var last := cells[|cells| - 1];
      ScanRunsEachSlotOnce(c, st, init);
      StepRunsSlotOnce(c, Scan(c, st, init), ScanLog(c, st, init), last.0, last.1);
    }
  }

  /** One visit keeps the log flagged and distinct. */
  lemma StepRunsSlotOnce(c: Config, st: SimState, log: seq<nat>, x: int, y: int)
    requires WellShaped(c, st) && AllFlagged(st.pool, log) && Distinct(log)
    ensures AllFlagged(UpdateParticle(c, st, x, y).pool, log + Dispatch(c, st, x, y))
    ensures Distinct(log + Dispatch(c, st, x, y))
  {
    var r := UpdateParticle(c, st, x, y);
    var d := Dispatch(c, st, x, y);
    var log' := log + d;
    forall i | 0 <= i < |log'|
      ensures log'[i] < |r.pool| && r.pool[log'[i]].updated
    {
      if i < |log| {
        assert log'[i] == log[i];
      }
    }
    if d != [] {
      forall i | 0 <= i < |log|
        ensures log[i] != d[0]
      {
        assert st.pool[log[i]].updated;
      }
      assert Distinct(log') by {
        forall i, j | 0 <= i < j < |log'|
          ensures log'[i] != log'[j]
        {
          if j == |log| {
            assert log'[j] == d[0] && log'[i] == log[i];
          }
        }
      }
    }
  }

  /** The cells of row y in visiting order. */
  function RowCells(w: nat, y: int, ltr: bool): (cells: seq<(int, int)>)
    ensures |cells| == w
    ensures forall k :: 0 <= k < w ==> cells[k] == (if ltr then k else w - 1 - k, y)
  {
    if ltr then seq(w, i => (i, y)) else seq(w, i => (w - 1 - i, y))
  }

  /** Visiting the k-th cell of a row extends the scan of the row's first k cells. */
  lemma ScanRowStep(c: Config, st: SimState, w: nat, y: int, ltr: bool, k: nat, x: int)
    requires WellShaped(c, st) && k < w && x == (if ltr then k else w - 1 - k)
    ensures Scan(c, st, RowCells(w, y, ltr)[..k + 1]) == UpdateParticle(c, Scan(c, st, RowCells(w, y, ltr)[..k]), x, y)
  {
    var row := RowCells(w, y, ltr);
    assert row[k] == (x, y);
    assert row[..k + 1] == row[..k] + [(x, y)];
    ScanStep(c, st, row[..k], (x, y));
  }

  /** The cells of rows h-1 down to y, bottom row first. */
  function RowsFrom(w: nat, h: nat, y: int, ltr: bool): seq<(int, int)>
    decreases h - y
  {
    if y >= h then [] else RowsFrom(w, h, y + 1, ltr) + RowCells(w, y, ltr)
  }

  /** The visiting order covers rows y .. h-1 exactly: each in-bounds cell at or below
      row y appears, each entry is such a cell, rows go bottom to top, and within a row
      the direction is left to right exactly when ltr. */
  lemma {:induction false} RowsFromOrder(w: nat, h: nat, y: int, ltr: bool)
    requires 0 <= y <= h
    ensures var cs := RowsFrom(w, h, y, ltr);
            && |cs| == (h - y) * w
            && (forall i :: 0 <= i < |cs| ==> InBounds(w, h, cs[i].0, cs[i].1) && cs[i].1 >= y)
            && (forall i, j :: 0 <= i < j < |cs| ==>
                  cs[i].1 > cs[j].1 || (cs[i].1 == cs[j].1 && (if ltr then cs[i].0 < cs[j].0 else cs[i].0 > cs[j].0)))
            && (forall x, y' :: InBounds(w, h, x, y') && y' >= y ==> (x, y') in cs)
    decreases h - y
  {
    if y < h {
      RowsFromOrder(w, h, y + 1, ltr);
      var rest, row := RowsFrom(w, h, y + 1, ltr), RowCells(w, y, ltr);
      var cs := rest + row;
      assert cs == RowsFrom(w, h, y, ltr);
      assert |cs| == (h - y) * w by {
        assert (h - (y + 1)) * w + w == (h - y) * w;
      }
      forall x, y' | InBounds(w, h, x, y') && y' >= y
        ensures (x, y') in cs
      {
        if y' == y {
          var k := if ltr then x else w - 1 - x;
          assert row[k] == (x, y');
        } else {
          assert (x, y') in rest;
        }
      }
      forall i, j | 0 <= i < j < |cs|
        ensures cs[i].1 > cs[j].1 || (cs[i].1 == cs[j].1 && (if ltr then cs[i].0 < cs[j].0 else cs[i].0 > cs[j].0))
      {
        if j >= |rest| && i < |rest| {
          assert cs[i] == rest[i] && cs[j] == row[j - |rest|];
        }
      }
    }
  }

  /** The slots flagged before the reset loop reaches cell n are cleared; other records
      are untouched. */
  function ResetFlags(g: seq<Cell>, pool: seq<Particle>, n: nat): (r: seq<Particle>)
    requires n <= |g| && CellsInRange(g, |pool|)
    ensures |r| == |pool|
    ensures forall s :: 0 <= s < |pool| ==>
              r[s] == pool[s].(updated := pool[s].updated && Ref(s) !in g[..n])
  {
    if n == 0 then pool
    else
      var r0 := ResetFlags(g, pool, n - 1);
      assert g[..n] == g[..n - 1] + [g[n - 1]];
      if g[n - 1].Ref? then r0[g[n - 1].slot := r0[g[n - 1].slot].(updated := false)] else r0
  }

  /** The state the scan starts from: the counter advanced and every flag of a
      particle on the grid cleared. */
  function Prepared(c: Config, st: SimState): (r: SimState)
    requires WellShaped(c, st)
    ensures WellShaped(c, r) && r.grid == st.grid && r.tick == st.tick + 1
  {
    st.(tick := st.tick + 1, pool := ResetFlags(st.grid, st.pool, |st.grid|))
  }

  /** Whether this tick visits rows left to right: on even counter values. */
  predicate LeftToRight(tick: nat)
  {
    tick % 2 == 0
  }

  /** sim_update: one tick. */
  function Tick(c: Config, st: SimState): (r: SimState)
    requires WellShaped(c, st)
    ensures WellShaped(c, r)
    ensures r.tick == st.tick + 1 && r.freeList == st.freeList && r.freeCount == st.freeCount
    ensures RefSlots(r.grid) == RefSlots(st.grid)
    ensures forall s :: 0 <= s < |st.pool| ==> r.pool[s].kind == st.pool[s].kind
  {
    var st1 := Prepared(c, st);
    Scan(c, st1, RowsFrom(c.width, c.height, 0, LeftToRight(st1.tick)))
  }

  /** The slots whose rules run during a tick. */
  function TickLog(c: Config, st: SimState): seq<nat>
    requires WellShaped(c, st)
  {
    var st1 := Prepared(c, st);
    ScanLog(c, st1, RowsFrom(c.width, c.height, 0, LeftToRight(st1.tick)))
  }

  /** A tick keeps the pool invariant: no particle is created or lost. */
  lemma TickKeepsInvariant(c: Config, st: SimState)
    requires Invariant(c, st)
    ensures Invariant(c, Tick(c, st))
  {
  }

  /** After the reset loop no particle on the grid is flagged. */
  lemma PreparedClearsFlags(c: Config, st: SimState, x: int, y: int)
    requires WellShaped(c, st) && GetParticle(c, st, x, y).Ref?
    ensures !Prepared(c, st).pool[GetParticle(c, st, x, y).slot].updated
  {
    IndexInRange(c.width, c.height, x, y);
    assert st.grid[..|st.grid|] == st.grid;
    assert st.grid[GridIndex(c.width, x, y)] in st.grid;
  }

  /** Within one tick each particle's rule runs at most once, and its flag is set
      at the end of the tick. */
  lemma TickMovesEachParticleOnce(c: Config, st: SimState)
    requires WellShaped(c, st)
    ensures AllFlagged(Tick(c, st).pool, TickLog(c, st)) && Distinct(TickLog(c, st))
  {
    var st1 := Prepared(c, st);
    ScanRunsEachSlotOnce(c, st1, RowsFrom(c.width, c.height, 0, LeftToRight(st1.tick)));
  }
}
