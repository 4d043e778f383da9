// The row-major grid of slot references and the pool invariant that ties it to the
// free list.

module Grid {

  /** A grid cell: empty (a null pointer in the engine) or a reference to one pool slot. */
  datatype Cell = Empty | Ref(slot: nat)

  /** Row-major index of (x, y) in a grid `w` cells wide; no bounds check, as in get_grid_idx. */
  function GridIndex(w: int, x: int, y: int): int
  {
    y * w + x
  }

  /** Whether (x, y) lies inside a w-by-h grid. */
  predicate InBounds(w: int, h: int, x: int, y: int)
  {
    0 <= x < w && 0 <= y < h
  }

  lemma IndexInRange(w: nat, h: nat, x: int, y: int)
    requires InBounds(w, h, x, y)
    ensures 0 <= GridIndex(w, x, y) < w * h
  {
    assert y * w <= (h - 1) * w by {
      assert h - 1 - y >= 0;
      assert (h - 1) * w - y * w == (h - 1 - y) * w;
    }
  }

  /** Distinct in-bounds coordinates have distinct indices. */
  lemma IndexInjective(w: nat, x1: int, y1: int, x2: int, y2: int)
    requires 0 <= x1 < w && 0 <= x2 < w
    requires GridIndex(w, x1, y1) == GridIndex(w, x2, y2)
    ensures x1 == x2 && y1 == y2
  {
    if y1 < y2 {
      RowsApart(w, y1, y2 - y1);
    } else if y2 < y1 {
      RowsApart(w, y2, y1 - y2);
    }
  }

  lemma RowsApart(w: nat, y: int, d: nat)
    requires d >= 1
    ensures (y + d) * w >= y * w + w
  {
    assert (y + d) * w == y * w + d * w;
    assert d * w >= w by {
      assert d * w - w == (d - 1) * w;
    }
  }

  /** The slot a cell holds, as a multiset of zero or one element. */
  function CellSlots(c: Cell): multiset<nat>
  {
    if c.Ref? then multiset{c.slot} else multiset{}
  }

  /** Every slot referenced by the grid, with multiplicity. */
  function RefSlots(g: seq<Cell>): multiset<nat>
  {
    if g == [] then multiset{} else RefSlots(g[..|g| - 1]) + CellSlots(g[|g| - 1])
  }

  /** The number of occupied cells. */
  function Occupied(g: seq<Cell>): nat
  {
    if g == [] then 0 else Occupied(g[..|g| - 1]) + (if g[|g| - 1].Ref? then 1 else 0)
  }

  /** Every pool slot 0 .. n-1, once each. */
  function AllSlots(n: nat): multiset<nat>
  {
    if n == 0 then multiset{} else AllSlots(n - 1) + multiset{n - 1}
  }

  /** Every slot is referenced by exactly one cell or sits on the free list exactly
      once, never both, and no other values appear. */
  ghost predicate PoolInvariant(g: seq<Cell>, free: seq<nat>, n: nat)
  {
    RefSlots(g) + multiset(free) == AllSlots(n)
  }

  /** Every reference in the grid names a slot below n. */
  predicate CellsInRange(g: seq<Cell>, n: nat)
  {
    forall i :: 0 <= i < |g| && g[i].Ref? ==> g[i].slot < n
  }

  lemma {:induction false} AllSlotsCount(n: nat, s: nat)
    ensures AllSlots(n)[s] == if s < n then 1 else 0
    ensures |AllSlots(n)| == n
  {
    if n > 0 {
      AllSlotsCount(n - 1, s);
    }
  }

  lemma {:induction false} OccupiedCountsRefs(g: seq<Cell>)
    ensures |RefSlots(g)| == Occupied(g)
  {
    if g != [] {
      OccupiedCountsRefs(g[..|g| - 1]);
    }
  }

  /** Overwriting one cell swaps that cell's contribution to RefSlots. */
  lemma {:induction false} RefSlotsUpdate(g: seq<Cell>, i: nat, c: Cell)
    requires i < |g|
    ensures RefSlots(g[i := c]) + CellSlots(g[i]) == RefSlots(g) + CellSlots(c)
    decreases |g|
  {
    var n := |g| - 1;
    if i == n {
      RefSlotsUpdateLast(g, c);
    } else {
      RefSlotsUpdate(g[..n], i, c);
      RefSlotsUpdateInner(g, i, c);
    }
  }

  lemma RefSlotsUpdateLast(g: seq<Cell>, c: Cell)
    requires |g| > 0
    ensures RefSlots(g[|g| - 1 := c]) + CellSlots(g[|g| - 1]) == RefSlots(g) + CellSlots(c)
  {
    var n := |g| - 1;
    assert g[n := c][..n] == g[..n];
  }

  lemma RefSlotsUpdateInner(g: seq<Cell>, i: nat, c: Cell)
    requires i < |g| - 1
    requires RefSlots(g[..|g| - 1][i := c]) + CellSlots(g[i]) == RefSlots(g[..|g| - 1]) + CellSlots(c)
    ensures RefSlots(g[i := c]) + CellSlots(g[i]) == RefSlots(g) + CellSlots(c)
  {
    var n := |g| - 1;
    var g', a, a' := g[i := c], g[..n], g[..n][i := c];
    assert g'[..n] == a';
    assert RefSlots(g) == RefSlots(a) + CellSlots(g[n]);
    assert RefSlots(g') == RefSlots(a') + CellSlots(g[n]);
    forall s
      ensures (RefSlots(g') + CellSlots(g[i]))[s] == (RefSlots(g) + CellSlots(c))[s]
    {
      assert (RefSlots(a') + CellSlots(g[i]))[s] == (RefSlots(a) + CellSlots(c))[s];
    }
  }

  /** An occupied cell contributes its slot to RefSlots. */
  lemma RefIsCounted(g: seq<Cell>, i: nat)
    requires i < |g| && g[i].Ref?
    ensures RefSlots(g) == RefSlots(g[i := Empty]) + multiset{g[i].slot}
  {
    RefSlotsUpdate(g, i, Empty);
  }

  /** Exchanging two cells keeps the referenced slots. */
  lemma SwapKeepsRefs(g: seq<Cell>, i: nat, j: nat)
    requires i < |g| && j < |g|
    ensures RefSlots(g[i := g[j]][j := g[i]]) == RefSlots(g)
  {
    var g1 := g[i := g[j]];
    RefSlotsUpdate(g, i, g[j]);
    assert g1[j] == g[j];
    RefSlotsUpdate(g1, j, g[i]);
    var a, b := RefSlots(g1[j := g[i]]), RefSlots(g);
    assert a + CellSlots(g[j]) == b + CellSlots(g[j]);
    forall s ensures a[s] == b[s] {
      assert (a + CellSlots(g[j]))[s] == (b + CellSlots(g[j]))[s];
    }
  }

  /** The invariant balances the books: free_count plus the occupied cells is W*H. */
  lemma CountBalance(g: seq<Cell>, free: seq<nat>, n: nat)
    requires PoolInvariant(g, free, n)
    ensures |free| + Occupied(g) == n
  {
    OccupiedCountsRefs(g);
    AllSlotsCount(n, 0);
    assert |RefSlots(g) + multiset(free)| == |RefSlots(g)| + |multiset(free)|;
  }

  /** No slot is referenced by two cells. */
  lemma SlotsDistinct(g: seq<Cell>, free: seq<nat>, n: nat, i: nat, j: nat)
    requires PoolInvariant(g, free, n)
    requires i < j < |g| && g[i].Ref? && g[j].Ref?
    ensures g[i].slot != g[j].slot
  {
    if g[i].slot == g[j].slot {
      var s := g[i].slot;
      var g1 := g[i := Empty];
      RefIsCounted(g, i);
      RefIsCounted(g1, j);
      assert RefSlots(g)[s] >= 2;
      AllSlotsCount(n, s);
    }
  }

  /** A slot on the free list is below n, is on it once, and no cell references it. */
  lemma FreeSlotUnreferenced(g: seq<Cell>, free: seq<nat>, n: nat, k: nat)
    requires PoolInvariant(g, free, n)
    requires k < |free|
    ensures free[k] < n && free[k] !in RefSlots(g)
    ensures forall l :: 0 <= l < |free| && l != k ==> free[l] != free[k]
  {
    var s := free[k];
    AllSlotsCount(n, s);
    assert multiset(free)[s] >= 1;
    forall l | 0 <= l < |free| && l != k
      ensures free[l] != s
    {
      if free[l] == s {
        RepeatedEntryCountsTwice(free, if l < k then l else k, if l < k then k else l);
      }
    }
  }

  lemma RepeatedEntryCountsTwice(q: seq<nat>, k: nat, l: nat)
    requires k < l < |q| && q[k] == q[l]
    ensures multiset(q)[q[k]] >= 2
  {
    assert q == q[..k] + [q[k]] + q[k + 1..l] + [q[l]] + q[l + 1..];
  }

  /** A referenced slot is below n and is not on the free list. */
  lemma RefSlotNotFree(g: seq<Cell>, free: seq<nat>, n: nat, i: nat)
    requires PoolInvariant(g, free, n)
    requires i < |g| && g[i].Ref?
    ensures g[i].slot < n && g[i].slot !in free
  {
    var s := g[i].slot;
    RefIsCounted(g, i);
    AllSlotsCount(n, s);
  }

  /** Every slot below n is referenced or free. */
  lemma SlotAccountedFor(g: seq<Cell>, free: seq<nat>, n: nat, s: nat)
    requires PoolInvariant(g, free, n)
    requires s < n
    ensures s in RefSlots(g) || s in free
  {
    AllSlotsCount(n, s);
  }

  /** A slot counted by RefSlots is held by some cell. */
  lemma {:induction false} RefSlotsHeld(g: seq<Cell>, s: nat)
    requires s in RefSlots(g)
    ensures exists i :: 0 <= i < |g| && g[i] == Ref(s)
  {
    var n := |g| - 1;
    if s in RefSlots(g[..n]) {
      RefSlotsHeld(g[..n], s);
      var i :| 0 <= i < n && g[..n][i] == Ref(s);
      assert g[i] == Ref(s);
    } else {
      assert g[n] == Ref(s);
    }
  }

  lemma {:induction false} EmptyGridHasNoRefs(n: nat)
    ensures RefSlots(seq(n, _ => Empty)) == multiset{}
  {
    if n > 0 {
      assert seq(n, _ => Empty)[..n - 1] == seq(n - 1, _ => Empty);
      EmptyGridHasNoRefs(n - 1);
    }
  }

  lemma {:induction false} IdentityListHoldsAllSlots(n: nat)
    ensures multiset(seq(n, i => i)) == AllSlots(n)
  {
    if n > 0 {
      assert seq(n, i => i) == seq(n - 1, i => i) + [n - 1];
      IdentityListHoldsAllSlots(n - 1);
    }
  }
}
