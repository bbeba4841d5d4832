/** `initParticles` (characters.js:197-246): one particle per non-empty cell of the Santa
    grid and then of the tree grid, each aimed at a point laid out around an anchor that
    depends on the viewport size. */
module Seeding {
  import opened Patterns
  import opened Palette
  import opened Physics
  import opened Particles

  /** Viewports narrower than this get the small layout (characters.js:200-201, 206, 228). */
  const SmallScreenWidth: real := 768.0

  /** Where one pattern is drawn: the anchor its grid is centred on, the particle size, and
      the distance `unit` between neighbouring cells (particle size times spacing times scale). */
  datatype Placement = Placement(anchorX: real, anchorY: real, size: real, unit: real)

  function ParticleSize(innerWidth: real): real
  {
    if innerWidth < SmallScreenWidth then 4.0 else 6.0
  }

  function Spacing(innerWidth: real): real
  {
    if innerWidth < SmallScreenWidth then 2.0 else 2.5
  }

  /** Santa is centred at a quarter of the width and half the height (characters.js:204-206). */
  function SantaPlacement(innerWidth: real, innerHeight: real): Placement
  {
    var scale := if innerWidth < SmallScreenWidth then 3.0 else 4.0;
    Placement(innerWidth * 0.25, innerHeight * 0.5, ParticleSize(innerWidth),
              ParticleSize(innerWidth) * Spacing(innerWidth) * scale)
  }

  /** The tree is centred at three quarters of the width and half the height (characters.js:226-228). */
  function TreePlacement(innerWidth: real, innerHeight: real): Placement
  {
    var scale := if innerWidth < SmallScreenWidth then 3.5 else 5.0;
    Placement(innerWidth * 0.75, innerHeight * 0.5, ParticleSize(innerWidth),
              ParticleSize(innerWidth) * Spacing(innerWidth) * scale)
  }

  /** The two layouts: cells 24 (Santa) and 28 (tree) apart with 4-pixel particles on small
      screens, 60 and 75 apart with 6-pixel particles otherwise. */
  lemma PlacementSizes(innerWidth: real, innerHeight: real)
    ensures var santa, tree := SantaPlacement(innerWidth, innerHeight), TreePlacement(innerWidth, innerHeight);
      if innerWidth < 768.0 then
        santa.size == tree.size == 4.0 && santa.unit == 24.0 && tree.unit == 28.0
      else
        santa.size == tree.size == 6.0 && santa.unit == 60.0 && tree.unit == 75.0
  {
  }

  /** Target coordinate, along one axis, of the cell with index `index` in a grid centred with
      extent `extent` (characters.js:211-212, 233-234). */
  function CellTarget(anchor: real, index: nat, extent: nat, unit: real): real
  {
    anchor + (index as real - extent as real / 2.0) * unit
  }

  /** Neighbouring cells are `unit` apart, and the target grows strictly with the index. */
  lemma CellTargetStep(anchor: real, i: nat, j: nat, extent: nat, unit: real)
    requires unit > 0.0
    ensures CellTarget(anchor, i + 1, extent, unit) - CellTarget(anchor, i, extent, unit) == unit
    ensures i < j <==> CellTarget(anchor, i, extent, unit) < CellTarget(anchor, j, extent, unit)
  {
    assert CellTarget(anchor, j, extent, unit) - CellTarget(anchor, i, extent, unit)
        == (j as real - i as real) * unit;
    if j <= i {
      ProductNonNegative(i as real - j as real, unit);
    }
  }

  /** Centring always uses the extent of row 0: a row of `width` cells then has its middle at
      `anchor + (width - 1 - extent) * unit / 2`. For Santa and the tree's crown (width equal to
      the extent) that is half a cell before the anchor; for the tree's 11-cell trunk under a
      12-cell first row it is a whole cell before it. */
  lemma RowMiddle(anchor: real, col: nat, width: nat, extent: nat, unit: real)
    requires col < width
    ensures CellTarget(anchor, col, extent, unit) + CellTarget(anchor, width - 1 - col, extent, unit)
         == 2.0 * anchor + (width as real - 1.0 - extent as real) * unit
  {
  }

  /** The constructor arguments for the particle of cell `c` of grid `g`. */
  function CellSeed(g: seq<seq<int>>, c: Cell, p: Placement): Seed
    requires |g| > 0
  {
    Seed(CellTarget(p.anchorX, c.col, |g[0]|, p.unit), CellTarget(p.anchorY, c.row, |g|, p.unit),
         ColorOf(c.value), c.value, p.size)
  }

  /** The seeds of a list of cells, in the same order. */
  function SeedsOf(g: seq<seq<int>>, cs: seq<Cell>, p: Placement): (seeds: seq<Seed>)
    requires |g| > 0
    ensures |seeds| == |cs|
  {
    seq(|cs|, i requires 0 <= i < |cs| => CellSeed(g, cs[i], p))
  }

  /** The two grids a scene is made of: the figure drawn on the left and the one on the right. */
  datatype Figures = Figures(santa: seq<seq<int>>, tree: seq<seq<int>>)
  {
    /** Both grids have a first row, whose length centring uses. */
    predicate Valid()
    {
      |santa| > 0 && |tree| > 0
    }
  }

  /** The figures of characters.js: Santa on the left, the Christmas tree on the right. */
  const Characters: Figures := Figures(SantaPattern, TreePattern)

  lemma CharactersValid()
    ensures Characters.Valid()
  {
  }

  /** What `initParticles` builds, particle by particle: every seed of the left figure, then
      every seed of the right one. */
  function SceneSeeds(f: Figures, innerWidth: real, innerHeight: real): seq<Seed>
    requires f.Valid()
  {
    SeedsOf(f.santa, Cells(f.santa), SantaPlacement(innerWidth, innerHeight)) +
    SeedsOf(f.tree, Cells(f.tree), TreePlacement(innerWidth, innerHeight))
  }

  /** One particle per non-zero cell of the two grids, whatever the viewport. */
  lemma SceneSeedsCount(f: Figures, innerWidth: real, innerHeight: real)
    requires f.Valid()
    ensures |SceneSeeds(f, innerWidth, innerHeight)| == NonZeroCount(f.santa) + NonZeroCount(f.tree)
  {
    CellsEnumerateNonZero(f.santa);
    CellsEnumerateNonZero(f.tree);
  }

  /** Each particle comes from a non-zero cell: its colour index is the cell's value and its
      colour is `colors[value]`; the left figure's cells come first, then the right one's. */
  lemma SceneSeedsColours(f: Figures, innerWidth: real, innerHeight: real, i: nat)
    requires f.Valid()
    requires i < |SceneSeeds(f, innerWidth, innerHeight)|
    ensures var s := SceneSeeds(f, innerWidth, innerHeight)[i];
      var n := |Cells(f.santa)|;
      s.colorIndex != 0 && s.color == ColorOf(s.colorIndex) &&
      (i < n ==> IsNonZeroCell(f.santa, Cells(f.santa)[i]) && s.colorIndex == Cells(f.santa)[i].value) &&
      (i >= n ==> IsNonZeroCell(f.tree, Cells(f.tree)[i - n]) && s.colorIndex == Cells(f.tree)[i - n].value)
  {
    CellsEnumerateNonZero(f.santa);
    CellsEnumerateNonZero(f.tree);
    var n := |Cells(f.santa)|;
    if i < n {
      assert Cells(f.santa)[i] in Cells(f.santa);
    } else {
      assert Cells(f.tree)[i - n] in Cells(f.tree);
    }
  }

  /** When both grids use only palette indices, every particle gets a colour: none is built
      with `colors[pixel]` undefined. */
  lemma SceneSeedsColoured(f: Figures, innerWidth: real, innerHeight: real, i: nat)
    requires f.Valid() && InPalette(f.santa) && InPalette(f.tree)
    requires i < |SceneSeeds(f, innerWidth, innerHeight)|
    ensures SceneSeeds(f, innerWidth, innerHeight)[i].color.Some?
  {
    SceneSeedsColours(f, innerWidth, innerHeight, i);
  }

  /** The figures of characters.js give every particle a colour. */
  lemma CharactersColoured(innerWidth: real, innerHeight: real, i: nat)
    requires i < |SceneSeeds(Characters, innerWidth, innerHeight)|
    ensures SceneSeeds(Characters, innerWidth, innerHeight)[i].color.Some?
  {
    PatternsInPalette();
    SceneSeedsColoured(Characters, innerWidth, innerHeight, i);
  }

  /** Within each figure the particles are ordered top to bottom and, within a row, left to
      right: their targets increase in row-major order. */
  lemma SceneSeedsRowMajor(f: Figures, innerWidth: real, innerHeight: real, i: nat, j: nat)
    requires f.Valid()
    requires i < j < |SceneSeeds(f, innerWidth, innerHeight)|
    requires j < |Cells(f.santa)| || |Cells(f.santa)| <= i
    ensures var s, t := SceneSeeds(f, innerWidth, innerHeight)[i], SceneSeeds(f, innerWidth, innerHeight)[j];
      s.targetY < t.targetY || (s.targetY == t.targetY && s.targetX < t.targetX)
  {
    CellsEnumerateNonZero(f.santa);
    CellsEnumerateNonZero(f.tree);
    var n := |Cells(f.santa)|;
    var g, p, k, l;
    if j < n {
      g, p, k, l := f.santa, SantaPlacement(innerWidth, innerHeight), i, j;
    } else {
      g, p, k, l := f.tree, TreePlacement(innerWidth, innerHeight), i - n, j - n;
    }
    var cs := Cells(g);
    assert Before(cs[k], cs[l]);
    PlacementSizes(innerWidth, innerHeight);
    CellTargetStep(p.anchorY, cs[k].row, cs[l].row, |g|, p.unit);
    CellTargetStep(p.anchorX, cs[k].col, cs[l].col, |g[0]|, p.unit);
  }

  /** A resize within one size class re-seeds every particle at the same place relative to
      its figure's anchor: the left figure's targets move by a quarter of the width change,
      the right one's by three quarters, both by half the height change; colours and sizes
      are unchanged. */
  lemma ResizeMovesWithAnchors(f: Figures, w1: real, h1: real, w2: real, h2: real, i: nat)
    requires f.Valid()
    requires (w1 < 768.0) == (w2 < 768.0)
    requires i < |SceneSeeds(f, w1, h1)|
    ensures |SceneSeeds(f, w2, h2)| == |SceneSeeds(f, w1, h1)|
    ensures var s, t := SceneSeeds(f, w1, h1)[i], SceneSeeds(f, w2, h2)[i];
      var shiftX := if i < |Cells(f.santa)| then 0.25 * (w2 - w1) else 0.75 * (w2 - w1);
      t.targetX == s.targetX + shiftX && t.targetY == s.targetY + 0.5 * (h2 - h1) &&
      t.color == s.color && t.colorIndex == s.colorIndex && t.size == s.size
  {
    PlacementSizes(w1, h1);
    PlacementSizes(w2, h2);
  }

  /** Particle `q` was built from the random draws `d` on a canvas of the given size, and has
      not moved yet. */
  ghost predicate StartedFrom(q: Particle, d: Draws, canvasWidth: real, canvasHeight: real)
    reads q
  {
    q.AtRest() && q.x == d.x * canvasWidth && q.y == d.y * canvasHeight &&
    q.driftSpeed == 0.3 + d.speed * 0.3 && q.driftRadius == 2.0 + d.radius * 3.0 &&
    q.timeOffset == d.offset * 1000.0
  }

  /** The state `characters.js` keeps beside its functions: the particle list. */
  class Scene {
    var particles: seq<Particle>

    constructor ()
      ensures particles == []
    {
      particles := [];
    }

    /** characters.js:197-246. `draws(k)` gives the random numbers particle `k` consumes.
        Whatever the list held before is discarded. */
    method InitParticles(innerWidth: real, innerHeight: real, canvasWidth: real, canvasHeight: real,
                         draws: nat -> Draws)
      requires canvasWidth >= 0.0 && canvasHeight >= 0.0
      requires forall k: nat :: draws(k).InUnitInterval()
      modifies this
      ensures |particles| == |SceneSeeds(Characters, innerWidth, innerHeight)|
      ensures forall k :: 0 <= k < |particles| ==> fresh(particles[k])
      ensures forall k :: 0 <= k < |particles| ==>
        particles[k].AsSeed() == SceneSeeds(Characters, innerWidth, innerHeight)[k] &&
        StartedFrom(particles[k], draws(k), canvasWidth, canvasHeight)
    {
      CharactersValid();
      particles := [];
      AddPattern(Characters.santa, SantaPlacement(innerWidth, innerHeight), canvasWidth, canvasHeight, draws);
      AddPattern(Characters.tree, TreePlacement(innerWidth, innerHeight), canvasWidth, canvasHeight, draws);
    }

    /** The outer `forEach` of one figure: its rows, top to bottom. */
    method AddPattern(g: seq<seq<int>>, p: Placement, canvasWidth: real, canvasHeight: real,
                      draws: nat -> Draws)
      requires |g| > 0
      requires canvasWidth >= 0.0 && canvasHeight >= 0.0
      requires forall k: nat :: draws(k).InUnitInterval()
      requires forall k :: 0 <= k < |particles| ==> StartedFrom(particles[k], draws(k), canvasWidth, canvasHeight)
      modifies this
      ensures |particles| == |old(particles)| + |Cells(g)|
      ensures particles[..|old(particles)|] == old(particles)
      ensures forall k :: |old(particles)| <= k < |particles| ==>
        fresh(particles[k]) && particles[k].AsSeed() == CellSeed(g, Cells(g)[k - |old(particles)|], p)
      ensures forall k :: 0 <= k < |particles| ==> StartedFrom(particles[k], draws(k), canvasWidth, canvasHeight)
    {
      ghost var start := |particles|;
      var y := 0;
      while y < |g|
        invariant 0 <= y <= |g|
        invariant |particles| == start + |GridCells(g, y)|
        invariant particles[..start] == old(particles)
        invariant forall k :: start <= k < |particles| ==>
          fresh(particles[k]) && particles[k].AsSeed() == CellSeed(g, GridCells(g, y)[k - start], p)
        invariant forall k :: 0 <= k < |particles| ==> StartedFrom(particles[k], draws(k), canvasWidth, canvasHeight)
      {
        ghost var before := particles;
        AddRow(g, y, p, canvasWidth, canvasHeight, draws);
        assert particles[..start] == before[..start];
        y := y + 1;
      }
    }

    /** The inner `forEach` over row `y` of `g`: a particle is appended for each non-zero
        entry, left to right, aimed at that cell's target. */
    method AddRow(g: seq<seq<int>>, y: nat, p: Placement, canvasWidth: real, canvasHeight: real,
                  draws: nat -> Draws)
      requires y < |g|
      requires canvasWidth >= 0.0 && canvasHeight >= 0.0
      requires forall k: nat :: draws(k).InUnitInterval()
      requires forall k :: 0 <= k < |particles| ==> StartedFrom(particles[k], draws(k), canvasWidth, canvasHeight)
      modifies this
      ensures |particles| == |old(particles)| + |RowCells(g[y], y, |g[y]|)|
      ensures particles[..|old(particles)|] == old(particles)
      ensures forall k :: |old(particles)| <= k < |particles| ==>
        fresh(particles[k]) &&
        particles[k].AsSeed() == CellSeed(g, RowCells(g[y], y, |g[y]|)[k - |old(particles)|], p)
      ensures forall k :: 0 <= k < |particles| ==> StartedFrom(particles[k], draws(k), canvasWidth, canvasHeight)
    {
      ghost var start := |particles|;
      var row := g[y];
      var x := 0;
      while x < |row|
        invariant 0 <= x <= |row|
        invariant |particles| == start + |RowCells(row, y, x)|
        invariant particles[..start] == old(particles)
        invariant forall k :: start <= k < |particles| ==>
          fresh(particles[k]) && particles[k].AsSeed() == CellSeed(g, RowCells(row, y, x)[k - start], p)
        invariant forall k :: 0 <= k < |particles| ==> StartedFrom(particles[k], draws(k), canvasWidth, canvasHeight)
      {
        var pixel := row[x];
        if pixel != 0 {
          var targetX := CellTarget(p.anchorX, x, |g[0]|, p.unit);
          var targetY := CellTarget(p.anchorY, y, |g|, p.unit);
          var particle := new Particle(targetX, targetY, ColorOf(pixel), pixel, p.size,
                                       canvasWidth, canvasHeight, draws(|particles|));
          particles := particles + [particle];
        }
        x := x + 1;
      }
    }
  }
}
