# Santa and Christmas-tree particle animation, modelled in Dafny

`characters.js` draws two pixel-art figures, Santa Claus and a Christmas tree, as clouds of
glowing particles on a canvas. At start-up and on every resize, `initParticles` walks the two
colour-index grids row by row. It creates one `Particle` per non-zero cell. Each particle is
aimed at a target laid out around an anchor: a quarter or three quarters of the viewport width,
and half its height. On every frame, `Particle.update` moves the particle:

- its target drifts on a small circle;
- the pointer pushes it away when it is within 120 pixels;
- a spring-damper step (spring 0.018, friction 0.88) moves it.

This project models those two deterministic parts and proves properties about them:

- `patterns.dfy` (module `Patterns`): the two grids, exactly as in the source, and the
  row-major enumeration of their non-zero cells.
- `palette.dfy` (module `Palette`): the `colors` table and its lookup.
- `physics.dfy` (module `Physics`): the arithmetic of one frame, as pure functions. This covers
  the drift offset, the repulsion guard and force, and the spring-damper step. It also holds
  the lemmas about repulsion and about convergence.
- `particle.dfy` (module `Particles`): the `Particle` class. Its constructor and its `Update`
  method change the fields in place, as the source does.
- `seeding.dfy` (module `Seeding`): the viewport-dependent layout and the specification
  function `SceneSeeds` (what seeding must produce). It also holds the `Scene` class, whose
  `InitParticles` method runs the nested row and column loops.

Inputs the source takes from the browser are parameters:

- `Math.random()` results: each particle takes a `Draws` record of six numbers in [0, 1).
- `Math.cos` and `Math.sin` of the drift phase: `cosPhase` and `sinPhase`. Where the circle
  matters, `DriftOnCircle` requires `cos² + sin² = 1`.
- `Math.sqrt` of the pointer's squared distance: `mouseDist`, with `mouseDist >= 0` and
  `mouseDist² = mdx² + mdy²`.
- The canvas and window sizes.

Coordinates are Dafny `real`s, so IEEE double rounding is not modelled.

Three details of the code shape the model:

- The spring, friction and repulsion constants are fixed in the code, so they are fixed here.
- A figure is not centred exactly on its anchor. Cell `i` of an extent-`n` grid is placed at
  `(i - n/2) * unit`, so a full row's middle is half a cell before the anchor (`RowMiddle`).
- The tree grid is ragged. Its three trunk rows have 11 entries and its first row has 12.
  Centring always uses the first row's length, so the trunk sits a whole cell before the anchor.

## Model

| member | source | states |
|---|---|---|
| `Patterns.CellsEnumerateNonZero` | characters.js:208-223 | The cells seeding visits are exactly the non-zero cells of the grid. Each is visited once, in strictly increasing row-major order, and their number is the grid's non-zero count. |
| `Patterns.PatternShapes` | characters.js:18-60 | Every one of Santa's 20 rows has 14 entries. The tree has 17 rows: rows 0 to 13 have 12 entries, the three trunk rows have 11. |
| `Patterns.PatternsInPalette` | characters.js:18-75 | Every value in both grids is a colour index of `colors`, 0 to 10. |
| `Palette.ColorOf` | characters.js:63-75 | `colors[i]` is defined exactly for 0..10. Index 0 is `transparent`. Every other index gives a `#` followed by six upper-case hexadecimal digits. Any other index is `undefined`. |
| `Physics.DriftOnCircle` | characters.js:123-128 | When cos² + sin² = 1, the drifting target lies on the circle of radius `driftRadius` around the base target. |
| `Physics.RepelForce` | characters.js:138-141 | Inside the guard 0 < dist < 120, the force `(1 - dist/120) * 8` lies strictly between 0 and 8. |
| `Physics.RepelForceDecreasing` | characters.js:141 | The force strictly decreases as the pointer distance grows. |
| `Physics.AppliedDelta` | characters.js:131-144 | Outside the guard 0 < dist < 120, the applied offset is exactly the attraction vector. The `dist > 0` half of the guard makes the division well defined. |
| `Physics.RepulsionPushesAway` | characters.js:135-144 | When `dist` is the true pointer distance and the guard holds, repulsion changes the offset by a vector of length exactly `RepelForce(dist)`. The vector points away from the pointer: its dot product with the pointer offset is `-force * dist`, which is below 0. |
| `Physics.DistantPointerIgnored` | characters.js:137-140 | A pointer at least 120 away along one axis leaves the offset untouched. |
| `Physics.SentinelNeverRepels` | characters.js:279-282 | The `-9999` "no pointer" position never repels a particle right of or below -9879. |
| `Physics.Integrate` | characters.js:150-157 | The step leaves position and velocity unchanged if and only if the velocity and the applied offset are both zero. Otherwise the coordinate moves by exactly the new velocity. |
| `Physics.EnergyContracts` | characters.js:147-157 | With no repulsion, one step multiplies the quadratic energy of (offset from target, velocity) by exactly 0.88. |
| `Physics.EnergyBoundsOffset` | characters.js:147-157 | The squared offset from the target is at most 100 times the energy. |
| `Physics.RelaxEnergy` | characters.js:147-157 | After n undisturbed frames toward a fixed target, the energy is 0.88^n times the starting energy. |
| `Physics.RelaxConverges` | characters.js:147-157 | After n undisturbed frames toward a fixed target, the squared distance to it is at most 100 · 0.88^n · the starting energy. |
| `Physics.FrictionPowerVanishes` | characters.js:148 | 0.88^n is positive, at most 1, and at most 1 / (1 + 0.12 n), so it tends to zero. |
| `Physics.RelaxSettles` | characters.js:121-158 | After n undisturbed frames toward a fixed target, the squared distance to it is at most 100 / (1 + 0.12 n) times the starting energy, so the particle settles on its target. |
| `Particles.Particle.constructor` | characters.js:93-119 | Target, colour, colour index and size are the arguments. Velocity is zero and the base equals the target. The start position is the random draws times the canvas size, so it lies inside the canvas. The drift angle is in [0, 2π), the drift speed in [0.3, 0.6), the radius in [2, 5) and the time offset in [0, 1000). |
| `Particles.Particle.Update` | characters.js:121-158 | The new (x, vx) and (y, vy) are one `Integrate` step with the repulsion-adjusted offset toward the drifted target. Target, base, colour, size and drift parameters are unchanged. |
| `Seeding.PlacementSizes` | characters.js:200-206 | Below a width of 768, particles are 4 px and cells are 24 (Santa) and 28 (tree) apart. Otherwise particles are 6 px and cells are 60 and 75 apart. |
| `Seeding.CellTargetStep` | characters.js:211-212 | Neighbouring cells' targets are exactly one unit apart. A target increases strictly with the cell index. |
| `Seeding.RowMiddle` | characters.js:233-234 | A row of `w` cells centred with extent `n` has its middle at `anchor + (w - 1 - n) * unit / 2`. |
| `Seeding.SceneSeedsCount` | characters.js:208-245 | For any viewport, seeding produces one particle per non-zero cell of the two grids. |
| `Seeding.SceneSeedsColours` | characters.js:214-242 | Particle i comes from a non-zero cell: Santa's cells for the first indices, then the tree's. Its colour index is that cell's value and its colour is `colors[value]`. |
| `Seeding.SceneSeedsColoured` | characters.js:214-242 | When both grids use only palette indices, no particle is built with `colors[pixel]` undefined. |
| `Seeding.CharactersColoured` | characters.js:214-242 | For the two figures of the source, every particle gets a defined colour. |
| `Seeding.SceneSeedsRowMajor` | characters.js:208-245 | Within a figure, later particles have targets further down, or in the same row further right. |
| `Seeding.ResizeMovesWithAnchors` | characters.js:203-234 | A resize within one size class keeps the particle count. Each target moves with its figure's anchor: x by 0.25 (Santa) or 0.75 (tree) of the width change, y by 0.5 of the height change. Colours and sizes stay the same. |
| `Seeding.Scene.constructor` | characters.js:12 | The particle list starts empty. |
| `Seeding.Scene.InitParticles` | characters.js:197-246 | The old list is discarded. The new list holds exactly the fresh particles of `SceneSeeds` for the viewport, in order. Particle k is at rest and was started from the k-th random draws. |
| `Seeding.Scene.AddPattern` | characters.js:208-223 | The outer `forEach` appends one fresh particle per non-zero cell of the grid, in row-major order, and keeps the particles already there. |
| `Seeding.Scene.AddRow` | characters.js:209-222 | The inner `forEach` appends one fresh particle per non-zero entry of the row, left to right, aimed at that cell's target. |

## Left out

- Canvas and DOM access are browser I/O: looking up the canvas and its context, the
  missing-canvas early return (characters.js:5-11) and the resizing of the canvas
  (characters.js:249-253).
- `Particle.draw` (characters.js:160-193) and the `glowColors` table (characters.js:78-89)
  are pure rendering with floating-point trigonometry.
- The `animate` loop, `Date.now()` and `requestAnimationFrame` (characters.js:256-270) are
  frame scheduling and wall-clock time. `Update` takes the cosine and sine of the drift phase
  `time * 0.001 * driftSpeed + timeOffset` instead of `time`.
- The pointer event listeners (characters.js:273-299) are browser events. The pointer is an
  input of `Update`, and the `-9999` sentinel they set is covered by `SentinelNeverRepels`.
- The two console messages (characters.js:305-306) are logging.
- `Math.random`, `Math.cos`, `Math.sin` and `Math.sqrt` are inputs, as described above.
  IEEE double rounding is not modelled.
- The literal totals of 208 non-zero Santa cells and 137 tree cells are not part of this
  model. Only the general statement is proved: the particle count equals the non-zero count
  of the two grids.
- Physics.RelaxConverges: convergence (here and in `RelaxSettles`) is proved for a target frozen in place and a pointer
  outside the repel radius. It does not cover the drift target moving along its circle from
  frame to frame.
