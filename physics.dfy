/** The arithmetic of one animation step of a particle (characters.js:121-158):
    the drifting target, the pointer repulsion and the spring-damper
    integration, with the trigonometric and square-root calls taken as inputs. */
module Physics {

  /** Pointer distance below which particles are pushed away (characters.js:138). */
  const RepelRadius: real := 120.0
  /** Largest repulsion, reached as the pointer distance approaches zero (characters.js:141). */
  const RepelStrength: real := 8.0
  /** Fraction of the remaining offset added to the velocity each frame (characters.js:147). */
  const Spring: real := 0.018
  /** Factor the velocity keeps each frame (characters.js:148). */
  const Friction: real := 0.88
  /** Pointer coordinate used when no pointer is over the canvas (characters.js:14-15, 280-281). */
  const FarAway: real := -9999.0

  /** A pair of canvas coordinates or a displacement. */
  datatype Vec = Vec(x: real, y: real)

  function Dot(a: Vec, b: Vec): real
  {
    a.x * b.x + a.y * b.y
  }

  /** One coordinate of the drift offset: `trig` stands for the cosine (for x) or the
      sine (for y) of the drift phase `time * 0.001 * driftSpeed + timeOffset`. */
  function DriftOffset(trig: real, driftRadius: real): real
  {
    trig * driftRadius
  }

  /** The drifting target circles the base target at exactly the drift radius. */
  lemma DriftOnCircle(cosPhase: real, sinPhase: real, driftRadius: real)
    requires cosPhase * cosPhase + sinPhase * sinPhase == 1.0
    ensures var o := Vec(DriftOffset(cosPhase, driftRadius), DriftOffset(sinPhase, driftRadius));
      Dot(o, o) == driftRadius * driftRadius
  {
    calc {
      DriftOffset(cosPhase, driftRadius) * DriftOffset(cosPhase, driftRadius)
        + DriftOffset(sinPhase, driftRadius) * DriftOffset(sinPhase, driftRadius);
      (cosPhase * cosPhase + sinPhase * sinPhase) * (driftRadius * driftRadius);
    }
  }

  /** The guard of the repulsion branch: the pointer is near, but not exactly on, the particle. */
  predicate Repels(dist: real)
  {
    dist < RepelRadius && dist > 0.0
  }

  /** Strength of the push at pointer distance `dist`; only computed inside the guard. */
  function RepelForce(dist: real): (force: real)
    requires Repels(dist)
    ensures 0.0 < force < RepelStrength
  {
    (1.0 - dist / RepelRadius) * RepelStrength
  }

  /** The push weakens strictly as the pointer moves away. */
  lemma RepelForceDecreasing(near: real, far: real)
    requires Repels(near) && Repels(far) && near < far
    ensures RepelForce(far) < RepelForce(near)
  {
    assert far / RepelRadius - near / RepelRadius == (far - near) / RepelRadius;
  }

  /** The offset added to the velocity this frame: the attraction `toTarget`, minus a push of
      strength `RepelForce(dist)` along the unit vector `toPointer / dist` when the guard holds.
      The `dist > 0` half of the guard keeps the division defined. */
  function AppliedDelta(toTarget: Vec, toPointer: Vec, dist: real): (delta: Vec)
    ensures !Repels(dist) ==> delta == toTarget
  {
    if dist < RepelRadius && dist > 0.0 then
      var force := RepelForce(dist);
      Vec(toTarget.x - (toPointer.x / dist) * force, toTarget.y - (toPointer.y / dist) * force)
    else
      toTarget
  }

  /** A square is never negative. */
  lemma SquareNonNegative(w: real)
    ensures w * w >= 0.0
  {
    if w < 0.0 {
      assert w * w == (-w) * (-w);
    }
  }

  lemma ProductNonNegative(a: real, b: real)
    requires a >= 0.0 && b >= 0.0
    ensures a * b >= 0.0
  {
  }

  lemma SquareOfEqual(a: real, b: real)
    requires a == b
    ensures a * a == b * b
  {
  }

  lemma ProductPositive(a: real, b: real)
    requires a > 0.0 && b > 0.0
    ensures a * b > 0.0
  {
  }

  /** Among non-negative numbers, a larger square means a number at least as large. */
  lemma SquareMonotone(a: real, b: real)
    requires a >= 0.0 && b >= 0.0 && a * a >= b * b
    ensures a >= b
  {
    if a < b {
      ProductNonNegative(a, b - a);
      ProductPositive(b, b - a);
      assert false;
    }
  }

  /** If `(px, py) = d * (ux, uy)` has length `d > 0`, then `(ux, uy)` has length one. */
  lemma UnitScaling(ux: real, uy: real, px: real, py: real, d: real)
    requires d > 0.0 && ux * d == px && uy * d == py && d * d == px * px + py * py
    ensures ux * ux + uy * uy == 1.0 && ux * px + uy * py == d
  {
    SquareOfEqual(ux * d, px);
    SquareOfEqual(uy * d, py);
    calc {
      (ux * ux + uy * uy) * (d * d);
      (ux * d) * (ux * d) + (uy * d) * (uy * d);
      px * px + py * py;
      d * d;
    }
    assert ux * px + uy * py == (ux * ux + uy * uy) * d;
  }

  /** Dividing a vector of length `dist` by `dist` gives a vector of length one. */
  lemma UnitDirection(p: Vec, dist: real)
    requires dist > 0.0 && dist * dist == Dot(p, p)
    ensures var u := Vec(p.x / dist, p.y / dist); Dot(u, u) == 1.0 && Dot(u, p) == dist
  {
    var u := Vec(p.x / dist, p.y / dist);
    assert u.x * dist == p.x && u.y * dist == p.y;
    UnitScaling(u.x, u.y, p.x, p.y, dist);
  }

  /** When `dist` is the pointer distance and the guard holds, repulsion changes the applied
      offset by a vector of length exactly `RepelForce(dist)` pointing away from the pointer. */
  lemma RepulsionPushesAway(toTarget: Vec, toPointer: Vec, dist: real)
    requires dist >= 0.0 && dist * dist == Dot(toPointer, toPointer)
    requires Repels(dist)
    ensures var delta := AppliedDelta(toTarget, toPointer, dist);
      var push := Vec(delta.x - toTarget.x, delta.y - toTarget.y);
      Dot(push, push) == RepelForce(dist) * RepelForce(dist) &&
      Dot(push, toPointer) == -(RepelForce(dist) * dist) &&
      Dot(push, toPointer) < 0.0
  {
    var force := RepelForce(dist);
    var u := Vec(toPointer.x / dist, toPointer.y / dist);
    UnitDirection(toPointer, dist);
    var delta := AppliedDelta(toTarget, toPointer, dist);
    var push := Vec(delta.x - toTarget.x, delta.y - toTarget.y);
    assert push == Vec(-(u.x * force), -(u.y * force));
    assert Dot(push, push) == Dot(u, u) * (force * force);
    assert Dot(push, toPointer) == -(Dot(u, toPointer) * force);
    assert force * dist > 0.0;
  }

  /** A pointer whose horizontal or vertical offset alone reaches the repel radius leaves
      the attraction untouched. */
  lemma DistantPointerIgnored(toTarget: Vec, toPointer: Vec, dist: real)
    requires dist >= 0.0 && dist * dist == Dot(toPointer, toPointer)
    requires toPointer.x * toPointer.x >= RepelRadius * RepelRadius
          || toPointer.y * toPointer.y >= RepelRadius * RepelRadius
    ensures AppliedDelta(toTarget, toPointer, dist) == toTarget
  {
    SquareNonNegative(toPointer.x);
    SquareNonNegative(toPointer.y);
    assert dist * dist >= RepelRadius * RepelRadius;
    SquareMonotone(dist, RepelRadius);
  }

  /** The far-away sentinel never repels a particle right of x = -9879 or below y = -9879. */
  lemma SentinelNeverRepels(toTarget: Vec, pos: Vec, dist: real)
    requires pos.x > FarAway + RepelRadius || pos.y > FarAway + RepelRadius
    requires var p := Vec(FarAway - pos.x, FarAway - pos.y); dist >= 0.0 && dist * dist == Dot(p, p)
    ensures AppliedDelta(toTarget, Vec(FarAway - pos.x, FarAway - pos.y), dist) == toTarget
  {
    var p := Vec(FarAway - pos.x, FarAway - pos.y);
    if pos.x > FarAway + RepelRadius {
      assert (-p.x - RepelRadius) * (-p.x + RepelRadius) > 0.0;
    } else {
      assert (-p.y - RepelRadius) * (-p.y + RepelRadius) > 0.0;
    }
    DistantPointerIgnored(toTarget, p, dist);
  }

  /** One axis of a particle: its coordinate and its velocity along that axis. */
  datatype Axis = Axis(pos: real, vel: real)

  /** The spring-damper step on one axis: the velocity takes `Spring` of the applied offset,
      is damped by `Friction`, and the coordinate moves by the new velocity. The step leaves
      an axis exactly where it was if and only if it was at rest and the offset is zero. */
  function Integrate(a: Axis, delta: real): (next: Axis)
    ensures next.pos - a.pos == next.vel
    ensures next == a <==> a.vel == 0.0 && delta == 0.0
  {
    var vel := (a.vel + delta * Spring) * Friction;
    Axis(a.pos + vel, vel)
  }

  /** `n` frames on one axis with the target frozen at `target` and no repulsion. */
  function Relax(a: Axis, target: real, n: nat): Axis
    decreases n
  {
    if n == 0 then a else Relax(Integrate(a, target - a.pos), target, n - 1)
  }

  /** A quadratic measure of how far an axis is from resting at its target; `e` is the
      coordinate minus the target and `v` the velocity. */
  function Energy(e: real, v: real): real
  {
    Friction * Spring * e * e + (1.0 - Friction - Friction * Spring) * e * v + Friction * v * v
  }

  function Pow(base: real, n: nat): real
  {
    if n == 0 then 1.0 else base * Pow(base, n - 1)
  }

  /** The energy bounds the squared distance to the target; so it is zero only at rest on the target. */
  lemma EnergyBoundsOffset(e: real, v: real)
    ensures e * e <= 100.0 * Energy(e, v)
  {
    var k := 651.0 / 11000.0;
    var m := 379199.0 / 137500000.0;
    assert Energy(e, v) - e * e / 100.0 == Friction * (v + k * e) * (v + k * e) + m * e * e;
    SquareNonNegative(v + k * e);
    SquareNonNegative(e);
  }

  /** One undisturbed frame multiplies the energy by exactly `Friction`. */
  lemma EnergyContracts(a: Axis, target: real)
    ensures var next := Integrate(a, target - a.pos);
      Energy(next.pos - target, next.vel) == Friction * Energy(a.pos - target, a.vel)
  {
    var e, v := a.pos - target, a.vel;
    var next := Integrate(a, target - a.pos);
    assert next.vel == Friction * v - Friction * Spring * e;
    assert next.pos - target == (1.0 - Friction * Spring) * e + Friction * v;
  }

  /** With the target frozen and no pointer nearby, the energy decays geometrically. */
  lemma {:induction false} RelaxEnergy(a: Axis, target: real, n: nat)
    decreases n
    ensures var r := Relax(a, target, n);
      Energy(r.pos - target, r.vel) == Pow(Friction, n) * Energy(a.pos - target, a.vel)
  {
    if n > 0 {
      var next := Integrate(a, target - a.pos);
      EnergyContracts(a, target);
      RelaxEnergy(next, target, n - 1);
    }
  }

  /** `0.88^n` is positive, at most 1, and vanishes at least as fast as `1 / (1 + 0.12 n)`. */
  lemma {:induction false} FrictionPowerVanishes(n: nat)
    decreases n
    ensures 0.0 < Pow(Friction, n) <= 1.0
    ensures Pow(Friction, n) * (1.0 + 0.12 * n as real) <= 1.0
  {
    if n > 0 {
      FrictionPowerVanishes(n - 1);
      var p := Pow(Friction, n - 1);
      var m := (n - 1) as real;
      assert Pow(Friction, n) == Friction * p;
      calc {
        Friction * p * (1.0 + 0.12 * n as real);
        Friction * (p * (1.0 + 0.12 * m)) + Friction * 0.12 * p;
      <= Friction * 1.0 + Friction * 0.12 * 1.0;
      <= 1.0;
      }
    }
  }

  /** Convergence: after `n` undisturbed frames the squared distance to the frozen target is
      at most `100 * 0.88^n` times the starting energy. */
  lemma RelaxConverges(a: Axis, target: real, n: nat)
    ensures var r := Relax(a, target, n);
      (r.pos - target) * (r.pos - target) <= 100.0 * Pow(Friction, n) * Energy(a.pos - target, a.vel)
  {
    var r := Relax(a, target, n);
    RelaxEnergy(a, target, n);
    EnergyBoundsOffset(r.pos - target, r.vel);
  }

  /** The energy is never negative. */
  lemma EnergyNonNegative(e: real, v: real)
    ensures Energy(e, v) >= 0.0
  {
    EnergyBoundsOffset(e, v);
    SquareNonNegative(e);
  }

  /** The particle settles on its frozen target: after `n` undisturbed frames the squared
      distance to it is at most `100 / (1 + 0.12 n)` times the starting energy. */
  lemma RelaxSettles(a: Axis, target: real, n: nat)
    ensures var r := Relax(a, target, n);
      (r.pos - target) * (r.pos - target) * (1.0 + 0.12 * n as real) <= 100.0 * Energy(a.pos - target, a.vel)
  {
    RelaxConverges(a, target, n);
    EnergyNonNegative(a.pos - target, a.vel);
    FrictionPowerVanishes(n);
    var r := Relax(a, target, n);
    ScaledBound((r.pos - target) * (r.pos - target), Pow(Friction, n),
      Energy(a.pos - target, a.vel), 1.0 + 0.12 * n as real);
  }

  /** From `d <= 100 p e` and `p k <= 1` with `k` positive follows `d k <= 100 e`. */
  lemma ScaledBound(d: real, p: real, e: real, k: real)
    requires e >= 0.0 && k > 0.0
    requires d <= 100.0 * p * e && p * k <= 1.0
    ensures d * k <= 100.0 * e
  {
    ProductNonNegative(k, 100.0 * p * e - d);
    assert d * k <= 100.0 * e * (p * k);
    ProductNonNegative(100.0 * e, 1.0 - p * k);
  }
}
