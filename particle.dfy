/** The `Particle` class of characters.js:92-194: one glowing dot that springs towards a
    drifting target and is pushed away by the pointer. */
module Particles {
  import opened Palette
  import opened Physics

  /** `Math.PI` as a double, printed exactly. */
  const Pi: real := 3.141592653589793

  /** The six `Math.random()` results one construction consumes, in source order: start x,
      start y, drift angle, drift speed, drift radius and time offset. */
  datatype Draws = Draws(x: real, y: real, angle: real, speed: real, radius: real, offset: real)
  {
    /** Each value lies in [0, 1), as `Math.random()` promises. */
    predicate InUnitInterval()
    {
      0.0 <= x < 1.0 && 0.0 <= y < 1.0 && 0.0 <= angle < 1.0 &&
      0.0 <= speed < 1.0 && 0.0 <= radius < 1.0 && 0.0 <= offset < 1.0
    }
  }

  /** What the seeding code decides about a particle: its resting target, its colour and size. */
  datatype Seed = Seed(targetX: real, targetY: real, color: Option<string>, colorIndex: int, size: real)

  class Particle {
    var x: real
    var y: real
    var targetX: real
    var targetY: real
    var color: Option<string>
    var colorIndex: int
    var size: real
    var vx: real
    var vy: real
    var driftAngle: real
    var driftSpeed: real
    var driftRadius: real
    var timeOffset: real
    var baseX: real
    var baseY: real

    /** The constructor arguments this particle was built from. */
    function AsSeed(): Seed
      reads this
    {
      Seed(targetX, targetY, color, colorIndex, size)
    }

    /** Freshly built: no velocity yet, and the drift centre is the target. */
    predicate AtRest()
      reads this
    {
      vx == 0.0 && vy == 0.0 && baseX == targetX && baseY == targetY
    }

    /** characters.js:93-119, with the canvas size and the random draws as inputs. */
    constructor (targetX: real, targetY: real, color: Option<string>, colorIndex: int, size: real,
                 canvasWidth: real, canvasHeight: real, draws: Draws)
      requires canvasWidth >= 0.0 && canvasHeight >= 0.0 && draws.InUnitInterval()
      ensures AsSeed() == Seed(targetX, targetY, color, colorIndex, size)
      ensures AtRest()
      ensures x == draws.x * canvasWidth && y == draws.y * canvasHeight
      ensures 0.0 <= x <= canvasWidth && 0.0 <= y <= canvasHeight
      ensures driftAngle == draws.angle * Pi * 2.0 && 0.0 <= driftAngle < 2.0 * Pi
      ensures driftSpeed == 0.3 + draws.speed * 0.3 && 0.3 <= driftSpeed < 0.6
      ensures driftRadius == 2.0 + draws.radius * 3.0 && 2.0 <= driftRadius < 5.0
      ensures timeOffset == draws.offset * 1000.0 && 0.0 <= timeOffset < 1000.0
    {
      this.x := draws.x * canvasWidth;
      this.y := draws.y * canvasHeight;
      this.targetX := targetX;
      this.targetY := targetY;
      this.color := color;
      this.colorIndex := colorIndex;
      this.size := size;
      this.vx := 0.0;
      this.vy := 0.0;
      this.driftAngle := draws.angle * Pi * 2.0;
      this.driftSpeed := 0.3 + draws.speed * 0.3;
      this.driftRadius := 2.0 + draws.radius * 3.0;
      this.timeOffset := draws.offset * 1000.0;
      this.baseX := targetX;
      this.baseY := targetY;
      new;
      ProductNonNegative(draws.x, canvasWidth);
      ProductNonNegative(1.0 - draws.x, canvasWidth);
      ProductNonNegative(draws.y, canvasHeight);
      ProductNonNegative(1.0 - draws.y, canvasHeight);
    }

    /** The target this frame: the base target moved by the drift offset, where `cosPhase` and
        `sinPhase` are the cosine and sine of `time * 0.001 * driftSpeed + timeOffset`. */
    function DriftTarget(cosPhase: real, sinPhase: real): Vec
      reads this
    {
      Vec(baseX + DriftOffset(cosPhase, driftRadius), baseY + DriftOffset(sinPhase, driftRadius))
    }

    /** One frame of motion (characters.js:121-158). The pointer is at (`mouseX`, `mouseY`) and
        `mouseDist` is the square root of the squared distance from the particle to it. */
    method Update(mouseX: real, mouseY: real, cosPhase: real, sinPhase: real, mouseDist: real)
      requires mouseDist >= 0.0
      requires mouseDist * mouseDist == (mouseX - x) * (mouseX - x) + (mouseY - y) * (mouseY - y)
      modifies this
      ensures var target := old(DriftTarget(cosPhase, sinPhase));
        var delta := AppliedDelta(Vec(target.x - old(x), target.y - old(y)),
                                  Vec(mouseX - old(x), mouseY - old(y)), mouseDist);
        Axis(x, vx) == Integrate(Axis(old(x), old(vx)), delta.x) &&
        Axis(y, vy) == Integrate(Axis(old(y), old(vy)), delta.y)
      ensures AsSeed() == old(AsSeed())
      ensures baseX == old(baseX) && baseY == old(baseY)
      ensures driftAngle == old(driftAngle) && driftSpeed == old(driftSpeed)
      ensures driftRadius == old(driftRadius) && timeOffset == old(timeOffset)
    {
      var driftX := cosPhase * driftRadius;
      var driftY := sinPhase * driftRadius;

      var currentTargetX := baseX + driftX;
      var currentTargetY := baseY + driftY;

      var dx := currentTargetX - x;
      var dy := currentTargetY - y;

      var mouseDistX := mouseX - x;
      var mouseDistY := mouseY - y;
      var repelRadius := 120.0;

      if mouseDist < repelRadius && mouseDist > 0.0 {
        var repelForce := (1.0 - mouseDist / repelRadius) * 8.0;
        dx := dx - (mouseDistX / mouseDist) * repelForce;
        dy := dy - (mouseDistY / mouseDist) * repelForce;
      }

      var spring := 0.018;
      var friction := 0.88;

      vx := vx + dx * spring;
      vy := vy + dy * spring;

      vx := vx * friction;
      vy := vy * friction;

      x := x + vx;
      y := y + vy;
    }
  }
}
