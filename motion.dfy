/** Motion features of one track (features_motion.py): the binary motion
    gate over recent per-frame displacements and the window-averaged
    velocity over the centroid history.  Both are pure. */
module Motion {
  import opened Common
  import opened Config

  /** Number of entries of `deltas` (squared displacements) whose distance
      reaches `m`: the generator `sum(d >= m for d in deltas)`. */
  function CountAtLeast(deltas: seq<nat>, m: real): (n: nat)
    requires m >= 0.0
    ensures n <= |deltas|
  {
    if deltas == [] then 0
    else CountAtLeast(deltas[..|deltas| - 1], m) + (if AtLeast(deltas[|deltas| - 1], m) then 1 else 0)
  }

  /** The positions of `deltas` whose displacement reaches `m`. */
  ghost function MovingIndices(deltas: seq<nat>, m: real): set<nat>
    requires m >= 0.0
  {
    set i: nat | i < |deltas| && AtLeast(deltas[i], m)
  }

  /** The count is the number of qualifying positions. */
  lemma {:induction false} CountIsCardinality(deltas: seq<nat>, m: real)
    requires m >= 0.0
    ensures CountAtLeast(deltas, m) == |MovingIndices(deltas, m)|
  {
    if deltas != [] {
      var n := |deltas| - 1;
      var init := deltas[..n];
      CountIsCardinality(init, m);
      var before := MovingIndices(init, m);
      var after := MovingIndices(deltas, m);
      if AtLeast(deltas[n], m) {
        assert after == before + {n};
        assert n !in before;
      } else {
        assert after == before;
      }
    }
  }

  /** binary_motion_detect: no list, or fewer than DETECT_WINDOW_FRAMES
      entries, is "not moving" whatever the values; otherwise moving exactly
      when at least DETECT_MIN_COUNT of ALL the entries passed in reach
      MIN_FRAME_DISPLACEMENT_PX. */
  function BinaryMotionDetect(recentDeltas: Option<seq<nat>>, cfg: Settings): (moving: bool)
    requires cfg.Valid()
    ensures recentDeltas.None? ==> !moving
    ensures recentDeltas.Some? && |recentDeltas.value| < cfg.detectWindowFrames ==> !moving
    ensures moving <==>
              && recentDeltas.Some?
              && |recentDeltas.value| >= cfg.detectWindowFrames
              && |MovingIndices(recentDeltas.value, cfg.minFrameDisplacementPx)| >= cfg.detectMinCount
  {
    match recentDeltas
    case None => false
    case Some(d) =>
      if |d| < cfg.detectWindowFrames then false
      else
        CountIsCardinality(d, cfg.minFrameDisplacementPx);
        CountAtLeast(d, cfg.minFrameDisplacementPx) >= cfg.detectMinCount
  }

  lemma {:induction false} CountMonotone(d1: seq<nat>, d2: seq<nat>, m: real)
    requires m >= 0.0
    requires |d1| == |d2|
    requires forall i :: 0 <= i < |d1| ==> d1[i] <= d2[i]
    ensures CountAtLeast(d1, m) <= CountAtLeast(d2, m)
  {
    if d1 != [] {
      var n := |d1| - 1;
      CountMonotone(d1[..n], d2[..n], m);
    }
  }

  /** Larger displacements never switch the gate off. */
  lemma GateMonotone(d1: seq<nat>, d2: seq<nat>, cfg: Settings)
    requires cfg.Valid()
    requires |d1| == |d2|
    requires forall i :: 0 <= i < |d1| ==> d1[i] <= d2[i]
    ensures BinaryMotionDetect(Some(d1), cfg) ==> BinaryMotionDetect(Some(d2), cfg)
  {
    CountMonotone(d1, d2, cfg.minFrameDisplacementPx);
    CountIsCardinality(d1, cfg.minFrameDisplacementPx);
    CountIsCardinality(d2, cfg.minFrameDisplacementPx);
  }

  /** A window of pure jitter (every displacement below the threshold) is
      never read as motion unless DETECT_MIN_COUNT is 0. */
  lemma JitterIsNotMotion(d: seq<nat>, cfg: Settings)
    requires cfg.Valid() && cfg.detectMinCount >= 1
    requires forall i :: 0 <= i < |d| ==> !AtLeast(d[i], cfg.minFrameDisplacementPx)
    ensures !BinaryMotionDetect(Some(d), cfg)
  {
    assert MovingIndices(d, cfg.minFrameDisplacementPx) == {};
  }

  /** (speed, angle) of windowed_velocity.  The speed is carried as its
      square: `speedSq == speed * speed` for the non-negative speed. */
  datatype Velocity = Velocity(speedSq: Option<real>, angle: Option<real>)

  /** Square of `distance * FPS / N` for a squared distance `d2`. */
  function SpeedSq(d2: nat, cfg: Settings): real
    requires cfg.Valid()
  {
    (d2 * cfg.fps * cfg.fps) as real / (cfg.velocityWindowFrames * cfg.velocityWindowFrames) as real
  }

  /** windowed_velocity.  `heading(dx, dy)` stands for
      `degrees(arctan2(dy, dx))`, which is not modelled. */
  function WindowedVelocity(history: Option<seq<Point>>, cfg: Settings, heading: (int, int) -> real): (v: Velocity)
    requires cfg.Valid()
    ensures v.speedSq.None? <==> history.None? || |history.value| < cfg.velocityWindowFrames + 1
    ensures v.speedSq.None? ==> v.angle.None?
    ensures v.speedSq.Some? ==> v.speedSq.value >= 0.0
  {
    var n := cfg.velocityWindowFrames;
    match history
    case None => Velocity(None, None)
    case Some(h) =>
      if |h| < n + 1 then Velocity(None, None)
      else
        var p0 := h[|h| - (n + 1)];
        var p1 := h[|h| - 1];
        var dx := p1.x - p0.x;
        var dy := p1.y - p0.y;
        var d2 := Dist2(p1, p0);
        if !AtLeast(d2, cfg.minDisplacementPx) then Velocity(Some(0.0), None)
        else Velocity(Some(SpeedSq(d2, cfg)), Some(heading(dx, dy)))
  }

  /** Only the sample N+1 positions back and the newest sample matter;
      the path in between does not. */
  lemma VelocityUsesEndpointsOnly(h1: seq<Point>, h2: seq<Point>, cfg: Settings, heading: (int, int) -> real)
    requires cfg.Valid()
    requires |h1| > cfg.velocityWindowFrames && |h2| > cfg.velocityWindowFrames
    requires h1[|h1| - 1] == h2[|h2| - 1]
    requires h1[|h1| - (cfg.velocityWindowFrames + 1)] == h2[|h2| - (cfg.velocityWindowFrames + 1)]
    ensures WindowedVelocity(Some(h1), cfg, heading) == WindowedVelocity(Some(h2), cfg, heading)
  {
  }

  /** Net displacement below MIN_DISPLACEMENT_PX reads as speed 0 with no
      heading; at or above it, the squared speed is the squared distance
      scaled by (FPS/N)^2, which is positive exactly when the two endpoints
      differ. */
  lemma VelocityMeaning(h: seq<Point>, cfg: Settings, heading: (int, int) -> real)
    requires cfg.Valid()
    requires |h| > cfg.velocityWindowFrames
    ensures var n := cfg.velocityWindowFrames;
            var p0 := h[|h| - (n + 1)];
            var p1 := h[|h| - 1];
            var d2 := Dist2(p1, p0);
            var v := WindowedVelocity(Some(h), cfg, heading);
            && (!AtLeast(d2, cfg.minDisplacementPx) ==> v == Velocity(Some(0.0), None))
            && (AtLeast(d2, cfg.minDisplacementPx) ==>
                  && v.angle == Some(heading(p1.x - p0.x, p1.y - p0.y))
                  && v.speedSq.value * (n * n) as real == (d2 * cfg.fps * cfg.fps) as real
                  && (v.speedSq.value > 0.0 <==> p1 != p0))
  {
    var n := cfg.velocityWindowFrames;
    var p0 := h[|h| - (n + 1)];
    var p1 := h[|h| - 1];
    var d2 := Dist2(p1, p0);
    if AtLeast(d2, cfg.minDisplacementPx) {
      var nn := (n * n) as real;
      assert nn > 0.0;
      var num := d2 * cfg.fps * cfg.fps;
      if p1 != p0 {
        assert d2 > 0;
        PositiveIntProduct(d2, cfg.fps);
        PositiveQuotient(num as real, nn);
      } else {
        assert num == 0;
      }
    }
  }

  /** A reported heading comes with a speed of at least
      MIN_DISPLACEMENT_PX * FPS / N, stated squared and multiplied out:
      speed^2 * N^2 >= MIN_DISPLACEMENT_PX^2 * FPS^2. */
  lemma SpeedFloor(h: seq<Point>, cfg: Settings, heading: (int, int) -> real)
    requires cfg.Valid()
    requires |h| > cfg.velocityWindowFrames
    ensures var n := cfg.velocityWindowFrames;
            var v := WindowedVelocity(Some(h), cfg, heading);
            v.angle.Some? ==> v.speedSq.value * (n * n) as real >= Squared(cfg.minDisplacementPx) * (cfg.fps * cfg.fps) as real
  {
    var n := cfg.velocityWindowFrames;
    var d2 := Dist2(h[|h| - 1], h[|h| - (n + 1)]);
    VelocityMeaning(h, cfg, heading);
    if AtLeast(d2, cfg.minDisplacementPx) {
      var ff := (cfg.fps * cfg.fps) as real;
      assert (d2 * cfg.fps * cfg.fps) as real == d2 as real * ff;
      ScaleAtLeast(d2 as real, Squared(cfg.minDisplacementPx), ff);
    }
  }

  lemma PositiveIntProduct(d: nat, f: nat)
    requires d > 0 && f > 0
    ensures d * f * f > 0
  {
  }

  lemma PositiveQuotient(x: real, y: real)
    requires x > 0.0 && y > 0.0
    ensures x / y > 0.0
  {
  }
}
