/** Properties of the strategies over many ticks. A run applies a strategy
    once per sample of the cat, oldest sample first; the cat is seen only
    through the samples, as the strategies see it. */
module StrategyRuns {
  import opened Wrappers
  import opened Geometry
  import opened Constants
  import opened Strategies

  /** The cat as a strategy sees it on one tick. */
  datatype CatSample = CatSample(angle: real, angularVelocity: real)

  function Last<T>(q: seq<T>): T
    requires |q| > 0
  {
    q[|q| - 1]
  }

  function Init<T>(q: seq<T>): seq<T>
    requires |q| > 0
  {
    q[..|q| - 1]
  }

  // ------------------------------------------------------------ DashOpposite

  /** The opposite-dash strategy applied once per sample. Only the position
      and the cached direction change, and a cached direction stays as it
      is. */
  function DashOppositeRun(m: MathLib, s: MouseState, samples: seq<CatSample>): (r: MouseState)
    requires m.Lawful()
    ensures r == s.(x := r.x, y := r.y, dashDir := r.dashDir)
    ensures s.dashDir.Some? ==> r.dashDir == s.dashDir
    decreases |samples|
  {
    if |samples| == 0 then s
    else DashOppositeStep(m, DashOppositeRun(m, s, Init(samples)), Last(samples).angle)
  }

  /** n glides along the same direction. */
  function GlideRun(s: MouseState, dir: Direction, n: nat): MouseState
    decreases n
  {
    if n == 0 then s else Glide(GlideRun(s, dir, n - 1), dir)
  }

  /** Gliding changes the position and nothing else. */
  lemma {:induction false} GlideRunMoves(s: MouseState, dir: Direction, n: nat)
    ensures var r := GlideRun(s, dir, n); r == MovedTo(s, r.x, r.y)
    decreases n
  {
    if n > 0 {
      GlideRunMoves(s, dir, n - 1);
    }
  }

  /** n glides along dir move the mouse n times its speed along dir. */
  lemma {:induction false} GlideRunDisplacement(s: MouseState, dir: Direction, n: nat)
    ensures var r := GlideRun(s, dir, n);
      r == MovedTo(s, r.x, r.y) &&
      r.x == s.x + (n as real) * (dir.dx * s.speed) && r.y == s.y + (n as real) * (dir.dy * s.speed)
    decreases n
  {
    GlideRunMoves(s, dir, n);
    if n > 0 {
      GlideRunDisplacement(s, dir, n - 1);
    }
  }

  /** Once started, the opposite dash holds the course chosen on its first
      tick whatever the cat does afterwards: n ticks are n glides along the
      unit direction opposite the cat's first angle. */
  lemma {:induction false} DashOppositeHoldsCourse(m: MathLib, s: MouseState, samples: seq<CatSample>)
    requires m.Lawful() && s.dashDir.None? && |samples| > 0
    ensures var dir := OppositeDirection(m, samples[0].angle);
      DashOppositeRun(m, s, samples) == GlideRun(s.(dashDir := Some(dir)), dir, |samples|)
    decreases |samples|
  {
    if |samples| > 1 {
      DashOppositeHoldsCourse(m, s, Init(samples));
      assert Init(samples)[0] == samples[0];
      GlideRunMoves(s.(dashDir := Some(OppositeDirection(m, samples[0].angle))),
        OppositeDirection(m, samples[0].angle), |samples| - 1);
    } else {
      assert Last(samples) == samples[0];
    }
  }

  // ------------------------------------------------------------------ Spiral

  /** Every tick of the spiral run so far had its step defined. */
  ghost predicate SpiralRunDefined(m: MathLib, poolR: real, s: MouseState, samples: seq<CatSample>)
    requires m.Lawful() && 0.0 < poolR
    decreases |samples|, 0
  {
    |samples| == 0 ||
    (SpiralRunDefined(m, poolR, s, Init(samples)) &&
     SpiralStepDefined(SpiralRun(m, poolR, s, Init(samples))))
  }

  /** The spiral strategy applied once per sample. Only the position and the
      spiral strategy's own fields change. */
  function SpiralRun(m: MathLib, poolR: real, s: MouseState, samples: seq<CatSample>): (r: MouseState)
    requires m.Lawful() && 0.0 < poolR && SpiralRunDefined(m, poolR, s, samples)
    ensures r == s.(x := r.x, y := r.y, spiralPhase := r.spiralPhase, spiralFrames := r.spiralFrames,
                    spiralDashDir := r.spiralDashDir, spiralCatStillFrames := r.spiralCatStillFrames)
    decreases |samples|, 1
  {
    if |samples| == 0 then s
    else
      var last := Last(samples);
      SpiralStep(m, poolR, SpiralRun(m, poolR, s, Init(samples)), last.angle, last.angularVelocity)
  }

  /** The cat counts as settled on a tick when it turned by less than the threshold. */
  predicate Settled(c: CatSample) {
    Abs(c.angularVelocity) < CatSettleThreshold
  }

  /** Number of consecutive settled samples at the end of the run. */
  function TrailingSettled(samples: seq<CatSample>): (n: nat)
    ensures n <= |samples|
    decreases |samples|
  {
    if |samples| == 0 || !Settled(Last(samples)) then 0
    else TrailingSettled(Init(samples)) + 1
  }

  /** The last n samples are settled when TrailingSettled counts at least n. */
  lemma {:induction false} TrailingSettledMeans(samples: seq<CatSample>, n: nat)
    requires n <= TrailingSettled(samples)
    ensures forall i :: |samples| - n <= i < |samples| ==> Settled(samples[i])
    decreases |samples|
  {
    if n > 0 {
      TrailingSettledMeans(Init(samples), n - 1);
      forall i | |samples| - n <= i < |samples|
        ensures Settled(samples[i])
      {
        if i < |samples| - 1 {
          assert samples[i] == Init(samples)[i];
        }
      }
    }
  }

  /** The spiral phase never goes back. */
  lemma {:induction false} SpiralPhaseMonotone(m: MathLib, poolR: real, s: MouseState, samples: seq<CatSample>)
    requires m.Lawful() && 0.0 < poolR && SpiralRunDefined(m, poolR, s, samples)
    requires 0 <= s.spiralPhase
    ensures s.spiralPhase <= SpiralRun(m, poolR, s, samples).spiralPhase
    decreases |samples|
  {
    if |samples| > 0 {
      SpiralPhaseMonotone(m, poolR, s, Init(samples));
    }
  }

  /** While the mouse waits at the centre, its stillness counter is the number
      of consecutive settled ticks of the cat just before. */
  lemma {:induction false} StillCounterTracksCat(m: MathLib, poolR: real, s: MouseState, samples: seq<CatSample>)
    requires m.Lawful() && 0.0 < poolR && SpiralRunDefined(m, poolR, s, samples)
    requires s.spiralPhase == 1 && s.spiralCatStillFrames == 0
    requires SpiralRun(m, poolR, s, samples).spiralPhase == 1
    ensures SpiralRun(m, poolR, s, samples).spiralCatStillFrames == TrailingSettled(samples)
    decreases |samples|
  {
    if |samples| > 0 {
      SpiralPhaseMonotone(m, poolR, s, Init(samples));
      StillCounterTracksCat(m, poolR, s, Init(samples));
    }
  }

  /** The cat was settled on the CatSettleFrames consecutive samples from j on. */
  predicate SettledStreak(samples: seq<CatSample>, j: int) {
    0 <= j && j + CatSettleFrames <= |samples| &&
    forall i :: j <= i < j + CatSettleFrames ==> Settled(samples[i])
  }

  /** The spiral dash starts only after the cat has been settled for the
      required number of consecutive ticks. */
  lemma {:induction false} DashNeedsSettledCat(m: MathLib, poolR: real, s: MouseState, samples: seq<CatSample>)
    requires m.Lawful() && 0.0 < poolR && SpiralRunDefined(m, poolR, s, samples)
    requires s.spiralPhase == 1 && s.spiralCatStillFrames == 0
    requires 2 <= SpiralRun(m, poolR, s, samples).spiralPhase
    ensures CatSettleFrames <= |samples|
    ensures exists j :: SettledStreak(samples, j)
    decreases |samples|
  {
    var prev := SpiralRun(m, poolR, s, Init(samples));
    if 2 <= prev.spiralPhase {
      DashNeedsSettledCat(m, poolR, s, Init(samples));
      var j :| SettledStreak(Init(samples), j);
      forall i | j <= i < j + CatSettleFrames
        ensures Settled(samples[i])
      {
        assert samples[i] == Init(samples)[i];
      }
      assert SettledStreak(samples, j);
    } else {
      SpiralPhaseMonotone(m, poolR, s, Init(samples));
      StillCounterTracksCat(m, poolR, s, Init(samples));
      var j := |samples| - CatSettleFrames;
      TrailingSettledMeans(samples, CatSettleFrames);
      assert SettledStreak(samples, j);
    }
  }

  /** n ticks of the spiral dash on its own. */
  function SpiralDashRun(s: MouseState, n: nat): MouseState
    decreases n
  {
    if n == 0 then s else SpiralDash(SpiralDashRun(s, n - 1))
  }

  /** Starting with the frame counter at 0, n dash ticks (at most the
      configured number) move the mouse n times its speed along the stored
      direction and count n frames; the dash ends exactly at the configured
      number. */
  lemma {:induction false} SpiralDashCounts(s: MouseState, n: nat)
    requires s.spiralPhase == 2 && s.spiralFrames == 0 && s.spiralDashDir.Some?
    requires n <= SpiralDashFrames
    ensures SpiralDashRun(s, n) ==
      GlideRun(s, s.spiralDashDir.value, n).(spiralFrames := n,
        spiralPhase := if n == SpiralDashFrames then 3 else 2)
    decreases n
  {
    if n > 0 {
      SpiralDashCounts(s, n - 1);
      GlideRunMoves(s, s.spiralDashDir.value, n - 1);
      DashTick(GlideRun(s, s.spiralDashDir.value, n - 1), s.spiralDashDir.value, n - 1);
    }
  }

  /** One dash tick from frame k glides once and counts one more frame. */
  lemma DashTick(g: MouseState, dir: Direction, k: int)
    requires g.spiralDashDir == Some(dir) && 0 <= k < SpiralDashFrames
    ensures SpiralDash(g.(spiralFrames := k, spiralPhase := 2)) ==
      Glide(g, dir).(spiralFrames := k + 1, spiralPhase := if k + 1 == SpiralDashFrames then 3 else 2)
  {
    var prev := g.(spiralFrames := k, spiralPhase := 2);
    assert Glide(prev, dir) == Glide(g, dir).(spiralFrames := k, spiralPhase := 2);
  }

  /** While dashing, the spiral strategy is the dash alone. */
  lemma {:induction false} SpiralRunDashes(m: MathLib, poolR: real, s: MouseState, samples: seq<CatSample>)
    requires m.Lawful() && 0.0 < poolR
    requires s.spiralPhase == 2 && s.spiralFrames == 0 && s.spiralDashDir.Some?
    requires |samples| <= SpiralDashFrames
    ensures SpiralRunDefined(m, poolR, s, samples)
    ensures SpiralRun(m, poolR, s, samples) == SpiralDashRun(s, |samples|)
    decreases |samples|
  {
    if |samples| > 0 {
      SpiralRunDashes(m, poolR, s, Init(samples));
      SpiralDashCounts(s, |samples| - 1);
    }
  }

  /** The spiral dash lasts exactly the configured number of ticks: starting
      with the frame counter at 0, n ticks (at most that number) are n glides
      along the stored direction that count n frames, and the mouse starts
      spiralling out exactly when n reaches the number. */
  lemma {:induction false} DashLastsFixedTicks(m: MathLib, poolR: real, s: MouseState, samples: seq<CatSample>)
    requires m.Lawful() && 0.0 < poolR
    requires s.spiralPhase == 2 && s.spiralFrames == 0 && s.spiralDashDir.Some?
    requires |samples| <= SpiralDashFrames
    ensures SpiralRunDefined(m, poolR, s, samples)
    ensures SpiralRun(m, poolR, s, samples) ==
      GlideRun(s, s.spiralDashDir.value, |samples|).(spiralFrames := |samples|,
        spiralPhase := if |samples| == SpiralDashFrames then 3 else 2)
  {
    SpiralRunDashes(m, poolR, s, samples);
    SpiralDashCounts(s, |samples|);
  }

  // ------------------------------------------------------------------ Optimal

  /** Every tick of the circling run so far had its step defined. */
  ghost predicate OptimalRunDefined(m: MathLib, poolR: real, s: MouseState, samples: seq<CatSample>)
    requires m.Lawful() && 0.0 < poolR
    decreases |samples|, 0
  {
    |samples| == 0 ||
    (OptimalRunDefined(m, poolR, s, Init(samples)) &&
     OptimalStepDefined(poolR, OptimalRun(m, poolR, s, Init(samples))))
  }

  /** The optimal-circling strategy applied once per sample. Only the
      position and the phase change. */
  function OptimalRun(m: MathLib, poolR: real, s: MouseState, samples: seq<CatSample>): (r: MouseState)
    requires m.Lawful() && 0.0 < poolR && OptimalRunDefined(m, poolR, s, samples)
    ensures r == s.(x := r.x, y := r.y, optimalPhase := r.optimalPhase)
    decreases |samples|, 1
  {
    if |samples| == 0 then s
    else OptimalStep(m, poolR, OptimalRun(m, poolR, s, Init(samples)), Last(samples).angle)
  }

  /** The dash boundary lies inside the circling radius, so the tick after the
      cat is found opposite does not walk outward: it switches straight to
      the final dash, leaving the mouse where it is. */
  lemma {:induction false} OppositeCatStartsDash(m: MathLib, poolR: real, s: MouseState, catAngle: real)
    requires m.Lawful() && 0.0 < poolR && Norm2(s.x, s.y) != 0.0
    ensures var r := OptimalCircle(m, poolR, s, catAngle);
      Norm2(r.x, r.y) != 0.0 &&
      OptimalOutward(m, poolR, r) == r.(optimalPhase := 3)
  {
    hide OptimalCircle, OptimalOutward, MathLib.Lawful, MathLib.Sqrt, Norm2;
    var r := OptimalCircle(m, poolR, s, catAngle);
    var c := OptimalCircleRadius(poolR);
    SquareMonotone(DashBoundary(poolR), c);
    OptimalCircleTurnsAway(m, poolR, s, catAngle);
    assert Norm2(r.x, r.y) == c * c;
  }

  /** Distance from the centre after n outward steps of the given length
      from distance d. */
  function OutwardDistance(d: real, speed: real, n: nat): real
    decreases n
  {
    if n == 0 then d else OutwardDistance(d, speed, n - 1) + speed
  }

  /** n outward steps add n times the step length. */
  lemma {:induction false} OutwardDistanceIs(d: real, speed: real, n: nat)
    ensures OutwardDistance(d, speed, n) == d + (n as real) * speed
    decreases n
  {
    if n > 0 {
      OutwardDistanceIs(d, speed, n - 1);
      var k := (n - 1) as real;
      assert (n as real) * speed == k * speed + speed;
    }
  }

  /** Steps of nonnegative length never bring the mouse closer. */
  lemma {:induction false} OutwardDistanceGrows(d: real, speed: real, n: nat)
    requires 0.0 <= speed
    ensures d <= OutwardDistance(d, speed, n)
    decreases n
  {
    if n > 0 {
      OutwardDistanceGrows(d, speed, n - 1);
    }
  }

  /** The mouse r is s moved to distance dist from the centre, nothing else
      changed. */
  predicate MovedOutTo(s: MouseState, r: MouseState, dist: real) {
    r == s.(x := r.x, y := r.y) && Norm2(r.x, r.y) == dist * dist
  }

  /** One final-dash step taken by t, which is s moved to distance dist > 0,
      leaves s moved to distance dist + speed. */
  lemma {:induction false} OutwardStepFrom(m: MathLib, poolR: real, s: MouseState, t: MouseState,
                                           dist: real, catAngle: real)
    requires m.Lawful() && 0.0 < poolR && s.optimalPhase == 3
    requires 0.0 < dist && MovedOutTo(s, t, dist)
    ensures Norm2(t.x, t.y) != 0.0 && OptimalStepDefined(poolR, t)
    ensures MovedOutTo(s, OptimalStep(m, poolR, t, catAngle), dist + s.speed)
  {
    MulLt(dist, 0.0, dist, 0.0, dist * dist);
    SqrtOfSquareOf(m, Norm2(t.x, t.y), dist);
    RadialStepMoves(m, t, t.speed);
  }

  /** One more final-dash tick after a run that left the mouse at distance
      dist > 0. */
  lemma {:induction false} FinalDashTick(m: MathLib, poolR: real, s: MouseState, samples: seq<CatSample>,
                                         dist: real)
    requires m.Lawful() && 0.0 < poolR && s.optimalPhase == 3 && 0.0 < dist && |samples| > 0
    requires OptimalRunDefined(m, poolR, s, Init(samples))
    requires MovedOutTo(s, OptimalRun(m, poolR, s, Init(samples)), dist)
    ensures OptimalRunDefined(m, poolR, s, samples)
    ensures MovedOutTo(s, OptimalRun(m, poolR, s, samples), dist + s.speed)
  {
    OutwardStepFrom(m, poolR, s, OptimalRun(m, poolR, s, Init(samples)), dist, Last(samples).angle);
  }

  /** In the final dash the mouse walks straight out along its radius: after n
      ticks from distance d it is at distance d + n * speed (OutwardDistanceIs),
      and nothing but its position changes. */
  lemma {:induction false} FinalDashGoesStraightOut(m: MathLib, poolR: real, s: MouseState, samples: seq<CatSample>)
    requires m.Lawful() && 0.0 < poolR
    requires s.optimalPhase == 3 && Norm2(s.x, s.y) != 0.0 && 0.0 <= s.speed
    ensures OptimalRunDefined(m, poolR, s, samples)
    ensures MovedOutTo(s, OptimalRun(m, poolR, s, samples),
                       OutwardDistance(m.Sqrt(Norm2(s.x, s.y)), s.speed, |samples|))
    decreases |samples|
  {
    var d := m.Sqrt(Norm2(s.x, s.y));
    SqrtPositive(m, Norm2(s.x, s.y));
    if |samples| > 0 {
      var init := Init(samples);
      FinalDashGoesStraightOut(m, poolR, s, init);
      var dist := OutwardDistance(d, s.speed, |init|);
      assert OutwardDistance(d, s.speed, |samples|) == dist + s.speed;
      OutwardDistanceGrows(d, s.speed, |init|);
      FinalDashTick(m, poolR, s, samples, dist);
    }
  }
}
