/** The enemy spawn scheduler: a timer whose interval shrinks by a fixed step
    with every enemy it releases. */
module Spawning {
  import opened Geometry
  import opened Entities

  /** The first interval between two enemies, in milliseconds. */
  const InitialInterval: real := 1000.0

  /** How much shorter the interval gets with each enemy. */
  const IntervalStep: real := 10.0

  /** The scheduler's two fields: the accumulated time and the current interval. */
  datatype Timer = Timer(elapsed: real, interval: real)

  /** One call of EnemyScheduler.logic on the two fields, and whether it spawns.
      A spawn happens exactly when the accumulated time passes the interval;
      the interval then shrinks by one step and the new interval is taken off
      the accumulator, so accumulator plus interval equals the time seen. */
  function Tick(t: Timer, dt: real): (r: (Timer, bool))
    ensures r.1 <==> t.elapsed + dt > t.interval
    ensures r.1 ==> r.0.interval == t.interval - IntervalStep && r.0.elapsed + r.0.interval == t.elapsed + dt
    ensures !r.1 ==> r.0 == Timer(t.elapsed + dt, t.interval)
  {
    var accumulated := t.elapsed + dt;
    if accumulated > t.interval then
      var shorter := t.interval - IntervalStep;
      (Timer(accumulated - shorter, shorter), true)
    else
      (Timer(accumulated, t.interval), false)
  }

  /** Because the shortened interval is the one taken off, the time carried
      over after a spawn is the overshoot plus one step, so it is always more
      than one step. */
  lemma TickCarriesOverOneStep(t: Timer, dt: real)
    requires Tick(t, dt).1
    ensures Tick(t, dt).0.elapsed == (t.elapsed + dt - t.interval) + IntervalStep
    ensures Tick(t, dt).0.elapsed > IntervalStep
  {
  }

  /** Total of a run of frame times. */
  function Sum(dts: seq<real>): real
  {
    if dts == [] then 0.0 else dts[0] + Sum(dts[1..])
  }

  /** The time consumed by `count` spawns starting from `interval`: the sum of
      the successively shortened intervals. */
  function Consumed(interval: real, count: nat): real
    decreases count
  {
    if count == 0 then 0.0 else (interval - IntervalStep) + Consumed(interval - IntervalStep, count - 1)
  }

  /** The scheduler over a run of frames: the final timer and the number of
      enemies spawned. There is at most one spawn per frame, and every spawn
      has shortened the interval by one step. */
  function Run(t: Timer, dts: seq<real>): (r: (Timer, nat))
    ensures r.1 <= |dts|
    ensures r.0.interval == t.interval - IntervalStep * r.1 as real
    decreases |dts|
  {
    if dts == [] then (t, 0)
    else
      var (next, spawned) := Tick(t, dts[0]);
      var (last, count) := Run(next, dts[1..]);
      (last, count + if spawned then 1 else 0)
  }

  /** No time is lost: what is left in the accumulator plus the intervals
      taken off for the spawns equals the starting accumulator plus all frame
      times. */
  lemma {:induction false} RunConservesTime(t: Timer, dts: seq<real>)
    ensures Run(t, dts).0.elapsed + Consumed(t.interval, Run(t, dts).1) == t.elapsed + Sum(dts)
    decreases |dts|
  {
    if dts != [] {
      var (next, spawned) := Tick(t, dts[0]);
      RunConservesTime(next, dts[1..]);
    }
  }

  /** Once the interval has dropped below zero the scheduler spawns an enemy on
      every frame, as long as no frame time is negative. */
  lemma {:induction false} RunSpawnsEveryFrameOnceIntervalNegative(t: Timer, dts: seq<real>)
    requires t.interval < 0.0 && t.elapsed >= 0.0
    requires forall i :: 0 <= i < |dts| ==> dts[i] >= 0.0
    ensures Run(t, dts).1 == |dts|
    decreases |dts|
  {
    if dts != [] {
      var (next, spawned) := Tick(t, dts[0]);
      assert spawned;
      RunSpawnsEveryFrameOnceIntervalNegative(next, dts[1..]);
    }
  }

  class EnemyScheduler {
    var timeElapsed: real
    var timePerEnemy: real

    constructor ()
      ensures Clock() == Timer(0.0, InitialInterval)
    {
      timeElapsed := 0.0;
      timePerEnemy := InitialInterval;
    }

    function Clock(): Timer
      reads this
    {
      Timer(timeElapsed, timePerEnemy)
    }

    /** EnemyScheduler.logic: advances the timer and, when it fires, appends
        one new enemy to the enemy list. `r` stands for Math.random(). */
    method Logic(elapsed: real, enemies: seq<Enemy>, world: World, r: real)
      returns (spawned: bool, enemies': seq<Enemy>)
      requires 0.0 <= r < 1.0
      modifies this
      ensures (Clock(), spawned) == Tick(old(Clock()), elapsed)
      ensures !spawned ==> enemies' == enemies
      ensures spawned ==>
        |enemies'| == |enemies| + 1 && enemies'[..|enemies|] == enemies &&
        fresh(enemies'[|enemies|]) && enemies'[|enemies|].active &&
        enemies'[|enemies|].attackState == 0 &&
        enemies'[|enemies|].x == r * (world.width - enemies'[|enemies|].width) + enemies'[|enemies|].width / 2.0 &&
        enemies'[|enemies|].y == -enemies'[|enemies|].height / 2.0 &&
        enemies'[|enemies|].vx == 0.0 && enemies'[|enemies|].vy == enemies'[|enemies|].maxVy &&
        enemies'[|enemies|].elapsedUntilNextFire == enemies'[|enemies|].fireRate
    {
      timeElapsed := timeElapsed + elapsed;
      spawned := timeElapsed > timePerEnemy;
      enemies' := enemies;
      if spawned {
        timePerEnemy := timePerEnemy - IntervalStep;
        timeElapsed := timeElapsed - timePerEnemy;
        var enemy := new Enemy(world, r);
        enemies' := enemies + [enemy];
      }
    }
  }
}
