// The round controller (RoundService): a round asks the registry for
// Fibonacci(Round) monsters and starts a three-second countdown; when the
// countdown runs out the race is fired. The round number starts at 4 and
// only the end of a round raises it.
//
// `Time.deltaTime` arrives as `dt`. `Fire` is a hook on the entity service
// that the registry in this repository does not define; the model counts
// its calls. The round-end callback handed to the registry is likewise not
// part of the registry shown, so nothing calls EndRound here but a caller.
module Rounds {
  import opened MathHelper
  import opened CameraUtilities
  import opened Spawning
  import opened Registry

  /** Seconds between the start of a round and the race. */
  const SpawnDelay: real := 3.0
  /** The round number before the first round ends. */
  const InitialRound: int32 := 4
  /** `(int)SpawnDelay + 1`: the countdown value a round starts from. */
  const CountdownStart: int := 4

  /** Mathf.CeilToInt: the least integer not below `x`. */
  function CeilToInt(x: real): (r: int)
    ensures (r - 1) as real < x <= r as real
  {
    -((-x).Floor)
  }

  /** The countdown fields of the controller. */
  datatype Clock = Clock(spawnDelayTimer: real, isSpawnReady: bool, lastCountdown: int)

  /** The timer stays below the delay, and is zero whenever the controller
      is ready. */
  predicate ClockValid(c: Clock)
  {
    && 0.0 <= c.spawnDelayTimer < SpawnDelay
    && (c.isSpawnReady ==> c.spawnDelayTimer == 0.0)
  }

  /** A clock after one tick, and whether that tick fired the race. */
  datatype Tick = Tick(clock: Clock, fired: bool)

  /** One countdown tick of `dt` seconds. */
  function TimeStep(c: Clock, dt: real): (t: Tick)
    ensures c.isSpawnReady ==> t == Tick(c, false)
    ensures t.fired <==> !c.isSpawnReady && c.spawnDelayTimer + dt >= SpawnDelay
    ensures t.fired ==> t.clock.isSpawnReady && t.clock.spawnDelayTimer == 0.0
    ensures !c.isSpawnReady && !t.fired ==>
              !t.clock.isSpawnReady && t.clock.spawnDelayTimer == c.spawnDelayTimer + dt
    ensures t.clock.lastCountdown <= c.lastCountdown
    ensures t.clock.lastCountdown == c.lastCountdown
         || t.clock.lastCountdown == CeilToInt(SpawnDelay - (c.spawnDelayTimer + dt))
    ensures !t.fired && c.lastCountdown >= 1 ==> t.clock.lastCountdown >= 1
    ensures ClockValid(c) && dt >= 0.0 ==> ClockValid(t.clock)
  {
    if c.isSpawnReady then Tick(c, false)
    else
      var timer := c.spawnDelayTimer + dt;
      var secondsRemaining := CeilToInt(SpawnDelay - timer);
      var countdown := if secondsRemaining < c.lastCountdown then secondsRemaining else c.lastCountdown;
      if timer >= SpawnDelay then Tick(Clock(0.0, true, countdown), true)
      else Tick(Clock(timer, false, countdown), false)
  }

  /** How many times a run of ticks fires the race. */
  function Fires(c: Clock, dts: seq<real>): nat
    decreases |dts|
  {
    if dts == [] then 0
    else
      var t := TimeStep(c, dts[0]);
      (if t.fired then 1 else 0) + Fires(t.clock, dts[1..])
  }

  /** Between two round starts the race fires at most once: never when the
      controller is ready, and otherwise exactly when the accumulated time
      reaches the delay. */
  lemma {:induction false} FiresOnceAfterDelay(c: Clock, dts: seq<real>)
    requires ClockValid(c)
    requires forall i :: 0 <= i < |dts| ==> dts[i] >= 0.0
    ensures Fires(c, dts) <= 1
    ensures c.isSpawnReady ==> Fires(c, dts) == 0
    ensures !c.isSpawnReady ==> (Fires(c, dts) == 1 <==> c.spawnDelayTimer + Sum(dts) >= SpawnDelay)
    decreases |dts|
  {
    if dts != [] {
      var t := TimeStep(c, dts[0]);
      FiresOnceAfterDelay(t.clock, dts[1..]);
      SumNonNegative(dts[1..]);
      assert Sum(dts) == dts[0] + Sum(dts[1..]);
    }
  }

  class RoundService {
    /** The registry; may be null, and then every call to it is skipped. */
    const entityService: EntityService?
    var round: int32
    var spawnDelayTimer: real
    var isSpawnReady: bool
    var lastCountdown: int
    /** Calls of the entity service's Fire hook. */
    var fireCalls: nat

    function CurrentClock(): Clock
      reads this
    {
      Clock(spawnDelayTimer, isSpawnReady, lastCountdown)
    }

    ghost predicate Valid()
      reads this, entityService
    {
      && ClockValid(CurrentClock())
      && (entityService != null ==> entityService.Valid())
    }

    constructor (entityService: EntityService?)
      requires entityService != null ==> entityService.Valid()
      ensures Valid() && this.entityService == entityService
      ensures round == InitialRound && fireCalls == 0
      ensures CurrentClock() == Clock(0.0, true, 0)
    {
      this.entityService := entityService;
      round := InitialRound;
      spawnDelayTimer := 0.0;
      isSpawnReady := true;
      lastCountdown := 0;
      fireCalls := 0;
    }

    /** Hands the lane heights to the registry. */
    method Initialization(spawnHeights: seq<real>)
      requires Valid()
      modifies entityService
      ensures Valid()
      ensures entityService != null ==>
                && entityService.spawnHeights == spawnHeights && entityService.heightsAssigned
                && entityService.monsters == old(entityService.monsters)
                && entityService.monstersToRemove == old(entityService.monstersToRemove)
                && entityService.lastMonsterId == old(entityService.lastMonsterId)
                && entityService.currentCount == old(entityService.currentCount)
                && entityService.poolCountActive == old(entityService.poolCountActive)
    {
      if entityService != null {
        entityService.Initialization(spawnHeights);
      }
    }

    /** The registry's sweep first, then the countdown. */
    method Update(dt: real)
      requires Valid() && dt >= 0.0
      modifies this, entityService
      ensures Valid()
      ensures round == old(round)
      ensures CurrentClock() == TimeStep(old(CurrentClock()), dt).clock
      ensures fireCalls == old(fireCalls) + (if entityService != null && TimeStep(old(CurrentClock()), dt).fired then 1 else 0)
      ensures entityService != null ==>
                && entityService.monstersToRemove == Swept(old(entityService.monstersToRemove), dt)
                && entityService.monsters == old(entityService.monsters)
                                             - Expired(Decremented(old(entityService.monstersToRemove), dt))
                && entityService.poolCountActive == old(entityService.poolCountActive)
                                                    - |Expired(Decremented(old(entityService.monstersToRemove), dt))|
                && entityService.currentCount == old(entityService.currentCount)
                && entityService.lastMonsterId == old(entityService.lastMonsterId)
                && entityService.spawnHeights == old(entityService.spawnHeights)
                && entityService.heightsAssigned == old(entityService.heightsAssigned)
    {
      if entityService != null {
        entityService.Update(dt);
      }
      TimeProcess(dt);
    }

    /** Nothing happens while ready. While waiting the timer accumulates
        `dt`, the countdown follows the whole seconds left and never rises,
        and once the delay is reached the timer resets, the controller is
        ready again and the race is fired. */
    method TimeProcess(dt: real)
      requires ClockValid(CurrentClock()) && dt >= 0.0
      modifies this`spawnDelayTimer, this`isSpawnReady, this`lastCountdown, this`fireCalls
      ensures CurrentClock() == TimeStep(old(CurrentClock()), dt).clock
      ensures fireCalls == old(fireCalls) + (if entityService != null && TimeStep(old(CurrentClock()), dt).fired then 1 else 0)
      ensures ClockValid(CurrentClock())
    {
      if isSpawnReady {
        return;
      }
      spawnDelayTimer := spawnDelayTimer + dt;
      var secondsRemaining := CeilToInt(SpawnDelay - spawnDelayTimer);
      if secondsRemaining < lastCountdown {
        lastCountdown := secondsRemaining;
      }
      if spawnDelayTimer >= SpawnDelay {
        spawnDelayTimer := 0.0;
        isSpawnReady := true;
        Fire();
      }
    }

    /** Asks the registry for Fibonacci(Round) monsters, then starts the
        countdown. An exception from the registry leaves the countdown
        fields as they were. */
    method StartRound(rolls: seq<SpawnRoll>, cam: CameraView) returns (outcome: Outcome)
      requires Valid()
      requires entityService != null ==>
                 && |rolls| == (if Fibonacci(round) > 0 then Fibonacci(round) as int else 0)
                 && ValidRolls(rolls, |entityService.spawnHeights|)
      modifies this`isSpawnReady, this`lastCountdown, entityService
      ensures Valid()
      ensures entityService == null ==> outcome == Completed
      ensures entityService != null ==>
                && entityService.currentCount == Fibonacci(round)
                && entityService.spawnHeights == old(entityService.spawnHeights)
                && entityService.heightsAssigned == old(entityService.heightsAssigned)
                && entityService.monstersToRemove == old(entityService.monstersToRemove)
                && outcome == (if rolls != [] then entityService.LaneLookup() else Completed)
                && (outcome.Completed? ==>
                      && entityService.monsters == old(entityService.monsters)
                           + Batch(old(entityService.lastMonsterId), rolls, entityService.spawnHeights,
                                   GetStartPosition(cam).x, entityService.spriteWidth)
                      && |entityService.monsters| == |old(entityService.monsters)| + |rolls|
                      && entityService.lastMonsterId == old(entityService.lastMonsterId) + |rolls|
                      && entityService.poolCountActive == old(entityService.poolCountActive) + |rolls|)
                && (outcome.Threw? ==>
                      && entityService.monsters == old(entityService.monsters)
                      && entityService.lastMonsterId == old(entityService.lastMonsterId) + 1
                      && entityService.poolCountActive == old(entityService.poolCountActive) + 1)
      ensures outcome.Completed? ==> !isSpawnReady && lastCountdown == CountdownStart
      ensures outcome.Threw? ==> isSpawnReady == old(isSpawnReady) && lastCountdown == old(lastCountdown)
    {
      outcome := Completed;
      if entityService != null {
        outcome := entityService.Spawn(Fibonacci(round), rolls, cam);
        if outcome.Threw? {
          return;
        }
      }
      isSpawnReady := false;
      lastCountdown := CountdownStart;
    }

    /** Calls Fire on the registry, when there is one. */
    method Fire()
      modifies this`fireCalls
      ensures fireCalls == old(fireCalls) + (if entityService != null then 1 else 0)
    {
      if entityService != null {
        fireCalls := fireCalls + 1;
      }
    }

    /** Raises the round number by one (as a 32-bit int) and starts the
        next round. */
    method EndRound(rolls: seq<SpawnRoll>, cam: CameraView) returns (outcome: Outcome)
      requires Valid()
      requires entityService != null ==>
                 && |rolls| == (if Fibonacci(Int32Wrap(round as int + 1)) > 0
                                then Fibonacci(Int32Wrap(round as int + 1)) as int else 0)
                 && ValidRolls(rolls, |entityService.spawnHeights|)
      modifies this`round, this`isSpawnReady, this`lastCountdown, entityService
      ensures Valid()
      ensures round == Int32Wrap(old(round) as int + 1)
      ensures entityService == null ==> outcome == Completed
      ensures entityService != null ==>
                && entityService.currentCount == Fibonacci(round)
                && entityService.spawnHeights == old(entityService.spawnHeights)
                && entityService.heightsAssigned == old(entityService.heightsAssigned)
                && entityService.monstersToRemove == old(entityService.monstersToRemove)
                && outcome == (if rolls != [] then entityService.LaneLookup() else Completed)
                && (outcome.Completed? ==>
                      && entityService.monsters == old(entityService.monsters)
                           + Batch(old(entityService.lastMonsterId), rolls, entityService.spawnHeights,
                                   GetStartPosition(cam).x, entityService.spriteWidth)
                      && |entityService.monsters| == |old(entityService.monsters)| + |rolls|
                      && entityService.lastMonsterId == old(entityService.lastMonsterId) + |rolls|
                      && entityService.poolCountActive == old(entityService.poolCountActive) + |rolls|)
                && (outcome.Threw? ==>
                      && entityService.monsters == old(entityService.monsters)
                      && entityService.lastMonsterId == old(entityService.lastMonsterId) + 1
                      && entityService.poolCountActive == old(entityService.poolCountActive) + 1)
      ensures outcome.Completed? ==> !isSpawnReady && lastCountdown == CountdownStart
      ensures outcome.Threw? ==> isSpawnReady == old(isSpawnReady) && lastCountdown == old(lastCountdown)
    {
      round := Int32Wrap(round as int + 1);
      outcome := StartRound(rolls, cam);
    }
  }

  /** From the first round up to round 46 every round spawns at least as
      many monsters as the one before, and the counts are exact Fibonacci
      numbers (so the first two rounds spawn F(4) = 3 and F(5) = 5). */
  lemma RoundCountsGrow(r: int32)
    requires InitialRound <= r < 46
    ensures Int32Wrap(r as int + 1) == r + 1
    ensures 0 < Fibonacci(r) <= Fibonacci(r + 1)
    ensures Fibonacci(r) == Fib(r as nat)
  {
    FibonacciIsFib(r);
    FibonacciIsFib(r + 1);
    FibMonotone(r as nat, r as nat + 1);
    FibMonotone(4, r as nat);
    FibSmallValues();
  }
}
