// The scene's game service (Services/Scenes/GameService.cs): at start-up
// it lays out three lanes over the road and hands them to the round
// controller; every frame it only forwards the tick. The road's height and
// centre, read from its sprite renderer in the source, are parameters.
module SceneGame {
  import opened Spawning
  import opened Lanes
  import opened Rounds

  class GameService {
    /** The round controller; may be null, and then nothing is forwarded. */
    const roundService: RoundService?
    /** The lane heights; empty until Initialization (the C# property is null). */
    var spawnHeights: seq<real>

    ghost predicate Valid()
      reads this, roundService, if roundService != null then {roundService.entityService} else {}
    {
      roundService != null ==> roundService.Valid()
    }

    constructor (roundService: RoundService?)
      requires roundService != null ==> roundService.Valid()
      ensures Valid() && this.roundService == roundService && spawnHeights == []
    {
      this.roundService := roundService;
      spawnHeights := [];
    }

    /** Three lanes over the road with the fixed tolerance, then the round
        controller's initialization with those heights. */
    method Initialization(backgroundHeight: real, backgroundY: real)
      requires Valid()
      modifies this`spawnHeights, if roundService != null then {roundService.entityService} else {}
      ensures Valid()
      ensures spawnHeights == LaneHeights(GameLaneCount as int, backgroundHeight, backgroundY, LaneTolerance)
      ensures |spawnHeights| == 3
      ensures roundService != null && roundService.entityService != null ==>
                && roundService.entityService.spawnHeights == spawnHeights
                && roundService.entityService.monsters == old(roundService.entityService.monsters)
                && roundService.entityService.monstersToRemove == old(roundService.entityService.monstersToRemove)
                && roundService.entityService.lastMonsterId == old(roundService.entityService.lastMonsterId)
                && roundService.entityService.currentCount == old(roundService.entityService.currentCount)
                && roundService.entityService.poolCountActive == old(roundService.entityService.poolCountActive)
    {
      var yPositions := GetYPositionsForLines(GameLaneCount, backgroundHeight, backgroundY, LaneTolerance);
      spawnHeights := yPositions[..];
      if roundService != null {
        roundService.Initialization(spawnHeights);
      }
    }

    /** Forwards the tick to the round controller, if any. */
    method Update(dt: real)
      requires Valid() && dt >= 0.0
      modifies if roundService != null then {roundService, roundService.entityService} else {}
      ensures Valid()
      ensures spawnHeights == old(spawnHeights)
      ensures roundService != null ==>
                && roundService.round == old(roundService.round)
                && roundService.CurrentClock() == TimeStep(old(roundService.CurrentClock()), dt).clock
                && roundService.fireCalls == old(roundService.fireCalls)
                     + (if roundService.entityService != null && TimeStep(old(roundService.CurrentClock()), dt).fired
                        then 1 else 0)
      ensures roundService != null && roundService.entityService != null ==>
                && roundService.entityService.monstersToRemove
                     == Swept(old(roundService.entityService.monstersToRemove), dt)
                && roundService.entityService.monsters
                     == old(roundService.entityService.monsters)
                        - Expired(Decremented(old(roundService.entityService.monstersToRemove), dt))
                && roundService.entityService.poolCountActive
                     == old(roundService.entityService.poolCountActive)
                        - |Expired(Decremented(old(roundService.entityService.monstersToRemove), dt))|
                && roundService.entityService.currentCount == old(roundService.entityService.currentCount)
                && roundService.entityService.lastMonsterId == old(roundService.entityService.lastMonsterId)
                && roundService.entityService.spawnHeights == old(roundService.entityService.spawnHeights)
                && roundService.entityService.heightsAssigned == old(roundService.entityService.heightsAssigned)
    {
      if roundService != null {
        roundService.Update(dt);
      }
    }
  }
}
