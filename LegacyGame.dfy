// The older draft of the game service (Services/GameService.cs), kept in
// the repository beside the newer registry. It spawns a fixed batch of 20
// monsters over three lanes at start-up, has its own exit test, and keeps
// no round count: an exit only schedules the monster's release.
module LegacyGame {
  import opened CameraUtilities
  import opened Spawning
  import opened Lanes
  import Entities

  /** Monsters created at start-up. */
  const InitialMonsters: int := 20

  class GameService {
    /** Tracked monsters by id. */
    var monsters: map<int, MonsterSetup>
    /** Exited monsters awaiting release, by id, with seconds left. */
    var monstersToRemove: map<int, real>
    /** The next id to hand out. */
    var lastMonsterId: int
    /** Objects checked out of the monster pool. */
    var poolCountActive: int
    /** Width of a monster's sprite. */
    const spriteWidth: real

    ghost predicate Valid()
      reads this
    {
      && lastMonsterId >= 0
      && (forall id :: id in monsters ==> 0 <= id < lastMonsterId && monsters[id].id == id)
      && (forall id :: id in monstersToRemove ==> monstersToRemove[id] > 0.0)
    }

    constructor (spriteWidth: real)
      ensures Valid()
      ensures monsters == map[] && monstersToRemove == map[]
      ensures lastMonsterId == 0 && poolCountActive == 0 && this.spriteWidth == spriteWidth
    {
      monsters := map[];
      monstersToRemove := map[];
      lastMonsterId := 0;
      poolCountActive := 0;
      this.spriteWidth := spriteWidth;
    }

    /** Computes three lanes over the road with the fixed tolerance and
        creates 20 monsters on them, one roll each. */
    method Initialization(backgroundHeight: real, backgroundY: real, rolls: seq<SpawnRoll>, cam: CameraView)
      requires Valid()
      requires |rolls| == InitialMonsters && ValidRolls(rolls, GameLaneCount as int)
      modifies this`monsters, this`lastMonsterId, this`poolCountActive
      ensures Valid()
      ensures monsters == old(monsters) + Batch(old(lastMonsterId), rolls,
                                                 LaneHeights(GameLaneCount as int, backgroundHeight, backgroundY, LaneTolerance),
                                                 GetStartPosition(cam).x, spriteWidth)
      ensures lastMonsterId == old(lastMonsterId) + InitialMonsters
      ensures poolCountActive == old(poolCountActive) + InitialMonsters
    {
      var yPositions := GetYPositionsForLines(GameLaneCount, backgroundHeight, backgroundY, LaneTolerance);
      var lines := yPositions[..];
      var startX := GetStartPosition(cam).x;
      ghost var table, firstId := monsters, lastMonsterId;
      for i := 0 to InitialMonsters
        invariant Valid()
        invariant monsters == Extended(table, firstId, rolls, i, lines, startX, spriteWidth)
        invariant lastMonsterId == firstId + i
        invariant poolCountActive == old(poolCountActive) + i
      {
        ghost var before := monsters;
        var outcome := CreateMonster(lines, rolls[i], cam);
        assert monsters == before[firstId + i := Setup(firstId + i, rolls[i], lines, startX, spriteWidth)];
        BatchGrows(table, firstId, rolls, i, lines, startX, spriteWidth);
      }
      assert rolls[..InitialMonsters] == rolls;
      assert monsters == table + Batch(firstId, rolls, lines, startX, spriteWidth);
    }

    method Update(dt: real)
      requires Valid()
      modifies this`monsters, this`monstersToRemove, this`poolCountActive
      ensures Valid()
      ensures monstersToRemove == Swept(old(monstersToRemove), dt)
      ensures monsters == old(monsters) - Expired(Decremented(old(monstersToRemove), dt))
      ensures poolCountActive == old(poolCountActive) - |Expired(Decremented(old(monstersToRemove), dt))|
    {
      MonsterRemoveProcess(dt);
    }

    /** Takes an object from the pool, hands it the next id, and tracks it
        on a lane drawn from `lines`. An empty `lines` makes the lane lookup
        throw after the id is spent and the object left the pool. */
    method CreateMonster(lines: seq<real>, roll: SpawnRoll, cam: CameraView) returns (outcome: Outcome)
      requires Valid()
      requires ValidRoll(roll, |lines|)
      modifies this`monsters, this`lastMonsterId, this`poolCountActive
      ensures Valid()
      ensures lastMonsterId == old(lastMonsterId) + 1
      ensures poolCountActive == old(poolCountActive) + 1
      ensures outcome == (if lines == [] then Threw(IndexOutOfRange) else Completed)
      ensures outcome.Threw? ==> monsters == old(monsters)
      ensures outcome.Completed? ==>
                monsters == old(monsters)[old(lastMonsterId) :=
                  Setup(old(lastMonsterId), roll, lines, GetStartPosition(cam).x, spriteWidth)]
    {
      poolCountActive := poolCountActive + 1;
      var id := GenerateId();
      if lines == [] {
        return Threw(IndexOutOfRange);
      }
      var setup := Setup(id, roll, lines, GetStartPosition(cam).x, spriteWidth);
      assert id !in monsters;
      monsters := monsters[id := setup];
      outcome := Completed;
    }

    /** The draft's own exit test; it is the monster's. */
    function IsOut(monster: Entities.Monster, cam: CameraView): (out: bool)
      reads monster
      ensures out == monster.IsOut(cam)
    {
      monster.position.x - monster.spriteWidth / 2.0 > GetEndPosition(cam).x
    }

    /** The sweep, as in the registry: timers go down by `dt`, entries at
        zero or below are released. */
    method MonsterRemoveProcess(dt: real)
      requires Valid()
      modifies this`monsters, this`monstersToRemove, this`poolCountActive
      ensures Valid()
      ensures monstersToRemove == Swept(old(monstersToRemove), dt)
      ensures monsters == old(monsters) - Expired(Decremented(old(monstersToRemove), dt))
      ensures poolCountActive == old(poolCountActive) - |Expired(Decremented(old(monstersToRemove), dt))|
    {
      if |monstersToRemove| == 0 {
        assert Decremented(monstersToRemove, dt) == map[];
        return;
      }
      var decremented, expired := DecrementTimers(monstersToRemove, dt);
      monstersToRemove := decremented;
      ReleaseExpired(expired);
    }

    /** The second loop of the sweep: each collected entry leaves both
        tables and goes back to the pool, in any order. */
    method ReleaseExpired(expired: set<int>)
      modifies this`monsters, this`monstersToRemove, this`poolCountActive
      ensures monsters == old(monsters) - expired
      ensures monstersToRemove == old(monstersToRemove) - expired
      ensures poolCountActive == old(poolCountActive) - |expired|
    {
      ghost var released := {};
      var toRelease := expired;
      while toRelease != {}
        invariant released + toRelease == expired && released !! toRelease
        invariant monsters == old(monsters) - released
        invariant monstersToRemove == old(monstersToRemove) - released
        invariant poolCountActive == old(poolCountActive) - |released|
        decreases toRelease
      {
        if forall key :: key !in toRelease {
          assert false;
        }
        var m :| m in toRelease;
        RemoveMonster(m);
        MapRemoveStep(old(monstersToRemove), released, m);
        MapRemoveStep(old(monsters), released, m);
        monstersToRemove := monstersToRemove - {m};
        released := released + {m};
        toRelease := toRelease - {m};
      }
    }

    /** Post-increment of the id counter. */
    method GenerateId() returns (id: int)
      modifies this`lastMonsterId
      ensures id == old(lastMonsterId) && lastMonsterId == id + 1
    {
      id := lastMonsterId;
      lastMonsterId := lastMonsterId + 1;
    }

    method RemoveMonster(id: int)
      modifies this`monsters, this`poolCountActive
      ensures monsters == old(monsters) - {id}
      ensures poolCountActive == old(poolCountActive) - 1
    {
      monsters := monsters - {id};
      poolCountActive := poolCountActive - 1;
    }

    /** Schedules the release; a repeat notification throws before
        anything changes. */
    method OnMonsterOut(id: int) returns (outcome: Outcome)
      requires Valid()
      modifies this`monstersToRemove
      ensures Valid()
      ensures old(id in monstersToRemove) ==>
                outcome == Threw(DuplicateKey) && monstersToRemove == old(monstersToRemove)
      ensures old(id !in monstersToRemove) ==>
                outcome == Completed && monstersToRemove == old(monstersToRemove)[id := RemovalDelay]
    {
      if id in monstersToRemove {
        return Threw(DuplicateKey);
      }
      monstersToRemove := monstersToRemove[id := RemovalDelay];
      outcome := Completed;
    }
  }
}
