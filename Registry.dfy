// The entity registry (EntityService): allocates monsters from the pool,
// gives each a fresh id and a lane, tracks them by id, and releases the
// ones that exited once their grace period has run out.
//
// The pool is modelled by its count of checked-out objects (Get adds one,
// Release removes one); what it does with released objects is not part of
// the model. `Random.Range` draws arrive as SpawnRoll values, the camera
// as a CameraView, `Time.deltaTime` as `dt`.
module Registry {
  import opened MathHelper
  import opened CameraUtilities
  import opened Spawning

  class EntityService {
    /** Tracked monsters by id. */
    var monsters: map<int, MonsterSetup>
    /** Exited monsters awaiting release, by id, with seconds left. */
    var monstersToRemove: map<int, real>
    /** The next id to hand out. */
    var lastMonsterId: int
    /** Monsters of the current round that have not yet exited; no floor. */
    var currentCount: int32
    /** Lane heights; meaningful once `heightsAssigned`. */
    var spawnHeights: seq<real>
    /** False until Initialization: the C# array field is still null. */
    var heightsAssigned: bool
    /** Objects checked out of the monster pool. */
    var poolCountActive: int
    /** Width of a monster's sprite (the pooled prefab's SpriteWidth). */
    const spriteWidth: real

    /** Every tracked id was handed out before, and is the id of the
        monster it maps to; every pending timer is still positive. */
    ghost predicate Valid()
      reads this
    {
      && lastMonsterId >= 0
      && (forall id :: id in monsters ==> 0 <= id < lastMonsterId && monsters[id].id == id)
      && (forall id :: id in monstersToRemove ==> monstersToRemove[id] > 0.0)
      && (!heightsAssigned ==> spawnHeights == [])
    }

    /** How the lane draw and lookup of one creation end: the draw reads
        the array's length, so a null array throws there; an empty one
        makes the lookup of lane 0 throw. */
    function LaneLookup(): (outcome: Outcome)
      reads this
      ensures outcome.Completed? <==> heightsAssigned && spawnHeights != []
      ensures outcome == Threw(NullReference) <==> !heightsAssigned
    {
      if !heightsAssigned then Threw(NullReference)
      else if spawnHeights == [] then Threw(IndexOutOfRange)
      else Completed
    }

    constructor (spriteWidth: real)
      ensures Valid()
      ensures monsters == map[] && monstersToRemove == map[]
      ensures lastMonsterId == 0 && currentCount == 0 && poolCountActive == 0
      ensures spawnHeights == [] && !heightsAssigned && this.spriteWidth == spriteWidth
    {
      monsters := map[];
      monstersToRemove := map[];
      lastMonsterId := 0;
      currentCount := 0;
      spawnHeights := [];
      heightsAssigned := false;
      poolCountActive := 0;
      this.spriteWidth := spriteWidth;
    }

    /** Keeps the lane heights for later spawns. */
    method Initialization(heights: seq<real>)
      requires Valid()
      modifies this`spawnHeights, this`heightsAssigned
      ensures Valid()
      ensures spawnHeights == heights && heightsAssigned
    {
      spawnHeights := heights;
      heightsAssigned := true;
    }

    /** Sets the round's remaining count to exactly `monstersToSpawn` (even
        when it is zero or negative) and creates that many monsters, next
        to the ones already tracked. */
    method Spawn(monstersToSpawn: int32, rolls: seq<SpawnRoll>, cam: CameraView) returns (outcome: Outcome)
      requires Valid()
      requires |rolls| == (if monstersToSpawn > 0 then monstersToSpawn as int else 0)
      requires ValidRolls(rolls, |spawnHeights|)
      modifies this`currentCount, this`monsters, this`lastMonsterId, this`poolCountActive
      ensures Valid()
      ensures currentCount == monstersToSpawn
      ensures outcome == (if rolls != [] then LaneLookup() else Completed)
      ensures outcome.Completed? ==>
                && monsters == old(monsters) + Batch(old(lastMonsterId), rolls, spawnHeights,
                                                      GetStartPosition(cam).x, spriteWidth)
                && |monsters| == |old(monsters)| + |rolls|
                && lastMonsterId == old(lastMonsterId) + |rolls|
                && poolCountActive == old(poolCountActive) + |rolls|
      ensures outcome.Threw? ==>
                && monsters == old(monsters)
                && lastMonsterId == old(lastMonsterId) + 1
                && poolCountActive == old(poolCountActive) + 1
    {
      currentCount := monstersToSpawn;
      outcome := CreateMonsters(monstersToSpawn, rolls, cam);
      if outcome.Completed? {
        BatchAddsOnePerRoll(old(monsters), old(lastMonsterId), rolls, spawnHeights,
                            GetStartPosition(cam).x, spriteWidth);
      }

    }

    /** Creates `monstersToSpawn` monsters one after the other (the source
        recurses; this is the same sequence of calls as a loop). A
        non-positive count creates none. Without usable lane heights the
        first creation throws and the rest are not attempted. */
    method CreateMonsters(monstersToSpawn: int32, rolls: seq<SpawnRoll>, cam: CameraView) returns (outcome: Outcome)
      requires Valid()
      requires |rolls| == (if monstersToSpawn > 0 then monstersToSpawn as int else 0)
      requires ValidRolls(rolls, |spawnHeights|)
      modifies this`monsters, this`lastMonsterId, this`poolCountActive
      ensures Valid()
      ensures outcome == (if rolls != [] then LaneLookup() else Completed)
      ensures outcome.Completed? ==>
                && monsters == old(monsters) + Batch(old(lastMonsterId), rolls, spawnHeights,
                                                      GetStartPosition(cam).x, spriteWidth)
                && lastMonsterId == old(lastMonsterId) + |rolls|
                && poolCountActive == old(poolCountActive) + |rolls|
      ensures outcome.Threw? ==>
                && monsters == old(monsters)
                && lastMonsterId == old(lastMonsterId) + 1
                && poolCountActive == old(poolCountActive) + 1
    {
      var startX := GetStartPosition(cam).x;
      ghost var table, firstId := monsters, lastMonsterId;
      var created := 0;
      outcome := Completed;
      while created < |rolls|
        invariant 0 <= created <= |rolls|
        invariant outcome == Completed
        invariant Valid()
        invariant created > 0 ==> LaneLookup() == Completed
        invariant monsters == Extended(table, firstId, rolls, created, spawnHeights, startX, spriteWidth)
        invariant lastMonsterId == firstId + created
        invariant poolCountActive == old(poolCountActive) + created
      {
        ghost var before := monsters;
        outcome := CreateMonster(rolls[created], cam);
        if outcome.Threw? {
          assert created == 0 && rolls[..0] == [];
          return;
        }
        assert monsters == before[firstId + created :=
          Setup(firstId + created, rolls[created], spawnHeights, startX, spriteWidth)];
        BatchGrows(table, firstId, rolls, created, spawnHeights, startX, spriteWidth);
        created := created + 1;
      }
      assert rolls[..created] == rolls;
      assert monsters == table + Batch(firstId, rolls, spawnHeights, startX, spriteWidth);
    }

    /** Takes an object from the pool, hands it the next id, and tracks it
        under that id with its rolled speed, colours, rarity and lane. The
        lane draw or lookup throws when there are no usable lane heights;
        by then the id is spent and the object is out of the pool but not
        tracked. */
    method CreateMonster(roll: SpawnRoll, cam: CameraView) returns (outcome: Outcome)
      requires Valid()
      requires ValidRoll(roll, |spawnHeights|)
      modifies this`monsters, this`lastMonsterId, this`poolCountActive
      ensures Valid()
      ensures lastMonsterId == old(lastMonsterId) + 1
      ensures poolCountActive == old(poolCountActive) + 1
      ensures outcome == LaneLookup()
      ensures outcome.Threw? ==> monsters == old(monsters)
      ensures outcome.Completed? ==>
                monsters == old(monsters)[old(lastMonsterId) :=
                  Setup(old(lastMonsterId), roll, spawnHeights, GetStartPosition(cam).x, spriteWidth)]
    {
      poolCountActive := poolCountActive + 1;
      var id := GenerateEntityId();
      if !heightsAssigned {
        return Threw(NullReference);
      }
      if spawnHeights == [] {
        return Threw(IndexOutOfRange);
      }
      var setup := Setup(id, roll, spawnHeights, GetStartPosition(cam).x, spriteWidth);
      // Dictionary.Add cannot throw here: the id is fresh.
      assert id !in monsters;
      monsters := monsters[id := setup];
      outcome := Completed;
    }

    /** Post-increment of the id counter. */
    method GenerateEntityId() returns (id: int)
      modifies this`lastMonsterId
      ensures id == old(lastMonsterId) && lastMonsterId == id + 1
    {
      id := lastMonsterId;
      lastMonsterId := lastMonsterId + 1;
    }

    /** Stops tracking the monster and returns its object to the pool. */
    method RemoveMonster(id: int)
      modifies this`monsters, this`poolCountActive
      ensures monsters == old(monsters) - {id}
      ensures poolCountActive == old(poolCountActive) - 1
    {
      monsters := monsters - {id};
      poolCountActive := poolCountActive - 1;
    }

    /** The exit notification: schedules the monster's release after the
        grace period and counts it off the round, with no floor. A second
        notification for a monster already pending throws in
        Dictionary.Add before anything changes. */
    method OnMonsterOut(id: int) returns (outcome: Outcome)
      requires Valid()
      modifies this`monstersToRemove, this`currentCount
      ensures Valid()
      ensures old(id in monstersToRemove) ==>
                && outcome == Threw(DuplicateKey)
                && monstersToRemove == old(monstersToRemove) && currentCount == old(currentCount)
      ensures old(id !in monstersToRemove) ==>
                && outcome == Completed
                && monstersToRemove == old(monstersToRemove)[id := RemovalDelay]
                && currentCount == Int32Wrap(old(currentCount) - 1)
    {
      if id in monstersToRemove {
        return Threw(DuplicateKey);
      }
      monstersToRemove := monstersToRemove[id := RemovalDelay];
      currentCount := Int32Wrap(currentCount - 1);
      outcome := Completed;
    }

    method Update(dt: real)
      requires Valid()
      modifies this`monsters, this`monstersToRemove, this`poolCountActive
      ensures Valid()
      ensures monstersToRemove == Swept(old(monstersToRemove), dt)
      ensures monsters == old(monsters) - Expired(Decremented(old(monstersToRemove), dt))
      ensures poolCountActive == old(poolCountActive) - |Expired(Decremented(old(monstersToRemove), dt))|
    {
      MonsterRemoveProcess(dt);
    }

    /** The sweep: every pending timer goes down by `dt`; exactly the
        entries at zero or below leave both tables and go back to the pool,
        the others keep their lowered timer. Nothing happens when nothing
        is pending. */
    method MonsterRemoveProcess(dt: real)
      requires Valid()
      modifies this`monsters, this`monstersToRemove, this`poolCountActive
      ensures Valid()
      ensures monstersToRemove == Swept(old(monstersToRemove), dt)
      ensures monsters == old(monsters) - Expired(Decremented(old(monstersToRemove), dt))
      ensures poolCountActive == old(poolCountActive) - |Expired(Decremented(old(monstersToRemove), dt))|
    {
      if |monstersToRemove| == 0 {
        assert Decremented(monstersToRemove, dt) == map[];
        return;
      }
      var decremented, expired := DecrementTimers(monstersToRemove, dt);
      monstersToRemove := decremented;
      ReleaseExpired(expired);
    }

    /** The second loop of the sweep: each collected entry leaves both
        tables and goes back to the pool, in any order. */
    method ReleaseExpired(expired: set<int>)
      modifies this`monsters, this`monstersToRemove, this`poolCountActive
      ensures monsters == old(monsters) - expired
      ensures monstersToRemove == old(monstersToRemove) - expired
      ensures poolCountActive == old(poolCountActive) - |expired|
    {
      ghost var released := {};
      var toRelease := expired;
      while toRelease != {}
        invariant released + toRelease == expired && released !! toRelease
        invariant monsters == old(monsters) - released
        invariant monstersToRemove == old(monstersToRemove) - released
        invariant poolCountActive == old(poolCountActive) - |released|
        decreases toRelease
      {
        if forall key :: key !in toRelease {
          assert false;
        }
        var m :| m in toRelease;
        RemoveMonster(m);
        MapRemoveStep(old(monstersToRemove), released, m);
        MapRemoveStep(old(monsters), released, m);
        monstersToRemove := monstersToRemove - {m};
        released := released + {m};
        toRelease := toRelease - {m};
      }
    }
  }
}
