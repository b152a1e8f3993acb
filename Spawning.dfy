// What the two registry drafts (EntityService and the older GameService)
// share: the random draws of one spawn, the values handed to
// Monster.Initialization, and the pending-removal timers.
//
// Monster objects come from a pool whose implementation is not modelled;
// inside a registry a monster is the MonsterSetup value it was initialised
// with, and both tables are keyed by its id. The older drafts key the
// pending table by the object itself; because every handed-out object
// carries an id no other tracked object has, the two keyings agree.
module Spawning {
  import opened CameraUtilities

  /** The C# exceptions the registries can raise. */
  datatype Exception =
    | NullReference     // lane draw on a height array never assigned
    | IndexOutOfRange   // lane lookup in an empty height array
    | DuplicateKey      // Dictionary.Add on a key already present

  /** How an operation that may throw ended. */
  datatype Outcome = Completed | Threw(exception: Exception)

  /** The engine's random draws for one monster, in the order the source
      makes them: speed and the three colour values in [lo, hi] (float
      ranges are inclusive), the rarity roll in [0, 100), the lane in
      [0, laneCount) (Unity returns 0 for the empty range [0, 0)). */
  datatype SpawnRoll = SpawnRoll(movementSpeed: real, bodyHue: real, eyeHue: real,
                                 bodyShade: real, rarityRoll: int, lane: int)

  const MinSpawnSpeed: real := 2.0
  const MaxSpawnSpeed: real := 10.0
  const RarityRange: int := 100
  const RareThreshold: int := 90

  predicate ValidRoll(roll: SpawnRoll, laneCount: int)
  {
    && MinSpawnSpeed <= roll.movementSpeed <= MaxSpawnSpeed
    && 0.0 <= roll.bodyHue <= 1.0
    && 0.0 <= roll.eyeHue <= 1.0
    && 0.0 <= roll.bodyShade <= 1.0
    && 0 <= roll.rarityRoll < RarityRange
    && (if laneCount > 0 then 0 <= roll.lane < laneCount else roll.lane == 0)
  }

  predicate ValidRolls(rolls: seq<SpawnRoll>, laneCount: int)
  {
    forall i :: 0 <= i < |rolls| ==> ValidRoll(rolls[i], laneCount)
  }

  /** The arguments a registry passes to Monster.Initialization. */
  datatype MonsterSetup = MonsterSetup(id: int, movementSpeed: real, sortLayer: int,
                                       bodyHue: real, eyeHue: real, bodyShade: real,
                                       spawnPosition: Vector3, isRare: bool)

  predicate IsRare(rarityRoll: int)
  {
    rarityRoll >= RareThreshold
  }

  /** The half-open integer interval [a, b). */
  function Interval(a: int, b: int): (s: set<int>)
    ensures forall i :: i in s <==> a <= i < b
    decreases b - a
  {
    if a >= b then {} else {a} + Interval(a + 1, b)
  }

  /** A half-open integer interval has as many members as its length. */
  lemma {:induction false} IntervalSize(a: int, b: int)
    requires a <= b
    ensures |Interval(a, b)| == b - a
    decreases b - a
  {
    if a < b {
      IntervalSize(a + 1, b);
      assert a !in Interval(a + 1, b);
    }
  }

  /** Exactly ten of the hundred equally likely rolls make a monster rare. */
  lemma RareOneInTen()
    ensures |set r | r in Interval(0, RarityRange) && IsRare(r)| == 10
  {
    assert (set r | r in Interval(0, RarityRange) && IsRare(r)) == Interval(RareThreshold, RarityRange);
    IntervalSize(RareThreshold, RarityRange);
  }

  /** The draw-order rank of a lane: lane 0 gets the highest rank, the last
      lane rank 0. */
  function SortLayer(laneCount: int, lane: int): (layer: int)
    requires 0 <= lane < laneCount
    ensures 0 <= layer < laneCount
    ensures layer == laneCount - 1 <==> lane == 0
    ensures layer == 0 <==> lane == laneCount - 1
  {
    (laneCount - 1) - lane
  }

  /** Ranks strictly reverse the lane order, so no two lanes share one. */
  lemma SortLayerReversesLanes(laneCount: int, i: int, j: int)
    requires 0 <= i < j < laneCount
    ensures SortLayer(laneCount, j) < SortLayer(laneCount, i)
  {
  }

  /** The setup of one monster: a fresh id, the rolled speed and colours,
      the rolled lane's height, the rank of that lane, and an x half a
      sprite right of the left edge of the view. */
  function Setup(id: int, roll: SpawnRoll, heights: seq<real>, startX: real, spriteWidth: real): (m: MonsterSetup)
    requires 0 <= roll.lane < |heights|
    ensures m.id == id
    ensures m.spawnPosition.y == heights[roll.lane] && m.spawnPosition.z == 0.0
    ensures m.movementSpeed == roll.movementSpeed
    ensures m.bodyHue == roll.bodyHue && m.eyeHue == roll.eyeHue && m.bodyShade == roll.bodyShade
    ensures 0 <= m.sortLayer < |heights| && m.sortLayer + roll.lane == |heights| - 1
    ensures m.spawnPosition.x - spriteWidth / 2.0 == startX
    ensures ValidRoll(roll, |heights|) ==> MinSpawnSpeed <= m.movementSpeed <= MaxSpawnSpeed
    ensures m.isRare <==> roll.rarityRoll >= RareThreshold
  {
    MonsterSetup(id, roll.movementSpeed, SortLayer(|heights|, roll.lane),
                 roll.bodyHue, roll.eyeHue, roll.bodyShade,
                 Vector3(startX + spriteWidth / 2.0, heights[roll.lane], 0.0),
                 IsRare(roll.rarityRoll))
  }

  /** The monsters a batch of rolls creates, under consecutive ids from
      `firstId` on, the i-th roll giving the monster with id firstId + i. */
  function Batch(firstId: int, rolls: seq<SpawnRoll>, heights: seq<real>, startX: real, spriteWidth: real)
    : (batch: map<int, MonsterSetup>)
    requires ValidRolls(rolls, |heights|) && (rolls != [] ==> |heights| > 0)
    ensures batch.Keys == Interval(firstId, firstId + |rolls|)
    ensures forall i :: 0 <= i < |rolls| ==>
              batch[firstId + i] == Setup(firstId + i, rolls[i], heights, startX, spriteWidth)
  {
    if rolls == [] then map[]
    else
      var last := |rolls| - 1;
      Batch(firstId, rolls[..last], heights, startX, spriteWidth)[firstId + last :=
        Setup(firstId + last, rolls[last], heights, startX, spriteWidth)]
  }

  /** A batch adds exactly one monster per roll to a table whose ids are
      all below `firstId`: no new id collides with a tracked one. */
  lemma {:induction false} BatchAddsOnePerRoll(table: map<int, MonsterSetup>, firstId: int, rolls: seq<SpawnRoll>,
                                               heights: seq<real>, startX: real, spriteWidth: real)
    requires ValidRolls(rolls, |heights|) && (rolls != [] ==> |heights| > 0)
    requires forall id :: id in table ==> id < firstId
    ensures |table + Batch(firstId, rolls, heights, startX, spriteWidth)| == |table| + |rolls|
    decreases |rolls|
  {
    if rolls != [] {
      var last := |rolls| - 1;
      var front := Batch(firstId, rolls[..last], heights, startX, spriteWidth);
      var setup := Setup(firstId + last, rolls[last], heights, startX, spriteWidth);
      assert Batch(firstId, rolls, heights, startX, spriteWidth) == front[firstId + last := setup];
      BatchAddsOnePerRoll(table, firstId, rolls[..last], heights, startX, spriteWidth);
      var union := table + front;
      assert firstId + last !in union by {
        assert firstId + last !in table;
        assert firstId + last !in Interval(firstId, firstId + last);
      }
      MapUnionUpdate(table, front, firstId + last, setup);
      assert |union[firstId + last := setup]| == |union| + 1;
    }
  }

  /** A table with the monsters of the first `created` rolls added. */
  ghost function Extended(table: map<int, MonsterSetup>, firstId: int, rolls: seq<SpawnRoll>, created: int,
                          heights: seq<real>, startX: real, spriteWidth: real): map<int, MonsterSetup>
    requires ValidRolls(rolls, |heights|) && 0 <= created <= |rolls| && (created > 0 ==> |heights| > 0)
  {
    table + Batch(firstId, rolls[..created], heights, startX, spriteWidth)
  }

  /** One more roll adds the monster with the next id. */
  lemma BatchGrows(table: map<int, MonsterSetup>, firstId: int, rolls: seq<SpawnRoll>, created: int,
                   heights: seq<real>, startX: real, spriteWidth: real)
    requires ValidRolls(rolls, |heights|) && |heights| > 0 && 0 <= created < |rolls|
    ensures Extended(table, firstId, rolls, created + 1, heights, startX, spriteWidth)
         == Extended(table, firstId, rolls, created, heights, startX, spriteWidth)[firstId + created :=
              Setup(firstId + created, rolls[created], heights, startX, spriteWidth)]
  {
    assert rolls[..created + 1][..created] == rolls[..created];
    MapUnionUpdate(table, Batch(firstId, rolls[..created], heights, startX, spriteWidth), firstId + created,
                   Setup(firstId + created, rolls[created], heights, startX, spriteWidth));
  }

  /** Removing keys one more at a time is removing the grown set. */
  lemma MapRemoveStep<V>(m: map<int, V>, removed: set<int>, k: int)
    ensures (m - removed) - {k} == m - (removed + {k})
  {
  }

  lemma MapUnionUpdate<V>(m: map<int, V>, n: map<int, V>, k: int, v: V)
    ensures m + n[k := v] == (m + n)[k := v]
  {
  }

  /** The grace period, in seconds, between a monster's exit and its
      release to the pool. */
  const RemovalDelay: real := 1.0

  /** Every pending timer lowered by `dt`. */
  function Decremented(pending: map<int, real>, dt: real): map<int, real>
  {
    map k | k in pending :: pending[k] - dt
  }

  /** The entries whose timer has run out. */
  function Expired(timers: map<int, real>): set<int>
  {
    set k | k in timers && timers[k] <= 0.0
  }

  /** The pending table after one sweep: decremented, expired entries gone. */
  function Swept(pending: map<int, real>, dt: real): (swept: map<int, real>)
    ensures forall k :: k in swept <==> k in pending && pending[k] - dt > 0.0
    ensures forall k :: k in swept ==> swept[k] == pending[k] - dt
  {
    Decremented(pending, dt) - Expired(Decremented(pending, dt))
  }

  /** The first loop of the sweep: lowers every pending timer by `dt` and
      collects the entries that reached zero or below, visiting the
      entries in any order. */
  method DecrementTimers(pending: map<int, real>, dt: real) returns (decremented: map<int, real>, expired: set<int>)
    ensures decremented.Keys == pending.Keys
    ensures forall k :: k in pending ==> decremented[k] == pending[k] - dt
    ensures forall k :: k in expired <==> k in pending && pending[k] - dt <= 0.0
    ensures decremented == Decremented(pending, dt) && expired == Expired(decremented)
  {
    decremented, expired := pending, {};
    var toVisit := pending.Keys;
    while toVisit != {}
      invariant toVisit <= pending.Keys
      invariant decremented.Keys == pending.Keys
      invariant forall k :: k in pending && k !in toVisit ==> decremented[k] == pending[k] - dt
      invariant forall k :: k in toVisit ==> decremented[k] == pending[k]
      invariant forall k :: k in expired <==> k in pending && k !in toVisit && pending[k] - dt <= 0.0
      decreases toVisit
    {
      if forall key :: key !in toVisit {
        assert false;
      }
      var v :| v in toVisit;
      decremented := decremented[v := decremented[v] - dt];
      if decremented[v] <= 0.0 {
        expired := expired + {v};
      }
      toVisit := toVisit - {v};
    }
    assert toVisit == {};
    assert decremented.Keys == Decremented(pending, dt).Keys;
    assert forall k :: k in decremented ==> decremented[k] == Decremented(pending, dt)[k];
    assert decremented == Decremented(pending, dt);
    assert forall k :: k in expired <==> k in decremented && decremented[k] <= 0.0;
    assert expired == Expired(decremented);
  }

  /** Sum of frame times. */
  function Sum(dts: seq<real>): real
  {
    if dts == [] then 0.0 else dts[0] + Sum(dts[1..])
  }

  lemma {:induction false} SumNonNegative(dts: seq<real>)
    requires forall i :: 0 <= i < |dts| ==> dts[i] >= 0.0
    ensures Sum(dts) >= 0.0
  {
    if dts != [] {
      SumNonNegative(dts[1..]);
    }
  }

  /** The pending table after one sweep per frame time. */
  function SweptAll(pending: map<int, real>, dts: seq<real>): map<int, real>
  {
    if dts == [] then pending else SweptAll(Swept(pending, dts[0]), dts[1..])
  }

  /** The grace delay: an entry whose timer is `pending[k]` is still pending
      after a run of sweeps exactly when the frame times add up to less
      than its timer, and then with its timer lowered by that sum. In
      particular an exited monster (timer 1.0) is released by the first
      sweep that brings the elapsed time to 1.0 or more, and not before.
      (Timers in the table are positive: new ones start at 1.0 and a sweep
      keeps only positive ones.) */
  lemma {:induction false} GraceDelay(pending: map<int, real>, dts: seq<real>, k: int)
    requires k in pending && pending[k] > 0.0
    requires forall i :: 0 <= i < |dts| ==> dts[i] >= 0.0
    ensures k in SweptAll(pending, dts) <==> Sum(dts) < pending[k]
    ensures k in SweptAll(pending, dts) ==> SweptAll(pending, dts)[k] == pending[k] - Sum(dts)
    decreases dts
  {
    if dts != [] {
      var next := Swept(pending, dts[0]);
      assert Sum(dts) == dts[0] + Sum(dts[1..]);
      assert SweptAll(pending, dts) == SweptAll(next, dts[1..]);
      assert k in next <==> pending[k] - dts[0] > 0.0;
      if k in next {
        assert next[k] == pending[k] - dts[0];
        GraceDelay(next, dts[1..], k);
      } else {
        assert pending[k] - dts[0] <= 0.0;
        SumNonNegative(dts[1..]);
        SweptAllOnlyRemoves(next, dts[1..], k);
      }
    }
  }

  /** Sweeps never bring back an entry that is gone. */
  lemma {:induction false} SweptAllOnlyRemoves(pending: map<int, real>, dts: seq<real>, k: int)
    requires k !in pending
    ensures k !in SweptAll(pending, dts)
    decreases dts
  {
    if dts != [] {
      SweptAllOnlyRemoves(Swept(pending, dts[0]), dts[1..], k);
    }
  }
}
