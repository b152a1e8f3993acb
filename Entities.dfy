// The on-screen actors: the Entity and Actor base classes and the Monster
// that walks across the screen.
//
// C# inheritance (Monster : Actor : MonoBehaviour) has no counterpart here,
// so each class carries the fields it reads. A transform's position is a
// Vector3 field; `Time.deltaTime` is the parameter `dt`, and the camera is
// the CameraView value the frame was computed with.
module Entities {
  import opened CameraUtilities

  /** The entity lifecycle states (the enum itself is not among the
      modelled files; its first member stands for the C# default value). */
  datatype EntityState = Idle | Run | Out

  /** `transform.Translate(distance * Vector3.right)` for an unrotated
      transform: a shift along x only. */
  function Translated(p: Vector3, distance: real): (q: Vector3)
    ensures q.x - p.x == distance && q.y == p.y && q.z == p.z
  {
    p.(x := p.x + distance)
  }

  /** Moving by zero stays put; moving forward at a positive speed for a
      positive time strictly advances x. */
  lemma TranslatedByFrame(p: Vector3, speed: real, dt: real)
    ensures speed == 0.0 || dt == 0.0 ==> Translated(p, speed * dt) == p
    ensures speed > 0.0 && dt > 0.0 ==> Translated(p, speed * dt).x > p.x
  {
  }

  /** The exit test shared by Monster and the older registry: the sprite's
      left edge is strictly past the right edge of the view. */
  predicate Exited(x: real, spriteWidth: real, endX: real)
  {
    x - spriteWidth / 2.0 > endX
  }

  /** Per-frame displacement of a monster: a screen width divided by its
      integer speed setting, scaled by the frame time. The setting is an
      inverse speed: it is the number of seconds a monster needs to cross
      one screen width. */
  function Displacement(screenWidth: real, movementSpeed: int, dt: real): (d: real)
    requires movementSpeed > 0
    ensures d * (movementSpeed as real) == screenWidth * dt
  {
    var perSecond := screenWidth / (movementSpeed as real);
    assert perSecond * (movementSpeed as real) == screenWidth;
    assert perSecond * dt * (movementSpeed as real) == perSecond * (movementSpeed as real) * dt;
    perSecond * dt
  }

  /** A monster never moves backwards: with a non-negative screen width and
      frame time the displacement is non-negative. */
  lemma DisplacementForward(screenWidth: real, movementSpeed: int, dt: real)
    requires movementSpeed > 0 && screenWidth >= 0.0 && dt >= 0.0
    ensures Displacement(screenWidth, movementSpeed, dt) >= 0.0
  {
    var d := Displacement(screenWidth, movementSpeed, dt);
    assert d * (movementSpeed as real) >= 0.0;
  }

  /** A larger speed setting gives a strictly smaller displacement. */
  lemma LargerSettingIsSlower(screenWidth: real, slow: int, fast: int, dt: real)
    requires 0 < fast < slow
    requires screenWidth > 0.0 && dt > 0.0
    ensures 0.0 < Displacement(screenWidth, slow, dt) < Displacement(screenWidth, fast, dt)
  {
    var dSlow := Displacement(screenWidth, slow, dt);
    var dFast := Displacement(screenWidth, fast, dt);
    var wt := screenWidth * dt;
    assert wt > 0.0;
    assert dSlow * (slow as real) == wt && dFast * (fast as real) == wt;
    assert dSlow > 0.0;
    assert dSlow * (fast as real) < dSlow * (slow as real);
    assert dSlow * (fast as real) < dFast * (fast as real);
  }

  /** The x reached after moving by each of `steps` in turn. */
  function Travel(x: real, steps: seq<real>): real
    decreases steps
  {
    if steps == [] then x else Travel(x + steps[0], steps[1..])
  }

  /** Frames with non-negative displacements never move a monster back. */
  lemma {:induction false} TravelNeverBack(x: real, steps: seq<real>)
    requires forall i :: 0 <= i < |steps| ==> steps[i] >= 0.0
    ensures Travel(x, steps) >= x
    decreases steps
  {
    if steps != [] {
      TravelNeverBack(x + steps[0], steps[1..]);
    }
  }

  /** Once out, a monster stays out however many more frames it moves
      (with non-negative frame times the displacements are non-negative). */
  lemma StaysOut(x: real, spriteWidth: real, endX: real, steps: seq<real>)
    requires Exited(x, spriteWidth, endX)
    requires forall i :: 0 <= i < |steps| ==> steps[i] >= 0.0
    ensures Exited(Travel(x, steps), spriteWidth, endX)
  {
    TravelNeverBack(x, steps);
  }

  /** The generic base class: identity, a speed, a lifecycle state with a
      private setter, and a position. */
  class Entity {
    var id: int
    var movementSpeed: real
    var entityState: EntityState
    var position: Vector3

    constructor (position: Vector3)
      ensures id == 0 && movementSpeed == 0.0 && entityState == Idle
      ensures this.position == position
    {
      id := 0;
      movementSpeed := 0.0;
      entityState := Idle;
      this.position := position;
    }

    /** Moves right by `speed * dt`; only the position changes. */
    method Move(speed: real, dt: real)
      modifies this`position
      ensures position == Translated(old(position), speed * dt)
    {
      position := Translated(position, speed * dt);
    }

    /** A speed drawn between MovementSpeed / 1.5 and MovementSpeed * 1.5.
        The engine's draw is the parameter `t` in [0, 1], the fraction of
        the way from the first bound to the second. */
    function CalculateSpeedVariation(t: real): (r: real)
      reads this
      requires 0.0 <= t <= 1.0
      ensures movementSpeed >= 0.0 ==> movementSpeed / 1.5 <= r <= movementSpeed * 1.5
      ensures movementSpeed < 0.0 ==> movementSpeed * 1.5 <= r <= movementSpeed / 1.5
    {
      var low, high := movementSpeed / 1.5, movementSpeed * 1.5;
      assert 0.0 <= t * (high - low) <= high - low || high - low <= t * (high - low) <= 0.0 by {
        if high - low >= 0.0 {
          assert t * (high - low) <= 1.0 * (high - low);
        } else {
          assert t * (high - low) >= 1.0 * (high - low);
        }
      }
      low + t * (high - low)
    }

    /** Sets the state to any value; no transition is refused, backward
        ones included, and nothing else changes. */
    method ChangeState(state: EntityState)
      modifies this`entityState
      ensures entityState == state
    {
      entityState := state;
    }
  }

  /** The base class Monster derives from. */
  class Actor {
    var id: int
    var movementSpeed: real
    var position: Vector3

    constructor (position: Vector3)
      ensures id == 0 && movementSpeed == 0.0 && this.position == position
    {
      id := 0;
      movementSpeed := 0.0;
      this.position := position;
    }

    /** Moves right by `speed * dt`; y and z, and every other field, keep
        their values. */
    method Move(speed: real, dt: real)
      modifies this`position
      ensures position == Translated(old(position), speed * dt)
    {
      position := Translated(position, speed * dt);
    }
  }

  /** The serialized speed setting's default. */
  const DefaultMovementSpeed: int := 5

  /** A monster: placed at the left edge on Awake, walks right every frame
      and destroys itself once it is out past the right edge. */
  class Monster {
    var id: int
    var movementSpeed: int
    var spriteWidth: real
    var position: Vector3
    var destroyed: bool

    ghost predicate Valid()
      reads this
    {
      movementSpeed > 0
    }

    constructor (position: Vector3)
      ensures Valid()
      ensures id == 0 && movementSpeed == DefaultMovementSpeed && spriteWidth == 0.0
      ensures this.position == position && !destroyed
    {
      id := 0;
      movementSpeed := DefaultMovementSpeed;
      spriteWidth := 0.0;
      this.position := position;
      destroyed := false;
    }

    /** Reads the body sprite's width and places the monster one unit plus
        half a sprite right of the left edge, on the x axis. */
    method Awake(cam: CameraView, bodyWidth: real)
      modifies this`spriteWidth, this`position
      ensures spriteWidth == bodyWidth
      ensures position.x - (bodyWidth + 2.0) / 2.0 == GetStartPosition(cam).x
      ensures position.y == 0.0 && position.z == 0.0
    {
      spriteWidth := bodyWidth;
      var startPosition := GetStartPosition(cam);
      position := Vector3(startPosition.x + (spriteWidth + 2.0) / 2.0, 0.0, 0.0);
    }

    /** Moves right by one frame's displacement and returns the speed in
        world units per second. */
    method MovementProcess(cam: CameraView, dt: real) returns (calculatedSpeed: real)
      requires Valid()
      modifies this`position
      ensures calculatedSpeed * (movementSpeed as real) == CalculateScreenWidthInWorldUnits(cam)
      ensures position == Translated(old(position),
                                     Displacement(CalculateScreenWidthInWorldUnits(cam), movementSpeed, dt))
    {
      var screenWidth := CalculateScreenWidthInWorldUnits(cam);
      calculatedSpeed := screenWidth / (movementSpeed as real);
      position := Translated(position, calculatedSpeed * dt);
    }

    /** Out once the sprite's left edge is strictly right of the view. */
    function IsOut(cam: CameraView): (out: bool)
      reads this
      ensures out <==> position.x - spriteWidth / 2.0
                       > cam.positionX + CalculateScreenWidthInWorldUnits(cam) / 2.0
    {
      Exited(position.x, spriteWidth, GetEndPosition(cam).x)
    }

    /** One frame: move first, then test the exit on the new position and
        destroy the monster when it is out. The engine stops calling
        Update on a destroyed object. */
    method Update(cam: CameraView, dt: real)
      requires Valid() && !destroyed
      modifies this`position, this`destroyed
      ensures Valid()
      ensures position.x == old(position.x) +
                Displacement(CalculateScreenWidthInWorldUnits(cam), movementSpeed, dt)
      ensures position.y == old(position.y) && position.z == old(position.z)
      ensures destroyed <==> IsOut(cam)
      ensures cam.orthographicSize >= 0.0 && cam.aspect >= 0.0 && dt >= 0.0 ==>
                position.x >= old(position.x)
    {
      var speed := MovementProcess(cam, dt);
      if cam.orthographicSize >= 0.0 && cam.aspect >= 0.0 && dt >= 0.0 {
        DisplacementForward(CalculateScreenWidthInWorldUnits(cam), movementSpeed, dt);
      }
      if IsOut(cam) {
        Out();
      }
    }

    /** Destroys the monster's object. */
    method Out()
      modifies this`destroyed
      ensures destroyed
    {
      destroyed := true;
    }
  }
}
