// Unity value types the core reads, and the camera edge arithmetic.
//
// Unity's `float` is modelled as `real`: no rounding, no infinities.
// `Camera.main` is an engine lookup; its three relevant readings become
// the fields of a CameraView value passed in by the caller.
module CameraUtilities {

  /** Unity's Vector3 (only the components the core uses). */
  datatype Vector3 = Vector3(x: real, y: real, z: real)

  /** What the core reads from the main orthographic camera. */
  datatype CameraView = CameraView(positionX: real, orthographicSize: real, aspect: real)

  /** Orthographic size is half the visible height. */
  function CalculateScreenHeightInWorldUnits(cam: CameraView): (height: real)
    ensures height / 2.0 == cam.orthographicSize
    ensures cam.orthographicSize >= 0.0 ==> height >= 0.0
  {
    2.0 * cam.orthographicSize
  }

  /** The aspect ratio scales the height: half the width is the
      orthographic size times the aspect. */
  function CalculateScreenWidthInWorldUnits(cam: CameraView): (width: real)
    ensures width / 2.0 == cam.orthographicSize * cam.aspect
    ensures cam.orthographicSize >= 0.0 && cam.aspect >= 0.0 ==> width >= 0.0
  {
    CalculateScreenHeightInWorldUnits(cam) * cam.aspect
  }

  /** The left edge of the view: half a screen left of the camera, on the
      x axis. */
  function GetStartPosition(cam: CameraView): (p: Vector3)
    ensures p.x + CalculateScreenWidthInWorldUnits(cam) / 2.0 == cam.positionX
    ensures p.y == 0.0 && p.z == 0.0
  {
    Vector3(cam.positionX - CalculateScreenWidthInWorldUnits(cam) / 2.0, 0.0, 0.0)
  }

  /** The right edge of the view: one screen width right of the left
      edge, mirrored about the camera. */
  function GetEndPosition(cam: CameraView): (p: Vector3)
    ensures p.x - GetStartPosition(cam).x == CalculateScreenWidthInWorldUnits(cam)
    ensures (p.x + GetStartPosition(cam).x) / 2.0 == cam.positionX
    ensures p.y == 0.0 && p.z == 0.0
  {
    Vector3(cam.positionX + CalculateScreenWidthInWorldUnits(cam) / 2.0, 0.0, 0.0)
  }

  /** With a non-negative size and aspect, the start edge is never right of
      the end edge, and the camera sits between them. */
  lemma EdgesOrdered(cam: CameraView)
    requires cam.orthographicSize >= 0.0 && cam.aspect >= 0.0
    ensures GetStartPosition(cam).x <= cam.positionX <= GetEndPosition(cam).x
  {
  }
}
