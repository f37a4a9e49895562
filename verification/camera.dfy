/**
 * The fly camera (src/Renderer/Camera.cpp, src/Renderer/Camera.h): keyboard
 * movement along the camera's axes, mouse look scaled by the zoom with an
 * optional pitch clamp, and scroll zoom clamped to [1, 45]. The direction
 * vectors are recomputed by trigonometry (`UpdateCameraVectors`), which is
 * not modelled: it enters as the parameter `orient`, mapping yaw, pitch and
 * world-up to the front, right and up vectors.
 */
module Cameras {
  import opened Common

  datatype Direction = Forward | Backward | Left | Right

  datatype Camera = Camera(
    position: Vec3, front: Vec3, up: Vec3, right: Vec3, worldUp: Vec3,
    yaw: real, pitch: real, movementSpeed: real, mouseSensitivity: real, zoom: real)

  /** `(front, right, up)` for a yaw, a pitch and a world-up vector. */
  type Orientation = (real, real, Vec3) -> (Vec3, Vec3, Vec3)

  const DEFAULT_YAW: real := -90.0
  const DEFAULT_PITCH: real := 0.0
  const DEFAULT_SPEED: real := 20.0
  const DEFAULT_SENSITIVITY: real := 0.1
  const DEFAULT_ZOOM: real := 45.0

  const MIN_ZOOM: real := 1.0
  const MAX_ZOOM: real := 45.0
  const MAX_PITCH: real := 89.0

  /** Recomputes front, right and up from yaw and pitch. */
  function UpdateCameraVectors(c: Camera, orient: Orientation): (r: Camera)
    ensures r == c.(front := r.front, right := r.right, up := r.up)
  {
    var (front, right, up) := orient(c.yaw, c.pitch, c.worldUp);
    c.(front := front, right := right, up := up)
  }

  /**
   * The camera constructor: position, world-up, yaw and pitch as given, the
   * default speed, sensitivity and zoom, and vectors from `orient`.
   */
  function NewCamera(position: Vec3, up: Vec3, yaw: real, pitch: real, orient: Orientation): (c: Camera)
    ensures c.position == position && c.worldUp == up && c.yaw == yaw && c.pitch == pitch
    ensures c.movementSpeed == DEFAULT_SPEED && c.mouseSensitivity == DEFAULT_SENSITIVITY && c.zoom == DEFAULT_ZOOM
  {
    UpdateCameraVectors(Camera(position, Vec3(0.0, 0.0, -1.0), Vec3(0.0, 0.0, 0.0), Vec3(0.0, 0.0, 0.0), up,
      yaw, pitch, DEFAULT_SPEED, DEFAULT_SENSITIVITY, DEFAULT_ZOOM), orient)
  }

  /**
   * The camera built from the constructor's default arguments: at the
   * origin, world-up +y, yaw -90, pitch 0, facing where `orient` points for
   * those angles.
   */
  function DefaultCamera(orient: Orientation): (c: Camera)
    ensures c.position == Vec3(0.0, 0.0, 0.0) && c.worldUp == Vec3(0.0, 1.0, 0.0)
    ensures c.yaw == -90.0 && c.pitch == 0.0
    ensures c.movementSpeed == 20.0 && c.mouseSensitivity == 0.1 && c.zoom == 45.0
    ensures (c.front, c.right, c.up) == orient(-90.0, 0.0, Vec3(0.0, 1.0, 0.0))
  {
    NewCamera(Vec3(0.0, 0.0, 0.0), Vec3(0.0, 1.0, 0.0), DEFAULT_YAW, DEFAULT_PITCH, orient)
  }

  /**
   * `ProcessKeyboard`: the position moves by `speed * deltaTime` along front
   * (forward), against front (backward), against right (left) or along
   * right (right). Nothing else changes.
   */
  function ProcessKeyboard(c: Camera, direction: Direction, deltaTime: real): (r: Camera)
    ensures r == c.(position := r.position)
  {
    var velocity := c.movementSpeed * deltaTime;
    match direction
    case Forward => c.(position := c.position.Plus(c.front.Scale(velocity)))
    case Backward => c.(position := c.position.Minus(c.front.Scale(velocity)))
    case Left => c.(position := c.position.Minus(c.right.Scale(velocity)))
    case Right => c.(position := c.position.Plus(c.right.Scale(velocity)))
  }

  /** The direction that undoes another. */
  function Opposite(d: Direction): Direction
  {
    match d
    case Forward => Backward
    case Backward => Forward
    case Left => Right
    case Right => Left
  }

  /** A step in one direction and an equal step in the opposite one return the camera to where it was. */
  lemma OppositeStepsCancel(c: Camera, d: Direction, deltaTime: real)
    ensures ProcessKeyboard(ProcessKeyboard(c, d, deltaTime), Opposite(d), deltaTime) == c
  {
  }

  /** A keyboard step covers `speed * deltaTime` times the length of the axis it follows. */
  lemma KeyboardStepLength(c: Camera, deltaTime: real)
    ensures ProcessKeyboard(c, Forward, deltaTime).position.Minus(c.position) == c.front.Scale(c.movementSpeed * deltaTime)
    ensures ProcessKeyboard(c, Right, deltaTime).position.Minus(c.position) == c.right.Scale(c.movementSpeed * deltaTime)
  {
  }

  /** The factor mouse offsets are scaled by: the sensitivity, slowed down as the view zooms in. */
  function LookScale(c: Camera): real
  {
    c.mouseSensitivity * c.zoom / 45.0
  }

  /** The pitch clamp: values above 89 become 89, values below -89 become -89. */
  function ClampPitch(pitch: real): (r: real)
    ensures -MAX_PITCH <= r <= MAX_PITCH
    ensures -MAX_PITCH <= pitch <= MAX_PITCH ==> r == pitch
  {
    var p := if pitch > MAX_PITCH then MAX_PITCH else pitch;
    if p < -MAX_PITCH then -MAX_PITCH else p
  }

  /**
   * `ProcessMouseMovement`: yaw and pitch move by the offsets times the look
   * scale; with `constrainPitch` the pitch is then clamped to [-89, 89], and
   * the yaw never is. Then the vectors are recomputed. Position, speed,
   * sensitivity and zoom stay.
   */
  function ProcessMouseMovement(c: Camera, xoffset: real, yoffset: real, constrainPitch: bool, orient: Orientation): (r: Camera)
    ensures r.yaw == c.yaw + xoffset * LookScale(c)
    ensures constrainPitch ==> -MAX_PITCH <= r.pitch <= MAX_PITCH
    ensures constrainPitch && -MAX_PITCH <= c.pitch + yoffset * LookScale(c) <= MAX_PITCH ==>
      r.pitch == c.pitch + yoffset * LookScale(c)
    ensures constrainPitch ==> r.pitch == ClampPitch(c.pitch + yoffset * LookScale(c))
    ensures !constrainPitch ==> r.pitch == c.pitch + yoffset * LookScale(c)
    ensures (r.front, r.right, r.up) == orient(r.yaw, r.pitch, r.worldUp)
    ensures r.position == c.position && r.movementSpeed == c.movementSpeed
    ensures r.mouseSensitivity == c.mouseSensitivity && r.zoom == c.zoom && r.worldUp == c.worldUp
  {
    var scale := c.mouseSensitivity * c.zoom / 45.0;
    var xo := xoffset * scale;
    var yo := yoffset * scale;
    var pitch := c.pitch + yo;
    var clamped := if constrainPitch then ClampPitch(pitch) else pitch;
    UpdateCameraVectors(c.(yaw := c.yaw + xo, pitch := clamped), orient)
  }

  /** Zoomed in further, the same sideways mouse motion turns the camera less. */
  lemma ZoomingInSlowsLook(c: Camera, zoomedIn: real, xoffset: real, orient: Orientation)
    requires 0.0 < c.mouseSensitivity && 0.0 < xoffset && zoomedIn < c.zoom
    ensures ProcessMouseMovement(c.(zoom := zoomedIn), xoffset, 0.0, true, orient).yaw - c.yaw
      < ProcessMouseMovement(c, xoffset, 0.0, true, orient).yaw - c.yaw
  {
    var lo := c.mouseSensitivity * zoomedIn / 45.0;
    var hi := c.mouseSensitivity * c.zoom / 45.0;
    assert lo < hi;
    assert xoffset * lo < xoffset * hi;
  }

  /** A clamp of `v` into `[lo, hi]`, written as a minimum of a maximum. */
  function Clamp(v: real, lo: real, hi: real): real
  {
    var atLeast := if v < lo then lo else v;
    if atLeast < hi then atLeast else hi
  }

  /**
   * `ProcessMouseScroll`: the zoom moves against the scroll offset and is
   * then held within [1, 45]; inside the range it is exact.
   */
  function ProcessMouseScroll(c: Camera, yoffset: real): (r: Camera)
    ensures MIN_ZOOM <= r.zoom <= MAX_ZOOM
    ensures MIN_ZOOM <= c.zoom - yoffset <= MAX_ZOOM ==> r.zoom == c.zoom - yoffset
    ensures c.zoom - yoffset < MIN_ZOOM ==> r.zoom == MIN_ZOOM
    ensures c.zoom - yoffset > MAX_ZOOM ==> r.zoom == MAX_ZOOM
    ensures r == c.(zoom := r.zoom)
  {
    var zoom := c.zoom - yoffset;
    var zoom' := if zoom < 1.0 then 1.0 else zoom;
    c.(zoom := if zoom' > 45.0 then 45.0 else zoom')
  }

  /** The scroll clamp is the clamp of `zoom - yoffset` into [1, 45]. */
  lemma ScrollIsClamp(c: Camera, yoffset: real)
    ensures ProcessMouseScroll(c, yoffset).zoom == Clamp(c.zoom - yoffset, MIN_ZOOM, MAX_ZOOM)
  {
  }

  /** The pitch clamp, which tests the upper bound first, is the clamp into [-89, 89]. */
  lemma PitchClampIsClamp(pitch: real)
    ensures ClampPitch(pitch) == Clamp(pitch, -MAX_PITCH, MAX_PITCH)
  {
  }

  /** Scrolling back by the same amount undoes a scroll that stayed within the bounds. */
  lemma ScrollInsideBoundsIsUndone(c: Camera, yoffset: real)
    requires MIN_ZOOM <= c.zoom <= MAX_ZOOM
    requires MIN_ZOOM <= c.zoom - yoffset <= MAX_ZOOM
    ensures ProcessMouseScroll(ProcessMouseScroll(c, yoffset), -yoffset) == c
  {
  }
}
