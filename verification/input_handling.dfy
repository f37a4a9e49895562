/**
 * Per-frame keyboard handling: `Application::processInput`
 * (src/Application.cpp) and the two `MainLayer::ProcessInput` copies
 * (src/MainLayer.cpp, PBRApp/src/MainLayer.cpp). W and S move forward and
 * back (W wins when both are held), A and D left and right (A wins), by the
 * frame time each caller hands to `ProcessKeyboard`. Which keys are held is
 * a parameter.
 */
module InputHandling {
  import opened Common
  import opened Cameras
  import Timesteps
  import CoreTimesteps

  datatype Key = Escape | W | A | S | D

  /** The movement part shared by every caller, for a frame time `dt` already converted. */
  function MoveStep(c: Camera, pressed: set<Key>, dt: real): (r: Camera)
    ensures r == c.(position := r.position)
    ensures W !in pressed && S !in pressed && A !in pressed && D !in pressed ==> r == c
  {
    var c1 := if W in pressed then ProcessKeyboard(c, Forward, dt)
      else if S in pressed then ProcessKeyboard(c, Backward, dt)
      else c;
    if A in pressed then ProcessKeyboard(c1, Left, dt)
    else if D in pressed then ProcessKeyboard(c1, Right, dt)
    else c1
  }

  /** Holding W and S together moves forward only; holding A and D together moves left only. */
  lemma FirstKeyOfEachPairWins(c: Camera, dt: real)
    ensures MoveStep(c, {W, S}, dt) == ProcessKeyboard(c, Forward, dt)
    ensures MoveStep(c, {A, D}, dt) == ProcessKeyboard(c, Left, dt)
  {
  }

  /**
   * `Application::processInput`: the camera after the frame's movement,
   * with `getSeconds()` as the frame time, and whether Escape asked the
   * window to close.
   */
  function ApplicationProcessInput(c: Camera, pressed: set<Key>, ts: Timesteps.Timestep): (r: (Camera, bool))
    ensures r.1 <==> Escape in pressed
    ensures r.0 == MoveStep(c, pressed, ts.timeMs / 1000.0)
  {
    (MoveStep(c, pressed, Timesteps.Seconds(ts)), Escape in pressed)
  }

  /**
   * `MainLayer::ProcessInput` of src/MainLayer.cpp, as written: with the
   * cursor hidden it moves by the timestep's implicit `float` conversion,
   * which in src/Timestep.h is the milliseconds.
   */
  function MainLayerProcessInput(c: Camera, showCursor: bool, pressed: set<Key>, ts: Timesteps.Timestep): (r: Camera)
    ensures showCursor ==> r == c
    ensures !showCursor ==> r == MoveStep(c, pressed, ts.timeMs)
  {
    if showCursor then c else MoveStep(c, pressed, Timesteps.AsFloat(ts))
  }

  /**
   * `MainLayer::ProcessInput` of PBRApp/src/MainLayer.cpp: the same code,
   * whose timestep converts to seconds.
   */
  function CoreMainLayerProcessInput(c: Camera, showCursor: bool, pressed: set<Key>, ts: CoreTimesteps.Timestep): (r: Camera)
    ensures showCursor ==> r == c
    ensures !showCursor ==> r == MoveStep(c, pressed, ts.timeMs / 1000.0)
  {
    if showCursor then c else MoveStep(c, pressed, CoreTimesteps.AsFloat(ts))
  }

  /**
   * As written, the engine's layer moves the camera a thousand times as far
   * per frame as `Application::processInput` does for the same frame time.
   */
  lemma EngineLayerMovesThousandfold(c: Camera, ms: real)
    ensures MainLayerProcessInput(c, false, {W}, Timesteps.Timestep(ms)).position.Minus(c.position)
      == c.front.Scale(c.movementSpeed * ms)
    ensures ApplicationProcessInput(c, {W}, Timesteps.Timestep(ms)).0.position.Minus(c.position)
      == c.front.Scale(c.movementSpeed * (ms / 1000.0))
  {
    KeyboardStepLength(c, ms);
    KeyboardStepLength(c, ms / 1000.0);
  }

  /**
   * A 16 ms frame with W held at the default speed 20 moves a camera facing
   * -z by 320 units in the engine's layer, and by 0.32 in the application.
   */
  lemma SixteenMillisecondFrame(orient: Orientation)
    requires DefaultCamera(orient).front == Vec3(0.0, 0.0, -1.0)
    ensures MainLayerProcessInput(DefaultCamera(orient), false, {W}, Timesteps.Timestep(16.0)).position == Vec3(0.0, 0.0, -320.0)
    ensures ApplicationProcessInput(DefaultCamera(orient), {W}, Timesteps.Timestep(16.0)).0.position == Vec3(0.0, 0.0, -0.32)
  {
    var c := DefaultCamera(orient);
    assert MoveStep(c, {W}, 16.0) == ProcessKeyboard(c, Forward, 16.0);
    assert MoveStep(c, {W}, 16.0 / 1000.0) == ProcessKeyboard(c, Forward, 16.0 / 1000.0);
  }

  /**
   * With the timestep converting to seconds, the layer moves the camera
   * exactly as `Application::processInput` does for the same frame time.
   */
  lemma CoreLayerMatchesApplication(c: Camera, pressed: set<Key>, ms: real)
    ensures CoreMainLayerProcessInput(c, false, pressed, CoreTimesteps.Timestep(ms))
      == ApplicationProcessInput(c, pressed, Timesteps.Timestep(ms)).0
  {
  }
}
