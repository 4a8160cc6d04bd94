/** PerspectiveCameraController: the mouse-button flags, the mode OnUpdate
    acts in, the orbit angles, and the zoom that keeps the camera at least
    one unit from its focal point. Floats are modelled as reals. The
    camera's direction vectors come from its orientation quaternion and are
    parameters here. */
module Camera {

  datatype Vec2 = Vec2(x: real, y: real)

  datatype Vec3 = Vec3(x: real, y: real, z: real)

  function Add(a: Vec3, b: Vec3): (r: Vec3)
  {
    Vec3(a.x + b.x, a.y + b.y, a.z + b.z)
  }

  /** The three held flags. */
  datatype Buttons = Buttons(left: bool, right: bool, middle: bool)

  /** The camera state the controller reads and writes: focal point,
      distance, pitch and yaw. */
  datatype CameraState = CameraState(focalPoint: Vec3, distance: real, pitch: real, yaw: real)

  datatype Controller = Controller(
    buttons: Buttons, mouse: Vec2, prevMouse: Vec2, mouseDelta: Vec2,
    rotationSpeed: real, zoomSpeed: real, camera: CameraState)

  /** The GLFW button numbers the controller reacts to. */
  const BUTTON_LEFT: int := 0
  const BUTTON_RIGHT: int := 1
  const BUTTON_MIDDLE: int := 2

  /** m_RotationSpeed as the constructor sets it. */
  const ROTATION_SPEED: real := 0.8

  /** The scale from pixels of mouse travel to m_MouseDelta. */
  const MOUSE_SCALE: real := 0.003

  const MIN_DISTANCE: real := 1.0

  const MAX_ZOOM_SPEED: real := 100.0

  // ---------------------------------------------------------------------
  // Buttons

  /** The flag a button number controls, or none. */
  function SetFlag(b: Buttons, button: int, held: bool): (r: Buttons)
    ensures r.left == (if button == BUTTON_LEFT then held else b.left)
    ensures r.middle == (if button == BUTTON_MIDDLE then held else b.middle)
    ensures r.right == (if button == BUTTON_RIGHT then held else b.right)
  {
    if button == BUTTON_LEFT then b.(left := held)
    else if button == BUTTON_MIDDLE then b.(middle := held)
    else if button == BUTTON_RIGHT then b.(right := held)
    else b
  }

  /** OnMouseButtonPressedEvent; the action argument is not read. */
  function Press(c: Controller, button: int, action: int): (r: Controller)
    ensures r.buttons == SetFlag(c.buttons, button, true)
    ensures r == c.(buttons := r.buttons)
  {
    c.(buttons := SetFlag(c.buttons, button, true))
  }

  /** OnMouseButtonReleasedEvent. */
  function Release(c: Controller, button: int): (r: Controller)
    ensures r.buttons == SetFlag(c.buttons, button, false)
    ensures r == c.(buttons := r.buttons)
  {
    c.(buttons := SetFlag(c.buttons, button, false))
  }

  predicate Held(b: Buttons, button: int)
  {
    (button == BUTTON_LEFT && b.left) || (button == BUTTON_RIGHT && b.right) || (button == BUTTON_MIDDLE && b.middle)
  }

  /** A button other than 0, 1 and 2 changes nothing; pressing one of them
      holds it and only it changes. */
  lemma PressHoldsOnlyThatButton(c: Controller, button: int, action: int)
    ensures button !in {BUTTON_LEFT, BUTTON_RIGHT, BUTTON_MIDDLE} ==> Press(c, button, action) == c
    ensures button in {BUTTON_LEFT, BUTTON_RIGHT, BUTTON_MIDDLE} ==> Held(Press(c, button, action).buttons, button)
    ensures forall other :: other != button && other in {BUTTON_LEFT, BUTTON_RIGHT, BUTTON_MIDDLE} ==>
              (Held(Press(c, button, action).buttons, other) <==> Held(c.buttons, other))
  {
  }

  /** Releasing a button that was not held before the press brings the
      controller back to where it was. */
  lemma PressThenReleaseRestores(c: Controller, button: int, action: int)
    requires !Held(c.buttons, button)
    ensures Release(Press(c, button, action), button) == c
  {
  }

  // ---------------------------------------------------------------------
  // Zoom

  /** The zoom speed both zoom paths compute: the square of a fifth of the
      distance (a negative distance counts as 0), capped at 100. */
  function ZoomSpeed(distance: real): (speed: real)
    ensures 0.0 <= speed <= MAX_ZOOM_SPEED
    ensures distance >= 0.0 && (distance * 0.2) * (distance * 0.2) <= MAX_ZOOM_SPEED ==>
              speed == (distance * 0.2) * (distance * 0.2)
  {
    var dist := if distance * 0.2 > 0.0 then distance * 0.2 else 0.0;
    var speed := dist * dist;
    if speed < MAX_ZOOM_SPEED then speed else MAX_ZOOM_SPEED
  }

  /** OffsetDistance by `offset` followed by the clamp: a distance that
      would drop below 1 is set to 1 and the focal point moves one step
      along the forward direction instead. */
  function Zoom(cam: CameraState, offset: real, forward: Vec3): (r: CameraState)
    ensures r.distance >= MIN_DISTANCE
    ensures cam.distance + offset >= MIN_DISTANCE ==> r == cam.(distance := cam.distance + offset)
    ensures cam.distance + offset < MIN_DISTANCE ==>
              r == cam.(distance := MIN_DISTANCE, focalPoint := Add(cam.focalPoint, forward))
  {
    var moved := cam.(distance := cam.distance + offset);
    if moved.distance < MIN_DISTANCE then
      moved.(focalPoint := Add(moved.focalPoint, forward), distance := MIN_DISTANCE)
    else moved
  }

  /** OnMouseScrollEvent: zoom by a fifth of the wheel offset times the
      zoom speed; scrolling up moves in. */
  function Scroll(c: Controller, x: real, y: real, forward: Vec3): (r: Controller)
    ensures r.zoomSpeed == ZoomSpeed(c.camera.distance)
    ensures r.camera == Zoom(c.camera, -(y * 0.2) * r.zoomSpeed, forward)
    ensures r.buttons == c.buttons && r.mouse == c.mouse && r.prevMouse == c.prevMouse
  {
    var speed := ZoomSpeed(c.camera.distance);
    c.(zoomSpeed := speed, camera := Zoom(c.camera, -(y * 0.2) * speed, forward))
  }

  /** Scrolling up never moves the camera away and keeps it at least one
      unit out; scrolling down never moves it in. */
  lemma ScrollDirection(c: Controller, x: real, y: real, forward: Vec3)
    requires c.camera.distance >= MIN_DISTANCE
    ensures y >= 0.0 ==> MIN_DISTANCE <= Scroll(c, x, y, forward).camera.distance <= c.camera.distance
    ensures y <= 0.0 ==> Scroll(c, x, y, forward).camera.distance >= c.camera.distance
  {
    var speed := ZoomSpeed(c.camera.distance);
    assert y >= 0.0 ==> (y * 0.2) * speed >= 0.0;
    assert y <= 0.0 ==> (y * 0.2) * speed <= 0.0;
  }

  // ---------------------------------------------------------------------
  // OnUpdate

  datatype Mode = Pan | Orbit | ZoomDrag | Idle

  /** The mode OnUpdate acts in: the first held of left, right, middle. */
  function ModeOf(b: Buttons): (m: Mode)
    ensures m == Pan <==> b.left
    ensures m == Orbit <==> !b.left && b.right
    ensures m == ZoomDrag <==> !b.left && !b.right && b.middle
    ensures m == Idle <==> !b.left && !b.right && !b.middle
  {
    if b.left then Pan else if b.right then Orbit else if b.middle then ZoomDrag else Idle
  }

  /** OnUpdate. The mouse delta is the scaled travel since the last update
      and the last position becomes the current one. Pan moves the focal
      point along the camera's right and up directions (that offset is a
      parameter); orbit turns yaw, with the sign of the up direction's y,
      and pitch; a middle drag zooms by the vertical delta. */
  function Update(c: Controller, panOffset: Vec3, upY: real, forward: Vec3): (r: Controller)
    ensures r.prevMouse == c.mouse && r.mouse == c.mouse && r.buttons == c.buttons
    ensures r.mouseDelta == Vec2((c.mouse.x - c.prevMouse.x) * MOUSE_SCALE, (c.mouse.y - c.prevMouse.y) * MOUSE_SCALE)
    ensures ModeOf(c.buttons) == Idle ==> r.camera == c.camera
    ensures ModeOf(c.buttons) == Pan ==>
              r.camera == c.camera.(focalPoint := Add(c.camera.focalPoint, panOffset))
    ensures ModeOf(c.buttons) == Orbit ==>
              r.camera.distance == c.camera.distance && r.camera.focalPoint == c.camera.focalPoint
              && r.camera.pitch == c.camera.pitch + r.mouseDelta.y * c.rotationSpeed
              && r.camera.yaw == c.camera.yaw + (if upY < 0.0 then -1.0 else 1.0) * r.mouseDelta.x * c.rotationSpeed
    ensures ModeOf(c.buttons) == ZoomDrag ==>
              r.zoomSpeed == ZoomSpeed(c.camera.distance)
              && r.camera == Zoom(c.camera, -r.mouseDelta.y * r.zoomSpeed, forward)
    ensures ModeOf(c.buttons) != ZoomDrag ==> r.zoomSpeed == c.zoomSpeed
  {
    var delta := Vec2((c.mouse.x - c.prevMouse.x) * MOUSE_SCALE, (c.mouse.y - c.prevMouse.y) * MOUSE_SCALE);
    var d := c.(mouseDelta := delta, prevMouse := c.mouse);
    match ModeOf(c.buttons)
    case Pan => d.(camera := c.camera.(focalPoint := Add(c.camera.focalPoint, panOffset)))
    case Orbit =>
      var yawSign := if upY < 0.0 then -1.0 else 1.0;
      d.(camera := c.camera.(yaw := c.camera.yaw + yawSign * delta.x * c.rotationSpeed,
                             pitch := c.camera.pitch + delta.y * c.rotationSpeed))
    case ZoomDrag =>
      var speed := ZoomSpeed(c.camera.distance);
      d.(zoomSpeed := speed, camera := Zoom(c.camera, -delta.y * speed, forward))
    case Idle => d
  }

  /** OnMouseMovedEvent. */
  function MouseMoved(c: Controller, x: real, y: real): (r: Controller)
    ensures r == c.(mouse := Vec2(x, y))
  {
    c.(mouse := Vec2(x, y))
  }

  // ---------------------------------------------------------------------
  // Event sequences

  /** An input event, with the directions the camera would report at the
      time for the events that read them. */
  datatype Input =
    | PressButton(button: int, action: int)
    | ReleaseButton(button: int)
    | MoveMouse(x: real, y: real)
    | ScrollWheel(sx: real, sy: real, forward: Vec3)
    | Tick(panOffset: Vec3, upY: real, forward: Vec3)

  function Handle(c: Controller, e: Input): (r: Controller)
  {
    match e
    case PressButton(b, a) => Press(c, b, a)
    case ReleaseButton(b) => Release(c, b)
    case MoveMouse(x, y) => MouseMoved(c, x, y)
    case ScrollWheel(x, y, f) => Scroll(c, x, y, f)
    case Tick(p, u, f) => Update(c, p, u, f)
  }

  function HandleAll(c: Controller, events: seq<Input>): (r: Controller)
    decreases |events|
  {
    if |events| == 0 then c else HandleAll(Handle(c, events[0]), events[1..])
  }

  /** From a distance of at least one unit, no sequence of input events
      brings the camera closer than one unit. */
  lemma {:induction false} DistanceNeverBelowOne(c: Controller, events: seq<Input>)
    requires c.camera.distance >= MIN_DISTANCE
    ensures HandleAll(c, events).camera.distance >= MIN_DISTANCE
    decreases |events|
  {
    if |events| > 0 {
      var next := Handle(c, events[0]);
      assert next.camera.distance >= MIN_DISTANCE;
      DistanceNeverBelowOne(next, events[1..]);
    }
  }

  /** PerspectiveCamera's constructor: focal point at the origin, distance
      that of (-5, 5, 5) from it, whose square is 75. The square root and
      the angles built from pi are floating-point values, so they are
      parameters. */
  function NewCamera(distance: real, pitch: real, yaw: real): (cam: CameraState)
    requires distance >= 0.0 && distance * distance == 75.0
    ensures cam.focalPoint == Vec3(0.0, 0.0, 0.0) && cam.pitch == pitch && cam.yaw == yaw
    ensures cam.distance >= MIN_DISTANCE
  {
    assert distance < 1.0 ==> distance * distance <= distance;
    CameraState(Vec3(0.0, 0.0, 0.0), distance, pitch, yaw)
  }

  /** PerspectiveCameraController's constructor: no button held and the
      rotation speed 0.8. The mouse positions, the delta and the zoom speed
      are left uninitialised, so they are parameters. */
  function NewController(camera: CameraState, mouse: Vec2, prevMouse: Vec2, mouseDelta: Vec2, zoomSpeed: real)
    : (c: Controller)
    ensures !c.buttons.left && !c.buttons.right && !c.buttons.middle
    ensures c.rotationSpeed == ROTATION_SPEED && c.camera == camera
  {
    Controller(Buttons(false, false, false), mouse, prevMouse, mouseDelta, ROTATION_SPEED, zoomSpeed, camera)
  }

  /** A controller built around a freshly constructed camera keeps it at
      least one unit from its focal point through any input sequence. */
  lemma ConstructedCameraNeverBelowOne(distance: real, pitch: real, yaw: real, mouse: Vec2, prevMouse: Vec2,
                                       mouseDelta: Vec2, zoomSpeed: real, events: seq<Input>)
    requires distance >= 0.0 && distance * distance == 75.0
    ensures HandleAll(NewController(NewCamera(distance, pitch, yaw), mouse, prevMouse, mouseDelta, zoomSpeed), events)
              .camera.distance >= MIN_DISTANCE
  {
    DistanceNeverBelowOne(NewController(NewCamera(distance, pitch, yaw), mouse, prevMouse, mouseDelta, zoomSpeed), events);
  }
}
