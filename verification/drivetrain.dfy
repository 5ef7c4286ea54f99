/** The `DriveTrain` component of components/driveTrain.py: the requested
    drive (tank or arcade), creeper mode's multiplier swap, and what
    `execute` sends to the differential drive. */
module DriveTrain {
  import opened Wrappers

  /** `ControlMode`. */
  datatype ControlMode = ArcadeDrive | TankDrive | AngleTurning | Disabled

  /** The component's fields. `prevMultiplier` is unset until creeper mode
      is first enabled. */
  datatype State = State(
    tankLeftSpeed: real, tankRightSpeed: real,
    arcadeSpeed: real, arcadeRotation: real,
    creeperMode: bool, controlMode: ControlMode,
    multiplier: real, prevMultiplier: Option<real>)

  /** The tunable `driveMotorsMultiplier`'s default. */
  const DefaultMultiplier: real := 0.5

  /** The multiplier creeper mode drives with. */
  const CreeperMultiplier: real := 0.25

  /** What `execute` asks of the differential drive. */
  datatype Command = Tank(left: real, right: real) | Arcade(speed: real, rotation: real) | NoDrive

  /** `setup`: both motors must be among `motors_driveTrain`. The
      multiplier is the tunable's current value, which setup leaves alone. */
  function Setup(motors: seq<string>, multiplier: real): (r: Result<State>)
    ensures "leftMotor" !in motors ==> r == Err(KeyError("leftMotor"))
    ensures "leftMotor" in motors && "rightMotor" !in motors ==> r == Err(KeyError("rightMotor"))
    ensures r.Ok? ==> r.value.controlMode == Disabled && !r.value.creeperMode && r.value.multiplier == multiplier
    ensures r.Ok? ==> r.value.tankLeftSpeed == r.value.tankRightSpeed == r.value.arcadeSpeed == r.value.arcadeRotation == 0.0
  {
    if "leftMotor" !in motors then Err(KeyError("leftMotor"))
    else if "rightMotor" !in motors then Err(KeyError("rightMotor"))
    else Ok(State(0.0, 0.0, 0.0, 0.0, false, Disabled, multiplier, None))
  }

  /** `setTank(leftSpeed, rightSpeed)`. */
  function SetTank(s: State, left: real, right: real): (r: State)
    ensures r.controlMode == TankDrive && r.tankLeftSpeed == left && r.tankRightSpeed == right
    ensures r.(controlMode := s.controlMode, tankLeftSpeed := s.tankLeftSpeed, tankRightSpeed := s.tankRightSpeed) == s
  {
    s.(controlMode := TankDrive, tankLeftSpeed := left, tankRightSpeed := right)
  }

  /** `setArcade(speed, rotation)`. */
  function SetArcade(s: State, speed: real, rotation: real): (r: State)
    ensures r.controlMode == ArcadeDrive && r.arcadeSpeed == speed && r.arcadeRotation == rotation
    ensures r.(controlMode := s.controlMode, arcadeSpeed := s.arcadeSpeed, arcadeRotation := s.arcadeRotation) == s
  {
    s.(controlMode := ArcadeDrive, arcadeSpeed := speed, arcadeRotation := rotation)
  }

  /** `stop(coast)`: disabled, whatever `coast` says. */
  function Stop(s: State, coast: bool): (r: State)
    ensures r.controlMode == Disabled && r.(controlMode := s.controlMode) == s
  {
    s.(controlMode := Disabled)
  }

  /** `enableCreeperMode`: save the multiplier and drive at a quarter; no
      change when already on. */
  function EnableCreeperMode(s: State): (r: State)
    ensures s.creeperMode ==> r == s
    ensures !s.creeperMode ==> r.creeperMode && r.multiplier == CreeperMultiplier && r.prevMultiplier == Some(s.multiplier)
    ensures r.creeperMode
  {
    if s.creeperMode then s
    else s.(prevMultiplier := Some(s.multiplier), multiplier := CreeperMultiplier, creeperMode := true)
  }

  /** `disableCreeperMode`: restore the saved multiplier; no change when
      off. Creeper mode is only ever on after `enableCreeperMode` saved a
      value, which the precondition records. */
  function DisableCreeperMode(s: State): (r: State)
    requires s.creeperMode ==> s.prevMultiplier.Some?
    ensures !s.creeperMode ==> r == s
    ensures s.creeperMode ==> !r.creeperMode && r.multiplier == s.prevMultiplier.value
    ensures !r.creeperMode
  {
    if !s.creeperMode then s
    else s.(multiplier := s.prevMultiplier.value, creeperMode := false)
  }

  /** Enabling then disabling creeper mode restores the multiplier. */
  lemma CreeperRoundTrip(s: State)
    requires !s.creeperMode
    ensures DisableCreeperMode(EnableCreeperMode(s)).multiplier == s.multiplier
    ensures DisableCreeperMode(EnableCreeperMode(s)).creeperMode == false
  {
  }

  /** Enabling twice saves the multiplier once: disabling afterwards still
      restores the original, not the creeper value. */
  lemma EnableTwiceStillRestores(s: State)
    requires !s.creeperMode
    ensures DisableCreeperMode(EnableCreeperMode(EnableCreeperMode(s))).multiplier == s.multiplier
  {
  }

  /** `execute`: tank drive iff the mode is tank, arcade drive iff arcade,
      nothing otherwise. The multiplier is not applied here. */
  function Execute(s: State): (r: Command)
    ensures r.Tank? <==> s.controlMode == TankDrive
    ensures r.Arcade? <==> s.controlMode == ArcadeDrive
    ensures r.Tank? ==> r == Tank(s.tankLeftSpeed, s.tankRightSpeed)
    ensures r.Arcade? ==> r == Arcade(s.arcadeSpeed, s.arcadeRotation)
  {
    match s.controlMode
    case TankDrive => Tank(s.tankLeftSpeed, s.tankRightSpeed)
    case ArcadeDrive => Arcade(s.arcadeSpeed, s.arcadeRotation)
    case _ => NoDrive
  }

  /** The last request decides what is driven, and stopping drives nothing. */
  lemma LastRequestDrives(s: State, l: real, r: real, speed: real, rotation: real, coast: bool)
    ensures Execute(SetTank(s, l, r)) == Tank(l, r)
    ensures Execute(SetArcade(SetTank(s, l, r), speed, rotation)) == Arcade(speed, rotation)
    ensures Execute(Stop(SetArcade(s, speed, rotation), coast)) == NoDrive
  {
  }

  /** Creeper mode does not change what `execute` sends. */
  lemma CreeperModeNotApplied(s: State)
    ensures Execute(EnableCreeperMode(s)) == Execute(s)
  {
  }
}
