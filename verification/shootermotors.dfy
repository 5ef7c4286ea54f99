/** `ShooterMotorCreation` of components/ShooterMotors.py: three motors,
    each with a run flag and a stored speed, and `execute` sending each motor
    its speed while its flag is set. */
module ShooterMotors {
  import opened Wrappers

  /** The component's fields. */
  datatype State = State(intakeSpeed: real, loaderSpeed: real, shooterSpeed: real,
                         intake: bool, loader: bool, shooter: bool)

  /** What `execute` sets the intake, loader and shooter motors to. */
  datatype Outputs = Outputs(intake: real, loader: real, shooter: real)

  /** `setup`: every flag off, every speed 0; the motors are looked up in
      `motorsList` in the order loader, intake, shooter. */
  function Setup(motors: seq<string>): (r: Result<State>)
    ensures "loaderMotor" !in motors ==> r == Err(KeyError("loaderMotor"))
    ensures "loaderMotor" in motors && "intakeMotor" !in motors ==> r == Err(KeyError("intakeMotor"))
    ensures "loaderMotor" in motors && "intakeMotor" in motors && "shooterMotor" !in motors ==> r == Err(KeyError("shooterMotor"))
    ensures r.Ok? ==> !r.value.intake && !r.value.loader && !r.value.shooter
    ensures r.Ok? ==> r.value.intakeSpeed == r.value.loaderSpeed == r.value.shooterSpeed == 0.0
  {
    if "loaderMotor" !in motors then Err(KeyError("loaderMotor"))
    else if "intakeMotor" !in motors then Err(KeyError("intakeMotor"))
    else if "shooterMotor" !in motors then Err(KeyError("shooterMotor"))
    else Ok(State(0.0, 0.0, 0.0, false, false, false))
  }

  function RunLoader(s: State, speed: real): (r: State)
    ensures r.loader && r.loaderSpeed == speed && r.(loader := s.loader, loaderSpeed := s.loaderSpeed) == s
  {
    s.(loaderSpeed := speed, loader := true)
  }

  function RunIntake(s: State, speed: real): (r: State)
    ensures r.intake && r.intakeSpeed == speed && r.(intake := s.intake, intakeSpeed := s.intakeSpeed) == s
  {
    s.(intakeSpeed := speed, intake := true)
  }

  function RunShooter(s: State, speed: real): (r: State)
    ensures r.shooter && r.shooterSpeed == speed && r.(shooter := s.shooter, shooterSpeed := s.shooterSpeed) == s
  {
    s.(shooterSpeed := speed, shooter := true)
  }

  /** The stop methods clear their flag only; the stored speed stays. */
  function StopIntake(s: State): (r: State)
    ensures !r.intake && r.(intake := s.intake) == s
  {
    s.(intake := false)
  }

  function StopLoader(s: State): (r: State)
    ensures !r.loader && r.(loader := s.loader) == s
  {
    s.(loader := false)
  }

  function StopShooter(s: State): (r: State)
    ensures !r.shooter && r.(shooter := s.shooter) == s
  {
    s.(shooter := false)
  }

  /** `isLoaderActive`. */
  function IsLoaderActive(s: State): (r: bool)
    ensures r <==> s.loader
  {
    s.loader
  }

  /** `execute`: a motor gets its stored speed iff its flag is set, else 0. */
  function Execute(s: State): (r: Outputs)
    ensures r.intake == (if s.intake then s.intakeSpeed else 0.0)
    ensures r.loader == (if s.loader then s.loaderSpeed else 0.0)
    ensures r.shooter == (if s.shooter then s.shooterSpeed else 0.0)
  {
    Outputs(if s.intake then s.intakeSpeed else 0.0,
            if s.loader then s.loaderSpeed else 0.0,
            if s.shooter then s.shooterSpeed else 0.0)
  }

  /** Stopping silences one motor and leaves the others' outputs alone;
      running again later needs a new speed only because `run` takes one. */
  lemma StopSilencesOnlyItsMotor(s: State, speed: real)
    ensures Execute(StopIntake(RunIntake(s, speed))) == Execute(s).(intake := 0.0)
    ensures StopIntake(RunIntake(s, speed)).intakeSpeed == speed
    ensures Execute(StopLoader(s)).intake == Execute(s).intake && Execute(StopLoader(s)).shooter == Execute(s).shooter
    ensures Execute(RunLoader(s, speed)).loader == speed && IsLoaderActive(RunLoader(s, speed))
  {
  }
}
