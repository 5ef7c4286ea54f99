/** `Elevator` of components/elevator.py: a motor driven at one of two
    tunable speeds or stopped. */
module Elevator {
  import opened Wrappers
  import opened Dicts

  /** The component: the speed `execute` applies, and the tunables. */
  datatype State = State(speed: real, upSpeed: real, downSpeed: real)

  /** The tunables' defaults. */
  const DefaultUpSpeed: real := 0.4
  const DefaultDownSpeed: real := -0.4

  /** The speed is always stopped, raising or lowering. */
  predicate Valid(s: State) {
    s.speed == 0.0 || s.speed == s.upSpeed || s.speed == s.downSpeed
  }

  /** `on_enable`: stopped, with the motor taken from `motors_elevator`. */
  function OnEnable<M>(motors: Dict<string, M>, upSpeed: real, downSpeed: real): (r: Result<State>)
    ensures r.Ok? <==> "elevatorMotor" in Keys(motors)
    ensures r.Err? ==> r.error == KeyError("elevatorMotor")
    ensures r.Ok? ==> Valid(r.value) && r.value.speed == 0.0 && r.value.upSpeed == upSpeed && r.value.downSpeed == downSpeed
  {
    var _ :- Get(motors, "elevatorMotor", "elevatorMotor");
    Ok(State(0.0, upSpeed, downSpeed))
  }

  function SetRaise(s: State): (r: State)
    ensures Valid(r) && r.speed == s.upSpeed && r.(speed := s.speed) == s
  {
    s.(speed := s.upSpeed)
  }

  function SetLower(s: State): (r: State)
    ensures Valid(r) && r.speed == s.downSpeed && r.(speed := s.speed) == s
  {
    s.(speed := s.downSpeed)
  }

  function Stop(s: State): (r: State)
    ensures Valid(r) && r.speed == 0.0 && r.(speed := s.speed) == s
  {
    s.(speed := 0.0)
  }

  /** `execute`: the motor is set to the speed, which in any state the
      operations reach is stopped, raising or lowering. */
  function Execute(s: State): (r: real)
    ensures Valid(s) ==> r == 0.0 || r == s.upSpeed || r == s.downSpeed
  {
    s.speed
  }

  /** The last request decides: what `execute` applies depends only on the
      last of raise, lower and stop. */
  lemma LastRequestWins(s: State)
    ensures Execute(SetRaise(SetLower(s))) == s.upSpeed
    ensures Execute(SetLower(Stop(SetRaise(s)))) == s.downSpeed
    ensures Execute(Stop(SetRaise(s))) == 0.0
  {
  }
}
