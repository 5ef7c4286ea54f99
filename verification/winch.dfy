/** `Winch` of components/winch.py: the winch motor reels in while the
    mechanism controller's POV hat points up (0 degrees). */
module Winch {
  import opened Wrappers
  import opened Dicts

  /** The speed `setRaise` sets. */
  const RaiseSpeed: real := 0.5

  /** The component's one field, `upSpeed`. */
  datatype State = State(upSpeed: real)

  /** `on_enable`: stopped, with the motor from `motors_winch` and the
      mechanism controller from `controllers`, looked up in that order. */
  function OnEnable<M, C>(motors: Dict<string, M>, controllers: Dict<string, C>): (r: Result<State>)
    ensures "winchMotor" !in Keys(motors) ==> r == Err(KeyError("winchMotor"))
    ensures "winchMotor" in Keys(motors) && "mech" !in Keys(controllers) ==> r == Err(KeyError("mech"))
    ensures r.Ok? <==> "winchMotor" in Keys(motors) && "mech" in Keys(controllers)
    ensures r.Ok? ==> r.value.upSpeed == 0.0
  {
    var _ :- Get(motors, "winchMotor", "winchMotor");
    var _ :- Get(controllers, "mech", "mech");
    Ok(State(0.0))
  }

  function SetRaise(s: State): (r: State)
    ensures r.upSpeed == RaiseSpeed
  {
    State(RaiseSpeed)
  }

  function Stop(s: State): (r: State)
    ensures r.upSpeed == 0.0
  {
    State(0.0)
  }

  /** `execute`: raise when the POV reads 0, stop otherwise, then set the
      motor. The new state and the motor's speed are returned. */
  function Execute(s: State, pov: int): (r: (State, real))
    ensures r.1 == r.0.upSpeed
    ensures r.1 == RaiseSpeed <==> pov == 0
    ensures r.1 == 0.0 <==> pov != 0
  {
    var s' := if pov == 0 then SetRaise(s) else Stop(s);
    (s', s'.upSpeed)
  }

  /** Calls to `setRaise` or `stop` between two `execute`s are overruled:
      the motor follows the POV alone. */
  lemma PovAloneDecides(s: State, pov: int)
    ensures Execute(SetRaise(s), pov) == Execute(Stop(s), pov) == Execute(s, pov)
  {
  }
}
