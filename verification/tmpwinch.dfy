/** `Winch` of tmp/components/winch.py: the same winch, reading the hat of
    `inputs_XboxControllers['mech']` through `pov`, and naming its robot with
    a `robot` attribute instead of a `compatString`. */
module TmpWinch {
  import opened Wrappers
  import opened Dicts
  import opened Values
  import Winch
  import Compat
  import RobotUtil

  /** `on_enable`: the motor from `motors_winch` and the mechanism
      controller from `inputs_XboxControllers`. */
  function OnEnable<M, C>(motors: Dict<string, M>, xboxControllers: Dict<string, C>): (r: Result<Winch.State>)
    ensures "winchMotor" !in Keys(motors) ==> r == Err(KeyError("winchMotor"))
    ensures "winchMotor" in Keys(motors) && "mech" !in Keys(xboxControllers) ==> r == Err(KeyError("mech"))
    ensures r.Ok? <==> "winchMotor" in Keys(motors) && "mech" in Keys(xboxControllers)
    ensures r.Ok? ==> r.value.upSpeed == 0.0
  {
    Winch.OnEnable(motors, xboxControllers)
  }

  /** `execute` behaves as the other winch's does, reading `pov`. */
  function Execute(s: Winch.State, pov: int): (r: (Winch.State, real))
    ensures r.1 == Winch.RaiseSpeed <==> pov == 0
    ensures r.1 == 0.0 <==> pov != 0
  {
    Winch.Execute(s, pov)
  }

  /** The class as the compatibility code sees it: no `compatString`. */
  function WinchClass(hints: Dict<string, Compat.Hint>, classAttrs: seq<string>): Compat.ComponentClass {
    Compat.ComponentClass(None, hints, classAttrs, false)
  }

  /** Being named by `robot = ["doof"]`, the component is never disabled by
      the `compatString` test, and the `robot`-list cleanup keeps it exactly
      for the robot "doof". */
  lemma KeptOnlyByRobotList(robot: Compat.RobotAttrs, hints: Dict<string, Compat.Hint>, classAttrs: seq<string>,
                            check: Value -> Result<bool>, acceptModules: bool, key: string)
    requires key != "all"
    ensures Compat.CheckComponent(robot, WinchClass(hints, classAttrs), check, acceptModules) == Ok((false, robot))
    ensures RobotUtil.Keep("Winch", Some(List([Str("doof")])), Some(key)) == Ok(key == "doof")
  {
  }
}
