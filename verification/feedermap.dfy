/** `FeederMap` of components/feederMap.py: the mechanism controller's
    triggers turned into a command for the intake or the loader of the
    shooter motors component. */
module FeederMap {
  import opened Wrappers

  /** `Type`: which feeder element a call is about. */
  datatype FeederType = IntakeType | LoaderType

  /** `Direction` of the shooter motors component. */
  datatype Direction = Forwards | Backwards

  /** What one `run` asks of the shooter motors component. */
  datatype Command =
    | RunIntake(speed: real, direction: Direction)
    | StopIntake
    | RunLoader(speed: real, direction: Direction)
    | StopLoader

  /** The tunables' defaults. */
  const DefaultLoaderSpeed: real := 0.4
  const DefaultIntakeSpeed: real := 0.7

  /** The trigger test both branches of `run` share: the right trigger alone
      means forwards, the left alone backwards, anything else stop. */
  function TriggerDirection(rightTrigger: real, leftTrigger: real): (r: Option<Direction>)
    ensures r == Some(Forwards) <==> rightTrigger > 0.0 && leftTrigger == 0.0
    ensures r == Some(Backwards) <==> leftTrigger > 0.0 && rightTrigger == 0.0
  {
    if rightTrigger > 0.0 && leftTrigger == 0.0 then Some(Forwards)
    else if leftTrigger > 0.0 && rightTrigger == 0.0 then Some(Backwards)
    else None
  }

  /** `run(loaderFunc)`: one command for the element named, at that element's
      speed. */
  function Run(feeder: FeederType, rightTrigger: real, leftTrigger: real,
               intakeSpeed: real, loaderSpeed: real): (r: Command)
    ensures feeder.IntakeType? ==> r.RunIntake? || r.StopIntake?
    ensures feeder.LoaderType? ==> r.RunLoader? || r.StopLoader?
    ensures r.RunIntake? ==> r.speed == intakeSpeed
    ensures r.RunLoader? ==> r.speed == loaderSpeed
    ensures (r.RunIntake? || r.RunLoader?) <==> TriggerDirection(rightTrigger, leftTrigger).Some?
    ensures (r.RunIntake? || r.RunLoader?) ==> r.direction == TriggerDirection(rightTrigger, leftTrigger).value
  {
    match (feeder, TriggerDirection(rightTrigger, leftTrigger))
    case (IntakeType, Some(d)) => RunIntake(intakeSpeed, d)
    case (IntakeType, None) => StopIntake
    case (LoaderType, Some(d)) => RunLoader(loaderSpeed, d)
    case (LoaderType, None) => StopLoader
  }

  /** Swapping the triggers swaps the direction, and pulling both (or
      neither) stops the element. */
  lemma {:induction false} TriggersSymmetric(feeder: FeederType, right: real, left: real, intakeSpeed: real, loaderSpeed: real)
    ensures var a := Run(feeder, right, left, intakeSpeed, loaderSpeed);
            var b := Run(feeder, left, right, intakeSpeed, loaderSpeed);
            (a.RunIntake? || a.RunLoader?) <==> (b.RunIntake? || b.RunLoader?)
    ensures var a := Run(feeder, right, left, intakeSpeed, loaderSpeed);
            var b := Run(feeder, left, right, intakeSpeed, loaderSpeed);
            (a.RunIntake? || a.RunLoader?) ==> a.direction != b.direction
    ensures right > 0.0 && left > 0.0 ==>
              Run(feeder, right, left, intakeSpeed, loaderSpeed) in {StopIntake, StopLoader}
  {
    var a := TriggerDirection(right, left);
    var b := TriggerDirection(left, right);
    assert a == Some(Forwards) <==> b == Some(Backwards);
    assert a == Some(Backwards) <==> b == Some(Forwards);
  }
}
