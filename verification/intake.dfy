/** `Intake` of components/intake.py: every `execute` drives the intake
    motor in by the right trigger or out by the left, and otherwise leaves
    the motor as it was. */
module Intake {
  import opened Wrappers
  import opened Dicts

  /** `INTAKE_MOTOR_SPEED`. */
  const IntakeMotorSpeed: real := 0.7

  /** `on_enable`: the mechanism controller, then the intake motor. */
  function OnEnable<C, M>(xboxControllers: Dict<string, C>, motors: Dict<string, M>): (r: Result<()>)
    ensures "mech" !in Keys(xboxControllers) ==> r == Err(KeyError("mech"))
    ensures "mech" in Keys(xboxControllers) && "intakeMotor" !in Keys(motors) ==> r == Err(KeyError("intakeMotor"))
    ensures r.Ok? <==> "mech" in Keys(xboxControllers) && "intakeMotor" in Keys(motors)
  {
    var _ :- Get(xboxControllers, "mech", "mech");
    var _ :- Get(motors, "intakeMotor", "intakeMotor");
    Ok(())
  }

  /** `runIntake` (and so `execute`): the motor's setting after the call,
      given the setting before it. The right trigger takes precedence. */
  function RunIntake(motor: real, rightTrigger: real, leftTrigger: real): (r: real)
    ensures rightTrigger > 0.0 ==> r == IntakeMotorSpeed
    ensures rightTrigger <= 0.0 && leftTrigger > 0.0 ==> r == -IntakeMotorSpeed
    ensures rightTrigger <= 0.0 && leftTrigger <= 0.0 ==> r == motor
    ensures r == motor || r == IntakeMotorSpeed || r == -IntakeMotorSpeed
  {
    if rightTrigger > 0.0 then IntakeMotorSpeed
    else if leftTrigger > 0.0 then -IntakeMotorSpeed
    else motor
  }

  /** Example: releasing both triggers does not stop the motor: it keeps running at
      the last setting, however many ticks pass. */
  lemma {:induction false} ReleasedKeepsRunning(motor: real, right: real, left: real, ticks: nat)
    requires right > 0.0 || left > 0.0
    ensures Repeat(RunIntake(motor, right, left), ticks) == RunIntake(motor, right, left)
    ensures RunIntake(motor, right, left) != 0.0
    decreases ticks
  {
    if ticks > 0 {
      ReleasedKeepsRunning(motor, right, left, ticks - 1);
    }
  }

  /** `ticks` executes with both triggers released. */
  function Repeat(motor: real, ticks: nat): real
    decreases ticks
  {
    if ticks == 0 then motor else RunIntake(Repeat(motor, ticks - 1), 0.0, 0.0)
  }
}
