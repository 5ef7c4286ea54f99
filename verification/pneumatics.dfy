/** `Pneumatics` of components/doof/pneumatics.py: the loader's double
    solenoid, a requested position that `execute` applies once, and the
    compressor started at setup. */
module Pneumatics {
  import opened Wrappers
  import opened Dicts

  /** `DoubleSolenoid.Value`. */
  datatype SolenoidValue = Off | Forward | Reverse

  /** The component: the position requested since the last `execute`
      (`newLoaderValue`), the solenoid's position, and whether the compressor
      was started. */
  datatype State = State(pending: Option<SolenoidValue>, solenoid: SolenoidValue, compressorStarted: bool)

  /** `setup`: the solenoid is `pneumatics_solenoids["intakeSolenoid"]`, and
      `pneumatics_compressors["compressor"]` is read (for the log line)
      and started. `position` is where the solenoid currently is. */
  function Setup<S, C>(solenoids: Dict<string, S>, compressors: Dict<string, C>, position: SolenoidValue)
    : (r: Result<State>)
    ensures "intakeSolenoid" !in Keys(solenoids) ==> r == Err(KeyError("intakeSolenoid"))
    ensures "intakeSolenoid" in Keys(solenoids) && "compressor" !in Keys(compressors) ==> r == Err(KeyError("compressor"))
    ensures r.Ok? <==> "intakeSolenoid" in Keys(solenoids) && "compressor" in Keys(compressors)
    ensures r.Ok? ==> r.value == State(None, position, true)
  {
    var _ :- Get(solenoids, "intakeSolenoid", "intakeSolenoid");
    var _ :- Get(compressors, "compressor", "compressor");
    Ok(State(None, position, true))
  }

  /** `getLoaderDeployed`. */
  function GetLoaderDeployed(s: State): (r: bool)
    ensures r <==> s.solenoid == Forward
  {
    s.solenoid == Forward
  }

  /** `deployLoader`: requests forward, moving nothing yet. */
  function DeployLoader(s: State): (r: State)
    ensures r.pending == Some(Forward) && r.solenoid == s.solenoid && r.compressorStarted == s.compressorStarted
  {
    s.(pending := Some(Forward))
  }

  /** `retractLoader`: requests reverse. */
  function RetractLoader(s: State): (r: State)
    ensures r.pending == Some(Reverse) && r.solenoid == s.solenoid && r.compressorStarted == s.compressorStarted
  {
    s.(pending := Some(Reverse))
  }

  /** `toggleLoader`: requests the opposite of where the solenoid is now;
      an off solenoid counts as retracted. A request still pending is not
      consulted. */
  function ToggleLoader(s: State): (r: State)
    ensures r.pending == Some(if GetLoaderDeployed(s) then Reverse else Forward)
    ensures r.solenoid == s.solenoid && r.compressorStarted == s.compressorStarted
  {
    s.(pending := Some(if s.solenoid == Forward then Reverse else Forward))
  }

  /** `execute`: a pending request moves the solenoid and is cleared; with
      none, nothing changes. */
  function Execute(s: State): (r: State)
    ensures r.pending.None?
    ensures s.pending.Some? ==> r.solenoid == s.pending.value
    ensures s.pending.None? ==> r == s
    ensures r.compressorStarted == s.compressorStarted
  {
    match s.pending
    case Some(v) => s.(solenoid := v, pending := None)
    case None => s
  }

  /** A toggle applied by `execute` flips whether the loader is deployed. */
  lemma ToggleFlipsDeployed(s: State)
    ensures GetLoaderDeployed(Execute(ToggleLoader(s))) == !GetLoaderDeployed(s)
  {
  }

  /** Executing again with nothing requested keeps the position. */
  lemma ExecuteIdempotent(s: State)
    ensures Execute(Execute(s)) == Execute(s)
  {
  }

  /** Two toggles between the same pair of `execute` calls make one: each
      reads the solenoid, which has not moved. Deploy and retract followed by
      `execute` reach their position whatever was pending. */
  lemma ToggleTwiceBeforeExecute(s: State)
    ensures Execute(ToggleLoader(ToggleLoader(s))) == Execute(ToggleLoader(s))
    ensures GetLoaderDeployed(Execute(DeployLoader(s)))
    ensures !GetLoaderDeployed(Execute(RetractLoader(s)))
  {
  }
}
