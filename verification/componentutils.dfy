/** `testComponentCompatibility` of utils/componentUtils.py: the per-component
    step with the compatibility decision delegated to the robot's config mapper
    (`check`), and with modules no longer accepted as annotations. */
module ComponentUtils {
  import opened Wrappers
  import opened Dicts
  import opened Values
  import opened Compat

  /** The component after the test and the robot's attributes: untouched
      without a `compatString` or when `check` accepts it; otherwise
      stand-ins for its injectables and its three hooks replaced. */
  function TestCompatibility(robot: RobotAttrs, comp: ComponentClass, check: Value -> Result<bool>)
    : (r: Result<(ComponentClass, RobotAttrs)>)
    ensures comp.compatString.None? ==> r == Ok((comp, robot))
    ensures comp.compatString.Some? && check(comp.compatString.value) == Ok(true) ==> r == Ok((comp, robot))
    ensures comp.compatString.Some? && check(comp.compatString.value).Err? ==>
              r == Err(check(comp.compatString.value).error)
    ensures comp.compatString.Some? && check(comp.compatString.value) == Ok(false) ==>
              (r.Ok? <==> StandIns(robot, comp, comp.hints, false).Ok?)
    ensures comp.compatString.Some? && check(comp.compatString.value) == Ok(false) && r.Ok? ==>
              r.value.0.disabled && r.value.0 == Disable(comp) &&
              r.value.1 == StandIns(robot, comp, comp.hints, false).value
    ensures r.Ok? ==> forall k :: k in Keys(robot) ==> Lookup(r.value.1, k) == Lookup(robot, k)
  {
    match comp.compatString
    case None => Ok((comp, robot))
    case Some(cs) =>
      var ok :- check(cs);
      Settle(robot, comp, ok, false)
  }

  /** A module annotation on a name the disabled component would stub is a
      TypeError here, even when the robot already has the attribute; the
      earlier revisions leave such a robot attribute in place. */
  lemma ModuleAnnotationRejected(robot: RobotAttrs, comp: ComponentClass, n: string, m: string)
    requires Eligible(comp, n) && n in Keys(robot)
    ensures StandInOne(robot, comp, n, ModuleHint(m), false).Err?
    ensures StandInOne(robot, comp, n, ModuleHint(m), true) == Ok(robot)
  {
  }

  /** The decision is the mapper's alone: two mappers that agree on a
      `compatString` treat the component the same way. */
  lemma OnlyTheCheckMatters(robot: RobotAttrs, comp: ComponentClass, check1: Value -> Result<bool>,
                            check2: Value -> Result<bool>)
    requires comp.compatString.Some? ==> check1(comp.compatString.value) == check2(comp.compatString.value)
    ensures TestCompatibility(robot, comp, check1) == TestCompatibility(robot, comp, check2)
  {
  }
}
