/** `ConfigurationManager` of utils/reworkedConfig.py: the start-up of
    utils/robotInitializer.py with a different component filter — only
    annotations that are classes are examined. */
module ReworkedConfig {
  import opened Wrappers
  import opened Dicts
  import opened Values
  import opened Compat
  import RobotInitializer
  import Strings

  /** `isclass(component)`: a generic alias, a module or any other object is
      not a class, and no annotation is an error here. */
  function IsClass(h: Hint): (r: Result<bool>)
    ensures r.Ok?
    ensures r.value <==> h.ClassHint?
  {
    Ok(h.ClassHint?)
  }

  /** `ConfigurationManager.__init__`. */
  function Initialize<M, B>(robot: RobotAttrs, anns: Dict<string, Annotation>, load: Value -> Result<Value>,
                            marker: Option<string>, importModule: Value -> Result<M>,
                            getAttr: (M, Value) -> Result<Value -> Result<B>>)
    : (r: Result<RobotInitializer.Initialized<B>>)
    ensures marker.Some? && Strings.AllIn(marker.value, Strings.Whitespace) ==> r.Err?
    ensures r.Ok? ==> forall i :: 0 <= i < |anns| && Disables(anns[i].1, IsClass, RobotInitializer.Checker(r.value.compatibility)) ==>
                        anns[i].0 in r.value.disabled
    ensures r.Ok? ==> forall n :: n in r.value.disabled ==>
                        exists i :: 0 <= i < |anns| && anns[i].0 == n && anns[i].1.hint.ClassHint? &&
                                   Disables(anns[i].1, IsClass, RobotInitializer.Checker(r.value.compatibility))
  {
    RobotInitializer.Setup(IsClass, robot, anns, load, marker, importModule, getAttr)
  }

  /** Where the two revisions part: an annotation naming a module, or naming
      a builtin class, is examined by one filter and not by the other, and a
      generic annotation on the robot stops utils/robotInitializer.py while
      this revision passes over it. */
  lemma FiltersDiffer(name: string, origin: Hint)
    ensures RobotInitializer.Examine(ModuleHint(name)) == Ok(name !in RobotInitializer.BuiltinTypes)
    ensures IsClass(ModuleHint(name)) == Ok(false)
    ensures RobotInitializer.Examine(ClassHint("dict")) == Ok(false) && IsClass(ClassHint("dict")) == Ok(true)
    ensures RobotInitializer.Examine(GenericHint(origin)).Err? && IsClass(GenericHint(origin)) == Ok(false)
  {
  }
}
