/** `InitializeRobot` of utils/robotInitializer.py: the configuration chosen by
    the marker file, the factory walk, the controllers, and the components
    disabled by their `compatString`. Loading files, importing modules and the
    marker file's first line are parameters. */
module RobotInitializer {
  import opened Wrappers
  import opened Dicts
  import opened Values
  import opened Hardware
  import opened Compat
  import FactoryWalk
  import Strings

  /** The builtin type names whose annotations are not components. */
  const BuiltinTypes: seq<string> := ["str", "int", "float", "complex", "list", "tuple", "range", "dict",
                                       "set", "frozenset", "bool", "bytes", "bytearray", "memoryview"]

  /** `component.__name__ not in _builtin_types`: classes and modules have a
      `__name__`; a generic alias or any other object has none. */
  function Examine(h: Hint): (r: Result<bool>)
    ensures (h.ClassHint? || h.ModuleHint?) ==> r == Ok(h.name !in BuiltinTypes)
    ensures (h.GenericHint? || h.ValueHint?) ==> r == Err(AttributeError("__name__"))
  {
    match h
    case ClassHint(n) => Ok(n !in BuiltinTypes)
    case ModuleHint(n) => Ok(n !in BuiltinTypes)
    case _ => Err(AttributeError("__name__"))
  }

  /** The compatibility test against `[self.compatibility]`. */
  function Checker(compatibility: Value): Value -> Result<bool> {
    (cs: Value) => Compatible(cs, compatibility)
  }

  /** `findConfig`: without a marker file, the setup file's default. With
      one, chardet is asked for the encoding of its first line with the
      whitespace stripped; a blank line has no detected encoding, and
      `None.lower()` is an AttributeError that the `except FileNotFoundError`
      does not catch. Otherwise the stripped line names the configuration. */
  function FindConfig(marker: Option<string>, default: Value): (r: Result<Value>)
    ensures marker.None? ==> r == Ok(default)
    ensures marker.Some? ==> (r.Err? <==> Strings.AllIn(marker.value, Strings.Whitespace))
    ensures r.Err? ==> r == Err(AttributeError("lower"))
    ensures marker.Some? && r.Ok? ==> r.value.Str? && 0 < |r.value.s| <= |marker.value| &&
                                      r.value.s[0] !in Strings.Whitespace &&
                                      r.value.s[|r.value.s| - 1] !in Strings.Whitespace
    ensures marker.Some? && r.Ok? ==>
              exists p, q :: marker.value == p + r.value.s + q &&
                             Strings.AllIn(p, Strings.Whitespace) && Strings.AllIn(q, Strings.Whitespace)
  {
    match marker
    case None => Ok(default)
    case Some(line) =>
      var l := Strings.LeftStrip(line, Strings.Whitespace);
      var s := Strings.RightStrip(l, Strings.Whitespace);
      assert Strings.StartsWith(l, s);
      Strings.StripSplits(line, l, s, Strings.Whitespace);
      if s == "" then
        assert Strings.AllIn(line, Strings.Whitespace) by { assert |l| == 0; }
        Err(AttributeError("lower"))
      else
        assert !Strings.AllIn(line, Strings.Whitespace) by { assert line[|line| - |l|] == s[0]; }
        Ok(Str(s))
  }

  /** Names set on the robot before the components are created count as
      existing attributes. */
  function WithAttrs(robot: RobotAttrs, names: seq<string>): (r: RobotAttrs)
    ensures forall n :: n in names ==> n in Keys(r)
    ensures forall k :: k in Keys(robot) && k !in names ==> Lookup(r, k) == Lookup(robot, k)
    decreases |names|
  {
    if |names| == 0 then robot
    else
      var r := WithAttrs(Set(robot, names[0], Existing), names[1..]);
      assert forall n :: n in names[1..] ==> n in names;
      r
  }

  /** What a finished initialisation leaves behind. */
  datatype Initialized<B> = Initialized(
    compatibility: Value,
    injectables: Injection<B>,
    controllers: Dict<string, Value>,
    disabled: seq<string>,
    robot: RobotAttrs)

  /** `__init__` of utils/robotInitializer.py and utils/reworkedConfig.py,
      which differ only in which annotations `__createComponents` examines:
      read 'default' and 'controllers' from setup.json, find the
      configuration's name, and go on with `Configure`. */
  function Setup<M, B>(examine: Hint -> Result<bool>, robot: RobotAttrs, anns: Dict<string, Annotation>,
                       load: Value -> Result<Value>, marker: Option<string>, importModule: Value -> Result<M>,
                       getAttr: (M, Value) -> Result<Value -> Result<B>>)
    : (r: Result<Initialized<B>>)
    ensures r.Ok? ==> load(Str("setup.json")).Ok? && Index(load(Str("setup.json")).value, "default").Ok? &&
                      Index(load(Str("setup.json")).value, "controllers").Ok?
    ensures r.Ok? ==>
              var config := FindConfig(marker, Index(load(Str("setup.json")).value, "default").value);
              config.Ok? && load(config.value).Ok? && Index(load(config.value).value, "subsystems").Ok? &&
              Index(load(config.value).value, "compatibility") == Ok(r.value.compatibility)
    ensures marker.Some? && Strings.AllIn(marker.value, Strings.Whitespace) ==> r.Err?
    ensures marker.Some? && Strings.AllIn(marker.value, Strings.Whitespace) &&
              load(Str("setup.json")).Ok? && Index(load(Str("setup.json")).value, "default").Ok? &&
              Index(load(Str("setup.json")).value, "controllers").Ok? ==>
              r == Err(AttributeError("lower"))
    ensures r.Ok? ==> forall i :: 0 <= i < |anns| ==> examine(anns[i].1.hint).Ok?
    ensures r.Ok? ==> forall i :: 0 <= i < |anns| && Disables(anns[i].1, examine, Checker(r.value.compatibility)) ==>
                        anns[i].0 in r.value.disabled
    ensures r.Ok? ==> forall n :: n in r.value.disabled ==>
                        exists i :: 0 <= i < |anns| && anns[i].0 == n &&
                                   Disables(anns[i].1, examine, Checker(r.value.compatibility))
    ensures r.Ok? ==> "controllers" in Keys(r.value.robot) &&
                      forall k :: k in Keys(r.value.injectables.attrs) ==> k in Keys(r.value.robot)
  {
    var setup :- load(Str("setup.json"));
    var default :- Index(setup, "default");
    var controllerInfo :- Index(setup, "controllers");
    var config :- FindConfig(marker, default);
    Configure(examine, robot, anns, load, config, controllerInfo, importModule, getAttr)
  }

  /** The rest of `__init__` once the configuration is named: load it, read
      'subsystems' and then 'compatibility', load factories.json, walk,
      create the controllers, and settle the components. */
  function Configure<M, B>(examine: Hint -> Result<bool>, robot: RobotAttrs, anns: Dict<string, Annotation>,
                           load: Value -> Result<Value>, config: Value, controllerInfo: Value,
                           importModule: Value -> Result<M>, getAttr: (M, Value) -> Result<Value -> Result<B>>)
    : (r: Result<Initialized<B>>)
    ensures r.Ok? ==> load(config).Ok? && Index(load(config).value, "subsystems").Ok? &&
                      Index(load(config).value, "compatibility") == Ok(r.value.compatibility)
    ensures r.Ok? ==> forall i :: 0 <= i < |anns| ==> examine(anns[i].1.hint).Ok?
    ensures r.Ok? ==> forall i :: 0 <= i < |anns| && Disables(anns[i].1, examine, Checker(r.value.compatibility)) ==>
                        anns[i].0 in r.value.disabled
    ensures r.Ok? ==> forall n :: n in r.value.disabled ==>
                        exists i :: 0 <= i < |anns| && anns[i].0 == n &&
                                   Disables(anns[i].1, examine, Checker(r.value.compatibility))
    ensures r.Ok? ==> "controllers" in Keys(r.value.robot) &&
                      forall k :: k in Keys(r.value.injectables.attrs) ==> k in Keys(r.value.robot)
  {
    var loaded :- load(config);
    var subsystems :- Index(loaded, "subsystems");
    var compatibility :- Index(loaded, "compatibility");
    var factoryData :- load(Str("factories.json"));
    var inj :- FactoryWalk.CreateFactoryObjects(subsystems, factoryData, importModule, getAttr);
    var controllers :- FactoryWalk.Controllers(controllerInfo);
    Finish(examine, robot, anns, compatibility, inj, controllers)
  }

  /** `__createComponents`, run once the injectables and "controllers" are
      set on the robot. */
  function Finish<B>(examine: Hint -> Result<bool>, robot: RobotAttrs, anns: Dict<string, Annotation>,
                     compatibility: Value, inj: Injection<B>, controllers: Dict<string, Value>)
    : (r: Result<Initialized<B>>)
    ensures r.Ok? ==> r.value.compatibility == compatibility && r.value.injectables == inj &&
                      r.value.controllers == controllers
    ensures r.Ok? ==> forall i :: 0 <= i < |anns| ==> examine(anns[i].1.hint).Ok?
    ensures r.Ok? ==> forall i :: 0 <= i < |anns| && Disables(anns[i].1, examine, Checker(compatibility)) ==>
                        anns[i].0 in r.value.disabled
    ensures r.Ok? ==> forall n :: n in r.value.disabled ==>
                        exists i :: 0 <= i < |anns| && anns[i].0 == n &&
                                   Disables(anns[i].1, examine, Checker(compatibility))
    ensures r.Ok? ==> "controllers" in Keys(r.value.robot) &&
                      forall k :: k in Keys(inj.attrs) ==> k in Keys(r.value.robot)
  {
    var names := Keys(inj.attrs) + ["controllers"];
    var robot1 := WithAttrs(robot, names);
    var c := CreateComponents(robot1, anns, examine, Checker(compatibility), true);
    if c.Err? then Err(c.error)
    else
      assert "controllers" in names && forall k :: k in Keys(inj.attrs) ==> k in names;
      assert forall k :: k in names ==> Lookup(c.value.1, k) == Lookup(robot1, k);
      Ok(Initialized(compatibility, inj, controllers, c.value.0, c.value.1))
  }

  /** utils/robotInitializer.py's `InitializeRobot`: components are the
      annotations whose type name is not a builtin. */
  function Initialize<M, B>(robot: RobotAttrs, anns: Dict<string, Annotation>, load: Value -> Result<Value>,
                            marker: Option<string>, importModule: Value -> Result<M>,
                            getAttr: (M, Value) -> Result<Value -> Result<B>>)
    : (r: Result<Initialized<B>>)
    ensures marker.Some? && Strings.AllIn(marker.value, Strings.Whitespace) ==> r.Err?
    ensures r.Ok? ==> forall i :: 0 <= i < |anns| ==> Examine(anns[i].1.hint).Ok?
    ensures r.Ok? ==> forall i :: 0 <= i < |anns| && Disables(anns[i].1, Examine, Checker(r.value.compatibility)) ==>
                        anns[i].0 in r.value.disabled
    ensures r.Ok? ==> forall n :: n in r.value.disabled ==>
                        exists i :: 0 <= i < |anns| && anns[i].0 == n &&
                                   Disables(anns[i].1, Examine, Checker(r.value.compatibility))
  {
    Setup(Examine, robot, anns, load, marker, importModule, getAttr)
  }

  /** An annotation whose type is a builtin is never disabled. */
  lemma BuiltinsNeverDisabled<M, B>(robot: RobotAttrs, anns: Dict<string, Annotation>, load: Value -> Result<Value>,
                                    marker: Option<string>, importModule: Value -> Result<M>,
                                    getAttr: (M, Value) -> Result<Value -> Result<B>>, i: int)
    requires DistinctKeys(anns)
    requires 0 <= i < |anns| && anns[i].1.hint.ClassHint? && anns[i].1.hint.name in BuiltinTypes
    requires Initialize(robot, anns, load, marker, importModule, getAttr).Ok?
    ensures anns[i].0 !in Initialize(robot, anns, load, marker, importModule, getAttr).value.disabled
  {
  }

  /** A component is left alone exactly when the robot's compatibility is
      listed, "all" is listed, or the compatibility is "all" — for the usual
      list of names and a str compatibility. */
  lemma ListedOrAllIsCompatible(names: seq<string>, compatibility: string, a: Annotation)
    requires a.hint.ClassHint? && a.hint.name !in BuiltinTypes
    requires a.comp.compatString == Some(List(StrValues(names)))
    ensures Disables(a, Examine, Checker(Str(compatibility))) <==>
              !(compatibility in names || "all" in names || compatibility == "all")
  {
    CompatibleForNameLists(names, compatibility);
  }
}
