/** What the component-disabling code of utils/robotInitializer.py,
    utils/reworkedConfig.py and utils/componentUtils.py shares: type hints as
    tagged values, component classes as records of the attributes the code
    reads and writes, the `compatString` test, and the loop that gives a
    disabled component stand-ins for its injected dependencies. */
module Compat {
  import opened Wrappers
  import opened Dicts
  import opened Values
  import Strings

  /** A type hint as `get_type_hints` returns it: a class, a module, a
      generic alias with its `__origin__`, or some other object. */
  datatype Hint = ClassHint(name: string) | ModuleHint(name: string) | GenericHint(origin: Hint) | ValueHint(repr: string)

  /** A component class: its `compatString` class attribute (`None` when it
      has none), its annotated injectables, the names already set on the class,
      and whether `execute`, `on_enable` and `setup` have been replaced by
      `dummyFunc`. */
  datatype ComponentClass = ComponentClass(
    compatString: Option<Value>,
    hints: Dict<string, Hint>,
    classAttrs: seq<string>,
    disabled: bool)

  /** What a robot attribute holds, as far as this code is concerned: something
      set before, or a stand-in `T()` created here. */
  datatype Attr = Existing | StandIn(typeName: string)

  type RobotAttrs = Dict<string, Attr>

  /** `bool(set(compCompat).intersection([compat])) or 'all' in compCompat or
      'all' in [compat]`, evaluated left to right with Python's `set`, `in` and
      short-circuiting: a str `compatString` is a set of characters for the
      first test and a substring test for the second. */
  function Compatible(compCompat: Value, compat: Value): (r: Result<bool>)
    ensures r.Ok? ==> Elements(compCompat).Ok? && (forall i :: 0 <= i < |Elements(compCompat).value| ==> Hashable(Elements(compCompat).value[i]))
    ensures r.Ok? && compat in Elements(compCompat).value ==> r.value
    ensures r.Ok? && r.value && compat !in Elements(compCompat).value && compat != Str("all") ==>
              Contains(compCompat, Str("all")) == Ok(true)
    ensures Elements(compCompat).Err? ==> r.Err? && r.error.TypeError?
  {
    var elems :- Elements(compCompat);
    if exists i :: 0 <= i < |elems| && !Hashable(elems[i]) then Err(TypeError("unhashable type"))
    else if !Hashable(compat) then Err(TypeError("unhashable type"))
    else if compat in elems then Ok(true)
    else
      var hasAll :- Contains(compCompat, Str("all"));
      Ok(hasAll || compat == Str("all"))
  }

  /** For the usual list of robot names and a str compatibility, the test is
      exactly: the robot is listed, "all" is listed, or the robot is "all". */
  lemma CompatibleForNameLists(names: seq<string>, compat: string)
    ensures Compatible(List(StrValues(names)), Str(compat)).Ok?
    ensures Compatible(List(StrValues(names)), Str(compat)).value <==>
              (compat in names || "all" in names || compat == "all")
  {
    var vs := StrValues(names);
    assert Str(compat) in vs <==> compat in names by {
      if compat in names {
        var i :| 0 <= i < |names| && names[i] == compat;
        assert vs[i] == Str(compat);
      }
    }
    assert Str("all") in vs <==> "all" in names by {
      if "all" in names {
        var i :| 0 <= i < |names| && names[i] == "all";
        assert vs[i] == Str("all");
      }
    }
  }

  /** A str `compatString` is taken apart into its letters: "doof" as a
      `compatString` does not make the robot "doof" compatible. */
  lemma StrCompatStringIsLetters(compat: string, s: string)
    requires compat != "all" && |compat| != 1
    requires !Strings.IsInfix("all", s)
    ensures Compatible(Str(s), Str(compat)) == Ok(false)
  {
    var cs := Chars(s);
    assert Str(compat) !in cs by {
      forall i | 0 <= i < |cs| ensures cs[i] != Str(compat) {
        assert cs[i] == Str([s[i]]);
      }
    }
  }

  /** ...and its substrings: a `compatString` such as "wallaby" that contains
      "all" is compatible with every robot. */
  lemma StrCompatStringSubstring(compat: string, s: string)
    requires Strings.IsInfix("all", s)
    ensures Compatible(Str(s), Str(compat)) == Ok(true)
  {
  }

  /** "wallaby" contains "all". */
  lemma WallabyContainsAll()
    ensures Strings.IsInfix("all", "wallaby")
  {
    assert "wallaby"[1..][..3] == "all";
  }

  /** `getattr(hint, "__origin__", None)` unwrapped once. */
  function Unwrap(h: Hint): (r: Hint)
    ensures h.GenericHint? ==> r == h.origin
    ensures !h.GenericHint? ==> r == h
  {
    if h.GenericHint? then h.origin else h
  }

  /** Whether a hint name is looked at: not private and not already set on
      the component class. */
  predicate Eligible(comp: ComponentClass, n: string) {
    !Strings.StartsWith(n, "_") && n !in comp.classAttrs
  }

  /** One annotated name of a disabled component: skipped when private or set
      on the class; otherwise, after unwrapping a generic, a hint that is not a
      class (nor a module, where modules are accepted) is a TypeError, and a
      stand-in `T()` is set on the robot only when the robot lacks the name.
      Calling a module is itself a TypeError. */
  function StandInOne(robot: RobotAttrs, comp: ComponentClass, n: string, h: Hint, acceptModules: bool)
    : (r: Result<RobotAttrs>)
    ensures r.Ok? ==> forall k :: k in Keys(robot) ==> Lookup(r.value, k) == Lookup(robot, k)
    ensures r.Ok? && Eligible(comp, n) ==> n in Keys(r.value)
    ensures r.Ok? ==> forall k :: k in Keys(r.value) ==> k in Keys(robot) || (k == n && Eligible(comp, n))
    ensures Eligible(comp, n) && (Unwrap(h).GenericHint? || Unwrap(h).ValueHint?) ==> r.Err? && r.error.TypeError?
    ensures Eligible(comp, n) && Unwrap(h).ModuleHint? && !acceptModules ==> r.Err? && r.error.TypeError?
    ensures !Eligible(comp, n) ==> r == Ok(robot)
  {
    if !Eligible(comp, n) then Ok(robot)
    else
      var t := Unwrap(h);
      match t
      case ClassHint(name) =>
        if n in Keys(robot) then Ok(robot) else Ok(Set(robot, n, StandIn(name)))
      case ModuleHint(name) =>
        if !acceptModules then Err(TypeError("Component has a non-type annotation on " + n))
        else if n in Keys(robot) then Ok(robot)
        else Err(TypeError("'module' object is not callable"))
      case _ => Err(TypeError("Component has a non-type annotation on " + n))
  }

  /** The loop over `get_type_hints(component_type)`, in order; the first
      error stops it. */
  function StandIns(robot: RobotAttrs, comp: ComponentClass, hints: Dict<string, Hint>, acceptModules: bool)
    : (r: Result<RobotAttrs>)
    ensures r.Ok? ==> forall k :: k in Keys(robot) ==> Lookup(r.value, k) == Lookup(robot, k)
    ensures r.Ok? ==> forall i :: 0 <= i < |hints| && Eligible(comp, hints[i].0) ==> hints[i].0 in Keys(r.value)
    ensures r.Ok? ==> forall k :: k in Keys(r.value) ==> k in Keys(robot) || (k in Keys(hints) && Eligible(comp, k))
    decreases |hints|
  {
    if |hints| == 0 then Ok(robot)
    else
      var robot' :- StandInOne(robot, comp, hints[0].0, hints[0].1, acceptModules);
      var r :- StandIns(robot', comp, hints[1..], acceptModules);
      assert forall i :: 1 <= i < |hints| ==> hints[1..][i - 1] == hints[i];
      assert forall k :: k in Keys(hints[1..]) ==> k in Keys(hints);
      Ok(r)
  }

  /** The three hooks replaced by `dummyFunc`; nothing else about the class
      changes. */
  function Disable(comp: ComponentClass): (r: ComponentClass)
    ensures r.disabled
    ensures r.compatString == comp.compatString && r.hints == comp.hints && r.classAttrs == comp.classAttrs
  {
    comp.(disabled := true)
  }

  /** A component's fate once its compatibility is known: left alone when
      compatible, otherwise given stand-ins and disabled. */
  function Settle(robot: RobotAttrs, comp: ComponentClass, compatible: bool, acceptModules: bool)
    : (r: Result<(ComponentClass, RobotAttrs)>)
    ensures compatible ==> r == Ok((comp, robot))
    ensures !compatible ==> (r.Ok? <==> StandIns(robot, comp, comp.hints, acceptModules).Ok?)
    ensures !compatible && r.Ok? ==> r.value.0 == Disable(comp) &&
                                     r.value.1 == StandIns(robot, comp, comp.hints, acceptModules).value
  {
    if compatible then Ok((comp, robot))
    else
      var robot' :- StandIns(robot, comp, comp.hints, acceptModules);
      Ok((Disable(comp), robot'))
  }

  /** A stand-in never replaces anything the robot already had. */
  lemma SettleKeepsRobot(robot: RobotAttrs, comp: ComponentClass, compatible: bool, acceptModules: bool, k: string)
    requires Settle(robot, comp, compatible, acceptModules).Ok?
    requires k in Keys(robot)
    ensures Lookup(Settle(robot, comp, compatible, acceptModules).value.1, k) == Lookup(robot, k)
  {
  }

  /** An annotation on the robot class: its hint, and the attributes of the
      class or module the hint names. */
  datatype Annotation = Annotation(hint: Hint, comp: ComponentClass)

  /** One component: without a `compatString` it is only warned about;
      otherwise `check` decides, and an incompatible one is settled. The flag
      says whether it was disabled. */
  function CheckComponent(robot: RobotAttrs, comp: ComponentClass, check: Value -> Result<bool>, acceptModules: bool)
    : (r: Result<(bool, RobotAttrs)>)
    ensures comp.compatString.None? ==> r == Ok((false, robot))
    ensures comp.compatString.Some? && check(comp.compatString.value).Err? ==> r.Err?
    ensures comp.compatString.Some? && check(comp.compatString.value) == Ok(true) ==> r == Ok((false, robot))
    ensures comp.compatString.Some? && check(comp.compatString.value) == Ok(false) ==>
              (r.Ok? <==> StandIns(robot, comp, comp.hints, acceptModules).Ok?) &&
              (r.Ok? ==> r.value == (true, StandIns(robot, comp, comp.hints, acceptModules).value))
  {
    match comp.compatString
    case None => Ok((false, robot))
    case Some(cs) =>
      var ok :- check(cs);
      var (_, robot') :- Settle(robot, comp, ok, acceptModules);
      Ok((!ok, robot'))
  }

  /** Whether the loop disables an annotation: it passes the filter, has a
      `compatString`, and the check says no. */
  predicate Disables(a: Annotation, examine: Hint -> Result<bool>, check: Value -> Result<bool>) {
    examine(a.hint) == Ok(true) && a.comp.compatString.Some? && check(a.comp.compatString.value) == Ok(false)
  }

  /** `__createComponents`: the annotations in order, those passing `examine`
      checked one by one, the first error stopping the loop. The result names
      the disabled annotations in order and the robot's attributes after. */
  function CreateComponents(robot: RobotAttrs, anns: Dict<string, Annotation>, examine: Hint -> Result<bool>,
                            check: Value -> Result<bool>, acceptModules: bool)
    : (r: Result<(seq<string>, RobotAttrs)>)
    ensures r.Ok? ==> forall i :: 0 <= i < |anns| && Disables(anns[i].1, examine, check) ==> anns[i].0 in r.value.0
    ensures r.Ok? ==> forall n :: n in r.value.0 ==>
                        exists i :: 0 <= i < |anns| && anns[i].0 == n && Disables(anns[i].1, examine, check)
    ensures r.Ok? ==> forall k :: k in Keys(robot) ==> Lookup(r.value.1, k) == Lookup(robot, k)
    ensures r.Ok? ==> forall i :: 0 <= i < |anns| ==> examine(anns[i].1.hint).Ok?
    decreases |anns|
  {
    if |anns| == 0 then Ok(([], robot))
    else
      var (name, a) := anns[0];
      var examined :- examine(a.hint);
      var (off, robot') :- if examined then CheckComponent(robot, a.comp, check, acceptModules) else Ok((false, robot));
      var (rest, robot'') :- CreateComponents(robot', anns[1..], examine, check, acceptModules);
      assert forall i :: 1 <= i < |anns| ==> anns[1..][i - 1] == anns[i];
      assert off <==> Disables(a, examine, check);
      var disabled := (if off then [name] else []) + rest;
      assert forall n :: n in rest ==> n in disabled;
      assert forall n :: n in rest ==>
               exists i :: 0 <= i < |anns| && anns[i].0 == n && Disables(anns[i].1, examine, check) by {
        forall n | n in rest
          ensures exists i :: 0 <= i < |anns| && anns[i].0 == n && Disables(anns[i].1, examine, check)
        {
          var j :| 0 <= j < |anns[1..]| && anns[1..][j].0 == n && Disables(anns[1..][j].1, examine, check);
          assert anns[j + 1] == anns[1..][j];
        }
      }
      Ok((disabled, robot''))
  }
}
