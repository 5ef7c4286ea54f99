/** The `ConfigManager` config choice, the `_PyHardwareObject` registry and the
    hardware builder of utils/configwindow.py. */
module ConfigWindow {
  import opened Wrappers
  import opened Dicts
  import opened Values
  import opened Hardware
  import Strings

  /** `string[-5:]`: the last five characters, or the whole string when shorter. */
  function LastFive(s: string): (r: string)
    ensures |r| == if |s| < 5 then |s| else 5
    ensures Strings.EndsWith(s, r)
  {
    if |s| >= 5 then s[|s| - 5..] else s
  }

  /** `_format_check`: the name ends in ".json". */
  function FormatCheck(s: string): (ok: bool)
    ensures ok <==> Strings.EndsWith(s, ".json")
  {
    LastFive(s) == ".json"
  }

  /** The config `ConfigManager.__init__` settles on: the class-level `__config__`
      (set from the command line), or `default` when it is None; a name that
      does not end in ".json" is a SyntaxError. */
  function ChooseConfig(configAttr: Option<string>, default: string): (r: Result<string>)
    ensures configAttr.None? ==> (r.Ok? <==> Strings.EndsWith(default, ".json"))
    ensures configAttr.Some? ==> (r.Ok? <==> Strings.EndsWith(configAttr.value, ".json"))
    ensures r.Ok? ==> r.value == (if configAttr.Some? then configAttr.value else default)
    ensures r.Err? ==> r.error.SyntaxError?
  {
    var config := configAttr.GetOr(default);
    if FormatCheck(config) then Ok(config) else Err(SyntaxError(config))
  }

  /** The characters `str.strip(".json")` removes: a set, not a suffix. */
  const NameChars: set<char> := {'.', 'j', 's', 'o', 'n'}

  /** The `name` property as written: `__config__.strip(".json")`. */
  function Name(config: string): (r: string)
    ensures |r| > 0 ==> r[0] !in NameChars && r[|r| - 1] !in NameChars
    ensures Strings.IsInfix(r, config)
    ensures exists p, q :: config == p + r + q && Strings.AllIn(p, NameChars) && Strings.AllIn(q, NameChars)
  {
    var left := Strings.LeftStrip(config, NameChars);
    var r := Strings.RightStrip(left, NameChars);
    InfixOfSuffixPrefix(config, left, r);
    Strings.StripSplits(config, left, r, NameChars);
    r
  }

  lemma InfixOfSuffixPrefix(s: string, mid: string, r: string)
    requires Strings.EndsWith(s, mid) && Strings.StartsWith(mid, r)
    ensures Strings.IsInfix(r, s)
    decreases |s|
  {
    if |mid| < |s| {
      assert Strings.EndsWith(s[1..], mid) by {
        assert s[1..][|s[1..]| - |mid|..] == s[|s| - |mid|..];
      }
      InfixOfSuffixPrefix(s[1..], mid, r);
    } else {
      assert mid == s;
      assert s[..|r|] == r;
    }
  }

  /** The robot name as evidently intended: the config name without its
      ".json" suffix. */
  function IntendedName(config: string): (r: string)
    ensures Strings.EndsWith(config, ".json") ==> r + ".json" == config
    ensures !Strings.EndsWith(config, ".json") ==> r == config
  {
    Strings.RemoveSuffix(config, ".json")
  }

  /** Removing the suffix undoes appending it, for every robot name. */
  lemma IntendedNameRoundTrip(robot: string)
    ensures IntendedName(robot + ".json") == robot
  {
    assert (robot + ".json")[|robot + ".json"| - 5..] == ".json";
    assert (robot + ".json")[..|robot|] == robot;
  }

  /** The stripping also eats letters of the robot name itself: whenever the
      robot's name starts or ends with one of '.', 'j', 's', 'o', 'n' ("scorpion",
      "doof" is spared, "johnson" is not), `name` differs from the robot's name,
      while the intended suffix removal gives it back. */
  lemma NameStripsRobotLetters(robot: string)
    requires |robot| > 0 && (robot[0] in NameChars || robot[|robot| - 1] in NameChars)
    ensures Name(robot + ".json") != robot
    ensures IntendedName(robot + ".json") == robot
  {
    IntendedNameRoundTrip(robot);
  }

  /** `_OBJECT_MAPPING`: type name to constructor class. */
  type Registry = Dict<string, ClassDecl>

  /** `_PyHardwareObject.__init_subclass__`: the checks in order, then one new
      entry `__type__ -> cls`. */
  function Register(reg: Registry, cls: ClassDecl): (r: Result<Registry>)
    ensures cls.typeAttr.Null? ==> r.Err? && r.error.NoTypeFoundError?
    ensures !cls.typeAttr.Null? && !cls.typeAttr.Str? ==> r.Err? && r.error.TypeError?
    ensures cls.typeAttr.Str? && cls.positionalArgs > 2 ==> r.Err? && r.error.ValueError?
    ensures cls.typeAttr.Str? && cls.positionalArgs <= 2 && cls.typeAttr.s in Keys(reg) ==>
              r.Err? && r.error.DuplicateTypeError?
    ensures r.Ok? <==> cls.typeAttr.Str? && cls.positionalArgs <= 2 && cls.typeAttr.s !in Keys(reg)
    ensures r.Ok? ==> Lookup(r.value, cls.typeAttr.s) == Some(cls)
                      && Keys(r.value) == Keys(reg) + [cls.typeAttr.s]
                      && forall t :: t != cls.typeAttr.s ==> Lookup(r.value, t) == Lookup(reg, t)
  {
    match cls.typeAttr
    case Null => Err(NoTypeFoundError(cls.name))
    case Str(t) =>
      if cls.positionalArgs > 2 then Err(ValueError(cls.name))
      else if t in Keys(reg) then Err(DuplicateTypeError(t))
      else Ok(Set(reg, t, cls))
    case _ => Err(TypeError(cls.name))
  }

  /** Registering keeps the type names distinct. */
  lemma RegisterKeepsDistinct(reg: Registry, cls: ClassDecl)
    requires DistinctKeys(reg)
    requires Register(reg, cls).Ok?
    ensures DistinctKeys(Register(reg, cls).value)
  {
    SetKeepsDistinct(reg, cls.typeAttr.s, cls);
  }

  /** The `__required_keys__` check of `new_hardware_object`: a value that is
      neither iterable nor a str is a TypeError; an iterable has each element
      checked (a str therefore character by character); a str is then checked
      as a whole as well. */
  function CheckRequired(desc: Desc, r: Value): (res: Result<()>)
    ensures r.Null? || r.Bool? || r.Num? || r.Real? ==> res.Err? && res.error.TypeError?
    ensures (r.List? || r.Tuple?) ==> res == CheckEach(desc, r.items)
    ensures r.Str? ==> (res.Ok? <==> CheckEach(desc, Chars(r.s)).Ok? && r.s in Keys(desc))
  {
    match Elements(r)
    case Err(_) => Err(TypeError("__required_keys__ must be an iterable or a string"))
    case Ok(elems) =>
      var _ :- CheckEach(desc, elems);
      if r.Str? && r.s !in Keys(desc) then Err(MissingRequiredKeysError(r.s)) else Ok(())
  }

  /** `new_hardware_object(desc)`. */
  function NewObject(reg: Registry, desc: Desc): (r: Result<Built>)
    ensures PopType(desc).0.Null? ==> r.Err? && r.error.AttributeError?
    ensures !Hashable(PopType(desc).0) ==> r.Err? && r.error.TypeError?
    ensures PopType(desc).0.Str? && PopType(desc).0.s !in Keys(reg) ==> r.Err? && r.error.NoConstructorError?
    ensures r.Ok? ==> (PopType(desc).0.Str? &&
              var c := Lookup(reg, PopType(desc).0.s);
              c.Some? && r.value == Construct(c.value, PopType(desc).1) &&
              (c.value.requiredKeys.Null? || CheckRequired(PopType(desc).1, c.value.requiredKeys).Ok?))
  {
    var (typ, rest) := PopType(desc);
    if !Hashable(typ) then Err(TypeError("unhashable type"))
    else
      var c := if typ.Str? then Lookup(reg, typ.s) else None;
      if typ.Null? then Err(AttributeError("missing 'type' key in description"))
      else if c.None? then Err(NoConstructorError(PyStr(typ)))
      else
        var _ :- if c.value.requiredKeys.Null? then Ok(()) else CheckRequired(rest, c.value.requiredKeys);
        Ok(Construct(c.value, rest))
  }

  /** With the usual tuple of names, building succeeds exactly when the type is
      registered and every required name is a key left in the descriptor; the
      object is built from the descriptor without its 'type'. */
  lemma NewObjectTupleKeys(reg: Registry, desc: Desc, t: string, names: seq<string>)
    requires Lookup(desc, "type") == Some(Str(t))
    requires Lookup(reg, t).Some? && Lookup(reg, t).value.requiredKeys == Tuple(StrValues(names))
    ensures NewObject(reg, desc).Ok? <==> forall i :: 0 <= i < |names| ==> names[i] in Keys(Remove(desc, "type"))
    ensures NewObject(reg, desc).Ok? ==> NewObject(reg, desc).value == Construct(Lookup(reg, t).value, Remove(desc, "type"))
  {
    var rest := Remove(desc, "type");
    NewObjectOfType(reg, desc, t);
    assert CheckRequired(rest, Lookup(reg, t).value.requiredKeys) == CheckEach(rest, StrValues(names));
    NamesPresent(rest, names);
  }

  /** For a registered str type, building succeeds exactly when the class's
      required keys are all present in the rest of the descriptor. */
  lemma NewObjectOfType(reg: Registry, desc: Desc, t: string)
    requires Lookup(desc, "type") == Some(Str(t)) && Lookup(reg, t).Some?
    ensures var c := Lookup(reg, t).value;
            var rest := Remove(desc, "type");
            NewObject(reg, desc) ==
              if c.requiredKeys.Null? then Ok(Construct(c, rest))
              else match CheckRequired(rest, c.requiredKeys)
                   case Ok(_) => Ok(Construct(c, rest))
                   case Err(e) => Err(e)
  {
    assert PopType(desc) == (Str(t), Remove(desc, "type"));
  }

  /** A tuple of names passes the required-keys loop exactly when every name
      is a key. */
  lemma NamesPresent(desc: Desc, names: seq<string>)
    ensures CheckEach(desc, StrValues(names)).Ok? <==> forall i :: 0 <= i < |names| ==> names[i] in Keys(desc)
  {
    var vs := StrValues(names);
    assert forall i :: 0 <= i < |names| ==> (HasRequired(desc, vs[i]) == Ok(true) <==> names[i] in Keys(desc));
  }

  /** A str-valued `__required_keys__` is checked character by character before
      it is checked whole, so `"channel"` demands a key "c" as well. */
  lemma StrRequiredKeysChecksCharacters(reg: Registry, desc: Desc, t: string, key: string)
    requires Lookup(desc, "type") == Some(Str(t))
    requires Lookup(reg, t).Some? && Lookup(reg, t).value.requiredKeys == Str(key)
    requires |key| > 0 && [key[0]] !in Keys(Remove(desc, "type"))
    ensures NewObject(reg, desc).Err? && NewObject(reg, desc).error.MissingRequiredKeysError?
  {
    var rest := Remove(desc, "type");
    assert Chars(key)[0] == Str([key[0]]);
    assert HasRequired(rest, Chars(key)[0]) == Ok(false);
  }

  /** `generate_hardware_objects`: every (general_type, subsystem) group built
      item by item into attribute `general_type_subsystem`. */
  function Generate(reg: Registry, cfg: Dict<string, Value>): (r: Result<Injection<Built>>)
    ensures r.Ok? <==> ItemsBuild(cfg, Builder(reg))
    ensures r.Ok? ==> r.value.total == ItemCount(cfg)
    ensures r.Ok? ==> forall k :: k in Keys(r.value.attrs) <==> k in WalkNames(cfg, Compound)
    ensures r.Ok? ==> WalkSets(cfg, Compound, Always(Builder(reg)), r.value.attrs)
  {
    InjectAll(cfg, Builder(reg))
  }

  /** `new_hardware_object` applied to an item. */
  function Builder(reg: Registry): (f: Value -> Result<Built>)
    ensures forall v :: f(v) == BuildFromValue(reg, v)
  {
    (v: Value) => BuildFromValue(reg, v)
  }

  /** One item: the descriptor must be a dict, then `new_hardware_object`. */
  function BuildFromValue(reg: Registry, v: Value): (r: Result<Built>)
    ensures r.Ok? ==> v.Obj? && NewObject(reg, v.fields) == r
  {
    var desc :- AsDesc(v);
    NewObject(reg, desc)
  }
}
