/** The `HardwareObject` builder, the `_PyHardwareObject` registry, the table of
    registered constructor classes and the CANSparkMax follower registry and
    coasting logic of utils/hardwaremanager.py. */
module HardwareManager {
  import opened Wrappers
  import opened Dicts
  import opened Values
  import opened Hardware

  /** `HardwareObject.__objs__`: type name to constructor class. */
  type Registry = Dict<string, ClassDecl>

  /** `_PyHardwareObject.__init_subclass__`: a missing `__type__`, a non-str one
      and a duplicate are rejected; otherwise exactly one entry is added. Unlike
      the utils/configwindow.py revision, the constructor's arguments are not
      inspected. */
  function Register(reg: Registry, cls: ClassDecl): (r: Result<Registry>)
    ensures cls.typeAttr.Null? ==> r.Err? && r.error.NoTypeFoundError?
    ensures !cls.typeAttr.Null? && !cls.typeAttr.Str? ==> r.Err? && r.error.TypeError?
    ensures cls.typeAttr.Str? && cls.typeAttr.s in Keys(reg) ==> r.Err? && r.error.DuplicateTypeError?
    ensures r.Ok? <==> cls.typeAttr.Str? && cls.typeAttr.s !in Keys(reg)
    ensures r.Ok? ==> Lookup(r.value, cls.typeAttr.s) == Some(cls)
                      && Keys(r.value) == Keys(reg) + [cls.typeAttr.s]
                      && forall t :: t != cls.typeAttr.s ==> Lookup(r.value, t) == Lookup(reg, t)
  {
    match cls.typeAttr
    case Null => Err(NoTypeFoundError(cls.name))
    case Str(t) => if t in Keys(reg) then Err(DuplicateTypeError(t)) else Ok(Set(reg, t, cls))
    case _ => Err(TypeError(cls.name))
  }

  /** Class definitions in order; the first rejected one stops the import. */
  function RegisterAll(reg: Registry, classes: seq<ClassDecl>): (r: Result<Registry>)
    ensures r.Ok? ==> forall i :: 0 <= i < |classes| ==> classes[i].typeAttr.Str? && classes[i].typeAttr.s in Keys(r.value)
    ensures r.Ok? ==> forall t :: t in Keys(reg) ==> t in Keys(r.value)
    ensures r.Ok? ==> |r.value| == |reg| + |classes|
    decreases |classes|
  {
    if |classes| == 0 then Ok(reg)
    else
      var reg' :- Register(reg, classes[0]);
      var r :- RegisterAll(reg', classes[1..]);
      assert forall i :: 1 <= i < |classes| ==> classes[1..][i - 1] == classes[i];
      Ok(r)
  }

  /** Registration keeps type names distinct, so a successful sequence of
      registrations maps every class's type to that class. */
  lemma {:induction false} RegisterAllMaps(reg: Registry, classes: seq<ClassDecl>)
    requires RegisterAll(reg, classes).Ok?
    ensures forall i :: 0 <= i < |classes| ==> Lookup(RegisterAll(reg, classes).value, classes[i].typeAttr.s) == Some(classes[i])
    decreases |classes|
  {
    if |classes| > 0 {
      var reg' := Register(reg, classes[0]).value;
      assert RegisterAll(reg, classes) == RegisterAll(reg', classes[1..]);
      RegisterStep(reg, classes, classes[0].typeAttr.s);
      RegisterAllMaps(reg', classes[1..]);
      RegisterAllKeeps(reg', classes[1..], classes[0].typeAttr.s);
      forall i | 1 <= i < |classes|
        ensures Lookup(RegisterAll(reg, classes).value, classes[i].typeAttr.s) == Some(classes[i])
      {
        assert classes[1..][i - 1] == classes[i];
      }
    }
  }

  /** A type registered before is left alone by later successful registrations. */
  lemma {:induction false} RegisterAllKeeps(reg: Registry, classes: seq<ClassDecl>, t: string)
    requires RegisterAll(reg, classes).Ok?
    requires t in Keys(reg)
    ensures Lookup(RegisterAll(reg, classes).value, t) == Lookup(reg, t)
    decreases |classes|
  {
    if |classes| > 0 {
      var reg' := Register(reg, classes[0]).value;
      assert RegisterAll(reg, classes) == RegisterAll(reg', classes[1..]);
      RegisterStep(reg, classes, t);
      RegisterAllKeeps(reg', classes[1..], t);
    }
  }

  lemma RegisterStep(reg: Registry, classes: seq<ClassDecl>, t: string)
    requires |classes| > 0
    requires RegisterAll(reg, classes).Ok?
    ensures Register(reg, classes[0]).Ok?
    ensures t in Keys(reg) ==> Lookup(Register(reg, classes[0]).value, t) == Lookup(reg, t)
    ensures t in Keys(reg) || t == classes[0].typeAttr.s ==> t in Keys(Register(reg, classes[0]).value)
    ensures Lookup(Register(reg, classes[0]).value, classes[0].typeAttr.s) == Some(classes[0])
  {
  }

  /** `HardwareObject.__new__`. */
  function NewObject(reg: Registry, desc: Desc): (r: Result<Built>)
    ensures PopType(desc).0.Null? ==> r.Err? && r.error.AttributeError?
    ensures !Hashable(PopType(desc).0) ==> r.Err? && r.error.TypeError?
    ensures PopType(desc).0.Str? && PopType(desc).0.s !in Keys(reg) ==> r.Err? && r.error.NoConstructorError?
    ensures PopType(desc).0.Str? && Lookup(reg, PopType(desc).0.s).Some? ==>
              var c := Lookup(reg, PopType(desc).0.s).value;
              (!c.requiredKeys.Null? && !c.requiredKeys.Tuple? ==> r.Err? && r.error.TypeError?) &&
              (c.requiredKeys.Tuple? ==> (r.Ok? <==> CheckEach(PopType(desc).1, c.requiredKeys.items).Ok?)) &&
              (r.Ok? ==> r.value == Construct(c, PopType(desc).1))
  {
    var (typ, rest) := PopType(desc);
    if !Hashable(typ) then Err(TypeError("unhashable type"))
    else
      var c := if typ.Str? then Lookup(reg, typ.s) else None;
      if typ.Null? then Err(AttributeError("missing 'type' key in description"))
      else if c.None? then Err(NoConstructorError(PyStr(typ)))
      else
        var required := c.value.requiredKeys;
        if required.Null? then Ok(Construct(c.value, rest))
        else if !required.Tuple? then Err(TypeError("__required_keys__ must be of tuple type"))
        else
          var _ :- CheckEach(rest, required.items);
          Ok(Construct(c.value, rest))
  }

  /** The first required key, in tuple order, missing from the descriptor is
      the one reported. */
  lemma NewObjectReportsFirstMissing(reg: Registry, desc: Desc, t: string, names: seq<string>, i: nat)
    requires Lookup(desc, "type") == Some(Str(t))
    requires Lookup(reg, t).Some? && Lookup(reg, t).value.requiredKeys == Tuple(StrValues(names))
    requires i < |names| && names[i] !in Keys(Remove(desc, "type"))
    requires forall j :: 0 <= j < i ==> names[j] in Keys(Remove(desc, "type"))
    ensures NewObject(reg, desc) == Err(MissingRequiredKeysError(names[i]))
  {
    var rest := Remove(desc, "type");
    assert PopType(desc) == (Str(t), rest);
    FirstMissing(rest, StrValues(names), names, i);
  }

  lemma {:induction false} FirstMissing(desc: Desc, vs: seq<Value>, names: seq<string>, i: nat)
    requires vs == StrValues(names)
    requires i < |names| && names[i] !in Keys(desc)
    requires forall j :: 0 <= j < i ==> names[j] in Keys(desc)
    ensures CheckEach(desc, vs) == Err(MissingRequiredKeysError(names[i]))
  {
    assert vs[0] == Str(names[0]);
    if i > 0 {
      assert StrValues(names[1..]) == vs[1..];
      FirstMissing(desc, vs[1..], names[1..], i - 1);
    }
  }

  /** The constructor classes this file defines, in definition order, with the
      types and required keys they declare. Every `__init__` takes `(self, desc)`. */
  const Classes: seq<ClassDecl> := [
    ClassDecl("CANTalonSRX", Str("CANTalonSRX"), Tuple([Str("channel")]), 2),
    ClassDecl("CANTalonFX", Str("CANTalonFX"), Tuple([Str("channel")]), 2),
    ClassDecl("CANSparkMax", Str("CANSparkMax"), Tuple([Str("channel"), Str("motorType")]), 2),
    ClassDecl("Compressor", Str("compressor"), Tuple([]), 2),
    ClassDecl("Solenoid", Str("solenoid"), Tuple([Str("channel")]), 2),
    ClassDecl("DoubleSolenoid", Str("doubleSolenoid"), Tuple([Str("channel")]), 2),
    ClassDecl("NavX", Str("navx"), Tuple([Str("method")]), 2),
    ClassDecl("Breaksensors", Str("RIODigitalIn"), Tuple([Str("channel")]), 2),
    ClassDecl("XboxController", Str("XboxController"), Tuple([Str("channel")]), 2)
  ]

  /** Registration succeeds exactly when every type is a str that neither an
      earlier class nor the starting registry already holds. */
  lemma {:induction false} RegisterAllOk(reg: Registry, classes: seq<ClassDecl>)
    requires forall i :: 0 <= i < |classes| ==> classes[i].typeAttr.Str? && classes[i].typeAttr.s !in Keys(reg)
    requires forall i, j :: 0 <= i < j < |classes| ==> classes[i].typeAttr != classes[j].typeAttr
    ensures RegisterAll(reg, classes).Ok?
    decreases |classes|
  {
    if |classes| > 0 {
      var reg' := Register(reg, classes[0]).value;
      forall i | 0 <= i < |classes[1..]|
        ensures classes[1..][i].typeAttr.Str? && classes[1..][i].typeAttr.s !in Keys(reg')
      {
        assert classes[1..][i] == classes[i + 1];
      }
      RegisterAllOk(reg', classes[1..]);
    }
  }

  /** Importing the module registers all nine classes without a clash, each
      under its own type. */
  lemma ClassesRegister()
    ensures RegisterAll([], Classes).Ok?
    ensures |RegisterAll([], Classes).value| == 9
    ensures forall i :: 0 <= i < |Classes| ==>
              Lookup(RegisterAll([], Classes).value, Classes[i].typeAttr.s) == Some(Classes[i])
  {
    assert forall i, j :: 0 <= i < j < |Classes| ==> Classes[i].typeAttr != Classes[j].typeAttr;
    RegisterAllOk([], Classes);
    RegisterAllMaps([], Classes);
  }

  /** The required keys by type: "channel" alone for the two Talons, the two
      solenoids, the digital input and the Xbox controller; "channel" and
      "motorType" for the SparkMax; "method" for the NavX; none for the
      compressor. */
  lemma RequiredKeysByType()
    ensures forall i :: 0 <= i < |Classes| ==>
              (Classes[i].requiredKeys == Tuple([Str("channel")]) <==>
                 Classes[i].typeAttr.s in ["CANTalonSRX", "CANTalonFX", "solenoid", "doubleSolenoid", "RIODigitalIn", "XboxController"])
    ensures forall i :: 0 <= i < |Classes| && Classes[i].typeAttr.s == "CANSparkMax" ==>
              Classes[i].requiredKeys == Tuple([Str("channel"), Str("motorType")])
    ensures forall i :: 0 <= i < |Classes| && Classes[i].typeAttr.s == "navx" ==>
              Classes[i].requiredKeys == Tuple([Str("method")])
    ensures forall i :: 0 <= i < |Classes| && Classes[i].typeAttr.s == "compressor" ==>
              Classes[i].requiredKeys == Tuple([])
  {
  }
}
