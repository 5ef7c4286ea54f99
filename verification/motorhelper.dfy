/** The `_Mapping` container, the `HardwareComponents` registrations and
    `HardwareMeta._new_hardware_object` of factories/motorHelper.py. */
module MotorHelper {
  import opened Wrappers
  import opened Dicts
  import opened Values
  import opened Hardware
  import Strings

  /** A `_Mapping`'s `__dict__`: name to constructor class name. */
  type Mapping = Dict<string, string>

  /** `add(name, item)`: `__dict__[name] = item`, overwriting silently. */
  function Add(m: Mapping, name: string, item: string): (r: Mapping)
    ensures Lookup(r, name) == Some(item)
    ensures forall n :: n != name ==> Lookup(r, n) == Lookup(m, n)
  {
    Set(m, name, item)
  }

  /** `get(name)`: `__dict__[name]`, a KeyError for an unknown name. */
  function Get(m: Mapping, name: string): (r: Result<string>)
    ensures r.Ok? <==> name in Keys(m)
    ensures r.Ok? ==> Lookup(m, name) == Some(r.value)
    ensures r.Err? ==> r.error == KeyError(name)
  {
    Dicts.Get(m, name, name)
  }

  /** What attribute access on a `_Mapping` instance can find: an item stored
      in its `__dict__`, or an attribute of the class or of `object`. */
  datatype Attr = Item(ctor: string) | ClassAttr(name: string)

  /** Data descriptors on the class and on `object`: `m.__dict__` is the
      instance dictionary itself, and none of these can be shadowed by an item. */
  const DataDescriptors: set<string> := {"__dict__", "__weakref__", "__class__"}

  /** Other attributes of `_HardwareComponents`, `_Mapping` and `object`
      (methods, `__doc__`, `__module__`): found on the class when the instance
      `__dict__` has no such item. "__bases__" is an attribute of classes, not
      of instances, and is not among them. */
  const ClassAttributes: set<string> := {
    "add", "get", "__getattr__", "__setattr__", "__doc__", "__module__",
    "__init__", "__new__", "__repr__", "__str__", "__hash__", "__eq__", "__ne__",
    "__lt__", "__le__", "__gt__", "__ge__", "__getattribute__", "__delattr__",
    "__format__", "__reduce__", "__reduce_ex__", "__sizeof__", "__dir__",
    "__init_subclass__", "__subclasshook__"
  }

  /** Attribute access `m.name` by Python's lookup order: a data descriptor of
      the class first, then the instance `__dict__`, then the other class
      attributes; only when all miss does `__getattr__` run, which indexes
      `__dict__` again and so raises KeyError rather than AttributeError. */
  function GetAttr(m: Mapping, name: string): (r: Result<Attr>)
    ensures name in DataDescriptors ==> r == Ok(ClassAttr(name))
    ensures r.Ok? <==> name in DataDescriptors || name in Keys(m) || name in ClassAttributes
    ensures r.Ok? && r.value.Item? <==> name !in DataDescriptors && name in Keys(m)
    ensures r.Ok? && r.value.Item? ==> Get(m, name) == Ok(r.value.ctor)
    ensures r.Err? ==> r.error == KeyError(name) && Get(m, name).Err?
  {
    if name in DataDescriptors then Ok(ClassAttr(name))
    else match Lookup(m, name)
      case Some(item) => Ok(Item(item))
      case None =>
        if name in ClassAttributes then Ok(ClassAttr(name))
        else Err(KeyError(name))
  }

  /** For a name that is not an attribute of the class, attribute access and
      `get` agree, item for item and KeyError for KeyError. */
  lemma GetAttrAgreesWithGet(m: Mapping, name: string)
    requires name !in DataDescriptors && name !in ClassAttributes
    ensures Get(m, name).Ok? ==> GetAttr(m, name) == Ok(Item(Get(m, name).value))
    ensures Get(m, name).Err? ==> GetAttr(m, name) == Err(Get(m, name).error)
  {
  }

  /** After `add(name, item)`, `get(name)` gives `item`, and so does attribute
      access unless the name is a data descriptor; the last `add` of a name wins. */
  lemma AddThenGet(m: Mapping, name: string, first: string, item: string)
    ensures Get(Add(m, name, item), name) == Ok(item)
    ensures name !in DataDescriptors ==> GetAttr(Add(m, name, item), name) == Ok(Item(item))
    ensures name in DataDescriptors ==> GetAttr(Add(m, name, item), name) == Ok(ClassAttr(name))
    ensures Get(Add(Add(m, name, first), name, item), name) == Ok(item)
  {
  }

  /** `get` of a name never added is a KeyError; attribute access is one too
      unless the name is an attribute of the class. */
  lemma GetUnknown(m: Mapping, name: string)
    requires name !in Keys(m)
    ensures Get(m, name) == Err(KeyError(name))
    ensures (name !in DataDescriptors && name !in ClassAttributes) <==> GetAttr(m, name) == Err(KeyError(name))
  {
  }

  /** The registrations made at import, in order. */
  const Registrations: seq<(string, string)> := [
    ("CANTalonSRX", "WPI_TalonSRXMotor"),
    ("CANTalonFX", "WPI_TalonFXMotor"),
    ("SparkMax", "REV_SparkMaxMotor"),
    ("compressor", "WPI_Compressor"),
    ("solenoid", "WPI_Solenoid"),
    ("doubleSolenoid", "WPI_DoubleSolenoid"),
    ("navx", "NAVX_navX"),
    ("breaksensor", "WPI_DigitalInput"),
    ("XboxController", "WPI_XboxController")
  ]

  /** Each registration as an `add` on the mapping so far. */
  function AddAll(m: Mapping, items: seq<(string, string)>): (r: Mapping)
    ensures DistinctKeys(items) ==> forall i :: 0 <= i < |items| ==> Lookup(r, items[i].0) == Some(items[i].1)
    ensures forall n :: n !in Keys(items) ==> Lookup(r, n) == Lookup(m, n)
  {
    Update(m, items)
  }

  /** Adding distinct names to an empty mapping makes exactly those names
      resolvable, each to its own item. */
  lemma AddAllFromEmpty(items: seq<(string, string)>)
    requires DistinctKeys(items)
    ensures forall i :: 0 <= i < |items| ==> Get(AddAll([], items), items[i].0) == Ok(items[i].1)
    ensures forall n :: n in Keys(AddAll([], items)) ==> n in Keys(items)
  {
  }

  /** The registered names are distinct, and "__bases__" is not one of them. */
  lemma RegistrationNames()
    ensures DistinctKeys(Registrations)
    ensures "__bases__" !in Keys(Registrations)
  {
    assert forall i :: 0 <= i < |Registrations| ==> Registrations[i].0 != "__bases__";
  }

  /** `HardwareComponents` after import: the registrations resolve to their
      constructors, and nothing else is present, in particular no "__bases__". */
  lemma HardwareComponentsRegistered(regs: seq<(string, string)>)
    requires regs == Registrations
    ensures forall i :: 0 <= i < |regs| ==> Get(AddAll([], regs), regs[i].0) == Ok(regs[i].1)
    ensures "__bases__" !in Keys(AddAll([], regs))
  {
    RegistrationNames();
    AddAllFromEmpty(regs);
  }

  /** `desc.pop("type")` with no default: a KeyError when absent. */
  function PopRequiredType(desc: Desc): (r: Result<(Value, Desc)>)
    ensures r.Ok? <==> "type" in Keys(desc)
    ensures r.Ok? ==> r.value == PopType(desc)
    ensures r.Err? ==> r.error == KeyError("type")
  {
    if "type" in Keys(desc) then Ok(PopType(desc)) else Err(KeyError("type"))
  }

  /** `mapping.get(obj_type)`: the `__dict__` is keyed by str, so an
      unhashable type is a TypeError and any other non-str one a KeyError. */
  function Resolve(m: Mapping, t: Value): (r: Result<string>)
    ensures r.Ok? <==> t.Str? && t.s in Keys(m)
    ensures r.Ok? ==> Lookup(m, t.s) == Some(r.value)
    ensures !Hashable(t) ==> r.Err? && r.error.TypeError?
    ensures Hashable(t) && r.Err? ==> r.error.KeyError?
  {
    if !Hashable(t) then Err(TypeError("unhashable type"))
    else if t.Str? then Get(m, t.s)
    else Err(KeyError(PyStr(t)))
  }

  /** `_new_hardware_object(desc, mapping)` as written: the guard reads
      `mapping.__bases__`, which a `_Mapping` instance only has if "__bases__"
      was added to it; otherwise `__getattr__` raises KeyError. */
  function NewHardwareObject(m: Mapping, desc: Desc): (r: Result<Built>)
    ensures "__bases__" !in Keys(m) ==> r == Err(KeyError("__bases__"))
    ensures r.Ok? ==> Strings.IsInfix("_Mapper", Lookup(m, "__bases__").value)
    ensures r.Ok? ==> NewHardwareObjectFixed(m, desc) == r
  {
    var bases :- GetAttr(m, "__bases__");
    match bases
    case ClassAttr(_) => Err(TypeError("argument is not iterable"))
    case Item(b) =>
      if !Strings.IsInfix("_Mapper", b) then Err(ValueError("invalid mapping: expected _Mapping"))
      else NewHardwareObjectFixed(m, desc)
  }

  /** The builder as evidently intended, without the guard: pop the type
      (KeyError when absent), resolve it, and call the constructor with no
      arguments for an emptied descriptor, with the descriptor otherwise. */
  function NewHardwareObjectFixed(m: Mapping, desc: Desc): (r: Result<Built>)
    ensures "type" !in Keys(desc) ==> r == Err(KeyError("type"))
    ensures r.Ok? <==> (Lookup(desc, "type").Some? && Lookup(desc, "type").value.Str? &&
                         Lookup(desc, "type").value.s in Keys(m))
    ensures r.Ok? ==> Some(r.value.ctor) == Lookup(m, Lookup(desc, "type").value.s)
    ensures r.Ok? ==> (r.value.args.None? <==> |Remove(desc, "type")| == 0)
    ensures r.Ok? && r.value.args.Some? ==> r.value.args.value == Remove(desc, "type")
  {
    var (t, rest) :- PopRequiredType(desc);
    var ctor :- Resolve(m, t);
    Ok(Instantiate(ctor, rest))
  }

  /** The guard can never pass for `HardwareComponents`, so every item of the
      `Hardware` class's walk fails with KeyError. */
  lemma HardwareComponentsGuardFails(regs: seq<(string, string)>, desc: Desc)
    requires regs == Registrations
    ensures NewHardwareObject(AddAll([], regs), desc) == Err(KeyError("__bases__"))
  {
    HardwareComponentsRegistered(regs);
  }

  /** Without the guard, a registered type builds the registered constructor. */
  lemma FixedBuildsRegistered(regs: seq<(string, string)>, desc: Desc, i: nat)
    requires regs == Registrations
    requires i < |regs|
    requires Lookup(desc, "type") == Some(Str(regs[i].0))
    ensures NewHardwareObjectFixed(AddAll([], regs), desc).Ok?
    ensures NewHardwareObjectFixed(AddAll([], regs), desc).value.ctor == regs[i].1
  {
    HardwareComponentsRegistered(regs);
  }
}
