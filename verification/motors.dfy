/** The `_MOTORS` registry and `create_motor` of utils/motors.py. */
module Motors {
  import opened Wrappers
  import opened Dicts
  import opened Values

  /** `_MOTORS`: `__type__` value to motor class name. Only a hashable value
      can be a key, and `Register` never stores any other. */
  type MotorRegistry = Dict<Value, string>

  /** `_MotorBase.__init_subclass__`: a class without `__type__` is an
      AttributeError, and one whose `__type__` is unhashable a TypeError from
      building `{typ: cls}`; otherwise its type is mapped to it, replacing
      silently whatever class had the same type before. */
  function Register(reg: MotorRegistry, className: string, typeAttr: Value): (r: Result<MotorRegistry>)
    ensures r.Ok? <==> !typeAttr.Null? && Hashable(typeAttr)
    ensures typeAttr.Null? ==> r == Err(AttributeError(className))
    ensures !typeAttr.Null? && !Hashable(typeAttr) ==> r.Err? && r.error.TypeError?
    ensures r.Ok? ==> Lookup(r.value, typeAttr) == Some(className)
    ensures r.Ok? ==> forall t :: t != typeAttr ==> Lookup(r.value, t) == Lookup(reg, t)
    ensures r.Ok? && typeAttr in Keys(reg) ==> Keys(r.value) == Keys(reg)
    ensures r.Ok? && typeAttr !in Keys(reg) ==> Keys(r.value) == Keys(reg) + [typeAttr]
  {
    if typeAttr.Null? then Err(AttributeError(className))
    else if !Hashable(typeAttr) then Err(TypeError("unhashable type"))
    else Ok(Set(reg, typeAttr, className))
  }

  /** Last writer wins: registering a second class under a type leaves exactly
      what registering the second class alone would. */
  lemma RegisterLastWins(reg: MotorRegistry, first: string, second: string, t: Value)
    requires !t.Null? && Hashable(t)
    ensures Register(Register(reg, first, t).value, second, t).Ok?
    ensures Lookup(Register(Register(reg, first, t).value, second, t).value, t) == Some(second)
    ensures forall u :: Lookup(Register(Register(reg, first, t).value, second, t).value, u)
                        == Lookup(Register(reg, second, t).value, u)
  {
  }

  /** Importing the module defines TalonSRX, TalonFX and SparkMax in that
      order, each registering its own `__type__`; the first class whose type
      is missing or unhashable stops the import with its error. */
  function Import(reg: MotorRegistry, srx: Value, fx: Value, spark: Value): (r: Result<MotorRegistry>)
    ensures r.Ok? <==> !srx.Null? && !fx.Null? && !spark.Null? && Hashable(srx) && Hashable(fx) && Hashable(spark)
    ensures !srx.Null? && !Hashable(srx) ==> r.Err? && r.error.TypeError?
    ensures !srx.Null? && Hashable(srx) && !fx.Null? && !Hashable(fx) ==> r.Err? && r.error.TypeError?
  {
    var r1 :- Register(reg, "TalonSRX", srx);
    var r2 :- Register(r1, "TalonFX", fx);
    Register(r2, "SparkMax", spark)
  }

  /** With three distinct types, the import into an empty registry leaves
      exactly three entries, in definition order, each type mapped to its own
      class. */
  lemma ImportRegisters(srx: Value, fx: Value, spark: Value)
    requires !srx.Null? && !fx.Null? && !spark.Null?
    requires Hashable(srx) && Hashable(fx) && Hashable(spark)
    requires srx != fx && srx != spark && fx != spark
    ensures Import([], srx, fx, spark).Ok?
    ensures |Import([], srx, fx, spark).value| == 3
    ensures Lookup(Import([], srx, fx, spark).value, srx) == Some("TalonSRX")
    ensures Lookup(Import([], srx, fx, spark).value, fx) == Some("TalonFX")
    ensures Lookup(Import([], srx, fx, spark).value, spark) == Some("SparkMax")
  {
    var r1 := Register([], "TalonSRX", srx).value;
    assert Keys(r1) == [srx];
    var r2 := Register(r1, "TalonFX", fx).value;
    assert Keys(r2) == [srx, fx];
    assert spark !in Keys(r2);
    var r3 := Register(r2, "SparkMax", spark).value;
    assert Import([], srx, fx, spark) == Ok(r3);
    assert |Keys(r3)| == 3;
    assert Lookup(r3, fx) == Lookup(r2, fx) == Some("TalonFX");
    assert Lookup(r3, srx) == Lookup(r2, srx) == Lookup(r1, srx) == Some("TalonSRX");
  }

  /** Two classes declaring the same `__type__`: the import still succeeds and
      the later class is the one found. */
  lemma ImportClashLaterWins(t: Value, spark: Value)
    requires !t.Null? && !spark.Null? && Hashable(t) && Hashable(spark) && t != spark
    ensures Import([], t, t, spark).Ok?
    ensures Lookup(Import([], t, t, spark).value, t) == Some("TalonFX")
    ensures |Import([], t, t, spark).value| == 2
  {
    var r1 := Register([], "TalonSRX", t).value;
    assert Keys(r1) == [t];
    var r2 := Register(r1, "TalonFX", t).value;
    assert Keys(r2) == [t];
  }

  /** The vendor set-up calls `create_motor` makes after construction. */
  datatype Call = SetupPid(pid: Value) | SetCurrentLimits(limits: Value)

  /** A motor: its class, the descriptor it was constructed with, and the
      set-up calls made on it in order. */
  datatype Motor = Motor(cls: string, desc: Desc, calls: seq<Call>)

  /** `create_motor(desc)`: the class is found by `desc["type"]`, which is NOT
      removed from the descriptor; PID set-up comes before current limits. */
  function CreateMotor(reg: MotorRegistry, desc: Desc): (r: Result<Motor>)
    ensures "type" !in Keys(desc) ==> r == Err(KeyError("type"))
    ensures "type" in Keys(desc) && Hashable(Lookup(desc, "type").value) && Lookup(reg, Lookup(desc, "type").value).None? ==>
              r.Err? && r.error.AttributeError?
    ensures r.Ok? <==> "type" in Keys(desc) && Hashable(Lookup(desc, "type").value) && Lookup(reg, Lookup(desc, "type").value).Some?
    ensures r.Ok? ==> r.value.desc == desc && Some(r.value.cls) == Lookup(reg, Lookup(desc, "type").value)
    ensures r.Ok? ==> (SetupPid(Lookup(desc, "pid").GetOr(Null)) in r.value.calls <==> "pid" in Keys(desc))
    ensures r.Ok? ==> (SetCurrentLimits(Lookup(desc, "currentLimits").GetOr(Null)) in r.value.calls <==> "currentLimits" in Keys(desc))
    ensures r.Ok? && "pid" in Keys(desc) ==> r.value.calls[0].SetupPid?
    ensures r.Ok? ==> |r.value.calls| <= 2
  {
    var typ :- Get(desc, "type", "type");
    if !Hashable(typ) then Err(TypeError("unhashable type"))
    else match Lookup(reg, typ)
      case None => Err(AttributeError(PyStr(typ)))
      case Some(cls) =>
        var pid := if "pid" in Keys(desc) then [SetupPid(Lookup(desc, "pid").value)] else [];
        var limits := if "currentLimits" in Keys(desc) then [SetCurrentLimits(Lookup(desc, "currentLimits").value)] else [];
        Ok(Motor(cls, desc, pid + limits))
  }
}
