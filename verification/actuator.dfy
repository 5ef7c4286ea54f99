/** `GenerateObjects` of factories/actuator.py: the subsystem/group walk over a
    loaded robot configuration, the motor factory with its shared channel
    registry, and the fail-soft factories for sensors, gyros, solenoids and
    compressors. Vendor objects are tagged records. */
module Actuator {
  import opened Wrappers
  import opened Dicts
  import opened Values
  import opened Hardware

  /** `VALID_MOTOR_TYPES`. */
  const ValidMotorTypes: seq<string> :=
    ["CANTalonSRX", "CANTalonSRXFollower", "CANTalonFX", "CANTalonFXFollower", "SparkMax", "SparkMaxFollower"]

  /** The motor types, one per branch of `__generate_motor`. */
  datatype MotorKind = CANTalonSRX | CANTalonSRXFollower | CANTalonFX | CANTalonFXFollower | SparkMax | SparkMaxFollower
  {
    /** The type name a descriptor gives. */
    function Name(): string {
      match this
      case CANTalonSRX => "CANTalonSRX"
      case CANTalonSRXFollower => "CANTalonSRXFollower"
      case CANTalonFX => "CANTalonFX"
      case CANTalonFXFollower => "CANTalonFXFollower"
      case SparkMax => "SparkMax"
      case SparkMaxFollower => "SparkMaxFollower"
    }

    /** Whether the branch stores the new motor in the shared `motors`
        registry: CANTalonFX and SparkMaxFollower do not. */
    predicate Registers() {
      !(CANTalonFX? || SparkMaxFollower?)
    }

    /** The types that lead rather than follow. */
    predicate Leads() {
      CANTalonSRX? || CANTalonFX? || SparkMax?
    }

    /** The current-limit keys of the type's vendor family. */
    function LimitKeys(): seq<string> {
      if CANTalonSRX? || CANTalonSRXFollower? then SrxLimitKeys
      else if CANTalonFX? || CANTalonFXFollower? then FxLimitKeys
      else RevLimitKeys
    }
  }

  /** The branch a type name selects, if any. */
  function KindOf(name: string): (r: Option<MotorKind>)
    ensures r.Some? <==> name in ValidMotorTypes
    ensures r.Some? ==> r.value.Name() == name
  {
    if name == "CANTalonSRX" then Some(CANTalonSRX)
    else if name == "CANTalonSRXFollower" then Some(CANTalonSRXFollower)
    else if name == "CANTalonFX" then Some(CANTalonFX)
    else if name == "CANTalonFXFollower" then Some(CANTalonFXFollower)
    else if name == "SparkMax" then Some(SparkMax)
    else if name == "SparkMaxFollower" then Some(SparkMaxFollower)
    else None
  }

  /** How a motor follows another: not at all, by the raw master channel the
      Talon followers pass to `set`, or by the object the SparkMax follower
      found in the registry (`None` when it found nothing). */
  datatype Follow = Leader | ByChannel(masterChannel: Value) | ByObject(master: Option<Device>)

  /** What the factories build. */
  datatype Device =
    | MotorDevice(kind: MotorKind, channel: Value, pid: bool, follow: Follow)
    | DigitalInput(channel: Value)
    | Gyro(bus: string)
    | SingleSolenoid(pcm: Value, channel: Value)
    | DoubleSolenoid(pcm: Value, forward: Value, reverse: Value, initial: Option<int>)
    | Compressor

  /** The default-argument dict `motors={}`: one dict shared by every call of
      the motor factory, keyed by `str(channel)`. */
  type MotorTable = Dict<string, Device>

  /** `'pid' in desc and desc['pid'] is not None`. */
  predicate HasPid(desc: Desc) {
    Lookup(desc, "pid").Some? && !Lookup(desc, "pid").value.Null?
  }

  /** `getattr(rev.MotorType, desc['motorType'])`: a KeyError when absent, a
      TypeError for a non-str name and an AttributeError for a name that is
      not a member. */
  function MotorTypeMember(desc: Desc): (r: Result<string>)
    ensures r.Ok? <==> Lookup(desc, "motorType").Some? && Lookup(desc, "motorType").value.Str? &&
                       Lookup(desc, "motorType").value.s in ["kBrushed", "kBrushless"]
    ensures r.Ok? ==> Lookup(desc, "motorType") == Some(Str(r.value))
  {
    var name :- Get(desc, "motorType", "motorType");
    if !name.Str? then Err(TypeError("attribute name must be string"))
    else if name.s in ["kBrushed", "kBrushless"] then Ok(name.s)
    else Err(AttributeError(name.s))
  }

  /** The keys the Talon PID set-up reads from `desc['pid']`, in order. */
  const TalonPidKeys: seq<string> := ["controlType", "feedbackDevice", "sensorPhase", "kPreScale", "kF", "kP", "kI", "kD"]

  /** The keys the SparkMax PID set-up reads from `desc['pid']`, in order. */
  const SparkPidKeys: seq<string> := ["controlType", "kPreScale", "kP", "feedbackDevice", "kI", "kD", "kF"]

  /** The keys each current-limit setter reads from `desc['currentLimits']`. */
  const SrxLimitKeys: seq<string> := ["absMax", "absMaxTimeMs", "maxNominal"]
  const FxLimitKeys: seq<string> := ["currentLimit", "triggerThresholdCurrent", "triggerThresholdTime"]
  const RevLimitKeys: seq<string> := ["freeLimit", "stallLimit", "stallLimitRPM", "secondaryLimit"]

  /** A current-limit setter: nothing without "currentLimits", otherwise
      each of its keys is read. */
  function Limits(desc: Desc, keys: seq<string>): (r: Result<()>)
    ensures r.Ok? <==> "currentLimits" !in Keys(desc) || ReadKeys(Lookup(desc, "currentLimits").value, keys).Ok?
  {
    if "currentLimits" in Keys(desc) then ReadKeys(Lookup(desc, "currentLimits").value, keys) else Ok(())
  }

  /** The PID set-up of a descriptor whose "pid" is set: each key read. */
  function PidReads(desc: Desc, keys: seq<string>): (r: Result<()>)
    requires HasPid(desc)
    ensures r.Ok? <==> ReadKeys(Lookup(desc, "pid").value, keys).Ok?
  {
    ReadKeys(Lookup(desc, "pid").value, keys)
  }

  /** Whether the Feedback classes' never-assigned attributes are read as
      the descriptor and the PID dict they evidently stand for (`fixed`), or
      raise AttributeError as written. */
  type Fixed = bool

  /** The descriptors whose branch reads the never-assigned
      `self.motorDescription` before it could fail otherwise. */
  predicate RaisesAsWritten(desc: Desc, kind: MotorKind) {
    kind.SparkMaxFollower? || ((kind.CANTalonFX? || kind.SparkMax?) && HasPid(desc))
  }

  /** The CANTalonSRX branch: `WPI_TalonSRXFeedback` with "pid" set, a plain
      Talon otherwise, then the SRX current limits. */
  function SrxMotor(desc: Desc): (r: Result<Device>)
    ensures r.Ok? <==> "channel" in Keys(desc) && (HasPid(desc) ==> PidReads(desc, TalonPidKeys).Ok?) && Limits(desc, SrxLimitKeys).Ok?
    ensures r.Ok? ==> r.value == MotorDevice(CANTalonSRX, Lookup(desc, "channel").value, HasPid(desc), Leader)
  {
    var channel :- Get(desc, "channel", "channel");
    var _ :- if HasPid(desc) then PidReads(desc, TalonPidKeys) else Ok(());
    var _ :- Limits(desc, SrxLimitKeys);
    Ok(MotorDevice(CANTalonSRX, channel, HasPid(desc), Leader))
  }

  /** The two Talon follower branches: a plain Talon set to follow the raw
      master channel, then the current limits of its family. */
  function TalonFollower(desc: Desc, kind: MotorKind): (r: Result<Device>)
    ensures r.Ok? <==> "channel" in Keys(desc) && "masterChannel" in Keys(desc) && Limits(desc, kind.LimitKeys()).Ok?
    ensures r.Ok? ==> r.value == MotorDevice(kind, Lookup(desc, "channel").value, false, ByChannel(Lookup(desc, "masterChannel").value))
  {
    var channel :- Get(desc, "channel", "channel");
    var master :- Get(desc, "masterChannel", "masterChannel");
    var _ :- Limits(desc, kind.LimitKeys());
    Ok(MotorDevice(kind, channel, false, ByChannel(master)))
  }

  /** The CANTalonFX branch. With "pid" set, `WPI_TalonFXFeedback.__init__`
      reads the channel and then the never-assigned `self.motorDescription`. */
  function FxMotor(desc: Desc, fixed: Fixed): (r: Result<Device>)
    ensures r.Ok? <==> "channel" in Keys(desc) && (HasPid(desc) ==> fixed && PidReads(desc, TalonPidKeys).Ok?) && Limits(desc, FxLimitKeys).Ok?
    ensures !fixed && HasPid(desc) && "channel" in Keys(desc) ==> r == Err(AttributeError("motorDescription"))
    ensures r.Ok? ==> r.value == MotorDevice(CANTalonFX, Lookup(desc, "channel").value, HasPid(desc), Leader)
  {
    var channel :- Get(desc, "channel", "channel");
    var _ :- if !HasPid(desc) then Ok(())
             else if !fixed then Err(AttributeError("motorDescription"))
             else PidReads(desc, TalonPidKeys);
    var _ :- Limits(desc, FxLimitKeys);
    Ok(MotorDevice(CANTalonFX, channel, HasPid(desc), Leader))
  }

  /** The SparkMax branch: the motor type resolved first; with "pid" set,
      `SparkMaxFeedback.__init__` reads the never-assigned
      `self.motorDescription`. */
  function SparkMotor(desc: Desc, fixed: Fixed): (r: Result<Device>)
    ensures r.Ok? <==> MotorTypeMember(desc).Ok? && "channel" in Keys(desc) &&
                       (HasPid(desc) ==> fixed && "inverted" in Keys(desc) && PidReads(desc, SparkPidKeys).Ok?) &&
                       Limits(desc, RevLimitKeys).Ok?
    ensures !fixed && HasPid(desc) && MotorTypeMember(desc).Ok? ==> r == Err(AttributeError("motorDescription"))
    ensures r.Ok? ==> r.value == MotorDevice(SparkMax, Lookup(desc, "channel").value, HasPid(desc), Leader)
  {
    var _ :- MotorTypeMember(desc);
    var _ :- if HasPid(desc) && !fixed then Err(AttributeError("motorDescription")) else Ok(());
    var channel :- Get(desc, "channel", "channel");
    var _ :- if HasPid(desc) then Get(desc, "inverted", "inverted") else Ok(Null);
    var _ :- if HasPid(desc) then PidReads(desc, SparkPidKeys) else Ok(());
    var _ :- Limits(desc, RevLimitKeys);
    Ok(MotorDevice(SparkMax, channel, HasPid(desc), Leader))
  }

  /** The SparkMaxFollower branch: `SparkMaxFeedback` always, following
      `motors.get(str(masterChannel))`. */
  function SparkFollower(motors: MotorTable, desc: Desc, fixed: Fixed): (r: Result<Device>)
    ensures r.Ok? <==> MotorTypeMember(desc).Ok? && fixed && "channel" in Keys(desc) && "inverted" in Keys(desc) &&
                       "masterChannel" in Keys(desc) && Limits(desc, RevLimitKeys).Ok?
    ensures !fixed && MotorTypeMember(desc).Ok? ==> r == Err(AttributeError("motorDescription"))
    ensures r.Ok? ==> r.value == MotorDevice(SparkMaxFollower, Lookup(desc, "channel").value, false,
                                             ByObject(Lookup(motors, PyStr(Lookup(desc, "masterChannel").value))))
  {
    var _ :- MotorTypeMember(desc);
    var _ :- if !fixed then Err(AttributeError("motorDescription")) else Ok(());
    var channel :- Get(desc, "channel", "channel");
    var _ :- Get(desc, "inverted", "inverted");
    var master :- Get(desc, "masterChannel", "masterChannel");
    var _ :- Limits(desc, RevLimitKeys);
    Ok(MotorDevice(SparkMaxFollower, channel, false, ByObject(Lookup(motors, PyStr(master)))))
  }

  /** Which descriptors build, as conditions on the descriptor: the fields
      each type needs, and none of the paths that raise as written. */
  ghost predicate Builds(desc: Desc, kind: MotorKind, fixed: Fixed) {
    match kind
    case CANTalonSRX =>
      "channel" in Keys(desc) && (HasPid(desc) ==> PidReads(desc, TalonPidKeys).Ok?) && Limits(desc, SrxLimitKeys).Ok?
    case CANTalonFX =>
      "channel" in Keys(desc) && (HasPid(desc) ==> fixed && PidReads(desc, TalonPidKeys).Ok?) && Limits(desc, FxLimitKeys).Ok?
    case SparkMax =>
      MotorTypeMember(desc).Ok? && "channel" in Keys(desc) &&
      (HasPid(desc) ==> fixed && "inverted" in Keys(desc) && PidReads(desc, SparkPidKeys).Ok?) &&
      Limits(desc, RevLimitKeys).Ok?
    case SparkMaxFollower =>
      MotorTypeMember(desc).Ok? && fixed && "channel" in Keys(desc) && "inverted" in Keys(desc) &&
      "masterChannel" in Keys(desc) && Limits(desc, RevLimitKeys).Ok?
    case _ =>
      "channel" in Keys(desc) && "masterChannel" in Keys(desc) && Limits(desc, kind.LimitKeys()).Ok?
  }

  /** What a motor built from `desc` as a `kind` is: of that kind, on the
      descriptor's channel, set up for PID exactly when a leader has "pid",
      following nothing when it leads, the raw master channel when it is a
      Talon follower, and what the registry holds under `str(masterChannel)`
      when it is a SparkMax follower. */
  ghost predicate Describes(motors: MotorTable, desc: Desc, kind: MotorKind, d: Device) {
    d.MotorDevice? && d.kind == kind && Lookup(desc, "channel") == Some(d.channel) &&
    (d.pid <==> kind.Leads() && HasPid(desc)) &&
    match kind
    case CANTalonSRXFollower | CANTalonFXFollower =>
      "masterChannel" in Keys(desc) && d.follow == ByChannel(Lookup(desc, "masterChannel").value)
    case SparkMaxFollower =>
      "masterChannel" in Keys(desc) && d.follow == ByObject(Lookup(motors, PyStr(Lookup(desc, "masterChannel").value)))
    case _ => d.follow == Leader
  }

  /** The motor a descriptor of a given type makes, reading the descriptor
      fields each branch reads, in order. `SparkMaxFeedback.__init__` reads
      `self.motorDescription`, and so does the PID branch of
      `WPI_TalonFXFeedback.__init__`; neither class ever assigns it, so as
      written a SparkMax follower, a SparkMax with "pid" and a CANTalonFX with
      "pid" raise AttributeError. `motors` is only consulted by the
      SparkMax follower. */
  function BuildMotor(motors: MotorTable, desc: Desc, kind: MotorKind, fixed: Fixed): (r: Result<Device>)
    ensures r.Ok? <==> Builds(desc, kind, fixed)
    ensures !fixed && RaisesAsWritten(desc, kind) ==> r.Err?
    ensures r.Ok? ==> Describes(motors, desc, kind, r.value)
  {
    match kind
    case CANTalonSRX => SrxMotor(desc)
    case CANTalonSRXFollower => TalonFollower(desc, kind)
    case CANTalonFX => FxMotor(desc, fixed)
    case CANTalonFXFollower => TalonFollower(desc, kind)
    case SparkMax => SparkMotor(desc, fixed)
    case SparkMaxFollower => SparkFollower(motors, desc, fixed)
  }

  /** Where the code as written builds a motor, the corrected code builds the
      same one: the fix only changes the paths that raised. */
  lemma FixedAgreesWhereWrittenBuilds(motors: MotorTable, desc: Desc, kind: MotorKind)
    requires BuildMotor(motors, desc, kind, false).Ok?
    ensures BuildMotor(motors, desc, kind, true) == BuildMotor(motors, desc, kind, false)
  {
  }

  /** As written, a SparkMax follower never builds: once the motor type
      resolves, the unset `self.motorDescription` raises AttributeError. */
  lemma SparkMaxFollowerNeverBuilds(motors: MotorTable, desc: Desc)
    requires MotorTypeMember(desc).Ok?
    ensures BuildMotor(motors, desc, SparkMaxFollower, false) == Err(AttributeError("motorDescription"))
  {
  }

  /** As written, a SparkMax or a CANTalonFX with PID settings never builds. */
  lemma PidMotorNeverBuilds(motors: MotorTable, desc: Desc, kind: MotorKind)
    requires (kind.SparkMax? || kind.CANTalonFX?) && HasPid(desc)
    requires kind.SparkMax? ==> MotorTypeMember(desc).Ok?
    requires kind.CANTalonFX? ==> "channel" in Keys(desc)
    ensures BuildMotor(motors, desc, kind, false) == Err(AttributeError("motorDescription"))
  {
  }

  /** The registry never decides whether a motor can be built, only which
      object a SparkMax follower follows. */
  lemma BuildMotorIgnoresRegistry(a: MotorTable, b: MotorTable, desc: Desc, kind: MotorKind, fixed: Fixed)
    ensures BuildMotor(a, desc, kind, fixed).Ok? <==> BuildMotor(b, desc, kind, fixed).Ok?
    ensures BuildMotor(a, desc, kind, fixed).Err? ==> BuildMotor(a, desc, kind, fixed) == BuildMotor(b, desc, kind, fixed)
    ensures !kind.SparkMaxFollower? ==> BuildMotor(a, desc, kind, fixed) == BuildMotor(b, desc, kind, fixed)
  {
  }

  /** The motor and the registry after one call of `__generate_motor`: a type
      outside `VALID_MOTOR_TYPES` is a ValueError; the registering types store
      the motor under `str(channel)`. */
  function MakeMotor(motors: MotorTable, descp: Value, fixed: Fixed): (r: Result<(Device, MotorTable)>)
    ensures r.Ok? ==> descp.Obj? && Lookup(descp.fields, "type").Some?
    ensures descp.Obj? && Lookup(descp.fields, "type").Some? &&
            !(Lookup(descp.fields, "type").value.Str? && Lookup(descp.fields, "type").value.s in ValidMotorTypes) ==>
              r.Err? && r.error.ValueError?
    ensures r.Ok? ==> r.value.0.MotorDevice? && Lookup(descp.fields, "type") == Some(Str(r.value.0.kind.Name()))
    ensures r.Ok? ==> BuildMotor(motors, descp.fields, r.value.0.kind, fixed) == Ok(r.value.0)
    ensures descp.Obj? && Lookup(descp.fields, "type").Some? && Lookup(descp.fields, "type").value.Str? &&
            KindOf(Lookup(descp.fields, "type").value.s).Some? ==>
              (r.Ok? <==> BuildMotor(motors, descp.fields, KindOf(Lookup(descp.fields, "type").value.s).value, fixed).Ok?)
    ensures r.Ok? && r.value.0.kind.Registers() ==> r.value.1 == Set(motors, PyStr(r.value.0.channel), r.value.0)
    ensures r.Ok? && !r.value.0.kind.Registers() ==> r.value.1 == motors
  {
    var motorType :- Index(descp, "type");
    var kind := if motorType.Str? then KindOf(motorType.s) else None;
    if kind.None? then
      Err(ValueError("Unrecognized motor type: " + PyStr(motorType)))
    else
      var m :- BuildMotor(motors, descp.fields, kind.value, fixed);
      if kind.value.Registers() then Ok((m, Set(motors, PyStr(m.channel), m)))
      else Ok((m, motors))
  }

  /** `__generate_motor` as written: it has no `return`, so every motor item
      is `None`; only the registry changes. */
  function GenerateMotor(motors: MotorTable, descp: Value): (r: Result<(Option<Device>, MotorTable)>)
    ensures r.Ok? <==> MakeMotor(motors, descp, false).Ok?
    ensures r.Err? ==> r == Err(MakeMotor(motors, descp, false).error)
    ensures r.Ok? ==> r.value.0 == None && r.value.1 == MakeMotor(motors, descp, false).value.1
  {
    var (_, motors') :- MakeMotor(motors, descp, false);
    Ok((None, motors'))
  }

  /** `__generate_motor` as evidently intended: the never-assigned attributes
      read as the descriptor and its PID dict, and the motor returned. */
  function GenerateMotorFixed(motors: MotorTable, descp: Value): (r: Result<(Option<Device>, MotorTable)>)
    ensures r.Ok? <==> MakeMotor(motors, descp, true).Ok?
    ensures r.Ok? ==> r.value == (Some(MakeMotor(motors, descp, true).value.0), MakeMotor(motors, descp, true).value.1)
    ensures r.Ok? ==> Lookup(descp.fields, "type") == Some(Str(r.value.0.value.kind.Name()))
  {
    var (m, motors') :- MakeMotor(motors, descp, true);
    Ok((Some(m), motors'))
  }

  /** Whatever the registry holds, the same descriptors fail and succeed: the
      registry only decides which object a SparkMax follower follows. */
  lemma MotorOutcomeIgnoresRegistry(a: MotorTable, b: MotorTable, descp: Value, fixed: Fixed)
    ensures MakeMotor(a, descp, fixed).Ok? <==> MakeMotor(b, descp, fixed).Ok?
    ensures MakeMotor(a, descp, fixed).Err? ==> MakeMotor(a, descp, fixed) == MakeMotor(b, descp, fixed)
  {
    if descp.Obj? && Lookup(descp.fields, "type").Some? {
      var t := Lookup(descp.fields, "type").value;
      if t.Str? && KindOf(t.s).Some? {
        BuildMotorIgnoresRegistry(a, b, descp.fields, KindOf(t.s).value, fixed);
      }
    }
  }

  /** Every motor descriptor the code as written accepts yields `None`, and
      the same motor once corrected. */
  lemma MotorItemIsNone(motors: MotorTable, descp: Value)
    requires MakeMotor(motors, descp, false).Ok?
    ensures GenerateMotor(motors, descp).value.0 == None
    ensures GenerateMotorFixed(motors, descp).value.0 == Some(MakeMotor(motors, descp, false).value.0)
  {
    FixedAgreesWhereWrittenBuilds(motors, descp.fields, MakeMotor(motors, descp, false).value.0.kind);
  }

  /** The registry after the motor factory as written has run on `descps` in
      order, stopping at the first failure. */
  function MotorsAfter(motors: MotorTable, descps: seq<Value>): (r: Result<MotorTable>)
    ensures r.Ok? ==> forall k :: k in Keys(motors) ==> k in Keys(r.value)
    decreases |descps|
  {
    if |descps| == 0 then Ok(motors)
    else
      var (_, motors') :- MakeMotor(motors, descps[0], false);
      MotorsAfter(motors', descps[1..])
  }

  /** Corrected: a CANTalonFX leader is never registered, so a SparkMax
      follower whose master is on that channel follows `None` unless
      something else was registered there before. */
  lemma FollowerOfTalonFXFindsNothing(motors: MotorTable, master: Desc, follower: Desc, ch: Value)
    requires Lookup(master, "type") == Some(Str("CANTalonFX")) && MakeMotor(motors, Obj(master), true).Ok?
    requires Lookup(master, "channel") == Some(ch) && PyStr(ch) !in Keys(motors)
    requires Lookup(follower, "type") == Some(Str("SparkMaxFollower")) && Lookup(follower, "masterChannel") == Some(ch)
    requires MakeMotor(MakeMotor(motors, Obj(master), true).value.1, Obj(follower), true).Ok?
    ensures MakeMotor(MakeMotor(motors, Obj(master), true).value.1, Obj(follower), true).value.0.follow == ByObject(None)
  {
    assert KindOf("CANTalonFX") == Some(CANTalonFX);
    assert Index(Obj(master), "type") == Ok(Str("CANTalonFX"));
    var m := BuildMotor(motors, master, CANTalonFX, true).value;
    assert MakeMotor(motors, Obj(master), true) == Ok((m, motors));
    assert KindOf("SparkMaxFollower") == Some(SparkMaxFollower);
    assert Index(Obj(follower), "type") == Ok(Str("SparkMaxFollower"));
    var f := BuildMotor(motors, follower, SparkMaxFollower, true);
    assert f.value.follow == ByObject(Lookup(motors, PyStr(ch)));
    assert MakeMotor(motors, Obj(follower), true) == Ok((f.value, motors));
  }

  /** Corrected: a SparkMax leader is registered under `str(channel)`, so a
      SparkMax follower naming that channel finds it. */
  lemma FollowerOfSparkMaxFindsIt(master: Desc, follower: Desc, ch: Value)
    requires Lookup(master, "type") == Some(Str("SparkMax")) && Lookup(master, "channel") == Some(ch)
    requires MakeMotor([], Obj(master), true).Ok?
    requires Lookup(follower, "type") == Some(Str("SparkMaxFollower")) && Lookup(follower, "masterChannel") == Some(ch)
    requires MakeMotor(MakeMotor([], Obj(master), true).value.1, Obj(follower), true).Ok?
    ensures MakeMotor(MakeMotor([], Obj(master), true).value.1, Obj(follower), true).value.0.follow
            == ByObject(Some(MakeMotor([], Obj(master), true).value.0))
  {
    assert KindOf("SparkMax") == Some(SparkMax);
    assert Index(Obj(master), "type") == Ok(Str("SparkMax"));
    var m := BuildMotor([], master, SparkMax, true).value;
    assert m.channel == ch;
    var table := Set([], PyStr(ch), m);
    assert MakeMotor([], Obj(master), true) == Ok((m, table));
    assert Lookup(table, PyStr(ch)) == Some(m);
    assert KindOf("SparkMaxFollower") == Some(SparkMaxFollower);
    assert Index(Obj(follower), "type") == Ok(Str("SparkMaxFollower"));
    var f := BuildMotor(table, follower, SparkMaxFollower, true);
    assert f.value.follow == ByObject(Lookup(table, PyStr(ch)));
    assert MakeMotor(table, Obj(follower), true) == Ok((f.value, table));
  }

  /** `descp[key] == value` inside the factories' `try`: any failure to index
      counts as "no". */
  predicate FieldIs(descp: Value, key: string, value: Value) {
    Index(descp, key) == Ok(value)
  }

  /** `__generate_breaksensor`: a digital input for type "RIODigitalIn" with a
      channel, `None` for anything else, never an error. */
  function GenerateBreaksensor(descp: Value): (r: Option<Device>)
    ensures r.Some? <==> FieldIs(descp, "type", Str("RIODigitalIn")) && Index(descp, "channel").Ok?
    ensures r.Some? ==> r.value == DigitalInput(Index(descp, "channel").value)
  {
    if FieldIs(descp, "type", Str("RIODigitalIn")) then
      match Index(descp, "channel")
      case Ok(ch) => Some(DigitalInput(ch))
      case Err(_) => None
    else None
  }

  /** `__generate_gyro`: a navx over "spi" or "i2c"; an unknown method raises
      inside the `try` and, like every other failure, gives `None`. */
  function GenerateGyro(descp: Value): (r: Option<Device>)
    ensures r.Some? <==> FieldIs(descp, "type", Str("navx")) &&
                         (Index(descp, "method") == Ok(Str("spi")) || Index(descp, "method") == Ok(Str("i2c")))
    ensures r.Some? ==> r.value.Gyro? && Index(descp, "method") == Ok(Str(r.value.bus))
  {
    if FieldIs(descp, "type", Str("navx")) then
      match Index(descp, "method")
      case Ok(Str(m)) => if m == "spi" || m == "i2c" then Some(Gyro(m)) else None
      case _ => None
    else None
  }

  /** `pcm = 0; if pcm in descp: pcm = descp["pcm"]` as written: the test asks
      whether the integer 0 is a key (or an element). A descriptor's keys are
      strings, so for a dict the answer is always no. */
  function PcmAsWritten(descp: Value): (r: Result<Value>)
    ensures descp.Obj? ==> r == Ok(Num(0))
  {
    var present :- Contains(descp, Num(0));
    if present then Index(descp, "pcm") else Ok(Num(0))
  }

  /** The `pcm` as evidently intended: the descriptor's "pcm" when it has one. */
  function PcmFixed(descp: Value): (r: Result<Value>)
    ensures descp.Obj? && Lookup(descp.fields, "pcm").Some? ==> r == Ok(Lookup(descp.fields, "pcm").value)
    ensures descp.Obj? && Lookup(descp.fields, "pcm").None? ==> r == Ok(Num(0))
  {
    var present :- Contains(descp, Str("pcm"));
    if present then Index(descp, "pcm") else Ok(Num(0))
  }

  /** `{"kOff": 0, "kForward": 1, "kReverse": 2}[default]`. */
  function DefaultValue(v: Value): (r: Result<int>)
    ensures r.Ok? <==> v in [Str("kOff"), Str("kForward"), Str("kReverse")]
    ensures v == Str("kOff") ==> r == Ok(0)
    ensures v == Str("kForward") ==> r == Ok(1)
    ensures v == Str("kReverse") ==> r == Ok(2)
  {
    if !Hashable(v) then Err(TypeError("unhashable type"))
    else if v == Str("kOff") then Ok(0)
    else if v == Str("kForward") then Ok(1)
    else if v == Str("kReverse") then Ok(2)
    else Err(KeyError(PyStr(v)))
  }

  /** The body of `__generate_solenoid`'s `try`, given how `pcm` is found. */
  function SolenoidWith(descp: Value, pcm: Result<Value>): (r: Result<Option<Device>>)
    ensures r.Ok? && r.value.Some? ==> pcm.Ok?
    ensures r.Ok? && r.value.Some? && r.value.value.SingleSolenoid? ==>
              r.value.value.pcm == pcm.value && FieldIs(descp, "type", Str("solenoid"))
    ensures r.Ok? && r.value.Some? && r.value.value.DoubleSolenoid? ==>
              r.value.value.pcm == pcm.value && FieldIs(descp, "type", Str("doubleSolenoid"))
  {
    var p :- pcm;
    var t :- Index(descp, "type");
    if t == Str("solenoid") then
      var ch :- Index(descp, "channel");
      Ok(Some(SingleSolenoid(p, ch)))
    else if t == Str("doubleSolenoid") then
      var (forward, reverse, initial) :- DoubleParts(descp);
      Ok(Some(DoubleSolenoid(p, forward, reverse, initial)))
    else Ok(None)
  }

  /** The double solenoid's channels and its initial value, when the
      descriptor has a "default" among kOff, kForward and kReverse. */
  function DoubleParts(descp: Value): (r: Result<(Value, Value, Option<int>)>)
    ensures r.Ok? ==> Index(descp, "channel").Ok? &&
                      Index(Index(descp, "channel").value, "forward") == Ok(r.value.0) &&
                      Index(Index(descp, "channel").value, "reverse") == Ok(r.value.1)
    ensures r.Ok? ==> (r.value.2.Some? <==> "default" in Keys(descp.fields))
    ensures r.Ok? && r.value.2.Some? ==> DefaultValue(Lookup(descp.fields, "default").value) == Ok(r.value.2.value)
  {
    var ch :- Index(descp, "channel");
    var forward :- Index(ch, "forward");
    var reverse :- Index(ch, "reverse");
    var initial :-
      if descp.Obj? && "default" in Keys(descp.fields) then
        var d :- DefaultValue(Lookup(descp.fields, "default").value);
        Ok(Some(d))
      else Ok(None);
    Ok((forward, reverse, initial))
  }

  /** `__generate_solenoid` as written: every failure inside the `try`,
      including an unknown "default", gives `None`. */
  function GenerateSolenoid(descp: Value): (r: Option<Device>)
    ensures r.Some? && r.value.SingleSolenoid? ==> r.value.pcm == Num(0)
    ensures r.Some? && r.value.DoubleSolenoid? ==> r.value.pcm == Num(0)
  {
    match SolenoidWith(descp, PcmAsWritten(descp))
    case Ok(d) => d
    case Err(_) => None
  }

  /** `__generate_solenoid` with the evidently intended "pcm" test. */
  function GenerateSolenoidFixed(descp: Value): (r: Option<Device>)
    ensures descp.Obj? && r.Some? && (r.value.SingleSolenoid? || r.value.DoubleSolenoid?) ==>
              r.value.pcm == Lookup(descp.fields, "pcm").GetOr(Num(0))
  {
    match SolenoidWith(descp, PcmFixed(descp))
    case Ok(d) => d
    case Err(_) => None
  }

  /** Example: a solenoid descriptor that names its module still gets module 0 as
      written, and the named one with the fix. */
  lemma SolenoidIgnoresPcm(ch: Value, pcm: Value)
    requires pcm != Num(0)
    ensures GenerateSolenoid(Obj([("type", Str("solenoid")), ("channel", ch), ("pcm", pcm)]))
            == Some(SingleSolenoid(Num(0), ch))
    ensures GenerateSolenoidFixed(Obj([("type", Str("solenoid")), ("channel", ch), ("pcm", pcm)]))
            == Some(SingleSolenoid(pcm, ch))
  {
    var d: Desc := [("type", Str("solenoid")), ("channel", ch), ("pcm", pcm)];
    assert Keys(d) == ["type", "channel", "pcm"];
    assert Lookup(d, "pcm") == Some(pcm);
    assert Lookup(d, "type") == Some(Str("solenoid"));
    assert Lookup(d, "channel") == Some(ch);
  }

  /** A solenoid device placed on module `m`; other devices unchanged. */
  function OnModule(d: Device, m: Value): Device {
    match d
    case SingleSolenoid(_, ch) => SingleSolenoid(m, ch)
    case DoubleSolenoid(_, f, r, i) => DoubleSolenoid(m, f, r, i)
    case _ => d
  }

  /** For every dict descriptor the two revisions build the same solenoid,
      or both nothing; they differ only in the module, which the corrected
      one takes from the descriptor's "pcm". */
  lemma SolenoidDiffersOnlyInModule(descp: Value)
    requires descp.Obj?
    ensures GenerateSolenoid(descp).Some? <==> GenerateSolenoidFixed(descp).Some?
    ensures GenerateSolenoid(descp).Some? ==>
              GenerateSolenoidFixed(descp) ==
              Some(OnModule(GenerateSolenoid(descp).value, Lookup(descp.fields, "pcm").GetOr(Num(0))))
  {
    var m := Lookup(descp.fields, "pcm").GetOr(Num(0));
    assert PcmAsWritten(descp) == Ok(Num(0));
    assert PcmFixed(descp) == Ok(m);
    SolenoidWithModule(descp, Num(0), m);
  }

  lemma SolenoidWithModule(descp: Value, a: Value, b: Value)
    ensures SolenoidWith(descp, Ok(b)) == Relocated(SolenoidWith(descp, Ok(a)), b)
  {
  }

  /** A factory outcome with its solenoid moved to module `m`. */
  function Relocated(r: Result<Option<Device>>, m: Value): Result<Option<Device>> {
    match r
    case Ok(Some(d)) => Ok(Some(OnModule(d, m)))
    case _ => r
  }

  /** `__generate_compressor`: a compressor for type "compressor", else `None`. */
  function GenerateCompressor(descp: Value): (r: Option<Device>)
    ensures r.Some? <==> FieldIs(descp, "type", Str("compressor"))
    ensures r.Some? ==> r.value.Compressor?
  {
    if FieldIs(descp, "type", Str("compressor")) then Some(Compressor) else None
  }

  /** `generator_mapping[group_name]`: the factory for a group, a KeyError for
      any other name. The motor factory is the one that can raise; it is shown
      here against a registry, since its success does not depend on it. */
  function Generator(motors: MotorTable, group: string): (r: Result<Value -> Result<Option<Device>>>)
    ensures r.Ok? <==> group in ["motors", "breaksensors", "gyros", "solenoids", "compressors"]
    ensures r.Err? ==> r.error == KeyError(group)
  {
    match group
    case "motors" => Ok((v: Value) => match GenerateMotor(motors, v) case Ok(p) => Ok(p.0) case Err(e) => Err(e))
    case "breaksensors" => Ok((v: Value) => Ok(GenerateBreaksensor(v)))
    case "gyros" => Ok((v: Value) => Ok(GenerateGyro(v)))
    case "solenoids" => Ok((v: Value) => Ok(GenerateSolenoid(v)))
    case "compressors" => Ok((v: Value) => Ok(GenerateCompressor(v)))
    case _ => Err(KeyError(group))
  }

  /** `'controllers'` is popped when present; when absent only an error is
      logged and the walk runs on the whole configuration. */
  function SplitControllers(cfg: Dict<string, Value>): (r: (Option<Value>, Dict<string, Value>))
    ensures r.0 == Lookup(cfg, "controllers")
    ensures forall k :: k != "controllers" ==> Lookup(r.1, k) == Lookup(cfg, k)
    ensures "controllers" !in Keys(cfg) ==> r.1 == cfg
  {
    (Lookup(cfg, "controllers"), Remove(cfg, "controllers"))
  }

  /** `GenerateObjects.__init__` after the load: controllers split off, then
      every (subsystem, group) built by its group's factory into attribute
      `group_subsystem`. */
  function Generate(motors: MotorTable, cfg: Dict<string, Value>): (r: Result<Injection<Option<Device>>>)
    ensures r.Ok? <==> WalkBuilds(SplitControllers(cfg).1, Factories(motors))
    ensures r.Ok? ==> r.value.total == ItemCount(SplitControllers(cfg).1)
    ensures r.Ok? ==> forall k :: k in Keys(r.value.attrs) <==> k in WalkNames(SplitControllers(cfg).1, GroupSubsystem)
    ensures r.Ok? ==> WalkSets(SplitControllers(cfg).1, GroupSubsystem, Factories(motors), r.value.attrs)
  {
    Inject(SplitControllers(cfg).1, GroupSubsystem, Factories(motors))
  }

  /** `generator_mapping[group_name]` for every (subsystem, group) pair. */
  function Factories(motors: MotorTable): (f: (string, string) -> Result<Value -> Result<Option<Device>>>)
    ensures forall sub, group :: f(sub, group) == Generator(motors, group)
  {
    (sub: string, group: string) => Generator(motors, group)
  }

  /** A group without a generator stops the walk with a KeyError naming it. */
  lemma UnknownGroupFails(motors: MotorTable, subsystem: string, group: string, items: Value)
    requires group !in ["motors", "breaksensors", "gyros", "solenoids", "compressors"]
    requires subsystem != "controllers"
    ensures Generate(motors, [(subsystem, Obj([(group, items)]))]) == Err(KeyError(group))
  {
    var cfg := [(subsystem, Obj([(group, items)]))];
    assert SplitControllers(cfg).1 == cfg;
  }
}
