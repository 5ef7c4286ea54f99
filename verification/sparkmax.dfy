/** The `CANSparkMax` constructor class of utils/hardwaremanager.py: its
    class-level `motors` registry used to find a follower's master, and the
    coasting switch of `set` for motors with PID. */
module SparkMax {
  import opened Wrappers
  import opened Dicts
  import opened Values
  import Actuator

  /** `CANSparkMax.motors`: channel value to the motor built on it (motors are
      numbered in construction order). */
  type MotorTable = Dict<Value, nat>

  /** What construction records about a motor: `follows` is `None` for a motor
      without "follower", otherwise the master passed to `follow`, where
      `Some(None)` is the `None` a failed lookup yields; `pid` is the control
      type PID was set up with, `None` without "pid". */
  datatype Motor = Motor(id: nat, channel: Value, follows: Option<Option<nat>>, pid: Option<string>)

  /** `desc[key]`. */
  function Field(desc: Desc, key: string): (r: Result<Value>)
    ensures r.Ok? <==> key in Keys(desc)
    ensures r.Ok? ==> Lookup(desc, key) == Some(r.value)
  {
    Get(desc, key, key)
  }

  /** The members of `rev.ControlType`. */
  const RevControlTypes: seq<string> :=
    ["kDutyCycle", "kVelocity", "kVoltage", "kPosition", "kSmartMotion", "kCurrent", "kSmartVelocity"]

  /** The keys `__setupPID` reads after the control type, in order. */
  const PidKeys: seq<string> := ["kPreScale", "feedbackDevice", "kP", "kI", "kD", "kF"]

  /** The reads of `__setupPID(pid_desc)`: "controlType" looked up in
      `rev.ControlType` (a TypeError for a non-str name, an AttributeError for
      a name that is not a member), then each of the other keys. */
  function PidSetup(pid: Value): (r: Result<string>)
    ensures r.Ok? <==> Index(pid, "controlType").Ok? && Index(pid, "controlType").value.Str? &&
                       Index(pid, "controlType").value.s in RevControlTypes && ReadKeys(pid, PidKeys).Ok?
    ensures r.Ok? ==> Index(pid, "controlType") == Ok(Str(r.value))
    ensures (Index(pid, "controlType").Ok? && Index(pid, "controlType").value.Str? &&
             Index(pid, "controlType").value.s !in RevControlTypes) ==> r.Err? && r.error.AttributeError?
  {
    var name :- Index(pid, "controlType");
    if !name.Str? then Err(TypeError("attribute name must be string"))
    else if name.s !in RevControlTypes then Err(AttributeError(name.s))
    else
      var _ :- ReadKeys(pid, PidKeys);
      Ok(name.s)
  }

  /** The reads and the `follow` of `CANSparkMax.__init__`, before the motor
      is stored: "channel", the motor type looked up in `rev.MotorType`, a
      follower's "masterChannel" (looked up under its `str`) and "inverted",
      the PID set-up and the current limits. */
  function Build(table: MotorTable, desc: Desc, id: nat): (r: Result<Motor>)
    ensures r.Ok? <==> "channel" in Keys(desc) && Actuator.MotorTypeMember(desc).Ok? &&
                       ("follower" in Keys(desc) ==> "masterChannel" in Keys(desc) && "inverted" in Keys(desc)) &&
                       ("pid" in Keys(desc) ==> PidSetup(Lookup(desc, "pid").value).Ok?) &&
                       Actuator.Limits(desc, Actuator.RevLimitKeys).Ok?
    ensures "channel" !in Keys(desc) ==> r == Err(KeyError("channel"))
    ensures r.Ok? ==> r.value.id == id && Lookup(desc, "channel") == Some(r.value.channel)
    ensures r.Ok? ==> (r.value.follows.Some? <==> "follower" in Keys(desc))
    ensures r.Ok? && "follower" in Keys(desc) ==>
              r.value.follows == Some(Lookup(table, Str(PyStr(Lookup(desc, "masterChannel").value))))
    ensures r.Ok? ==> (r.value.pid.Some? <==> "pid" in Keys(desc))
    ensures r.Ok? && "pid" in Keys(desc) ==> Index(Lookup(desc, "pid").value, "controlType") == Ok(Str(r.value.pid.value))
  {
    var channel :- Field(desc, "channel");
    var _ :- Actuator.MotorTypeMember(desc);
    var follows :-
      if "follower" in Keys(desc) then
        var master :- Field(desc, "masterChannel");
        var _ :- Field(desc, "inverted");
        Ok(Some(Lookup(table, Str(PyStr(master)))))
      else Ok(None);
    var pid :-
      if "pid" in Keys(desc) then
        var ct :- PidSetup(Lookup(desc, "pid").value);
        Ok(Some(ct))
      else Ok(None);
    var _ :- Actuator.Limits(desc, Actuator.RevLimitKeys);
    Ok(Motor(id, channel, follows, pid))
  }

  /** `CANSparkMax.__init__` as written: the built motor is stored under the
      raw `desc["channel"]`, which must be hashable. */
  function Create(table: MotorTable, desc: Desc, id: nat): (r: Result<(Motor, MotorTable)>)
    ensures r.Ok? <==> Build(table, desc, id).Ok? && Hashable(Build(table, desc, id).value.channel)
    ensures Build(table, desc, id).Err? ==> r == Err(Build(table, desc, id).error)
    ensures r.Ok? ==> r.value.0 == Build(table, desc, id).value
    ensures r.Ok? ==> Lookup(r.value.1, r.value.0.channel) == Some(id)
    ensures r.Ok? ==> forall c :: c != r.value.0.channel ==> Lookup(r.value.1, c) == Lookup(table, c)
  {
    var m :- Build(table, desc, id);
    if !Hashable(m.channel) then Err(TypeError("unhashable type"))
    else Ok((m, Set(table, m.channel, id)))
  }

  /** The registry as evidently intended: motors stored under `str(channel)`,
      the key followers look up. */
  function CreateFixed(table: MotorTable, desc: Desc, id: nat): (r: Result<(Motor, MotorTable)>)
    ensures r.Ok? <==> Build(table, desc, id).Ok?
    ensures r.Ok? ==> r.value.0 == Build(table, desc, id).value
    ensures r.Ok? ==> Lookup(r.value.1, Str(PyStr(r.value.0.channel))) == Some(id)
    ensures r.Ok? ==> forall c :: c != Str(PyStr(r.value.0.channel)) ==> Lookup(r.value.1, c) == Lookup(table, c)
  {
    var m :- Build(table, desc, id);
    Ok((m, Set(table, Str(PyStr(m.channel)), id)))
  }

  /** With the integer channels the configurations use, a follower built after
      its master still passes `None` to `follow`: the master sits under the int
      key, the follower asks for the str key. */
  lemma IntChannelMasterNotFound(master: Desc, follower: Desc, n: int, mid: nat, fid: nat)
    requires Lookup(master, "channel") == Some(Num(n))
    requires "follower" in Keys(follower) && Lookup(follower, "masterChannel") == Some(Num(n))
    requires Create([], master, mid).Ok?
    requires Create(Create([], master, mid).value.1, follower, fid).Ok?
    ensures Create(Create([], master, mid).value.1, follower, fid).value.0.follows == Some(None)
  {
    var table := Create([], master, mid).value.1;
    assert Keys(table) == [Num(n)];
  }

  /** Stored under `str(channel)`, the same pair of motors links up. */
  lemma FixedFollowerFindsMaster(master: Desc, follower: Desc, n: int, mid: nat, fid: nat)
    requires Lookup(master, "channel") == Some(Num(n))
    requires "follower" in Keys(follower) && Lookup(follower, "masterChannel") == Some(Num(n))
    requires CreateFixed([], master, mid).Ok?
    requires CreateFixed(CreateFixed([], master, mid).value.1, follower, fid).Ok?
    ensures CreateFixed(CreateFixed([], master, mid).value.1, follower, fid).value.0.follows == Some(Some(mid))
  {
  }

  /** A control type: a `rev.ControlType` member looked up by name, or the bare
      name string itself. */
  datatype ControlType = Member(name: string) | RawName(name: string)

  /** The PID part of a SparkMax with PID set up. */
  datatype PidState = PidState(coasting: bool, controlType: ControlType, initControlType: string, kPreScale: real)

  /** What `set` sends: a plain duty cycle, or a PID reference with its
      control type. */
  datatype Command = Duty(speed: real) | Reference(value: real, controlType: ControlType)

  /** The state `__setupPID` leaves: not coasting, control type looked up from
      the descriptor's "controlType". */
  function SetupPid(controlType: string, kPreScale: real): (st: PidState)
    ensures !st.coasting && st.controlType == Member(controlType) && st.initControlType == controlType
  {
    PidState(false, Member(controlType), controlType, kPreScale)
  }

  /** `set(speed, coast)` as written, for a motor with PID: coasting starts on
      a zero speed with `coast` (once: a second zero is a no-op), anything else
      stops it and, if it was coasting, puts back `init_control_type`, the bare
      string rather than the enum member. */
  function SetPid(st: PidState, speed: real, coast: bool): (r: (PidState, seq<Command>))
    ensures coast && speed == 0.0 ==> r.0.coasting && r.0.controlType == (if st.coasting then st.controlType else Member("kDutyCycle"))
    ensures !(coast && speed == 0.0) ==> !r.0.coasting
    ensures !(coast && speed == 0.0) ==> r.0.controlType == (if st.coasting then RawName(st.initControlType) else st.controlType)
    ensures r.0.initControlType == st.initControlType && r.0.kPreScale == st.kPreScale
    ensures |r.1| > 0 && r.1[|r.1| - 1] == Reference(speed * st.kPreScale, r.0.controlType)
    ensures |r.1| == 2 <==> coast && speed == 0.0 && !st.coasting
  {
    if coast && speed == 0.0 then
      if st.coasting then (st, [Reference(speed * st.kPreScale, st.controlType)])
      else
        var st' := st.(coasting := true, controlType := Member("kDutyCycle"));
        (st', [Reference(0.0, st'.controlType), Reference(speed * st.kPreScale, st'.controlType)])
    else
      var st' := st.(coasting := false, controlType := if st.coasting then RawName(st.initControlType) else st.controlType);
      (st', [Reference(speed * st.kPreScale, st'.controlType)])
  }

  /** Coasting is idempotent: a second zero-speed `set` changes nothing. */
  lemma CoastIdempotent(st: PidState)
    ensures SetPid(SetPid(st, 0.0, true).0, 0.0, true).0 == SetPid(st, 0.0, true).0
  {
  }

  /** After coasting, the next non-zero `set` leaves the bare string as control
      type, which is not the member the motor started with. */
  lemma StopCoastLosesMember(controlType: string, k: real, speed: real)
    requires speed != 0.0
    ensures SetPid(SetPid(SetupPid(controlType, k), 0.0, true).0, speed, true).0.controlType == RawName(controlType)
    ensures SetPid(SetPid(SetupPid(controlType, k), 0.0, true).0, speed, true).0.controlType != SetupPid(controlType, k).controlType
  {
  }

  /** `set` as evidently intended: stopping a coast restores the member that
      `__set_control_type(init_control_type)` would give. */
  function SetPidFixed(st: PidState, speed: real, coast: bool): (r: (PidState, seq<Command>))
    ensures coast && speed == 0.0 ==> r.0.coasting
    ensures !(coast && speed == 0.0) ==> !r.0.coasting
    ensures !(coast && speed == 0.0) ==> r.0.controlType == (if st.coasting then Member(st.initControlType) else st.controlType)
    ensures r.0.initControlType == st.initControlType && r.0.kPreScale == st.kPreScale
    ensures |r.1| > 0 && r.1[|r.1| - 1] == Reference(speed * st.kPreScale, r.0.controlType)
  {
    if coast && speed == 0.0 then
      if st.coasting then (st, [Reference(speed * st.kPreScale, st.controlType)])
      else
        var st' := st.(coasting := true, controlType := Member("kDutyCycle"));
        (st', [Reference(0.0, st'.controlType), Reference(speed * st.kPreScale, st'.controlType)])
    else
      var st' := st.(coasting := false, controlType := if st.coasting then Member(st.initControlType) else st.controlType);
      (st', [Reference(speed * st.kPreScale, st'.controlType)])
  }

  /** With the fix, coasting and then driving again returns the motor to the
      state `__setupPID` left it in. */
  lemma CoastThenDriveRestores(controlType: string, k: real, speed: real)
    requires speed != 0.0
    ensures SetPidFixed(SetPidFixed(SetupPid(controlType, k), 0.0, true).0, speed, true).0 == SetupPid(controlType, k)
  {
  }
}
