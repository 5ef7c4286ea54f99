/** utils/configutil.py: the `--config` command-line option, the choice of
    configuration, and `InitializeRobot`, whose component clean-up reads the
    robot name before it is assigned. Loading the configuration and
    `generate_hardware_objects` (utils/hardwareutil.py is not part of this
    model) are parameters. */
module ConfigUtil {
  import opened Wrappers
  import opened Dicts
  import opened Values
  import RobotUtil
  import Strings

  /** The index of the first element equal to `x`. */
  function FirstIndex(s: seq<string>, x: string): (i: nat)
    requires x in s
    ensures i < |s| && s[i] == x && x !in s[..i]
  {
    if s[0] == x then 0
    else
      var j := FirstIndex(s[1..], x);
      assert s[..j + 1] == [s[0]] + s[1..][..j];
      j + 1
  }

  /** `list.remove(x)`: the first element equal to `x` deleted; a ValueError
      when there is none. */
  function RemoveFirst(s: seq<string>, x: string): (r: Result<seq<string>>)
    ensures x !in s <==> r.Err?
    ensures r.Ok? ==> exists i :: 0 <= i < |s| && s[i] == x && x !in s[..i] && r.value == s[..i] + s[i + 1..]
  {
    if x !in s then Err(ValueError("list.remove(x): x not in list"))
    else
      var i := FirstIndex(s, x);
      Ok(s[..i] + s[i + 1..])
  }

  /** `parse_robot_args` on `sys.argv`: the configuration named after the
      first "--config" (an IndexError when nothing follows it), and the
      arguments with the flag and then the first token equal to the name
      removed. */
  function ParseRobotArgs(args: seq<string>): (r: Result<(Option<string>, seq<string>)>)
    ensures "--config" !in args ==> r == Ok((None, args))
    ensures "--config" in args && FirstIndex(args, "--config") + 1 == |args| ==> r.Err? && r.error.IndexError?
    ensures r.Ok? && "--config" in args ==>
              var i := FirstIndex(args, "--config");
              i + 1 < |args| && r.value.0 == Some(args[i + 1]) && |r.value.1| == |args| - 2
    ensures r.Ok? && "--config" in args ==>
              var i := FirstIndex(args, "--config");
              args[i + 1] !in args[..i] ==> r.value.1 == args[..i] + args[i + 2..]
    ensures r.Ok? && "--config" in args ==>
              var i := FirstIndex(args, "--config");
              i + 1 < |args| && args[i + 1] in args[..i] ==>
                var j := FirstIndex(args, args[i + 1]);
                j < i && r.value.1 == args[..j] + args[j + 1..i] + args[i + 1..]
  {
    if "--config" !in args then Ok((None, args))
    else
      var i := FirstIndex(args, "--config");
      if i + 1 >= |args| then Err(IndexError("list index out of range"))
      else
        var name := args[i + 1];
        var once := RemoveFirst(args, "--config");
        assert once == Ok(args[..i] + args[i + 1..]);
        var without := args[..i] + args[i + 1..];
        assert without[i] == name;
        var twice := RemoveFirst(without, name).value;
        if name !in args[..i] then
          assert without[..i] == args[..i];
          assert twice == without[..i] + without[i + 1..];
          assert without[i + 1..] == args[i + 2..];
          Ok((Some(name), twice))
        else
          RemovesEarlierName(args, i);
          Ok((Some(name), twice))
  }

  /** When the name after the flag at `i` also occurs before it, removing the
      name from the arguments without the flag deletes that earlier token. */
  lemma RemovesEarlierName(args: seq<string>, i: nat)
    requires i + 1 < |args| && args[i + 1] in args[..i]
    ensures var j := FirstIndex(args, args[i + 1]);
            j < i && RemoveFirst(args[..i] + args[i + 1..], args[i + 1]) == Ok(args[..j] + args[j + 1..i] + args[i + 1..])
  {
    var name := args[i + 1];
    var without := args[..i] + args[i + 1..];
    var j := FirstIndex(args, name);
    assert j < i by {
      var k :| 0 <= k < i && args[..i][k] == name;
      assert args[k] == name;
    }
    assert without[..j] == args[..j] && without[j] == name;
    FirstIndexUnique(without, name, j);
    assert without[j + 1..] == args[j + 1..i] + args[i + 1..];
    assert RemoveFirst(without, name) == Ok(without[..j] + without[j + 1..]);
    assert without[..j] + without[j + 1..] == args[..j] + args[j + 1..i] + args[i + 1..];
  }

  /** The first index of `x` is the one index holding `x` with no `x` before it. */
  lemma FirstIndexUnique(s: seq<string>, x: string, j: nat)
    requires j < |s| && s[j] == x && x !in s[..j]
    ensures FirstIndex(s, x) == j
  {
  }

  /** Example: the removal of the name takes its first occurrence, which may come
      before the flag: the flag and an earlier token go, and the name
      following the flag stays. */
  lemma RemovesEarlierToken()
    ensures ParseRobotArgs(["robot.py", "doof.json", "--config", "doof.json"]) ==
            Ok((Some("doof.json"), ["robot.py", "doof.json"]))
  {
    var args := ["robot.py", "doof.json", "--config", "doof.json"];
    assert args[0] != "--config" && args[1] != "--config" && args[2] == "--config";
    assert FirstIndex(args, "--config") == 2;
    var without := ["robot.py", "doof.json", "doof.json"];
    assert args[..2] + args[3..] == without;
    assert without[0] != "doof.json" && without[1] == "doof.json";
    assert FirstIndex(without, "doof.json") == 1;
    assert without[..1] + without[2..] == ["robot.py", "doof.json"];
  }

  /** `InitializeRobot.__init__`'s choice: a truthy command-line configuration,
      else the default (which may be None). */
  function ChooseConfig(configuration: Option<string>, default: Option<string>): (r: Option<string>)
    ensures configuration.Some? && configuration.value != "" ==> r == configuration
    ensures configuration.None? || configuration.value == "" ==> r == default
  {
    if configuration.Some? && configuration.value != "" then configuration else default
  }

  /** `config.split('.')[0]`. */
  function RobotName(config: string): (r: string)
    ensures Strings.StartsWith(config, r) && '.' !in r
    ensures '.' in config ==> config[|r|] == '.'
    ensures '.' !in config ==> r == config
  {
    Strings.BeforeFirst(config, '.')
  }

  /** `_cleanup_components` as written, with the robot name it reads (`None`
      when the attribute is not set yet): the class's annotations after the
      call, which the deletions on `get_type_hints`' fresh copy leave as
      they were. */
  function Cleanup(anns: RobotUtil.Annotations, robotName: Option<string>): (r: Result<RobotUtil.Annotations>)
    ensures r.Ok? <==> RobotUtil.Scan(anns, robotName).Ok?
    ensures r.Ok? ==> r.value == anns
    ensures robotName.Some? ==> r == RobotUtil.CleanupComponents(anns, robotName.value)
  {
    var _ :- RobotUtil.Scan(anns, robotName);
    Ok(anns)
  }

  /** `_cleanup_components` as evidently intended: the incompatible
      components deleted from the class. */
  function CleanupFixed(anns: RobotUtil.Annotations, robotName: Option<string>): (r: Result<RobotUtil.Annotations>)
    ensures r.Ok? <==> RobotUtil.Scan(anns, robotName).Ok?
    ensures robotName.Some? ==> r == RobotUtil.CleanupComponentsFixed(anns, robotName.value)
  {
    var bad :- RobotUtil.Scan(anns, robotName);
    Ok(RobotUtil.RemoveAll(anns, bad))
  }

  datatype Initialized = Initialized(robotName: string, components: RobotUtil.Annotations)

  /** `InitializeRobot.__init__` as written: load (a None configuration
      cannot be joined to the directory), generate, clean up with the robot
      name still unset, and only then assign it. */
  function InitializeAsWritten(configuration: Option<string>, default: Option<string>,
                               load: string -> Result<Value>, generate: Value -> Result<()>,
                               anns: RobotUtil.Annotations)
    : (r: Result<Initialized>)
    ensures r.Ok? ==> forall i :: 0 <= i < |anns| ==> anns[i].1.None? || !Truthy(anns[i].1.value)
    ensures r.Ok? ==> |anns| == 0
  {
    var config :- match ChooseConfig(configuration, default)
                  case None => Err(TypeError("can only concatenate str (not \"NoneType\") to str"))
                  case Some(c) => Ok(c);
    var doc :- load(config);
    var _ :- generate(doc);
    var comps :- Cleanup(anns, None);
    assert |anns| > 0 ==> RobotUtil.Keep(anns[0].0, anns[0].1, None).Err?;
    Ok(Initialized(RobotName(config), comps))
  }

  /** Any robot with an annotated component fails: the first component
      either lacks a `robot` list or has its list tested against the unset
      robot name. */
  lemma AsWrittenFailsWithComponents(configuration: Option<string>, default: Option<string>,
                                     load: string -> Result<Value>, generate: Value -> Result<()>,
                                     anns: RobotUtil.Annotations)
    requires |anns| > 0
    ensures InitializeAsWritten(configuration, default, load, generate, anns).Err?
  {
  }

  /** With a listed first component and a configuration that loads, the
      failure is the unset `robot_name`. */
  lemma AsWrittenReadsUnsetName(config: string, load: string -> Result<Value>, generate: Value -> Result<()>,
                                cname: string, names: seq<string>, rest: RobotUtil.Annotations)
    requires config != "" && load(config).Ok? && generate(load(config).value).Ok? && names != []
    ensures InitializeAsWritten(Some(config), None, load, generate, [(cname, Some(List(StrValues(names))))] + rest)
            == Err(AttributeError("robot_name"))
  {
    var anns := [(cname, Some(List(StrValues(names))))] + rest;
    assert RobotUtil.Keep(anns[0].0, anns[0].1, None) == Err(AttributeError("robot_name"));
  }

  /** `InitializeRobot.__init__` as evidently intended: the robot name is
      assigned before the clean-up that reads it, and the clean-up deletes
      from the class. */
  function Initialize(configuration: Option<string>, default: Option<string>,
                      load: string -> Result<Value>, generate: Value -> Result<()>,
                      anns: RobotUtil.Annotations)
    : (r: Result<Initialized>)
    ensures ChooseConfig(configuration, default).None? ==> r.Err?
    ensures r.Ok? ==> ChooseConfig(configuration, default).Some? &&
                      r.value.robotName == RobotName(ChooseConfig(configuration, default).value)
    ensures r.Ok? ==> RobotUtil.CleanupComponentsFixed(anns, r.value.robotName) == Ok(r.value.components)
  {
    var config :- match ChooseConfig(configuration, default)
                  case None => Err(TypeError("can only concatenate str (not \"NoneType\") to str"))
                  case Some(c) => Ok(c);
    var doc :- load(config);
    var _ :- generate(doc);
    var name := RobotName(config);
    var comps :- CleanupFixed(anns, Some(name));
    Ok(Initialized(name, comps))
  }

  /** Where the corrected start-up keeps a component listed for the robot,
      the code as written has already failed. */
  lemma FixedSucceedsWhereAsWrittenFails(config: string, load: string -> Result<Value>, generate: Value -> Result<()>,
                                         cname: string, rest: RobotUtil.Annotations)
    requires config != "" && load(config).Ok? && generate(load(config).value).Ok?
    requires RobotUtil.Scan(rest, Some(RobotName(config))).Ok?
    ensures Initialize(Some(config), None, load, generate, [(cname, Some(List([Str(RobotName(config))])))] + rest).Ok?
    ensures InitializeAsWritten(Some(config), None, load, generate, [(cname, Some(List([Str(RobotName(config))])))] + rest).Err?
  {
    var anns := [(cname, Some(List([Str(RobotName(config))])))] + rest;
    assert RobotUtil.Keep(anns[0].0, anns[0].1, Some(RobotName(config))) == Ok(true);
    assert anns[1..] == rest;
  }
}
