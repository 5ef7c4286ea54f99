/** `InitializeRobot` of utils/configmanager.py: the configuration paths, the
    choice of robot, and the hardware walk through `HardwareObject`. The working
    directory, the path separator and the file loader are parameters. */
module ConfigManager {
  import opened Wrappers
  import opened Dicts
  import opened Values
  import opened Hardware
  import HardwareManager
  import Strings
  import FileManager

  /** The module's path constants for a working directory and separator. */
  datatype Paths = Paths(configs: string, robotConfigs: string, default: string)

  const HardwareConfig := ".config.hardware.json"

  /** `CONFIGS`, `ROBOT_CONFIGS = CONFIGS + sep` and `DEFAULT`. `CONFIGS`
      already ends in the separator, so `ROBOT_CONFIGS` ends in two. */
  function MakePaths(cwd: string, sep: string): (p: Paths)
    ensures p.configs == cwd + sep + "config" + sep
    ensures p.robotConfigs == p.configs + sep
    ensures p.default == p.robotConfigs + "doof" + sep
  {
    var configs := cwd + sep + "config" + sep;
    var robotConfigs := configs + sep;
    Paths(configs, robotConfigs, robotConfigs + "doof" + sep)
  }

  /** The doubled separator: `ROBOT_CONFIGS` ends in `sep + sep`. */
  lemma RobotConfigsDoubleSeparator(cwd: string, sep: string)
    ensures Strings.EndsWith(MakePaths(cwd, sep).robotConfigs, sep + sep)
  {
    var rc := MakePaths(cwd, sep).robotConfigs;
    assert rc == (cwd + sep + "config") + (sep + sep);
    assert rc[|rc| - |sep + sep|..] == sep + sep;
  }

  /** The robot name and configuration directory `__init__` settles on: a
      falsy `robot` (None or "") falls back to "doof" and `DEFAULT`. */
  function ChooseRobot(paths: Paths, sep: string, robot: Option<string>): (r: (string, string))
    ensures robot.None? || robot.value == "" ==> r == ("doof", paths.default)
    ensures robot.Some? && robot.value != "" ==> r == (robot.value, paths.robotConfigs + robot.value + sep)
  {
    if robot.None? || robot.value == "" then ("doof", paths.default)
    else (robot.value, paths.robotConfigs + robot.value + sep)
  }

  /** Falling back to the default is the same as asking for "doof". */
  lemma DefaultIsDoof(cwd: string, sep: string)
    ensures ChooseRobot(MakePaths(cwd, sep), sep, None) == ChooseRobot(MakePaths(cwd, sep), sep, Some("doof"))
  {
  }

  /** The hardware file: the directory followed by ".config.hardware.json". */
  function HardwarePath(configDir: string): (r: string)
    ensures |r| == |configDir| + |HardwareConfig|
    ensures Strings.EndsWith(r, HardwareConfig) && r[..|configDir|] == configDir
  {
    var r := configDir + HardwareConfig;
    assert r[|r| - |HardwareConfig|..] == HardwareConfig;
    r
  }

  /** One item: `HardwareObject(item_desc)`, which pops from a dict. */
  function BuildFromValue(reg: HardwareManager.Registry, v: Value): (r: Result<Built>)
    ensures r.Ok? ==> v.Obj? && HardwareManager.NewObject(reg, v.fields) == r
  {
    var desc :- AsDesc(v);
    HardwareManager.NewObject(reg, desc)
  }

  /** `_generate_hardware_objects`: every item replaced by the built object,
      any builder error aborting the whole walk, and each group set as the
      injectable `general_type_subsystem`. */
  function GenerateHardware(reg: HardwareManager.Registry, hw: Dict<string, Value>): (r: Result<Injection<Built>>)
    ensures r.Ok? <==> ItemsBuild(hw, Builder(reg))
    ensures r.Ok? ==> r.value.total == ItemCount(hw)
    ensures r.Ok? ==> forall k :: k in Keys(r.value.attrs) <==> k in WalkNames(hw, Compound)
    ensures r.Ok? ==> WalkSets(hw, Compound, Always(Builder(reg)), r.value.attrs)
  {
    InjectAll(hw, Builder(reg))
  }

  /** `HardwareObject` applied to an item. */
  function Builder(reg: HardwareManager.Registry): (f: Value -> Result<Built>)
    ensures forall v :: f(v) == BuildFromValue(reg, v)
  {
    (v: Value) => BuildFromValue(reg, v)
  }

  /** What a finished `InitializeRobot` leaves on the robot class and itself. */
  datatype Initialized = Initialized(config: string, injectables: Injection<Built>)

  /** `InitializeRobot.__init__`: choose, load the hardware file (`load` stands
      for the file loader), walk, and only then record `self.config`. */
  function Initialize(reg: HardwareManager.Registry, cwd: string, sep: string, robot: Option<string>,
                      load: string -> Result<Dict<string, Value>>): (r: Result<Initialized>)
    ensures r.Ok? ==> r.value.config == ChooseRobot(MakePaths(cwd, sep), sep, robot).0
    ensures r.Ok? ==> load(HardwarePath(ChooseRobot(MakePaths(cwd, sep), sep, robot).1)).Ok?
    ensures r.Ok? ==> GenerateHardware(reg, load(HardwarePath(ChooseRobot(MakePaths(cwd, sep), sep, robot).1)).value)
                      == Ok(r.value.injectables)
    ensures load(HardwarePath(ChooseRobot(MakePaths(cwd, sep), sep, robot).1)).Err? ==> r.Err?
  {
    var (name, configDir) := ChooseRobot(MakePaths(cwd, sep), sep, robot);
    var hw :- load(HardwarePath(configDir));
    var inj :- GenerateHardware(reg, hw);
    Ok(Initialized(name, inj))
  }

  /** The module's `load = FileManager.load`, producing the dict whose
      `.items()` `_generate_hardware_objects` walks. */
  function FileLoad(opens: string -> bool, parseJson: string -> Result<Value>, parseYaml: string -> Result<Value>)
    : (f: string -> Result<Dict<string, Value>>)
    ensures forall path :: FileManager.LoadAsWritten(path, opens, parseJson, parseYaml).Err? ==>
                           f(path) == Err(FileManager.LoadAsWritten(path, opens, parseJson, parseYaml).error)
  {
    (path: string) =>
      match FileManager.LoadAsWritten(path, opens, parseJson, parseYaml)
      case Err(e) => Err(e)
      case Ok(v) => AsDict(v)
  }

  /** With the loader the module actually binds, the start-up never
      finishes: every hardware path ends in ".config.hardware.json", whose
      three dots make `FileManager.load`'s two-way split a ValueError. */
  lemma FileManagerLoadFails(reg: HardwareManager.Registry, cwd: string, sep: string, robot: Option<string>,
                             opens: string -> bool, parseJson: string -> Result<Value>,
                             parseYaml: string -> Result<Value>)
    ensures Initialize(reg, cwd, sep, robot, FileLoad(opens, parseJson, parseYaml)).Err?
    ensures Initialize(reg, cwd, sep, robot, FileLoad(opens, parseJson, parseYaml)).error.ValueError?
  {
    var path := HardwarePath(ChooseRobot(MakePaths(cwd, sep), sep, robot).1);
    var n := |path| - |HardwareConfig|;
    assert path[n..] == HardwareConfig;
    assert path[n] == '.' && path[n + 7] == '.' by {
      assert path[n] == path[n..][0] && path[n + 7] == path[n..][7];
    }
    Strings.CountTwo(path, '.', n, n + 7);
  }

  /** For a named robot the hardware file sits under the doubled separator:
      `cwd/config//robot/.config.hardware.json`. */
  lemma NamedRobotHardwarePath(cwd: string, sep: string, robot: string)
    requires robot != ""
    ensures HardwarePath(ChooseRobot(MakePaths(cwd, sep), sep, Some(robot)).1)
            == cwd + sep + "config" + sep + sep + robot + sep + HardwareConfig
  {
  }
}
