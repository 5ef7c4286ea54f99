/** `generate_hardware_objects` of utils/hardware/hardware_manager.py: a
    hardware map from type names to constructor names in the
    base_hardware_objects module, and the walk over a hardware configuration. */
module HardwareMap {
  import opened Wrappers
  import opened Dicts
  import opened Values
  import opened Hardware
  import Strings
  import FileManager

  /** `new_hardware_object(desc)`: pop "type" (KeyError when absent), look the
      constructor name up in `hMap` (KeyError when unmapped, TypeError when
      unhashable), fetch it from the module whose attribute names are
      `base`, and call it. */
  function NewObject(hMap: Dict<string, Value>, base: seq<string>, desc: Desc): (r: Result<Built>)
    ensures "type" !in Keys(desc) ==> r == Err(KeyError("type"))
    ensures r.Ok? ==> Lookup(desc, "type").Some? && Lookup(desc, "type").value.Str? &&
                      Lookup(hMap, Lookup(desc, "type").value.s) == Some(Str(r.value.ctor)) &&
                      r.value.ctor in base
    ensures r.Ok? ==> r.value == Instantiate(r.value.ctor, PopType(desc).1)
    ensures (Lookup(desc, "type").Some? && Lookup(desc, "type").value.Str? &&
             Lookup(desc, "type").value.s !in Keys(hMap)) ==> r.Err? && r.error.KeyError?
  {
    var t :- Get(desc, "type", "type");
    var rest := PopType(desc).1;
    var name :-
      if !Hashable(t) then Err(TypeError("unhashable type"))
      else if !t.Str? then Err(KeyError(PyStr(t)))
      else Get(hMap, t.s, t.s);
    if !name.Str? then Err(TypeError("attribute name must be string"))
    else if name.s !in base then Err(AttributeError(name.s))
    else Ok(Instantiate(name.s, rest))
  }

  /** One item of the configuration: it must be a dict to be popped. */
  function BuildFromValue(hMap: Dict<string, Value>, base: seq<string>, v: Value): (r: Result<Built>)
    ensures r.Ok? ==> v.Obj? && NewObject(hMap, base, v.fields) == r
  {
    var desc :- AsDesc(v);
    NewObject(hMap, base, desc)
  }

  /** `for general_type, all_objects in cfg` as written: iterating a dict
      yields its keys, and unpacking a key string into two names needs a string
      of exactly two characters; the second is then a one-character string,
      which has no `.items()`. */
  function UnpackKey(key: string): (r: Result<(string, string)>)
    ensures |key| != 2 ==> r.Err? && r.error.ValueError?
    ensures |key| == 2 ==> r == Ok(([key[0]], [key[1]]))
  {
    if |key| == 2 then Ok(([key[0]], [key[1]]))
    else Err(ValueError("cannot unpack " + Strings.IntToString(|key|) + " values into 2"))
  }

  /** The walk as written: the first top-level entry already fails, so only
      an empty configuration gets through, setting nothing. */
  function GenerateAsWritten(hMap: Dict<string, Value>, base: seq<string>, cfg: Dict<string, Value>): (r: Result<()>)
    ensures r.Ok? <==> |cfg| == 0
    ensures |cfg| > 0 && |cfg[0].0| == 2 ==> r == Err(AttributeError("items"))
    ensures |cfg| > 0 && |cfg[0].0| != 2 ==> r.Err? && r.error.ValueError?
  {
    if |cfg| == 0 then Ok(())
    else
      var (_, allObjects) :- UnpackKey(cfg[0].0);
      match AsDict(Str(allObjects))
      case Err(e) => Err(e)
      case Ok(_) => Ok(())
  }

  /** `generate_hardware_objects(robot, config_file, hardware_map)` as
      written: the hardware map and then the configuration are read with
      `FileManager.load`, and the walk runs over the loaded configuration.
      That loader never returns a value, so the map's load error is what
      every call ends with. */
  function GenerateHardwareObjects(configFile: string, hardwareMap: string, base: seq<string>, opens: string -> bool,
                                   parseJson: string -> Result<Value>, parseYaml: string -> Result<Value>)
    : (r: Result<()>)
    ensures r.Err?
    ensures r.error == FileManager.LoadAsWritten(hardwareMap, opens, parseJson, parseYaml).error
    ensures Strings.Count(hardwareMap, '.') != 1 ==> r.error.ValueError?
  {
    match (FileManager.LoadAsWritten(hardwareMap, opens, parseJson, parseYaml),
           FileManager.LoadAsWritten(configFile, opens, parseJson, parseYaml))
    case (Err(e), _) => Err(e)
    case (_, Err(e)) => Err(e)
    case (Ok(Obj(h)), Ok(Obj(c))) => GenerateAsWritten(h, base, c)
    case _ => Err(TypeError("cannot unpack non-iterable object"))
  }

  /** With the default map ".hardware.map.json", which holds two dots, the
      start-up ends with ValueError whatever the configuration file. */
  lemma DefaultMapFails(configFile: string, base: seq<string>, opens: string -> bool,
                        parseJson: string -> Result<Value>, parseYaml: string -> Result<Value>)
    ensures GenerateHardwareObjects(configFile, ".hardware.map.json", base, opens, parseJson, parseYaml).Err?
    ensures GenerateHardwareObjects(configFile, ".hardware.map.json", base, opens, parseJson, parseYaml).error.ValueError?
  {
    Strings.CountTwo(".hardware.map.json", '.', 0, 9);
  }

  /** One (general_type, subsystem) group as written, were it reached: every
      item is built in place, then `setattr(robot, group_subsystem)` is called
      without a value, which is a TypeError whatever the group holds. */
  function GroupAsWritten(hMap: Dict<string, Value>, base: seq<string>, items: Value): (r: Result<()>)
    ensures r.Err?
    ensures items.Obj? && BuildItems(items.fields, (v: Value) => BuildFromValue(hMap, base, v)).Ok? ==>
              r.error.TypeError?
  {
    var d :- AsDict(items);
    var _ :- BuildItems(d, (v: Value) => BuildFromValue(hMap, base, v));
    Err(TypeError("setattr expected 3 arguments, got 2"))
  }

  /** The walk as evidently intended: `.items()` at the top level and the
      built group set as attribute `general_type_subsystem`. */
  function Generate(hMap: Dict<string, Value>, base: seq<string>, cfg: Dict<string, Value>): (r: Result<Injection<Built>>)
    ensures r.Ok? <==> ItemsBuild(cfg, Builder(hMap, base))
    ensures r.Ok? ==> r.value.total == ItemCount(cfg)
    ensures r.Ok? ==> forall k :: k in Keys(r.value.attrs) <==> k in WalkNames(cfg, Compound)
    ensures r.Ok? ==> WalkSets(cfg, Compound, Always(Builder(hMap, base)), r.value.attrs)
  {
    InjectAll(cfg, Builder(hMap, base))
  }

  /** `new_hardware_object` applied to an item. */
  function Builder(hMap: Dict<string, Value>, base: seq<string>): (f: Value -> Result<Built>)
    ensures forall v :: f(v) == BuildFromValue(hMap, base, v)
  {
    (v: Value) => BuildFromValue(hMap, base, v)
  }

  /** Where the corrected walk sets an attribute, the walk as written has
      already failed. */
  lemma AsWrittenSetsNothing(hMap: Dict<string, Value>, base: seq<string>, cfg: Dict<string, Value>)
    requires Generate(hMap, base, cfg).Ok? && |Generate(hMap, base, cfg).value.attrs| > 0
    ensures GenerateAsWritten(hMap, base, cfg).Err?
  {
  }
}
