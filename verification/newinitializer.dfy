/** `InitializeRobot` of utils/newInitializer.py: an explicitly named
    configuration file with three required sections, the factory walk and the
    controllers. Loading files and importing modules are parameters. */
module NewInitializer {
  import opened Wrappers
  import opened Dicts
  import opened Values
  import opened Hardware
  import FactoryWalk

  datatype Initialized<B> = Initialized(compatibility: Value, injectables: Injection<B>, controllers: Dict<string, Value>)

  /** `InitializeRobot.__init__(robot, config_file)`: any failure loading the
      file becomes a TypeError; then 'compatibility', 'controllers' and
      'subsystems' are read in that order, factories.json is loaded, and the
      walk and the controllers follow. */
  function Initialize<M, B>(configLoad: Result<Value>, load: Value -> Result<Value>,
                            importModule: Value -> Result<M>, getAttr: (M, Value) -> Result<Value -> Result<B>>)
    : (r: Result<Initialized<B>>)
    ensures configLoad.Err? ==> r.Err? && r.error.TypeError?
    ensures r.Ok? ==> configLoad.Ok? && configLoad.value.Obj? &&
                      var keys := Keys(configLoad.value.fields);
                      "compatibility" in keys && "controllers" in keys && "subsystems" in keys
    ensures configLoad.Ok? && configLoad.value.Obj? && "compatibility" !in Keys(configLoad.value.fields) ==>
              r == Err(KeyError("compatibility"))
    ensures r.Ok? ==> Index(configLoad.value, "compatibility") == Ok(r.value.compatibility)
    ensures r.Ok? ==> Index(configLoad.value, "subsystems").value.Obj? &&
                      r.value.injectables.total == ItemCount(Index(configLoad.value, "subsystems").value.fields)
    ensures r.Ok? ==> load(Str("factories.json")).Ok? &&
                      FactoryWalk.CreateFactoryObjects(Index(configLoad.value, "subsystems").value,
                                                       load(Str("factories.json")).value, importModule, getAttr)
                      == Ok(r.value.injectables)
    ensures r.Ok? ==> FactoryWalk.Controllers(Index(configLoad.value, "controllers").value) == Ok(r.value.controllers)
  {
    var config :- match configLoad
                  case Err(_) => Err(TypeError("Must specify a config file"))
                  case Ok(v) => Ok(v);
    var compatibility :- Index(config, "compatibility");
    var controllerInfo :- Index(config, "controllers");
    var subsystems :- Index(config, "subsystems");
    var factoryData :- load(Str("factories.json"));
    var inj :- FactoryWalk.CreateFactoryObjects(subsystems, factoryData, importModule, getAttr);
    var controllers :- FactoryWalk.Controllers(controllerInfo);
    Ok(Initialized(compatibility, inj, controllers))
  }

  /** The sections are read in order, so a configuration missing
      'controllers' is reported as such even when 'subsystems' is missing
      too. */
  lemma FirstMissingSectionReported<M, B>(compatibility: Value, load: Value -> Result<Value>,
                                          importModule: Value -> Result<M>,
                                          getAttr: (M, Value) -> Result<Value -> Result<B>>)
    ensures Initialize(Ok(Obj([("compatibility", compatibility)])), load, importModule, getAttr)
            == Err(KeyError("controllers"))
  {
  }
}
