/** The `__createFactoryObjects` walk that utils/newInitializer.py,
    utils/robotInitializer.py and utils/reworkedConfig.py share: a group's
    factory is attribute `factory_data[group]['func']` of the module named
    `factory_data[group]['file']`. Importing a module and reading one of its
    attributes are supplied by the caller. */
module FactoryWalk {
  import opened Wrappers
  import opened Dicts
  import opened Values
  import opened Hardware

  /** `getattr(import_module(factory_data[group]['file']), factory_data[group]['func'])`,
      in Python's order: the module is imported before "func" is read. */
  function FactoryFor<M, B>(factoryData: Value, importModule: Value -> Result<M>,
                            getAttr: (M, Value) -> Result<Value -> Result<B>>, group: string)
    : (r: Result<Value -> Result<B>>)
    ensures factoryData.Obj? && group !in Keys(factoryData.fields) ==> r == Err(KeyError(group))
    ensures r.Ok? ==> factoryData.Obj? && group in Keys(factoryData.fields)
    ensures r.Ok? ==>
              var entry := Lookup(factoryData.fields, group).value;
              Index(entry, "file").Ok? && importModule(Index(entry, "file").value).Ok? &&
              Index(entry, "func").Ok? &&
              r == getAttr(importModule(Index(entry, "file").value).value, Index(entry, "func").value)
  {
    var entry :- Index(factoryData, group);
    var file :- Index(entry, "file");
    var m :- importModule(file);
    var func :- Index(entry, "func");
    getAttr(m, func)
  }

  /** `__createFactoryObjects(robot, subsystems, factory_data)`: the log
      line's `len(subsystems)` first, then for each subsystem and group
      `{key: factory(descp) ...}` set as attribute `group_subsystem`, with
      the running total of items. */
  function CreateFactoryObjects<M, B>(subsystems: Value, factoryData: Value, importModule: Value -> Result<M>,
                                      getAttr: (M, Value) -> Result<Value -> Result<B>>)
    : (r: Result<Injection<B>>)
    ensures r.Ok? <==> subsystems.Obj? && WalkBuilds(subsystems.fields, Factories(factoryData, importModule, getAttr))
    ensures subsystems.Null? || subsystems.Bool? || subsystems.Num? || subsystems.Real? ==>
              r.Err? && r.error.TypeError?
    ensures subsystems.Str? || subsystems.List? || subsystems.Tuple? ==> r == Err(AttributeError("items"))
    ensures r.Ok? ==> r.value.total == ItemCount(subsystems.fields)
    ensures r.Ok? ==> forall k :: k in Keys(r.value.attrs) <==> k in WalkNames(subsystems.fields, GroupSubsystem)
    ensures r.Ok? ==> WalkSets(subsystems.fields, GroupSubsystem, Factories(factoryData, importModule, getAttr), r.value.attrs)
  {
    var _ :- Len(subsystems);
    var subs :- AsDict(subsystems);
    Inject(subs, GroupSubsystem, Factories(factoryData, importModule, getAttr))
  }

  /** The factory of every (subsystem, group) pair: the group's entry in the
      factory data. */
  function Factories<M, B>(factoryData: Value, importModule: Value -> Result<M>,
                           getAttr: (M, Value) -> Result<Value -> Result<B>>)
    : (f: (string, string) -> Result<Value -> Result<B>>)
    ensures forall sub, group :: f(sub, group) == FactoryFor(factoryData, importModule, getAttr, group)
  {
    (sub: string, group: string) => FactoryFor(factoryData, importModule, getAttr, group)
  }

  /** A group without an entry in the factory data stops the walk with a
      KeyError naming it. */
  lemma UnknownGroupFails<M, B>(factoryData: Dict<string, Value>, importModule: Value -> Result<M>,
                                getAttr: (M, Value) -> Result<Value -> Result<B>>,
                                subsystem: string, group: string, items: Value)
    requires group !in Keys(factoryData)
    ensures CreateFactoryObjects(Obj([(subsystem, Obj([(group, items)]))]), Obj(factoryData), importModule, getAttr)
            == Err(KeyError(group))
  {
  }

  /** `__initializeControllers`: a name-to-port dict, one controller each;
      anything without `.items()` is an AttributeError. */
  function Controllers(info: Value): (r: Result<Dict<string, Value>>)
    ensures r.Ok? <==> info.Obj?
    ensures r.Ok? ==> Keys(r.value) == Keys(info.fields)
  {
    AsDict(info)
  }
}
