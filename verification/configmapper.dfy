/** `ConfigMapper` of utils/configMapper.py: the YAML variant of the mapper,
    whose subsystems may live in included files. Loading a file is a
    parameter, and the interpreter's recursion limit is the `depth` left for
    nested includes. */
module ConfigMapper {
  import opened Wrappers
  import opened Dicts
  import opened Values
  import GroupDicts
  import JsonConfigMapper
  import Strings

  /** A loader: the parsed contents of the file named by a value. */
  type Loader = Value -> Result<Value>

  /** `self.extractedSubsystems[subsystemName] = subsystem` when the entry
      declared a subsystem. */
  function Store(acc: Dict<Value, Value>, name: Option<Value>, data: Value): (r: Dict<Value, Value>)
    ensures name.Some? ==> Lookup(r, name.value) == Some(data)
    ensures name.Some? ==> forall k :: k != name.value ==> Lookup(r, k) == Lookup(acc, k)
    ensures name.None? ==> r == acc
  {
    if name.Some? then Set(acc, name.value, data) else acc
  }

  /** The subsystem name an entry declares: `'subsystem' in data` is asked of
      any value first, and only a dict's name is used. */
  function DeclaredName(data: Value): (r: Result<Option<Value>>)
    ensures r.Err? <==> Contains(data, Str("subsystem")).Err? ||
                        (data.Obj? && "subsystem" in Keys(data.fields) && !Hashable(Lookup(data.fields, "subsystem").value))
    ensures r.Ok? && r.value.Some? <==> data.Obj? && "subsystem" in Keys(data.fields) && r.Ok?
    ensures r.Ok? && r.value.Some? ==> Lookup(data.fields, "subsystem") == Some(r.value.value)
  {
    var has :- Contains(data, Str("subsystem"));
    if has && data.Obj? then
      var n := Lookup(data.fields, "subsystem").value;
      if Hashable(n) then Ok(Some(n)) else Err(TypeError("unhashable type"))
    else Ok(None)
  }

  /** `__extractSubsystems(fileInfo)` with `depth` nested includes left
      before the recursion limit: store each declared subsystem, and for an
      entry with 'file' pop 'file' and 'type', insist on 'yaml', load the
      file and extract from it into the same dict. The stored dict is the
      one the pops modify, so it is stored without 'file' and 'type'. The
      second component is the document after the pops. */
  function Extract(info: Desc, load: Loader, acc: Dict<Value, Value>, depth: nat)
    : (r: Result<(Dict<Value, Value>, Desc)>)
    ensures r.Ok? ==> Keys(r.value.1) == Keys(info)
    ensures r.Ok? ==> forall k :: k in Keys(acc) ==> k in Keys(r.value.0)
    ensures r.Ok? ==> forall i :: 0 <= i < |info| && info[i].1.Obj? && "subsystem" in Keys(info[i].1.fields) ==>
                        Lookup(info[i].1.fields, "subsystem").value in Keys(r.value.0)
    decreases depth, |info|
  {
    if |info| == 0 then Ok((acc, []))
    else
      var data := info[0].1;
      var name :- DeclaredName(data);
      var hasFile :- Contains(data, Str("file"));
      var (data', acc') :-
        if hasFile && data.Obj? then Include(data.fields, name, load, acc, depth)
        else Ok((data, Store(acc, name, data)));
      var (acc'', rest) :- Extract(info[1..], load, acc', depth);
      NamesCarried(info, name, acc'');
      Ok((acc'', [(info[0].0, data')] + rest))
  }

  /** The subsystems named in `info` are in `out` when the first entry's
      declared name and those named in the rest are. */
  lemma NamesCarried(info: Desc, first: Option<Value>, out: Dict<Value, Value>)
    requires |info| > 0
    requires info[0].1.Obj? && "subsystem" in Keys(info[0].1.fields) ==>
               first == Some(Lookup(info[0].1.fields, "subsystem").value)
    requires first.Some? ==> first.value in Keys(out)
    requires forall i :: 0 <= i < |info[1..]| && info[1..][i].1.Obj? && "subsystem" in Keys(info[1..][i].1.fields) ==>
               Lookup(info[1..][i].1.fields, "subsystem").value in Keys(out)
    ensures forall i :: 0 <= i < |info| && info[i].1.Obj? && "subsystem" in Keys(info[i].1.fields) ==>
              Lookup(info[i].1.fields, "subsystem").value in Keys(out)
  {
    assert forall i :: 1 <= i < |info| ==> info[1..][i - 1] == info[i];
  }

  /** No entry of `info` is a dict holding 'file', so the extraction
      includes no other file. */
  ghost predicate NoIncludes(info: Desc) {
    forall i :: 0 <= i < |info| ==> !(info[i].1.Obj? && "file" in Keys(info[i].1.fields))
  }

  /** An entry the loop passes: `'subsystem' in data` and `'file' in data`
      are both defined for it, and a dict's 'subsystem' value can be a key. */
  ghost predicate Extractable(data: Value) {
    Contains(data, Str("subsystem")).Ok? && Contains(data, Str("file")).Ok? &&
    (data.Obj? && "subsystem" in Keys(data.fields) ==> Hashable(Lookup(data.fields, "subsystem").value))
  }

  /** For a document that includes no file: the extraction succeeds iff
      every entry is extractable; the document is left as it was; each
      declared subsystem maps to the LAST entry declaring it, stored whole;
      every other key keeps its value in `acc`; and no key appears that is
      neither in `acc` nor declared by an entry. */
  lemma {:induction false} ExtractPlain(info: Desc, load: Loader, acc: Dict<Value, Value>, depth: nat)
    requires NoIncludes(info)
    ensures Extract(info, load, acc, depth).Ok? <==> forall i :: 0 <= i < |info| ==> Extractable(info[i].1)
    ensures Extract(info, load, acc, depth).Ok? ==> Extract(info, load, acc, depth).value.1 == info
    ensures Extract(info, load, acc, depth).Ok? ==>
              forall i, k :: JsonConfigMapper.LastNaming(info, i, k) ==>
                Lookup(Extract(info, load, acc, depth).value.0, k) == Some(info[i].1)
    ensures Extract(info, load, acc, depth).Ok? ==>
              forall k :: (forall i :: 0 <= i < |info| ==> !JsonConfigMapper.Names(info, i, k)) ==>
                Lookup(Extract(info, load, acc, depth).value.0, k) == Lookup(acc, k)
    ensures Extract(info, load, acc, depth).Ok? ==>
              forall k :: k in Keys(Extract(info, load, acc, depth).value.0) ==>
                k in Keys(acc) || exists i :: JsonConfigMapper.Names(info, i, k)
    decreases |info|
  {
    if |info| > 0 {
      var data := info[0].1;
      var tail := info[1..];
      assert forall i :: 1 <= i < |info| ==> tail[i - 1] == info[i];
      assert NoIncludes(tail) by {
        forall i | 0 <= i < |tail| ensures !(tail[i].1.Obj? && "file" in Keys(tail[i].1.fields)) {
          assert tail[i] == info[i + 1];
        }
      }
      assert !(data.Obj? && "file" in Keys(data.fields));
      if Extractable(data) {
        var name := DeclaredName(data).value;
        var acc' := Store(acc, name, data);
        ExtractPlain(tail, load, acc', depth);
        assert Extract(info, load, acc, depth).Ok? == Extract(tail, load, acc', depth).Ok?;
        if Extract(info, load, acc, depth).Ok? {
          var r := Extract(info, load, acc, depth).value;
          assert r.0 == Extract(tail, load, acc', depth).value.0;
          assert info == [(info[0].0, data)] + tail;
          JsonConfigMapper.ExtractStep(info, acc, acc', r.0);
          forall k | k in Keys(r.0) ensures k in Keys(acc) || exists i :: JsonConfigMapper.Names(info, i, k) {
            if !exists i :: JsonConfigMapper.Names(info, i, k) {
              assert Lookup(r.0, k) == Lookup(acc, k);
            }
          }
        }
      }
    }
  }

  /** The include branch for an entry that is a dict containing 'file'. */
  function Include(fields: Desc, name: Option<Value>, load: Loader, acc: Dict<Value, Value>, depth: nat)
    : (r: Result<(Value, Dict<Value, Value>)>)
    requires "file" in Keys(fields)
    ensures r.Ok? ==> "type" in Keys(fields) && Lookup(fields, "type") == Some(Str("yaml"))
    ensures "type" !in Keys(fields) ==> r == Err(KeyError("type"))
    ensures "type" in Keys(fields) && Lookup(fields, "type") != Some(Str("yaml")) ==> r.Err? && r.error.IncorrectFileTypeError?
    ensures r.Ok? ==> r.value.0 == Obj(Remove(Remove(fields, "file"), "type"))
    ensures r.Ok? ==> forall k :: k in Keys(acc) ==> k in Keys(r.value.1)
    ensures r.Ok? && name.Some? ==> name.value in Keys(r.value.1)
    decreases depth, 0
  {
    var fileName := Lookup(fields, "file").value;
    var d1 := Remove(fields, "file");
    var fileType :- Get(d1, "type", "type");
    var d2 := Remove(d1, "type");
    if fileType != Str("yaml") then Err(IncorrectFileTypeError("File type must be 'yaml'"))
    else
      var acc1 := Store(acc, name, Obj(d2));
      if !fileName.Str? then Err(TypeError("can only concatenate str"))
      else
        var loaded :- load(fileName);
        var included :- AsDict(loaded);
        if depth == 0 then Err(RecursionError("maximum recursion depth exceeded"))
        else
          var (acc2, _) :- Extract(included, load, acc1, depth - 1);
          Ok((Obj(d2), acc2))
  }

  /** A mapper after `__init__`. `configCompat` is None when the file had no
      'compatibility' key and the error was logged instead of raised. */
  datatype Mapper = Mapper(subsystems: Dict<Value, Value>, configCompat: Option<Value>)

  /** `ConfigMapper(fileName, configDir)` as written: the `except` names
      NoCompatibilityError, which indexing never raises, so a missing
      'compatibility' escapes as a KeyError. */
  function NewMapperAsWritten(fileName: Value, load: Loader, depth: nat): (r: Result<Mapper>)
    ensures r.Ok? ==> load(fileName).Ok? && load(fileName).value.Obj? &&
                      Lookup(load(fileName).value.fields, "compatibility").Some? &&
                      r.value.configCompat.Some?
    ensures r.Ok? ==> Extract(load(fileName).value.fields, load, [], depth).Ok? &&
                      r.value.subsystems == Extract(load(fileName).value.fields, load, [], depth).value.0
  {
    var loaded :- load(fileName);
    var info :- AsDict(loaded);
    var (subsystems, info') :- Extract(info, load, [], depth);
    var compat :- Get(info', "compatibility", "compatibility");
    Ok(Mapper(subsystems, Some(compat)))
  }

  /** `ConfigMapper` as evidently intended: a missing 'compatibility' is
      logged and the mapper is still built. */
  function NewMapper(fileName: Value, load: Loader, depth: nat): (r: Result<Mapper>)
    ensures r.Ok? <==> load(fileName).Ok? && load(fileName).value.Obj? &&
                       Extract(load(fileName).value.fields, load, [], depth).Ok?
    ensures r.Ok? ==> r.value.subsystems == Extract(load(fileName).value.fields, load, [], depth).value.0
    ensures r.Ok? ==> (r.value.configCompat.Some? <==> "compatibility" in Keys(load(fileName).value.fields))
  {
    var loaded :- load(fileName);
    var info :- AsDict(loaded);
    var (subsystems, info') :- Extract(info, load, [], depth);
    Ok(Mapper(subsystems, Lookup(info', "compatibility")))
  }

  /** A file without 'compatibility' fails as written and succeeds when
      corrected, with no compatibility recorded. */
  lemma MissingCompatibility(fileName: Value, load: Loader, depth: nat)
    requires load(fileName).Ok? && load(fileName).value.Obj?
    requires "compatibility" !in Keys(load(fileName).value.fields)
    requires Extract(load(fileName).value.fields, load, [], depth).Ok?
    ensures NewMapperAsWritten(fileName, load, depth) == Err(KeyError("compatibility"))
    ensures NewMapper(fileName, load, depth).Ok? && NewMapper(fileName, load, depth).value.configCompat.None?
  {
  }

  /** Where both succeed they build the same mapper. */
  lemma AsWrittenAgreesWhenPresent(fileName: Value, load: Loader, depth: nat)
    requires NewMapperAsWritten(fileName, load, depth).Ok?
    ensures NewMapper(fileName, load, depth) == NewMapperAsWritten(fileName, load, depth)
  {
  }

  /** An entry whose include is not YAML stops the extraction. */
  lemma WrongFileTypeFails(key: string, file: string, kind: Value, load: Loader, depth: nat)
    requires kind != Str("yaml")
    ensures Extract([(key, Obj([("file", Str(file)), ("type", kind)]))], load, [], depth).Err?
    ensures Extract([(key, Obj([("file", Str(file)), ("type", kind)]))], load, [], depth).error.IncorrectFileTypeError?
  {
    var fields := [("file", Str(file)), ("type", kind)];
    assert Keys(fields) == ["file", "type"];
    assert Remove(fields, "file") == [("type", kind)];
    assert Lookup(Remove(fields, "file"), "type") == Some(kind);
  }

  /** A single entry that declares a subsystem and includes nothing is
      stored as it is. */
  lemma PlainEntryStored(key: string, d: Desc, n: Value, load: Loader, acc: Dict<Value, Value>, depth: nat)
    requires "file" !in Keys(d) && Lookup(d, "subsystem") == Some(n) && Hashable(n)
    ensures Extract([(key, Obj(d))], load, acc, depth).Ok?
    ensures Extract([(key, Obj(d))], load, acc, depth).value.0 == Set(acc, n, Obj(d))
  {
    var info := [(key, Obj(d))];
    assert DeclaredName(Obj(d)) == Ok(Some(n));
    assert Extract(info[1..], load, Set(acc, n, Obj(d)), depth) == Ok((Set(acc, n, Obj(d)), []));
  }

  /** The subsystems of an included file join the including file's dict,
      and an include only succeeds below the recursion limit. */
  lemma IncludedSubsystemsJoin(key: string, fields: Desc, file: string, included: Desc, load: Loader, depth: nat)
    requires Lookup(fields, "file") == Some(Str(file))
    requires load(Str(file)) == Ok(Obj(included))
    requires Extract([(key, Obj(fields))], load, [], depth).Ok?
    ensures depth > 0
    ensures forall i :: 0 <= i < |included| && included[i].1.Obj? && "subsystem" in Keys(included[i].1.fields) ==>
              Lookup(included[i].1.fields, "subsystem").value in Keys(Extract([(key, Obj(fields))], load, [], depth).value.0)
  {
    var name := DeclaredName(Obj(fields)).value;
    assert Contains(Obj(fields), Str("file")) == Ok(true);
    var inc := Include(fields, name, load, [], depth);
    assert inc.Ok?;
    var acc1 := Store([], name, Obj(Remove(Remove(fields, "file"), "type")));
    assert Lookup(Remove(fields, "file"), "type") == Some(Str("yaml"));
    assert Extract(included, load, acc1, depth - 1).Ok?;
    IncludeEntry(key, fields, load, [], depth);
  }

  /** A single entry that includes a file leaves what the include gathered. */
  lemma IncludeEntry(key: string, fields: Desc, load: Loader, acc: Dict<Value, Value>, depth: nat)
    requires "file" in Keys(fields) && DeclaredName(Obj(fields)).Ok?
    requires Include(fields, DeclaredName(Obj(fields)).value, load, acc, depth).Ok?
    ensures Extract([(key, Obj(fields))], load, acc, depth).Ok?
    ensures Extract([(key, Obj(fields))], load, acc, depth).value.0
            == Include(fields, DeclaredName(Obj(fields)).value, load, acc, depth).value.1
  {
    var info := [(key, Obj(fields))];
    var acc' := Include(fields, DeclaredName(Obj(fields)).value, load, acc, depth).value.1;
    assert Extract(info[1..], load, acc', depth) == Ok((acc', []));
  }

  /** An include that names its own file recurses until the recursion limit,
      whatever that limit is: there is no visited set. */
  lemma {:induction false} SelfIncludeNeverEnds(key: string, file: string, load: Loader, depth: nat)
    requires load(Str(file)) == Ok(Obj([(key, Obj([("file", Str(file)), ("type", Str("yaml"))]))]))
    ensures Extract([(key, Obj([("file", Str(file)), ("type", Str("yaml"))]))], load, [], depth)
            == Err(RecursionError("maximum recursion depth exceeded"))
    decreases depth
  {
    var fields := [("file", Str(file)), ("type", Str("yaml"))];
    assert Keys(fields) == ["file", "type"];
    assert Remove(fields, "file") == [("type", Str("yaml"))];
    assert Lookup(Remove(fields, "file"), "type") == Some(Str("yaml"));
    assert Remove(Remove(fields, "file"), "type") == [];
    if depth > 0 {
      SelfIncludeNeverEnds(key, file, load, depth - 1);
    }
  }

  /** `getSubsystem`: None for an unknown name; asking with an unhashable
      value is a TypeError. */
  function GetSubsystem(m: Mapper, name: Value): (r: Result<Option<Value>>)
    ensures Hashable(name) ==> r == Ok(Lookup(m.subsystems, name))
    ensures !Hashable(name) ==> r.Err? && r.error.TypeError?
  {
    if !Hashable(name) then Err(TypeError("unhashable type")) else Ok(Lookup(m.subsystems, name))
  }

  /** `getSubsystems`: the subsystem names in insertion order. */
  function GetSubsystems(m: Mapper): (r: seq<Value>)
    ensures forall k :: k in r <==> k in Keys(m.subsystems)
  {
    Keys(m.subsystems)
  }

  /** `getGroupDict` as written: the group search over whatever
      `getSubsystem` returned, asking every entry for 'groups'; for an
      unknown name the search iterates None. Where it succeeds on a dict
      subsystem it finds what the corrected search finds. */
  function GetGroupDict(m: Mapper, name: Value, groupName: Value): (r: Result<Desc>)
    ensures !Hashable(name) ==> r.Err? && r.error.TypeError?
    ensures Hashable(name) && name !in Keys(m.subsystems) ==> r.Err? && r.error.TypeError?
    ensures r.Ok? ==> Lookup(m.subsystems, name).Some? && DistinctKeys(r.value)
    ensures r.Ok? && Lookup(m.subsystems, name).value.Obj? && |Lookup(m.subsystems, name).value.fields| > 0 ==>
              "groups" !in Keys(r.value)
    ensures r.Ok? && Lookup(m.subsystems, name).value.Obj? ==> r == GetGroupDictFixed(m, name, groupName)
  {
    var raw :- GetSubsystem(m, name);
    var r := GroupDicts.SubsystemDicts(raw.GetOr(Null), groupName, false);
    if raw.Some? && raw.value.Obj? && r.Ok? then
      GroupDicts.WrittenAgreesWithFixed(raw.value.fields, groupName);
      r
    else r
  }

  /** `getGroupDict` with the corrected search: a dict subsystem none of
      whose visited entries names the group gives an empty dict. */
  function GetGroupDictFixed(m: Mapper, name: Value, groupName: Value): (r: Result<Desc>)
    ensures !Hashable(name) ==> r.Err? && r.error.TypeError?
    ensures Hashable(name) && name !in Keys(m.subsystems) ==> r.Err? && r.error.TypeError?
    ensures r.Ok? ==> Lookup(m.subsystems, name).Some? && DistinctKeys(r.value)
    ensures (Hashable(name) && Lookup(m.subsystems, name).Some? && Lookup(m.subsystems, name).value.Obj? &&
             GroupDicts.NoneSelected(Lookup(m.subsystems, name).value.fields, groupName)) ==> r == Ok([])
  {
    var raw :- GetSubsystem(m, name);
    if raw.Some? && raw.value.Obj? then
      GroupDicts.FixedNoneSelectedIsEmpty(raw.value.fields, groupName);
      GroupDicts.SubsystemDicts(raw.value, groupName, true)
    else GroupDicts.SubsystemDicts(raw.GetOr(Null), groupName, true)
  }

  /** `checkCompatibility(compatString)`: true when the configuration's
      compatibility is "all" or "all" is among the lowered names; otherwise
      true iff something iterating the compatibility yields — a str's
      characters — is among the lowered names. The names are lowered first,
      so their failure comes before an unset compatibility's. */
  function CheckCompatibility(m: Mapper, compatString: Value): (r: Result<bool>)
    ensures JsonConfigMapper.LowerAll(compatString).Err? ==> r == Err(JsonConfigMapper.LowerAll(compatString).error)
    ensures JsonConfigMapper.LowerAll(compatString).Ok? && m.configCompat.None? ==> r.Err? && r.error.AttributeError?
    ensures r.Ok? ==> JsonConfigMapper.LowerAll(compatString).Ok?
    ensures r.Ok? ==>
              var names := JsonConfigMapper.LowerAll(compatString).value;
              var root := m.configCompat.value;
              (r.value <==> root == Str("all") || "all" in names ||
                            (Elements(root).Ok? && exists e :: e in Elements(root).value && e.Str? && e.s in names))
  {
    var names :- JsonConfigMapper.LowerAll(compatString);
    if m.configCompat.None? then Err(AttributeError("configCompat"))
    else
      var root := m.configCompat.value;
      if root == Str("all") || "all" in names then Ok(true)
      else
        var elems :- Elements(root);
        Ok(exists e :: e in elems && e.Str? && e.s in names)
  }

  /** Example: a str compatibility is iterated by character: "doof" is compatible
      with a component listing "d". */
  lemma CharacterMatches(subsystems: Dict<Value, Value>, s: string, j: nat)
    requires j < |s| && !Strings.IsUpper(s[j])
    ensures CheckCompatibility(Mapper(subsystems, Some(Str(s))), List([Str([s[j]])])) == Ok(true)
  {
    var names := JsonConfigMapper.LowerAll(List([Str([s[j]])])).value;
    assert names[0] == Strings.Lower([s[j]]);
    assert |names| == 1;
    assert |names[0]| == 1 && names[0][0] == s[j];
    assert names[0] == [s[j]];
    var e := Chars(s)[j];
    assert e in Elements(Str(s)).value;
  }
}
