/** `ConfigMapper` and `findConfig` of utils/jsonConfigMapper.py: the robot
    configurations of a loaded JSON file, the chosen configuration with its
    subconfigs, the subsystems indexed by name, the compatibility test, and
    the clean-up of the marker file's text. The file contents are
    parameters. */
module JsonConfigMapper {
  import opened Wrappers
  import opened Dicts
  import opened Values
  import GroupDicts
  import Strings

  /** `d[k]` for a key that is any loaded value: a dict with string keys finds
      only strings, and an unhashable key is a TypeError. */
  function IndexBy(d: Desc, k: Value): (r: Result<Value>)
    ensures k.Str? ==> r == Get(d, k.s, k.s)
    ensures r.Ok? ==> k.Str? && Lookup(d, k.s) == Some(r.value)
  {
    if !Hashable(k) then Err(TypeError("unhashable type"))
    else if !k.Str? then Err(KeyError(PyStr(k)))
    else Get(d, k.s, k.s)
  }

  /** An element `dict.update` accepts from a sequence: a sequence of two —
      a two-character str, a list or tuple of two, or a dict with two keys,
      which iterates as its keys — whose first item is a str key. */
  predicate IsPair(e: Value) {
    match e
    case Str(s) => |s| == 2
    case List(items) => |items| == 2 && items[0].Str?
    case Tuple(items) => |items| == 2 && items[0].Str?
    case Obj(fields) => |fields| == 2
    case _ => false
  }

  const UpdateLength := "dictionary update sequence element has the wrong length; 2 is required"

  /** One element of the sequence given to `dict.update`: the key and value
      it stores, ValueError for a sequence of another length, TypeError for
      an element that is no sequence or whose key is unhashable. */
  function UpdatePair(e: Value): (r: Result<(string, Value)>)
    ensures r.Ok? <==> IsPair(e)
    ensures (e.Null? || e.Bool? || e.Num? || e.Real?) ==> r.Err? && r.error.TypeError?
    ensures (e.Str? && |e.s| != 2) || ((e.List? || e.Tuple?) && |e.items| != 2) || (e.Obj? && |e.fields| != 2) ==>
              r.Err? && r.error.ValueError?
    ensures (e.List? || e.Tuple?) && |e.items| == 2 && !Hashable(e.items[0]) ==> r.Err? && r.error.TypeError?
    ensures (e.List? || e.Tuple?) && |e.items| == 2 && e.items[0].Str? ==> r == Ok((e.items[0].s, e.items[1]))
    ensures e.Str? && |e.s| == 2 ==> r == Ok(([e.s[0]], Str([e.s[1]])))
    ensures e.Obj? && |e.fields| == 2 ==> r == Ok((e.fields[0].0, Str(e.fields[1].0)))
  {
    match e
    case Str(s) =>
      if |s| == 2 then Ok(([s[0]], Str([s[1]])))
      else Err(ValueError(UpdateLength))
    case Obj(fields) =>
      if |fields| == 2 then Ok((fields[0].0, Str(fields[1].0)))
      else Err(ValueError(UpdateLength))
    case List(items) => PairOf(items)
    case Tuple(items) => PairOf(items)
    case _ => Err(TypeError("cannot convert dictionary update sequence element to a sequence"))
  }

  /** A list or tuple element: two items, the first a hashable key. */
  function PairOf(items: seq<Value>): (r: Result<(string, Value)>)
    ensures r.Ok? <==> |items| == 2 && items[0].Str?
    ensures |items| != 2 ==> r.Err? && r.error.ValueError?
    ensures |items| == 2 && !items[0].Str? ==> r.Err? && r.error.TypeError?
    ensures r.Ok? ==> r.value == (items[0].s, items[1])
  {
    if |items| != 2 then
      Err(ValueError(UpdateLength))
    else if !Hashable(items[0]) then Err(TypeError("unhashable type"))
    else if !items[0].Str? then Err(TypeError("configuration keys are str"))
    else Ok((items[0].s, items[1]))
  }

  /** The key a pair element stores. */
  function PairKey(e: Value): string
    requires IsPair(e)
  {
    UpdatePair(e).value.0
  }

  /** The value a pair element stores. */
  function PairValue(e: Value): Value
    requires IsPair(e)
  {
    UpdatePair(e).value.1
  }

  /** `acc.update(items)` for a sequence of pairs: each pair stored in turn,
      so the last pair naming a key decides its value; the first bad
      element's error otherwise. */
  function UpdatePairs(items: seq<Value>, acc: Desc): (r: Result<Desc>)
    ensures r.Ok? <==> forall i :: 0 <= i < |items| ==> IsPair(items[i])
    ensures r.Err? ==> exists i :: 0 <= i < |items| && UpdatePair(items[i]) == Err(r.error) &&
                                   forall j :: 0 <= j < i ==> IsPair(items[j])
    ensures r.Ok? ==> forall k :: k in Keys(r.value) <==>
                                  k in Keys(acc) || exists i :: 0 <= i < |items| && PairKey(items[i]) == k
    ensures r.Ok? ==> forall k :: (forall i :: 0 <= i < |items| ==> PairKey(items[i]) != k) ==>
                                  Lookup(r.value, k) == Lookup(acc, k)
    ensures r.Ok? ==> forall i :: 0 <= i < |items| && (forall j :: i < j < |items| ==> PairKey(items[j]) != PairKey(items[i])) ==>
                                  Lookup(r.value, PairKey(items[i])) == Some(PairValue(items[i]))
    decreases |items|
  {
    if |items| == 0 then Ok(acc)
    else
      match UpdatePair(items[0])
      case Err(e) => Err(e)
      case Ok((k, v)) =>
        var rest := UpdatePairs(items[1..], Set(acc, k, v));
        PairsTail(items);
        if rest.Err? then
          PairsErrStep(items, rest.error);
          rest
        else
          PairsKeysStep(items, acc, rest.value);
          PairsKeptStep(items, acc, rest.value);
          PairsLastStep(items, acc, rest.value);
          rest
  }

  lemma PairsTail(items: seq<Value>)
    requires |items| > 0
    ensures forall i :: 1 <= i < |items| ==> items[1..][i - 1] == items[i]
  {
  }

  lemma PairsErrStep(items: seq<Value>, e: PyError)
    requires |items| > 0 && IsPair(items[0])
    requires exists i :: 0 <= i < |items[1..]| && UpdatePair(items[1..][i]) == Err(e) &&
                         forall j :: 0 <= j < i ==> IsPair(items[1..][j])
    ensures exists i :: 0 <= i < |items| && UpdatePair(items[i]) == Err(e) &&
                        forall j :: 0 <= j < i ==> IsPair(items[j])
  {
    var i :| 0 <= i < |items[1..]| && UpdatePair(items[1..][i]) == Err(e) &&
             forall j :: 0 <= j < i ==> IsPair(items[1..][j]);
    assert UpdatePair(items[i + 1]) == Err(e);
    assert forall j :: 0 <= j < i + 1 ==> IsPair(items[j]) by {
      forall j | 0 <= j < i + 1 ensures IsPair(items[j]) {
        if j > 0 { assert items[j] == items[1..][j - 1]; }
      }
    }
  }

  lemma PairsKeysStep(items: seq<Value>, acc: Desc, r: Desc)
    requires |items| > 0 && forall i :: 0 <= i < |items| ==> IsPair(items[i])
    requires forall k :: k in Keys(r) <==>
                         k in Keys(Set(acc, PairKey(items[0]), PairValue(items[0]))) ||
                         exists i :: 0 <= i < |items[1..]| && PairKey(items[1..][i]) == k
    ensures forall k :: k in Keys(r) <==> k in Keys(acc) || exists i :: 0 <= i < |items| && PairKey(items[i]) == k
  {
    forall k ensures k in Keys(r) <==> k in Keys(acc) || exists i :: 0 <= i < |items| && PairKey(items[i]) == k {
      SetKeys(acc, PairKey(items[0]), PairValue(items[0]));
      if exists i :: 0 <= i < |items| && PairKey(items[i]) == k {
        var i :| 0 <= i < |items| && PairKey(items[i]) == k;
        if i > 0 { assert PairKey(items[1..][i - 1]) == k; }
      }
      if exists i :: 0 <= i < |items[1..]| && PairKey(items[1..][i]) == k {
        var i :| 0 <= i < |items[1..]| && PairKey(items[1..][i]) == k;
        assert PairKey(items[i + 1]) == k;
      }
    }
  }

  lemma PairsKeptStep(items: seq<Value>, acc: Desc, r: Desc)
    requires |items| > 0 && forall i :: 0 <= i < |items| ==> IsPair(items[i])
    requires forall k :: (forall i :: 0 <= i < |items[1..]| ==> PairKey(items[1..][i]) != k) ==>
                         Lookup(r, k) == Lookup(Set(acc, PairKey(items[0]), PairValue(items[0])), k)
    ensures forall k :: (forall i :: 0 <= i < |items| ==> PairKey(items[i]) != k) ==> Lookup(r, k) == Lookup(acc, k)
  {
    forall k | forall i :: 0 <= i < |items| ==> PairKey(items[i]) != k
      ensures Lookup(r, k) == Lookup(acc, k)
    {
      assert forall i :: 0 <= i < |items[1..]| ==> PairKey(items[1..][i]) == PairKey(items[i + 1]);
      assert PairKey(items[0]) != k;
    }
  }

  lemma PairsLastStep(items: seq<Value>, acc: Desc, r: Desc)
    requires |items| > 0 && forall i :: 0 <= i < |items| ==> IsPair(items[i])
    requires forall k :: (forall i :: 0 <= i < |items[1..]| ==> PairKey(items[1..][i]) != k) ==>
                         Lookup(r, k) == Lookup(Set(acc, PairKey(items[0]), PairValue(items[0])), k)
    requires forall i :: 0 <= i < |items[1..]| &&
                         (forall j :: i < j < |items[1..]| ==> PairKey(items[1..][j]) != PairKey(items[1..][i])) ==>
                         Lookup(r, PairKey(items[1..][i])) == Some(PairValue(items[1..][i]))
    ensures forall i :: 0 <= i < |items| && (forall j :: i < j < |items| ==> PairKey(items[j]) != PairKey(items[i])) ==>
                        Lookup(r, PairKey(items[i])) == Some(PairValue(items[i]))
  {
    forall i | 0 <= i < |items| && (forall j :: i < j < |items| ==> PairKey(items[j]) != PairKey(items[i]))
      ensures Lookup(r, PairKey(items[i])) == Some(PairValue(items[i]))
    {
      if i == 0 {
        PairsLastFirst(items, acc, r);
      } else {
        PairsLastLater(items, r, i);
      }
    }
  }

  lemma PairsLastFirst(items: seq<Value>, acc: Desc, r: Desc)
    requires |items| > 0 && forall i :: 0 <= i < |items| ==> IsPair(items[i])
    requires forall k :: (forall i :: 0 <= i < |items[1..]| ==> PairKey(items[1..][i]) != k) ==>
                         Lookup(r, k) == Lookup(Set(acc, PairKey(items[0]), PairValue(items[0])), k)
    requires forall j :: 0 < j < |items| ==> PairKey(items[j]) != PairKey(items[0])
    ensures Lookup(r, PairKey(items[0])) == Some(PairValue(items[0]))
  {
    assert forall j :: 0 <= j < |items[1..]| ==> PairKey(items[1..][j]) == PairKey(items[j + 1]);
  }

  lemma PairsLastLater(items: seq<Value>, r: Desc, i: nat)
    requires 0 < i < |items| && forall j :: 0 <= j < |items| ==> IsPair(items[j])
    requires forall i :: 0 <= i < |items[1..]| &&
                         (forall j :: i < j < |items[1..]| ==> PairKey(items[1..][j]) != PairKey(items[1..][i])) ==>
                         Lookup(r, PairKey(items[1..][i])) == Some(PairValue(items[1..][i]))
    requires forall j :: i < j < |items| ==> PairKey(items[j]) != PairKey(items[i])
    ensures Lookup(r, PairKey(items[i])) == Some(PairValue(items[i]))
  {
    var tail := items[1..];
    assert tail[i - 1] == items[i];
    assert forall j :: i - 1 < j < |tail| ==> tail[j] == items[j + 1];
  }

  /** `{}.update(v)` for a loaded value: a dict's fields are copied; any
      other iterable is taken as a sequence of pairs (a str iterates as its
      characters, so only "" passes); anything else is not iterable. */
  function UpdateFrom(v: Value): (r: Result<Desc>)
    ensures v.Obj? ==> r == Ok(v.fields)
    ensures v.Str? ==> (r.Ok? <==> v.s == "") && (r.Ok? ==> r.value == [])
    ensures v.Str? && v.s != "" ==> r.Err? && r.error.ValueError?
    ensures v.List? || v.Tuple? ==> r == UpdatePairs(v.items, [])
    ensures v.List? || v.Tuple? ==> (r.Ok? <==> forall i :: 0 <= i < |v.items| ==> IsPair(v.items[i]))
    ensures v.Null? || v.Bool? || v.Num? || v.Real? ==> r.Err? && r.error.TypeError?
  {
    match v
    case Obj(fields) => Ok(fields)
    case Str(s) =>
      if s == "" then Ok([])
      else
        assert Chars(s)[0] == Str([s[0]]);
        UpdatePairs(Chars(s), [])
    case List(items) => UpdatePairs(items, [])
    case Tuple(items) => UpdatePairs(items, [])
    case _ => Err(TypeError("object is not iterable"))
  }

  /** The robot configurations: the top-level keys whose value contains
      'compatibility', in file order. */
  function RobotConfigs(file: Desc): (r: Result<seq<string>>)
    ensures r.Ok? ==> forall i :: 0 <= i < |file| ==> Contains(file[i].1, Str("compatibility")).Ok?
    ensures r.Ok? ==> forall i :: 0 <= i < |file| ==>
                        (file[i].0 in r.value <== Contains(file[i].1, Str("compatibility")) == Ok(true))
    ensures r.Ok? ==> forall k :: k in r.value ==>
                        exists i :: 0 <= i < |file| && file[i].0 == k && Contains(file[i].1, Str("compatibility")) == Ok(true)
    ensures (exists i :: 0 <= i < |file| && Contains(file[i].1, Str("compatibility")).Err?) ==> r.Err?
    decreases |file|
  {
    if |file| == 0 then Ok([])
    else
      var here :- Contains(file[0].1, Str("compatibility"));
      var rest :- RobotConfigs(file[1..]);
      assert forall i :: 1 <= i < |file| ==> file[1..][i - 1] == file[i];
      var r := (if here then [file[0].0] else []) + rest;
      assert forall k :: k in rest ==> k in r;
      assert forall k :: k in rest ==>
               exists i :: 0 <= i < |file| && file[i].0 == k && Contains(file[i].1, Str("compatibility")) == Ok(true) by {
        forall k | k in rest
          ensures exists i :: 0 <= i < |file| && file[i].0 == k && Contains(file[i].1, Str("compatibility")) == Ok(true)
        {
          var j :| 0 <= j < |file[1..]| && file[1..][j].0 == k && Contains(file[1..][j].1, Str("compatibility")) == Ok(true);
          assert file[j + 1] == file[1..][j];
        }
      }
      Ok(r)
  }

  /** `for subconfig in subconfigs: config[subconfig] = configFile[subconfig]`. */
  function CopySubconfigs(config: Desc, file: Desc, names: seq<Value>): (r: Result<Desc>)
    ensures r.Ok? ==> forall i :: 0 <= i < |names| ==> names[i].Str? && names[i].s in Keys(file)
    ensures r.Ok? ==> forall k :: (forall i :: 0 <= i < |names| ==> names[i] != Str(k)) ==>
                        Lookup(r.value, k) == Lookup(config, k)
    ensures r.Ok? ==> forall i :: 0 <= i < |names| ==> Lookup(r.value, names[i].s) == Lookup(file, names[i].s)
    decreases |names|
  {
    if |names| == 0 then Ok(config)
    else
      var v :- IndexBy(file, names[0]);
      var r :- CopySubconfigs(Set(config, names[0].s, v), file, names[1..]);
      CopyStep(config, file, names, v, r);
      Ok(r)
  }

  /** The step of `CopySubconfigs`: the facts for the remaining names, after
      the first has been copied, give the facts for all of them. */
  lemma CopyStep(config: Desc, file: Desc, names: seq<Value>, v: Value, r: Desc)
    requires |names| > 0 && names[0].Str? && Lookup(file, names[0].s) == Some(v)
    requires forall i :: 1 <= i < |names| ==> names[i].Str? && names[i].s in Keys(file)
    requires forall k :: (forall i :: 1 <= i < |names| ==> names[i] != Str(k)) ==>
               Lookup(r, k) == Lookup(Set(config, names[0].s, v), k)
    requires forall i :: 1 <= i < |names| ==> Lookup(r, names[i].s) == Lookup(file, names[i].s)
    ensures forall i :: 0 <= i < |names| ==> names[i].Str? && names[i].s in Keys(file)
    ensures forall k :: (forall i :: 0 <= i < |names| ==> names[i] != Str(k)) ==> Lookup(r, k) == Lookup(config, k)
    ensures forall i :: 0 <= i < |names| ==> Lookup(r, names[i].s) == Lookup(file, names[i].s)
  {
    var n := names[0].s;
    var mid := Set(config, n, v);
    assert Lookup(r, n) == Lookup(file, n) by {
      if exists i :: 1 <= i < |names| && names[i] == Str(n) {
        var i :| 1 <= i < |names| && names[i] == Str(n);
        assert Lookup(r, names[i].s) == Lookup(file, names[i].s);
      } else {
        assert Lookup(r, n) == Lookup(mid, n);
      }
    }
    forall k | forall i :: 0 <= i < |names| ==> names[i] != Str(k)
      ensures Lookup(r, k) == Lookup(config, k)
    {
      assert names[0] != Str(k);
      assert Lookup(r, k) == Lookup(mid, k);
    }
  }

  /** `__getConfig(configFile, requestedConfig)`: the chosen configuration
      (with its subconfigs and 'compatibility' added) and its name. */
  function GetConfig(file: Value, requested: Option<string>): (r: Result<(Desc, Value)>)
    ensures r.Ok? ==> file.Obj? && "default" in Keys(file.fields) && RobotConfigs(file.fields).Ok?
    ensures r.Ok? && requested.None? ==> r.value.1 == Lookup(file.fields, "default").value
    ensures r.Ok? && requested.Some? ==> r.value.1 == Str(requested.value) &&
                                         requested.value in RobotConfigs(file.fields).value
    ensures (file.Obj? && "default" in Keys(file.fields) && RobotConfigs(file.fields).Ok? && requested.Some? &&
             requested.value !in RobotConfigs(file.fields).value) ==> r.Err? && r.error.AttributeError?
    ensures r.Ok? ==> IndexBy(file.fields, r.value.1).Ok? &&
                      Index(IndexBy(file.fields, r.value.1).value, "compatibility").Ok? &&
                      Lookup(r.value.0, "compatibility") == Some(Index(IndexBy(file.fields, r.value.1).value, "compatibility").value)
  {
    var default :- Index(file, "default");
    var fields := file.fields;
    var robotConfigs :- RobotConfigs(fields);
    var (chosen, name) :-
      if requested.None? then
        var c :- IndexBy(fields, default);
        Ok((c, default))
      else if requested.value in robotConfigs then
        var c :- Get(fields, requested.value, requested.value);
        Ok((c, Str(requested.value)))
      else Err(AttributeError("Requested config '" + requested.value + "' could not be found"));
    var config :- UpdateFrom(chosen);
    var config' :-
      if "subconfigs" in Keys(config) then
        var names :- Elements(Lookup(config, "subconfigs").value);
        CopySubconfigs(config, fields, names)
      else Ok(config);
    var source :- IndexBy(fields, name);
    var compat :- Index(source, "compatibility");
    Ok((Set(config', "compatibility", compat), name))
  }

  /** A chosen configuration that is an empty list passes the update as an
      empty dict; the start-up then fails reading its 'compatibility', with
      TypeError. */
  lemma EmptyListConfigFailsLater(name: string)
    requires name != "default"
    ensures UpdateFrom(List([])) == Ok([])
    ensures GetConfig(Obj([("default", Str(name)), (name, List([]))]), None).Err?
    ensures GetConfig(Obj([("default", Str(name)), (name, List([]))]), None).error.TypeError?
  {
    var fields := [("default", Str(name)), (name, List([]))];
    assert Keys(fields) == ["default", name];
    assert fields[1..] == [(name, List([]))];
    assert fields[1..][1..] == [];
    assert Contains(Str(name), Str("compatibility")).Ok?;
    assert RobotConfigs(fields[1..]).Ok?;
    assert RobotConfigs(fields).Ok?;
    assert IndexBy(fields, Str(name)) == Ok(List([]));
  }

  /** `__extractSubsystems`: entries for which `'subsystem' in data` (asked
      first, of any value) holds and that are dicts, indexed by their
      'subsystem' value; a later entry with the same name wins. */
  function ExtractSubsystems(info: Desc, acc: Dict<Value, Value>): (r: Result<Dict<Value, Value>>)
    ensures r.Ok? ==> forall i :: 0 <= i < |info| && info[i].1.Obj? && "subsystem" in Keys(info[i].1.fields) ==>
                        Lookup(info[i].1.fields, "subsystem").value in Keys(r.value)
    ensures r.Ok? ==> forall k :: k in Keys(acc) ==> k in Keys(r.value)
    decreases |info|
  {
    if |info| == 0 then Ok(acc)
    else
      var data := info[0].1;
      var has :- Contains(data, Str("subsystem"));
      var acc' :-
        if has && data.Obj? then
          var name := Lookup(data.fields, "subsystem").value;
          if !Hashable(name) then Err(TypeError("unhashable type"))
          else Ok(Set(acc, name, data))
        else Ok(acc);
      var r :- ExtractSubsystems(info[1..], acc');
      assert forall i :: 1 <= i < |info| ==> info[1..][i - 1] == info[i];
      Ok(r)
  }

  /** Entry `i` of `info` is a dict whose 'subsystem' value is `k`. */
  ghost predicate Names(info: Desc, i: int, k: Value) {
    0 <= i < |info| && info[i].1.Obj? && Lookup(info[i].1.fields, "subsystem") == Some(k)
  }

  /** Entry `i` is the last entry of `info` naming `k`. */
  ghost predicate LastNaming(info: Desc, i: int, k: Value) {
    Names(info, i, k) && forall j :: i < j < |info| ==> !Names(info, j, k)
  }

  /** An entry the extraction passes: `'subsystem' in data` is defined for it,
      and a dict's 'subsystem' value can be a key. */
  ghost predicate Extractable(data: Value) {
    !(data.Null? || data.Bool? || data.Num? || data.Real?) &&
    (data.Obj? && "subsystem" in Keys(data.fields) ==> Hashable(Lookup(data.fields, "subsystem").value))
  }

  /** The extraction succeeds iff every entry is extractable. */
  lemma {:induction false} ExtractSubsystemsOk(info: Desc, acc: Dict<Value, Value>)
    ensures ExtractSubsystems(info, acc).Ok? <==> forall i :: 0 <= i < |info| ==> Extractable(info[i].1)
    decreases |info|
  {
    if |info| > 0 {
      var data := info[0].1;
      var tail := info[1..];
      assert forall i :: 1 <= i < |info| ==> tail[i - 1] == info[i];
      if Extractable(data) {
        var named := data.Obj? && "subsystem" in Keys(data.fields);
        var acc' := if named then Set(acc, Lookup(data.fields, "subsystem").value, data) else acc;
        assert ExtractSubsystems(info, acc) == ExtractSubsystems(tail, acc');
        ExtractSubsystemsOk(tail, acc');
      }
    }
  }

  /** A successful extraction maps each named subsystem to the LAST entry
      naming it, and every other key keeps its value in `acc` (so, from an
      empty `acc`, no other key appears). */
  lemma {:induction false} ExtractSubsystemsContents(info: Desc, acc: Dict<Value, Value>)
    ensures ExtractSubsystems(info, acc).Ok? ==>
              forall i, k :: LastNaming(info, i, k) ==> Lookup(ExtractSubsystems(info, acc).value, k) == Some(info[i].1)
    ensures ExtractSubsystems(info, acc).Ok? ==>
              forall k :: (forall i :: 0 <= i < |info| ==> !Names(info, i, k)) ==>
                Lookup(ExtractSubsystems(info, acc).value, k) == Lookup(acc, k)
    decreases |info|
  {
    if |info| > 0 && ExtractSubsystems(info, acc).Ok? {
      var data := info[0].1;
      var tail := info[1..];
      var named := data.Obj? && "subsystem" in Keys(data.fields);
      var acc' := if named then Set(acc, Lookup(data.fields, "subsystem").value, data) else acc;
      assert ExtractSubsystems(info, acc) == ExtractSubsystems(tail, acc');
      ExtractSubsystemsContents(tail, acc');
      ExtractStep(info, acc, acc', ExtractSubsystems(tail, acc').value);
    }
  }

  /** One step of `ExtractSubsystemsContents`: the facts for the tail and the
      first entry's update give the facts for the whole list. */
  lemma ExtractStep(info: Desc, acc: Dict<Value, Value>, acc': Dict<Value, Value>, r: Dict<Value, Value>)
    requires |info| > 0
    requires acc' == if info[0].1.Obj? && "subsystem" in Keys(info[0].1.fields)
                     then Set(acc, Lookup(info[0].1.fields, "subsystem").value, info[0].1) else acc
    requires forall i, k :: LastNaming(info[1..], i, k) ==> Lookup(r, k) == Some(info[1..][i].1)
    requires forall k :: (forall i :: 0 <= i < |info[1..]| ==> !Names(info[1..], i, k)) ==> Lookup(r, k) == Lookup(acc', k)
    ensures forall i, k :: LastNaming(info, i, k) ==> Lookup(r, k) == Some(info[i].1)
    ensures forall k :: (forall i :: 0 <= i < |info| ==> !Names(info, i, k)) ==> Lookup(r, k) == Lookup(acc, k)
  {
    var tail := info[1..];
    forall i, k | LastNaming(info, i, k) ensures Lookup(r, k) == Some(info[i].1) {
      if i > 0 {
        assert tail[i - 1] == info[i];
        forall j | i - 1 < j < |tail| ensures !Names(tail, j, k) {
          assert tail[j] == info[j + 1];
          assert !Names(info, j + 1, k);
        }
        assert LastNaming(tail, i - 1, k);
      } else {
        forall j | 0 <= j < |tail| ensures !Names(tail, j, k) {
          assert tail[j] == info[j + 1];
          assert !Names(info, j + 1, k);
        }
      }
    }
    forall k | (forall i :: 0 <= i < |info| ==> !Names(info, i, k)) ensures Lookup(r, k) == Lookup(acc, k) {
      forall j | 0 <= j < |tail| ensures !Names(tail, j, k) {
        assert tail[j] == info[j + 1];
        assert !Names(info, j + 1, k);
      }
      assert !Names(info, 0, k);
    }
  }

  /** Of two entries naming the same subsystem, the later is kept. */
  lemma LaterSubsystemWins(k1: string, k2: string, name: string, d1: Desc, d2: Desc)
    requires Lookup(d1, "subsystem") == Some(Str(name)) && Lookup(d2, "subsystem") == Some(Str(name))
    ensures ExtractSubsystems([(k1, Obj(d1)), (k2, Obj(d2))], []).Ok?
    ensures Lookup(ExtractSubsystems([(k1, Obj(d1)), (k2, Obj(d2))], []).value, Str(name)) == Some(Obj(d2))
  {
    var info := [(k1, Obj(d1)), (k2, Obj(d2))];
    var a1 := Set<Value, Value>([], Str(name), Obj(d1));
    assert ExtractSubsystems(info[1..], a1) == Ok(Set(a1, Str(name), Obj(d2)));
  }

  /** A mapper after `__init__`. */
  datatype Mapper = Mapper(currentConfig: Value, configCompat: Value, subsystems: Dict<Value, Value>)

  /** `ConfigMapper(fileName, config)` for the loaded file. */
  function NewMapper(file: Value, requested: Option<string>): (r: Result<Mapper>)
    ensures r.Ok? ==> GetConfig(file, requested).Ok? &&
                      Lookup(GetConfig(file, requested).value.0, "compatibility") == Some(r.value.configCompat) &&
                      r.value.currentConfig == GetConfig(file, requested).value.1
  {
    var (config, name) :- GetConfig(file, requested);
    var compat := Lookup(config, "compatibility").value;
    var subsystems :- ExtractSubsystems(config, []);
    Ok(Mapper(name, compat, subsystems))
  }

  /** `getSubsystem`: an unknown name is an AttributeError, and asking with
      an unhashable value is a TypeError from the `in` test. */
  function GetSubsystem(m: Mapper, name: Value): (r: Result<Value>)
    ensures !Hashable(name) ==> r.Err? && r.error.TypeError?
    ensures Hashable(name) && name in Keys(m.subsystems) ==> r == Ok(Lookup(m.subsystems, name).value)
    ensures Hashable(name) && name !in Keys(m.subsystems) ==> r.Err? && r.error.AttributeError?
  {
    if !Hashable(name) then Err(TypeError("unhashable type"))
    else match Lookup(m.subsystems, name)
      case Some(v) => Ok(v)
      case None => Err(AttributeError("Subsystem '" + PyStr(name) + "' not found, unable to retrieve."))
  }

  /** `getGroupDict` as written: the subsystem's group search, which asks
      every entry for 'groups'. Where it succeeds on a dict subsystem it
      finds what the corrected search finds. */
  function GetGroupDict(m: Mapper, name: Value, groupName: Value): (r: Result<Desc>)
    ensures !Hashable(name) ==> r.Err? && r.error.TypeError?
    ensures Hashable(name) && name !in Keys(m.subsystems) ==> r.Err? && r.error.AttributeError?
    ensures r.Ok? ==> name in Keys(m.subsystems) && DistinctKeys(r.value)
    ensures r.Ok? && Lookup(m.subsystems, name).value.Obj? && |Lookup(m.subsystems, name).value.fields| > 0 ==>
              "groups" !in Keys(r.value)
    ensures r.Ok? && Lookup(m.subsystems, name).value.Obj? ==> r == GetGroupDictFixed(m, name, groupName)
  {
    var sub :- GetSubsystem(m, name);
    var r := GroupDicts.SubsystemDicts(sub, groupName, false);
    if sub.Obj? && r.Ok? then
      GroupDicts.WrittenAgreesWithFixed(sub.fields, groupName);
      r
    else r
  }

  /** `getGroupDict` with the corrected search: a dict subsystem none of
      whose visited entries names the group gives an empty dict. */
  function GetGroupDictFixed(m: Mapper, name: Value, groupName: Value): (r: Result<Desc>)
    ensures !Hashable(name) ==> r.Err? && r.error.TypeError?
    ensures Hashable(name) && name !in Keys(m.subsystems) ==> r.Err? && r.error.AttributeError?
    ensures r.Ok? ==> name in Keys(m.subsystems) && DistinctKeys(r.value)
    ensures (Hashable(name) && name in Keys(m.subsystems) && Lookup(m.subsystems, name).value.Obj? &&
             GroupDicts.NoneSelected(Lookup(m.subsystems, name).value.fields, groupName)) ==> r == Ok([])
  {
    var sub :- GetSubsystem(m, name);
    if sub.Obj? then
      GroupDicts.FixedNoneSelectedIsEmpty(sub.fields, groupName);
      GroupDicts.SubsystemDicts(sub, groupName, true)
    else GroupDicts.SubsystemDicts(sub, groupName, true)
  }

  /** `[x.lower() for x in compatString]`: every element must be a string. */
  function LowerAll(compatString: Value): (r: Result<seq<string>>)
    ensures r.Ok? ==> Elements(compatString).Ok? && |r.value| == |Elements(compatString).value|
    ensures r.Ok? ==> forall i :: 0 <= i < |r.value| ==>
                        Elements(compatString).value[i].Str? && r.value[i] == Strings.Lower(Elements(compatString).value[i].s)
  {
    var elems :- Elements(compatString);
    LowerEach(elems)
  }

  function LowerEach(vs: seq<Value>): (r: Result<seq<string>>)
    ensures r.Ok? <==> forall i :: 0 <= i < |vs| ==> vs[i].Str?
    ensures r.Ok? ==> |r.value| == |vs| && forall i :: 0 <= i < |vs| ==> r.value[i] == Strings.Lower(vs[i].s)
    decreases |vs|
  {
    if |vs| == 0 then Ok([])
    else if !vs[0].Str? then Err(AttributeError("lower"))
    else
      var rest := LowerEach(vs[1..]);
      assert forall i :: 1 <= i < |vs| ==> vs[1..][i - 1] == vs[i];
      match rest
      case Err(e) => Err(e)
      case Ok(lowered) => Ok([Strings.Lower(vs[0].s)] + lowered)
  }

  /** `checkCompatibility(compatString)`: true iff the configuration's
      compatibility is "all", "all" is among the lowered names, or the
      compatibility (not lowered) is among them. */
  function CheckCompatibility(m: Mapper, compatString: Value): (r: Result<bool>)
    ensures r.Ok? <==> LowerAll(compatString).Ok?
    ensures r.Ok? ==> (r.value <==> m.configCompat == Str("all") || "all" in LowerAll(compatString).value ||
                                    (m.configCompat.Str? && m.configCompat.s in LowerAll(compatString).value))
  {
    var names :- LowerAll(compatString);
    Ok(m.configCompat == Str("all") || "all" in names || (m.configCompat.Str? && m.configCompat.s in names))
  }

  /** The names are lowered but the configuration's compatibility is not: a
      configuration "Doof" matches no component. */
  lemma UppercaseCompatibilityNeverMatches(m: Mapper, names: seq<string>)
    requires m.configCompat == Str("Doof")
    requires forall i :: 0 <= i < |names| ==> Strings.Lower(names[i]) != "all"
    ensures CheckCompatibility(m, List(StrValues(names))) == Ok(false)
  {
    var vs := StrValues(names);
    var lowered := LowerEach(vs).value;
    assert LowerAll(List(vs)) == Ok(lowered);
    forall i | 0 <= i < |lowered| ensures lowered[i] != "Doof" && lowered[i] != "all" {
      LowerIsNotCapitalised(names[i]);
    }
    assert "Doof" !in lowered && "all" !in lowered;
    assert CheckCompatibility(m, List(vs)) == Ok(m.configCompat == Str("all") || "all" in lowered || (m.configCompat.Str? && m.configCompat.s in lowered));
  }

  lemma LowerIsNotCapitalised(s: string)
    ensures Strings.Lower(s) != "Doof"
  {
    var l := Strings.Lower(s);
    if |l| == 4 {
      assert !Strings.IsUpper(l[0]);
      assert Strings.IsUpper('D');
    }
  }

  /** `findConfig(use_encoding, strict)` after reading the marker file's
      first line (`None` when it cannot be read): strip, or with
      `use_encoding` off keep only the letters a–z after lowering. With
      `use_encoding` on, an empty stripped line has no detected encoding,
      and `None.lower()` is an AttributeError. Otherwise an empty result is a
      SyntaxError when strict and becomes None when not, which the following
      character test cannot iterate. */
  function FindConfigAsWritten(line: Option<string>, useEncoding: bool, strict: bool): (r: Result<Option<string>>)
    ensures line.None? ==> r == (if strict then Err(FileNotFoundError("RobotConfig")) else Ok(None))
    ensures line.Some? && CleanText(line.value, useEncoding) == "" ==>
              r.Err? && (if useEncoding then r.error.AttributeError?
                         else if strict then r.error.SyntaxError? else r.error.TypeError?)
    ensures r.Ok? && line.Some? ==> r.value.Some? && r.value.value != "" &&
                                    forall i :: 0 <= i < |r.value.value| ==> Strings.IsLowerLetter(r.value.value[i])
  {
    match line
    case None => if strict then Err(FileNotFoundError("RobotConfig")) else Ok(None)
    case Some(l) =>
      var text := CleanText(l, useEncoding);
      if text == "" then
        if useEncoding then Err(AttributeError("'NoneType' object has no attribute 'lower'"))
        else if strict then Err(SyntaxError("Config requested in unreadable"))
        else Err(TypeError("'NoneType' object is not iterable"))
      else Checked(text)
  }

  /** The text the marker line yields before the checks. */
  function CleanText(line: string, useEncoding: bool): (r: string)
    ensures !useEncoding ==> forall i :: 0 <= i < |r| ==> Strings.IsLowerLetter(r[i])
  {
    var stripped := Strings.Strip(line, Strings.Whitespace);
    if useEncoding then stripped else KeepLetters(stripped)
  }

  /** The character loop of the `use_encoding=False` path. */
  function KeepLetters(s: string): (r: string)
    ensures forall i :: 0 <= i < |r| ==> Strings.IsLowerLetter(r[i])
    ensures |r| <= |s|
    ensures (forall i :: 0 <= i < |s| ==> Strings.IsLowerLetter(s[i])) ==> r == s
  {
    if |s| == 0 then ""
    else
      var c := Strings.LowerChar(s[0]);
      if Strings.IsLowerLetter(c) then [c] + KeepLetters(s[1..]) else KeepLetters(s[1..])
  }

  /** A non-empty text: a SyntaxError for any non-letter, else lowered. */
  function Checked(text: string): (r: Result<Option<string>>)
    requires text != ""
    ensures (exists i :: 0 <= i < |text| && !Strings.IsAlpha(text[i])) <==> r.Err?
    ensures r.Err? ==> r.error.SyntaxError?
    ensures r.Ok? ==> r == Ok(Some(Strings.Lower(text)))
    ensures r.Ok? ==> forall i :: 0 <= i < |r.value.value| ==> Strings.IsLowerLetter(r.value.value[i])
  {
    if exists i :: 0 <= i < |text| && !Strings.IsAlpha(text[i]) then
      Err(SyntaxError("Config '" + text + "' has special character(s) which are disallowed."))
    else Ok(Some(Strings.Lower(text)))
  }

  /** On the `use_encoding=False` path the special-character check cannot
      fire: the text holds letters only. */
  lemma NoSpecialCharactersWithoutEncoding(line: string, strict: bool)
    requires CleanText(line, false) != ""
    ensures FindConfigAsWritten(Some(line), false, strict).Ok?
  {
    var text := CleanText(line, false);
    assert forall i :: 0 <= i < |text| ==> Strings.IsAlpha(text[i]);
  }

  /** `findConfig` as evidently intended: an unreadable marker gives None
      when not strict and a SyntaxError when strict, with or without the
      encoding. */
  function FindConfig(line: Option<string>, useEncoding: bool, strict: bool): (r: Result<Option<string>>)
    ensures line.Some? && CleanText(line.value, useEncoding) == "" && !strict ==> r == Ok(None)
    ensures line.Some? && CleanText(line.value, useEncoding) == "" && strict ==> r.Err? && r.error.SyntaxError?
    ensures line.Some? && CleanText(line.value, useEncoding) != "" ==> r == FindConfigAsWritten(line, useEncoding, strict)
    ensures line.None? ==> r == FindConfigAsWritten(line, useEncoding, strict)
  {
    match line
    case None => if strict then Err(FileNotFoundError("RobotConfig")) else Ok(None)
    case Some(l) =>
      var text := CleanText(l, useEncoding);
      if text == "" then
        if strict then Err(SyntaxError("Config requested in unreadable")) else Ok(None)
      else Checked(text)
  }

  /** The two differ exactly on an empty marker: when not strict the
      written code fails where the corrected one gives None, and with the
      encoding the written code fails with AttributeError even when strict. */
  lemma EmptyMarkerNotStrict(line: string, useEncoding: bool, strict: bool)
    requires CleanText(line, useEncoding) == ""
    ensures FindConfigAsWritten(Some(line), useEncoding, strict).Err?
    ensures !strict ==> FindConfig(Some(line), useEncoding, strict) == Ok(None)
    ensures strict ==> FindConfig(Some(line), useEncoding, strict).Err? &&
                       FindConfig(Some(line), useEncoding, strict).error.SyntaxError?
    ensures useEncoding ==> FindConfigAsWritten(Some(line), useEncoding, strict).error.AttributeError?
  {
  }
}
