/** `__getSubsystemDicts`, written identically in utils/jsonConfigMapper.py and
    utils/configMapper.py: a subsystem's nested dicts searched for the entries
    whose 'groups' list names a group, and those entries merged into one dict
    without their 'groups' key. */
module GroupDicts {
  import opened Wrappers
  import opened Dicts
  import opened Values

  /** `groupName in subsystem[key]["groups"]` for an entry that contains
      'groups': only a dict can be indexed by a string. */
  function InGroups(entry: Value, groupName: Value): (r: Result<bool>)
    ensures entry.Obj? && "groups" in Keys(entry.fields) ==>
              r == Contains(Lookup(entry.fields, "groups").value, groupName)
    ensures !entry.Obj? ==> r.Err? && r.error.TypeError?
  {
    var groups :- Index(entry, "groups");
    Contains(groups, groupName)
  }

  /** `updatedSubsystem.update(subsystem[key])` for a selected entry. */
  function Merge(acc: Desc, entry: Value): (r: Result<Desc>)
    ensures entry.Obj? ==> r == Ok(Update(acc, entry.fields))
    ensures r.Ok? && DistinctKeys(acc) ==> DistinctKeys(r.value)
  {
    match entry
    case Obj(fields) =>
      UpdateKeepsDistinct(acc, fields);
      Ok(Update(acc, fields))
    case _ => Err(TypeError("cannot convert sequence element to a dict"))
  }

  /** One pass of the loop body for the entry at `i`, as written: recurse into
      a dict when the subsystem itself has no 'groups', test `'groups' in` the
      entry whatever it is, merge a selected entry, and drop 'groups'. */
  function Collect(sub: Desc, groupName: Value): (r: Result<Desc>)
    ensures r.Ok? ==> DistinctKeys(r.value)
    ensures r.Ok? && |sub| > 0 ==> "groups" !in Keys(r.value)
    decreases Obj(sub), 1
  {
    Loop(sub, groupName, 0, [])
  }

  function Loop(sub: Desc, groupName: Value, i: nat, acc: Desc): (r: Result<Desc>)
    requires i <= |sub|
    ensures r.Ok? && DistinctKeys(acc) ==> DistinctKeys(r.value)
    ensures r.Ok? && DistinctKeys(acc) && (i < |sub| || "groups" !in Keys(acc)) ==> "groups" !in Keys(r.value)
    ensures r.Ok? && i == |sub| ==> r.value == acc
    decreases Obj(sub), 0, |sub| - i
  {
    if i == |sub| then Ok(acc)
    else
      var v := sub[i].1;
      var acc1 :- if v.Obj? && "groups" !in Keys(sub) then
                    var inner :- Collect(v.fields, groupName);
                    UpdateKeepsDistinct(acc, inner);
                    Ok(Update(acc, inner))
                  else Ok(acc);
      var hasGroups :- Contains(v, Str("groups"));
      var selected :- if hasGroups then InGroups(v, groupName) else Ok(false);
      var acc2 :- if selected then Merge(acc1, v) else Ok(acc1);
      RemoveKeepsDistinctIf(acc2, "groups");
      Loop(sub, groupName, i + 1, Remove(acc2, "groups"))
  }

  /** The loop body as evidently intended: only dict entries are asked for
      'groups'. */
  function CollectFixed(sub: Desc, groupName: Value): (r: Result<Desc>)
    ensures r.Ok? ==> DistinctKeys(r.value)
    ensures r.Ok? && |sub| > 0 ==> "groups" !in Keys(r.value)
    decreases Obj(sub), 1
  {
    LoopFixed(sub, groupName, 0, [])
  }

  function LoopFixed(sub: Desc, groupName: Value, i: nat, acc: Desc): (r: Result<Desc>)
    requires i <= |sub|
    ensures r.Ok? && DistinctKeys(acc) ==> DistinctKeys(r.value)
    ensures r.Ok? && DistinctKeys(acc) && (i < |sub| || "groups" !in Keys(acc)) ==> "groups" !in Keys(r.value)
    ensures r.Ok? && i == |sub| ==> r.value == acc
    ensures r.Ok? ==> forall k :: k in Keys(acc) && k != "groups" ==> k in Keys(r.value)
    decreases Obj(sub), 0, |sub| - i
  {
    if i == |sub| then Ok(acc)
    else
      var v := sub[i].1;
      var acc1 :- if v.Obj? && "groups" !in Keys(sub) then
                    var inner :- CollectFixed(v.fields, groupName);
                    UpdateKeepsDistinct(acc, inner);
                    Ok(Update(acc, inner))
                  else Ok(acc);
      var selected :- if v.Obj? && "groups" in Keys(v.fields) then InGroups(v, groupName) else Ok(false);
      var acc2 := if selected then UpdateKeepsDistinct(acc1, v.fields); Update(acc1, v.fields) else acc1;
      RemoveKeepsDistinctIf(acc2, "groups");
      LoopFixed(sub, groupName, i + 1, Remove(acc2, "groups"))
  }

  /** `subsystem[key]` on a list or tuple subsystem: an int or bool index,
      a negative one counting from the end. */
  function ItemAt(items: seq<Value>, key: Value): (r: Result<Value>)
    ensures r.Ok? <==> (key.Num? && -|items| <= key.n < |items|) || (key.Bool? && (if key.b then 1 else 0) < |items|)
    ensures r.Ok? ==> r.value in items
    ensures key.Num? && 0 <= key.n < |items| ==> r == Ok(items[key.n])
    ensures key.Num? && -|items| <= key.n < 0 ==> r == Ok(items[key.n + |items|])
    ensures !(key.Num? || key.Bool?) ==> r.Err? && r.error.TypeError?
  {
    match key
    case Num(n) =>
      if 0 <= n < |items| then Ok(items[n])
      else if -|items| <= n < 0 then Ok(items[n + |items|])
      else Err(IndexError("list index out of range"))
    case Bool(b) =>
      var n := if b then 1 else 0;
      if n < |items| then Ok(items[n]) else Err(IndexError("list index out of range"))
    case _ => Err(TypeError("list indices must be integers or slices"))
  }

  /** The same loop over a list or tuple subsystem: `for key in subsystem`
      yields the elements, and `subsystem[key]` indexes the list by them. */
  function ItemsLoop(container: Value, groupName: Value, fixed: bool, i: nat, acc: Desc): (r: Result<Desc>)
    requires (container.List? || container.Tuple?) && i <= |container.items|
    ensures r.Ok? && DistinctKeys(acc) ==> DistinctKeys(r.value)
    ensures r.Ok? && DistinctKeys(acc) && (i < |container.items| || "groups" !in Keys(acc)) ==> "groups" !in Keys(r.value)
    decreases container, 0, |container.items| - i
  {
    var items := container.items;
    if i == |items| then Ok(acc)
    else
      var v :- ItemAt(items, items[i]);
      var acc1 :- if v.Obj? && Str("groups") !in items then
                    var inner :- if fixed then CollectFixed(v.fields, groupName) else Collect(v.fields, groupName);
                    UpdateKeepsDistinct(acc, inner);
                    Ok(Update(acc, inner))
                  else Ok(acc);
      var hasGroups :- if fixed then Ok(v.Obj? && "groups" in Keys(v.fields)) else Contains(v, Str("groups"));
      var selected :- if hasGroups then InGroups(v, groupName) else Ok(false);
      var acc2 :- if selected then Merge(acc1, v) else Ok(acc1);
      RemoveKeepsDistinctIf(acc2, "groups");
      ItemsLoop(container, groupName, fixed, i + 1, Remove(acc2, "groups"))
  }

  /** `__getSubsystemDicts(subsystem, groupName)` for whatever `getSubsystem`
      returned, as written or (`fixed`) asking only dict entries for 'groups':
      a dict is searched; an empty str, list or tuple gives an empty dict; a
      non-empty str fails on `subsystem[key]`, and `None`, a bool or a number
      is not iterable. */
  function SubsystemDicts(subsystem: Value, groupName: Value, fixed: bool): (r: Result<Desc>)
    ensures subsystem.Obj? && !fixed ==> r == Collect(subsystem.fields, groupName)
    ensures subsystem.Obj? && fixed ==> r == CollectFixed(subsystem.fields, groupName)
    ensures subsystem == Str("") || subsystem == List([]) || subsystem == Tuple([]) ==> r == Ok([])
    ensures (subsystem.Null? || subsystem.Bool? || subsystem.Num? || subsystem.Real? ||
             (subsystem.Str? && |subsystem.s| > 0)) ==> r.Err? && r.error.TypeError?
    ensures r.Ok? ==> DistinctKeys(r.value)
    ensures r.Ok? && subsystem.Obj? && |subsystem.fields| > 0 ==> "groups" !in Keys(r.value)
  {
    match subsystem
    case Obj(fields) => if fixed then CollectFixed(fields, groupName) else Collect(fields, groupName)
    case List(_) => ItemsLoop(subsystem, groupName, fixed, 0, [])
    case Tuple(_) => ItemsLoop(subsystem, groupName, fixed, 0, [])
    case Str(s) => if |s| == 0 then Ok([]) else Err(TypeError("string indices must be integers"))
    case _ => Err(TypeError("object is not iterable"))
  }

  /** Every field but 'groups' of an entry selected by its group reaches
      the corrected search's result. */
  lemma FixedKeepsSelectedFields(sub: Desc, groupName: Value, i: nat, k: string)
    requires i < |sub| && sub[i].1.Obj? && "groups" in Keys(sub[i].1.fields)
    requires InGroups(sub[i].1, groupName) == Ok(true)
    requires k in Keys(sub[i].1.fields) && k != "groups"
    requires CollectFixed(sub, groupName).Ok?
    ensures k in Keys(CollectFixed(sub, groupName).value)
  {
    SelectedFieldReached(sub, groupName, i, k, 0, []);
  }

  lemma {:induction false} SelectedFieldReached(sub: Desc, groupName: Value, i: nat, k: string, j: nat, acc: Desc)
    requires j <= i < |sub| && sub[i].1.Obj? && "groups" in Keys(sub[i].1.fields)
    requires InGroups(sub[i].1, groupName) == Ok(true)
    requires k in Keys(sub[i].1.fields) && k != "groups"
    requires LoopFixed(sub, groupName, j, acc).Ok?
    ensures k in Keys(LoopFixed(sub, groupName, j, acc).value)
    decreases i - j
  {
    var v := sub[j].1;
    var acc1 := if v.Obj? && "groups" !in Keys(sub) then
                  Update(acc, CollectFixed(v.fields, groupName).value)
                else acc;
    var selected := if v.Obj? && "groups" in Keys(v.fields) then InGroups(v, groupName).value else false;
    var acc2 := if selected then Update(acc1, v.fields) else acc1;
    assert LoopFixed(sub, groupName, j, acc) == LoopFixed(sub, groupName, j + 1, Remove(acc2, "groups"));
    if j < i {
      SelectedFieldReached(sub, groupName, i, k, j + 1, Remove(acc2, "groups"));
    } else {
      assert k in Keys(acc2);
      assert k in Keys(Remove(acc2, "groups"));
    }
  }

  /** Wherever the search as written succeeds, it finds what the corrected
      search finds: the two differ only in failing. */
  lemma {:induction false} WrittenAgreesWithFixed(sub: Desc, groupName: Value)
    requires Collect(sub, groupName).Ok?
    ensures CollectFixed(sub, groupName) == Collect(sub, groupName)
    decreases Obj(sub), 1
  {
    LoopAgrees(sub, groupName, 0, []);
  }

  lemma {:induction false} LoopAgrees(sub: Desc, groupName: Value, i: nat, acc: Desc)
    requires i <= |sub| && Loop(sub, groupName, i, acc).Ok?
    ensures LoopFixed(sub, groupName, i, acc) == Loop(sub, groupName, i, acc)
    decreases Obj(sub), 0, |sub| - i
  {
    if i < |sub| {
      var v := sub[i].1;
      var acc1 := acc;
      if v.Obj? && "groups" !in Keys(sub) {
        WrittenAgreesWithFixed(v.fields, groupName);
        acc1 := Update(acc, Collect(v.fields, groupName).value);
      }
      var hasGroups := Contains(v, Str("groups")).value;
      assert hasGroups ==> v.Obj? && "groups" in Keys(v.fields);
      var selected := if hasGroups then InGroups(v, groupName).value else false;
      var acc2 := if selected then Update(acc1, v.fields) else acc1;
      assert Loop(sub, groupName, i, acc) == Loop(sub, groupName, i + 1, Remove(acc2, "groups"));
      assert LoopFixed(sub, groupName, i, acc) == LoopFixed(sub, groupName, i + 1, Remove(acc2, "groups"));
      LoopAgrees(sub, groupName, i + 1, Remove(acc2, "groups"));
    }
  }

  /** No entry, at any depth the search visits, names the group. */
  ghost predicate NoneSelected(sub: Desc, groupName: Value)
    decreases Obj(sub)
  {
    forall i :: 0 <= i < |sub| ==>
      (sub[i].1.Obj? && "groups" in Keys(sub[i].1.fields) ==> InGroups(sub[i].1, groupName) == Ok(false)) &&
      (sub[i].1.Obj? && "groups" !in Keys(sub) ==> NoneSelected(sub[i].1.fields, groupName))
  }

  /** When no entry names the group, the corrected search finds nothing. */
  lemma {:induction false} FixedNoneSelectedIsEmpty(sub: Desc, groupName: Value)
    ensures NoneSelected(sub, groupName) ==> CollectFixed(sub, groupName) == Ok([])
    decreases Obj(sub), 1
  {
    if NoneSelected(sub, groupName) {
      NoneSelectedLoop(sub, groupName, 0);
    }
  }

  lemma {:induction false} NoneSelectedLoop(sub: Desc, groupName: Value, j: nat)
    requires j <= |sub| && NoneSelected(sub, groupName)
    ensures LoopFixed(sub, groupName, j, []) == Ok([])
    decreases Obj(sub), 0, |sub| - j
  {
    if j < |sub| {
      var v := sub[j].1;
      if v.Obj? && "groups" !in Keys(sub) {
        FixedNoneSelectedIsEmpty(v.fields, groupName);
        assert Update<string, Value>([], []) == [];
      }
      assert Remove<string, Value>([], "groups") == [];
      NoneSelectedLoop(sub, groupName, j + 1);
    }
  }

  /** Key `k` comes from an entry the search visits that names the group:
      a field of a selected entry, or, below a subsystem without 'groups',
      a key contributed inside one of its dict entries. */
  ghost predicate Contributes(sub: Desc, groupName: Value, k: string)
    decreases Obj(sub)
  {
    exists i :: 0 <= i < |sub| && sub[i].1.Obj? &&
      (("groups" in Keys(sub[i].1.fields) && InGroups(sub[i].1, groupName) == Ok(true) &&
        k in Keys(sub[i].1.fields)) ||
       ("groups" !in Keys(sub) && Contributes(sub[i].1.fields, groupName, k)))
  }

  /** The entry at `i` puts `k` into the loop's accumulator: it is selected
      and holds `k`, or the nested search below it returned `k`. */
  ghost predicate Adds(sub: Desc, groupName: Value, i: nat, k: string)
    requires i < |sub|
  {
    sub[i].1.Obj? &&
    (("groups" in Keys(sub[i].1.fields) && InGroups(sub[i].1, groupName) == Ok(true) &&
      k in Keys(sub[i].1.fields)) ||
     ("groups" !in Keys(sub) && CollectFixed(sub[i].1.fields, groupName).Ok? &&
      k in Keys(CollectFixed(sub[i].1.fields, groupName).value)))
  }

  /** Only entries that name the group contribute to the corrected search:
      every key of its result is a contribution, and never 'groups'. With
      `FixedKeepsSelectedFields` this is the selection property both ways. */
  lemma {:induction false} FixedOnlySelectedFields(sub: Desc, groupName: Value, k: string)
    requires CollectFixed(sub, groupName).Ok? && k in Keys(CollectFixed(sub, groupName).value)
    ensures k != "groups"
    ensures Contributes(sub, groupName, k)
    decreases Obj(sub), 1
  {
    LoopFixedOnly(sub, groupName, 0, [], k);
    var i :| 0 <= i < |sub| && Adds(sub, groupName, i, k);
    var v := sub[i].1;
    if !("groups" in Keys(v.fields) && InGroups(v, groupName) == Ok(true) && k in Keys(v.fields)) {
      FixedOnlySelectedFields(v.fields, groupName, k);
    }
  }

  lemma {:induction false} LoopFixedOnly(sub: Desc, groupName: Value, j: nat, acc: Desc, k: string)
    requires j <= |sub| && LoopFixed(sub, groupName, j, acc).Ok?
    requires k in Keys(LoopFixed(sub, groupName, j, acc).value)
    ensures k in Keys(acc) || exists i :: j <= i < |sub| && Adds(sub, groupName, i, k)
    decreases |sub| - j
  {
    if j < |sub| {
      var acc2 := FixedStep(sub, groupName, j, acc);
      LoopFixedUnfolds(sub, groupName, j, acc);
      LoopFixedOnly(sub, groupName, j + 1, Remove(acc2, "groups"), k);
      if k in Keys(Remove(acc2, "groups")) {
        FixedStepKeys(sub, groupName, j, acc, k);
      }
    }
  }

  /** The accumulator after the loop body for the entry at `j`, before
      'groups' is dropped. */
  ghost function FixedStep(sub: Desc, groupName: Value, j: nat, acc: Desc): Desc
    requires j < |sub|
  {
    var v := sub[j].1;
    var acc1 := if v.Obj? && "groups" !in Keys(sub) && CollectFixed(v.fields, groupName).Ok? then
                  Update(acc, CollectFixed(v.fields, groupName).value)
                else acc;
    if v.Obj? && "groups" in Keys(v.fields) && InGroups(v, groupName) == Ok(true) then Update(acc1, v.fields)
    else acc1
  }

  lemma LoopFixedUnfolds(sub: Desc, groupName: Value, j: nat, acc: Desc)
    requires j < |sub| && LoopFixed(sub, groupName, j, acc).Ok?
    ensures LoopFixed(sub, groupName, j, acc) ==
            LoopFixed(sub, groupName, j + 1, Remove(FixedStep(sub, groupName, j, acc), "groups"))
  {
  }

  lemma FixedStepKeys(sub: Desc, groupName: Value, j: nat, acc: Desc, k: string)
    requires j < |sub|
    requires k in Keys(FixedStep(sub, groupName, j, acc))
    ensures k in Keys(acc) || Adds(sub, groupName, j, k)
  {
  }

  /** As written, a group entry with a numeric field fails: after the entry's
      own 'groups' is found, `'groups' in 1` is asked of the channel. */
  lemma NumericFieldFails(name: string, group: string, other: string)
    requires name != "groups"
    ensures Collect([(name, Obj([("groups", List([Str(group)])), ("channel", Num(1))]))], Str(other)).Err?
  {
    var entry := [("groups", List([Str(group)])), ("channel", Num(1))];
    var top := [(name, Obj(entry))];
    assert Contains(Num(1), Str("groups")).Err?;
    assert Loop(entry, Str(other), 1, []).Err?;
    assert Remove<string, Value>([], "groups") == [];
    assert Loop(entry, Str(other), 0, []).Err?;
    assert Keys(top) == [name];
    assert Loop(top, Str(other), 0, []).Err?;
  }

  /** The corrected search selects that entry by its group and returns its
      fields without 'groups'. */
  lemma FixedSelectsGroupEntry(name: string, group: string)
    requires name != "groups"
    ensures CollectFixed([(name, Obj([("groups", List([Str(group)])), ("channel", Num(1))]))], Str(group))
            == Ok([("channel", Num(1))])
  {
    var entry := [("groups", List([Str(group)])), ("channel", Num(1))];
    var top := [(name, Obj(entry))];
    assert Remove<string, Value>([], "groups") == [];
    assert LoopFixed(entry, Str(group), 2, []) == Ok([]);
    assert LoopFixed(entry, Str(group), 1, []) == Ok([]);
    assert LoopFixed(entry, Str(group), 0, []) == Ok([]);
    assert Keys(top) == [name];
    assert Update<string, Value>([], []) == [];
    assert Keys(entry) == ["groups", "channel"];
    assert InGroups(Obj(entry), Str(group)) == Ok(true);
    assert Set<string, Value>([], "groups", List([Str(group)])) == [entry[0]];
    assert Set([entry[0]], "channel", Num(1)) == entry;
    assert entry[1..] == [entry[1]];
    assert Update(entry, []) == entry;
    assert Update([entry[0]], [entry[1]]) == entry;
    assert Update([], entry) == entry;
    assert Remove(entry, "groups") == [("channel", Num(1))];
    assert CollectFixed(entry, Str(group)) == Ok([]);
    assert LoopFixed(top, Str(group), 1, [("channel", Num(1))]) == Ok([("channel", Num(1))]);
    assert LoopFixed(top, Str(group), 0, []) == Ok([("channel", Num(1))]);
  }

  /** An entry outside the group contributes nothing to the corrected search. */
  lemma FixedSkipsOtherGroups(name: string, group: string, other: string)
    requires name != "groups" && other != group
    ensures CollectFixed([(name, Obj([("groups", List([Str(group)])), ("channel", Num(1))]))], Str(other))
            == Ok([])
  {
    var entry := [("groups", List([Str(group)])), ("channel", Num(1))];
    var top := [(name, Obj(entry))];
    assert Remove<string, Value>([], "groups") == [];
    assert LoopFixed(entry, Str(other), 2, []) == Ok([]);
    assert LoopFixed(entry, Str(other), 1, []) == Ok([]);
    assert LoopFixed(entry, Str(other), 0, []) == Ok([]);
    assert Keys(top) == [name];
    assert Update<string, Value>([], []) == [];
    assert Keys(entry) == ["groups", "channel"];
    assert InGroups(Obj(entry), Str(other)) == Ok(false);
    assert CollectFixed(entry, Str(other)) == Ok([]);
    assert LoopFixed(top, Str(other), 1, []) == Ok([]);
    assert LoopFixed(top, Str(other), 0, []) == Ok([]);
  }
}
