/** `cleanup_components` of utils/robotutil.py: components carry a `robot`
    attribute listing the robots they belong to; the incompatible ones are
    collected over the whole annotation dict and only then deleted from it. */
module RobotUtil {
  import opened Wrappers
  import opened Dicts
  import opened Values

  /** A robot class's annotations: each component's `robot` attribute, `None`
      when it has none. */
  type Annotations = Dict<string, Option<Value>>

  /** Whether one component is kept: `key in compat_robots or "all" in
      compat_robots`, short-circuiting. A missing or falsy `robot` is an
      AttributeError. `key` is `None` where the key is read from an attribute
      that has not been set yet, which is itself an AttributeError. */
  function Keep(cname: string, robots: Option<Value>, key: Option<string>): (r: Result<bool>)
    ensures robots.None? || !Truthy(robots.value) ==> r == Err(AttributeError(cname))
    ensures robots.Some? && Truthy(robots.value) && key.None? ==> r == Err(AttributeError("robot_name"))
    ensures robots.Some? && robots.value.List? && robots.value.items != [] && key.Some? ==>
              r == Ok(Str(key.value) in robots.value.items || Str("all") in robots.value.items)
  {
    match robots
    case None => Err(AttributeError(cname))
    case Some(v) =>
      if !Truthy(v) then Err(AttributeError(cname))
      else
        match key
        case None => Err(AttributeError("robot_name"))
        case Some(k) =>
          var listed :- Contains(v, Str(k));
          if listed then Ok(true) else Contains(v, Str("all"))
  }

  /** The scan: the incompatible names in annotation order; the first error
      stops it. */
  function Scan(anns: Annotations, key: Option<string>): (r: Result<seq<string>>)
    ensures r.Ok? ==> forall i :: 0 <= i < |anns| ==> Keep(anns[i].0, anns[i].1, key).Ok?
    ensures r.Ok? ==> forall i :: 0 <= i < |anns| && Keep(anns[i].0, anns[i].1, key) == Ok(false) ==> anns[i].0 in r.value
    ensures r.Ok? ==> forall n :: n in r.value ==>
                        exists i :: 0 <= i < |anns| && anns[i].0 == n && Keep(anns[i].0, anns[i].1, key) == Ok(false)
    ensures (exists i :: 0 <= i < |anns| && Keep(anns[i].0, anns[i].1, key).Err?) ==> r.Err?
    decreases |anns|
  {
    if |anns| == 0 then Ok([])
    else
      var keep :- Keep(anns[0].0, anns[0].1, key);
      var rest :- Scan(anns[1..], key);
      assert forall i :: 1 <= i < |anns| ==> anns[1..][i - 1] == anns[i];
      var bad := (if keep then [] else [anns[0].0]) + rest;
      assert forall n :: n in rest ==> n in bad;
      assert forall n :: n in rest ==>
               exists i :: 0 <= i < |anns| && anns[i].0 == n && Keep(anns[i].0, anns[i].1, key) == Ok(false) by {
        forall n | n in rest
          ensures exists i :: 0 <= i < |anns| && anns[i].0 == n && Keep(anns[i].0, anns[i].1, key) == Ok(false)
        {
          var j :| 0 <= j < |anns[1..]| && anns[1..][j].0 == n && Keep(anns[1..][j].0, anns[1..][j].1, key) == Ok(false);
          assert anns[j + 1] == anns[1..][j];
        }
      }
      Ok(bad)
  }

  /** `for bad_comp in bad_components: del annotations[bad_comp]`. */
  function RemoveAll(anns: Annotations, bad: seq<string>): (r: Annotations)
    ensures forall k :: k !in bad ==> Lookup(r, k) == Lookup(anns, k)
    ensures DistinctKeys(anns) ==> forall k :: k in bad ==> k !in Keys(r)
    ensures DistinctKeys(anns) ==> DistinctKeys(r)
    decreases |bad|
  {
    if |bad| == 0 then anns
    else
      RemoveKeepsDistinctIf(anns, bad[0]);
      var r := RemoveAll(Remove(anns, bad[0]), bad[1..]);
      assert forall k :: k in bad[1..] ==> k in bad;
      r
  }

  /** `cleanup_components(robot_cls, key=key)` as written: the annotations of
      the class after the call. `get_type_hints` returns a fresh dict, so the
      deletions only touch that local copy, which is then dropped: the call
      fails iff the scan does, and otherwise the class keeps every component. */
  function CleanupComponents(anns: Annotations, key: string): (r: Result<Annotations>)
    ensures r.Ok? <==> Scan(anns, Some(key)).Ok?
    ensures r.Err? ==> r == Err(Scan(anns, Some(key)).error)
    ensures r.Ok? ==> r.value == anns
  {
    var _ :- Scan(anns, Some(key));
    Ok(anns)
  }

  /** The clean-up as evidently intended: the incompatible components are
      deleted from the class's own annotations; if the scan fails nothing has
      been deleted. */
  function CleanupComponentsFixed(anns: Annotations, key: string): (r: Result<Annotations>)
    ensures r.Ok? <==> Scan(anns, Some(key)).Ok?
    ensures r.Ok? && DistinctKeys(anns) ==>
              forall i :: 0 <= i < |anns| ==>
                (anns[i].0 in Keys(r.value) <==> Keep(anns[i].0, anns[i].1, Some(key)) == Ok(true))
    ensures r.Ok? ==> forall k :: k in Keys(r.value) ==> k in Keys(anns)
  {
    var bad :- Scan(anns, Some(key));
    KeptIffNotBad(anns, key, bad);
    RemoveAllShrinks(anns, bad);
    Ok(RemoveAll(anns, bad))
  }

  /** Deleting names never adds one. */
  lemma {:induction false} RemoveAllShrinks(anns: Annotations, bad: seq<string>)
    ensures forall k :: k in Keys(RemoveAll(anns, bad)) ==> k in Keys(anns)
    decreases |bad|
  {
    if |bad| > 0 {
      RemoveAllShrinks(Remove(anns, bad[0]), bad[1..]);
    }
  }

  /** As written, a component listed only for another robot is still on the
      class after the clean-up, where the corrected clean-up removes it. */
  lemma CleanupKeepsIncompatible(anns: Annotations, key: string, i: nat)
    requires DistinctKeys(anns) && i < |anns| && Scan(anns, Some(key)).Ok?
    requires Keep(anns[i].0, anns[i].1, Some(key)) == Ok(false)
    ensures anns[i].0 in Keys(CleanupComponents(anns, key).value)
    ensures anns[i].0 !in Keys(CleanupComponentsFixed(anns, key).value)
  {
    assert CleanupComponents(anns, key) == Ok(anns);
    assert Keys(anns)[i] == anns[i].0;
    var fixed := CleanupComponentsFixed(anns, key);
    assert fixed.Ok?;
    assert anns[i].0 in Keys(fixed.value) <==> Keep(anns[i].0, anns[i].1, Some(key)) == Ok(true);
  }

  /** With distinct annotation names, a name is among the scan's bad ones
      exactly when its component is not kept. */
  lemma KeptIffNotBad(anns: Annotations, key: string, bad: seq<string>)
    requires Scan(anns, Some(key)) == Ok(bad)
    ensures DistinctKeys(anns) ==>
              forall i :: 0 <= i < |anns| ==> (anns[i].0 in Keys(RemoveAll(anns, bad)) <==>
                                               Keep(anns[i].0, anns[i].1, Some(key)) == Ok(true))
  {
    forall i | 0 <= i < |anns| && DistinctKeys(anns)
      ensures anns[i].0 in Keys(RemoveAll(anns, bad)) <==> Keep(anns[i].0, anns[i].1, Some(key)) == Ok(true)
    {
      KeptOne(anns, key, bad, i);
    }
  }

  lemma KeptOne(anns: Annotations, key: string, bad: seq<string>, i: int)
    requires Scan(anns, Some(key)) == Ok(bad) && DistinctKeys(anns) && 0 <= i < |anns|
    ensures anns[i].0 in Keys(RemoveAll(anns, bad)) <==> Keep(anns[i].0, anns[i].1, Some(key)) == Ok(true)
  {
    var n := anns[i].0;
    var k := Keep(n, anns[i].1, Some(key));
    assert k.Ok?;
    if k == Ok(true) {
      assert n in Keys(anns);
      assert Lookup(RemoveAll(anns, bad), n) == Lookup(anns, n);
    } else {
      assert n in bad;
    }
  }

  /** For the usual lists of robot names, a component stays exactly when the
      key or "all" is listed. */
  lemma KeptIffListed(cname: string, names: seq<string>, key: string)
    requires names != []
    ensures Keep(cname, Some(List(StrValues(names))), Some(key)) == Ok(key in names || "all" in names)
  {
    var vs := StrValues(names);
    assert Str(key) in vs <==> key in names by {
      if key in names {
        var i :| 0 <= i < |names| && names[i] == key;
        assert vs[i] == Str(key);
      }
    }
    assert Str("all") in vs <==> "all" in names by {
      if "all" in names {
        var i :| 0 <= i < |names| && names[i] == "all";
        assert vs[i] == Str("all");
      }
    }
  }

  /** An empty `robot` list is not a permission but an error. */
  lemma EmptyRobotListFails(cname: string, key: Option<string>)
    ensures Keep(cname, Some(List([])), key) == Err(AttributeError(cname))
  {
  }
}
