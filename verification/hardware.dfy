/** What every revision of the hardware builder shares: constructor classes seen
    through their class attributes, the object a constructor call produces, the
    `desc.pop("type")` step, the "no arguments for an empty descriptor" rule, the
    item loop that replaces every descriptor of a group by a built object, and the
    compound `group_subsystem` attribute name. */
module Hardware {
  import opened Wrappers
  import opened Dicts
  import opened Values

  /** A constructor class, as the registries read it: its `__type__` and
      `__required_keys__` class attributes (`Null` when absent or None) and the
      number of positional parameters of its `__init__`, `self` included. */
  datatype ClassDecl = ClassDecl(name: string, typeAttr: Value, requiredKeys: Value, positionalArgs: nat)

  /** A hardware object: the constructor that built it and what it was called
      with (`None` for the zero-argument call). Vendor objects are opaque. */
  datatype Built = Built(ctor: string, args: Option<Desc>)

  /** `desc.pop("type", None)`: the type value (`Null` when absent) and the
      descriptor without it. */
  function PopType(desc: Desc): (r: (Value, Desc))
    ensures r.0 == Lookup(desc, "type").GetOr(Null)
    ensures forall k :: k != "type" ==> Lookup(r.1, k) == Lookup(desc, k)
    ensures DistinctKeys(desc) ==> DistinctKeys(r.1) && "type" !in Keys(r.1)
  {
    RemoveKeepsDistinctIf(desc, "type");
    (Lookup(desc, "type").GetOr(Null), Remove(desc, "type"))
  }

  /** `c(desc) if bool(desc) else c()` for the constructor named `ctor`: an
      empty descriptor means a zero-argument call, anything else is passed whole. */
  function Instantiate(ctor: string, desc: Desc): (b: Built)
    ensures b.ctor == ctor
    ensures b.args.None? <==> |desc| == 0
    ensures b.args.Some? ==> b.args.value == desc
  {
    if |desc| > 0 then Built(ctor, Some(desc)) else Built(ctor, None)
  }

  /** The same call for a registered constructor class. */
  function Construct(c: ClassDecl, desc: Desc): (b: Built)
    ensures b.ctor == c.name
    ensures b.args.None? <==> |desc| == 0
    ensures b.args.Some? ==> b.args.value == desc
  {
    Instantiate(c.name, desc)
  }

  /** The attribute name `outer + "_" + inner`. */
  function Compound(outer: string, inner: string): (r: string)
    ensures |r| == |outer| + 1 + |inner|
    ensures r[..|outer|] == outer && r[|outer|] == '_' && r[|outer| + 1..] == inner
  {
    outer + "_" + inner
  }

  /** The attribute name `group_subsystem` for an outer subsystem and an
      inner group, as the factory-driven walks build it. */
  function GroupSubsystem(subsystem: string, group: string): (r: string)
    ensures |r| == |group| + 1 + |subsystem|
    ensures r[..|group|] == group && r[|group|] == '_' && r[|group| + 1..] == subsystem
  {
    Compound(group, subsystem)
  }

  /** Within one outer name, distinct inner names give distinct attributes. */
  lemma {:induction false} CompoundInjective(outer: string, a: string, b: string)
    requires Compound(outer, a) == Compound(outer, b)
    ensures a == b
  {
    calc {
      a;
      Compound(outer, a)[|outer| + 1..];
      Compound(outer, b)[|outer| + 1..];
      b;
    }
  }

  /** The item loop: every value of `items` replaced, in order, by what `build`
      makes of it. The first failure stops the loop and is the loop's failure. */
  function BuildItems<B>(items: Dict<string, Value>, build: Value -> Result<B>): (r: Result<Dict<string, B>>)
    ensures r.Ok? <==> forall i :: 0 <= i < |items| ==> build(items[i].1).Ok?
    ensures r.Ok? ==> Keys(r.value) == Keys(items)
    ensures r.Ok? ==> forall i :: 0 <= i < |items| ==> build(items[i].1) == Ok(r.value[i].1)
    ensures r.Err? ==> exists i :: 0 <= i < |items| && build(items[i].1) == Err(r.error)
                                   && forall j :: 0 <= j < i ==> build(items[j].1).Ok?
  {
    if |items| == 0 then Ok([])
    else match build(items[0].1)
      case Err(e) => Err(e)
      case Ok(b) =>
        match BuildItems(items[1..], build)
        case Err(e) =>
          assert forall i :: 1 <= i < |items| ==> items[1..][i - 1] == items[i];
          Err(e)
        case Ok(rest) =>
          assert forall i :: 1 <= i < |items| ==> items[1..][i - 1] == items[i];
          Ok([(items[0].0, b)] + rest)
  }

  /** `desc.pop(...)` needs a dict: a list's `pop` rejects the default argument
      and other values have no `pop` at all. */
  function AsDesc(v: Value): (r: Result<Desc>)
    ensures r.Ok? <==> v.Obj?
    ensures v.Obj? ==> r.value == v.fields
  {
    match v
    case Obj(fields) => Ok(fields)
    case List(_) => Err(TypeError("pop expected at most 1 argument"))
    case _ => Err(AttributeError("pop"))
  }

  /** The attributes a walk has set on the robot, and the running item count. */
  datatype Injection<B> = Injection(attrs: Dict<string, Dict<string, B>>, total: nat)

  /** The number of items a two-level configuration holds: entries of the
      dicts two levels down. */
  ghost function ItemCount(cfg: Dict<string, Value>): nat {
    if |cfg| == 0 then 0
    else (if cfg[0].1.Obj? then InnerCount(cfg[0].1.fields) else 0) + ItemCount(cfg[1..])
  }

  ghost function InnerCount(inners: Dict<string, Value>): nat {
    if |inners| == 0 then 0
    else (if inners[0].1.Obj? then |inners[0].1.fields| else 0) + InnerCount(inners[1..])
  }

  /** The items one inner entry yields: its factory found, its value taken
      as a dict, and every item built in order. */
  function BuildEntry<B>(outer: string, e: (string, Value), factory: (string, string) -> Result<Value -> Result<B>>)
    : (r: Result<Dict<string, B>>)
    ensures r.Ok? <==> factory(outer, e.0).Ok? && e.1.Obj? &&
                       forall k :: 0 <= k < |e.1.fields| ==> factory(outer, e.0).value(e.1.fields[k].1).Ok?
    ensures r.Ok? ==> Keys(r.value) == Keys(e.1.fields) &&
                      forall k :: 0 <= k < |e.1.fields| ==> factory(outer, e.0).value(e.1.fields[k].1) == Ok(r.value[k].1)
  {
    var build :- factory(outer, e.0);
    var items :- AsDict(e.1);
    BuildItems(items, build)
  }

  /** Every inner entry builds. */
  ghost predicate InnerBuilds<B>(outer: string, inners: Dict<string, Value>,
                                 factory: (string, string) -> Result<Value -> Result<B>>) {
    forall j :: 0 <= j < |inners| ==> BuildEntry(outer, inners[j], factory).Ok?
  }

  /** Every outer value is a dict and every inner entry in it builds: the
      condition under which the walk succeeds. */
  ghost predicate WalkBuilds<B>(cfg: Dict<string, Value>, factory: (string, string) -> Result<Value -> Result<B>>) {
    forall i :: 0 <= i < |cfg| ==> cfg[i].1.Obj? && InnerBuilds(cfg[i].0, cfg[i].1.fields, factory)
  }

  /** `attrs` holds, under the name of each inner entry that neither a later
      inner entry nor a name in `later` sets again, that entry's built items:
      the last assignment to an attribute is the one that stays. */
  ghost predicate InnerSets<B>(outer: string, inners: Dict<string, Value>, key: (string, string) -> string,
                               factory: (string, string) -> Result<Value -> Result<B>>,
                               attrs: Dict<string, Dict<string, B>>, later: seq<string>) {
    forall j :: 0 <= j < |inners| && key(outer, inners[j].0) !in InnerNames(outer, inners[j + 1..], key) &&
                key(outer, inners[j].0) !in later ==>
      BuildEntry(outer, inners[j], factory).Ok? &&
      Lookup(attrs, key(outer, inners[j].0)) == Some(BuildEntry(outer, inners[j], factory).value)
  }

  /** The same for the whole walk: each attribute holds the items of the last
      (outer, inner) pair that names it. */
  ghost predicate WalkSets<B>(cfg: Dict<string, Value>, key: (string, string) -> string,
                              factory: (string, string) -> Result<Value -> Result<B>>,
                              attrs: Dict<string, Dict<string, B>>) {
    forall i :: 0 <= i < |cfg| && cfg[i].1.Obj? ==>
      InnerSets(cfg[i].0, cfg[i].1.fields, key, factory, attrs, WalkNames(cfg[i + 1..], key))
  }

  /** The two-level walk every builder revision performs: for each outer entry,
      for each inner entry, look up the factory, build every item, and set the
      resulting dict as attribute `key(outer, inner)`, counting the items. */
  function Walk<B>(cfg: Dict<string, Value>, key: (string, string) -> string,
                   factory: (string, string) -> Result<Value -> Result<B>>, acc: Injection<B>)
    : (r: Result<Injection<B>>)
    ensures r.Ok? <==> WalkBuilds(cfg, factory)
    ensures r.Ok? ==> r.value.total == acc.total + ItemCount(cfg)
  {
    if |cfg| == 0 then Ok(acc)
    else
      var inners :- AsDict(cfg[0].1);
      var mid :- WalkInner(cfg[0].0, inners, key, factory, acc);
      var r := Walk(cfg[1..], key, factory, mid);
      WalkStep(cfg, factory, acc.total, mid.total, r);
      r
  }

  /** The step of `Walk`: the facts for the rest of the outer entries, after
      the first has been walked, give the facts for all of them. */
  lemma WalkStep<B>(cfg: Dict<string, Value>, factory: (string, string) -> Result<Value -> Result<B>>,
                    before: nat, mid: nat, r: Result<Injection<B>>)
    requires |cfg| > 0 && cfg[0].1.Obj? && InnerBuilds(cfg[0].0, cfg[0].1.fields, factory)
    requires mid == before + InnerCount(cfg[0].1.fields)
    requires r.Ok? <==> WalkBuilds(cfg[1..], factory)
    requires r.Ok? ==> r.value.total == mid + ItemCount(cfg[1..])
    ensures r.Ok? <==> WalkBuilds(cfg, factory)
    ensures r.Ok? ==> r.value.total == before + ItemCount(cfg)
  {
    assert forall i :: 1 <= i < |cfg| ==> cfg[1..][i - 1] == cfg[i];
  }

  /** Every attribute name the walk sets, in order. */
  function WalkNames(cfg: Dict<string, Value>, key: (string, string) -> string): (names: seq<string>)
    ensures forall i, j :: 0 <= i < |cfg| && cfg[i].1.Obj? && 0 <= j < |cfg[i].1.fields| ==>
              key(cfg[i].0, cfg[i].1.fields[j].0) in names
  {
    if |cfg| == 0 then []
    else
      var here := if cfg[0].1.Obj? then InnerNames(cfg[0].0, cfg[0].1.fields, key) else [];
      var rest := WalkNames(cfg[1..], key);
      assert forall i :: 1 <= i < |cfg| ==> cfg[1..][i - 1] == cfg[i];
      here + rest
  }

  /** The attributes set by the walk: the ones there before, and exactly one
      per (outer, inner) pair. */
  lemma {:induction false} WalkAttrs<B>(cfg: Dict<string, Value>, key: (string, string) -> string,
                                        factory: (string, string) -> Result<Value -> Result<B>>, acc: Injection<B>)
    requires Walk(cfg, key, factory, acc).Ok?
    ensures forall k :: k in Keys(Walk(cfg, key, factory, acc).value.attrs) <==>
              (k in Keys(acc.attrs) || k in WalkNames(cfg, key))
  {
    if |cfg| > 0 {
      var mid := WalkInner(cfg[0].0, cfg[0].1.fields, key, factory, acc).value;
      WalkInnerAttrs(cfg[0].0, cfg[0].1.fields, key, factory, acc);
      WalkAttrs(cfg[1..], key, factory, mid);
      assert Walk(cfg, key, factory, acc) == Walk(cfg[1..], key, factory, mid);
    }
  }

  /** What the walk leaves under each attribute: the items of the last pair
      naming it, and under any name it does not set, what was there before. */
  lemma {:induction false} WalkValues<B>(cfg: Dict<string, Value>, key: (string, string) -> string,
                                         factory: (string, string) -> Result<Value -> Result<B>>, acc: Injection<B>)
    requires Walk(cfg, key, factory, acc).Ok?
    ensures WalkSets(cfg, key, factory, Walk(cfg, key, factory, acc).value.attrs)
    ensures forall k :: k !in WalkNames(cfg, key) ==>
              Lookup(Walk(cfg, key, factory, acc).value.attrs, k) == Lookup(acc.attrs, k)
  {
    if |cfg| > 0 {
      var mid := WalkInner(cfg[0].0, cfg[0].1.fields, key, factory, acc).value;
      var r := Walk(cfg, key, factory, acc).value;
      assert Walk(cfg, key, factory, acc) == Walk(cfg[1..], key, factory, mid);
      WalkInnerValues(cfg[0].0, cfg[0].1.fields, key, factory, acc);
      WalkValues(cfg[1..], key, factory, mid);
      WalkValuesStep(cfg, key, factory, mid.attrs, r.attrs);
    }
  }

  /** The step of `WalkValues`: the first outer entry's attributes survive
      unless a later pair names them again. */
  lemma WalkValuesStep<B>(cfg: Dict<string, Value>, key: (string, string) -> string,
                          factory: (string, string) -> Result<Value -> Result<B>>,
                          mid: Dict<string, Dict<string, B>>, attrs: Dict<string, Dict<string, B>>)
    requires |cfg| > 0 && cfg[0].1.Obj?
    requires InnerSets(cfg[0].0, cfg[0].1.fields, key, factory, mid, [])
    requires WalkSets(cfg[1..], key, factory, attrs)
    requires forall k :: k !in WalkNames(cfg[1..], key) ==> Lookup(attrs, k) == Lookup(mid, k)
    ensures WalkSets(cfg, key, factory, attrs)
  {
    forall i | 0 <= i < |cfg| && cfg[i].1.Obj?
      ensures InnerSets(cfg[i].0, cfg[i].1.fields, key, factory, attrs, WalkNames(cfg[i + 1..], key))
    {
      if i > 0 {
        assert cfg[1..][i - 1] == cfg[i];
        assert cfg[1..][i - 1 + 1..] == cfg[i + 1..];
      }
    }
  }

  function WalkInner<B>(outer: string, inners: Dict<string, Value>, key: (string, string) -> string,
                        factory: (string, string) -> Result<Value -> Result<B>>, acc: Injection<B>)
    : (r: Result<Injection<B>>)
    ensures r.Ok? <==> InnerBuilds(outer, inners, factory)
    ensures r.Err? ==> exists j :: 0 <= j < |inners| && BuildEntry(outer, inners[j], factory) == Err(r.error) &&
                                   forall j' :: 0 <= j' < j ==> BuildEntry(outer, inners[j'], factory).Ok?
    ensures r.Ok? ==> r.value.total == acc.total + InnerCount(inners)
  {
    if |inners| == 0 then Ok(acc)
    else
      var built :- BuildEntry(outer, inners[0], factory);
      var mid := Injection(Set(acc.attrs, key(outer, inners[0].0), built), acc.total + |built|);
      var r := WalkInner(outer, inners[1..], key, factory, mid);
      WalkInnerStep(outer, inners, key, factory, acc, built, mid, r);
      r
  }

  /** The step of `WalkInner`: the facts for the rest of the entries, after
      the first has built, give the facts for all of them. */
  lemma WalkInnerStep<B>(outer: string, inners: Dict<string, Value>, key: (string, string) -> string,
                         factory: (string, string) -> Result<Value -> Result<B>>, acc: Injection<B>,
                         built: Dict<string, B>, mid: Injection<B>, r: Result<Injection<B>>)
    requires |inners| > 0 && BuildEntry(outer, inners[0], factory) == Ok(built)
    requires mid.total == acc.total + |built|
    requires r.Ok? <==> InnerBuilds(outer, inners[1..], factory)
    requires r.Err? ==> exists j :: 0 <= j < |inners[1..]| && BuildEntry(outer, inners[1..][j], factory) == Err(r.error) &&
                                    forall j' :: 0 <= j' < j ==> BuildEntry(outer, inners[1..][j'], factory).Ok?
    requires r.Ok? ==> r.value.total == mid.total + InnerCount(inners[1..])
    ensures r.Ok? <==> InnerBuilds(outer, inners, factory)
    ensures r.Err? ==> exists j :: 0 <= j < |inners| && BuildEntry(outer, inners[j], factory) == Err(r.error) &&
                                   forall j' :: 0 <= j' < j ==> BuildEntry(outer, inners[j'], factory).Ok?
    ensures r.Ok? ==> r.value.total == acc.total + InnerCount(inners)
  {
    if r.Err? {
      FirstFailureShift(outer, inners, factory, r.error);
    } else {
      assert forall j :: 1 <= j < |inners| ==> inners[1..][j - 1] == inners[j];
      if r.Ok? {
        assert |built| == |Keys(built)| == |inners[0].1.fields|;
        assert InnerCount(inners) == |inners[0].1.fields| + InnerCount(inners[1..]);
      }
    }
  }

  /** The first failing entry of the rest, after a first entry that built, is
      the first failing entry of all of them. */
  lemma FirstFailureShift<B>(outer: string, inners: Dict<string, Value>,
                             factory: (string, string) -> Result<Value -> Result<B>>, e: PyError)
    requires |inners| > 0 && BuildEntry(outer, inners[0], factory).Ok?
    requires exists j :: 0 <= j < |inners[1..]| && BuildEntry(outer, inners[1..][j], factory) == Err(e) &&
                         forall j' :: 0 <= j' < j ==> BuildEntry(outer, inners[1..][j'], factory).Ok?
    ensures exists j :: 0 <= j < |inners| && BuildEntry(outer, inners[j], factory) == Err(e) &&
                        forall j' :: 0 <= j' < j ==> BuildEntry(outer, inners[j'], factory).Ok?
  {
    var j :| 0 <= j < |inners[1..]| && BuildEntry(outer, inners[1..][j], factory) == Err(e) &&
             forall j' :: 0 <= j' < j ==> BuildEntry(outer, inners[1..][j'], factory).Ok?;
    assert inners[1..][j] == inners[j + 1];
    forall j' | 0 <= j' < j + 1 ensures BuildEntry(outer, inners[j'], factory).Ok? {
      if j' > 0 { assert inners[1..][j' - 1] == inners[j']; }
    }
  }

  /** The attribute names the inner walk sets, in order. */
  function InnerNames(outer: string, inners: Dict<string, Value>, key: (string, string) -> string): (names: seq<string>)
    ensures |names| == |inners|
    ensures forall j :: 0 <= j < |inners| ==> names[j] == key(outer, inners[j].0)
  {
    if |inners| == 0 then [] else [key(outer, inners[0].0)] + InnerNames(outer, inners[1..], key)
  }

  /** The attributes set by the inner walk: the ones there before, and
      exactly one per inner entry. */
  lemma {:induction false} WalkInnerAttrs<B>(outer: string, inners: Dict<string, Value>, key: (string, string) -> string,
                                             factory: (string, string) -> Result<Value -> Result<B>>, acc: Injection<B>)
    requires WalkInner(outer, inners, key, factory, acc).Ok?
    ensures forall k :: k in Keys(WalkInner(outer, inners, key, factory, acc).value.attrs) <==>
              (k in Keys(acc.attrs) || k in InnerNames(outer, inners, key))
  {
    if |inners| > 0 {
      var built := BuildEntry(outer, inners[0], factory).value;
      var mid := Injection(Set(acc.attrs, key(outer, inners[0].0), built), acc.total + |built|);
      assert WalkInner(outer, inners, key, factory, acc) == WalkInner(outer, inners[1..], key, factory, mid);
      WalkInnerAttrs(outer, inners[1..], key, factory, mid);
      WalkInnerAttrsStep(outer, inners, key, acc.attrs, mid.attrs, WalkInner(outer, inners, key, factory, acc).value.attrs);
    }
  }

  /** The step of `WalkInnerAttrs`. */
  lemma WalkInnerAttrsStep<B>(outer: string, inners: Dict<string, Value>, key: (string, string) -> string,
                              before: Dict<string, Dict<string, B>>, mid: Dict<string, Dict<string, B>>,
                              attrs: Dict<string, Dict<string, B>>)
    requires |inners| > 0
    requires forall k :: k in Keys(mid) <==> k in Keys(before) || k == key(outer, inners[0].0)
    requires forall k :: k in Keys(attrs) <==> k in Keys(mid) || k in InnerNames(outer, inners[1..], key)
    ensures forall k :: k in Keys(attrs) <==> k in Keys(before) || k in InnerNames(outer, inners, key)
  {
    assert InnerNames(outer, inners, key) == [key(outer, inners[0].0)] + InnerNames(outer, inners[1..], key);
  }

  /** What the inner walk leaves under each attribute: the items of the last
      entry naming it, and under any other name what was there before. */
  lemma {:induction false} WalkInnerValues<B>(outer: string, inners: Dict<string, Value>, key: (string, string) -> string,
                                              factory: (string, string) -> Result<Value -> Result<B>>, acc: Injection<B>)
    requires WalkInner(outer, inners, key, factory, acc).Ok?
    ensures InnerSets(outer, inners, key, factory, WalkInner(outer, inners, key, factory, acc).value.attrs, [])
    ensures forall k :: k !in InnerNames(outer, inners, key) ==>
              Lookup(WalkInner(outer, inners, key, factory, acc).value.attrs, k) == Lookup(acc.attrs, k)
  {
    if |inners| > 0 {
      var built := BuildEntry(outer, inners[0], factory).value;
      var mid := Injection(Set(acc.attrs, key(outer, inners[0].0), built), acc.total + |built|);
      assert WalkInner(outer, inners, key, factory, acc) == WalkInner(outer, inners[1..], key, factory, mid);
      WalkInnerValues(outer, inners[1..], key, factory, mid);
      var r := WalkInner(outer, inners, key, factory, acc).value;
      WalkInnerValuesStep(outer, inners, key, factory, acc.attrs, built, r.attrs);
    }
  }

  /** The step of `WalkInnerValues`: the first entry's attribute survives
      unless a later entry names it again. */
  lemma WalkInnerValuesStep<B>(outer: string, inners: Dict<string, Value>, key: (string, string) -> string,
                               factory: (string, string) -> Result<Value -> Result<B>>,
                               before: Dict<string, Dict<string, B>>, built: Dict<string, B>,
                               attrs: Dict<string, Dict<string, B>>)
    requires |inners| > 0 && BuildEntry(outer, inners[0], factory) == Ok(built)
    requires InnerSets(outer, inners[1..], key, factory, attrs, [])
    requires forall k :: k !in InnerNames(outer, inners[1..], key) ==>
               Lookup(attrs, k) == Lookup(Set(before, key(outer, inners[0].0), built), k)
    ensures InnerSets(outer, inners, key, factory, attrs, [])
    ensures forall k :: k !in InnerNames(outer, inners, key) ==> Lookup(attrs, k) == Lookup(before, k)
  {
    assert InnerNames(outer, inners, key) == [key(outer, inners[0].0)] + InnerNames(outer, inners[1..], key);
    forall j | 0 <= j < |inners| && key(outer, inners[j].0) !in InnerNames(outer, inners[j + 1..], key)
      ensures BuildEntry(outer, inners[j], factory).Ok? &&
              Lookup(attrs, key(outer, inners[j].0)) == Some(BuildEntry(outer, inners[j], factory).value)
    {
      if j > 0 {
        assert inners[1..][j - 1] == inners[j];
        assert inners[1..][j - 1 + 1..] == inners[j + 1..];
      }
    }
  }

  /** The walk from a robot with no attributes set: it succeeds exactly when
      every group builds, counts every item, sets exactly one attribute per
      (outer, inner) pair, and leaves under each the items of the last pair
      naming it. */
  function Inject<B>(cfg: Dict<string, Value>, key: (string, string) -> string,
                     factory: (string, string) -> Result<Value -> Result<B>>)
    : (r: Result<Injection<B>>)
    ensures r.Ok? <==> WalkBuilds(cfg, factory)
    ensures r.Ok? ==> r.value.total == ItemCount(cfg)
    ensures r.Ok? ==> forall k :: k in Keys(r.value.attrs) <==> k in WalkNames(cfg, key)
    ensures r.Ok? ==> WalkSets(cfg, key, factory, r.value.attrs)
  {
    var r := Walk(cfg, key, factory, Injection([], 0));
    if r.Ok? then
      WalkAttrs(cfg, key, factory, Injection([], 0));
      WalkValues(cfg, key, factory, Injection([], 0));
      r
    else r
  }

  /** The factory of the hardware walks: the same builder for every group. */
  function Always<B>(build: Value -> Result<B>): (f: (string, string) -> Result<Value -> Result<B>>)
    ensures forall outer, inner :: f(outer, inner) == Ok(build)
  {
    (outer: string, inner: string) => Ok(build)
  }

  /** A group is a dict whose every item builds. */
  ghost predicate GroupBuilds<B>(group: Value, build: Value -> Result<B>) {
    group.Obj? && forall k :: 0 <= k < |group.fields| ==> build(group.fields[k].1).Ok?
  }

  /** Every outer value is a dict of groups that build. */
  ghost predicate ItemsBuild<B>(cfg: Dict<string, Value>, build: Value -> Result<B>) {
    forall i :: 0 <= i < |cfg| ==> cfg[i].1.Obj? && forall j :: 0 <= j < |cfg[i].1.fields| ==> GroupBuilds(cfg[i].1.fields[j].1, build)
  }

  /** With one builder for every group, the walk succeeds exactly when every
      outer and inner value is a dict and every item builds. */
  lemma AlwaysBuilds<B>(cfg: Dict<string, Value>, build: Value -> Result<B>)
    ensures WalkBuilds(cfg, Always(build)) <==> ItemsBuild(cfg, build)
  {
    forall i | 0 <= i < |cfg| && cfg[i].1.Obj?
      ensures InnerBuilds(cfg[i].0, cfg[i].1.fields, Always(build)) <==>
              forall j :: 0 <= j < |cfg[i].1.fields| ==> GroupBuilds(cfg[i].1.fields[j].1, build)
    {
      forall j | 0 <= j < |cfg[i].1.fields|
        ensures BuildEntry(cfg[i].0, cfg[i].1.fields[j], Always(build)).Ok? <==> GroupBuilds(cfg[i].1.fields[j].1, build)
      {
        assert Always(build)(cfg[i].0, cfg[i].1.fields[j].0) == Ok(build);
      }
    }
  }

  /** The hardware walk with one builder: `Inject` under `Always`, its
      success stated item by item. */
  function InjectAll<B>(cfg: Dict<string, Value>, build: Value -> Result<B>): (r: Result<Injection<B>>)
    ensures r.Ok? <==> ItemsBuild(cfg, build)
    ensures r.Ok? ==> r.value.total == ItemCount(cfg)
    ensures r.Ok? ==> forall k :: k in Keys(r.value.attrs) <==> k in WalkNames(cfg, Compound)
    ensures r.Ok? ==> WalkSets(cfg, Compound, Always(build), r.value.attrs)
  {
    AlwaysBuilds(cfg, build);
    Inject(cfg, Compound, Always(build))
  }

  /** Whether `attr in desc` for a required key, raising for an unhashable one. */
  function HasRequired(desc: Desc, attr: Value): (r: Result<bool>)
    ensures r.Err? <==> !Hashable(attr)
    ensures r.Ok? ==> (r.value <==> attr.Str? && attr.s in Keys(desc))
  {
    Contains(Obj(desc), attr)
  }

  /** The loop over `__required_keys__`: the first element absent from the
      descriptor raises MissingRequiredKeysError. */
  function CheckEach(desc: Desc, required: seq<Value>): (r: Result<()>)
    ensures r.Ok? <==> forall i :: 0 <= i < |required| ==> HasRequired(desc, required[i]) == Ok(true)
    ensures r.Err? ==> exists i :: 0 <= i < |required| && !(HasRequired(desc, required[i]) == Ok(true))
                                   && (forall j :: 0 <= j < i ==> HasRequired(desc, required[j]) == Ok(true))
                                   && (if Hashable(required[i]) then r.error.MissingRequiredKeysError?
                                       else r.error.TypeError?)
  {
    if |required| == 0 then Ok(())
    else
      match HasRequired(desc, required[0])
      case Err(e) => Err(e)
      case Ok(present) =>
        if !present then Err(MissingRequiredKeysError(PyStr(required[0])))
        else
          var rest := CheckEach(desc, required[1..]);
          assert forall i :: 1 <= i < |required| ==> required[1..][i - 1] == required[i];
          rest
  }
}
