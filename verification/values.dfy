/** Python values as the start-up code meets them: loaded JSON/YAML documents,
    descriptor fields and class attributes. Objects are ordered dicts with string
    keys. Python's `in`, iteration, truthiness, hashing and `str()` are spelled
    out, with the exceptions they raise. */
module Values {
  import opened Wrappers
  import opened Dicts
  import Strings

  datatype Value =
    | Null
    | Bool(b: bool)
    | Num(n: int)
    | Real(r: real)
    | Str(s: string)
    | List(items: seq<Value>)
    | Tuple(items: seq<Value>)
    | Obj(fields: Dict<string, Value>)

  type Desc = Dict<string, Value>

  /** `bool(v)`. */
  predicate Truthy(v: Value) {
    match v
    case Null => false
    case Bool(b) => b
    case Num(n) => n != 0
    case Real(r) => r != 0.0
    case Str(s) => |s| > 0
    case List(items) => |items| > 0
    case Tuple(items) => |items| > 0
    case Obj(fields) => |fields| > 0
  }

  /** Whether `hash(v)` succeeds: lists and dicts are unhashable. */
  predicate Hashable(v: Value) {
    match v
    case List(_) => false
    case Obj(_) => false
    case Tuple(items) => forall i :: 0 <= i < |items| ==> Hashable(items[i])
    case _ => true
  }

  /** Single-character strings, as iterating over a `str` yields them. */
  function Chars(s: string): (r: seq<Value>)
    ensures |r| == |s|
    ensures forall i :: 0 <= i < |s| ==> r[i] == Str([s[i]])
  {
    if |s| == 0 then [] else [Str([s[0]])] + Chars(s[1..])
  }

  function StrValues(ks: seq<string>): (r: seq<Value>)
    ensures |r| == |ks|
    ensures forall i :: 0 <= i < |ks| ==> r[i] == Str(ks[i])
  {
    if |ks| == 0 then [] else [Str(ks[0])] + StrValues(ks[1..])
  }

  /** `list(v)`: what a `for` loop over `v` visits. */
  function Elements(v: Value): (r: Result<seq<Value>>)
    ensures r.Err? <==> v.Null? || v.Bool? || v.Num? || v.Real?
    ensures v.List? || v.Tuple? ==> r == Ok(v.items)
  {
    match v
    case Str(s) => Ok(Chars(s))
    case List(items) => Ok(items)
    case Tuple(items) => Ok(items)
    case Obj(fields) => Ok(StrValues(Keys(fields)))
    case _ => Err(TypeError("object is not iterable"))
  }

  /** `x in container`. */
  function Contains(container: Value, x: Value): (r: Result<bool>)
    ensures container.List? ==> r == Ok(x in container.items)
    ensures container.Obj? && x.Str? ==> r == Ok(x.s in Keys(container.fields))
    ensures container.Str? && x.Str? ==> r == Ok(Strings.IsInfix(x.s, container.s))
    ensures r.Err? <==> (container.Str? && !x.Str?) || (container.Obj? && !Hashable(x))
                        || container.Null? || container.Bool? || container.Num? || container.Real?
  {
    match container
    case Str(s) =>
      if x.Str? then Ok(Strings.IsInfix(x.s, s)) else Err(TypeError("'in <string>' requires string as left operand"))
    case List(items) => Ok(x in items)
    case Tuple(items) => Ok(x in items)
    case Obj(fields) =>
      if !Hashable(x) then Err(TypeError("unhashable type"))
      else Ok(x.Str? && x.s in Keys(fields))
    case _ => Err(TypeError("argument is not iterable"))
  }

  /** `key in v` where `v` is only known to be a loaded value and `key` a string. */
  function HasStrKey(v: Value, key: string): (r: Result<bool>)
    ensures v.Obj? ==> r == Ok(key in Keys(v.fields))
  {
    Contains(v, Str(key))
  }

  /** `str(v)` for None, bools, ints and strs. Floats and containers get a
      fixed tag, so different floats (or containers) share one text here
      where Python's texts differ: a key made from the text of a float or a
      container (a motor channel, say) is not distinguished from another's. */
  function PyStr(v: Value): string {
    match v
    case Null => "None"
    case Bool(b) => if b then "True" else "False"
    case Num(n) => Strings.IntToString(n)
    case Str(s) => s
    case Real(_) => "<float>"
    case List(_) => "<list>"
    case Tuple(_) => "<tuple>"
    case Obj(_) => "<dict>"
  }

  /** `d[key]` on a value that must be a dict. */
  function Index(v: Value, key: string): (r: Result<Value>)
    ensures v.Obj? && key in Keys(v.fields) ==> r.Ok? && Lookup(v.fields, key) == Some(r.value)
    ensures v.Obj? && key !in Keys(v.fields) ==> r == Err(KeyError(key))
    ensures !v.Obj? ==> r.Err?
  {
    match v
    case Obj(fields) => Get(fields, key, key)
    case _ => Err(TypeError("value is not subscriptable by a string"))
  }

  /** `v[k]` for each key in turn, as a set-up routine reads a nested dict;
      the first read that fails is the error. */
  function ReadKeys(v: Value, keys: seq<string>): (r: Result<()>)
    ensures r.Ok? <==> |keys| == 0 || (v.Obj? && forall i :: 0 <= i < |keys| ==> keys[i] in Keys(v.fields))
    ensures r.Err? && v.Obj? ==> exists i :: 0 <= i < |keys| && keys[i] !in Keys(v.fields) && r.error == KeyError(keys[i]) &&
                                             forall j :: 0 <= j < i ==> keys[j] in Keys(v.fields)
    decreases |keys|
  {
    if |keys| == 0 then Ok(())
    else
      var _ :- Index(v, keys[0]);
      var r := ReadKeys(v, keys[1..]);
      assert forall i :: 1 <= i < |keys| ==> keys[1..][i - 1] == keys[i];
      r
  }

  /** `len(v)`: a str, list, tuple or dict has a length; None, a bool or a
      number does not. */
  function Len(v: Value): (r: Result<nat>)
    ensures r.Ok? <==> v.Str? || v.List? || v.Tuple? || v.Obj?
    ensures v.Str? ==> r == Ok(|v.s|)
    ensures v.List? || v.Tuple? ==> r == Ok(|v.items|)
    ensures v.Obj? ==> r == Ok(|v.fields|)
  {
    match v
    case Str(s) => Ok(|s|)
    case List(items) => Ok(|items|)
    case Tuple(items) => Ok(|items|)
    case Obj(fields) => Ok(|fields|)
    case _ => Err(TypeError("object has no len()"))
  }

  /** `v.items()` on a value that must be a dict. */
  function AsDict(v: Value): (r: Result<Dict<string, Value>>)
    ensures r.Ok? <==> v.Obj?
    ensures v.Obj? ==> r.value == v.fields
  {
    match v
    case Obj(fields) => Ok(fields)
    case _ => Err(AttributeError("items"))
  }
}
