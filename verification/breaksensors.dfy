/** `BreakSensors` of components/breakSensors.py: five beam-break inputs
    looked up by name at enable time, and the tests of the first (loading)
    and last (shooting) of them against a requested state. */
module BreakSensors {
  import opened Wrappers
  import opened Dicts
  import Strings

  /** `SensorKey`: indices into the sensor array. */
  const LoadingSensor: nat := 0
  const ShootingSensor: nat := 4

  /** `State`: what a sensor reads when its beam is broken, and when not. */
  const Tripped: bool := false
  const NotTripped: bool := true

  /** The keys `on_enable` looks up: "sensor1" to "sensor5". */
  function SensorKey(x: int): string {
    "sensor" + Strings.IntToString(x)
  }

  /** The loop of `on_enable` over `range(lo, hi)`: the inputs in order, or
      the KeyError of the first missing key. */
  function Collect<D>(inputs: Dict<string, D>, lo: int, hi: int): (r: Result<seq<D>>)
    ensures r.Ok? <==> forall x :: lo <= x < hi ==> SensorKey(x) in Keys(inputs)
    ensures r.Ok? ==> |r.value| == if lo <= hi then hi - lo else 0
    ensures r.Ok? ==> forall x :: lo <= x < hi ==> Lookup(inputs, SensorKey(x)) == Some(r.value[x - lo])
    ensures r.Err? ==> exists x :: lo <= x < hi && SensorKey(x) !in Keys(inputs) &&
                                   r.error == KeyError(SensorKey(x)) &&
                                   forall y :: lo <= y < x ==> SensorKey(y) in Keys(inputs)
    decreases hi - lo
  {
    if lo >= hi then Ok([])
    else
      var first :- Get(inputs, SensorKey(lo), SensorKey(lo));
      var rest :- Collect(inputs, lo + 1, hi);
      Ok([first] + rest)
  }

  /** `on_enable`: the sensor array. */
  function OnEnable<D>(inputs: Dict<string, D>): (r: Result<seq<D>>)
    ensures r.Ok? ==> |r.value| == 5
    ensures r.Ok? <==> forall x :: 1 <= x < 6 ==> SensorKey(x) in Keys(inputs)
  {
    Collect(inputs, 1, 6)
  }

  /** The two tests: whether the sensor at `key` reads `state`. `read` is
      the input's current value. */
  function Matches<D>(sensors: seq<D>, key: nat, read: D -> bool, state: bool): (r: Result<bool>)
    ensures key < |sensors| ==> r == Ok(read(sensors[key]) == state)
    ensures key >= |sensors| ==> r == Err(IndexError("list index out of range"))
  {
    if key < |sensors| then Ok(read(sensors[key]) == state)
    else Err(IndexError("list index out of range"))
  }

  /** `loadingSensor(state)` reads the input named "sensor1" and
      `shootingSensor(state)` the one named "sensor5"; each is true exactly
      when that input reads `state`. */
  lemma SensorsAreFirstAndFifth<D>(inputs: Dict<string, D>, read: D -> bool, state: bool)
    requires OnEnable(inputs).Ok?
    ensures Matches(OnEnable(inputs).value, LoadingSensor, read, state) == Ok(read(Lookup(inputs, SensorKey(1)).value) == state)
    ensures Matches(OnEnable(inputs).value, ShootingSensor, read, state) == Ok(read(Lookup(inputs, SensorKey(5)).value) == state)
  {
  }

  /** Every input reads either tripped or not tripped: exactly one of the two
      tests holds. */
  lemma TrippedOrNot<D>(sensors: seq<D>, key: nat, read: D -> bool)
    requires key < |sensors|
    ensures Matches(sensors, key, read, Tripped).value != Matches(sensors, key, read, NotTripped).value
  {
  }
}
