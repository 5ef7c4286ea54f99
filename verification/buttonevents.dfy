/** The button events shared by utils/buttonmanager.py and
    tmp/new_buttonmanager.py, and the test `_run` applies to each
    registration. A controller's readings are supplied by the caller. */
module ButtonEvents {

  /** Controllers, buttons and actions are told apart by number. */
  type Controller = nat
  type ButtonId = nat
  type Action = nat

  /** `ButtonEvent`. */
  datatype ButtonEvent = OnPress | OnRelease | WhilePressed | WhileReleased

  /** One reading of a button: `getRawButtonPressed`, `getRawButtonReleased`
      and `getRawButton`. */
  datatype Sample = Sample(pressed: bool, released: bool, held: bool)

  /** `action_map[condition]`. */
  predicate Holds(condition: ButtonEvent, s: Sample) {
    match condition
    case OnPress => s.pressed
    case OnRelease => s.released
    case WhilePressed => s.held
    case WhileReleased => !s.held
  }

  /** The actions among `actions` whose condition holds for one reading, in
      registration order: the loop of `_run` in tmp/new_buttonmanager.py. */
  function Fire(actions: seq<(ButtonEvent, Action)>, s: Sample): (r: seq<Action>)
    ensures |r| <= |actions|
    ensures forall a :: a in r <==> exists i :: 0 <= i < |actions| && Holds(actions[i].0, s) && actions[i].1 == a
    decreases |actions|
  {
    if |actions| == 0 then []
    else
      var rest := Fire(actions[1..], s);
      assert forall i :: 1 <= i < |actions| ==> actions[1..][i - 1] == actions[i];
      var r := (if Holds(actions[0].0, s) then [actions[0].1] else []) + rest;
      assert forall a :: a in r <== exists i :: 0 <= i < |actions| && Holds(actions[i].0, s) && actions[i].1 == a by {
        forall a | exists i :: 0 <= i < |actions| && Holds(actions[i].0, s) && actions[i].1 == a
          ensures a in r
        {
          var i :| 0 <= i < |actions| && Holds(actions[i].0, s) && actions[i].1 == a;
          if i > 0 {
            assert actions[1..][i - 1] == actions[i];
          }
        }
      }
      r
  }

  /** Registrations fire in order: two lists one after the other fire as the
      two results one after the other. */
  lemma {:induction false} FireKeepsOrder(a: seq<(ButtonEvent, Action)>, b: seq<(ButtonEvent, Action)>, s: Sample)
    ensures Fire(a + b, s) == Fire(a, s) + Fire(b, s)
    decreases |a|
  {
    if |a| > 0 {
      assert (a + b)[1..] == a[1..] + b;
      FireKeepsOrder(a[1..], b, s);
    } else {
      assert a + b == b;
    }
  }
}
