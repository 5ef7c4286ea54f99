/** `ButtonManager` of tmp/new_buttonmanager.py. Registrations queue up in
    the class-level `_tmp_container`; leaving a `with` block files every
    queued registration under its controller and button. The queue is never
    cleared, so each later block files all the earlier registrations again. */
module TmpButtonManager {
  import opened Wrappers
  import opened Dicts
  import opened ButtonEvents

  /** A queued registration `(controller, button, condition, action)`. */
  datatype Registration = Registration(controller: Controller, button: ButtonId, condition: ButtonEvent, action: Action)

  /** `entries`: controller to button to `[condition, action]` pairs. */
  type Entries = Dict<Controller, Dict<ButtonId, seq<(ButtonEvent, Action)>>>

  /** The class-level state. */
  datatype Manager = Manager(tmp: seq<Registration>, entries: Entries)

  /** The class as first imported. */
  const Initial: Manager := Manager([], [])

  /** The pairs filed under one controller and button. */
  function Filed(entries: Entries, c: Controller, b: ButtonId): seq<(ButtonEvent, Action)> {
    match Lookup(entries, c)
    case None => []
    case Some(buttons) => Lookup(buttons, b).GetOr([])
  }

  /** The pairs of the queued registrations for one controller and button,
      in queue order. */
  function Queued(tmp: seq<Registration>, c: Controller, b: ButtonId): (r: seq<(ButtonEvent, Action)>)
    ensures |r| <= |tmp|
    decreases |tmp|
  {
    if |tmp| == 0 then []
    else if tmp[0].controller == c && tmp[0].button == b then
      [(tmp[0].condition, tmp[0].action)] + Queued(tmp[1..], c, b)
    else Queued(tmp[1..], c, b)
  }

  /** The function `__enter__` returns: `_tmp_container.append`. */
  function Register(m: Manager, reg: Registration): (r: Manager)
    ensures r.tmp == m.tmp + [reg] && r.entries == m.entries
  {
    m.(tmp := m.tmp + [reg])
  }

  /** `_create_final(controller, button, condition, action)`: the missing
      levels are created and the pair appended. */
  function CreateFinal(entries: Entries, reg: Registration): (r: Entries)
    ensures Filed(r, reg.controller, reg.button) ==
            Filed(entries, reg.controller, reg.button) + [(reg.condition, reg.action)]
    ensures forall c, b :: (c != reg.controller || b != reg.button) ==> Filed(r, c, b) == Filed(entries, c, b)
    ensures forall c :: c in Keys(r) <==> c in Keys(entries) || c == reg.controller
  {
    var buttons := Lookup(entries, reg.controller).GetOr([]);
    var actions := Lookup(buttons, reg.button).GetOr([]);
    SetKeys(entries, reg.controller, Set(buttons, reg.button, actions + [(reg.condition, reg.action)]));
    Set(entries, reg.controller, Set(buttons, reg.button, actions + [(reg.condition, reg.action)]))
  }

  /** The loop of `__exit__` over the queue. */
  function FileAll(entries: Entries, tmp: seq<Registration>): (r: Entries)
    decreases |tmp|
  {
    if |tmp| == 0 then entries else FileAll(CreateFinal(entries, tmp[0]), tmp[1..])
  }

  /** Filing the queue appends, under every controller and button, exactly
      that controller's and button's queued pairs in queue order. */
  lemma {:induction false} FileAllAppends(entries: Entries, tmp: seq<Registration>, c: Controller, b: ButtonId)
    ensures Filed(FileAll(entries, tmp), c, b) == Filed(entries, c, b) + Queued(tmp, c, b)
    decreases |tmp|
  {
    if |tmp| > 0 {
      var e1 := CreateFinal(entries, tmp[0]);
      assert FileAll(entries, tmp) == FileAll(e1, tmp[1..]);
      FileAllAppends(e1, tmp[1..], c, b);
      if tmp[0].controller == c && tmp[0].button == b {
        assert Filed(e1, c, b) == Filed(entries, c, b) + [(tmp[0].condition, tmp[0].action)];
        assert Queued(tmp, c, b) == [(tmp[0].condition, tmp[0].action)] + Queued(tmp[1..], c, b);
      } else {
        assert Filed(e1, c, b) == Filed(entries, c, b);
        assert Queued(tmp, c, b) == Queued(tmp[1..], c, b);
      }
    }
  }

  /** `__exit__`: the whole queue is filed and the queue is kept. */
  function Exit(m: Manager): (r: Manager)
    ensures r.tmp == m.tmp
    ensures forall c, b :: Filed(r.entries, c, b) == Filed(m.entries, c, b) + Queued(m.tmp, c, b)
  {
    forall c, b ensures Filed(FileAll(m.entries, m.tmp), c, b) == Filed(m.entries, c, b) + Queued(m.tmp, c, b) {
      FileAllAppends(m.entries, m.tmp, c, b);
    }
    m.(entries := FileAll(m.entries, m.tmp))
  }

  /** A `with` block that registers `regs` in order. */
  function Block(m: Manager, regs: seq<Registration>): (r: Manager)
    ensures r.tmp == m.tmp + regs
    decreases |regs|
  {
    if |regs| == 0 then Exit(m)
    else Block(Register(m, regs[0]), regs[1..])
  }

  /** A registration made in one `with` block is filed again by the next
      block, whatever that block registers. */
  lemma EarlierBlockFiledTwice(first: Registration, second: Registration)
    ensures var m := Block(Block(Initial, [first]), [second]);
            var filed := Filed(m.entries, first.controller, first.button);
            |filed| >= 2 && filed[0] == filed[1] == (first.condition, first.action)
  {
    var c, b := first.controller, first.button;
    var pair := (first.condition, first.action);
    var m1 := Block(Initial, [first]);
    assert [first][1..] == [];
    assert Block(Register(Initial, first), []) == Exit(Register(Initial, first));
    assert Queued([first], c, b) == [pair];
    assert Filed(m1.entries, c, b) == [pair];
    var m2 := Block(m1, [second]);
    assert [second][1..] == [];
    assert Block(Register(m1, second), []) == Exit(Register(m1, second));
    assert m1.tmp + [second] == [first, second];
    assert Queued([first, second], c, b) == [pair] + Queued([second], c, b);
    assert Filed(m2.entries, c, b) == [pair] + ([pair] + Queued([second], c, b));
  }

  /** `update_buttons` for one controller: every button in insertion order,
      each read once and run with `_run` (`Fire`). */
  function RunButtons(c: Controller, buttons: Dict<ButtonId, seq<(ButtonEvent, Action)>>,
                      read: (Controller, ButtonId) -> Sample): (r: seq<Action>)
    decreases |buttons|
  {
    if |buttons| == 0 then []
    else Fire(buttons[0].1, read(c, buttons[0].0)) + RunButtons(c, buttons[1..], read)
  }

  /** `update_buttons`: every controller in insertion order. */
  function UpdateButtons(entries: Entries, read: (Controller, ButtonId) -> Sample): (r: seq<Action>)
    ensures forall a :: a in r ==>
              exists i, j, k :: 0 <= i < |entries| && 0 <= j < |entries[i].1| && 0 <= k < |entries[i].1[j].1| &&
                                entries[i].1[j].1[k].1 == a &&
                                Holds(entries[i].1[j].1[k].0, read(entries[i].0, entries[i].1[j].0))
    decreases |entries|
  {
    if |entries| == 0 then []
    else
      var here := RunButtons(entries[0].0, entries[0].1, read);
      var rest := UpdateButtons(entries[1..], read);
      RunButtonsSound(entries[0].0, entries[0].1, read);
      assert forall i :: 1 <= i < |entries| ==> entries[1..][i - 1] == entries[i];
      here + rest
  }

  lemma {:induction false} RunButtonsSound(c: Controller, buttons: Dict<ButtonId, seq<(ButtonEvent, Action)>>,
                                           read: (Controller, ButtonId) -> Sample)
    ensures forall a :: a in RunButtons(c, buttons, read) ==>
              exists j, k :: 0 <= j < |buttons| && 0 <= k < |buttons[j].1| &&
                             buttons[j].1[k].1 == a && Holds(buttons[j].1[k].0, read(c, buttons[j].0))
    decreases |buttons|
  {
    if |buttons| > 0 {
      RunButtonsSound(c, buttons[1..], read);
      assert forall j :: 1 <= j < |buttons| ==> buttons[1..][j - 1] == buttons[j];
    }
  }

  /** Every registered pair whose condition holds fires. */
  lemma {:induction false} UpdateButtonsComplete(entries: Entries, read: (Controller, ButtonId) -> Sample,
                                                 i: nat, j: nat, k: nat)
    requires i < |entries| && j < |entries[i].1| && k < |entries[i].1[j].1|
    requires Holds(entries[i].1[j].1[k].0, read(entries[i].0, entries[i].1[j].0))
    ensures entries[i].1[j].1[k].1 in UpdateButtons(entries, read)
    decreases i
  {
    if i == 0 {
      RunButtonsComplete(entries[0].0, entries[0].1, read, j, k);
    } else {
      assert entries[1..][i - 1] == entries[i];
      UpdateButtonsComplete(entries[1..], read, i - 1, j, k);
    }
  }

  lemma {:induction false} RunButtonsComplete(c: Controller, buttons: Dict<ButtonId, seq<(ButtonEvent, Action)>>,
                                              read: (Controller, ButtonId) -> Sample, j: nat, k: nat)
    requires j < |buttons| && k < |buttons[j].1| && Holds(buttons[j].1[k].0, read(c, buttons[j].0))
    ensures buttons[j].1[k].1 in RunButtons(c, buttons, read)
    decreases j
  {
    if j > 0 {
      assert buttons[1..][j - 1] == buttons[j];
      RunButtonsComplete(c, buttons[1..], read, j - 1, k);
    }
  }
}
