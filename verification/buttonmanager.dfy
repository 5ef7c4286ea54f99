/** `ButtonManager` of utils/buttonmanager.py. The list `__enter__` hands
    out and the list `__exit__` files are the one class-level
    `_entries_container`, so every controller's entry in `entries` refers to
    the same list. The lists are modelled as a small heap, and `entries` maps
    controllers to list addresses. */
module ButtonManager {
  import opened Wrappers
  import opened Dicts
  import opened ButtonEvents

  /** A registration `(button, condition, action)`. */
  datatype Entry = Entry(button: ButtonId, condition: ButtonEvent, action: Action)

  /** The lists by address, and `entries` from controller to list address. */
  datatype State = State(lists: seq<seq<Entry>>, entries: Dict<Controller, nat>)

  /** The address of `_entries_container`. */
  const Container: nat := 0

  /** The class as first imported: one empty container and no entries. */
  const Initial: State := State([[]], [])

  /** Every address in `entries` points at a list. */
  predicate Valid(s: State) {
    |s.lists| > Container && forall i :: 0 <= i < |s.entries| ==> s.entries[i].1 < |s.lists|
  }

  /** The list a controller's entry refers to. */
  function View(s: State, c: Controller): (r: Option<seq<Entry>>)
    requires Valid(s)
    ensures r.Some? <==> c in Keys(s.entries)
  {
    match Lookup(s.entries, c)
    case None => None
    case Some(addr) => Some(s.lists[addr])
  }

  /** Calling the function `__enter__` returns: `_entries_container.append`. */
  function Register(s: State, e: Entry): (r: State)
    requires Valid(s)
    ensures Valid(r) && r.entries == s.entries
    ensures r.lists[Container] == s.lists[Container] + [e]
  {
    s.(lists := s.lists[Container := s.lists[Container] + [e]])
  }

  /** `__exit__`: `entries.update({controller: _entries_container})`. */
  function Exit(s: State, c: Controller): (r: State)
    requires Valid(s)
    ensures Valid(r) && r.lists == s.lists
    ensures View(r, c) == Some(s.lists[Container])
    ensures forall d :: d != c ==> View(r, d) == View(s, d)
  {
    var r := s.(entries := Set(s.entries, c, Container));
    assert forall k :: k in Keys(r.entries) ==> k in Keys(s.entries) || k == c by {
      SetKeys(s.entries, c, Container);
    }
    assert Valid(r) by {
      forall i | 0 <= i < |r.entries| ensures r.entries[i].1 < |r.lists| {
        assert (r.entries[i].0, r.entries[i].1) in r.entries;
        if r.entries[i].1 != Container {
          SetValues(s.entries, c, Container, i);
        }
      }
    }
    r
  }

  /** Every value of a `Set` result is the new value or an old value. */
  lemma SetValues(d: Dict<Controller, nat>, k: Controller, v: nat, i: nat)
    requires i < |Set(d, k, v)|
    ensures Set(d, k, v)[i].1 == v || Set(d, k, v)[i] in d
  {
    SetIsUpdateOrAppend(d, k, v);
  }

  lemma {:induction false} SetIsUpdateOrAppend(d: Dict<Controller, nat>, k: Controller, v: nat)
    ensures forall p :: p in Set(d, k, v) ==> p.1 == v || p in d
    decreases |d|
  {
    if |d| > 0 && d[0].0 != k {
      SetIsUpdateOrAppend(d[1..], k, v);
      assert forall p :: p in d[1..] ==> p in d;
    }
  }

  /** `with ButtonManager(c) as register:` registering `regs` in order. */
  function Block(s: State, c: Controller, regs: seq<Entry>): (r: State)
    requires Valid(s)
    ensures Valid(r)
    ensures r.lists[Container] == s.lists[Container] + regs
    ensures View(r, c) == Some(r.lists[Container])
    decreases |regs|
  {
    if |regs| == 0 then Exit(s, c)
    else
      var r := Block(Register(s, regs[0]), c, regs[1..]);
      assert [regs[0]] + regs[1..] == regs;
      r
  }

  /** Every controller's entry is the container itself. */
  predicate Aliased(s: State) {
    Valid(s) && forall i :: 0 <= i < |s.entries| ==> s.entries[i].1 == Container
  }

  /** Blocks keep every controller pointing at the container. */
  lemma BlockKeepsAliased(s: State, c: Controller, regs: seq<Entry>)
    requires Aliased(s)
    ensures Aliased(Block(s, c, regs))
    decreases |regs|
  {
    if |regs| == 0 {
      var r := Exit(s, c);
      forall i | 0 <= i < |r.entries| ensures r.entries[i].1 == Container {
        SetValues(s.entries, c, Container, i);
      }
    } else {
      BlockKeepsAliased(Register(s, regs[0]), c, regs[1..]);
    }
  }

  /** Blocks keep the controllers of `entries` distinct, as a `dict` does. */
  lemma {:induction false} BlockKeepsDistinct(s: State, c: Controller, regs: seq<Entry>)
    requires Valid(s) && DistinctKeys(s.entries)
    ensures DistinctKeys(Block(s, c, regs).entries)
    decreases |regs|
  {
    if |regs| == 0 {
      SetKeepsDistinct(s.entries, c, Container);
    } else {
      BlockKeepsDistinct(Register(s, regs[0]), c, regs[1..]);
    }
  }

  /** Two managers for two controllers, each registering one entry: both
      controllers end up with both entries. */
  lemma TwoManagersShareEntries(c1: Controller, c2: Controller, e1: Entry, e2: Entry)
    requires c1 != c2
    ensures var s := Block(Block(Initial, c1, [e1]), c2, [e2]);
            View(s, c1) == Some([e1, e2]) && View(s, c2) == Some([e1, e2])
  {
    var s1 := Block(Initial, c1, [e1]);
    BlockKeepsAliased(Initial, c1, [e1]);
    var s2 := Block(s1, c2, [e2]);
    BlockKeepsAliased(s1, c2, [e2]);
    assert s2.lists[Container] == [e1, e2];
    assert c1 in Keys(s1.entries);
    assert Keys(s2.entries) == Keys(s1.entries) || c1 in Keys(s2.entries) by {
      assert [e2][1..] == [];
      assert s2 == Exit(Register(s1, e2), c2);
      SetKeys(Register(s1, e2).entries, c2, Container);
    }
    var addr := Lookup(s2.entries, c1).value;
    assert (c1, addr) in s2.entries;
  }

  /** A controller button: the controller's port and the button's number. */
  type Key = (Controller, ButtonId)

  /** The driver station's buttons during one `update_buttons`: the buttons
      with a press, or a release, not yet reported, and the buttons held
      down. `getRawButtonPressed` and `getRawButtonReleased` report such an
      edge and clear it, so a second call in the same update reports none;
      `getRawButton` only reads. */
  datatype Pad = Pad(pressed: set<Key>, released: set<Key>, held: set<Key>)

  /** What the calls of `_run` return for one button. */
  function Read(p: Pad, k: Key): Sample {
    Sample(k in p.pressed, k in p.released, k in p.held)
  }

  /** The pad once the edges of the buttons in `ks` have been reported. */
  function Cleared(p: Pad, ks: set<Key>): (r: Pad)
    ensures forall k :: k !in ks ==> Read(r, k) == Read(p, k)
    ensures forall k :: k in ks ==> Read(r, k) == Sample(false, false, k in p.held)
  {
    Pad(p.pressed - ks, p.released - ks, p.held)
  }

  /** `_run(controller, button, condition, action)` for one entry: the action
      runs iff the condition holds for the button's reading, and building
      `action_map` reports and clears both of the button's edges, whatever
      the condition. */
  function RunEntry(c: Controller, e: Entry, p: Pad): (r: (seq<Action>, Pad))
    ensures r.0 == (if Fires(c, e, p) then [e.action] else [])
    ensures r.1 == Cleared(p, {(c, e.button)})
  {
    (Fire([(e.condition, e.action)], Read(p, (c, e.button))), Cleared(p, {(c, e.button)}))
  }

  /** Entry `e`'s condition holds for controller `c`'s reading of its button. */
  predicate Fires(c: Controller, e: Entry, p: Pad) {
    Holds(e.condition, Read(p, (c, e.button)))
  }

  /** The conditions answered by `getRawButtonPressed` and
      `getRawButtonReleased`. */
  predicate IsEdge(condition: ButtonEvent) {
    condition.OnPress? || condition.OnRelease?
  }

  /** No entry before `i` reads entry `i`'s button. */
  predicate FirstOnButton(es: seq<Entry>, i: int)
    requires 0 <= i < |es|
  {
    forall j :: 0 <= j < i ==> es[j].button != es[i].button
  }

  /** Entry `i` of a list run for controller `c` from pad `p` fires: its
      condition holds, and an edge condition only if no earlier entry has
      already cleared the button's edge. */
  predicate FiresIn(c: Controller, es: seq<Entry>, i: int, p: Pad)
    requires 0 <= i < |es|
  {
    Fires(c, es[i], p) && (IsEdge(es[i].condition) ==> FirstOnButton(es, i))
  }

  /** The buttons a list reads for controller `c`. */
  function ButtonsOf(c: Controller, es: seq<Entry>): set<Key> {
    set i | 0 <= i < |es| :: (c, es[i].button)
  }

  /** The inner loop of `update_buttons`: every entry of one list, for one
      controller, each reading the pad the entries before it left. */
  function RunList(c: Controller, es: seq<Entry>, p: Pad): (r: (seq<Action>, Pad))
    ensures |r.0| <= |es|
    ensures forall a :: a in r.0 <==> RunsAt(c, es, p, a)
    ensures |r.0| == |es| <==> forall i :: 0 <= i < |es| ==> FiresIn(c, es, i, p)
    ensures |r.0| == |es| ==> r.0 == Actions(es)
    ensures (forall i :: 0 <= i < |es| ==> !Fires(c, es[i], p)) ==> r.0 == []
    ensures r.1 == Cleared(p, ButtonsOf(c, es))
    decreases |es|
  {
    if |es| == 0 then
      assert ButtonsOf(c, es) == {};
      assert Cleared(p, {}) == p;
      ([], p)
    else
      var first := RunEntry(c, es[0], p);
      var rest := RunList(c, es[1..], first.1);
      RunListStep(c, es, p, rest.0, rest.1);
      (first.0 + rest.0, rest.1)
  }

  /** After the first entry has cleared its button, a later entry fires on
      the rest of the list exactly when it fires on the whole list. */
  lemma ShiftFires(c: Controller, es: seq<Entry>, p: Pad, i: int)
    requires 1 <= i < |es|
    ensures es[1..][i - 1] == es[i]
    ensures FiresIn(c, es[1..], i - 1, Cleared(p, {(c, es[0].button)})) <==> FiresIn(c, es, i, p)
  {
    var tail := es[1..];
    assert FirstOnButton(es, i) <==> es[0].button != es[i].button && FirstOnButton(tail, i - 1) by {
      assert forall j :: 0 <= j < i - 1 ==> tail[j] == es[j + 1];
      if es[0].button != es[i].button && FirstOnButton(tail, i - 1) {
        forall j | 0 <= j < i ensures es[j].button != es[i].button {
          if j > 0 {
            assert es[j] == tail[j - 1];
          }
        }
      }
    }
  }

  /** The buttons of a list are its first entry's and the rest's. */
  lemma ButtonsOfCons(c: Controller, es: seq<Entry>)
    requires |es| > 0
    ensures ButtonsOf(c, es) == {(c, es[0].button)} + ButtonsOf(c, es[1..])
  {
    forall k | k in ButtonsOf(c, es) ensures k in {(c, es[0].button)} + ButtonsOf(c, es[1..]) {
      var i :| 0 <= i < |es| && k == (c, es[i].button);
      if i > 0 {
        assert es[1..][i - 1] == es[i];
      }
    }
    forall k | k in ButtonsOf(c, es[1..]) ensures k in ButtonsOf(c, es) {
      var i :| 0 <= i < |es[1..]| && k == (c, es[1..][i].button);
      assert es[1..][i] == es[i + 1];
    }
  }

  /** Clearing two sets of buttons one after the other clears both. */
  lemma ClearedTwice(p: Pad, ks1: set<Key>, ks2: set<Key>)
    ensures Cleared(Cleared(p, ks1), ks2) == Cleared(p, ks1 + ks2)
  {
    assert p.pressed - ks1 - ks2 == p.pressed - (ks1 + ks2);
    assert p.released - ks1 - ks2 == p.released - (ks1 + ks2);
  }

  /** One step of `RunList`: its contract for the rest of the list, run
      from the pad the first entry left, and the first entry's run give its
      contract for the whole list. */
  lemma RunListStep(c: Controller, es: seq<Entry>, p: Pad, rest: seq<Action>, after: Pad)
    requires |es| > 0
    requires |rest| <= |es| - 1
    requires forall a :: a in rest <==> RunsAt(c, es[1..], Cleared(p, {(c, es[0].button)}), a)
    requires |rest| == |es| - 1 <==> forall i :: 0 <= i < |es| - 1 ==> FiresIn(c, es[1..], i, Cleared(p, {(c, es[0].button)}))
    requires |rest| == |es| - 1 ==> rest == Actions(es[1..])
    requires (forall i :: 0 <= i < |es| - 1 ==> !Fires(c, es[1..][i], Cleared(p, {(c, es[0].button)}))) ==> rest == []
    requires after == Cleared(Cleared(p, {(c, es[0].button)}), ButtonsOf(c, es[1..]))
    ensures var r := RunEntry(c, es[0], p).0 + rest;
            |r| <= |es| &&
            (forall a :: a in r <==> RunsAt(c, es, p, a)) &&
            (|r| == |es| <==> forall i :: 0 <= i < |es| ==> FiresIn(c, es, i, p)) &&
            (|r| == |es| ==> r == Actions(es)) &&
            ((forall i :: 0 <= i < |es| ==> !Fires(c, es[i], p)) ==> r == [])
    ensures after == Cleared(p, ButtonsOf(c, es))
  {
    var p1 := Cleared(p, {(c, es[0].button)});
    forall i | 1 <= i < |es|
      ensures es[1..][i - 1] == es[i] && (FiresIn(c, es[1..], i - 1, p1) <==> FiresIn(c, es, i, p))
    {
      ShiftFires(c, es, p, i);
    }
    assert FiresIn(c, es, 0, p) <==> Fires(c, es[0], p);
    StepMembers(c, es, p, rest);
    StepAll(c, es, p, rest);
    ButtonsOfCons(c, es);
    ClearedTwice(p, {(c, es[0].button)}, ButtonsOf(c, es[1..]));
  }

  /** Some entry of `es` with action `a` fires in the list. */
  ghost predicate RunsAt(c: Controller, es: seq<Entry>, p: Pad, a: Action) {
    exists i :: 0 <= i < |es| && FiresIn(c, es, i, p) && es[i].action == a
  }

  lemma StepMembers(c: Controller, es: seq<Entry>, p: Pad, rest: seq<Action>)
    requires |es| > 0
    requires forall i :: 1 <= i < |es| ==>
               es[1..][i - 1] == es[i] && (FiresIn(c, es[1..], i - 1, Cleared(p, {(c, es[0].button)})) <==> FiresIn(c, es, i, p))
    requires forall a :: a in rest <==> RunsAt(c, es[1..], Cleared(p, {(c, es[0].button)}), a)
    requires (forall i :: 0 <= i < |es| - 1 ==> !Fires(c, es[1..][i], Cleared(p, {(c, es[0].button)}))) ==> rest == []
    ensures forall a :: a in RunEntry(c, es[0], p).0 + rest <==> RunsAt(c, es, p, a)
    ensures (forall i :: 0 <= i < |es| ==> !Fires(c, es[i], p)) ==> RunEntry(c, es[0], p).0 + rest == []
  {
    var p1 := Cleared(p, {(c, es[0].button)});
    assert FiresIn(c, es, 0, p) <==> Fires(c, es[0], p);
    forall a | a in rest ensures RunsAt(c, es, p, a) {
      var i :| 0 <= i < |es| - 1 && FiresIn(c, es[1..], i, p1) && es[1..][i].action == a;
      assert FiresIn(c, es, i + 1, p);
    }
    forall a | RunsAt(c, es, p, a) ensures a in RunEntry(c, es[0], p).0 + rest {
      var i :| 0 <= i < |es| && FiresIn(c, es, i, p) && es[i].action == a;
      if i > 0 {
        assert RunsAt(c, es[1..], p1, a);
      }
    }
    if forall i :: 0 <= i < |es| ==> !Fires(c, es[i], p) {
      forall i | 0 <= i < |es| - 1 ensures !Fires(c, es[1..][i], p1) {
        ClearedFiresLess(c, es[1..][i], p, {(c, es[0].button)});
      }
    }
  }

  lemma StepAll(c: Controller, es: seq<Entry>, p: Pad, rest: seq<Action>)
    requires |es| > 0
    requires |rest| <= |es| - 1
    requires forall i :: 1 <= i < |es| ==>
               es[1..][i - 1] == es[i] && (FiresIn(c, es[1..], i - 1, Cleared(p, {(c, es[0].button)})) <==> FiresIn(c, es, i, p))
    requires |rest| == |es| - 1 <==> forall i :: 0 <= i < |es| - 1 ==> FiresIn(c, es[1..], i, Cleared(p, {(c, es[0].button)}))
    requires |rest| == |es| - 1 ==> rest == Actions(es[1..])
    ensures var r := RunEntry(c, es[0], p).0 + rest;
            |r| <= |es| &&
            (|r| == |es| <==> forall i :: 0 <= i < |es| ==> FiresIn(c, es, i, p)) &&
            (|r| == |es| ==> r == Actions(es))
  {
    var p1 := Cleared(p, {(c, es[0].button)});
    assert FiresIn(c, es, 0, p) <==> Fires(c, es[0], p);
    var r := RunEntry(c, es[0], p).0 + rest;
    if |r| == |es| {
      assert Fires(c, es[0], p) && |rest| == |es| - 1;
      assert r == Actions(es);
    }
    if forall i :: 0 <= i < |es| ==> FiresIn(c, es, i, p) {
      assert forall i :: 0 <= i < |es| - 1 ==> FiresIn(c, es[1..], i, p1) by {
        forall i | 0 <= i < |es| - 1 ensures FiresIn(c, es[1..], i, p1) {
          assert FiresIn(c, es, i + 1, p);
        }
      }
    }
  }

  /** `RunList`'s computation without its contract, for reasoning about
      lists joined together. */
  function Run(c: Controller, es: seq<Entry>, p: Pad): (seq<Action>, Pad)
    decreases |es|
  {
    if |es| == 0 then ([], p)
    else
      var first := RunEntry(c, es[0], p);
      var rest := Run(c, es[1..], first.1);
      (first.0 + rest.0, rest.1)
  }

  lemma {:induction false} RunListIsRun(c: Controller, es: seq<Entry>, p: Pad)
    ensures RunList(c, es, p) == Run(c, es, p)
    decreases |es|
  {
    if |es| > 0 {
      RunListIsRun(c, es[1..], RunEntry(c, es[0], p).1);
    }
  }

  lemma {:induction false} RunAppend(c: Controller, es1: seq<Entry>, es2: seq<Entry>, p: Pad)
    ensures Run(c, es1 + es2, p) == (Run(c, es1, p).0 + Run(c, es2, Run(c, es1, p).1).0, Run(c, es2, Run(c, es1, p).1).1)
    decreases |es1|
  {
    if |es1| > 0 {
      var e := RunEntry(c, es1[0], p);
      assert (es1 + es2)[1..] == es1[1..] + es2 && (es1 + es2)[0] == es1[0];
      RunAppend(c, es1[1..], es2, e.1);
      var tail := Run(c, es1[1..], e.1);
      var second := Run(c, es2, tail.1);
      assert e.0 + (tail.0 + second.0) == (e.0 + tail.0) + second.0;
    } else {
      assert es1 + es2 == es2;
      assert [] + Run(c, es2, p).0 == Run(c, es2, p).0;
    }
  }

  /** Running a list split in two runs the first part from the pad, then the
      second part from the pad the first part left. */
  lemma RunListAppend(c: Controller, es1: seq<Entry>, es2: seq<Entry>, p: Pad)
    ensures var first := RunList(c, es1, p);
            var second := RunList(c, es2, first.1);
            RunList(c, es1 + es2, p) == (first.0 + second.0, second.1)
  {
    RunListIsRun(c, es1 + es2, p);
    RunListIsRun(c, es1, p);
    RunListIsRun(c, es2, RunList(c, es1, p).1);
    RunAppend(c, es1, es2, p);
  }

  /** Two press entries on one button, the pattern robot.py registers for
      the shooter: a press runs the first entry's action only, because the
      first `_run` has already reported and cleared the press. */
  lemma SecondPressEntryNeverRuns(c: Controller, b: ButtonId, f: Action, g: Action, p: Pad)
    requires (c, b) in p.pressed
    ensures RunList(c, [Entry(b, OnPress, f), Entry(b, OnPress, g)], p).0 == [f]
  {
    var es := [Entry(b, OnPress, f), Entry(b, OnPress, g)];
    var first := RunEntry(c, es[0], p);
    assert first.0 == [f];
    assert es[1..] == [Entry(b, OnPress, g)];
    assert !Fires(c, es[1], first.1);
    assert RunList(c, es[1..], first.1).0 == [];
  }

  /** A button of another controller reads the same however many of this
      controller's buttons have been cleared. */
  lemma OtherControllerUnaffected(c: Controller, c0: Controller, es0: seq<Entry>, es: seq<Entry>, j: int, p: Pad)
    requires c != c0 && 0 <= j < |es|
    ensures Fires(c, es[j], Cleared(p, ButtonsOf(c0, es0))) <==> Fires(c, es[j], p)
    ensures FiresIn(c, es, j, Cleared(p, ButtonsOf(c0, es0))) <==> FiresIn(c, es, j, p)
  {
    assert (c, es[j].button) !in ButtonsOf(c0, es0);
  }

  /** A reading from a pad with some edges cleared fires only where the
      full pad fires. */
  lemma ClearedFiresLess(c: Controller, e: Entry, p: Pad, ks: set<Key>)
    ensures Fires(c, e, Cleared(p, ks)) ==> Fires(c, e, p)
  {
  }

  /** `update_buttons`: every controller with the list its entry refers to,
      in the order of `entries`, each entry reading the pad the entries
      before it left. Only actions of entries whose condition held at the
      start run; with distinct controllers, as every `dict` has, an action
      runs iff an entry of some controller's list fires for that controller.
      Afterwards every listed button's edges are cleared. */
  function UpdateButtons(s: State, p: Pad): (r: (seq<Action>, Pad))
    requires Valid(s)
    ensures forall a :: a in r.0 ==> Ran(s, p, a)
    ensures DistinctKeys(s.entries) ==> forall a :: a in r.0 <==> RunsIn(s, p, a)
    ensures r.1.held == p.held && r.1.pressed <= p.pressed && r.1.released <= p.released
    ensures forall i, j :: Listed(s, i, j) ==> ClearedAt(r.1, s, i, j)
    decreases |s.entries|
  {
    if |s.entries| == 0 then ([], p)
    else
      var rest := State(s.lists, s.entries[1..]);
      assert Valid(rest) by {
        forall i | 0 <= i < |rest.entries| ensures rest.entries[i].1 < |rest.lists| {
          assert rest.entries[i] == s.entries[i + 1];
        }
      }
      var first := RunList(s.entries[0].0, s.lists[s.entries[0].1], p);
      var after := UpdateButtons(rest, first.1);
      UpdateSoundStep(s, p, rest, first, after.0);
      UpdateExactStep(s, p, rest, first, after.0);
      UpdatePadStep(s, p, rest, first, after.1);
      (first.0 + after.0, after.1)
  }

  /** Some listed entry with action `a` has a condition that holds for `p`. */
  ghost predicate Ran(s: State, p: Pad, a: Action)
    requires Valid(s)
  {
    exists i, j :: Listed(s, i, j) && Fires(s.entries[i].0, s.lists[s.entries[i].1][j], p) &&
                   s.lists[s.entries[i].1][j].action == a
  }

  /** Some listed entry with action `a` fires in its controller's list. */
  ghost predicate RunsIn(s: State, p: Pad, a: Action)
    requires Valid(s)
  {
    exists i, j :: Listed(s, i, j) && FiresIn(s.entries[i].0, s.lists[s.entries[i].1], j, p) &&
                   s.lists[s.entries[i].1][j].action == a
  }

  /** The button of listed entry `(i, j)` has no edge left in `p`. */
  predicate ClearedAt(p: Pad, s: State, i: int, j: int)
    requires Valid(s) && Listed(s, i, j)
  {
    var k := (s.entries[i].0, s.lists[s.entries[i].1][j].button);
    !Read(p, k).pressed && !Read(p, k).released
  }

  /** Soundness of one step of `UpdateButtons`. */
  lemma UpdateSoundStep(s: State, p: Pad, rest: State, first: (seq<Action>, Pad), after: seq<Action>)
    requires Valid(s) && |s.entries| > 0 && rest == State(s.lists, s.entries[1..]) && Valid(rest)
    requires first == RunList(s.entries[0].0, s.lists[s.entries[0].1], p)
    requires forall a :: a in after ==> Ran(rest, first.1, a)
    ensures forall a :: a in first.0 + after ==> Ran(s, p, a)
  {
    var c0, l0 := s.entries[0].0, s.lists[s.entries[0].1];
    forall a | a in first.0 + after ensures Ran(s, p, a) {
      if a in first.0 {
        var j :| 0 <= j < |l0| && FiresIn(c0, l0, j, p) && l0[j].action == a;
        assert Listed(s, 0, j);
      } else {
        var i, j :| Listed(rest, i, j) && Fires(rest.entries[i].0, rest.lists[rest.entries[i].1][j], first.1) &&
                    rest.lists[rest.entries[i].1][j].action == a;
        assert rest.entries[i] == s.entries[i + 1];
        ClearedFiresLess(rest.entries[i].0, rest.lists[rest.entries[i].1][j], p, ButtonsOf(c0, l0));
        assert Listed(s, i + 1, j);
      }
    }
  }

  /** With distinct controllers, the exact firing set of one step of
      `UpdateButtons`: the later controllers read their buttons as they were. */
  lemma UpdateExactStep(s: State, p: Pad, rest: State, first: (seq<Action>, Pad), after: seq<Action>)
    requires Valid(s) && |s.entries| > 0 && rest == State(s.lists, s.entries[1..]) && Valid(rest)
    requires first == RunList(s.entries[0].0, s.lists[s.entries[0].1], p)
    requires DistinctKeys(rest.entries) ==> forall a :: a in after <==> RunsIn(rest, first.1, a)
    ensures DistinctKeys(s.entries) ==> forall a :: a in first.0 + after <==> RunsIn(s, p, a)
  {
    if DistinctKeys(s.entries) {
      ExactStep(s, p, rest, first, after);
    }
  }

  lemma ExactStep(s: State, p: Pad, rest: State, first: (seq<Action>, Pad), after: seq<Action>)
    requires Valid(s) && |s.entries| > 0 && rest == State(s.lists, s.entries[1..]) && Valid(rest)
    requires DistinctKeys(s.entries)
    requires first == RunList(s.entries[0].0, s.lists[s.entries[0].1], p)
    requires DistinctKeys(rest.entries) ==> forall a :: a in after <==> RunsIn(rest, first.1, a)
    ensures forall a :: a in first.0 + after <==> RunsIn(s, p, a)
  {
    var c0, l0 := s.entries[0].0, s.lists[s.entries[0].1];
    TailDistinct(s.entries);
    forall i, j | Listed(rest, i, j)
      ensures FiresIn(rest.entries[i].0, rest.lists[rest.entries[i].1], j, first.1) <==>
              FiresIn(rest.entries[i].0, rest.lists[rest.entries[i].1], j, p)
    {
      assert Keys(rest.entries)[i] == rest.entries[i].0;
      OtherControllerUnaffected(rest.entries[i].0, c0, l0, rest.lists[rest.entries[i].1], j, p);
    }
    forall a | a in first.0 + after ensures RunsIn(s, p, a) {
      if a in first.0 {
        var j :| 0 <= j < |l0| && FiresIn(c0, l0, j, p) && l0[j].action == a;
        assert Listed(s, 0, j);
      } else {
        var i, j :| Listed(rest, i, j) && FiresIn(rest.entries[i].0, rest.lists[rest.entries[i].1], j, first.1) &&
                    rest.lists[rest.entries[i].1][j].action == a;
        assert rest.entries[i] == s.entries[i + 1];
        assert Listed(s, i + 1, j);
      }
    }
    forall a | RunsIn(s, p, a) ensures a in first.0 + after {
      var i, j :| Listed(s, i, j) && FiresIn(s.entries[i].0, s.lists[s.entries[i].1], j, p) &&
                  s.lists[s.entries[i].1][j].action == a;
      if i > 0 {
        assert rest.entries[i - 1] == s.entries[i];
        assert Listed(rest, i - 1, j);
        assert RunsIn(rest, first.1, a);
      }
    }
  }

  /** The pad after one step of `UpdateButtons`. */
  lemma UpdatePadStep(s: State, p: Pad, rest: State, first: (seq<Action>, Pad), after: Pad)
    requires Valid(s) && |s.entries| > 0 && rest == State(s.lists, s.entries[1..]) && Valid(rest)
    requires first.1 == Cleared(p, ButtonsOf(s.entries[0].0, s.lists[s.entries[0].1]))
    requires after.held == first.1.held && after.pressed <= first.1.pressed && after.released <= first.1.released
    requires forall i, j :: Listed(rest, i, j) ==> ClearedAt(after, rest, i, j)
    ensures after.held == p.held && after.pressed <= p.pressed && after.released <= p.released
    ensures forall i, j :: Listed(s, i, j) ==> ClearedAt(after, s, i, j)
  {
    var c0, l0 := s.entries[0].0, s.lists[s.entries[0].1];
    forall i, j | Listed(s, i, j) ensures ClearedAt(after, s, i, j) {
      if i == 0 {
        assert (c0, l0[j].button) in ButtonsOf(c0, l0);
      } else {
        assert rest.entries[i - 1] == s.entries[i];
        assert Listed(rest, i - 1, j) && ClearedAt(after, rest, i - 1, j);
      }
    }
  }

  /** `j` indexes the list that controller entry `i` refers to. */
  predicate Listed(s: State, i: int, j: int)
    requires Valid(s)
  {
    0 <= i < |s.entries| && 0 <= j < |s.lists[s.entries[i].1]|
  }

  /** With every controller aliasing the container, each entry runs once per
      registered controller: when every entry of the container fires for
      every registered controller, the actions run are the container's
      actions in registration order, repeated once per controller. Clearing
      one controller's edges leaves the next controller's readings alone. */
  lemma {:induction false} EachEntryRunsPerController(s: State, p: Pad)
    requires Aliased(s) && DistinctKeys(s.entries)
    requires forall i, j :: 0 <= i < |s.entries| && 0 <= j < |s.lists[Container]| ==>
               FiresIn(s.entries[i].0, s.lists[Container], j, p)
    ensures UpdateButtons(s, p).0 == Repeat(Actions(s.lists[Container]), |s.entries|)
    decreases |s.entries|
  {
    if |s.entries| > 0 {
      var rest := State(s.lists, s.entries[1..]);
      assert Aliased(rest) by {
        forall i | 0 <= i < |rest.entries| ensures rest.entries[i].1 == Container {
          assert rest.entries[i] == s.entries[i + 1];
        }
      }
      var c0, list := s.entries[0].0, s.lists[Container];
      assert s.entries[0].1 == Container;
      var first := RunList(c0, list, p);
      TailDistinct(s.entries);
      forall i, j | 0 <= i < |rest.entries| && 0 <= j < |list|
        ensures FiresIn(rest.entries[i].0, list, j, first.1)
      {
        assert rest.entries[i] == s.entries[i + 1];
        assert Keys(rest.entries)[i] == rest.entries[i].0;
        OtherControllerUnaffected(rest.entries[i].0, c0, list, list, j, p);
      }
      EachEntryRunsPerController(rest, first.1);
      AllFiringRunsActions(c0, list, p);
      assert UpdateButtons(s, p).0 == first.0 + UpdateButtons(rest, first.1).0;
      assert Repeat(Actions(list), |s.entries|) == Actions(list) + Repeat(Actions(list), |rest.entries|);
    }
  }

  /** When every entry of a list fires, the list runs its actions in order. */
  lemma AllFiringRunsActions(c: Controller, es: seq<Entry>, p: Pad)
    requires forall i :: 0 <= i < |es| ==> FiresIn(c, es, i, p)
    ensures RunList(c, es, p).0 == Actions(es)
  {
  }

  /** Hence, with every entry firing for every controller, an update runs
      controllers times registrations actions. */
  lemma ActionCountPerController(s: State, p: Pad)
    requires Aliased(s) && DistinctKeys(s.entries)
    requires forall i, j :: 0 <= i < |s.entries| && 0 <= j < |s.lists[Container]| ==>
               FiresIn(s.entries[i].0, s.lists[Container], j, p)
    ensures |UpdateButtons(s, p).0| == |s.entries| * |s.lists[Container]|
  {
    EachEntryRunsPerController(s, p);
    assert |Actions(s.lists[Container])| == |s.lists[Container]|;
  }

  /** The actions of `es`, in order. */
  function Actions(es: seq<Entry>): (r: seq<Action>)
    ensures |r| == |es| && forall i :: 0 <= i < |es| ==> r[i] == es[i].action
  {
    seq(|es|, i requires 0 <= i < |es| => es[i].action)
  }

  /** `n` copies of `xs`, one after another. */
  function Repeat(xs: seq<Action>, n: nat): (r: seq<Action>)
    ensures |r| == n * |xs|
  {
    if n == 0 then [] else xs + Repeat(xs, n - 1)
  }

  /** `entries` as evidently intended: each controller with the entries of
      its own `with` block. */
  type FixedEntries = Dict<Controller, seq<Entry>>

  /** A `with` block of the corrected manager: `entries[c]` becomes this
      block's registrations. */
  function BlockFixed(entries: FixedEntries, c: Controller, regs: seq<Entry>): (r: FixedEntries)
    ensures Lookup(r, c) == Some(regs)
    ensures forall d :: d != c ==> Lookup(r, d) == Lookup(entries, d)
  {
    Set(entries, c, regs)
  }

  /** `update_buttons` of the corrected manager, reading the same pad. Only
      actions of registrations whose condition held at the start run; with
      distinct controllers an action runs iff one of some controller's
      registrations fires for it in its list. */
  function UpdateButtonsFixed(entries: FixedEntries, p: Pad): (r: (seq<Action>, Pad))
    ensures |r.0| <= Total(entries)
    ensures forall a :: a in r.0 ==> FixedRan(entries, p, a)
    ensures DistinctKeys(entries) ==> forall a :: a in r.0 <==> FixedRunsIn(entries, p, a)
    decreases |entries|
  {
    if |entries| == 0 then ([], p)
    else
      var first := RunList(entries[0].0, entries[0].1, p);
      var after := UpdateButtonsFixed(entries[1..], first.1);
      FixedSoundStep(entries, p, first, after.0);
      FixedExactStep(entries, p, first, after.0);
      (first.0 + after.0, after.1)
  }

  /** Some registration with action `a` has a condition that holds for `p`. */
  ghost predicate FixedRan(entries: FixedEntries, p: Pad, a: Action) {
    exists i, j :: 0 <= i < |entries| && 0 <= j < |entries[i].1| &&
                   Fires(entries[i].0, entries[i].1[j], p) && entries[i].1[j].action == a
  }

  /** Some registration with action `a` fires in its controller's list. */
  ghost predicate FixedRunsIn(entries: FixedEntries, p: Pad, a: Action) {
    exists i, j :: 0 <= i < |entries| && 0 <= j < |entries[i].1| &&
                   FiresIn(entries[i].0, entries[i].1, j, p) && entries[i].1[j].action == a
  }

  /** Soundness of one step of `UpdateButtonsFixed`. */
  lemma FixedSoundStep(entries: FixedEntries, p: Pad, first: (seq<Action>, Pad), after: seq<Action>)
    requires |entries| > 0
    requires forall a :: a in first.0 <==> RunsAt(entries[0].0, entries[0].1, p, a)
    requires first.1 == Cleared(p, ButtonsOf(entries[0].0, entries[0].1))
    requires forall a :: a in after ==> FixedRan(entries[1..], first.1, a)
    ensures forall a :: a in first.0 + after ==> FixedRan(entries, p, a)
  {
    var c0, l0 := entries[0].0, entries[0].1;
    forall a | a in first.0 + after ensures FixedRan(entries, p, a) {
      if a in first.0 {
        var j :| 0 <= j < |l0| && FiresIn(c0, l0, j, p) && l0[j].action == a;
        assert 0 < |entries| && 0 <= j < |entries[0].1|;
      } else {
        var i, j :| 0 <= i < |entries[1..]| && 0 <= j < |entries[1..][i].1| &&
                    Fires(entries[1..][i].0, entries[1..][i].1[j], first.1) && entries[1..][i].1[j].action == a;
        assert entries[1..][i] == entries[i + 1];
        ClearedFiresLess(entries[i + 1].0, entries[i + 1].1[j], p, ButtonsOf(c0, l0));
      }
    }
  }

  /** With distinct controllers, the exact firing set of one step of
      `UpdateButtonsFixed`. */
  lemma FixedExactStep(entries: FixedEntries, p: Pad, first: (seq<Action>, Pad), after: seq<Action>)
    requires |entries| > 0
    requires forall a :: a in first.0 <==> RunsAt(entries[0].0, entries[0].1, p, a)
    requires first.1 == Cleared(p, ButtonsOf(entries[0].0, entries[0].1))
    requires DistinctKeys(entries[1..]) ==> forall a :: a in after <==> FixedRunsIn(entries[1..], first.1, a)
    ensures DistinctKeys(entries) ==> forall a :: a in first.0 + after <==> FixedRunsIn(entries, p, a)
  {
    if DistinctKeys(entries) {
      var c0, l0 := entries[0].0, entries[0].1;
      TailDistinct(entries);
      forall a | a in first.0 + after ensures FixedRunsIn(entries, p, a) {
        if a in first.0 {
          var j :| 0 <= j < |l0| && FiresIn(c0, l0, j, p) && l0[j].action == a;
          assert 0 < |entries| && 0 <= j < |entries[0].1|;
        } else {
          var i, j :| 0 <= i < |entries[1..]| && 0 <= j < |entries[1..][i].1| &&
                      FiresIn(entries[1..][i].0, entries[1..][i].1, j, first.1) && entries[1..][i].1[j].action == a;
          assert entries[1..][i] == entries[i + 1];
          assert Keys(entries[1..])[i] == entries[i + 1].0;
          OtherControllerUnaffected(entries[i + 1].0, c0, l0, entries[i + 1].1, j, p);
        }
      }
      forall a | FixedRunsIn(entries, p, a) ensures a in first.0 + after {
        var i, j :| 0 <= i < |entries| && 0 <= j < |entries[i].1| &&
                    FiresIn(entries[i].0, entries[i].1, j, p) && entries[i].1[j].action == a;
        if i > 0 {
          assert entries[1..][i - 1] == entries[i];
          assert Keys(entries[1..])[i - 1] == entries[i].0;
          OtherControllerUnaffected(entries[i].0, c0, l0, entries[i].1, j, p);
          assert FixedRunsIn(entries[1..], first.1, a);
        } else {
          assert RunsAt(c0, l0, p, a);
        }
      }
    }
  }

  /** The number of registrations over all controllers. */
  function Total(entries: FixedEntries): nat {
    if |entries| == 0 then 0 else |entries[0].1| + Total(entries[1..])
  }

  /** With the corrected manager two controllers keep their own entries, and
      an update runs each entry once, for its own controller only, each
      reading the pad as it was. */
  lemma FixedKeepsEntriesApart(c1: Controller, c2: Controller, e1: Entry, e2: Entry, p: Pad)
    requires c1 != c2
    ensures var entries := BlockFixed(BlockFixed([], c1, [e1]), c2, [e2]);
            Lookup(entries, c1) == Some([e1]) && Lookup(entries, c2) == Some([e2]) &&
            UpdateButtonsFixed(entries, p).0 == RunEntry(c1, e1, p).0 + RunEntry(c2, e2, p).0
  {
    var entries := BlockFixed(BlockFixed([], c1, [e1]), c2, [e2]);
    assert entries == [(c1, [e1]), (c2, [e2])];
    var p1 := RunEntry(c1, e1, p).1;
    SingleRun(c1, e1, p);
    SingleRun(c2, e2, p1);
    assert Read(p1, (c2, e2.button)) == Read(p, (c2, e2.button));
    var later: FixedEntries := entries[1..];
    assert later == [(c2, [e2])] && |later[1..]| == 0;
  }

  /** A list of one entry runs that entry. */
  lemma SingleRun(c: Controller, e: Entry, p: Pad)
    ensures RunList(c, [e], p) == RunEntry(c, e, p)
  {
    RunListIsRun(c, [e], p);
    assert [e][1..] == [];
    assert Run(c, [e], p) == (RunEntry(c, e, p).0 + [], RunEntry(c, e, p).1);
  }
}
