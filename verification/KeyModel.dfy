/** Keys, symbols and batches of the Wayland virtual keyboard, the bookkeeping a batch
    asks for (simulator) and the bookkeeping the executor actually performs. */
module KeyModel {
  import opened Basics

  /** A bit of the XKB modifier mask. The source's four constants are four different
      bits of one word, so a mask is exactly a set of these. */
  datatype Modifier = Shift | Control | Mod1 | Mod4

  /** One step of decoding a Go string: a Unicode scalar, or one byte that is not UTF-8. */
  datatype Unit = Scalar(r: char) | Bad(b: bv8)

  /** Fixed keycodes of the named, non-modifier keys. */
  type NamedCode = n: nat | 12 <= n <= 36 witness 12

  /** A key name. Several spellings resolve to one modifier or named key and the source
      keys its `held` map by spelling, so the spelling is kept. Every other string is a
      literal; no spelling in the name table is a single character. */
  datatype Key =
    | ModKey(m: Modifier, spelling: nat)
    | NamedKey(code: NamedCode, spelling: nat)
    | Literal(units: seq<Unit>)

  datatype Symbol = ModSymbol(m: Modifier) | NamedSymbol(code: NamedCode) | RuneSymbol(r: char) | NoSymbol

  datatype KeySend = KeySend(text: seq<Unit>, key: Key, down: bool, up: bool, modifiers: set<Modifier>)

  const REPLACEMENT: char := '\U{FFFD}'
  const DYN_BASE: nat := 37
  const DYN_MAX: nat := 255

  function ModSlot(m: Modifier): (slot: nat)
    ensures 8 <= slot <= 11
  {
    match m
    case Shift => 8
    case Control => 9
    case Mod1 => 10
    case Mod4 => 11
  }

  function RuneOf(u: Unit): char {
    match u
    case Scalar(r) => r
    case Bad(_) => REPLACEMENT
  }

  /** The runes a Go `range` loop sees. */
  function Runes(units: seq<Unit>): (rs: seq<char>)
    ensures |rs| == |units| && forall i :: 0 <= i < |units| ==> rs[i] == RuneOf(units[i])
  {
    if units == [] then [] else [RuneOf(units[0])] + Runes(units[1..])
  }

  predicate ValidUtf8(units: seq<Unit>) {
    forall u :: u in units ==> u.Scalar?
  }

  /** A key that `held` may contain: named, or a single character. */
  predicate Holdable(key: Key) {
    match key
    case ModKey(_, _) => false
    case NamedKey(_, _) => true
    case Literal(units) => |units| == 1
  }

  /** The symbol a held key stands for. */
  function KeySymbol(key: Key): Symbol {
    match key
    case ModKey(m, _) => ModSymbol(m)
    case NamedKey(code, _) => NamedSymbol(code)
    case Literal(units) => if |units| == 1 then RuneSymbol(RuneOf(units[0])) else NoSymbol
  }

  // ---- What a batch means -------------------------------------------------------------

  /** Logical keyboard state: names held and modifier mask. */
  datatype Books = Books(held: set<Key>, mods: set<Modifier>)

  predicate TypesHeldKey(held: set<Key>, text: seq<Unit>) {
    exists u :: u in text && Literal([u]) in held
  }

  /** One step of `validateSendkeysSequence`; None is a rejection. */
  function SimStep(b: Books, a: KeySend): Option<Books> {
    if a.text != [] then
      if !ValidUtf8(a.text) || TypesHeldKey(b.held, a.text) then None else Some(b)
    else if a.key.Literal? && !ValidUtf8(a.key.units) then None
    else if a.up then
      if a.key.ModKey? then
        if a.key.m !in b.mods then None else Some(b.(mods := b.mods - {a.key.m}))
      else
        if a.key !in b.held then None else Some(b.(held := b.held - {a.key}))
    else if a.down && a.key.Literal? && |a.key.units| != 1 then None
    else if (if a.key.ModKey? then a.key.m in b.mods else a.key in b.held) then None
    else if !a.down then Some(b)
    else if a.key.ModKey? then Some(b.(mods := b.mods + {a.key.m}))
    else Some(b.(held := b.held + {a.key}))
  }

  function Sim(b: Books, actions: seq<KeySend>): Option<Books> {
    if actions == [] then Some(b)
    else
      var before := Sim(b, actions[..|actions| - 1]);
      if before.None? then None else SimStep(before.value, actions[|actions| - 1])
  }

  /** The modifiers a key action borrows for its own duration. */
  function Borrowed(b: Books, a: KeySend): set<Modifier> { a.modifiers - b.mods }

  /** Bookkeeping effect of executing one action when every write succeeds; None is the
      executor's own "not held" or "cannot hold" branch. */
  function ExecStep(b: Books, a: KeySend): Option<Books> {
    if a.text != [] then Some(b)
    else
      var during := b.mods + a.modifiers;
      var back := Borrowed(b, a);
      match a.key
      case ModKey(m, _) =>
        if a.up then
          if m !in during then None else Some(b.(mods := (during - {m}) - back))
        else if a.down then Some(b.(mods := (during + {m}) - back))
        else Some(b.(mods := (during - {m}) - back))
      case _ =>
        if a.up then
          if a.key !in b.held then None else Some(Books(b.held - {a.key}, during - back))
        else if a.down then
          if !Holdable(a.key) then None else Some(Books(b.held + {a.key}, during - back))
        else Some(b.(mods := during - back))
  }

  function Exec(b: Books, actions: seq<KeySend>): Option<Books> {
    if actions == [] then Some(b)
    else
      var before := Exec(b, actions[..|actions| - 1]);
      if before.None? then None else ExecStep(before.value, actions[|actions| - 1])
  }

  /** A key press as the focused client sees it: symbol and modifier mask. */
  datatype Press = Press(symbol: Symbol, mask: set<Modifier>)

  function PressRunes(units: seq<Unit>, mask: set<Modifier>): (ps: seq<Press>)
    ensures |ps| == |units|
    ensures forall i :: 0 <= i < |units| ==> ps[i] == Press(RuneSymbol(RuneOf(units[i])), mask)
  {
    if units == [] then [] else [Press(RuneSymbol(RuneOf(units[0])), mask)] + PressRunes(units[1..], mask)
  }

  /** The presses one action asks for in state b. */
  function Intended(b: Books, a: KeySend): seq<Press> {
    if a.text != [] then PressRunes(a.text, b.mods)
    else if a.up then []
    else if a.key.Literal? && !a.down then PressRunes(a.key.units, b.mods + a.modifiers)
    else [Press(KeySymbol(a.key), b.mods + a.modifiers)]
  }

  function IntendedAll(b: Books, actions: seq<KeySend>): seq<Press> {
    if actions == [] then []
    else
      var init := actions[..|actions| - 1];
      var before := Exec(b, init);
      IntendedAll(b, init) + (if before.None? then [] else Intended(before.value, actions[|actions| - 1]))
  }

  /** Held keys that share a slot with one of the given characters. */
  function HitBy(held: set<Key>, units: seq<Unit>): set<Key> {
    set u | u in units && Literal([Scalar(RuneOf(u))]) in held :: Literal([Scalar(RuneOf(u))])
  }

  /** Held keys whose physical slot a batch lets go of although they stay in the books:
      a tap of a literal of two or more characters presses and releases each character's
      slot, and only the whole literal is looked up among the held keys. */
  function TappedAway(b: Books, a: KeySend, lost: set<Key>): set<Key> {
    if a.text != [] then
      lost + HitBy(b.held, a.text)
    else if a.key.ModKey? then lost
    else if a.up || a.down then lost - {a.key}
    else if a.key.NamedKey? then (if a.key in b.held then lost + {a.key} else lost)
    else lost + HitBy(b.held, a.key.units)
  }

  function TappedAwayAll(b: Books, actions: seq<KeySend>): set<Key> {
    if actions == [] then {}
    else
      var init := actions[..|actions| - 1];
      var before := Exec(b, init);
      if before.None? then {} else TappedAway(before.value, actions[|actions| - 1], TappedAwayAll(b, init))
  }

  // ---- Simulator against executor ------------------------------------------------------

  /** A hold of a modifier key that also borrows that same modifier. */
  predicate BorrowsItself(a: KeySend) {
    a.text == [] && a.key.ModKey? && a.down && !a.up && a.key.m in a.modifiers
  }

  lemma StepAgrees(b: Books, a: KeySend)
    requires SimStep(b, a).Some?
    ensures (ExecStep(b, a) == SimStep(b, a)) <==> !BorrowsItself(a)
  {
    var during, back := b.mods + a.modifiers, Borrowed(b, a);
    assert during - back == b.mods;
    if a.text == [] && a.key.ModKey? {
      var m := a.key.m;
      assert (during - {m}) - back == b.mods - {m};
      if a.up {
        assert m in during;
      } else if a.down {
        if m in a.modifiers {
          assert m in back;
          assert m !in (during + {m}) - back;
        } else {
          assert (during + {m}) - back == b.mods + {m};
        }
      } else {
        assert b.mods - {m} == b.mods;
      }
    }
  }

  /** The executor keeps the books the simulator predicted, after every prefix. */
  predicate Agree(b: Books, actions: seq<KeySend>) {
    forall n :: 0 <= n <= |actions| ==> Exec(b, actions[..n]) == Sim(b, actions[..n])
  }

  /** Agreement on every prefix is agreement on every shorter one and on the whole. */
  lemma AgreeSnoc(b: Books, actions: seq<KeySend>)
    requires actions != []
    ensures Agree(b, actions) <==> Agree(b, actions[..|actions| - 1]) && Exec(b, actions) == Sim(b, actions)
  {
    hide Exec, Sim;
    var init := actions[..|actions| - 1];
    assert forall n :: 0 <= n < |actions| ==> init[..n] == actions[..n];
    assert actions[..|actions|] == actions;
    if Agree(b, init) && Exec(b, actions) == Sim(b, actions) {
      forall n | 0 <= n <= |actions| ensures Exec(b, actions[..n]) == Sim(b, actions[..n]) {
        if n < |actions| { assert init[..n] == actions[..n]; }
      }
    }
    if Agree(b, actions) {
      forall n | 0 <= n < |actions| ensures Exec(b, init[..n]) == Sim(b, init[..n]) { assert init[..n] == actions[..n]; }
      assert Exec(b, actions[..|actions|]) == Sim(b, actions[..|actions|]);
    }
  }

  /** The executor keeps the books the simulator predicted, after every prefix of an
      accepted batch, exactly when no action holds a modifier key while borrowing it. */
  lemma {:induction false} ExecutorFollowsSimulator(b: Books, actions: seq<KeySend>)
    requires Sim(b, actions).Some?
    ensures Agree(b, actions) <==> forall a :: a in actions ==> !BorrowsItself(a)
  {
    hide SimStep, ExecStep, BorrowsItself;
    if actions == [] {
      assert forall n :: 0 <= n <= |actions| ==> actions[..n] == [];
    } else {
      var init, last := actions[..|actions| - 1], actions[|actions| - 1];
      ExecutorFollowsSimulator(b, init);
      StepAgrees(Sim(b, init).value, last);
      AgreeSnoc(b, actions);
      assert Agree(b, init) ==> Exec(b, init) == Sim(b, init) by { assert init[..|init|] == init; }
      assert actions == init + [last];
      assert forall a :: a in actions <==> a in init || a == last;
    }
  }

  /** {control_l down} borrowing Control: accepted, predicted held, and not held afterwards. */
  lemma BorrowedModifierIsDropped()
    ensures var hold := KeySend([], ModKey(Control, 0), true, false, {Control});
            && Sim(Books({}, {}), [hold]) == Some(Books({}, {Control}))
            && Exec(Books({}, {}), [hold]) == Some(Books({}, {}))
  {
    var hold := KeySend([], ModKey(Control, 0), true, false, {Control});
    assert [hold][..0] == [] && {} + {Control} == {Control};
    assert SimStep(Books({}, {}), hold) == Some(Books({}, {Control}));
    assert ExecStep(Books({}, {}), hold) == Some(Books({}, {}));
  }

  // ---- Which batches are accepted ---------------------------------------------------------

  predicate IsDown(b: Books, key: Key) {
    if key.ModKey? then key.m in b.mods else key in b.held
  }

  /** What the executor can do in state b: type text of which nothing is held; let go of what is down; hold or
      tap what is up, and hold single characters and names only. */
  predicate Doable(b: Books, a: KeySend) {
    if a.text != [] then ValidUtf8(a.text) && !TypesHeldKey(b.held, a.text)
    else
      && (a.key.Literal? ==> ValidUtf8(a.key.units))
      && (a.up <==> IsDown(b, a.key))
      && (a.down && !a.up ==> a.key.ModKey? || Holdable(a.key))
  }

  /** A hold of a modifier without borrowing that modifier at the same time, which would drop it. */
  function Honest(a: KeySend): KeySend {
    if BorrowsItself(a) then a.(modifiers := a.modifiers - {a.key.m}) else a
  }

  function HonestAll(actions: seq<KeySend>): (r: seq<KeySend>)
    ensures |r| == |actions| && forall i :: 0 <= i < |actions| ==> r[i] == Honest(actions[i])
  {
    seq(|actions|, i requires 0 <= i < |actions| => Honest(actions[i]))
  }

  /** Before each action the executor's books allow it. */
  predicate DoableAll(b: Books, actions: seq<KeySend>) {
    forall i :: 0 <= i < |actions| ==>
      Exec(b, actions[..i]).Some? && Doable(Exec(b, actions[..i]).value, actions[i])
  }

  lemma StepAccepted(b: Books, a: KeySend)
    ensures SimStep(b, a).Some? <==> Doable(b, a)
    ensures SimStep(b, Honest(a)) == SimStep(b, a) && !BorrowsItself(Honest(a))
    ensures Doable(b, Honest(a)) <==> Doable(b, a)
  {}

  lemma DoableSnoc(b: Books, actions: seq<KeySend>)
    requires actions != []
    ensures var init := actions[..|actions| - 1];
      DoableAll(b, actions) <==>
        DoableAll(b, init) && Exec(b, init).Some? && Doable(Exec(b, init).value, actions[|actions| - 1])
  {
    hide Exec, Doable;
    var init := actions[..|actions| - 1];
    assert forall i :: 0 <= i < |init| ==> init[..i] == actions[..i] && init[i] == actions[i];
    assert forall i :: 0 <= i < |actions| ==> i < |init| || actions[..i] == init;
  }

  lemma {:induction false} HonestFollowed(b: Books, actions: seq<KeySend>)
    ensures Sim(b, actions).Some? <==> DoableAll(b, HonestAll(actions))
    ensures Sim(b, actions).Some? ==> Exec(b, HonestAll(actions)) == Sim(b, actions)
  {
    hide SimStep, ExecStep, Doable, BorrowsItself, Honest;
    if actions != [] {
      var init, last := actions[..|actions| - 1], actions[|actions| - 1];
      HonestFollowed(b, init);
      assert HonestAll(actions)[..|actions| - 1] == HonestAll(init);
      DoableSnoc(b, HonestAll(actions));
      if Sim(b, init).Some? {
        StepAccepted(Sim(b, init).value, last);
        if SimStep(Sim(b, init).value, Honest(last)).Some? { StepAgrees(Sim(b, init).value, Honest(last)); }
      }
    }
  }

  /** A batch is accepted exactly if the executor, were no modifier borrowed by its own hold, finds every
      action possible in the books it has by then. */
  lemma AcceptedExactly(b: Books, actions: seq<KeySend>)
    ensures Sim(b, actions).Some? <==> DoableAll(b, HonestAll(actions))
    ensures (forall a :: a in actions ==> !BorrowsItself(a)) ==> HonestAll(actions) == actions
  {
    HonestFollowed(b, actions);
  }

  /** Text under a held modifier: hold Shift, type, let Shift go. */
  lemma HoldTypeRelease(text: seq<Unit>)
    requires ValidUtf8(text) && text != []
    ensures var hold, release := KeySend([], ModKey(Shift, 0), true, false, {}), KeySend([], ModKey(Shift, 0), false, true, {});
      Sim(Books({}, {}), [hold, KeySend(text, Literal([]), false, false, {}), release]) == Some(Books({}, {}))
  {
    var hold, release := KeySend([], ModKey(Shift, 0), true, false, {}), KeySend([], ModKey(Shift, 0), false, true, {});
    var typed := KeySend(text, Literal([]), false, false, {});
    var b := Books({}, {});
    assert [hold, typed, release][..2] == [hold, typed] && [hold, typed][..1] == [hold] && [hold][..0] == [];
    assert {} + {Shift} == {Shift};
    assert SimStep(b, hold) == Some(Books({}, {Shift})) && Sim(b, []) == Some(b);
    assert Sim(b, [hold]) == Some(Books({}, {Shift}));
    assert Sim(b, [hold, typed]) == Some(Books({}, {Shift}));
    assert {Shift} - {Shift} == {};
  }

  /** A literal tap one of whose characters is held in its own right. */
  predicate TapsHeldKey(b: Books, a: KeySend) {
    a.text == [] && !a.up && !a.down && a.key.Literal? && TypesHeldKey(b.held, a.key.units)
  }

  /** Holds and releases of held keys are booked alike by simulator and executor. */
  lemma {:induction false} HeldAgrees(b: Books, actions: seq<KeySend>)
    requires Sim(b, actions).Some? && Exec(b, actions).Some?
    ensures Exec(b, actions).value.held == Sim(b, actions).value.held
  {
    if actions != [] {
      HeldAgrees(b, actions[..|actions| - 1]);
    }
  }

  lemma TapStep(b: Books, s: Books, a: KeySend)
    requires SimStep(s, a).Some? && s.held == b.held
    ensures (TappedAway(b, a, {}) == {}) <==> !TapsHeldKey(b, a)
  {
    if a.text != [] {
      assert forall u :: u in a.text ==> u == Scalar(RuneOf(u));
    } else if a.key.Literal? && !a.up && !a.down {
      var lost := HitBy(b.held, a.key.units);
      assert TappedAway(b, a, {}) == lost;
      forall u | u in a.key.units ensures u == Scalar(RuneOf(u)) {}
      if TypesHeldKey(b.held, a.key.units) {
        var u :| u in a.key.units && Literal([u]) in b.held;
        assert Literal([Scalar(RuneOf(u))]) in lost;
      } else {
        assert forall u :: u in a.key.units ==> Literal([u]) !in b.held;
      }
    }
  }

  /** No literal tap contains a character held when its turn comes. */
  predicate NeverTapsHeld(b: Books, actions: seq<KeySend>) {
    actions != [] ==>
      var init := actions[..|actions| - 1];
      && NeverTapsHeld(b, init)
      && (Exec(b, init).Some? ==> !TapsHeldKey(Exec(b, init).value, actions[|actions| - 1]))
  }

  /** Every key in the books is physically down after each prefix of the batch. */
  predicate AlwaysDown(b: Books, actions: seq<KeySend>) {
    actions != [] ==> AlwaysDown(b, actions[..|actions| - 1]) && TappedAwayAll(b, actions) == {}
  }

  /** An accepted batch leaves every key that the books call held physically down, after
      each of its prefixes, exactly when no literal tap contains a character held at that
      point; the simulator's books tell the caller beforehand. */
  lemma {:induction false} HeldKeysSurvive(b: Books, actions: seq<KeySend>)
    requires Sim(b, actions).Some? && Exec(b, actions).Some?
    ensures AlwaysDown(b, actions) <==> NeverTapsHeld(b, actions)
  {
    if actions != [] {
      var init := actions[..|actions| - 1];
      HeldKeysSurvive(b, init);
      HeldAgrees(b, init);
      TapStep(Exec(b, init).value, Sim(b, init).value, actions[|actions| - 1]);
      if AlwaysDown(b, init) {
        EmptyWhenDown(b, init);
      }
    }
  }

  /** Literal taps of at most one character: what the key syntax's named keys amount to. */
  predicate OnlyShortTaps(actions: seq<KeySend>) {
    forall a :: a in actions && a.text == [] && !a.up && !a.down && a.key.Literal? ==> |a.key.units| <= 1
  }

  lemma {:induction false} ShortTapsAreSafe(b: Books, actions: seq<KeySend>)
    requires Sim(b, actions).Some? && OnlyShortTaps(actions)
    ensures NeverTapsHeld(b, actions)
  {
    if actions != [] {
      var init, last := actions[..|actions| - 1], actions[|actions| - 1];
      assert last in actions && forall a :: a in init ==> a in actions;
      ShortTapsAreSafe(b, init);
      if Exec(b, init).Some? {
        HeldAgrees(b, init);
        if last.key.Literal? && |last.key.units| == 1 {
          assert last.key.units == [last.key.units[0]];
          assert forall u :: u in last.key.units ==> Literal([u]) == last.key;
        }
      }
    }
  }

  lemma EmptyWhenDown(b: Books, actions: seq<KeySend>)
    requires AlwaysDown(b, actions)
    ensures TappedAwayAll(b, actions) == {}
  {}

  /** Holding "a" and tapping "ab" is accepted, and "a" stays in the books with its slot let go. */
  lemma LongTapReleasesHeldKey()
    ensures var a := Literal([Scalar('a')]);
            var tap := KeySend([], Literal([Scalar('a'), Scalar('b')]), false, false, {});
            && Sim(Books({a}, {}), [tap]) == Some(Books({a}, {}))
            && TappedAwayAll(Books({a}, {}), [tap]) == {a}
  {
    var a := Literal([Scalar('a')]);
    var b := Books({a}, {});
    var tap := KeySend([], Literal([Scalar('a'), Scalar('b')]), false, false, {});
    assert [tap][..0] == [];
    assert SimStep(b, tap) == Some(b);
    var lost := HitBy(b.held, tap.key.units);
    assert Scalar('a') in tap.key.units;
    assert a in lost;
    forall k | k in lost ensures k == a {}
    assert lost == {a};
    assert TappedAwayAll(b, []) == {};
  }
}
