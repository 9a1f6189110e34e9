/** The Wayland virtual keyboard: slots, uploaded keymap, held keys and modifiers. */
module Keyboard {
  import opened Basics
  import opened KeyModel
  import opened KeySlots

  /** The compositor's side: the keymap in force, the slots it sees down with the symbol
      each stood for when it went down, the modifier mask, and the presses delivered. */
  datatype Seat = Seat(keymap: map<nat, Symbol>, pressed: map<nat, Symbol>, mask: set<Modifier>, typed: seq<Press>)

  /** The connection. Any write may fail, and a context may be cancelled at any check,
      unless the connection is healthy. */
  class Wire {
    const healthy: bool
    var seat: Seat
    var sent: nat

    constructor (healthy: bool, seat: Seat)
      ensures this.healthy == healthy && this.seat == seat && sent == 0
    {
      this.healthy, this.seat, sent := healthy, seat, 0;
    }

    method Outcome() returns (ok: bool)
      ensures healthy ==> ok
    {
      ok := true;
      if !healthy {
        ok := *;
      }
    }

    /** Installing a keymap makes the compositor forget the modifier mask. */
    method SendKeymap(keymap: map<nat, Symbol>) returns (ok: bool)
      modifies this
      ensures healthy ==> ok
      ensures ok ==> seat == old(seat).(keymap := keymap, mask := {}) && sent == old(sent) + 1
      ensures !ok ==> seat == old(seat) && sent == old(sent)
    {
      ok := Outcome();
      if ok {
        seat, sent := seat.(keymap := keymap, mask := {}), sent + 1;
      }
    }

    method SendKey(slot: nat, down: bool) returns (ok: bool)
      modifies this
      ensures slot < 8 ==> !ok
      ensures healthy && slot >= 8 ==> ok
      ensures ok ==> seat == AfterKey(old(seat), slot, down) && sent == old(sent) + 1
      ensures !ok ==> seat == old(seat) && sent == old(sent)
    {
      if slot < 8 {
        return false;
      }
      ok := Outcome();
      if ok {
        seat, sent := AfterKey(seat, slot, down), sent + 1;
      }
    }

    method SendMask(mask: set<Modifier>) returns (ok: bool)
      modifies this
      ensures healthy ==> ok
      ensures ok ==> seat == old(seat).(mask := mask) && sent == old(sent) + 1
      ensures !ok ==> seat == old(seat) && sent == old(sent)
    {
      ok := Outcome();
      if ok {
        seat, sent := seat.(mask := mask), sent + 1;
      }
    }
  }

  function AfterKey(seat: Seat, slot: nat, down: bool): Seat {
    var symbol := SymbolAt(seat.keymap, slot);
    if down then
      seat.(pressed := seat.pressed[slot := symbol], typed := seat.typed + [Press(symbol, seat.mask)])
    else
      seat.(pressed := seat.pressed - {slot})
  }

  /** Held keys whose slot the compositor does not see down under their own symbol. */
  function Loose(held: map<Key, nat>, pressed: map<nat, Symbol>): set<Key> {
    set k | k in held && !(held[k] in pressed && pressed[held[k]] == KeySymbol(k))
  }

  ghost predicate SameAbove(p: map<nat, Symbol>, q: map<nat, Symbol>) {
    forall s: nat :: s > 11 ==> (s in p <==> s in q) && (s in p ==> p[s] == q[s])
  }

  /** The two maps agree outside the given slots. */
  ghost predicate AgreeOff(p: map<nat, Symbol>, q: map<nat, Symbol>, slots: set<nat>) {
    forall s: nat :: s !in slots ==> (s in p <==> s in q) && (s in p ==> p[s] == q[s])
  }

  function TapSlots(slots: map<Target, nat>, units: seq<Unit>): set<nat>
    requires forall u :: u in units ==> RuneTarget(RuneOf(u)) in slots
  {
    set u | u in units :: slots[RuneTarget(RuneOf(u))]
  }

  lemma NothingTapped(units: seq<Unit>, slots: map<Target, nat>, seat: Seat)
    requires forall u :: u in units ==> RuneTarget(RuneOf(u)) in slots
    ensures seat.typed == seat.typed + PressRunes(units[..0], seat.mask)
    ensures AgreeOff(seat.pressed, seat.pressed, TapSlots(slots, units[..0])) && TapSlots(slots, units[..0]) == {}
  {}

  lemma SlotHigh(keymap: map<nat, Symbol>, slots: map<Target, nat>, t: Target)
    requires Defines(keymap, slots) && t in slots
    ensures slots[t] >= 8 && SymbolAt(keymap, slots[t]) == TargetSymbol(t)
  {}

  /** One more slot touched. */
  lemma TapMore(p: map<nat, Symbol>, q: map<nat, Symbol>, r: map<nat, Symbol>, slots: map<Target, nat>, units: seq<Unit>, i: nat)
    requires i < |units| && forall u :: u in units ==> RuneTarget(RuneOf(u)) in slots
    requires AgreeOff(p, q, TapSlots(slots, units[..i])) && AgreeOff(q, r, {slots[RuneTarget(RuneOf(units[i]))]})
    ensures TapSlots(slots, units[..i + 1]) == TapSlots(slots, units[..i]) + {slots[RuneTarget(RuneOf(units[i]))]}
    ensures AgreeOff(p, r, TapSlots(slots, units[..i + 1])) && AgreeOff(p, r, TapSlots(slots, units))
    ensures (q.Keys !! TapSlots(slots, units[..i]) && slots[RuneTarget(RuneOf(units[i]))] !in r ==>
      r.Keys !! TapSlots(slots, units[..i + 1]))
  {
    assert units[..i + 1] == units[..i] + [units[i]];
    assert TapSlots(slots, units[..i + 1]) <= TapSlots(slots, units);
  }

  /** A tap types the symbol of its slot and leaves the slot up. */
  lemma TapTypes(before: Seat, after: Seat, slots: map<Target, nat>, units: seq<Unit>, i: nat)
    requires i < |units| && units[i] in units && RuneTarget(RuneOf(units[i])) in slots
    requires SymbolAt(before.keymap, slots[RuneTarget(RuneOf(units[i]))]) == RuneSymbol(RuneOf(units[i]))
    requires var slot := slots[RuneTarget(RuneOf(units[i]))]; after == AfterKey(AfterKey(before, slot, true), slot, false)
    ensures after.typed == before.typed + [Press(RuneSymbol(RuneOf(units[i])), before.mask)]
    ensures slots[RuneTarget(RuneOf(units[i]))] !in after.pressed
  {}

  lemma LooseAfterTaps(held: map<Key, nat>, slots: map<Target, nat>, p: map<nat, Symbol>, q: map<nat, Symbol>, units: seq<Unit>)
    requires Injective(slots) && OnSlots(held, slots)
    requires forall u :: u in units ==> RuneTarget(RuneOf(u)) in slots
    requires AgreeOff(p, q, TapSlots(slots, units))
    ensures Loose(held, q) <= Loose(held, p) + HitBy(held.Keys, units)
    ensures q.Keys !! TapSlots(slots, units) ==> Loose(held, q) == Loose(held, p) + HitBy(held.Keys, units)
  {
    forall k | k in held ensures held[k] in TapSlots(slots, units) <==> k in HitBy(held.Keys, units) {
      if held[k] in TapSlots(slots, units) {
        var u :| u in units && slots[RuneTarget(RuneOf(u))] == held[k];
        var l := Literal([Scalar(RuneOf(u))]);
        assert TargetOf(l) == RuneTarget(RuneOf(u)) == TargetOf(k);
        SendableIdentity(k, l);
      }
      if k in HitBy(held.Keys, units) {
        var u :| u in units && k == Literal([Scalar(RuneOf(u))]);
        assert slots[RuneTarget(RuneOf(u))] == held[k];
      }
    }
  }

  lemma LooseAfterRelease(held: map<Key, nat>, slots: map<Target, nat>, p: map<nat, Symbol>, key: Key)
    requires Injective(slots) && OnSlots(held, slots) && key in held
    ensures OnSlots(held - {key}, slots)
    ensures Loose(held - {key}, p - {held[key]}) == Loose(held, p) - {key}
  {
    forall k | k in held && k != key ensures held[k] != held[key] {
      if held[k] == held[key] { SendableIdentity(k, key); }
    }
  }

  lemma LooseAfterHold(held: map<Key, nat>, slots: map<Target, nat>, p: map<nat, Symbol>, key: Key)
    requires Injective(slots) && OnSlots(held, slots) && Sendable(key) && TargetOf(key) in slots
    ensures OnSlots(held[key := slots[TargetOf(key)]], slots)
    ensures Loose(held[key := slots[TargetOf(key)]], p[slots[TargetOf(key)] := KeySymbol(key)]) == Loose(held, p) - {key}
  {
    forall k | k in held && k != key ensures held[k] != slots[TargetOf(key)] {
      if held[k] == slots[TargetOf(key)] { SendableIdentity(k, key); }
    }
  }

  lemma LooseAfterNamedTap(held: map<Key, nat>, slots: map<Target, nat>, p: map<nat, Symbol>, q: map<nat, Symbol>, key: Key)
    requires Injective(slots) && OnSlots(held, slots) && key.NamedKey? && NamedTarget(key) in slots
    requires AgreeOff(p, q, {slots[NamedTarget(key)]})
    ensures Loose(held, q) <= Loose(held, p) + (if key in held then {key} else {})
    ensures slots[NamedTarget(key)] !in q ==> Loose(held, q) == Loose(held, p) + if key in held then {key} else {}
  {
    forall k | k in held ensures held[k] == slots[NamedTarget(key)] <==> k == key {
      assert TargetOf(key) == NamedTarget(key);
      if held[k] == slots[NamedTarget(key)] { SendableIdentity(k, key); }
    }
  }

  lemma LooseAbove(held: map<Key, nat>, slots: map<Target, nat>, p: map<nat, Symbol>, q: map<nat, Symbol>)
    requires OnSlots(held, slots) && (forall t :: t in slots ==> slots[t] >= 12) && SameAbove(p, q)
    ensures Loose(held, p) == Loose(held, q)
  {}

  /** Key slots the compositor sees down that belong to no held key. */
  function Stray(held: map<Key, nat>, pressed: map<nat, Symbol>): set<nat> {
    set s | s in pressed && s > 11 && s !in Values(held)
  }

  lemma StrayAfterRelease(held: map<Key, nat>, p: map<nat, Symbol>, key: Key)
    requires key in held
    ensures Stray(held - {key}, p - {held[key]}) <= Stray(held, p)
  {
    var rest := held - {key};
    forall s | s in Values(held) && s != held[key] ensures s in Values(rest) {
      var k :| k in held && held[k] == s;
      assert k in rest && rest[k] == s;
    }
  }

  lemma StrayAfterHold(held: map<Key, nat>, p: map<nat, Symbol>, key: Key, slot: nat, symbol: Symbol)
    requires key in held ==> held[key] == slot
    ensures Stray(held[key := slot], p[slot := symbol]) <= Stray(held, p)
  {
    var more := held[key := slot];
    assert key in more && more[key] == slot;
    forall s | s in Values(held) ensures s in Values(more) {
      var k :| k in held && held[k] == s;
      assert k in more && more[k] == s;
    }
  }

  /** Bookkeeping and compositor side by side at one moment. */
  datatype Snap = Snap(held: map<Key, nat>, mods: set<Modifier>, seat: Seat) {
    function State(): Books { Books(held.Keys, mods) }
    function LooseKeys(): set<Key> { Loose(held, seat.pressed) }
    function StraySlots(): set<nat> { Stray(held, seat.pressed) }
    predicate MaskInSync() { mods == seat.mask }
  }

  /** One action carried out: the books it must leave, the presses the client saw, the
      held keys still down, and no slot left down that no held key accounts for. */
  predicate ActionDone(pre: Snap, now: Snap, a: KeySend) {
    && ExecStep(pre.State(), a) == Some(now.State())
    && (pre.MaskInSync() ==>
      now.MaskInSync() && now.seat.typed == pre.seat.typed + Intended(pre.State(), a))
    && now.LooseKeys() == TappedAway(pre.State(), a, pre.LooseKeys())
    && now.StraySlots() <= pre.StraySlots()
  }

  /** The modifier a modifier key's own action may change. */
  function OwnModifiers(a: KeySend): set<Modifier> {
    if a.text == [] && a.key.ModKey? then {a.key.m} else {}
  }

  /** How one action comes out: done, refused with the books as they must be for that, or failed with
      bounded damage. */
  ghost predicate ActionOutcome(pre: Snap, now: Snap, a: KeySend, r: Outcome) {
    && (r == Done ==> ActionDone(pre, now, a))
    && (r == NotHeld ==> ExecStep(pre.State(), a) == None)
    && now.LooseKeys() <= pre.LooseKeys() + TappedAway(pre.State(), a, {})
    && (r != Done ==> pre.mods - OwnModifiers(a) <= now.mods <= pre.mods + OwnModifiers(a))
  }

  /** Modifiers have been borrowed for an action, and nothing else has changed. */
  ghost predicate Lent(pre: Snap, now: Snap, a: KeySend, temp: set<Modifier>) {
    && now.held == pre.held && now.seat == pre.seat.(mask := now.seat.mask)
    && temp == a.modifiers - pre.mods && now.mods == pre.mods + a.modifiers && (pre.MaskInSync() ==> now.MaskInSync())
  }

  lemma NothingDone(pre: Snap, a: KeySend)
    ensures ActionOutcome(pre, pre, a, Failed)
  {}

  /** The client saw exactly the presses that the batch asks for. */
  predicate TypedAll(pre: Snap, now: Snap, actions: seq<KeySend>) {
    pre.MaskInSync() ==>
      now.MaskInSync() && now.seat.typed == pre.seat.typed + IntendedAll(pre.State(), actions)
  }

  predicate LooseAll(pre: Snap, now: Snap, actions: seq<KeySend>) {
    pre.LooseKeys() == {} ==> now.LooseKeys() == TappedAwayAll(pre.State(), actions)
  }

  /** The same for a whole batch. */
  predicate BatchDone(pre: Snap, now: Snap, actions: seq<KeySend>) {
    && Exec(pre.State(), actions) == Some(now.State())
    && TypedAll(pre, now, actions)
    && LooseAll(pre, now, actions)
    && now.StraySlots() <= pre.StraySlots()
  }

  lemma BooksStep(b: Books, actions: seq<KeySend>, i: nat)
    requires i < |actions| && Exec(b, actions[..i]).Some?
    ensures Exec(b, actions[..i + 1]) == ExecStep(Exec(b, actions[..i]).value, actions[i])
  {
    assert actions[..i + 1][..i] == actions[..i];
  }

  lemma TypedStep(pre: Snap, mid: Snap, now: Snap, actions: seq<KeySend>, i: nat)
    requires i < |actions| && Exec(pre.State(), actions[..i]) == Some(mid.State())
    requires TypedAll(pre, mid, actions[..i])
    requires mid.MaskInSync() ==> now.MaskInSync() && now.seat.typed == mid.seat.typed + Intended(mid.State(), actions[i])
    ensures TypedAll(pre, now, actions[..i + 1])
  {
    assert actions[..i + 1][..i] == actions[..i];
    var done, next := IntendedAll(pre.State(), actions[..i]), Intended(mid.State(), actions[i]);
    assert IntendedAll(pre.State(), actions[..i + 1]) == done + next;
    assert (pre.seat.typed + done) + next == pre.seat.typed + (done + next);
  }

  lemma LooseStep(pre: Snap, mid: Snap, now: Snap, actions: seq<KeySend>, i: nat)
    requires i < |actions| && Exec(pre.State(), actions[..i]) == Some(mid.State())
    requires LooseAll(pre, mid, actions[..i])
    requires now.LooseKeys() == TappedAway(mid.State(), actions[i], mid.LooseKeys())
    ensures LooseAll(pre, now, actions[..i + 1])
  {
    assert actions[..i + 1][..i] == actions[..i];
  }

  lemma BatchStep(pre: Snap, mid: Snap, now: Snap, actions: seq<KeySend>, i: nat)
    requires i < |actions| && BatchDone(pre, mid, actions[..i]) && ActionDone(mid, now, actions[i])
    ensures BatchDone(pre, now, actions[..i + 1])
  {
    BooksStep(pre.State(), actions, i);
    TypedStep(pre, mid, now, actions, i);
    LooseStep(pre, mid, now, actions, i);
  }

  /** A batch that never taps a held character keeps every held key down, whether or not
      it is carried through. */
  predicate KeepsHeldDown(pre: Snap, now: Snap, actions: seq<KeySend>) {
    pre.LooseKeys() == {} && NeverTapsHeld(pre.State(), actions) ==> now.LooseKeys() == {}
  }

  lemma BatchNotBegun(pre: Snap, actions: seq<KeySend>)
    ensures BatchDone(pre, pre, []) && KeepsHeldDown(pre, pre, actions)
  {}

  lemma BatchKeepsHeldDown(pre: Snap, mid: Snap, now: Snap, actions: seq<KeySend>, i: nat)
    requires i < |actions| && Sim(pre.State(), actions).Some?
    requires BatchDone(pre, mid, actions[..i]) && KeepsHeldDown(pre, mid, actions)
    requires now.LooseKeys() <= mid.LooseKeys() + TappedAway(mid.State(), actions[i], {})
    ensures KeepsHeldDown(pre, now, actions)
  {
    AcceptedAction(pre.State(), actions, i);
  }

  predicate AllRunes(order: seq<Target>) { forall t :: t in order ==> t.RuneTarget? }

  predicate AllNamed(order: seq<Target>) { forall t :: t in order ==> t.NamedTarget? }

  function TargetsOf(names: seq<Key>): set<Target> { set k | k in names :: TargetOf(k) }

  lemma NoTargets(names: seq<Key>, runes: seq<Target>, named: seq<Target>)
    ensures Elems(runes) + Elems(named) == Elems(runes) + Elems(named) + TargetsOf(names[..0])
  {}

  lemma TargetsStep(names: seq<Key>, i: nat)
    requires i < |names|
    ensures TargetsOf(names[..i + 1]) == TargetsOf(names[..i]) + {TargetOf(names[i])}
  {
    hide TargetOf;
    assert names[..i + 1] == names[..i] + [names[i]];
  }

  lemma RunesStay(order: seq<Target>, order': seq<Target>, t: Target)
    requires AllRunes(order) && Elems(order') == Elems(order) + {t} && t.RuneTarget?
    ensures AllRunes(order')
  {
    forall u | u in order' ensures u.RuneTarget? { assert u in Elems(order'); }
  }

  lemma NamedStay(order: seq<Target>, order': seq<Target>, t: Target)
    requires AllNamed(order) && Elems(order') == Elems(order) + {t} && t.NamedTarget?
    ensures AllNamed(order')
  {
    forall u | u in order' ensures u.NamedTarget? { assert u in Elems(order'); }
  }

  /** One more target on either side is one more target in all. */
  lemma Regroup(a: set<Target>, b: set<Target>, a': set<Target>, b': set<Target>, t: Target, c: set<Target>, d: set<Target>, d': set<Target>)
    requires a + b == c + d && d' == d + {t}
    requires (a' == a + {t} && b' == b) || (a' == a && b' == b + {t})
    ensures a' + b' == c + d'
  {}

  datatype Reason = Cancelled | InvalidHeldCharacter | Capacity | CorruptSlots | NotAccepted
  datatype Outcome = Done | Rejected(reason: Reason) | NotHeld | Failed

  /** A key held before and after is on the same slot, even if released in between. */
  predicate SameSlots(before: map<Key, nat>, after: map<Key, nat>) {
    forall k :: k in before && k in after ==> before[k] == after[k]
  }

  function HoldOf(b: Books, key: Key): Books {
    if key.ModKey? then b.(mods := b.mods + {key.m}) else b.(held := b.held + {key})
  }

  function ReleaseOf(b: Books, key: Key): Books {
    if key.ModKey? then b.(mods := b.mods - {key.m}) else b.(held := b.held - {key})
  }

  datatype Operation = Down(key: Key) | Up(key: Key) | Batch(actions: seq<KeySend>)

  /** Held keys sit on key slots, each on its own. */
  ghost predicate OwnSlots(held: map<Key, nat>) {
    Injective(held) && forall k :: k in held ==> held[k] > 11
  }

  /** One operation from one moment to the next: what it does when done, that it does nothing when
      rejected, and what it keeps in every case. */
  ghost predicate OpTaken(pre: Snap, op: Operation, out: Outcome, now: Snap) {
    && OwnSlots(pre.held) && OwnSlots(now.held) && SameSlots(pre.held, now.held)
    && (forall k :: k in now.held ==> SymbolAt(now.seat.keymap, now.held[k]) == KeySymbol(k))
    && (out.Rejected? ==> now == pre)
    && (out == Done ==> now.StraySlots() <= pre.StraySlots())
    && match op
       case Down(key) =>
         (out == Done ==> PressedSingly(pre, now, key)) && (pre.LooseKeys() == {} ==> now.LooseKeys() == {})
       case Up(key) =>
         && (out == Done ==> IsDown(pre.State(), key) && ReleasedSingly(pre, now, key))
         && (pre.LooseKeys() == {} ==> now.LooseKeys() == {})
       case Batch(actions) =>
         && (out == Done ==> BatchDone(pre, now, actions)) && KeepsHeldDown(pre, now, actions)
         && (out == Done && actions != [] && Roomy(pre.held, actions) ==> AcceleratorsShown(pre.held, now.seat.keymap))
  }

  /** The moments of a run of operations, with their outcomes. */
  ghost predicate Session(ops: seq<Operation>, outs: seq<Outcome>, snaps: seq<Snap>) {
    && |outs| == |ops| && |snaps| == |ops| + 1
    && forall i :: 0 <= i < |ops| ==> OpTaken(snaps[i], ops[i], outs[i], snaps[i + 1])
  }

  /** No batch that was let through taps a character held when it was sent. */
  ghost predicate NeverTapsHeldKeys(ops: seq<Operation>, outs: seq<Outcome>, snaps: seq<Snap>)
    requires |outs| == |ops| && |snaps| == |ops| + 1
  {
    forall i :: 0 <= i < |ops| ==>
      outs[i].Rejected? || (ops[i].Batch? ==> NeverTapsHeld(snaps[i].State(), ops[i].actions))
  }

  lemma NoTapsYet(now: Snap)
    ensures NeverTapsHeldKeys([], [], [now])
  {}

  lemma SessionStep(ops: seq<Operation>, outs: seq<Outcome>, snaps: seq<Snap>, op: Operation, out: Outcome, now: Snap, tapless: bool)
    requires Session(ops, outs, snaps) && OpTaken(snaps[|ops|], op, out, now)
    requires tapless <==> out.Rejected? || (op.Batch? ==> NeverTapsHeld(snaps[|ops|].State(), op.actions))
    ensures Session(ops + [op], outs + [out], snaps + [now])
    ensures NeverTapsHeldKeys(ops + [op], outs + [out], snaps + [now]) <==> NeverTapsHeldKeys(ops, outs, snaps) && tapless
  {
    hide OpTaken;
    var ops', outs', snaps' := ops + [op], outs + [out], snaps + [now];
    forall i | 0 <= i < |ops'| ensures OpTaken(snaps'[i], ops'[i], outs'[i], snaps'[i + 1]) {
      if i < |ops| { assert OpTaken(snaps[i], ops[i], outs[i], snaps[i + 1]); }
    }
    assert forall i :: 0 <= i < |ops| ==> ops'[i] == ops[i] && outs'[i] == outs[i] && snaps'[i] == snaps[i];
    assert ops'[|ops|] == op && outs'[|ops|] == out && snaps'[|ops|] == snaps[|ops|];
  }

  /** As long as no batch taps a held character, every held key stays down at every moment, under
      failing writes as well. */
  lemma {:induction false} HeldKeysStayDown(ops: seq<Operation>, outs: seq<Outcome>, snaps: seq<Snap>, n: nat)
    requires Session(ops, outs, snaps) && NeverTapsHeldKeys(ops, outs, snaps) && n <= |ops| && snaps[0].LooseKeys() == {}
    ensures snaps[n].LooseKeys() == {}
  {
    if n > 0 {
      HeldKeysStayDown(ops, outs, snaps, n - 1);
      assert OpTaken(snaps[n - 1], ops[n - 1], outs[n - 1], snaps[n]);
    }
  }

  /** A key held from one moment to another sits on one slot all the while, under failing writes as well. */
  lemma {:induction false} SlotIsStable(ops: seq<Operation>, outs: seq<Outcome>, snaps: seq<Snap>, i: nat, j: nat, key: Key)
    requires Session(ops, outs, snaps) && i <= j <= |ops|
    requires forall m :: i <= m <= j ==> key in snaps[m].held
    ensures snaps[j].held[key] == snaps[i].held[key]
    decreases j
  {
    if i < j {
      SlotIsStable(ops, outs, snaps, i, j - 1, key);
      assert OpTaken(snaps[j - 1], ops[j - 1], outs[j - 1], snaps[j]);
    }
  }

  /** A batch that was done at moment i and had room for all letters and digits. */
  ghost predicate RoomyBatch(ops: seq<Operation>, outs: seq<Outcome>, snaps: seq<Snap>, i: nat)
    requires i < |ops| == |outs| && |snaps| == |ops| + 1
  {
    ops[i].Batch? && ops[i].actions != [] && outs[i] == Done && Roomy(snaps[i].held, ops[i].actions)
  }

  /** Over whole runs letters and digits keep their slots: two such batches, however far apart, leave
      each of them on one and the same slot if they began with the same held keys. */
  lemma AcceleratorsKeepSlots(ops: seq<Operation>, outs: seq<Outcome>, snaps: seq<Snap>, i: nat, j: nat,
    reserved: map<Target, nat>, n: nat)
    requires Session(ops, outs, snaps) && i < |ops| && j < |ops| && n < |Accelerators()|
    requires RoomyBatch(ops, outs, snaps, i) && RoomyBatch(ops, outs, snaps, j)
    requires snaps[i].held == snaps[j].held && Reserves(snaps[i].held, reserved)
    ensures var slot, symbol := AcceleratorSlot(n, reserved), TargetSymbol(Accelerators()[n]);
      SymbolAt(snaps[i + 1].seat.keymap, slot) == symbol && SymbolAt(snaps[j + 1].seat.keymap, slot) == symbol
  {
    hide Accelerators, AcceleratorSlot, SymbolAt, TargetSymbol, Reserves, BatchDone, KeepsHeldDown, Roomy;
    assert OpTaken(snaps[i], ops[i], outs[i], snaps[i + 1]);
    assert OpTaken(snaps[j], ops[j], outs[j], snaps[j + 1]);
  }

  /** Over whole runs every key comes up on the slot it was pressed on: if a key is held from moment i
      to moment j and gone after the operation done then, the slot it got at i is not down any more,
      unless that operation gave it to another key. */
  lemma {:induction false} ReleasedWherePressed(ops: seq<Operation>, outs: seq<Outcome>, snaps: seq<Snap>, i: nat, j: nat, key: Key)
    requires Session(ops, outs, snaps) && i <= j < |ops| && outs[j] == Done
    requires forall m :: i <= m <= j ==> key in snaps[m].held
    requires key !in snaps[j + 1].held
    ensures snaps[i].held[key] !in snaps[j + 1].seat.pressed || snaps[i].held[key] in Values(snaps[j + 1].held)
    ensures ops[j].Up? ==> snaps[i].held[key] !in snaps[j + 1].seat.pressed && ops[j].key == key
  {
    SlotIsStable(ops, outs, snaps, i, j, key);
    var pre, now := snaps[j], snaps[j + 1];
    assert OpTaken(pre, ops[j], outs[j], now);
    SlotComesUp(pre, now, key);
    if ops[j].Up? {
      assert now.State() == ReleaseOf(pre.State(), ops[j].key);
      ReleasedSlot(pre, now, key, true);
    }
  }

  lemma AloneKeymap(slot: nat, symbol: Symbol)
    requires slot >= 12
    ensures DefinesModifiers(MODS_ONLY) && DefinesModifiers(MODS_ONLY[slot := symbol])
    ensures MODS_ONLY != map[] && MODS_ONLY[slot := symbol] != map[]
  {
    forall m: Modifier ensures SymbolAt(MODS_ONLY, ModSlot(m)) == ModSymbol(m) { ModsOnly(m); }
    assert 8 in MODS_ONLY && 8 in MODS_ONLY[slot := symbol];
  }

  lemma OnlyKey(held: map<Key, nat>, key: Key)
    requires key in held && |held| <= 1
    ensures held == map[key := held[key]]
  {
    assert held.Keys == {key} by {
      StrictKeys(held.Keys, key);
    }
  }

  lemma StrictKeys(keys: set<Key>, key: Key)
    requires key in keys && |keys| <= 1
    ensures keys == {key}
  {
    assert |keys - {key}| == 0;
  }

  lemma SingleAction(b: Books, a: KeySend)
    ensures Sim(b, [a]) == SimStep(b, a) && Exec(b, [a]) == ExecStep(b, a)
    ensures IntendedAll(b, [a]) == Intended(b, a)
    ensures TappedAwayAll(b, [a]) == TappedAway(b, a, {})
    ensures NeverTapsHeld(b, [a]) <==> !TapsHeldKey(b, a)
    ensures Need([a]) == NeedOf(a)
  {
    assert [a][..0] == [] && [a][0] == a;
    assert NeverTapsHeld(b, []);
  }

  predicate PressedSingly(pre: Snap, now: Snap, key: Key) {
    && now.State() == HoldOf(pre.State(), key)
    && (pre.MaskInSync() ==> now.MaskInSync() && now.seat.typed == pre.seat.typed + [Press(KeySymbol(key), pre.mods)])
    && now.StraySlots() <= pre.StraySlots()
  }

  predicate ReleasedSingly(pre: Snap, now: Snap, key: Key) {
    && now.State() == ReleaseOf(pre.State(), key)
    && (pre.MaskInSync() ==> now.MaskInSync() && now.seat.typed == pre.seat.typed)
    && now.StraySlots() <= pre.StraySlots()
  }

  lemma HeldSingly(pre: Snap, now: Snap, hold: KeySend, done: bool)
    requires hold.text == [] && hold.down && !hold.up && hold.modifiers == {}
    requires done ==> BatchDone(pre, now, [hold])
    ensures done ==> PressedSingly(pre, now, hold.key)
    ensures SimStep(pre.State(), hold).Some? ==> ExecStep(pre.State(), hold).Some?
  {
    var b := pre.State();
    SingleAction(b, hold);
    assert b.mods + {} == b.mods && Borrowed(b, hold) == {};
    if SimStep(b, hold).Some? { StepAgrees(b, hold); }
  }

  lemma ReleaseAccepted(pre: Snap, release: KeySend)
    requires release.text == [] && release.up && release.modifiers == {} && !release.key.ModKey?
    requires release.key in pre.held
    ensures Exec(pre.State(), [release]).Some? && NeverTapsHeld(pre.State(), [release])
    ensures Sendable(release.key) ==> Sim(pre.State(), [release]).Some?
  {
    SingleAction(pre.State(), release);
  }

  lemma ReleasedByBatch(pre: Snap, now: Snap, release: KeySend, done: bool)
    requires release.text == [] && release.up && release.modifiers == {} && !release.key.ModKey?
    requires release.key in pre.held
    requires done ==> BatchDone(pre, now, [release])
    ensures done ==> ReleasedSingly(pre, now, release.key)
  {
    var b := pre.State();
    SingleAction(b, release);
    assert (b.mods + {}) - Borrowed(b, release) == b.mods;
  }

  lemma ReleaseFits(held: map<Key, nat>, release: KeySend)
    requires release.text == [] && release.key in held && Holdable(release.key)
    ensures Fits(held, [release])
  {
    SingleAction(Books(held.Keys, {}), release);
    assert TargetOf(release.key) in HeldTargets(held);
    assert NeedOf(release) - HeldTargets(held) == {} by {
      forall t | t in NeedOf(release) ensures t == TargetOf(release.key) {}
    }
  }

  /** A held key that goes takes its slot with it, unless the slot is another held key's by then: the
      slot was accounted for before, so it cannot be left down without an owner. */
  lemma SlotComesUp(pre: Snap, now: Snap, key: Key)
    requires key in pre.held && key !in now.held && pre.held[key] > 11 && now.StraySlots() <= pre.StraySlots()
    ensures pre.held[key] !in now.seat.pressed || pre.held[key] in Values(now.held)
  {
    assert pre.held[key] in Values(pre.held);
    assert pre.held[key] !in pre.StraySlots();
  }

  /** A key released alone comes up on the slot it was held on. */
  lemma ReleasedSlot(pre: Snap, now: Snap, key: Key, done: bool)
    requires key in pre.held && pre.held[key] > 11 && Injective(pre.held)
    requires done ==> now.held.Keys == pre.held.Keys - {key}
    requires SameSlots(pre.held, now.held)
    requires done ==> now.StraySlots() <= pre.StraySlots()
    ensures done ==> pre.held[key] !in now.seat.pressed
  {
    if done {
      SlotComesUp(pre, now, key);
      forall s | s in Values(now.held) ensures s != pre.held[key] {
        var k :| k in now.held && now.held[k] == s;
      }
    }
  }

  lemma {:induction false} SimStuck(b: Books, actions: seq<KeySend>, n: nat)
    requires n <= |actions| && Sim(b, actions[..n]) == None
    ensures Sim(b, actions) == None
    decreases |actions| - n
  {
    if n == |actions| {
      assert actions[..n] == actions;
    } else {
      assert actions[..n + 1][..n] == actions[..n];
      SimStuck(b, actions, n + 1);
    }
  }

  lemma {:induction false} ExecStuck(b: Books, actions: seq<KeySend>, n: nat)
    requires n <= |actions| && Exec(b, actions[..n]) == None
    ensures Exec(b, actions) == None
    decreases |actions| - n
  {
    if n == |actions| {
      assert actions[..n] == actions;
    } else {
      assert actions[..n + 1][..n] == actions[..n];
      ExecStuck(b, actions, n + 1);
    }
  }

  lemma {:induction false} PrefixesAccepted(b: Books, actions: seq<KeySend>, n: nat)
    requires n <= |actions| && Sim(b, actions).Some?
    ensures Sim(b, actions[..n]).Some?
    ensures NeverTapsHeld(b, actions) ==> NeverTapsHeld(b, actions[..n])
  {
    if n < |actions| {
      var init := actions[..|actions| - 1];
      assert init[..n] == actions[..n];
      PrefixesAccepted(b, init, n);
    } else {
      assert actions[..n] == actions;
    }
  }

  /** What acceptance of the batch says about the action the executor has come to. */
  lemma AcceptedAction(b: Books, actions: seq<KeySend>, i: nat)
    requires i < |actions| && Sim(b, actions).Some? && Exec(b, actions[..i]).Some?
    ensures actions[i].text == [] && actions[i].key.Literal? ==> ValidUtf8(actions[i].key.units)
    ensures NeverTapsHeld(b, actions) ==> TappedAway(Exec(b, actions[..i]).value, actions[i], {}) == {}
  {
    PrefixesAccepted(b, actions, i);
    PrefixesAccepted(b, actions, i + 1);
    assert actions[..i + 1][..i] == actions[..i];
    HeldAgrees(b, actions[..i]);
    TapStep(Exec(b, actions[..i]).value, Sim(b, actions[..i]).value, actions[i]);
  }

  /** There is a dynamic slot for every target of the batch that is not held already. */
  predicate Fits(held: map<Key, nat>, actions: seq<KeySend>) {
    |Need(actions) - HeldTargets(held)| <= |FreeSlots(Values(held))|
  }

  lemma PlacedOrNot(order: seq<Target>, reserved: map<Target, nat>, need: set<Target>, held: set<Target>, taken: set<nat>, short: bool)
    requires NoDup(order) && reserved.Keys == held && Values(reserved) == taken
    requires if short then |order| <= MAX_DYNAMIC_SLOTS && need + held <= Elems(order) else Elems(order) == need + held
    ensures |Elems(order) - reserved.Keys| <= |FreeSlots(taken)| <==> |need - held| <= |FreeSlots(taken)|
  {
    hide FreeSlots, Values, NoDup, Elems;
    if short {
      ShortListsFit(order, reserved);
      SubsetSize(need - held, Elems(order) - reserved.Keys);
    } else {
      assert Elems(order) - reserved.Keys == need - held;
    }
  }

  /** The outcome of planning: a slot and a symbol for every target, held keys where they are. */
  predicate Planned(held: map<Key, nat>, actions: seq<KeySend>, slots: map<Target, nat>, keymap: map<nat, Symbol>) {
    && OnSlots(held, slots) && Need(actions) <= slots.Keys
    && Defines(keymap, slots) && DefinesModifiers(keymap) && keymap != map[]
    && (forall t :: t in slots && t !in HeldTargets(held) ==> slots[t] >= DYN_BASE)
    && Fits(held, actions)
  }

  /** What a healthy connection carries out: every held key is one that batches accept, the executor finds
      every action possible in turn, and there are enough slots. */
  predicate Possible(held: map<Key, nat>, mods: set<Modifier>, actions: seq<KeySend>) {
    var b := Books(held.Keys, mods);
    && (forall k :: k in held ==> Sendable(k)) && DoableAll(b, HonestAll(actions)) && Exec(b, actions).Some? && Fits(held, actions)
  }

  /** A key that can go down: alone anything that can be held at all; beside others also nothing that is down,
      and not without a slot. */
  predicate Pressable(held: map<Key, nat>, mods: set<Modifier>, key: Key) {
    if held == map[] then key.ModKey? || Holdable(key)
    else
      && (forall k :: k in held ==> Sendable(k)) && !IsDown(Books(held.Keys, mods), key)
      && (key.ModKey? || Sendable(key)) && Fits(held, [KeySend([], key, true, false, {})])
  }

  lemma NeedsOne(hold: KeySend)
    requires hold.text == [] && (hold.key.ModKey? || Holdable(hold.key))
    ensures |NeedOf(hold)| <= 1
  {
    var need := if hold.key.ModKey? then {} else {TargetOf(hold.key)};
    assert NeedOf(hold) <= need;
    SubsetSize(NeedOf(hold), need);
  }

  /** Short of the whole dynamic range held there is a slot for one more key. */
  lemma RoomForOne(held: map<Key, nat>, key: Key)
    requires |held| < MAX_DYNAMIC_SLOTS && (key.ModKey? || Holdable(key))
    ensures Fits(held, [KeySend([], key, true, false, {})])
  {
    hide NeedOf, Need, HeldTargets, FreeSlots, Values, Holdable;
    var hold := KeySend([], key, true, false, {});
    SingleAction(Books({}, {}), hold);
    NeedsOne(hold);
    FreeSlotsAtLeast(Values(held));
    ValuesSize(held);
    SubsetSize(Need([hold]) - HeldTargets(held), Need([hold]));
  }

  /** Each outcome of a batch has its one cause. */
  lemma OutcomeDecides(pre: Snap, now: Snap, actions: seq<KeySend>, out: Outcome)
    requires out != Rejected(Cancelled) && out != Rejected(CorruptSlots) && out != Failed
    requires out == Rejected(InvalidHeldCharacter) ==> exists k :: k in pre.held && !Sendable(k)
    requires out == Rejected(NotAccepted) ==> Sim(pre.State(), actions).None?
    requires out == Rejected(Capacity) ==> !Fits(pre.held, actions)
    requires !out.Rejected? ==>
      Sim(pre.State(), actions).Some? && Fits(pre.held, actions) && forall k :: k in pre.held ==> Sendable(k)
    requires out == Done ==> BatchDone(pre, now, actions)
    requires out == NotHeld ==> Exec(pre.State(), actions) == None
    ensures out == Done <==> Possible(pre.held, pre.mods, actions)
  {
    hide Sim, Exec, Fits, Sendable, DoableAll, TypedAll, LooseAll;
    AcceptedExactly(pre.State(), actions);
    if out.Rejected? {
      assert out.reason == InvalidHeldCharacter || out.reason == NotAccepted || out.reason == Capacity;
    }
  }

  lemma HoldDoable(b: Books, a: KeySend)
    requires a.text == [] && a.down && !a.up && a.modifiers == {}
    ensures Doable(b, a) <==> !IsDown(b, a.key) && (a.key.ModKey? || Sendable(a.key))
    ensures Doable(b, a) ==> ExecStep(b, a).Some?
  {}

  lemma OneDoable(b: Books, a: KeySend)
    requires a.modifiers == {}
    ensures DoableAll(b, HonestAll([a])) <==> Doable(b, a)
  {
    assert HonestAll([a]) == [a] && [a][..0] == [];
  }

  /** There is room for all letters and digits beside what the batch needs and what is held. */
  predicate Roomy(held: map<Key, nat>, actions: seq<KeySend>) {
    |Elems(Accelerators()) + Need(actions) + HeldTargets(held)| <= MAX_DYNAMIC_SLOTS
  }

  /** The slots are those of a placement in order beside the held keys: letters and digits first if there
      is room for all of them, else only what is needed. */
  ghost predicate Placed(held: map<Key, nat>, actions: seq<KeySend>, order: seq<Target>, reserved: map<Target, nat>,
    slots: map<Target, nat>)
  {
    && NoDup(order) && Reserves(held, reserved) && slots == Placement(order, reserved).0
    && Need(actions) + HeldTargets(held) <= Elems(order)
    && if Roomy(held, actions) then Accelerators() <= order else Elems(order) == Need(actions) + HeldTargets(held)
  }

  lemma PlannedMeans(held: map<Key, nat>, actions: seq<KeySend>, slots: map<Target, nat>, keymap: map<nat, Symbol>,
    order: seq<Target>, reserved: map<Target, nat>)
    requires Planned(held, actions, slots, keymap) && Placed(held, actions, order, reserved, slots)
    ensures Fits(held, actions) && forall k :: k in held ==> Sendable(k)
    ensures Roomy(held, actions) ==> AcceleratorsShown(held, keymap)
  {
    hide Fits, Sendable, Roomy, AcceleratorsShown, Defines, Need;
    if Roomy(held, actions) { PlacedAccelerators(held, reserved, order, slots, keymap); }
  }

  lemma ChosenPlaced(held: map<Key, nat>, actions: seq<KeySend>, order: seq<Target>, reserved: map<Target, nat>,
    slots: map<Target, nat>, runes: set<Target>, named: set<Target>, short: bool)
    requires NoDup(order) && Reserves(held, reserved) && slots == Placement(order, reserved).0
    requires runes + named == Need(actions) + HeldTargets(held)
    requires short <==> |Elems(Accelerators()) + runes + named| <= MAX_DYNAMIC_SLOTS
    requires if short then Accelerators() <= order && runes + named <= Elems(order) else Elems(order) == runes + named
    ensures Placed(held, actions, order, reserved, slots)
  {
    hide Accelerators, NoDup, Elems, Placement, Need;
    assert Elems(Accelerators()) + runes + named == Elems(Accelerators()) + Need(actions) + HeldTargets(held);
  }

  /** Characters sit on dynamic slots, those of held keys included. */
  lemma RunesHigh(held: map<Key, nat>, slots: map<Target, nat>)
    requires OnSlots(held, slots)
    requires forall t :: t in slots && t !in HeldTargets(held) ==> slots[t] >= DYN_BASE
    requires forall k :: k in held && k.Literal? ==> held[k] >= DYN_BASE
    ensures forall t :: t in slots && t.RuneTarget? ==> slots[t] >= DYN_BASE
  {
    forall t | t in slots && t.RuneTarget? ensures slots[t] >= DYN_BASE {
      if t in HeldTargets(held) {
        var k :| k in held && TargetOf(k) == t;
      }
    }
  }

  /** Held keys that sit on a batch's slots satisfy the bookkeeping invariant. */
  lemma SlotsKeepBooks(held: map<Key, nat>, slots: map<Target, nat>, keymap: map<nat, Symbol>)
    requires OnSlots(held, slots) && Defines(keymap, slots)
    requires forall t :: t in slots && t.RuneTarget? ==> slots[t] >= DYN_BASE
    ensures Injective(held)
    ensures forall k :: k in held ==> Holdable(k) && 12 <= held[k] <= DYN_MAX
    ensures forall k :: k in held ==> (k.Literal? ==> held[k] >= DYN_BASE) && SymbolAt(keymap, held[k]) == KeySymbol(k)
  {
    forall k, l | k in held && l in held && held[k] == held[l] ensures k == l {
      SendableIdentity(k, l);
    }
  }

  /** An upload that restores the mask does not change what the batch then amounts to. */
  lemma AfterUpload(pre: Snap, mid: Snap, now: Snap, actions: seq<KeySend>, done: bool)
    requires mid.held == pre.held && mid.mods == pre.mods && mid.seat.pressed == pre.seat.pressed
    requires mid.seat.typed == pre.seat.typed && (pre.MaskInSync() ==> mid.MaskInSync())
    requires done ==> BatchDone(mid, now, actions)
    requires KeepsHeldDown(mid, now, actions)
    ensures done ==> BatchDone(pre, now, actions)
    ensures KeepsHeldDown(pre, now, actions)
  {}

  /** Slots and keymap of a batch whose held keys have their slots reserved. */
  method AllocateBatch(held: map<Key, nat>, actions: seq<KeySend>, order: seq<Target>, short: bool, reserved: map<Target, nat>)
    returns (ok: bool, slots: map<Target, nat>, keymap: map<nat, Symbol>)
    requires NoDup(order) && Injective(reserved)
    requires reserved.Keys == HeldTargets(held) && Values(reserved) == Values(held) && OnSlots(held, reserved)
    requires forall t :: t in reserved ==> 12 <= reserved[t] <= DYN_MAX
    requires if short then |order| <= MAX_DYNAMIC_SLOTS && Need(actions) + HeldTargets(held) <= Elems(order)
             else Elems(order) == Need(actions) + HeldTargets(held)
    ensures ok <==> Fits(held, actions)
    ensures ok ==> Planned(held, actions, slots, keymap) && slots == Placement(order, reserved).0
  {
    assert reserved.Keys <= Elems(order);
    PlacedOrNot(order, reserved, Need(actions), HeldTargets(held), Values(held), short);
    ok, slots := AssignSlots(order, reserved);
    keymap := map[];
    if ok {
      keymap := BuildKeymap(order, slots);
      ExtendsReserved(held, reserved, slots);
    }
  }

  lemma ExtendsReserved(held: map<Key, nat>, reserved: map<Target, nat>, slots: map<Target, nat>)
    requires reserved.Keys == HeldTargets(held) && OnSlots(held, reserved)
    requires forall t :: t in reserved ==> t in slots && slots[t] == reserved[t]
    requires forall t :: t in slots && t !in reserved ==> slots[t] >= DYN_BASE
    ensures OnSlots(held, slots)
    ensures forall t :: t in slots && t !in HeldTargets(held) ==> slots[t] >= DYN_BASE
  {}

  lemma Together(runes: seq<Target>, named: seq<Target>)
    requires NoDup(runes) && forall t :: t in runes ==> t.RuneTarget?
    requires NoDup(named) && forall t :: t in named ==> t.NamedTarget?
    ensures NoDup(runes + named) && Elems(runes + named) == Elems(runes) + Elems(named)
  {
    var order := runes + named;
    forall i, j | 0 <= i < j < |order| ensures order[i] != order[j] {
      if i < |runes| <= j {
        assert order[i] in runes && order[j] in named;
      }
    }
  }

  method ChooseOrder(runes: seq<Target>, named: seq<Target>) returns (order: seq<Target>, short: bool)
    requires NoDup(runes) && forall t :: t in runes ==> t.RuneTarget?
    requires NoDup(named) && forall t :: t in named ==> t.NamedTarget?
    ensures NoDup(order)
    ensures if short then |order| <= MAX_DYNAMIC_SLOTS && Elems(runes) + Elems(named) <= Elems(order)
            else Elems(order) == Elems(runes) + Elems(named)
    ensures short ==> Accelerators() <= order
    ensures short <==> |Elems(Accelerators()) + Elems(runes) + Elems(named)| <= MAX_DYNAMIC_SLOTS
  {
    hide Accelerators, NoDup, Elems;
    var stable := StableOrder(runes);
    short := |stable| + |named| <= MAX_DYNAMIC_SLOTS;
    Together(stable, named);
    NoDupSize(stable + named);
    var chosen := if short then stable else runes;
    order := chosen + named;
    Together(chosen, named);
    assert short ==> Elems(chosen) == Elems(Accelerators()) + Elems(runes);
  }

  lemma ReservedIsHeld(held: map<Key, nat>, reserved: map<Target, nat>)
    requires reserved.Keys == HeldTargets(held) && Injective(held)
    requires forall k :: k in held ==> Sendable(k) && reserved[TargetOf(k)] == held[k]
    ensures Values(reserved) == Values(held) && Injective(reserved)
  {
    forall t, u | t in reserved && u in reserved && reserved[t] == reserved[u] ensures t == u {
      var k :| k in held && TargetOf(k) == t;
      var l :| l in held && TargetOf(l) == u;
      assert held[k] == held[l];
    }
    forall s | s in Values(held) ensures s in Values(reserved) {
      var k :| k in held && held[k] == s;
      assert reserved[TargetOf(k)] == s;
    }
    forall s | s in Values(reserved) ensures s in Values(held) {
      var t :| t in reserved && reserved[t] == s;
      var k :| k in held && TargetOf(k) == t;
    }
  }

  /** The held keys in `seen` have their slots reserved, and no two of them share one. */
  ghost predicate Reserving(held: map<Key, nat>, seen: set<Key>, reserved: map<Target, nat>, owners: map<nat, Key>) {
    && seen <= held.Keys && reserved.Keys == (set k | k in seen :: TargetOf(k))
    && (forall k :: k in seen ==> TargetOf(k) in reserved && reserved[TargetOf(k)] == held[k])
    && (forall k :: k in seen ==> 12 <= held[k] <= DYN_MAX && held[k] in owners && owners[held[k]] == k)
    && (forall s :: s in owners ==> owners[s] in held && held[owners[s]] == s)
  }

  lemma NothingReserved(held: map<Key, nat>)
    ensures Reserving(held, {}, map[], map[])
  {}

  lemma ReserveStep(held: map<Key, nat>, seen: set<Key>, reserved: map<Target, nat>, owners: map<nat, Key>, k: Key)
    requires Reserving(held, seen, reserved, owners) && k in held && forall l :: l in held ==> Sendable(l)
    requires 12 <= held[k] <= DYN_MAX && (held[k] in owners ==> owners[held[k]] == k)
    ensures Reserving(held, seen + {k}, reserved[TargetOf(k) := held[k]], owners[held[k] := k])
  {
    hide Sendable, TargetOf;
    forall l | l in seen && TargetOf(l) == TargetOf(k) ensures l == k { SendableIdentity(l, k); }
  }

  lemma OwnerConflict(held: map<Key, nat>, seen: set<Key>, reserved: map<Target, nat>, owners: map<nat, Key>, k: Key)
    requires Reserving(held, seen, reserved, owners) && k in held
    ensures held[k] in owners && owners[held[k]] != k ==> !Injective(held)
  {}

  lemma AllReserved(held: map<Key, nat>, reserved: map<Target, nat>, owners: map<nat, Key>)
    requires Reserving(held, held.Keys, reserved, owners) && forall l :: l in held ==> Sendable(l)
    ensures reserved.Keys == HeldTargets(held) && Values(reserved) == Values(held) && Injective(reserved) && OnSlots(held, reserved)
    ensures forall t :: t in reserved ==> 12 <= reserved[t] <= DYN_MAX
  {
    assert Injective(held) by {
      forall k, l | k in held && l in held && held[k] == held[l] ensures k == l { assert owners[held[k]] == k; }
    }
    ReservedIsHeld(held, reserved);
    forall t | t in reserved ensures 12 <= reserved[t] <= DYN_MAX {
      var k :| k in held && TargetOf(k) == t;
    }
  }

  lemma {:induction false} PressRunesSnoc(units: seq<Unit>, i: nat, mask: set<Modifier>)
    requires i < |units|
    ensures PressRunes(units[..i + 1], mask) == PressRunes(units[..i], mask) + [Press(RuneSymbol(RuneOf(units[i])), mask)]
  {
    assert units[..i + 1] == units[..i] + [units[i]];
  }

  class WlKeyboard {
    const wire: Wire
    var mods: set<Modifier>
    var held: map<Key, nat>
    var lastKeymap: map<nat, Symbol>

    ghost predicate Valid()
      reads this, wire
    {
      && Synced()
      && lastKeymap != map[]
      && DefinesModifiers(lastKeymap)
      && Injective(held)
      && (forall k :: k in held ==>
        && Holdable(k)
        && 12 <= held[k] <= DYN_MAX
        && (k.Literal? ==> held[k] >= DYN_BASE)
        && SymbolAt(lastKeymap, held[k]) == KeySymbol(k))
    }

    /** What `sendkeys` relies on without checking: no operation books a held key under a
        modifier name, under the empty name, or on a modifier slot. */
    ghost predicate Bookable()
      reads this, wire
    {
      Synced() && forall k :: k in held ==> !k.ModKey? && k != Literal([]) && !(8 <= held[k] <= 11)
    }

    /** The cached keymap is the one the compositor has; empty means none was sent yet. */
    ghost predicate Synced()
      reads this, wire
    {
      lastKeymap != map[] ==> lastKeymap == wire.seat.keymap
    }

    ghost predicate MaskInSync()
      reads this, wire
    {
      mods == wire.seat.mask
    }

    ghost function State(): Books
      reads this
    {
      Books(held.Keys, mods)
    }

    ghost function Now(): Snap
      reads this, wire
    {
      Snap(held, mods, wire.seat)
    }

    ghost function StraySlots(): set<nat>
      reads this, wire
    {
      Stray(held, wire.seat.pressed)
    }

    ghost function LooseKeys(): set<Key>
      reads this, wire
    {
      Loose(held, wire.seat.pressed)
    }

    constructor (wire: Wire)
      ensures this.wire == wire && mods == {} && held == map[] && lastKeymap == map[] && Synced()
    {
      this.wire, mods, held, lastKeymap := wire, {}, map[], map[];
    }

    method Warmup() returns (ok: bool)
      requires held == map[] && Synced()
      modifies this, wire
      ensures ok ==> Valid() && held == map[] && mods == old(mods) && lastKeymap == MODS_ONLY
      ensures ok ==> SameAbove(wire.seat.pressed, old(wire.seat.pressed))
      ensures wire.healthy ==> ok
    {
      forall m: Modifier ensures SymbolAt(MODS_ONLY, ModSlot(m)) == ModSymbol(m) { ModsOnly(m); }
      assert 8 in MODS_ONLY;
      ok := UploadKeymap(MODS_ONLY);
      if !ok { return; }
      ok := wire.SendKey(ModSlot(Shift), true);
      if !ok { return; }
      ok := wire.Outcome();
      if !ok { return; }
      ok := wire.SendKey(ModSlot(Shift), false);
    }

    // ---- Keymap and modifier messages --------------------------------------------------

    method UploadKeymap(keymap: map<nat, Symbol>) returns (ok: bool)
      requires Synced() && keymap != map[]
      modifies this`lastKeymap, wire
      ensures Synced()
      ensures wire.healthy ==> ok
      ensures ok ==> lastKeymap == keymap
      ensures ok ==> wire.seat == old(wire.seat).(keymap := keymap, mask := wire.seat.mask)
      ensures ok ==> wire.seat.mask == {} || wire.seat.mask == old(wire.seat.mask)
      ensures !ok ==> lastKeymap == old(lastKeymap) && wire.seat == old(wire.seat) && wire.sent == old(wire.sent)
    {
      if lastKeymap == keymap {
        return true;
      }
      ok := wire.SendKeymap(keymap);
      if ok {
        lastKeymap := keymap;
      }
    }

    method UploadKeymapAndRestoreMods(keymap: map<nat, Symbol>) returns (ok: bool)
      requires Synced() && keymap != map[]
      modifies this`lastKeymap, wire
      ensures Synced()
      ensures wire.healthy ==> ok
      ensures ok ==> lastKeymap == keymap
      ensures ok ==> wire.seat == old(wire.seat).(keymap := keymap, mask := wire.seat.mask)
      ensures ok && old(MaskInSync()) ==> MaskInSync()
      ensures !ok ==>
        || (lastKeymap == old(lastKeymap) && wire.seat == old(wire.seat))
        || (lastKeymap == keymap && wire.seat == old(wire.seat).(keymap := keymap, mask := wire.seat.mask))
    {
      ok := UploadKeymap(keymap);
      if ok && mods != {} {
        ok := wire.SendMask(mods);
      }
    }

    method ApplyTempMods(bits: set<Modifier>) returns (ok: bool, added: set<Modifier>)
      modifies this`mods, wire
      ensures wire.healthy ==> ok
      ensures ok ==> added == bits - old(mods) && mods == old(mods) + bits
      ensures ok ==> wire.seat == old(wire.seat).(mask := wire.seat.mask)
      ensures ok && old(MaskInSync()) ==> MaskInSync()
      ensures !ok ==> added == {} && mods == old(mods) && wire.seat == old(wire.seat)
    {
      added := bits - mods;
      if added == {} {
        forall m | m in bits ensures m in mods { assert m !in mods ==> m in added; }
        assert mods + bits == mods;
        return true, {};
      }
      mods := mods + added;
      ok := wire.SendMask(mods);
      if !ok {
        mods := mods - added;
        added := {};
      }
    }

    method ClearTempMods(bits: set<Modifier>) returns (ok: bool)
      modifies this`mods, wire
      ensures wire.healthy ==> ok
      ensures mods == old(mods) - bits
      ensures ok ==> wire.seat == old(wire.seat).(mask := wire.seat.mask)
      ensures ok && old(MaskInSync()) ==> MaskInSync()
      ensures !ok ==> wire.seat == old(wire.seat)
    {
      if bits == {} {
        return true;
      }
      mods := mods - bits;
      ok := wire.SendMask(mods);
    }

    method ClearTempModsBestEffort(bits: set<Modifier>)
      modifies this`mods, wire
      ensures mods == old(mods) - bits
      ensures wire.seat == old(wire.seat).(mask := wire.seat.mask)
    {
      var _ := ClearTempMods(bits);
    }

    method CleanupModifierKey(m: Modifier)
      modifies this`mods, wire
      ensures mods == old(mods) || mods == old(mods) - {m}
      ensures wire.seat == old(wire.seat).(mask := wire.seat.mask, pressed := wire.seat.pressed)
      ensures SameAbove(wire.seat.pressed, old(wire.seat).pressed)
    {
      var ok := wire.SendKey(ModSlot(m), false);
      if !ok { return; }
      var previous := mods;
      mods := mods - {m};
      ok := wire.SendMask(mods);
      if !ok {
        mods := previous;
      }
    }

    /** Press and release of one slot. */
    method Tap(slot: nat) returns (ok: bool)
      requires slot >= 8
      modifies wire
      ensures wire.healthy ==> ok
      ensures ok ==> wire.seat == AfterKey(AfterKey(old(wire.seat), slot, true), slot, false)
      ensures wire.seat == old(wire.seat).(pressed := wire.seat.pressed, typed := wire.seat.typed)
      ensures AgreeOff(old(wire.seat).pressed, wire.seat.pressed, {slot})
    {
      ok := wire.Outcome();
      if !ok { return; }
      ok := wire.SendKey(slot, true);
      if !ok { return; }
      ok := wire.Outcome();
      if !ok {
        var _ := wire.SendKey(slot, false);
        return;
      }
      ok := wire.SendKey(slot, false);
      if !ok {
        var _ := wire.SendKey(slot, false);
      }
    }

    // ---- Executing one action ----------------------------------------------------------

    /** A modifier key's own press, release or tap, with `temp` already borrowed. */
    method ExecuteModifierKey(a: KeySend, temp: set<Modifier>) returns (r: Outcome)
      requires a.key.ModKey?
      modifies this`mods, wire
      ensures r in {Done, NotHeld, Failed} && (wire.healthy ==> r != Failed)
      ensures r == NotHeld ==> a.up && a.key.m !in old(mods)
      ensures r == Done ==> (a.up ==> a.key.m in old(mods))
      ensures r == Done ==> mods == if a.down && !a.up then old(mods) + {a.key.m} else old(mods) - {a.key.m}
      ensures r == Done ==> MaskInSync()
      ensures r == Done ==>
        (wire.seat.typed == old(wire.seat).typed +
          if a.up then [] else [Press(SymbolAt(old(wire.seat).keymap, ModSlot(a.key.m)), old(wire.seat).mask)])
      ensures r != Done ==> old(mods) - temp - {a.key.m} <= mods <= (old(mods) + {a.key.m}) - temp
      ensures wire.seat.keymap == old(wire.seat).keymap
      ensures SameAbove(wire.seat.pressed, old(wire.seat).pressed)
    {
      var m := a.key.m;
      if a.up {
        if m !in mods {
          ClearTempModsBestEffort(temp);
          return NotHeld;
        }
        var ok := wire.SendKey(ModSlot(m), false);
        if !ok {
          CleanupModifierKey(m);
          ClearTempModsBestEffort(temp);
          return Failed;
        }
        mods := mods - {m};
        ok := wire.SendMask(mods);
        if !ok {
          mods := mods + {m};
          CleanupModifierKey(m);
          ClearTempModsBestEffort(temp);
          return Failed;
        }
        return Done;
      }
      var ok := wire.SendKey(ModSlot(m), true);
      if !ok {
        ClearTempModsBestEffort(temp);
        return Failed;
      }
      mods := mods + {m};
      ok := wire.SendMask(mods);
      if !ok {
        mods := mods - {m};
        CleanupModifierKey(m);
        ClearTempModsBestEffort(temp);
        return Failed;
      }
      if a.down {
        return Done;
      }
      ok := wire.SendKey(ModSlot(m), false);
      if !ok {
        CleanupModifierKey(m);
        ClearTempModsBestEffort(temp);
        return Failed;
      }
      mods := mods - {m};
      ok := wire.SendMask(mods);
      if !ok {
        mods := mods + {m};
        CleanupModifierKey(m);
        ClearTempModsBestEffort(temp);
        return Failed;
      }
      return Done;
    }

    /** Presses and releases every character of a text or literal, in order. */
    method TapAll(units: seq<Unit>, slots: map<Target, nat>) returns (ok: bool)
      requires Defines(wire.seat.keymap, slots)
      requires forall u :: u in units ==> RuneTarget(RuneOf(u)) in slots
      modifies wire
      ensures wire.healthy ==> ok
      ensures wire.seat == old(wire.seat).(pressed := wire.seat.pressed, typed := wire.seat.typed)
      ensures ok ==> wire.seat.typed == old(wire.seat).typed + PressRunes(units, old(wire.seat).mask)
      ensures AgreeOff(old(wire.seat).pressed, wire.seat.pressed, TapSlots(slots, units))
      ensures ok ==> wire.seat.pressed.Keys !! TapSlots(slots, units)
    {
      hide AgreeOff, TapSlots, PressRunes, Defines, AfterKey;
      ok := true;
      NothingTapped(units, slots, wire.seat);
      for i := 0 to |units|
        invariant wire.seat == old(wire.seat).(pressed := wire.seat.pressed, typed := wire.seat.typed)
        invariant wire.seat.typed == old(wire.seat).typed + PressRunes(units[..i], old(wire.seat).mask)
        invariant AgreeOff(old(wire.seat).pressed, wire.seat.pressed, TapSlots(slots, units[..i]))
        invariant wire.seat.pressed.Keys !! TapSlots(slots, units[..i])
      {
        assert units[i] in units;
        var slot := slots[RuneTarget(RuneOf(units[i]))];
        SlotHigh(wire.seat.keymap, slots, RuneTarget(RuneOf(units[i])));
        ghost var before := wire.seat;
        ok := Tap(slot);
        TapMore(old(wire.seat).pressed, before.pressed, wire.seat.pressed, slots, units, i);
        if !ok { return; }
        TapTypes(before, wire.seat, slots, units, i);
        PressRunesSnoc(units, i, before.mask);
        assert wire.seat.pressed.Keys !! TapSlots(slots, units[..i + 1]);
        ok := wire.Outcome();
        if !ok { return; }
      }
      assert units[..|units|] == units;
    }

    /** A named key or literal: release, hold or tap. */
    method ExecuteHeldKey(a: KeySend, slots: map<Target, nat>) returns (r: Outcome)
      requires !a.key.ModKey? && a.text == [] && Covers(slots, a)
      requires Defines(wire.seat.keymap, slots) && OnSlots(held, slots)
      requires a.key.Literal? ==> ValidUtf8(a.key.units)
      modifies this`held, wire
      ensures r in {Done, NotHeld, Failed} && (wire.healthy ==> r != Failed)
      ensures r == NotHeld ==> if a.up then a.key !in old(held) else a.down && !Holdable(a.key)
      ensures r == Done ==> (a.up ==> a.key in old(held)) && (a.down && !a.up ==> Holdable(a.key))
      ensures r == Done ==>
        (held.Keys == if a.up then old(held.Keys) - {a.key} else if a.down then old(held.Keys) + {a.key} else old(held.Keys))
      ensures r != Done ==> held == old(held)
      ensures OnSlots(held, slots)
      ensures wire.seat == old(wire.seat).(pressed := wire.seat.pressed, typed := wire.seat.typed)
      ensures r == Done ==> (wire.seat.typed == old(wire.seat).typed +
        if a.up then []
        else if a.key.Literal? && !a.down then PressRunes(a.key.units, old(wire.seat).mask)
        else [Press(KeySymbol(a.key), old(wire.seat).mask)])
      ensures r == Done ==> LooseKeys() == TappedAway(old(State()), a, old(LooseKeys()))
      ensures r == Done ==> StraySlots() <= old(StraySlots())
      ensures LooseKeys() <= old(LooseKeys()) + TappedAway(old(State()), a, {})
    {
      ghost var before := wire.seat.pressed;
      if a.up {
        if a.key !in held { return NotHeld; }
        LooseAfterRelease(held, slots, before, a.key);
        StrayAfterRelease(held, before, a.key);
        var ok := wire.SendKey(held[a.key], false);
        if !ok { return Failed; }
        held := held - {a.key};
        return Done;
      }
      if a.down {
        if !Holdable(a.key) { return NotHeld; }
        assert a.key.Literal? ==> a.key.units[0] in a.key.units;
        var slot := slots[TargetOf(a.key)];
        LooseAfterHold(held, slots, before, a.key);
        StrayAfterHold(held, before, a.key, slot, KeySymbol(a.key));
        var ok := wire.SendKey(slot, true);
        if !ok { return Failed; }
        held := held[a.key := slot];
        return Done;
      }
      var ok;
      if a.key.NamedKey? {
        var slot := slots[TargetOf(a.key)];
        ok := Tap(slot);
        LooseAfterNamedTap(held, slots, before, wire.seat.pressed, a.key);
      } else {
        ok := TapAll(a.key.units, slots);
        LooseAfterTaps(held, slots, before, wire.seat.pressed, a.key.units);
      }
      r := if ok then Done else Failed;
    }

    /** Text typed as it stands. */
    method ExecuteText(a: KeySend, slots: map<Target, nat>) returns (r: Outcome)
      requires a.text != [] && Covers(slots, a) && Defines(wire.seat.keymap, slots) && OnSlots(held, slots)
      modifies wire
      ensures r in {Done, Failed} && (wire.healthy ==> r != Failed)
      ensures ActionOutcome(old(Now()), Now(), a, r)
      ensures wire.seat.keymap == old(wire.seat).keymap
    {
      var typed := TapAll(a.text, slots);
      LooseAfterTaps(held, slots, old(wire.seat).pressed, wire.seat.pressed, a.text);
      r := if typed then Done else Failed;
    }

    /** A modifier key with other modifiers borrowed, which then go back. */
    method WithModifierKey(a: KeySend, slots: map<Target, nat>, temp: set<Modifier>, ghost pre: Snap) returns (r: Outcome)
      requires a.text == [] && a.key.ModKey? && DefinesModifiers(wire.seat.keymap)
      requires OnSlots(held, slots) && Defines(wire.seat.keymap, slots) && Lent(pre, Now(), a, temp)
      modifies this`mods, wire
      ensures r in {Done, NotHeld, Failed} && (wire.healthy ==> r != Failed)
      ensures ActionOutcome(pre, Now(), a, r)
      ensures wire.seat.keymap == old(wire.seat).keymap
    {
      r := ExecuteModifierKey(a, temp);
      LooseAbove(held, slots, old(wire.seat).pressed, wire.seat.pressed);
      if r != Done { return; }
      var ok := ClearTempMods(temp);
      if !ok {
        ClearTempModsBestEffort(temp);
        return Failed;
      }
    }

    /** A named key or literal with modifiers borrowed, which then go back. */
    method WithHeldKey(a: KeySend, slots: map<Target, nat>, temp: set<Modifier>, ghost pre: Snap) returns (r: Outcome)
      requires a.text == [] && !a.key.ModKey? && Covers(slots, a) && Defines(wire.seat.keymap, slots)
      requires OnSlots(held, slots) && (a.key.Literal? ==> ValidUtf8(a.key.units)) && Lent(pre, Now(), a, temp)
      modifies this`held, this`mods, wire
      ensures r in {Done, NotHeld, Failed} && (wire.healthy ==> r != Failed)
      ensures ActionOutcome(pre, Now(), a, r)
      ensures OnSlots(held, slots)
      ensures wire.seat.keymap == old(wire.seat).keymap
    {
      hide Loose, Stray, Defines, Covers, OnSlots, ValidUtf8, SymbolAt;
      r := ExecuteHeldKey(a, slots);
      if r != Done {
        ClearTempModsBestEffort(temp);
        return;
      }
      var ok := ClearTempMods(temp);
      if !ok {
        ClearTempModsBestEffort(temp);
        return Failed;
      }
    }

    /** A key with its modifiers borrowed around it. */
    method ExecuteKey(a: KeySend, slots: map<Target, nat>) returns (r: Outcome)
      requires a.text == [] && Covers(slots, a) && Defines(wire.seat.keymap, slots) && DefinesModifiers(wire.seat.keymap)
      requires OnSlots(held, slots) && (a.key.Literal? ==> ValidUtf8(a.key.units))
      modifies this`held, this`mods, wire
      ensures r in {Done, NotHeld, Failed} && (wire.healthy ==> r != Failed)
      ensures ActionOutcome(old(Now()), Now(), a, r)
      ensures OnSlots(held, slots)
      ensures wire.seat.keymap == old(wire.seat).keymap
    {
      hide ActionDone, ExecStep, TappedAway, OwnModifiers, Loose, Covers, Defines, DefinesModifiers, OnSlots;
      ghost var pre := Now();
      var ok, temp := ApplyTempMods(a.modifiers);
      if !ok {
        NothingDone(pre, a);
        return Failed;
      }
      if a.key.ModKey? {
        r := WithModifierKey(a, slots, temp, pre);
      } else {
        r := WithHeldKey(a, slots, temp, pre);
      }
    }

    /** One action of a batch. */
    method ExecuteAction(a: KeySend, slots: map<Target, nat>) returns (r: Outcome)
      requires Covers(slots, a) && Defines(wire.seat.keymap, slots) && DefinesModifiers(wire.seat.keymap)
      requires OnSlots(held, slots)
      requires a.text == [] && a.key.Literal? ==> ValidUtf8(a.key.units)
      modifies this`held, this`mods, wire
      ensures r in {Done, NotHeld, Failed} && (wire.healthy ==> r != Failed)
      ensures r == Done ==> ActionDone(old(Now()), Now(), a)
      ensures r == NotHeld ==> ExecStep(old(State()), a) == None
      ensures LooseKeys() <= old(LooseKeys()) + TappedAway(old(State()), a, {})
      ensures OnSlots(held, slots)
      ensures wire.seat.keymap == old(wire.seat).keymap
      ensures r != Done ==> old(mods) - OwnModifiers(a) <= mods <= old(mods) + OwnModifiers(a)
    {
      hide ActionDone, ExecStep, TappedAway, OwnModifiers, Loose, Defines, DefinesModifiers, Covers;
      if a.text != [] {
        r := ExecuteText(a, slots);
      } else {
        r := ExecuteKey(a, slots);
      }
    }

    // ---- Before the upload: nothing here writes or changes state ------------------------

    method HeldNames() returns (names: seq<Key>)
      ensures Elems(names) == held.Keys
    {
      names := [];
      var rest := held.Keys;
      while rest != {}
        invariant Elems(names) + rest == held.Keys
        decreases rest
      {
        var k :| k in rest;
        names, rest := names + [k], rest - {k};
      }
    }

    method ValidateSequence(actions: seq<KeySend>) returns (ok: bool)
      ensures ok <==> Sim(State(), actions).Some?
      ensures ok <==> DoableAll(State(), HonestAll(actions))
    {
      hide DoableAll, HonestAll, SimStep;
      AcceptedExactly(State(), actions);
      var names, mask := held.Keys, mods;
      for i := 0 to |actions|
        invariant Sim(State(), actions[..i]) == Some(Books(names, mask))
      {
        var a := actions[i];
        assert actions[..i + 1][..i] == actions[..i];
        var step := SimStep(Books(names, mask), a);
        if step.None? {
          SimStuck(State(), actions, i + 1);
          return false;
        }
        names, mask := step.value.held, step.value.mods;
      }
      assert actions[..|actions|] == actions;
      return true;
    }

    /** Adds the held keys to what the batch's keymap must define. */
    method CollectHeld(names: seq<Key>, runes0: seq<Target>, named0: seq<Target>)
      returns (ok: bool, runes: seq<Target>, named: seq<Target>)
      requires forall k :: k in names ==> !k.ModKey? && k != Literal([])
      requires NoDup(runes0) && AllRunes(runes0)
      requires NoDup(named0) && AllNamed(named0)
      ensures ok <==> forall k :: k in names ==> Sendable(k)
      ensures NoDup(runes) && AllRunes(runes)
      ensures NoDup(named) && AllNamed(named)
      ensures ok ==> Elems(runes) + Elems(named) == Elems(runes0) + Elems(named0) + TargetsOf(names)
    {
      hide NoDup, Elems, AllRunes, AllNamed, TargetsOf;
      runes, named := runes0, named0;
      NoTargets(names, runes, named);
      for i := 0 to |names|
        invariant forall j :: 0 <= j < i ==> Sendable(names[j])
        invariant NoDup(runes) && AllRunes(runes)
        invariant NoDup(named) && AllNamed(named)
        invariant Elems(runes) + Elems(named) == Elems(runes0) + Elems(named0) + TargetsOf(names[..i])
      {
        var k := names[i];
        assert k in names;
        if k.Literal? && (|k.units| != 1 || k.units[0].Bad?) {
          assert |k.units| == 1 ==> k.units[0] in k.units;
          return false, runes, named;
        }
        TargetsStep(names, i);
        ghost var before := (runes, named);
        if k.Literal? {
          runes := AppendUnique(runes, TargetOf(k));
          RunesStay(before.0, runes, TargetOf(k));
        } else {
          named := AppendUnique(named, TargetOf(k));
          NamedStay(before.1, named, TargetOf(k));
        }
        Regroup(Elems(before.0), Elems(before.1), Elems(runes), Elems(named), TargetOf(k),
          Elems(runes0) + Elems(named0), TargetsOf(names[..i]), TargetsOf(names[..i + 1]));
      }
      assert names[..|names|] == names;
      return true, runes, named;
    }

    /** The slots held keys keep; refuses bookkeeping that could not have been built here. */
    method ReserveHeld(names: seq<Key>) returns (ok: bool, reserved: map<Target, nat>)
      requires Elems(names) == held.Keys && forall k :: k in names ==> Sendable(k)
      requires forall k :: k in held ==> !(8 <= held[k] <= 11)
      ensures ok ==> reserved.Keys == HeldTargets(held) && Values(reserved) == Values(held)
      ensures ok ==> Injective(reserved) && OnSlots(held, reserved)
      ensures ok ==> forall t :: t in reserved ==> 12 <= reserved[t] <= DYN_MAX
      ensures (forall k :: k in held ==> 8 <= held[k] <= DYN_MAX) && Injective(held) ==> ok
    {
      hide Reserving, HeldTargets, Values, Injective, OnSlots, Sendable;
      reserved := map[];
      var owners: map<nat, Key> := map[];
      NothingReserved(held);
      assert Elems(names[..0]) == {};
      for i := 0 to |names|
        invariant Reserving(held, Elems(names[..i]), reserved, owners)
      {
        var k := names[i];
        assert k in Elems(names) && names[..i + 1] == names[..i] + [k];
        assert Elems(names[..i + 1]) == Elems(names[..i]) + {k} && Elems(names[..i]) <= held.Keys;
        var slot := held[k];
        if slot < 8 || slot > DYN_MAX || (slot in owners && owners[slot] != k) {
          OwnerConflict(held, Elems(names[..i]), reserved, owners, k);
          return false, reserved;
        }
        ReserveStep(held, Elems(names[..i]), reserved, owners, k);
        reserved, owners := reserved[TargetOf(k) := slot], owners[slot := k];
      }
      assert names[..|names|] == names;
      AllReserved(held, reserved, owners);
      return true, reserved;
    }

    /** The characters and named keys that the batch's keymap must define, held keys included. */
    method GatherTargets(actions: seq<KeySend>) returns (ok: bool, names: seq<Key>, runes: seq<Target>, named: seq<Target>)
      requires Bookable()
      ensures Elems(names) == held.Keys
      ensures ok <==> forall k :: k in held ==> Sendable(k)
      ensures ok ==> forall k :: k in names ==> Sendable(k)
      ensures NoDup(runes) && forall t :: t in runes ==> t.RuneTarget?
      ensures NoDup(named) && forall t :: t in named ==> t.NamedTarget?
      ensures ok ==> Elems(runes) + Elems(named) == Need(actions) + HeldTargets(held)
    {
      runes, named := FirstPass(actions);
      names := HeldNames();
      forall k | k in names ensures k in held { assert k in Elems(names); }
      forall k | k in held ensures k in names { assert k in Elems(names); }
      ok, runes, named := CollectHeld(names, runes, named);
      assert TargetsOf(names) == HeldTargets(held);
    }

    /** Everything `sendkeys` decides before it touches the compositor. */
    method PlanBatch(actions: seq<KeySend>)
      returns (out: Outcome, slots: map<Target, nat>, keymap: map<nat, Symbol>, ghost order: seq<Target>, ghost reserved: map<Target, nat>)
      requires Bookable()
      ensures out == Done || out.Rejected?
      ensures out == Done ==> Sim(State(), actions).Some? && Planned(held, actions, slots, keymap)
      ensures out == Done ==> Placed(held, actions, order, reserved, slots)
      ensures out == Rejected(InvalidHeldCharacter) ==> exists k :: k in held && !Sendable(k)
      ensures out == Rejected(CorruptSlots) ==> !Valid()
      ensures out == Rejected(NotAccepted) ==> Sim(State(), actions).None? && forall k :: k in held ==> Sendable(k)
      ensures out == Rejected(Capacity) && Valid() ==> !Fits(held, actions)
      ensures out != Rejected(Cancelled)
    {
      slots, keymap, order, reserved := map[], map[], [], map[];
      var ok, names, runes, named := GatherTargets(actions);
      if !ok {
        return Rejected(InvalidHeldCharacter), slots, keymap, order, reserved;
      }
      var chosen, short := ChooseOrder(runes, named);
      order := chosen;
      if !short && |runes| > MAX_DYNAMIC_SLOTS {
        if Valid() {
          TooManyRunes(runes, held, Need(actions));
        }
        return Rejected(Capacity), slots, keymap, order, reserved;
      }
      var kept;
      ok, kept := ReserveHeld(names);
      reserved := kept;
      if !ok {
        return Rejected(CorruptSlots), slots, keymap, order, reserved;
      }
      ok := ValidateSequence(actions);
      if !ok {
        return Rejected(NotAccepted), slots, keymap, order, reserved;
      }
      ok, slots, keymap := AllocateBatch(held, actions, chosen, short, kept);
      if ok { ChosenPlaced(held, actions, order, reserved, slots, Elems(runes), Elems(named), short); }
      out := if ok then Done else Rejected(Capacity);
    }

    // ---- The batch ----------------------------------------------------------------------

    method ExecuteBatch(actions: seq<KeySend>, slots: map<Target, nat>) returns (out: Outcome)
      requires Sim(State(), actions).Some? && Need(actions) <= slots.Keys
      requires Defines(wire.seat.keymap, slots) && DefinesModifiers(wire.seat.keymap) && OnSlots(held, slots)
      modifies this`held, this`mods, wire
      ensures out in {Done, NotHeld, Failed} && (wire.healthy ==> out != Failed)
      ensures OnSlots(held, slots) && wire.seat.keymap == old(wire.seat).keymap
      ensures out == Done ==> BatchDone(old(Now()), Now(), actions)
      ensures out == NotHeld ==> Exec(old(State()), actions) == None
      ensures KeepsHeldDown(old(Now()), Now(), actions)
    {
      hide TypedAll, LooseAll, KeepsHeldDown, OnSlots, Defines, DefinesModifiers, Loose, Stray, Sim, Need;
      ghost var pre := Now();
      NeedCovers(actions, slots);
      assert actions[..0] == [];
      BatchNotBegun(pre, actions);
      for i := 0 to |actions|
        invariant OnSlots(held, slots) && wire.seat.keymap == old(wire.seat).keymap
        invariant BatchDone(pre, Now(), actions[..i]) && KeepsHeldDown(pre, Now(), actions)
      {
        var ok := wire.Outcome();
        if !ok { return Failed; }
        ghost var mid := Now();
        assert actions[i] in actions && actions[..i + 1][..i] == actions[..i];
        AcceptedAction(pre.State(), actions, i);
        var r := ExecuteAction(actions[i], slots);
        BatchKeepsHeldDown(pre, mid, Now(), actions, i);
        if r != Done {
          if r == NotHeld { ExecStuck(pre.State(), actions, i + 1); }
          return r;
        }
        BatchStep(pre, mid, Now(), actions, i);
      }
      assert actions[..|actions|] == actions;
      return Done;
    }

    /** Uploads a planned keymap and carries out the batch under it. */
    method UploadAndExecute(actions: seq<KeySend>, slots: map<Target, nat>, keymap: map<nat, Symbol>) returns (out: Outcome)
      requires Synced() && Sim(State(), actions).Some? && Planned(held, actions, slots, keymap)
      modifies this, wire
      ensures out in {Done, NotHeld, Failed} && (wire.healthy ==> out != Failed)
      ensures Synced() && (old(Valid()) ==> Valid())
      ensures out == Done ==> BatchDone(old(Now()), Now(), actions)
      ensures out == NotHeld ==> Exec(old(State()), actions) == None
      ensures KeepsHeldDown(old(Now()), Now(), actions)
      ensures SameSlots(old(held), held)
      ensures out != Failed ==> wire.seat.keymap == keymap
    {
      ghost var pre := Now();
      ghost var wasValid := Valid();
      var ok := UploadKeymapAndRestoreMods(keymap);
      ghost var mid := Now();
      if wasValid && lastKeymap == keymap {
        RunesHigh(pre.held, slots);
        SlotsKeepBooks(held, slots, keymap);
      }
      if !ok {
        return Failed;
      }
      out := ExecuteBatch(actions, slots);
      if wasValid { SlotsKeepBooks(held, slots, keymap); }
      AfterUpload(pre, mid, Now(), actions, out == Done);
    }

    /** Types and holds a batch of text and keys under one keymap. */
    method Sendkeys(actions: seq<KeySend>) returns (out: Outcome)
      requires Bookable()
      modifies this, wire
      ensures Synced() && (old(Valid()) ==> Valid())
      ensures out.Rejected? ==> Now() == old(Now()) && lastKeymap == old(lastKeymap) && wire.sent == old(wire.sent)
      ensures out == Rejected(Cancelled) || out == Failed ==> !wire.healthy
      ensures out == Rejected(InvalidHeldCharacter) ==> exists k :: k in old(held) && !Sendable(k)
      ensures out == Rejected(CorruptSlots) ==> !old(Valid())
      ensures out == Rejected(NotAccepted) ==>
        Sim(old(State()), actions).None? && forall k :: k in old(held) ==> Sendable(k)
      ensures out == Rejected(Capacity) && old(Valid()) ==> !Fits(old(held), actions)
      ensures !out.Rejected? ==> Sim(old(State()), actions).Some?
      ensures !out.Rejected? && actions != [] ==> Fits(old(held), actions) && forall k :: k in old(held) ==> Sendable(k)
      ensures out == Done ==> BatchDone(old(Now()), Now(), actions)
      ensures out == NotHeld ==> Exec(old(State()), actions) == None
      ensures KeepsHeldDown(old(Now()), Now(), actions)
      ensures SameSlots(old(held), held)
      ensures (out == Done || out == NotHeld) && actions != [] && Roomy(old(held), actions) ==>
        AcceleratorsShown(old(held), wire.seat.keymap)
      ensures wire.healthy && old(Valid()) ==> (out == Done <==> actions == [] || Possible(old(held), old(mods), actions))
    {
      hide Roomy, AcceleratorsShown, Possible, BatchDone, KeepsHeldDown, Fits, Exec, Sendable, SimStep, Planned, Placed;
      ghost var pre, wasValid := Now(), Valid();
      BatchNotBegun(pre, actions);
      var ok := wire.Outcome();
      if !ok { return Rejected(Cancelled); }
      if actions == [] { return Done; }
      var slots, keymap;
      ghost var order, reserved;
      out, slots, keymap, order, reserved := PlanBatch(actions);
      if out == Done {
        PlannedMeans(held, actions, slots, keymap, order, reserved);
        out := UploadAndExecute(actions, slots, keymap);
      }
      if wire.healthy && wasValid { OutcomeDecides(pre, Now(), actions, out); }
    }

    // ---- Single keys ----------------------------------------------------------------------

    /** Presses and holds a key. */
    method PressKey(key: Key) returns (out: Outcome)
      requires Valid()
      modifies this, wire
      ensures Valid()
      ensures out.Rejected? || out == NotHeld ==> Now() == old(Now()) && wire.sent == old(wire.sent)
      ensures out == Rejected(Cancelled) || out == Failed ==> !wire.healthy
      ensures out == NotHeld ==> !key.ModKey? && !Holdable(key)
      ensures out == Done ==> State() == HoldOf(old(State()), key)
      ensures out == Done && old(MaskInSync()) ==>
        MaskInSync() && wire.seat.typed == old(wire.seat).typed + [Press(KeySymbol(key), old(mods))]
      ensures old(LooseKeys()) == {} ==> LooseKeys() == {}
      ensures out == Done ==> StraySlots() <= old(StraySlots())
      ensures SameSlots(old(held), held)
      ensures wire.healthy ==> (out == Done <==> Pressable(old(held), old(mods), key))
    {
      var ok := wire.Outcome();
      if !ok { return Rejected(Cancelled); }
      if held != map[] {
        out := PressBesideHeld(key);
        return;
      }
      match key
      case ModKey(m, _) =>
        out := PressModifier(m);
      case NamedKey(code, _) =>
        out := PressAlone(key, code, NamedSymbol(code));
      case Literal(units) =>
        if |units| != 1 { return NotHeld; }
        out := PressAlone(key, DYN_BASE, RuneSymbol(RuneOf(units[0])));
    }

    /** Another key is held: its slot has to keep its meaning. */
    method PressBesideHeld(key: Key) returns (out: Outcome)
      requires Valid()
      modifies this, wire
      ensures Valid() && (out == Done || out.Rejected? || out == Failed)
      ensures out.Rejected? ==> Now() == old(Now()) && wire.sent == old(wire.sent)
      ensures out == Rejected(Cancelled) || out == Failed ==> !wire.healthy
      ensures out == Done ==> PressedSingly(old(Now()), Now(), key)
      ensures old(LooseKeys()) == {} ==> LooseKeys() == {}
      ensures SameSlots(old(held), held)
      ensures wire.healthy && old(held) != map[] ==> (out == Done <==> Pressable(old(held), old(mods), key))
    {
      hide Fits, Sim, Exec, Need, NeverTapsHeld, BatchDone, PressedSingly, Sendable, DoableAll, ExecStep;
      ghost var pre := Now();
      var hold := KeySend([], key, true, false, {});
      OneDoable(State(), hold);
      HoldDoable(State(), hold);
      SingleAction(State(), hold);
      out := Sendkeys([hold]);
      HeldSingly(pre, Now(), hold, out == Done);
    }

    method PressModifier(m: Modifier) returns (out: Outcome)
      requires Valid() && held == map[]
      modifies this, wire
      ensures Valid() && held == map[] && (out == Done || out == Failed) && (wire.healthy ==> out == Done)
      ensures out == Done ==> mods == old(mods) + {m}
      ensures out == Done && old(MaskInSync()) ==>
        MaskInSync() && wire.seat.typed == old(wire.seat).typed + [Press(ModSymbol(m), old(mods))]
      ensures out == Done ==> StraySlots() <= old(StraySlots())
    {
      AloneKeymap(12, NoSymbol);
      var ok := UploadKeymapAndRestoreMods(MODS_ONLY);
      if !ok { return Failed; }
      ok := wire.SendKey(ModSlot(m), true);
      if !ok { return Failed; }
      var previous := mods;
      mods := mods + {m};
      ok := wire.SendMask(mods);
      if !ok {
        mods := previous;
        var _ := wire.SendKey(ModSlot(m), false);
        return Failed;
      }
      return Done;
    }

    method PressAlone(key: Key, slot: nat, symbol: Symbol) returns (out: Outcome)
      requires Valid() && held == map[] && Holdable(key) && symbol == KeySymbol(key)
      requires 12 <= slot <= DYN_MAX && (key.Literal? ==> slot >= DYN_BASE)
      modifies this, wire
      ensures Valid() && (out == Done || out == Failed) && (wire.healthy ==> out == Done)
      ensures mods == old(mods)
      ensures held == if out == Done then map[key := slot] else map[]
      ensures out == Done && old(MaskInSync()) ==>
        MaskInSync() && wire.seat.typed == old(wire.seat).typed + [Press(symbol, old(mods))]
      ensures LooseKeys() == {}
      ensures out == Done ==> StraySlots() <= old(StraySlots())
    {
      AloneKeymap(slot, symbol);
      var ok := UploadKeymapAndRestoreMods(MODS_ONLY[slot := symbol]);
      if !ok { return Failed; }
      StrayAfterHold(held, wire.seat.pressed, key, slot, symbol);
      ok := wire.SendKey(slot, true);
      if !ok { return Failed; }
      held := held[key := slot];
      return Done;
    }

    /** Releases a key pressed before, on the slot it was pressed on. */
    method ReleaseKey(key: Key) returns (out: Outcome)
      requires Valid()
      modifies this, wire
      ensures Valid()
      ensures out.Rejected? || out == NotHeld ==> Now() == old(Now()) && wire.sent == old(wire.sent)
      ensures out == Rejected(Cancelled) || out == Failed ==> !wire.healthy
      ensures out == NotHeld ==> !IsDown(old(State()), key)
      ensures out.Rejected? && out.reason != Cancelled ==>
        out.reason == InvalidHeldCharacter && exists k :: k in old(held) && !Sendable(k)
      ensures out == Done ==> IsDown(old(State()), key) && State() == ReleaseOf(old(State()), key)
      ensures out == Done && old(MaskInSync()) ==> MaskInSync() && wire.seat.typed == old(wire.seat).typed
      ensures old(LooseKeys()) == {} ==> LooseKeys() == {}
      ensures out == Done ==> StraySlots() <= old(StraySlots())
      ensures out == Done && !key.ModKey? ==> old(held)[key] !in wire.seat.pressed
      ensures SameSlots(old(held), held)
    {
      hide Sendable, Stray, Loose;
      ghost var pre := Now();
      assert key in held ==> held[key] > 11 && Injective(held);
      hide Injective, SymbolAt, DefinesModifiers, Holdable;
      var ok := wire.Outcome();
      if !ok { return Rejected(Cancelled); }
      if key.ModKey? {
        if key.m !in mods { return NotHeld; }
        out := ReleaseModifier(key.m);
        return;
      }
      if key !in held { return NotHeld; }
      var slot := held[key];
      if |held| > 1 || mods != {} || slot != (if key.NamedKey? then key.code else DYN_BASE) {
        out := ReleaseBesideHeld(key);
      } else {
        OnlyKey(held, key);
        out := ReleaseAlone(key, slot);
      }
      ReleasedSlot(pre, Now(), key, out == Done);
    }

    /** Other keys or modifiers are down, or the key is on a batch's slot: the keymap has to
        keep all of them. */
    method ReleaseBesideHeld(key: Key) returns (out: Outcome)
      requires Valid() && key in held
      modifies this, wire
      ensures Valid() && (out == Done || out.Rejected? || out == Failed)
      ensures out.Rejected? ==> Now() == old(Now()) && wire.sent == old(wire.sent)
      ensures out == Rejected(Cancelled) || out == Failed ==> !wire.healthy
      ensures out.Rejected? && out.reason != Cancelled ==>
        out.reason == InvalidHeldCharacter && exists k :: k in old(held) && !Sendable(k)
      ensures out == Done ==> ReleasedSingly(old(Now()), Now(), key)
      ensures old(LooseKeys()) == {} ==> LooseKeys() == {}
      ensures SameSlots(old(held), held)
    {
      hide Fits, Sim, Exec, Need, NeverTapsHeld, BatchDone, ReleasedSingly, Sendable;
      ghost var pre := Now();
      var release := KeySend([], key, false, true, {});
      ReleaseFits(held, release);
      ReleaseAccepted(pre, release);
      out := Sendkeys([release]);
      ReleasedByBatch(pre, Now(), release, out == Done);
    }

    method ReleaseModifier(m: Modifier) returns (out: Outcome)
      requires Valid() && m in mods
      modifies this`mods, wire
      ensures Valid() && (out == Done || out == Failed) && (wire.healthy ==> out == Done)
      ensures mods == if out == Done then old(mods) - {m} else old(mods)
      ensures out == Done ==> MaskInSync() && wire.seat.typed == old(wire.seat).typed
      ensures LooseKeys() == old(LooseKeys()) && StraySlots() <= old(StraySlots())
    {
      var ok := wire.SendKey(ModSlot(m), false);
      if !ok { return Failed; }
      var previous := mods;
      mods := mods - {m};
      ok := wire.SendMask(mods);
      if !ok {
        mods := previous;
        return Failed;
      }
      return Done;
    }

    method ReleaseAlone(key: Key, slot: nat) returns (out: Outcome)
      requires Valid() && held == map[key := slot] && mods == {}
      modifies this, wire
      ensures Valid() && mods == {} && (out == Done || out == Failed) && (wire.healthy ==> out == Done)
      ensures held == if out == Done then map[] else old(held)
      ensures out == Done && old(MaskInSync()) ==> MaskInSync() && wire.seat.typed == old(wire.seat).typed
      ensures out == Done ==> LooseKeys() == {} && StraySlots() <= old(StraySlots())
      ensures out != Done ==> LooseKeys() == old(LooseKeys())
    {
      AloneKeymap(slot, KeySymbol(key));
      var ok := UploadKeymap(MODS_ONLY[slot := KeySymbol(key)]);
      if !ok { return Failed; }
      StrayAfterRelease(held, wire.seat.pressed, key);
      ok := wire.SendKey(slot, false);
      if !ok { return Failed; }
      held := held - {key};
      assert held == map[];
      return Done;
    }

    /** Any run of the three operations, with the state at every moment and the outcome of every
        operation; `clean` says that no batch taps a character held at the time. */
    method RunAll(ops: seq<Operation>) returns (clean: bool, ghost snaps: seq<Snap>, ghost outs: seq<Outcome>)
      requires Valid()
      modifies this, wire
      ensures Valid()
      ensures Session(ops, outs, snaps) && snaps[0] == old(Now()) && snaps[|ops|] == Now()
      ensures clean <==> NeverTapsHeldKeys(ops, outs, snaps)
      ensures clean && old(LooseKeys()) == {} ==> LooseKeys() == {}
      ensures (forall op :: op in ops ==> op.Batch? ==> OnlyShortTaps(op.actions)) ==> clean
      ensures wire.healthy ==> Failed !in outs && Rejected(Cancelled) !in outs
    {
      hide OpTaken, NeverTapsHeldKeys;
      clean, snaps, outs := true, [Now()], [];
      assert NeverTapsHeldKeys([], [], [Now()]) by { NoTapsYet(Now()); }
      for i := 0 to |ops|
        invariant Valid()
        invariant Session(ops[..i], outs, snaps) && snaps[0] == old(Now()) && snaps[i] == Now()
        invariant clean <==> NeverTapsHeldKeys(ops[..i], outs, snaps)
        invariant (forall op :: op in ops ==> op.Batch? ==> OnlyShortTaps(op.actions)) ==> clean
        invariant wire.healthy ==> Failed !in outs && Rejected(Cancelled) !in outs
      {
        assert ops[i] in ops && ops[..i + 1] == ops[..i] + [ops[i]];
        var out, tapless := Operate(ops[i]);
        clean := clean && (out.Rejected? || tapless);
        SessionStep(ops[..i], outs, snaps, ops[i], out, Now(), out.Rejected? || tapless);
        snaps, outs := snaps + [Now()], outs + [out];
      }
      assert ops[..|ops|] == ops;
      if clean && old(LooseKeys()) == {} { HeldKeysStayDown(ops, outs, snaps, |ops|); }
    }

    /** One operation of a session; `tapless` says that it taps no character held at the time. */
    method Operate(op: Operation) returns (out: Outcome, tapless: bool)
      requires Valid()
      modifies this, wire
      ensures Valid() && OpTaken(old(Now()), op, out, Now())
      ensures tapless <==> (op.Batch? ==> NeverTapsHeld(old(State()), op.actions))
      ensures !out.Rejected? && op.Batch? && OnlyShortTaps(op.actions) ==> tapless
      ensures wire.healthy ==> out != Failed && out != Rejected(Cancelled)
    {
      hide Loose, Stray, Sendable, Fits, Sim, Exec, TypedAll, LooseAll, SymbolAt, DefinesModifiers, Roomy, AcceleratorsShown;
      tapless := true;
      match op
      case Down(key) =>
        out := PressKey(key);
      case Up(key) =>
        out := ReleaseKey(key);
      case Batch(actions) =>
        var b := Books(held.Keys, mods);
        tapless := NeverTapsHeld(b, actions);
        out := Sendkeys(actions);
        if !out.Rejected? && OnlyShortTaps(actions) { ShortTapsAreSafe(b, actions); }
    }
  }
}
