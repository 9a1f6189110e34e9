/** Slots and keymaps: what a batch needs, and the allocation of dynamic slots around held keys. */
module KeySlots {
  import opened Basics
  import opened KeyModel

  function SymbolAt(keymap: map<nat, Symbol>, slot: nat): Symbol {
    if slot in keymap then keymap[slot] else NoSymbol
  }

  const MODS_ONLY: map<nat, Symbol> :=
    map[8 := ModSymbol(Shift), 9 := ModSymbol(Control), 10 := ModSymbol(Mod1), 11 := ModSymbol(Mod4)]

  lemma ModsOnly(m: Modifier)
    ensures ModSlot(m) in MODS_ONLY && MODS_ONLY[ModSlot(m)] == ModSymbol(m)
    ensures forall s :: s in MODS_ONLY ==> 8 <= s <= 11
  {}

  /** What a slot of a batch's keymap is for. */
  datatype Target = RuneTarget(r: char) | NamedTarget(key: Key)

  function TargetOf(key: Key): Target {
    if key.Literal? && |key.units| == 1 then RuneTarget(RuneOf(key.units[0])) else NamedTarget(key)
  }

  function TargetSymbol(t: Target): Symbol {
    match t
    case RuneTarget(r) => RuneSymbol(r)
    case NamedTarget(key) => KeySymbol(key)
  }

  predicate Injective<K>(m: map<K, nat>) {
    forall a, b {:trigger m[a], m[b]} :: a in m && b in m && m[a] == m[b] ==> a == b
  }

  /** Every slot is a usable key slot and the keymap gives it its own symbol. */
  predicate Defines(keymap: map<nat, Symbol>, slots: map<Target, nat>) {
    && Injective(slots)
    && (forall t :: t in slots ==> 12 <= slots[t] <= DYN_MAX && SymbolAt(keymap, slots[t]) == TargetSymbol(t))
  }

  predicate DefinesModifiers(keymap: map<nat, Symbol>) {
    forall m: Modifier :: SymbolAt(keymap, ModSlot(m)) == ModSymbol(m)
  }

  /** Held keys sit on the slots the batch gave them. */
  predicate OnSlots(held: map<Key, nat>, slots: map<Target, nat>) {
    forall k :: k in held ==>
      Sendable(k) && TargetOf(k) in slots && slots[TargetOf(k)] == held[k]
  }

  /** A held key that a batch accepts: named, or one character of valid UTF-8. */
  predicate Sendable(k: Key) {
    Holdable(k) && (k.Literal? ==> ValidUtf8(k.units))
  }

  lemma SendableIdentity(k: Key, l: Key)
    requires Sendable(k) && Sendable(l) && TargetOf(k) == TargetOf(l)
    ensures k == l
  {
    if k.Literal? && l.Literal? {
      assert k.units[0] in k.units && l.units[0] in l.units;
      assert k.units == [k.units[0]] && l.units == [l.units[0]];
    }
  }

  predicate Covers(slots: map<Target, nat>, a: KeySend) {
    if a.text != [] then forall u :: u in a.text ==> RuneTarget(RuneOf(u)) in slots
    else match a.key
      case ModKey(_, _) => true
      case NamedKey(_, _) => NamedTarget(a.key) in slots
      case Literal(units) => forall u :: u in units ==> RuneTarget(RuneOf(u)) in slots
  }

  // ---- Allocating slots -----------------------------------------------------------------

  lemma {:induction false} NoDupSize<T>(s: seq<T>)
    requires NoDup(s)
    ensures |Elems(s)| == |s|
  {
    if s != [] {
      NoDupSize(s[1..]);
      assert Elems(s) == {s[0]} + Elems(s[1..]) && s[0] !in Elems(s[1..]);
    }
  }

  /** The targets an action needs a slot for. */
  function NeedOf(a: KeySend): set<Target> {
    if a.text != [] then set u | u in a.text :: RuneTarget(RuneOf(u))
    else match a.key
      case ModKey(_, _) => {}
      case NamedKey(_, _) => {NamedTarget(a.key)}
      case Literal(units) => set u | u in units :: RuneTarget(RuneOf(u))
  }

  function Need(actions: seq<KeySend>): set<Target> {
    if actions == [] then {} else Need(actions[..|actions| - 1]) + NeedOf(actions[|actions| - 1])
  }

  lemma {:induction false} NeedCovers(actions: seq<KeySend>, slots: map<Target, nat>)
    requires Need(actions) <= slots.Keys
    ensures forall a :: a in actions ==> Covers(slots, a)
  {
    if actions != [] {
      var last := actions[|actions| - 1];
      NeedCovers(actions[..|actions| - 1], slots);
      assert NeedOf(last) <= slots.Keys;
      if last.text != [] {
        forall u | u in last.text ensures RuneTarget(RuneOf(u)) in slots {
          assert RuneTarget(RuneOf(u)) in NeedOf(last);
        }
      } else if last.key.Literal? {
        forall u | u in last.key.units ensures RuneTarget(RuneOf(u)) in slots {
          assert RuneTarget(RuneOf(u)) in NeedOf(last);
        }
      }
      assert forall a :: a in actions ==> a in actions[..|actions| - 1] || a == last;
    }
  }

  function HeldTargets(held: map<Key, nat>): set<Target> {
    set k | k in held :: TargetOf(k)
  }

  /** Dynamic slots that no held key occupies. */
  function FreeSlots(taken: set<nat>): set<nat> {
    set s | DYN_BASE <= s <= DYN_MAX && s !in taken
  }

  function Range(lo: nat, hi: nat): (r: set<nat>)
    requires lo <= hi
    ensures |r| == hi - lo && forall s :: s in r <==> lo <= s < hi
    decreases hi - lo
  {
    if lo == hi then {} else {lo} + Range(lo + 1, hi)
  }

  const MAX_DYNAMIC_SLOTS: nat := DYN_MAX - DYN_BASE + 1

  lemma FreeSlotsAtLeast(taken: set<nat>)
    ensures |FreeSlots(taken)| >= MAX_DYNAMIC_SLOTS - |taken|
  {
    var all := Range(DYN_BASE, DYN_MAX + 1);
    assert FreeSlots(taken) == all - taken;
  }

  lemma FreeSlotsExactly(taken: set<nat>)
    requires forall s :: s in taken ==> DYN_BASE <= s <= DYN_MAX
    ensures |FreeSlots(taken)| == MAX_DYNAMIC_SLOTS - |taken|
  {
    var all := Range(DYN_BASE, DYN_MAX + 1);
    assert FreeSlots(taken) == all - taken && taken <= all;
  }

  function Values<K>(m: map<K, nat>): set<nat> {
    set k | k in m :: m[k]
  }

  lemma {:induction false} ValuesSize<K>(m: map<K, nat>)
    ensures |Values(m)| <= |m|
    ensures Injective(m) ==> |Values(m)| == |m|
    decreases |m|
  {
    if m != map[] {
      var k :| k in m;
      var rest := m - {k};
      assert rest.Keys == m.Keys - {k};
      ValuesSize(rest);
      forall v | v in Values(m) ensures v in Values(rest) + {m[k]} {
        var l :| l in m && m[l] == v;
        assert l != k ==> l in rest && rest[l] == v;
      }
      assert Values(m) == Values(rest) + {m[k]};
      if Injective(m) {
        assert Injective(rest) && m[k] !in Values(rest);
      }
    }
  }

  /** A list no longer than the dynamic range always finds slots. */
  lemma ShortListsFit(order: seq<Target>, reserved: map<Target, nat>)
    requires NoDup(order) && |order| <= MAX_DYNAMIC_SLOTS && reserved.Keys <= Elems(order)
    ensures |Elems(order) - reserved.Keys| <= |FreeSlots(Values(reserved))|
  {
    NoDupSize(order);
    FreeSlotsAtLeast(Values(reserved));
    ValuesSize(reserved);
    assert |Elems(order) - reserved.Keys| == |Elems(order)| - |reserved.Keys|;
  }

  /** The order with one target more, unless it is there already. */
  function WithTarget(order: seq<Target>, t: Target): seq<Target> {
    if t in order then order else order + [t]
  }

  /** The order with the characters of a text not in it yet, as they appear. */
  function WithRunes(order: seq<Target>, units: seq<Unit>): seq<Target> {
    if units == [] then order
    else WithTarget(WithRunes(order, units[..|units| - 1]), RuneTarget(RuneOf(units[|units| - 1])))
  }

  method AppendUnique(order: seq<Target>, t: Target) returns (r: seq<Target>)
    requires NoDup(order)
    ensures NoDup(r) && Elems(r) == Elems(order) + {t}
    ensures order <= r && r == WithTarget(order, t)
  {
    r := if t in order then order else order + [t];
  }

  method AppendRunes(order: seq<Target>, units: seq<Unit>) returns (r: seq<Target>)
    requires NoDup(order) && forall t :: t in order ==> t.RuneTarget?
    ensures NoDup(r) && forall t :: t in r ==> t.RuneTarget?
    ensures Elems(r) == Elems(order) + set u | u in units :: RuneTarget(RuneOf(u))
    ensures r == WithRunes(order, units)
  {
    r := order;
    for i := 0 to |units|
      invariant NoDup(r) && r == WithRunes(order, units[..i])
      invariant Elems(r) == Elems(order) + set u | u in units[..i] :: RuneTarget(RuneOf(u))
    {
      r := AppendUnique(r, RuneTarget(RuneOf(units[i])));
      assert units[..i + 1] == units[..i] + [units[i]] && units[..i + 1][..i] == units[..i];
    }
    assert units[..|units|] == units;
    forall t | t in r ensures t.RuneTarget? { assert t in Elems(r); }
  }

  /** The characters and named keys of a batch, each once, in order of appearance. */
  method FirstPass(actions: seq<KeySend>) returns (runes: seq<Target>, named: seq<Target>)
    ensures NoDup(runes) && NoDup(named)
    ensures (forall t :: t in runes ==> t.RuneTarget?) && (forall t :: t in named ==> t.NamedTarget?)
    ensures Elems(runes) + Elems(named) == Need(actions)
  {
    runes, named := [], [];
    for i := 0 to |actions|
      invariant NoDup(runes) && NoDup(named)
      invariant (forall t :: t in runes ==> t.RuneTarget?) && (forall t :: t in named ==> t.NamedTarget?)
      invariant Elems(runes) + Elems(named) == Need(actions[..i])
    {
      var a := actions[i];
      assert actions[..i + 1][..i] == actions[..i];
      if a.text != [] {
        runes := AppendRunes(runes, a.text);
      } else {
        match a.key
        case ModKey(_, _) =>
        case NamedKey(_, _) =>
          named := AppendUnique(named, NamedTarget(a.key));
          forall t | t in named ensures t.NamedTarget? { assert t in Elems(named); }
        case Literal(units) =>
          runes := AppendRunes(runes, units);
      }
    }
    assert actions[..|actions|] == actions;
  }

  function NextFree(next: nat, taken: set<nat>): nat
    decreases DYN_MAX + 1 - next
  {
    if next <= DYN_MAX && next in taken then NextFree(next + 1, taken) else next
  }

  /** Where one target after the other comes to lie, and the next slot to look at: kept where it is,
      or on the next free slot. */
  function Placement(order: seq<Target>, reserved: map<Target, nat>): (map<Target, nat>, nat) {
    if order == [] then (reserved, DYN_BASE)
    else
      var (slots, next) := Placement(order[..|order| - 1], reserved);
      var t := order[|order| - 1];
      if t in slots then (slots, next)
      else (slots[t := NextFree(next, Values(reserved))], NextFree(next, Values(reserved)) + 1)
  }

  /** What comes later in the order moves nothing. */
  lemma {:induction false} PlacementExtends(order: seq<Target>, more: seq<Target>, reserved: map<Target, nat>)
    ensures forall t :: t in Placement(order, reserved).0 ==>
      t in Placement(order + more, reserved).0 && Placement(order + more, reserved).0[t] == Placement(order, reserved).0[t]
  {
    if more == [] {
      assert order + more == order;
    } else {
      var init := more[..|more| - 1];
      PlacementExtends(order, init, reserved);
      assert (order + more)[..|order + more| - 1] == order + init;
    }
  }

  lemma {:induction false} PlacementPlaces(order: seq<Target>, reserved: map<Target, nat>)
    ensures Placement(order, reserved).0.Keys == Elems(order) + reserved.Keys
  {
    if order != [] {
      PlacementPlaces(order[..|order| - 1], reserved);
      assert order == order[..|order| - 1] + [order[|order| - 1]];
    }
  }

  /** Two batches that begin with the same targets under the same held keys put them on the same slots. */
  lemma SameStartSameSlots(start: seq<Target>, a: seq<Target>, b: seq<Target>, reserved: map<Target, nat>, t: Target)
    requires start <= a && start <= b && t in start
    ensures t in Placement(a, reserved).0 && t in Placement(b, reserved).0
    ensures Placement(a, reserved).0[t] == Placement(b, reserved).0[t]
  {
    PlacementPlaces(start, reserved);
    assert t in Elems(start);
    PlacementExtends(start, a[|start|..], reserved);
    PlacementExtends(start, b[|start|..], reserved);
    assert start + a[|start|..] == a && start + b[|start|..] == b;
  }

  /** With no key held the targets lie side by side from the first dynamic slot on. */
  lemma {:induction false} SideBySide(order: seq<Target>, i: nat)
    requires NoDup(order) && i < |order|
    ensures order[i] in Placement(order, map[]).0 && Placement(order, map[]).0[order[i]] == DYN_BASE + i
    ensures Placement(order, map[]).1 == DYN_BASE + |order|
  {
    var init, last := order[..|order| - 1], order[|order| - 1];
    PlacementPlaces(init, map[]);
    assert last !in Elems(init);
    if init != [] { SideBySide(init, if i < |init| then i else 0); }
  }

  /** The first dynamic slot from `next` on that is not reserved, if there is one. */
  method TakeSlot(next: nat, taken: set<nat>) returns (slot: nat)
    requires DYN_BASE <= next <= DYN_MAX + 1
    ensures next <= slot <= DYN_MAX + 1 && (slot !in taken || slot == DYN_MAX + 1)
    ensures forall s :: next <= s < slot ==> s in taken
    ensures slot == NextFree(next, taken)
  {
    slot := next;
    while slot <= DYN_MAX && slot in taken
      invariant next <= slot <= DYN_MAX + 1 && NextFree(slot, taken) == NextFree(next, taken)
      invariant forall s :: next <= s < slot ==> s in taken
    {
      slot := slot + 1;
    }
  }

  /** Free slots below `next`, in use once allocation has come that far. */
  function Used(next: nat, taken: set<nat>): set<nat> {
    set s | DYN_BASE <= s < next && s !in taken
  }

  /** An allocation in progress: reserved slots kept, the others on free slots below
      `next`, one each and without gaps. */
  predicate Assigned(slots: map<Target, nat>, reserved: map<Target, nat>, taken: set<nat>, next: nat) {
    && DYN_BASE <= next <= DYN_MAX + 1
    && Injective(slots)
    && (forall t :: t in reserved ==> t in slots && slots[t] == reserved[t])
    && (forall t :: t in slots && t !in reserved ==> DYN_BASE <= slots[t] < next && slots[t] !in taken)
  }

  lemma AssignStep(slots: map<Target, nat>, reserved: map<Target, nat>, taken: set<nat>, next: nat, t: Target, slot: nat)
    requires Assigned(slots, reserved, taken, next) && t !in slots
    requires forall a :: a in reserved ==> reserved[a] in taken
    requires next <= slot <= DYN_MAX && slot !in taken
    ensures Assigned(slots[t := slot], reserved, taken, slot + 1)
  {
    forall a | a in slots ensures slots[a] != slot {
      if a in reserved { assert slots[a] == reserved[a]; }
    }
  }

  /** Every free slot below `next` has an owner among the targets added. */
  predicate NoGaps(slots: map<Target, nat>, reserved: map<Target, nat>, taken: set<nat>, next: nat, owner: map<nat, Target>) {
    forall s :: s in Used(next, taken) ==>
      s in owner && owner[s] in slots && owner[s] !in reserved && slots[owner[s]] == s
  }

  lemma AddedCount(slots: map<Target, nat>, reserved: map<Target, nat>, taken: set<nat>, next: nat, owner: map<nat, Target>)
    requires Assigned(slots, reserved, taken, next) && NoGaps(slots, reserved, taken, next, owner)
    ensures |slots.Keys - reserved.Keys| == |Used(next, taken)|
  {
    var extra := map t | t in slots && t !in reserved :: slots[t];
    assert extra.Keys == slots.Keys - reserved.Keys;
    ValuesSize(extra);
    ExtraUsed(slots, reserved, taken, next, owner, extra);
  }

  lemma ExtraUsed(slots: map<Target, nat>, reserved: map<Target, nat>, taken: set<nat>, next: nat, owner: map<nat, Target>,
    extra: map<Target, nat>)
    requires Assigned(slots, reserved, taken, next) && NoGaps(slots, reserved, taken, next, owner)
    requires extra == map t | t in slots && t !in reserved :: slots[t]
    ensures Values(extra) == Used(next, taken) && Injective(extra)
  {
    forall s | s in Used(next, taken) ensures s in Values(extra) {
      assert owner[s] in extra && extra[owner[s]] == s;
    }
    forall s | s in Values(extra) ensures s in Used(next, taken) {
      var t :| t in extra && extra[t] == s;
    }
  }

  /** The two ways an allocation ends: every target placed, or no free slot left for one. */
  lemma AllocationEnds(slots: map<Target, nat>, reserved: map<Target, nat>, taken: set<nat>, next: nat,
    owner: map<nat, Target>, all: set<Target>)
    requires Assigned(slots, reserved, taken, next) && NoGaps(slots, reserved, taken, next, owner)
    requires slots.Keys <= all
    requires slots.Keys == all || Used(next, taken) == FreeSlots(taken)
    ensures slots.Keys == all <==> |all - reserved.Keys| <= |FreeSlots(taken)|
  {
    AddedCount(slots, reserved, taken, next, owner);
    if slots.Keys == all {
      SubsetSize(Used(next, taken), FreeSlots(taken));
    } else {
      var t :| t in all && t !in slots;
      assert t !in reserved;
      StrictSubsetSize(slots.Keys - reserved.Keys, all - reserved.Keys, t);
    }
  }

  /** One target: kept where it is, or given the next free slot if there is one. */
  method PlaceTarget(slots: map<Target, nat>, reserved: map<Target, nat>, taken: set<nat>, next: nat, ghost owner: map<nat, Target>, t: Target)
    returns (ok: bool, placed: map<Target, nat>, next': nat, ghost owner': map<nat, Target>)
    requires Assigned(slots, reserved, taken, next) && NoGaps(slots, reserved, taken, next, owner)
    requires forall a :: a in reserved ==> reserved[a] in taken
    ensures ok ==> (placed, next') == if t in slots then (slots, next) else (slots[t := NextFree(next, taken)], NextFree(next, taken) + 1)
    ensures Assigned(placed, reserved, taken, next') && NoGaps(placed, reserved, taken, next', owner')
    ensures ok ==> placed.Keys == slots.Keys + {t}
    ensures !ok ==> placed == slots && t !in slots && Used(next', taken) == FreeSlots(taken)
  {
    if t in slots {
      return true, slots, next, owner;
    }
    var slot := TakeSlot(next, taken);
    if slot > DYN_MAX {
      assert Used(next, taken) == FreeSlots(taken);
      return false, slots, next, owner;
    }
    AssignStep(slots, reserved, taken, next, t, slot);
    return true, slots[t := slot], slot + 1, owner[slot := t];
  }

  lemma PlacementStep(order: seq<Target>, reserved: map<Target, nat>, i: nat)
    requires i < |order|
    ensures order[i] in Elems(order) && Elems(order[..i + 1]) == Elems(order[..i]) + {order[i]}
    ensures var (slots, next) := Placement(order[..i], reserved);
      Placement(order[..i + 1], reserved) == if order[i] in slots then (slots, next)
      else (slots[order[i] := NextFree(next, Values(reserved))], NextFree(next, Values(reserved)) + 1)
  {
    hide NextFree, Values;
    assert order[..i + 1][..i] == order[..i] && order[..i + 1] == order[..i] + [order[i]];
  }

  lemma NothingPlaced(order: seq<Target>, reserved: map<Target, nat>)
    ensures Elems(order[..0]) == {} && Placement(order[..0], reserved) == (reserved, DYN_BASE)
    ensures forall t :: t in reserved ==> reserved[t] in Values(reserved)
  {}

  lemma AssignNothing(reserved: map<Target, nat>)
    requires Injective(reserved)
    ensures Assigned(reserved, reserved, Values(reserved), DYN_BASE) && NoGaps(reserved, reserved, Values(reserved), DYN_BASE, map[])
  {}

  lemma AssignedAll(slots: map<Target, nat>, reserved: map<Target, nat>, taken: set<nat>, next: nat)
    requires Assigned(slots, reserved, taken, next)
    ensures Injective(slots)
    ensures forall t :: t in slots ==>
      if t in reserved then slots[t] == reserved[t] else DYN_BASE <= slots[t] <= DYN_MAX
  {}

  /** Gives every target without a reserved slot the next dynamic slot that is not reserved. */
  method AssignSlots(order: seq<Target>, reserved: map<Target, nat>) returns (ok: bool, slots: map<Target, nat>)
    requires reserved.Keys <= Elems(order) && Injective(reserved)
    ensures ok <==> |Elems(order) - reserved.Keys| <= |FreeSlots(Values(reserved))|
    ensures ok ==> slots.Keys == Elems(order) && Injective(slots)
    ensures ok ==> forall t :: t in slots ==>
      if t in reserved then slots[t] == reserved[t] else DYN_BASE <= slots[t] <= DYN_MAX
    ensures ok ==> slots == Placement(order, reserved).0
  {
    hide Assigned, NoGaps, Injective, Placement, Values, FreeSlots, Elems, NextFree;
    AssignNothing(reserved);
    NothingPlaced(order, reserved);
    slots := reserved;
    var taken := Values(reserved);
    var next: nat := DYN_BASE;
    ghost var owner: map<nat, Target> := map[];
    for i := 0 to |order|
      invariant Assigned(slots, reserved, taken, next) && NoGaps(slots, reserved, taken, next, owner)
      invariant slots.Keys <= Elems(order)
      invariant Elems(order[..i]) <= slots.Keys
      invariant (slots, next) == Placement(order[..i], reserved)
    {
      PlacementStep(order, reserved, i);
      ok, slots, next, owner := PlaceTarget(slots, reserved, taken, next, owner, order[i]);
      if !ok {
        AllocationEnds(slots, reserved, taken, next, owner, Elems(order));
        return;
      }
    }
    ok := true;
    assert order[..|order|] == order;
    assert slots.Keys == Elems(order);
    AllocationEnds(slots, reserved, taken, next, owner, Elems(order));
    AssignedAll(slots, reserved, taken, next);
  }

  /** The keymap text of a batch: the modifier block and one definition for each target. */
  method BuildKeymap(order: seq<Target>, slots: map<Target, nat>) returns (keymap: map<nat, Symbol>)
    requires slots.Keys == Elems(order) && Injective(slots)
    requires forall t :: t in slots ==> 12 <= slots[t] <= DYN_MAX
    ensures Defines(keymap, slots) && DefinesModifiers(keymap) && keymap != map[]
  {
    keymap := MODS_ONLY;
    forall m: Modifier ensures SymbolAt(MODS_ONLY, ModSlot(m)) == ModSymbol(m) { ModsOnly(m); }
    assert 8 in keymap;
    for i := 0 to |order|
      invariant DefinesModifiers(keymap) && 8 in keymap
      invariant forall t :: t in Elems(order[..i]) ==> SymbolAt(keymap, slots[t]) == TargetSymbol(t)
    {
      assert order[i] in Elems(order) && forall t :: t in order[..i] ==> t in Elems(order);
      assert order[..i + 1] == order[..i] + [order[i]];
      keymap := keymap[slots[order[i]] := TargetSymbol(order[i])];
    }
    assert order[..|order|] == order;
  }

  lemma StrictSubsetSize<T>(a: set<T>, b: set<T>, t: T)
    requires a <= b && t in b && t !in a
    ensures |a| < |b|
  {
    SubsetSize(a + {t}, b);
  }

  const ACCELERATORS: string := "abcdefghijklmnopqrstuvwxyzABCDEFGHIJKLMNOPQRSTUVWXYZ0123456789"

  function AsUnits(s: string): seq<Unit> {
    seq(|s|, i requires 0 <= i < |s| => Scalar(s[i]))
  }

  /** The letters and digits, as the targets every short batch begins with. */
  function Accelerators(): seq<Target> { WithRunes([], AsUnits(ACCELERATORS)) }

  lemma OneMore(order: seq<Target>, order': seq<Target>, first: seq<Target>, runes: seq<Target>, i: nat)
    requires i < |runes| && (forall t :: t in runes ==> t.RuneTarget?) && (forall t :: t in order ==> t.RuneTarget?)
    requires first <= order && order <= order' && Elems(order') == Elems(order) + {runes[i]}
    requires Elems(order) == Elems(first) + Elems(runes[..i])
    ensures first <= order' && Elems(order') == Elems(first) + Elems(runes[..i + 1])
    ensures forall t :: t in order' ==> t.RuneTarget?
  {
    assert runes[..i + 1] == runes[..i] + [runes[i]];
    forall t | t in order' ensures t.RuneTarget? { assert t in Elems(order'); }
  }

  /** Letters and digits first, so that they keep their slots from one batch to the next. */
  method StableOrder(runes: seq<Target>) returns (stable: seq<Target>)
    requires forall t :: t in runes ==> t.RuneTarget?
    ensures NoDup(stable) && Elems(stable) == Elems(Accelerators()) + Elems(runes)
    ensures forall t :: t in stable ==> t.RuneTarget?
    ensures Accelerators() <= stable
  {
    hide NoDup, WithRunes, AsUnits;
    stable := AppendRunes([], AsUnits(ACCELERATORS));
    assert Elems(stable) == Elems(Accelerators()) + Elems(runes[..0]);
    for i := 0 to |runes|
      invariant Accelerators() <= stable && Elems(stable) == Elems(Accelerators()) + Elems(runes[..i])
      invariant NoDup(stable) && forall t :: t in stable ==> t.RuneTarget?
    {
      ghost var before := stable;
      stable := AppendUnique(stable, runes[i]);
      OneMore(before, stable, Accelerators(), runes, i);
    }
    assert runes[..|runes|] == runes;
  }

  /** Letters and digits keep their slots: any two batches short enough for the stable order, sent while
      the same keys are held, put each of them on the same slot, whatever else they contain; with
      no key held it is the character's own place in the dynamic range. */
  lemma AcceleratorsStay(a: seq<Target>, b: seq<Target>, reserved: map<Target, nat>, i: nat)
    requires Accelerators() <= a && Accelerators() <= b && NoDup(a) && i < |Accelerators()|
    ensures var t := Accelerators()[i];
      && t in Placement(a, reserved).0 && t in Placement(b, reserved).0
      && Placement(a, reserved).0[t] == Placement(b, reserved).0[t]
      && (reserved == map[] ==> Placement(a, reserved).0[t] == DYN_BASE + i)
  {
    hide Accelerators;
    SameStartSameSlots(Accelerators(), a, b, reserved, Accelerators()[i]);
    if reserved == map[] { SideBySide(a, i); }
  }

  /** The slots of exactly the held keys. */
  ghost predicate Reserves(held: map<Key, nat>, reserved: map<Target, nat>) {
    reserved.Keys == HeldTargets(held) && OnSlots(held, reserved)
  }

  lemma ReservedOnce(held: map<Key, nat>, reserved: map<Target, nat>, reserved': map<Target, nat>)
    requires Reserves(held, reserved) && Reserves(held, reserved')
    ensures reserved == reserved'
  {
    forall t | t in reserved ensures reserved[t] == reserved'[t] {
      var k :| k in held && TargetOf(k) == t;
    }
  }

  /** The slot of a letter or digit, which depends on the held keys alone. */
  function AcceleratorSlot(i: nat, reserved: map<Target, nat>): (slot: nat)
    requires i < |Accelerators()|
  {
    PlacementPlaces(Accelerators(), reserved);
    Placement(Accelerators(), reserved).0[Accelerators()[i]]
  }

  /** A keymap with every letter and digit on its own slot. */
  ghost predicate AcceleratorsShown(held: map<Key, nat>, keymap: map<nat, Symbol>) {
    forall reserved, i: nat :: Reserves(held, reserved) && i < |Accelerators()| ==>
      SymbolAt(keymap, AcceleratorSlot(i, reserved)) == TargetSymbol(Accelerators()[i])
  }

  lemma PlacedAccelerators(held: map<Key, nat>, reserved: map<Target, nat>, order: seq<Target>, slots: map<Target, nat>,
    keymap: map<nat, Symbol>)
    requires Reserves(held, reserved) && Accelerators() <= order && slots == Placement(order, reserved).0
    requires Defines(keymap, slots)
    ensures AcceleratorsShown(held, keymap)
  {
    hide Accelerators, Placement, SymbolAt, TargetSymbol;
    forall r, i: nat | Reserves(held, r) && i < |Accelerators()|
      ensures SymbolAt(keymap, AcceleratorSlot(i, r)) == TargetSymbol(Accelerators()[i])
    {
      ReservedOnce(held, reserved, r);
      SameStartSameSlots(Accelerators(), Accelerators(), order, r, Accelerators()[i]);
    }
  }

  lemma {:induction false} RunesOnce(units: seq<Unit>)
    ensures NoDup(WithRunes([], units))
  {
    if units != [] { RunesOnce(units[..|units| - 1]); }
  }

  /** With no key held a letter's or digit's slot is its own place in the dynamic range. */
  lemma AcceleratorSlotAlone(i: nat)
    requires i < |Accelerators()|
    ensures AcceleratorSlot(i, map[]) == DYN_BASE + i
  {
    hide WithRunes, AsUnits;
    RunesOnce(AsUnits(ACCELERATORS));
    SideBySide(Accelerators(), i);
  }

  lemma {:induction false} TargetsSize(keys: set<Key>)
    ensures |set k | k in keys :: TargetOf(k)| <= |keys|
  {
    if keys != {} {
      var k :| k in keys;
      TargetsSize(keys - {k});
      assert (set l | l in keys :: TargetOf(l)) == (set l | l in keys - {k} :: TargetOf(l)) + {TargetOf(k)};
    }
  }

  function Literals(held: map<Key, nat>): map<Key, nat> {
    map k | k in held && k.Literal? :: held[k]
  }

  lemma FreeBesideLiterals(held: map<Key, nat>)
    requires Injective(held) && forall k :: k in held && k.Literal? ==> DYN_BASE <= held[k] <= DYN_MAX
    ensures |FreeSlots(Values(held))| <= MAX_DYNAMIC_SLOTS - |Literals(held)|
  {
    var literals := Literals(held);
    ValuesSize(literals);
    FreeSlotsExactly(Values(literals));
    SubsetSize(FreeSlots(Values(held)), FreeSlots(Values(literals)));
  }

  lemma MinusAtLeast<T>(a: set<T>, b: set<T>, c: set<T>)
    requires a * b <= c
    ensures |a - b| >= |a| - |c|
  {
    SubsetSize(a * b, c);
    assert a == (a - b) + (a * b);
  }

  lemma RunesBesideLiterals(runes: set<Target>, held: map<Key, nat>)
    requires (forall t :: t in runes ==> t.RuneTarget?)
    ensures |runes - HeldTargets(held)| >= |runes| - |Literals(held)|
  {
    var keys := Literals(held).Keys;
    var shared := set k | k in keys :: TargetOf(k);
    forall t | t in runes * HeldTargets(held) ensures t in shared {
      var k :| k in held && TargetOf(k) == t;
      assert k in keys;
    }
    TargetsSize(keys);
    MinusAtLeast(runes, HeldTargets(held), shared);
  }

  /** More characters than dynamic slots cannot be placed, held ones included. */
  lemma TooManyRunes(runes: seq<Target>, held: map<Key, nat>, need: set<Target>)
    requires NoDup(runes) && (forall t :: t in runes ==> t.RuneTarget?) && |runes| > MAX_DYNAMIC_SLOTS
    requires Elems(runes) <= need + HeldTargets(held)
    requires Injective(held) && forall k :: k in held && k.Literal? ==> DYN_BASE <= held[k] <= DYN_MAX
    ensures |need - HeldTargets(held)| > |FreeSlots(Values(held))|
  {
    NoDupSize(runes);
    FreeBesideLiterals(held);
    RunesBesideLiterals(Elems(runes), held);
    SubsetSize(Elems(runes) - HeldTargets(held), need - HeldTargets(held));
  }
}
