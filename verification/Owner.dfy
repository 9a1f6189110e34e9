/** The owner of backend generations: leases, retirement and closing under concurrency. */
module Owner {
  import opened Basics

  type GenId = nat

  /** Leases taken for calls, and the ones the owner's Close holds itself. */
  datatype LeaseId = Call(n: nat) | Hold(gen: GenId)

  datatype Lease = Lease(gen: GenId, released: bool)

  /** One backend generation. `decided` counts the threads that took it on them to close the
      backend, `called` the calls of its Close that began, `done` tells that one has returned. */
  datatype Generation = Generation(active: int, retired: bool, closeStarted: bool, decided: nat, called: nat, done: bool)

  const FRESH := Generation(0, false, false, 0, 0, false)

  /** What the owner's lock guards. `all` remembers every generation ever owned, `owned` is the
      set the owner keeps; `awaited` are the generations that Close waits for. */
  datatype State = State(
    current: Option<GenId>, closed: bool, all: map<GenId, Generation>, owned: set<GenId>,
    leases: map<LeaseId, Lease>, next: nat, awaited: set<GenId>, returned: bool)

  const INITIAL := State(None, false, map[], {}, map[], 0, {}, false)

  /** The atomic sections, in whatever order threads run them. */
  datatype Op =
    | Install
    | Acquire
    | AcquireFor(gen: GenId)
    | Release(lease: LeaseId)
    | CallClose(gen: GenId)
    | FinishClose(gen: GenId)
    | Close
    | CloseReturns
    | Publish(lease: LeaseId)
    | Abandon(lease: LeaseId)

  predicate Held(s: State, l: LeaseId) {
    l in s.leases && !s.leases[l].released && s.leases[l].gen in s.all
  }

  /** Is the backend of generation g to be closed now, by whoever asks? */
  predicate Due(g: Generation) { g.retired && g.active == 0 && !g.closeStarted }

  function Decide(g: Generation): Generation {
    if Due(g) then g.(closeStarted := true, decided := g.decided + 1) else g
  }

  /** `retireLocked`. */
  function Retire(g: Generation): Generation {
    if g.retired then g else Decide(g.(retired := true))
  }

  function Lend(s: State, g: GenId): State
    requires g in s.all
  {
    s.(all := s.all[g := s.all[g].(active := s.all[g].active + 1)], leases := s.leases[Call(s.next) := Lease(g, false)], next := s.next + 1)
  }

  function Replace(s: State, g: GenId, gen: Generation): State { s.(all := s.all[g := gen]) }

  /** The generations that Close retires and holds. */
  function ToHold(s: State): set<GenId> { set g | g in s.owned && g in s.all && !s.all[g].closeStarted }

  /** The leases that the owner's Close takes on these generations. */
  function HoldLeases(gens: set<GenId>): map<LeaseId, Lease> {
    map l | l in (set g | g in gens :: Hold(g)) :: Lease(l.gen, false)
  }

  function HoldAll(s: State, gens: set<GenId>): State {
    s.(all := map g | g in s.all :: if g in gens then Retire(s.all[g].(active := s.all[g].active + 1)) else s.all[g],
       leases := s.leases + HoldLeases(gens))
  }

  function Installed(s: State): State {
    if s.closed || s.current.Some? then s
    else s.(current := Some(s.next), all := s.all[s.next := FRESH], owned := s.owned + {s.next}, next := s.next + 1)
  }

  function Acquired(s: State): State {
    if s.closed || s.current.None? || s.current.value !in s.all || s.all[s.current.value].retired then s else Lend(s, s.current.value)
  }

  function AcquiredFor(s: State, gen: GenId): State {
    if s.closed || s.current != Some(gen) || gen !in s.all || s.all[gen].retired then s else Lend(s, gen)
  }

  function Released(s: State, l: LeaseId): State {
    if !Held(s, l) then s
    else
      var g := s.leases[l].gen;
      Replace(s, g, Decide(s.all[g].(active := s.all[g].active - 1))).(leases := s.leases[l := Lease(g, true)])
  }

  function CloseCalled(s: State, gen: GenId): State {
    if gen !in s.all || s.all[gen].called >= s.all[gen].decided then s
    else Replace(s, gen, s.all[gen].(called := s.all[gen].called + 1))
  }

  function CloseFinished(s: State, gen: GenId): State {
    if gen !in s.all || s.all[gen].called == 0 || s.all[gen].done then s
    else Replace(s, gen, s.all[gen].(done := true)).(owned := s.owned - {gen})
  }

  function Closed(s: State): State {
    if s.closed then s else HoldAll(s, ToHold(s)).(closed := true, current := None, awaited := s.owned)
  }

  function Returned(s: State): State {
    if s.closed && forall g :: g in s.awaited ==> g in s.all && s.all[g].done then s.(returned := true) else s
  }

  function PublishedBy(s: State, l: LeaseId): State {
    if !Held(s, l) || s.closed || s.current != Some(s.leases[l].gen) then s
    else
      var g := s.leases[l].gen;
      Replace(s, g, Retire(s.all[g])).(current := Some(s.next), all := s.all[g := Retire(s.all[g])][s.next := FRESH],
        owned := s.owned + {s.next}, next := s.next + 1)
  }

  function Abandoned(s: State, l: LeaseId): State {
    if !Held(s, l) then s
    else
      var g := s.leases[l].gen;
      if s.current == Some(g) then Replace(s, g, Decide(Retire(s.all[g]))).(current := None)
      else Replace(s, g, Decide(s.all[g]))
  }

  /** One atomic section; an operation whose guard fails changes nothing. */
  function Step(s: State, op: Op): State {
    match op
    case Install => Installed(s)
    case Acquire => Acquired(s)
    case AcquireFor(gen) => AcquiredFor(s, gen)
    case Release(l) => Released(s, l)
    case CallClose(gen) => CloseCalled(s, gen)
    case FinishClose(gen) => CloseFinished(s, gen)
    case Close => Closed(s)
    case CloseReturns => Returned(s)
    case Publish(l) => PublishedBy(s, l)
    case Abandon(l) => Abandoned(s, l)
  }

  // ------------------------------------------------------------------ invariants

  /** The leases on g that have not been released. */
  function Outstanding(s: State, g: GenId): set<LeaseId> { Out(s.leases, g) }

  function Out(leases: map<LeaseId, Lease>, g: GenId): set<LeaseId> {
    set l | l in leases && leases[l].gen == g && !leases[l].released
  }

  lemma OutAfterLending(leases: map<LeaseId, Lease>, l: LeaseId, g: GenId)
    requires l !in leases
    ensures |Out(leases[l := Lease(g, false)], g)| == |Out(leases, g)| + 1
    ensures forall h :: h != g ==> Out(leases[l := Lease(g, false)], h) == Out(leases, h)
  {
    assert Out(leases[l := Lease(g, false)], g) == Out(leases, g) + {l};
  }

  lemma OutAfterRelease(leases: map<LeaseId, Lease>, l: LeaseId)
    requires l in leases && !leases[l].released
    ensures var g := leases[l].gen;
      |Out(leases[l := Lease(g, true)], g)| == |Out(leases, g)| - 1
      && forall h :: h != g ==> Out(leases[l := Lease(g, true)], h) == Out(leases, h)
  {
    var g := leases[l].gen;
    assert Out(leases, g) == Out(leases[l := Lease(g, true)], g) + {l};
  }

  lemma OutAfterHolding(s: State, gens: set<GenId>, g: GenId)
    requires forall h :: Hold(h) !in s.leases
    ensures |Outstanding(HoldAll(s, gens), g)| == |Outstanding(s, g)| + if g in gens then 1 else 0
  {
    var s' := HoldAll(s, gens);
    if g in gens {
      assert Outstanding(s', g) == Outstanding(s, g) + {Hold(g)};
    } else {
      assert Outstanding(s', g) == Outstanding(s, g);
    }
  }

  /** What holds of one generation at every lock boundary. */
  predicate Sound(s: State, g: GenId)
    requires g in s.all
  {
    var gen := s.all[g];
    && (!gen.retired <==> s.current == Some(g))
    && gen.active == |Outstanding(s, g)|
    && (gen.closeStarted <==> gen.retired && gen.active == 0)
    && gen.decided == (if gen.closeStarted then 1 else 0) && gen.called <= gen.decided && (gen.done ==> gen.called == 1)
    && (g in s.owned <==> !gen.done) && g < s.next
  }

  predicate Inv(s: State) {
    && (forall g :: g in s.all ==> Sound(s, g))
    && (s.current.Some? ==> s.current.value in s.all)
    && s.owned <= s.all.Keys
    && (forall l :: l in s.leases ==> s.leases[l].gen in s.all && (l.Call? ==> l.n < s.next) && (l.Hold? ==> s.closed))
    && (s.closed ==> s.current.None? && s.owned <= s.awaited && s.awaited <= s.all.Keys)
    && (s.returned ==> s.closed && s.owned == {})
  }

  lemma InitialSound()
    ensures Inv(INITIAL)
  {}

  /** Only the leases on one generation have changed. */
  lemma OthersSound(s: State, s': State, g: GenId)
    requires Inv(s) && s'.next >= s.next && s.all.Keys <= s'.all.Keys
    requires forall h :: h in s.all && h != g ==> s'.all[h] == s.all[h] && Outstanding(s', h) == Outstanding(s, h)
    requires s'.current == s.current && forall h :: h in s.all && h != g ==> (h in s'.owned <==> h in s.owned)
    ensures forall h :: h in s.all && h != g ==> Sound(s', h)
  {
    forall h | h in s.all && h != g ensures Sound(s', h) { assert Sound(s, h); }
  }

  lemma LendKeeps(s: State, g: GenId)
    requires Inv(s) && g in s.all && !s.closed && s.current == Some(g)
    ensures Inv(Lend(s, g))
  {
    hide Out;
    var s' := Lend(s, g);
    assert Sound(s, g) && Call(s.next) !in s.leases;
    OutAfterLending(s.leases, Call(s.next), g);
    OthersSound(s, s', g);
    assert Sound(s', g);
  }

  lemma ReleaseKeeps(s: State, l: LeaseId)
    requires Inv(s) && Held(s, l)
    ensures Inv(Step(s, Release(l)))
  {
    hide Out;
    var s', g := Step(s, Release(l)), s.leases[l].gen;
    assert Sound(s, g);
    OutAfterRelease(s.leases, l);
    OthersSound(s, s', g);
    assert Sound(s', g);
  }

  lemma CallCloseKeeps(s: State, g: GenId)
    requires Inv(s) && g in s.all
    ensures Inv(Step(s, CallClose(g)))
  {
    hide Out;
    var s' := Step(s, CallClose(g));
    assert Sound(s, g);
    if s' != s {
      OthersSound(s, s', g);
      assert Sound(s', g);
    }
  }

  lemma FinishCloseKeeps(s: State, g: GenId)
    requires Inv(s) && g in s.all
    ensures Inv(Step(s, FinishClose(g)))
  {
    hide Out;
    var s' := Step(s, FinishClose(g));
    assert Sound(s, g);
    if s' != s {
      OthersSound(s, s', g);
      assert Sound(s', g);
    }
  }

  /** A freshly owned generation has no leases yet. */
  lemma FreshUnleased(s: State, s': State)
    requires Inv(s) && s'.leases == s.leases
    ensures Outstanding(s', s.next) == {}
  {
    forall l | l in s.leases ensures s.leases[l].gen != s.next {
      assert Sound(s, s.leases[l].gen);
    }
  }

  lemma HeldCounts(s: State, l: LeaseId)
    requires Held(s, l)
    ensures |Outstanding(s, s.leases[l].gen)| > 0
  {
    assert l in Outstanding(s, s.leases[l].gen);
  }

  lemma InstallKeeps(s: State)
    requires Inv(s)
    ensures Inv(Step(s, Install))
  {
    var s' := Step(s, Install);
    if !s.closed && s.current.None? {
      FreshUnleased(s, s');
      forall h | h in s.all ensures Sound(s', h) { assert Sound(s, h) && Outstanding(s', h) == Outstanding(s, h); }
      assert Sound(s', s.next);
    }
  }

  lemma PublishKeeps(s: State, l: LeaseId)
    requires Inv(s) && Held(s, l)
    ensures Inv(Step(s, Publish(l)))
  {
    hide Out;
    var s', g := Step(s, Publish(l)), s.leases[l].gen;
    assert Sound(s, g);
    if !s.closed && s.current == Some(g) {
      FreshUnleased(s, s');
      HeldCounts(s, l);
      forall h | h in s.all ensures Sound(s', h) { assert Sound(s, h) && Outstanding(s', h) == Outstanding(s, h); }
      assert Sound(s', s.next);
    }
  }

  lemma AbandonKeeps(s: State, l: LeaseId)
    requires Inv(s) && Held(s, l)
    ensures Inv(Step(s, Abandon(l)))
  {
    hide Out;
    var s', g := Step(s, Abandon(l)), s.leases[l].gen;
    assert Sound(s, g);
    HeldCounts(s, l);
    forall h | h in s.all ensures Sound(s', h) { assert Sound(s, h) && Outstanding(s', h) == Outstanding(s, h); }
  }

  lemma CloseKeeps(s: State)
    requires Inv(s) && !s.closed
    ensures Inv(Step(s, Close))
  {
    hide Out;
    var s' := Step(s, Close);
    forall g | g in s.all ensures Sound(s', g) {
      assert Sound(s, g);
      OutAfterHolding(s, ToHold(s), g);
    }
  }

  lemma StepKeeps(s: State, op: Op)
    requires Inv(s)
    ensures Inv(Step(s, op))
  {
    match op {
      case Install => InstallKeeps(s);
      case Acquire => if Step(s, op) != s { LendKeeps(s, s.current.value); }
      case AcquireFor(gen) => if Step(s, op) != s { LendKeeps(s, gen); }
      case Release(l) => if Held(s, l) { ReleaseKeeps(s, l); }
      case CallClose(gen) => if gen in s.all { CallCloseKeeps(s, gen); }
      case FinishClose(gen) => if gen in s.all { FinishCloseKeeps(s, gen); }
      case Close => if !s.closed { CloseKeeps(s); }
      case CloseReturns =>
        var s' := Step(s, op);
        forall h | h in s.all ensures Sound(s', h) { assert Sound(s, h) && Outstanding(s', h) == Outstanding(s, h); }
      case Publish(l) => if Held(s, l) { PublishKeeps(s, l); }
      case Abandon(l) => if Held(s, l) { AbandonKeeps(s, l); }
    }
  }

  // -------------------------------------------------------------------- all runs

  function Run(s: State, ops: seq<Op>): State {
    if ops == [] then s else Step(Run(s, ops[..|ops| - 1]), ops[|ops| - 1])
  }

  /** Every interleaving keeps the invariant. */
  lemma {:induction false} RunSound(ops: seq<Op>)
    ensures Inv(Run(INITIAL, ops))
  {
    if ops == [] {
      InitialSound();
    } else {
      RunSound(ops[..|ops| - 1]);
      StepKeeps(Run(INITIAL, ops[..|ops| - 1]), ops[|ops| - 1]);
    }
  }

  /** In every reachable state each backend's Close was called at most once and only while
      retired without leases; retired without leases means that closing has begun; the
      un-retired generations are the current one or none; active counts the leases out. */
  lemma ClosedOnceWhenUnused(ops: seq<Op>, g: GenId)
    requires g in Run(INITIAL, ops).all
    ensures var s := Run(INITIAL, ops); var gen := s.all[g];
      && gen.called <= 1 && (gen.called == 1 ==> gen.retired && Outstanding(s, g) == {})
      && (gen.retired && Outstanding(s, g) == {} ==> gen.closeStarted && gen.decided == 1)
      && (!gen.retired <==> s.current == Some(g)) && gen.active == |Outstanding(s, g)|
  {
    RunSound(ops);
    assert Sound(Run(INITIAL, ops), g);
  }

  /** A lease is only ever granted on the current, un-retired generation of an open owner. */
  lemma LeasesOnlyOnCurrent(ops: seq<Op>, op: Op, l: LeaseId)
    requires var s := Run(INITIAL, ops); l in Step(s, op).leases && l !in s.leases
    ensures var s := Run(INITIAL, ops);
      if op.Close? then l.Hold? && !s.closed && l.gen in s.owned
      else l.Call? && !s.closed && s.current == Some(Step(s, op).leases[l].gen) && !s.all[s.current.value].retired
  {
    RunSound(ops);
    var s := Run(INITIAL, ops);
    if s.current.Some? { assert Sound(s, s.current.value); }
  }

  lemma StepOwnsNoMore(s: State, op: Op)
    requires s.closed
    ensures Step(s, op).closed && Step(s, op).owned <= s.owned && Step(s, op).all.Keys == s.all.Keys
  {}

  /** Once closed, the owner takes on no generation any more, whatever follows. */
  lemma {:induction false} ClosedOwnsNoMore(s: State, more: seq<Op>)
    requires s.closed
    ensures var t := Run(s, more); t.closed && t.owned <= s.owned && t.all.Keys == s.all.Keys
  {
    if more != [] {
      ClosedOwnsNoMore(s, more[..|more| - 1]);
      StepOwnsNoMore(Run(s, more[..|more| - 1]), more[|more| - 1]);
    }
  }

  /** When the owner's Close returns, every backend it ever owned has been closed. */
  lemma AllClosedOnReturn(ops: seq<Op>, g: GenId)
    requires Run(INITIAL, ops).returned && g in Run(INITIAL, ops).all
    ensures Run(INITIAL, ops).all[g].done && Run(INITIAL, ops).all[g].called == 1
  {
    RunSound(ops);
    assert Sound(Run(INITIAL, ops), g);
  }

  /** Close cannot get stuck: after it, as soon as every lease is back and every closer has
      run, all that Close waits for is done. */
  lemma CloseIsNeverStuck(ops: seq<Op>)
    requires var s := Run(INITIAL, ops);
      s.closed && (forall l :: l in s.leases ==> s.leases[l].released)
      && forall g :: g in s.all && s.all[g].decided > 0 ==> s.all[g].done
    ensures Step(Run(INITIAL, ops), CloseReturns).returned
  {
    RunSound(ops);
    var s := Run(INITIAL, ops);
    forall g | g in s.awaited ensures g in s.all && s.all[g].done {
      assert Sound(s, g);
      assert Outstanding(s, g) == {};
    }
  }

  // ------------------------------------------------------------------ the sections

  lemma InUseStays(gen: Generation)
    requires gen.active > 0
    ensures Retire(gen).decided == gen.decided
  {}

  lemma ReplaceTwice(s: State, g: GenId, a: Generation, b: Generation)
    ensures s.all[g := a][g := b] == s.all[g := b]
  {}

  lemma LeaseKnown(s: State, l: LeaseId)
    requires Inv(s) && l in s.leases
    ensures s.leases[l].gen in s.all && s.all[s.leases[l].gen].active == |Outstanding(s, s.leases[l].gen)|
    ensures s.all[s.leases[l].gen].closeStarted <==> s.all[s.leases[l].gen].retired && s.all[s.leases[l].gen].active == 0
  {
    hide Out;
    assert Sound(s, s.leases[l].gen);
  }

  lemma LastLease(s: State, l: LeaseId)
    requires Held(s, l)
    ensures Outstanding(s, s.leases[l].gen) == {l} <==> |Outstanding(s, s.leases[l].gen)| == 1
  {
    var out := Outstanding(s, s.leases[l].gen);
    assert l in out;
    if |out| == 1 { assert out == {l} + (out - {l}); assert |out - {l}| == 0; }
  }

  lemma ReadyToHold(s: State)
    requires Inv(s)
    ensures forall g :: g in ToHold(s) ==> g in s.all && s.all[g].active >= 0 && !s.all[g].closeStarted
  {
    hide Out;
    forall g | g in s.all ensures s.all[g].active >= 0 { assert Sound(s, g); }
  }

  /** Thanks to the holds, Close itself takes no closing upon it. */
  lemma CloseDecidesNothing(s: State)
    requires Inv(s)
    ensures Step(s, Op.Close).all.Keys == s.all.Keys
    ensures forall g :: g in s.all ==> Step(s, Op.Close).all[g].decided == s.all[g].decided
  {
    hide Out;
    forall g | g in s.all ensures Step(s, Op.Close).all[g].decided == s.all[g].decided { assert Sound(s, g); }
  }

  lemma HoldNone(s: State)
    ensures HoldAll(s, {}) == s
  {
    assert s.leases + map[] == s.leases;
  }

  lemma HoldOne(s: State, done: set<GenId>, g: GenId)
    requires g in s.all && g !in done && !s.all[g].closeStarted
    ensures g in HoldAll(s, done).all && HoldAll(s, done).all[g] == s.all[g]
    ensures HoldAll(s, done + {g}) == HoldAll(s, done).(
      all := HoldAll(s, done).all[g := Retire(s.all[g].(active := s.all[g].active + 1))],
      leases := HoldAll(s, done).leases[Hold(g) := Lease(g, false)])
  {
    hide Retire;
    HoldOneLease(s, done, g);
  }

  lemma OneHoldMore(done: set<GenId>, g: GenId)
    ensures HoldLeases(done + {g}) == HoldLeases(done)[Hold(g) := Lease(g, false)]
  {
    var a, b := HoldLeases(done + {g}), HoldLeases(done)[Hold(g) := Lease(g, false)];
    assert forall l :: l in a <==> l in b;
  }

  lemma HoldOneLease(s: State, done: set<GenId>, g: GenId)
    ensures HoldAll(s, done + {g}).leases == HoldAll(s, done).leases[Hold(g) := Lease(g, false)]
  {
    OneHoldMore(done, g);
    hide HoldLeases, Retire;
    var a, b := HoldLeases(done), HoldLeases(done + {g});
    assert s.leases + b == (s.leases + a)[Hold(g) := Lease(g, false)];
  }

  datatype PublishResult = SessionClosed | Disconnected | Published

  /** The owner; each method is one section under its lock. */
  class BackendOwner {
    var s: State

    constructor ()
      ensures s == INITIAL
    {
      s := INITIAL;
    }

    /** `install`; a backend that is not taken on has to be closed at once. */
    method Install() returns (taken: bool, closeRejected: bool)
      requires Inv(s)
      modifies this
      ensures Inv(s) && s == Step(old(s), Op.Install)
      ensures taken <==> !old(s).closed && old(s).current.None?
      ensures closeRejected <==> !taken
      ensures taken ==> s.current == Some(old(s).next) && s.current.value !in old(s).all && s.all[s.current.value] == FRESH
    {
      StepKeeps(s, Op.Install);
      if s.closed { return false, true; }
      if s.current.Some? { return false, true; }
      var gen := s.next;
      s := s.(current := Some(gen), all := s.all[gen := FRESH], owned := s.owned + {gen}, next := s.next + 1);
      return true, false;
    }

    /** `acquire`. */
    method Acquire() returns (lease: Option<LeaseId>)
      requires Inv(s)
      modifies this
      ensures Inv(s) && s == Step(old(s), Op.Acquire)
      ensures lease.Some? <==> !old(s).closed && old(s).current.Some?
      ensures lease.Some? ==> Held(s, lease.value) && lease.value !in old(s).leases
    {
      StepKeeps(s, Op.Acquire);
      if s.current.Some? { assert Sound(s, s.current.value); }
      if s.closed || s.current.None? || s.all[s.current.value].retired { return None; }
      lease := Some(Call(s.next));
      s := Lend(s, s.current.value);
    }

    /** `acquireGeneration`. */
    method AcquireFor(gen: GenId) returns (lease: Option<LeaseId>)
      requires Inv(s)
      modifies this
      ensures Inv(s) && s == Step(old(s), Op.AcquireFor(gen))
      ensures lease.Some? <==> !old(s).closed && old(s).current == Some(gen)
      ensures lease.Some? ==> Held(s, lease.value) && lease.value !in old(s).leases
    {
      StepKeeps(s, Op.AcquireFor(gen));
      if s.current.Some? { assert Sound(s, s.current.value); }
      if s.closed || s.current != Some(gen) || s.all[gen].retired { return None; }
      lease := Some(Call(s.next));
      s := Lend(s, gen);
    }

    /** `release` of a lease: the first time it is the end of the lease, then nothing. */
    method Release(l: LeaseId) returns (closeNow: bool)
      requires Inv(s)
      modifies this
      ensures Inv(s) && s == Step(old(s), Op.Release(l))
      ensures closeNow <==> Held(old(s), l) && old(s).all[old(s).leases[l].gen].retired
                            && Outstanding(old(s), old(s).leases[l].gen) == {l}
    {
      hide Inv, Out;
      StepKeeps(s, Op.Release(l));
      if !(l in s.leases) || s.leases[l].released { return false; }
      var g := s.leases[l].gen;
      LeaseKnown(s, l);
      OutAfterRelease(s.leases, l);
      LastLease(s, l);
      var gen := s.all[g].(active := s.all[g].active - 1);
      closeNow := gen.retired && gen.active == 0 && !gen.closeStarted;
      if closeNow { gen := gen.(closeStarted := true, decided := gen.decided + 1); }
      s := s.(all := s.all[g := gen], leases := s.leases[l := Lease(g, true)]);
    }

    /** `retireLocked`: who retires an unused generation has to close it. */
    method RetireLocked(g: GenId) returns (closeNow: bool)
      requires g in s.all
      modifies this
      ensures s == Replace(old(s), g, Retire(old(s).all[g])) && closeNow == (s.all[g].decided > old(s).all[g].decided)
    {
      var gen := s.all[g];
      if gen.retired { s := Replace(s, g, gen); return false; }
      gen := gen.(retired := true);
      closeNow := gen.active == 0 && !gen.closeStarted;
      if closeNow { gen := gen.(closeStarted := true, decided := gen.decided + 1); }
      s := s.(all := s.all[g := gen]);
    }

    /** The first half of `closeGeneration`: the call of the backend's Close. */
    method CallBackendClose(g: GenId)
      requires Inv(s) && g in s.all && s.all[g].called < s.all[g].decided
      modifies this
      ensures Inv(s) && s == Step(old(s), CallClose(g)) && old(s).all[g].called == 0 && Outstanding(old(s), g) == {}
    {
      StepKeeps(s, CallClose(g));
      assert Sound(s, g);
      s := s.(all := s.all[g := s.all[g].(called := s.all[g].called + 1)]);
    }

    /** Its second half: the generation is forgotten and its waiters are told. */
    method FinishBackendClose(g: GenId)
      requires Inv(s) && g in s.all && s.all[g].called > 0 && !s.all[g].done
      modifies this
      ensures Inv(s) && s == Step(old(s), FinishClose(g)) && g !in s.owned
    {
      StepKeeps(s, FinishClose(g));
      s := s.(owned := s.owned - {g}, all := s.all[g := s.all[g].(done := true)]);
    }

    /** Holds and retires generations one by one; none of them can come due that way. */
    method HoldAndRetire(gens: set<GenId>)
      requires forall g :: g in gens ==> g in s.all && s.all[g].active >= 0 && !s.all[g].closeStarted
      modifies this
      ensures s == HoldAll(old(s), gens)
    {
      HoldNone(s);
      var todo := gens;
      while todo != {}
        invariant todo <= gens && s == HoldAll(old(s), gens - todo)
        decreases todo
      {
        var g :| g in todo;
        HoldOne(old(s), gens - todo, g);
        var gen := s.all[g].(active := s.all[g].active + 1);
        if !gen.retired { gen := gen.(retired := true); }
        s := s.(all := s.all[g := gen], leases := s.leases[Hold(g) := Lease(g, false)]);
        assert gens - (todo - {g}) == (gens - todo) + {g};
        todo := todo - {g};
      }
      assert gens - todo == gens;
    }

    /** The locked part of the owner's `Close`: every generation not yet closing is held once
        more, so that retiring it leaves its closing to the release of that hold. */
    method Close()
      requires Inv(s)
      modifies this
      ensures Inv(s) && s == Step(old(s), Op.Close)
      ensures forall g :: g in s.all ==> s.all[g].decided == old(s).all[g].decided
    {
      hide Inv, HoldAll, ToHold, Sound;
      StepKeeps(s, Op.Close);
      CloseDecidesNothing(s);
      if s.closed { return; }
      ReadyToHold(s);
      var gens, owned := ToHold(s), s.owned;
      HoldAndRetire(gens);
      s := s.(closed := true, current := None, awaited := owned);
    }

    /** The rest of `Close`: it may return once all it waits for is done. */
    method CloseReturn() returns (ok: bool)
      requires Inv(s) && s.closed
      modifies this
      ensures Inv(s) && s == Step(old(s), CloseReturns) && (ok ==> forall g :: g in s.all ==> s.all[g].done)
    {
      StepKeeps(s, CloseReturns);
      ok := forall g :: g in s.awaited ==> g in s.all && s.all[g].done;
      forall g | g in s.all ensures g in s.owned || s.all[g].done { assert Sound(s, g); }
      if ok { s := s.(returned := true); }
    }

    /** `publishReopenedBackend`, by the holder of a lease; a closed session comes before a closed or
        replaced owner. */
    method Publish(l: LeaseId, sessionOpen: bool) returns (r: PublishResult, closeOld: bool)
      requires Inv(s) && Held(s, l)
      modifies this
      ensures Inv(s) && s == if sessionOpen then Step(old(s), Op.Publish(l)) else old(s)
      ensures r == SessionClosed <==> !sessionOpen
      ensures r == Published <==> sessionOpen && !old(s).closed && old(s).current == Some(old(s).leases[l].gen)
      ensures r != Published ==> s == old(s)
      ensures !closeOld
    {
      if !sessionOpen { return SessionClosed, false; }
      hide Inv, Out, Retire;
      StepKeeps(s, Op.Publish(l));
      var g := s.leases[l].gen;
      if s.closed || s.current != Some(g) { return Disconnected, false; }
      HeldCounts(s, l);
      LeaseKnown(s, l);
      InUseStays(s.all[g]);
      var newGen := s.next;
      closeOld := RetireLocked(g);
      s := s.(current := Some(newGen), all := s.all[newGen := FRESH], owned := s.owned + {newGen}, next := s.next + 1);
      assert s == PublishedBy(old(s), l);
      return Published, closeOld;
    }

    /** `abandonCurrentGeneration`, by the holder of a lease. */
    method Abandon(l: LeaseId) returns (closeOld: bool)
      requires Inv(s) && Held(s, l)
      modifies this
      ensures Inv(s) && s == Step(old(s), Op.Abandon(l)) && !closeOld
    {
      hide Inv, Out;
      StepKeeps(s, Op.Abandon(l));
      var g := s.leases[l].gen;
      HeldCounts(s, l);
      LeaseKnown(s, l);
      closeOld := false;
      if s.current == Some(g) {
        closeOld := RetireLocked(g);
        s := s.(current := None);
        ReplaceTwice(old(s), g, Retire(old(s).all[g]), Decide(Retire(old(s).all[g])));
      }
      closeOld := closeOld || Due(s.all[g]);
      s := Replace(s, g, Decide(s.all[g]));
    }
  }
}
