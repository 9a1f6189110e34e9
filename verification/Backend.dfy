/** The handle, cache and observation state of one accessibility backend. */
module Backend {
  import opened Basics
  import opened AtSpi
  import opened HandleEpochs
  import opened Revocation
  import opened ChildIndex
  import opened CacheTables
  import opened Snapshots
  import Observation
  import CacheValidation

  datatype LoadResult = Rejected | Stale | Done

  datatype PublishResult = Disconnected | StaleGeneration | StaleNode | ObservationChanged | Published

  /** What a signal does to handles: nothing, one object's tree, or the whole epoch. */
  datatype Target = Nothing | Tree(root: Ident) | Everything

  function TreeOf(x: Ident): Target { if x.Valid() then Tree(x) else Everything }

  function OwnRef(payload: Option<Ident>, sender: Str): Target {
    var ref := DecodeRef(payload);
    if ref.None? || ref.value.bus != sender then Everything else TreeOf(ref.value)
  }

  function Removal(sig: Signal): Target {
    match sig
    case NoSignal => Nothing
    case Signal(kind, _, sender, path) =>
      match kind
      case WindowDestroy => TreeOf(Ident(sender, path))
      case CacheRemove(ref) => OwnRef(ref, sender)
      case ChildrenRemove(ref) => OwnRef(ref, sender)
      case Defunct(enabled) =>
        if enabled.None? then Everything else if enabled.value then TreeOf(Ident(sender, path)) else Nothing
      case _ => Nothing
  }

  /** The object that a signal says is gone: an own, well-formed reference to what was removed, or the
      sender of a window's destruction or of its own end. */
  ghost predicate Names(sig: Signal, x: Ident) {
    sig.Signal? && x.Valid() &&
    ((ValidObjectRef(x) && x.bus == sig.sender && (sig.kind == CacheRemove(Some(x)) || sig.kind == ChildrenRemove(Some(x))))
     || (x == Ident(sig.sender, sig.path) && (sig.kind == WindowDestroy || sig.kind == Defunct(Some(true)))))
  }

  /** A signal that something is gone, which it does not say in a way that could be followed: the
      reference is missing, malformed or another sender's, or there is no sender to take. */
  ghost predicate Unnamed(sig: Signal) {
    sig.Signal? &&
    match sig.kind
    case CacheRemove(ref) => !exists x :: ref == Some(x) && ValidObjectRef(x) && x.bus == sig.sender
    case ChildrenRemove(ref) => !exists x :: ref == Some(x) && ValidObjectRef(x) && x.bus == sig.sender
    case WindowDestroy => sig.sender == [] || sig.path == []
    case Defunct(enabled) => enabled == None || (enabled == Some(true) && (sig.sender == [] || sig.path == []))
    case _ => false
  }

  /** Which signals take handles, and whose. */
  lemma RemovalMeans(sig: Signal)
    ensures forall x :: Removal(sig) == Tree(x) <==> Names(sig, x)
    ensures Removal(sig) == Everything <==> Unnamed(sig)
  {
    if sig.Signal? && sig.kind.CacheRemove? && sig.kind.removed.Some? { RefNotEmpty(sig.kind.removed.value); }
    if sig.Signal? && sig.kind.ChildrenRemove? && sig.kind.child.Some? { RefNotEmpty(sig.kind.child.value); }
    hide PlainPath, PlainBus;
  }

  /** The locked sections. */
  datatype Step =
    | Signalled(sig: Signal, about: Ident)
    | Invalidated
    | ConnectionLost
    | ClosedDown
    | ListArrived(bus: Str, list: seq<CacheItem>, generation: nat, revision: nat)
    | ParentSeen(child: NodeID, parent: NodeID)
    | SnapshotRead(key: Str, generation: nat, observation: nat, root: NodeID, reread: bool, snapshot: Snapshot)
    | ChildrenAsked(id: NodeID)
    | HandleIssued(x: Ident)

  /** The fields of the backend that its lock guards. */
  datatype Tables = Tables(
    generation: nat, observationRevision: nat, cacheRevision: nat,
    observationHistory: seq<Observation.Change>, observationFloor: nat,
    disconnected: bool, closed: bool,
    cache: map<Str, Snapshot>, cacheItems: map<NodeID, CacheItem>,
    childIndex: Option<map<Ident, seq<Ident>>>, childIndexGen: nat, cacheApps: map<Str, bool>,
    incarnations: map<Ident, Count>, parents: map<Ident, Ident>, parentTrackingIncomplete: bool)

  /** What the proofs remember: signals that fell out of the history, the ancestry told in
      this epoch without any cap, and the revision at which each snapshot was published. */
  datatype Account = Account(forgotten: seq<Observation.Change>, latest: map<Ident, Ident>, published: map<Str, nat>)

  predicate Live(s: Tables) { !s.closed && !s.disconnected }

  function Now(s: Tables): Epoch { Epoch(s.generation, s.incarnations, Live(s)) }

  /** Every signal ever processed. */
  function Signals(s: Tables, g: Account): seq<Observation.Change> { g.forgotten + s.observationHistory }

  /** Unless a record was dropped, the ancestry table is the ancestry told. */
  ghost predicate Ancestry(s: Tables, g: Account) { !s.parentTrackingIncomplete ==> g.latest == s.parents }

  /** Every cached snapshot was published at the current revision: no signal came since. */
  ghost predicate Current(s: Tables, g: Account) {
    forall k :: k in s.cache ==> k in g.published && g.published[k] == s.observationRevision
  }

  /** Both tables keep to their cap. */
  predicate Capped(s: Tables) { |s.incarnations| <= MAX_TRACKED && |s.parents| <= MAX_TRACKED }

  /** Unless a table was full, whatever has a recorded parent or a cache entry has a table entry. */
  ghost predicate Covered(s: Tables) {
    !s.parentTrackingIncomplete ==>
      s.parents.Keys <= s.incarnations.Keys && forall id :: id in s.cacheItems ==> id.obj in s.incarnations
  }

  /** What holds inside a locked section as well. */
  ghost predicate Core(s: Tables, g: Account) {
    && s.generation > 0 && Ancestry(s, g) && Capped(s) && Covered(s)
    && Observation.Log(g.forgotten, s.observationHistory, s.observationFloor, s.observationRevision)
    && Keyed(s.cacheItems, s.generation, s.incarnations)
  }

  /** What holds at every lock boundary: besides, cached snapshots are current and the child
      index is the one a rebuild gives. */
  ghost predicate Valid(s: Tables, g: Account) {
    Core(s, g) && Current(s, g) && (s.childIndex.Some? ==> Indexes(s.childIndex.value, s.cacheItems, s.childIndexGen))
  }

  /** More objects on record up to the cap, none with a different incarnation; a full table stays remembered. */
  ghost predicate Grows(s: Tables, s': Tables) {
    && Extends(s.incarnations, s'.incarnations) && (s.parentTrackingIncomplete ==> s'.parentTrackingIncomplete)
    && (|s.incarnations| <= MAX_TRACKED ==> |s'.incarnations| <= MAX_TRACKED)
  }

  lemma GrowsNothing(s: Tables)
    ensures Grows(s, s)
  {}

  lemma GrowsTwice(s: Tables, s1: Tables, s2: Tables)
    requires Grows(s, s1) && Grows(s1, s2)
    ensures Grows(s, s2)
  {
    ExtendsTransitive(s.incarnations, s1.incarnations, s2.incarnations);
  }

  /** Handing out handles: only new table entries, or the remark that the table is full. */
  ghost predicate Issues(s: Tables, s': Tables) {
    && s' == s.(incarnations := s'.incarnations, parentTrackingIncomplete := s'.parentTrackingIncomplete)
    && Grows(s, s')
  }

  /** An object looked up: it gets its table entry, or a full table is remembered as incomplete. */
  function Remember(s: Tables, x: Ident): Tables {
    s.(incarnations := Looked(s.incarnations, x), parentTrackingIncomplete := s.parentTrackingIncomplete || Refused(s.incarnations, x))
  }

  lemma RememberIssues(s: Tables, x: Ident)
    ensures Issues(s, Remember(s, x))
    ensures x in Remember(s, x).incarnations || Remember(s, x).parentTrackingIncomplete
  {
    LookedExtends(s.incarnations, x);
  }

  /** A signal since the read began that is forgotten or contradicts what was read. */
  predicate Matters(c: Observation.Change, g: Account, expected: nat, root: NodeID, snapshot: Snapshot, reread: bool) {
    expected < c.revision &&
    (c in g.forgotten || Observation.Conflicts(c, root.obj, snapshot.root.role, Observation.Observed(snapshot), reread))
  }

  /** Some signal since the read began matters to what was read. */
  ghost predicate Overtaken(s: Tables, g: Account, expected: nat, root: NodeID, snapshot: Snapshot, reread: bool) {
    exists c :: c in Signals(s, g) && Matters(c, g, expected, root, snapshot, reread)
  }

  lemma IssuesNothing(s: Tables)
    ensures Issues(s, s)
  {}

  lemma IssuesTwice(s: Tables, s1: Tables, s2: Tables)
    requires Issues(s, s1) && Issues(s1, s2)
    ensures Issues(s, s2)
  {
    GrowsTwice(s, s1, s2);
  }

  lemma SameKey(s: Tables, s': Tables, x: Ident)
    requires Issues(s, s')
    ensures Key(s'.generation, s'.incarnations, x) == Key(s.generation, s.incarnations, x)
  {}

  lemma SameItems(s: Tables, s': Tables)
    requires Issues(s, s')
    ensures s'.cacheItems == s.cacheItems && s'.generation == s.generation
  {}

  lemma RekeyStep(items: map<NodeID, CacheItem>, todo: set<NodeID>, id: NodeID)
    requires id in todo && id in items
    ensures (items - todo)[id := items[id]] == items - (todo - {id})
  {}

  lemma WithoutBusTwice(items: map<NodeID, CacheItem>, buses: set<Str>, bus: Str)
    ensures WithoutBus(WithoutBus(items, buses), {bus}) == WithoutBus(items, buses + {bus})
  {}

  /** One child count moved, if its application's cache is complete; the parent is looked up for it. */
  function CountMoved(s: Tables, parent: Ident, delta: int): Tables {
    if !PlainPath(parent.path) || !Complete(s.cacheApps, parent.bus) then s
    else
      var t := Remember(s, parent);
      var (items, apps) := Adjusted(s.cacheItems, s.cacheApps, Key(s.generation, t.incarnations, parent), delta);
      t.(cacheItems := items, cacheApps := apps)
  }

  /** One count moved, and what that keeps. */
  ghost predicate CountStep(s: Tables, s': Tables, parent: Ident, delta: int) {
    && s' == s.(incarnations := s'.incarnations, parentTrackingIncomplete := s'.parentTrackingIncomplete,
         cacheItems := s'.cacheItems, cacheApps := s'.cacheApps)
    && Grows(s, s') && s' == CountMoved(s, parent, delta)
    && (s'.cacheItems, s'.cacheApps) == Adjusted(s.cacheItems, s.cacheApps, Key(s'.generation, s'.incarnations, parent), delta)
  }

  lemma CountsNothing(s: Tables, parent: Ident, delta: int)
    ensures !PlainPath(parent.path) || !Complete(s.cacheApps, parent.bus) ==> CountStep(s, s, parent, delta)
  {}

  lemma CountsDone(s: Tables, t: Tables, parent: Ident, delta: int)
    requires PlainPath(parent.path) && Complete(s.cacheApps, parent.bus) && t == Remember(s, parent)
    ensures var (items, apps) := Adjusted(s.cacheItems, s.cacheApps, Key(s.generation, t.incarnations, parent), delta);
      CountStep(s, t.(cacheItems := items, cacheApps := apps), parent, delta)
  {
    hide Adjusted, Looked, Refused, Extends;
    RememberIssues(s, parent);
  }

  /** What taking counts has done to the tables so far. */
  ghost predicate Settling(s: Tables, s': Tables, losses: map<Ident, nat>) {
    && s' == s.(incarnations := s'.incarnations, parentTrackingIncomplete := s'.parentTrackingIncomplete,
         cacheItems := s'.cacheItems, cacheApps := s'.cacheApps)
    && Grows(s, s')
    && Shrinks(s.cacheItems, s'.cacheItems) && LosesApps(s.cacheApps, s'.cacheApps)
    && Settled(s.cacheItems, s'.cacheItems, s'.cacheApps, losses)
  }

  lemma SettleNothing(s: Tables, losses: map<Ident, nat>)
    ensures Settling(s, s, losses - losses.Keys)
  {}

  lemma SettleStep(s: Tables, s1: Tables, s2: Tables, losses: map<Ident, nat>, todo: set<Ident>, p: Ident)
    requires Keyed(s.cacheItems, s.generation, s.incarnations) && Settling(s, s1, losses - todo) && p in todo && todo <= losses.Keys
    requires CountStep(s1, s2, p, -(losses[p] as int))
    ensures Settling(s, s2, losses - (todo - {p}))
  {
    hide CountMoved, Adjusted, Settled, Shrinks, LosesApps, Keyed, OnePerObject;
    GrowsTwice(s, s1, s2);
    var key := Key(s.generation, s.incarnations, p);
    KeyedUnique(s.cacheItems, s.generation, s.incarnations);
    OnlyKey(s.cacheItems, s.generation, s.incarnations, p);
    LossNext(s.cacheItems, s1.cacheItems, s1.cacheApps, losses, todo, key);
    assert Incarnation(s2.incarnations, p) == Incarnation(s.incarnations, p);
    LosesMore(s.cacheApps, s1.cacheApps, s2.cacheApps);
  }

  lemma OnlyKey(items: map<NodeID, CacheItem>, generation: nat, incarnations: map<Ident, nat>, p: Ident)
    requires Keyed(items, generation, incarnations)
    ensures forall id :: id in items && id.obj == p ==> id == Key(generation, incarnations, p)
  {}

  /** What a removal does to the cached counts: only counts move, entries only go, and the
      removed tree's application, if its cache stays complete, is exactly right. */
  ghost predicate Adjustment(s: Tables, s': Tables, removed: set<Ident>, bus: Str) {
    && s' == s.(incarnations := s'.incarnations, parentTrackingIncomplete := s'.parentTrackingIncomplete,
         cacheItems := s'.cacheItems, cacheApps := s'.cacheApps, childIndex := s'.childIndex,
         childIndexGen := s'.childIndexGen, cache := s'.cache)
    && Grows(s, s')
    && Shrinks(s.cacheItems, s'.cacheItems) && LosesApps(s.cacheApps, s'.cacheApps)
    && (Complete(s'.cacheApps, bus) ==> SubtreeTaken(s.parents, s.cacheItems, s'.cacheItems, removed, bus))
  }

  lemma AdjustmentDone(s: Tables, s1: Tables, s': Tables, links: map<Ident, Ident>, losses: map<Ident, nat>, removed: set<Ident>, bus: Str)
    requires s1 == s.(cacheItems := s1.cacheItems, cacheApps := s1.cacheApps, childIndex := s1.childIndex,
      childIndexGen := s1.childIndexGen, cache := s1.cache)
    requires Linking(links, s.parents, s.cacheItems, s1.cacheItems, s.cacheApps, s1.cacheApps, s.cacheItems.Keys)
    requires Settling(s1, s', losses) && Counts(losses, links, removed)
    requires forall x :: x in removed ==> x.bus == bus
    ensures Adjustment(s, s', removed, bus)
  {
    if Complete(s'.cacheApps, bus) {
      LossesTaken(s.parents, s.cacheItems, s1.cacheItems, s'.cacheItems, s.cacheApps, s1.cacheApps, s'.cacheApps,
        links, losses, removed, bus);
    }
  }

  lemma LossesTaken(parents: map<Ident, Ident>, items: map<NodeID, CacheItem>, left: map<NodeID, CacheItem>,
    left': map<NodeID, CacheItem>, apps: map<Str, bool>, appsLeft: map<Str, bool>, apps': map<Str, bool>,
    links: map<Ident, Ident>, losses: map<Ident, nat>, removed: set<Ident>, bus: Str)
    requires Linking(links, parents, items, left, apps, appsLeft, items.Keys) && LosesApps(appsLeft, apps')
    requires Settled(left, left', apps', losses) && Counts(losses, links, removed) && Complete(apps', bus)
    requires forall x :: x in removed ==> x.bus == bus
    ensures SubtreeTaken(parents, items, left', removed, bus)
  {
    hide LostChildren, Severed, ContradictedBuses, PlainPath, RecordedUnder;
    forall id | id in items && id.obj.bus == bus && id.obj !in removed
      ensures id in left' && left'[id] == items[id].(childCount := items[id].childCount -
        if PlainPath(id.obj.path) then |LostChildren(parents, items, removed, id.obj)| else 0)
    {
      assert id in left;
      SeveredAreLost(links, parents, items, removed, bus, id.obj);
    }
  }

  lemma LeftKeyed(links: map<Ident, Ident>, parents: map<Ident, Ident>, items: map<NodeID, CacheItem>, left: map<NodeID, CacheItem>,
    apps: map<Str, bool>, appsLeft: map<Str, bool>, generation: nat, incarnations: map<Ident, nat>)
    requires Linking(links, parents, items, left, apps, appsLeft, items.Keys) && Keyed(items, generation, incarnations)
    ensures Keyed(left, generation, incarnations)
  {}

  lemma KeyedUnique(items: map<NodeID, CacheItem>, generation: nat, incarnations: map<Ident, nat>)
    requires Keyed(items, generation, incarnations)
    ensures OnePerObject(items)
  {}

  /** With at most one loss, what remains is one count moved, or nothing at all. */
  ghost predicate OnlyMove(s: Tables, s': Tables, losses: map<Ident, nat>, todo: set<Ident>) {
    && (todo == losses.Keys ==> s' == s)
    && (forall p :: p in losses && losses.Keys == {p} && p !in todo ==> s' == CountMoved(s, p, -(losses[p] as int)))
  }

  lemma OnlyMoveNothing(s: Tables, losses: map<Ident, nat>)
    ensures OnlyMove(s, s, losses, losses.Keys)
  {}

  lemma OnlyMoveStep(s: Tables, s1: Tables, s2: Tables, losses: map<Ident, nat>, todo: set<Ident>, p: Ident)
    requires OnlyMove(s, s1, losses, todo) && p in todo && todo <= losses.Keys
    requires CountStep(s1, s2, p, -(losses[p] as int))
    ensures OnlyMove(s, s2, losses, todo - {p})
  {
    hide CountMoved;
    if losses.Keys == {p} { assert todo == losses.Keys; }
  }

  function KeyOf(s: Tables, x: Option<Ident>): Option<NodeID> {
    if x.None? then None else Some(Key(s.generation, s.incarnations, x.value))
  }

  function LookedUp(incarnations: map<Ident, Count>, x: Option<Ident>): map<Ident, Count> {
    if x.None? then incarnations else Looked(incarnations, x.value)
  }

  /** A moved count in the terms of a removal. */
  lemma MovedAsLowered(s: Tables, s': Tables, p: Ident)
    requires s' == CountMoved(s, p, -1)
    ensures var above := if PlainPath(p.path) && Complete(s.cacheApps, p.bus) then Some(p) else None;
      && (s'.cacheItems, s'.cacheApps) == Lowered(s.cacheItems, s.cacheApps, KeyOf(s, above), -1)
      && s'.incarnations == LookedUp(s.incarnations, above)
      && (s'.parentTrackingIncomplete <==> s.parentTrackingIncomplete || (above.Some? && Refused(s.incarnations, above.value)))
  {
    hide Adjusted, Looked, Refused;
    LookedExtends(s.incarnations, p);
  }

  /** The recorded parent that stays when `removed` goes, with a cache that can still follow. */
  ghost predicate Bereaved(s: Tables, root: Ident, removed: set<Ident>, dropped: set<Str>, p: Ident) {
    && p !in removed && RecordedUnder(s.parents, s.cacheItems, root, p)
    && PlainPath(p.path) && Complete(s.cacheApps, p.bus) && p.bus !in dropped
  }

  /** The effect of a removal on the item table: the applications in `dropped` lose their cache, and the
      one parent that stays, `above`, loses one child. Only for an unobserved root in an application
      that is itself dropped does the order of the map walk decide whether there is such a parent. */
  ghost predicate CountedOnce(s: Tables, s': Tables, root: Ident, removed: set<Ident>, dropped: set<Str>, above: Option<Ident>) {
    && (above.Some? ==> Bereaved(s, root, removed, dropped, above.value))
    && (root in s.parents || root.bus !in dropped ==> forall p :: Bereaved(s, root, removed, dropped, p) ==> above == Some(p))
    && s'.cacheItems == Lowered(WithoutBus(s.cacheItems, dropped), s.cacheApps, KeyOf(s, above), -1).0
    && (forall b :: Complete(s'.cacheApps, b) <==>
          Complete(Lowered(WithoutBus(s.cacheItems, dropped), s.cacheApps, KeyOf(s, above), -1).1, b) && b !in dropped)
    && s'.incarnations == LookedUp(s.incarnations, above)
    && (s'.parentTrackingIncomplete <==> s.parentTrackingIncomplete || (above.Some? && Refused(s.incarnations, above.value)))
  }

  lemma CountedDone(s: Tables, s1: Tables, s': Tables, links: map<Ident, Ident>, losses: map<Ident, nat>,
    root: Ident, removed: set<Ident>, above: Option<Ident>)
    requires s1 == s.(cacheItems := s1.cacheItems, cacheApps := s1.cacheApps, childIndex := s1.childIndex,
      childIndexGen := s1.childIndexGen, cache := s1.cache)
    requires Linking(links, s.parents, s.cacheItems, s1.cacheItems, s.cacheApps, s1.cacheApps, s.cacheItems.Keys)
    requires OnePerObject(s.cacheItems) && root in removed
    requires losses == if root in links && links[root] !in removed then map[links[root] := 1] else map[]
    requires OnlyMove(s1, s', losses, {})
    requires above == if root in links && links[root] !in removed && PlainPath(links[root].path)
      && Complete(s1.cacheApps, links[root].bus) then Some(links[root]) else None
    ensures CountedOnce(s, s', root, removed, ContradictedBuses(s.parents, s.cacheItems, s.cacheItems.Keys), above)
  {
    hide Linking, Looked, Refused, Adjusted, RecordedUnder, ContradictedBuses, OnePerObject;
    var dropped := ContradictedBuses(s.parents, s.cacheItems, s.cacheItems.Keys);
    LinkingDrops(links, s.parents, s.cacheItems, s1.cacheItems, s.cacheApps, s1.cacheApps);
    forall p | Bereaved(s, root, removed, dropped, p) && (root in s.parents || root.bus !in dropped)
      ensures above == Some(p)
    {
      RootLinked(links, s.parents, s.cacheItems, s1.cacheItems, s.cacheApps, s1.cacheApps, root, p);
    }
    if root in links {
      LinkRecorded(links, s.parents, s.cacheItems, s1.cacheItems, s.cacheApps, s1.cacheApps, root);
    }
    if root in links && links[root] !in removed {
      assert losses.Keys == {links[root]};
      MovedAsLowered(s1, s', links[root]);
      LoweredSame(s1.cacheItems, s1.cacheApps, s.cacheApps, KeyOf(s, above), -1);
    }
  }

  /** Every object of `done` is one incarnation further, and has no recorded parent. */
  ghost predicate MovedOn(s: Tables, s': Tables, done: set<Ident>) {
    && s' == s.(incarnations := s'.incarnations, parentTrackingIncomplete := s'.parentTrackingIncomplete, parents := s.parents - done)
    && Bumped(s.incarnations, s'.incarnations, done) && (s.parentTrackingIncomplete ==> s'.parentTrackingIncomplete)
  }

  lemma MoveNothing(s: Tables)
    ensures MovedOn(s, s, {}) && Entered(s, s, {})
  {
    assert s.parents - {} == s.parents;
  }

  lemma MoveStep(s: Tables, s1: Tables, s2: Tables, done: set<Ident>, x: Ident)
    requires MovedOn(s, s1, done) && x !in done
    requires s2 == Remember(s1, x).(incarnations := s2.incarnations, parents := s1.parents - {x})
    requires s2.incarnations == Remember(s1, x).incarnations[x := Incarnation(Remember(s1, x).incarnations, x) + 1]
    ensures MovedOn(s, s2, done + {x})
  {
    hide Remember, Bumped, Extends;
    RememberIssues(s1, x);
    BumpStep(s.incarnations, s1.incarnations, Remember(s1, x).incarnations, s2.incarnations, done, x);
    WithoutTwice(s.parents, done, x);
  }

  /** How the table grows while the objects of `done` move on: by those without an entry, cap or no
      cap; one that meets a full table leaves the remark that it is. */
  ghost predicate Entered(s: Tables, s': Tables, done: set<Ident>) {
    && s'.incarnations.Keys == s.incarnations.Keys + done
    && |s'.incarnations| == |s.incarnations| + |Untracked(s.incarnations, done)|
    && (s'.parentTrackingIncomplete <==>
          s.parentTrackingIncomplete || (Untracked(s.incarnations, done) != {} && |s'.incarnations| > MAX_TRACKED))
  }

  lemma EnterStep(s: Tables, s1: Tables, s2: Tables, done: set<Ident>, x: Ident, n: Count)
    requires Entered(s, s1, done) && x !in done
    requires s2.incarnations == Remember(s1, x).incarnations[x := n]
    requires s2.parentTrackingIncomplete == Remember(s1, x).parentTrackingIncomplete
    ensures Entered(s, s2, done + {x})
  {
    hide Untracked;
    hide Looked;
    LookedKeys(s1.incarnations, x, n);
    KeysStep(s.incarnations.Keys, s1.incarnations.Keys, s2.incarnations.Keys, done, x);
    UntrackedStep(s.incarnations, done, x);
  }

  /** One object and its descendants under the given ancestry. */
  ghost predicate TreeOver(parents: map<Ident, Ident>, items: map<NodeID, CacheItem>, root: Ident, tree: set<Ident>) {
    forall x :: x in tree <==> Descends(parents, items, root, x)
  }

  ghost predicate IsTree(s: Tables, root: Ident, tree: set<Ident>) { TreeOver(s.parents, s.cacheItems, root, tree) }

  /** `canTrackRevokedObjectsLocked`. */
  predicate CanTrack(s: Tables, tree: set<Ident>) {
    |s.incarnations| + |Untracked(s.incarnations, tree)| <= MAX_TRACKED
  }

  /** A removal can stay targeted: no ancestry was dropped and the tree's incarnations have room. */
  ghost predicate Targetable(s: Tables, root: Ident) {
    !s.parentTrackingIncomplete && forall tree :: IsTree(s, root, tree) ==> CanTrack(s, tree)
  }

  lemma TreeOnOneBus(s: Tables, root: Ident, tree: set<Ident>)
    requires IsTree(s, root, tree)
    ensures forall x :: x in tree ==> x.bus == root.bus
  {
    forall x | x in tree ensures x.bus == root.bus {
      var path :| Path(s.parents, s.cacheItems, root, path) && path[|path| - 1] == x;
      SameBus(s.parents, s.cacheItems, root, path);
    }
  }

  /** What detaching foreign children does: those edges and the caches of their applications go;
      everything about the removed tree's bus stays. */
  ghost predicate Detached(s: Tables, g: Account, s': Tables, g': Account, bus: Str, removed: set<Ident>) {
    && s' == s.(parents := s.parents - Orphans(s.parents, removed), cacheItems := s'.cacheItems, cacheApps := s'.cacheApps,
         childIndex := s'.childIndex, childIndexGen := s'.childIndexGen, cache := s'.cache)
    && g' == g.(latest := g.latest - Orphans(g.latest, removed))
    && s'.cacheItems == WithoutBus(s.cacheItems, AffectedBuses(s.parents, s.cacheItems, removed))
    && bus !in AffectedBuses(s.parents, s.cacheItems, removed)
    && (forall b :: Complete(s'.cacheApps, b) <==> Complete(s.cacheApps, b) && b !in AffectedBuses(s.parents, s.cacheItems, removed))
    && (forall c :: c in removed ==> (c in s'.parents <==> c in s.parents))
    && (forall c, p :: c in removed ==>
          (RecordedUnder(s'.parents, s'.cacheItems, c, p) <==> RecordedUnder(s.parents, s.cacheItems, c, p)))
    && (forall p :: LostChildren(s'.parents, s'.cacheItems, removed, p) == LostChildren(s.parents, s.cacheItems, removed, p))
  }

  lemma DetachKeeps(s: Tables, g: Account, s': Tables, g': Account, bus: Str, removed: set<Ident>)
    requires forall x :: x in removed ==> x.bus == bus
    requires s' == s.(parents := s.parents - Orphans(s.parents, removed), cacheItems := s'.cacheItems, cacheApps := s'.cacheApps,
      childIndex := s'.childIndex, childIndexGen := s'.childIndexGen, cache := s'.cache)
    requires g' == g.(latest := g.latest - Orphans(g.latest, removed))
    requires s'.cacheItems == WithoutBus(s.cacheItems, AffectedBuses(s.parents, s.cacheItems, removed))
    requires forall b :: Complete(s'.cacheApps, b) <==> Complete(s.cacheApps, b) && b !in AffectedBuses(s.parents, s.cacheItems, removed)
    requires Keyed(s.cacheItems, s.generation, s.incarnations)
    ensures Detached(s, g, s', g', bus, removed) && Keyed(s'.cacheItems, s'.generation, s'.incarnations)
  {
    assert bus !in AffectedBuses(s.parents, s.cacheItems, removed);
    forall c, p | c in removed
      ensures RecordedUnder(s'.parents, s'.cacheItems, c, p) <==> RecordedUnder(s.parents, s.cacheItems, c, p)
    {
      assert c in s'.parents <==> c in s.parents;
      if c !in s.parents && RecordedUnder(s.parents, s.cacheItems, c, p) {
        var id :| id in s.cacheItems && id.obj == c && s.cacheItems[id].parent == p;
        assert id in s'.cacheItems;
      }
    }
    forall p ensures LostChildren(s'.parents, s'.cacheItems, removed, p) == LostChildren(s.parents, s.cacheItems, removed, p) {}
  }

  /** A tree hangs together at its root, and all but the root have a parent and so a table entry. */
  lemma TreeRooted(s: Tables, root: Ident, tree: set<Ident>)
    requires IsTree(s, root, tree) && root.Valid() && Keyed(s.cacheItems, s.generation, s.incarnations)
    ensures Rooted(s.parents, s.cacheItems, tree, root) && root in tree
    ensures forall c :: c in tree && c != root ==> c in s.parents || exists id :: id in s.cacheItems && id.obj == c
  {
    RootDescends(s.parents, s.cacheItems, root);
    TreeOnOneBus(s, root, tree);
    forall c | c in tree && c != root
      ensures c in s.parents || exists id :: id in s.cacheItems && id.obj == c
      ensures forall p :: RecordedUnder(s.parents, s.cacheItems, c, p) ==> p in tree
    {
      var path :| Path(s.parents, s.cacheItems, root, path) && path[|path| - 1] == c;
      var q := path[|path| - 2];
      assert Path(s.parents, s.cacheItems, root, path[..|path| - 1]);
      assert Descends(s.parents, s.cacheItems, root, q);
      assert Edge(s.parents, s.cacheItems, c, q);
      if c !in s.parents {
        var id :| id in s.cacheItems.Keys && s.cacheItems[id].obj == c && ParentIdentity(s.cacheItems[id].parent) == q;
        assert s.cacheItems[id].parent == q;
      }
    }
  }

  /** Dropping caches first and one count after is the same as both at once. */
  lemma CountedFromDetached(s: Tables, g: Account, s1: Tables, g1: Account, s2: Tables, root: Ident, removed: set<Ident>, above: Option<Ident>)
    requires Detached(s, g, s1, g1, root.bus, removed) && root in removed && Keyed(s.cacheItems, s.generation, s.incarnations)
    requires CountedOnce(s1, s2, root, removed, ContradictedBuses(s1.parents, s1.cacheItems, s1.cacheItems.Keys), above)
    ensures CountedOnce(s, s2, root, removed, DroppedBuses(s.parents, s.cacheItems, removed), above)
  {
    hide Lowered, AffectedBuses, ContradictedBuses, WithoutBus, RecordedUnder, LostChildren, Orphans, Looked, Refused, Complete, PlainPath,
      LookedUp;
    var affected := AffectedBuses(s.parents, s.cacheItems, removed);
    DetachThenContradict(s.parents, s.cacheItems, s1.parents, s1.cacheItems, removed);
    LoweredSame(WithoutBus(s.cacheItems, DroppedBuses(s.parents, s.cacheItems, removed)), s1.cacheApps, s.cacheApps, KeyOf(s, above), -1);
  }

  /** After a targeted revocation: the tree and only the tree has moved on, it is gone from
      the tables, and the counts of what stays are right wherever the cache is still complete. */
  ghost predicate Revoked(s: Tables, g: Account, s': Tables, g': Account, root: Ident, removed: set<Ident>) {
    && IsTree(s, root, removed) && Bumped(s.incarnations, s'.incarnations, removed) && Core(s', g')
    && s' == s.(incarnations := s'.incarnations, parents := s'.parents, parentTrackingIncomplete := s'.parentTrackingIncomplete,
         cacheItems := s'.cacheItems, cacheApps := s'.cacheApps, childIndex := None, childIndexGen := 0, cache := map[])
    && g' == g.(latest := g'.latest)
    && s'.parents == s.parents - Orphans(s.parents, removed) - removed
    && Shrinks(s.cacheItems, s'.cacheItems) && (forall id :: id in s'.cacheItems ==> id.obj !in removed)
    && (Complete(s'.cacheApps, root.bus) ==> SubtreeTaken(s.parents, s.cacheItems, s'.cacheItems, removed, root.bus))
  }

  /** The tables after a targeted revocation, entry by entry: caches of the dropped applications go, one
      surviving parent loses one child, the tree's items go, and of new table entries there are only
      the tree's and that parent's. The remark that the table is full is left exactly when that
      parent had no entry and the table no room. */
  ghost predicate Settles(s: Tables, s': Tables, root: Ident, removed: set<Ident>, above: Option<Ident>) {
    var dropped := DroppedBuses(s.parents, s.cacheItems, removed);
    && (above.Some? ==> Bereaved(s, root, removed, dropped, above.value))
    && (root in s.parents || root.bus !in dropped ==> forall p :: Bereaved(s, root, removed, dropped, p) ==> above == Some(p))
    && s'.cacheItems == WithoutObjects(Lowered(WithoutBus(s.cacheItems, dropped), s.cacheApps, KeyOf(s, above), -1).0, removed)
    && (forall b :: Complete(s'.cacheApps, b) <==>
          Complete(Lowered(WithoutBus(s.cacheItems, dropped), s.cacheApps, KeyOf(s, above), -1).1, b) && b !in dropped)
    && s'.incarnations.Keys == LookedUp(s.incarnations, above).Keys + removed
    && (s'.parentTrackingIncomplete <==> above.Some? && above.value !in s.incarnations && |s.incarnations| == MAX_TRACKED)
  }

  lemma CoreKeyed(s: Tables, g: Account)
    requires Core(s, g)
    ensures Keyed(s.cacheItems, s.generation, s.incarnations)
  {}

  /** The cap holds: if a parent is looked up on the way, the root has a parent and so an entry, and
      with it the whole tree, so that moving on needs no room; else the check before has made room. */
  lemma RoomKept(s: Tables, g: Account, s2: Tables, s3: Tables, root: Ident, tree: set<Ident>, above: Option<Ident>)
    requires Core(s, g) && !s.parentTrackingIncomplete && IsTree(s, root, tree) && root.Valid() && CanTrack(s, tree)
    requires above.Some? ==> RecordedUnder(s.parents, s.cacheItems, root, above.value)
    requires s2.incarnations == LookedUp(s.incarnations, above)
    requires s2.parentTrackingIncomplete <==> above.Some? && Refused(s.incarnations, above.value)
    requires Entered(s2, s3, tree)
    ensures |s3.incarnations| <= MAX_TRACKED && s3.incarnations.Keys == LookedUp(s.incarnations, above).Keys + tree
    ensures s3.parentTrackingIncomplete <==> above.Some? && above.value !in s.incarnations && |s.incarnations| == MAX_TRACKED
  {
    if above.Some? {
      TreeRooted(s, root, tree);
      RememberIssues(s, above.value);
      assert root in s.incarnations;
      forall c | c in tree ensures c in s2.incarnations {}
      assert Untracked(s2.incarnations, tree) == {};
    }
  }

  lemma KeysGrow(a: map<Ident, nat>, b: map<Ident, nat>)
    requires Extends(a, b)
    ensures a.Keys <= b.Keys
  {}

  /** The stages of a revocation: detaching, counting, moving on, and dropping the tree's items. */
  ghost predicate Stages(s: Tables, g: Account, s1: Tables, s2: Tables, s3: Tables, s': Tables, g': Account, root: Ident, tree: set<Ident>) {
    && !s.parentTrackingIncomplete
    && Detached(s, g, s1, g.(latest := g.latest - Orphans(g.latest, tree)), root.bus, tree)
    && Adjustment(s1, s2, tree, root.bus) && MovedOn(s2, s3, tree) && Entered(s2, s3, tree)
    && s' == s3.(cacheItems := WithoutObjects(s3.cacheItems, tree), childIndex := None, childIndexGen := 0, cache := map[])
    && g' == g.(latest := g.latest - Orphans(g.latest, tree) - tree)
  }

  lemma StagesTogether(s: Tables, g: Account, s1: Tables, s2: Tables, s3: Tables, s': Tables, g': Account, root: Ident, tree: set<Ident>)
    requires Stages(s, g, s1, s2, s3, s', g', root, tree)
    ensures s' == s.(incarnations := s3.incarnations, parents := s.parents - Orphans(s.parents, tree) - tree,
      parentTrackingIncomplete := s3.parentTrackingIncomplete, cacheItems := WithoutObjects(s2.cacheItems, tree),
      cacheApps := s2.cacheApps, childIndex := None, childIndexGen := 0, cache := map[])
    ensures s1.cacheItems == WithoutBus(s.cacheItems, AffectedBuses(s.parents, s.cacheItems, tree)) && s1.incarnations == s.incarnations
    ensures Shrinks(s1.cacheItems, s2.cacheItems) && Extends(s.incarnations, s2.incarnations)
    ensures Bumped(s2.incarnations, s3.incarnations, tree) && s2.incarnations.Keys <= s3.incarnations.Keys
  {
    hide RecordedUnder, LostChildren, SubtreeTaken, AffectedBuses, Orphans, Complete, Untracked, Extends, Bumped, Shrinks, WithoutBus,
      WithoutObjects, LosesApps;
  }

  /** Taken by itself, without what `Covered` says, the capacity check before is enough exactly when
      moving on needs no new entry, or the parent looked up on the way needs none or leaves room. */
  lemma RoomExactly(s: Tables, s2: Tables, s3: Tables, tree: set<Ident>, above: Option<Ident>)
    requires CanTrack(s, tree) && (above.Some? ==> above.value !in tree)
    requires s2.incarnations == LookedUp(s.incarnations, above) && Entered(s2, s3, tree)
    ensures |s3.incarnations| <= MAX_TRACKED <==>
      Untracked(s.incarnations, tree) == {} || above.None? || above.value in s.incarnations
      || |s.incarnations| + |Untracked(s.incarnations, tree)| < MAX_TRACKED
    ensures |s3.incarnations| <= MAX_TRACKED + 1
  {
    if above.Some? {
      assert Untracked(s2.incarnations, tree) == Untracked(s.incarnations, tree);
      EntryWritten(s.incarnations, above.value, 1);
    }
  }

  /** n objects with a table entry each. */
  function Crowd(n: nat): (r: map<Ident, Count>)
    ensures |r| == n && forall x :: x in r ==> x.bus == [1] && |x.path| <= n
  {
    if n == 0 then map[] else Crowd(n - 1)[Ident([1], seq(n, _ => 97)) := 1]
  }

  const CROWDED_ROOT: Ident := Ident([2], [47])
  const CROWDED_PARENT: Ident := Ident([3], [47])

  /** Tables that no run reaches: there is room for one entry, an object without one has a recorded parent
      without one, and the parent's application is completely cached. */
  function CrowdedTables(): Tables {
    Tables(1, 0, 0, [], 0, false, false, map[], map[], None, 0, map[[3] := true], Crowd(MAX_TRACKED - 1),
      map[CROWDED_ROOT := CROWDED_PARENT], false)
  }

  lemma CrowdedTree()
    ensures IsTree(CrowdedTables(), CROWDED_ROOT, {CROWDED_ROOT})
  {
    hide Crowd;
    var s := CrowdedTables();
    RootDescends(s.parents, s.cacheItems, CROWDED_ROOT);
    assert Closed(s.parents, s.cacheItems, {CROWDED_ROOT});
    forall x | Descends(s.parents, s.cacheItems, CROWDED_ROOT, x) ensures x == CROWDED_ROOT {
      var path :| Path(s.parents, s.cacheItems, CROWDED_ROOT, path) && path[|path| - 1] == x;
      ClosedHoldsPath(s.parents, s.cacheItems, {CROWDED_ROOT}, CROWDED_ROOT, path);
    }
  }

  lemma CrowdedRoom()
    ensures CROWDED_ROOT !in Crowd(MAX_TRACKED - 1) && CROWDED_PARENT !in Crowd(MAX_TRACKED - 1)
    ensures Untracked(CrowdedTables().incarnations, {CROWDED_ROOT}) == {CROWDED_ROOT}
  {
    hide Crowd;
  }

  lemma CrowdedStart()
    ensures Targetable(CrowdedTables(), CROWDED_ROOT) && CanTrack(CrowdedTables(), {CROWDED_ROOT})
    ensures !Covered(CrowdedTables())
  {
    CrowdedTree();
    CrowdedRoom();
    hide Crowd, Descends, Untracked;
    var s := CrowdedTables();
    forall tree | IsTree(s, CROWDED_ROOT, tree) ensures CanTrack(s, tree) { assert tree == {CROWDED_ROOT}; }
  }

  /** The recorded parent stays when the object goes, and its application's cache can follow. */
  lemma CrowdedParent(s1: Tables)
    requires s1.parents == CrowdedTables().parents && Complete(s1.cacheApps, CROWDED_PARENT.bus)
    ensures Bereaved(s1, CROWDED_ROOT, {CROWDED_ROOT}, {}, CROWDED_PARENT)
  {
    hide Crowd;
  }

  lemma CountedAbove(s: Tables, s': Tables, root: Ident, removed: set<Ident>, dropped: set<Str>, above: Option<Ident>, p: Ident)
    requires CountedOnce(s, s', root, removed, dropped, above) && root in s.parents && Bereaved(s, root, removed, dropped, p)
    ensures above == Some(p) && s'.incarnations == LookedUp(s.incarnations, above)
  {
    hide Bereaved, Lowered, LookedUp, Complete, WithoutBus, Refused;
  }

  lemma CrowdedOver(s2: Tables, s3: Tables)
    requires s2.incarnations == LookedUp(Crowd(MAX_TRACKED - 1), Some(CROWDED_PARENT)) && Entered(s2, s3, {CROWDED_ROOT})
    ensures |s3.incarnations| == MAX_TRACKED + 1 && s3.parentTrackingIncomplete
  {
    CrowdedRoom();
    CrowdedStart();
    hide Crowd;
    RoomExactly(CrowdedTables(), s2, s3, {CROWDED_ROOT}, Some(CROWDED_PARENT));
    assert Untracked(s2.incarnations, {CROWDED_ROOT}) == {CROWDED_ROOT};
  }

  /** The stages of a removal on those tables: the check before has room, and moving on leaves the table
      one entry over its cap. */
  lemma CrowdedOut(s1: Tables, s2: Tables, s3: Tables, above: Option<Ident>)
    requires s1 == CrowdedTables().(cacheItems := s1.cacheItems, cacheApps := s1.cacheApps, childIndex := s1.childIndex,
      childIndexGen := s1.childIndexGen, cache := s1.cache)
    requires s1.cacheItems == map[] && forall b :: Complete(s1.cacheApps, b) <==> Complete(CrowdedTables().cacheApps, b)
    requires CountedOnce(s1, s2, CROWDED_ROOT, {CROWDED_ROOT}, ContradictedBuses(s1.parents, s1.cacheItems, s1.cacheItems.Keys), above)
    requires Entered(s2, s3, {CROWDED_ROOT})
    ensures above == Some(CROWDED_PARENT) && |s3.incarnations| == MAX_TRACKED + 1 && s3.parentTrackingIncomplete
  {
    assert ContradictedBuses(s1.parents, s1.cacheItems, s1.cacheItems.Keys) == {};
    assert Complete(CrowdedTables().cacheApps, CROWDED_PARENT.bus);
    CrowdedParent(s1);
    hide Crowd, Bereaved, Complete, ContradictedBuses, CountedOnce, Entered;
    CountedAbove(s1, s2, CROWDED_ROOT, {CROWDED_ROOT}, {}, above, CROWDED_PARENT);
    CrowdedOver(s2, s3);
  }

  /** What holds inside a locked section, rebuilt over changed handle and item tables. */
  lemma CoreOver(s: Tables, g: Account, incarnations: map<Ident, Count>, parents: map<Ident, Ident>, incomplete: bool,
    items: map<NodeID, CacheItem>, apps: map<Str, bool>)
    requires Core(s, g) && |incarnations| <= MAX_TRACKED && |parents| <= |s.parents| && parents.Keys <= incarnations.Keys
    requires Keyed(items, s.generation, incarnations) && forall id :: id in items ==> id.obj in incarnations
    ensures Core(s.(incarnations := incarnations, parents := parents, parentTrackingIncomplete := incomplete, cacheItems := items,
      cacheApps := apps, childIndex := None, childIndexGen := 0, cache := map[]), g.(latest := parents))
  {
    hide Observation.Log, Keyed;
  }

  lemma RevokedCore(s: Tables, g: Account, s1: Tables, s2: Tables, s3: Tables, s': Tables, g': Account, root: Ident, tree: set<Ident>)
    requires Core(s, g) && Stages(s, g, s1, s2, s3, s', g', root, tree) && |s3.incarnations| <= MAX_TRACKED
    requires !s.parentTrackingIncomplete && g' == g.(latest := g.latest - Orphans(g.latest, tree) - tree)
    ensures Core(s', g')
  {
    hide Core, Stages, AffectedBuses, Orphans, Keyed, Extends, Bumped, Shrinks, WithoutBus, WithoutObjects;
    StagesTogether(s, g, s1, s2, s3, s', g', root, tree);
    CoreTables(s, g);
    StaysKeyed(s.cacheItems, s1.cacheItems, s2.cacheItems, AffectedBuses(s.parents, s.cacheItems, tree), s.generation,
      s.incarnations, s2.incarnations, s3.incarnations, tree);
    KeysGrow(s.incarnations, s2.incarnations);
    SubsetSize(s'.parents.Keys, s.parents.Keys);
    CoreOver(s, g, s3.incarnations, s'.parents, s3.parentTrackingIncomplete, WithoutObjects(s2.cacheItems, tree), s2.cacheApps);
  }

  lemma CoreTables(s: Tables, g: Account)
    requires Core(s, g) && !s.parentTrackingIncomplete
    ensures g.latest == s.parents && s.parents.Keys <= s.incarnations.Keys && Keyed(s.cacheItems, s.generation, s.incarnations)
    ensures forall id :: id in s.cacheItems ==> id.obj in s.incarnations
  {}

  lemma RevocationDone(s: Tables, g: Account, s1: Tables, s2: Tables, s3: Tables, s': Tables, g': Account, root: Ident, tree: set<Ident>)
    requires Core(s', g') && IsTree(s, root, tree) && Stages(s, g, s1, s2, s3, s', g', root, tree) && g' == g.(latest := g'.latest)
    ensures Revoked(s, g, s', g', root, tree)
  {
    hide Core, IsTree, Stages, AffectedBuses, Orphans, LostChildren, SubtreeTaken, Extends, Bumped;
    StagesTogether(s, g, s1, s2, s3, s', g', root, tree);
    BumpedAfter(s.incarnations, s2.incarnations, s3.incarnations, tree);
    if Complete(s'.cacheApps, root.bus) { StagesTaken(s, g, s1, s2, s3, s', g', root, tree); }
    assert Shrinks(s.cacheItems, s'.cacheItems);
  }

  lemma EdgeIntoTree(s: Tables, root: Ident, tree: set<Ident>, c: Ident, p: Ident)
    requires IsTree(s, root, tree) && p in tree && Edge(s.parents, s.cacheItems, c, p)
    ensures c in tree
  {
    var path :| Path(s.parents, s.cacheItems, root, path) && path[|path| - 1] == p;
    assert Path(s.parents, s.cacheItems, root, path + [c]);
  }

  lemma LeftOutside(s: Tables, s': Tables, root: Ident, removed: set<Ident>, above: Option<Ident>, id: NodeID)
    requires Settles(s, s', root, removed, above) && id in s'.cacheItems
    ensures id in s.cacheItems && id.obj !in removed && id.obj.bus !in DroppedBuses(s.parents, s.cacheItems, removed)
    ensures s'.cacheItems[id].parent == s.cacheItems[id].parent
  {
    hide Bereaved, LookedUp, Complete, DroppedBuses;
  }

  lemma CachedEdge(s: Tables, id: NodeID)
    requires Keyed(s.cacheItems, s.generation, s.incarnations) && id in s.cacheItems
    requires id.obj in s.parents ==> s.parents[id.obj] == s.cacheItems[id].parent
    requires ParentIdentity(s.cacheItems[id].parent).bus == id.obj.bus != []
    ensures Edge(s.parents, s.cacheItems, id.obj, ParentIdentity(s.cacheItems[id].parent))
  {}

  lemma CachedElsewhere(s: Tables, s': Tables, root: Ident, removed: set<Ident>, above: Option<Ident>, id: NodeID)
    requires Keyed(s.cacheItems, s.generation, s.incarnations) && IsTree(s, root, removed) && root.Valid()
    requires Settles(s, s', root, removed, above) && id in s'.cacheItems
    ensures ParentIdentity(s'.cacheItems[id].parent) !in removed
  {
    LeftOutside(s, s', root, removed, above, id);
    TreeOnOneBus(s, root, removed);
    DroppedExactly(s.parents, s.cacheItems, removed, id.obj.bus);
    hide Keyed, IsTree, Settles, DroppedBuses, ParentIdentity, Edge;
    var p := ParentIdentity(s.cacheItems[id].parent);
    if p in removed {
      assert p.bus == id.obj.bus;
      CachedEdge(s, id);
      EdgeIntoTree(s, root, removed, id.obj, p);
    }
  }

  lemma ObservedElsewhere(s: Tables, s': Tables, root: Ident, removed: set<Ident>, c: Ident)
    requires IsTree(s, root, removed) && c in s'.parents && s'.parents == s.parents - Orphans(s.parents, removed) - removed
    ensures s'.parents[c] !in removed
  {
    hide IsTree;
    if s.parents[c] in removed {
      assert c !in Orphans(s.parents, removed);
      EdgeIntoTree(s, root, removed, c, s.parents[c]);
    }
  }

  /** After a removal nothing on record hangs under what was removed, neither an observed parent nor a cached
      one. */
  lemma NothingHangsThere(s: Tables, g: Account, s': Tables, g': Account, root: Ident, removed: set<Ident>, above: Option<Ident>)
    requires Core(s, g) && root.Valid() && Revoked(s, g, s', g', root, removed) && Settles(s, s', root, removed, above)
    ensures forall c :: c in s'.parents ==> s'.parents[c] !in removed
    ensures forall id :: id in s'.cacheItems ==> ParentIdentity(s'.cacheItems[id].parent) !in removed
  {
    hide Core, Bumped, IsTree, SubtreeTaken, Orphans, Settles, ParentIdentity, Shrinks, Complete, Keyed;
    CoreKeyed(s, g);
    forall c | c in s'.parents ensures s'.parents[c] !in removed {
      ObservedElsewhere(s, s', root, removed, c);
    }
    forall id | id in s'.cacheItems ensures ParentIdentity(s'.cacheItems[id].parent) !in removed {
      CachedElsewhere(s, s', root, removed, above, id);
    }
  }

  lemma StagesTaken(s: Tables, g: Account, s1: Tables, s2: Tables, s3: Tables, s': Tables, g': Account, root: Ident, tree: set<Ident>)
    requires Stages(s, g, s1, s2, s3, s', g', root, tree) && Complete(s'.cacheApps, root.bus)
    ensures SubtreeTaken(s.parents, s.cacheItems, s'.cacheItems, tree, root.bus)
  {
    hide RecordedUnder, LostChildren, SubtreeTaken, AffectedBuses, Orphans, Untracked, Extends, Bumped, Shrinks, WithoutBus, WithoutObjects;
    TakenKept(s.parents, s.cacheItems, s1.parents, s1.cacheItems, s2.cacheItems,
      AffectedBuses(s.parents, s.cacheItems, tree), tree, root.bus);
  }

  lemma RootedDetached(s: Tables, g: Account, s': Tables, g': Account, root: Ident, tree: set<Ident>)
    requires Detached(s, g, s', g', root.bus, tree) && Rooted(s.parents, s.cacheItems, tree, root)
    ensures Rooted(s'.parents, s'.cacheItems, tree, root)
  {
    hide RecordedUnder, LostChildren, AffectedBuses, Orphans;
  }

  lemma StagesApart(s: Tables, g: Account, s1: Tables, s2: Tables, s3: Tables, s': Tables, g': Account, root: Ident, tree: set<Ident>)
    requires Stages(s, g, s1, s2, s3, s', g', root, tree)
    ensures Detached(s, g, s1, g.(latest := g.latest - Orphans(g.latest, tree)), root.bus, tree) && Entered(s2, s3, tree)
    ensures s'.cacheItems == WithoutObjects(s2.cacheItems, tree) && s'.cacheApps == s2.cacheApps
    ensures s'.incarnations == s3.incarnations && s'.parentTrackingIncomplete == s3.parentTrackingIncomplete
    ensures !s.parentTrackingIncomplete && g' == g.(latest := g.latest - Orphans(g.latest, tree) - tree)
  {
    hide Detached, Entered, Extends, Bumped, Shrinks, WithoutObjects, LosesApps, SubtreeTaken, Orphans;
  }

  lemma SettlesDone(s: Tables, g: Account, s2: Tables, s3: Tables, s': Tables, root: Ident, tree: set<Ident>, above: Option<Ident>)
    requires Core(s, g) && !s.parentTrackingIncomplete && IsTree(s, root, tree) && root.Valid() && CanTrack(s, tree)
    requires CountedOnce(s, s2, root, tree, DroppedBuses(s.parents, s.cacheItems, tree), above) && Entered(s2, s3, tree)
    requires s'.cacheItems == WithoutObjects(s2.cacheItems, tree) && s'.cacheApps == s2.cacheApps
    requires s'.incarnations == s3.incarnations && s'.parentTrackingIncomplete == s3.parentTrackingIncomplete
    ensures Settles(s, s', root, tree, above) && |s3.incarnations| <= MAX_TRACKED
  {
    hide Core, CanTrack, IsTree, Entered, Lowered, Looked, Complete, PlainPath, DroppedBuses, WithoutBus, WithoutObjects, RecordedUnder;
    RoomKept(s, g, s2, s3, root, tree, above);
  }

  /** The stages of a revocation put together. */
  lemma TreeTaken(s: Tables, g: Account, s1: Tables, s2: Tables, s3: Tables, s': Tables, g': Account, root: Ident, tree: set<Ident>,
    above: Option<Ident>)
    requires Core(s, g) && IsTree(s, root, tree) && root.Valid() && CanTrack(s, tree) && root in tree
    requires Stages(s, g, s1, s2, s3, s', g', root, tree)
    requires CountedOnce(s1, s2, root, tree, ContradictedBuses(s1.parents, s1.cacheItems, s1.cacheItems.Keys), above)
    ensures Revoked(s, g, s', g', root, tree) && Settles(s, s', root, tree, above)
  {
    hide Core, CanTrack, IsTree, Revoked, Stages, CountedOnce, Settles, ContradictedBuses, DroppedBuses, WithoutObjects, Orphans;
    StagesApart(s, g, s1, s2, s3, s', g', root, tree);
    CoreKeyed(s, g);
    CountedFromDetached(s, g, s1, g.(latest := g.latest - Orphans(g.latest, tree)), s2, root, tree, above);
    SettlesDone(s, g, s2, s3, s', root, tree, above);
    RevokedCore(s, g, s1, s2, s3, s', g', root, tree);
    RevocationDone(s, g, s1, s2, s3, s', g', root, tree);
  }

  /** What a removed tree leaves of the cached items: none of its own objects, no new ones, only counts
      moved, and in its own application exactly the removed children taken off. */
  ghost predicate ItemsAfter(s: Tables, s': Tables, root: Ident, tree: set<Ident>) {
    && Shrinks(s.cacheItems, s'.cacheItems) && (forall id :: id in s'.cacheItems ==> id.obj !in tree)
    && (Complete(s'.cacheApps, root.bus) ==> SubtreeTaken(s.parents, s.cacheItems, s'.cacheItems, tree, root.bus))
  }

  /** What a target does to handles: nothing; the recorded tree exactly, as long as every
      ancestry record was kept; or the epoch. */
  ghost predicate HandlesAfter(s: Tables, g: Account, s': Tables, target: Target) {
    && Live(s') == Live(s)
    && match target
       case Nothing => s'.generation == s.generation && Extends(s.incarnations, s'.incarnations)
       case Everything => s'.generation == s.generation + 1 && s'.cacheItems == map[]
       case Tree(root) =>
         (s'.generation == s.generation + 1 && s'.cacheItems == map[]) ||
         (s'.generation == s.generation && !s.parentTrackingIncomplete &&
          exists tree :: TreeOver(g.latest, s.cacheItems, root, tree) && Bumped(s.incarnations, s'.incarnations, tree)
                         && ItemsAfter(s, s', root, tree))
  }

  lemma RevokedHandles(s: Tables, g: Account, s': Tables, g': Account, root: Ident, tree: set<Ident>)
    requires Core(s, g) && !s.parentTrackingIncomplete && Revoked(s, g, s', g', root, tree)
    ensures HandlesAfter(s, g, s', Tree(root)) && SameLog(s, g, s', g') && s'.generation == s.generation
  {
    hide Bumped, SubtreeTaken, Shrinks, Keyed, Orphans, Complete, Observation.Log, Capped, Covered;
    assert TreeOver(g.latest, s.cacheItems, root, tree);
    assert ItemsAfter(s, s', root, tree);
  }

  ghost predicate SameLog(s: Tables, g: Account, s': Tables, g': Account) {
    && s'.observationHistory == s.observationHistory && s'.observationFloor == s.observationFloor
    && s'.observationRevision == s.observationRevision && s'.cacheRevision == s.cacheRevision
    && g'.forgotten == g.forgotten && g'.published == g.published
    && s'.closed == s.closed && s'.disconnected == s.disconnected
  }

  /** The parent the cache knows for the object a cache removal names. */
  function KnownParent(s: Tables, sig: Signal): Ident {
    if sig.Signal? && sig.kind.CacheRemove? && DecodeRef(sig.kind.removed).Some?
       && DecodeRef(sig.kind.removed).value.bus == sig.sender
       && Key(s.generation, s.incarnations, DecodeRef(sig.kind.removed).value) in s.cacheItems
    then ParentIdentity(s.cacheItems[Key(s.generation, s.incarnations, DecodeRef(sig.kind.removed).value)].parent)
    else NO_IDENT
  }

  /** The history entry of the next signal. */
  function ChangeFor(s: Tables, sig: Signal, about: Ident): Observation.Change {
    Observation.ChangeOf(sig, about, s.observationRevision + 1, KnownParent(s, sig))
  }

  /** The tables once a signal's object has been looked up, which only an own cache removal does. */
  function LookedFor(s: Tables, sig: Signal): Tables {
    if sig.Signal? && sig.kind.CacheRemove? && DecodeRef(sig.kind.removed).Some?
       && DecodeRef(sig.kind.removed).value.bus == sig.sender
    then Remember(s, DecodeRef(sig.kind.removed).value) else s
  }

  lemma LookedForIssues(s: Tables, sig: Signal)
    ensures Issues(s, LookedFor(s, sig))
  {
    hide Remember, Issues;
    IssuesNothing(s);
    if LookedFor(s, sig) != s { RememberIssues(s, DecodeRef(sig.kind.removed).value); }
  }

  /** Whether a removal can be targeted depends on ancestry and handles only. */
  lemma TargetableSame(s: Tables, t: Tables, root: Ident)
    requires s.parents == t.parents && s.cacheItems == t.cacheItems && s.incarnations == t.incarnations
    requires s.parentTrackingIncomplete == t.parentTrackingIncomplete
    ensures Targetable(s, root) <==> Targetable(t, root)
  {
    assert forall tree :: IsTree(s, root, tree) <==> IsTree(t, root, tree);
    assert forall tree :: CanTrack(s, tree) <==> CanTrack(t, tree);
  }

  /** A signal's object has been looked up and the signal entered in the history. */
  ghost predicate Noted(s: Tables, g: Account, s': Tables, g': Account, sig: Signal, change: Observation.Change) {
    && s' == LookedFor(s, sig).(observationRevision := s.observationRevision + 1, observationHistory := s'.observationHistory,
         observationFloor := s'.observationFloor)
    && Grows(s, s')
    && g' == g.(forgotten := g'.forgotten)
    && Signals(s', g') == Signals(s, g) + [change]
  }

  lemma NotedDone(s: Tables, g: Account, s1: Tables, s': Tables, g': Account, sig: Signal, change: Observation.Change,
    dropped: seq<Observation.Change>)
    requires s1 == LookedFor(s, sig)
    requires s' == s1.(observationRevision := s1.observationRevision + 1, observationHistory := s'.observationHistory,
      observationFloor := s'.observationFloor)
    requires g' == g.(forgotten := g.forgotten + dropped)
    requires dropped + s'.observationHistory == s.observationHistory + [change]
    ensures Noted(s, g, s', g', sig, change)
  {
    LookedForIssues(s, sig);
    hide LookedFor;
    Regroup(g.forgotten, dropped, s'.observationHistory, s.observationHistory, change);
  }

  lemma Regroup(a: seq<Observation.Change>, b: seq<Observation.Change>, c: seq<Observation.Change>, d: seq<Observation.Change>, e: Observation.Change)
    requires b + c == d + [e]
    ensures a + b + c == a + d + [e]
  {
    assert a + b + c == a + (b + c);
  }

  /** An ancestry edge told: the latest observation wins; a full table is remembered as incomplete. */
  ghost predicate ParentRecorded(s: Tables, g: Account, s': Tables, g': Account, child: Ident, parent: Ident) {
    if !(child.Valid() && parent.Valid() && Live(s)) then s' == s && g' == g
    else
      && g' == g.(latest := g.latest[child := parent])
      && s' == if child in s.parents || |s.parents| < MAX_TRACKED
               then s.(parents := s.parents[child := parent]) else s.(parentTrackingIncomplete := true)
  }

  lemma FitsAfter(parents: map<Ident, Ident>, child: Ident, parent: Ident)
    ensures parents[child := parent].Keys == parents.Keys + {child}
    ensures |parents[child := parent]| == |parents| + if child in parents then 0 else 1
  {
    if child in parents { assert parents[child := parent].Keys == parents.Keys; }
  }

  lemma NewParentKeepsCore(s: Tables, g: Account, child: Ident, parent: Ident)
    requires Core(s, g) && (child in s.parents || |s.parents| < MAX_TRACKED)
    requires child in s.incarnations || s.parentTrackingIncomplete
    ensures Core(s.(parents := s.parents[child := parent]), g.(latest := g.latest[child := parent]))
    ensures Grows(s, s.(parents := s.parents[child := parent]))
  {
    hide Observation.Log, Keyed, Extends;
    var s' := s.(parents := s.parents[child := parent]);
    FitsAfter(s.parents, child, parent);
    GrowsNothing(s);
    assert Capped(s');
    assert Covered(s');
  }

  lemma FullTableKeepsCore(s: Tables, g: Account, child: Ident, parent: Ident)
    requires Core(s, g)
    ensures Core(s.(parentTrackingIncomplete := true), g.(latest := g.latest[child := parent]))
    ensures Grows(s, s.(parentTrackingIncomplete := true))
  {
    hide Observation.Log, Keyed, Extends;
    GrowsNothing(s);
  }

  /** Recording the parent of an object with a table entry keeps what holds inside a locked section. */
  lemma ParentKeepsCore(s: Tables, g: Account, s': Tables, g': Account, child: Ident, parent: Ident)
    requires Core(s, g) && ParentRecorded(s, g, s', g', child, parent)
    requires child in s.incarnations || s.parentTrackingIncomplete
    ensures Core(s', g') && Grows(s, s')
  {
    hide Core, Grows;
    GrowsNothing(s);
    if s' == s && g' == g {
    } else if child in s.parents || |s.parents| < MAX_TRACKED {
      NewParentKeepsCore(s, g, child, parent);
    } else {
      FullTableKeepsCore(s, g, child, parent);
    }
  }

  /** After one added item: the tables follow `AfterAdd` and its parent is the latest ancestry. */
  ghost predicate Added(s: Tables, g: Account, s': Tables, g': Account, item: CacheItem) {
    && s' == s.(incarnations := s'.incarnations, parents := s'.parents, parentTrackingIncomplete := s'.parentTrackingIncomplete,
         cacheItems := s'.cacheItems, cacheApps := s'.cacheApps)
    && Grows(s, s')
    && g' == g.(latest := if item.obj.Valid() && item.parent.Valid() then g.latest[item.obj := item.parent] else g.latest)
    && (s'.cacheItems, s'.cacheApps) == AfterAdd(s.cacheItems, s.cacheApps, s.generation, s.incarnations, item)
  }

  /** The counts around an added item have been moved. */
  ghost predicate CountedForAdd(s: Tables, s': Tables, item: CacheItem) {
    && s' == s.(incarnations := s'.incarnations, parentTrackingIncomplete := s'.parentTrackingIncomplete,
         cacheItems := s'.cacheItems, cacheApps := s'.cacheApps)
    && Grows(s, s')
    && (s'.cacheItems, s'.cacheApps) == CountsForAdd(s.cacheItems, s.cacheApps, s.generation, s.incarnations, item)
  }

  lemma CoreAncestry(s: Tables, g: Account)
    requires Core(s, g)
    ensures Ancestry(s, g)
  {}

  lemma CountedTwice(s: Tables, s1: Tables, s2: Tables, item: CacheItem, parent: Ident, known: bool)
    requires known == (Key(s.generation, s.incarnations, item.obj) in s.cacheItems)
    requires parent == if known then s.cacheItems[Key(s.generation, s.incarnations, item.obj)].parent else NO_IDENT
    requires Complete(s.cacheApps, item.obj.bus)
    requires if known && parent != item.parent then CountStep(s, s1, parent, -1) else s1 == s
    requires if !known || parent != item.parent then CountStep(s1, s2, item.parent, 1) else s2 == s1
    ensures CountedForAdd(s, s2, item)
  {
    hide Adjusted;
    GrowsNothing(s);
    if s2 != s { GrowsTwice(s, s1, s2); }
  }

  lemma AddedCore(s: Tables, g: Account, s1: Tables, s2: Tables, s3: Tables, item: CacheItem)
    requires Core(s, g) && Issues(s, s1) && CountedForAdd(s1, s2, item) && (item.obj in s1.incarnations || s1.parentTrackingIncomplete)
    requires s3 == s2.(cacheItems := s2.cacheItems[Key(s1.generation, s1.incarnations, item.obj) := item])
    ensures Core(s3, g) && Grows(s, s3) && (item.obj in s3.incarnations || s3.parentTrackingIncomplete)
    ensures (s3.cacheItems, s3.cacheApps) == AfterAdd(s.cacheItems, s.cacheApps, s.generation, s.incarnations, item)
    ensures s3 == s.(incarnations := s3.incarnations, parentTrackingIncomplete := s3.parentTrackingIncomplete,
      cacheItems := s3.cacheItems, cacheApps := s3.cacheApps)
  {
    hide Observation.Log, CountsForAdd, Keyed;
    GrowsTwice(s, s1, s2);
    CountsForAddSame(s.cacheItems, s.cacheApps, s.generation, s.incarnations, s1.incarnations, item);
    assert Incarnation(s1.incarnations, item.obj) == Incarnation(s.incarnations, item.obj);
    AddStaysKeyed(s.cacheItems, s.cacheApps, s.generation, s.incarnations, s2.incarnations, item);
  }

  /** What a cache signal does to the cached items. */
  ghost predicate CacheApplied(s: Tables, g: Account, s': Tables, g': Account, sig: Signal)
    requires sig.Signal?
  {
    && s' == s.(incarnations := s'.incarnations, parents := s'.parents, parentTrackingIncomplete := s'.parentTrackingIncomplete,
         cacheItems := s'.cacheItems, cacheApps := s'.cacheApps, childIndex := None, cache := map[])
    && Grows(s, s')
    && g' == g.(latest := g'.latest)
    && match sig.kind
       case CacheAdd(payload) =>
         var item := DecodeItem(payload);
         if item.None? || item.value.obj.bus != sig.sender then s'.cacheItems == map[] && s'.cacheApps == map[] && g'.latest == g.latest
         else (s'.cacheItems, s'.cacheApps) == AfterAdd(s.cacheItems, s.cacheApps, s.generation, s.incarnations, item.value)
              && g'.latest == if item.value.parent.Valid() then g.latest[item.value.obj := item.value.parent] else g.latest
       case CacheRemove(payload) =>
         var ref := DecodeRef(payload);
         && g'.latest == g.latest
         && if ref.None? || ref.value.bus != sig.sender then s'.cacheItems == map[] && s'.cacheApps == map[]
            else s'.cacheApps == s.cacheApps && s'.cacheItems == WithoutObjects(s.cacheItems, {ref.value})
       case _ => s'.cacheItems == s.cacheItems && s'.cacheApps == s.cacheApps && g'.latest == g.latest
  }

  /** What one processed signal does. */
  ghost predicate SignalDone(s: Tables, g: Account, s': Tables, g': Account, sig: Signal, about: Ident) {
    && Signals(s', g') == Signals(s, g) + [ChangeFor(s, sig, about)]
    && s'.observationRevision == s.observationRevision + 1 && s'.cacheRevision == s.cacheRevision + 1
    && s'.cache == map[] && s'.childIndex == None && HandlesAfter(s, g, s', Removal(sig))
    && (Removal(sig).Tree? ==> (s'.generation == s.generation <==> Targetable(LookedFor(s, sig), Removal(sig).root)))
    && (Removal(sig).Nothing? ==> ItemsFollow(s, s', sig))
    && (!(sig.Signal? && sig.cacheNamed) ==> s'.cacheItems == map[])
  }

  /** A cache addition is worked into the items, a cache removal takes its object off, and either empties
      them if it is malformed or foreign; a signal outside the cache interface drops them. */
  ghost predicate ItemsFollow(s: Tables, s': Tables, sig: Signal) {
    if !sig.Signal? || !sig.cacheNamed then s'.cacheItems == map[] && s'.cacheApps == map[]
    else if sig.kind.CacheAdd? then
      var item := DecodeItem(sig.kind.item);
      if item.None? || item.value.obj.bus != sig.sender then s'.cacheItems == map[] && s'.cacheApps == map[]
      else (s'.cacheItems, s'.cacheApps) == AfterAdd(s.cacheItems, s.cacheApps, s.generation, s.incarnations, item.value)
    else if sig.kind.CacheRemove? then
      var ref := DecodeRef(sig.kind.removed);
      if ref.None? || ref.value.bus != sig.sender then s'.cacheItems == map[] && s'.cacheApps == map[]
      else s'.cacheApps == s.cacheApps && s'.cacheItems == WithoutObjects(s.cacheItems, {ref.value})
    else s'.cacheItems == s.cacheItems && s'.cacheApps == s.cacheApps
  }

  /** What the caches do after the handles have moved. */
  ghost predicate Followed(s: Tables, g: Account, s': Tables, g': Account, sig: Signal) {
    && s'.generation == s.generation && Extends(s.incarnations, s'.incarnations) && Live(s') == Live(s)
    && Signals(s', g') == Signals(s, g) && s'.cache == map[] && s'.childIndex == None
    && s'.observationRevision == s.observationRevision && s'.cacheRevision == s.cacheRevision + 1
    && ItemsFollow(s, s', sig)
  }

  lemma FollowedSignal(s: Tables, s1: Tables, s': Tables, g: Account, g': Account, sig: Signal)
    requires sig.Signal? && sig.cacheNamed
    requires Issues(s.(cacheRevision := s.cacheRevision + 1, cache := map[], childIndex := None), s1)
    requires CacheApplied(s1, g, s', g', sig)
    ensures Followed(s, g, s', g', sig)
  {
    hide AfterAdd, DecodeItem, DecodeRef;
    ExtendsTransitive(s.incarnations, s1.incarnations, s'.incarnations);
    if sig.kind.CacheAdd? && DecodeItem(sig.kind.item).Some? {
      AfterAddSame(s.cacheItems, s.cacheApps, s.generation, s.incarnations, s1.incarnations, DecodeItem(sig.kind.item).value);
    }
  }

  lemma SameItemsFollow(s: Tables, s1: Tables, s': Tables, sig: Signal)
    requires s1.cacheItems == s.cacheItems && s1.cacheApps == s.cacheApps && s1.generation == s.generation
    requires Extends(s.incarnations, s1.incarnations) && ItemsFollow(s1, s', sig)
    ensures ItemsFollow(s, s', sig)
  {
    hide AfterAdd, DecodeItem;
    if sig.Signal? && sig.cacheNamed && sig.kind.CacheAdd? && DecodeItem(sig.kind.item).Some? {
      AfterAddSame(s.cacheItems, s.cacheApps, s.generation, s.incarnations, s1.incarnations, DecodeItem(sig.kind.item).value);
    }
  }

  /** What the cache does after a removal takes away no more than the removed object. */
  lemma ItemsLater(s: Tables, s1: Tables, s': Tables, root: Ident, tree: set<Ident>, sig: Signal)
    requires ItemsAfter(s, s1, root, tree) && ItemsFollow(s1, s', sig) && Removal(sig) == Tree(root) && root in tree
    ensures ItemsAfter(s, s', root, tree)
  {
    hide AfterAdd, LostChildren, PlainPath;
  }

  /** Handles move with the signal's removal, whatever is looked up before and after. */
  lemma SignalHandles(s: Tables, g: Account, s1: Tables, g1: Account, s2: Tables, s3: Tables, s': Tables, sig: Signal)
    requires s1.generation == s.generation && s1.cacheItems == s.cacheItems && s1.parents == s.parents && Live(s1) == Live(s)
    requires Grows(s, s1) && g1.latest == g.latest && HandlesAfter(s1, g1, s2, Removal(sig))
    requires s3.generation == s2.generation && Extends(s2.incarnations, s3.incarnations) && Live(s3) == Live(s2)
    requires ItemsFollow(s2, s3, sig) && Issues(s3, s')
    ensures HandlesAfter(s, g, s', Removal(sig))
  {
    hide AfterAdd, SubtreeTaken, Shrinks, Complete, Extends, Bumped, TreeOver;
    ExtendsTransitive(s2.incarnations, s3.incarnations, s'.incarnations);
    match Removal(sig) {
      case Nothing =>
        ExtendsTransitive(s.incarnations, s1.incarnations, s2.incarnations);
        ExtendsTransitive(s.incarnations, s2.incarnations, s'.incarnations);
      case Everything =>
        NoItemsLater(s2, s3, sig);
      case Tree(root) =>
        if s2.generation == s1.generation {
          var tree :| TreeOver(g1.latest, s1.cacheItems, root, tree) && Bumped(s1.incarnations, s2.incarnations, tree)
            && ItemsAfter(s1, s2, root, tree);
          assert ItemsAfter(s, s2, root, tree);
          RootInTree(g1.latest, s1.cacheItems, root, tree);
          ItemsLater(s, s2, s3, root, tree, sig);
          assert ItemsAfter(s, s', root, tree);
          BumpedBetween(s.incarnations, s1.incarnations, s2.incarnations, s'.incarnations, tree);
        } else {
          NoItemsLater(s2, s3, sig);
        }
    }
  }

  lemma RootInTree(parents: map<Ident, Ident>, items: map<NodeID, CacheItem>, root: Ident, tree: set<Ident>)
    requires TreeOver(parents, items, root, tree)
    ensures root in tree
  {
    RootDescends(parents, items, root);
  }

  lemma NoItemsLater(s: Tables, s': Tables, sig: Signal)
    requires s.cacheItems == map[] && ItemsFollow(s, s', sig) && !Removal(sig).Nothing?
    ensures s'.cacheItems == map[]
  {
    hide AfterAdd;
  }

  lemma HandlesAdvance(s: Tables, g: Account, s': Tables, target: Target)
    requires HandlesAfter(s, g, s', target)
    ensures Advances(Now(s), Now(s'))
  {}

  lemma NotedKeeps(s: Tables, g: Account, s': Tables, g': Account, sig: Signal, change: Observation.Change)
    requires Noted(s, g, s', g', sig, change)
    ensures s'.generation == s.generation && s'.cacheItems == s.cacheItems && s'.cacheApps == s.cacheApps
    ensures s'.parents == s.parents && Live(s') == Live(s) && Grows(s, s')
    ensures s'.cacheRevision == s.cacheRevision && s'.observationRevision == s.observationRevision + 1
    ensures g'.latest == g.latest && Signals(s', g') == Signals(s, g) + [change]
    ensures forall root :: Targetable(s', root) <==> Targetable(LookedFor(s, sig), root)
  {
    forall root ensures Targetable(s', root) <==> Targetable(LookedFor(s, sig), root) {
      TargetableSame(s', LookedFor(s, sig), root);
    }
  }

  lemma SignalEnds(s: Tables, g: Account, s1: Tables, g1: Account, s2: Tables, g2: Account, s3: Tables, s': Tables, g': Account,
    sig: Signal, about: Ident)
    requires Noted(s, g, s1, g1, sig, ChangeFor(s, sig, about))
    requires HandlesAfter(s1, g1, s2, Removal(sig)) && SameLog(s1, g1, s2, g2)
    requires Removal(sig).Nothing? ==> s2 == s1
    requires Removal(sig).Tree? ==> (s2.generation == s1.generation <==> Targetable(s1, Removal(sig).root))
    requires Followed(s2, g2, s3, g', sig) && Issues(s3, s')
    ensures SignalDone(s, g, s', g', sig, about) && Advances(Now(s), Now(s'))
  {
    hide AfterAdd, ChangeFor, HandlesAfter, Extends, Advances, DecodeItem, DecodeRef, Targetable, Noted, LookedFor;
    NotedKeeps(s, g, s1, g1, sig, ChangeFor(s, sig, about));
    if Removal(sig).Nothing? { SameItemsFollow(s, s1, s3, sig); }
    FollowSame(s, s3, s', sig);
    FollowSame(s2, s3, s', sig);
    SignalHandles(s, g, s1, g1, s2, s3, s', sig);
    HandlesAdvance(s, g, s', Removal(sig));
  }

  lemma FollowSame(s: Tables, s1: Tables, s2: Tables, sig: Signal)
    requires s2.cacheItems == s1.cacheItems && s2.cacheApps == s1.cacheApps
    ensures ItemsFollow(s, s1, sig) <==> ItemsFollow(s, s2, sig)
  {}

  predicate Own(bus: Str, list: seq<CacheItem>) { forall item :: item in list ==> CacheValidation.OwnItem(bus, item) }

  /** Own, distinct objects without a parent cycle. */
  ghost predicate Sound(bus: Str, list: seq<CacheItem>) {
    Own(bus, list) && CacheValidation.DistinctObjects(list) && CacheValidation.Acyclic(CacheValidation.ParentsOf(list))
  }

  /** After the entries in `list` have replaced what was cached and known of their application. */
  ghost predicate Loading(s: Tables, g: Account, s': Tables, g': Account, bus: Str, list: seq<CacheItem>) {
    && s' == s.(incarnations := s'.incarnations, parents := s'.parents, parentTrackingIncomplete := s'.parentTrackingIncomplete,
         cacheItems := WithoutBus(s.cacheItems, {bus}) + Loaded(list, s.generation, s.incarnations),
         cacheApps := s'.cacheApps, childIndex := None)
    && Grows(s, s')
    && g' == g.(latest := LoadedParents(list, s.generation, WithoutParentsOf(g.latest, bus)))
  }

  ghost predicate LoadedOne(s: Tables, g: Account, s': Tables, g': Account, item: CacheItem) {
    && s' == s.(incarnations := s'.incarnations, parents := s'.parents, parentTrackingIncomplete := s'.parentTrackingIncomplete,
         cacheItems := s'.cacheItems)
    && Grows(s, s')
    && (var id := Key(s.generation, s.incarnations, item.obj);
        && s'.cacheItems == (if id.Valid() then s.cacheItems[id := item] else s.cacheItems)
        && g' == g.(latest := if id.Valid() && item.parent.Valid() then g.latest[item.obj := item.parent] else g.latest))
  }

  lemma IssuedValid(s: Tables, s': Tables, g: Account)
    requires Valid(s, g) && Issues(s, s')
    ensures Valid(s', g)
  {
    hide Core;
    IssuedCore(s, s', g);
  }

  lemma ValidCore(s: Tables, g: Account)
    requires Valid(s, g)
    ensures Core(s, g)
  {}

  lemma IssuedCore(s: Tables, s': Tables, g: Account)
    requires Core(s, g) && Issues(s, s')
    ensures Core(s', g)
  {
    hide Observation.Log;
  }

  lemma PutCore(s: Tables, s': Tables, g: Account, id: NodeID, item: CacheItem)
    requires Core(s, g) && id == Key(s.generation, s.incarnations, item.obj)
    requires item.obj in s.incarnations || s.parentTrackingIncomplete
    requires s' == s.(cacheItems := s.cacheItems[id := item])
    ensures Core(s', g) && Grows(s, s')
  {
    hide Observation.Log;
  }

  lemma LoadedDone(s: Tables, g: Account, s1: Tables, s': Tables, g': Account, item: CacheItem)
    requires Issues(s, s1) && Grows(s, s') && Live(s)
    requires var id := Key(s1.generation, s1.incarnations, item.obj);
      if id.Valid() then ParentRecorded(s1.(cacheItems := s1.cacheItems[id := item]), g, s', g', item.obj, item.parent)
      else s' == s1 && g' == g
    ensures LoadedOne(s, g, s', g', item)
  {
    SameKey(s, s1, item.obj);
    hide Grows;
    var id := Key(s.generation, s.incarnations, item.obj);
    if id.Valid() {
      assert s'.cacheItems == s.cacheItems[id := item];
    }
  }

  lemma LoadStep(s: Tables, g: Account, s1: Tables, g1: Account, s2: Tables, g2: Account, bus: Str, list: seq<CacheItem>)
    requires list != [] && s.generation > 0 && Loading(s, g, s1, g1, bus, list[..|list| - 1]) && s1.cacheApps == s.cacheApps
    requires LoadedOne(s1, g1, s2, g2, list[|list| - 1])
    ensures Loading(s, g, s2, g2, bus, list) && s2.cacheApps == s.cacheApps
  {
    var last := list[|list| - 1];
    GrowsTwice(s, s1, s2);
    assert Incarnation(s1.incarnations, last.obj) == Incarnation(s.incarnations, last.obj);
    UpdateUnion(WithoutBus(s.cacheItems, {bus}), Loaded(list[..|list| - 1], s.generation, s.incarnations),
      Key(s.generation, s.incarnations, last.obj), last);
  }

  lemma LoadStarts(s: Tables, g: Account, s': Tables, g': Account, bus: Str)
    requires Core(s, g)
    requires s' == s.(childIndex := None, cacheItems := WithoutBus(s.cacheItems, {bus}), parents := WithoutParentsOf(s.parents, bus))
    requires g' == g.(latest := WithoutParentsOf(g.latest, bus))
    ensures Core(s', g') && Loading(s, g, s', g', bus, []) && s.generation > 0
  {
    hide Observation.Log, Keyed, WithoutBus, WithoutParentsOf, Loaded;
    BusDropped(s.cacheItems, bus, s.generation, s.incarnations);
    ParentsDropped(s.parents, bus);
    GrowsNothing(s);
    assert Capped(s') && Ancestry(s', g');
    assert Covered(s');
  }

  lemma LoadEnds(s: Tables, g: Account, s1: Tables, g1: Account, bus: Str, list: seq<CacheItem>)
    requires Core(s1, g1) && Loading(s, g, s1, g1, bus, list)
    ensures Core(s1.(cacheApps := s1.cacheApps[bus := true]), g1)
    ensures Loading(s, g, s1.(cacheApps := s1.cacheApps[bus := true]), g1, bus, list)
  {
    hide Observation.Log, Loaded, LoadedParents;
  }

  lemma UpdateUnion(a: map<NodeID, CacheItem>, b: map<NodeID, CacheItem>, id: NodeID, item: CacheItem)
    ensures (a + b)[id := item] == a + b[id := item]
  {}

  lemma NonEmptyAnswer(refs: seq<Ident>, items: map<NodeID, CacheItem>, kids: set<NodeID>)
    requires kids <= items.Keys && kids != {} && IsAnswer(refs, items, kids)
    ensures refs != []
  {
    var ids: seq<NodeID> :| NoDup(ids) && Elems(ids) == kids && (forall id :: id in ids ==> id in items)
      && Sorted(ids, items) && refs == Refs(ids, items);
    var id :| id in kids;
    assert id in Elems(ids);
  }

  /** No signal has a revision above the current one. */
  lemma LogOrder(s: Tables, g: Account)
    requires Core(s, g)
    ensures forall c :: c in Signals(s, g) ==> c.revision <= s.observationRevision
    ensures forall c :: c in Signals(s, g) <==> c in g.forgotten || c in s.observationHistory
  {
    var all := Signals(s, g);
    forall c | c in all ensures c.revision <= s.observationRevision {
      var i :| 0 <= i < |all| && all[i] == c;
      Observation.AscendingOrder(all, s.observationRevision, i, |all|);
    }
  }

  /** After a subtree removal every handle issued so far for the removed object or a recorded
      descendant is rejected, whether or not ancestry records were dropped; a targeted
      revocation leaves all other handles as they were; a dropped record ends the epoch. */
  lemma RemovalReachesSubtree(s: Tables, g: Account, s': Tables, root: Ident, h: NodeID)
    requires HandlesAfter(s, g, s', Tree(root)) && NotAhead(Now(s), h)
    ensures Descends(g.latest, s.cacheItems, root, h.obj) ==> !Accepts(Now(s'), h)
    ensures s'.generation == s.generation && !Descends(g.latest, s.cacheItems, root, h.obj) ==>
      (Accepts(Now(s'), h) <==> Accepts(Now(s), h))
    ensures s.parentTrackingIncomplete ==> s'.generation == s.generation + 1 && !Accepts(Now(s'), h)
  {
    if s'.generation == s.generation {
      var tree :| TreeOver(g.latest, s.cacheItems, root, tree) && Bumped(s.incarnations, s'.incarnations, tree);
      assert h.obj in tree <==> Descends(g.latest, s.cacheItems, root, h.obj);
    }
  }

  /** The cached children that p has in its own application. */
  function OwnKids(items: map<NodeID, CacheItem>, p: Ident): set<NodeID> {
    set id | id in items && id.obj.bus == p.bus && items[id].parent == p
  }

  lemma AdjustedOwn(items: map<NodeID, CacheItem>, apps: map<Str, bool>, key: NodeID, delta: int, p: NodeID)
    requires p in items && Complete(Adjusted(items, apps, key, delta).1, p.obj.bus)
    ensures var items' := Adjusted(items, apps, key, delta).0;
      && Complete(apps, p.obj.bus) && OwnKids(items', p.obj) == OwnKids(items, p.obj) && p in items'
      && items'[p] == items[p].(childCount := items[p].childCount + if key == p && PlainPath(p.obj.path) then delta else 0)
      && (forall id :: id in items && id.obj.bus == p.obj.bus ==> id in items' && items'[id].parent == items[id].parent)
      && (forall id :: id in items' ==> id in items)
  {}

  lemma OwnKidsStep(items: map<NodeID, CacheItem>, id: NodeID, item: CacheItem, p: Ident)
    requires id.obj.bus == p.bus
    ensures |OwnKids(items[id := item], p)| == |OwnKids(items, p)|
      + (if item.parent == p then 1 else 0) - (if id in items && items[id].parent == p then 1 else 0)
  {
    var rest := OwnKids(items, p) - {id};
    assert OwnKids(items[id := item], p) == if item.parent == p then rest + {id} else rest;
    assert OwnKids(items, p) == if id in items && items[id].parent == p then rest + {id} else rest;
  }

  /** Adding an item keeps every other complete count of its application as far from the
      number of cached children as it was. */
  lemma AddKeepsDrift(items: map<NodeID, CacheItem>, apps: map<Str, bool>, generation: nat, incarnations: map<Ident, nat>,
    item: CacheItem, p: NodeID)
    requires Keyed(items, generation, incarnations) && p in items && p != Key(generation, incarnations, item.obj)
    requires p.obj.bus == item.obj.bus && PlainPath(p.obj.path)
    requires Complete(AfterAdd(items, apps, generation, incarnations, item).1, p.obj.bus)
    ensures var items' := AfterAdd(items, apps, generation, incarnations, item).0;
      p in items' && items'[p].childCount - |OwnKids(items', p.obj)| == items[p].childCount - |OwnKids(items, p.obj)|
  {
    var id := Key(generation, incarnations, item.obj);
    var moved := id !in items || items[id].parent != item.parent;
    var (items1, apps1) :=
      if Complete(apps, item.obj.bus) && id in items && moved
      then Adjusted(items, apps, Key(generation, incarnations, items[id].parent), -1) else (items, apps);
    var (items2, apps2) :=
      if Complete(apps, item.obj.bus) && moved
      then Adjusted(items1, apps1, Key(generation, incarnations, item.parent), 1) else (items1, apps1);
    if Complete(apps, item.obj.bus) && moved {
      if id in items {
        AdjustedShrinks(items1, apps1, Key(generation, incarnations, item.parent), 1);
        AdjustedOwn(items, apps, Key(generation, incarnations, items[id].parent), -1, p);
      }
      AdjustedOwn(items1, apps1, Key(generation, incarnations, item.parent), 1, p);
    }
    OwnKidsStep(items2, id, item, p.obj);
  }

  lemma SameAdvances(e: Epoch)
    ensures Advances(e, e)
  {}

  /** The tables at a lock boundary, with what the proofs remember. */
  datatype Moment = Moment(s: Tables, g: Account)

  /** One locked section has led from one moment to the next. */
  ghost predicate Taken(a: Moment, step: Step, b: Moment) {
    && Valid(a.s, a.g) && Valid(b.s, b.g) && Advances(Now(a.s), Now(b.s)) && Signals(a.s, a.g) <= Signals(b.s, b.g)
    && (step.SnapshotRead? && Overtaken(a.s, a.g, step.observation, step.root, step.snapshot, step.reread) ==> b == a)
    && (step.Signalled? && Live(a.s) ==> SignalDone(a.s, a.g, b.s, b.g, step.sig, step.about))
  }

  ghost predicate Trace(steps: seq<Step>, moments: seq<Moment>) {
    |moments| == |steps| + 1 && forall i :: 0 <= i < |steps| ==> Taken(moments[i], steps[i], moments[i + 1])
  }

  function Epochs(moments: seq<Moment>): (run: seq<Epoch>)
    ensures |run| == |moments| && forall i :: 0 <= i < |run| ==> run[i] == Now(moments[i].s)
  {
    seq(|moments|, i requires 0 <= i < |moments| => Now(moments[i].s))
  }

  lemma TraceStep(steps: seq<Step>, moments: seq<Moment>, step: Step, next: Moment)
    requires Trace(steps, moments) && Taken(moments[|steps|], step, next)
    ensures Trace(steps + [step], moments + [next])
  {
    hide Taken;
    var all := moments + [next];
    forall i | 0 <= i < |steps| + 1 ensures Taken(all[i], (steps + [step])[i], all[i + 1]) {
      if i < |steps| { assert Taken(moments[i], steps[i], moments[i + 1]); }
    }
  }

  lemma TraceHistory(steps: seq<Step>, moments: seq<Moment>)
    requires Trace(steps, moments)
    ensures History(Epochs(moments))
  {
    hide Advances, Valid, SignalDone;
    forall i | 0 < i < |moments| ensures Advances(Epochs(moments)[i - 1], Epochs(moments)[i]) {
      assert Taken(moments[i - 1], steps[i - 1], moments[i]);
    }
  }

  /** Removal over whole runs: once a signal has removed an object, no handle issued up to then for it
      or for a descendant by the ancestry told up to then is ever accepted again; after a signal that
      does not say which object is gone, no handle issued up to then is. */
  lemma {:induction false} RemovedForGood(steps: seq<Step>, moments: seq<Moment>, j: nat, i: nat, k: nat, h: NodeID)
    requires Trace(steps, moments) && j <= i < k < |moments| && steps[i].Signalled?
    requires NotAhead(Now(moments[j].s), h)
    ensures Removal(steps[i].sig).Tree? && Descends(moments[i].g.latest, moments[i].s.cacheItems, Removal(steps[i].sig).root, h.obj) ==>
      !Accepts(Now(moments[k].s), h)
    ensures Removal(steps[i].sig).Everything? ==> !Accepts(Now(moments[k].s), h)
  {
    hide Valid, Accepts, NotAhead, Advances, Descends, HandlesAfter, ChangeFor, ItemsFollow;
    var removal := Removal(steps[i].sig);
    var epochs := Epochs(moments);
    TraceHistory(steps, moments);
    RunAdvances(epochs, j, i);
    RejectedStaysRejected(epochs[j], epochs[i], h);
    assert Taken(moments[i], steps[i], moments[i + 1]);
    RejectedStaysRejected(epochs[i], epochs[i + 1], h);
    if Live(moments[i].s) {
      RemovalReaches(moments[i].s, moments[i].g, moments[i + 1].s, removal, h);
    } else {
      DeadRejects(epochs[i], epochs[i + 1], h);
    }
    RunAdvances(epochs, i + 1, k);
    RejectedStaysRejected(epochs[i + 1], epochs[k], h);
  }

  /** Once a signal has named an object as gone, no handle issued up to then for it or a descendant is ever
      accepted again. */
  lemma NamedIsGoneForGood(steps: seq<Step>, moments: seq<Moment>, j: nat, i: nat, k: nat, x: Ident, h: NodeID)
    requires Trace(steps, moments) && j <= i < k < |moments| && steps[i].Signalled? && Names(steps[i].sig, x)
    requires NotAhead(Now(moments[j].s), h) && Descends(moments[i].g.latest, moments[i].s.cacheItems, x, h.obj)
    ensures !Accepts(Now(moments[k].s), h)
  {
    RemovalMeans(steps[i].sig);
    RemovedForGood(steps, moments, j, i, k, h);
  }

  /** Once a signal has not said in a way to follow what is gone, no handle issued up to then is ever
      accepted again. */
  lemma UnnamedEndsEverything(steps: seq<Step>, moments: seq<Moment>, j: nat, i: nat, k: nat, h: NodeID)
    requires Trace(steps, moments) && j <= i < k < |moments| && steps[i].Signalled? && Unnamed(steps[i].sig)
    requires NotAhead(Now(moments[j].s), h)
    ensures !Accepts(Now(moments[k].s), h)
  {
    RemovalMeans(steps[i].sig);
    RemovedForGood(steps, moments, j, i, k, h);
  }

  /** A signal that says of nothing that it is gone leaves every handle as it was. */
  lemma OtherSignalsKeepHandles(steps: seq<Step>, moments: seq<Moment>, i: nat, h: NodeID)
    requires Trace(steps, moments) && i < |steps| && steps[i].Signalled?
    requires var sig := steps[i].sig;
      sig.Signal? ==> sig.kind.CacheAdd? || sig.kind == WindowCreate || sig.kind == OtherSignal || sig.kind == Defunct(Some(false))
    ensures Accepts(Now(moments[i + 1].s), h) <==> Accepts(Now(moments[i].s), h)
  {
    hide Valid, ItemsFollow, ChangeFor;
    assert Taken(moments[i], steps[i], moments[i + 1]);
  }

  /** What a removal leaves: a handle accepted before is accepted after exactly if it is not for the
      object named as gone or a descendant, and no ancestry was dropped and the tables had room once the
      signal's object had been looked up. */
  lemma RemovalSparesOthers(steps: seq<Step>, moments: seq<Moment>, i: nat, x: Ident, h: NodeID)
    requires Trace(steps, moments) && i < |steps| && steps[i].Signalled? && Names(steps[i].sig, x)
    requires Accepts(Now(moments[i].s), h)
    ensures var before := moments[i];
      Accepts(Now(moments[i + 1].s), h) <==>
        Targetable(LookedFor(before.s, steps[i].sig), x) && !Descends(before.g.latest, before.s.cacheItems, x, h.obj)
  {
    RemovalMeans(steps[i].sig);
    hide Valid, Advances, Descends, Targetable, HandlesAfter, ChangeFor, ItemsFollow, LookedFor, Removal, Names;
    assert Taken(moments[i], steps[i], moments[i + 1]);
    RemovalReachesSubtree(moments[i].s, moments[i].g, moments[i + 1].s, x, h);
  }

  lemma SignalKept(s: Tables, g: Account, s': Tables, g': Account, sig: Signal, about: Ident)
    requires SignalDone(s, g, s', g', sig, about)
    ensures Signals(s, g) <= Signals(s', g')
  {
    hide HandlesAfter, ItemsFollow, ChangeFor;
  }

  /** No signal is ever lost from the account of signals. */
  lemma {:induction false} SignalsStay(steps: seq<Step>, moments: seq<Moment>, i: nat, k: nat)
    requires Trace(steps, moments) && i <= k < |moments|
    ensures Signals(moments[i].s, moments[i].g) <= Signals(moments[k].s, moments[k].g)
    decreases k
  {
    hide Valid, Advances, SignalDone;
    if i < k {
      SignalsStay(steps, moments, i, k - 1);
      assert Taken(moments[k - 1], steps[k - 1], moments[k]);
    }
  }

  /** A signal after a read began stands between that read and its publication for good, if what it says
      conflicts with what was read. */
  lemma ConflictIsNotMissed(steps: seq<Step>, moments: seq<Moment>, i: nat, k: nat,
    expected: nat, root: NodeID, snapshot: Snapshot, reread: bool)
    requires Trace(steps, moments) && i < k < |moments| && steps[i].Signalled? && Live(moments[i].s)
    requires expected <= moments[i].s.observationRevision
    requires Observation.Conflicts(ChangeFor(moments[i].s, steps[i].sig, steps[i].about), root.obj, snapshot.root.role,
      Observation.Observed(snapshot), reread)
    ensures Overtaken(moments[k].s, moments[k].g, expected, root, snapshot, reread)
  {
    var c := ChangeFor(moments[i].s, steps[i].sig, steps[i].about);
    assert c.revision == moments[i].s.observationRevision + 1;
    assert Taken(moments[i], steps[i], moments[i + 1]);
    hide Valid, Advances, HandlesAfter, ItemsFollow, Signals, ChangeFor, Observation.Conflicts, Observation.Observed;
    var before, after := Signals(moments[i].s, moments[i].g), Signals(moments[i + 1].s, moments[i + 1].g);
    assert after == before + [c] && after[|before|] == c;
    SignalsStay(steps, moments, i + 1, k);
    assert Signals(moments[k].s, moments[k].g)[|before|] == c;
    assert Matters(c, moments[k].g, expected, root, snapshot, reread);
  }

  /** Over every run: when a window has opened while a snapshot of the registry, or of the application it
      opened in, was being read, handing that snapshot in changes nothing, however much later. */
  lemma OpeningWindowIsNotMissed(steps: seq<Step>, moments: seq<Moment>, i: nat, k: nat)
    requires Trace(steps, moments) && i < k < |steps| && steps[i].Signalled? && steps[k].SnapshotRead?
    requires Live(moments[i].s) && steps[k].observation <= moments[i].s.observationRevision
    requires steps[i].sig.Signal? && steps[i].sig.kind == WindowCreate
    requires steps[k].root.obj.bus == REGISTRY
      || (steps[k].snapshot.root.role == APPLICATION && steps[i].about.bus == steps[k].root.obj.bus)
    ensures moments[k + 1] == moments[k]
  {
    hide Signals, Overtaken, Observation.Observed, Valid, Advances, SignalDone;
    ConflictIsNotMissed(steps, moments, i, k, steps[k].observation, steps[k].root, steps[k].snapshot, steps[k].reread);
    assert Taken(moments[k], steps[k], moments[k + 1]);
  }

  lemma RemovalBelowConflicts(s: Tables, sig: Signal, about: Ident, x: Ident, root: Ident, rootRole: Str, nodes: map<Ident, Node>, reread: bool)
    requires sig.Signal? && sig.kind == CacheRemove(Some(x)) && ValidObjectRef(x) && x.bus == sig.sender
    requires var id := Key(s.generation, s.incarnations, x); id in s.cacheItems && ParentIdentity(s.cacheItems[id].parent) in nodes
    ensures Observation.Conflicts(ChangeFor(s, sig, about), root, rootRole, nodes, reread)
  {
    hide ValidObjectRef;
  }

  /** Over every run: when an object has been removed that the cache had under an observed parent, handing the
      snapshot in changes nothing, however much later and wherever the object was. */
  lemma RemovalBelowIsNotMissed(steps: seq<Step>, moments: seq<Moment>, i: nat, k: nat, x: Ident)
    requires Trace(steps, moments) && i < k < |steps| && steps[i].Signalled? && steps[k].SnapshotRead?
    requires Live(moments[i].s) && steps[k].observation <= moments[i].s.observationRevision
    requires var sig := steps[i].sig; sig.Signal? && sig.kind == CacheRemove(Some(x)) && ValidObjectRef(x) && x.bus == sig.sender
    requires var s := moments[i].s; var id := Key(s.generation, s.incarnations, x);
      id in s.cacheItems && ParentIdentity(s.cacheItems[id].parent) in Observation.Observed(steps[k].snapshot)
    ensures moments[k + 1] == moments[k]
  {
    RemovalBelowConflicts(moments[i].s, steps[i].sig, steps[i].about, x, steps[k].root.obj, steps[k].snapshot.root.role,
      Observation.Observed(steps[k].snapshot), steps[k].reread);
    hide Signals, Overtaken, Observation.Observed, Valid, Advances, SignalDone, ChangeFor, Observation.Conflicts, ValidObjectRef;
    ConflictIsNotMissed(steps, moments, i, k, steps[k].observation, steps[k].root, steps[k].snapshot, steps[k].reread);
    assert Taken(moments[k], steps[k], moments[k + 1]);
  }

  /** Neither table ever outgrows its cap; whatever has a recorded parent or a cache entry has a table
      entry, or the epoch ends with the next removal. */
  lemma CapHolds(steps: seq<Step>, moments: seq<Moment>, k: nat)
    requires Trace(steps, moments) && k < |moments| && steps != []
    ensures |moments[k].s.incarnations| <= MAX_TRACKED && |moments[k].s.parents| <= MAX_TRACKED
    ensures forall root :: moments[k].s.parentTrackingIncomplete ==> !Targetable(moments[k].s, root)
    ensures forall x :: (x in moments[k].s.parents || exists id :: id in moments[k].s.cacheItems && id.obj == x) ==>
      x in moments[k].s.incarnations || moments[k].s.parentTrackingIncomplete
  {
    hide SignalDone, Advances;
    if k > 0 {
      assert Taken(moments[k - 1], steps[k - 1], moments[k]);
    } else {
      assert Taken(moments[k], steps[k], moments[k + 1]);
    }
    assert Capped(moments[k].s) && Covered(moments[k].s);
  }

  lemma DeadRejects(e: Epoch, f: Epoch, h: NodeID)
    requires !e.live && Advances(e, f)
    ensures !Accepts(f, h)
  {}

  lemma RemovalReaches(s: Tables, g: Account, s': Tables, removal: Target, h: NodeID)
    requires HandlesAfter(s, g, s', removal) && NotAhead(Now(s), h)
    ensures removal.Tree? && Descends(g.latest, s.cacheItems, removal.root, h.obj) ==> !Accepts(Now(s'), h)
    ensures removal.Everything? ==> !Accepts(Now(s'), h)
  {
    if removal.Tree? { RemovalReachesSubtree(s, g, s', removal.root, h); }
  }

  class DbusBackend {
    var s: Tables
    ghost var g: Account

    constructor (startGeneration: nat)
      ensures Valid(s, g) && Live(s) && s.generation == (if startGeneration == 0 then 1 else startGeneration)
      ensures s.incarnations == map[] && s.parents == g.latest == map[] && s.cache == map[] && s.cacheItems == map[]
    {
      s := Tables(if startGeneration == 0 then 1 else startGeneration, 0, 0, [], 0, false, false,
        map[], map[], None, 0, map[], map[], map[], false);
      g := Account([], map[], map[]);
    }

    // ------------------------------------------------------------------ handles

    /** `incarnationLocked`. */
    method IncarnationOf(x: Ident) returns (n: nat)
      modifies `s
      ensures s == Remember(old(s), x) && Issues(old(s), s) && n == Incarnation(s.incarnations, x)
    {
      hide Issues;
      RememberIssues(s, x);
      if x !in s.incarnations || s.incarnations[x] == 0 {
        if |s.incarnations| >= MAX_TRACKED {
          s := s.(parentTrackingIncomplete := true);
          return 1;
        }
        s := s.(incarnations := s.incarnations[x := 1]);
      }
      return s.incarnations[x];
    }

    /** `nodeIDLocked`: the handle issued is one this epoch accepts as long as it lives. */
    method NodeIDOf(x: Ident) returns (id: NodeID)
      modifies `s
      ensures s == Remember(old(s), x) && Issues(old(s), s) && (x in s.incarnations || s.parentTrackingIncomplete)
      ensures id == Key(s.generation, s.incarnations, x) && NotAhead(Now(s), id) && (Live(s) ==> Accepts(Now(s), id))
    {
      var n := IncarnationOf(x);
      id := NodeID(x, s.generation, n);
    }

    /** `Invalidate`: no handle issued before is accepted any more. */
    method Invalidate()
      requires Valid(s, g)
      modifies this
      ensures Valid(s, g) && Advances(Now(old(s)), Now(s)) && g == old(g).(latest := map[])
      ensures s == old(s).(generation := old(s).generation + 1, observationRevision := old(s).observationRevision + 1,
        cacheRevision := old(s).cacheRevision + 1, cache := map[], cacheItems := map[], cacheApps := map[],
        childIndex := None, childIndexGen := 0, incarnations := map[], parents := map[], parentTrackingIncomplete := false)
    {
      hide Observation.Log;
      Observation.LogGrows(g.forgotten, s.observationHistory, s.observationFloor, s.observationRevision, s.observationRevision + 1);
      s := s.(observationRevision := s.observationRevision + 1, cacheRevision := s.cacheRevision + 1);
      InvalidateAllHandles();
      s := s.(childIndexGen := 0);
    }

    /** `invalidateAllHandlesLocked`: a fresh epoch with nothing on record. */
    method InvalidateAllHandles()
      requires Observation.Log(g.forgotten, s.observationHistory, s.observationFloor, s.observationRevision)
      modifies this
      ensures Valid(s, g) && Advances(Now(old(s)), Now(s))
      ensures g == old(g).(latest := map[])
      ensures s == old(s).(generation := old(s).generation + 1, cache := map[], cacheItems := map[], cacheApps := map[],
        childIndex := None, incarnations := map[], parents := map[], parentTrackingIncomplete := false)
    {
      s := s.(generation := s.generation + 1, cache := map[], cacheItems := map[], cacheApps := map[], childIndex := None,
        incarnations := map[], parents := map[], parentTrackingIncomplete := false);
      g := g.(latest := map[]);
    }

    /** `markDisconnected` and `invalidateDisconnectedEventConnection`: the backend stays dead. */
    method MarkDisconnected()
      requires Valid(s, g)
      modifies `s
      ensures Valid(s, g) && Advances(Now(old(s)), Now(s)) && s.disconnected
      ensures s == if old(s).disconnected then old(s) else old(s).(disconnected := true,
        generation := old(s).generation + 1, observationRevision := old(s).observationRevision + 1,
        cacheRevision := old(s).cacheRevision + 1, cache := map[], cacheItems := map[], cacheApps := map[], childIndex := None)
    {
      hide Observation.Log;
      if s.disconnected { return; }
      Observation.LogGrows(g.forgotten, s.observationHistory, s.observationFloor, s.observationRevision, s.observationRevision + 1);
      s := s.(disconnected := true, generation := s.generation + 1,
        observationRevision := s.observationRevision + 1, cacheRevision := s.cacheRevision + 1,
        cache := map[], cacheItems := map[], cacheApps := map[], childIndex := None);
    }

    method Close()
      requires Valid(s, g)
      modifies `s
      ensures Valid(s, g) && Advances(Now(old(s)), Now(s)) && s.closed
      ensures s == if old(s).closed then old(s) else old(s).(closed := true, disconnected := true,
        generation := old(s).generation + 1, observationRevision := old(s).observationRevision + 1,
        cacheRevision := old(s).cacheRevision + 1, cache := map[], cacheItems := map[], cacheApps := map[],
        childIndex := None, childIndexGen := 0)
    {
      hide Observation.Log;
      if s.closed { return; }
      Observation.LogGrows(g.forgotten, s.observationHistory, s.observationFloor, s.observationRevision, s.observationRevision + 1);
      s := s.(closed := true, disconnected := true, generation := s.generation + 1,
        observationRevision := s.observationRevision + 1, cacheRevision := s.cacheRevision + 1,
        cache := map[], cacheItems := map[], cacheApps := map[], childIndex := None, childIndexGen := 0);
    }

    // ----------------------------------------------------------------- ancestry

    /** `recordParentLocked`: latest observation wins; a full table is remembered as incomplete. */
    method RecordParent(child: Ident, parent: Ident)
      requires Ancestry(s, g)
      modifies this
      ensures Ancestry(s, g) && ParentRecorded(old(s), old(g), s, g, child, parent)
    {
      if !child.Valid() || !parent.Valid() || !Live(s) { return; }
      g := g.(latest := g.latest[child := parent]);
      if child !in s.parents && |s.parents| >= MAX_TRACKED {
        s := s.(parentTrackingIncomplete := true);
        return;
      }
      s := s.(parents := s.parents[child := parent]);
    }

    /** `recordObjectParent`: an ancestry edge between two handles that are both current. */
    method RecordObjectParent(child: NodeID, parent: NodeID)
      requires Valid(s, g)
      modifies this
      ensures Valid(s, g) && Advances(Now(old(s)), Now(s)) && Extends(old(s).incarnations, s.incarnations)
      ensures g.latest == if child.Valid() && parent.Valid() && Accepts(Now(old(s)), child) && Accepts(Now(old(s)), parent)
                          then old(g).latest[child.obj := parent.obj] else old(g).latest
      ensures s.cache == old(s).cache && s.cacheItems == old(s).cacheItems && Signals(s, g) == Signals(old(s), old(g))
    {
      if !child.Valid() || !parent.Valid() { return; }
      if Accepts(Now(s), child) && Accepts(Now(s), parent) {
        var n := IncarnationOf(child.obj);
        if n == child.Effective() {
          var m := IncarnationOf(parent.obj);
          if m == parent.Effective() {
            RecordParent(child.obj, parent.obj);
          }
        }
      }
    }

    // ------------------------------------------------------- removal of a subtree

    /** `adjustCachedChildCountLocked`. */
    method AdjustChildCount(parent: Ident, delta: int)
      modifies `s
      ensures CountStep(old(s), s, parent, delta)
    {
      hide Grows, Looked, Refused, PlainPath, CountStep;
      CountsNothing(s, parent, delta);
      if !PlainPath(parent.path) || !Complete(s.cacheApps, parent.bus) { return; }
      var id := NodeIDOf(parent);
      CountsDone(old(s), s, parent, delta);
      if id !in s.cacheItems || s.cacheItems[id].childCount < 0 {
        s := s.(cacheApps := s.cacheApps[parent.bus := false], cacheItems := s.cacheItems - {id});
        return;
      }
      var updated := s.cacheItems[id].childCount + delta;
      if updated < 0 || updated > MAX_INT32 {
        s := s.(cacheApps := s.cacheApps[parent.bus := false], cacheItems := s.cacheItems - {id});
        return;
      }
      s := s.(cacheItems := s.cacheItems[id := s.cacheItems[id].(childCount := updated)]);
    }

    /** `invalidateCacheApplicationLocked`. */
    method InvalidateApplication(bus: Str)
      modifies `s
      ensures s == old(s).(childIndex := None, childIndexGen := 0, cache := map[],
        cacheApps := old(s).cacheApps[bus := false], cacheItems := WithoutBus(old(s).cacheItems, {bus}))
    {
      s := s.(childIndex := None, childIndexGen := 0, cache := map[],
        cacheApps := s.cacheApps[bus := false], cacheItems := WithoutBus(s.cacheItems, {bus}));
    }

    /** Invalidates several applications. */
    method InvalidateApplications(buses: set<Str>)
      modifies `s
      ensures s == old(s).(childIndex := s.childIndex, childIndexGen := s.childIndexGen, cache := s.cache,
        cacheApps := s.cacheApps, cacheItems := WithoutBus(old(s).cacheItems, buses))
      ensures forall b :: Complete(s.cacheApps, b) <==> Complete(old(s).cacheApps, b) && b !in buses
    {
      var todo := buses;
      assert WithoutBus(s.cacheItems, {}) == s.cacheItems;
      while todo != {}
        invariant todo <= buses
        invariant s == old(s).(childIndex := s.childIndex, childIndexGen := s.childIndexGen, cache := s.cache,
          cacheApps := s.cacheApps, cacheItems := WithoutBus(old(s).cacheItems, buses - todo))
        invariant forall b :: Complete(s.cacheApps, b) <==> Complete(old(s).cacheApps, b) && b !in buses - todo
        decreases todo
      {
        var bus :| bus in todo;
        InvalidateApplication(bus);
        WithoutBusTwice(old(s).cacheItems, buses - todo, bus);
        assert buses - todo + {bus} == buses - (todo - {bus});
        todo := todo - {bus};
      }
      assert buses - todo == buses;
    }

    /** `detachForeignParentEdgesLocked`: children on other buses stay, but no longer under a removed object. */
    method DetachForeign(removed: set<Ident>)
      modifies this
      ensures s == old(s).(parents := old(s).parents - Orphans(old(s).parents, removed), cacheItems := s.cacheItems,
        cacheApps := s.cacheApps, childIndex := s.childIndex, childIndexGen := s.childIndexGen, cache := s.cache)
      ensures g == old(g).(latest := old(g).latest - Orphans(old(g).latest, removed))
      ensures var affected := AffectedBuses(old(s).parents, old(s).cacheItems, removed);
        && s.cacheItems == WithoutBus(old(s).cacheItems, affected)
        && forall b :: Complete(s.cacheApps, b) <==> Complete(old(s).cacheApps, b) && b !in affected
    {
      var affected := AffectedBuses(s.parents, s.cacheItems, removed);
      s := s.(parents := s.parents - Orphans(s.parents, removed));
      g := g.(latest := g.latest - Orphans(g.latest, removed));
      InvalidateApplications(affected);
    }

    /** Takes each surviving parent's lost children off its count. */
    method ApplyLosses(losses: map<Ident, nat>)
      requires Keyed(s.cacheItems, s.generation, s.incarnations)
      modifies `s
      ensures Settling(old(s), s, losses)
      ensures OnlyMove(old(s), s, losses, {})
    {
      hide Settling, Keyed, CountStep, CountMoved, OnlyMove;
      OnlyMoveNothing(s, losses);
      SettleNothing(s, losses);
      var todo := losses.Keys;
      while todo != {}
        invariant todo <= losses.Keys && Settling(old(s), s, losses - todo)
        invariant OnlyMove(old(s), s, losses, todo)
        decreases todo
      {
        var p :| p in todo;
        var count: int := losses[p];
        label Before:
        AdjustChildCount(p, -count);
        SettleStep(old(s), old@Before(s), s, losses, todo, p);
        OnlyMoveStep(old(s), old@Before(s), s, losses, todo, p);
        todo := todo - {p};
      }
      assert losses - {} == losses;
    }

    /** `adjustCachedChildrenForRevocationLocked`. */
    method AdjustForRevocation(ghost root: Ident, removed: set<Ident>) returns (ghost above: Option<Ident>)
      requires Keyed(s.cacheItems, s.generation, s.incarnations) && forall x :: x in removed ==> x.bus == root.bus
      requires Rooted(s.parents, s.cacheItems, removed, root) && root in removed
      modifies `s
      ensures Adjustment(old(s), s, removed, root.bus)
      ensures CountedOnce(old(s), s, root, removed, ContradictedBuses(old(s).parents, old(s).cacheItems, old(s).cacheItems.Keys), above)
    {
      hide Linking, Settling, Counts, Adjustment, Keyed, OnePerObject, CountedOnce, CountMoved, OnlyMove, Rooted, Complete, PlainPath,
        ContradictedBuses;
      KeyedUnique(s.cacheItems, s.generation, s.incarnations);
      var links, left, apps := LinkChildren(s.parents, s.cacheItems, s.cacheApps);
      if left != s.cacheItems {
        s := s.(childIndex := None, childIndexGen := 0, cache := map[]);
      }
      LeftKeyed(links, s.parents, s.cacheItems, left, s.cacheApps, apps, s.generation, s.incarnations);
      s := s.(cacheItems := left, cacheApps := apps);
      var losses := CountLosses(links, removed);
      label Counted:
      ApplyLosses(losses);
      AdjustmentDone(old(s), old@Counted(s), s, links, losses, removed, root.bus);
      OneLoss(links, old(s).parents, old(s).cacheItems, left, old(s).cacheApps, apps, losses, removed, root);
      above := if root in links && links[root] !in removed && PlainPath(links[root].path) && Complete(apps, links[root].bus)
        then Some(links[root]) else None;
      CountedDone(old(s), old@Counted(s), s, links, losses, root, removed, above);
    }

    /** Moves every removed object on to its next incarnation and forgets its parent. */
    method MoveOn(removed: set<Ident>)
      modifies `s
      ensures MovedOn(old(s), s, removed) && Entered(old(s), s, removed)
    {
      hide MovedOn, Entered, Remember, Grows;
      MoveNothing(s);
      var todo := removed;
      assert removed - todo == {};
      while todo != {}
        invariant todo <= removed && MovedOn(old(s), s, removed - todo) && Entered(old(s), s, removed - todo)
        decreases todo
      {
        var x :| x in todo;
        label Before:
        var current := IncarnationOf(x);
        s := s.(incarnations := s.incarnations[x := current + 1], parents := s.parents - {x});
        MoveStep(old(s), old@Before(s), s, removed - todo, x);
        EnterStep(old(s), old@Before(s), s, removed - todo, x, current + 1);
        assert removed - (todo - {x}) == (removed - todo) + {x};
        todo := todo - {x};
      }
      assert removed - todo == removed;
    }

    /** `revokeObjectLocked`: either nothing happens, or exactly the recorded tree moves on. */
    method RevokeObject(root: Ident) returns (ok: bool, ghost removed: set<Ident>, ghost above: Option<Ident>)
      requires Core(s, g)
      modifies this
      ensures !ok ==> s == old(s) && g == old(g)
      ensures ok ==> Revoked(old(s), old(g), s, g, root, removed) && Settles(old(s), s, root, removed, above)
      ensures ok <==> root.Valid() && Targetable(old(s), root)
    {
      if !root.Valid() || s.parentTrackingIncomplete { return false, {}, None; }
      var tree := RemovedTree(s.parents, s.cacheItems, root);
      assert IsTree(s, root, tree);
      assert forall t :: IsTree(s, root, t) ==> t == tree;
      if |s.incarnations| + |Untracked(s.incarnations, tree)| > MAX_TRACKED { return false, tree, None; }
      above := RevokeTree(root, tree);
      return true, tree, above;
    }

    /** The part of `revokeObjectLocked` after its checks. */
    method RevokeTree(root: Ident, tree: set<Ident>) returns (ghost above: Option<Ident>)
      requires Core(s, g) && root.Valid() && !s.parentTrackingIncomplete && IsTree(s, root, tree) && CanTrack(s, tree)
      modifies this
      ensures Revoked(old(s), old(g), s, g, root, tree) && Settles(old(s), s, root, tree, above)
    {
      hide Core, Detached, Adjustment, MovedOn, Entered, CountedOnce, Revoked, Settles, Keyed, Untracked, IsTree, TreeOver, CanTrack, Rooted;
      CoreKeyed(s, g);
      TreeOnOneBus(s, root, tree);
      TreeRooted(s, root, tree);
      DetachForeign(tree);
      DetachKeeps(old(s), old(g), s, g, root.bus, tree);
      RootedDetached(old(s), old(g), s, g, root, tree);
      label Detached:
      above := AdjustForRevocation(root, tree);
      label Adjusted:
      MoveOn(tree);
      label Moved:
      g := g.(latest := g.latest - tree);
      s := s.(cacheItems := WithoutObjects(s.cacheItems, tree), childIndex := None, childIndexGen := 0, cache := map[]);
      TreeTaken(old(s), old(g), old@Detached(s), old@Adjusted(s), old@Moved(s), s, g, root, tree, above);
    }

    /** The same on tables that no run reaches: the check passes, and the table grows past its cap. */
    method RevokeCrowded()
      requires s == CrowdedTables()
      modifies this
      ensures |s.incarnations| == MAX_TRACKED + 1 && s.parentTrackingIncomplete
    {
      hide CountedOnce, Entered, MovedOn, Adjustment, CanTrack, Bereaved, Targetable, Crowd, Descends;
      CrowdedTree();
      CrowdedStart();
      var tree := RemovedTree(s.parents, s.cacheItems, CROWDED_ROOT);
      assert tree == {CROWDED_ROOT} && CanTrack(s, tree);
      DetachForeign(tree);
      assert Orphans(old(s).parents, tree) == {} && AffectedBuses(old(s).parents, old(s).cacheItems, tree) == {};
      assert s.parents == old(s).parents && s.cacheItems == map[];
      label Detached:
      assert Rooted(s.parents, s.cacheItems, tree, CROWDED_ROOT);
      ghost var above := AdjustForRevocation(CROWDED_ROOT, tree);
      label Adjusted:
      MoveOn(tree);
      CrowdedOut(old@Detached(s), old@Adjusted(s), s, above);
    }

    /** `revokeOrInvalidateLocked`. */
    method RevokeOrInvalidate(x: Ident)
      requires Core(s, g)
      modifies this
      ensures Core(s, g) && HandlesAfter(old(s), old(g), s, TreeOf(x)) && SameLog(old(s), old(g), s, g)
      ensures s.generation == old(s).generation <==> x.Valid() && Targetable(old(s), x)
    {
      if !x.Valid() {
        InvalidateAllHandles();
        return;
      }
      var ok, tree, _ := RevokeObject(x);
      if ok {
        RevokedHandles(old(s), old(g), s, g, x, tree);
      } else {
        InvalidateAllHandles();
      }
    }

    // -------------------------------------------------------------------- signals

    /** `transitionObjectHandlesLocked`. */
    method TransitionHandles(sig: Signal)
      requires Core(s, g)
      modifies this
      ensures Core(s, g) && HandlesAfter(old(s), old(g), s, Removal(sig)) && SameLog(old(s), old(g), s, g)
      ensures Removal(sig).Nothing? ==> s == old(s) && g == old(g)
      ensures Removal(sig).Tree? ==> (s.generation == old(s).generation <==> Targetable(old(s), Removal(sig).root))
    {
      match Removal(sig) {
        case Nothing =>
        case Everything => InvalidateAllHandles();
        case Tree(root) => RevokeOrInvalidate(root);
      }
    }

    /** The part of `recordCacheRemovalObservationLocked` that looks the removed object up. */
    method LookUpParent(sig: Signal) returns (known: Ident)
      modifies `s
      ensures s == LookedFor(old(s), sig) && Issues(old(s), s)
      ensures known == KnownParent(old(s), sig)
    {
      hide Remember;
      known := NO_IDENT;
      if sig.Signal? && sig.kind.CacheRemove? {
        var ref := DecodeRef(sig.kind.removed);
        if ref.Some? && ref.value.bus == sig.sender {
          var id := NodeIDOf(ref.value);
          if id in s.cacheItems { known := ParentIdentity(s.cacheItems[id].parent); }
        }
      }
    }

    /** Takes note of a signal under the next revision. */
    method RecordObservation(sig: Signal, about: Ident)
      requires Core(s, g)
      modifies this
      ensures Core(s, g) && Live(s) == Live(old(s))
      ensures Noted(old(s), old(g), s, g, sig, ChangeFor(old(s), sig, about))
    {
      hide Observation.Log, Observation.ChangeOf, KnownParent;
      var known := LookUpParent(sig);
      label Found:
      ghost var dropped := AppendChange(Observation.ChangeOf(sig, about, s.observationRevision + 1, known));
      NotedDone(old(s), old(g), old@Found(s), s, g, sig, ChangeFor(old(s), sig, about), dropped);
    }

    /** Appends one change to the bounded history. */
    method AppendChange(change: Observation.Change) returns (ghost dropped: seq<Observation.Change>)
      requires Observation.Log(g.forgotten, s.observationHistory, s.observationFloor, s.observationRevision)
      requires change.revision == s.observationRevision + 1
      modifies this
      ensures Observation.Log(g.forgotten, s.observationHistory, s.observationFloor, s.observationRevision)
      ensures s == old(s).(observationRevision := change.revision, observationHistory := s.observationHistory,
        observationFloor := s.observationFloor)
      ensures g == old(g).(forgotten := old(g).forgotten + dropped)
      ensures dropped + s.observationHistory == old(s).observationHistory + [change]
    {
      var history, floor;
      dropped, history, floor :=
        Observation.Record(g.forgotten, s.observationHistory, s.observationFloor, s.observationRevision, change);
      s := s.(observationRevision := s.observationRevision + 1, observationHistory := history, observationFloor := floor);
      g := g.(forgotten := g.forgotten + dropped);
    }

    /** Gives the cached items the handles of the current epoch. */
    method Rekey()
      requires Keyed(s.cacheItems, s.generation, s.incarnations)
      modifies `s
      ensures Issues(old(s), s)
    {
      hide Issues, Remember;
      ghost var items := s.cacheItems;
      var rekeyed: map<NodeID, CacheItem> := map[];
      IssuesNothing(s);
      var todo := s.cacheItems.Keys;
      while todo != {}
        invariant s.cacheItems == items && todo <= items.Keys && rekeyed == items - todo
        invariant Issues(old(s), s)
        decreases todo
      {
        var key :| key in todo;
        label Before:
        var id := NodeIDOf(s.cacheItems[key].obj);
        RekeyStep(items, todo, key);
        SameItems(old@Before(s), s);
        IssuesTwice(old(s), old@Before(s), s);
        SameKey(old(s), s, s.cacheItems[key].obj);
        rekeyed, todo := rekeyed[id := s.cacheItems[key]], todo - {key};
      }
      assert rekeyed == s.cacheItems;
      s := s.(cacheItems := rekeyed);
    }

    /** The part of `applyCacheAddLocked` that moves the counts of the parents before and now. */
    method CountForAdd(item: CacheItem, id: NodeID)
      requires id == Key(s.generation, s.incarnations, item.obj)
      modifies `s
      ensures CountedForAdd(old(s), s, item)
    {
      hide Grows, CountMoved, Adjusted;
      GrowsNothing(s);
      if Complete(s.cacheApps, item.obj.bus) {
        var known := id in s.cacheItems;
        var parent := if known then s.cacheItems[id].parent else NO_IDENT;
        if known && parent != item.parent { AdjustChildCount(parent, -1); }
        label Lowered:
        if !known || parent != item.parent { AdjustChildCount(item.parent, 1); }
        CountedTwice(old(s), old@Lowered(s), s, item, parent, known);
      }
    }

    /** `applyCacheAddLocked`. */
    method ApplyAdd(item: CacheItem)
      requires Core(s, g) && Live(s)
      modifies this
      ensures Core(s, g) && Added(old(s), old(g), s, g, item)
    {
      hide Core, Grows, Remember, CountedForAdd, AfterAdd;
      var id := NodeIDOf(item.obj);
      label Named:
      CountForAdd(item, id);
      label Counted:
      s := s.(cacheItems := s.cacheItems[id := item]);
      AddedCore(old(s), g, old@Named(s), old@Counted(s), s, item);
      label Put:
      CoreAncestry(s, g);
      RecordParent(item.obj, item.parent);
      ParentKeepsCore(old@Put(s), old(g), s, g, item.obj, item.parent);
      GrowsTwice(old(s), old@Put(s), s);
    }

    /** `applyCacheSignalLocked`. */
    method ApplyCacheSignal(sig: Signal)
      requires Core(s, g) && Live(s) && sig.Signal?
      modifies this
      ensures Core(s, g) && s.childIndex.None? && s.cache == map[] && CacheApplied(old(s), old(g), s, g, sig)
    {
      s := s.(childIndex := None);
      if sig.kind.CacheAdd? {
        var item := DecodeItem(sig.kind.item);
        if item.None? || item.value.obj.bus != sig.sender {
          s := s.(cacheItems := map[], cacheApps := map[], cache := map[]);
          return;
        }
        ApplyAdd(item.value);
      } else if sig.kind.CacheRemove? {
        var ref := DecodeRef(sig.kind.removed);
        if ref.None? || ref.value.bus != sig.sender {
          s := s.(cacheItems := map[], cacheApps := map[], cache := map[]);
          return;
        }
        s := s.(cacheItems := WithoutObjects(s.cacheItems, {ref.value}));
      }
      s := s.(cache := map[]);
    }

    /** `prepareEventTransition`: the one transition of every physical signal. */
    method PrepareEventTransition(sig: Signal, about: Ident) returns (active: bool, node: NodeID)
      requires Valid(s, g)
      modifies this
      ensures Valid(s, g) && Advances(Now(old(s)), Now(s))
      ensures active == Live(old(s)) && (!active ==> s == old(s) && g == old(g))
      ensures active ==> SignalDone(old(s), old(g), s, g, sig, about) && node == Key(s.generation, s.incarnations, about)
    {
      if !Live(s) { return false, NodeID(about, s.generation, 0); }
      hide HandlesAfter, SignalDone, Valid, Core, ChangeFor, Advances, Noted, Followed, Issues, Remember;
      ValidCore(s, g);
      RecordObservation(sig, about);
      label Recorded:
      TransitionHandles(sig);
      label Moved:
      FollowCache(sig);
      label Followed:
      node := NodeIDOf(about);
      IssuedValid(old@Followed(s), s, g);
      SignalEnds(old(s), old(g), old@Recorded(s), old@Recorded(g), old@Moved(s), old@Moved(g), old@Followed(s), s, g, sig, about);
      return true, node;
    }

    /** After the handles the caches: cached responses and index go, a cache signal updates the
        items, any other signal drops them. */
    method FollowCache(sig: Signal)
      requires Core(s, g) && Live(s)
      modifies this
      ensures Valid(s, g) && Followed(old(s), old(g), s, g, sig)
    {
      hide Observation.Log, CacheApplied;
      s := s.(cacheRevision := s.cacheRevision + 1, cache := map[], childIndex := None);
      if sig.Signal? && sig.cacheNamed {
        Rekey();
        label Rekeyed:
        ApplyCacheSignal(sig);
        FollowedSignal(old(s), old@Rekeyed(s), s, old(g), g, sig);
      } else {
        s := s.(cacheItems := map[], cacheApps := map[]);
      }
    }

    // ------------------------------------------------------- cache load and lookup

    /** One entry of a provider's list. */
    method LoadItem(item: CacheItem)
      requires Core(s, g) && Live(s)
      modifies this
      ensures Core(s, g) && Live(s) && LoadedOne(old(s), old(g), s, g, item)
    {
      hide Core, Grows, Remember;
      var id := NodeIDOf(item.obj);
      label Named:
      IssuedCore(old(s), s, g);
      if id.Valid() {
        s := s.(cacheItems := s.cacheItems[id := item]);
        PutCore(old@Named(s), s, g, id, item);
        label Put:
        CoreAncestry(s, g);
        RecordParent(item.obj, item.parent);
        ParentKeepsCore(old@Put(s), old(g), s, g, item.obj, item.parent);
        GrowsTwice(old@Named(s), old@Put(s), s);
        GrowsTwice(old(s), old@Named(s), s);
      }
      LoadedDone(old(s), old(g), old@Named(s), s, g, item);
    }

    /** `replaceCompleteCacheLocked`. */
    method ReplaceCompleteCache(bus: Str, list: seq<CacheItem>)
      requires Core(s, g) && Live(s)
      modifies this
      ensures Core(s, g) && Loading(old(s), old(g), s, g, bus, list) && Complete(s.cacheApps, bus)
    {
      hide Core, Loading, LoadedOne;
      s := s.(childIndex := None, cacheItems := WithoutBus(s.cacheItems, {bus}), parents := WithoutParentsOf(s.parents, bus));
      g := g.(latest := WithoutParentsOf(g.latest, bus));
      LoadStarts(old(s), old(g), s, g, bus);
      for i := 0 to |list|
        invariant Core(s, g) && Live(s) && Loading(old(s), old(g), s, g, bus, list[..i]) && s.cacheApps == old(s).cacheApps
      {
        label Before:
        LoadItem(list[i]);
        assert list[..i + 1][..i] == list[..i];
        LoadStep(old(s), old(g), old@Before(s), old@Before(g), s, g, bus, list[..i + 1]);
      }
      assert list[..|list|] == list;
      LoadEnds(old(s), old(g), s, g, bus, list);
      s := s.(cacheApps := s.cacheApps[bus := true]);
    }

    /** `publishLoadedCache`: a list of the provider takes effect only if it is sound, the epoch
        is still the one it was asked in, and no signal has changed the cache since. */
    method PublishLoadedCache(bus: Str, list: seq<CacheItem>, expectedGeneration: nat, expectedRevision: nat) returns (r: LoadResult)
      requires Valid(s, g)
      modifies this
      ensures Valid(s, g) && Advances(Now(old(s)), Now(s)) && Signals(s, g) == Signals(old(s), old(g))
      ensures r != Rejected <==> Sound(bus, list)
      ensures r == Done <==> Sound(bus, list) && Live(old(s)) && old(s).generation == expectedGeneration
      ensures r != Done || old(s).cacheRevision != expectedRevision ==> s == old(s) && g == old(g)
      ensures r == Done && old(s).cacheRevision == expectedRevision ==>
        Loading(old(s), old(g), s, g, bus, list) && Complete(s.cacheApps, bus)
    {
      var ok := CacheValidation.ValidateLoadedItems(bus, list);
      if !ok { return Rejected; }
      if s.generation != expectedGeneration || !Live(s) { return Stale; }
      if s.cacheRevision != expectedRevision { return Done; }
      ReplaceCompleteCache(bus, list);
      return Done;
    }

    /** `cachedChildren`: from the index when it is of this epoch, else after building it. */
    method CachedChildren(id: NodeID) returns (children: Option<seq<Ident>>)
      requires Valid(s, g)
      modifies `s
      ensures Valid(s, g) && s == old(s).(childIndex := s.childIndex, childIndexGen := s.childIndexGen)
      ensures children.Some? <==> s.cacheItems != map[] && Complete(s.cacheApps, id.obj.bus) && Accepts(Now(s), id)
                                  && Kids(s.cacheItems, s.generation, id.obj) != {}
      ensures children.Some? ==> IsAnswer(children.value, s.cacheItems, Kids(s.cacheItems, s.generation, id.obj))
    {
      if s.cacheItems == map[] || !Complete(s.cacheApps, id.obj.bus) || !Accepts(Now(s), id) { return None; }
      if s.childIndex.None? || s.childIndexGen != id.generation {
        var index := BuildIndex(s.cacheItems, id.generation);
        s := s.(childIndex := Some(index), childIndexGen := id.generation);
      }
      if id.obj in s.childIndex.value {
        NonEmptyAnswer(s.childIndex.value[id.obj], s.cacheItems, Kids(s.cacheItems, s.generation, id.obj));
      }
      if id.obj !in s.childIndex.value || s.childIndex.value[id.obj] == [] { return None; }
      return Some(s.childIndex.value[id.obj]);
    }

    /** `cachedItem`: only a current handle finds its object, whichever way it spells the first incarnation. */
    method CachedItem(id: NodeID) returns (item: Option<CacheItem>)
      requires Valid(s, g)
      ensures item.Some? <==> Accepts(Now(s), id) && exists key :: key in s.cacheItems && key.obj == id.obj
      ensures item.Some? ==> item.value.obj == id.obj && item.value in s.cacheItems.Values
    {
      if !Accepts(Now(s), id) { return None; }
      var key := if id.incarnation == 0 then id.(incarnation := 1) else id;
      if key in s.cacheItems { return Some(s.cacheItems[key]); }
      if id.incarnation == 0 && id in s.cacheItems { return Some(s.cacheItems[id]); }
      return None;
    }

    // ------------------------------------------------------------------ snapshots

    /** `observationChangesErrorLocked`: did anything happen that the snapshot does not show? */
    method ObservationChanged(expected: nat, root: NodeID, snapshot: Snapshot, reread: bool) returns (changed: bool)
      requires Valid(s, g)
      ensures changed <==> Overtaken(s, g, expected, root, snapshot, reread)
    {
      LogOrder(s, g);
      Observation.FloorIsExact(g.forgotten, s.observationHistory, s.observationFloor, s.observationRevision, expected);
      if expected == s.observationRevision { return false; }
      if expected < s.observationFloor { return true; }
      var nodes := Observation.Observed(snapshot);
      for i := 0 to |s.observationHistory|
        invariant forall c :: c in s.observationHistory[..i] && expected < c.revision ==>
          !Observation.Conflicts(c, root.obj, snapshot.root.role, nodes, reread)
      {
        var c := s.observationHistory[i];
        assert s.observationHistory[..i + 1] == s.observationHistory[..i] + [c];
        if expected < c.revision && Observation.Conflicts(c, root.obj, snapshot.root.role, nodes, reread) {
          assert c in Signals(s, g);
          return true;
        }
      }
      assert s.observationHistory[..|s.observationHistory|] == s.observationHistory;
      return false;
    }

    /** `publishSnapshot`. */
    method PublishSnapshot(key: Str, expectedGeneration: nat, expectedObservation: nat, root: NodeID, reread: bool, snapshot: Snapshot)
      returns (r: PublishResult)
      requires Valid(s, g)
      modifies this
      ensures Valid(s, g) && Now(s) == Now(old(s)) && Signals(s, g) == Signals(old(s), old(g))
      ensures r != Published ==> s == old(s) && g == old(g)
      ensures r == Published ==> s == old(s).(cache := old(s).cache[key := snapshot])
      ensures r == Published <==> (
        && Live(old(s)) && old(s).generation == expectedGeneration && Accepts(Now(old(s)), root)
        && !Overtaken(old(s), old(g), expectedObservation, root, snapshot, reread))
    {
      if !Live(s) { return Disconnected; }
      if s.generation != expectedGeneration { return StaleGeneration; }
      if !Accepts(Now(s), root) { return StaleNode; }
      var changed := this.ObservationChanged(expectedObservation, root, snapshot, reread);
      if changed { return PublishResult.ObservationChanged; }
      s := s.(cache := s.cache[key := snapshot]);
      g := g.(published := g.published[key := s.observationRevision]);
      return Published;
    }

    /** The cached answer to a request that accepts one and finds it young enough; whatever is
        served was published after the last signal. */
    method ServeSnapshot(key: Str, expectedGeneration: nat, young: bool) returns (r: Option<Snapshot>)
      requires Valid(s, g)
      ensures r.Some? <==> key in s.cache && young && s.cache[key].generation == expectedGeneration
      ensures r.Some? ==> r.value == s.cache[key] && key in g.published
      ensures r.Some? ==> forall c :: c in Signals(s, g) ==> c.revision <= g.published[key]
    {
      LogOrder(s, g);
      if key in s.cache && young && s.cache[key].generation == expectedGeneration { return Some(s.cache[key]); }
      return None;
    }

    // ----------------------------------------------------------------- whole runs

    /** Handing out a handle under the lock. */
    method IssueHandle(x: Ident) returns (id: NodeID)
      requires Valid(s, g)
      modifies `s
      ensures Valid(s, g) && Advances(Now(old(s)), Now(s)) && NotAhead(Now(s), id) && id.obj == x && Issues(old(s), s)
      ensures Live(s) ==> Accepts(Now(s), id)
    {
      id := NodeIDOf(x);
    }

    /** One locked section of whatever kind. */
    method Take(step: Step)
      requires Valid(s, g)
      modifies this
      ensures Valid(s, g) && Advances(Now(old(s)), Now(s)) && Taken(Moment(old(s), old(g)), step, Moment(s, g))
    {
      hide Valid, Advances, SignalDone, Overtaken;
      match step {
        case Signalled(sig, about) =>
          var active, _ := PrepareEventTransition(sig, about);
          if active { SignalKept(old(s), old(g), s, g, sig, about); }
        case Invalidated => Invalidate();
        case ConnectionLost => MarkDisconnected();
        case ClosedDown => Close();
        case ListArrived(bus, list, generation, revision) => var _ := PublishLoadedCache(bus, list, generation, revision);
        case ParentSeen(child, parent) => RecordObjectParent(child, parent);
        case SnapshotRead(key, generation, observation, root, reread, snapshot) =>
          var _ := PublishSnapshot(key, generation, observation, root, reread, snapshot);
          SameAdvances(Now(s));
        case ChildrenAsked(id) =>
          var _ := CachedChildren(id);
          SameAdvances(Now(s));
        case HandleIssued(x) => var _ := IssueHandle(x);
      }
    }

    /** Every run of locked sections, in whatever order: each moment follows from the one before, and
        the epochs are an advancing history. */
    method Run(steps: seq<Step>) returns (ghost run: seq<Epoch>, ghost moments: seq<Moment>)
      requires Valid(s, g)
      modifies this
      ensures Valid(s, g) && |run| == |steps| + 1 && run[0] == Now(old(s)) && run[|steps|] == Now(s) && History(run)
      ensures Trace(steps, moments) && moments[0] == Moment(old(s), old(g)) && moments[|steps|] == Moment(s, g)
      ensures run == Epochs(moments)
    {
      hide Valid, Advances, Taken;
      moments := [Moment(s, g)];
      for i := 0 to |steps|
        invariant Valid(s, g) && Trace(steps[..i], moments) && moments[0] == Moment(old(s), old(g)) && moments[i] == Moment(s, g)
      {
        label Before:
        Take(steps[i]);
        TraceStep(steps[..i], moments, steps[i], Moment(s, g));
        assert steps[..i + 1] == steps[..i] + [steps[i]];
        moments := moments + [Moment(s, g)];
      }
      assert steps[..|steps|] == steps;
      TraceHistory(steps, moments);
      run := Epochs(moments);
    }
  }
}
