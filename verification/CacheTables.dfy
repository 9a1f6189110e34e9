/** The tables behind handles and cached children, and what changes them. */
module CacheTables {
  import opened Basics
  import opened AtSpi
  import opened HandleEpochs

  /** Cap on the incarnation and ancestry tables. */
  const MAX_TRACKED := 100000
  const MAX_INT32 := 0x7fff_ffff

  predicate Complete(apps: map<Str, bool>, bus: Str) { bus in apps && apps[bus] }

  /** The handle an epoch issues for an object. */
  function Key(generation: nat, incarnations: map<Ident, nat>, x: Ident): NodeID {
    NodeID(x, generation, Incarnation(incarnations, x))
  }

  /** Cached items stand under the current handle of the object they are about. */
  ghost predicate Keyed(items: map<NodeID, CacheItem>, generation: nat, incarnations: map<Ident, nat>) {
    forall id :: id in items ==> id == Key(generation, incarnations, items[id].obj)
  }

  /** More objects on record, none with a different incarnation. */
  ghost predicate Extends(a: map<Ident, nat>, b: map<Ident, nat>) {
    a.Keys <= b.Keys && forall x :: Incarnation(a, x) == Incarnation(b, x)
  }

  lemma ExtendsTransitive(a: map<Ident, nat>, b: map<Ident, nat>, c: map<Ident, nat>)
    requires Extends(a, b) && Extends(b, c)
    ensures Extends(a, c)
  {
    forall x ensures Incarnation(a, x) == Incarnation(c, x) {
      assert Incarnation(a, x) == Incarnation(b, x);
    }
  }

  lemma BumpedBetween(a: map<Ident, nat>, b: map<Ident, nat>, c: map<Ident, nat>, d: map<Ident, nat>, removed: set<Ident>)
    requires Extends(a, b) && Bumped(b, c, removed) && Extends(c, d)
    ensures Bumped(a, d, removed)
  {
    forall x ensures Incarnation(d, x) == Incarnation(a, x) + if x in removed then 1 else 0 {
      assert Incarnation(a, x) == Incarnation(b, x) && Incarnation(c, x) == Incarnation(d, x);
    }
  }

  function WithoutBus(items: map<NodeID, CacheItem>, buses: set<Str>): map<NodeID, CacheItem> {
    map id | id in items && id.obj.bus !in buses :: items[id]
  }

  function WithoutObjects(items: map<NodeID, CacheItem>, removed: set<Ident>): map<NodeID, CacheItem> {
    map id | id in items && id.obj !in removed :: items[id]
  }

  /** Children on other buses of the removed objects, by observation. */
  function Orphans(parents: map<Ident, Ident>, removed: set<Ident>): set<Ident> {
    set c | c in parents && c.bus != parents[c].bus && parents[c] in removed
  }

  /** Buses that lose a cached place under a removed object of another bus. */
  function AffectedBuses(parents: map<Ident, Ident>, items: map<NodeID, CacheItem>, removed: set<Ident>): set<Str> {
    (set c | c in Orphans(parents, removed) :: c.bus)
    + set id | id in items && id.obj.bus != ParentIdentity(items[id].parent).bus
               && ParentIdentity(items[id].parent) in removed :: id.obj.bus
  }

  /** The cached parent of this item is not the observed one. */
  predicate Contradicted(parents: map<Ident, Ident>, items: map<NodeID, CacheItem>, id: NodeID)
    requires id in items
  {
    id.obj in parents && parents[id.obj] != items[id].parent
  }

  function ContradictedBuses(parents: map<Ident, Ident>, items: map<NodeID, CacheItem>, ids: set<NodeID>): set<Str>
    requires ids <= items.Keys
  {
    set id | id in ids && Contradicted(parents, items, id) :: id.obj.bus
  }

  lemma ContradictedStep(parents: map<Ident, Ident>, items: map<NodeID, CacheItem>, ids: set<NodeID>, id: NodeID)
    requires ids <= items.Keys && id in items
    ensures ContradictedBuses(parents, items, ids + {id}) ==
      ContradictedBuses(parents, items, ids) + if Contradicted(parents, items, id) then {id.obj.bus} else {}
  {}

  /** The applications whose cache a removal drops: under a removed object of another bus, or contradicted. */
  function DroppedBuses(parents: map<Ident, Ident>, items: map<NodeID, CacheItem>, removed: set<Ident>): set<Str> {
    AffectedBuses(parents, items, removed) + ContradictedBuses(parents, items, items.Keys)
  }

  /** An application is dropped exactly if one of its objects was observed, or is cached, right under a removed
      object of another bus, or if the cache and the observation disagree about one of its objects. */
  lemma DroppedExactly(parents: map<Ident, Ident>, items: map<NodeID, CacheItem>, removed: set<Ident>, b: Str)
    ensures b in DroppedBuses(parents, items, removed) <==>
      (|| (exists c :: c in parents && c.bus == b && parents[c] in removed && parents[c].bus != b)
       || (exists id :: id in items && id.obj.bus == b
             && ParentIdentity(items[id].parent) in removed && ParentIdentity(items[id].parent).bus != b)
       || (exists id :: id in items && id.obj.bus == b && id.obj in parents && parents[id.obj] != items[id].parent))
  {
    hide ParentIdentity;
  }

  /** Detaching first changes nothing about which applications are dropped. */
  lemma DetachThenContradict(parents: map<Ident, Ident>, items: map<NodeID, CacheItem>, parents': map<Ident, Ident>,
    items': map<NodeID, CacheItem>, removed: set<Ident>)
    requires parents' == parents - Orphans(parents, removed)
    requires items' == WithoutBus(items, AffectedBuses(parents, items, removed))
    requires forall id :: id in items ==> items[id].obj == id.obj
    ensures AffectedBuses(parents, items, removed) + ContradictedBuses(parents', items', items'.Keys)
      == DroppedBuses(parents, items, removed)
    ensures WithoutBus(items', ContradictedBuses(parents', items', items'.Keys))
      == WithoutBus(items, DroppedBuses(parents, items, removed))
  {
    var affected := AffectedBuses(parents, items, removed);
    forall id | id in items && id.obj.bus !in affected
      ensures id in items' && (Contradicted(parents', items', id) <==> Contradicted(parents, items, id))
    {
      assert id.obj !in Orphans(parents, removed);
    }
    assert affected + ContradictedBuses(parents', items', items'.Keys) == DroppedBuses(parents, items, removed);
  }

  ghost predicate OnePerObject(items: map<NodeID, CacheItem>) {
    forall i, j :: i in items && j in items && i.obj == j.obj ==> i == j
  }

  /** One link for every child: the observed parent, else the cached one. */
  ghost predicate Linked(links: map<Ident, Ident>, parents: map<Ident, Ident>, items: map<NodeID, CacheItem>, ids: set<NodeID>) {
    && (forall c :: c in parents ==> c in links && links[c] == parents[c])
    && (forall id :: id in ids && id in items && id.obj !in parents ==> id.obj in links && links[id.obj] == items[id].parent)
  }

  /** Every link is on record, by observation or by one of the given items. */
  ghost predicate Grounded(links: map<Ident, Ident>, parents: map<Ident, Ident>, items: map<NodeID, CacheItem>, ids: set<NodeID>) {
    forall c :: c in links && c !in parents ==> exists id :: id in ids && id in items && id.obj == c && items[id].parent == links[c]
  }

  /** Where the collection of links stands after the items in `done`. */
  ghost predicate Linking(links: map<Ident, Ident>, parents: map<Ident, Ident>, items: map<NodeID, CacheItem>,
    left: map<NodeID, CacheItem>, apps: map<Str, bool>, appsLeft: map<Str, bool>, done: set<NodeID>)
  {
    && done <= items.Keys && left == WithoutBus(items, ContradictedBuses(parents, items, done))
    && (forall b :: Complete(appsLeft, b) <==> Complete(apps, b) && b !in ContradictedBuses(parents, items, done))
    && Linked(links, parents, left, done) && Grounded(links, parents, items, done)
  }

  lemma LinkingDrops(links: map<Ident, Ident>, parents: map<Ident, Ident>, items: map<NodeID, CacheItem>,
    left: map<NodeID, CacheItem>, apps: map<Str, bool>, appsLeft: map<Str, bool>)
    requires Linking(links, parents, items, left, apps, appsLeft, items.Keys)
    ensures left == WithoutBus(items, ContradictedBuses(parents, items, items.Keys))
    ensures forall b :: Complete(appsLeft, b) <==> Complete(apps, b) && b !in ContradictedBuses(parents, items, items.Keys)
  {}

  lemma LinkNew(links: map<Ident, Ident>, parents: map<Ident, Ident>, items: map<NodeID, CacheItem>,
    left: map<NodeID, CacheItem>, apps: map<Str, bool>, appsLeft: map<Str, bool>, done: set<NodeID>, id: NodeID)
    requires Linking(links, parents, items, left, apps, appsLeft, done) && id in left && id !in done && id.obj !in links
    requires forall i :: i in done ==> i.obj != id.obj
    ensures Linking(links[id.obj := items[id].parent], parents, items, left, apps, appsLeft, done + {id})
  {
    ContradictedStep(parents, items, done, id);
  }

  lemma LinkContradicted(links: map<Ident, Ident>, parents: map<Ident, Ident>, items: map<NodeID, CacheItem>,
    left: map<NodeID, CacheItem>, apps: map<Str, bool>, appsLeft: map<Str, bool>, done: set<NodeID>, id: NodeID)
    requires Linking(links, parents, items, left, apps, appsLeft, done) && id in left && id !in done
    requires id.obj in links && links[id.obj] != items[id].parent
    requires forall i :: i in done ==> i.obj != id.obj
    ensures Linking(links, parents, items, WithoutBus(left, {id.obj.bus}), apps, appsLeft[id.obj.bus := false], done + {id})
  {
    ContradictedStep(parents, items, done, id);
  }

  lemma LinkNothing(links: map<Ident, Ident>, parents: map<Ident, Ident>, items: map<NodeID, CacheItem>,
    left: map<NodeID, CacheItem>, apps: map<Str, bool>, appsLeft: map<Str, bool>, done: set<NodeID>, id: NodeID)
    requires Linking(links, parents, items, left, apps, appsLeft, done) && id in items && id !in done
    requires id !in left || (id.obj in links && links[id.obj] == items[id].parent)
    requires forall i :: i in done ==> i.obj != id.obj
    ensures Linking(links, parents, items, left, apps, appsLeft, done + {id})
  {
    ContradictedStep(parents, items, done, id);
  }

  /** The parent of every child on record; an application whose cache contradicts observation
      is dropped from the cache. */
  method LinkChildren(parents: map<Ident, Ident>, items: map<NodeID, CacheItem>, apps: map<Str, bool>)
    returns (links: map<Ident, Ident>, left: map<NodeID, CacheItem>, appsLeft: map<Str, bool>)
    requires OnePerObject(items)
    ensures Linking(links, parents, items, left, apps, appsLeft, items.Keys)
  {
    links, left, appsLeft := parents, items, apps;
    var todo := items.Keys;
    ghost var done: set<NodeID> := {};
    assert WithoutBus(items, {}) == items;
    while todo != {}
      invariant todo + done == items.Keys && todo !! done
      invariant Linking(links, parents, items, left, apps, appsLeft, done)
      decreases todo
    {
      var id :| id in todo;
      if id in left && id.obj !in links {
        LinkNew(links, parents, items, left, apps, appsLeft, done, id);
        links := links[id.obj := items[id].parent];
      } else if id in left && links[id.obj] != items[id].parent {
        LinkContradicted(links, parents, items, left, apps, appsLeft, done, id);
        left, appsLeft := WithoutBus(left, {id.obj.bus}), appsLeft[id.obj.bus := false];
      } else {
        LinkNothing(links, parents, items, left, apps, appsLeft, done, id);
      }
      todo, done := todo - {id}, done + {id};
    }
    assert done == items.Keys;
  }

  lemma SeveredAreLost(links: map<Ident, Ident>, parents: map<Ident, Ident>, items: map<NodeID, CacheItem>,
    removed: set<Ident>, bus: Str, p: Ident)
    requires forall x :: x in removed ==> x.bus == bus
    requires bus !in ContradictedBuses(parents, items, items.Keys)
    requires Linked(links, parents, WithoutBus(items, ContradictedBuses(parents, items, items.Keys)), items.Keys)
    requires Grounded(links, parents, items, items.Keys)
    ensures Severed(links, removed, p) == LostChildren(parents, items, removed, p)
  {
    forall c | c in removed && c !in parents
      ensures (c in links && links[c] == p) <==> RecordedUnder(parents, items, c, p)
    {
      if c in links && links[c] == p {
        var id :| id in items && id.obj == c && items[id].parent == links[c];
      }
      if RecordedUnder(parents, items, c, p) {
        var id :| id in items && id.obj == c && items[id].parent == p;
        assert id in WithoutBus(items, ContradictedBuses(parents, items, items.Keys));
      }
    }
  }

  /** How many removed children each surviving parent loses. */
  ghost predicate Counts(losses: map<Ident, nat>, links: map<Ident, Ident>, removed: set<Ident>) {
    && (forall p :: p in losses <==> p !in removed && Severed(links, removed, p) != {})
    && (forall p :: p in losses ==> losses[p] == |Severed(links, removed, p)|)
  }

  method CountLosses(links: map<Ident, Ident>, removed: set<Ident>) returns (losses: map<Ident, nat>)
    ensures Counts(losses, links, removed)
  {
    losses := map[];
    var todo := links.Keys;
    assert forall p :: Severed(links, removed - todo, p) == {};
    while todo != {}
      invariant todo <= links.Keys && CountsSoFar(losses, links, removed, todo)
      decreases todo
    {
      var c :| c in todo;
      var p := links[c];
      if c in removed && p !in removed {
        SeveredStep(links, removed, todo, c);
        losses := losses[p := (if p in losses then losses[p] else 0) + 1];
      } else {
        SeveredSkip(links, removed, todo, c);
      }
      todo := todo - {c};
    }
    forall p ensures Severed(links, removed - todo, p) == Severed(links, removed, p) {
      assert removed - todo == removed;
    }
  }

  /** The counts so far, with the links in todo still to be looked at. */
  ghost predicate CountsSoFar(losses: map<Ident, nat>, links: map<Ident, Ident>, removed: set<Ident>, todo: set<Ident>) {
    && (forall p :: p in losses <==> p !in removed && Severed(links, removed - todo, p) != {})
    && (forall p :: p in losses ==> losses[p] == |Severed(links, removed - todo, p)|)
  }

  lemma SeveredStep(links: map<Ident, Ident>, removed: set<Ident>, todo: set<Ident>, c: Ident)
    requires c in todo && c in links && c in removed
    ensures Severed(links, removed - (todo - {c}), links[c]) == Severed(links, removed - todo, links[c]) + {c}
    ensures c !in Severed(links, removed - todo, links[c])
    ensures forall p :: p != links[c] ==> Severed(links, removed - (todo - {c}), p) == Severed(links, removed - todo, p)
  {}

  lemma SeveredSkip(links: map<Ident, Ident>, removed: set<Ident>, todo: set<Ident>, c: Ident)
    requires c in todo && c in links && (c !in removed || links[c] in removed)
    ensures forall p :: p !in removed ==> Severed(links, removed - (todo - {c}), p) == Severed(links, removed - todo, p)
  {}

  /** The removed children that `links` puts under p. */
  function Severed(links: map<Ident, Ident>, removed: set<Ident>, p: Ident): set<Ident> {
    set c | c in links && c in removed && links[c] == p
  }

  /** The recorded parent of c is p: the observed one, else the cached one. */
  predicate RecordedUnder(parents: map<Ident, Ident>, items: map<NodeID, CacheItem>, c: Ident, p: Ident) {
    if c in parents then parents[c] == p
    else exists id :: id in items && id.obj == c && items[id].parent == p
  }

  /** The removed objects recorded directly under p. */
  function LostChildren(parents: map<Ident, Ident>, items: map<NodeID, CacheItem>, removed: set<Ident>, p: Ident): set<Ident> {
    set c | c in removed && RecordedUnder(parents, items, c, p)
  }

  /** One child count moved by delta, or the application's cache no longer complete. */
  function Adjusted(items: map<NodeID, CacheItem>, apps: map<Str, bool>, key: NodeID, delta: int)
    : (r: (map<NodeID, CacheItem>, map<Str, bool>))
  {
    if !PlainPath(key.obj.path) || !Complete(apps, key.obj.bus) then (items, apps)
    else if key !in items || items[key].childCount < 0 || !(0 <= items[key].childCount + delta <= MAX_INT32) then
      (items - {key}, apps[key.obj.bus := false])
    else
      (items[key := items[key].(childCount := items[key].childCount + delta)], apps)
  }

  /** What adjusting counts can do to the item table: drop entries or move counts. */
  ghost predicate Shrinks(items: map<NodeID, CacheItem>, items': map<NodeID, CacheItem>) {
    forall id :: id in items' ==> id in items && items'[id] == items[id].(childCount := items'[id].childCount)
  }

  ghost predicate LosesApps(apps: map<Str, bool>, apps': map<Str, bool>) {
    forall b :: Complete(apps', b) ==> Complete(apps, b)
  }

  lemma LosesMore(a: map<Str, bool>, b: map<Str, bool>, c: map<Str, bool>)
    requires LosesApps(a, b) && LosesApps(b, c)
    ensures LosesApps(a, c)
  {}

  lemma AdjustedShrinks(items: map<NodeID, CacheItem>, apps: map<Str, bool>, key: NodeID, delta: int)
    ensures var (items', apps') := Adjusted(items, apps, key, delta); Shrinks(items, items') && LosesApps(apps, apps')
  {}

  /** The count of one parent moved, if there is one. */
  function Lowered(items: map<NodeID, CacheItem>, apps: map<Str, bool>, above: Option<NodeID>, delta: int)
    : (map<NodeID, CacheItem>, map<Str, bool>)
  {
    if above.None? then (items, apps) else Adjusted(items, apps, above.value, delta)
  }

  /** The count moves in the same way whatever is known of other applications. */
  lemma LoweredSame(items: map<NodeID, CacheItem>, apps: map<Str, bool>, apps': map<Str, bool>, above: Option<NodeID>, delta: int)
    requires above.Some? ==> (Complete(apps, above.value.obj.bus) <==> Complete(apps', above.value.obj.bus))
    ensures Lowered(items, apps, above, delta).0 == Lowered(items, apps', above, delta).0
    ensures forall b :: (Complete(apps, b) <==> Complete(apps', b)) ==>
      (Complete(Lowered(items, apps, above, delta).1, b) <==> Complete(Lowered(items, apps', above, delta).1, b))
    ensures forall b :: Complete(Lowered(items, apps, above, delta).1, b) ==> Complete(apps, b)
  {}

  /** Every removed object but the root has its recorded parent among the removed. */
  ghost predicate Rooted(parents: map<Ident, Ident>, items: map<NodeID, CacheItem>, removed: set<Ident>, root: Ident) {
    forall c, p :: c in removed && c != root && RecordedUnder(parents, items, c, p) ==> p in removed
  }

  /** A link is on record. */
  lemma LinkRecorded(links: map<Ident, Ident>, parents: map<Ident, Ident>, items: map<NodeID, CacheItem>,
    left: map<NodeID, CacheItem>, apps: map<Str, bool>, appsLeft: map<Str, bool>, c: Ident)
    requires Linking(links, parents, items, left, apps, appsLeft, items.Keys) && c in links
    ensures RecordedUnder(parents, items, c, links[c])
  {
    if c !in parents {
      var id :| id in items && id.obj == c && items[id].parent == links[c];
    }
  }

  /** The only surviving parent that loses a child is the one the root is linked to, and it loses one. */
  lemma OneLoss(links: map<Ident, Ident>, parents: map<Ident, Ident>, items: map<NodeID, CacheItem>,
    left: map<NodeID, CacheItem>, apps: map<Str, bool>, appsLeft: map<Str, bool>, losses: map<Ident, nat>, removed: set<Ident>, root: Ident)
    requires Linking(links, parents, items, left, apps, appsLeft, items.Keys) && Counts(losses, links, removed)
    requires Rooted(parents, items, removed, root) && root in removed
    ensures losses == if root in links && links[root] !in removed then map[links[root] := 1] else map[]
  {
    hide Linking, RecordedUnder;
    forall p | p !in removed
      ensures Severed(links, removed, p) == if root in links && links[root] == p then {root} else {}
    {
      forall c | c in Severed(links, removed, p) ensures c == root {
        LinkRecorded(links, parents, items, left, apps, appsLeft, c);
      }
    }
  }

  /** The root is linked to its recorded parent, unless its own application's cache was dropped. */
  lemma RootLinked(links: map<Ident, Ident>, parents: map<Ident, Ident>, items: map<NodeID, CacheItem>,
    left: map<NodeID, CacheItem>, apps: map<Str, bool>, appsLeft: map<Str, bool>, root: Ident, p: Ident)
    requires Linking(links, parents, items, left, apps, appsLeft, items.Keys) && OnePerObject(items)
    requires RecordedUnder(parents, items, root, p)
    requires root in parents || root.bus !in ContradictedBuses(parents, items, items.Keys)
    ensures root in links && links[root] == p
  {
    if root !in parents {
      var id :| id in items && id.obj == root && items[id].parent == p;
      assert id in left;
    }
  }

  function Loss(losses: map<Ident, nat>, x: Ident): nat {
    if x in losses && PlainPath(x.path) then losses[x] else 0
  }

  /** As far as an application's cache is still complete, each of its items has lost what `losses` says. */
  ghost predicate Settled(items: map<NodeID, CacheItem>, left: map<NodeID, CacheItem>, apps: map<Str, bool>, losses: map<Ident, nat>) {
    forall id :: id in items && Complete(apps, id.obj.bus) ==>
      id in left && left[id] == items[id].(childCount := items[id].childCount - Loss(losses, id.obj))
  }

  lemma LossStep(items: map<NodeID, CacheItem>, left: map<NodeID, CacheItem>, apps: map<Str, bool>,
    losses: map<Ident, nat>, key: NodeID, count: nat)
    requires Settled(items, left, apps, losses) && Shrinks(items, left) && key.obj !in losses
    requires forall id :: id in items && id.obj == key.obj ==> id == key
    ensures var (left', apps') := Adjusted(left, apps, key, -(count as int));
      Settled(items, left', apps', losses[key.obj := count]) && Shrinks(items, left') && LosesApps(apps, apps')
  {}

  lemma LossNext(items: map<NodeID, CacheItem>, left: map<NodeID, CacheItem>, apps: map<Str, bool>,
    losses: map<Ident, nat>, todo: set<Ident>, key: NodeID)
    requires Settled(items, left, apps, losses - todo) && Shrinks(items, left) && key.obj in todo && todo <= losses.Keys
    requires OnePerObject(items) && (forall id :: id in items && id.obj == key.obj ==> id == key)
    ensures var (left', apps') := Adjusted(left, apps, key, -(losses[key.obj] as int));
      Settled(items, left', apps', losses - (todo - {key.obj})) && Shrinks(items, left') && LosesApps(apps, apps')
  {
    hide Settled, Shrinks, LosesApps, Adjusted;
    LossStep(items, left, apps, losses - todo, key, losses[key.obj]);
    assert (losses - todo)[key.obj := losses[key.obj]] == losses - (todo - {key.obj});
  }

  /** Every incarnation of a removed object moves on by one, all others stay. */
  ghost predicate Bumped(a: map<Ident, nat>, b: map<Ident, nat>, removed: set<Ident>) {
    forall x :: Incarnation(b, x) == Incarnation(a, x) + if x in removed then 1 else 0
  }

  /** The entries of a provider's list under their current handles. */
  function Loaded(list: seq<CacheItem>, generation: nat, incarnations: map<Ident, nat>): map<NodeID, CacheItem> {
    if list == [] then map[]
    else
      var last := list[|list| - 1];
      var rest := Loaded(list[..|list| - 1], generation, incarnations);
      var id := Key(generation, incarnations, last.obj);
      if id.Valid() then rest[id := last] else rest
  }

  lemma LastOnce(list: seq<CacheItem>, item: CacheItem)
    requires list != [] && forall i, j :: 0 <= i < j < |list| ==> list[i].obj != list[j].obj
    ensures item in list <==> item in list[..|list| - 1] || item == list[|list| - 1]
    ensures item in list[..|list| - 1] ==> item.obj != list[|list| - 1].obj
  {
    var init := list[..|list| - 1];
    assert list == init + [list[|list| - 1]];
    if item in init {
      var i :| 0 <= i < |init| && init[i] == item;
      assert list[i].obj != list[|list| - 1].obj;
    }
  }

  lemma KeysDiffer(generation: nat, incarnations: map<Ident, nat>, a: CacheItem, b: CacheItem)
    ensures Key(generation, incarnations, a.obj) == Key(generation, incarnations, b.obj) <==> a.obj == b.obj
  {}

  lemma {:induction false} LoadedContent(list: seq<CacheItem>, generation: nat, incarnations: map<Ident, nat>, item: CacheItem)
    requires forall i, j :: 0 <= i < j < |list| ==> list[i].obj != list[j].obj
    ensures item in list && Key(generation, incarnations, item.obj).Valid() <==>
      Key(generation, incarnations, item.obj) in Loaded(list, generation, incarnations)
      && Loaded(list, generation, incarnations)[Key(generation, incarnations, item.obj)] == item
  {
    hide Incarnation;
    if list != [] {
      var init, last := list[..|list| - 1], list[|list| - 1];
      LoadedContent(init, generation, incarnations, item);
      LastOnce(list, item);
      KeysDiffer(generation, incarnations, item, last);
    }
  }

  /** The ancestry a provider's list records over what was known before. */
  function LoadedParents(list: seq<CacheItem>, generation: nat, before: map<Ident, Ident>): map<Ident, Ident> {
    if list == [] then before
    else
      var last := list[|list| - 1];
      var rest := LoadedParents(list[..|list| - 1], generation, before);
      if NodeID(last.obj, generation, 1).Valid() && last.parent.Valid() then rest[last.obj := last.parent] else rest
  }

  lemma ParentsDropped(parents: map<Ident, Ident>, bus: Str)
    ensures WithoutParentsOf(parents, bus).Keys <= parents.Keys && |WithoutParentsOf(parents, bus)| <= |parents|
  {
    SubsetSize(WithoutParentsOf(parents, bus).Keys, parents.Keys);
  }

  lemma BusDropped(items: map<NodeID, CacheItem>, bus: Str, generation: nat, incarnations: map<Ident, nat>)
    requires Keyed(items, generation, incarnations)
    ensures Keyed(WithoutBus(items, {bus}), generation, incarnations) && WithoutBus(items, {bus}).Keys <= items.Keys
    ensures WithoutBus(items, {bus}) + Loaded([], generation, incarnations) == WithoutBus(items, {bus})
  {}

  lemma WithoutTwice(parents: map<Ident, Ident>, done: set<Ident>, x: Ident)
    ensures parents - done - {x} == parents - (done + {x})
  {}

  /** Observed ancestry without the children of one bus. */
  function WithoutParentsOf(parents: map<Ident, Ident>, bus: Str): map<Ident, Ident> {
    map c | c in parents && c.bus != bus :: parents[c]
  }

  lemma BumpedAfter(a: map<Ident, nat>, b: map<Ident, nat>, c: map<Ident, nat>, removed: set<Ident>)
    requires Extends(a, b) && Bumped(b, c, removed)
    ensures Bumped(a, c, removed)
  {
    BumpedBetween(a, b, c, c, removed);
  }

  lemma BumpStep(a: map<Ident, nat>, b: map<Ident, nat>, c: map<Ident, nat>, d: map<Ident, nat>, done: set<Ident>, x: Ident)
    requires Bumped(a, b, done) && Extends(b, c) && x !in done && d == c[x := Incarnation(c, x) + 1]
    ensures Bumped(a, d, done + {x})
  {
    forall y ensures Incarnation(d, y) == Incarnation(a, y) + if y in done + {x} then 1 else 0 {
      assert Incarnation(b, y) == Incarnation(a, y) + if y in done then 1 else 0;
      assert Incarnation(c, y) == Incarnation(b, y);
    }
  }

  /** In the removed tree's own application every other item has lost exactly its removed children. */
  ghost predicate SubtreeTaken(parents: map<Ident, Ident>, items: map<NodeID, CacheItem>, left: map<NodeID, CacheItem>,
    removed: set<Ident>, bus: Str)
  {
    forall id :: id in items && id.obj.bus == bus && id.obj !in removed ==>
      id in left && left[id] == items[id].(childCount := items[id].childCount -
        if PlainPath(id.obj.path) then |LostChildren(parents, items, removed, id.obj)| else 0)
  }

  /** Dropped applications apart, an application that stays complete is described by the same subtree. */
  lemma TakenKept(parents: map<Ident, Ident>, items: map<NodeID, CacheItem>, parents1: map<Ident, Ident>, items1: map<NodeID, CacheItem>,
    items2: map<NodeID, CacheItem>, dropped: set<Str>, removed: set<Ident>, bus: Str)
    requires items1 == WithoutBus(items, dropped) && bus !in dropped
    requires forall p :: LostChildren(parents1, items1, removed, p) == LostChildren(parents, items, removed, p)
    requires SubtreeTaken(parents1, items1, items2, removed, bus)
    ensures SubtreeTaken(parents, items, WithoutObjects(items2, removed), removed, bus)
  {
    hide LostChildren;
  }

  /** Items keep their handles through a removal, whose objects are not among them any more. */
  lemma StaysKeyed(items: map<NodeID, CacheItem>, items1: map<NodeID, CacheItem>, items2: map<NodeID, CacheItem>, dropped: set<Str>,
    generation: nat, a: map<Ident, nat>, b: map<Ident, nat>, c: map<Ident, nat>, removed: set<Ident>)
    requires Keyed(items, generation, a) && forall id :: id in items ==> id.obj in a
    requires items1 == WithoutBus(items, dropped) && Shrinks(items1, items2)
    requires Extends(a, b) && Bumped(b, c, removed) && b.Keys <= c.Keys
    ensures Keyed(WithoutObjects(items2, removed), generation, c)
    ensures forall id :: id in WithoutObjects(items2, removed) ==> id.obj in c
  {
    forall id | id in WithoutObjects(items2, removed)
      ensures id == Key(generation, c, items2[id].obj) && id.obj in c
    {
      assert id in items1 && id in items;
      assert Incarnation(b, id.obj) == Incarnation(a, id.obj);
    }
  }

  /** Of the objects still to be moved on, those that need a new table entry. */
  function Untracked(incarnations: map<Ident, Count>, todo: set<Ident>): set<Ident> {
    set x | x in todo && (x !in incarnations || incarnations[x] == 0)
  }

  lemma UntrackedStep(incarnations: map<Ident, Count>, done: set<Ident>, x: Ident)
    requires x !in done
    ensures Untracked(incarnations, done + {x}) ==
      Untracked(incarnations, done) + if x in incarnations then {} else {x}
    ensures |Untracked(incarnations, done + {x})| ==
      |Untracked(incarnations, done)| + if x in incarnations then 0 else 1
  {
    if x in incarnations {
      assert Untracked(incarnations, done + {x}) == Untracked(incarnations, done);
    } else {
      assert Untracked(incarnations, done + {x}) == Untracked(incarnations, done) + {x};
    }
  }

  /** The table after an object was looked up: it gets an entry if there is room. */
  function Looked(incarnations: map<Ident, Count>, x: Ident): map<Ident, Count> {
    if (x in incarnations && incarnations[x] != 0) || |incarnations| >= MAX_TRACKED then incarnations else incarnations[x := 1]
  }

  /** There is neither an entry nor room for one. */
  predicate Refused(incarnations: map<Ident, Count>, x: Ident) {
    !(x in incarnations && incarnations[x] != 0) && |incarnations| >= MAX_TRACKED
  }

  lemma LookedExtends(incarnations: map<Ident, Count>, x: Ident)
    ensures Extends(incarnations, Looked(incarnations, x))
    ensures |incarnations| <= MAX_TRACKED ==> |Looked(incarnations, x)| <= MAX_TRACKED
    ensures x in Looked(incarnations, x) || Refused(incarnations, x)
  {}

  /** Looked up and written: a new entry, with room or without, or the same keys. */
  lemma LookedKeys(incarnations: map<Ident, Count>, x: Ident, n: Count)
    ensures Looked(incarnations, x)[x := n].Keys == incarnations.Keys + {x}
    ensures |Looked(incarnations, x)[x := n]| == |incarnations| + if x in incarnations then 0 else 1
  {
    if x in incarnations || |incarnations| >= MAX_TRACKED {
      EntryWritten(incarnations, x, n);
    } else {
      EntryTwice(incarnations, x, 1, n);
    }
  }

  /** One entry written: a new key, or the same keys. */
  lemma EntryWritten(m: map<Ident, Count>, x: Ident, n: Count)
    ensures m[x := n].Keys == m.Keys + {x} && |m[x := n]| == |m| + if x in m then 0 else 1
  {
    if x in m { assert m[x := n].Keys == m.Keys; }
  }

  lemma EntryTwice(m: map<Ident, Count>, x: Ident, k: Count, n: Count)
    ensures m[x := k][x := n].Keys == m.Keys + {x} && |m[x := k][x := n]| == |m| + if x in m then 0 else 1
  {
    assert m[x := k][x := n] == m[x := n];
    EntryWritten(m, x, n);
  }

  lemma KeysStep(a: set<Ident>, b: set<Ident>, c: set<Ident>, done: set<Ident>, x: Ident)
    requires b == a + done && x !in done && c == b + {x}
    ensures c == a + (done + {x}) && (x in b <==> x in a)
  {}

  /** The counts on both sides of one added item: its parent before loses it, its parent now gains it. */
  function CountsForAdd(items: map<NodeID, CacheItem>, apps: map<Str, bool>, generation: nat, incarnations: map<Ident, nat>, item: CacheItem)
    : (map<NodeID, CacheItem>, map<Str, bool>)
  {
    var id := Key(generation, incarnations, item.obj);
    var moved := id !in items || items[id].parent != item.parent;
    var (items1, apps1) :=
      if Complete(apps, item.obj.bus) && id in items && moved
      then Adjusted(items, apps, Key(generation, incarnations, items[id].parent), -1) else (items, apps);
    if Complete(apps, item.obj.bus) && moved
    then Adjusted(items1, apps1, Key(generation, incarnations, item.parent), 1) else (items1, apps1)
  }

  /** The item table and completeness after one added item. */
  function AfterAdd(items: map<NodeID, CacheItem>, apps: map<Str, bool>, generation: nat, incarnations: map<Ident, nat>, item: CacheItem)
    : (map<NodeID, CacheItem>, map<Str, bool>)
  {
    var (items', apps') := CountsForAdd(items, apps, generation, incarnations, item);
    (items'[Key(generation, incarnations, item.obj) := item], apps')
  }

  lemma CountsForAddSame(items: map<NodeID, CacheItem>, apps: map<Str, bool>, generation: nat, a: map<Ident, nat>, b: map<Ident, nat>,
    item: CacheItem)
    requires Extends(a, b)
    ensures CountsForAdd(items, apps, generation, a, item) == CountsForAdd(items, apps, generation, b, item)
  {
    hide Adjusted;
    assert Incarnation(a, item.obj) == Incarnation(b, item.obj) && Incarnation(a, item.parent) == Incarnation(b, item.parent);
    var id := Key(generation, a, item.obj);
    if id in items { assert Incarnation(a, items[id].parent) == Incarnation(b, items[id].parent); }
  }

  lemma AfterAddSame(items: map<NodeID, CacheItem>, apps: map<Str, bool>, generation: nat, a: map<Ident, nat>, b: map<Ident, nat>,
    item: CacheItem)
    requires Extends(a, b)
    ensures AfterAdd(items, apps, generation, a, item) == AfterAdd(items, apps, generation, b, item)
  {
    hide CountsForAdd;
    CountsForAddSame(items, apps, generation, a, b, item);
  }

  lemma ShrinkMore(a: map<NodeID, CacheItem>, b: map<NodeID, CacheItem>, c: map<NodeID, CacheItem>)
    requires Shrinks(a, b) && Shrinks(b, c)
    ensures Shrinks(a, c)
  {}

  lemma CountsShrink(items: map<NodeID, CacheItem>, apps: map<Str, bool>, generation: nat, incarnations: map<Ident, nat>, item: CacheItem)
    ensures Shrinks(items, CountsForAdd(items, apps, generation, incarnations, item).0)
  {
    hide Adjusted, Complete;
    var id := Key(generation, incarnations, item.obj);
    var moved := id !in items || items[id].parent != item.parent;
    assert Shrinks(items, items);
    var (items1, apps1) :=
      if Complete(apps, item.obj.bus) && id in items && moved
      then Adjusted(items, apps, Key(generation, incarnations, items[id].parent), -1) else (items, apps);
    if id in items { AdjustedShrinks(items, apps, Key(generation, incarnations, items[id].parent), -1); }
    AdjustedShrinks(items1, apps1, Key(generation, incarnations, item.parent), 1);
    if Complete(apps, item.obj.bus) && moved {
      ShrinkMore(items, items1, Adjusted(items1, apps1, Key(generation, incarnations, item.parent), 1).0);
    }
  }

  /** Adding an item keeps handles right and adds no other object. */
  lemma AddStaysKeyed(items: map<NodeID, CacheItem>, apps: map<Str, bool>, generation: nat, a: map<Ident, nat>, b: map<Ident, nat>, item: CacheItem)
    requires Keyed(items, generation, a) && Extends(a, b)
    ensures Keyed(AfterAdd(items, apps, generation, a, item).0, generation, b)
    ensures forall id :: id in AfterAdd(items, apps, generation, a, item).0 ==> id in items || id.obj == item.obj
  {
    hide CountsForAdd;
    var counted := CountsForAdd(items, apps, generation, a, item).0;
    CountsShrink(items, apps, generation, a, item);
    forall id | id in AfterAdd(items, apps, generation, a, item).0
      ensures id == Key(generation, b, AfterAdd(items, apps, generation, a, item).0[id].obj) && (id in items || id.obj == item.obj)
    {
      assert Incarnation(a, id.obj) == Incarnation(b, id.obj);
    }
  }
}
