/** Recorded ancestry and the tree that one removal takes with it. */
module Revocation {
  import opened AtSpi

  /** The recorded parent edges: a parent observed directly wins over the cache's. */
  predicate Edge(parents: map<Ident, Ident>, items: map<NodeID, CacheItem>, child: Ident, parent: Ident) {
    && child.bus == parent.bus
    && if child in parents then parents[child] == parent
       else CachedUnder(items, items.Keys, child, parent)
  }

  /** One of the given cached items places `child` under `parent`. */
  predicate CachedUnder(items: map<NodeID, CacheItem>, ids: set<NodeID>, child: Ident, parent: Ident)
    requires ids <= items.Keys
  {
    exists id :: id in ids && items[id].obj == child && ParentIdentity(items[id].parent) == parent
  }

  /** A path of recorded edges from `root` down to its last element. */
  predicate Path(parents: map<Ident, Ident>, items: map<NodeID, CacheItem>, root: Ident, path: seq<Ident>) {
    && path != [] && path[0] == root
    && forall i :: 0 < i < |path| ==> Edge(parents, items, path[i], path[i - 1])
  }

  /** x is the removed object or one of its recorded descendants. */
  ghost predicate Descends(parents: map<Ident, Ident>, items: map<NodeID, CacheItem>, root: Ident, x: Ident) {
    exists path :: Path(parents, items, root, path) && path[|path| - 1] == x
  }

  ghost predicate Closed(parents: map<Ident, Ident>, items: map<NodeID, CacheItem>, s: set<Ident>) {
    forall c, p :: Edge(parents, items, c, p) && p in s ==> c in s
  }

  lemma {:induction false} ClosedHoldsPath(parents: map<Ident, Ident>, items: map<NodeID, CacheItem>, s: set<Ident>, root: Ident, path: seq<Ident>)
    requires Closed(parents, items, s) && root in s && Path(parents, items, root, path)
    ensures path[|path| - 1] in s
  {
    if |path| > 1 {
      var init := path[..|path| - 1];
      ClosedHoldsPath(parents, items, s, root, init);
      assert Edge(parents, items, path[|path| - 1], path[|path| - 2]);
    }
  }

  lemma ExtendPath(parents: map<Ident, Ident>, items: map<NodeID, CacheItem>, root: Ident, p: Ident, c: Ident)
    requires Descends(parents, items, root, p) && Edge(parents, items, c, p)
    ensures Descends(parents, items, root, c)
  {
    var path :| Path(parents, items, root, path) && path[|path| - 1] == p;
    assert Path(parents, items, root, path + [c]);
  }

  lemma RootDescends(parents: map<Ident, Ident>, items: map<NodeID, CacheItem>, root: Ident)
    ensures Descends(parents, items, root, root)
  {
    assert Path(parents, items, root, [root]);
  }

  /** Descendants of one object live on its bus. */
  lemma {:induction false} SameBus(parents: map<Ident, Ident>, items: map<NodeID, CacheItem>, root: Ident, path: seq<Ident>)
    requires Path(parents, items, root, path)
    ensures path[|path| - 1].bus == root.bus
  {
    if |path| > 1 {
      SameBus(parents, items, root, path[..|path| - 1]);
      assert Edge(parents, items, path[|path| - 1], path[|path| - 2]);
    }
  }

  predicate Listed(children: map<Ident, seq<Ident>>, c: Ident, p: Ident) {
    p in children && c in children[p]
  }

  function Append(children: map<Ident, seq<Ident>>, p: Ident, c: Ident): map<Ident, seq<Ident>> {
    children[p := (if p in children then children[p] else []) + [c]]
  }

  lemma AppendLists(children: map<Ident, seq<Ident>>, p: Ident, c: Ident)
    ensures forall x, q :: Listed(Append(children, p, c), x, q) <==> Listed(children, x, q) || (x == c && q == p)
  {}

  /** Same-bus edges among the observed ones of `done`. */
  predicate Observed(parents: map<Ident, Ident>, done: set<Ident>, c: Ident, p: Ident) {
    c in done && c in parents && parents[c] == p && c.bus == p.bus
  }

  /** The same-bus edges that observation contributes to the adjacency. */
  method ObservedLists(parents: map<Ident, Ident>) returns (children: map<Ident, seq<Ident>>)
    ensures forall c, p :: Listed(children, c, p) <==> Observed(parents, parents.Keys, c, p)
  {
    children := map[];
    var todo := parents.Keys;
    while todo != {}
      invariant todo <= parents.Keys
      invariant forall c, p :: Listed(children, c, p) <==> Observed(parents, parents.Keys - todo, c, p)
      decreases todo
    {
      var c :| c in todo;
      if c.bus == parents[c].bus {
        AppendLists(children, parents[c], c);
        children := Append(children, parents[c], c);
      }
      todo := todo - {c};
    }
  }

  predicate FromItems(parents: map<Ident, Ident>, items: map<NodeID, CacheItem>, done: set<NodeID>, c: Ident, p: Ident)
    requires done <= items.Keys
  {
    c !in parents && c.bus == p.bus && CachedUnder(items, done, c, p)
  }

  lemma CachedStep(items: map<NodeID, CacheItem>, done: set<NodeID>, id: NodeID)
    requires done <= items.Keys && id in items
    ensures forall c, p :: CachedUnder(items, done + {id}, c, p) <==>
      CachedUnder(items, done, c, p) || (items[id].obj == c && ParentIdentity(items[id].parent) == p)
  {
    forall c, p | CachedUnder(items, done, c, p) || (items[id].obj == c && ParentIdentity(items[id].parent) == p)
      ensures CachedUnder(items, done + {id}, c, p)
    {
      if CachedUnder(items, done, c, p) {
        var w :| w in done && items[w].obj == c && ParentIdentity(items[w].parent) == p;
        assert w in done + {id};
      } else {
        assert id in done + {id};
      }
    }
  }

  /** The adjacency the removal walks: observed edges, then cached ones for objects without. */
  method ChildLists(parents: map<Ident, Ident>, items: map<NodeID, CacheItem>) returns (children: map<Ident, seq<Ident>>)
    ensures forall c, p :: Listed(children, c, p) <==> Edge(parents, items, c, p)
  {
    children := ObservedLists(parents);
    var todo, done := items.Keys, {};
    while todo != {}
      invariant todo + done == items.Keys
      invariant forall c, p :: Listed(children, c, p) <==>
        Observed(parents, parents.Keys, c, p) || FromItems(parents, items, done, c, p)
      decreases todo
    {
      var id :| id in todo;
      CachedStep(items, done, id);
      var c, p := items[id].obj, ParentIdentity(items[id].parent);
      if c !in parents && c.bus == p.bus {
        AppendLists(children, p, c);
        children := Append(children, p, c);
      }
      todo, done := todo - {id}, done + {id};
    }
    assert done == items.Keys;
  }

  /** Adds the children not seen before to the set and to the queue. */
  method Enqueue(kids: seq<Ident>, removed0: set<Ident>, queue0: seq<Ident>) returns (removed: set<Ident>, queue: seq<Ident>)
    requires forall x :: x in removed0 <==> x in queue0
    ensures forall x :: x in removed <==> x in queue
    ensures removed == removed0 + set k | k in kids
    ensures queue0 <= queue && (removed == removed0 ==> queue == queue0)
  {
    removed, queue := removed0, queue0;
    for j := 0 to |kids|
      invariant forall x :: x in removed <==> x in queue
      invariant removed == removed0 + set k | k in kids[..j]
      invariant queue0 <= queue && (queue == queue0 || exists x :: x in removed && x !in removed0)
    {
      assert kids[..j + 1] == kids[..j] + [kids[j]];
      if kids[j] !in removed {
        removed, queue := removed + {kids[j]}, queue + [kids[j]];
      }
    }
    assert kids[..|kids|] == kids;
  }

  /** Where the walk stands: the queue holds the set, its first i entries have been expanded. */
  ghost predicate Walking(parents: map<Ident, Ident>, items: map<NodeID, CacheItem>, root: Ident,
    removed: set<Ident>, queue: seq<Ident>, i: nat)
  {
    && root in removed && i <= |queue|
    && (forall x :: x in removed <==> x in queue)
    && (forall x :: x in removed ==> Descends(parents, items, root, x))
    && (forall j, c :: 0 <= j < i && Edge(parents, items, c, queue[j]) ==> c in removed)
  }

  lemma WalkStep(parents: map<Ident, Ident>, items: map<NodeID, CacheItem>, root: Ident,
    removed: set<Ident>, queue: seq<Ident>, i: nat, kids: set<Ident>, removed': set<Ident>, queue': seq<Ident>)
    requires Walking(parents, items, root, removed, queue, i) && i < |queue|
    requires forall c :: c in kids <==> Edge(parents, items, c, queue[i])
    requires removed' == removed + kids && queue <= queue' && forall x :: x in removed' <==> x in queue'
    ensures Walking(parents, items, root, removed', queue', i + 1)
  {
    forall x | x in removed' ensures Descends(parents, items, root, x) {
      if x !in removed {
        assert queue[i] in removed;
        ExtendPath(parents, items, root, queue[i], x);
      }
    }
  }

  /** Everything the walk can reach: the root and the objects that have a parent. */
  function Universe(parents: map<Ident, Ident>, items: map<NodeID, CacheItem>, root: Ident): set<Ident> {
    {root} + parents.Keys + set id | id in items :: items[id].obj
  }

  lemma EdgeInUniverse(parents: map<Ident, Ident>, items: map<NodeID, CacheItem>, root: Ident, c: Ident, p: Ident)
    requires Edge(parents, items, c, p)
    ensures c in Universe(parents, items, root)
  {
    if c !in parents {
      var id :| id in items.Keys && items[id].obj == c && ParentIdentity(items[id].parent) == p;
    }
  }

  /** Breadth-first over the recorded edges: exactly the root and its descendants. */
  method RemovedTree(parents: map<Ident, Ident>, items: map<NodeID, CacheItem>, root: Ident) returns (removed: set<Ident>)
    ensures forall x :: x in removed <==> Descends(parents, items, root, x)
  {
    var children := ChildLists(parents, items);
    removed := {root};
    var queue := [root];
    RootDescends(parents, items, root);
    var i := 0;
    while i < |queue|
      invariant 0 <= i && Walking(parents, items, root, removed, queue, i)
      invariant removed <= Universe(parents, items, root)
      decreases Universe(parents, items, root) - removed, |queue| - i
    {
      var kids := if queue[i] in children then children[queue[i]] else [];
      forall c ensures c in kids <==> Edge(parents, items, c, queue[i]) {
        assert Listed(children, c, queue[i]) <==> Edge(parents, items, c, queue[i]);
      }
      forall c | c in kids ensures c in Universe(parents, items, root) {
        EdgeInUniverse(parents, items, root, c, queue[i]);
      }
      var removed', queue' := Enqueue(kids, removed, queue);
      WalkStep(parents, items, root, removed, queue, i, (set k | k in kids), removed', queue');
      removed, queue, i := removed', queue', i + 1;
    }
    WalkEnds(parents, items, root, removed, queue);
  }

  lemma WalkEnds(parents: map<Ident, Ident>, items: map<NodeID, CacheItem>, root: Ident, removed: set<Ident>, queue: seq<Ident>)
    requires Walking(parents, items, root, removed, queue, |queue|)
    ensures forall x :: x in removed <==> Descends(parents, items, root, x)
  {
    forall x | Descends(parents, items, root, x) ensures x in removed {
      var path :| Path(parents, items, root, path) && path[|path| - 1] == x;
      ClosedHoldsPath(parents, items, removed, root, path);
    }
  }
}
