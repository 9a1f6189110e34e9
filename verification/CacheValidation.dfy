/** Acceptance of a provider's complete item list: identities, duplicates and parent cycles. */
module CacheValidation {
  import opened Basics
  import opened AtSpi

  /** A list entry is about one object of the application that was asked. */
  predicate OwnItem(bus: Str, item: CacheItem) {
    && ValidObjectRef(item.obj) && ValidObjectRef(item.application) && ValidParentRef(item.parent)
    && item.obj.bus == bus && item.application.bus == bus
  }

  predicate DistinctObjects(items: seq<CacheItem>) {
    forall i, j :: 0 <= i < j < |items| ==> items[i].obj != items[j].obj
  }

  /** The parent links of a list. */
  function ParentsOf(items: seq<CacheItem>): map<Ident, Ident> {
    if items == [] then map[]
    else
      var last := items[|items| - 1];
      ParentsOf(items[..|items| - 1])[last.obj := last.parent]
  }

  lemma {:induction false} ParentsDomain(items: seq<CacheItem>)
    ensures forall x :: x in ParentsOf(items) <==> exists j :: 0 <= j < |items| && items[j].obj == x
    ensures |ParentsOf(items)| <= |items|
  {
    if items != [] {
      var init := items[..|items| - 1];
      ParentsDomain(init);
      forall x | x in ParentsOf(items) ensures exists j :: 0 <= j < |items| && items[j].obj == x {
        if x != items[|items| - 1].obj {
          var j :| 0 <= j < |init| && init[j].obj == x;
          assert items[j].obj == x;
        }
      }
      forall j | 0 <= j < |items| ensures items[j].obj in ParentsOf(items) {
        if j < |init| { assert init[j].obj == items[j].obj; }
      }
    }
  }

  /** A round of parent links that comes back to where it started. */
  predicate Cycle(parents: map<Ident, Ident>, round: seq<Ident>) {
    && round != []
    && (forall i :: 0 <= i < |round| ==> round[i] in parents)
    && (forall i :: 0 < i < |round| ==> parents[round[i - 1]] == round[i])
    && parents[round[|round| - 1]] == round[0]
  }

  ghost predicate Acyclic(parents: map<Ident, Ident>) {
    forall round :: !Cycle(parents, round)
  }

  /** Following parent links from x leaves the map within n steps. */
  predicate Leaves(parents: map<Ident, Ident>, x: Ident, n: nat)
    decreases n
  {
    x in parents ==> n > 0 && Leaves(parents, parents[x], n - 1)
  }

  ghost predicate LeavesSometime(parents: map<Ident, Ident>, x: Ident) {
    exists n: nat :: Leaves(parents, x, n)
  }

  lemma {:induction false} LeavesMonotone(parents: map<Ident, Ident>, x: Ident, n: nat)
    requires Leaves(parents, x, n)
    ensures Leaves(parents, x, n + 1)
    decreases n
  {
    if x in parents {
      LeavesMonotone(parents, parents[x], n - 1);
    }
  }

  /** Nothing on a round of parent links ever leaves. */
  lemma {:induction false} RoundsNeverLeave(parents: map<Ident, Ident>, round: seq<Ident>, i: nat, n: nat)
    requires Cycle(parents, round) && i < |round|
    ensures !Leaves(parents, round[i], n)
    decreases n
  {
    if n > 0 {
      RoundsNeverLeave(parents, round, if i + 1 < |round| then i + 1 else 0, n - 1);
    }
  }

  function Depth(parents: map<Ident, Ident>, n: nat): set<Ident> {
    set x | x in parents && Leaves(parents, x, n)
  }

  lemma {:induction false} DepthStuck(parents: map<Ident, Ident>, n: nat, k: nat)
    requires n <= k && Depth(parents, n) == Depth(parents, n + 1)
    ensures Depth(parents, k) == Depth(parents, n)
    decreases k
  {
    if n < k {
      DepthStuck(parents, n, k - 1);
      forall x | x in parents ensures x in Depth(parents, k) <==> x in Depth(parents, n + 1) {
        var p := parents[x];
        assert Leaves(parents, x, k) <==> Leaves(parents, p, k - 1);
        assert Leaves(parents, x, n + 1) <==> Leaves(parents, p, n);
        assert p in parents ==> (p in Depth(parents, k - 1) <==> p in Depth(parents, n));
      }
    }
  }

  /** Once the entries that leave in time stop growing in number, they are all there are. */
  lemma StuckIsAll(parents: map<Ident, Ident>, n: nat)
    requires forall x :: x in parents ==> LeavesSometime(parents, x)
    requires Depth(parents, n) == Depth(parents, n + 1)
    ensures Depth(parents, n) == parents.Keys
  {
    forall x | x in parents ensures x in Depth(parents, n) {
      var k: nat :| Leaves(parents, x, k);
      LeavesLater(parents, x, k, n);
      DepthStuck(parents, n, k + n);
      assert x in Depth(parents, k + n);
    }
  }

  lemma DepthWidens(parents: map<Ident, Ident>, n: nat)
    ensures Depth(parents, n) <= Depth(parents, n + 1)
    ensures Depth(parents, n) != Depth(parents, n + 1) ==> |Depth(parents, n + 1)| > |Depth(parents, n)|
  {
    var d, e := Depth(parents, n), Depth(parents, n + 1);
    forall x | x in d ensures x in e { LeavesMonotone(parents, x, n); }
    if d != e {
      var x :| x in e && x !in d;
      assert e == (d + {x}) + (e - d - {x});
    }
  }

  lemma {:induction false} DepthGrows(parents: map<Ident, Ident>, n: nat)
    requires forall x :: x in parents ==> LeavesSometime(parents, x)
    ensures Depth(parents, n) == parents.Keys || |Depth(parents, n)| >= n
    decreases n
  {
    hide Depth, Leaves;
    if n > 0 {
      DepthGrows(parents, n - 1);
      DepthWidens(parents, n - 1);
      if Depth(parents, n - 1) == Depth(parents, n) {
        StuckIsAll(parents, n - 1);
      } else if Depth(parents, n - 1) == parents.Keys {
        DepthWithin(parents, n);
      }
    }
  }

  lemma DepthWithin(parents: map<Ident, Ident>, n: nat)
    ensures Depth(parents, n) <= parents.Keys
  {}

  lemma {:induction false} LeavesLater(parents: map<Ident, Ident>, x: Ident, n: nat, more: nat)
    requires Leaves(parents, x, n)
    ensures Leaves(parents, x, n + more)
    decreases more
  {
    if more > 0 {
      LeavesLater(parents, x, n, more - 1);
      LeavesMonotone(parents, x, n + more - 1);
    }
  }

  /** If every chain leaves, each leaves within as many steps as there are entries. */
  lemma LeavesInTime(parents: map<Ident, Ident>)
    requires forall x :: x in parents ==> LeavesSometime(parents, x)
    ensures forall x :: x in parents ==> Leaves(parents, x, |parents|)
  {
    var all := Depth(parents, |parents|);
    DepthGrows(parents, |parents|);
    assert parents.Keys == all + (parents.Keys - all);
    assert |parents.Keys| == |all| + |parents.Keys - all|;
    forall x | x in parents ensures Leaves(parents, x, |parents|) { assert x in all; }
  }

  /** The links walked from one start: a chain of entries not vetted before. */
  predicate Trail(parents: map<Ident, Ident>, visited: set<Ident>, trail: seq<Ident>, node: Ident) {
    && (forall i :: 0 <= i < |trail| ==> trail[i] in parents && trail[i] !in visited)
    && (forall i :: 0 < i < |trail| ==> parents[trail[i - 1]] == trail[i])
    && (trail != [] ==> parents[trail[|trail| - 1]] == node)
  }

  lemma {:induction false} TrailLeaves(parents: map<Ident, Ident>, visited: set<Ident>, trail: seq<Ident>, node: Ident)
    requires Trail(parents, visited, trail, node) && LeavesSometime(parents, node)
    ensures forall x :: x in trail ==> LeavesSometime(parents, x)
    decreases |trail|
  {
    if trail != [] {
      var last := trail[|trail| - 1];
      var n: nat :| Leaves(parents, node, n);
      assert Leaves(parents, last, n + 1);
      TrailLeaves(parents, visited, trail[..|trail| - 1], last);
    }
  }

  /** Walks up from one start until it leaves the map, meets a vetted entry, or meets its
      own trail. */
  method WalkUp(parents: map<Ident, Ident>, visited: set<Ident>, start: Ident) returns (cyclic: bool, path: set<Ident>)
    requires forall x :: x in visited ==> LeavesSometime(parents, x)
    ensures cyclic ==> exists round :: Cycle(parents, round)
    ensures !cyclic ==> path <= parents.Keys && forall x :: x in path ==> LeavesSometime(parents, x)
    ensures !cyclic && start in parents ==> start in path + visited
  {
    path := {};
    ghost var trail: seq<Ident> := [];
    var node := start;
    while true
      invariant Trail(parents, visited, trail, node)
      invariant path <= parents.Keys && forall x :: x in path <==> x in trail
      invariant node == start || start in path
      decreases parents.Keys - path
    {
      if node in path {
        ghost var i :| 0 <= i < |trail| && trail[i] == node;
        assert Cycle(parents, trail[i..]);
        return true, path;
      }
      if node !in parents || node in visited {
        assert node !in parents ==> Leaves(parents, node, 0);
        TrailLeaves(parents, visited, trail, node);
        return false, path;
      }
      path, trail, node := path + {node}, trail + [node], parents[node];
    }
  }

  /** The cycle check, with one set of vetted entries shared between starts. */
  method CheckCycles(parents: map<Ident, Ident>) returns (ok: bool)
    ensures ok <==> Acyclic(parents)
    ensures ok ==> forall x :: x in parents ==> Leaves(parents, x, |parents|)
  {
    var visited: set<Ident> := {};
    var todo := parents.Keys;
    while todo != {}
      invariant todo <= parents.Keys && parents.Keys - todo <= visited
      invariant forall x :: x in visited ==> LeavesSometime(parents, x)
      decreases todo
    {
      var start :| start in todo;
      todo := todo - {start};
      if start !in visited {
        var cyclic, path := WalkUp(parents, visited, start);
        if cyclic { return false; }
        visited := visited + path;
      }
    }
    LeavesInTime(parents);
    forall round | Cycle(parents, round) ensures false {
      RoundsNeverLeave(parents, round, 0, |parents|);
    }
    return true;
  }

  /** Own entries only, each about an object that no earlier entry is about. */
  predicate OwnDistinct(bus: Str, items: seq<CacheItem>) {
    items == [] ||
    (var init, last := items[..|items| - 1], items[|items| - 1];
     OwnDistinct(bus, init) && OwnItem(bus, last) && last.obj !in ParentsOf(init))
  }

  lemma DistinctSnoc(init: seq<CacheItem>, last: CacheItem)
    ensures DistinctObjects(init + [last]) <==> DistinctObjects(init) && last.obj !in ParentsOf(init)
  {
    ParentsDomain(init);
    var all := init + [last];
    if DistinctObjects(all) {
      forall j | 0 <= j < |init| ensures init[j].obj != last.obj { assert all[j].obj != all[|init|].obj; }
      forall i, j | 0 <= i < j < |init| ensures init[i].obj != init[j].obj { assert all[i].obj != all[j].obj; }
    }
  }

  lemma {:induction false} OwnDistinctMeans(bus: Str, items: seq<CacheItem>)
    ensures OwnDistinct(bus, items) <==> (forall item :: item in items ==> OwnItem(bus, item)) && DistinctObjects(items)
  {
    if items != [] {
      var init, last := items[..|items| - 1], items[|items| - 1];
      OwnDistinctMeans(bus, init);
      assert items == init + [last];
      DistinctSnoc(init, last);
    }
  }

  lemma {:induction false} OwnDistinctPrefix(bus: Str, items: seq<CacheItem>, n: nat)
    requires n <= |items| && OwnDistinct(bus, items)
    ensures OwnDistinct(bus, items[..n])
  {
    if n < |items| {
      assert items[..|items| - 1][..n] == items[..n];
      OwnDistinctPrefix(bus, items[..|items| - 1], n);
    } else {
      assert items[..n] == items;
    }
  }

  /** The identity checks, entry by entry. */
  method CollectParents(bus: Str, items: seq<CacheItem>) returns (ok: bool, parents: map<Ident, Ident>)
    ensures ok <==> OwnDistinct(bus, items)
    ensures ok ==> parents == ParentsOf(items)
  {
    parents := map[];
    for i := 0 to |items|
      invariant OwnDistinct(bus, items[..i]) && parents == ParentsOf(items[..i])
    {
      assert items[..i + 1][..i] == items[..i];
      if !OwnItem(bus, items[i]) || items[i].obj in parents {
        if OwnDistinct(bus, items) { OwnDistinctPrefix(bus, items, i + 1); }
        return false, parents;
      }
      parents := parents[items[i].obj := items[i].parent];
    }
    assert items[..|items|] == items;
    return true, parents;
  }

  /** `validateLoadedCacheItems`: exactly the lists of own, distinct objects without a parent cycle. */
  method ValidateLoadedItems(bus: Str, items: seq<CacheItem>) returns (ok: bool)
    ensures ok <==>
      && (forall item :: item in items ==> OwnItem(bus, item))
      && DistinctObjects(items) && Acyclic(ParentsOf(items))
    ensures ok <==>
      && (forall item :: item in items ==> ValidItem(item) && item.obj.bus == bus)
      && DistinctObjects(items) && Acyclic(ParentsOf(items))
    ensures ok ==> forall x :: x in ParentsOf(items) ==> Leaves(ParentsOf(items), x, |items|)
  {
    var parents;
    ok, parents := CollectParents(bus, items);
    OwnDistinctMeans(bus, items);
    if !ok { return; }
    ok := CheckCycles(parents);
    ParentsDomain(items);
    if ok {
      forall x | x in parents ensures Leaves(parents, x, |items|) {
        LeavesLater(parents, x, |parents|, |items| - |parents|);
      }
    }
  }
}
