/** The sorted child index derived from the cached items. */
module ChildIndex {
  import opened Basics
  import opened AtSpi

  /** Byte-wise order of Go strings. */
  predicate PathLeq(a: Str, b: Str) {
    a == [] || (b != [] && (a[0] < b[0] || (a[0] == b[0] && PathLeq(a[1..], b[1..]))))
  }

  lemma {:induction false} PathLeqTotal(a: Str, b: Str)
    ensures PathLeq(a, b) || PathLeq(b, a)
  {
    if a != [] && b != [] && a[0] == b[0] {
      PathLeqTotal(a[1..], b[1..]);
    }
  }

  lemma {:induction false} PathLeqTransitive(a: Str, b: Str, c: Str)
    requires PathLeq(a, b) && PathLeq(b, c)
    ensures PathLeq(a, c)
  {
    if a != [] && a[0] == b[0] == c[0] {
      PathLeqTransitive(a[1..], b[1..], c[1..]);
    }
  }

  /** The order is that of a dictionary: a path comes before another if it is its beginning, or has the smaller
      byte where they differ first. */
  lemma {:induction false} DictionaryOrder(a: Str, b: Str)
    ensures PathLeq(a, b) <==>
      a <= b || exists k :: 0 <= k < |a| && k < |b| && a[..k] == b[..k] && a[k] < b[k]
  {
    if a != [] && b != [] && a[0] == b[0] {
      DictionaryOrder(a[1..], b[1..]);
      assert a == [a[0]] + a[1..] && b == [b[0]] + b[1..];
      if k :| 0 <= k < |a| - 1 && k < |b| - 1 && a[1..][..k] == b[1..][..k] && a[1..][k] < b[1..][k] {
        assert a[..k + 1] == [a[0]] + a[1..][..k] && b[..k + 1] == [b[0]] + b[1..][..k];
        assert a[..k + 1] == b[..k + 1] && a[k + 1] < b[k + 1];
      }
      forall k | 0 <= k < |a| && k < |b| && a[..k] == b[..k] && a[k] < b[k] ensures PathLeq(a[1..], b[1..]) {
        assert k > 0;
        assert a[1..][..k - 1] == a[..k][1..] && b[1..][..k - 1] == b[..k][1..] && a[1..][k - 1] < b[1..][k - 1];
      }
    } else if a != [] && b != [] && a[0] < b[0] {
      assert a[..0] == b[..0] && a[0] < b[0];
    } else if a != [] && b != [] {
      assert forall k :: 0 < k <= |a| ==> a[..k][0] == a[0];
      assert forall k :: 0 < k <= |b| ==> b[..k][0] == b[0];
    }
  }

  /** Sibling order: provider index, then object path. */
  predicate Before(a: CacheItem, b: CacheItem) {
    a.index < b.index || (a.index == b.index && PathLeq(a.obj.path, b.obj.path))
  }

  lemma BeforeTotal(a: CacheItem, b: CacheItem)
    ensures Before(a, b) || Before(b, a)
  {
    PathLeqTotal(a.obj.path, b.obj.path);
  }

  lemma BeforeTransitive(a: CacheItem, b: CacheItem, c: CacheItem)
    requires Before(a, b) && Before(b, c)
    ensures Before(a, c)
  {
    if a.index == b.index == c.index {
      PathLeqTransitive(a.obj.path, b.obj.path, c.obj.path);
    }
  }

  predicate Sorted(ids: seq<NodeID>, items: map<NodeID, CacheItem>)
    requires forall id :: id in ids ==> id in items
  {
    forall i, j :: 0 <= i < j < |ids| ==> Before(items[ids[i]], items[ids[j]])
  }

  /** The cached items of one generation that name `parent` as their parent. */
  function Kids(items: map<NodeID, CacheItem>, generation: nat, parent: Ident): set<NodeID> {
    set id | id in items && id.generation == generation && items[id].parent == parent
  }

  function Refs(ids: seq<NodeID>, items: map<NodeID, CacheItem>): (refs: seq<Ident>)
    requires forall id :: id in ids ==> id in items
    ensures |refs| == |ids| && forall i :: 0 <= i < |ids| ==> refs[i] == items[ids[i]].obj
  {
    seq(|ids|, i requires 0 <= i < |ids| => items[ids[i]].obj)
  }

  /** The answer a lookup without an index gives: each child once, in sibling order. */
  ghost predicate IsAnswer(refs: seq<Ident>, items: map<NodeID, CacheItem>, kids: set<NodeID>)
    requires kids <= items.Keys
  {
    exists ids: seq<NodeID> ::
      NoDup(ids) && Elems(ids) == kids && (forall id :: id in ids ==> id in items)
      && Sorted(ids, items) && refs == Refs(ids, items)
  }

  /** The index is the one a rebuild from the items gives, parent by parent. */
  ghost predicate Indexes(index: map<Ident, seq<Ident>>, items: map<NodeID, CacheItem>, generation: nat) {
    forall p ::
      && (p in index <==> Kids(items, generation, p) != {})
      && (p in index ==> IsAnswer(index[p], items, Kids(items, generation, p)))
  }

  lemma Inserted(id: NodeID, sorted: seq<NodeID>, items: map<NodeID, CacheItem>, k: nat, r: seq<NodeID>)
    requires id in items && id !in sorted && NoDup(sorted) && k <= |sorted|
    requires (forall s :: s in sorted ==> s in items) && Sorted(sorted, items)
    requires forall j :: 0 <= j < k ==> Before(items[sorted[j]], items[id])
    requires forall j :: k <= j < |sorted| ==> Before(items[id], items[sorted[j]])
    requires r == sorted[..k] + [id] + sorted[k..]
    ensures Elems(r) == Elems(sorted) + {id} && NoDup(r)
    ensures (forall s :: s in r ==> s in items) && Sorted(r, items)
  {
    hide Before;
    forall s | s in Elems(sorted) ensures s in Elems(r) {
      var j :| 0 <= j < |sorted| && sorted[j] == s;
      assert if j < k then r[j] == s else r[j + 1] == s;
    }
    assert r[k] == id;
    forall i, j | 0 <= i < j < |r| ensures r[i] != r[j] && Before(items[r[i]], items[r[j]]) {
      var a := if i < k then i else i - 1;
      var b := if j < k then j else j - 1;
      if i == k {
        assert r[j] == sorted[b];
      } else if j == k {
        assert r[i] == sorted[a];
      } else {
        assert r[i] == sorted[a] && r[j] == sorted[b];
      }
    }
  }

  /** Insertion of one child into the siblings already in order. */
  method Insert(id: NodeID, sorted: seq<NodeID>, items: map<NodeID, CacheItem>) returns (r: seq<NodeID>)
    requires id in items && id !in sorted && NoDup(sorted)
    requires (forall s :: s in sorted ==> s in items) && Sorted(sorted, items)
    ensures Elems(r) == Elems(sorted) + {id} && NoDup(r)
    ensures (forall s :: s in r ==> s in items) && Sorted(r, items)
  {
    var k := |sorted|;
    while k > 0 && !Before(items[sorted[k - 1]], items[id])
      invariant 0 <= k <= |sorted|
      invariant forall j :: k <= j < |sorted| ==> Before(items[id], items[sorted[j]])
    {
      BeforeTotal(items[id], items[sorted[k - 1]]);
      k := k - 1;
    }
    forall j | 0 <= j < k ensures Before(items[sorted[j]], items[id]) {
      if j < k - 1 {
        BeforeTransitive(items[sorted[j]], items[sorted[k - 1]], items[id]);
      }
    }
    r := sorted[..k] + [id] + sorted[k..];
    Inserted(id, sorted, items, k, r);
  }

  /** One parent's children, sorted. */
  method SortKids(kids: set<NodeID>, items: map<NodeID, CacheItem>) returns (refs: seq<Ident>)
    requires kids <= items.Keys
    ensures IsAnswer(refs, items, kids)
  {
    var ids: seq<NodeID> := [];
    var todo := kids;
    while todo != {}
      invariant todo <= kids && Elems(ids) == kids - todo && NoDup(ids)
      invariant (forall id :: id in ids ==> id in items) && Sorted(ids, items)
      decreases todo
    {
      var id :| id in todo;
      assert id !in Elems(ids);
      ids := Insert(id, ids, items);
      todo := todo - {id};
    }
    refs := Refs(ids, items);
  }

  /** Children grouped by parent, for the items of one generation. */
  method GroupByParent(items: map<NodeID, CacheItem>, generation: nat) returns (byParent: map<Ident, set<NodeID>>)
    ensures forall p :: p in byParent <==> Kids(items, generation, p) != {}
    ensures forall p :: p in byParent ==> byParent[p] == Kids(items, generation, p)
  {
    byParent := map[];
    var todo := items.Keys;
    while todo != {}
      invariant todo <= items.Keys
      invariant forall p :: p in byParent <==> Kids(items, generation, p) - todo != {}
      invariant forall p :: p in byParent ==> byParent[p] == Kids(items, generation, p) - todo
      decreases todo
    {
      var id :| id in todo;
      ghost var rest := todo - {id};
      if id.generation == generation {
        var p := items[id].parent;
        assert id in Kids(items, generation, p) - rest;
        var group := if p in byParent then byParent[p] else {};
        assert group == Kids(items, generation, p) - todo;
        assert group + {id} == Kids(items, generation, p) - rest;
        forall q | q != p ensures Kids(items, generation, q) - rest == Kids(items, generation, q) - todo {}
        byParent := byParent[p := group + {id}];
      } else {
        forall q ensures Kids(items, generation, q) - rest == Kids(items, generation, q) - todo {}
      }
      todo := todo - {id};
    }
    forall p ensures Kids(items, generation, p) - todo == Kids(items, generation, p) {}
  }

  /** `buildCacheChildrenIndexLocked`. */
  method BuildIndex(items: map<NodeID, CacheItem>, generation: nat) returns (index: map<Ident, seq<Ident>>)
    ensures Indexes(index, items, generation)
  {
    var byParent := GroupByParent(items, generation);
    index := map[];
    var todo := byParent.Keys;
    while todo != {}
      invariant todo <= byParent.Keys && index.Keys == byParent.Keys - todo
      invariant forall p :: p in index ==> IsAnswer(index[p], items, Kids(items, generation, p))
      decreases todo
    {
      var p :| p in todo;
      var refs := SortKids(byParent[p], items);
      index, todo := index[p := refs], todo - {p};
    }
  }
}
