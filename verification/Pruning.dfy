/** Prefixes of a snapshot's nodes, cut off from what lies outside them. */
module Pruning {
  import opened Basics
  import opened AtSpi
  import opened Snapshots
  import opened Json
  import opened Estimates

  function Kept(ids: seq<NodeID>, retained: set<NodeID>): (r: seq<NodeID>)
    ensures forall id :: id in r <==> id in ids && id in retained
  {
    if ids == [] then []
    else
      var rest, last := Kept(ids[..|ids| - 1], retained), ids[|ids| - 1];
      assert ids == ids[..|ids| - 1] + [last];
      if last in retained then rest + [last] else rest
  }

  /** The retained targets of one relation; a relation without any is dropped. */
  function Targets(entry: (Str, Option<seq<NodeID>>), retained: set<NodeID>): seq<NodeID> {
    if entry.1.None? then [] else Kept(entry.1.value, retained)
  }

  function KeptRelations(relations: Entries<Option<seq<NodeID>>>, retained: set<NodeID>): Entries<Option<seq<NodeID>>> {
    if relations == [] then []
    else
      var rest, last := KeptRelations(relations[..|relations| - 1], retained), relations[|relations| - 1];
      var kept := Targets(last, retained);
      if kept == [] then rest else rest + [(last.0, Some(kept))]
  }

  /** A node without its references to nodes outside `retained`. */
  function Pruned(n: Node, retained: set<NodeID>): Node {
    n.(children := Kept(n.children, retained), relations := KeptRelations(n.relations, retained))
  }

  function PrunedAll(nodes: seq<Node>, retained: set<NodeID>): (r: seq<Node>)
    ensures |r| == |nodes| && forall i :: 0 <= i < |nodes| ==> r[i] == Pruned(nodes[i], retained)
  {
    seq(|nodes|, i requires 0 <= i < |nodes| => Pruned(nodes[i], retained))
  }

  /** The snapshot that keeps the first k nodes, from scratch. */
  function Prefix(s: Snapshot, k: nat): (r: Snapshot)
    requires k <= |s.NodeList()|
  {
    if k == 0 then s.(nodes := None, root := Bare(s.root.id))
    else
      var nodes := s.NodeList()[..k];
      s.(nodes := Some(PrunedAll(nodes, Ids(nodes))), root := Pruned(nodes[0], Ids(nodes)))
  }

  /** Every child and relation target that a node shows is one of the given identities. */
  predicate RefersWithin(n: Node, ids: set<NodeID>) {
    (forall c :: c in n.children ==> c in ids)
    && forall e :: e in n.relations ==> e.1.Some? && e.1.value != [] && forall t :: t in e.1.value ==> t in ids
  }

  lemma {:induction false} KeptRelationsWithin(relations: Entries<Option<seq<NodeID>>>, retained: set<NodeID>)
    ensures forall e :: e in KeptRelations(relations, retained) ==>
      e.1.Some? && e.1.value != [] && forall t :: t in e.1.value ==> t in retained
  {
    if relations != [] { KeptRelationsWithin(relations[..|relations| - 1], retained); }
  }

  /** Every child and relation target left in a prefix is a retained node. */
  lemma PrefixClosed(s: Snapshot, k: nat)
    requires 0 < k <= |s.NodeList()|
    ensures forall n :: n in Prefix(s, k).NodeList() ==> RefersWithin(n, Ids(Prefix(s, k).NodeList()))
    ensures RefersWithin(Prefix(s, k).root, Ids(Prefix(s, k).NodeList()))
    ensures Prefix(s, k).root == Prefix(s, k).NodeList()[0]
  {
    var nodes := s.NodeList()[..k];
    var left := Prefix(s, k).NodeList();
    assert Ids(left) == Ids(nodes) by {
      forall id | id in Ids(nodes) ensures id in Ids(left) {
        var i :| 0 <= i < k && nodes[i].id == id;
        assert left[i] in left;
      }
      forall id | id in Ids(left) ensures id in Ids(nodes) {
        var i :| 0 <= i < k && left[i].id == id;
        assert nodes[i] in nodes;
      }
    }
    forall i | 0 <= i < k ensures RefersWithin(left[i], Ids(nodes)) {
      KeptRelationsWithin(nodes[i].relations, Ids(nodes));
    }
  }

  lemma {:induction false} KeptRelationsHold(relations: Entries<Option<seq<NodeID>>>, retained: set<NodeID>, e: (Str, Option<seq<NodeID>>))
    requires e in relations && Targets(e, retained) != []
    ensures (e.0, Some(Targets(e, retained))) in KeptRelations(relations, retained)
  {
    var init := relations[..|relations| - 1];
    if e in init { KeptRelationsHold(init, retained, e); }
    else { assert relations == init + [relations[|relations| - 1]]; }
  }

  /** Nothing else is lost in a prefix: a node keeps its content, all children among the retained nodes, and of
      each relation all targets among them. */
  lemma PrefixKeeps(s: Snapshot, k: nat, i: nat)
    requires i < k <= |s.NodeList()|
    ensures var n, left, ids := s.NodeList()[i], Prefix(s, k).NodeList()[i], Ids(s.NodeList()[..k]);
      && left == n.(children := left.children, relations := left.relations)
      && (forall c :: c in n.children && c in ids ==> c in left.children)
      && (forall e :: e in n.relations && Targets(e, ids) != [] ==> (e.0, Some(Targets(e, ids))) in left.relations)
  {
    var n, ids := s.NodeList()[i], Ids(s.NodeList()[..k]);
    forall e | e in n.relations && Targets(e, ids) != [] ensures (e.0, Some(Targets(e, ids))) in KeptRelations(n.relations, ids) {
      KeptRelationsHold(n.relations, ids, e);
    }
  }

  // ----------------------------------------------------------- sizes grow with k

  lemma {:induction false} KeptGrows(ids: seq<NodeID>, a: set<NodeID>, b: set<NodeID>)
    requires a <= b
    ensures |Kept(ids, a)| <= |Kept(ids, b)| && Sum(Kept(ids, a), IdSize) <= Sum(Kept(ids, b), IdSize)
  {
    if ids != [] {
      var init, last := ids[..|ids| - 1], ids[|ids| - 1];
      KeptGrows(init, a, b);
      SumSnoc(Kept(init, a), last, IdSize);
      SumSnoc(Kept(init, b), last, IdSize);
    }
  }

  lemma SumSnoc<T(!new)>(xs: seq<T>, x: T, size: T -> nat)
    ensures Sum(xs + [x], size) == Sum(xs, size) + size(x)
  {
    assert (xs + [x])[..|xs|] == xs;
  }

  lemma {:induction false} KeptRelationsGrow(relations: Entries<Option<seq<NodeID>>>, a: set<NodeID>, b: set<NodeID>)
    requires a <= b
    ensures |KeptRelations(relations, a)| <= |KeptRelations(relations, b)|
    ensures Sum(KeptRelations(relations, a), RelationSize) <= Sum(KeptRelations(relations, b), RelationSize)
  {
    if relations != [] {
      var init, last := relations[..|relations| - 1], relations[|relations| - 1];
      KeptRelationsGrow(init, a, b);
      if last.1.Some? { KeptGrows(last.1.value, a, b); }
      SumSnoc(KeptRelations(init, a), (last.0, Some(Targets(last, a))), RelationSize);
      SumSnoc(KeptRelations(init, b), (last.0, Some(Targets(last, b))), RelationSize);
    }
  }

  lemma PrunedGrows(n: Node, a: set<NodeID>, b: set<NodeID>)
    requires a <= b
    ensures NodeSize(Pruned(n, a)) <= NodeSize(Pruned(n, b))
  {
    PrunedOwnSize(n, a);
    PrunedOwnSize(n, b);
    KeptGrows(n.children, a, b);
    KeptRelationsGrow(n.relations, a, b);
  }

  lemma PrunedOwnSize(n: Node, a: set<NodeID>)
    ensures OwnSize(Pruned(n, a)) == OwnSize(n)
  {
    hide StringField, IdSize, OptionalMember, RectDigits, StringList, ListSize, DecimalSize, Kept, KeptRelations,
      SelectionSize, TableSize, DocumentSize, ValueSize;
  }

  lemma {:induction false} PrunedSumGrows(nodes: seq<Node>, a: set<NodeID>, b: set<NodeID>)
    requires a <= b
    ensures Sum(PrunedAll(nodes, a), NodeSize) <= Sum(PrunedAll(nodes, b), NodeSize)
  {
    hide NodeSize, Pruned;
    if nodes != [] {
      var init, last := nodes[..|nodes| - 1], nodes[|nodes| - 1];
      PrunedSumGrows(init, a, b);
      PrunedGrows(last, a, b);
      PrunedSumSnoc(init, last, a);
      PrunedSumSnoc(init, last, b);
      assert nodes == init + [last];
    }
  }

  lemma PrunedSumSnoc(nodes: seq<Node>, n: Node, a: set<NodeID>)
    ensures Sum(PrunedAll(nodes + [n], a), NodeSize) == Sum(PrunedAll(nodes, a), NodeSize) + NodeSize(Pruned(n, a))
  {
    hide Pruned, NodeSize, Sum;
    assert PrunedAll(nodes + [n], a) == PrunedAll(nodes, a) + [Pruned(n, a)];
    SumSnoc(PrunedAll(nodes, a), Pruned(n, a), NodeSize);
  }

  /** A node is at least as large as one about which nothing is known. */
  lemma BareIsSmallest(n: Node)
    ensures NodeSize(Bare(n.id)) <= NodeSize(n)
  {
    hide StringSize, Digits;
    assert OwnSize(Bare(n.id)) <= OwnSize(n) by {
      BareOwnSize(n);
    }
  }

  lemma BareOwnSize(n: Node)
    ensures OwnSize(Bare(n.id)) <= OwnSize(n)
  {
    hide StringList, ListSize, StringSize, ValueSize, SelectionSize, TableSize, DocumentSize;
    EmptyIdIsSmallest(n.parent);
    ZeroIsShortest(n.bounds, n.childCount);
  }

  lemma EmptyIdIsSmallest(id: NodeID)
    ensures IdSize(NO_NODE) <= IdSize(id)
  {
    assert BodySize([]) == 0;
    assert |Decimal(0)| == 1;
  }

  lemma ZeroIsShortest(r: Rect, count: int)
    ensures RectDigits(Rect(0, 0, 0, 0)) <= RectDigits(r) && DecimalSize(0) <= DecimalSize(count)
  {
    assert |Decimal(0)| == 1;
  }

  /** Longer prefixes are not smaller. */
  lemma PrefixGrows(s: Snapshot, k: nat)
    requires k < |s.NodeList()| && s.root.id == s.NodeList()[0].id
    ensures SnapshotSize(Prefix(s, k)) <= SnapshotSize(Prefix(s, k + 1))
  {
    var nodes := s.NodeList();
    var a, b := Ids(nodes[..k]), Ids(nodes[..k + 1]);
    assert nodes[..k + 1] == nodes[..k] + [nodes[k]];
    PrunedSumSnoc(nodes[..k], nodes[k], b);
    PrunedSumGrows(nodes[..k], a, b);
    PrunedGrows(nodes[0], a, b);
    BareIsSmallest(Pruned(nodes[0], b));
    PrefixSize(s, k);
    PrefixSize(s, k + 1);
  }

  /** The size of the first k nodes when only references into `retained` are left. */
  function PrefixParts(s: Snapshot, k: nat, retained: set<NodeID>): nat
    requires 0 < k <= |s.NodeList()|
  {
    BaseSize(s) + NodeSize(Pruned(s.NodeList()[0], retained)) + 2 + (k - 1)
    + Sum(PrunedAll(s.NodeList()[..k], retained), NodeSize)
  }

  /** The parts of a prefix's size. */
  lemma PrefixSize(s: Snapshot, k: nat)
    requires k <= |s.NodeList()|
    ensures k == 0 ==> SnapshotSize(Prefix(s, k)) == BaseSize(s) + NodeSize(Bare(s.root.id)) + 4
    ensures k > 0 ==> SnapshotSize(Prefix(s, k)) == PrefixParts(s, k, Ids(s.NodeList()[..k]))
  {
    hide NodeSize, StringSize, StringList, StringField, Digits, DecimalSize, Pruned, Ids, OptionalMember, Sum, PrunedAll;
  }

  lemma {:induction false} PrefixMonotone(s: Snapshot, j: nat, k: nat)
    requires j <= k <= |s.NodeList()| && (s.NodeList() != [] ==> s.root.id == s.NodeList()[0].id)
    ensures SnapshotSize(Prefix(s, j)) <= SnapshotSize(Prefix(s, k))
    decreases k
  {
    hide SnapshotSize, Prefix;
    if j < k {
      PrefixMonotone(s, j, k - 1);
      PrefixGrows(s, k - 1);
    }
  }
}
