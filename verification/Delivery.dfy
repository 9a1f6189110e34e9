/** A snapshot from the walk to the reader: what it shows stays true of the provider's tree while no
    signal raises a conflict. */
module Delivery {
  import opened Basics
  import opened AtSpi
  import opened Snapshots
  import opened Budget
  import opened Walk
  import opened Observation

  /** Whatever was visited was visited under one handle. */
  ghost predicate OneHandleEach(s: Snapshot) {
    forall n, m :: n in s.NodeList() && m in s.NodeList() && n.id.obj == m.id.obj ==> n == m
  }

  /** Children listed in a walked snapshot, and in the response made of it, are observed objects. */
  lemma ObservedThroughout(s: Snapshot, root: NodeID, maxNodes: nat, maxBytes: int, r: Option<Snapshot>, t: Snapshot, best: int)
    requires WholeWalk(s, root, maxNodes) && Response(WithRoot(s), maxBytes, r, t, best)
    ensures ListsObserved(Observed(s))
    ensures r.Some? ==> ListsObserved(Observed(r.value)) && PartOfSnapshot(r.value, s)
  {
    WalkedListsOwn(s, root, maxNodes);
    WalkedRoot(s, root, maxNodes);
    hide WholeWalk, ListsOwn, Response, PartOfSnapshot, ListsObserved;
    OwnAreObserved(s);
    if r.Some? {
      ResponseIsPart(s, t, maxBytes, r, best);
      PartIds(r.value, s);
      OwnAreObserved(r.value);
    }
  }

  lemma WalkedRoot(s: Snapshot, root: NodeID, maxNodes: nat)
    requires WholeWalk(s, root, maxNodes)
    ensures Rooted(s) && WithRoot(s) == s && ValidIds(s) && s.root in s.NodeList()
  {
    hide Branch, FromProvider, Under;
  }

  lemma PartIds(part: Snapshot, whole: Snapshot)
    requires PartOfSnapshot(part, whole) && ValidIds(whole)
    ensures ValidIds(part)
  {
    forall n | n in part.NodeList() ensures n.id.Valid() {
      assert HasPart(whole, n);
    }
  }

  lemma ShownAgrees(s: Snapshot, tree: Tree)
    requires OneHandleEach(s) && s.root in s.NodeList() && Shows(Observed(s), tree)
    ensures AllAgree(s, tree)
  {
    hide Agrees;
    ByIdentityHolds(s.NodeList());
    forall n | n in s.NodeList() ensures n.id.obj in Observed(s) && Observed(s)[n.id.obj] == n {}
    assert Observed(s)[s.root.id.obj] == s.root;
  }

  lemma WalkClaims(s: Snapshot, root: NodeID, maxNodes: nat)
    requires WholeWalk(s, root, maxNodes) && OneHandleEach(s)
    ensures ClaimsParents(s)
  {
    hide FromProvider, Under, DistinctIds, ParentsFirst;
    forall n, m, c | n in AllNodes(s) && m in AllNodes(s) && c in n.children && c.obj == m.id.obj
      ensures m.parent == NO_NODE || m.parent.obj == n.id.obj
    {
      assert n in s.NodeList() && m in s.NodeList();
      UnderHasParent(s.NodeList(), n.id, c);
    }
  }

  /** The walk is not atomic: each node was true of the tree at some moment of those given. */
  ghost predicate ReadAtTimes(s: Snapshot, trees: seq<Tree>) {
    forall n :: n in s.NodeList() ==> Read(n, trees)
  }

  lemma ReadObserved(s: Snapshot, trees: seq<Tree>)
    requires ReadAtTimes(s, trees) && s.root in s.NodeList()
    ensures forall x :: x in Observed(s) ==> Read(Observed(s)[x], trees)
  {
    hide Read;
    ByIdentityHolds(s.NodeList());
  }

  /** A snapshot walked while signals come in, none of which raises a conflict, shows the tree as it is
      after the last of them. */
  lemma WalkStaysTrue(s: Snapshot, root: NodeID, maxNodes: nat, told: seq<Told>, trees: seq<Tree>, anew: bool)
    requires WholeWalk(s, root, maxNodes) && OneHandleEach(s) && ReadAtTimes(s, trees)
    requires AllPass(told, trees, root.obj, s.root.role, Observed(s), anew)
    ensures AllAgree(s, trees[|told|]) && Shows(Observed(s), trees[|told|])
  {
    WalkedListsOwn(s, root, maxNodes);
    WalkedRoot(s, root, maxNodes);
    WalkClaims(s, root, maxNodes);
    hide WholeWalk, OneHandleEach, ReadAtTimes, Shows, AllAgree, ListsObserved, ListsOwn, ListedUnderParent, ClaimsParents, ValidIds,
      Observed, Passes, Read;
    OwnAreObserved(s);
    ClaimedListed(s);
    ReadObserved(s, trees);
    ReadNodeByNode(told, trees, root.obj, s.root.role, Observed(s), anew);
    ShownAgrees(s, trees[|told|]);
  }

  /** From the walk to the reader: signals come in, those up to the check before bounding checked against
      the walked snapshot, later ones against the response. While none raises a conflict, the response
      shows the tree as it is after the last of them. */
  lemma ResponseStaysTrue(s: Snapshot, root: NodeID, maxNodes: nat, maxBytes: int, r: Option<Snapshot>, t: Snapshot, best: int,
    early: seq<Told>, late: seq<Told>, before: seq<Tree>, after: seq<Tree>, anew: bool, reread: bool)
    requires WholeWalk(s, root, maxNodes) && OneHandleEach(s) && ReadAtTimes(s, before)
    requires Response(WithRoot(s), maxBytes, r, t, best) && r.Some?
    requires AllPass(early, before, root.obj, s.root.role, Observed(s), anew)
    requires AllPass(late, after, root.obj, r.value.root.role, Observed(r.value), reread) && after[0] == before[|early|]
    ensures Shows(Observed(r.value), after[|late|])
  {
    ObservedThroughout(s, root, maxNodes, maxBytes, r, t, best);
    WalkStaysTrue(s, root, maxNodes, early, before, anew);
    hide WholeWalk, Response, OneHandleEach, Shows, AllAgree, ListsObserved, PartOfSnapshot, ValidIds, Observed, Passes, ReadAtTimes;
    PartsAgree(r.value, s, after[0]);
    AgreeingShows(r.value, after[0]);
    PassedSignalsLeaveSnapshot(late, after, root.obj, r.value.root.role, Observed(r.value), reread);
  }
}
