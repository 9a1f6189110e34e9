/** Fits a snapshot into a response budget. */
module Budget {
  import opened Basics
  import opened AtSpi
  import opened Snapshots
  import opened Json
  import opened Estimates
  import opened Pruning
  import Utf8

  // ----------------------------------------------------------------- size index

  predicate Sized(nodes: seq<Node>, sizes: seq<nat>) {
    |sizes| == |nodes| && forall i :: 0 <= i < |nodes| ==> sizes[i] == NodeSize(nodes[i])
  }

  predicate Summed(nodes: seq<Node>, sums: seq<nat>) {
    |sums| == |nodes| + 1 && forall i :: 0 <= i <= |nodes| ==> sums[i] == Sum(nodes[..i], NodeSize)
  }

  /** The sizes of the nodes. */
  method NodeSizes(nodes: seq<Node>) returns (sizes: seq<nat>)
    ensures Sized(nodes, sizes)
  {
    hide NodeSize;
    sizes := [];
    for i := 0 to |nodes|
      invariant Sized(nodes[..i], sizes)
    {
      sizes := sizes + [NodeSize(nodes[i])];
    }
    assert nodes[..|nodes|] == nodes;
  }

  /** `rebuildSnapshotPrefixSizes`: running sums of the sizes. */
  method PrefixSums(ghost nodes: seq<Node>, sizes: seq<nat>) returns (sums: seq<nat>)
    requires Sized(nodes, sizes)
    ensures Summed(nodes, sums)
  {
    hide NodeSize;
    sums := [0];
    assert nodes[..0] == [];
    for i := 0 to |sizes|
      invariant |sums| == i + 1 && forall j :: 0 <= j <= i ==> sums[j] == Sum(nodes[..j], NodeSize)
    {
      assert nodes[..i + 1] == nodes[..i] + [nodes[i]];
      SumSnoc(nodes[..i], nodes[i], NodeSize);
      sums := sums + [sums[i] + sizes[i]];
    }
  }

  // -------------------------------------------------------- sizes after pruning

  lemma {:induction false} KeptShorter(ids: seq<NodeID>, retained: set<NodeID>)
    ensures |Kept(ids, retained)| <= |ids|
    ensures |Kept(ids, retained)| == |ids| ==> Kept(ids, retained) == ids
  {
    if ids != [] {
      KeptShorter(ids[..|ids| - 1], retained);
      assert ids == ids[..|ids| - 1] + [ids[|ids| - 1]];
    }
  }

  /** Size and number of the retained identities of a list. */
  method MeasureKept(ids: seq<NodeID>, retained: set<NodeID>) returns (size: nat, kept: nat)
    ensures kept == |Kept(ids, retained)| && size == IdList(Kept(ids, retained))
  {
    hide IdSize;
    size, kept := 2, 0;
    assert ids[..0] == [];
    for i := 0 to |ids|
      invariant kept == |Kept(ids[..i], retained)| && size == IdList(Kept(ids[..i], retained))
    {
      assert ids[..i + 1][..i] == ids[..i];
      if ids[i] in retained {
        SumSnoc(Kept(ids[..i], retained), ids[i], IdSize);
        if kept > 0 { size := size + 1; }
        size, kept := size + IdSize(ids[i]), kept + 1;
      }
    }
    assert ids[..|ids|] == ids;
  }

  /** `estimatePrunedRelationsJSONSize`. */
  method MeasureKeptRelations(relations: Entries<Option<seq<NodeID>>>, retained: set<NodeID>) returns (size: nat, kept: nat)
    ensures kept == |KeptRelations(relations, retained)| && size == ListSize(KeptRelations(relations, retained), RelationSize)
  {
    hide IdList, StringSize;
    size, kept := 2, 0;
    assert relations[..0] == [];
    for i := 0 to |relations|
      invariant kept == |KeptRelations(relations[..i], retained)|
      invariant size == ListSize(KeptRelations(relations[..i], retained), RelationSize)
    {
      assert relations[..i + 1][..i] == relations[..i];
      var targets, n := MeasureKept(if relations[i].1.None? then [] else relations[i].1.value, retained);
      if n > 0 {
        SumSnoc(KeptRelations(relations[..i], retained), (relations[i].0, Some(Targets(relations[i], retained))), RelationSize);
        if kept > 0 { size := size + 1; }
        size, kept := size + StringSize(relations[i].0) + 1 + targets, kept + 1;
      }
    }
    assert relations[..|relations|] == relations;
  }

  /** `estimateNodeJSONSizeAfterReferencePruning`: the adjusted size is the size of the pruned node. */
  method SizeAfterPruning(node: Node, size: nat, retained: set<NodeID>) returns (n: int)
    requires size == NodeSize(node)
    ensures n == NodeSize(Pruned(node, retained))
  {
    PrunedOwnSize(node, retained);
    hide OwnSize, IdList, RelationSize, ListSize, MemberSize;
    KeptShorter(node.children, retained);
    n := size;
    if |node.children| > 0 {
      var childrenSize, kept := MeasureKept(node.children, retained);
      if kept < |node.children| {
        n := n - MemberSize("children", IdList(node.children));
        if kept > 0 { n := n + MemberSize("children", childrenSize); }
      }
    }
    if |node.relations| > 0 {
      var relationsSize, kept := MeasureKeptRelations(node.relations, retained);
      n := n - MemberSize("relations", ListSize(node.relations, RelationSize));
      if kept > 0 { n := n + MemberSize("relations", relationsSize); }
    }
  }

  lemma PrunedWithoutLinks(node: Node, retained: set<NodeID>)
    requires node.children == [] && node.relations == []
    ensures Pruned(node, retained) == node
  {}

  /** `snapshotJSONSizeForPrefix`: running sums corrected node by node give the size from scratch. */
  method SizeForPrefix(s: Snapshot, k: nat, sizes: seq<nat>, sums: seq<nat>, base: nat, retained: set<NodeID>, originalRoot: NodeID)
    returns (n: int)
    requires k <= |s.NodeList()| && Sized(s.NodeList(), sizes) && Summed(s.NodeList(), sums)
    requires base == BaseSize(s) && retained == Ids(s.NodeList()[..k]) && originalRoot == s.root.id
    ensures n == SnapshotSize(Prefix(s, k))
  {
    hide NodeSize, BaseSize, Pruned, SnapshotSize, Bare;
    var nodes := s.NodeList();
    var nodesSize: int := sums[k];
    assert nodes[..0] == [] && PrunedAll(nodes[..0], retained) == [];
    for i := 0 to k
      invariant nodesSize == Sum(nodes[..k], NodeSize) - Sum(nodes[..i], NodeSize) + Sum(PrunedAll(nodes[..i], retained), NodeSize)
    {
      assert nodes[..i + 1] == nodes[..i] + [nodes[i]];
      SumSnoc(nodes[..i], nodes[i], NodeSize);
      PrunedSumSnoc(nodes[..i], nodes[i], retained);
      if |nodes[i].children| == 0 && |nodes[i].relations| == 0 {
        PrunedWithoutLinks(nodes[i], retained);
        continue;
      }
      var pruned := SizeAfterPruning(nodes[i], sizes[i], retained);
      nodesSize := nodesSize - sizes[i] + pruned;
    }
    var rootSize := NodeSize(Bare(originalRoot));
    if k > 0 { rootSize := SizeAfterPruning(nodes[0], sizes[0], retained); }
    PrefixSize(s, k);
    return if k == 0 then SizeFromBase(base, rootSize, 0, 0, true) else base + rootSize + 2 + (k - 1) + nodesSize;
  }

  // ------------------------------------------------------------- longest prefix

  predicate Fits(s: Snapshot, k: nat, maxBytes: int)
    requires k <= |s.NodeList()|
  {
    SnapshotSize(Prefix(s, k)) <= maxBytes
  }

  predicate Rooted(s: Snapshot) { s.NodeList() != [] ==> s.root == s.NodeList()[0] }

  /** Without references even fewer bytes are needed. */
  lemma LeastPrefix(s: Snapshot, k: nat)
    requires 0 < k <= |s.NodeList()|
    ensures PrefixParts(s, k, {}) <= SnapshotSize(Prefix(s, k))
  {
    hide NodeSize, BaseSize, Pruned, SnapshotSize, Prefix;
    PrefixSize(s, k);
    PrunedGrows(s.NodeList()[0], {}, Ids(s.NodeList()[..k]));
    PrunedSumGrows(s.NodeList()[..k], {}, Ids(s.NodeList()[..k]));
  }

  lemma NoneFromHere(s: Snapshot, i: nat, maxBytes: int)
    requires 0 < i <= |s.NodeList()| && Rooted(s) && PrefixParts(s, i, {}) > maxBytes
    ensures forall k :: i <= k <= |s.NodeList()| ==> !Fits(s, k, maxBytes)
  {
    hide PrefixParts, SnapshotSize, Prefix;
    LeastPrefix(s, i);
    forall k | i <= k <= |s.NodeList()| ensures !Fits(s, k, maxBytes) { PrefixMonotone(s, i, k); }
  }

  /** `maximumPotentialSnapshotPrefix`: nothing above the limit could have fitted. */
  method MaximumPotentialPrefix(s: Snapshot, sizes: seq<nat>, base: nat, maxBytes: int) returns (limit: nat)
    requires Sized(s.NodeList(), sizes) && base == BaseSize(s) && Rooted(s)
    ensures limit <= |s.NodeList()| && forall k :: limit < k <= |s.NodeList()| ==> !Fits(s, k, maxBytes)
  {
    hide NodeSize, BaseSize, Pruned, SnapshotSize, Prefix, Fits;
    var nodes := s.NodeList();
    var nodesSize, rootSize := 0, 0;
    assert PrunedAll(nodes[..0], {}) == [];
    for i := 0 to |nodes|
      invariant nodesSize == Sum(PrunedAll(nodes[..i], {}), NodeSize)
      invariant i > 0 ==> rootSize == NodeSize(Pruned(nodes[0], {}))
    {
      assert nodes[..i + 1] == nodes[..i] + [nodes[i]];
      PrunedSumSnoc(nodes[..i], nodes[i], {});
      var least := SizeAfterPruning(nodes[i], sizes[i], {});
      nodesSize := nodesSize + least;
      if i == 0 { rootSize := least; }
      if SizeFromBase(base, rootSize, nodesSize, i + 1, false) > maxBytes {
        NoneFromHere(s, i + 1, maxBytes);
        return i;
      }
    }
    return |nodes|;
  }

  /** k is the length of the longest prefix that fits. */
  predicate Longest(s: Snapshot, k: nat, maxBytes: int)
    requires k <= |s.NodeList()|
  {
    Fits(s, k, maxBytes) && forall j :: k < j <= |s.NodeList()| ==> !Fits(s, j, maxBytes)
  }

  /** `projectSnapshotPrefixWithinBudget`: binary search for the longest prefix that fits; the
      empty one if none does. */
  method ProjectPrefix(s: Snapshot, sizes: seq<nat>, sums: seq<nat>, base: nat, maxBytes: int) returns (r: Snapshot, best: int)
    requires Sized(s.NodeList(), sizes) && Summed(s.NodeList(), sums) && base == BaseSize(s) && Rooted(s)
    ensures -1 <= best <= |s.NodeList()| && r == Prefix(s, if best < 0 then 0 else best)
    ensures if best < 0 then !Fits(s, 0, maxBytes) else Longest(s, best, maxBytes)
  {
    hide NodeSize, BaseSize, Pruned, SnapshotSize, Prefix;
    var limit := MaximumPotentialPrefix(s, sizes, base, maxBytes);
    var low, high: int := 0, limit;
    best := -1;
    while low <= high
      invariant 0 <= low <= high + 1 <= |s.NodeList()| + 1 && best == low - 1
      invariant forall k :: high < k <= |s.NodeList()| ==> !Fits(s, k, maxBytes)
      invariant best >= 0 ==> Fits(s, best, maxBytes)
      decreases high - low
    {
      var middle := low + (high - low) / 2;
      var retained := Ids(s.NodeList()[..middle]);
      var size := SizeForPrefix(s, middle, sizes, sums, base, retained, s.root.id);
      if size <= maxBytes {
        best, low := middle, middle + 1;
      } else {
        forall k | middle <= k <= |s.NodeList()| ensures !Fits(s, k, maxBytes) { PrefixMonotone(s, middle, k); }
        high := middle - 1;
      }
    }
    r := KeepPrefix(s, if best < 0 then 0 else best);
  }

  /** `pruneSnapshotReferencesWithRetained`, for one node. */
  method PruneNode(node: Node, retained: set<NodeID>) returns (r: Node)
    ensures r == Pruned(node, retained)
  {
    var children := KeepIds(node.children, retained);
    var relations: Entries<Option<seq<NodeID>>> := [];
    assert node.relations[..0] == [];
    for i := 0 to |node.relations|
      invariant relations == KeptRelations(node.relations[..i], retained)
    {
      assert node.relations[..i + 1][..i] == node.relations[..i];
      var entry := node.relations[i];
      var kept := KeepIds(if entry.1.None? then [] else entry.1.value, retained);
      if |kept| > 0 { relations := relations + [(entry.0, Some(kept))]; }
    }
    assert node.relations[..|node.relations|] == node.relations;
    return node.(children := children, relations := relations);
  }

  method KeepIds(ids: seq<NodeID>, retained: set<NodeID>) returns (kept: seq<NodeID>)
    ensures kept == Kept(ids, retained)
  {
    kept := [];
    assert ids[..0] == [];
    for i := 0 to |ids|
      invariant kept == Kept(ids[..i], retained)
    {
      assert ids[..i + 1][..i] == ids[..i];
      if ids[i] in retained { kept := kept + [ids[i]]; }
    }
    assert ids[..|ids|] == ids;
  }

  /** The projection itself: a clone of the first k nodes, pruned in place. */
  method KeepPrefix(s: Snapshot, k: nat) returns (r: Snapshot)
    requires k <= |s.NodeList()|
    ensures r == Prefix(s, k)
  {
    if k == 0 { return s.(nodes := None, root := Bare(s.root.id)); }
    var nodes := s.NodeList()[..k];
    var clones := seq(k, i requires 0 <= i < k => CloneNode(nodes[i]));
    var retained := Ids(nodes);
    var i := 0;
    while i < k
      invariant 0 <= i <= k && |clones| == k
      invariant forall j :: 0 <= j < i ==> clones[j] == Pruned(nodes[j], retained)
      invariant forall j :: i <= j < k ==> clones[j] == CloneNode(nodes[j])
    {
      PrunedClone(nodes[i], retained);
      var node := PruneNode(clones[i], retained);
      clones, i := clones[i := node], i + 1;
    }
    assert clones == PrunedAll(nodes, retained);
    return s.(nodes := Some(clones), root := clones[0]);
  }

  // --------------------------------------------------------------------- clones

  /** Cloning turns an empty target list into an absent one. */
  function CloneEntry(e: (Str, Option<seq<NodeID>>)): (Str, Option<seq<NodeID>>) { if e.1 == Some([]) then (e.0, None) else e }

  function CloneRelations(relations: Entries<Option<seq<NodeID>>>): (r: Entries<Option<seq<NodeID>>>)
    ensures |r| == |relations|
  {
    if relations == [] then []
    else CloneRelations(relations[..|relations| - 1]) + [CloneEntry(relations[|relations| - 1])]
  }

  function CloneNode(n: Node): Node { n.(relations := CloneRelations(n.relations)) }

  lemma {:induction false} KeptClones(relations: Entries<Option<seq<NodeID>>>, retained: set<NodeID>)
    ensures KeptRelations(CloneRelations(relations), retained) == KeptRelations(relations, retained)
  {
    if relations != [] { KeptClones(relations[..|relations| - 1], retained); }
  }

  lemma PrunedClone(n: Node, retained: set<NodeID>)
    ensures Pruned(CloneNode(n), retained) == Pruned(n, retained)
  {
    KeptClones(n.relations, retained);
  }

  /** How many relations have an empty, present target list. */
  function EmptyTargets(n: Node): nat { EmptyEntries(n.relations) }

  function EmptyEntries(relations: Entries<Option<seq<NodeID>>>): nat {
    if relations == [] then 0
    else EmptyEntries(relations[..|relations| - 1]) + if relations[|relations| - 1].1 == Some([]) then 1 else 0
  }

  lemma {:induction false} ClonedRelationsSize(relations: Entries<Option<seq<NodeID>>>)
    ensures Sum(CloneRelations(relations), RelationSize) == Sum(relations, RelationSize) + 2 * EmptyEntries(relations)
  {
    if relations != [] {
      var init, last := relations[..|relations| - 1], relations[|relations| - 1];
      ClonedRelationsSize(init);
      SumSnoc(CloneRelations(init), CloneEntry(last), RelationSize);
      assert last.1 == Some([]) ==> IdList(last.1.value) == 2;
    }
  }

  lemma CloneNodeSize(n: Node)
    ensures NodeSize(CloneNode(n)) == NodeSize(n) + 2 * EmptyTargets(n)
  {
    ClonedRelationsSize(n.relations);
    CloneOwnSize(n);
    hide OwnSize, Sum;
  }

  lemma CloneOwnSize(n: Node)
    ensures OwnSize(CloneNode(n)) == OwnSize(n)
  {
    hide StringField, IdSize, OptionalMember, RectDigits, StringList, ListSize, DecimalSize, CloneRelations,
      SelectionSize, TableSize, DocumentSize, ValueSize;
  }

  function CloneNodes(nodes: seq<Node>): (r: seq<Node>)
    ensures |r| == |nodes| && forall i :: 0 <= i < |nodes| ==> r[i] == CloneNode(nodes[i])
  {
    if nodes == [] then [] else CloneNodes(nodes[..|nodes| - 1]) + [CloneNode(nodes[|nodes| - 1])]
  }

  lemma {:induction false} CloneNodesSize(nodes: seq<Node>)
    ensures Sum(CloneNodes(nodes), NodeSize) == Sum(nodes, NodeSize) + 2 * Sum(nodes, EmptyTargets)
  {
    hide NodeSize, CloneNode, EmptyTargets;
    if nodes != [] {
      var init, last := nodes[..|nodes| - 1], nodes[|nodes| - 1];
      CloneNodesSize(init);
      CloneNodeSize(last);
      SumSnoc(CloneNodes(init), CloneNode(last), NodeSize);
    }
  }

  /** `cloneSnapshotResponse`. */
  function Clone(s: Snapshot): Snapshot {
    if s.NodeList() == [] then s.(nodes := None, root := CloneNode(s.root))
    else s.(nodes := Some(CloneNodes(s.NodeList())), root := CloneNode(s.NodeList()[0]))
  }

  /** The empty lists that a clone writes as null. */
  function EmptyLists(s: Snapshot): nat {
    (if s.nodes == Some([]) then 1 else 0) + EmptyTargets(s.root) + Sum(s.NodeList(), EmptyTargets)
  }

  /** A clone is larger by two bytes for every empty list. */
  lemma CloneSize(s: Snapshot)
    requires Rooted(s)
    ensures SnapshotSize(Clone(s)) == SnapshotSize(s) + 2 * EmptyLists(s)
  {
    hide NodeSize, CloneNode, EmptyTargets, BaseSize;
    CloneNodeSize(s.root);
    CloneNodesSize(s.NodeList());
    assert BaseSize(Clone(s)) == BaseSize(s) by { SameBase(s, Clone(s)); }
  }

  lemma SameBase(s: Snapshot, t: Snapshot)
    requires t == s.(nodes := t.nodes, root := t.root)
    ensures BaseSize(t) == BaseSize(s)
  {
    hide StringSize, StringList, Digits;
  }

  // ------------------------------------------------------------ oversized nodes

  /** A list is as it was, or emptied when that was allowed. */
  predicate Dropped<T(==)>(before: seq<T>, after: seq<T>, allowed: bool) {
    after == before || (|after| == 0 && allowed)
  }

  predicate TextGone(r: Node) { |r.text| == 0 }

  predicate ExtrasGone(r: Node) { TextGone(r) && |r.attributes| == 0 && |r.relations| == 0 }

  predicate ListsGone(r: Node) { ExtrasGone(r) && |r.actions| == 0 && |r.warnings| == 0 }

  predicate NamesGone(r: Node) { ListsGone(r) && |r.description| == 0 && |r.name| == 0 }

  predicate TraitsGone(r: Node) { NamesGone(r) && |r.interfaces| == 0 && |r.states| == 0 }

  predicate Emptied(r: Node) { TraitsGone(r) && |r.children| == 0 }

  /** Contents given up in a fixed order: each field is as it was, or emptied after all
      fields before it; of the text a valid prefix stays. */
  predicate GivenUpInOrder(n: Node, r: Node) {
    && r == n.(text := r.text, textTruncated := r.textTruncated, attributes := r.attributes, relations := r.relations,
         actions := r.actions, warnings := r.warnings, description := r.description, name := r.name,
         interfaces := r.interfaces, states := r.states, children := r.children)
    && r.text <= n.text && ((r.text == n.text && r.textTruncated == n.textTruncated) || (Utf8.Valid(r.text) && r.textTruncated))
    && ListsInOrder(n, r) && NamesInOrder(n, r)
  }

  predicate ListsInOrder(n: Node, r: Node) {
    && Dropped(n.attributes, r.attributes, TextGone(r))
    && Dropped(n.relations, r.relations, TextGone(r) && |r.attributes| == 0)
    && Dropped(n.actions, r.actions, ExtrasGone(r))
    && Dropped(n.warnings, r.warnings, ExtrasGone(r) && |r.actions| == 0)
  }

  predicate NamesInOrder(n: Node, r: Node) {
    && Dropped(n.description, r.description, ListsGone(r))
    && Dropped(n.name, r.name, ListsGone(r) && |r.description| == 0)
    && Dropped(n.interfaces, r.interfaces, NamesGone(r))
    && Dropped(n.states, r.states, NamesGone(r) && |r.interfaces| == 0)
    && Dropped(n.children, r.children, TraitsGone(r))
  }

  lemma NothingGivenUp(n: Node)
    ensures GivenUpInOrder(n, n)
  {}

  /** Half of the text, cut at a character boundary. */
  function HalveText(node: Node): Node {
    node.(text := Utf8.LongestValid(node.text, |node.text| / 2), textTruncated := true)
  }

  /** Attributes, then relations. */
  function ClearExtras(node: Node): Node { if |node.attributes| > 0 then node.(attributes := []) else node.(relations := []) }

  /** Actions, then warnings. */
  function ClearLists(node: Node): Node { if |node.actions| > 0 then node.(actions := []) else node.(warnings := []) }

  /** Description, then name. */
  function ClearNames(node: Node): Node { if |node.description| > 0 then node.(description := []) else node.(name := []) }

  /** Interfaces, then states. */
  function ClearTraits(node: Node): Node { if |node.interfaces| > 0 then node.(interfaces := []) else node.(states := []) }

  /** One step of giving contents up: the text is halved until it is gone, then the other contents
      go one by one. */
  function GiveUp(node: Node): Node {
    if |node.text| > 0 then HalveText(node)
    else if !ExtrasGone(node) then ClearExtras(node)
    else if !ListsGone(node) then ClearLists(node)
    else if !NamesGone(node) then ClearNames(node)
    else if !TraitsGone(node) then ClearTraits(node)
    else node.(children := [])
  }

  /** The node after k steps. */
  function GivenUp(n: Node, k: nat): Node { if k == 0 then n else GiveUp(GivenUp(n, k - 1)) }

  predicate TooBig(n: Node, maxBytes: int) { NodeSize(n) + 60 > maxBytes }

  /** The k-th step is the first after which the node fits, or has nothing left to give up. */
  ghost predicate FirstFit(n: Node, k: nat, maxBytes: int) {
    && (!TooBig(GivenUp(n, k), maxBytes) || Emptied(GivenUp(n, k)))
    && forall j: nat :: j < k ==> TooBig(GivenUp(n, j), maxBytes) && !Emptied(GivenUp(n, j))
  }

  /** A node as it leaves the bounding of oversized nodes: no more given up than it takes to fit. */
  ghost predicate BoundedNode(n: Node, r: Node, maxBytes: int) {
    exists k: nat :: FirstFit(n, k, maxBytes) && r == GivenUp(n, k)
  }

  /** There is one way to bound a node; a node that fits stays whole; any other node was too big one step
      before, and fits now unless nothing is left of its contents. */
  lemma BoundedOnce(n: Node, r: Node, r': Node, maxBytes: int)
    requires BoundedNode(n, r, maxBytes) && BoundedNode(n, r', maxBytes)
    ensures r == r'
    ensures !TooBig(n, maxBytes) ==> r == n
    ensures TooBig(r, maxBytes) ==> Emptied(r)
    ensures r != n ==> exists k: nat :: r == GiveUp(GivenUp(n, k)) && TooBig(GivenUp(n, k), maxBytes)
  {
    hide TooBig, Emptied, GiveUp;
    var k: nat :| FirstFit(n, k, maxBytes) && r == GivenUp(n, k);
    var k': nat :| FirstFit(n, k', maxBytes) && r' == GivenUp(n, k');
    assert k <= k' && k' <= k;
    if k > 0 { assert r == GiveUp(GivenUp(n, k - 1)) && TooBig(GivenUp(n, k - 1), maxBytes); }
    if !TooBig(n, maxBytes) { assert GivenUp(n, 0) == n; }
  }

  function Weight(n: Node): nat {
    |n.text| + |n.attributes| + |n.relations| + |n.actions| + |n.warnings| + |n.description| + |n.name|
    + |n.interfaces| + |n.states| + |n.children|
  }

  lemma HalvedInOrder(n: Node, node: Node)
    requires GivenUpInOrder(n, node) && |node.text| > 0
    ensures GivenUpInOrder(n, HalveText(node)) && Weight(HalveText(node)) < Weight(node)
  {}

  lemma ExtrasInOrder(n: Node, node: Node)
    requires GivenUpInOrder(n, node) && TextGone(node) && !ExtrasGone(node)
    ensures GivenUpInOrder(n, ClearExtras(node)) && Weight(ClearExtras(node)) < Weight(node)
  {
    if |node.attributes| > 0 {
      assert ClearExtras(node) == node.(attributes := []);
      assert GivenUpInOrder(n, node.(attributes := []));
    } else {
      assert ClearExtras(node) == node.(relations := []);
      assert GivenUpInOrder(n, node.(relations := []));
    }
  }

  lemma ListsStepInOrder(n: Node, node: Node)
    requires GivenUpInOrder(n, node) && ExtrasGone(node) && !ListsGone(node)
    ensures GivenUpInOrder(n, ClearLists(node)) && Weight(ClearLists(node)) < Weight(node)
  {
    if |node.actions| > 0 {
      assert ClearLists(node) == node.(actions := []);
      assert GivenUpInOrder(n, node.(actions := []));
    } else {
      assert ClearLists(node) == node.(warnings := []);
      assert GivenUpInOrder(n, node.(warnings := []));
    }
  }

  lemma NamesStepInOrder(n: Node, node: Node)
    requires GivenUpInOrder(n, node) && ListsGone(node) && !NamesGone(node)
    ensures GivenUpInOrder(n, ClearNames(node)) && Weight(ClearNames(node)) < Weight(node)
  {
    if |node.description| > 0 {
      assert ClearNames(node) == node.(description := []);
      assert GivenUpInOrder(n, node.(description := []));
    } else {
      assert ClearNames(node) == node.(name := []);
      assert GivenUpInOrder(n, node.(name := []));
    }
  }

  lemma TraitsInOrder(n: Node, node: Node)
    requires GivenUpInOrder(n, node) && NamesGone(node) && !TraitsGone(node)
    ensures GivenUpInOrder(n, ClearTraits(node)) && Weight(ClearTraits(node)) < Weight(node)
  {
    if |node.interfaces| > 0 {
      assert ClearTraits(node) == node.(interfaces := []);
      assert GivenUpInOrder(n, node.(interfaces := []));
    } else {
      assert ClearTraits(node) == node.(states := []);
      assert GivenUpInOrder(n, node.(states := []));
    }
  }

  lemma ChildrenInOrder(n: Node, node: Node)
    requires GivenUpInOrder(n, node) && TraitsGone(node)
    ensures GivenUpInOrder(n, node.(children := []))
    ensures !Emptied(node) ==> Weight(node.(children := [])) < Weight(node)
  {}

  /** A step keeps the order and leaves less. */
  lemma StepInOrder(n: Node, node: Node)
    requires GivenUpInOrder(n, node)
    ensures GivenUpInOrder(n, GiveUp(node)) && (!Emptied(node) ==> Weight(GiveUp(node)) < Weight(node))
  {
    hide GivenUpInOrder, Weight, Emptied, HalveText, ClearExtras, ClearLists, ClearNames, ClearTraits;
    if |node.text| > 0 {
      HalvedInOrder(n, node);
    } else if !ExtrasGone(node) {
      ExtrasInOrder(n, node);
    } else if !ListsGone(node) {
      ListsStepInOrder(n, node);
    } else if !NamesGone(node) {
      NamesStepInOrder(n, node);
    } else if !TraitsGone(node) {
      TraitsInOrder(n, node);
    } else {
      ChildrenInOrder(n, node);
    }
  }

  /** However many steps are taken, contents go in the fixed order. */
  lemma {:induction false} StepsInOrder(n: Node, k: nat)
    ensures GivenUpInOrder(n, GivenUp(n, k))
  {
    hide GivenUpInOrder, GiveUp;
    if k == 0 {
      NothingGivenUp(n);
    } else {
      StepsInOrder(n, k - 1);
      StepInOrder(n, GivenUp(n, k - 1));
    }
  }

  /** One step of giving contents up. */
  method GiveUpOne(node: Node) returns (r: Node)
    requires !Emptied(node)
    ensures r == GiveUp(node) && Weight(r) < Weight(node)
  {
    hide GivenUpInOrder, Weight, Emptied, ClearExtras, ClearLists, ClearNames, ClearTraits;
    NothingGivenUp(node);
    StepInOrder(node, node);
    if |node.text| > 0 {
      var limit := |node.text| / 2;
      if limit == |node.text| { limit := limit - 1; }
      var text, cut := Utf8.Truncate(node.text, limit);
      return node.(text := text, textTruncated := true);
    }
    return GiveUp(node);
  }

  /** `boundNodeResponse`. */
  method BoundNode(n: Node, maxBytes: int) returns (node: Node)
    ensures BoundedNode(n, node, maxBytes)
  {
    hide NodeSize, Emptied, Weight, GiveUp;
    node := n;
    ghost var k: nat := 0;
    while NodeSize(node) + 60 > maxBytes
      invariant node == GivenUp(n, k)
      invariant forall j: nat :: j < k ==> TooBig(GivenUp(n, j), maxBytes) && !Emptied(GivenUp(n, j))
      decreases Weight(node)
    {
      if Emptied(node) {
        assert FirstFit(n, k, maxBytes);
        return node;
      }
      node := GiveUpOne(node);
      k := k + 1;
    }
    assert FirstFit(n, k, maxBytes);
  }

  lemma FittingStays(n: Node, maxBytes: int)
    requires NodeSize(n) + 60 <= maxBytes
    ensures BoundedNode(n, n, maxBytes)
  {
    hide NodeSize;
    assert FirstFit(n, 0, maxBytes);
  }

  /** `boundSnapshotNodes`. */
  method BoundNodes(nodes: seq<Node>, sizes0: seq<nat>, maxBytes: int) returns (bounded: seq<Node>, sizes: seq<nat>)
    requires Sized(nodes, sizes0)
    ensures |bounded| == |nodes| && Sized(bounded, sizes)
    ensures forall i :: 0 <= i < |nodes| ==> BoundedNode(nodes[i], bounded[i], maxBytes)
  {
    hide NodeSize, BoundedNode;
    bounded, sizes := nodes, sizes0;
    for i := 0 to |nodes|
      invariant |bounded| == |nodes| && Sized(bounded, sizes)
      invariant forall j :: 0 <= j < i ==> BoundedNode(nodes[j], bounded[j], maxBytes)
      invariant forall j :: i <= j < |nodes| ==> bounded[j] == nodes[j]
    {
      if sizes[i] + 60 <= maxBytes { FittingStays(nodes[i], maxBytes); }
      if sizes[i] + 60 > maxBytes {
        var node := BoundNode(nodes[i], maxBytes);
        bounded, sizes := bounded[i := node], sizes[i := NodeSize(node)];
      }
    }
  }

  // ----------------------------------------------------------- the whole response

  function WithRoot(s: Snapshot): (r: Snapshot)
    ensures Rooted(r) && r.nodes == s.nodes
  {
    if s.NodeList() != [] then s.(root := s.NodeList()[0]) else s
  }

  function Reason(maxBytes: int): Str { Bytes("max total bytes ") + Decimal(maxBytes) }

  function AppendUnique(values: seq<Str>, value: Str): seq<Str> { if value in values then values else values + [value] }

  /** A reason comes in once, behind the others. */
  lemma ReasonOnce(values: seq<Str>, value: Str)
    requires NoDup(values)
    ensures NoDup(AppendUnique(values, value)) && values <= AppendUnique(values, value)
    ensures Elems(AppendUnique(values, value)) == Elems(values) + {value}
  {}

  /** The snapshot after it was found too large and its oversized nodes were bounded. */
  ghost predicate Trimmed(s: Snapshot, t: Snapshot, maxBytes: int) {
    && t == s.(truncated := true, truncationReasons := AppendUnique(s.truncationReasons, Reason(maxBytes)), nodes := t.nodes, root := t.root)
    && t.nodes.Some? == s.nodes.Some? && |t.NodeList()| == |s.NodeList()|
    && (forall i :: 0 <= i < |s.NodeList()| ==> BoundedNode(s.NodeList()[i], t.NodeList()[i], maxBytes))
    && t.root == if t.NodeList() == [] then s.root else t.NodeList()[0]
  }

  /** The least response: an envelope with the root's identity. */
  function Least(s: Snapshot): Snapshot {
    s.(nodes := None, root := Bare(s.root.id), warnings := [], providerErrors := 0)
  }

  lemma BoundedKeepsNonEmpty(n: Node, r: Node, maxBytes: int)
    requires BoundedNode(n, r, maxBytes)
    ensures EmptyTargets(r) <= EmptyTargets(n)
  {
    hide NodeSize, Emptied, GiveUp;
    var k: nat :| FirstFit(n, k, maxBytes) && r == GivenUp(n, k);
    StepsInOrder(n, k);
  }

  lemma {:induction false} NoNewEmptyLists(s: Snapshot, t: Snapshot, maxBytes: int)
    requires Rooted(s) && Trimmed(s, t, maxBytes) && EmptyLists(s) == 0
    ensures EmptyLists(t) == 0
  {
    hide BoundedNode, EmptyTargets, Reason;
    forall i | 0 <= i < |s.NodeList()| ensures EmptyTargets(t.NodeList()[i]) <= EmptyTargets(s.NodeList()[i]) {
      BoundedKeepsNonEmpty(s.NodeList()[i], t.NodeList()[i], maxBytes);
    }
    SumLeq(s.NodeList(), t.NodeList());
  }

  lemma {:induction false} SumLeq(a: seq<Node>, b: seq<Node>)
    requires |a| == |b| && forall i :: 0 <= i < |a| ==> EmptyTargets(b[i]) <= EmptyTargets(a[i])
    ensures Sum(b, EmptyTargets) <= Sum(a, EmptyTargets)
  {
    if a != [] { SumLeq(a[..|a| - 1], b[..|b| - 1]); }
  }

  // ------------------------------------------------------------ the text bound

  lemma EmptyUtf8()
    ensures Utf8.Valid([])
  {}

  lemma OrderKeepsUtf8(n: Node, r: Node)
    requires GivenUpInOrder(n, r) && Utf8Node(n)
    ensures Utf8Node(r)
  {
    hide NodeSize, Utf8.Valid, Utf8Id, Utf8Relation, Utf8Action;
    EmptyUtf8();
    var before, after := [n.name, n.description, n.role, n.text], [r.name, r.description, r.role, r.text];
    assert before[0] in before && before[1] in before && before[2] in before && before[3] in before;
    assert forall i :: 0 <= i < 4 ==> Utf8.Valid(after[i]);
    assert Utf8All(after);
    assert Utf8All(r.interfaces) && Utf8All(r.states) && Utf8All(r.warnings);
    assert Utf8Ids(r.children);
  }

  lemma BoundedUtf8(n: Node, r: Node, maxBytes: int)
    requires BoundedNode(n, r, maxBytes) && Utf8Node(n)
    ensures Utf8Node(r)
  {
    hide NodeSize, Emptied, GiveUp, Utf8Node, GivenUpInOrder;
    var k: nat :| FirstFit(n, k, maxBytes) && r == GivenUp(n, k);
    StepsInOrder(n, k);
    OrderKeepsUtf8(n, r);
  }

  lemma {:induction false} ClonesUtf8(relations: Entries<Option<seq<NodeID>>>)
    requires forall e :: e in relations ==> Utf8Relation(e)
    ensures forall e :: e in CloneRelations(relations) ==> Utf8Relation(e)
  {
    if relations != [] {
      ClonesUtf8(relations[..|relations| - 1]);
      assert relations[|relations| - 1] in relations;
    }
  }

  lemma CloneUtf8(n: Node)
    requires Utf8Node(n)
    ensures Utf8Node(CloneNode(n))
  {
    hide Utf8Relation, Utf8All, Utf8Id, Utf8Ids, CloneRelations;
    ClonesUtf8(n.relations);
  }

  lemma {:induction false} KeptUtf8(relations: Entries<Option<seq<NodeID>>>, retained: set<NodeID>)
    requires forall e :: e in relations ==> Utf8Relation(e)
    ensures forall e :: e in KeptRelations(relations, retained) ==> Utf8Relation(e)
  {
    if relations != [] {
      KeptUtf8(relations[..|relations| - 1], retained);
      assert relations[|relations| - 1] in relations;
    }
  }

  lemma PrunedUtf8(n: Node, retained: set<NodeID>)
    requires Utf8Node(n)
    ensures Utf8Node(Pruned(n, retained))
  {
    hide Utf8Relation, Utf8All, Utf8Id, KeptRelations;
    KeptUtf8(n.relations, retained);
  }

  lemma {:induction false} DigitsAscii(n: nat)
    ensures forall c :: c in Digits(n) ==> c < 0x80
  {
    if n >= 10 { DigitsAscii(n / 10); }
  }

  lemma DecimalAscii(n: int)
    ensures forall c :: c in Decimal(n) ==> c < 0x80
  {
    DigitsAscii(if n < 0 then -n else n);
  }

  lemma ReasonUtf8(maxBytes: int)
    ensures Utf8.Valid(Reason(maxBytes))
  {
    hide Decimal;
    DecimalAscii(maxBytes);
    var text := "max total bytes ";
    assert forall i :: 0 <= i < |text| ==> text[i] < 0x80 as char;
    Utf8.SevenBit(Reason(maxBytes));
  }

  lemma BareUtf8(id: NodeID)
    requires Utf8Id(id)
    ensures Utf8Node(Bare(id))
  {
    assert Utf8.Valid([]);
    forall x | x in [Bare(id).name, Bare(id).description, Bare(id).role, Bare(id).text] ensures Utf8.Valid(x) { assert x == []; }
  }

  /** Trimming, pruning and cloning leave valid text valid. */
  lemma ResponseUtf8(s: Snapshot, t: Snapshot, maxBytes: int, r: Option<Snapshot>, best: int)
    requires Utf8Snapshot(s) && Rooted(s)
    requires r == Some(Clone(s)) || (Trimmed(s, t, maxBytes) && Projected(t, maxBytes, r, best))
    ensures r.Some? ==> Utf8Snapshot(r.value)
  {
    hide Utf8Node, BoundedNode, Projected, Trimmed, Clone, SnapshotSize, Prefix, Least, Reason;
    if r == Some(Clone(s)) {
      CloneAllUtf8(s);
    } else {
      TrimmedUtf8(s, t, maxBytes);
      ProjectedUtf8(t, maxBytes, r, best);
    }
  }

  lemma CloneAllUtf8(s: Snapshot)
    requires Utf8Snapshot(s)
    ensures Utf8Snapshot(Clone(s))
  {
    hide Utf8Node, CloneNode, Utf8All;
    CloneUtf8(s.root);
    var nodes := s.NodeList();
    forall n | n in Clone(s).NodeList() ensures Utf8Node(n) {
      var i :| 0 <= i < |nodes| && n == CloneNode(nodes[i]);
      CloneUtf8(nodes[i]);
    }
    if nodes != [] { CloneUtf8(nodes[0]); }
  }

  lemma TrimmedUtf8(s: Snapshot, t: Snapshot, maxBytes: int)
    requires Utf8Snapshot(s) && Trimmed(s, t, maxBytes)
    ensures Utf8Snapshot(t)
  {
    hide Utf8Node, BoundedNode, Reason;
    ReasonUtf8(maxBytes);
    forall n | n in t.NodeList() ensures Utf8Node(n) {
      var i :| 0 <= i < |t.NodeList()| && n == t.NodeList()[i];
      assert s.NodeList()[i] in s.NodeList();
      BoundedUtf8(s.NodeList()[i], n, maxBytes);
    }
    if t.NodeList() != [] { assert t.root in t.NodeList(); }
  }

  lemma PrefixUtf8(s: Snapshot, k: nat)
    requires Utf8Snapshot(s) && k <= |s.NodeList()|
    ensures Utf8Snapshot(Prefix(s, k))
  {
    hide Utf8Node, Pruned, Bare, Utf8All;
    if k == 0 {
      RootUtf8(s.root);
      BareUtf8(s.root.id);
    } else {
      var nodes := s.NodeList()[..k];
      forall i | 0 <= i < k ensures Utf8Node(Pruned(nodes[i], Ids(nodes))) {
        assert nodes[i] in s.NodeList();
        PrunedUtf8(nodes[i], Ids(nodes));
      }
    }
  }

  lemma RootUtf8(n: Node)
    requires Utf8Node(n)
    ensures Utf8Id(n.id)
  {}

  lemma ProjectedUtf8(t: Snapshot, maxBytes: int, r: Option<Snapshot>, best: int)
    requires Utf8Snapshot(t) && Projected(t, maxBytes, r, best)
    ensures r.Some? ==> Utf8Snapshot(r.value)
  {
    hide Utf8Node, Clone, SnapshotSize, Prefix, Bare, Longest, Fits;
    if SnapshotSize(t) <= maxBytes {
      CloneAllUtf8(t);
    } else if 0 <= best <= |t.NodeList()| {
      PrefixUtf8(t, best);
    } else {
      RootUtf8(t.root);
      BareUtf8(t.root.id);
    }
  }

  /** How a response comes about once trimming set in. */
  predicate Projected(t: Snapshot, maxBytes: int, r: Option<Snapshot>, best: int) {
    if SnapshotSize(t) <= maxBytes then r == Some(Clone(t))
    else if 0 <= best <= |t.NodeList()| then r == Some(Prefix(t, best)) && Longest(t, best, maxBytes)
    else !Fits(t, 0, maxBytes) && r == if SnapshotSize(Least(t)) <= maxBytes then Some(Least(t)) else None
  }

  /** The response to a snapshot: whole if it fits, else its oversized nodes bounded and projected. */
  ghost predicate Response(s: Snapshot, maxBytes: int, r: Option<Snapshot>, t: Snapshot, best: int) {
    if maxBytes <= 0 || SnapshotSize(s) <= maxBytes then r == Some(Clone(s))
    else Trimmed(s, t, maxBytes) && Projected(t, maxBytes, r, best)
  }

  /** End to end: for a snapshot of valid text without empty lists the JSON text of the response is
      within the limit, whatever the snapshot and whatever the limit. */
  lemma TextWithinLimit(snapshot: Snapshot, maxBytes: int, r: Option<Snapshot>, t: Snapshot, best: int)
    requires Response(WithRoot(snapshot), maxBytes, r, t, best) && maxBytes > 0 && r.Some?
    requires Utf8Snapshot(snapshot) && EmptyLists(WithRoot(snapshot)) == 0
    ensures |SnapshotText(r.value)| <= maxBytes
  {
    hide Utf8Node, NodeSize, SnapshotSize, SnapshotText, Clone, Trimmed, Prefix, EmptyLists;
    var s := WithRoot(snapshot);
    RootedUtf8(snapshot);
    ResponseUtf8(s, t, maxBytes, r, best);
    CloneSize(s);
    if SnapshotSize(s) > maxBytes {
      TrimmedRooted(s, t, maxBytes);
      NoNewEmptyLists(s, t, maxBytes);
      CloneSize(t);
    }
    SnapshotFits(r.value);
  }

  lemma {:induction false} NothingCloned(relations: Entries<Option<seq<NodeID>>>)
    requires EmptyEntries(relations) == 0
    ensures CloneRelations(relations) == relations
  {
    if relations != [] {
      NothingCloned(relations[..|relations| - 1]);
      assert relations == relations[..|relations| - 1] + [relations[|relations| - 1]];
    }
  }

  lemma {:induction false} NodesCloned(nodes: seq<Node>)
    requires Sum(nodes, EmptyTargets) == 0
    ensures CloneNodes(nodes) == nodes
  {
    if nodes != [] {
      NodesCloned(nodes[..|nodes| - 1]);
      NothingCloned(nodes[|nodes| - 1].relations);
      assert nodes == nodes[..|nodes| - 1] + [nodes[|nodes| - 1]];
    }
  }

  /** A clone of a snapshot without empty lists is the snapshot. */
  lemma CloneIsSame(s: Snapshot)
    requires Rooted(s) && EmptyLists(s) == 0
    ensures Clone(s) == s
  {
    hide EmptyEntries, CloneRelations;
    NodesCloned(s.NodeList());
    NothingCloned(s.root.relations);
  }

  lemma WithinEstimate(s: Snapshot, t: Snapshot, maxBytes: int, r: Option<Snapshot>, best: int)
    requires Rooted(s) && EmptyLists(s) == 0 && maxBytes > 0 && SnapshotSize(s) > maxBytes
    requires Response(s, maxBytes, r, t, best) && r.Some?
    ensures SnapshotSize(r.value) <= maxBytes
  {
    hide NodeSize, SnapshotSize, Clone, Trimmed, Prefix, EmptyLists;
    TrimmedRooted(s, t, maxBytes);
    NoNewEmptyLists(s, t, maxBytes);
    CloneSize(t);
  }

  /** A response is the snapshot itself exactly if no limit is set or the JSON text leaves the slack of the
      estimate: nothing is given up that need not be. */
  lemma WholeExactly(snapshot: Snapshot, maxBytes: int, r: Option<Snapshot>, t: Snapshot, best: int)
    requires Response(WithRoot(snapshot), maxBytes, r, t, best)
    requires Utf8Snapshot(snapshot) && EmptyLists(WithRoot(snapshot)) == 0
    ensures var s := WithRoot(snapshot);
      r == Some(s) <==> maxBytes <= 0 || |SnapshotText(s)| + SnapshotSlack(s) <= maxBytes
  {
    hide Utf8Node, NodeSize, SnapshotSize, SnapshotText, SnapshotSlack, Clone, Projected, Trimmed, EmptyLists;
    var s := WithRoot(snapshot);
    RootedUtf8(snapshot);
    SnapshotFits(s);
    CloneIsSame(s);
    if maxBytes > 0 && SnapshotSize(s) > maxBytes && r.Some? { WithinEstimate(s, t, maxBytes, r, best); }
  }

  lemma RootedUtf8(snapshot: Snapshot)
    requires Utf8Snapshot(snapshot)
    ensures Utf8Snapshot(WithRoot(snapshot))
  {
    hide Utf8Node;
  }

  lemma TrimmedRooted(s: Snapshot, t: Snapshot, maxBytes: int)
    requires Rooted(s) && Trimmed(s, t, maxBytes)
    ensures Rooted(t)
  {
    hide BoundedNode, Reason;
  }

  /** An empty snapshot with a present but empty node list. */
  const HOLLOW: Snapshot := Snapshot(Bare(NO_NODE), Some([]), false, [], 0, [], 0, [], [])

  lemma HollowSize()
    ensures SnapshotSize(HOLLOW) == 317
  {
    assert BaseSize(HOLLOW) == 67;
    assert IdSize(NO_NODE) == 45;
    assert NodeSize(HOLLOW.root) == 248;
  }

  /** One input over its limit: an empty snapshot whose node list is present is estimated at the limit
      and returned whole, and the returned clone is two bytes larger. */
  lemma HollowIsOverLimit(r: Option<Snapshot>, t: Snapshot, best: int)
    requires Response(WithRoot(HOLLOW), SnapshotSize(HOLLOW), r, t, best)
    ensures r == Some(HOLLOW.(nodes := None)) && SnapshotSize(r.value) == SnapshotSize(HOLLOW) + 2
    ensures SnapshotSize(HOLLOW) == 317
  {
    HollowSize();
    hide NodeSize, BaseSize, SnapshotSize;
    CloneSize(HOLLOW);
  }

  /** Text goes half at a time: a step leaves a prefix of at most half, short of that by three bytes at most,
      and nothing else but the remark changes. */
  lemma TextIsHalved(n: Node)
    requires n.text != [] && Utf8.Valid(n.text)
    ensures var r := GiveUp(n);
      && r == n.(text := r.text, textTruncated := true) && r.text <= n.text && Utf8.Valid(r.text)
      && |n.text| / 2 - 3 <= |r.text| <= |n.text| / 2
  {
    Utf8.LongestIsNear(n.text, |n.text| / 2);
  }

  /** The least response is no larger than any prefix: if it does not fit, nothing does. */
  lemma LeastIsLeast(s: Snapshot, k: nat)
    requires Rooted(s) && k <= |s.NodeList()|
    ensures SnapshotSize(Least(s)) <= SnapshotSize(Prefix(s, k))
  {
    PrefixMonotone(s, 0, k);
    PrefixSize(s, 0);
    hide NodeSize, StringSize, StringList, Digits, Prefix;
  }

  // ------------------------------------------------- what a response still shows

  lemma PartOfPart(a: Node, b: Node, c: Node)
    requires PartOf(a, b) && PartOf(b, c)
    ensures PartOf(a, c)
  {
    assert a.children != [] ==> a.children[0] in a.children;
  }

  lemma BoundedIsPart(n: Node, r: Node, maxBytes: int)
    requires BoundedNode(n, r, maxBytes)
    ensures PartOf(r, n) && r.id == n.id && (r.children == n.children || r.children == [])
  {
    hide NodeSize, Emptied, GiveUp, TextGone, ExtrasGone, ListsGone, NamesGone, TraitsGone, Bare;
    var k: nat :| FirstFit(n, k, maxBytes) && r == GivenUp(n, k);
    StepsInOrder(n, k);
  }

  lemma SameIds(a: seq<Node>, b: seq<Node>)
    requires |a| == |b| && forall i :: 0 <= i < |a| ==> a[i].id == b[i].id
    ensures Ids(a) == Ids(b)
  {
    forall id | id in Ids(a) ensures id in Ids(b) {
      var i :| 0 <= i < |a| && a[i].id == id;
      assert b[i] in b;
    }
    forall id | id in Ids(b) ensures id in Ids(a) {
      var i :| 0 <= i < |b| && b[i].id == id;
      assert a[i] in a;
    }
  }

  /** A snapshot with the same identities whose nodes are parts of the nodes in the same places. */
  ghost predicate Shrunk(part: Snapshot, whole: Snapshot) {
    && |part.NodeList()| == |whole.NodeList()| && PartOf(part.root, whole.root)
    && forall i :: 0 <= i < |part.NodeList()| ==> PartOf(part.NodeList()[i], whole.NodeList()[i])
  }

  lemma ShrunkIsPart(part: Snapshot, whole: Snapshot)
    requires Shrunk(part, whole)
    ensures PartOfSnapshot(part, whole) && (ListsOwn(whole) ==> ListsOwn(part))
  {
    hide PartOf;
    var a, b := part.NodeList(), whole.NodeList();
    forall i | 0 <= i < |a| ensures a[i].id == b[i].id && forall c :: c in a[i].children ==> c in b[i].children {
      PartShowsLess(a[i], b[i]);
    }
    PartShowsLess(part.root, whole.root);
    SameIds(a, b);
    forall n | n in a ensures HasPart(whole, n) && exists m :: m in b && forall c :: c in n.children ==> c in m.children {
      var i :| 0 <= i < |a| && a[i] == n;
      assert b[i] in b;
    }
  }

  lemma PartShowsLess(part: Node, whole: Node)
    requires PartOf(part, whole)
    ensures part.id == whole.id && forall c :: c in part.children ==> c in whole.children
  {}

  lemma CloneShrinks(s: Snapshot)
    requires Rooted(s)
    ensures Shrunk(Clone(s), s)
  {
    hide CloneRelations, Bare;
  }

  lemma TrimmedShrinks(s: Snapshot, t: Snapshot, maxBytes: int)
    requires Rooted(s) && Trimmed(s, t, maxBytes)
    ensures Shrunk(t, s)
  {
    hide BoundedNode, Reason, PartOf;
    forall i | 0 <= i < |s.NodeList()| ensures PartOf(t.NodeList()[i], s.NodeList()[i]) {
      BoundedIsPart(s.NodeList()[i], t.NodeList()[i], maxBytes);
    }
    PartOfItself(s.root);
  }

  lemma PartOfItself(n: Node)
    ensures PartOf(n, n)
  {}

  lemma PrefixIsPart(s: Snapshot, k: nat)
    requires Rooted(s) && k <= |s.NodeList()|
    ensures PartOfSnapshot(Prefix(s, k), s) && ListsOwn(Prefix(s, k))
  {
    hide Ids, KeptRelations, Kept;
    if k > 0 {
      PrefixClosed(s, k);
      var nodes := s.NodeList()[..k];
      assert forall n :: n in Prefix(s, k).NodeList() ==> RefersWithin(n, Ids(Prefix(s, k).NodeList()));
      forall i | 0 <= i < k ensures PartOf(Pruned(nodes[i], Ids(nodes)), s.NodeList()[i]) {
        PrunedIsPart(nodes[i], Ids(nodes));
      }
      forall n | n in Prefix(s, k).NodeList() ensures HasPart(s, n) {
        var i :| 0 <= i < k && n == Pruned(nodes[i], Ids(nodes));
        assert s.NodeList()[i] in s.NodeList();
      }
    }
  }

  lemma PrunedIsPart(n: Node, retained: set<NodeID>)
    ensures PartOf(Pruned(n, retained), n)
  {
    hide KeptRelations;
  }

  lemma PartOfSnapshotTransitive(a: Snapshot, b: Snapshot, c: Snapshot)
    requires PartOfSnapshot(a, b) && PartOfSnapshot(b, c)
    ensures PartOfSnapshot(a, c)
  {
    hide PartOf;
    PartOfPart(a.root, b.root, c.root);
    forall n | n in a.NodeList() ensures HasPart(c, n) {
      var m :| m in b.NodeList() && PartOf(n, m);
      assert HasPart(c, m);
      var l :| l in c.NodeList() && PartOf(m, l);
      PartOfPart(n, m, l);
    }
  }

  /** Whatever is given up for the limit, a response shows nothing but parts of the snapshot's nodes, and
      lists as children only what it shows if the snapshot did. */
  lemma ResponseIsPart(s: Snapshot, t: Snapshot, maxBytes: int, r: Option<Snapshot>, best: int)
    requires Rooted(s) && Response(s, maxBytes, r, t, best) && r.Some?
    ensures PartOfSnapshot(r.value, s) && (ListsOwn(s) ==> ListsOwn(r.value))
  {
    hide PartOf, Trimmed, Clone, SnapshotSize, Prefix, Longest, Fits, ListsOwn, PartOfSnapshot, Shrunk;
    if maxBytes <= 0 || SnapshotSize(s) <= maxBytes {
      CloneShrinks(s);
      ShrunkIsPart(r.value, s);
    } else {
      TrimmedRooted(s, t, maxBytes);
      TrimmedShrinks(s, t, maxBytes);
      ShrunkIsPart(t, s);
      ProjectedIsPart(t, maxBytes, r, best);
      PartOfSnapshotTransitive(r.value, t, s);
    }
  }

  lemma ProjectedIsPart(t: Snapshot, maxBytes: int, r: Option<Snapshot>, best: int)
    requires Rooted(t) && Projected(t, maxBytes, r, best) && r.Some?
    ensures PartOfSnapshot(r.value, t) && (ListsOwn(t) ==> ListsOwn(r.value))
  {
    hide Clone, SnapshotSize, Prefix, Longest, Fits;
    if SnapshotSize(t) <= maxBytes {
      CloneShrinks(t);
      ShrunkIsPart(r.value, t);
    } else if 0 <= best <= |t.NodeList()| {
      PrefixIsPart(t, best);
    }
  }

  /** The size of the whole from the node sizes and their running sums. */
  method SizeFromIndex(s: Snapshot, base: nat, sizes: seq<nat>, sums: seq<nat>) returns (size: nat)
    requires Rooted(s) && Sized(s.NodeList(), sizes) && Summed(s.NodeList(), sums) && base == BaseSize(s)
    ensures size == SnapshotSize(s)
  {
    hide NodeSize, BaseSize;
    var n := |s.NodeList()|;
    assert s.NodeList()[..n] == s.NodeList();
    var rootSize := if n > 0 then sizes[0] else NodeSize(s.root);
    return SizeFromBase(base, rootSize, sums[n], n, s.nodes.None?);
  }

  /** `boundSnapshotResponse`; no result is the budget error. A snapshot that fits is returned
      whole; else its oversized nodes are bounded, then the longest prefix that fits is kept;
      else the least response, if that fits. Whatever the limit, the result is within it,
      exactly for the snapshots without present but empty lists. */
  method BoundSnapshotResponse(snapshot: Snapshot, maxBytes: int) returns (r: Option<Snapshot>, ghost t: Snapshot, ghost best: int)
    ensures Response(WithRoot(snapshot), maxBytes, r, t, best)
    ensures maxBytes > 0 && EmptyLists(WithRoot(snapshot)) == 0 && r.Some? ==> SnapshotSize(r.value) <= maxBytes
    ensures maxBytes == SnapshotSize(WithRoot(snapshot)) && EmptyLists(WithRoot(snapshot)) > 0 ==>
      r.Some? && SnapshotSize(r.value) > maxBytes
  {
    hide NodeSize, BaseSize, SnapshotSize, Prefix, Clone, BoundedNode, EmptyTargets, Reason, Bare, EmptyLists;
    var s := WithRoot(snapshot);
    t, best := s, -1;
    CloneSize(s);
    SizePositive(s);
    if maxBytes <= 0 { return Some(Clone(s)), t, best; }
    var sizes := NodeSizes(s.NodeList());
    var sums := PrefixSums(s.NodeList(), sizes);
    var size := SizeFromIndex(s, BaseSize(s), sizes, sums);
    if size <= maxBytes { return Some(Clone(s)), t, best; }
    var trimmed := s.(truncated := true, truncationReasons := AppendUnique(s.truncationReasons, Reason(maxBytes)));
    var base := BaseSize(trimmed);
    var bounded;
    bounded, sizes := BoundNodes(s.NodeList(), sizes, maxBytes);
    trimmed := trimmed.(nodes := if s.nodes.None? then None else Some(bounded));
    if bounded != [] { trimmed := trimmed.(root := bounded[0]); }
    t := trimmed;
    SameBase(s.(truncated := true, truncationReasons := AppendUnique(s.truncationReasons, Reason(maxBytes))), trimmed);
    sums := PrefixSums(trimmed.NodeList(), sizes);
    if EmptyLists(s) == 0 { NoNewEmptyLists(s, trimmed, maxBytes); }
    CloneSize(trimmed);
    size := SizeFromIndex(trimmed, base, sizes, sums);
    if size <= maxBytes { return Some(Clone(trimmed)), t, best; }
    var projected, k := ProjectPrefix(trimmed, sizes, sums, base, maxBytes);
    best := k;
    if SnapshotSize(projected) > maxBytes {
      LeastOfPrefix(trimmed);
      var least := Least(projected);
      if SnapshotSize(least) > maxBytes { return None, t, best; }
      return Some(least), t, best;
    }
    return Some(projected), t, best;
  }

  lemma SizePositive(s: Snapshot)
    ensures SnapshotSize(s) > 0
  {
    hide NodeSize, Digits, StringSize, StringList;
  }

  lemma LeastOfPrefix(s: Snapshot)
    ensures Least(Prefix(s, 0)) == Least(s)
  {}
}
