/** The walk over a provider's tree that makes a snapshot. */
module Walk {
  import opened Basics
  import opened AtSpi
  import opened Snapshots
  import opened Budget
  import opened Estimates
  import opened Json

  // ------------------------------------------------------------------ relations

  /** A relation set as the provider sends it: for each relation its name, empty if the type is
      unknown, and its targets, some of them null. */
  type RelationSet = seq<(Str, seq<Option<NodeID>>)>

  /** The targets given under one name, without the null ones, in order. */
  function Present(targets: seq<Option<NodeID>>): seq<NodeID> {
    if targets == [] then []
    else
      var rest, last := Present(targets[..|targets| - 1]), targets[|targets| - 1];
      if last.Some? then rest + [last.value] else rest
  }

  function TargetsNamed(raw: RelationSet, name: Str): seq<NodeID> {
    if raw == [] then []
    else
      var last := raw[|raw| - 1];
      TargetsNamed(raw[..|raw| - 1], name) + if last.0 == name && name != [] then Present(last.1) else []
  }

  /** The relations read so far: a name has an entry exactly if it was given a target. */
  ghost predicate ReadSoFar(relations: map<Str, seq<NodeID>>, raw: RelationSet) {
    && (forall name :: name in relations <==> TargetsNamed(raw, name) != [])
    && (forall name :: name in relations ==> relations[name] == TargetsNamed(raw, name))
  }

  function Appended(relations: map<Str, seq<NodeID>>, name: Str, targets: seq<NodeID>): map<Str, seq<NodeID>> {
    if targets == [] then relations
    else relations[name := (if name in relations then relations[name] else []) + targets]
  }

  lemma AppendOne(relations: map<Str, seq<NodeID>>, name: Str, targets: seq<NodeID>, target: NodeID)
    ensures var r := Appended(relations, name, targets);
      Appended(relations, name, targets + [target]) == r[name := (if name in r then r[name] else []) + [target]]
  {
    var r := Appended(relations, name, targets);
    var before := if name in relations then relations[name] else [];
    assert before + (targets + [target]) == (before + targets) + [target];
    assert targets == [] ==> before + [target] == before + (targets + [target]);
    assert r[name := before + (targets + [target])] == relations[name := before + (targets + [target])];
  }

  /** The targets of one relation, appended one at a time. */
  method AddTargets(before: map<Str, seq<NodeID>>, name: Str, targets: seq<Option<NodeID>>)
    returns (relations: map<Str, seq<NodeID>>)
    ensures relations == Appended(before, name, Present(targets))
  {
    relations := before;
    for j := 0 to |targets|
      invariant relations == Appended(before, name, Present(targets[..j]))
    {
      assert targets[..j + 1][..j] == targets[..j];
      if targets[j].Some? {
        AppendOne(before, name, Present(targets[..j]), targets[j].value);
        relations := relations[name := (if name in relations then relations[name] else []) + [targets[j].value]];
      }
    }
    assert targets[..|targets|] == targets;
  }

  lemma ReadOne(relations: map<Str, seq<NodeID>>, raw: RelationSet, name: Str, targets: seq<Option<NodeID>>)
    requires ReadSoFar(relations, raw)
    ensures ReadSoFar(if name == [] then relations else Appended(relations, name, Present(targets)), raw + [(name, targets)])
  {
    assert (raw + [(name, targets)])[..|raw|] == raw;
  }

  /** `readNodeRelations`: target lists come about by appending alone, so none is empty. */
  method ReadRelations(raw: RelationSet) returns (relations: map<Str, seq<NodeID>>)
    ensures ReadSoFar(relations, raw)
    ensures forall name :: name in relations ==> relations[name] != []
  {
    relations := map[];
    for i := 0 to |raw|
      invariant ReadSoFar(relations, raw[..i])
    {
      ReadOne(relations, raw[..i], raw[i].0, raw[i].1);
      assert raw[..i + 1] == raw[..i] + [raw[i]];
      if raw[i].0 != [] { relations := AddTargets(relations, raw[i].0, raw[i].1); }
    }
    assert raw[..|raw|] == raw;
  }

  /** The entries of a relation map, in whatever order. */
  ghost predicate EntriesOf(entries: Entries<Option<seq<NodeID>>>, relations: map<Str, seq<NodeID>>) {
    && (forall e :: e in entries ==> e.0 in relations && e.1 == Some(relations[e.0]))
    && (forall name :: name in relations ==> (name, Some(relations[name])) in entries)
  }

  method ListEntries(relations: map<Str, seq<NodeID>>) returns (entries: Entries<Option<seq<NodeID>>>)
    ensures EntriesOf(entries, relations)
  {
    entries := [];
    var todo := relations.Keys;
    while todo != {}
      invariant todo <= relations.Keys
      invariant forall e :: e in entries ==> e.0 in relations && e.1 == Some(relations[e.0])
      invariant forall name :: name in relations && name !in todo ==> (name, Some(relations[name])) in entries
      decreases todo
    {
      var name :| name in todo;
      entries, todo := entries + [(name, Some(relations[name]))], todo - {name};
    }
  }

  /** A snapshot as the walk over a provider's tree leaves it: at least one node, and relations read
      from relation sets. */
  ghost predicate Walked(s: Snapshot) {
    s.NodeList() != [] && forall n :: n in s.NodeList() ==> FromProvider(n)
  }

  ghost predicate FromProvider(n: Node) {
    exists relations, raw :: ReadSoFar(relations, raw) && EntriesOf(n.relations, relations)
  }

  lemma ReadFromProvider(n: Node, relations: map<Str, seq<NodeID>>, raw: RelationSet)
    requires ReadSoFar(relations, raw) && EntriesOf(n.relations, relations)
    ensures FromProvider(n)
  {}

  lemma {:induction false} ProviderTargets(entries: Entries<Option<seq<NodeID>>>, relations: map<Str, seq<NodeID>>, raw: RelationSet)
    requires ReadSoFar(relations, raw) && forall e :: e in entries ==> e.0 in relations && e.1 == Some(relations[e.0])
    ensures EmptyEntries(entries) == 0
  {
    if entries != [] {
      ProviderTargets(entries[..|entries| - 1], relations, raw);
      assert entries[|entries| - 1] in entries;
    }
  }

  lemma {:induction false} NoEmptyTargets(nodes: seq<Node>)
    requires forall n :: n in nodes ==> FromProvider(n)
    ensures Sum(nodes, EmptyTargets) == 0
  {
    if nodes != [] {
      NoEmptyTargets(nodes[..|nodes| - 1]);
      var last := nodes[|nodes| - 1];
      assert last in nodes;
      var relations, raw :| ReadSoFar(relations, raw) && EntriesOf(last.relations, relations);
      ProviderTargets(last.relations, relations, raw);
    }
  }

  /** What the walk hands over has no empty lists, so the limit holds for it. */
  lemma WalkedHasNoEmptyLists(snapshot: Snapshot)
    requires Walked(snapshot)
    ensures EmptyLists(WithRoot(snapshot)) == 0
  {
    hide FromProvider;
    NoEmptyTargets(snapshot.NodeList());
    NoEmptyTargets([snapshot.NodeList()[0]]);
    assert [snapshot.NodeList()[0]][..0] == [];
  }

  // ------------------------------------------------------------------ the tree

  /** The nodes whose parent is `top`, in the order visited. */
  function Under(nodes: seq<Node>, top: NodeID): seq<NodeID> {
    if nodes == [] then []
    else Under(nodes[..|nodes| - 1], top) + if nodes[|nodes| - 1].parent == top then [nodes[|nodes| - 1].id] else []
  }

  predicate DistinctIds(nodes: seq<Node>) {
    forall i, j :: 0 <= i < j < |nodes| ==> nodes[i].id != nodes[j].id
  }

  /** Every node comes after its parent, or is right under `top`. */
  predicate ParentsFirst(nodes: seq<Node>, top: NodeID) {
    forall i :: 0 <= i < |nodes| ==> nodes[i].parent == top || nodes[i].parent in Ids(nodes[..i])
  }

  /** Every node lists exactly its children, in the order visited. */
  ghost predicate ListsChildren(nodes: seq<Node>) {
    forall n :: n in nodes ==> n.children == Under(nodes, n.id)
  }

  /** Trees under `top` in the order of their visit: every node once, after its parent, and with exactly
      its children listed. */
  ghost predicate Branch(nodes: seq<Node>, top: NodeID) {
    DistinctIds(nodes) && top !in Ids(nodes) && ParentsFirst(nodes, top) && ListsChildren(nodes)
  }

  lemma {:induction false} UnderConcat(a: seq<Node>, b: seq<Node>, top: NodeID)
    ensures Under(a + b, top) == Under(a, top) + Under(b, top)
  {
    if b == [] {
      assert a + b == a;
    } else {
      UnderConcat(a, b[..|b| - 1], top);
      assert (a + b)[..|a + b| - 1] == a + b[..|b| - 1];
    }
  }

  lemma {:induction false} UnderNone(nodes: seq<Node>, top: NodeID)
    requires forall n :: n in nodes ==> n.parent != top
    ensures Under(nodes, top) == []
  {
    if nodes != [] { UnderNone(nodes[..|nodes| - 1], top); }
  }

  lemma {:induction false} UnderIsIn(nodes: seq<Node>, top: NodeID)
    ensures forall id :: id in Under(nodes, top) ==> id in Ids(nodes)
  {
    if nodes != [] {
      UnderIsIn(nodes[..|nodes| - 1], top);
      assert nodes[|nodes| - 1] in nodes && forall n :: n in nodes[..|nodes| - 1] ==> n in nodes;
    }
  }

  lemma {:induction false} UnderHasParent(nodes: seq<Node>, top: NodeID, id: NodeID)
    requires id in Under(nodes, top)
    ensures exists n :: n in nodes && n.id == id && n.parent == top
  {
    var init, last := nodes[..|nodes| - 1], nodes[|nodes| - 1];
    if id in Under(init, top) {
      UnderHasParent(init, top, id);
    } else {
      assert last in nodes && last.id == id && last.parent == top;
    }
  }

  /** All parents are above or among the nodes. */
  lemma BranchParents(nodes: seq<Node>, top: NodeID)
    requires Branch(nodes, top)
    ensures forall n :: n in nodes ==> n.parent == top || n.parent in Ids(nodes)
  {
    forall n | n in nodes ensures n.parent == top || n.parent in Ids(nodes) {
      var i :| 0 <= i < |nodes| && nodes[i] == n;
      assert forall m :: m in nodes[..i] ==> m in nodes;
    }
  }

  lemma IdsConcat(a: seq<Node>, b: seq<Node>)
    ensures Ids(a + b) == Ids(a) + Ids(b)
  {}

  /** A node's list does not change when a branch elsewhere is added. */
  lemma Elsewhere(a: seq<Node>, b: seq<Node>, top: NodeID, n: Node)
    requires Branch(b, top) && n.id != top && n.id !in Ids(b)
    ensures Under(a + b, n.id) == Under(a, n.id) == Under(b + a, n.id)
  {
    hide Branch, Under;
    BranchParents(b, top);
    UnderNone(b, n.id);
    UnderConcat(a, b, n.id);
    UnderConcat(b, a, n.id);
  }

  lemma DistinctConcat(a: seq<Node>, b: seq<Node>)
    requires DistinctIds(a) && DistinctIds(b) && Ids(a) !! Ids(b)
    ensures DistinctIds(a + b)
  {
    var all := a + b;
    forall i, j | 0 <= i < j < |all| ensures all[i].id != all[j].id {
      if i < |a| <= j {
        assert all[i] in a && all[j] in b;
        assert all[i].id in Ids(a) && all[j].id in Ids(b);
      }
    }
  }

  lemma ParentsFirstConcat(a: seq<Node>, b: seq<Node>, top: NodeID, above: NodeID)
    requires ParentsFirst(a, top) && ParentsFirst(b, above) && (above == top || above in Ids(a))
    ensures ParentsFirst(a + b, top)
  {
    var all := a + b;
    forall i | 0 <= i < |all| ensures all[i].parent == top || all[i].parent in Ids(all[..i]) {
      if i < |a| {
        assert all[..i] == a[..i];
      } else {
        assert all[..i] == a + b[..i - |a|];
        IdsConcat(a, b[..i - |a|]);
      }
    }
  }

  /** Two branches side by side. */
  lemma Join(a: seq<Node>, b: seq<Node>, top: NodeID)
    requires Branch(a, top) && Branch(b, top) && Ids(a) !! Ids(b)
    ensures Branch(a + b, top) && Under(a + b, top) == Under(a, top) + Under(b, top)
  {
    hide DistinctIds, ParentsFirst, Under;
    IdsConcat(a, b);
    UnderConcat(a, b, top);
    DistinctConcat(a, b);
    ParentsFirstConcat(a, b, top, top);
    forall n | n in a + b ensures n.children == Under(a + b, n.id) {
      if n in a {
        assert n.id in Ids(a);
        Elsewhere(a, b, top, n);
      } else {
        assert n.id in Ids(b);
        Elsewhere(b, a, top, n);
      }
    }
  }

  lemma OneNode(node: Node, id: NodeID)
    ensures Ids([node]) == {node.id} && DistinctIds([node]) && ParentsFirst([node], node.parent)
    ensures Under([node], id) == if node.parent == id then [node.id] else []
  {
    assert node in [node] && [node][..0] == [];
  }

  lemma NotAbove(node: Node, kids: seq<Node>, n: Node)
    requires n in kids ==> node.parent !in Ids(kids)
    ensures n in kids ==> node.parent != n.id
  {
    if n in kids { assert n.id in Ids(kids); }
  }

  lemma PlantedLists(node: Node, kids: seq<Node>, n: Node)
    requires ListsChildren(kids)
    requires n in kids || (n == node && n.children == Under(kids, n.id) && node.parent != n.id)
    requires n in kids ==> node.parent !in Ids(kids)
    ensures n.children == Under([node] + kids, n.id)
  {
    hide Ids, Under;
    OneNode(node, n.id);
    UnderConcat([node], kids, n.id);
    NotAbove(node, kids, n);
  }

  /** A node above the branch of its children. */
  lemma Plant(node: Node, kids: seq<Node>, top: NodeID)
    requires Branch(kids, node.id) && node.children == Under(kids, node.id)
    requires node.parent == top && top != node.id && top !in Ids(kids)
    ensures Branch([node] + kids, top) && Under([node] + kids, top) == [node.id]
  {
    BranchParents(kids, node.id);
    hide DistinctIds, ParentsFirst, Under, Ids;
    OneNode(node, top);
    IdsConcat([node], kids);
    UnderNone(kids, top);
    UnderConcat([node], kids, top);
    DistinctConcat([node], kids);
    ParentsFirstConcat([node], kids, top, node.id);
    forall n | n in [node] + kids ensures n.children == Under([node] + kids, n.id) {
      PlantedLists(node, kids, n);
    }
  }

  /** What a finished walk hands over: one tree, its root first, every node from the provider under a
      valid handle, and no more nodes than asked for. */
  ghost predicate WholeWalk(s: Snapshot, root: NodeID, maxNodes: nat) {
    && Branch(s.NodeList(), NO_NODE) && Under(s.NodeList(), NO_NODE) == [root] && Walked(s)
    && s.root == s.NodeList()[0] && s.root.id == root && |s.NodeList()| <= maxNodes
    && forall n :: n in s.NodeList() ==> n.id.Valid()
  }

  /** Every child listed in a walked snapshot is a node of the snapshot. */
  lemma WalkedListsOwn(s: Snapshot, root: NodeID, maxNodes: nat)
    requires WholeWalk(s, root, maxNodes)
    ensures ListsOwn(s)
  {
    forall n | n in s.NodeList() ensures forall c :: c in n.children ==> c in Ids(s.NodeList()) {
      UnderIsIn(s.NodeList(), n.id);
    }
  }

  // ------------------------------------------------------------------- the walk

  /** Limits and filters of one walk; the roles to skip are in their normal form, and so are the
      roles of nodes. */
  datatype Options = Options(maxDepth: nat, maxNodes: nat, visibleOnly: bool, skipRoles: set<Str>)

  /** A visit finds a node, has nothing to show for a repeated or invisible one, or fails, possibly
      because the epoch is over. */
  datatype Visit = Visited(node: Node) | Skipped | Failed(stale: bool)

  /** What every visit keeps: nodes are only added, each from the provider and under a handle not seen
      before, and no more of them than asked for. */
  ghost predicate Grown(before: seq<Node>, seen: set<NodeID>, nodes: seq<Node>, seen': set<NodeID>, maxNodes: nat) {
    && before <= nodes && seen <= seen' && (|before| <= maxNodes ==> |nodes| <= maxNodes)
    && Fresh(nodes[|before|..], seen, seen')
  }

  ghost predicate Fresh(added: seq<Node>, seen: set<NodeID>, seen': set<NodeID>) {
    && Ids(added) <= seen' && Ids(added) !! seen
    && forall n :: n in added ==> n.id.Valid() && FromProvider(n)
  }

  lemma StillGrown(nodes: seq<Node>, seen: set<NodeID>, maxNodes: nat)
    ensures forall seen' :: seen <= seen' ==> Grown(nodes, seen, nodes, seen', maxNodes)
  {
    assert nodes[|nodes|..] == [];
  }

  lemma MoreGrown(a: seq<Node>, seenA: set<NodeID>, b: seq<Node>, seenB: set<NodeID>, c: seq<Node>, seenC: set<NodeID>,
    maxNodes: nat)
    requires Grown(a, seenA, b, seenB, maxNodes) && Grown(b, seenB, c, seenC, maxNodes)
    ensures Grown(a, seenA, c, seenC, maxNodes)
    ensures c[|a|..] == b[|a|..] + c[|b|..] && Ids(b[|a|..]) !! Ids(c[|b|..])
  {
    hide FromProvider;
    assert c[|a|..] == b[|a|..] + c[|b|..];
    IdsConcat(b[|a|..], c[|b|..]);
  }

  /** What has been added are trees below `top`, whose roots are listed. */
  ghost predicate Listed(added: seq<Node>, top: NodeID, roots: seq<NodeID>) {
    Branch(added, top) && roots == Under(added, top)
  }

  /** What a visit below `parent` that found a node has added: one tree with the node on top. */
  ghost predicate Found(before: seq<Node>, nodes: seq<Node>, node: Node, parent: NodeID) {
    before + [node] <= nodes && Listed(nodes[|before|..], parent, [node.id])
  }

  lemma NothingGrown(nodes: seq<Node>, seen: set<NodeID>, seen': set<NodeID>, maxNodes: nat, top: NodeID)
    requires seen <= seen'
    ensures Grown(nodes, seen, nodes, seen', maxNodes) && Listed(nodes[|nodes|..], top, [])
  {
    assert nodes[|nodes|..] == [];
  }

  /** What the visits of children below `top` have added, their roots listed unless they were cut off. */
  ghost predicate Below(before: seq<Node>, seen: set<NodeID>, nodes: seq<Node>, seen': set<NodeID>, maxNodes: nat,
    top: NodeID, roots: seq<NodeID>, cut: bool)
  {
    Grown(before, seen, nodes, seen', maxNodes) && (!cut ==> Listed(nodes[|before|..], top, roots))
  }

  lemma NothingBelow(nodes: seq<Node>, seen: set<NodeID>, maxNodes: nat, top: NodeID)
    ensures forall cut :: Below(nodes, seen, nodes, seen, maxNodes, top, [], cut)
  {
    NothingGrown(nodes, seen, seen, maxNodes, top);
  }

  lemma CutShort(before: seq<Node>, seen: set<NodeID>, nodes: seq<Node>, seen': set<NodeID>, maxNodes: nat,
    top: NodeID, roots: seq<NodeID>, cut: bool)
    requires Below(before, seen, nodes, seen', maxNodes, top, roots, false)
    ensures Below(before, seen, nodes, seen', maxNodes, top, roots, cut)
  {}

  lemma NextChildren(before: seq<Node>, seen: set<NodeID>, nodes: seq<Node>, seen': set<NodeID>, nodes': seq<Node>, seen'': set<NodeID>,
    maxNodes: nat, top: NodeID, roots: seq<NodeID>, added: seq<NodeID>, cut: bool)
    requires Below(before, seen, nodes, seen', maxNodes, top, roots, false)
    requires Below(nodes, seen', nodes', seen'', maxNodes, top, added, cut)
    ensures Below(before, seen, nodes', seen'', maxNodes, top, roots + added, cut)
  {
    hide Branch, FromProvider, Under;
    MoreGrown(before, seen, nodes, seen', nodes', seen'', maxNodes);
    if !cut { Join(nodes[|before|..], nodes'[|nodes|..], top); }
  }

  lemma FoundBelow(before: seq<Node>, seen: set<NodeID>, nodes: seq<Node>, seen': set<NodeID>, maxNodes: nat, node: Node, parent: NodeID)
    requires Grown(before, seen, nodes, seen', maxNodes) && Found(before, nodes, node, parent)
    ensures node.id.Valid() && forall cut :: Below(before, seen, nodes, seen', maxNodes, parent, [node.id], cut)
  {
    assert nodes[|before|..][0] == node;
    assert node in nodes[|before|..];
  }

  lemma OneGrown(before: seq<Node>, seen: set<NodeID>, node: Node, maxNodes: nat)
    requires node.id !in seen && node.id.Valid() && FromProvider(node) && |before| < maxNodes
    ensures Grown(before, seen, before + [node], seen + {node.id}, maxNodes)
    ensures (before + [node])[|before| + 1..] == []
  {
    hide FromProvider, Ids, DistinctIds, ParentsFirst, Under;
    assert (before + [node])[|before|..] == [node];
    OneNode(node, node.id);
  }

  function Listing(node: Node, children: seq<NodeID>): (r: Node)
    ensures r.id == node.id && r.children == children
  {
    node.(children := children)
  }

  /** The node at the top gets its children once its branch is there. */
  lemma Complete(before: seq<Node>, seen: set<NodeID>, node0: Node, node: Node, nodes: seq<Node>, seen': set<NodeID>,
    maxNodes: nat, parent: NodeID)
    requires Grown(before, seen, nodes, seen', maxNodes) && before + [node0] <= nodes && node == Listing(node0, node.children)
    requires Listed(nodes[|before| + 1..], node.id, node.children)
    requires node.parent == parent && (parent in seen || !parent.Valid())
    ensures Grown(before, seen, nodes[|before| := node], seen', maxNodes)
    ensures Found(before, nodes[|before| := node], node, parent)
  {
    hide DistinctIds, ParentsFirst, ListsChildren, Under;
    var kids, all := nodes[|before| + 1..], nodes[|before| := node][|before|..];
    assert nodes[|before|..] == [node0] + kids && all == [node] + kids;
    assert node0 in nodes[|before|..] && FromProvider(node0) && FromProvider(node);
    IdsConcat([node0], kids);
    IdsConcat([node], kids);
    OneNode(node0, parent);
    OneNode(node, parent);
    Plant(node, kids, parent);
  }

  /** A node visited with what was visited below it: unless that was cut off, one whole branch. */
  lemma Planted(before: seq<Node>, seen: set<NodeID>, node0: Node, nodes: seq<Node>, seen': set<NodeID>, maxNodes: nat,
    parent: NodeID, children: seq<NodeID>, cut: bool)
    requires node0.id !in seen && node0.id.Valid() && FromProvider(node0) && |before| < maxNodes
    requires Below(before + [node0], seen + {node0.id}, nodes, seen', maxNodes, node0.id, children, cut)
    requires node0.parent == parent && (parent in seen || !parent.Valid())
    ensures Grown(before, seen, nodes, seen', maxNodes) && |before| < |nodes|
    ensures var node := Listing(node0, children); var all := nodes[|before| := node];
      !cut ==> Grown(before, seen, all, seen', maxNodes) && Found(before, all, node, parent)
  {
    hide Listed, Found, Fresh, FromProvider;
    OneGrown(before, seen, node0, maxNodes);
    MoreGrown(before, seen, before + [node0], seen + {node0.id}, nodes, seen', maxNodes);
    if !cut { Complete(before, seen, node0, Listing(node0, children), nodes, seen', maxNodes, parent); }
  }

  /** Why a snapshot is not whole, and what providers failed at. */
  datatype Report = Report(reasons: seq<Str>, warnings: seq<Str>, providerErrors: nat)

  function MaxNodes(n: nat): Str { Bytes("max nodes ") + Decimal(n) }

  function MaxDepth(n: nat): Str { Bytes("max depth ") + Decimal(n) }

  function Skipping(role: Str): Str { Bytes("subtree below role ") + Quoted(role) + Bytes(" was skipped") }

  function Mismatch(path: Str, reported: int, returned: nat): Str {
    Bytes("child count mismatch for ") + path + Bytes(": reported ") + Decimal(reported) + Bytes(", returned ") + Decimal(returned)
  }

  // ------------------------------------------------------ what the provider answered

  /** A node read, with its relation set, or an error; the references given as children, each with its
      current handle, or an error. An error may say that the epoch is over. */
  datatype Reply = Answer(node: Node, raw: RelationSet) | ReadError(stale: bool)
  datatype ChildReply = Refs(ids: seq<NodeID>) | ChildError(stale: bool)

  /** All that a provider says in one walk, which reads and asks about a handle at most once. */
  datatype Provider = Provider(read: NodeID -> Reply, children: NodeID -> ChildReply)

  function Count(reported: int): nat { if reported < 0 then 0 else reported }

  /** The relations are those of the relation set. */
  ghost predicate RelatedAs(n: Node, raw: RelationSet) {
    exists relations :: ReadSoFar(relations, raw) && EntriesOf(n.relations, relations)
  }

  lemma ReadRelated(n: Node, relations: map<Str, seq<NodeID>>, raw: RelationSet)
    requires ReadSoFar(relations, raw) && EntriesOf(n.relations, relations)
    ensures RelatedAs(n, raw)
  {}

  /** The node is what was read, put in its place; its children apart. */
  ghost predicate IsReadOf(n: Node, reply: Reply) {
    && reply.Answer? && RelatedAs(n, reply.raw)
    && n == reply.node.(id := n.id, parent := n.parent, children := n.children, relations := n.relations,
         childCount := Count(reply.node.childCount))
  }

  predicate Unreadable(p: Provider, id: NodeID) { !id.Valid() || p.read(id).ReadError? }

  /** A node that is left out because it cannot be seen. */
  predicate Unseen(p: Provider, o: Options, id: NodeID) {
    o.visibleOnly && p.read(id).Answer? && !p.read(id).node.visible && !p.read(id).node.showing
  }

  /** A handle was tried in vain, and a failure is on record. */
  predicate Dismissed(p: Provider, o: Options, id: NodeID, report: Report) {
    (Unreadable(p, id) && report.providerErrors > 0) || Unseen(p, o, id)
  }

  /** The reason is on record why nodes at this depth were cut off. */
  predicate CutOff(o: Options, depth: nat, report: Report) {
    (depth > o.maxDepth && MaxDepth(o.maxDepth) in report.reasons) || MaxNodes(o.maxNodes) in report.reasons
  }

  /** What became of the references given for a node whose children were asked for: each was tried or cut
      off, the children listed are among them, and a wrong number is on record. */
  ghost predicate Followed(p: Provider, o: Options, id: NodeID, count: nat, depth: nat, listed: seq<NodeID>,
    tried: set<NodeID>, report: Report)
  {
    && (listed != [] ==> depth < o.maxDepth)
    && match p.children(id)
       case ChildError(_) => listed == [] && report.providerErrors > 0
       case Refs(ids) =>
         && (|ids| != count ==> Mismatch(id.obj.path, count, |ids|) in report.reasons)
         && (forall c :: c in ids ==> c in tried || CutOff(o, depth + 1, report))
         && (forall c :: c in listed ==> c in ids)
  }

  /** A node in a snapshot: read from the provider, within the limits and filters, and with its references
      followed unless there are none or its role is skipped, which is then on record. */
  ghost predicate Accounted(p: Provider, o: Options, n: Node, depth: nat, tried: set<NodeID>, report: Report) {
    && depth <= o.maxDepth && IsReadOf(n, p.read(n.id)) && (o.visibleOnly && depth > 0 ==> n.visible || n.showing)
    && if n.childCount <= 0 then n.children == []
       else if n.role in o.skipRoles then n.children == [] && Skipping(n.role) in report.reasons
       else Followed(p, o, n.id, n.childCount, depth, n.children, tried, report)
  }

  /** A node was to be asked for its children. */
  predicate Asked(p: Provider, o: Options, id: NodeID) {
    && p.read(id).Answer? && p.read(id).node.childCount > 0 && p.read(id).node.role !in o.skipRoles
    && p.children(id).Refs? && p.children(id).ids != []
  }

  /** A visited node at which a reason came about. */
  predicate CutAt(p: Provider, o: Options, reason: Str, id: NodeID, depth: nat) {
    && p.read(id).Answer? && p.read(id).node.childCount > 0
    && var node := p.read(id).node;
       if node.role in o.skipRoles then reason == Skipping(node.role)
       else
         p.children(id).Refs? &&
         var ids := p.children(id).ids;
         || (reason == MaxDepth(o.maxDepth) && depth == o.maxDepth && ids != [])
         || (reason == Mismatch(id.obj.path, node.childCount, |ids|) && |ids| != node.childCount)
  }

  /** A reason has a cause: the node limit was reached, or some visited node was cut. */
  ghost predicate Caused(p: Provider, o: Options, reason: Str, depths: map<NodeID, nat>, count: nat) {
    (reason == MaxNodes(o.maxNodes) && count >= o.maxNodes) || exists id :: id in depths && CutAt(p, o, reason, id, depths[id])
  }

  /** The root is at depth zero, any other node one below its parent. */
  predicate DepthRight(n: Node, depths: map<NodeID, nat>) {
    && n.id in depths
    && if n.parent == NO_NODE then depths[n.id] == 0 else n.parent in depths && depths[n.id] == depths[n.parent] + 1
  }

  /** The state of a walk, with the depth at which each node was visited. */
  datatype View = View(nodes: seq<Node>, tried: set<NodeID>, report: Report, depths: map<NodeID, nat>)

  ghost predicate ReportGrows(a: Report, b: Report) {
    a.providerErrors <= b.providerErrors && forall r :: r in a.reasons ==> r in b.reasons
  }

  /** From one state to a later one nothing gets lost: each handle tried has a node or was tried in vain, each
      new node is accounted for, and each new reason has a cause. */
  ghost predicate Progress(p: Provider, o: Options, a: View, b: View) {
    && a.nodes <= b.nodes && a.tried <= b.tried && ReportGrows(a.report, b.report) && b.depths.Keys <= b.tried
    && (forall id :: id in a.depths ==> id in b.depths && b.depths[id] == a.depths[id])
    && (forall id :: id in b.depths ==> id in a.depths || id in Ids(b.nodes[|a.nodes|..]))
    && (forall id :: id in b.tried && id !in a.tried ==> id in Ids(b.nodes[|a.nodes|..]) || Dismissed(p, o, id, b.report))
    && (forall n :: n in b.nodes[|a.nodes|..] ==>
          DepthRight(n, b.depths) && Accounted(p, o, n, b.depths[n.id], b.tried, b.report))
    && (forall r :: r in b.report.reasons ==> r in a.report.reasons || Caused(p, o, r, b.depths, |b.nodes|))
  }

  lemma NoProgress(p: Provider, o: Options, a: View)
    requires a.depths.Keys <= a.tried
    ensures Progress(p, o, a, a)
  {
    assert a.nodes[|a.nodes|..] == [];
  }

  lemma AccountedLater(p: Provider, o: Options, n: Node, depth: nat, tried: set<NodeID>, report: Report, tried': set<NodeID>, report': Report)
    requires Accounted(p, o, n, depth, tried, report) && tried <= tried' && ReportGrows(report, report')
    ensures Accounted(p, o, n, depth, tried', report')
  {
    hide IsReadOf, MaxNodes, MaxDepth, Skipping, Mismatch;
  }

  lemma CausedLater(p: Provider, o: Options, r: Str, depths: map<NodeID, nat>, count: nat, depths': map<NodeID, nat>, count': nat)
    requires Caused(p, o, r, depths, count) && count <= count'
    requires forall id :: id in depths ==> id in depths' && depths'[id] == depths[id]
    ensures Caused(p, o, r, depths', count')
  {
    hide CutAt;
  }

  lemma MoreProgress(p: Provider, o: Options, a: View, b: View, c: View)
    requires Progress(p, o, a, b) && Progress(p, o, b, c)
    ensures Progress(p, o, a, c)
  {
    hide Accounted, Caused, Ids, Dismissed;
    var first, last, all := b.nodes[|a.nodes|..], c.nodes[|b.nodes|..], c.nodes[|a.nodes|..];
    assert all == first + last;
    IdsConcat(first, last);
    forall n | n in all ensures DepthRight(n, c.depths) && Accounted(p, o, n, c.depths[n.id], c.tried, c.report) {
      if n in first {
        AccountedLater(p, o, n, b.depths[n.id], b.tried, b.report, c.tried, c.report);
      }
    }
    forall id | id in c.tried && id !in a.tried ensures id in Ids(all) || Dismissed(p, o, id, c.report) {
      if id in b.tried && id !in Ids(first) { DismissedLater(p, o, id, b.report, c.report); }
    }
    forall r | r in c.report.reasons && r !in a.report.reasons ensures Caused(p, o, r, c.depths, |c.nodes|) {
      if r in b.report.reasons { CausedLater(p, o, r, b.depths, |b.nodes|, c.depths, |c.nodes|); }
    }
  }

  lemma DismissedLater(p: Provider, o: Options, id: NodeID, report: Report, report': Report)
    requires Dismissed(p, o, id, report) && ReportGrows(report, report')
    ensures Dismissed(p, o, id, report')
  {}

  /** Only the report has changed, and a reason has come in only where there is a cause. */
  lemma Reported(p: Provider, o: Options, a: View, report: Report)
    requires a.depths.Keys <= a.tried && ReportGrows(a.report, report)
    requires forall r :: r in report.reasons ==> r in a.report.reasons || Caused(p, o, r, a.depths, |a.nodes|)
    ensures Progress(p, o, a, a.(report := report))
  {
    assert a.nodes[|a.nodes|..] == [];
  }

  /** A handle was tried in vain. */
  lemma TriedInVain(p: Provider, o: Options, a: View, id: NodeID, report: Report)
    requires a.depths.Keys <= a.tried && ReportGrows(a.report, report) && report.reasons == a.report.reasons
    requires Dismissed(p, o, id, report)
    ensures Progress(p, o, a, a.(tried := a.tried + {id}, report := report))
  {
    assert a.nodes[|a.nodes|..] == [];
  }

  /** A node entered before its children were followed, and accounted for after. */
  lemma NodeFollowed(p: Provider, o: Options, a: View, node0: Node, depth: nat, report: Report, c: View, node: Node)
    requires a.depths.Keys <= a.tried && node0.id !in a.tried && ReportGrows(a.report, report) && report.reasons == a.report.reasons
    requires Progress(p, o, View(a.nodes + [node0], a.tried + {node0.id}, report, a.depths[node0.id := depth]), c)
    requires node.id == node0.id && node.parent == node0.parent && Accounted(p, o, node, depth, c.tried, c.report)
    requires if node.parent == NO_NODE then depth == 0 else node.parent in a.depths && depth == a.depths[node.parent] + 1
    ensures |a.nodes| < |c.nodes| && Progress(p, o, a, c.(nodes := c.nodes[|a.nodes| := node]))
  {
    hide Accounted, Caused, Dismissed, Ids;
    var m := View(a.nodes + [node0], a.tried + {node0.id}, report, a.depths[node0.id := depth]);
    var kids, all := c.nodes[|m.nodes|..], c.nodes[|a.nodes| := node];
    assert all[|a.nodes|..] == [node] + kids;
    IdsConcat([node], kids);
    OneNode(node, node.id);
    assert c.depths[node.id] == depth && node.id in c.depths;
    assert node.parent != NO_NODE ==> node.parent != node.id && node.parent in m.depths;
    forall n | n in all[|a.nodes|..] ensures DepthRight(n, c.depths) && Accounted(p, o, n, c.depths[n.id], c.tried, c.report) {
      assert n == node || n in kids;
    }
  }

  /** A visit has failed: it was cut off, or the handle cannot be read. */
  ghost predicate Vain(p: Provider, o: Options, a: View, b: View, id: NodeID, depth: nat) {
    || (Progress(p, o, a, b) && b == a.(report := b.report) && CutOff(o, depth, b.report))
    || (b == a.(tried := a.tried + {id}) && Unreadable(p, id))
  }

  lemma FailureRecorded(p: Provider, o: Options, a: View, b: View, id: NodeID, depth: nat, report: Report)
    requires Vain(p, o, a, b, id, depth) && a.depths.Keys <= a.tried
    requires report.reasons == b.report.reasons && report.providerErrors > b.report.providerErrors
    ensures Progress(p, o, a, b.(report := report)) && (id in b.tried || CutOff(o, depth, report))
  {
    hide Progress, Unreadable, MaxDepth, MaxNodes, Caused, Unseen;
    if Progress(p, o, a, b) && b == a.(report := b.report) && CutOff(o, depth, b.report) {
      Reported(p, o, b, report);
      MoreProgress(p, o, a, b, b.(report := report));
    } else {
      TriedInVain(p, o, a, id, report);
    }
  }

  /** Where the children of a node are visited: one below it, and no deeper than one below the limit. */
  ghost predicate Beneath(p: Provider, o: Options, v: View, parent: NodeID, depth: nat) {
    && v.depths.Keys <= v.tried && depth <= o.maxDepth + 1
    && if depth == 0 then parent == NO_NODE
       else parent.Valid() && parent in v.depths && v.depths[parent] + 1 == depth && Asked(p, o, parent)
  }

  lemma LimitsReported(p: Provider, o: Options, a: View, parent: NodeID, depth: nat, reason: Str, report: Report)
    requires Beneath(p, o, a, parent, depth) && report.providerErrors == a.report.providerErrors
    requires report.reasons == if reason in a.report.reasons then a.report.reasons else a.report.reasons + [reason]
    requires (reason == MaxDepth(o.maxDepth) && depth > o.maxDepth) || (reason == MaxNodes(o.maxNodes) && |a.nodes| >= o.maxNodes)
    ensures Progress(p, o, a, a.(report := report)) && CutOff(o, depth, report)
  {
    hide MaxDepth, MaxNodes, Skipping, Mismatch;
    if reason == MaxDepth(o.maxDepth) && depth > o.maxDepth {
      assert CutAt(p, o, reason, parent, a.depths[parent]);
    }
    assert Caused(p, o, reason, a.depths, |a.nodes|);
    hide Progress, Caused;
    Reported(p, o, a, report);
  }

  lemma MarkReported(p: Provider, o: Options, a: View, id: NodeID, reason: Str, report: Report)
    requires a.depths.Keys <= a.tried && id in a.depths && CutAt(p, o, reason, id, a.depths[id])
    requires report.providerErrors == a.report.providerErrors
    requires report.reasons == if reason in a.report.reasons then a.report.reasons else a.report.reasons + [reason]
    ensures Progress(p, o, a, a.(report := report)) && reason in report.reasons
  {
    assert Caused(p, o, reason, a.depths, |a.nodes|);
    hide Progress, Caused, CutAt;
    Reported(p, o, a, report);
  }

  lemma ReadUnseen(n: Node, p: Provider, o: Options)
    requires IsReadOf(n, p.read(n.id)) && o.visibleOnly && !n.visible && !n.showing
    ensures Unseen(p, o, n.id)
  {}

  lemma ReadCount(n: Node, p: Provider)
    requires IsReadOf(n, p.read(n.id)) && n.childCount > 0
    ensures p.read(n.id).Answer? && p.read(n.id).node.childCount == n.childCount && p.read(n.id).node.role == n.role
  {}

  lemma SkipCuts(n: Node, p: Provider, o: Options, depth: nat)
    requires IsReadOf(n, p.read(n.id)) && n.childCount > 0 && n.role in o.skipRoles
    ensures CutAt(p, o, Skipping(n.role), n.id, depth)
  {
    ReadCount(n, p);
    hide Skipping, IsReadOf;
  }

  lemma ListingAccounted(p: Provider, o: Options, n: Node, children: seq<NodeID>, depth: nat, tried: set<NodeID>, report: Report)
    requires depth <= o.maxDepth && IsReadOf(n, p.read(n.id)) && (o.visibleOnly && depth > 0 ==> n.visible || n.showing)
    requires if n.childCount <= 0 then children == []
      else if n.role in o.skipRoles then children == [] && Skipping(n.role) in report.reasons
      else Followed(p, o, n.id, n.childCount, depth, children, tried, report)
    ensures Accounted(p, o, Listing(n, children), depth, tried, report) && Listing(n, children).parent == n.parent
  {
    hide Followed, Skipping;
  }

  /** Each of these references was tried or cut off, and those listed are among them. */
  ghost predicate AllTried(o: Options, refs: seq<NodeID>, depth: nat, listed: seq<NodeID>, tried: set<NodeID>, report: Report) {
    && (forall c :: c in refs ==> c in tried || CutOff(o, depth + 1, report))
    && (forall c :: c in listed ==> c in refs) && (listed != [] ==> depth < o.maxDepth)
  }

  lemma NoneTried(o: Options, depth: nat, tried: set<NodeID>, report: Report)
    ensures forall refs: seq<NodeID> :: AllTried(o, refs[..0], depth, [], tried, report)
  {}

  lemma OneMoreTried(o: Options, refs: seq<NodeID>, i: nat, depth: nat, listed: seq<NodeID>, tried: set<NodeID>, report: Report,
    added: seq<NodeID>, tried': set<NodeID>, report': Report)
    requires i < |refs| && AllTried(o, refs[..i], depth, listed, tried, report) && tried <= tried' && ReportGrows(report, report')
    requires refs[i] in tried' || CutOff(o, depth + 1, report')
    requires added != [] ==> added == [refs[i]] && depth < o.maxDepth
    ensures AllTried(o, refs[..i + 1], depth, listed + added, tried', report')
  {
    hide MaxDepth, MaxNodes;
    assert refs[..i + 1] == refs[..i] + [refs[i]];
  }

  lemma RestCut(o: Options, refs: seq<NodeID>, i: nat, depth: nat, listed: seq<NodeID>, tried: set<NodeID>, report: Report,
    report': Report, cancelled: bool)
    requires i <= |refs| && (!cancelled ==> AllTried(o, refs[..i], depth, listed, tried, report)) && CutOff(o, depth + 1, report')
    ensures !cancelled ==> AllTried(o, refs, depth, listed, tried, report')
  {
    hide CutOff;
    assert forall c :: c in refs[..i] ==> c in refs;
  }

  lemma StillPlaced(p: Provider, o: Options, a: View, b: View, id: NodeID)
    requires Progress(p, o, a, b) && id in a.depths
    ensures b.depths.Keys <= b.tried && id in b.depths && b.depths[id] == a.depths[id] && a.tried <= b.tried
    ensures ReportGrows(a.report, b.report)
  {}

  lemma RefsFollowed(p: Provider, o: Options, a: View, b: View, c: View, id: NodeID, count: nat, depth: nat, listed: seq<NodeID>)
    requires Progress(p, o, a, b) && Progress(p, o, b, c) && p.children(id).Refs?
    requires var ids := p.children(id).ids;
      && (|ids| != count ==> Mismatch(id.obj.path, count, |ids|) in b.report.reasons)
      && AllTried(o, ids, depth, listed, c.tried, c.report)
    ensures Progress(p, o, a, c) && Followed(p, o, id, count, depth, listed, c.tried, c.report)
  {
    MoreProgress(p, o, a, b, c);
    hide Mismatch, CutOff;
  }

  /** One walk. The caller may cancel it at any time. */
  class SnapshotWalker {
    const options: Options
    const provider: Provider
    var nodes: seq<Node>
    var seen: set<NodeID>
    var report: Report
    var stale: bool
    var cancelled: bool
    ghost var depths: map<NodeID, nat>

    constructor (options: Options, provider: Provider)
      ensures this.options == options && this.provider == provider && Now() == View([], {}, Report([], [], 0), map[])
      ensures !stale && !cancelled
    {
      this.options, this.provider, nodes, seen, report := options, provider, [], {}, Report([], [], 0);
      stale, cancelled, depths := false, false, map[];
    }

    ghost function Now(): View
      reads this
    {
      View(nodes, seen, report, depths)
    }

    /** The context's error: once cancelled, always cancelled. */
    method Check()
      modifies `cancelled
      ensures old(cancelled) ==> cancelled
    {
      if !cancelled { cancelled := *; }
    }

    /** `markTruncated`: each reason once. */
    method MarkTruncated(reason: Str)
      modifies `report
      ensures report == if reason in old(report).reasons then old(report) else
        old(report).(reasons := old(report).reasons + [reason])
    {
      if reason !in report.reasons { report := report.(reasons := report.reasons + [reason]); }
    }

    method Warn(texts: seq<Str>)
      modifies `report
      ensures report == old(report).(warnings := old(report).warnings + texts,
        providerErrors := old(report).providerErrors + |texts|)
    {
      report := report.(warnings := report.warnings + texts, providerErrors := report.providerErrors + |texts|);
    }

    /** `readNode`: a node of a valid, current handle, its children not read yet. */
    method ReadNode(id: NodeID, parent: NodeID) returns (r: Visit)
      modifies `cancelled
      ensures old(cancelled) ==> cancelled
      ensures r.Visited? ==> r.node.id == id && r.node.parent == parent && r.node.children == [] && r.node.childCount >= 0
      ensures r.Visited? ==> id.Valid() && FromProvider(r.node) && IsReadOf(r.node, provider.read(id))
      ensures !r.Skipped? && (r.Visited? <==> !cancelled && !Unreadable(provider, id))
    {
      Check();
      var over: bool := *;
      if cancelled || !id.Valid() { return Failed(over); }
      match provider.read(id)
      case ReadError(outdated) => return Failed(outdated);
      case Answer(answer, raw) =>
        var relations := ReadRelations(raw);
        var entries := ListEntries(relations);
        var node := answer.(id := id, parent := parent, children := [], relations := entries,
          childCount := Count(answer.childCount));
        ReadFromProvider(node, relations, raw);
        ReadRelated(node, relations, raw);
        return Visited(node);
    }

    /** `walk`. Unless it is cancelled or the epoch is over, a visit either adds one whole branch with
        everything below it accounted for, or nothing at all, and then the reason is known. */
    method Walk(id: NodeID, parent: NodeID, depth: nat) returns (v: Visit)
      requires parent in seen || !parent.Valid()
      requires Beneath(provider, options, Now(), parent, depth)
      modifies `nodes, `seen, `report, `stale, `cancelled, `depths
      ensures (old(cancelled) ==> cancelled) && Grown(old(nodes), old(seen), nodes, seen, options.maxNodes)
      ensures v.Visited? ==> v.node.id == id && Found(old(nodes), nodes, v.node, parent) && depth <= options.maxDepth
      ensures v.Skipped? || (v.Failed? && !v.stale && !cancelled) ==> nodes == old(nodes)
      ensures v.Skipped? ==> id in old(seen) || (options.visibleOnly && depth > 0)
      ensures v.Visited? || v.Skipped? ==> !cancelled && id in seen && Progress(provider, options, old(Now()), Now())
      ensures v.Failed? && !v.stale && !cancelled ==> Vain(provider, options, old(Now()), Now(), id, depth)
      decreases if depth > options.maxDepth then 0 else options.maxDepth + 1 - depth, 3
    {
      hide Below, Found, Grown, FromProvider, MaxNodes, MaxDepth, Skipping, Progress, IsReadOf, CutOff, Asked;
      ghost var v0 := Now();
      NoProgress(provider, options, v0);
      StillGrown(nodes, seen, options.maxNodes);
      Check();
      if cancelled { return Failed(false); }
      if depth > options.maxDepth {
        MarkTruncated(MaxDepth(options.maxDepth));
        LimitsReported(provider, options, v0, parent, depth, MaxDepth(options.maxDepth), report);
        return Failed(false);
      }
      if |nodes| >= options.maxNodes {
        MarkTruncated(MaxNodes(options.maxNodes));
        LimitsReported(provider, options, v0, parent, depth, MaxNodes(options.maxNodes), report);
        return Failed(false);
      }
      if id in seen { return Skipped; }
      seen := seen + {id};
      v := ReadNode(id, parent);
      if !v.Visited? { return; }
      var node := v.node;
      if options.visibleOnly && depth > 0 && !node.visible && !node.showing {
        ReadUnseen(node, provider, options);
        TriedInVain(provider, options, v0, id, report);
        return Skipped;
      }
      v := Expand(node, parent, depth, old(seen));
    }

    /** The rest of `walk`, once the node has been read and is to be shown. */
    method Expand(node: Node, parent: NodeID, depth: nat, ghost before: set<NodeID>) returns (v: Visit)
      requires seen == before + {node.id} && node.id !in before && node.id.Valid() && FromProvider(node)
      requires node.parent == parent && (parent in before || !parent.Valid())
      requires depth <= options.maxDepth && |nodes| < options.maxNodes
      requires Beneath(provider, options, Now().(tried := before), parent, depth)
      requires IsReadOf(node, provider.read(node.id)) && node.children == [] && (options.visibleOnly && depth > 0 ==> node.visible || node.showing)
      modifies `nodes, `seen, `report, `stale, `cancelled, `depths
      ensures (old(cancelled) ==> cancelled) && Grown(old(nodes), before, nodes, seen, options.maxNodes)
      ensures v.Visited? ==> v.node.id == node.id && Found(old(nodes), nodes, v.node, parent)
      ensures v.Visited? || (v.Failed? && (v.stale || cancelled))
      ensures v.Visited? ==> !cancelled && node.id in seen && Progress(provider, options, old(Now()).(tried := before), Now())
      decreases options.maxDepth + 1 - depth, 2
    {
      hide Below, Found, Grown, FromProvider, Listing, Skipping, Progress, IsReadOf, Followed, Asked, CutAt;
      ghost var v0 := Now().(tried := before);
      Warn(node.warnings);
      var index := |nodes|;
      nodes := nodes + [node];
      depths := depths[node.id := depth];
      ghost var v1 := Now();
      NoProgress(provider, options, v1);
      NothingBelow(nodes, seen, options.maxNodes, node.id);
      var children, over := [], false;
      if node.childCount > 0 {
        ReadCount(node, provider);
        if node.role in options.skipRoles {
          MarkTruncated(Skipping(node.role));
          SkipCuts(node, provider, options, depth);
          MarkReported(provider, options, v1, node.id, Skipping(node.role), report);
        } else {
          children, over := WalkChildren(node.id, node.childCount, depth);
        }
      }
      ghost var v2 := Now();
      Planted(old(nodes), before, node, nodes, seen, options.maxNodes, parent, children, over || cancelled);
      if over { return Failed(true); }
      Check();
      if cancelled { return Failed(false); }
      var shown := Listing(node, children);
      ListingAccounted(provider, options, node, children, depth, seen, report);
      StillPlaced(provider, options, v1, v2, node.id);
      NodeFollowed(provider, options, v0, node, depth, v1.report, v2, shown);
      nodes := nodes[index := shown];
      v := Visited(shown);
    }

    /** A child's error ends the visit of its siblings if the epoch is over or the caller has cancelled;
        else it is a warning. */
    method ChildFailed(outdated: bool) returns (over: bool)
      modifies `stale, `report, `cancelled
      ensures (old(cancelled) ==> cancelled) && over == (outdated && !cancelled) && (stale <==> old(stale) || over)
      ensures report.reasons == old(report).reasons
      ensures report.providerErrors == old(report).providerErrors + if over || cancelled then 0 else 1
    {
      Check();
      over := outdated && !cancelled;
      if over {
        stale := true;
      } else if !cancelled {
        var text: Str := *;
        Warn([text]);
      }
    }

    /** One child: listed if it was found; if it is not in the snapshot, the reason is known. */
    method WalkChild(childId: NodeID, id: NodeID, depth: nat) returns (listed: seq<NodeID>, over: bool)
      requires id in seen && depth <= options.maxDepth && Beneath(provider, options, Now(), id, depth + 1)
      modifies `nodes, `seen, `report, `stale, `cancelled, `depths
      ensures (old(cancelled) ==> cancelled) && id in seen
      ensures Below(old(nodes), old(seen), nodes, seen, options.maxNodes, id, listed, over || cancelled)
      ensures !over && !cancelled ==>
        Progress(provider, options, old(Now()), Now()) && (childId in seen || CutOff(options, depth + 1, report))
      ensures listed != [] ==> listed == [childId] && depth < options.maxDepth
      decreases options.maxDepth + 1 - depth, 0
    {
      hide Listed, Branch, Fresh, Found, FromProvider, Progress, CutOff, Asked, Unreadable;
      listed, over := [], false;
      NothingGrown(nodes, seen, seen, options.maxNodes, id);
      ghost var v0 := Now();
      var child := Walk(childId, id, depth + 1);
      ghost var v1 := Now();
      if child.Failed? {
        over := ChildFailed(child.stale);
        if !over && !cancelled { FailureRecorded(provider, options, v0, v1, childId, depth + 1, report); }
      } else if child.Visited? {
        FoundBelow(old(nodes), old(seen), nodes, seen, options.maxNodes, child.node, id);
        if child.node.id.Valid() { listed := [child.node.id]; }
      }
    }

    /** The loop of `walkChildren` over the references given. */
    method WalkRefs(children: seq<NodeID>, id: NodeID, depth: nat) returns (listed: seq<NodeID>, over: bool)
      requires id in seen && id in depths && depths[id] == depth && depth <= options.maxDepth && depths.Keys <= seen && id.Valid()
      requires provider.children(id) == Refs(children) && (children != [] ==> Asked(provider, options, id))
      modifies `nodes, `seen, `report, `stale, `cancelled, `depths
      ensures old(cancelled) ==> cancelled
      ensures Below(old(nodes), old(seen), nodes, seen, options.maxNodes, id, listed, over || cancelled)
      ensures !over && !cancelled ==>
        Progress(provider, options, old(Now()), Now()) && AllTried(options, children, depth, listed, seen, report)
      decreases options.maxDepth + 1 - depth, 1, 0
    {
      hide Below, MaxNodes, Progress, CutOff, Asked, AllTried;
      listed, over := [], false;
      NothingBelow(nodes, seen, options.maxNodes, id);
      ghost var v0 := Now();
      NoProgress(provider, options, v0);
      NoneTried(options, depth, seen, report);
      for i := 0 to |children|
        invariant !over && (old(cancelled) ==> cancelled) && id in seen
        invariant Below(old(nodes), old(seen), nodes, seen, options.maxNodes, id, listed, false)
        invariant !cancelled ==> Progress(provider, options, v0, Now())
        invariant depths.Keys <= seen && id in depths && depths[id] == depth
        invariant !cancelled ==> AllTried(options, children[..i], depth, listed, seen, report)
      {
        ghost var v1, listed0 := Now(), listed;
        if |nodes| >= options.maxNodes {
          MarkTruncated(MaxNodes(options.maxNodes));
          LimitsReported(provider, options, v1, id, depth + 1, MaxNodes(options.maxNodes), report);
          if !cancelled { MoreProgress(provider, options, v0, v1, Now()); }
          RestCut(options, children, i, depth, listed, seen, v1.report, report, cancelled);
          CutShort(old(nodes), old(seen), nodes, seen, options.maxNodes, id, listed, cancelled);
          return;
        }
        var added;
        added, over := WalkChild(children[i], id, depth);
        listed := listed + added;
        NextChildren(old(nodes), old(seen), v1.nodes, v1.tried, nodes, seen, options.maxNodes, id, listed0, added, over || cancelled);
        if over || cancelled { return; }
        MoreProgress(provider, options, v0, v1, Now());
        StillPlaced(provider, options, v1, Now(), id);
        OneMoreTried(options, children, i, depth, listed0, v1.tried, v1.report, added, seen, report);
      }
      assert children[..|children|] == children;
      CutShort(old(nodes), old(seen), nodes, seen, options.maxNodes, id, listed, cancelled);
    }

    /** `walkChildren`: unless it is cut off, the children listed are those whose branches were added, and
        every reference given has been followed as far as limits and filters allow. */
    method WalkChildren(id: NodeID, childCount: int, depth: nat) returns (listed: seq<NodeID>, over: bool)
      requires id in seen && id in depths && depths[id] == depth && depth <= options.maxDepth && depths.Keys <= seen && id.Valid()
      requires provider.read(id).Answer? && childCount == provider.read(id).node.childCount > 0
      requires provider.read(id).node.role !in options.skipRoles
      modifies `nodes, `seen, `report, `stale, `cancelled, `depths
      ensures old(cancelled) ==> cancelled
      ensures Below(old(nodes), old(seen), nodes, seen, options.maxNodes, id, listed, over || cancelled)
      ensures !over && !cancelled ==>
        Progress(provider, options, old(Now()), Now()) && Followed(provider, options, id, childCount, depth, listed, seen, report)
      decreases options.maxDepth + 1 - depth, 1
    {
      hide Below, MaxNodes, MaxDepth, Mismatch, Progress, CutOff, Unreadable;
      listed, over := [], false;
      NothingBelow(nodes, seen, options.maxNodes, id);
      ghost var v0 := Now();
      NoProgress(provider, options, v0);
      match provider.children(id)
      case ChildError(outdated) =>
        if outdated {
          stale, over := true, true;
        } else {
          Warn([id.obj.path]);
          Reported(provider, options, v0, report);
        }
      case Refs(children) =>
        if |children| != childCount {
          MarkTruncated(Mismatch(id.obj.path, childCount, |children|));
          MarkReported(provider, options, v0, id, Mismatch(id.obj.path, childCount, |children|), report);
        }
        ghost var v1 := Now();
        listed, over := WalkRefs(children, id, depth);
        if !over && !cancelled { RefsFollowed(provider, options, v0, v1, Now(), id, childCount, depth, listed); }
    }
  }

  /** A finished branch without anything above it is a whole walk. */
  lemma FoundWhole(nodes: seq<Node>, seen: set<NodeID>, root: Node, s: Snapshot, maxNodes: nat)
    requires Grown([], {}, nodes, seen, maxNodes) && Found([], nodes, root, NO_NODE)
    requires s.nodes == Some(nodes) && s.root == root
    ensures WholeWalk(s, root.id, maxNodes)
  {
    assert nodes[0..] == nodes;
  }

  function ReportOf(s: Snapshot): Report {
    Report(s.truncationReasons, s.warnings, if s.providerErrors < 0 then 0 else s.providerErrors)
  }

  /** A snapshot that accounts for everything the provider gave: with the depth at which each node was visited
      and the handles that were tried. */
  ghost predicate Explained(s: Snapshot, p: Provider, o: Options, depths: map<NodeID, nat>, tried: set<NodeID>) {
    && (forall id :: id in depths ==> id in Ids(s.NodeList()))
    && (forall id :: id in tried ==> id in Ids(s.NodeList()) || Dismissed(p, o, id, ReportOf(s)))
    && (forall n :: n in s.NodeList() ==> DepthRight(n, depths) && Accounted(p, o, n, depths[n.id], tried, ReportOf(s)))
    && (forall r :: r in s.truncationReasons ==> Caused(p, o, r, depths, |s.NodeList()|))
  }

  lemma ProgressExplains(p: Provider, o: Options, v: View, s: Snapshot)
    requires Progress(p, o, View([], {}, Report([], [], 0), map[]), v)
    requires s.nodes == Some(v.nodes) && ReportOf(s) == v.report
    ensures Explained(s, p, o, v.depths, v.tried)
  {
    hide Accounted, Caused, Dismissed;
    assert v.nodes[0..] == v.nodes;
  }

  // ------------------------------------------------- what an explained snapshot holds

  /** The kinds of reasons read differently. */
  lemma ReasonsDiffer(n: nat, d: nat, role: Str, path: Str, reported: int, returned: nat)
    ensures MaxNodes(n) != MaxDepth(d) && MaxNodes(n) != Skipping(role) && MaxNodes(n) != Mismatch(path, reported, returned)
    ensures MaxDepth(d) != Skipping(role) && MaxDepth(d) != Mismatch(path, reported, returned)
    ensures Skipping(role) != Mismatch(path, reported, returned)
  {
    hide Decimal, Quoted;
    assert MaxNodes(n)[4] == 110 && MaxDepth(d)[4] == 100 && MaxNodes(n)[0] == 109 && MaxDepth(d)[0] == 109;
    assert Skipping(role)[0] == 115 && Mismatch(path, reported, returned)[0] == 99;
  }

  /** A limit is on record only if it was reached. */
  lemma LimitReached(p: Provider, o: Options, depths: map<NodeID, nat>, count: nat)
    ensures Caused(p, o, MaxNodes(o.maxNodes), depths, count) ==> count >= o.maxNodes
    ensures Caused(p, o, MaxDepth(o.maxDepth), depths, count) ==>
      exists id :: id in depths && depths[id] == o.maxDepth && Asked(p, o, id)
  {
    hide MaxNodes, MaxDepth, Skipping, Mismatch;
    ReasonsDiffer(o.maxNodes, o.maxDepth, [], [], 0, 0);
    forall id | id in depths ensures !CutAt(p, o, MaxNodes(o.maxNodes), id, depths[id]) {
      if p.read(id).Answer? {
        ReasonsDiffer(o.maxNodes, o.maxDepth, p.read(id).node.role, id.obj.path, p.read(id).node.childCount,
          if p.children(id).Refs? then |p.children(id).ids| else 0);
      }
    }
    if Caused(p, o, MaxDepth(o.maxDepth), depths, count) {
      var id :| id in depths && CutAt(p, o, MaxDepth(o.maxDepth), id, depths[id]);
      var node := p.read(id).node;
      ReasonsDiffer(o.maxNodes, o.maxDepth, node.role, id.obj.path, node.childCount,
        if p.children(id).Refs? then |p.children(id).ids| else 0);
      assert Asked(p, o, id);
    }
  }

  /** The provider gives this reference as a child of the object. */
  predicate Gives(p: Provider, id: NodeID, c: NodeID) {
    p.read(id).Answer? && p.read(id).node.childCount > 0 && p.children(id).Refs? && c in p.children(id).ids
  }

  /** Nothing is missed: whatever the provider gives as a child of a node is a node as well, unless the node's
      role is to be skipped, it is as deep as is allowed, no more nodes were, or the child cannot be read or
      seen; and then it is on record why. */
  lemma NothingMissed(s: Snapshot, p: Provider, o: Options, depths: map<NodeID, nat>, tried: set<NodeID>, n: Node, c: NodeID)
    requires Explained(s, p, o, depths, tried) && n in s.NodeList() && Gives(p, n.id, c)
    ensures n.id in depths
    ensures c in Ids(s.NodeList())
      || (n.role in o.skipRoles && Skipping(n.role) in s.truncationReasons)
      || (depths[n.id] == o.maxDepth && MaxDepth(o.maxDepth) in s.truncationReasons)
      || (|s.NodeList()| >= o.maxNodes && MaxNodes(o.maxNodes) in s.truncationReasons)
      || (Unreadable(p, c) && s.providerErrors > 0)
      || (o.visibleOnly && p.read(c).Answer? && !p.read(c).node.visible && !p.read(c).node.showing)
  {
    assert Accounted(p, o, n, depths[n.id], tried, ReportOf(s));
    LimitReached(p, o, depths, |s.NodeList()|);
    hide MaxNodes, MaxDepth, Skipping, Mismatch, Caused, Ids;
  }

  lemma {:induction false} UnderHolds(nodes: seq<Node>, n: Node)
    requires n in nodes
    ensures n.id in Under(nodes, n.parent)
  {
    var init, last := nodes[..|nodes| - 1], nodes[|nodes| - 1];
    if n in init { UnderHolds(init, n); }
    else { assert nodes == init + [last]; }
  }

  /** A node above the depth limit, not of a role to be skipped, of which the provider gives `c` as a child. */
  ghost predicate Yields(p: Provider, o: Options, m: Node, depths: map<NodeID, nat>, c: NodeID) {
    Gives(p, m.id, c) && m.role !in o.skipRoles && m.id in depths && depths[m.id] < o.maxDepth
  }

  /** Nothing is made up: every node but the root is a child that the provider gives of another node, above
      the depth limit and not of a role to be skipped, and one that may be seen. */
  lemma NothingMadeUp(s: Snapshot, root: NodeID, p: Provider, o: Options, depths: map<NodeID, nat>, tried: set<NodeID>, n: Node)
    requires WholeWalk(s, root, o.maxNodes) && Explained(s, p, o, depths, tried) && n in s.NodeList()
    ensures IsReadOf(n, p.read(n.id)) && n.id in depths && depths[n.id] <= o.maxDepth
    ensures n.id != root ==> exists m :: m in s.NodeList() && m.id == n.parent && Yields(p, o, m, depths, n.id)
    ensures o.visibleOnly && depths[n.id] > 0 ==> n.visible || n.showing
  {
    hide DistinctIds, ParentsFirst, Caused, Dismissed, MaxNodes, MaxDepth, Skipping, Mismatch, Under, FromProvider, IsReadOf;
    var nodes := s.NodeList();
    assert Accounted(p, o, n, depths[n.id], tried, ReportOf(s));
    if n.id != root {
      BranchParents(nodes, NO_NODE);
      UnderHolds(nodes, n);
      assert n.parent != NO_NODE;
      var m :| m in nodes && m.id == n.parent;
      assert n.id in m.children;
      assert Accounted(p, o, m, depths[m.id], tried, ReportOf(s));
      MadeOf(p, o, m, depths[m.id], tried, ReportOf(s), n.id);
    }
  }

  lemma MadeOf(p: Provider, o: Options, m: Node, depth: nat, tried: set<NodeID>, report: Report, c: NodeID)
    requires Accounted(p, o, m, depth, tried, report) && c in m.children
    ensures Gives(p, m.id, c) && m.role !in o.skipRoles && depth < o.maxDepth
  {
    hide MaxNodes, MaxDepth, Skipping, Mismatch;
  }

  /** Nothing was cut off, and nothing failed or was hidden. */
  predicate Unabridged(s: Snapshot, o: Options) { s.truncationReasons == [] && s.providerErrors <= 0 && !o.visibleOnly }

  lemma UnabridgedStep(s: Snapshot, p: Provider, o: Options, depths: map<NodeID, nat>, tried: set<NodeID>, id: NodeID, c: NodeID)
    requires Explained(s, p, o, depths, tried) && Unabridged(s, o) && id in Ids(s.NodeList()) && Gives(p, id, c)
    ensures c in Ids(s.NodeList())
  {
    hide Explained, Gives, Skipping, MaxDepth, MaxNodes;
    var m :| m in s.NodeList() && m.id == id;
    NothingMissed(s, p, o, depths, tried, m, c);
  }

  /** A snapshot with nothing on record is the whole tree: it holds whatever can be reached from the root by
      the references that the provider gives. */
  lemma {:induction false} UnabridgedIsWhole(s: Snapshot, root: NodeID, p: Provider, o: Options, depths: map<NodeID, nat>,
    tried: set<NodeID>, path: seq<NodeID>)
    requires WholeWalk(s, root, o.maxNodes) && Explained(s, p, o, depths, tried) && Unabridged(s, o)
    requires path != [] && path[0] == root && forall i :: 0 < i < |path| ==> Gives(p, path[i - 1], path[i])
    ensures path[|path| - 1] in Ids(s.NodeList())
  {
    hide WholeWalk, Explained, Gives, Ids, Unabridged;
    var n := |path| - 1;
    if n == 0 {
      WholeHasRoot(s, root, o.maxNodes);
    } else {
      UnabridgedIsWhole(s, root, p, o, depths, tried, path[..n]);
      assert path[..n][n - 1] == path[n - 1];
      assert Gives(p, path[n - 1], path[n]);
      UnabridgedStep(s, p, o, depths, tried, path[n - 1], path[n]);
    }
  }

  lemma WholeHasRoot(s: Snapshot, root: NodeID, maxNodes: nat)
    requires WholeWalk(s, root, maxNodes)
    ensures root in Ids(s.NodeList())
  {
    hide Branch, FromProvider, Under;
    assert s.root in s.NodeList();
  }

  /** One attempt of `Snapshot` after the cache had none: what the walk hands over to the checks for
      changes and to the response limit. There is a snapshot exactly if the root was visited to the end
      and no visit met a new epoch; it is one tree, and accounts for everything the provider gave. */
  method TakeSnapshot(options: Options, provider: Provider, root: NodeID, generation: nat, capturedAt: Str)
    returns (r: Option<Snapshot>, v: Visit, over: bool, cancelled: bool, ghost depths: map<NodeID, nat>, ghost tried: set<NodeID>)
    ensures r.Some? <==> v.Visited? && !over
    ensures r.None? ==> over || cancelled || Unreadable(provider, root) || options.maxNodes == 0
    ensures r.Some? ==> WholeWalk(r.value, root, options.maxNodes) && Explained(r.value, provider, options, depths, tried)
    ensures r.Some? ==> r.value.generation == generation && (r.value.truncated <==> r.value.truncationReasons != [])
  {
    hide Grown, Found, WholeWalk, Explained, Progress, Unreadable;
    var w := new SnapshotWalker(options, provider);
    ghost var start := w.Now();
    v := w.Walk(root, NO_NODE, 0);
    over, cancelled, depths, tried := w.stale || (v.Failed? && v.stale), w.cancelled, w.depths, w.seen;
    if over || (v.Failed? && (w.cancelled || w.nodes == [])) {
      if !over && !cancelled { RootInVain(provider, options, start, w.Now(), root); }
      r := None;
      return;
    }
    var s := Snapshot(v.node, Some(w.nodes), w.report.reasons != [], w.report.reasons, w.report.providerErrors,
      w.report.warnings, generation, capturedAt, Bytes("at-spi"));
    FoundWhole(w.nodes, w.seen, v.node, s, options.maxNodes);
    ProgressExplains(provider, options, w.Now(), s);
    r := Some(s);
  }

  lemma RootInVain(p: Provider, o: Options, a: View, b: View, root: NodeID)
    requires Vain(p, o, a, b, root, 0) && a == View([], {}, Report([], [], 0), map[])
    ensures Unreadable(p, root) || o.maxNodes == 0
  {
    hide MaxNodes, MaxDepth, Skipping, Mismatch;
    if !Unreadable(p, root) {
      assert Caused(p, o, MaxNodes(o.maxNodes), b.depths, |b.nodes|);
    }
  }
}
