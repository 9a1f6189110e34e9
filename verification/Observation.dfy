/** What a signal says about observed objects, and the bounded history of signals. */
module Observation {
  import opened Basics
  import opened AtSpi
  import opened Snapshots

  const HISTORY_LIMIT := 8192

  const NO_ITEM := CacheItem(NO_IDENT, NO_IDENT, NO_IDENT, 0, 0, Details([], [], 0, [], []))

  datatype Change = Change(
    revision: nat, unknown: bool, cacheAdd: bool, cacheRemove: bool, childrenRemove: bool, windowCreate: bool,
    node: Ident, parent: Ident, removedChild: Ident, item: CacheItem)

  /** The change a signal stands for, given the parent the cache knows for a removed object. */
  function ChangeOf(sig: Signal, about: Ident, revision: nat, knownParent: Ident): (c: Change)
    ensures c.revision == revision
  {
    var blank := Change(revision, false, false, false, false, false, about, NO_IDENT, NO_IDENT, NO_ITEM);
    match sig
    case NoSignal => blank.(unknown := true)
    case Signal(kind, _, sender, _) =>
      match kind
      case CacheAdd(payload) =>
        var item := DecodeItem(payload);
        if item.None? || item.value.obj.bus != sender then blank.(cacheAdd := true, unknown := true)
        else blank.(cacheAdd := true, item := item.value, node := item.value.obj, parent := ParentIdentity(item.value.parent))
      case CacheRemove(payload) =>
        var ref := DecodeRef(payload);
        if ref.None? || ref.value.bus != sender then blank.(cacheRemove := true, unknown := true)
        else blank.(cacheRemove := true, node := ref.value, parent := knownParent)
      case ChildrenRemove(payload) =>
        var ref := DecodeRef(payload);
        if ref.None? || ref.value.bus != sender then blank.(childrenRemove := true, unknown := true)
        else blank.(childrenRemove := true, removedChild := ref.value)
      case WindowCreate => blank.(windowCreate := true, unknown := !about.Valid())
      case _ => blank.(unknown := !about.Valid())
  }

  /** The observed nodes by identity; of two with one identity the later stands. */
  function ByIdentity(nodes: seq<Node>): map<Ident, Node> {
    if nodes == [] then map[]
    else ByIdentity(nodes[..|nodes| - 1])[nodes[|nodes| - 1].id.obj := nodes[|nodes| - 1]]
  }

  function Observed(s: Snapshot): map<Ident, Node> {
    var nodes := ByIdentity(s.NodeList());
    if s.root.id.Valid() then nodes[s.root.id.obj := s.root] else nodes
  }

  predicate Lists(ids: seq<NodeID>, want: Ident) {
    exists id :: id in ids && id.obj == want
  }

  predicate Matches(node: Node, item: CacheItem) {
    && node.name == item.details.name && node.description == item.details.description && node.roleId == item.details.role
    && node.childCount == (if item.childCount < 0 then 0 else item.childCount)
    && multiset(node.interfaces) == multiset(item.details.interfaces)
    && multiset(node.states) == multiset(item.details.states)
  }

  /** `cacheAdditionError`. */
  predicate AdditionConflicts(c: Change, root: Ident, nodes: map<Ident, Node>, reread: bool) {
    if c.node !in nodes && c.parent !in nodes then root.bus == REGISTRY || c.node.bus == root.bus
    else !(reread && c.node in nodes && c.parent in nodes
           && nodes[c.node].parent.obj == c.parent && Lists(nodes[c.parent].children, c.node)
           && Matches(nodes[c.node], c.item))
  }

  /** `cacheRemovalError`. */
  predicate RemovalConflicts(c: Change, root: Ident, nodes: map<Ident, Node>) {
    c.node in nodes || c.parent in nodes || c.removedChild in nodes || (!c.parent.Valid() && c.node.bus == root.bus)
  }

  /** `observationChangeError`. */
  predicate Conflicts(c: Change, root: Ident, rootRole: Str, nodes: map<Ident, Node>, reread: bool) {
    c.unknown ||
    (if c.cacheAdd then AdditionConflicts(c, root, nodes, reread)
     else if c.cacheRemove || c.childrenRemove then RemovalConflicts(c, root, nodes)
     else c.node in nodes
          || (c.windowCreate && (root.bus == REGISTRY || (rootRole == APPLICATION && c.node.bus == root.bus))))
  }

  /** What a snapshot shows of an object that a change is about. */
  ghost predicate AlreadyShows(c: Change, nodes: map<Ident, Node>) {
    && c.cacheAdd && c.node in nodes && c.parent in nodes
    && nodes[c.node].parent.obj == c.parent && Lists(nodes[c.parent].children, c.node) && Matches(nodes[c.node], c.item)
  }

  /** What a provider's tree holds about one object. */
  datatype Facts = Facts(parent: Ident, children: set<Ident>, name: Str, description: Str, role: nat, childCount: int,
    interfaces: multiset<Str>, states: multiset<Str>)

  type Tree = map<Ident, Facts>

  function Children(n: Node): set<Ident> { set id | id in n.children :: id.obj }

  function ItemFacts(item: CacheItem, children: set<Ident>): Facts {
    Facts(ParentIdentity(item.parent), children, item.details.name, item.details.description, item.details.role,
      if item.childCount < 0 then 0 else item.childCount, multiset(item.details.interfaces), multiset(item.details.states))
  }

  /** A node agrees with the tree in all that it shows, save its child count: content may be left out, and
      so may children. */
  ghost predicate Agrees(n: Node, f: Facts) {
    && (n.parent == NO_NODE || f.parent == n.parent.obj) && Children(n) <= f.children
    && (n.name == [] || n.name == f.name) && (n.description == [] || n.description == f.description)
    && (n.roleId == 0 || n.roleId == f.role)
    && (n.interfaces == [] || multiset(n.interfaces) == f.interfaces) && (n.states == [] || multiset(n.states) == f.states)
  }

  ghost predicate Shows(nodes: map<Ident, Node>, tree: Tree) {
    forall x :: x in nodes ==> x in tree && Agrees(nodes[x], tree[x])
  }

  /** Every observed node counts its children as the tree does. */
  ghost predicate CountsRight(nodes: map<Ident, Node>, tree: Tree) {
    forall x :: x in nodes && x in tree ==> nodes[x].childCount == tree[x].childCount
  }

  /** Every observed child of an observed node is listed. */
  ghost predicate ListsAll(nodes: map<Ident, Node>, tree: Tree) {
    forall p, x :: p in nodes && p in tree && x in nodes && x in tree[p].children ==> x in Children(nodes[p])
  }

  /** Nodes stand under their own, valid identities, and list as children only one another. */
  ghost predicate ListsObserved(nodes: map<Ident, Node>) {
    && (forall x :: x in nodes ==> x.Valid() && nodes[x].id.obj == x)
    && (forall p, x :: p in nodes && x in Children(nodes[p]) ==> x in nodes)
  }

  /** The facts about an object that has `x` as a child afterwards, or no longer. */
  function Moved(f: Facts, x: Ident, gains: bool, loses: bool): Facts {
    if gains && x !in f.children then f.(children := f.children + {x}, childCount := f.childCount + 1)
    else if !gains && loses && x in f.children then f.(children := f.children - {x}, childCount := f.childCount - 1)
    else f
  }

  /** The object that a signal is about. */
  function Subject(sig: Signal, about: Ident): Option<Ident>
    requires sig.Signal?
  {
    match sig.kind
    case CacheAdd(item) => if item.Some? then Some(item.value.obj) else None
    case CacheRemove(ref) => ref
    case ChildrenRemove(ref) => ref
    case _ => Some(about)
  }

  /** Where it has become a child: an added item under its parent, a window under what it opened in. */
  function Gaining(sig: Signal, above: Ident): Option<Ident>
    requires sig.Signal?
  {
    match sig.kind
    case CacheAdd(item) => if item.Some? then Some(ParentIdentity(item.value.parent)) else None
    case WindowCreate => Some(above)
    case _ => None
  }

  /** Where it is no child any more: an added item under the parent it had, a removed one under the sender
      of the signal, and what is gone under anything. */
  function Losing(sig: Signal, about: Ident, tree: Tree): set<Ident>
    requires sig.Signal?
  {
    match sig.kind
    case CacheAdd(item) => if item.Some? && item.value.obj in tree then {tree[item.value.obj].parent} else {}
    case CacheRemove(_) => tree.Keys
    case ChildrenRemove(_) => {about}
    case WindowDestroy => tree.Keys
    case _ => {}
  }

  /** What becomes of the object itself. */
  ghost predicate Becomes(sig: Signal, about: Ident, tree: Tree, tree': Tree)
    requires sig.Signal?
  {
    match sig.kind
    case CacheAdd(item) => item.Some? ==> (
      var x := item.value.obj;
      x in tree' && tree'[x] == ItemFacts(item.value, if x in tree then tree[x].children else tree'[x].children))
    case CacheRemove(ref) => ref.Some? ==> ref.value !in tree'
    case ChildrenRemove(ref) => ref.Some? ==> ref.value !in tree'
    case WindowDestroy => about !in tree'
    case _ => true
  }

  ghost predicate Moves(tree: Tree, tree': Tree, x: Ident, to: Option<Ident>, from: set<Ident>) {
    forall y :: y != x ==> (
      (y in tree <==> y in tree') && (y in tree ==> tree'[y] == Moved(tree[y], x, to == Some(y), y in from)))
  }

  /** The change of a provider's tree that a signal announces: its object appears, changes or is gone, and
      others have it as a child accordingly; a window opens under `above`. */
  ghost predicate Announced(sig: Signal, about: Ident, above: Ident, tree: Tree, tree': Tree)
    requires sig.Signal?
  {
    Subject(sig, about).Some? ==>
      && Becomes(sig, about, tree, tree')
      && Moves(tree, tree', Subject(sig, about).value, Gaining(sig, above), Losing(sig, about, tree))
  }

  /** A signal that raises no conflict has not touched anything the snapshot shows: the
      objects it names are outside it, or the snapshot already shows what it announced. */
  lemma PassedSignalNames(sig: Signal, about: Ident, revision: nat, knownParent: Ident,
    root: Ident, rootRole: Str, nodes: map<Ident, Node>, reread: bool)
    requires var c := ChangeOf(sig, about, revision, knownParent); !Conflicts(c, root, rootRole, nodes, reread)
    ensures sig.Signal?
    ensures var c := ChangeOf(sig, about, revision, knownParent);
      AlreadyShows(c, nodes)
      || (c.node !in nodes && (c.cacheAdd || c.cacheRemove || c.childrenRemove ==> c.parent !in nodes))
    ensures var c := ChangeOf(sig, about, revision, knownParent);
      !AlreadyShows(c, nodes) && c.cacheAdd ==> root.bus != REGISTRY && c.node.bus != root.bus
    ensures sig.kind.ChildrenRemove? ==> sig.kind.child.Some? && sig.kind.child.value !in nodes
    ensures sig.kind.CacheRemove? ==> sig.kind.removed.Some? && sig.kind.removed.value !in nodes
  {
  }

  // ------------------------------------------------- which signals pass, field by field

  /** An absent signal or one whose payload is missing, malformed or not the sender's own is refused. */
  lemma MalformedRefused(sig: Signal, about: Ident, revision: nat, knownParent: Ident,
    root: Ident, rootRole: Str, nodes: map<Ident, Node>, reread: bool)
    requires sig.Signal? ==>
      match sig.kind
      case CacheAdd(item) => item.None? || !ValidItem(item.value) || item.value.obj.bus != sig.sender
      case CacheRemove(ref) => ref.None? || !ValidObjectRef(ref.value) || ref.value.bus != sig.sender
      case ChildrenRemove(ref) => ref.None? || !ValidObjectRef(ref.value) || ref.value.bus != sig.sender
      case _ => !about.Valid()
    ensures Conflicts(ChangeOf(sig, about, revision, knownParent), root, rootRole, nodes, reread)
  {
    hide ValidItem, ValidObjectRef;
  }

  /** An addition that touches what was observed passes exactly if the tree was reread and shows it: the object
      under the parent that was told, listed there, and with the content that was told. */
  lemma ObservedAdditionPasses(sig: Signal, item: CacheItem, about: Ident, revision: nat, knownParent: Ident,
    root: Ident, rootRole: Str, nodes: map<Ident, Node>, reread: bool)
    requires sig.Signal? && sig.kind == CacheAdd(Some(item)) && ValidItem(item) && item.obj.bus == sig.sender
    requires item.obj in nodes || ParentIdentity(item.parent) in nodes
    ensures var x, p := item.obj, ParentIdentity(item.parent);
      !Conflicts(ChangeOf(sig, about, revision, knownParent), root, rootRole, nodes, reread) <==>
        (&& reread && x in nodes && p in nodes && nodes[x].parent.obj == p && (exists id :: id in nodes[p].children && id.obj == x)
         && nodes[x].name == item.details.name && nodes[x].description == item.details.description
         && nodes[x].roleId == item.details.role && nodes[x].childCount == (if item.childCount < 0 then 0 else item.childCount)
         && multiset(nodes[x].interfaces) == multiset(item.details.interfaces)
         && multiset(nodes[x].states) == multiset(item.details.states))
  {
    hide ValidItem;
  }

  /** An addition that touches nothing observed passes exactly if it is on another bus than the root, which is
      not the registry's. */
  lemma UnobservedAdditionPasses(sig: Signal, item: CacheItem, about: Ident, revision: nat, knownParent: Ident,
    root: Ident, rootRole: Str, nodes: map<Ident, Node>, reread: bool)
    requires sig.Signal? && sig.kind == CacheAdd(Some(item)) && ValidItem(item) && item.obj.bus == sig.sender
    requires item.obj !in nodes && ParentIdentity(item.parent) !in nodes
    ensures !Conflicts(ChangeOf(sig, about, revision, knownParent), root, rootRole, nodes, reread) <==>
      root.bus != REGISTRY && item.obj.bus != root.bus
  {
    hide ValidItem;
  }

  /** A removal passes exactly if neither the object nor the parent known or telling was observed, and if, with
      the parent unknown, it is on another bus than the root. */
  lemma RemovalPasses(sig: Signal, x: Ident, about: Ident, revision: nat, knownParent: Ident,
    root: Ident, rootRole: Str, nodes: map<Ident, Node>, reread: bool)
    requires sig.Signal? && ValidObjectRef(x) && x.bus == sig.sender && NO_IDENT !in nodes
    requires sig.kind == CacheRemove(Some(x)) || sig.kind == ChildrenRemove(Some(x))
    ensures !Conflicts(ChangeOf(sig, about, revision, knownParent), root, rootRole, nodes, reread) <==>
      (&& x !in nodes
       && if sig.kind.CacheRemove? then knownParent !in nodes && (knownParent.Valid() || x.bus != root.bus)
          else about !in nodes && about.bus != root.bus)
  {
    hide ValidObjectRef;
  }

  /** Any other signal passes exactly if its object was not observed, except that a window opening may not be
      missed: anywhere below the registry, or on the bus of an application's root. */
  lemma OtherPasses(sig: Signal, about: Ident, revision: nat, knownParent: Ident,
    root: Ident, rootRole: Str, nodes: map<Ident, Node>, reread: bool)
    requires sig.Signal? && !sig.kind.CacheAdd? && !sig.kind.CacheRemove? && !sig.kind.ChildrenRemove?
    ensures !Conflicts(ChangeOf(sig, about, revision, knownParent), root, rootRole, nodes, reread) <==>
      (&& about.Valid() && about !in nodes
       && (sig.kind == WindowCreate ==> root.bus != REGISTRY && !(rootRole == APPLICATION && about.bus == root.bus)))
  {}

  /** An observed object has `x` as a child before or after, but not both. */
  ghost predicate MovesObserved(nodes: map<Ident, Node>, tree: Tree, x: Ident, to: Option<Ident>, from: set<Ident>) {
    exists y :: y in nodes && y in tree && y != x
      && if to == Some(y) then x !in tree[y].children else y in from && x in tree[y].children
  }

  lemma MovedAgrees(n: Node, f: Facts, x: Ident, gains: bool, loses: bool)
    requires Agrees(n, f) && (loses && !gains ==> x !in Children(n))
    ensures Agrees(n, Moved(f, x, gains, loses))
  {}

  /** The object itself, if observed, is shown as it has become. */
  ghost predicate SubjectShown(nodes: map<Ident, Node>, tree: Tree, tree': Tree, x: Ident, to: Option<Ident>) {
    x in nodes ==>
      && x in tree && x in tree' && tree'[x].children == tree[x].children && Agrees(nodes[x], tree'[x])
      && nodes[x].childCount == tree'[x].childCount
      && (to.Some? && to.value in nodes ==> x in Children(nodes[to.value]))
  }

  /** The object is a child where it should be already, or neither it nor its parent was observed. */
  ghost predicate Settled(nodes: map<Ident, Node>, tree: Tree, x: Ident, to: Option<Ident>, from: set<Ident>) {
    if x in nodes then to.Some? && from <= {to.value} && to.value in tree && x in tree[to.value].children
    else to.None? || to.value !in nodes
  }

  lemma MoveShown(nodes: map<Ident, Node>, tree: Tree, tree': Tree, x: Ident, to: Option<Ident>, from: set<Ident>)
    requires Shows(nodes, tree) && Moves(tree, tree', x, to, from) && SubjectShown(nodes, tree, tree', x, to)
    requires forall y :: y in nodes && y in from && to != Some(y) ==> x !in Children(nodes[y])
    ensures Shows(nodes, tree')
  {
    hide Agrees, Moved, Children;
    forall y | y in nodes ensures y in tree' && Agrees(nodes[y], tree'[y]) {
      if y != x { MovedAgrees(nodes[y], tree[y], x, to == Some(y), y in from); }
    }
  }

  lemma MoveListed(nodes: map<Ident, Node>, tree: Tree, tree': Tree, x: Ident, to: Option<Ident>, from: set<Ident>)
    requires ListsAll(nodes, tree) && Moves(tree, tree', x, to, from) && SubjectShown(nodes, tree, tree', x, to)
    ensures ListsAll(nodes, tree')
  {
    hide Agrees;
    forall p, z | p in nodes && p in tree' && z in nodes && z in tree'[p].children ensures z in Children(nodes[p]) {
      assert p in tree;
      assert z in tree[p].children || (z == x && to == Some(p));
    }
  }

  lemma MoveCounted(nodes: map<Ident, Node>, tree: Tree, tree': Tree, x: Ident, to: Option<Ident>, from: set<Ident>)
    requires CountsRight(nodes, tree) && Moves(tree, tree', x, to, from) && SubjectShown(nodes, tree, tree', x, to)
    ensures CountsRight(nodes, tree') <==> !MovesObserved(nodes, tree, x, to, from)
  {
    hide Agrees, Children;
    if MovesObserved(nodes, tree, x, to, from) {
      var y :| y in nodes && y in tree && y != x
        && if to == Some(y) then x !in tree[y].children else y in from && x in tree[y].children;
      assert nodes[y].childCount == tree[y].childCount && tree'[y].childCount != tree[y].childCount;
    }
  }

  /** A signal as the handler gets it, with what was known of its object then. */
  datatype Told = Told(sig: Signal, about: Ident, above: Ident, revision: nat, knownParent: Ident)

  /** A signal that changes the tree and raises no conflict. */
  ghost predicate Passes(t: Told, tree: Tree, tree': Tree, root: Ident, rootRole: Str, nodes: map<Ident, Node>, reread: bool) {
    && t.sig.Signal? && Announced(t.sig, t.about, t.above, tree, tree')
    && !Conflicts(ChangeOf(t.sig, t.about, t.revision, t.knownParent), root, rootRole, nodes, reread)
  }

  /** A signal that passes leaves its object unobserved, or shown as the signal says. */
  lemma PassedSubject(t: Told, root: Ident, rootRole: Str, nodes: map<Ident, Node>, reread: bool, tree: Tree, tree': Tree)
    requires Passes(t, tree, tree', root, rootRole, nodes, reread) && ListsObserved(nodes) && Shows(nodes, tree)
    ensures Subject(t.sig, t.about).Some? && SubjectShown(nodes, tree, tree', Subject(t.sig, t.about).value, Gaining(t.sig, t.above))
    ensures forall y :: y in nodes && y in Losing(t.sig, t.about, tree) && Gaining(t.sig, t.above) != Some(y) ==>
      Subject(t.sig, t.about).value !in Children(nodes[y])
    ensures !t.sig.kind.WindowCreate? ==>
      Settled(nodes, tree, Subject(t.sig, t.about).value, Gaining(t.sig, t.above), Losing(t.sig, t.about, tree))
  {
    hide Moves;
    var c := ChangeOf(t.sig, t.about, t.revision, t.knownParent);
    PassedSignalNames(t.sig, t.about, t.revision, t.knownParent, root, rootRole, nodes, reread);
    if t.sig.kind.CacheAdd? && AlreadyShows(c, nodes) {
      var x, p := c.node, c.parent;
      assert Agrees(nodes[x], tree[x]) && Agrees(nodes[p], tree[p]);
      assert x in Children(nodes[p]) && tree[x].parent == p;
      assert Agrees(nodes[x], tree'[x]);
    }
  }

  /** What passing means for the tree. A snapshot that showed it before a signal shows it after, if no
      conflict was raised: all that the snapshot shows of any object is still so, and no observed child
      is missing. Only a count of children can be out of date, exactly where an object that was not
      visited has come to an observed one or gone from it. */
  lemma PassedSignalLeavesSnapshot(t: Told, root: Ident, rootRole: Str, nodes: map<Ident, Node>, reread: bool, tree: Tree, tree': Tree)
    requires Passes(t, tree, tree', root, rootRole, nodes, reread) && ListsObserved(nodes) && Shows(nodes, tree)
    ensures Shows(nodes, tree') && (ListsAll(nodes, tree) ==> ListsAll(nodes, tree')) && Subject(t.sig, t.about).Some?
    ensures CountsRight(nodes, tree) ==> (CountsRight(nodes, tree') <==>
      !MovesObserved(nodes, tree, Subject(t.sig, t.about).value, Gaining(t.sig, t.above), Losing(t.sig, t.about, tree)))
  {
    PassedSubject(t, root, rootRole, nodes, reread, tree, tree');
    hide Shows, CountsRight, ListsAll, Moves, ListsObserved, SubjectShown, MovesObserved, Conflicts, ChangeOf, Becomes,
      Subject, Gaining, Losing, Children;
    var x, to, from := Subject(t.sig, t.about).value, Gaining(t.sig, t.above), Losing(t.sig, t.about, tree);
    MoveShown(nodes, tree, tree', x, to, from);
    if ListsAll(nodes, tree) { MoveListed(nodes, tree, tree', x, to, from); }
    if CountsRight(nodes, tree) { MoveCounted(nodes, tree, tree', x, to, from); }
  }

  ghost predicate OnlyChildOf(tree: Tree, x: Ident, p: Ident) {
    forall y :: y in tree && x in tree[y].children ==> y == p
  }

  /** All children of observed objects have been observed. */
  ghost predicate Whole(nodes: map<Ident, Node>, tree: Tree) {
    forall p :: p in nodes && p in tree ==> tree[p].children <= nodes.Keys
  }

  lemma WholeStays(nodes: map<Ident, Node>, tree: Tree, x: Ident, to: Option<Ident>, from: set<Ident>)
    requires Whole(nodes, tree) && Settled(nodes, tree, x, to, from)
    ensures !MovesObserved(nodes, tree, x, to, from)
  {}

  lemma KnownStays(nodes: map<Ident, Node>, tree: Tree, x: Ident, parent: Ident, from: set<Ident>)
    requires OnlyChildOf(tree, x, parent) && parent !in nodes
    ensures !MovesObserved(nodes, tree, x, None, from)
  {}

  lemma ElsewhereStays(nodes: map<Ident, Node>, tree: Tree, x: Ident, to: Option<Ident>, from: set<Ident>)
    requires from !! nodes.Keys && (to.None? || to.value !in nodes)
    ensures !MovesObserved(nodes, tree, x, to, from)
  {}

  /** Counts stay right in a snapshot that left no child out, unless a window opens in it. */
  lemma WholeSnapshotKeepsCounts(t: Told, root: Ident, rootRole: Str, nodes: map<Ident, Node>, reread: bool, tree: Tree, tree': Tree)
    requires Passes(t, tree, tree', root, rootRole, nodes, reread) && ListsObserved(nodes) && Shows(nodes, tree)
    requires CountsRight(nodes, tree) && Whole(nodes, tree) && !t.sig.kind.WindowCreate?
    ensures CountsRight(nodes, tree')
  {
    PassedSubject(t, root, rootRole, nodes, reread, tree, tree');
    PassedSignalLeavesSnapshot(t, root, rootRole, nodes, reread, tree, tree');
    hide *;
    WholeStays(nodes, tree, Subject(t.sig, t.about).value, Gaining(t.sig, t.above), Losing(t.sig, t.about, tree));
  }

  lemma PassedRemoval(t: Told, root: Ident, rootRole: Str, nodes: map<Ident, Node>, reread: bool)
    requires t.sig.Signal? && t.sig.kind.CacheRemove?
    requires !Conflicts(ChangeOf(t.sig, t.about, t.revision, t.knownParent), root, rootRole, nodes, reread)
    ensures t.sig.kind.removed.Some? && Subject(t.sig, t.about) == t.sig.kind.removed && Gaining(t.sig, t.above).None?
    ensures t.knownParent !in nodes
  {}

  lemma PassedElsewhere(t: Told, root: Ident, rootRole: Str, nodes: map<Ident, Node>, reread: bool, tree: Tree)
    requires t.sig.Signal? && !t.sig.kind.CacheAdd? && !t.sig.kind.CacheRemove? && !t.sig.kind.WindowDestroy?
    requires !Conflicts(ChangeOf(t.sig, t.about, t.revision, t.knownParent), root, rootRole, nodes, reread)
    requires t.sig.kind.WindowCreate? ==> t.above !in nodes
    ensures Losing(t.sig, t.about, tree) !! nodes.Keys && (Gaining(t.sig, t.above).None? || Gaining(t.sig, t.above).value !in nodes)
  {}

  /** Counts stay right in any snapshot when the cache places a removed object under its true parent. */
  lemma KnownRemovalKeepsCounts(t: Told, root: Ident, rootRole: Str, nodes: map<Ident, Node>, reread: bool, tree: Tree, tree': Tree)
    requires Passes(t, tree, tree', root, rootRole, nodes, reread) && ListsObserved(nodes) && Shows(nodes, tree)
    requires CountsRight(nodes, tree) && t.sig.kind.CacheRemove?
    requires t.sig.kind.removed.Some? ==> OnlyChildOf(tree, t.sig.kind.removed.value, t.knownParent)
    ensures CountsRight(nodes, tree')
  {
    PassedSignalLeavesSnapshot(t, root, rootRole, nodes, reread, tree, tree');
    PassedRemoval(t, root, rootRole, nodes, reread);
    hide *;
    KnownStays(nodes, tree, Subject(t.sig, t.about).value, t.knownParent, Losing(t.sig, t.about, tree));
  }

  /** Counts stay right in any snapshot when a parent tells of the removal itself, when a window opens in
      something that was not observed, and after all signals that move nothing. */
  lemma OtherSignalsKeepCounts(t: Told, root: Ident, rootRole: Str, nodes: map<Ident, Node>, reread: bool, tree: Tree, tree': Tree)
    requires Passes(t, tree, tree', root, rootRole, nodes, reread) && ListsObserved(nodes) && Shows(nodes, tree)
    requires CountsRight(nodes, tree)
    requires !t.sig.kind.CacheAdd? && !t.sig.kind.CacheRemove? && !t.sig.kind.WindowDestroy?
    requires t.sig.kind.WindowCreate? ==> t.above !in nodes
    ensures CountsRight(nodes, tree')
  {
    PassedSignalLeavesSnapshot(t, root, rootRole, nodes, reread, tree, tree');
    PassedElsewhere(t, root, rootRole, nodes, reread, tree);
    hide *;
    ElsewhereStays(nodes, tree, Subject(t.sig, t.about).value, Gaining(t.sig, t.above), Losing(t.sig, t.about, tree));
  }

  /** A window opens under something observed only in snapshots of the registry or of its own application. */
  ghost predicate OpensInScope(t: Told, root: Ident, rootRole: Str, nodes: map<Ident, Node>) {
    t.sig.Signal? && t.sig.kind.WindowCreate? && t.above in nodes ==>
      root.bus == REGISTRY || (rootRole == APPLICATION && t.about.bus == root.bus)
  }

  lemma MovedWhole(nodes: map<Ident, Node>, tree: Tree, tree': Tree, x: Ident, to: Option<Ident>, from: set<Ident>)
    requires Whole(nodes, tree) && Moves(tree, tree', x, to, from) && SubjectShown(nodes, tree, tree', x, to)
    requires to.Some? && to.value in nodes ==> x in nodes
    ensures Whole(nodes, tree')
  {
    hide Agrees;
    forall p | p in nodes && p in tree' ensures tree'[p].children <= nodes.Keys {
      if p != x { assert tree'[p] == Moved(tree[p], x, to == Some(p), p in from); }
    }
  }

  /** Nothing that comes to an observed object is missed: a snapshot that left no child out leaves none out
      after a signal that passes, and its counts stay right. */
  lemma NoChildMissed(t: Told, root: Ident, rootRole: Str, nodes: map<Ident, Node>, reread: bool, tree: Tree, tree': Tree)
    requires Passes(t, tree, tree', root, rootRole, nodes, reread) && ListsObserved(nodes) && Shows(nodes, tree)
    requires Whole(nodes, tree) && OpensInScope(t, root, rootRole, nodes)
    ensures Whole(nodes, tree') && (CountsRight(nodes, tree) ==> CountsRight(nodes, tree'))
  {
    PassedSubject(t, root, rootRole, nodes, reread, tree, tree');
    if CountsRight(nodes, tree) {
      if t.sig.kind.WindowCreate? {
        OtherSignalsKeepCounts(t, root, rootRole, nodes, reread, tree, tree');
      } else {
        WholeSnapshotKeepsCounts(t, root, rootRole, nodes, reread, tree, tree');
      }
    }
    hide Shows, CountsRight, Whole, Moves, ListsObserved, Becomes, Matches, SubjectShown, Lists, AdditionConflicts;
    MovedWhole(nodes, tree, tree', Subject(t.sig, t.about).value, Gaining(t.sig, t.above), Losing(t.sig, t.about, tree));
  }

  /** Signals that change the tree step by step, none of which raises a conflict. */
  ghost predicate AllPass(told: seq<Told>, trees: seq<Tree>, root: Ident, rootRole: Str, nodes: map<Ident, Node>, reread: bool) {
    && |trees| == |told| + 1
    && forall i :: 0 <= i < |told| ==> Passes(told[i], trees[i], trees[i + 1], root, rootRole, nodes, reread)
  }

  /** However many signals pass, the snapshot shows the tree after the last one. */
  lemma {:induction false} PassedSignalsLeaveSnapshot(told: seq<Told>, trees: seq<Tree>,
    root: Ident, rootRole: Str, nodes: map<Ident, Node>, reread: bool)
    requires AllPass(told, trees, root, rootRole, nodes, reread) && ListsObserved(nodes) && Shows(nodes, trees[0])
    ensures Shows(nodes, trees[|told|]) && (ListsAll(nodes, trees[0]) ==> ListsAll(nodes, trees[|told|]))
  {
    hide Passes, ListsObserved, Shows, ListsAll;
    if told != [] {
      var n := |told| - 1;
      PassedSignalsLeaveSnapshot(told[..n], trees[..n + 1], root, rootRole, nodes, reread);
      assert Passes(told[n], trees[n], trees[n + 1], root, rootRole, nodes, reread);
      PassedSignalLeavesSnapshot(told[n], root, rootRole, nodes, reread, trees[n], trees[n + 1]);
    }
  }

  /** However many signals pass, a snapshot that left no child out shows the whole tree below its root as it
      is after the last one: every child of every node, and the right counts. */
  lemma {:induction false} WholeSnapshotStaysWhole(told: seq<Told>, trees: seq<Tree>,
    root: Ident, rootRole: Str, nodes: map<Ident, Node>, reread: bool)
    requires AllPass(told, trees, root, rootRole, nodes, reread) && ListsObserved(nodes) && Shows(nodes, trees[0])
    requires Whole(nodes, trees[0]) && CountsRight(nodes, trees[0])
    requires forall t :: t in told ==> OpensInScope(t, root, rootRole, nodes)
    ensures Shows(nodes, trees[|told|]) && Whole(nodes, trees[|told|]) && CountsRight(nodes, trees[|told|])
  {
    hide Passes, ListsObserved, Shows, ListsAll, Whole, CountsRight, OpensInScope;
    if told != [] {
      var n := |told| - 1;
      WholeSnapshotStaysWhole(told[..n], trees[..n + 1], root, rootRole, nodes, reread);
      assert Passes(told[n], trees[n], trees[n + 1], root, rootRole, nodes, reread);
      PassedSignalLeavesSnapshot(told[n], root, rootRole, nodes, reread, trees[n], trees[n + 1]);
      NoChildMissed(told[n], root, rootRole, nodes, reread, trees[n], trees[n + 1]);
    }
  }

  /** A listed child does not claim another parent. */
  ghost predicate ListedUnderParent(nodes: map<Ident, Node>) {
    forall p, x :: p in nodes && x in nodes && x in Children(nodes[p]) ==> nodes[x].parent == NO_NODE || nodes[x].parent.obj == p
  }

  /** One node by itself: once read it stays true while signals pass, whenever the others were read. */
  lemma NodeStays(t: Told, root: Ident, rootRole: Str, nodes: map<Ident, Node>, reread: bool, tree: Tree, tree': Tree, x: Ident)
    requires Passes(t, tree, tree', root, rootRole, nodes, reread) && ListsObserved(nodes) && ListedUnderParent(nodes)
    requires x in nodes && x in tree && Agrees(nodes[x], tree[x])
    ensures x in tree' && Agrees(nodes[x], tree'[x])
  {
    var c := ChangeOf(t.sig, t.about, t.revision, t.knownParent);
    PassedSignalNames(t.sig, t.about, t.revision, t.knownParent, root, rootRole, nodes, reread);
    PassedOthers(t, root, rootRole, nodes, reread, tree, x);
    hide ListsObserved, ListedUnderParent, Conflicts, ChangeOf, Losing, Gaining;
    var z := Subject(t.sig, t.about).value;
    if z == x {
      hide Moves;
    } else {
      hide Becomes, Agrees, Moved, Children;
      MovedAgrees(nodes[x], tree[x], z, Gaining(t.sig, t.above) == Some(x), x in Losing(t.sig, t.about, tree));
    }
  }

  lemma PassedOthers(t: Told, root: Ident, rootRole: Str, nodes: map<Ident, Node>, reread: bool, tree: Tree, x: Ident)
    requires t.sig.Signal? && !Conflicts(ChangeOf(t.sig, t.about, t.revision, t.knownParent), root, rootRole, nodes, reread)
    requires ListsObserved(nodes) && ListedUnderParent(nodes) && x in nodes
    ensures Subject(t.sig, t.about).Some?
    ensures var z := Subject(t.sig, t.about).value;
      && (z in nodes ==> t.sig.kind.CacheAdd? && AlreadyShows(ChangeOf(t.sig, t.about, t.revision, t.knownParent), nodes))
      && (z in Children(nodes[x]) && z != x && x in Losing(t.sig, t.about, tree) ==> Gaining(t.sig, t.above) == Some(x))
  {
    PassedSignalNames(t.sig, t.about, t.revision, t.knownParent, root, rootRole, nodes, reread);
  }

  ghost predicate Read(n: Node, trees: seq<Tree>) {
    exists k :: 0 <= k < |trees| && n.id.obj in trees[k] && Agrees(n, trees[k][n.id.obj])
  }

  lemma {:induction false} NodeStaysOn(told: seq<Told>, trees: seq<Tree>, root: Ident, rootRole: Str, nodes: map<Ident, Node>,
    reread: bool, x: Ident, k: nat)
    requires AllPass(told, trees, root, rootRole, nodes, reread) && ListsObserved(nodes) && ListedUnderParent(nodes)
    requires k <= |told| && x in nodes && x in trees[k] && Agrees(nodes[x], trees[k][x])
    ensures x in trees[|told|] && Agrees(nodes[x], trees[|told|][x])
    decreases |told| - k
  {
    hide Passes, ListsObserved, ListedUnderParent, Agrees;
    if k < |told| {
      assert Passes(told[k], trees[k], trees[k + 1], root, rootRole, nodes, reread);
      NodeStays(told[k], root, rootRole, nodes, reread, trees[k], trees[k + 1], x);
      NodeStaysOn(told, trees, root, rootRole, nodes, reread, x, k + 1);
    }
  }

  /** A snapshot read node by node while the tree changes: if each node was true when it was read, and no
      signal before or after raises a conflict, all of them are true together in the end. */
  lemma ReadNodeByNode(told: seq<Told>, trees: seq<Tree>, root: Ident, rootRole: Str, nodes: map<Ident, Node>, reread: bool)
    requires AllPass(told, trees, root, rootRole, nodes, reread) && ListsObserved(nodes) && ListedUnderParent(nodes)
    requires forall x :: x in nodes ==> Read(nodes[x], trees)
    ensures Shows(nodes, trees[|told|])
  {
    hide Agrees;
    forall x | x in nodes ensures x in trees[|told|] && Agrees(nodes[x], trees[|told|][x]) {
      assert Read(nodes[x], trees);
      var k :| 0 <= k < |trees| && nodes[x].id.obj in trees[k] && Agrees(nodes[x], trees[k][nodes[x].id.obj]);
      NodeStaysOn(told, trees, root, rootRole, nodes, reread, x, k);
    }
  }

  const ROOT_OBJ: Ident := Ident([1], [47])
  const FAR_OBJ: Ident := Ident([2], [47])

  /** What a provider says about an object without content. */
  function Plain(parent: Ident, children: set<Ident>): Facts {
    Facts(parent, children, [], [], 0, |children|, multiset{}, multiset{})
  }

  function FarRemoval(): Told {
    Told(Signal(CacheRemove(Some(FAR_OBJ)), true, FAR_OBJ.bus, []), FAR_OBJ, NO_IDENT, 1, NO_IDENT)
  }

  lemma FarRemovalPasses(node: Node, rootRole: Str, reread: bool)
    ensures Passes(FarRemoval(), map[ROOT_OBJ := Plain(NO_IDENT, {FAR_OBJ}), FAR_OBJ := Plain(ROOT_OBJ, {})],
      map[ROOT_OBJ := Plain(NO_IDENT, {})], ROOT_OBJ, rootRole, map[ROOT_OBJ := node], reread)
  {
    assert ValidObjectRef(FAR_OBJ) && ROOT_OBJ != FAR_OBJ && ROOT_OBJ.bus != FAR_OBJ.bus && NO_IDENT != ROOT_OBJ;
    assert Moved(Plain(NO_IDENT, {FAR_OBJ}), FAR_OBJ, false, true) == Plain(NO_IDENT, {});
  }

  /** One count that goes out of date unnoticed: a snapshot of one node whose only child, on another bus,
      was not visited; the child is removed, and the cache does not know its parent. */
  lemma UnvisitedChildGoes(rootRole: Str, reread: bool)
    ensures var node := Bare(NodeID(ROOT_OBJ, 1, 1)).(childCount := 1);
      var nodes, tree := map[ROOT_OBJ := node], map[ROOT_OBJ := Plain(NO_IDENT, {FAR_OBJ}), FAR_OBJ := Plain(ROOT_OBJ, {})];
      var tree' := map[ROOT_OBJ := Plain(NO_IDENT, {})];
      && ListsObserved(nodes) && Shows(nodes, tree) && ListsAll(nodes, tree) && CountsRight(nodes, tree)
      && Passes(FarRemoval(), tree, tree', ROOT_OBJ, rootRole, nodes, reread) && !CountsRight(nodes, tree')
  {
    var node := Bare(NodeID(ROOT_OBJ, 1, 1)).(childCount := 1);
    FarRemovalPasses(node, rootRole, reread);
    assert Children(node) == {} && ROOT_OBJ != FAR_OBJ;
    assert map[ROOT_OBJ := Plain(NO_IDENT, {})][ROOT_OBJ].childCount == 0;
  }

  const WINDOW_OBJ: Ident := Ident([1], [47, 97])

  /** Another count that goes out of date: a window of the root's own application that was left out, as an
      invisible one is, is destroyed. */
  lemma UnvisitedWindowCloses(rootRole: Str, reread: bool)
    ensures var node := Bare(NodeID(ROOT_OBJ, 1, 1)).(childCount := 1);
      var nodes, tree := map[ROOT_OBJ := node], map[ROOT_OBJ := Plain(NO_IDENT, {WINDOW_OBJ}), WINDOW_OBJ := Plain(ROOT_OBJ, {})];
      var tree' := map[ROOT_OBJ := Plain(NO_IDENT, {})];
      var told := Told(Signal(WindowDestroy, false, WINDOW_OBJ.bus, WINDOW_OBJ.path), WINDOW_OBJ, ROOT_OBJ, 1, NO_IDENT);
      && ListsObserved(nodes) && Shows(nodes, tree) && CountsRight(nodes, tree)
      && Passes(told, tree, tree', ROOT_OBJ, rootRole, nodes, reread) && !CountsRight(nodes, tree')
  {
    var node := Bare(NodeID(ROOT_OBJ, 1, 1)).(childCount := 1);
    assert |ROOT_OBJ.path| != |WINDOW_OBJ.path|;
    assert Children(node) == {} && ROOT_OBJ != WINDOW_OBJ && NO_IDENT != ROOT_OBJ;
    assert Moved(Plain(NO_IDENT, {WINDOW_OBJ}), WINDOW_OBJ, false, true) == Plain(NO_IDENT, {});
    assert map[ROOT_OBJ := Plain(NO_IDENT, {})][ROOT_OBJ].childCount == 0;
  }

  /** The rule taken by itself needs snapshots that list observed children only: the same removal passes
      if the node lists the child, and then the snapshot shows a child that is gone. */
  lemma UnobservedListedPasses(rootRole: Str, reread: bool)
    ensures var node := Bare(NodeID(ROOT_OBJ, 1, 1)).(childCount := 1, children := [NodeID(FAR_OBJ, 1, 1)]);
      var nodes, tree := map[ROOT_OBJ := node], map[ROOT_OBJ := Plain(NO_IDENT, {FAR_OBJ}), FAR_OBJ := Plain(ROOT_OBJ, {})];
      var tree' := map[ROOT_OBJ := Plain(NO_IDENT, {})];
      && !ListsObserved(nodes) && Shows(nodes, tree)
      && Passes(FarRemoval(), tree, tree', ROOT_OBJ, rootRole, nodes, reread) && !Shows(nodes, tree')
  {
    var node := Bare(NodeID(ROOT_OBJ, 1, 1)).(childCount := 1, children := [NodeID(FAR_OBJ, 1, 1)]);
    FarRemovalPasses(node, rootRole, reread);
    assert NodeID(FAR_OBJ, 1, 1) in node.children;
    assert FAR_OBJ in Children(node) && Children(node) == {FAR_OBJ} && ROOT_OBJ != FAR_OBJ;
    assert !Agrees(node, Plain(NO_IDENT, {}));
    var nodes := map[ROOT_OBJ := node];
    assert FAR_OBJ in Children(nodes[ROOT_OBJ]) && FAR_OBJ !in nodes;
    assert ROOT_OBJ in nodes && map[ROOT_OBJ := Plain(NO_IDENT, {})][ROOT_OBJ] == Plain(NO_IDENT, {});
  }

  // ------------------------------------------------------- from nodes to identities

  lemma {:induction false} ByIdentityHolds(nodes: seq<Node>)
    ensures forall x :: x in ByIdentity(nodes) ==> ByIdentity(nodes)[x] in nodes && ByIdentity(nodes)[x].id.obj == x
    ensures forall n :: n in nodes ==> n.id.obj in ByIdentity(nodes)
  {
    if nodes != [] { ByIdentityHolds(nodes[..|nodes| - 1]); }
  }

  ghost predicate ValidIds(s: Snapshot) {
    s.root.id.Valid() && forall n :: n in s.NodeList() ==> n.id.Valid()
  }

  /** A snapshot whose nodes list nothing but its own nodes lists observed objects only. */
  lemma OwnAreObserved(s: Snapshot)
    requires ValidIds(s) && ListsOwn(s)
    ensures ListsObserved(Observed(s))
  {
    ByIdentityHolds(s.NodeList());
    var nodes := Observed(s);
    forall p, x | p in nodes && x in Children(nodes[p]) ensures x in nodes {
      var id :| id in nodes[p].children && id.obj == x;
      assert id in Ids(s.NodeList());
    }
  }

  function AllNodes(s: Snapshot): seq<Node> { s.NodeList() + [s.root] }

  /** A node listed as a child names the node that lists it as its parent, or none. */
  ghost predicate ClaimsParents(s: Snapshot) {
    forall n, m, c :: n in AllNodes(s) && m in AllNodes(s) && c in n.children && c.obj == m.id.obj ==>
      m.parent == NO_NODE || m.parent.obj == n.id.obj
  }

  lemma ObservedHolds(s: Snapshot, x: Ident)
    requires x in Observed(s)
    ensures Observed(s)[x] in AllNodes(s) && Observed(s)[x].id.obj == x
  {
    ByIdentityHolds(s.NodeList());
  }

  /** All nodes are observed, the root in any case, and nothing else is. */
  lemma ObservedExactly(s: Snapshot)
    requires s.root.id.Valid()
    ensures forall x :: x in Observed(s) <==> exists n :: n in AllNodes(s) && n.id.obj == x
    ensures s.root.id.obj in Observed(s) && Observed(s)[s.root.id.obj] == s.root
  {
    ByIdentityHolds(s.NodeList());
    assert s.root in AllNodes(s);
    forall x | x in Observed(s) ensures exists n :: n in AllNodes(s) && n.id.obj == x { ObservedHolds(s, x); }
    forall n | n in AllNodes(s) ensures n.id.obj in Observed(s) {}
  }

  lemma ClaimedListed(s: Snapshot)
    requires ClaimsParents(s)
    ensures ListedUnderParent(Observed(s))
  {
    hide Observed, AllNodes;
    var nodes := Observed(s);
    forall p, x | p in nodes && x in nodes && x in Children(nodes[p]) ensures nodes[x].parent == NO_NODE || nodes[x].parent.obj == p {
      var c :| c in nodes[p].children && c.obj == x;
      ObservedHolds(s, p);
      ObservedHolds(s, x);
    }
  }

  /** Every node of the snapshot agrees with the tree. */
  ghost predicate AllAgree(s: Snapshot, tree: Tree) {
    && (s.root.id.obj in tree && Agrees(s.root, tree[s.root.id.obj]))
    && forall n :: n in s.NodeList() ==> n.id.obj in tree && Agrees(n, tree[n.id.obj])
  }

  lemma AgreeingShows(s: Snapshot, tree: Tree)
    requires AllAgree(s, tree)
    ensures Shows(Observed(s), tree)
  {
    hide Agrees;
    ByIdentityHolds(s.NodeList());
  }

  lemma PartAgrees(part: Node, whole: Node, f: Facts)
    requires PartOf(part, whole) && Agrees(whole, f)
    ensures Agrees(part, f)
  {}

  /** What is left of a snapshot agrees with whatever the whole agrees with. */
  lemma PartsAgree(part: Snapshot, whole: Snapshot, tree: Tree)
    requires PartOfSnapshot(part, whole) && AllAgree(whole, tree)
    ensures AllAgree(part, tree)
  {
    hide Agrees, PartOf;
    SameIdentity(part.root, whole.root);
    PartAgrees(part.root, whole.root, tree[whole.root.id.obj]);
    forall n | n in part.NodeList() ensures n.id.obj in tree && Agrees(n, tree[n.id.obj]) {
      assert HasPart(whole, n);
      var m :| m in whole.NodeList() && PartOf(n, m);
      SameIdentity(n, m);
      PartAgrees(n, m, tree[m.id.obj]);
    }
  }

  lemma SameIdentity(part: Node, whole: Node)
    requires PartOf(part, whole)
    ensures part.id == whole.id
  {}

  /** Revisions ascend, from above zero up to a bound. */
  ghost predicate Ascending(changes: seq<Change>, bound: nat) {
    changes == [] ||
    (var last := changes[|changes| - 1];
     0 < last.revision <= bound && Ascending(changes[..|changes| - 1], last.revision - 1))
  }

  lemma {:induction false} AscendingOrder(changes: seq<Change>, bound: nat, i: nat, j: nat)
    requires Ascending(changes, bound) && i < j <= |changes|
    ensures changes[i].revision < if j < |changes| then changes[j].revision else bound + 1
    decreases |changes|
  {
    var n := |changes| - 1;
    if j < n {
      AscendingOrder(changes[..n], changes[n].revision - 1, i, j);
    } else if i < n {
      AscendingOrder(changes[..n], changes[n].revision - 1, i, n);
    }
  }

  /** What is left of the signals and what was forgotten make up all signals in order; the
      floor is the newest forgotten revision. */
  ghost predicate Log(forgotten: seq<Change>, history: seq<Change>, floor: nat, revision: nat) {
    && |history| <= HISTORY_LIMIT && (forgotten != [] ==> |history| == HISTORY_LIMIT)
    && floor == (if forgotten == [] then 0 else forgotten[|forgotten| - 1].revision)
    && Ascending(forgotten + history, revision)
  }

  /** The revision may move on without a signal. */
  lemma LogGrows(forgotten: seq<Change>, history: seq<Change>, floor: nat, revision: nat, later: nat)
    requires Log(forgotten, history, floor, revision) && revision <= later
    ensures Log(forgotten, history, floor, later)
  {}

  /** The floor refuses exactly the readers for whom a signal has been forgotten. */
  lemma FloorIsExact(forgotten: seq<Change>, history: seq<Change>, floor: nat, revision: nat, expected: nat)
    requires Log(forgotten, history, floor, revision)
    ensures expected < floor <==> exists c :: c in forgotten && expected < c.revision
  {
    if forgotten != [] {
      var all, n := forgotten + history, |forgotten| - 1;
      assert forgotten[n] in forgotten;
      forall c | c in forgotten ensures c.revision <= floor {
        var i :| 0 <= i <= n && forgotten[i] == c;
        assert all[i] == c && all[n] == forgotten[n];
        if i < n { AscendingOrder(all, revision, i, n); }
      }
    }
  }

  /** Keeps the history bounded when one more change arrives. */
  method Record(ghost forgotten: seq<Change>, history0: seq<Change>, floor0: nat, revision: nat, c: Change)
    returns (ghost dropped: seq<Change>, history: seq<Change>, floor: nat)
    requires Log(forgotten, history0, floor0, revision) && c.revision == revision + 1
    ensures Log(forgotten + dropped, history, floor, revision + 1)
    ensures dropped + history == history0 + [c] && |dropped| == if |history0| == HISTORY_LIMIT then 1 else 0
  {
    history, floor, dropped := history0, floor0, [];
    if |history| == HISTORY_LIMIT {
      floor, dropped, history := history[0].revision, [history[0]], history[1..];
    }
    history := history + [c];
    assert forgotten + dropped + history == forgotten + history0 + [c];
    assert (forgotten + history0 + [c])[..|forgotten + history0|] == forgotten + history0;
  }
}
