/** The bounded, parent-linked snapshots of an accessibility tree. */
module Snapshots {
  import opened Basics
  import opened AtSpi

  datatype Rect = Rect(x: int, y: int, width: int, height: int)

  /** The decimal text of a floating-point number, taken to be at most 32 characters. */
  type Float = s: Str | 0 < |s| <= 32 witness [48]

  datatype ValueInfo = ValueInfo(current: Float, minimum: Float, maximum: Float, minimumIncrement: Float)
  datatype Action = Action(index: int, name: Str, localizedName: Str, description: Str, keyBinding: Str)
  datatype SelectionInfo = SelectionInfo(selectedChildCount: int)
  datatype TableInfo = TableInfo(rows: int, columns: int)
  datatype DocumentInfo = DocumentInfo(locale: Str, currentPageNumber: int, pageCount: int)

  /** Entries of a string-keyed map, in the order in which they are written out. */
  type Entries<V> = seq<(Str, V)>

  /** One accessible object. A relation's target list can be absent (nil) or empty. */
  datatype Node = Node(
    id: NodeID, parent: NodeID, name: Str, description: Str, role: Str, roleId: nat,
    interfaces: seq<Str>, attributes: Entries<Str>, states: seq<Str>,
    text: Str, textTruncated: bool, bounds: Rect, hasBounds: bool,
    childCount: int, children: seq<NodeID>, relations: Entries<Option<seq<NodeID>>>,
    value: Option<ValueInfo>, actions: seq<Action>, selection: Option<SelectionInfo>,
    table: Option<TableInfo>, document: Option<DocumentInfo>,
    focused: bool, visible: bool, showing: bool, enabled: bool, redacted: bool, warnings: seq<Str>)

  /** A node about which nothing but its identity is known. */
  function Bare(id: NodeID): Node {
    Node(id, NO_NODE, [], [], [], 0, [], [], [], [], false, Rect(0, 0, 0, 0), false,
         0, [], [], None, [], None, None, None, false, false, false, false, false, [])
  }

  /** `nodes` is absent where the original has a nil slice; `capturedAt` is the formatted time. */
  datatype Snapshot = Snapshot(
    root: Node, nodes: Option<seq<Node>>, truncated: bool, truncationReasons: seq<Str>,
    providerErrors: int, warnings: seq<Str>, generation: nat, capturedAt: Str, source: Str)
  {
    function NodeList(): seq<Node> { if nodes.Some? then nodes.value else [] }
  }

  function Ids(nodes: seq<Node>): set<NodeID> { set n | n in nodes :: n.id }

  /** Every child that a node shows is one of the snapshot's own nodes. */
  ghost predicate ListsOwn(s: Snapshot) {
    && (forall n, c :: n in s.NodeList() && c in n.children ==> c in Ids(s.NodeList()))
    && (forall c :: c in s.root.children ==> c in Ids(s.NodeList()))
  }

  /** A node that shows nothing but its identity. */
  predicate OnlyNamed(n: Node) {
    && n.parent == NO_NODE && n.roleId == 0 && n.childCount == 0 && n.children == []
    && n.name == [] && n.description == [] && n.interfaces == [] && n.states == []
  }

  /** What is left of a node when content is taken away: nothing but its identity, or its place, role and
      count with each other content whole or not at all, and some of its children. */
  predicate PartOf(part: Node, whole: Node) {
    && part.id == whole.id
    && (OnlyNamed(part) ||
        (&& part.parent == whole.parent && part.roleId == whole.roleId && part.childCount == whole.childCount
         && (part.name == [] || part.name == whole.name) && (part.description == [] || part.description == whole.description)
         && (part.interfaces == [] || part.interfaces == whole.interfaces) && (part.states == [] || part.states == whole.states)
         && forall c :: c in part.children ==> c in whole.children))
  }

  /** A snapshot that shows nothing but parts of another one's nodes. */
  ghost predicate PartOfSnapshot(part: Snapshot, whole: Snapshot) {
    && PartOf(part.root, whole.root)
    && forall n :: n in part.NodeList() ==> HasPart(whole, n)
  }

  ghost predicate HasPart(whole: Snapshot, part: Node) {
    exists n :: n in whole.NodeList() && PartOf(part, n)
  }
}
