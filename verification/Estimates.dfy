/** Size estimates of snapshots and the JSON texts they bound. */
module Estimates {
  import opened Basics
  import opened AtSpi
  import opened Snapshots
  import opened Json
  import Utf8

  // ---------------------------------------------------------------- estimates

  function StringField(key: string, value: Str): nat { OptionalMember(value != [], key, StringSize(value)) }

  function DecimalSize(n: int): nat { |Decimal(n)| }

  function ListSize<T(!new)>(xs: seq<T>, size: T -> nat): nat { 2 + Commas(|xs|) + Sum(xs, size) }

  function IdSize(id: NodeID): nat {
    40 + StringSize(id.obj.bus) + StringSize(id.obj.path) + DecimalSize(id.generation)
    + if id.incarnation != 0 then 1 + MemberSize("incarnation", DecimalSize(id.incarnation)) else 0
  }

  function StringList(xs: seq<Str>): nat { ListSize(xs, StringSize) }

  function IdList(ids: seq<NodeID>): nat { ListSize(ids, IdSize) }

  function AttributeSize(entry: (Str, Str)): nat { StringSize(entry.0) + 1 + StringSize(entry.1) }

  function RelationSize(entry: (Str, Option<seq<NodeID>>)): nat {
    StringSize(entry.0) + 1 + if entry.1.None? then 4 else IdList(entry.1.value)
  }

  function ActionSize(a: Action): nat {
    2 + MemberSize("index", DecimalSize(a.index)) + StringField("name", a.name) + StringField("localizedName", a.localizedName)
    + StringField("description", a.description) + StringField("keyBinding", a.keyBinding)
  }

  function ValueSize(): nat {
    2 + MemberSize("current", 32) + 1 + MemberSize("minimum", 32) + 1 + MemberSize("maximum", 32) + 1 + MemberSize("minimumIncrement", 32)
  }

  function SelectionSize(i: SelectionInfo): nat { 2 + MemberSize("selectedChildCount", DecimalSize(i.selectedChildCount)) }

  function TableSize(t: TableInfo): nat {
    2 + MemberSize("rows", DecimalSize(t.rows)) + MemberSize("columns", DecimalSize(t.columns))
  }

  function DocumentSize(d: DocumentInfo): nat {
    var n := if d.locale != [] then 1 else 0;
    var m := n + if d.currentPageNumber != 0 then 1 else 0;
    2 + StringField("locale", d.locale)
    + (if d.currentPageNumber != 0 then (if n > 0 then 1 else 0) + MemberSize("currentPageNumber", DecimalSize(d.currentPageNumber)) else 0)
    + (if d.pageCount != 0 then (if m > 0 then 1 else 0) + MemberSize("pageCount", DecimalSize(d.pageCount)) else 0)
  }

  function ChildrenPart(children: seq<NodeID>): nat { OptionalMember(children != [], "children", IdList(children)) }

  function RelationsPart(relations: Entries<Option<seq<NodeID>>>): nat {
    OptionalMember(relations != [], "relations", ListSize(relations, RelationSize))
  }

  function StringsAndIds(n: Node): nat {
    StringField("name", n.name) + StringField("description", n.description) + StringField("role", n.role)
    + StringField("text", n.text) + IdSize(n.id) + IdSize(n.parent)
  }

  function Scalars(n: Node): nat {
    RectDigits(n.bounds) - 4 + (DecimalSize(n.childCount) - 1)
    + OptionalMember(n.roleId != 0, "roleId", DecimalSize(n.roleId))
    + OptionalMember(n.textTruncated, "textTruncated", 4) + OptionalMember(n.redacted, "redacted", 4)
  }

  function RectDigits(r: Rect): (d: nat)
    ensures d >= 4
  {
    DecimalSize(r.x) + DecimalSize(r.y) + DecimalSize(r.width) + DecimalSize(r.height)
  }

  function Collections(n: Node): nat {
    OptionalMember(n.interfaces != [], "interfaces", StringList(n.interfaces))
    + OptionalMember(n.states != [], "states", StringList(n.states))
    + OptionalMember(n.warnings != [], "warnings", StringList(n.warnings))
    + OptionalMember(n.attributes != [], "attributes", ListSize(n.attributes, AttributeSize))
    + OptionalMember(n.actions != [], "actions", ListSize(n.actions, ActionSize))
  }

  /** Everything `estimateNodeJSONSize` counts except references to other nodes. */
  function OwnSize(n: Node): nat { 158 + StringsAndIds(n) + Scalars(n) + Collections(n) + OptionalInfo(n) }

  function OptionalInfo(n: Node): nat {
    OptionalMember(n.value.Some?, "value", ValueSize())
    + (if n.selection.Some? then OptionalMember(true, "selection", SelectionSize(n.selection.value)) else 0)
    + (if n.table.Some? then OptionalMember(true, "table", TableSize(n.table.value)) else 0)
    + (if n.document.Some? then OptionalMember(true, "document", DocumentSize(n.document.value)) else 0)
  }

  /** `estimateNodeJSONSize`. */
  function NodeSize(n: Node): nat { OwnSize(n) + ChildrenPart(n.children) + RelationsPart(n.relations) }

  /** `snapshotJSONBaseSize`. */
  function BaseSize(s: Snapshot): nat {
    65 + StringSize(s.capturedAt) + (DecimalSize(s.generation) - 1)
    + OptionalMember(s.providerErrors != 0, "providerErrors", DecimalSize(s.providerErrors))
    + OptionalMember(s.truncationReasons != [], "truncationReasons", StringList(s.truncationReasons))
    + OptionalMember(s.warnings != [], "warnings", StringList(s.warnings))
    + StringField("source", s.source)
  }

  /** `snapshotJSONSizeFromBase`. */
  function SizeFromBase(base: nat, root: nat, nodes: nat, count: nat, isNil: bool): nat {
    base + root + if isNil then 4 else if count == 0 then 2 else 2 + (count - 1) + nodes
  }

  function NodesSize(nodes: Option<seq<Node>>): nat {
    if nodes.None? then SizeFromBase(0, 0, 0, 0, true)
    else SizeFromBase(0, 0, Sum(nodes.value, NodeSize), |nodes.value|, false)
  }

  /** `snapshotJSONSize`. */
  function SnapshotSize(s: Snapshot): nat {
    SizeFromBase(BaseSize(s), NodeSize(s.root), Sum(s.NodeList(), NodeSize), |s.NodeList()|, s.nodes.None?)
  }

  // --------------------------------------------------------------- JSON texts

  function IdMembers(id: NodeID): seq<Str> {
    var m := Put([], true, "busName", Quoted(id.obj.bus));
    var m := Put(m, true, "objectPath", Quoted(id.obj.path));
    var m := Put(m, true, "generation", Decimal(id.generation));
    var m := Put(m, id.incarnation != 0, "incarnation", Decimal(id.incarnation));
    m
  }

  function IdText(id: NodeID): Str { Object(IdMembers(id)) }

  function StringsText(xs: seq<Str>): Str { Array(Texts(xs, Quoted)) }

  function IdsText(ids: seq<NodeID>): Str { Array(Texts(ids, IdText)) }

  function AttributeText(entry: (Str, Str)): Str { Quoted(entry.0) + [58] + Quoted(entry.1) }

  function RelationText(entry: (Str, Option<seq<NodeID>>)): Str {
    Quoted(entry.0) + [58] + if entry.1.None? then Bytes("null") else IdsText(entry.1.value)
  }

  function ActionMembers(a: Action): seq<Str> {
    var m := Put([], true, "index", Decimal(a.index));
    var m := Put(m, a.name != [], "name", Quoted(a.name));
    var m := Put(m, a.localizedName != [], "localizedName", Quoted(a.localizedName));
    var m := Put(m, a.description != [], "description", Quoted(a.description));
    var m := Put(m, a.keyBinding != [], "keyBinding", Quoted(a.keyBinding));
    m
  }

  function ActionText(a: Action): Str { Object(ActionMembers(a)) }

  function RectMembers(r: Rect): seq<Str> {
    var m := Put([], true, "x", Decimal(r.x));
    var m := Put(m, true, "y", Decimal(r.y));
    var m := Put(m, true, "width", Decimal(r.width));
    var m := Put(m, true, "height", Decimal(r.height));
    m
  }

  function RectText(r: Rect): Str { Object(RectMembers(r)) }

  function ValueMembers(v: ValueInfo): seq<Str> {
    var m := Put([], true, "current", v.current);
    var m := Put(m, true, "minimum", v.minimum);
    var m := Put(m, true, "maximum", v.maximum);
    var m := Put(m, true, "minimumIncrement", v.minimumIncrement);
    m
  }

  function ValueText(v: ValueInfo): Str { Object(ValueMembers(v)) }

  function SelectionText(i: SelectionInfo): Str { Object(Put([], true, "selectedChildCount", Decimal(i.selectedChildCount))) }

  function TableText(t: TableInfo): Str {
    Object(Put(Put([], true, "rows", Decimal(t.rows)), true, "columns", Decimal(t.columns)))
  }

  function DocumentMembers(d: DocumentInfo): seq<Str> {
    var m := Put([], d.locale != [], "locale", Quoted(d.locale));
    var m := Put(m, d.currentPageNumber != 0, "currentPageNumber", Decimal(d.currentPageNumber));
    var m := Put(m, d.pageCount != 0, "pageCount", Decimal(d.pageCount));
    m
  }

  function DocumentText(d: DocumentInfo): Str { Object(DocumentMembers(d)) }

  function Identity(n: Node): seq<Str> {
    var m := Put([], true, "id", IdText(n.id));
    var m := Put(m, true, "parent", IdText(n.parent));
    var m := Put(m, n.name != [], "name", Quoted(n.name));
    var m := Put(m, n.description != [], "description", Quoted(n.description));
    var m := Put(m, n.role != [], "role", Quoted(n.role));
    Put(m, n.roleId != 0, "roleId", Decimal(n.roleId))
  }

  function Contents(n: Node): seq<Str> {
    var m := Put([], n.interfaces != [], "interfaces", StringsText(n.interfaces));
    var m := Put(m, n.attributes != [], "attributes", [123] + Joined(Texts(n.attributes, AttributeText)) + [125]);
    var m := Put(m, n.states != [], "states", StringsText(n.states));
    var m := Put(m, n.text != [], "text", Quoted(n.text));
    Put(m, n.textTruncated, "textTruncated", Bool(true))
  }

  function Place(n: Node): seq<Str> {
    var m := Put([], true, "bounds", RectText(n.bounds));
    var m := Put(m, true, "hasBounds", Bool(n.hasBounds));
    Put(m, true, "childCount", Decimal(n.childCount))
  }

  function Links(n: Node): seq<Str> {
    var m := Put([], n.children != [], "children", IdsText(n.children));
    Put(m, n.relations != [], "relations", [123] + Joined(Texts(n.relations, RelationText)) + [125])
  }

  function Details(n: Node): seq<Str> {
    var m := Put([], n.value.Some?, "value", if n.value.Some? then ValueText(n.value.value) else []);
    var m := Put(m, n.actions != [], "actions", Array(Texts(n.actions, ActionText)));
    var m := Put(m, n.selection.Some?, "selection", if n.selection.Some? then SelectionText(n.selection.value) else []);
    var m := Put(m, n.table.Some?, "table", if n.table.Some? then TableText(n.table.value) else []);
    Put(m, n.document.Some?, "document", if n.document.Some? then DocumentText(n.document.value) else [])
  }

  function Switches(n: Node): seq<Str> {
    var m := Put([], true, "focused", Bool(n.focused));
    var m := Put(m, true, "visible", Bool(n.visible));
    var m := Put(m, true, "showing", Bool(n.showing));
    Put(m, true, "enabled", Bool(n.enabled))
  }

  function Flags(n: Node): seq<Str> {
    var m := Put(Switches(n), n.redacted, "redacted", Bool(true));
    Put(m, n.warnings != [], "warnings", StringsText(n.warnings))
  }

  /** The members of a node in the order of the struct. */
  function NodeText(n: Node): Str {
    Object(Identity(n) + (Contents(n) + (Place(n) + (Links(n) + (Details(n) + Flags(n))))))
  }

  function NodesText(nodes: Option<seq<Node>>): Str {
    if nodes.None? then Bytes("null") else Array(Texts(nodes.value, NodeText))
  }

  function TopMembers(s: Snapshot): seq<Str> {
    var m := Put([], true, "root", NodeText(s.root));
    var m := Put(m, true, "nodes", NodesText(s.nodes));
    var m := Put(m, true, "truncated", Bool(s.truncated));
    Put(m, s.truncationReasons != [], "truncationReasons", StringsText(s.truncationReasons))
  }

  function EnvelopeMembers(s: Snapshot): seq<Str> {
    var m := Put([], s.providerErrors != 0, "providerErrors", Decimal(s.providerErrors));
    var m := Put(m, s.warnings != [], "warnings", StringsText(s.warnings));
    var m := Put(m, true, "generation", Decimal(s.generation));
    var m := Put(m, true, "capturedAt", Quoted(s.capturedAt));
    Put(m, s.source != [], "source", Quoted(s.source))
  }

  /** The members of a snapshot in the order of the struct. */
  function SnapshotText(s: Snapshot): Str { Object(TopMembers(s) + EnvelopeMembers(s)) }

  // ------------------------------------------------------------------ valid text

  predicate Utf8All(xs: seq<Str>) { forall x :: x in xs ==> Utf8.Valid(x) }

  predicate Utf8Id(id: NodeID) { Utf8.Valid(id.obj.bus) && Utf8.Valid(id.obj.path) }

  predicate Utf8Ids(ids: seq<NodeID>) { forall id :: id in ids ==> Utf8Id(id) }

  predicate Utf8Action(a: Action) {
    Utf8.Valid(a.name) && Utf8.Valid(a.localizedName) && Utf8.Valid(a.description) && Utf8.Valid(a.keyBinding)
  }

  predicate Utf8Relation(entry: (Str, Option<seq<NodeID>>)) {
    Utf8.Valid(entry.0) && (entry.1.Some? ==> Utf8Ids(entry.1.value))
  }

  predicate Utf8Node(n: Node) {
    && Utf8Id(n.id) && Utf8Id(n.parent) && Utf8Ids(n.children)
    && Utf8All([n.name, n.description, n.role, n.text]) && Utf8All(n.interfaces) && Utf8All(n.states) && Utf8All(n.warnings)
    && (forall e :: e in n.attributes ==> Utf8.Valid(e.0) && Utf8.Valid(e.1))
    && (forall e :: e in n.relations ==> Utf8Relation(e))
    && (forall a :: a in n.actions ==> Utf8Action(a))
    && (n.document.Some? ==> Utf8.Valid(n.document.value.locale))
  }

  predicate Utf8Snapshot(s: Snapshot) {
    && Utf8Node(s.root) && (forall n :: n in s.NodeList() ==> Utf8Node(n))
    && Utf8All(s.truncationReasons) && Utf8All(s.warnings) && Utf8.Valid(s.capturedAt) && Utf8.Valid(s.source)
  }

  // ------------------------------------------------- how far estimates are above

  /** A handle is estimated one byte too long if it has an incarnation. */
  function IdSlack(id: NodeID): nat { if id.incarnation != 0 then 1 else 0 }

  function NoSlack<T>(x: T): nat { 0 }

  function RelationSlack(entry: (Str, Option<seq<NodeID>>)): nat { if entry.1.None? then 0 else Sum(entry.1.value, IdSlack) }

  /** The comma behind an action's last member. */
  function ActionSlack(a: Action): nat { 1 }

  /** A number of a value is estimated at 32 bytes. */
  function ValueSlack(v: ValueInfo): nat {
    (32 - |v.current|) + (32 - |v.minimum|) + (32 - |v.maximum|) + (32 - |v.minimumIncrement|) + 4
  }

  function DocumentSlack(d: DocumentInfo): nat {
    (if d.locale != [] && d.currentPageNumber != 0 then 1 else 0)
    + (if (d.locale != [] || d.currentPageNumber != 0) && d.pageCount != 0 then 1 else 0)
    + (if d.locale != [] || d.currentPageNumber != 0 || d.pageCount != 0 then 1 else 0)
  }

  function InfoSlack(n: Node): nat {
    (if n.value.Some? then ValueSlack(n.value.value) else 0) + (if n.selection.Some? then 1 else 0)
    + (if n.table.Some? then 1 else 0) + (if n.document.Some? then DocumentSlack(n.document.value) else 0)
  }

  function SwitchSlack(n: Node): nat {
    (if n.focused then 1 else 0) + (if n.visible then 1 else 0) + (if n.showing then 1 else 0) + (if n.enabled then 1 else 0)
  }

  /** By how much a node's estimate is above its text: a byte for each handle with an incarnation, each
      action and each switch that is on, and what the info objects are estimated too long. */
  function NodeSlack(n: Node): nat {
    IdSlack(n.id) + IdSlack(n.parent) + Sum(n.children, IdSlack) + Sum(n.relations, RelationSlack)
    + Sum(n.actions, ActionSlack) + InfoSlack(n) + (if n.hasBounds then 1 else 0) + SwitchSlack(n)
  }

  function SnapshotSlack(s: Snapshot): nat {
    NodeSlack(s.root) + Sum(s.NodeList(), NodeSlack) + if s.truncated then 1 else 0
  }

  lemma StringFits(s: Str)
    requires Utf8.Valid(s)
    ensures StringSize(s) == |Quoted(s)|
  {
    SizeIsExactForUtf8(s);
  }

  lemma {:induction false} NoSum<T(!new)>(xs: seq<T>)
    ensures Sum(xs, NoSlack) == 0
  {
    if xs != [] { NoSum(xs[..|xs| - 1]); }
  }

  lemma StringsFit(xs: seq<Str>)
    requires Utf8All(xs)
    ensures StringList(xs) == |StringsText(xs)|
  {
    forall x | x in xs ensures StringSize(x) == |Quoted(x)| { StringFits(x); }
    ListFits(xs, Quoted, StringSize, NoSlack);
    NoSum(xs);
  }

  /** `estimateNodeIDJSONSize` is the length of the handle's JSON text, and a byte more with an incarnation. */
  lemma IdFits(id: NodeID)
    requires Utf8Id(id)
    ensures IdSize(id) == |IdText(id)| + IdSlack(id)
  {
    StringFits(id.obj.bus);
    StringFits(id.obj.path);
    ObjectLength(IdMembers(id));
  }

  lemma IdsFit(ids: seq<NodeID>)
    requires Utf8Ids(ids)
    ensures IdList(ids) == |IdsText(ids)| + Sum(ids, IdSlack)
  {
    forall id | id in ids ensures IdSize(id) == |IdText(id)| + IdSlack(id) { IdFits(id); }
    ListFits(ids, IdText, IdSize, IdSlack);
  }

  lemma AttributesFit(xs: Entries<Str>)
    requires forall e :: e in xs ==> Utf8.Valid(e.0) && Utf8.Valid(e.1)
    ensures ListSize(xs, AttributeSize) == 2 + |Joined(Texts(xs, AttributeText))|
  {
    forall e | e in xs ensures AttributeSize(e) == |AttributeText(e)| { StringFits(e.0); StringFits(e.1); }
    ListFits(xs, AttributeText, AttributeSize, NoSlack);
    NoSum(xs);
  }

  lemma RelationsFit(xs: Entries<Option<seq<NodeID>>>)
    requires forall e :: e in xs ==> Utf8Relation(e)
    ensures ListSize(xs, RelationSize) == 2 + |Joined(Texts(xs, RelationText))| + Sum(xs, RelationSlack)
  {
    forall e | e in xs ensures RelationSize(e) == |RelationText(e)| + RelationSlack(e) {
      StringFits(e.0);
      if e.1.Some? { IdsFit(e.1.value); }
    }
    ListFits(xs, RelationText, RelationSize, RelationSlack);
  }

  lemma ActionFits(a: Action)
    requires Utf8Action(a)
    ensures ActionSize(a) == |ActionText(a)| + ActionSlack(a)
  {
    StringFits(a.name);
    StringFits(a.localizedName);
    StringFits(a.description);
    StringFits(a.keyBinding);
    ObjectLength(ActionMembers(a));
    hide Quoted, StringSize, Utf8.Valid;
  }

  lemma ActionsFit(xs: seq<Action>)
    requires forall a :: a in xs ==> Utf8Action(a)
    ensures ListSize(xs, ActionSize) == |Array(Texts(xs, ActionText))| + Sum(xs, ActionSlack)
  {
    forall a | a in xs ensures ActionSize(a) == |ActionText(a)| + ActionSlack(a) { ActionFits(a); }
    ListFits(xs, ActionText, ActionSize, ActionSlack);
  }

  lemma ValueFits(v: ValueInfo)
    ensures ValueSize() == |ValueText(v)| + ValueSlack(v)
  {
    ObjectLength(ValueMembers(v));
  }

  lemma SelectionFits(s: SelectionInfo)
    ensures SelectionSize(s) == |SelectionText(s)| + 1
  {
    ObjectLength(Put([], true, "selectedChildCount", Decimal(s.selectedChildCount)));
  }

  lemma TableFits(t: TableInfo)
    ensures TableSize(t) == |TableText(t)| + 1
  {
    ObjectLength(Put(Put([], true, "rows", Decimal(t.rows)), true, "columns", Decimal(t.columns)));
  }

  lemma DocumentFits(d: DocumentInfo)
    requires Utf8.Valid(d.locale)
    ensures DocumentSize(d) == |DocumentText(d)| + DocumentSlack(d)
  {
    StringFits(d.locale);
    ObjectLength(DocumentMembers(d));
    hide Quoted, StringSize, Utf8.Valid;
  }

  lemma InfoFits(n: Node)
    requires Utf8Node(n)
    ensures n.value.Some? ==> ValueSize() == |ValueText(n.value.value)| + ValueSlack(n.value.value)
    ensures n.selection.Some? ==>
      SelectionSize(n.selection.value) == |SelectionText(n.selection.value)| + 1
    ensures n.table.Some? ==> TableSize(n.table.value) == |TableText(n.table.value)| + 1
    ensures n.document.Some? ==>
      DocumentSize(n.document.value) == |DocumentText(n.document.value)| + DocumentSlack(n.document.value)
  {
    hide ValueText, SelectionText, TableText, DocumentText, ValueSize, SelectionSize, TableSize, DocumentSize, ValueSlack, DocumentSlack;
    if n.value.Some? { ValueFits(n.value.value); }
    if n.selection.Some? { SelectionFits(n.selection.value); }
    if n.table.Some? { TableFits(n.table.value); }
    if n.document.Some? { DocumentFits(n.document.value); }
  }

  lemma RectLength(r: Rect)
    ensures |RectText(r)| == 30 + RectDigits(r)
  {
    ObjectLength(RectMembers(r));
  }

  lemma OptionalFits(present: bool, key: string, a: nat, b: nat, slack: nat)
    requires if present then b == a + slack else slack == 0
    ensures OptionalMember(present, key, b) == OptionalMember(present, key, a) + slack
  {}

  lemma IdentityFits(n: Node)
    requires Utf8Node(n)
    ensures Total(Identity(n)) + IdSlack(n.id) + IdSlack(n.parent) ==
      16 + IdSize(n.id) + IdSize(n.parent) + StringField("name", n.name)
      + StringField("description", n.description) + StringField("role", n.role)
      + OptionalMember(n.roleId != 0, "roleId", DecimalSize(n.roleId))
    ensures Total(Identity(n)) > 0
  {
    hide Quoted, StringSize, IdText, IdSize, Utf8.Valid, Digits, Utf8Id, Utf8Ids;
    assert Utf8.Valid(n.name) && Utf8.Valid(n.description) && Utf8.Valid(n.role) by {
      var all := [n.name, n.description, n.role, n.text];
      assert all[0] in all && all[1] in all && all[2] in all;
    }
    StringFits(n.name);
    StringFits(n.description);
    StringFits(n.role);
    IdFits(n.id);
    IdFits(n.parent);
  }

  lemma ContentsTotal(n: Node)
    ensures Total(Contents(n)) == OptionalMember(n.interfaces != [], "interfaces", |StringsText(n.interfaces)|)
      + OptionalMember(n.attributes != [], "attributes", 2 + |Joined(Texts(n.attributes, AttributeText))|)
      + OptionalMember(n.states != [], "states", |StringsText(n.states)|) + OptionalMember(n.text != [], "text", |Quoted(n.text)|)
      + OptionalMember(n.textTruncated, "textTruncated", 4)
  {
    hide Quoted, StringsText, Joined, Texts, Sum, OptionalMember, Put;
    NoMembers();
  }

  lemma TextIsUtf8(n: Node)
    requires Utf8Node(n)
    ensures Utf8.Valid(n.text) && Utf8All(n.interfaces) && Utf8All(n.states)
    ensures forall e :: e in n.attributes ==> Utf8.Valid(e.0) && Utf8.Valid(e.1)
  {
    var all := [n.name, n.description, n.role, n.text];
    assert all[3] in all;
  }

  lemma ContentsFit(n: Node)
    requires Utf8Node(n)
    ensures Total(Contents(n)) == OptionalMember(n.interfaces != [], "interfaces", StringList(n.interfaces))
      + OptionalMember(n.attributes != [], "attributes", ListSize(n.attributes, AttributeSize))
      + OptionalMember(n.states != [], "states", StringList(n.states)) + StringField("text", n.text)
      + OptionalMember(n.textTruncated, "textTruncated", 4)
  {
    hide Utf8Node, Contents, Quoted, StringSize, StringsText, Joined, Texts, ListSize, StringList, OptionalMember, Utf8All, Utf8.Valid;
    TextIsUtf8(n);
    ContentsTotal(n);
    StringsFit(n.interfaces);
    AttributesFit(n.attributes);
    StringsFit(n.states);
    StringFits(n.text);
  }

  lemma PlaceFits(n: Node)
    ensures Total(Place(n)) + (if n.hasBounds then 1 else 0) == 72 + RectDigits(n.bounds) + DecimalSize(n.childCount)
  {
    RectLength(n.bounds);
    hide RectText, RectDigits, Digits;
  }

  lemma LinksFit(n: Node)
    requires Utf8Node(n)
    ensures ChildrenPart(n.children) + RelationsPart(n.relations) ==
      Total(Links(n)) + Sum(n.children, IdSlack) + Sum(n.relations, RelationSlack)
  {
    IdsFit(n.children);
    RelationsFit(n.relations);
    hide IdsText, Joined, Texts, ListSize, IdList, Utf8Node;
  }

  lemma DetailsTotal(n: Node)
    ensures Total(Details(n)) ==
      (if n.value.Some? then MemberSize("value", |ValueText(n.value.value)|) else 0)
      + OptionalMember(n.actions != [], "actions", |Array(Texts(n.actions, ActionText))|)
      + (if n.selection.Some? then MemberSize("selection", |SelectionText(n.selection.value)|) else 0)
      + (if n.table.Some? then MemberSize("table", |TableText(n.table.value)|) else 0)
      + (if n.document.Some? then MemberSize("document", |DocumentText(n.document.value)|) else 0)
  {
    hide ValueText, SelectionText, TableText, DocumentText, Texts, Array, Sum, Put, MemberSize;
    NoMembers();
  }

  lemma DetailsFit(n: Node)
    requires Utf8Node(n)
    ensures OptionalInfo(n) + OptionalMember(n.actions != [], "actions", ListSize(n.actions, ActionSize)) ==
      Total(Details(n)) + Sum(n.actions, ActionSlack) + InfoSlack(n)
  {
    hide Utf8Node, Utf8Action, Details, ValueText, SelectionText, TableText, DocumentText, Texts, Array, ListSize, Sum,
      ValueSize, DocumentSize, TableSize, SelectionSize, ValueSlack, DocumentSlack;
    ActionsUtf8(n);
    DetailsTotal(n);
    ActionsFit(n.actions);
    NoActions(n.actions);
    InfoFits(n);
  }

  lemma NoActions(actions: seq<Action>)
    ensures actions == [] ==> Sum(actions, ActionSlack) == 0
  {}

  lemma ActionsUtf8(n: Node)
    requires Utf8Node(n)
    ensures forall a :: a in n.actions ==> Utf8Action(a)
  {}

  lemma FlagsFit(n: Node)
    requires Utf8Node(n)
    ensures Total(Flags(n)) + SwitchSlack(n) == 64 + OptionalMember(n.redacted, "redacted", 4)
      + OptionalMember(n.warnings != [], "warnings", StringList(n.warnings))
  {
    StringsFit(n.warnings);
    hide StringsText, StringList, Utf8Node, Switches;
    SwitchesLength(n);
  }

  lemma SwitchesLength(n: Node)
    ensures Total(Switches(n)) + SwitchSlack(n) == 64
  {}

  lemma {:induction false} TotalConcat(a: seq<Str>, b: seq<Str>)
    ensures Total(a + b) == Total(a) + Total(b)
  {
    if b == [] {
      assert a + b == a;
    } else {
      var init := b[..|b| - 1];
      TotalConcat(a, init);
      assert (a + b)[..|a + b| - 1] == a + init;
    }
  }

  lemma PartsAddUp(a: seq<Str>, b: seq<Str>, c: seq<Str>, d: seq<Str>, e: seq<Str>, f: seq<Str>)
    ensures Total(a) > 0 ==>
      |Object(a + (b + (c + (d + (e + f)))))| == 1 + Total(a) + Total(b) + Total(c) + Total(d) + Total(e) + Total(f)
  {
    TotalConcat(e, f);
    TotalConcat(d, e + f);
    TotalConcat(c, d + (e + f));
    TotalConcat(b, c + (d + (e + f)));
    TotalConcat(a, b + (c + (d + (e + f))));
    ObjectLength(a + (b + (c + (d + (e + f)))));
  }

  /** `estimateNodeJSONSize` is the length of the node's JSON text and an explicit slack. */
  lemma NodeFits(n: Node)
    requires Utf8Node(n)
    ensures NodeSize(n) == |NodeText(n)| + NodeSlack(n)
  {
    hide Identity, Contents, Place, Links, Details, Flags, IdSize, StringField, OptionalMember, DecimalSize, StringList, ListSize,
      OptionalInfo, ChildrenPart, RelationsPart, RectDigits, Object, Utf8Node, Total, IdSlack, RelationSlack, InfoSlack, SwitchSlack, Sum;
    IdentityFits(n);
    ContentsFit(n);
    PlaceFits(n);
    LinksFit(n);
    DetailsFit(n);
    FlagsFit(n);
    PartsAddUp(Identity(n), Contents(n), Place(n), Links(n), Details(n), Flags(n));
  }

  lemma NodesFit(nodes: Option<seq<Node>>)
    requires nodes.Some? ==> forall n :: n in nodes.value ==> Utf8Node(n)
    ensures NodesSize(nodes) == |NodesText(nodes)| + Sum(if nodes.Some? then nodes.value else [], NodeSlack)
  {
    if nodes.Some? {
      forall n | n in nodes.value ensures NodeSize(n) == |NodeText(n)| + NodeSlack(n) { NodeFits(n); }
      ListFits(nodes.value, NodeText, NodeSize, NodeSlack);
    }
  }

  lemma TopFits(s: Snapshot)
    requires Utf8Snapshot(s)
    ensures Total(TopMembers(s)) + SnapshotSlack(s) == 35 + NodeSize(s.root) + NodesSize(s.nodes)
      + OptionalMember(s.truncationReasons != [], "truncationReasons", StringList(s.truncationReasons))
    ensures Total(TopMembers(s)) > 0
  {
    hide NodeSize, NodesSize, NodeText, NodesText, StringsText, StringList, Utf8Node, Put, Sum, NodeSlack;
    NodeFits(s.root);
    NodesFit(s.nodes);
    StringsFit(s.truncationReasons);
    OptionalFits(s.truncationReasons != [], "truncationReasons", |StringsText(s.truncationReasons)|, StringList(s.truncationReasons), 0);
    NoMembers();
  }

  lemma EnvelopeFits(s: Snapshot)
    requires Utf8Snapshot(s)
    ensures Total(EnvelopeMembers(s)) == 28 + OptionalMember(s.providerErrors != 0, "providerErrors", DecimalSize(s.providerErrors))
      + OptionalMember(s.warnings != [], "warnings", StringList(s.warnings)) + DecimalSize(s.generation)
      + StringSize(s.capturedAt) + StringField("source", s.source)
  {
    hide StringsText, StringList, Utf8Node, Put, Sum, Quoted, StringSize, Utf8.Valid, Digits;
    StringsFit(s.warnings);
    StringFits(s.capturedAt);
    StringFits(s.source);
    OptionalFits(s.warnings != [], "warnings", |StringsText(s.warnings)|, StringList(s.warnings), 0);
    NoMembers();
  }

  /** `snapshotJSONSize` is the length of the snapshot's JSON text and an explicit slack. */
  lemma SnapshotFits(s: Snapshot)
    requires Utf8Snapshot(s)
    ensures SnapshotSize(s) == |SnapshotText(s)| + SnapshotSlack(s)
  {
    hide NodeSize, Object, Total, TopMembers, EnvelopeMembers, Utf8Snapshot, OptionalMember, StringList, StringSize, StringField,
      DecimalSize, Sum, SnapshotSlack;
    TopFits(s);
    EnvelopeFits(s);
    TotalConcat(TopMembers(s), EnvelopeMembers(s));
    ObjectLength(TopMembers(s) + EnvelopeMembers(s));
  }
}
