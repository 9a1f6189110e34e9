/** Identities, handles, cached items, snapshot nodes and signals of the AT-SPI backend. */
module AtSpi {
  import opened Basics

  const NULL_PATH: Str := Bytes("/org/a11y/atspi/null")
  const REGISTRY: Str := Bytes("org.a11y.atspi.Registry")
  const APPLICATION: Str := Bytes("application")

  /** Bus name and object path: an object reference without its epoch. */
  datatype Ident = Ident(bus: Str, path: Str) {
    predicate Valid() { bus != [] && path != [] }
  }

  const NO_IDENT: Ident := Ident([], [])

  /** A handle: an object reference of one generation and one incarnation. */
  datatype NodeID = NodeID(obj: Ident, generation: nat, incarnation: nat) {
    predicate Valid() { obj.Valid() && obj.path != NULL_PATH && generation > 0 }
    function Effective(): nat { if incarnation == 0 then 1 else incarnation }
  }

  const NO_NODE: NodeID := NodeID(NO_IDENT, 0, 0)

  /** What a cache entry says about an object besides its place in the tree. */
  datatype Details = Details(name: Str, description: Str, role: nat, interfaces: seq<Str>, states: seq<Str>)

  datatype CacheItem = CacheItem(obj: Ident, application: Ident, parent: Ident, index: int, childCount: int, details: Details)

  predicate PlainBus(bus: Str) {
    bus != [] && forall c :: c in bus ==> c !in {9, 10, 13, 32}
  }

  predicate PathByte(c: byte) {
    c == 47 || c == 95 || 48 <= c <= 57 || 65 <= c <= 90 || 97 <= c <= 122
  }

  /** Object paths as the D-Bus specification writes them. */
  predicate PlainPath(path: Str) {
    && path != [] && path[0] == 47
    && (forall c :: c in path ==> PathByte(c))
    && (|path| > 1 ==> path[|path| - 1] != 47)
    && (forall i :: 0 < i < |path| ==> !(path[i - 1] == 47 && path[i] == 47))
  }

  /** A path from its elements, each behind a slash. */
  function PathOf(elements: seq<Str>): Str {
    if elements == [] then [] else PathOf(elements[..|elements| - 1]) + [47] + elements[|elements| - 1]
  }

  /** A name between slashes: letters, digits and underscores, and at least one. */
  predicate PathElement(e: Str) {
    e != [] && forall c :: c in e ==> c == 95 || 48 <= c <= 57 || 65 <= c <= 90 || 97 <= c <= 122
  }

  lemma {:induction false} ElementsArePlain(elements: seq<Str>)
    requires elements != [] && forall e :: e in elements ==> PathElement(e)
    ensures PlainPath(PathOf(elements)) && |PathOf(elements)| > 1
  {
    var init, last := elements[..|elements| - 1], elements[|elements| - 1];
    var p := PathOf(init);
    assert last in elements && PathElement(last);
    if init != [] { ElementsArePlain(init); }
    var all := p + [47] + last;
    assert all[|all| - 1] == last[|last| - 1] && last[|last| - 1] in last;
    forall i | 0 < i < |all| ensures !(all[i - 1] == 47 && all[i] == 47) {
      if i > |p| { assert all[i] == last[i - |p| - 1] && all[i] in last; }
    }
    forall c | c in all ensures PathByte(c) {
      assert c in p || c == 47 || c in last;
    }
  }

  /** The last element of a path, and what is before its slash. */
  lemma {:induction false} LastElement(p: Str, n: nat) returns (i: nat)
    requires PlainPath(p) && 0 < n <= |p| && p[n - 1] != 47
    ensures i < n - 1 && p[i] == 47 && PathElement(p[i + 1..n])
    decreases n
  {
    if p[n - 2] == 47 {
      i := n - 2;
      assert p[i + 1..n] == [p[n - 1]] && p[n - 1] in p;
    } else {
      i := LastElement(p, n - 1);
      assert p[i + 1..n] == p[i + 1..n - 1] + [p[n - 1]] && p[n - 1] in p;
    }
  }

  lemma {:induction false} PlainHasElements(p: Str, n: nat) returns (elements: seq<Str>)
    requires PlainPath(p) && 1 < n <= |p| && p[n - 1] != 47
    ensures elements != [] && (forall e :: e in elements ==> PathElement(e)) && PathOf(elements) == p[..n]
    decreases n
  {
    var i := LastElement(p, n);
    var last := p[i + 1..n];
    if i == 0 {
      elements := [last];
      assert elements[..0] == [] && p[..n] == [47] + last;
    } else {
      var init := PlainHasElements(p, i);
      elements := init + [last];
      assert elements[..|elements| - 1] == init && p[..n] == p[..i] + [47] + last;
    }
  }

  /** Object paths are the root's path and the paths of names, and nothing else. */
  lemma PlainExactly(p: Str)
    ensures PlainPath(p) <==>
      p == [47] || exists elements :: elements != [] && (forall e :: e in elements ==> PathElement(e)) && PathOf(elements) == p
  {
    if PlainPath(p) && p != [47] {
      var elements := PlainHasElements(p, |p|);
      assert p[..|p|] == p;
    }
    forall elements | elements != [] && (forall e :: e in elements ==> PathElement(e)) && PathOf(elements) == p ensures PlainPath(p) {
      ElementsArePlain(elements);
    }
  }

  predicate ValidObjectRef(ref: Ident) { PlainBus(ref.bus) && PlainPath(ref.path) }

  predicate ValidParentRef(ref: Ident) {
    if ref.bus == [] then ref.path == NULL_PATH else ValidObjectRef(ref)
  }

  predicate ValidItem(item: CacheItem) {
    && ValidObjectRef(item.obj) && ValidObjectRef(item.application) && ValidParentRef(item.parent)
    && item.obj.bus == item.application.bus
  }

  /** The root's null parent is no identity at all. */
  function ParentIdentity(ref: Ident): Ident {
    if ref.bus == [] && ref.path == NULL_PATH then NO_IDENT else ref
  }

  /** A parent reference names an object, itself, unless it is the null reference. */
  lemma ParentOrNone(ref: Ident)
    requires ValidParentRef(ref)
    ensures ParentIdentity(ref) == if ref.bus == [] then NO_IDENT else ref
    ensures ParentIdentity(ref).Valid() <==> ref.bus != []
  {
    hide PlainPath, PlainBus;
    if ref.bus != [] { RefNotEmpty(ref); }
  }

  lemma RefNotEmpty(ref: Ident)
    ensures ValidObjectRef(ref) ==> ref.Valid()
  {}

  /** A bus signal with its body decoded as far as the handlers look at it; an absent
      payload is one that does not have the shape the handler demands. */
  datatype Kind =
    | WindowDestroy
    | WindowCreate
    | CacheAdd(item: Option<CacheItem>)
    | CacheRemove(removed: Option<Ident>)
    | ChildrenRemove(child: Option<Ident>)
    | Defunct(enabled: Option<bool>)
    | OtherSignal

  /** `cacheNamed` is whether the name is in the cache interface's namespace; `ours` tells
      an actual signal from the absent one that the handlers also accept. */
  datatype Signal = NoSignal | Signal(kind: Kind, cacheNamed: bool, sender: Str, path: Str)

  function DecodeItem(payload: Option<CacheItem>): Option<CacheItem> {
    if payload.Some? && ValidItem(payload.value) then payload else None
  }

  function DecodeRef(payload: Option<Ident>): Option<Ident> {
    if payload.Some? && ValidObjectRef(payload.value) then payload else None
  }
}
