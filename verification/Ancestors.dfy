/** Ordered ancestor constraints along possibly cyclic parent links. */
module Ancestors {
  import opened Basics
  import opened AtSpi
  import opened Snapshots

  /** Role and name that an ancestor must show; what "show" means is a parameter below. */
  datatype Constraint = Constraint(role: Str, name: Str)

  /** The ancestors from `parent` upwards, each once: the chain ends at an absent or missing
      parent and where it would repeat itself. */
  function Chain(byID: map<NodeID, Node>, parent: NodeID, visited: set<NodeID>): (chain: seq<Node>)
    ensures |chain| <= |byID.Keys - visited|
    decreases byID.Keys - visited
  {
    if !parent.Valid() || parent in visited || parent !in byID then []
    else
      assert byID.Keys - (visited + {parent}) == byID.Keys - visited - {parent};
      [byID[parent]] + Chain(byID, byID[parent].parent, visited + {parent})
  }

  /** A node is no ancestor of itself. */
  function AncestorsOf(byID: map<NodeID, Node>, node: Node): seq<Node> {
    Chain(byID, node.parent, {node.id})
  }

  predicate Increasing(ps: seq<nat>) { forall i, j :: 0 <= i < j < |ps| ==> ps[i] < ps[j] }

  /** The constraints are met in order at the given positions of the chain. */
  predicate MetAt(satisfies: (Node, Constraint) -> bool, chain: seq<Node>, requested: seq<Constraint>, ps: seq<nat>) {
    && |ps| == |requested| && Increasing(ps)
    && forall i :: 0 <= i < |ps| ==> ps[i] < |chain| && satisfies(chain[ps[i]], requested[i])
  }

  ghost predicate Met(satisfies: (Node, Constraint) -> bool, chain: seq<Node>, requested: seq<Constraint>) {
    exists ps :: MetAt(satisfies, chain, requested, ps)
  }

  lemma NothingRequested(satisfies: (Node, Constraint) -> bool, chain: seq<Node>)
    ensures Met(satisfies, chain, [])
  {
    assert MetAt(satisfies, chain, [], []);
  }

  lemma NobodyLeft(satisfies: (Node, Constraint) -> bool, requested: seq<Constraint>)
    requires requested != []
    ensures !Met(satisfies, [], requested)
  {
    forall ps ensures !MetAt(satisfies, [], requested, ps) {
      if |ps| == |requested| { assert ps[0] >= 0; }
    }
  }

  function Shift(ps: seq<nat>): (r: seq<nat>)
    ensures |r| == |ps| && forall i :: 0 <= i < |ps| ==> r[i] == ps[i] + 1
  {
    seq(|ps|, i requires 0 <= i < |ps| => ps[i] + 1)
  }

  function Unshift(ps: seq<nat>): (r: seq<nat>)
    requires forall i :: 0 <= i < |ps| ==> ps[i] > 0
    ensures |r| == |ps| && forall i :: 0 <= i < |ps| ==> r[i] == ps[i] - 1
  {
    seq(|ps|, i requires 0 <= i < |ps| => ps[i] - 1)
  }

  /** An ancestor that fails the next constraint can be skipped. */
  lemma Skip(satisfies: (Node, Constraint) -> bool, chain: seq<Node>, requested: seq<Constraint>)
    requires chain != [] && requested != [] && !satisfies(chain[0], requested[0])
    ensures Met(satisfies, chain, requested) <==> Met(satisfies, chain[1..], requested)
  {
    if Met(satisfies, chain, requested) {
      var ps :| MetAt(satisfies, chain, requested, ps);
      forall i | 0 <= i < |ps| ensures ps[i] > 0 { if i > 0 { assert ps[0] < ps[i]; } }
      assert MetAt(satisfies, chain[1..], requested, Unshift(ps));
    }
    if Met(satisfies, chain[1..], requested) {
      var ps :| MetAt(satisfies, chain[1..], requested, ps);
      assert MetAt(satisfies, chain, requested, Shift(ps));
    }
  }

  /** An ancestor that meets the next constraint may as well be taken for it. */
  lemma Take(satisfies: (Node, Constraint) -> bool, chain: seq<Node>, requested: seq<Constraint>)
    requires chain != [] && requested != [] && satisfies(chain[0], requested[0])
    ensures Met(satisfies, chain, requested) <==> Met(satisfies, chain[1..], requested[1..])
  {
    if Met(satisfies, chain, requested) {
      var ps :| MetAt(satisfies, chain, requested, ps);
      var rest := ps[1..];
      forall i | 0 <= i < |rest| ensures rest[i] > 0 && rest[i] < |chain| && satisfies(chain[rest[i]], requested[i + 1]) {
        assert ps[0] < ps[i + 1] == rest[i];
      }
      assert MetAt(satisfies, chain[1..], requested[1..], Unshift(rest));
    }
    if Met(satisfies, chain[1..], requested[1..]) {
      var ps :| MetAt(satisfies, chain[1..], requested[1..], ps);
      assert MetAt(satisfies, chain, requested, [0] + Shift(ps));
    }
  }

  /** One constraint: walks up to the next ancestor that meets it; the cutoff is never what stops it. */
  method FindNext(byID: map<NodeID, Node>, satisfies: (Node, Constraint) -> bool, requested: seq<Constraint>,
    parent0: NodeID, visited0: set<NodeID>) returns (found: bool, parent: NodeID, visited: set<NodeID>)
    requires requested != []
    ensures found ==> (Met(satisfies, Chain(byID, parent0, visited0), requested)
                       <==> Met(satisfies, Chain(byID, parent, visited), requested[1..]))
    ensures !found ==> !Met(satisfies, Chain(byID, parent0, visited0), requested)
  {
    hide Chain, Met;
    parent, visited := parent0, visited0;
    var steps := 0;
    Fewer(byID.Keys, visited);
    while parent.Valid() && steps < |byID|
      invariant steps + |byID.Keys - visited| <= |byID|
      invariant Met(satisfies, Chain(byID, parent0, visited0), requested) <==> Met(satisfies, Chain(byID, parent, visited), requested)
      decreases |byID| - steps
    {
      if parent in visited || parent !in byID {
        ChainEnds(byID, satisfies, requested, parent, visited);
        return false, parent, visited;
      }
      StepUp(byID, satisfies, requested, parent, visited);
      var ancestor := byID[parent];
      visited := visited + {parent};
      parent := ancestor.parent;
      if satisfies(ancestor, requested[0]) { return true, parent, visited; }
      steps := steps + 1;
    }
    ChainEnds(byID, satisfies, requested, parent, visited);
    return false, parent, visited;
  }

  lemma ChainEnds(byID: map<NodeID, Node>, satisfies: (Node, Constraint) -> bool, requested: seq<Constraint>,
    parent: NodeID, visited: set<NodeID>)
    requires requested != []
    requires !parent.Valid() || parent in visited || parent !in byID || |byID.Keys - visited| == 0
    ensures !Met(satisfies, Chain(byID, parent, visited), requested)
  {
    assert Chain(byID, parent, visited) == [];
    NobodyLeft(satisfies, requested);
  }

  lemma StepUp(byID: map<NodeID, Node>, satisfies: (Node, Constraint) -> bool, requested: seq<Constraint>,
    parent: NodeID, visited: set<NodeID>)
    requires requested != [] && parent.Valid() && parent !in visited && parent in byID
    ensures |byID.Keys - (visited + {parent})| + 1 == |byID.Keys - visited|
    ensures var next := Chain(byID, byID[parent].parent, visited + {parent});
      Met(satisfies, Chain(byID, parent, visited), requested) <==>
      Met(satisfies, next, if satisfies(byID[parent], requested[0]) then requested[1..] else requested)
  {
    assert byID.Keys - visited == (byID.Keys - (visited + {parent})) + {parent};
    var chain, next := Chain(byID, parent, visited), Chain(byID, byID[parent].parent, visited + {parent});
    assert chain[0] == byID[parent] && chain[1..] == next;
    if satisfies(byID[parent], requested[0]) {
      Take(satisfies, chain, requested);
    } else {
      Skip(satisfies, chain, requested);
    }
  }

  lemma Fewer(all: set<NodeID>, gone: set<NodeID>)
    ensures |all - gone| <= |all|
  {
    assert all == (all - gone) + (all * gone);
  }

  /** `matchesAncestors`: the greedy walk finds an ordered choice of ancestors if there is any. */
  method MatchesAncestors(byID: map<NodeID, Node>, satisfies: (Node, Constraint) -> bool, node: Node, requested: seq<Constraint>)
    returns (ok: bool)
    ensures ok <==> Met(satisfies, AncestorsOf(byID, node), requested)
  {
    NothingRequested(satisfies, AncestorsOf(byID, node));
    if requested == [] { return true; }
    var parent, visited := node.parent, {node.id};
    for i := 0 to |requested|
      invariant Met(satisfies, AncestorsOf(byID, node), requested) <==> Met(satisfies, Chain(byID, parent, visited), requested[i..])
    {
      var found;
      assert requested[i..][1..] == requested[i + 1..];
      found, parent, visited := FindNext(byID, satisfies, requested[i..], parent, visited);
      if !found { return false; }
    }
    assert requested[|requested|..] == [];
    NothingRequested(satisfies, Chain(byID, parent, visited));
    return true;
  }

  /** The chain repeats nobody and leaves out the node itself. */
  lemma {:induction false} ChainRepeatsNobody(byID: map<NodeID, Node>, parent: NodeID, visited: set<NodeID>, ids: seq<NodeID>)
    requires ids == ChainIds(byID, parent, visited)
    ensures forall i :: 0 <= i < |ids| ==> ids[i] !in visited && ids[i] in byID && byID[ids[i]] == Chain(byID, parent, visited)[i]
    ensures forall i, j :: 0 <= i < j < |ids| ==> ids[i] != ids[j]
    ensures forall i :: 0 <= i < |ids| ==> ids[i] == if i == 0 then parent else byID[ids[i - 1]].parent
    decreases |ids|
  {
    if ids != [] {
      ChainRepeatsNobody(byID, byID[parent].parent, visited + {parent}, ids[1..]);
      var rest := Chain(byID, byID[parent].parent, visited + {parent});
      forall i | 0 < i < |ids|
        ensures ids[i] !in visited && ids[i] != parent && ids[i] in byID && byID[ids[i]] == Chain(byID, parent, visited)[i]
        ensures ids[i] == byID[ids[i - 1]].parent
      {
        assert ids[i] == ids[1..][i - 1] && Chain(byID, parent, visited)[i] == rest[i - 1];
        if i > 1 { assert ids[i - 1] == ids[1..][i - 2]; }
      }
      forall i, j | 0 <= i < j < |ids| ensures ids[i] != ids[j] {
        if i > 0 { assert ids[1..][i - 1] != ids[1..][j - 1]; }
      }
    }
  }

  /** The identities along the chain. */
  function ChainIds(byID: map<NodeID, Node>, parent: NodeID, visited: set<NodeID>): (ids: seq<NodeID>)
    ensures |ids| == |Chain(byID, parent, visited)|
    decreases byID.Keys - visited
  {
    if !parent.Valid() || parent in visited || parent !in byID then []
    else [parent] + ChainIds(byID, byID[parent].parent, visited + {parent})
  }
}
