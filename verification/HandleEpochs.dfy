/** Which handles an epoch accepts, and why a handle once rejected stays rejected. */
module HandleEpochs {
  import opened AtSpi

  /** Incarnations count from one; an object without a table entry is in its first. */
  type Count = n: nat | n > 0 witness 1

  /** The part of the backend that decides about handles. */
  datatype Epoch = Epoch(generation: nat, incarnations: map<Ident, nat>, live: bool)

  /** The incarnation of an object; one that was never recorded is the first. */
  function Incarnation(incarnations: map<Ident, nat>, x: Ident): nat {
    if x in incarnations && incarnations[x] != 0 then incarnations[x] else 1
  }

  /** `handleCurrentLocked`. */
  predicate Accepts(e: Epoch, h: NodeID) {
    h.generation == e.generation && h.Effective() == Incarnation(e.incarnations, h.obj) && e.live
  }

  /** A handle that this epoch or an earlier one can have issued. */
  predicate NotAhead(e: Epoch, h: NodeID) {
    h.generation < e.generation
    || (h.generation == e.generation && h.Effective() <= Incarnation(e.incarnations, h.obj))
  }

  /** Generation and incarnation never go back lexicographically, and a dead backend stays dead. */
  ghost predicate Advances(e: Epoch, f: Epoch) {
    && (f.live ==> e.live)
    && (e.generation < f.generation
       || (e.generation == f.generation
          && forall x :: Incarnation(e.incarnations, x) <= Incarnation(f.incarnations, x)))
  }

  lemma AdvancesTransitive(e: Epoch, f: Epoch, g: Epoch)
    requires Advances(e, f) && Advances(f, g)
    ensures Advances(e, g)
  {
    if e.generation == g.generation {
      forall x ensures Incarnation(e.incarnations, x) <= Incarnation(g.incarnations, x) {
        assert Incarnation(e.incarnations, x) <= Incarnation(f.incarnations, x);
      }
    }
  }

  lemma RejectedStaysRejected(e: Epoch, f: Epoch, h: NodeID)
    requires Advances(e, f) && NotAhead(e, h)
    ensures NotAhead(f, h)
    ensures !Accepts(e, h) ==> !Accepts(f, h)
  {
    if e.generation == f.generation {
      assert Incarnation(e.incarnations, h.obj) <= Incarnation(f.incarnations, h.obj);
    }
  }

  /** Successive epochs of one backend, in any order of signals, loads and shutdowns. */
  ghost predicate History(run: seq<Epoch>) {
    forall i :: 0 < i < |run| ==> Advances(run[i - 1], run[i])
  }

  /** Revocation is permanent: a handle issued by moment i and rejected at a later moment j
      is rejected at every moment k after that. */
  lemma {:induction false} RevocationIsPermanent(run: seq<Epoch>, i: nat, j: nat, k: nat, h: NodeID)
    requires History(run) && i <= j <= k < |run|
    requires NotAhead(run[i], h) && !Accepts(run[j], h)
    ensures !Accepts(run[k], h)
  {
    RunAdvances(run, i, j);
    RunAdvances(run, j, k);
    RejectedStaysRejected(run[i], run[j], h);
    RejectedStaysRejected(run[j], run[k], h);
  }

  lemma {:induction false} RunAdvances(run: seq<Epoch>, i: nat, j: nat)
    requires History(run) && i <= j < |run|
    ensures Advances(run[i], run[j])
    decreases j
  {
    if i < j {
      RunAdvances(run, i, j - 1);
      AdvancesTransitive(run[i], run[j - 1], run[j]);
    }
  }
}
