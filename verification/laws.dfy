/**
 The algebra of the OR-Set: idempotent insertion, independence of the two
 collections, the merge laws, the meaning of the live view, tombstones that
 win whichever replica they come from, and convergence of replicas that
 have seen the same snapshots in any order and any number of times.
 */
module OrSetLaws {
  import opened Elements
  import opened KeySets
  import opened OrSets

  // ---------------------------------------------------------------------------
  // add and remove

  /** Adding the same element twice is adding it once. */
  lemma AddIdempotent<T>(s: OrSet<T>, e: Data<T>)
    ensures Add(Add(s, e), e) == Add(s, e)
  {
    assert Member(Add(s, e).addSet, e) by {
      MemberIffKey(Add(s, e).addSet, e);
    }
  }

  /** Once a key is present, adding any element with that key changes nothing, whatever its payload. */
  lemma AddPresentKeyIsNoOp<T>(s: OrSet<T>, e: Data<T>, e': Data<T>)
    requires Member(s.addSet, e) && DataEq(e, e')
    ensures Add(s, e') == s
  {
    var x :| x in s.addSet && DataEq(x, e);
    assert DataEq(x, e');
  }

  /** Removing the same element twice is removing it once. */
  lemma RemoveIdempotent<T>(s: OrSet<T>, e: Data<T>)
    ensures Remove(Remove(s, e), e) == Remove(s, e)
  {
    assert Member(Remove(s, e).removeSet, e) by {
      MemberIffKey(Remove(s, e).removeSet, e);
    }
  }

  /** add and remove touch different collections, so they commute exactly. */
  lemma AddRemoveCommute<T>(s: OrSet<T>, a: Data<T>, r: Data<T>)
    ensures Add(Remove(s, r), a) == Remove(Add(s, a), r)
  {
  }

  /** The order of two adds does not matter modulo DataEq. */
  lemma AddsCommuteOnKeys<T>(s: OrSet<T>, a: Data<T>, b: Data<T>)
    ensures Equivalent(Add(Add(s, a), b), Add(Add(s, b), a))
  {
  }

  // ---------------------------------------------------------------------------
  // merge

  /** Merge is commutative modulo DataEq. */
  lemma MergeCommutative<T>(a: OrSet<T>, b: OrSet<T>)
    ensures Equivalent(Merge(a, b), Merge(b, a))
  {
  }

  /** Merge is associative, even as a plain equality of values. */
  lemma MergeAssociative<T>(a: OrSet<T>, b: OrSet<T>, c: OrSet<T>)
    ensures Merge(Merge(a, b), c) == Merge(a, Merge(b, c))
  {
    UnionAssociative(a.addSet, b.addSet, c.addSet);
    UnionAssociative(a.removeSet, b.removeSet, c.removeSet);
  }

  /** Merging a replica with itself gives it back unchanged. */
  lemma MergeIdempotent<T>(a: OrSet<T>)
    ensures Merge(a, a) == a
  {
    UnionIdempotent(a.addSet);
    UnionIdempotent(a.removeSet);
  }

  /** Merge respects equality modulo DataEq in both arguments. */
  lemma MergeRespectsEquivalence<T>(a: OrSet<T>, a': OrSet<T>, b: OrSet<T>, b': OrSet<T>)
    requires Equivalent(a, a') && Equivalent(b, b')
    ensures Equivalent(Merge(a, b), Merge(a', b'))
  {
  }

  /**
   When the replicas never gave one stamp two payloads, merge is
   commutative as a plain equality of values.
   */
  lemma MergeCommutativeWhenAgreeing<T>(a: OrSet<T>, b: OrSet<T>)
    requires Agree(a.addSet, b.addSet) && Agree(a.removeSet, b.removeSet)
    ensures Merge(a, b) == Merge(b, a)
  {
    UnionCommutativeWhenAgreeing(a.addSet, b.addSet);
    UnionCommutativeWhenAgreeing(a.removeSet, b.removeSet);
  }

  /**
   Without that agreement merge is not commutative as a plain equality: on a
   stamp that the two valid replicas hold with different payloads, each merge
   order keeps its left operand's element.
   */
  lemma MergeKeepsLeftPayload<T>(a: OrSet<T>, b: OrSet<T>, x: Data<T>, y: Data<T>)
    requires Valid(a) && Valid(b)
    requires x in a.addSet && y in b.addSet && DataEq(x, y) && x != y
    ensures x in Merge(a, b).addSet && x !in Merge(b, a).addSet
    ensures Merge(a, b) != Merge(b, a)
  {
    UnionKeepsLeftPayload(a.addSet, b.addSet, x, y);
  }

  /**
   For valid replicas, merge is commutative as a plain equality only when
   they agree on payloads in both collections.
   */
  lemma MergeCommutativeOnlyWhenAgreeing<T>(a: OrSet<T>, b: OrSet<T>)
    requires Valid(a) && Valid(b)
    requires Merge(a, b) == Merge(b, a)
    ensures Agree(a.addSet, b.addSet) && Agree(a.removeSet, b.removeSet)
  {
    forall x, y | x in a.addSet && y in b.addSet && DataEq(x, y) ensures x == y {
      if x != y {
        UnionKeepsLeftPayload(a.addSet, b.addSet, x, y);
      }
    }
    forall x, y | x in a.removeSet && y in b.removeSet && DataEq(x, y) ensures x == y {
      if x != y {
        UnionKeepsLeftPayload(a.removeSet, b.removeSet, x, y);
      }
    }
  }

  // ---------------------------------------------------------------------------
  // lookUp

  /** The live view depends only on the keys of the two collections. */
  lemma LookUpRespectsEquivalence<T>(a: OrSet<T>, b: OrSet<T>)
    requires Equivalent(a, b)
    ensures KeyEqual(LookUp(a), LookUp(b))
  {
  }

  /** An element is live exactly when its key was added and never tombstoned. */
  lemma LiveIff<T>(s: OrSet<T>, e: Data<T>)
    ensures Member(LookUp(s), e) <==> Member(s.addSet, e) && !Member(s.removeSet, e)
  {
    MemberIffKey(LookUp(s), e);
    MemberIffKey(s.addSet, e);
    MemberIffKey(s.removeSet, e);
  }

  /** An element just added is live unless its key was tombstoned before. */
  lemma AddMakesLive<T>(s: OrSet<T>, e: Data<T>)
    ensures Member(LookUp(Add(s, e)), e) <==> !Member(s.removeSet, e)
  {
    LiveIff(Add(s, e), e);
    MemberIffKey(Add(s, e).addSet, e);
  }

  /** After a remove the element's key is never live, whether or not it was added. */
  lemma RemoveHides<T>(s: OrSet<T>, e: Data<T>)
    ensures !Member(LookUp(Remove(s, e)), e)
  {
    LiveIff(Remove(s, e), e);
    MemberIffKey(Remove(s, e).removeSet, e);
  }

  /** remove after add hides the element ... */
  lemma RemoveAfterAddHides<T>(s: OrSet<T>, e: Data<T>)
    ensures !Member(LookUp(Remove(Add(s, e), e)), e)
  {
    RemoveHides(Add(s, e), e);
  }

  /** ... and so does add after remove: a tombstone also suppresses a later add. */
  lemma AddAfterRemoveHidden<T>(s: OrSet<T>, e: Data<T>)
    ensures !Member(LookUp(Add(Remove(s, e), e)), e)
  {
    AddRemoveCommute(s, e, e);
    RemoveHides(Add(s, e), e);
  }

  /** A tombstone in either replica hides the key in a merge taken in either order. */
  lemma TombstoneWinsMerge<T>(x: OrSet<T>, y: OrSet<T>, e: Data<T>)
    requires Member(x.removeSet, e) || Member(y.removeSet, e)
    ensures !Member(LookUp(Merge(x, y)), e)
    ensures !Member(LookUp(Merge(y, x)), e)
  {
    MemberIffKey(x.removeSet, e);
    MemberIffKey(y.removeSet, e);
    LiveIff(Merge(x, y), e);
    LiveIff(Merge(y, x), e);
    MemberIffKey(Merge(x, y).removeSet, e);
    MemberIffKey(Merge(y, x).removeSet, e);
  }

  /**
   Replica X added `e` and replica Y removed it independently: whichever way
   they are merged, `e` is not live, while in X alone it was.
   */
  lemma ConcurrentAddRemove<T>(s: OrSet<T>, t: OrSet<T>, e: Data<T>)
    requires !Member(s.removeSet, e)
    ensures Member(LookUp(Add(s, e)), e)
    ensures !Member(LookUp(Merge(Add(s, e), Remove(t, e))), e)
    ensures !Member(LookUp(Merge(Remove(t, e), Add(s, e))), e)
  {
    AddMakesLive(s, e);
    MemberIffKey(Remove(t, e).removeSet, e);
    TombstoneWinsMerge(Add(s, e), Remove(t, e), e);
  }

  /**
   Removal is scoped to the exact (id, clock) stamp: tombstoning a later
   stamp of the same id leaves an earlier add of that id live.
   */
  lemma RemoveIsScopedToStamp<T>(v: T)
    ensures var early, late := Data("1", v, 1), Data("1", v, 2);
            Member(LookUp(Remove(Add(Empty(), early), late)), early)
  {
    var early, late := Data("1", v, 1), Data("1", v, 2);
    var s := Remove(Add(Empty(), early), late);
    assert s == OrSet({early}, {late});
    LiveIff(s, early);
    assert early in s.addSet;
  }

  // ---------------------------------------------------------------------------
  // convergence

  /** The state of a replica that has merged the snapshots `rs` one after another. */
  function MergeAll<T(==)>(rs: seq<OrSet<T>>): OrSet<T>
  {
    if rs == [] then Empty() else Merge(MergeAll(rs[..|rs| - 1]), rs[|rs| - 1])
  }

  /** `k` was added in one of the snapshots `rs`. */
  ghost predicate AddedIn<T>(rs: seq<OrSet<T>>, k: Key)
  {
    exists r :: r in rs && k in Keys(r.addSet)
  }

  /** `k` was tombstoned in one of the snapshots `rs`. */
  ghost predicate RemovedIn<T>(rs: seq<OrSet<T>>, k: Key)
  {
    exists r :: r in rs && k in Keys(r.removeSet)
  }

  /** Merging snapshots one after another collects exactly their keys. */
  lemma {:induction false} MergeAllKeys<T>(rs: seq<OrSet<T>>, k: Key)
    ensures k in Keys(MergeAll(rs).addSet) <==> AddedIn(rs, k)
    ensures k in Keys(MergeAll(rs).removeSet) <==> RemovedIn(rs, k)
  {
    if rs != [] {
      var init, last := rs[..|rs| - 1], rs[|rs| - 1];
      assert rs == init + [last];
      MergeAllKeys(init, k);
      AddedInSnoc(init, last, k);
      var m := Merge(MergeAll(init), last);
      assert MergeAll(rs) == m;
      assert Keys(m.addSet) == Keys(MergeAll(init).addSet) + Keys(last.addSet);
      assert Keys(m.removeSet) == Keys(MergeAll(init).removeSet) + Keys(last.removeSet);
    }
  }

  /** One more snapshot adds its own keys and no others. */
  lemma AddedInSnoc<T>(init: seq<OrSet<T>>, last: OrSet<T>, k: Key)
    ensures AddedIn(init + [last], k) <==> AddedIn(init, k) || k in Keys(last.addSet)
    ensures RemovedIn(init + [last], k) <==> RemovedIn(init, k) || k in Keys(last.removeSet)
  {
    var rs := init + [last];
    assert last in rs;
    if AddedIn(rs, k) {
      var r :| r in rs && k in Keys(r.addSet);
      assert r in init || r == last;
    }
    if RemovedIn(rs, k) {
      var r :| r in rs && k in Keys(r.removeSet);
      assert r in init || r == last;
    }
    if AddedIn(init, k) {
      var r :| r in init && k in Keys(r.addSet);
      assert r in rs;
    }
    if RemovedIn(init, k) {
      var r :| r in init && k in Keys(r.removeSet);
      assert r in rs;
    }
  }

  /**
   Convergence: two replicas that have merged the same snapshots, in any
   order and with any repetitions, are equal modulo DataEq and show the same
   live view.
   */
  lemma Convergence<T>(rs: seq<OrSet<T>>, qs: seq<OrSet<T>>)
    requires forall r :: r in rs <==> r in qs
    ensures Equivalent(MergeAll(rs), MergeAll(qs))
    ensures KeyEqual(LookUp(MergeAll(rs)), LookUp(MergeAll(qs)))
  {
    var m, n := MergeAll(rs), MergeAll(qs);
    forall k ensures k in Keys(m.addSet) <==> k in Keys(n.addSet) {
      MergeAllKeys(rs, k);
      MergeAllKeys(qs, k);
      assert AddedIn(rs, k) <==> AddedIn(qs, k);
    }
    forall k ensures k in Keys(m.removeSet) <==> k in Keys(n.removeSet) {
      MergeAllKeys(rs, k);
      MergeAllKeys(qs, k);
      assert RemovedIn(rs, k) <==> RemovedIn(qs, k);
    }
    LookUpRespectsEquivalence(m, n);
  }

  // ---------------------------------------------------------------------------
  // scenarios

  /** Two adds: both elements are live. Then removing the first leaves the second alone. */
  lemma ScenarioAddThenRemove()
    ensures var d1, d2 := Data("1", 1, 1), Data("2", 2, 2);
            var s := Add(Add(Empty(), d1), d2);
            LookUp(s) == {d1, d2} && LookUp(Remove(s, d1)) == {d2}
  {
    var d1, d2 := Data("1", 1, 1), Data("2", 2, 2);
    var s := Add(Add(Empty(), d1), d2);
    assert s == OrSet({d1, d2}, {});
    assert Remove(s, d1) == OrSet({d1, d2}, {d1});
    assert !Member({d1}, d2);
  }

  /** Scenario of two replicas, one adding and one removing the same stamp. */
  lemma ScenarioConcurrentReplicas()
    ensures var d := Data("1", 1, 1);
            var x, y := Add(Empty(), d), Remove(Empty(), d);
            LookUp(Merge(x, y)) == {} && LookUp(Merge(y, x)) == {}
  {
    var d := Data("1", 1, 1);
    var x, y := Add(Empty(), d), Remove(Empty(), d);
    assert x == OrSet({d}, {}) && y == OrSet({}, {d});
    assert Merge(x, y) == OrSet({d}, {d}) && Merge(y, x) == OrSet({d}, {d});
    assert Member({d}, d);
  }

  /** Merging a replica with itself twice gives it back. */
  lemma ScenarioSelfMerge<T>(a: OrSet<T>)
    ensures Merge(Merge(a, a), a) == a
  {
    MergeIdempotent(a);
  }
}
