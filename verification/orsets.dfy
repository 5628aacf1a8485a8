/**
 The Observed-Remove Set: an add-set of stamped elements and a remove-set of
 tombstones, both taken modulo element equality. Every operation returns a
 new value; nothing is updated in place.
 */
module OrSets {
  import opened Elements
  import opened KeySets

  datatype OrSet<T(==)> = OrSet(addSet: set<Data<T>>, removeSet: set<Data<T>>)

  /** Both collections are sets under DataEq: no key occurs twice in either. */
  ghost predicate Valid<T>(s: OrSet<T>)
  {
    NoDupKeys(s.addSet) && NoDupKeys(s.removeSet)
  }

  /** Two OR-Sets are equal when both their add-sets and their remove-sets hold the same keys. */
  ghost predicate Equivalent<T>(a: OrSet<T>, b: OrSet<T>)
  {
    KeyEqual(a.addSet, b.addSet) && KeyEqual(a.removeSet, b.removeSet)
  }

  /** A fresh replica: nothing added, nothing removed. */
  function Empty<T(==)>(): OrSet<T>
  {
    OrSet({}, {})
  }

  /** Record `d` as added; the remove-set is left as it was. */
  function Add<T(==)>(s: OrSet<T>, d: Data<T>): (r: OrSet<T>)
    ensures r.removeSet == s.removeSet
    ensures Keys(r.addSet) == Keys(s.addSet) + {KeyOf(d)}
    ensures s.addSet <= r.addSet && r.addSet - s.addSet <= {d}
    ensures r == s <==> Member(s.addSet, d)
    ensures Valid(s) ==> Valid(r)
  {
    s.(addSet := Insert(s.addSet, d))
  }

  /**
   Record a tombstone for `d`; the add-set is left as it was. A key that was
   never added may be tombstoned.
   */
  function Remove<T(==)>(s: OrSet<T>, d: Data<T>): (r: OrSet<T>)
    ensures r.addSet == s.addSet
    ensures Keys(r.removeSet) == Keys(s.removeSet) + {KeyOf(d)}
    ensures s.removeSet <= r.removeSet && r.removeSet - s.removeSet <= {d}
    ensures r == s <==> Member(s.removeSet, d)
    ensures Valid(s) ==> Valid(r)
  {
    s.(removeSet := Insert(s.removeSet, d))
  }

  /**
   Merge two replicas: both collections become unions modulo DataEq. On a
   key collision the element of `a` is kept.
   */
  function Merge<T(==)>(a: OrSet<T>, b: OrSet<T>): (r: OrSet<T>)
    ensures Keys(r.addSet) == Keys(a.addSet) + Keys(b.addSet)
    ensures Keys(r.removeSet) == Keys(a.removeSet) + Keys(b.removeSet)
    ensures a.addSet <= r.addSet <= a.addSet + b.addSet
    ensures a.removeSet <= r.removeSet <= a.removeSet + b.removeSet
    ensures Valid(a) && Valid(b) ==> Valid(r)
  {
    OrSet(Union(a.addSet, b.addSet), Union(a.removeSet, b.removeSet))
  }

  /** The live view: added elements whose key has no tombstone. */
  function LookUp<T(==)>(s: OrSet<T>): (r: set<Data<T>>)
    ensures r <= s.addSet
    ensures forall x :: x in r ==> !Member(s.removeSet, x)
    ensures forall x :: x in s.addSet && !Member(s.removeSet, x) ==> x in r
    ensures Keys(r) == Keys(s.addSet) - Keys(s.removeSet)
    ensures NoDupKeys(s.addSet) ==> NoDupKeys(r)
  {
    Difference(s.addSet, s.removeSet)
  }
}
