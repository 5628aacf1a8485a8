/**
 A stamped element of the OR-Set: an identifier, a payload and a Lamport
 clock. Identity is the pair (id, clock); the payload takes no part in it.
 Elements are ordered by clock alone.
 */
module Elements {

  /** The stamped element. Clocks are Lamport timestamps, hence natural numbers. */
  datatype Data<T> = Data(id: string, data: T, clock: nat)

  /** The deduplication key of an element. */
  type Key = (string, nat)

  function KeyOf<T>(d: Data<T>): Key
  {
    (d.id, d.clock)
  }

  /** Element equality used by every set operation: same id and same clock. */
  predicate DataEq<T>(a: Data<T>, b: Data<T>)
  {
    a.id == b.id && a.clock == b.clock
  }

  /** Two elements are equal exactly when their keys coincide. */
  lemma DataEqIsKeyEquality<T>(a: Data<T>, b: Data<T>)
    ensures DataEq(a, b) <==> KeyOf(a) == KeyOf(b)
  {
  }

  /** The payload plays no part: elements that differ only in payload are equal. */
  lemma PayloadIgnored<T>(a: Data<T>, v: T)
    ensures DataEq(a, a.(data := v)) && DataEq(a.(data := v), a)
  {
  }

  /** ... and elements that differ in id or in clock are not. */
  lemma IdAndClockMatter<T>(a: Data<T>, b: Data<T>)
    requires a.id != b.id || a.clock != b.clock
    ensures !DataEq(a, b)
  {
  }

  /** DataEq is an equivalence relation. */
  lemma DataEqIsEquivalence<T>(a: Data<T>, b: Data<T>, c: Data<T>)
    ensures DataEq(a, a)
    ensures DataEq(a, b) ==> DataEq(b, a)
    ensures DataEq(a, b) && DataEq(b, c) ==> DataEq(a, c)
  {
  }

  /** The three outcomes of a comparison: less, equal, greater. */
  type Ordering = r: int | -1 <= r <= 1

  /** Comparison by clock only. */
  function OrdCompare<T>(x: Data<T>, y: Data<T>): (r: Ordering)
    ensures r == -1 <==> x.clock < y.clock
    ensures r == 0 <==> x.clock == y.clock
    ensures r == 1 <==> x.clock > y.clock
  {
    if x.clock < y.clock then -1 else if x.clock > y.clock then 1 else 0
  }

  /** Swapping the arguments negates the result. */
  lemma OrdCompareAntisymmetric<T>(x: Data<T>, y: Data<T>)
    ensures OrdCompare(x, y) == -OrdCompare(y, x)
  {
  }

  /** "Less than or equal" by clock is transitive and total: a total preorder. */
  lemma OrdCompareTotalPreorder<T>(x: Data<T>, y: Data<T>, z: Data<T>)
    ensures OrdCompare(x, x) == 0
    ensures OrdCompare(x, y) <= 0 || OrdCompare(y, x) <= 0
    ensures OrdCompare(x, y) <= 0 && OrdCompare(y, z) <= 0 ==> OrdCompare(x, z) <= 0
    ensures OrdCompare(x, y) < 0 && OrdCompare(y, z) < 0 ==> OrdCompare(x, z) < 0
  {
  }

  /** Equal elements compare as equal: the ordering agrees with DataEq. */
  lemma DataEqImpliesOrdEqual<T>(x: Data<T>, y: Data<T>)
    requires DataEq(x, y)
    ensures OrdCompare(x, y) == 0
  {
  }

  /**
   The converse fails: a comparison result of 0 does not make two elements
   equal, because equality also looks at the id.
   */
  lemma OrdEqualDoesNotImplyDataEq<T>(v: T)
    ensures var x, y := Data("a", v, 7), Data("b", v, 7);
            OrdCompare(x, y) == 0 && !DataEq(x, y)
  {
  }
}
