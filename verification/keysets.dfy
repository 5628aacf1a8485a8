/**
 Sets of stamped elements taken modulo element equality (same id and
 clock). These are the semantics of the set library operations the OR-Set
 is built from: membership, insert-with-dedup, union that keeps the left
 operand's element on a key collision, and difference.
 */
module KeySets {
  import opened Elements

  /** `d` has a key-equal counterpart in `s` (the library's `elem`). */
  predicate Member<T(==)>(s: set<Data<T>>, d: Data<T>)
  {
    exists x :: x in s && DataEq(x, d)
  }

  /** The keys present in `s`. */
  function Keys<T(==)>(s: set<Data<T>>): set<Key>
  {
    set x | x in s :: KeyOf(x)
  }

  /** No two elements of `s` share a key: `s` is a set under DataEq. */
  ghost predicate NoDupKeys<T>(s: set<Data<T>>)
  {
    forall x, y :: x in s && y in s && DataEq(x, y) ==> x == y
  }

  /** Two sets are equal under DataEq: they hold the same keys. */
  ghost predicate KeyEqual<T>(s: set<Data<T>>, t: set<Data<T>>)
  {
    Keys(s) == Keys(t)
  }

  /** Membership modulo DataEq is membership of the key. */
  lemma MemberIffKey<T>(s: set<Data<T>>, d: Data<T>)
    ensures Member(s, d) <==> KeyOf(d) in Keys(s)
  {
    if KeyOf(d) in Keys(s) {
      var x :| x in s && KeyOf(x) == KeyOf(d);
      assert DataEq(x, d);
    }
  }

  /** Insert with deduplication: unchanged when a key-equal element is present. */
  function Insert<T(==)>(s: set<Data<T>>, d: Data<T>): (r: set<Data<T>>)
    ensures Keys(r) == Keys(s) + {KeyOf(d)}
    ensures s <= r && r - s <= {d}
    ensures r == s <==> Member(s, d)
    ensures NoDupKeys(s) ==> NoDupKeys(r)
  {
    if Member(s, d) then
      MemberIffKey(s, d);
      s
    else
      assert d !in s;
      s + {d}
  }

  /**
   Union modulo DataEq: every element of `a`, and the elements of `b` whose
   key `a` lacks. On a key collision the element of `a` is kept.
   */
  function Union<T(==)>(a: set<Data<T>>, b: set<Data<T>>): (r: set<Data<T>>)
    ensures Keys(r) == Keys(a) + Keys(b)
    ensures a <= r && r <= a + b
    ensures forall y :: y in r && y !in a ==> !Member(a, y)
    ensures NoDupKeys(a) && NoDupKeys(b) ==> NoDupKeys(r)
  {
    var r := a + set y | y in b && !Member(a, y);
    assert Keys(r) == Keys(a) + Keys(b) by {
      forall k | k in Keys(a) + Keys(b) ensures k in Keys(r) {
        if k !in Keys(a) {
          var y :| y in b && KeyOf(y) == k;
          MemberIffKey(a, y);
        }
      }
    }
    r
  }

  /** Difference modulo DataEq: the elements of `a` whose key `b` lacks. */
  function Difference<T(==)>(a: set<Data<T>>, b: set<Data<T>>): (r: set<Data<T>>)
    ensures r <= a
    ensures forall x :: x in r ==> !Member(b, x)
    ensures forall x :: x in a && !Member(b, x) ==> x in r
    ensures Keys(r) == Keys(a) - Keys(b)
    ensures NoDupKeys(a) ==> NoDupKeys(r)
  {
    var r := set x | x in a && !Member(b, x);
    assert Keys(r) == Keys(a) - Keys(b) by {
      forall k | k in Keys(a) - Keys(b) ensures k in Keys(r) {
        var x :| x in a && KeyOf(x) == k;
        MemberIffKey(b, x);
      }
      forall k | k in Keys(r) ensures k !in Keys(b) {
        var x :| x in r && KeyOf(x) == k;
        MemberIffKey(b, x);
      }
    }
    r
  }

  /** Membership in a union is membership in either operand. */
  lemma MemberUnion<T>(a: set<Data<T>>, b: set<Data<T>>, d: Data<T>)
    ensures Member(Union(a, b), d) <==> Member(a, d) || Member(b, d)
  {
    MemberIffKey(Union(a, b), d);
    MemberIffKey(a, d);
    MemberIffKey(b, d);
  }

  /** An element is in a union when it is in the left operand, or in the right one with a key the left lacks. */
  lemma InUnion<T>(a: set<Data<T>>, b: set<Data<T>>, x: Data<T>)
    ensures x in Union(a, b) <==> x in a || (x in b && !Member(a, x))
  {
  }

  /** Union is associative, as a plain set equality. */
  lemma UnionAssociative<T>(a: set<Data<T>>, b: set<Data<T>>, c: set<Data<T>>)
    ensures Union(Union(a, b), c) == Union(a, Union(b, c))
  {
    var ab, bc := Union(a, b), Union(b, c);
    forall x
      ensures x in Union(ab, c) <==> x in Union(a, bc)
    {
      InUnion(ab, c, x);
      InUnion(a, b, x);
      MemberUnion(a, b, x);
      InUnion(a, bc, x);
      InUnion(b, c, x);
    }
  }

  /** Union with itself changes nothing. */
  lemma UnionIdempotent<T>(a: set<Data<T>>)
    ensures Union(a, a) == a
  {
  }

  /** Union is commutative modulo DataEq. */
  lemma UnionCommutativeOnKeys<T>(a: set<Data<T>>, b: set<Data<T>>)
    ensures KeyEqual(Union(a, b), Union(b, a))
  {
  }

  /** No element of `s` disagrees in payload with a key-equal element of `t`. */
  ghost predicate Agree<T>(s: set<Data<T>>, t: set<Data<T>>)
  {
    forall x, y :: x in s && y in t && DataEq(x, y) ==> x == y
  }

  /** Agreement is symmetric. */
  lemma AgreeSymmetric<T>(a: set<Data<T>>, b: set<Data<T>>)
    requires Agree(a, b)
    ensures Agree(b, a)
  {
    forall y, x | y in b && x in a && DataEq(y, x) ensures y == x {
      assert DataEq(x, y);
    }
  }

  /** One half of commutativity: under agreement, Union(a, b) lies within Union(b, a). */
  lemma UnionWithinSwapped<T>(a: set<Data<T>>, b: set<Data<T>>, x: Data<T>)
    requires Agree(a, b) && x in Union(a, b)
    ensures x in Union(b, a)
  {
    InUnion(a, b, x);
    InUnion(b, a, x);
    if x in a && Member(b, x) {
      var y :| y in b && DataEq(y, x);
      assert DataEq(x, y);
    }
  }

  /**
   On a key that the two operands hold with different payloads, each union
   keeps its left operand's element and drops the other.
   */
  lemma UnionKeepsLeftPayload<T>(a: set<Data<T>>, b: set<Data<T>>, x: Data<T>, y: Data<T>)
    requires NoDupKeys(a) && NoDupKeys(b)
    requires x in a && y in b && DataEq(x, y) && x != y
    ensures x in Union(a, b) && y !in Union(a, b)
    ensures y in Union(b, a) && x !in Union(b, a)
  {
    InUnion(b, a, x);
    assert Member(b, x) by {
      assert DataEq(y, x);
    }
    InUnion(a, b, y);
    assert Member(a, y);
  }

  /**
   When the operands never give one key two payloads, union is commutative
   as a plain set equality.
   */
  lemma UnionCommutativeWhenAgreeing<T>(a: set<Data<T>>, b: set<Data<T>>)
    requires Agree(a, b)
    ensures Union(a, b) == Union(b, a)
  {
    AgreeSymmetric(a, b);
    forall x | x in Union(a, b) ensures x in Union(b, a) {
      UnionWithinSwapped(a, b, x);
    }
    forall x | x in Union(b, a) ensures x in Union(a, b) {
      UnionWithinSwapped(b, a, x);
    }
  }
}
