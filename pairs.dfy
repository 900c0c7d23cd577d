/** Unordered pairs of building ids. `routes`, `teleports` and `pod_routes` all
    store a pair as the tuple of its two ids in ascending order, so that (a, b) and
    (b, a) are one and the same element. */
module Pairs {

  type Pair = (int, int)

  /** The stored form of the unordered pair {a, b}: its ids sorted. */
  function Canon(a: int, b: int): (p: Pair)
    ensures p.0 <= p.1
    ensures (p.0 == a && p.1 == b) || (p.0 == b && p.1 == a)
  {
    if a <= b then (a, b) else (b, a)
  }

  /** `has_route`, `has_teleport` and `has_pod_route`. */
  predicate Has(s: set<Pair>, a: int, b: int)
  {
    Canon(a, b) in s
  }

  /** `add_route` and `add_teleport` (and the inline `pod_routes.add`). */
  function Add(s: set<Pair>, a: int, b: int): (r: set<Pair>)
    ensures Has(r, a, b)
    ensures s <= r && r - s <= {Canon(a, b)}
  {
    s + {Canon(a, b)}
  }

  /** Every element is stored in ascending order, so no unordered pair occurs twice. */
  ghost predicate Canonical(s: set<Pair>)
  {
    forall p :: p in s ==> p.0 <= p.1
  }

  /** Both orders of a pair give the same stored key. */
  lemma CanonSymmetric(a: int, b: int)
    ensures Canon(a, b) == Canon(b, a)
  {
  }

  /** Two stored keys coincide exactly when the unordered pairs do. */
  lemma CanonInjective(a: int, b: int, c: int, d: int)
    ensures Canon(a, b) == Canon(c, d) <==> (a == c && b == d) || (a == d && b == c)
  {
  }

  /** The membership queries are blind to the order of their arguments. */
  lemma HasSymmetric(s: set<Pair>, a: int, b: int)
    ensures Has(s, a, b) == Has(s, b, a)
  {
    CanonSymmetric(a, b);
  }

  /** After adding {a, b}, exactly the pair {a, b} has become a member: the membership
      of every other unordered pair is what it was. */
  lemma AddExact(s: set<Pair>, a: int, b: int, c: int, d: int)
    ensures Has(Add(s, a, b), c, d) <==> Has(s, c, d) || (c == a && d == b) || (c == b && d == a)
  {
    CanonInjective(a, b, c, d);
  }

  /** Adding a pair keeps the set free of duplicate unordered pairs, and adding it a
      second time, in either order, changes nothing. */
  lemma AddCanonical(s: set<Pair>, a: int, b: int)
    requires Canonical(s)
    ensures Canonical(Add(s, a, b))
    ensures Add(Add(s, a, b), b, a) == Add(s, a, b)
  {
    CanonSymmetric(a, b);
  }

  /** The pair set holding every pair of `links`, each in its stored form. */
  function Table(links: seq<Pair>): (r: set<Pair>)
    ensures Canonical(r)
  {
    set l | l in links :: Canon(l.0, l.1)
  }

  /** A pair of ids is in the table exactly when the list holds it in one order or the
      other. */
  lemma TableHas(links: seq<Pair>, a: int, b: int)
    ensures Has(Table(links), a, b) <==> (a, b) in links || (b, a) in links
  {
    if Has(Table(links), a, b) {
      var l :| l in links && Canon(l.0, l.1) == Canon(a, b);
      CanonInjective(l.0, l.1, a, b);
    }
    if (b, a) in links {
      CanonSymmetric(a, b);
    }
  }

  /** Loading one more pair adds it to the table. */
  lemma TableSnoc(links: seq<Pair>, l: Pair)
    ensures Table(links + [l]) == Add(Table(links), l.0, l.1)
  {
    assert forall q :: q in links + [l] <==> q in links || q == l;
  }
}
