/** A relation is a finite, duplicate-free set of `(x, y)` pairs. It offers
    the two projections, the pair-swapping inverse, the vertical and
    horizontal line tests, and lookups by first component. */
module Relations {
  import opened Wrappers

  datatype Relation<X(==), Y(==)> = Relation(pairs: set<(X, Y)>)

  /** The image of `s` under `f`. */
  function Image<T(==,!new), U(==,!new)>(s: set<T>, f: T -> U): (img: set<U>)
    ensures forall t :: t in s ==> f(t) in img
  {
    set t | t in s :: f(t)
  }

  /** `f` sends no two distinct members of `s` to the same value. */
  ghost predicate InjectiveOn<T(!new), U(!new)>(s: set<T>, f: T -> U) {
    forall a, b :: a in s && b in s && f(a) == f(b) ==> a == b
  }

  /** Taking an image never grows a set, and keeps its size exactly when
      the map is injective on it. */
  lemma {:induction false} ImageCardinality<T(!new), U(!new)>(s: set<T>, f: T -> U)
    ensures |Image(s, f)| <= |s|
    ensures |Image(s, f)| == |s| <==> InjectiveOn(s, f)
    decreases |s|
  {
    if s != {} {
      var a :| a in s;
      var rest := s - {a};
      ImageCardinality(rest, f);
      assert Image(s, f) == Image(rest, f) + {f(a)};
      if f(a) in Image(rest, f) {
        var b :| b in rest && f(b) == f(a);
        assert a != b;
        assert !InjectiveOn(s, f);
      } else {
        assert |Image(s, f)| == |Image(rest, f)| + 1;
        if InjectiveOn(rest, f) {
          forall u, v | u in s && v in s && f(u) == f(v)
            ensures u == v
          {
            if u != a && v != a {
              assert u in rest && v in rest;
            }
          }
        }
      }
    }
  }

  /** The set of the members of a sequence never has more elements than
      the sequence. */
  lemma {:induction false} ElementsCardinality<T>(s: seq<T>)
    ensures |(set t | t in s)| <= |s|
  {
    if s != [] {
      ElementsCardinality(s[1..]);
      assert (set t | t in s) == (set t | t in s[1..]) + {s[0]};
    }
  }

  /** Construction: Python's `set(pairs) if pairs else set()`. A missing or
      empty list gives the empty relation, and duplicates collapse. */
  function FromList<X(==,!new), Y(==,!new)>(input: Option<seq<(X, Y)>> := None): (r: Relation<X, Y>)
    ensures input.None? ==> r.pairs == {}
    ensures input.Some? ==> forall p :: p in r.pairs <==> p in input.value
    ensures input.Some? ==> |r.pairs| <= |input.value|
  {
    match input
    case None => Relation({})
    case Some(list) =>
      ElementsCardinality(list);
      if |list| == 0 then Relation({}) else Relation(set p | p in list)
  }

  /** `x` is the first component of some pair. */
  ghost predicate IsFirstOf<X(!new), Y(!new)>(r: Relation<X, Y>, x: X) {
    exists y :: (x, y) in r.pairs
  }

  /** `y` is the second component of some pair. */
  ghost predicate IsSecondOf<X(!new), Y(!new)>(r: Relation<X, Y>, y: Y) {
    exists x :: (x, y) in r.pairs
  }

  /** The set of first components. */
  function Domain<X(==,!new), Y(==,!new)>(r: Relation<X, Y>): (d: set<X>)
    ensures forall x :: x in d <==> IsFirstOf(r, x)
    ensures |d| <= |r.pairs|
  {
    ImageCardinality(r.pairs, (p: (X, Y)) => p.0);
    var d := Image(r.pairs, (p: (X, Y)) => p.0);
    assert forall x, y :: (x, y) in r.pairs ==> x in d by {
      forall x, y | (x, y) in r.pairs ensures x in d {
        assert (x, y).0 == x;
      }
    }
    d
  }

  /** The set of second components. */
  function Range<X(==,!new), Y(==,!new)>(r: Relation<X, Y>): (g: set<Y>)
    ensures forall y :: y in g <==> IsSecondOf(r, y)
    ensures |g| <= |r.pairs|
  {
    ImageCardinality(r.pairs, (p: (X, Y)) => p.1);
    var g := Image(r.pairs, (p: (X, Y)) => p.1);
    assert forall x, y :: (x, y) in r.pairs ==> y in g by {
      forall x, y | (x, y) in r.pairs ensures y in g {
        assert (x, y).1 == y;
      }
    }
    g
  }

  /** Every pair swapped. Swapping is injective, so nothing collapses. */
  function Inverse<X(==,!new), Y(==,!new)>(r: Relation<X, Y>): (inv: Relation<Y, X>)
    ensures forall x, y :: (y, x) in inv.pairs <==> (x, y) in r.pairs
    ensures |inv.pairs| == |r.pairs|
  {
    ImageCardinality(r.pairs, (p: (X, Y)) => (p.1, p.0));
    var inv := Relation(Image(r.pairs, (p: (X, Y)) => (p.1, p.0)));
    assert forall x, y :: (x, y) in r.pairs ==> (y, x) in inv.pairs by {
      forall x, y | (x, y) in r.pairs ensures (y, x) in inv.pairs {
        assert ((x, y).1, (x, y).0) == (y, x);
      }
    }
    inv
  }

  /** No two distinct pairs share a first component. */
  ghost predicate FirstInjective<X(!new), Y(!new)>(r: Relation<X, Y>) {
    forall p, q :: p in r.pairs && q in r.pairs && p != q ==> p.0 != q.0
  }

  /** No two distinct pairs share a second component. */
  ghost predicate SecondInjective<X(!new), Y(!new)>(r: Relation<X, Y>) {
    forall p, q :: p in r.pairs && q in r.pairs && p != q ==> p.1 != q.1
  }

  /** The vertical line test, computed as the source does: as many distinct
      first components as pairs. That holds exactly when no x repeats. */
  function IsFunction<X(==,!new), Y(==,!new)>(r: Relation<X, Y>): (b: bool)
    ensures b <==> FirstInjective(r)
  {
    var fst := (p: (X, Y)) => p.0;
    ImageCardinality(r.pairs, fst);
    assert Domain(r) == Image(r.pairs, fst);
    assert InjectiveOn(r.pairs, fst) <==> FirstInjective(r);
    |Domain(r)| == |r.pairs|
  }

  /** The horizontal line test, computed as the source does: as many
      distinct second components as pairs. That holds exactly when no y
      repeats. */
  function IsOneToOne<X(==,!new), Y(==,!new)>(r: Relation<X, Y>): (b: bool)
    ensures b <==> SecondInjective(r)
  {
    var snd := (p: (X, Y)) => p.1;
    ImageCardinality(r.pairs, snd);
    assert Range(r) == Image(r.pairs, snd);
    assert InjectiveOn(r.pairs, snd) <==> SecondInjective(r);
    |Range(r)| == |r.pairs|
  }

  /** Inverting twice gives back the same pairs. */
  lemma InverseInvolution<X(!new), Y(!new)>(r: Relation<X, Y>)
    ensures Inverse(Inverse(r)) == r
  {
  }

  /** The first components of the inverse are the second components of the
      relation. */
  lemma InverseDomainIsRange<X(!new), Y(!new)>(r: Relation<X, Y>)
    ensures Domain(Inverse(r)) == Range(r)
  {
  }

  /** The second components of the inverse are the first components of the
      relation. */
  lemma InverseRangeIsDomain<X(!new), Y(!new)>(r: Relation<X, Y>)
    ensures Range(Inverse(r)) == Domain(r)
  {
  }

  /** The inverse passes the vertical line test exactly when the relation
      passes the horizontal one. */
  lemma InverseIsFunctionIffOneToOne<X(!new), Y(!new)>(r: Relation<X, Y>)
    ensures IsFunction(Inverse(r)) <==> IsOneToOne(r)
  {
    InverseDomainIsRange(r);
  }

  /** The inverse passes the horizontal line test exactly when the relation
      passes the vertical one. */
  lemma InverseIsOneToOneIffFunction<X(!new), Y(!new)>(r: Relation<X, Y>)
    ensures IsOneToOne(Inverse(r)) <==> IsFunction(r)
  {
    InverseRangeIsDomain(r);
  }

  /** `get_all_values_for`: every y paired with `x`; empty, not an error,
      when `x` is outside the domain. */
  function GetAllValuesFor<X(==,!new), Y(==,!new)>(r: Relation<X, Y>, x: X): (ys: set<Y>)
    ensures forall y :: y in ys <==> (x, y) in r.pairs
    ensures ys == {} <==> x !in Domain(r)
  {
    var ys := set p | p in r.pairs && p.0 == x :: p.1;
    assert forall y :: (x, y) in r.pairs ==> y in ys by {
      forall y | (x, y) in r.pairs ensures y in ys {
        assert (x, y).1 == y;
      }
    }
    ys
  }

  /** `get_value_for` on a relation that passes the vertical line test: the
      match is unique, so the lookup is deterministic. `None` when `x` is
      not in the domain (the source's loop falls through). */
  function ValueFor<X(==,!new), Y(==,!new)>(r: Relation<X, Y>, x: X): (v: Option<Y>)
    requires IsFunction(r)
    ensures v.Some? <==> x in Domain(r)
    ensures forall y :: v == Some(y) <==> (x, y) in r.pairs
  {
    if x in Domain(r) then
      var y0 :| (x, y0) in r.pairs;
      var p :| p in r.pairs && p.0 == x;
      assert p == (x, y0);
      Some(p.1)
    else
      None
  }

  /** `get_value_for` on any relation: some y paired with `x`, chosen in the
      set's iteration order (modelled as an arbitrary choice), or `None`
      when the loop finds no match. */
  method GetValueFor<X(==,!new), Y(==,!new)>(r: Relation<X, Y>, x: X) returns (v: Option<Y>)
    ensures v.Some? <==> x in Domain(r)
    ensures v.Some? ==> (x, v.value) in r.pairs
    ensures IsFunction(r) ==> v == ValueFor(r, x)
  {
    if x in Domain(r) {
      var y0 :| (x, y0) in r.pairs;
      var p :| p in r.pairs && p.0 == x;
      v := Some(p.1);
      if IsFunction(r) {
        assert p == (x, y0);
      }
    } else {
      v := None;
    }
  }

  /** On a relation that passes the vertical line test, the set lookup and
      the single lookup agree: the set is empty or holds exactly the value. */
  lemma AllValuesOfFunction<X(!new), Y(!new)>(r: Relation<X, Y>, x: X)
    requires IsFunction(r)
    ensures ValueFor(r, x).None? ==> GetAllValuesFor(r, x) == {}
    ensures ValueFor(r, x).Some? ==> GetAllValuesFor(r, x) == {ValueFor(r, x).value}
  {
  }
}
