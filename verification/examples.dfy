/** Concrete facts the repository's tests and demo script state, proved of
    the model. */
module Examples {
  import opened Wrappers
  import opened Relations
  import opened Functions

  /** The pattern the tests use: samples `(x, rule(x))` for `-5 <= x < 6`
      together with the closed-form rule itself, an arithmetic lambda that
      Python refuses to apply to `None`. */
  function Sampled(rule: int -> int): (r: Result<Function, Error>)
    ensures r.Success? && r.value.Valid()
    ensures forall x :: Apply(r.value, x) == Some(rule(x))
    ensures ApplyAt(r.value, None) == None
    ensures forall x :: x in Domain(r.value.relation) <==> -5 <= x < 6
  {
    GraphIsFunction(-5, 6, rule);
    var r := New(FromList(Some(Graph(-5, 6, rule))), Some((o: Option<int>) => match o case Some(x) => Some(rule(x)) case None => None));
    assert forall x :: x in Domain(r.value.relation) <==> -5 <= x < 6 by {
      forall x ensures x in Domain(r.value.relation) <==> -5 <= x < 6 {
        if -5 <= x < 6 {
          assert (x, rule(x)) in r.value.relation.pairs;
        }
      }
    }
    r
  }

  /** Duplicates collapse. */
  lemma DuplicatesCollapse()
    ensures FromList(Some([(1, 3), (2, 4), (1, 5), (1, 3)])) == Relation({(1, 3), (2, 4), (1, 5)})
  {
  }

  /** The domain keeps each first component once. */
  lemma DomainOfSamples()
    ensures Domain(Relation({(1, 3), (2, 4), (1, 5)})) == {1, 2}
  {
  }

  /** The range keeps each second component once. */
  lemma RangeOfSamples()
    ensures Range(Relation({(1, 3), (2, 4), (1, 5)})) == {3, 4, 5}
  {
  }

  /** A repeated first component fails the vertical line test. */
  lemma RepeatedInputIsNotAFunction()
    ensures !IsFunction(Relation({(1, 3), (2, 4), (1, 5)}))
  {
    var r := Relation({(1, 3), (2, 4), (1, 5)});
    assert (1, 3) in r.pairs && (1, 5) in r.pairs;
  }

  /** The domain and range depend only on which pairs occur, not on their
      order or repetition in the input list. */
  lemma OrderIndependence<X(!new), Y(!new)>(a: seq<(X, Y)>, b: seq<(X, Y)>)
    requires forall p :: p in a <==> p in b
    ensures FromList(Some(a)) == FromList(Some(b))
    ensures Domain(FromList(Some(a))) == Domain(FromList(Some(b)))
    ensures Range(FromList(Some(a))) == Range(FromList(Some(b)))
  {
  }

  /** Inverting swaps every sample pair. */
  lemma InverseOfSamples()
    ensures Inverse(Relation({(1, 3), (2, 4), (3, 5), (4, 6)})) == Relation({(3, 1), (4, 2), (5, 3), (6, 4)})
  {
  }

  /** Four samples at the distinct inputs `a < b < c < d` share no input. */
  lemma DistinctInputs(a: int, b: int, c: int, d: int, ya: int, yb: int, yc: int, yd: int)
    requires a < b < c < d
    ensures FirstInjective(Relation({(a, ya), (b, yb), (c, yc), (d, yd)}))
  {
  }

  /** Swapped samples with distinct first components pass the vertical
      line test. */
  lemma SwappedSamplesAreAFunction()
    ensures IsFunction(Relation({(3, 1), (4, 2), (5, 3), (6, 4)}))
  {
    DistinctInputs(3, 4, 5, 6, 1, 2, 3, 4);
  }

  /** Inverting a one-to-one sample set gives a function. */
  lemma InverseOfOneToOneIsFunction()
    ensures IsFunction(Inverse(Relation({(1, 3), (2, 4), (3, 5), (4, 6)})))
  {
    InverseOfSamples();
    SwappedSamplesAreAFunction();
  }

  /** Inverting a sample set with a repeated output does not give a function. */
  lemma InverseOfManyToOne()
    ensures !IsFunction(Inverse(Relation({(1, 4), (2, 4), (3, 5), (4, 6)})))
  {
    var r := Relation({(1, 4), (2, 4), (3, 5), (4, 6)});
    assert (1, 4) in r.pairs && (2, 4) in r.pairs;
  }

  /** Samples with distinct first components pass the vertical line test. */
  lemma LookupSamplesAreAFunction()
    ensures IsFunction(Relation({(1, 4), (2, 4), (3, 5), (4, 6)}))
  {
    DistinctInputs(1, 2, 3, 4, 4, 4, 5, 6);
  }

  /** Lookup in a function's samples finds the stored values. */
  lemma LookupFound()
    ensures IsFunction(Relation({(1, 4), (2, 4), (3, 5), (4, 6)}))
    ensures ValueFor(Relation({(1, 4), (2, 4), (3, 5), (4, 6)}), 2) == Some(4)
    ensures ValueFor(Relation({(1, 4), (2, 4), (3, 5), (4, 6)}), 3) == Some(5)
  {
    LookupSamplesAreAFunction();
    assert (2, 4) in Relation({(1, 4), (2, 4), (3, 5), (4, 6)}).pairs;
    assert (3, 5) in Relation({(1, 4), (2, 4), (3, 5), (4, 6)}).pairs;
  }

  /** Lookup off the samples' domain falls through to `None`. */
  lemma LookupMissing()
    ensures IsFunction(Relation({(1, 4), (2, 4), (3, 5), (4, 6)}))
    ensures ValueFor(Relation({(1, 4), (2, 4), (3, 5), (4, 6)}), 7) == None
  {
    var r := Relation({(1, 4), (2, 4), (3, 5), (4, 6)});
    LookupSamplesAreAFunction();
    assert 7 !in Domain(r) by {
      if 7 in Domain(r) {
        assert false;
      }
    }
  }

  /** Construction refuses a repeated x with different y. */
  lemma ConstructionRefusesRepeatedInput()
    ensures New(FromList(Some([(1, 2), (2, 3), (1, 5)])), None).Failure?
  {
    var bad := FromList(Some([(1, 2), (2, 3), (1, 5)]));
    assert (1, 2) in bad.pairs && (1, 5) in bad.pairs;
  }

  /** Construction accepts distinct inputs. */
  lemma ConstructionAcceptsDistinctInputs()
    ensures New(FromList(Some([(1, 2), (2, 3)])), None).Success?
  {
    var good := FromList(Some([(1, 2), (2, 3)]));
    assert good.pairs == {(1, 2), (2, 3)};
    assert FirstInjective(good) by {
      forall p, q | p in good.pairs && q in good.pairs && p != q ensures p.0 != q.0 {
        assert p == (1, 2) || p == (2, 3);
        assert q == (1, 2) || q == (2, 3);
      }
    }
  }

  /** Composing two sampled rules evaluates to the composed rule. */
  lemma ComposeSampled(outer: int -> int, inner: int -> int)
    ensures forall x :: Apply(Compose(Sampled(outer).value, Sampled(inner).value).value, x) == Some(outer(inner(x)))
  {
  }

  /** The same law at one input. */
  lemma ComposeSampledAt(outer: int -> int, inner: int -> int, x: int)
    ensures Apply(Compose(Sampled(outer).value, Sampled(inner).value).value, x) == Some(outer(inner(x)))
  {
    ComposeSampled(outer, inner);
  }

  /** `f = x^2` composed with `g = x + 1`. */
  lemma SquareAfterSuccessor()
    ensures var h := Compose(Sampled(x => x * x).value, Sampled(x => x + 1).value).value;
      Apply(h, 2) == Some(9) && Apply(h, 0) == Some(1) && Apply(h, -2) == Some(1)
  {
    ComposeSampledAt(x => x * x, x => x + 1, 2);
    ComposeSampledAt(x => x * x, x => x + 1, 0);
    ComposeSampledAt(x => x * x, x => x + 1, -2);
  }

  /** `x - 3` composed with itself. */
  lemma ShiftAfterItself()
    ensures var f := Sampled(x => x - 3).value;
      var h := Compose(f, f).value;
      Apply(h, 2) == Some(-4) && Apply(h, -7) == Some(-13) && Apply(h, 5) == Some(-1)
  {
    ComposeSampledAt(x => x - 3, x => x - 3, 2);
    ComposeSampledAt(x => x - 3, x => x - 3, -7);
    ComposeSampledAt(x => x - 3, x => x - 3, 5);
  }

  /** `x^2` composed with the identity over `range(-5, 6)`. */
  lemma SquareAfterIdentity()
    ensures var h := Compose(Sampled(x => x * x).value, Identity(-5, 6).value).value;
      Apply(Identity(-5, 6).value, 2) == Some(2) && Apply(h, 2) == Some(4) && Apply(h, 100) == Some(10000)
      && Apply(h, -4) == Some(16)
  {
  }

  /** `Function.constant(7)` after `x^3`. */
  lemma ConstantAfterCube()
    ensures var f := Constant(7).value;
      var h := Compose(f, Sampled(x => x * x * x).value).value;
      Apply(f, 1) == Some(7) && Apply(h, 9) == Some(7)
  {
  }

  /** `Function.constant(7)` composed with a rule-less function: where the
      inner lookup falls through, the constant's rule still gives 7. */
  lemma ConstantAfterMissingValue()
    ensures IsFunction(Relation({(1, 2)}))
    ensures var g := New(Relation({(1, 2)}), None).value;
      Apply(g, 5) == None && Apply(Compose(Constant(7).value, g).value, 5) == Some(7)
  {
    var g := New(Relation({(1, 2)}), None).value;
    assert 5 !in Domain(g.relation) by {
      if 5 in Domain(g.relation) {
        assert false;
      }
    }
  }

  /** A sampled rule with `rule(-x) == rule(x)` everywhere is even. */
  lemma EvenRule(rule: int -> int)
    requires forall x :: rule(-x) == rule(x)
    ensures EvenOn(Sampled(rule).value)
  {
  }

  /** A sampled rule with `rule(-x) == -rule(x)` everywhere is odd. */
  lemma OddRule(rule: int -> int)
    requires forall x :: rule(-x) == -rule(x)
    ensures OddOn(Sampled(rule).value)
  {
  }

  /** `x^2` over `range(-5, 6)` is classified even. */
  lemma SquareIsEven()
    ensures EvenOn(Sampled(x => x * x).value)
  {
    forall x: int ensures (-x) * (-x) == x * x {
    }
    EvenRule(x => x * x);
  }

  /** `x^3` over `range(-5, 6)` is not even: `f(1) != f(-1)`. */
  lemma CubeIsNotEven()
    ensures !EvenOn(Sampled(x => x * x * x).value)
  {
    var f := Sampled(x => x * x * x).value;
    assert 1 in Domain(f.relation) && Apply(f, 1) != Apply(f, -1);
  }

  /** `x^3` over `range(-5, 6)` is odd. */
  lemma CubeIsOdd()
    ensures OddOn(Sampled(x => x * x * x).value)
  {
    forall x: int ensures (-x) * (-x) * (-x) == -(x * x * x) {
    }
    OddRule(x => x * x * x);
  }

  /** Classifying the two sample functions names x² "even" and x³ "odd". */
  method ClassifySamples() returns (square: Option<string>, cube: Option<string>)
    ensures square == Some("even")
    ensures cube == Some("odd")
  {
    var f := Sampled(x => x * x).value;
    var g := Sampled(x => x * x * x).value;
    SquareIsEven();
    CubeIsNotEven();
    CubeIsOdd();
    var fc := CheckSymmetry(f);
    var gc := CheckSymmetry(g);
    square := ReturnSymmetryType(fc);
    cube := ReturnSymmetryType(gc);
  }

  /** `x + 1` is neither even nor odd. */
  lemma LineIsNeither()
    ensures !EvenOn(Sampled(x => x + 1).value)
    ensures !OddOn(Sampled(x => x + 1).value)
  {
    var f := Sampled(x => x + 1).value;
    assert 1 in Domain(f.relation) && Apply(f, 1) != Apply(f, -1);
    assert Apply(f, -1) != Negated(Apply(f, 1));
  }

  /** The zero function is both even and odd; `check_symmetry` reports
      'even' for it, because that test comes first. */
  lemma ZeroIsEvenAndOdd(a: int, b: int)
    ensures EvenOn(Constant(0, a, b).value)
    ensures OddOn(Constant(0, a, b).value)
  {
  }
}
