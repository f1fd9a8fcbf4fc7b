/** A function over the integers: a relation of sample points that passes
    the vertical line test, an optional closed-form rule, and the cached
    symmetry classification. Transformations keep the sample points and
    build a new rule on top of the old evaluation. */
module Functions {
  import opened Wrappers
  import opened Relations

  /** A rule maps an argument to a result. The argument is `None` where a
      caller passes Python's `None` (a composition whose inner function had
      no value); the result is `None` where the evaluation has no value (a
      lookup that falls through, or arithmetic on `None`, which Python
      refuses with a `TypeError`). */
  type Rule = Option<int> -> Option<int>

  datatype Symmetry = Even | Odd | Neither

  /** Construction refuses a relation that fails the vertical line test. */
  datatype Error = NotAFunction

  datatype Function = Function(relation: Relation<int, int>, rule: Option<Rule>, symmetry: Option<Symmetry>)
  {
    /** Every constructed function passes the vertical line test. */
    predicate Valid() {
      IsFunction(relation)
    }
  }

  /** The constructor: fails exactly when the relation is not a function;
      otherwise stores relation and rule unchanged, with no symmetry
      classification yet. */
  function New(relation: Relation<int, int>, rule: Option<Rule> := None): (r: Result<Function, Error>)
    ensures r.Failure? <==> !IsFunction(relation)
    ensures r.Success? ==> r.value.relation == relation && r.value.rule == rule
    ensures r.Success? ==> r.value.symmetry == None && r.value.Valid()
  {
    if IsFunction(relation) then Success(Function(relation, rule, None)) else Failure(NotAFunction)
  }

  /** Evaluation at an integer: the rule when there is one, at any input;
      otherwise the lookup among the sample points, `None` off the sampled
      domain. */
  function Apply(f: Function, x: int): (y: Option<int>)
    requires f.Valid()
    ensures f.rule.Some? ==> y == f.rule.value(Some(x))
    ensures f.rule.None? ==> (y.Some? <==> x in Domain(f.relation))
    ensures f.rule.None? ==> forall v :: y == Some(v) <==> (x, v) in f.relation.pairs
  {
    match f.rule
    case Some(rule) => rule(Some(x))
    case None => ValueFor(f.relation, x)
  }

  /** Evaluation at an argument that may be Python's `None`. An integer is
      evaluated as by `Apply`. `None` goes to the rule when there is one;
      otherwise the lookup finds no pair whose input is `None` and falls
      through. */
  function ApplyAt(f: Function, o: Option<int>): (y: Option<int>)
    requires f.Valid()
    ensures o.Some? ==> y == Apply(f, o.value)
    ensures f.rule.Some? ==> y == f.rule.value(o)
    ensures f.rule.None? ==> forall v :: y == Some(v) <==> o.Some? && (o.value, v) in f.relation.pairs
  {
    match o
    case Some(x) => Apply(f, x)
    case None => if f.rule.Some? then f.rule.value(None) else None
  }

  /** The name the source stores for a classification. */
  function SymmetryName(s: Symmetry): string {
    match s
    case Even => "even"
    case Odd => "odd"
    case Neither => "neither"
  }

  /** `return_symmetry_type`: `None` until `CheckSymmetry` has run, then
      one of the three names. */
  function ReturnSymmetryType(f: Function): (name: Option<string>)
    ensures name.None? <==> f.symmetry.None?
    ensures name == Some("even") <==> f.symmetry == Some(Even)
    ensures name == Some("odd") <==> f.symmetry == Some(Odd)
    ensures name == Some("neither") <==> f.symmetry == Some(Neither)
  {
    match f.symmetry
    case None => None
    case Some(s) => Some(SymmetryName(s))
  }

  /** Python's `range(a, b)`: the integers from `a` up to, not including, `b`. */
  function Span(a: int, b: int): (s: seq<int>)
    ensures |s| == if a < b then b - a else 0
    ensures forall i :: 0 <= i < |s| ==> s[i] == a + i
  {
    seq(if a < b then b - a else 0, i => a + i)
  }

  /** The sample list `[(x, g(x)) for x in range(a, b)]`. */
  function Graph(a: int, b: int, g: int -> int): seq<(int, int)> {
    var xs := Span(a, b);
    seq(|xs|, i requires 0 <= i < |xs| => (xs[i], g(xs[i])))
  }

  /** The sampled graph of any total map holds exactly the points
      `(x, g(x))` for `a <= x < b`, and passes the vertical line test. */
  lemma GraphIsFunction(a: int, b: int, g: int -> int)
    ensures forall p :: p in FromList(Some(Graph(a, b, g))).pairs <==> a <= p.0 < b && p.1 == g(p.0)
    ensures IsFunction(FromList(Some(Graph(a, b, g))))
  {
    var gr := Graph(a, b, g);
    var r := FromList(Some(gr));
    forall p ensures p in r.pairs <==> a <= p.0 < b && p.1 == g(p.0) {
      if a <= p.0 < b && p.1 == g(p.0) {
        assert gr[p.0 - a] == p;
      }
    }
  }

  /** `Function.identity(a, b)` with the source's defaults `a = 0`,
      `b = 1`: samples `(x, x)` for `a <= x < b`, rule `x -> x` (which
      passes `None` through); construction always succeeds. */
  function Identity(a: int := 0, b: int := 1): (r: Result<Function, Error>)
    ensures r.Success? && r.value.Valid() && r.value.symmetry == None
    ensures forall p :: p in r.value.relation.pairs <==> a <= p.0 < b && p.1 == p.0
    ensures forall x :: Apply(r.value, x) == Some(x)
    ensures ApplyAt(r.value, None) == None
  {
    GraphIsFunction(a, b, x => x);
    New(FromList(Some(Graph(a, b, x => x))), Some(o => o))
  }

  /** `Function.constant(c, a, b)` with the source's defaults `c = 0`,
      `a = 0`, `b = 1`: samples `(x, c)` for `a <= x < b`, rule `x -> c`
      (also at `None`); construction always succeeds. */
  function Constant(c: int := 0, a: int := 0, b: int := 1): (r: Result<Function, Error>)
    ensures r.Success? && r.value.Valid() && r.value.symmetry == None
    ensures forall p :: p in r.value.relation.pairs <==> a <= p.0 < b && p.1 == c
    ensures forall x :: Apply(r.value, x) == Some(c)
    ensures ApplyAt(r.value, None) == Some(c)
  {
    GraphIsFunction(a, b, x => c);
    New(FromList(Some(Graph(a, b, x => c))), Some(o => Some(c)))
  }

  /** Negation lifted to a possibly absent value. */
  function Negated(o: Option<int>): Option<int> {
    match o
    case Some(y) => Some(-y)
    case None => None
  }

  /** Addition lifted to a possibly absent value (Python refuses `None + k`). */
  function Shifted(o: Option<int>, k: int): Option<int> {
    match o
    case Some(y) => Some(y + k)
    case None => None
  }

  /** Multiplication lifted to a possibly absent value (Python refuses `None * a`). */
  function Scaled(o: Option<int>, a: int): Option<int> {
    match o
    case Some(y) => Some(y * a)
    case None => None
  }

  /** `f.compose(g)`: the samples of `f`, evaluated as `f(g(x))`. Where
      `g(x)` has no value, `f` is evaluated at `None`. */
  function Compose(f: Function, g: Function): (r: Result<Function, Error>)
    requires f.Valid() && g.Valid()
    ensures r.Success? && r.value.Valid()
    ensures r.value.relation == f.relation && r.value.symmetry == None
    ensures forall x :: Apply(g, x).Some? ==> Apply(r.value, x) == Apply(f, Apply(g, x).value)
    ensures forall x :: Apply(g, x).None? ==> Apply(r.value, x) == ApplyAt(f, None)
    ensures ApplyAt(r.value, None) == ApplyAt(f, ApplyAt(g, None))
  {
    New(f.relation, Some((o: Option<int>) =>
      match o
      case Some(x) => (match Apply(g, x) case Some(y) => Apply(f, y) case None => ApplyAt(f, None))
      case None => (match ApplyAt(g, None) case Some(y) => Apply(f, y) case None => ApplyAt(f, None))))
  }

  /** `vertical_shift(k)`: evaluates to `f(x) + k`. */
  function VerticalShift(f: Function, k: int): (r: Result<Function, Error>)
    requires f.Valid()
    ensures r.Success? && r.value.Valid()
    ensures r.value.relation == f.relation && r.value.symmetry == None
    ensures forall x :: Apply(r.value, x) == if Apply(f, x).Some? then Some(Apply(f, x).value + k) else None
    ensures ApplyAt(r.value, None) == if ApplyAt(f, None).Some? then Some(ApplyAt(f, None).value + k) else None
  {
    New(f.relation, Some((o: Option<int>) =>
      match o
      case Some(x) => Shifted(Apply(f, x), k)
      case None => Shifted(ApplyAt(f, None), k)))
  }

  /** `horizontal_shift(h)`: evaluates to `f(x - h)`. */
  function HorizontalShift(f: Function, h: int): (r: Result<Function, Error>)
    requires f.Valid()
    ensures r.Success? && r.value.Valid()
    ensures r.value.relation == f.relation && r.value.symmetry == None
    ensures forall x :: Apply(r.value, x) == Apply(f, x - h)
    ensures ApplyAt(r.value, None) == None
  {
    New(f.relation, Some((o: Option<int>) => match o case Some(x) => Apply(f, x - h) case None => None))
  }

  /** `vertical_stretch(a)`: evaluates to `f(x) * a`. */
  function VerticalStretch(f: Function, a: int): (r: Result<Function, Error>)
    requires f.Valid()
    ensures r.Success? && r.value.Valid()
    ensures r.value.relation == f.relation && r.value.symmetry == None
    ensures forall x :: Apply(r.value, x) == if Apply(f, x).Some? then Some(Apply(f, x).value * a) else None
    ensures ApplyAt(r.value, None) == if ApplyAt(f, None).Some? then Some(ApplyAt(f, None).value * a) else None
  {
    New(f.relation, Some((o: Option<int>) =>
      match o
      case Some(x) => Scaled(Apply(f, x), a)
      case None => Scaled(ApplyAt(f, None), a)))
  }

  /** `horizontal_stretch(b)`: evaluates to `f(x * b)`. */
  function HorizontalStretch(f: Function, b: int): (r: Result<Function, Error>)
    requires f.Valid()
    ensures r.Success? && r.value.Valid()
    ensures r.value.relation == f.relation && r.value.symmetry == None
    ensures forall x :: Apply(r.value, x) == Apply(f, x * b)
    ensures ApplyAt(r.value, None) == None
  {
    New(f.relation, Some((o: Option<int>) => match o case Some(x) => Apply(f, x * b) case None => None))
  }

  /** `reflect_over_x_axis()`: evaluates to `-f(x)`. */
  function ReflectOverXAxis(f: Function): (r: Result<Function, Error>)
    requires f.Valid()
    ensures r.Success? && r.value.Valid()
    ensures r.value.relation == f.relation && r.value.symmetry == None
    ensures forall x :: Apply(r.value, x) == if Apply(f, x).Some? then Some(-Apply(f, x).value) else None
    ensures ApplyAt(r.value, None) == if ApplyAt(f, None).Some? then Some(-ApplyAt(f, None).value) else None
  {
    New(f.relation, Some((o: Option<int>) =>
      match o
      case Some(x) => Negated(Apply(f, x))
      case None => Negated(ApplyAt(f, None))))
  }

  /** `reflect_over_y_axis()`: evaluates to `f(-x)`. */
  function ReflectOverYAxis(f: Function): (r: Result<Function, Error>)
    requires f.Valid()
    ensures r.Success? && r.value.Valid()
    ensures r.value.relation == f.relation && r.value.symmetry == None
    ensures forall x :: Apply(r.value, x) == Apply(f, -x)
    ensures ApplyAt(r.value, None) == None
  {
    New(f.relation, Some((o: Option<int>) => match o case Some(x) => Apply(f, -x) case None => None))
  }

  /** Shifting up by `k` and back down restores every value. */
  lemma VerticalShiftRoundTrip(f: Function, k: int)
    requires f.Valid()
    ensures forall x :: Apply(VerticalShift(VerticalShift(f, k).value, -k).value, x) == Apply(f, x)
  {
  }

  /** Shifting right by `h` and back left restores every value. */
  lemma HorizontalShiftRoundTrip(f: Function, h: int)
    requires f.Valid()
    ensures forall x :: Apply(HorizontalShift(HorizontalShift(f, h).value, -h).value, x) == Apply(f, x)
  {
  }

  /** Stretching by 1 in either direction changes no value. */
  lemma StretchByOne(f: Function)
    requires f.Valid()
    ensures forall x :: Apply(VerticalStretch(f, 1).value, x) == Apply(f, x)
    ensures forall x :: Apply(HorizontalStretch(f, 1).value, x) == Apply(f, x)
  {
  }

  /** A vertical stretch by -1 is the reflection over the x-axis. */
  lemma VerticalStretchByMinusOne(f: Function)
    requires f.Valid()
    ensures forall x :: Apply(VerticalStretch(f, -1).value, x) == Apply(ReflectOverXAxis(f).value, x)
  {
  }

  /** A horizontal stretch by -1 is the reflection over the y-axis. */
  lemma HorizontalStretchByMinusOne(f: Function)
    requires f.Valid()
    ensures forall x :: Apply(HorizontalStretch(f, -1).value, x) == Apply(ReflectOverYAxis(f).value, x)
  {
  }

  /** Multiplication regroups. */
  lemma MulRegroup(y: int, a: int, b: int)
    ensures y * a * b == y * (a * b)
    ensures y * b * a == y * (a * b)
  {
  }

  /** Two vertical stretches are one stretch by the product of the factors. */
  lemma VerticalStretchesMultiply(f: Function, a: int, b: int)
    requires f.Valid()
    ensures forall x :: Apply(VerticalStretch(VerticalStretch(f, a).value, b).value, x) == Apply(VerticalStretch(f, a * b).value, x)
  {
    var once := VerticalStretch(f, a).value;
    forall x ensures Apply(VerticalStretch(once, b).value, x) == Apply(VerticalStretch(f, a * b).value, x) {
      if Apply(f, x).Some? {
        MulRegroup(Apply(f, x).value, a, b);
      }
    }
  }

  /** Two horizontal stretches are one stretch by the product of the factors. */
  lemma HorizontalStretchesMultiply(f: Function, a: int, b: int)
    requires f.Valid()
    ensures forall x :: Apply(HorizontalStretch(HorizontalStretch(f, a).value, b).value, x) == Apply(HorizontalStretch(f, a * b).value, x)
  {
    var once := HorizontalStretch(f, a).value;
    forall x ensures Apply(HorizontalStretch(once, b).value, x) == Apply(HorizontalStretch(f, a * b).value, x) {
      MulRegroup(x, a, b);
    }
  }

  /** Reflecting twice over the x-axis restores every value. */
  lemma ReflectOverXAxisInvolution(f: Function)
    requires f.Valid()
    ensures forall x :: Apply(ReflectOverXAxis(ReflectOverXAxis(f).value).value, x) == Apply(f, x)
  {
    var once := ReflectOverXAxis(f).value;
    var twice := ReflectOverXAxis(once).value;
    forall x ensures Apply(twice, x) == Apply(f, x) {
      if Apply(f, x).Some? {
        assert Apply(once, x) == Some(-Apply(f, x).value);
      }
    }
  }

  /** Reflecting twice over the y-axis restores every value. */
  lemma ReflectOverYAxisInvolution(f: Function)
    requires f.Valid()
    ensures forall x :: Apply(ReflectOverYAxis(ReflectOverYAxis(f).value).value, x) == Apply(f, x)
  {
  }

  /** The identity is neutral for composition on either side. */
  lemma ComposeIdentity(f: Function, a: int, b: int)
    requires f.Valid()
    ensures forall x :: Apply(Compose(f, Identity(a, b).value).value, x) == Apply(f, x)
    ensures forall x :: Apply(Compose(Identity(a, b).value, f).value, x) == Apply(f, x)
  {
    var id := Identity(a, b).value;
    forall x ensures Apply(Compose(f, id).value, x) == Apply(f, x) {
      assert Apply(id, x) == Some(x);
    }
    forall x ensures Apply(Compose(id, f).value, x) == Apply(f, x) {
      if Apply(f, x).None? {
        assert ApplyAt(id, None) == None;
      }
    }
  }

  /** Composing after a constant gives that constant's image everywhere. */
  lemma ComposeConstant(f: Function, c: int, a: int, b: int)
    requires f.Valid()
    ensures forall x :: Apply(Compose(f, Constant(c, a, b).value).value, x) == Apply(f, c)
  {
  }

  /** A constant outer function gives its constant everywhere, also where
      the inner function has no value: the source evaluates the constant's
      rule at `None`. */
  lemma ConstantAfterAnything(c: int, a: int, b: int, g: Function)
    requires g.Valid()
    ensures forall x :: Apply(Compose(Constant(c, a, b).value, g).value, x) == Some(c)
  {
  }

  /** `f(x) == f(-x)` at every sampled x. */
  ghost predicate EvenOn(f: Function)
    requires f.Valid()
  {
    forall x :: x in Domain(f.relation) ==> Apply(f, x) == Apply(f, -x)
  }

  /** `f(-x) == -f(x)` at every sampled x. */
  ghost predicate OddOn(f: Function)
    requires f.Valid()
  {
    forall x :: x in Domain(f.relation) ==> Apply(f, -x) == Negated(Apply(f, x))
  }

  /** Python's `all(p(x) for x in s)`: visits `s` in some order and stops
      at the first element that fails `p`. */
  method All(s: set<int>, p: int -> bool) returns (b: bool)
    ensures b <==> forall x :: x in s ==> p(x)
  {
    b := true;
    var todo := s;
    while b && todo != {}
      invariant todo <= s
      invariant b ==> forall x :: x in s && x !in todo ==> p(x)
      invariant !b ==> exists x :: x in s && !p(x)
      decreases todo
    {
      if forall y :: y !in todo {
        assert false;
      }
      var x :| x in todo;
      b := p(x);
      todo := todo - {x};
    }
  }

  /** `check_symmetry()`: the function with its cached classification set,
      'even' taking precedence over 'odd'; samples and rule unchanged. */
  method CheckSymmetry(f: Function) returns (g: Function)
    requires f.Valid()
    ensures g.relation == f.relation && g.rule == f.rule && g.Valid()
    ensures ReturnSymmetryType(g).Some?
    ensures ReturnSymmetryType(g) == Some("even") <==> EvenOn(f)
    ensures ReturnSymmetryType(g) == Some("odd") <==> !EvenOn(f) && OddOn(f)
    ensures ReturnSymmetryType(g) == Some("neither") <==> !EvenOn(f) && !OddOn(f)
  {
    var dom := Domain(f.relation);
    var mirror := ReflectOverYAxis(f).value;
    var sameAt := x => Apply(f, x) == Apply(mirror, x);
    var even := All(dom, sameAt);
    if even {
      forall x | x in dom ensures Apply(f, x) == Apply(f, -x) {
        assert sameAt(x);
      }
      g := f.(symmetry := Some(Even));
    } else {
      var x0 :| x0 in dom && !sameAt(x0);
      assert Apply(f, x0) != Apply(f, -x0);
      var negatedAt := x => Apply(mirror, x) == Negated(Apply(f, x));
      var odd := All(dom, negatedAt);
      if odd {
        forall x | x in dom ensures Apply(f, -x) == Negated(Apply(f, x)) {
          assert negatedAt(x);
        }
        g := f.(symmetry := Some(Odd));
      } else {
        var x1 :| x1 in dom && !negatedAt(x1);
        assert Apply(f, -x1) != Negated(Apply(f, x1));
        g := f.(symmetry := Some(Neither));
      }
    }
  }
}
