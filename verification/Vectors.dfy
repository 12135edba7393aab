/** `domain/policy/embedding.py`: the sparse content space over named features and the dense one. */
module Vectors {
  import opened Ordering

  /** A token such as `genre:racing`; `<` stands for the order of the strings. */
  type Feature = int

  /** `math.sqrt` is an input. All that is ever assumed of it is that it is right where it is used. */
  type Root = real -> real

  predicate RootAt(root: Root, x: real) {
    root(x) >= 0.0 && root(x) * root(x) == x
  }

  // ---------------------------------------------------------------- the sparse space

  predicate DropsZeros(weights: map<Feature, real>) {
    forall f :: f in weights ==> weights[f] != 0.0
  }

  /** The constructor drops zero weights, so a vector has exactly one representation. */
  type Embedding = weights: map<Feature, real> | DropsZeros(weights)

  const EMPTY: Embedding := map[]

  /** The weight of a feature, zero when the vector does not name it. */
  function At(e: map<Feature, real>, f: Feature): real {
    if f in e then e[f] else 0.0
  }

  /** What accumulating `other` with a scale adds to one feature. */
  function Share(other: Embedding, scale: real, f: Feature): real {
    Times(scale, At(other, f))
  }

  function Times(k: real, x: real): real {
    k * x
  }

  function Cleaned(weights: map<Feature, real>): (e: Embedding)
    ensures forall f :: At(e, f) == At(weights, f)
  {
    map f | f in weights && weights[f] != 0.0 :: weights[f]
  }

  /** `Embedding.of`: every token counts once, however often it is repeated. */
  function Of(features: seq<Feature>): (e: Embedding)
    ensures forall f :: At(e, f) == if f in features then 1.0 else 0.0
    ensures forall f :: f in e <==> f in features
  {
    map f | f in features :: 1.0
  }

  /** The specification of `Embedding.plus`: pointwise `self + scale * other`. */
  function Plus(a: Embedding, b: Embedding, scale: real): (r: Embedding)
    ensures forall f :: At(r, f) == At(a, f) + Share(b, scale, f)
  {
    assert forall f :: f !in b ==> Share(b, scale, f) == 0.0;
    Cleaned(Sums(a, b, scale))
  }

  function Sums(a: Embedding, b: Embedding, scale: real): map<Feature, real> {
    map f | f in a.Keys + b.Keys :: At(a, f) + Share(b, scale, f)
  }

  /** The loop of `Embedding.plus`, updating a dictionary in the other vector's iteration order. */
  method PlusInPlace(a: Embedding, b: Embedding, scale: real) returns (r: Embedding)
    ensures r == Plus(a, b, scale)
  {
    ghost var sums := Sums(a, b, scale);
    var combined: map<Feature, real> := a;
    var rest: set<Feature> := b.Keys;
    while rest != {}
      invariant rest <= b.Keys
      invariant forall f :: f in combined <==> f in a || (f in b && f !in rest)
      invariant forall f :: f in combined ==> combined[f] == if f in b && f !in rest then sums[f] else a[f]
      decreases rest
    {
      var name := Least(rest);
      combined := combined[name := At(combined, name) + Share(b, scale, name)];
      rest := rest - {name};
    }
    assert forall f :: f in a && f !in b ==> sums[f] == a[f];
    assert forall f :: f in combined <==> f in sums;
    assert combined == sums;
    r := Cleaned(combined);
  }

  /** Equal weights everywhere means the same vector: the drop-zeros form is canonical. */
  lemma SamePoints(a: Embedding, b: Embedding)
    requires forall f :: At(a, f) == At(b, f)
    ensures a == b
  {
    forall f ensures f in a <==> f in b {
      assert At(a, f) == At(b, f);
    }
    forall f | f in a ensures a[f] == b[f] {
      assert At(a, f) == At(b, f);
    }
  }

  /** `sum(g(f) for f in s)` over a finite set of features. */
  function Sum(s: set<Feature>, g: Feature -> real): real {
    if s == {} then 0.0 else
    var f := Least(s);
    g(f) + Sum(s - {f}, g)
  }

  /** The sum does not depend on which feature is taken first. */
  lemma {:induction false} SumSplit(s: set<Feature>, f: Feature, g: Feature -> real)
    requires f in s
    ensures Sum(s, g) == g(f) + Sum(s - {f}, g)
    decreases |s|
  {
    var first := Least(s);
    if f != first {
      SumSplit(s - {first}, f, g);
      assert s - {first} - {f} == s - {f} - {first};
      LeastWithout(s, f);
    }
  }

  lemma {:induction false} SumCover(s: set<Feature>, t: set<Feature>, g: Feature -> real)
    requires t <= s && forall f :: f in s && f !in t ==> g(f) == 0.0
    ensures Sum(s, g) == Sum(t, g)
    decreases |s|
  {
    if s != t {
      var f := Extra(s, t);
      SumSplit(s, f, g);
      SumCover(s - {f}, t, g);
    }
  }

  lemma {:induction false} SumScaled(s: set<Feature>, g: Feature -> real, c: Feature -> real, k: real)
    requires forall f :: c(f) == Times(k, g(f))
    ensures Sum(s, c) == Times(k, Sum(s, g))
    decreases |s|
  {
    if s != {} {
      var f := Least(s);
      SumScaled(s - {f}, g, c, k);
      Distribute(g(f), Sum(s - {f}, g), k);
    }
  }

  lemma Distribute(x: real, y: real, k: real)
    ensures Times(k, x + y) == Times(k, x) + Times(k, y)
  {}

  function Products(a: Embedding, b: Embedding): Feature -> real {
    f => At(a, f) * At(b, f)
  }

  /** `sum(a[f] * b[f] for f in s)` */
  function Dot(s: set<Feature>, a: Embedding, b: Embedding): real {
    Sum(s, Products(a, b))
  }

  /** Features either vector leaves out add nothing. */
  lemma DotCover(s: set<Feature>, a: Embedding, b: Embedding)
    requires a.Keys * b.Keys <= s
    ensures Dot(s, a, b) == Dot(a.Keys * b.Keys, a, b)
  {
    SumCover(s, a.Keys * b.Keys, Products(a, b));
  }

  function NormSquared(e: Embedding): real {
    Dot(e.Keys, e, e)
  }

  function Magnitude(e: Embedding, root: Root): real {
    root(NormSquared(e))
  }

  function Cosine(a: Embedding, b: Embedding, root: Root): real {
    var shared := a.Keys * b.Keys;
    if shared == {} then 0.0 else Normalised(Dot(shared, a, b), Magnitude(a, root), Magnitude(b, root))
  }

  /** A dot product over the two magnitudes, and zero when either vector is zero. */
  function Normalised(dot: real, left: real, right: real): real {
    if left == 0.0 || right == 0.0 then 0.0 else
    NonZero(left, right);
    dot / (left * right)
  }

  lemma NonZero(x: real, k: real)
    requires x != 0.0 && k != 0.0
    ensures x * k != 0.0
  {}

  // ---------------------------------------------------------------- the dense space

  /** `()` is "not embedded yet". */
  type Dense = seq<real>

  /** `DenseEmbedding.plus`; `None` is the InvariantViolation for two different widths. */
  function DensePlus(a: Dense, b: Dense, scale: real): (r: Option<Dense>)
    ensures r.None? <==> a != [] && b != [] && |a| != |b|
    ensures r.Some? ==> |r.value| == if b == [] then |a| else |b|
  {
    if b == [] then Some(a)
    else if a == [] then Some(seq(|b|, i requires 0 <= i < |b| => Times(scale, b[i])))
    else if |a| != |b| then None
    else Some(seq(|a|, i requires 0 <= i < |a| => a[i] + Times(scale, b[i])))
  }

  function DenseDot(a: Dense, b: Dense): real
    requires |a| == |b|
  {
    if a == [] then 0.0 else a[0] * b[0] + DenseDot(a[1..], b[1..])
  }

  function DenseMagnitude(v: Dense, root: Root): real {
    root(DenseDot(v, v))
  }

  function DenseCosine(a: Dense, b: Dense, root: Root): real {
    if a == [] || b == [] || |a| != |b| then 0.0 else
    Normalised(DenseDot(a, b), DenseMagnitude(a, root), DenseMagnitude(b, root))
  }

  // ---------------------------------------------------------------- Cauchy-Schwarz

  /** `|p a + q b|^2` is never negative. */
  lemma {:induction false} DenseQuadratic(a: Dense, b: Dense, p: real, q: real)
    requires |a| == |b|
    ensures p * p * DenseDot(a, a) + 2.0 * p * q * DenseDot(a, b) + q * q * DenseDot(b, b) >= 0.0
  {
    if a != [] {
      DenseQuadratic(a[1..], b[1..], p, q);
      var x, y := a[0], b[0];
      var s, t, u := DenseDot(a[1..], a[1..]), DenseDot(a[1..], b[1..]), DenseDot(b[1..], b[1..]);
      assert p * p * (x * x + s) + 2.0 * p * q * (x * y + t) + q * q * (y * y + u)
          == (p * x + q * y) * (p * x + q * y) + (p * p * s + 2.0 * p * q * t + q * q * u);
      SquareSign(p * x + q * y, p * x + q * y, (p * x + q * y) * (p * x + q * y));
    }
  }

  lemma SquareSign(x: real, z: real, p: real)
    requires x == z && p == x * z
    ensures p >= 0.0 && (x != 0.0 ==> p > 0.0) && (x == 0.0 ==> p == 0.0)
  {
    if x > 0.0 {
      ProductSign(x, z);
    } else if x < 0.0 {
      ProductSign(-x, -z);
      assert (-x) * (-z) == p;
    }
  }

  lemma ProductSign(x: real, z: real)
    requires x > 0.0 && z > 0.0
    ensures x * z > 0.0
  {}

  lemma {:induction false} DenseDotZero(a: Dense, b: Dense)
    requires |a| == |b|
    ensures DenseDot(b, b) >= 0.0
    ensures DenseDot(b, b) == 0.0 ==> DenseDot(a, b) == 0.0
    ensures DenseDot(b, b) == 0.0 <==> forall i :: 0 <= i < |b| ==> b[i] == 0.0
  {
    if b != [] {
      DenseDotZero(a[1..], b[1..]);
      var y, rest := b[0], DenseDot(b[1..], b[1..]);
      var head := y * y;
      SquareSign(y, y, head);
      assert b == [y] + b[1..];
      assert DenseDot(b, b) == head + rest;
      if y == 0.0 { assert a[0] * y == 0.0; }
    }
  }

  lemma DenseCauchySchwarz(a: Dense, b: Dense)
    requires |a| == |b|
    ensures DenseDot(a, b) * DenseDot(a, b) <= DenseDot(a, a) * DenseDot(b, b)
  {
    var s, t, u := DenseDot(a, a), DenseDot(a, b), DenseDot(b, b);
    DenseDotZero(a, b);
    if u > 0.0 {
      DenseQuadratic(a, b, u, -t);
      assert u * u * s + 2.0 * u * (-t) * t + (-t) * (-t) * u == u * (s * u - t * t);
      Positive(u, s * u - t * t);
    }
  }

  lemma Positive(u: real, x: real)
    requires u > 0.0 && u * x >= 0.0
    ensures x >= 0.0
  {}

  /** `d^2 <= (l r)^2` bounds the quotient. */
  lemma NormalisedInUnit(d: real, l: real, r: real, s: real, u: real)
    requires l >= 0.0 && r >= 0.0 && l * l == s && r * r == u && d * d <= s * u
    ensures -1.0 <= Normalised(d, l, r) <= 1.0
  {
    if l != 0.0 && r != 0.0 {
      NonZero(l, r);
      var m, c := l * r, Normalised(d, l, r);
      assert m > 0.0;
      assert c * m == d;
      assert m * m == s * u by { SquareOfProduct(l, r); assert l * (l * (r * r)) == (l * l) * (r * r); }
      assert d * d <= m * m;
      if c > 1.0 { Beyond(c, m, d); }
      if c < -1.0 {
        assert (-c) * m == -d;
        Beyond(-c, m, -d);
        Negated(d);
      }
    }
  }

  lemma Negated(d: real)
    ensures (-d) * (-d) == d * d
  {}

  lemma Beyond(c: real, m: real, d: real)
    requires c > 1.0 && m > 0.0 && d == c * m
    ensures d * d > m * m
  {
    assert d > m;
    Larger(d, m);
  }

  lemma Larger(d: real, m: real)
    requires d > m > 0.0
    ensures d * d > m * m
  {}

  lemma SquareOfProduct(k: real, m: real)
    ensures k * (k * (m * m)) == (k * m) * (k * m)
    ensures k > 0.0 && m >= 0.0 ==> k * m >= 0.0
  {}

  /** A common positive factor of the dot product and one magnitude cancels. */
  lemma NormalisedScaled(d: real, l: real, r: real, k: real)
    requires k > 0.0
    ensures Normalised(Times(k, d), Times(k, l), r) == Normalised(d, l, r)
    ensures Normalised(Times(k, d), r, Times(k, l)) == Normalised(d, r, l)
  {
    if l == 0.0 {
      assert k * l == 0.0;
    } else if r != 0.0 {
      NonZero(k, l);
      NonZero(l, r);
      Cancel(d, l * r, k);
      assert (k * l) * r == k * (l * r) && r * (k * l) == k * (l * r) && r * l == l * r;
    }
  }

  lemma Cancel(d: real, m: real, k: real)
    requires m != 0.0 && k != 0.0
    ensures k * m != 0.0 && (k * d) / (k * m) == d / m
  {
    NonZero(k, m);
    var c := d / m;
    assert c * m == d;
    assert c * (k * m) == k * d;
  }

  lemma ZeroNormalised(l: real, r: real)
    ensures Normalised(0.0, l, r) == 0.0
  {}

  lemma PositiveNormalised(d: real, l: real, r: real)
    requires l >= 0.0 && r >= 0.0
    ensures Normalised(d, l, r) > 0.0 ==> d > 0.0
  {
    if l != 0.0 && r != 0.0 {
      NonZero(l, r);
      var m, c := l * r, Normalised(d, l, r);
      assert m > 0.0 && c * m == d;
      if c > 0.0 { assert c * m > 0.0; }
    }
  }

  lemma DenseCosineInUnit(a: Dense, b: Dense, root: Root)
    requires RootAt(root, DenseDot(a, a)) && RootAt(root, DenseDot(b, b))
    ensures -1.0 <= DenseCosine(a, b, root) <= 1.0
  {
    if |a| == |b| { DenseNormalisedInUnit(a, b, DenseMagnitude(a, root), DenseMagnitude(b, root)); }
  }

  lemma DenseNormalisedInUnit(a: Dense, b: Dense, l: real, r: real)
    requires |a| == |b| && l >= 0.0 && r >= 0.0 && l * l == DenseDot(a, a) && r * r == DenseDot(b, b)
    ensures -1.0 <= Normalised(DenseDot(a, b), l, r) <= 1.0
  {
    DenseCauchySchwarz(a, b);
    NormalisedInUnit(DenseDot(a, b), l, r, DenseDot(a, a), DenseDot(b, b));
  }

  // ---------------------------------------------------------------- sparse refines dense

  /** The coordinates of a sparse vector along an ordering of features. */
  function Densify(order: seq<Feature>, e: Embedding): (v: Dense)
    ensures |v| == |order|
    ensures forall i :: 0 <= i < |order| ==> v[i] == At(e, order[i])
  {
    seq(|order|, i requires 0 <= i < |order| => At(e, order[i]))
  }

  ghost predicate Covers(order: seq<Feature>, e: Embedding) {
    Distinct(order) && forall f :: f in e ==> f in order
  }

  function SeqSum(order: seq<Feature>, g: Feature -> real): real {
    if order == [] then 0.0 else g(order[0]) + SeqSum(order[1..], g)
  }

  lemma {:induction false} SeqSumIsSum(order: seq<Feature>, g: Feature -> real)
    requires Distinct(order)
    ensures SeqSum(order, g) == Sum((set f | f in order), g)
  {
    if order != [] {
      SeqSumIsSum(order[1..], g);
      FirstOfSet(order);
      SumSplit((set f | f in order), order[0], g);
    }
  }

  lemma {:induction false} DensifyDot(order: seq<Feature>, a: Embedding, b: Embedding)
    ensures DenseDot(Densify(order, a), Densify(order, b)) == SeqSum(order, Products(a, b))
  {
    if order != [] {
      DensifyDot(order[1..], a, b);
      assert Densify(order, a)[1..] == Densify(order[1..], a);
      assert Densify(order, b)[1..] == Densify(order[1..], b);
    }
  }

  lemma FirstOfSet(order: seq<Feature>)
    requires Distinct(order) && order != []
    ensures (set f | f in order) - {order[0]} == set f | f in order[1..]
  {
    assert order == [order[0]] + order[1..];
  }

  /** Naming coordinates is a homomorphism: it commutes with `plus` and keeps dot product, norm and cosine. */
  lemma Homomorphism(order: seq<Feature>, a: Embedding, b: Embedding, scale: real, root: Root)
    requires Covers(order, a) && Covers(order, b)
    ensures DensePlus(Densify(order, a), Densify(order, b), scale) == Some(Densify(order, Plus(a, b, scale)))
    ensures DenseDot(Densify(order, a), Densify(order, b)) == Dot(a.Keys * b.Keys, a, b)
    ensures DenseMagnitude(Densify(order, a), root) == Magnitude(a, root)
    ensures RootAt(root, NormSquared(a)) && RootAt(root, NormSquared(b)) ==>
      DenseCosine(Densify(order, a), Densify(order, b), root) == Cosine(a, b, root)
  {
    DensifyDots(order, a, b);
    DensifyDots(order, a, a);
    DensifyDots(order, b, b);
    DensifyPlus(order, a, b, scale);
    if RootAt(root, NormSquared(a)) && RootAt(root, NormSquared(b)) { DensifyCosine(order, a, b, root); }
  }

  lemma DensifyDots(order: seq<Feature>, a: Embedding, b: Embedding)
    requires Covers(order, a) && Covers(order, b)
    ensures DenseDot(Densify(order, a), Densify(order, b)) == Dot(a.Keys * b.Keys, a, b)
    ensures DenseDot(Densify(order, a), Densify(order, a)) == NormSquared(a)
  {
    var s := set f | f in order;
    DensifyDot(order, a, b);
    DensifyDot(order, a, a);
    SeqSumIsSum(order, Products(a, b));
    SeqSumIsSum(order, Products(a, a));
    forall f | f in a ensures f in s {}
    forall f | f in b ensures f in s {}
    DotCover(s, a, b);
    SumCover(s, a.Keys, Products(a, a));
  }

  lemma DensifyPlus(order: seq<Feature>, a: Embedding, b: Embedding, scale: real)
    ensures DensePlus(Densify(order, a), Densify(order, b), scale) == Some(Densify(order, Plus(a, b, scale)))
  {
    var x, y := Densify(order, a), Densify(order, b);
    var sum, image := DensePlus(x, y, scale).value, Densify(order, Plus(a, b, scale));
    assert |sum| == |order| == |image|;
    forall i | 0 <= i < |order| ensures sum[i] == image[i] {
      assert sum[i] == At(a, order[i]) + Share(b, scale, order[i]);
    }
    assert sum == image;
  }

  lemma DensifyCosine(order: seq<Feature>, a: Embedding, b: Embedding, root: Root)
    requires Covers(order, a) && Covers(order, b)
    requires DenseDot(Densify(order, a), Densify(order, b)) == Dot(a.Keys * b.Keys, a, b)
    requires DenseDot(Densify(order, a), Densify(order, a)) == NormSquared(a)
    requires DenseDot(Densify(order, b), Densify(order, b)) == NormSquared(b)
    requires RootAt(root, NormSquared(a)) && RootAt(root, NormSquared(b))
    ensures DenseCosine(Densify(order, a), Densify(order, b), root) == Cosine(a, b, root)
  {
    var x, y := Densify(order, a), Densify(order, b);
    assert DenseMagnitude(x, root) == Magnitude(a, root) && DenseMagnitude(y, root) == Magnitude(b, root);
    if a.Keys * b.Keys == {} {
      assert Dot(a.Keys * b.Keys, a, b) == 0.0;
      ZeroNormalised(Magnitude(a, root), Magnitude(b, root));
    }
    if order == [] {
      assert a.Keys == {} by { forall f ensures f in a.Keys <==> f in {} {} }
      assert a.Keys * b.Keys == {};
    }
  }

  /** Any two vectors have an ordering that covers both, so the sparse laws follow from the dense ones. */
  function CommonOrder(a: Embedding, b: Embedding): (order: seq<Feature>)
    ensures Covers(order, a) && Covers(order, b)
  {
    Listing(a.Keys + b.Keys)
  }

  lemma CosineInUnit(a: Embedding, b: Embedding, root: Root)
    requires RootAt(root, NormSquared(a)) && RootAt(root, NormSquared(b))
    ensures -1.0 <= Cosine(a, b, root) <= 1.0
  {
    var order := CommonOrder(a, b);
    Homomorphism(order, a, b, 1.0, root);
    DensifyDots(order, a, b);
    DensifyDots(order, b, a);
    DenseCosineInUnit(Densify(order, a), Densify(order, b), root);
  }

  /** A vector has magnitude zero exactly when it is empty. */
  lemma {:induction false} ZeroNorm(e: Embedding)
    ensures NormSquared(e) >= 0.0
    ensures NormSquared(e) == 0.0 <==> e == EMPTY
  {
    var order := Listing(e.Keys);
    DensifyDots(order, e, e);
    var v := Densify(order, e);
    DenseDotZero(v, v);
    if e != EMPTY {
      var f := Member(e.Keys);
      var i :| 0 <= i < |order| && order[i] == f;
      assert v[i] == e[f] != 0.0;
    }
  }

  // ---------------------------------------------------------------- scaling

  /** `k * e`, written with the accumulation the service uses. */
  function Scaled(e: Embedding, k: real): Embedding {
    Plus(EMPTY, e, k)
  }

  lemma ScaledAt(a: Embedding, k: real, f: Feature)
    ensures At(Scaled(a, k), f) == Times(k, At(a, f))
  {
    assert At(Scaled(a, k), f) == 0.0 + Share(a, k, f);
  }

  lemma ScaledDot(s: set<Feature>, a: Embedding, b: Embedding, k: real)
    ensures Dot(s, Scaled(a, k), b) == Times(k, Dot(s, a, b))
  {
    forall f ensures Products(Scaled(a, k), b)(f) == Times(k, Products(a, b)(f)) {
      ScaledAt(a, k, f);
      Reassociate(k, At(a, f), At(b, f), At(Scaled(a, k), f));
    }
    SumScaled(s, Products(a, b), Products(Scaled(a, k), b), k);
  }

  lemma {:induction false} SumSame(s: set<Feature>, g: Feature -> real, h: Feature -> real)
    requires forall f :: g(f) == h(f)
    ensures Sum(s, g) == Sum(s, h)
    decreases |s|
  {
    if s != {} { SumSame(s - {Least(s)}, g, h); }
  }

  lemma DotSymmetric(s: set<Feature>, a: Embedding, b: Embedding)
    ensures Dot(s, a, b) == Dot(s, b, a)
  {
    SumSame(s, Products(a, b), Products(b, a));
  }

  lemma Reassociate(k: real, x: real, y: real, kx: real)
    requires kx == Times(k, x)
    ensures kx * y == Times(k, x * y)
  {}

  lemma ScaledKeys(a: Embedding, k: real)
    requires k != 0.0
    ensures Scaled(a, k).Keys == a.Keys
  {
    forall f ensures f in Scaled(a, k).Keys <==> f in a.Keys {
      ScaledAt(a, k, f);
      if f in a { NonZero(k, a[f]); }
    }
  }

  /** Two non-negative roots of the same number are equal, so the witness is the square root. */
  lemma RootUnique(x: real, y: real)
    requires x >= 0.0 && y >= 0.0 && x * x == y * y
    ensures x == y
  {
    assert (x - y) * (x + y) == 0.0;
    if x != y { NonZero(x - y, x + y); }
  }

  lemma ScaledNorm(a: Embedding, k: real)
    requires k != 0.0
    ensures NormSquared(Scaled(a, k)) == Times(k, Times(k, NormSquared(a)))
  {
    ScaledKeys(a, k);
    var s, v := a.Keys, Scaled(a, k);
    ScaledDot(s, a, v, k);
    DotSymmetric(s, a, v);
    ScaledDot(s, a, a, k);
    assert v.Keys == s;
  }

  lemma ScaledMagnitude(a: Embedding, k: real, root: Root)
    requires k > 0.0
    requires RootAt(root, NormSquared(a)) && RootAt(root, NormSquared(Scaled(a, k)))
    ensures Magnitude(Scaled(a, k), root) == Times(k, Magnitude(a, root))
  {
    ScaledKeys(a, k);
    ScaledNorm(a, k);
    RootsScaled(root, k, NormSquared(a), NormSquared(Scaled(a, k)));
  }

  lemma RootsScaled(root: Root, k: real, s: real, u: real)
    requires RootAt(root, s) && RootAt(root, u) && k > 0.0 && u == Times(k, Times(k, s))
    ensures root(u) == Times(k, root(s))
  {
    RootScaled(root(s), root(u), k, s, u);
  }

  lemma RootScaled(m: real, n: real, k: real, s: real, u: real)
    requires m >= 0.0 && n >= 0.0 && k > 0.0 && m * m == s && n * n == u && u == Times(k, Times(k, s))
    ensures n == Times(k, m)
  {
    SquareOfProduct(k, m);
    RootUnique(n, k * m);
  }

  /** A profile learned from more games is longer, and no more or less similar to anything for it. */
  lemma CosineScaled(a: Embedding, b: Embedding, k: real, root: Root)
    requires k > 0.0
    requires RootAt(root, NormSquared(a)) && RootAt(root, NormSquared(Scaled(a, k)))
    ensures Cosine(Scaled(a, k), b, root) == Cosine(a, b, root)
  {
    ScaledKeys(a, k);
    ScaledMagnitude(a, k, root);
    var s := a.Keys * b.Keys;
    ScaledDot(s, a, b, k);
    assert Scaled(a, k).Keys * b.Keys == s;
    NormalisedScaled(Dot(s, a, b), Magnitude(a, root), Magnitude(b, root), k);
  }

  lemma CosineSymmetric(a: Embedding, b: Embedding, root: Root)
    ensures Cosine(a, b, root) == Cosine(b, a, root)
  {
    assert a.Keys * b.Keys == b.Keys * a.Keys;
    DotSymmetric(a.Keys * b.Keys, a, b);
    NormalisedSymmetric(Dot(a.Keys * b.Keys, a, b), Magnitude(a, root), Magnitude(b, root));
  }

  lemma NormalisedSymmetric(d: real, l: real, r: real)
    ensures Normalised(d, l, r) == Normalised(d, r, l)
  {
    assert l * r == r * l;
  }

  /** The dense cosine has the same invariance. */
  lemma DenseCosineScaled(a: Dense, b: Dense, k: real, root: Root)
    requires k > 0.0
    requires var v := DensePlus([], a, k).value; RootAt(root, DenseDot(a, a)) && RootAt(root, DenseDot(v, v))
    ensures DenseCosine(DensePlus([], a, k).value, b, root) == DenseCosine(a, b, root)
    ensures DenseCosine(b, DensePlus([], a, k).value, root) == DenseCosine(b, a, root)
  {
    var v := DensePlus([], a, k).value;
    if |a| == |b| && a != [] {
      forall i | 0 <= i < |a| ensures v[i] == Times(k, a[i]) { assert v[i] == 0.0 + Times(k, a[i]); }
      DenseScaled(a, v, b, k);
      DenseScaled(a, v, v, k);
      DenseScaled(a, v, a, k);
      var l, n, r := DenseMagnitude(a, root), DenseMagnitude(v, root), DenseMagnitude(b, root);
      RootScaled(l, n, k, DenseDot(a, a), DenseDot(v, v));
      NormalisedScaled(DenseDot(a, b), l, r, k);
      NormalisedScaled(DenseDot(b, a), l, r, k);
    }
  }

  lemma {:induction false} DenseScaled(a: Dense, v: Dense, b: Dense, k: real)
    requires |a| == |v| == |b| && forall i :: 0 <= i < |a| ==> v[i] == Times(k, a[i])
    ensures DenseDot(v, b) == Times(k, DenseDot(a, b))
    ensures DenseDot(b, v) == Times(k, DenseDot(b, a))
  {
    if a != [] {
      DenseScaled(a[1..], v[1..], b[1..], k);
      Reassociate(k, a[0], b[0], v[0]);
      assert b[0] * v[0] == v[0] * b[0] && b[0] * a[0] == a[0] * b[0];
      Distribute(a[0] * b[0], DenseDot(a[1..], b[1..]), k);
      Distribute(b[0] * a[0], DenseDot(b[1..], a[1..]), k);
    }
  }

  // ---------------------------------------------------------------- overlap

  function OverlapKey(e: Embedding): Feature -> Key {
    f => Key(At(e, f), 0, f)
  }

  /** The features both vectors weigh positively, strongest in `a` first. */
  function Overlap(a: Embedding, b: Embedding): (r: seq<Feature>)
    ensures forall f :: f in r <==> At(a, f) > 0.0 && At(b, f) > 0.0
    ensures forall i, j :: 0 <= i < j < |r| ==>
      At(a, r[i]) > At(a, r[j]) || (At(a, r[i]) == At(a, r[j]) && r[i] <= r[j])
  {
    var shared := set f | f in a.Keys * b.Keys && a[f] > 0.0 && b[f] > 0.0;
    var key := OverlapKey(a);
    var r := Sort(Listing(shared), key);
    assert forall i, j :: 0 <= i < j < |r| ==> !Before(key(r[j]), key(r[i]));
    r
  }

  /** A positive cosine needs a positive product, hence a shared feature weighed alike by both. */
  lemma {:induction false} PositiveTerm(s: set<Feature>, a: Embedding, b: Embedding) returns (f: Feature)
    requires Dot(s, a, b) > 0.0
    ensures f in s && At(a, f) * At(b, f) > 0.0
    decreases |s|
  {
    f := Least(s);
    if Products(a, b)(f) <= 0.0 {
      f := PositiveTerm(s - {f}, a, b);
    }
  }

  /** Scaling by a positive factor keeps the shared features and their order. */
  lemma OverlapScaled(a: Embedding, b: Embedding, k: real)
    requires k > 0.0
    ensures Overlap(Scaled(a, k), b) == Overlap(a, b)
  {
    ScaledKeys(a, k);
    var v := Scaled(a, k);
    forall f | f in a.Keys * b.Keys ensures v[f] > 0.0 <==> a[f] > 0.0 {
      ScaledAt(a, k, f);
      SignKept(a[f], k);
    }
    var shared := set f | f in a.Keys * b.Keys && a[f] > 0.0 && b[f] > 0.0;
    assert shared == set f | f in v.Keys * b.Keys && v[f] > 0.0 && b[f] > 0.0;
    var r := Sort(Listing(shared), OverlapKey(v));
    forall i, j | 0 <= i < j < |r| ensures !Before(OverlapKey(a)(r[j]), OverlapKey(a)(r[i])) {
      assert !Before(OverlapKey(v)(r[j]), OverlapKey(v)(r[i]));
      ScaledAt(a, k, r[i]);
      ScaledAt(a, k, r[j]);
      OrderKept(At(a, r[i]), At(a, r[j]), k);
    }
    SortedUnique(r, Sort(Listing(shared), OverlapKey(a)), OverlapKey(a));
  }

  lemma SignKept(x: real, k: real)
    requires k > 0.0
    ensures Times(k, x) > 0.0 <==> x > 0.0
  {}

  lemma OrderKept(x: real, y: real, k: real)
    requires k > 0.0
    ensures Times(k, x) > Times(k, y) <==> x > y
    ensures Times(k, x) == Times(k, y) <==> x == y
  {}

  // ---------------------------------------------------------------- sums of many vectors

  /** One accumulated term: `scale * vector`. */
  datatype Term = Term(vector: Embedding, scale: real)

  /** Accumulating terms one after another, as a profile does. */
  function Fold(terms: seq<Term>): Embedding {
    if terms == [] then EMPTY else
    Plus(Fold(terms[..|terms| - 1]), terms[|terms| - 1].vector, terms[|terms| - 1].scale)
  }

  function Contribution(term: Term, f: Feature): real {
    Share(term.vector, term.scale, f)
  }

  function WeightedSum(terms: seq<Term>, f: Feature): real {
    if terms == [] then 0.0 else
    WeightedSum(terms[..|terms| - 1], f) + Contribution(terms[|terms| - 1], f)
  }

  /** The accumulated vector is the weighted sum of its terms, feature by feature. */
  lemma {:induction false} FoldIsWeightedSum(terms: seq<Term>, f: Feature)
    ensures At(Fold(terms), f) == WeightedSum(terms, f)
  {
    if terms != [] { FoldIsWeightedSum(terms[..|terms| - 1], f); }
  }

  lemma {:induction false} WeightedSumRemove(terms: seq<Term>, i: nat, f: Feature)
    requires i < |terms|
    ensures WeightedSum(terms, f)
         == WeightedSum(terms[..i] + terms[i + 1..], f) + Contribution(terms[i], f)
  {
    var last := |terms| - 1;
    var front := terms[..last];
    if i == last {
      assert terms[..i] + terms[i + 1..] == front;
    } else {
      WeightedSumRemove(front, i, f);
      var without := terms[..i] + terms[i + 1..];
      assert without[..|without| - 1] == front[..i] + front[i + 1..];
      assert without[|without| - 1] == terms[last];
    }
  }

  lemma {:induction false} WeightedSumPermuted(xs: seq<Term>, ys: seq<Term>, f: Feature)
    requires multiset(xs) == multiset(ys)
    ensures WeightedSum(xs, f) == WeightedSum(ys, f)
    decreases |xs|
  {
    SameSize(xs, ys);
    if xs != [] {
      var i := RestPermuted(xs, ys);
      WeightedSumPermuted(xs[..|xs| - 1], ys[..i] + ys[i + 1..], f);
      WeightedSumRemove(ys, i, f);
    }
  }

  /** The last term of one order is somewhere in the other, and the rest of the two are permuted again. */
  lemma RestPermuted(xs: seq<Term>, ys: seq<Term>) returns (i: nat)
    requires xs != [] && multiset(xs) == multiset(ys)
    ensures i < |ys| && ys[i] == xs[|xs| - 1]
    ensures multiset(xs[..|xs| - 1]) == multiset(ys[..i] + ys[i + 1..])
  {
    var x := xs[|xs| - 1];
    assert x in multiset(ys);
    i :| 0 <= i < |ys| && ys[i] == x;
    assert ys == ys[..i] + [x] + ys[i + 1..];
    assert xs == xs[..|xs| - 1] + [x];
    assert multiset(ys[..i] + ys[i + 1..]) == multiset(ys) - multiset{x} == multiset(xs[..|xs| - 1]);
  }

  /** Accumulation is independent of order: the same terms give the same vector, not just an equal sum. */
  lemma FoldPermuted(xs: seq<Term>, ys: seq<Term>)
    requires multiset(xs) == multiset(ys)
    ensures Fold(xs) == Fold(ys)
  {
    forall f ensures At(Fold(xs), f) == At(Fold(ys), f) {
      FoldIsWeightedSum(xs, f);
      FoldIsWeightedSum(ys, f);
      WeightedSumPermuted(xs, ys, f);
    }
    SamePoints(Fold(xs), Fold(ys));
  }
}
