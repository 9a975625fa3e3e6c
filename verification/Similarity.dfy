/** What the similarity is: the dot product as an inner product, and what that makes of
    searching a store of unit vectors for one of its own. */
module Similarity {
  import opened VectorCore

  // --- vectors ------------------------------------------------------------------------------------

  function Plus(a: Vector, b: Vector): Vector
    requires |a| == |b|
  {
    seq(|a|, i requires 0 <= i < |a| => a[i] + b[i])
  }

  function Scaled(k: real, a: Vector): Vector {
    seq(|a|, i requires 0 <= i < |a| => k * a[i])
  }

  /** The i-th of n axes. */
  function Axis(n: nat, i: nat): Vector {
    seq(n, j => if j == i then 1.0 else 0.0)
  }

  // --- an inner product ------------------------------------------------------------------------------

  lemma {:induction false} DotSymmetric(a: Vector, b: Vector)
    ensures Dot(a, b) == Dot(b, a)
  {
    if a != [] && b != [] {
      DotSymmetric(a[1..], b[1..]);
    }
  }

  lemma {:induction false} DotAdds(a: Vector, b: Vector, c: Vector)
    requires |a| == |b|
    ensures Dot(Plus(a, b), c) == Dot(a, c) + Dot(b, c)
  {
    if a != [] && c != [] {
      assert Plus(a, b)[1..] == Plus(a[1..], b[1..]);
      DotAdds(a[1..], b[1..], c[1..]);
    }
  }

  lemma ScaledRest(k: real, a: Vector)
    requires a != []
    ensures Scaled(k, a)[0] == k * a[0] && Scaled(k, a)[1..] == Scaled(k, a[1..])
  {
    forall i | 0 <= i < |a| - 1 ensures Scaled(k, a)[1..][i] == Scaled(k, a[1..])[i] {
      assert a[1..][i] == a[i + 1];
    }
  }

  lemma Distributes(k: real, x: real, y: real, rest: real)
    ensures k * x * y + k * rest == k * (x * y + rest)
  {
  }

  lemma {:induction false} DotScales(k: real, a: Vector, b: Vector)
    ensures Dot(Scaled(k, a), b) == k * Dot(a, b)
  {
    if a != [] && b != [] {
      ScaledRest(k, a);
      DotScales(k, a[1..], b[1..]);
      Distributes(k, a[0], b[0], Dot(a[1..], b[1..]));
    }
  }

  lemma {:induction false} DotZero(a: Vector, b: Vector)
    requires forall i | 0 <= i < |b| :: b[i] == 0.0
    ensures Dot(a, b) == 0.0
  {
    if a != [] && b != [] {
      DotZero(a[1..], b[1..]);
    }
  }

  /** Along an axis the product reads off the component. */
  lemma {:induction false} DotAxis(v: Vector, n: nat, i: nat)
    requires i < |v| && i < n
    ensures Dot(v, Axis(n, i)) == v[i]
  {
    var rest := Axis(n, i)[1..];
    if i == 0 {
      DotZero(v[1..], rest);
    } else {
      assert rest == Axis(n - 1, i - 1);
      DotAxis(v[1..], n - 1, i - 1);
    }
  }

  /** The dot product is the sum of the products of the components, by its laws alone:
      symmetric, linear, and 1 or 0 on axes. */
  lemma DotIsInner(a: Vector, b: Vector, c: Vector, k: real, i: nat)
    requires |a| == |b| && i < |a|
    ensures Dot(a, c) == Dot(c, a) && Dot(Plus(a, b), c) == Dot(a, c) + Dot(b, c)
    ensures Dot(c, Plus(a, b)) == Dot(c, a) + Dot(c, b)
    ensures Dot(Scaled(k, a), c) == k * Dot(a, c) == Dot(a, Scaled(k, c))
    ensures Dot(a, Axis(|a|, i)) == a[i]
  {
    hide *;
    PlusLength(a, b);
    DotSymmetric(a, c);
    DotSymmetric(b, c);
    DotSymmetric(c, Plus(a, b));
    DotSymmetric(Scaled(k, c), a);
    DotAdds(a, b, c);
    DotScales(k, a, c);
    DotScales(k, c, a);
    DotAxis(a, |a|, i);
  }

  lemma PlusLength(a: Vector, b: Vector)
    requires |a| == |b|
    ensures |Plus(a, b)| == |a|
  {
  }

  /** A vector's product with itself is never negative, and zero only for zero. */
  lemma DotPositive(v: Vector)
    ensures Dot(v, v) >= 0.0
    ensures Dot(v, v) == 0.0 <==> forall i | 0 <= i < |v| :: v[i] == 0.0
  {
    if i :| 0 <= i < |v| && v[i] != 0.0 {
      DotNonzero(v, i);
    } else {
      DotZero(v, v);
    }
  }

  lemma {:induction false} DotNonzero(v: Vector, i: nat)
    requires i < |v| && v[i] != 0.0
    ensures Dot(v, v) > 0.0
    decreases |v|
  {
    var rest := v[1..];
    if j :| 0 <= j < |rest| && rest[j] != 0.0 {
      DotNonzero(rest, j);
    } else {
      DotZero(rest, rest);
      assert forall j | 0 < j < |v| :: v[j] == rest[j - 1];
    }
    AddsUp(v[0], Dot(rest, rest));
  }

  lemma AddsUp(x: real, r: real)
    requires r >= 0.0 && (x != 0.0 || r > 0.0)
    ensures x * x + r > 0.0
  {
    var q := Times(x, x);
    assert q == x * x && q + r > 0.0;
  }

  /** The product of two numbers of one sign. */
  function Times(x: real, y: real): (r: real)
    ensures (x > 0.0 && y > 0.0) || (x < 0.0 && y < 0.0) ==> r > 0.0
    ensures x == 0.0 || y == 0.0 ==> r == 0.0
  {
    if x < 0.0 && y < 0.0 then
      assert x * y == (-x) * (-y);
      Positive(-x, -y);
      x * y
    else if x > 0.0 && y > 0.0 then
      Positive(x, y);
      x * y
    else
      x * y
  }

  lemma Positive(x: real, y: real)
    requires x > 0.0 && y > 0.0
    ensures x * y > 0.0
  {
  }

  // --- Cauchy and Schwarz -----------------------------------------------------------------------------

  /** A product by name, so that only what is said of it is used. */
  function Mul(x: real, y: real): real {
    x * y
  }

  /** The square of k a + l b, from the products of a and b. */
  function Form(aa: real, bb: real, ab: real, k: real, l: real): real {
    k * (k * aa) + 2.0 * (k * (l * ab)) + l * (l * bb)
  }

  lemma DotCombined(k: real, a: Vector, l: real, b: Vector)
    requires |a| == |b|
    ensures |Scaled(k, a)| == |Scaled(l, b)|
    ensures var w := Plus(Scaled(k, a), Scaled(l, b)); Dot(w, w) == Form(Dot(a, a), Dot(b, b), Dot(a, b), k, l)
  {
    var x, y := Scaled(k, a), Scaled(l, b);
    var w := Plus(x, y);
    assert Dot(w, w) == Dot(x, x) + 2.0 * Dot(x, y) + Dot(y, y) by {
      DotAdds(x, y, w);
      DotSymmetric(x, w);
      DotSymmetric(y, w);
      DotAdds(x, y, x);
      DotAdds(x, y, y);
      DotSymmetric(x, y);
    }
    DotBothScaled(k, a, k, a);
    DotBothScaled(k, a, l, b);
    DotBothScaled(l, b, l, b);
  }

  lemma DotBothScaled(k: real, a: Vector, l: real, b: Vector)
    ensures Dot(Scaled(k, a), Scaled(l, b)) == k * (l * Dot(a, b))
  {
    DotScales(k, a, Scaled(l, b));
    DotSymmetric(a, Scaled(l, b));
    DotScales(l, b, a);
    DotSymmetric(a, b);
  }

  /** A form that is not negative has no larger middle. */
  lemma Discriminant(a: real, b: real, p: real)
    requires b > 0.0 && Form(a, b, p, b, -p) >= 0.0
    ensures Mul(p, p) <= Mul(a, b)
  {
    Factored(a, b, p, -p);
    if Mul(p, p) > Mul(a, b) {
      Negative(b, Mul(a, b) - Mul(p, p));
    }
  }

  lemma Factored(a: real, b: real, p: real, l: real)
    requires l == -p
    ensures Form(a, b, p, b, l) == b * (Mul(a, b) - Mul(p, p))
  {
    var q, r := p * p, a * b;
    assert l * p == -q && l * (l * b) == q * b && b * a == r;
    assert b * r + 2.0 * (b * -q) + q * b == b * (r - q);
  }

  lemma Negative(b: real, x: real)
    requires b > 0.0 && x < 0.0
    ensures b * x < 0.0
  {
  }

  lemma NotNegative(a: Vector, k: real, b: Vector, l: real)
    requires |a| == |b|
    ensures Form(Dot(a, a), Dot(b, b), Dot(a, b), k, l) >= 0.0
  {
    hide *;
    DotCombined(k, a, l, b);
    DotPositive(Plus(Scaled(k, a), Scaled(l, b)));
  }

  lemma CauchySchwarzEven(a: Vector, b: Vector)
    requires |a| == |b|
    ensures Mul(Dot(a, b), Dot(a, b)) <= Mul(Dot(a, a), Dot(b, b))
  {
    hide *;
    DotPositive(b);
    if Dot(b, b) == 0.0 {
      DotZero(a, b);
      MulZero(Dot(a, b), Dot(a, a), Dot(b, b));
    } else {
      NotNegative(a, Dot(b, b), b, -Dot(a, b));
      Discriminant(Dot(a, a), Dot(b, b), Dot(a, b));
    }
  }

  lemma MulZero(p: real, x: real, y: real)
    requires p == 0.0 && y == 0.0
    ensures Mul(p, p) == 0.0 == Mul(x, y)
  {
  }

  /** The product looks at the common length only. */
  lemma {:induction false} DotShortened(a: Vector, b: Vector)
    requires |a| <= |b|
    ensures Dot(a, b) == Dot(a, b[..|a|]) && Dot(b[..|a|], b[..|a|]) <= Dot(b, b)
  {
    if a == [] {
      DotPositive(b);
    } else {
      assert b[..|a|][1..] == b[1..][..|a| - 1];
      DotShortened(a[1..], b[1..]);
    }
  }

  lemma CauchySchwarzShort(a: Vector, b: Vector)
    requires |a| <= |b|
    ensures Mul(Dot(a, b), Dot(a, b)) <= Mul(Dot(a, a), Dot(b, b))
  {
    hide *;
    var c := Shortened(a, b);
    CauchySchwarzEven(a, c);
    Raise(Dot(a, a), Dot(c, c), Dot(b, b));
  }

  lemma Shortened(a: Vector, b: Vector) returns (c: Vector)
    requires |a| <= |b|
    ensures |c| == |a| && Dot(a, b) == Dot(a, c) && Dot(c, c) <= Dot(b, b) && Dot(a, a) >= 0.0
  {
    c := b[..|a|];
    DotShortened(a, b);
    DotPositive(a);
  }

  lemma Raise(x: real, y: real, z: real)
    requires x >= 0.0 && y <= z
    ensures Mul(x, y) <= Mul(x, z)
  {
    Product(x, z - y);
    assert x * z == x * y + x * (z - y);
  }

  lemma Product(x: real, y: real)
    requires x >= 0.0 && y >= 0.0
    ensures x * y >= 0.0
  {
  }

  lemma CauchySchwarzNamed(a: Vector, b: Vector)
    ensures Mul(Dot(a, b), Dot(a, b)) <= Mul(Dot(a, a), Dot(b, b))
  {
    hide *;
    if |a| <= |b| {
      CauchySchwarzShort(a, b);
    } else {
      CauchySchwarzShort(b, a);
      DotSymmetric(a, b);
      MulSymmetric(Dot(a, a), Dot(b, b));
    }
  }

  lemma MulSymmetric(x: real, y: real)
    ensures Mul(x, y) == Mul(y, x)
  {
  }

  /** Whatever the lengths of the two vectors. */
  lemma CauchySchwarz(a: Vector, b: Vector)
    ensures Dot(a, b) * Dot(a, b) <= Dot(a, a) * Dot(b, b)
  {
    hide Dot;
    CauchySchwarzNamed(a, b);
  }

  // --- unit vectors -------------------------------------------------------------------------------------

  predicate IsUnit(v: Vector) {
    Dot(v, v) == 1.0
  }

  /** Unit vectors are no more similar than 1. */
  lemma UnitsBounded(a: Vector, b: Vector)
    requires IsUnit(a) && IsUnit(b)
    ensures -1.0 <= Dot(a, b) <= 1.0
  {
    CauchySchwarzNamed(a, b);
    hide Dot;
    AtMostOne(Dot(a, b));
  }

  lemma AtMostOne(p: real)
    requires Mul(p, p) <= Mul(1.0, 1.0)
    ensures -1.0 <= p <= 1.0
  {
    if p > 1.0 {
      Grows(p);
    } else if p < -1.0 {
      Grows(-p);
    }
  }

  lemma Grows(p: real)
    requires p > 1.0
    ensures p * p > 1.0
  {
  }

  /** And are as similar as 1 only when they are the same. */
  lemma OnlyItself(a: Vector, b: Vector)
    requires IsUnit(a) && IsUnit(b) && |a| == |b|
    ensures Dot(a, b) == 1.0 <==> a == b
  {
    DotCombined(1.0, a, -1.0, b);
    var w := Plus(Scaled(1.0, a), Scaled(-1.0, b));
    DotPositive(w);
    if Dot(a, b) == 1.0 {
      forall i | 0 <= i < |a| ensures a[i] == b[i] {
        assert w[i] == 1.0 * a[i] + -1.0 * b[i];
      }
    }
  }

  ghost predicate AllUnit(items: seq<Item>, n: nat) {
    forall i | 0 <= i < |items| :: IsUnit(items[i].vector) && |items[i].vector| == n
  }

  /** The first hit is one of the items, and the best. */
  lemma FirstIsBest(query: Vector, items: seq<Item>, k: nat)
    requires items != [] && k >= 1
    ensures Exact(query, items, k) != []
    ensures exists i ::
              0 <= i < |items| && Exact(query, items, k)[0] == Scored(items[i].id, Dot(query, items[i].vector))
    ensures forall i | 0 <= i < |items| :: Dot(query, items[i].vector) <= Exact(query, items, k)[0].sim
  {
    var hits, rest := Exact(query, items, k), CutOff(query, items, k);
    ExactIsBest(query, items, k);
    hide Exact, CutOff, Dot;
    assert hits[0] in multiset(Score(query, items));
    forall i | 0 <= i < |items| ensures Dot(query, items[i].vector) <= hits[0].sim {
      var x := Score(query, items)[i];
      assert x in multiset(hits) + multiset(rest);
      if x in hits {
        var j :| 0 <= j < |hits| && hits[j] == x;
      } else {
        var j :| 0 <= j < |rest| && rest[j] == x;
      }
    }
  }

  /** Searching a store of unit vectors for one of them: the first hit has similarity
      1, and is that item unless another one has the same vector. */
  lemma SelfComesFirst(items: seq<Item>, n: nat, i: nat, k: nat)
    requires AllUnit(items, n) && i < |items| && k >= 1
    ensures var hits := Exact(items[i].vector, items, k);
            && hits != [] && hits[0].sim == 1.0 && (forall j | 0 <= j < |hits| :: hits[j].sim <= 1.0)
            && exists j :: 0 <= j < |items| && items[j].vector == items[i].vector && hits[0].item == items[j].id
  {
    var v := items[i].vector;
    FirstIsBest(v, items, k);
    var hits := Exact(v, items, k);
    var j :| 0 <= j < |items| && hits[0] == Scored(items[j].id, Dot(v, items[j].vector));
    ExactIsBest(v, items, k);
    hide Exact, Dot, Score;
    UnitsBounded(v, items[j].vector);
    OnlyItself(v, items[j].vector);
  }

  /** Items with their own vectors are each their own nearest neighbour. */
  lemma EachFindsItself(items: seq<Item>, n: nat, i: nat, k: nat)
    requires AllUnit(items, n) && i < |items| && k >= 1
    requires forall j | 0 <= j < |items| && j != i :: items[j].vector != items[i].vector
    ensures Exact(items[i].vector, items, k) != [] && Exact(items[i].vector, items, k)[0] == Scored(items[i].id, 1.0)
  {
    hide Exact;
    SelfComesFirst(items, n, i, k);
  }
}
