/** Divisibility and the greatest common divisor used by the ISN analysis
    (Python's `math.gcd` and `functools.reduce(math.gcd, ...)`). */
module Divisibility {

  /** `d` divides `n`; zero divides only zero. */
  predicate Divides(d: nat, n: int)
  {
    if d == 0 then n == 0 else n % d == 0
  }

  function Abs(x: int): nat
  {
    if x < 0 then -x else x
  }

  lemma MultipleIsDivisible(d: nat, k: int)
    ensures Divides(d, d * k)
  {
    if d > 0 {
      var q, r := (d * k) / d, (d * k) % d;
      assert d * k == d * q + r && 0 <= r < d;
      assert d * (k - q) == r;
      assert k - q >= 1 ==> d * (k - q) >= d;
      assert k - q <= -1 ==> d * (k - q) + d <= 0;
    }
  }

  lemma DivisibleIsMultiple(d: nat, n: int)
    requires Divides(d, n)
    ensures n == d * (if d == 0 then 0 else n / d)
  {
  }

  /** A common divisor of `x` and `y` divides every `x * m + y`. */
  lemma DividesLinear(d: nat, x: int, y: int, m: int)
    requires Divides(d, x) && Divides(d, y)
    ensures Divides(d, x * m + y)
  {
    if d > 0 {
      DivisibleIsMultiple(d, x);
      DivisibleIsMultiple(d, y);
      var kx, ky := x / d, y / d;
      assert x * m + y == d * (kx * m + ky) by {
        calc {
          x * m + y;
          (d * kx) * m + d * ky;
          { assert (d * kx) * m == d * (kx * m); }
          d * (kx * m) + d * ky;
          d * (kx * m + ky);
        }
      }
      MultipleIsDivisible(d, kx * m + ky);
    }
  }

  lemma DividesAbs(d: nat, n: int)
    ensures Divides(d, Abs(n)) <==> Divides(d, n)
  {
    if d > 0 && n < 0 {
      if Divides(d, n) {
        DivisibleIsMultiple(d, n);
        assert -n == d * -(n / d);
        MultipleIsDivisible(d, -(n / d));
      }
      if Divides(d, -n) {
        DivisibleIsMultiple(d, -n);
        assert n == d * -((-n) / d);
        MultipleIsDivisible(d, -((-n) / d));
      }
    }
  }

  lemma DividesSelf(n: nat)
    ensures Divides(n, n)
  {
    MultipleIsDivisible(n, 1);
  }

  /** Divisibility between naturals is antisymmetric. */
  lemma DividesAntisymmetric(a: nat, b: nat)
    requires Divides(a, b) && Divides(b, a)
    ensures a == b
  {
    if a != 0 && b != 0 {
      DivisibleIsMultiple(a, b);
      DivisibleIsMultiple(b, a);
      var k, m := b / a, a / b;
      assert k <= 0 ==> a * k <= 0;
      assert m <= 0 ==> b * m <= 0;
      assert b == a + a * (k - 1) && a * (k - 1) >= 0;
      assert a == b + b * (m - 1) && b * (m - 1) >= 0;
    }
  }

  /** Euclid's algorithm on naturals. */
  function Gcd(a: nat, b: nat): nat
    decreases b
  {
    if b == 0 then a else Gcd(b, a % b)
  }

  /** `Gcd(a, b)` is a common divisor of `a` and `b`, and every common
      divisor divides it: it is the greatest common divisor. */
  lemma {:induction false} GcdIsGreatestCommonDivisor(a: nat, b: nat)
    ensures Divides(Gcd(a, b), a) && Divides(Gcd(a, b), b)
    ensures forall d: nat :: Divides(d, a) && Divides(d, b) ==> Divides(d, Gcd(a, b))
    decreases b
  {
    if b == 0 {
      DividesSelf(a);
    } else {
      var g := Gcd(b, a % b);
      GcdIsGreatestCommonDivisor(b, a % b);
      assert a == b * (a / b) + a % b;
      DividesLinear(g, b, a % b, a / b);
      forall d: nat | Divides(d, a) && Divides(d, b)
        ensures Divides(d, g)
      {
        assert a % b == b * -(a / b) + a;
        DividesLinear(d, b, a, -(a / b));
      }
    }
  }

  /** Python's `math.gcd(a, b)`: the gcd of the absolute values. */
  function PyGcd(a: int, b: int): (g: nat)
    ensures Divides(g, a) && Divides(g, b)
    ensures forall d: nat :: Divides(d, a) && Divides(d, b) ==> Divides(d, g)
  {
    GcdIsGreatestCommonDivisor(Abs(a), Abs(b));
    DividesAbs(Gcd(Abs(a), Abs(b)), a);
    DividesAbs(Gcd(Abs(a), Abs(b)), b);
    forall d: nat | Divides(d, a) && Divides(d, b)
      ensures Divides(d, Gcd(Abs(a), Abs(b)))
    {
      DividesAbs(d, a);
      DividesAbs(d, b);
    }
    Gcd(Abs(a), Abs(b))
  }

  /** `functools.reduce(math.gcd, s)`: a left fold seeded with the first
      element; an empty `s` makes `reduce` raise, hence the requires. */
  function FoldGcd(s: seq<int>): int
    requires |s| > 0
  {
    if |s| == 1 then s[0] else PyGcd(FoldGcd(s[..|s| - 1]), s[|s| - 1])
  }

  lemma FoldGcdAppend(s: seq<int>, x: int)
    requires |s| > 0
    ensures FoldGcd(s + [x]) == PyGcd(FoldGcd(s), x)
  {
    assert (s + [x])[..|s|] == s;
  }

  /** The common divisors of all elements of `s` are exactly the divisors
      of the folded gcd. */
  lemma {:induction false} FoldGcdDivisors(s: seq<int>, d: nat)
    requires |s| > 0
    ensures Divides(d, FoldGcd(s)) <==> forall i :: 0 <= i < |s| ==> Divides(d, s[i])
  {
    if |s| > 1 {
      var init := s[..|s| - 1];
      FoldGcdDivisors(init, d);
      var g := FoldGcd(init);
      assert FoldGcd(s) == PyGcd(g, s[|s| - 1]);
      if Divides(d, FoldGcd(s)) {
        // d divides the gcd, which divides both g and the last element
        var h := PyGcd(g, s[|s| - 1]);
        DividesTransitive(d, h, g);
        DividesTransitive(d, h, s[|s| - 1]);
        forall i | 0 <= i < |s| ensures Divides(d, s[i]) {
          if i < |s| - 1 { assert s[i] == init[i]; }
        }
      } else {
        assert !(Divides(d, g) && Divides(d, s[|s| - 1]));
        if !Divides(d, g) {
          var j :| 0 <= j < |init| && !Divides(d, init[j]);
          assert s[j] == init[j];
        }
      }
    }
  }

  lemma DividesTransitive(a: nat, b: nat, c: int)
    requires Divides(a, b) && Divides(b, c)
    ensures Divides(a, c)
  {
    DivisibleIsMultiple(b, c);
    if b == 0 {
      assert c == 0;
      MultipleIsDivisible(a, 0);
    } else {
      DividesLinear(a, b, 0, c / b);
      assert b * (c / b) + 0 == c;
    }
  }

  /** The folded gcd does not depend on the order of the elements. */
  lemma FoldGcdPermutation(s: seq<int>, t: seq<int>)
    requires |s| > 0 && multiset(s) == multiset(t)
    ensures |t| == |s| && FoldGcd(s) == FoldGcd(t)
  {
    assert |t| == |multiset(t)| == |s|;
    if |s| == 1 {
      assert s[0] in multiset(t);
      assert t == [t[0]] && s == [s[0]];
    } else {
      var gs, gt := FoldGcd(s), FoldGcd(t);
      assert gs >= 0 && gt >= 0;
      forall d: nat ensures Divides(d, gs) <==> Divides(d, gt) {
        FoldGcdDivisors(s, d);
        FoldGcdDivisors(t, d);
        forall i | 0 <= i < |s| ensures exists j :: 0 <= j < |t| && t[j] == s[i] {
          assert s[i] in multiset(t);
        }
        forall j | 0 <= j < |t| ensures exists i :: 0 <= i < |s| && s[i] == t[j] {
          assert t[j] in multiset(s);
        }
      }
      DividesSelf(gs);
      DividesSelf(gt);
      DividesAntisymmetric(gs, gt);
    }
  }
}
