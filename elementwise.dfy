/**
 * Element arithmetic of the value library, with elements modelled as
 * integers: the left folds behind Accumulate, Dot and Sum, C++ integer
 * division, and the elementwise maps that the compound assignments
 * (`+=`, `-=`, `*=`, `/=`) and the scalar-on-the-left operators apply.
 * The lemmas state the algebra the operators promise.
 */
module Elementwise {

  /** Sum of `xs` folded left to right from zero, in index order. */
  function Sum(xs: seq<int>): int
  {
    if xs == [] then 0 else Sum(xs[..|xs| - 1]) + xs[|xs| - 1]
  }

  /** Sum over i of `xs[i] * ys[i]`, folded left to right from zero. */
  function DotProduct(xs: seq<int>, ys: seq<int>): int
    requires |xs| == |ys|
  {
    if xs == [] then 0
    else DotProduct(xs[..|xs| - 1], ys[..|ys| - 1]) + xs[|xs| - 1] * ys[|ys| - 1]
  }

  /** The pointwise products `xs[i] * ys[i]`. */
  function Products(xs: seq<int>, ys: seq<int>): seq<int>
    requires |xs| == |ys|
  {
    seq(|xs|, i requires 0 <= i < |xs| => xs[i] * ys[i])
  }

  function Abs(x: int): nat
  {
    if x < 0 then -x else x
  }

  /** C++ division on integer operands: the quotient truncated toward zero. */
  function Quotient(a: int, b: int): int
    requires b != 0
  {
    var q := Abs(a) / Abs(b);
    if (a < 0) == (b < 0) then q else -q
  }

  // Compound assignment with a scalar right operand: `v op= s`.

  function AddScalar(xs: seq<int>, c: int): seq<int>
  {
    seq(|xs|, i requires 0 <= i < |xs| => xs[i] + c)
  }

  function SubtractScalar(xs: seq<int>, c: int): seq<int>
  {
    seq(|xs|, i requires 0 <= i < |xs| => xs[i] - c)
  }

  function MultiplyScalar(xs: seq<int>, c: int): seq<int>
  {
    seq(|xs|, i requires 0 <= i < |xs| => xs[i] * c)
  }

  function DivideScalar(xs: seq<int>, c: int): seq<int>
    requires c != 0
  {
    seq(|xs|, i requires 0 <= i < |xs| => Quotient(xs[i], c))
  }

  // Compound assignment with an equally sized right operand: `v1 op= v2`.

  function AddElementwise(xs: seq<int>, ys: seq<int>): seq<int>
    requires |xs| == |ys|
  {
    seq(|xs|, i requires 0 <= i < |xs| => xs[i] + ys[i])
  }

  function SubtractElementwise(xs: seq<int>, ys: seq<int>): seq<int>
    requires |xs| == |ys|
  {
    seq(|xs|, i requires 0 <= i < |xs| => xs[i] - ys[i])
  }

  // The scalar-on-the-left forms that are written out by hand: `s op v`.

  function ScalarSubtract(c: int, xs: seq<int>): seq<int>
  {
    seq(|xs|, i requires 0 <= i < |xs| => c - xs[i])
  }

  predicate NoZero(xs: seq<int>)
  {
    forall i :: 0 <= i < |xs| ==> xs[i] != 0
  }

  function ScalarDivide(c: int, xs: seq<int>): seq<int>
    requires NoZero(xs)
  {
    seq(|xs|, i requires 0 <= i < |xs| => Quotient(c, xs[i]))
  }

  function Negate(xs: seq<int>): seq<int>
  {
    seq(|xs|, i requires 0 <= i < |xs| => -xs[i])
  }

  /** Summing a concatenation sums the parts. */
  lemma {:induction false} SumConcat(xs: seq<int>, ys: seq<int>)
    ensures Sum(xs + ys) == Sum(xs) + Sum(ys)
  {
    if ys != [] {
      var zs := xs + ys;
      assert zs[..|zs| - 1] == xs + ys[..|ys| - 1];
      SumConcat(xs, ys[..|ys| - 1]);
    } else {
      assert xs + ys == xs;
    }
  }

  /** An all-zero sequence sums to the additive identity. */
  lemma {:induction false} SumOfZeros(n: nat)
    ensures Sum(seq(n, i => 0)) == 0
  {
    if n > 0 {
      assert seq(n, i => 0)[..n - 1] == seq(n - 1, i => 0);
      SumOfZeros(n - 1);
    }
  }

  /** The elements 1..n sum to n(n+1)/2; for n = 12 that is 78. */
  lemma {:induction false} SumOfFirstNaturals(n: nat)
    ensures 2 * Sum(seq(n, i => i + 1)) == n * (n + 1)
  {
    if n > 0 {
      assert seq(n, i => i + 1)[..n - 1] == seq(n - 1, i => i + 1);
      SumOfFirstNaturals(n - 1);
    }
  }

  /** The dot product is the sum of the pointwise products. */
  lemma {:induction false} DotProductIsSumOfProducts(xs: seq<int>, ys: seq<int>)
    requires |xs| == |ys|
    ensures DotProduct(xs, ys) == Sum(Products(xs, ys))
  {
    if xs != [] {
      var n := |xs|;
      DotProductIsSumOfProducts(xs[..n - 1], ys[..n - 1]);
      assert Products(xs, ys)[..n - 1] == Products(xs[..n - 1], ys[..n - 1]);
    }
  }

  /** The dot product does not depend on the order of its operands. */
  lemma {:induction false} DotProductSymmetric(xs: seq<int>, ys: seq<int>)
    requires |xs| == |ys|
    ensures DotProduct(xs, ys) == DotProduct(ys, xs)
  {
    if xs != [] {
      DotProductSymmetric(xs[..|xs| - 1], ys[..|ys| - 1]);
    }
  }

  /** Quotient satisfies C++'s rule: `(a / b) * b + a % b == a`, with the
      remainder smaller than the divisor and never of the opposite sign of `a`. */
  lemma QuotientTruncates(a: int, b: int)
    requires b != 0
    ensures var r := a - Quotient(a, b) * b;
      Abs(r) < Abs(b) && (r == 0 || (r < 0) == (a < 0))
  {
    var q := Abs(a) / Abs(b);
    var m := Abs(a) % Abs(b);
    assert Abs(a) == q * Abs(b) + m;
    if a >= 0 && b > 0 {
      assert a - q * b == m;
    } else if a >= 0 && b < 0 {
      assert -q * b == q * Abs(b);
      assert a - (-q) * b == m;
    } else if a < 0 && b > 0 {
      assert (-q) * b == -(q * Abs(b));
      assert a - (-q) * b == -m;
    } else {
      assert q * b == -(q * Abs(b));
      assert a - q * b == -m;
    }
  }

  lemma AbsOfProduct(x: int, c: int)
    ensures Abs(x * c) == Abs(x) * Abs(c)
  {
    if x < 0 && c < 0 {
      assert x * c == (-x) * (-c);
    } else if x < 0 {
      assert x * c == -((-x) * c);
    } else if c < 0 {
      assert x * c == -(x * (-c));
    }
  }

  lemma MultiplyStep(a: int, b: int, m: nat)
    requires a < b
    ensures a * m + m <= b * m
  {
    var d := b - a - 1;
    assert d >= 0;
    assert b * m == a * m + m + d * m;
  }

  lemma DivOfMultiple(n: nat, m: nat)
    requires m > 0
    ensures (n * m) / m == n
  {
    var q := (n * m) / m;
    var r := (n * m) % m;
    assert q * m + r == n * m && 0 <= r < m;
    if q > n {
      MultiplyStep(n, q, m);
    } else if q < n {
      MultiplyStep(q, n, m);
    }
  }

  /** Dividing a multiple of `c` by `c` gives back the other factor exactly. */
  lemma QuotientOfMultiple(x: int, c: int)
    requires c != 0
    ensures Quotient(x * c, c) == x
  {
    AbsOfProduct(x, c);
    DivOfMultiple(Abs(x), Abs(c));
    if x == 0 {
      assert x * c == 0;
    } else {
      assert (x * c < 0) == ((x < 0) != (c < 0)) by {
        if x < 0 && c < 0 { assert x * c == (-x) * (-c); }
        else if x < 0 { assert x * c == -((-x) * c); }
        else if c < 0 { assert x * c == -(x * (-c)); }
      }
    }
  }

  /** `(v + s) - s == v`. */
  lemma SubtractUndoesAdd(xs: seq<int>, c: int)
    ensures SubtractScalar(AddScalar(xs, c), c) == xs
  {
  }

  /** `(v * s) / s == v` for a nonzero scalar. */
  lemma DivideUndoesMultiply(xs: seq<int>, c: int)
    requires c != 0
    ensures DivideScalar(MultiplyScalar(xs, c), c) == xs
  {
    forall i | 0 <= i < |xs|
      ensures DivideScalar(MultiplyScalar(xs, c), c)[i] == xs[i]
    {
      QuotientOfMultiple(xs[i], c);
    }
  }

  /** `(v1 + v2) - v2 == v1`. */
  lemma SubtractUndoesAddElementwise(xs: seq<int>, ys: seq<int>)
    requires |xs| == |ys|
    ensures SubtractElementwise(AddElementwise(xs, ys), ys) == xs
  {
  }

  /** `s - v` is the negation of `v - s`, not `v - s` itself. */
  lemma ScalarSubtractNegates(c: int, xs: seq<int>)
    ensures ScalarSubtract(c, xs) == Negate(SubtractScalar(xs, c))
  {
  }
}
