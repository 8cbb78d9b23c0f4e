/** Polynomials over the two-element field, as sets of exponents, with their sum, product and
    remainder. */
module GcmPoly {
  type Poly = set<nat>

  function Add(a: Poly, b: Poly): Poly {
    (a - b) + (b - a)
  }

  function Shift(a: Poly, k: nat): Poly {
    set e | e in a :: e + k
  }

  predicate Below(a: Poly, n: nat) {
    forall e :: e in a ==> e < n
  }

  function Upto(a: Poly, n: nat): Poly {
    set e | e in a && e < n
  }

  /** The product, for the exponents of `a` below `n`. */
  function Mul(a: Poly, b: Poly, n: nat): Poly {
    if n == 0 then {} else Add(Mul(a, b, n - 1), Term(a, b, n - 1))
  }

  function Term(a: Poly, b: Poly, i: nat): Poly {
    if i in a then Shift(b, i) else {}
  }

  lemma ShiftIn(a: Poly, k: nat, e: nat)
    ensures e in Shift(a, k) <==> e >= k && e - k in a
  {
    if e >= k && e - k in a {
      assert (e - k) + k == e;
    }
  }

  lemma ShiftNone(a: Poly)
    ensures Shift(a, 0) == a
  {
    forall e: nat ensures e in Shift(a, 0) <==> e in a {
      ShiftIn(a, 0, e);
    }
  }

  lemma ShiftAdd(a: Poly, b: Poly, k: nat)
    ensures Shift(Add(a, b), k) == Add(Shift(a, k), Shift(b, k))
  {
    forall e: nat ensures e in Shift(Add(a, b), k) <==> e in Add(Shift(a, k), Shift(b, k)) {
      ShiftIn(Add(a, b), k, e);
      ShiftIn(a, k, e);
      ShiftIn(b, k, e);
    }
  }

  lemma ShiftShift(a: Poly, k: nat, j: nat)
    ensures Shift(Shift(a, k), j) == Shift(a, k + j)
  {
    forall e: nat ensures e in Shift(Shift(a, k), j) <==> e in Shift(a, k + j) {
      ShiftIn(Shift(a, k), j, e);
      ShiftIn(a, k + j, e);
      if e >= j { ShiftIn(a, k, e - j); }
    }
  }

  lemma AddFour(a: Poly, b: Poly, c: Poly, d: Poly)
    ensures Add(Add(a, b), Add(c, d)) == Add(Add(a, c), Add(b, d))
  {
  }

  lemma AddSwap(a: Poly, b: Poly, c: Poly)
    ensures Add(Add(a, b), c) == Add(a, Add(c, b))
  {
  }

  /** Multiplication distributes over addition on the left and on the right. */
  lemma {:induction false} MulAddLeft(a: Poly, b: Poly, c: Poly, n: nat)
    ensures Mul(Add(a, b), c, n) == Add(Mul(a, c, n), Mul(b, c, n))
  {
    if n > 0 {
      MulAddLeft(a, b, c, n - 1);
      assert Term(Add(a, b), c, n - 1) == Add(Term(a, c, n - 1), Term(b, c, n - 1));
      AddFour(Mul(a, c, n - 1), Mul(b, c, n - 1), Term(a, c, n - 1), Term(b, c, n - 1));
    }
  }

  lemma {:induction false} MulAddRight(a: Poly, b: Poly, c: Poly, n: nat)
    ensures Mul(a, Add(b, c), n) == Add(Mul(a, b, n), Mul(a, c, n))
  {
    if n > 0 {
      MulAddRight(a, b, c, n - 1);
      ShiftAdd(b, c, n - 1);
      assert Term(a, Add(b, c), n - 1) == Add(Term(a, b, n - 1), Term(a, c, n - 1));
      AddFour(Mul(a, b, n - 1), Mul(a, c, n - 1), Term(a, b, n - 1), Term(a, c, n - 1));
    }
  }

  lemma {:induction false} MulNone(a: Poly, n: nat)
    ensures Mul(a, {}, n) == {} && Mul({}, a, n) == {}
  {
    if n > 0 {
      MulNone(a, n - 1);
      assert Shift({}, n - 1) == {};
    }
  }

  /** Exponents past the bound play no part. */
  lemma {:induction false} MulMore(a: Poly, b: Poly, n: nat, m: nat)
    requires Below(a, n) && n <= m
    ensures Mul(a, b, m) == Mul(a, b, n)
    decreases m - n
  {
    if m > n {
      MulMore(a, b, n, m - 1);
      assert m - 1 !in a;
    }
  }

  /** A factor x^k comes out of the product. */
  lemma {:induction false} MulShift(a: Poly, b: Poly, n: nat)
    ensures Shift(Mul(a, b, n), 1) == Mul(Shift(a, 1), b, n + 1)
  {
    if n == 0 {
      ShiftIn(a, 1, 0);
      assert Mul(Shift(a, 1), b, 0) == {};
      assert Mul(Shift(a, 1), b, 1) == {};
    } else {
      MulShift(a, b, n - 1);
      ShiftAdd(Mul(a, b, n - 1), Term(a, b, n - 1), 1);
      ShiftIn(a, 1, n);
      ShiftShift(b, n - 1, 1);
      assert Term(Shift(a, 1), b, n) == Shift(Term(a, b, n - 1), 1);
    }
  }

  /** The product with a single power. */
  lemma {:induction false} MulPower(a: Poly, j: nat, n: nat)
    requires Below(a, n)
    ensures Mul(a, {j}, n) == Shift(a, j)
  {
    MulPowerUpTo(a, j, n);
    assert Upto(a, n) == a;
  }

  lemma {:induction false} MulPowerUpTo(a: Poly, j: nat, n: nat)
    ensures Mul(a, {j}, n) == Shift(Upto(a, n), j)
  {
    var s := Upto(a, n);
    if n == 0 {
      assert s == {};
      assert Shift(s, j) == {};
    } else {
      MulPowerUpTo(a, j, n - 1);
      var r := Upto(a, n - 1);
      forall e: nat ensures e in Mul(a, {j}, n) <==> e in Shift(s, j) {
        ShiftIn(s, j, e);
        ShiftIn(r, j, e);
        ShiftIn({j}, n - 1, e);
      }
    }
  }

  /** Multiplication is commutative. */
  lemma {:induction false} MulCommutes(a: Poly, b: Poly, n: nat, m: nat)
    requires Below(a, n) && Below(b, m)
    ensures Mul(a, b, n) == Mul(b, a, m)
  {
    if m == 0 {
      assert b == {};
      MulNone(a, n);
    } else {
      var r := b - {m - 1};
      MulCommutes(a, r, n, m - 1);
      MulMore(r, a, m - 1, m);
      if m - 1 in b {
        assert b == Add(r, {m - 1});
        MulAddRight(a, r, {m - 1}, n);
        MulPower(a, m - 1, n);
        MulSame(b, r, a, m - 1);
      } else {
        assert b == r;
      }
    }
  }

  lemma {:induction false} MulSame(a: Poly, b: Poly, c: Poly, n: nat)
    requires forall e: nat :: e < n ==> (e in a <==> e in b)
    ensures Mul(a, c, n) == Mul(b, c, n)
  {
    if n > 0 {
      MulSame(a, b, c, n - 1);
    }
  }

  // ---- remainders ----

  lemma {:induction false} MulBelow(a: Poly, b: Poly, n: nat, m: nat)
    requires Below(b, m) && m > 0
    ensures Below(Mul(a, b, n), n + m - 1)
  {
    if n > 0 {
      MulBelow(a, b, n - 1, m);
      var t := Shift(b, n - 1);
      forall e | e in t ensures e < n + m - 1 {
        ShiftIn(b, n - 1, e);
      }
    }
  }

  /** A nonzero multiple of a polynomial of degree `m` has degree at least `m`. */
  lemma MultipleIsHigh(q: Poly, p: Poly, n: nat, m: nat, x: nat) returns (e: nat)
    requires Below(q, n) && x in q && m in p && Below(p, m + 1)
    ensures e >= m && e in Mul(q, p, n)
    decreases n
  {
    if n == 0 {
      assert false;
    } else if n - 1 in q {
      e := n - 1 + m;
      MulBelow(q, p, n - 1, m + 1);
      ShiftIn(p, n - 1, e);
    } else {
      e := MultipleIsHigh(q, p, n - 1, m, x);
    }
  }

  /** `c` is what `a` leaves on division by `p`, of degree `m`, with quotient `q`. */
  predicate Remainder(a: Poly, c: Poly, p: Poly, m: nat, q: Poly, n: nat) {
    Below(c, m) && Below(q, n) && a == Add(c, Mul(q, p, n))
  }

  /** There is only one remainder. */
  lemma RemainderUnique(a: Poly, c: Poly, c': Poly, p: Poly, m: nat, q: Poly, n: nat, q': Poly, n': nat)
    requires m in p && Below(p, m + 1) && Remainder(a, c, p, m, q, n) && Remainder(a, c', p, m, q', n')
    ensures c == c'
  {
    var k := if n < n' then n' else n;
    MulMore(q, p, n, k);
    MulMore(q', p, n', k);
    var r := Add(q, q');
    MulAddLeft(q, q', p, k);
    assert Mul(r, p, k) == Add(c, c') by {
      forall e: nat ensures e in Mul(r, p, k) <==> e in Add(c, c') {
        assert e in a <==> e in Add(c, Mul(q, p, k));
      }
    }
    if x :| x in r {
      var e := MultipleIsHigh(r, p, k, m, x);
      assert false;
    }
    assert r == {};
    MulNone(p, k);
    assert c == c' by {
      forall e: nat ensures e in c <==> e in c' {
        assert e !in Add(c, c');
      }
    }
  }
}
