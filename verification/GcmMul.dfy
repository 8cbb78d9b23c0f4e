/** `gf_mul`: multiplication in the field of GCM, bit by bit over two 64-bit words. */
module GcmMul {
  import opened GcmPoly

  /** A 64-bit word, most significant bit first. */
  type Word = w: seq<bool> | |w| == 64 witness Zero64()

  function Zero64(): (w: seq<bool>)
    ensures |w| == 64
  {
    seq(64, _ => false)
  }

  /** `[u64; 2]`: the first word holds the coefficients of x^0 to x^63. */
  datatype Elem = Elem(hi: Word, lo: Word)

  const ZERO: Elem := Elem(Zero64(), Zero64())

  function Bit(e: Elem, i: nat): bool
    requires i < 128
  {
    if i < 64 then e.hi[i] else e.lo[i - 64]
  }

  function Xor(a: Word, b: Word): Word {
    seq(64, i requires 0 <= i < 64 => a[i] != b[i])
  }

  function XorElem(a: Elem, b: Elem): Elem {
    Elem(Xor(a.hi, b.hi), Xor(a.lo, b.lo))
  }

  /** `0xe1 << 56` */
  function R(): Word {
    seq(64, i requires 0 <= i < 64 => i == 0 || i == 1 || i == 2 || i == 7)
  }

  /** `v >> 1`, with `top` shifted in. */
  function Right(w: Word, top: bool): Word {
    [top] + w[..63]
  }

  /** One step of `v`: shifted right by one bit across both words, and reduced. */
  function Next(v: Elem): Elem {
    var lo := Right(v.lo, v.hi[63]);
    var hi := Right(v.hi, false);
    Elem(if v.lo[63] then Xor(hi, R()) else hi, lo)
  }

  function Steps(y: Elem, i: nat): Elem {
    if i == 0 then y else Next(Steps(y, i - 1))
  }

  /** The sum of the steps of `y` at the set bits of `x`. */
  function Gather(x: Elem, y: Elem, i: nat): Elem
    requires i <= 128
  {
    if i == 0 then ZERO
    else if Bit(x, i - 1) then XorElem(Gather(x, y, i - 1), Steps(y, i - 1)) else Gather(x, y, i - 1)
  }

  method GfMul(x: Elem, y: Elem) returns (z: Elem)
    ensures z == Gather(x, y, 128)
  {
    z := ZERO;
    var v := y;
    var i := 0;
    while i < 128
      invariant i <= 128 && v == Steps(y, i) && z == Gather(x, y, i)
    {
      var word := if i / 64 == 0 then x.hi else x.lo;
      BitOfWord(x, i);
      if word[i % 64] {
        z := Elem(Xor(z.hi, v.hi), Xor(z.lo, v.lo));
      }
      v := Step(v);
      i := i + 1;
    }
  }

  lemma BitOfWord(x: Elem, i: nat)
    requires i < 128
    ensures Bit(x, i) == (if i / 64 == 0 then x.hi else x.lo)[i % 64]
  {
  }

  /** One turn of `v`. */
  method Step(v0: Elem) returns (v: Elem)
    ensures v == Next(v0)
  {
    v := v0;
    var lsb := v.lo[63];
    v := v.(lo := Right(v.lo, v.hi[63]));
    v := v.(hi := Right(v.hi, false));
    if lsb {
      v := v.(hi := Xor(v.hi, R()));
    }
  }

  // ---- as polynomials ----

  /** Bit i is the coefficient of x^i. */
  function Of(e: Elem): Poly {
    set i: nat | i < 128 && Bit(e, i)
  }

  /** x^128 + x^7 + x^2 + x + 1 */
  const M: Poly := {0, 1, 2, 7, 128}

  lemma ZeroIsEmpty()
    ensures Of(ZERO) == {}
  {
    forall i: nat | i < 128 ensures !Bit(ZERO, i) {
    }
  }

  lemma OfXor(a: Elem, b: Elem)
    ensures Of(XorElem(a, b)) == Add(Of(a), Of(b))
  {
    forall i: nat | i < 128 ensures Bit(XorElem(a, b), i) == (Bit(a, i) != Bit(b, i)) {
    }
  }

  lemma NextBit(v: Elem, i: nat)
    requires i < 128
    ensures Bit(Next(v), i) == ((i > 0 && Bit(v, i - 1)) != (Bit(v, 127) && (i == 0 || i == 1 || i == 2 || i == 7)))
  {
  }

  /** A step is multiplication by x modulo the polynomial. */
  lemma NextIsShift(v: Elem)
    ensures Shift(Of(v), 1) == Add(Of(Next(v)), if 127 in Of(v) then M else {})
  {
    forall e: nat ensures e in Shift(Of(v), 1) <==> e in Add(Of(Next(v)), if 127 in Of(v) then M else {}) {
      ShiftIn(Of(v), 1, e);
      if e < 128 {
        NextBit(v, e);
      }
    }
  }

  /** What has been divided out after `i` steps. */
  function Quotient(y: Elem, i: nat): Poly {
    if i == 0 then {} else Add(Shift(Quotient(y, i - 1), 1), if Bit(Steps(y, i - 1), 127) then {0} else {})
  }

  lemma {:induction false} QuotientBelow(y: Elem, i: nat)
    ensures Below(Quotient(y, i), i)
  {
    if i > 0 {
      QuotientBelow(y, i - 1);
      forall e: nat | e in Quotient(y, i) ensures e < i {
        ShiftIn(Quotient(y, i - 1), 1, e);
      }
    }
  }

  lemma DivideStep(y: Poly, i: nat, v: Elem, q: Poly)
    requires i > 0 && Shift(y, i - 1) == Add(Of(v), Mul(q, M, i - 1))
    ensures Shift(y, i) == Add(Of(Next(v)), Mul(Add(Shift(q, 1), if Bit(v, 127) then {0} else {}), M, i))
  {
    var one: Poly := if Bit(v, 127) then {0} else {};
    var m: Poly := if Bit(v, 127) then M else {};
    var s := Mul(Shift(q, 1), M, i);
    ShiftShift(y, i - 1, 1);
    ShiftAdd(Of(v), Mul(q, M, i - 1), 1);
    MulShift(q, M, i - 1);
    assert 127 in Of(v) <==> Bit(v, 127);
    NextIsShift(v);
    assert Shift(y, i) == Add(Add(Of(Next(v)), m), s);
    AddSwap(Of(Next(v)), m, s);
    MulAddLeft(Shift(q, 1), one, M, i);
    MulOne(Bit(v, 127), i);
  }

  /** x^i * y is the i-th step of `y` plus a multiple of the polynomial. */
  predicate Divided(y: Elem, i: nat) {
    Shift(Of(y), i) == Add(Of(Steps(y, i)), Mul(Quotient(y, i), M, i))
  }

  lemma StepDivides(y: Elem, i: nat)
    requires i > 0 && Divided(y, i - 1)
    ensures Divided(y, i)
  {
    DivideStep(Of(y), i, Steps(y, i - 1), Quotient(y, i - 1));
  }

  lemma StepsDivide(y: Elem, i: nat)
    ensures Divided(y, i)
  {
    ShiftNone(Of(y));
    var j := 0;
    while j < i
      invariant j <= i && Divided(y, j)
    {
      StepDivides(y, j + 1);
      j := j + 1;
    }
  }

  lemma MulOne(bit: bool, n: nat)
    requires n > 0
    ensures Mul(if bit then {0} else {}, M, n) == if bit then M else {}
  {
    if bit {
      MulMore({0}, M, 1, n);
      ShiftNone(M);
      assert Mul({0}, M, 0) == {};
      assert Mul({0}, M, 1) == Shift(M, 0);
    } else {
      MulNone(M, n);
    }
  }

  function QuotientSum(x: Elem, y: Elem, i: nat): Poly
    requires i <= 128
  {
    if i == 0 then {}
    else if Bit(x, i - 1) then Add(QuotientSum(x, y, i - 1), Quotient(y, i - 1)) else QuotientSum(x, y, i - 1)
  }

  lemma {:induction false} QuotientSumBelow(x: Elem, y: Elem, i: nat)
    requires i <= 128
    ensures Below(QuotientSum(x, y, i), 128)
  {
    if i > 0 {
      QuotientSumBelow(x, y, i - 1);
      QuotientBelow(y, i - 1);
    }
  }

  lemma {:induction false} GatherDivides(x: Elem, y: Elem, i: nat)
    requires i <= 128
    ensures Mul(Of(x), Of(y), i) == Add(Of(Gather(x, y, i)), Mul(QuotientSum(x, y, i), M, 128))
  {
    if i == 0 {
      MulNone(M, 128);
      ZeroIsEmpty();
    } else {
      GatherDivides(x, y, i - 1);
      if Bit(x, i - 1) {
        StepsDivide(y, i - 1);
        QuotientBelow(y, i - 1);
        MulMore(Quotient(y, i - 1), M, i - 1, 128);
        GatherStep(Of(x), Of(y), i, Gather(x, y, i - 1), Steps(y, i - 1), QuotientSum(x, y, i - 1), Quotient(y, i - 1));
      }
    }
  }

  lemma GatherStep(x: Poly, y: Poly, i: nat, z: Elem, v: Elem, s: Poly, q: Poly)
    requires 0 < i && i - 1 in x && Mul(x, y, i - 1) == Add(Of(z), Mul(s, M, 128))
    requires Shift(y, i - 1) == Add(Of(v), Mul(q, M, 128))
    ensures Mul(x, y, i) == Add(Of(XorElem(z, v)), Mul(Add(s, q), M, 128))
  {
    OfXor(z, v);
    MulAddLeft(s, q, M, 128);
    AddFour(Of(z), Mul(s, M, 128), Of(v), Mul(q, M, 128));
  }

  /** `z` is x * y modulo the polynomial. */
  ghost predicate IsProduct(x: Elem, y: Elem, z: Elem) {
    exists q: Poly, n: nat :: Remainder(Mul(Of(x), Of(y), 128), Of(z), M, 128, q, n)
  }

  /** `gf_mul` is multiplication in GF(2^128). */
  lemma GfMulIsProduct(x: Elem, y: Elem)
    ensures IsProduct(x, y, Gather(x, y, 128))
  {
    GatherDivides(x, y, 128);
    QuotientSumBelow(x, y, 128);
    assert Remainder(Mul(Of(x), Of(y), 128), Of(Gather(x, y, 128)), M, 128, QuotientSum(x, y, 128), 128);
  }

  lemma SameOf(a: Elem, b: Elem)
    requires Of(a) == Of(b)
    ensures a == b
  {
    forall i: nat | i < 128 ensures Bit(a, i) == Bit(b, i) {
      assert i in Of(a) <==> i in Of(b);
    }
    forall i | 0 <= i < 64 ensures a.hi[i] == b.hi[i] && a.lo[i] == b.lo[i] {
      assert Bit(a, i) == Bit(b, i) && Bit(a, i + 64) == Bit(b, i + 64);
    }
    assert a.hi == b.hi && a.lo == b.lo;
  }

  /** And the only one: the specification has one answer. */
  lemma ProductUnique(x: Elem, y: Elem, z: Elem)
    ensures IsProduct(x, y, z) <==> z == Gather(x, y, 128)
  {
    GfMulIsProduct(x, y);
    var w := Gather(x, y, 128);
    if IsProduct(x, y, z) {
      var a := Mul(Of(x), Of(y), 128);
      var q: Poly, n: nat :| Remainder(a, Of(z), M, 128, q, n);
      var r: Poly, k: nat :| Remainder(a, Of(w), M, 128, r, k);
      RemainderUnique(a, Of(z), Of(w), M, 128, q, n, r, k);
      SameOf(z, w);
    }
  }

  /** Commutative. */
  lemma GfMulCommutes(x: Elem, y: Elem)
    ensures Gather(x, y, 128) == Gather(y, x, 128)
  {
    MulCommutes(Of(x), Of(y), 128, 128);
    GfMulIsProduct(x, y);
    ProductUnique(y, x, Gather(x, y, 128));
  }

  /** Linear under xor. */
  lemma GfMulLinear(x: Elem, y: Elem, h: Elem)
    ensures Gather(XorElem(x, y), h, 128) == XorElem(Gather(x, h, 128), Gather(y, h, 128))
  {
    var a, b := Gather(x, h, 128), Gather(y, h, 128);
    GatherDivides(x, h, 128);
    GatherDivides(y, h, 128);
    QuotientSumBelow(x, h, 128);
    QuotientSumBelow(y, h, 128);
    OfXor(x, y);
    OfXor(a, b);
    var q, r := QuotientSum(x, h, 128), QuotientSum(y, h, 128);
    MulAddLeft(Of(x), Of(y), Of(h), 128);
    MulAddLeft(q, r, M, 128);
    AddFour(Of(a), Mul(q, M, 128), Of(b), Mul(r, M, 128));
    assert Remainder(Mul(Of(XorElem(x, y)), Of(h), 128), Of(XorElem(a, b)), M, 128, Add(q, r), 128);
    ProductUnique(XorElem(x, y), h, XorElem(a, b));
  }
}
