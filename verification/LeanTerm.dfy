/** Micro-Lean terms with named binders, their free variables, and substitution that avoids capture
    by renaming. */
module LeanTerm {
  datatype Sort = Prop | Typ
  datatype Ann = Explicit | Implicit

  /** A tactic block is opaque here; substitution and free variables pass it by. */
  datatype Expr =
    | Srt(s: Sort)
    | Name(n: string)
    | Var(n: string)
    | Const(n: string)
    | App(f: Expr, a: Expr)
    | Lam(x: string, ann: Ann, t: Expr, b: Expr)
    | Pi(x: string, ann: Ann, t: Expr, b: Expr)
    | Let(x: string, t: Expr, v: Expr, b: Expr)
    | Hole(h: nat)
    | Eqn(t: Expr, l: Expr, r: Expr)
    | And(l: Expr, r: Expr)
    | Or(l: Expr, r: Expr)
    | Ite(c: Expr, l: Expr, r: Expr)
    | Rfl
    | Sorry
    | By(script: string)

  function Size(e: Expr): (n: nat)
    ensures n > 0
  {
    match e
    case App(f, a) => 1 + Size(f) + Size(a)
    case Lam(_, _, t, b) => 1 + Size(t) + Size(b)
    case Pi(_, _, t, b) => 1 + Size(t) + Size(b)
    case Let(_, t, v, b) => 1 + Size(t) + Size(v) + Size(b)
    case Eqn(t, l, r) => 1 + Size(t) + Size(l) + Size(r)
    case And(l, r) => 1 + Size(l) + Size(r)
    case Or(l, r) => 1 + Size(l) + Size(r)
    case Ite(c, l, r) => 1 + Size(c) + Size(l) + Size(r)
    case _ => 1
  }

  function Fv(e: Expr): set<string> {
    match e
    case Name(n) => {n}
    case Var(n) => {n}
    case App(f, a) => Fv(f) + Fv(a)
    case Lam(x, _, t, b) => Fv(t) + (Fv(b) - {x})
    case Pi(x, _, t, b) => Fv(t) + (Fv(b) - {x})
    case Let(x, t, v, b) => Fv(t) + Fv(v) + (Fv(b) - {x})
    case Eqn(t, l, r) => Fv(t) + Fv(l) + Fv(r)
    case And(l, r) => Fv(l) + Fv(r)
    case Or(l, r) => Fv(l) + Fv(r)
    case Ite(c, l, r) => Fv(c) + Fv(l) + Fv(r)
    case _ => {}
  }

  // ---- fresh names ----

  function Digits(n: nat): (s: string)
    ensures |s| > 0
  {
    if n < 10 then [Digit(n)] else Digits(n / 10) + [Digit(n % 10)]
  }

  function Digit(d: nat): (c: char)
    requires d < 10
  {
    ('0' as int + d) as char
  }

  lemma {:induction false} DigitsApart(n: nat, m: nat)
    requires Digits(n) == Digits(m)
    ensures n == m
  {
    var s, t := Digits(n), Digits(m);
    assert s[|s| - 1] == Digit(n % 10) && t[|t| - 1] == Digit(m % 10);
    if n >= 10 && m >= 10 {
      assert s[..|s| - 1] == Digits(n / 10) && t[..|t| - 1] == Digits(m / 10);
      DigitsApart(n / 10, m / 10);
    }
  }

  /** `format!("{}_{}", base, i)` */
  function Candidate(base: string, i: nat): string {
    base + "_" + Digits(i)
  }

  lemma CandidateApart(base: string, i: nat, j: nat)
    requires Candidate(base, i) == Candidate(base, j)
    ensures i == j
  {
    var n := |base| + 1;
    assert Candidate(base, i)[n..] == Digits(i) && Candidate(base, j)[n..] == Digits(j);
    DigitsApart(i, j);
  }

  /** The first candidate from `i` on that is not taken; names already passed can be forgotten. */
  function FreshFrom(base: string, taken: set<string>, i: nat): (j: nat)
    ensures j >= i && Candidate(base, j) !in taken
    ensures forall k :: i <= k < j ==> Candidate(base, k) in taken
    decreases |taken|
  {
    var c := Candidate(base, i);
    if c !in taken then i
    else
      var j := FreshFrom(base, taken - {c}, i + 1);
      PassedApart(base, i, j);
      j
  }

  lemma PassedApart(base: string, i: nat, j: nat)
    requires j > i
    ensures Candidate(base, j) != Candidate(base, i)
  {
    if Candidate(base, j) == Candidate(base, i) {
      CandidateApart(base, i, j);
    }
  }

  function FreshAvoiding(base: string, taken: set<string>): (n: string)
    ensures n !in taken
  {
    if base !in taken then base else Candidate(base, FreshFrom(base, taken, 1))
  }

  /** The loop of `fresh_avoiding`, which ends because the taken names are finitely many. */
  method FreshLoop(base: string, taken: set<string>) returns (n: string)
    ensures n == FreshAvoiding(base, taken)
  {
    if base !in taken {
      return base;
    }
    ghost var j := FreshFrom(base, taken, 1);
    var i := 1;
    while Candidate(base, i) in taken
      invariant 1 <= i <= j
      decreases j - i
    {
      i := i + 1;
    }
    n := Candidate(base, i);
    FreshIs(base, taken, i);
  }

  lemma FreshIs(base: string, taken: set<string>, i: nat)
    requires 1 <= i <= FreshFrom(base, taken, 1) && Candidate(base, i) !in taken
    ensures i == FreshFrom(base, taken, 1)
  {
  }

  // ---- substitution ----

  /** Names a renamed binder must avoid: those free in its body and in `v`, and `x`. */
  function Taken(x: string, v: Expr, b: Expr): set<string> {
    Fv(b) + Fv(v) + {x}
  }

  /** `[x := v]e`. Renaming keeps the size, so the second substitution into a renamed body ends. */
  function Subst(x: string, v: Expr, e: Expr): (r: Expr)
    ensures v.Var? ==> Size(r) == Size(e)
    decreases Size(e), 1
  {
    match e
    case Name(n) => if n == x then v else e
    case Var(n) => if n == x then v else e
    case App(f, a) => App(Subst(x, v, f), Subst(x, v, a))
    case Lam(y, ann, t, b) =>
      var (y2, b2) := Under(x, v, y, b);
      Lam(y2, ann, Subst(x, v, t), b2)
    case Pi(y, ann, t, b) =>
      var (y2, b2) := Under(x, v, y, b);
      Pi(y2, ann, Subst(x, v, t), b2)
    case Let(y, t, w, b) =>
      var (y2, b2) := Under(x, v, y, b);
      Let(y2, Subst(x, v, t), Subst(x, v, w), b2)
    case Eqn(t, l, r) => Eqn(Subst(x, v, t), Subst(x, v, l), Subst(x, v, r))
    case And(l, r) => And(Subst(x, v, l), Subst(x, v, r))
    case Or(l, r) => Or(Subst(x, v, l), Subst(x, v, r))
    case Ite(c, l, r) => Ite(Subst(x, v, c), Subst(x, v, l), Subst(x, v, r))
    case _ => e
  }

  /** Substitution below a binder `y`, which is renamed if `v` mentions it. */
  function Under(x: string, v: Expr, y: string, b: Expr): (r: (string, Expr))
    ensures v.Var? ==> Size(r.1) == Size(b)
    decreases Size(b), 2
  {
    if y == x then (y, b)
    else if y in Fv(v) then
      var y2 := FreshAvoiding(y, Taken(x, v, b));
      (y2, Subst(x, v, Subst(y, Var(y2), b)))
    else (y, Subst(x, v, b))
  }
}
