/** Reduction of Micro-Lean terms as a relation: what a term may be rewritten to, and that no
    variable gets free on the way. */
module LeanReduce {
  import opened Wrappers
  import opened LeanTerm
  import opened LeanHoles
  import opened LeanNameless

  datatype Def = Def(val: Option<Expr>, reducible: bool)
  type Env = map<string, Def>

  const ADD: Expr := Const("Nat.add")
  const MUL: Expr := Const("Nat.mul")
  const NREC: Expr := Const("Nat.rec")
  const BREC: Expr := Const("Bool.rec")
  const SUBST: Expr := Const("Eq.subst")
  const ZERO: Expr := Const("Nat.zero")
  const SUCC: Expr := Const("Nat.succ")

  function Unfolding(env: Env, c: string): Option<Expr> {
    if c in env && env[c].reducible then env[c].val else None
  }

  /** `f a b ...` */
  function MkApps(f: Expr, args: seq<Expr>): Expr
    decreases |args|
  {
    if args == [] then f else MkApps(App(f, args[0]), args[1..])
  }

  /** The rules at the root of a term: beta, zeta, delta of reducible definitions, the conditional, and
      the equations of the primitives. */
  ghost predicate Contracts(env: Env, e: Expr, d: Expr) {
    || (exists x, ann, t, b, a :: e == App(Lam(x, ann, t, b), a) && d == Subst(x, a, b))
    || (e.Let? && d == Subst(e.x, e.v, e.b))
    || (e.Const? && Unfolding(env, e.n) == Some(d))
    || (e.Ite? && ((e.c == Const("true") && d == e.l) || (e.c == Const("false") && d == e.r)))
    || PrimContracts(e, d)
  }

  ghost predicate PrimContracts(e: Expr, d: Expr) {
    AddRule(e, d) || MulRule(e, d) || NatRecRule(e, d) || BoolRecRule(e, d) || SubstRule(e, d)
  }

  ghost predicate AddRule(e: Expr, d: Expr) {
    || (exists a :: e == MkApps(ADD, [a, ZERO]) && d == a)
    || (exists a, m :: e == MkApps(ADD, [a, App(SUCC, m)]) && d == App(SUCC, MkApps(ADD, [a, m])))
  }

  ghost predicate MulRule(e: Expr, d: Expr) {
    || (exists a :: e == MkApps(MUL, [a, ZERO]) && d == ZERO)
    || (exists a, m :: e == MkApps(MUL, [a, App(SUCC, m)]) && d == MkApps(ADD, [MkApps(MUL, [a, m]), a]))
  }

  ghost predicate NatRecRule(e: Expr, d: Expr) {
    NatRecZero(e, d) || NatRecSucc(e, d)
  }

  ghost predicate NatRecZero(e: Expr, d: Expr) {
    exists p, s :: e == MkApps(NREC, [p, d, s, ZERO])
  }

  ghost predicate NatRecSucc(e: Expr, d: Expr) {
    exists p, z, s, m :: RecursOn(e, d, p, z, s, m)
  }

  ghost predicate RecursOn(e: Expr, d: Expr, p: Expr, z: Expr, s: Expr, m: Expr) {
    e == MkApps(NREC, [p, z, s, App(SUCC, m)]) && d == MkApps(s, [m, MkApps(NREC, [p, z, s, m])])
  }

  ghost predicate BoolRecRule(e: Expr, d: Expr) {
    || (exists p, f :: e == MkApps(BREC, [p, d, f, Const("true")]))
    || (exists p, t :: e == MkApps(BREC, [p, t, d, Const("false")]))
  }

  ghost predicate SubstRule(e: Expr, d: Expr) {
    exists p, q, r, s, pa :: e == MkApps(SUBST, [p, q, r, s, Rfl, pa]) && d == pa
  }

  /** Why one term reduces to another. */
  datatype Why =
    | Same
    | Root
    | Inside(parts: seq<Why>)
    | Then(mid: Expr, first: Why, second: Why)

  ghost predicate Shows(env: Env, w: Why, e: Expr, d: Expr)
    decreases w
  {
    match w
    case Same => e == d
    case Root => Contracts(env, e, d)
    case Inside(parts) =>
      && SameHead(e, d) && |Kids(e)| == |Kids(d)| == |parts|
      && forall j :: 0 <= j < |parts| ==> Shows(env, parts[j], Kids(e)[j], Kids(d)[j])
    case Then(mid, first, second) => Shows(env, first, e, mid) && Shows(env, second, mid, d)
  }

  ghost predicate Red(env: Env, e: Expr, d: Expr) {
    exists w :: Shows(env, w, e, d)
  }

  lemma RedSame(env: Env, e: Expr)
    ensures Red(env, e, e)
  {
    assert Shows(env, Same, e, e);
  }

  lemma RedRoot(env: Env, e: Expr, d: Expr)
    requires Contracts(env, e, d)
    ensures Red(env, e, d)
  {
    assert Shows(env, Root, e, d);
  }

  lemma ThenShows(env: Env, e: Expr, m: Expr, d: Expr, v: Why, w: Why)
    requires Shows(env, v, e, m) && Shows(env, w, m, d)
    ensures Shows(env, Then(m, v, w), e, d)
  {
  }

  lemma RedThen(env: Env, e: Expr, m: Expr, d: Expr)
    requires Red(env, e, m) && Red(env, m, d)
    ensures Red(env, e, d)
  {
    var v :| Shows(env, v, e, m);
    var w :| Shows(env, w, m, d);
    ThenShows(env, e, m, d, v, w);
  }

  /** Part by part. */
  lemma RedInside(env: Env, e: Expr, d: Expr)
    requires SameHead(e, d) && |Kids(e)| == |Kids(d)|
    requires forall j :: 0 <= j < |Kids(e)| ==> Red(env, Kids(e)[j], Kids(d)[j])
    ensures Red(env, e, d)
  {
    var n := |Kids(e)|;
    var parts := AllShown(env, Kids(e), Kids(d), n);
    assert Shows(env, Inside(parts), e, d);
  }

  lemma {:induction false} AllShown(env: Env, es: seq<Expr>, ds: seq<Expr>, n: nat) returns (parts: seq<Why>)
    requires |es| == |ds| && n <= |es| && forall j :: 0 <= j < n ==> Red(env, es[j], ds[j])
    ensures |parts| == n && forall j :: 0 <= j < n ==> Shows(env, parts[j], es[j], ds[j])
  {
    if n == 0 {
      parts := [];
    } else {
      var before := AllShown(env, es, ds, n - 1);
      assert Red(env, es[n - 1], ds[n - 1]);
      var w :| Shows(env, w, es[n - 1], ds[n - 1]);
      parts := before + [w];
    }
  }

  lemma RedApp(env: Env, f: Expr, a: Expr, f': Expr, a': Expr)
    requires Red(env, f, f') && Red(env, a, a')
    ensures Red(env, App(f, a), App(f', a'))
  {
    RedInside(env, App(f, a), App(f', a'));
  }

  lemma {:induction false} RedHead(env: Env, f: Expr, f': Expr, args: seq<Expr>)
    requires Red(env, f, f')
    ensures Red(env, MkApps(f, args), MkApps(f', args))
    decreases |args|
  {
    if args != [] {
      RedSame(env, args[0]);
      RedApp(env, f, args[0], f', args[0]);
      RedHead(env, App(f, args[0]), App(f', args[0]), args[1..]);
    }
  }

  lemma {:induction false} RedArg(env: Env, f: Expr, args: seq<Expr>, i: nat, a: Expr)
    requires i < |args| && Red(env, args[i], a)
    ensures Red(env, MkApps(f, args), MkApps(f, args[i := a]))
    decreases |args|
  {
    RedSame(env, f);
    if i == 0 {
      RedApp(env, f, args[0], f, a);
      RedHead(env, App(f, args[0]), App(f, a), args[1..]);
      assert args[0 := a][1..] == args[1..];
    } else {
      RedArg(env, App(f, args[0]), args[1..], i - 1, a);
      assert args[i := a][1..] == args[1..][i - 1 := a];
    }
  }

  lemma {:induction false} MkAppsMore(f: Expr, a: seq<Expr>, b: seq<Expr>)
    ensures MkApps(f, a + b) == MkApps(MkApps(f, a), b)
    decreases |a|
  {
    if a == [] {
      assert a + b == b;
    } else {
      assert (a + b)[1..] == a[1..] + b;
      MkAppsMore(App(f, a[0]), a[1..], b);
    }
  }

  // ---- closed terms stay closed ----

  ghost predicate ClosedEnv(env: Env) {
    forall c :: c in env && env[c].val.Some? ==> Fv(env[c].val.value) == {}
  }

  lemma Apps2(f: Expr, a: Expr, b: Expr)
    ensures MkApps(f, [a, b]) == App(App(f, a), b)
  {
    assert [a, b][1..] == [b] && [b][1..] == [];
    assert MkApps(f, [a, b]) == MkApps(App(f, a), [b]);
  }

  lemma Apps2Fv(f: Expr, a: Expr, b: Expr)
    ensures Fv(MkApps(f, [a, b])) == Fv(f) + Fv(a) + Fv(b)
  {
    Apps2(f, a, b);
  }

  lemma Apps4Fv(f: Expr, a: Expr, b: Expr, c: Expr, d: Expr)
    ensures Fv(MkApps(f, [a, b, c, d])) == Fv(f) + Fv(a) + Fv(b) + Fv(c) + Fv(d)
  {
    MkAppsMore(f, [a, b], [c, d]);
    assert [a, b] + [c, d] == [a, b, c, d];
    Apps2Fv(f, a, b);
    Apps2Fv(MkApps(f, [a, b]), c, d);
  }

  lemma ConstFv(c: string)
    ensures Fv(Const(c)) == {}
  {
  }

  lemma AddFv(e: Expr, d: Expr)
    requires AddRule(e, d)
    ensures Fv(d) <= Fv(e)
  {
    if a :| e == MkApps(ADD, [a, ZERO]) && d == a {
      Apps2Fv(ADD, a, ZERO);
    } else {
      var a, m :| e == MkApps(ADD, [a, App(SUCC, m)]) && d == App(SUCC, MkApps(ADD, [a, m]));
      Apps2Fv(ADD, a, App(SUCC, m));
      Apps2Fv(ADD, a, m);
    }
  }

  lemma MulFv(e: Expr, d: Expr)
    requires MulRule(e, d)
    ensures Fv(d) <= Fv(e)
  {
    if d == ZERO {
      ConstFv("Nat.zero");
    } else {
      var a, m :| e == MkApps(MUL, [a, App(SUCC, m)]) && d == MkApps(ADD, [MkApps(MUL, [a, m]), a]);
      Apps2Fv(MUL, a, App(SUCC, m));
      Apps2Fv(MUL, a, m);
      Apps2Fv(ADD, MkApps(MUL, [a, m]), a);
      ConstFv("Nat.add");
    }
  }

  lemma NatRecZeroFv(e: Expr, d: Expr)
    requires NatRecZero(e, d)
    ensures Fv(d) <= Fv(e)
  {
    var p, s :| e == MkApps(NREC, [p, d, s, ZERO]);
    Apps4Fv(NREC, p, d, s, ZERO);
  }

  lemma NatRecSuccFv(e: Expr, d: Expr)
    requires NatRecSucc(e, d)
    ensures Fv(d) <= Fv(e)
  {
    var p, z, s, m :| RecursOn(e, d, p, z, s, m);
    NatRecStepFv(p, z, s, m);
  }

  lemma NatRecStepFv(p: Expr, z: Expr, s: Expr, m: Expr)
    ensures Fv(MkApps(s, [m, MkApps(NREC, [p, z, s, m])])) <= Fv(MkApps(NREC, [p, z, s, App(SUCC, m)]))
  {
    Apps4Fv(NREC, p, z, s, App(SUCC, m));
    Apps4Fv(NREC, p, z, s, m);
    Apps2Fv(s, m, MkApps(NREC, [p, z, s, m]));
    ConstFv("Nat.rec");
  }

  lemma BoolRecFv(e: Expr, d: Expr)
    requires BoolRecRule(e, d)
    ensures Fv(d) <= Fv(e)
  {
    if p, f :| e == MkApps(BREC, [p, d, f, Const("true")]) {
      Apps4Fv(BREC, p, d, f, Const("true"));
    } else {
      var p, t :| e == MkApps(BREC, [p, t, d, Const("false")]);
      Apps4Fv(BREC, p, t, d, Const("false"));
    }
  }

  lemma EqSubstFv(e: Expr, d: Expr)
    requires SubstRule(e, d)
    ensures Fv(d) <= Fv(e)
  {
    var p, q, r, s, pa :| e == MkApps(SUBST, [p, q, r, s, Rfl, pa]) && d == pa;
    MkAppsMore(SUBST, [p, q, r, s], [Rfl, pa]);
    assert [p, q, r, s] + [Rfl, pa] == [p, q, r, s, Rfl, pa];
    Apps2Fv(MkApps(SUBST, [p, q, r, s]), Rfl, pa);
  }

  lemma PrimFv(e: Expr, d: Expr)
    requires PrimContracts(e, d)
    ensures Fv(d) <= Fv(e)
  {
    if AddRule(e, d) {
      AddFv(e, d);
    } else if MulRule(e, d) {
      MulFv(e, d);
    } else if NatRecZero(e, d) {
      NatRecZeroFv(e, d);
    } else if NatRecSucc(e, d) {
      NatRecSuccFv(e, d);
    } else if BoolRecRule(e, d) {
      BoolRecFv(e, d);
    } else {
      EqSubstFv(e, d);
    }
  }

  lemma ContractsFv(env: Env, e: Expr, d: Expr)
    requires ClosedEnv(env) && Contracts(env, e, d)
    ensures Fv(d) <= Fv(e)
  {
    if x, ann, t, b, a :| e == App(Lam(x, ann, t, b), a) && d == Subst(x, a, b) {
      SubstFv(x, a, b);
    } else if e.Let? && d == Subst(e.x, e.v, e.b) {
      SubstFv(e.x, e.v, e.b);
    } else if PrimContracts(e, d) {
      PrimFv(e, d);
    }
  }

  lemma InsideFv(e: Expr, d: Expr)
    requires SameHead(e, d) && |Kids(e)| == |Kids(d)|
    requires forall j :: 0 <= j < |Kids(e)| ==> Fv(Kids(d)[j]) <= Fv(Kids(e)[j])
    ensures Fv(d) <= Fv(e)
  {
    var ks, ls := Kids(e), Kids(d);
    if |ks| > 0 {
      assert Fv(ls[0]) <= Fv(ks[0]) && Fv(ls[1]) <= Fv(ks[1]);
    }
    if |ks| > 2 {
      assert Fv(ls[2]) <= Fv(ks[2]);
    }
  }

  lemma {:induction false} ShownFv(env: Env, w: Why, e: Expr, d: Expr)
    requires ClosedEnv(env) && Shows(env, w, e, d)
    ensures Fv(d) <= Fv(e)
    decreases w
  {
    match w
    case Same =>
    case Root => ContractsFv(env, e, d);
    case Inside(parts) =>
      forall j | 0 <= j < |Kids(e)| ensures Fv(Kids(d)[j]) <= Fv(Kids(e)[j]) {
        ShownFv(env, parts[j], Kids(e)[j], Kids(d)[j]);
      }
      InsideFv(e, d);
    case Then(mid, first, second) =>
      ShownFv(env, first, e, mid);
      ShownFv(env, second, mid, d);
  }

  /** Reduction frees no variable; a closed term stays closed. */
  lemma RedFv(env: Env, e: Expr, d: Expr)
    requires ClosedEnv(env) && Red(env, e, d)
    ensures Fv(d) <= Fv(e)
  {
    var w :| Shows(env, w, e, d);
    ShownFv(env, w, e, d);
  }
}
