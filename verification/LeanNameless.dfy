/** Terms without bound names: what `subst` does is what substitution means. */
module LeanNameless {
  import opened LeanTerm

  datatype Tag = TApp | TLam(ann: Ann) | TPi(ann: Ann) | TEqn | TAnd | TOr | TIte

  /** Bound variables count the binders between them and their own. */
  datatype Term =
    | Bound(k: nat)
    | Free(n: string)
    | Atom(e: Expr)
    | Two(tag: Tag, l: Term, r: Term)
    | Three(tag: Tag, c: Term, l: Term, r: Term)
    | Binder(tag: Tag, t: Term, b: Term)
    | LetIn(t: Term, v: Term, b: Term)

  function Names(m: Term): set<string> {
    match m
    case Free(n) => {n}
    case Two(_, l, r) => Names(l) + Names(r)
    case Three(_, c, l, r) => Names(c) + Names(l) + Names(r)
    case Binder(_, t, b) => Names(t) + Names(b)
    case LetIn(t, v, b) => Names(t) + Names(v) + Names(b)
    case _ => {}
  }

  /** The free name `y` bound by the binder `k` levels up. */
  function Close(m: Term, y: string, k: nat): Term {
    match m
    case Free(n) => if n == y then Bound(k) else m
    case Two(tag, l, r) => Two(tag, Close(l, y, k), Close(r, y, k))
    case Three(tag, c, l, r) => Three(tag, Close(c, y, k), Close(l, y, k), Close(r, y, k))
    case Binder(tag, t, b) => Binder(tag, Close(t, y, k), Close(b, y, k + 1))
    case LetIn(t, v, b) => LetIn(Close(t, y, k), Close(v, y, k), Close(b, y, k + 1))
    case _ => m
  }

  /** `u` for the free name `x`: no renaming is ever needed. */
  function Put(m: Term, x: string, u: Term): Term {
    match m
    case Free(n) => if n == x then u else m
    case Two(tag, l, r) => Two(tag, Put(l, x, u), Put(r, x, u))
    case Three(tag, c, l, r) => Three(tag, Put(c, x, u), Put(l, x, u), Put(r, x, u))
    case Binder(tag, t, b) => Binder(tag, Put(t, x, u), Put(b, x, u))
    case LetIn(t, v, b) => LetIn(Put(t, x, u), Put(v, x, u), Put(b, x, u))
    case _ => m
  }

  /** A term without its bound names. */
  function Meaning(e: Expr): Term {
    match e
    case Name(n) => Free(n)
    case Var(n) => Free(n)
    case App(f, a) => Two(TApp, Meaning(f), Meaning(a))
    case Lam(x, ann, t, b) => Binder(TLam(ann), Meaning(t), Close(Meaning(b), x, 0))
    case Pi(x, ann, t, b) => Binder(TPi(ann), Meaning(t), Close(Meaning(b), x, 0))
    case Let(x, t, v, b) => LetIn(Meaning(t), Meaning(v), Close(Meaning(b), x, 0))
    case Eqn(t, l, r) => Three(TEqn, Meaning(t), Meaning(l), Meaning(r))
    case And(l, r) => Two(TAnd, Meaning(l), Meaning(r))
    case Or(l, r) => Two(TOr, Meaning(l), Meaning(r))
    case Ite(c, l, r) => Three(TIte, Meaning(c), Meaning(l), Meaning(r))
    case _ => Atom(e)
  }

  // ---- the nameless laws ----

  lemma {:induction false} CloseNames(m: Term, y: string, k: nat)
    ensures Names(Close(m, y, k)) == Names(m) - {y}
  {
    match m
    case Two(_, l, r) => CloseNames(l, y, k); CloseNames(r, y, k);
    case Three(_, c, l, r) => CloseNames(c, y, k); CloseNames(l, y, k); CloseNames(r, y, k);
    case Binder(_, t, b) => CloseNames(t, y, k); CloseNames(b, y, k + 1);
    case LetIn(t, v, b) => CloseNames(t, y, k); CloseNames(v, y, k); CloseNames(b, y, k + 1);
    case _ =>
  }

  lemma {:induction false} MeaningNames(e: Expr)
    ensures Names(Meaning(e)) == Fv(e)
  {
    match e
    case App(f, a) => MeaningNames(f); MeaningNames(a);
    case Lam(x, _, t, b) => MeaningNames(t); MeaningNames(b); CloseNames(Meaning(b), x, 0);
    case Pi(x, _, t, b) => MeaningNames(t); MeaningNames(b); CloseNames(Meaning(b), x, 0);
    case Let(x, t, v, b) => MeaningNames(t); MeaningNames(v); MeaningNames(b); CloseNames(Meaning(b), x, 0);
    case Eqn(t, l, r) => MeaningNames(t); MeaningNames(l); MeaningNames(r);
    case And(l, r) => MeaningNames(l); MeaningNames(r);
    case Or(l, r) => MeaningNames(l); MeaningNames(r);
    case Ite(c, l, r) => MeaningNames(c); MeaningNames(l); MeaningNames(r);
    case _ =>
  }

  lemma {:induction false} CloseAbsent(m: Term, y: string, k: nat)
    requires y !in Names(m)
    ensures Close(m, y, k) == m
  {
    match m
    case Two(_, l, r) => CloseAbsent(l, y, k); CloseAbsent(r, y, k);
    case Three(_, c, l, r) => CloseAbsent(c, y, k); CloseAbsent(l, y, k); CloseAbsent(r, y, k);
    case Binder(_, t, b) => CloseAbsent(t, y, k); CloseAbsent(b, y, k + 1);
    case LetIn(t, v, b) => CloseAbsent(t, y, k); CloseAbsent(v, y, k); CloseAbsent(b, y, k + 1);
    case _ =>
  }

  lemma {:induction false} PutAbsent(m: Term, x: string, u: Term)
    requires x !in Names(m)
    ensures Put(m, x, u) == m
  {
    match m
    case Two(_, l, r) => PutAbsent(l, x, u); PutAbsent(r, x, u);
    case Three(_, c, l, r) => PutAbsent(c, x, u); PutAbsent(l, x, u); PutAbsent(r, x, u);
    case Binder(_, t, b) => PutAbsent(t, x, u); PutAbsent(b, x, u);
    case LetIn(t, v, b) => PutAbsent(t, x, u); PutAbsent(v, x, u); PutAbsent(b, x, u);
    case _ =>
  }

  /** Substituting under a binder of another name. */
  lemma {:induction false} PutClose(m: Term, y: string, k: nat, x: string, u: Term)
    requires y != x && y !in Names(u)
    ensures Put(Close(m, y, k), x, u) == Close(Put(m, x, u), y, k)
  {
    match m
    case Free(n) => CloseAbsent(u, y, k);
    case Two(_, l, r) => PutClose(l, y, k, x, u); PutClose(r, y, k, x, u);
    case Three(_, c, l, r) => PutClose(c, y, k, x, u); PutClose(l, y, k, x, u); PutClose(r, y, k, x, u);
    case Binder(_, t, b) => PutClose(t, y, k, x, u); PutClose(b, y, k + 1, x, u);
    case LetIn(t, v, b) => PutClose(t, y, k, x, u); PutClose(v, y, k, x, u); PutClose(b, y, k + 1, x, u);
    case _ =>
  }

  /** Renaming the name to be bound. */
  lemma {:induction false} Rename(m: Term, y: string, z: string, k: nat)
    requires z !in Names(m)
    ensures Close(Put(m, y, Free(z)), z, k) == Close(m, y, k)
  {
    match m
    case Two(_, l, r) => Rename(l, y, z, k); Rename(r, y, z, k);
    case Three(_, c, l, r) => Rename(c, y, z, k); Rename(l, y, z, k); Rename(r, y, z, k);
    case Binder(_, t, b) => Rename(t, y, z, k); Rename(b, y, z, k + 1);
    case LetIn(t, v, b) => Rename(t, y, z, k); Rename(v, y, z, k); Rename(b, y, z, k + 1);
    case _ =>
  }

  // ---- substitution ----

  /** `subst` is substitution: without bound names it just puts `v` for `x`. */
  lemma {:induction false} SubstMeaning(x: string, v: Expr, e: Expr)
    ensures Meaning(Subst(x, v, e)) == Put(Meaning(e), x, Meaning(v))
    decreases Size(e), 1
  {
    if e.Lam? || e.Pi? {
      BinderMeaning(x, v, e);
    } else if e.Let? {
      LetMeaning(x, v, e);
    } else if e.Eqn? || e.Ite? {
      ThreeMeaning(x, v, e);
    } else if e.And? || e.Or? {
      TwoMeaning(x, v, e);
    } else if e.App? {
      AppMeaning(x, v, e);
    } else {
      LeafMeaning(x, v, e);
    }
  }

  lemma LeafMeaning(x: string, v: Expr, e: Expr)
    requires Size(e) == 1
    ensures Meaning(Subst(x, v, e)) == Put(Meaning(e), x, Meaning(v))
  {
  }

  lemma {:induction false} AppMeaning(x: string, v: Expr, e: Expr)
    requires e.App?
    ensures Meaning(Subst(x, v, e)) == Put(Meaning(e), x, Meaning(v))
    decreases Size(e), 0
  {
    SubstMeaning(x, v, e.f);
    SubstMeaning(x, v, e.a);
  }

  lemma {:induction false} TwoMeaning(x: string, v: Expr, e: Expr)
    requires e.And? || e.Or?
    ensures Meaning(Subst(x, v, e)) == Put(Meaning(e), x, Meaning(v))
    decreases Size(e), 0
  {
    SubstMeaning(x, v, e.l);
    SubstMeaning(x, v, e.r);
  }

  lemma {:induction false} ThreeMeaning(x: string, v: Expr, e: Expr)
    requires e.Eqn? || e.Ite?
    ensures Meaning(Subst(x, v, e)) == Put(Meaning(e), x, Meaning(v))
    decreases Size(e), 0
  {
    SubstMeaning(x, v, if e.Eqn? then e.t else e.c);
    SubstMeaning(x, v, e.l);
    SubstMeaning(x, v, e.r);
  }

  lemma {:induction false} BinderMeaning(x: string, v: Expr, e: Expr)
    requires e.Lam? || e.Pi?
    ensures Meaning(Subst(x, v, e)) == Put(Meaning(e), x, Meaning(v))
    decreases Size(e), 0
  {
    SubstMeaning(x, v, e.t);
    UnderMeaning(x, v, e.x, e.b);
  }

  lemma {:induction false} LetMeaning(x: string, v: Expr, e: Expr)
    requires e.Let?
    ensures Meaning(Subst(x, v, e)) == Put(Meaning(e), x, Meaning(v))
    decreases Size(e), 0
  {
    SubstMeaning(x, v, e.t);
    SubstMeaning(x, v, e.v);
    UnderMeaning(x, v, e.x, e.b);
  }

  lemma {:induction false} UnderMeaning(x: string, v: Expr, y: string, b: Expr)
    ensures var (y2, b2) := Under(x, v, y, b);
            Close(Meaning(b2), y2, 0) == Put(Close(Meaning(b), y, 0), x, Meaning(v))
    decreases Size(b), 3
  {
    if y == x {
      CloseNames(Meaning(b), y, 0);
      PutAbsent(Close(Meaning(b), y, 0), x, Meaning(v));
    } else if y in Fv(v) {
      CaptureMeaning(x, v, y, b);
    } else {
      SubstMeaning(x, v, b);
      MeaningNames(v);
      PutClose(Meaning(b), y, 0, x, Meaning(v));
    }
  }

  /** The binder is renamed first. */
  lemma {:induction false} CaptureMeaning(x: string, v: Expr, y: string, b: Expr)
    requires y != x && y in Fv(v)
    ensures var y2 := FreshAvoiding(y, Taken(x, v, b));
            Close(Meaning(Subst(x, v, Subst(y, Var(y2), b))), y2, 0) == Put(Close(Meaning(b), y, 0), x, Meaning(v))
    decreases Size(b), 2
  {
    var y2 := FreshAvoiding(y, Taken(x, v, b));
    MeaningNames(v);
    MeaningNames(b);
    SubstMeaning(y, Var(y2), b);
    SubstMeaning(x, v, Subst(y, Var(y2), b));
    RenamedMeaning(Meaning(b), x, Meaning(v), y, y2);
  }

  lemma RenamedMeaning(m: Term, x: string, u: Term, y: string, z: string)
    requires z !in Names(m) && z !in Names(u) && z != x
    ensures Close(Put(Put(m, y, Free(z)), x, u), z, 0) == Put(Close(m, y, 0), x, u)
  {
    PutClose(Put(m, y, Free(z)), z, 0, x, u);
    Rename(m, y, z, 0);
  }

  lemma {:induction false} PutNames(m: Term, x: string, u: Term)
    ensures Names(Put(m, x, u)) == (Names(m) - {x}) + if x in Names(m) then Names(u) else {}
  {
    match m
    case Two(_, l, r) => PutNames(l, x, u); PutNames(r, x, u);
    case Three(_, c, l, r) => PutNames(c, x, u); PutNames(l, x, u); PutNames(r, x, u);
    case Binder(_, t, b) => PutNames(t, x, u); PutNames(b, x, u);
    case LetIn(t, v, b) => PutNames(t, x, u); PutNames(v, x, u); PutNames(b, x, u);
    case _ =>
  }

  /** Free in the result is exactly what was free but for `x`, and what is free in `v` if `x` was free. */
  lemma SubstFv(x: string, v: Expr, e: Expr)
    ensures Fv(Subst(x, v, e)) == (Fv(e) - {x}) + if x in Fv(e) then Fv(v) else {}
  {
    SubstMeaning(x, v, e);
    PutNames(Meaning(e), x, Meaning(v));
    MeaningNames(Subst(x, v, e));
    MeaningNames(e);
    MeaningNames(v);
  }

  /** Terms that differ in bound names alone stay so. */
  lemma SubstAlpha(x: string, v: Expr, v': Expr, e: Expr, e': Expr)
    requires Meaning(e) == Meaning(e') && Meaning(v) == Meaning(v')
    ensures Meaning(Subst(x, v, e)) == Meaning(Subst(x, v', e'))
  {
    SubstMeaning(x, v, e);
    SubstMeaning(x, v', e');
  }

  lemma {:induction false} PutPut(m: Term, x: string, u: Term, y: string, w: Term)
    requires x != y && x !in Names(w)
    ensures Put(Put(m, x, u), y, w) == Put(Put(m, y, w), x, Put(u, y, w))
  {
    match m
    case Free(n) => PutAbsent(w, x, Put(u, y, w));
    case Two(_, l, r) => PutPut(l, x, u, y, w); PutPut(r, x, u, y, w);
    case Three(_, c, l, r) => PutPut(c, x, u, y, w); PutPut(l, x, u, y, w); PutPut(r, x, u, y, w);
    case Binder(_, t, b) => PutPut(t, x, u, y, w); PutPut(b, x, u, y, w);
    case LetIn(t, v, b) => PutPut(t, x, u, y, w); PutPut(v, x, u, y, w); PutPut(b, x, u, y, w);
    case _ =>
  }

  /** The substitution lemma: substitutions change places. */
  lemma SubstSubst(x: string, v: Expr, y: string, w: Expr, e: Expr)
    requires x != y && x !in Fv(w)
    ensures Meaning(Subst(y, w, Subst(x, v, e))) == Meaning(Subst(x, Subst(y, w, v), Subst(y, w, e)))
  {
    SubstMeaning(y, w, Subst(x, v, e));
    SubstMeaning(x, v, e);
    SubstMeaning(x, Subst(y, w, v), Subst(y, w, e));
    SubstMeaning(y, w, v);
    SubstMeaning(y, w, e);
    MeaningNames(w);
    PutPut(Meaning(e), x, Meaning(v), y, Meaning(w));
  }
}
