/** Terms that differ in bound names and annotations alone, and how a comparison that opens binders with new names
    finds out. */
module LeanAlpha {
  import opened LeanTerm
  import opened LeanHoles
  import opened LeanNameless

  /** Without the annotations of binders, which matching does not look at. */
  function Bare(m: Term): Term {
    match m
    case Two(tag, l, r) => Two(tag, Bare(l), Bare(r))
    case Three(tag, c, l, r) => Three(tag, Bare(c), Bare(l), Bare(r))
    case Binder(tag, t, b) =>
      Binder(if tag.TLam? then TLam(Explicit) else if tag.TPi? then TPi(Explicit) else tag, Bare(t), Bare(b))
    case LetIn(t, v, b) => LetIn(Bare(t), Bare(v), Bare(b))
    case _ => m
  }

  /** Equal up to bound names and annotations. */
  predicate Alike(p: Expr, t: Expr) {
    Bare(Meaning(p)) == Bare(Meaning(t))
  }

  /** No bound variable points past `k` binders. */
  predicate Level(m: Term, k: nat) {
    match m
    case Bound(i) => i < k
    case Two(_, l, r) => Level(l, k) && Level(r, k)
    case Three(_, c, l, r) => Level(c, k) && Level(l, k) && Level(r, k)
    case Binder(_, t, b) => Level(t, k) && Level(b, k + 1)
    case LetIn(t, v, b) => Level(t, k) && Level(v, k) && Level(b, k + 1)
    case _ => true
  }

  lemma {:induction false} BareClose(m: Term, y: string, k: nat)
    ensures Bare(Close(m, y, k)) == Close(Bare(m), y, k)
  {
    match m
    case Two(_, l, r) =>
      BareClose(l, y, k);
      BareClose(r, y, k);
    case Three(_, c, l, r) =>
      BareClose(c, y, k);
      BareClose(l, y, k);
      BareClose(r, y, k);
    case Binder(_, t, b) =>
      BareClose(t, y, k);
      BareClose(b, y, k + 1);
    case LetIn(t, v, b) =>
      BareClose(t, y, k);
      BareClose(v, y, k);
      BareClose(b, y, k + 1);
    case _ =>
  }

  lemma {:induction false} BarePut(m: Term, x: string, n: string)
    ensures Bare(Put(m, x, Free(n))) == Put(Bare(m), x, Free(n))
  {
    match m
    case Two(_, l, r) =>
      BarePut(l, x, n);
      BarePut(r, x, n);
    case Three(_, c, l, r) =>
      BarePut(c, x, n);
      BarePut(l, x, n);
      BarePut(r, x, n);
    case Binder(_, t, b) =>
      BarePut(t, x, n);
      BarePut(b, x, n);
    case LetIn(t, v, b) =>
      BarePut(t, x, n);
      BarePut(v, x, n);
      BarePut(b, x, n);
    case _ =>
  }

  lemma {:induction false} BareNames(m: Term)
    ensures Names(Bare(m)) == Names(m)
  {
    match m
    case Two(_, l, r) =>
      BareNames(l);
      BareNames(r);
    case Three(_, c, l, r) =>
      BareNames(c);
      BareNames(l);
      BareNames(r);
    case Binder(_, t, b) =>
      BareNames(t);
      BareNames(b);
    case LetIn(t, v, b) =>
      BareNames(t);
      BareNames(v);
      BareNames(b);
    case _ =>
  }

  lemma {:induction false} BareLevel(m: Term, k: nat)
    ensures Level(Bare(m), k) == Level(m, k)
  {
    match m
    case Two(_, l, r) =>
      BareLevel(l, k);
      BareLevel(r, k);
    case Three(_, c, l, r) =>
      BareLevel(c, k);
      BareLevel(l, k);
      BareLevel(r, k);
    case Binder(_, t, b) =>
      BareLevel(t, k);
      BareLevel(b, k + 1);
    case LetIn(t, v, b) =>
      BareLevel(t, k);
      BareLevel(v, k);
      BareLevel(b, k + 1);
    case _ =>
  }

  lemma {:induction false} CloseLevel(m: Term, y: string, k: nat)
    requires Level(m, k)
    ensures Level(Close(m, y, k), k + 1)
  {
    match m
    case Two(_, l, r) =>
      CloseLevel(l, y, k);
      CloseLevel(r, y, k);
    case Three(_, c, l, r) =>
      CloseLevel(c, y, k);
      CloseLevel(l, y, k);
      CloseLevel(r, y, k);
    case Binder(_, t, b) =>
      CloseLevel(t, y, k);
      CloseLevel(b, y, k + 1);
    case LetIn(t, v, b) =>
      CloseLevel(t, y, k);
      CloseLevel(v, y, k);
      CloseLevel(b, y, k + 1);
    case _ =>
  }

  lemma {:induction false} PutLevel(m: Term, x: string, n: string, k: nat)
    requires Level(m, k)
    ensures Level(Put(m, x, Free(n)), k)
  {
    match m
    case Two(_, l, r) =>
      PutLevel(l, x, n, k);
      PutLevel(r, x, n, k);
    case Three(_, c, l, r) =>
      PutLevel(c, x, n, k);
      PutLevel(l, x, n, k);
      PutLevel(r, x, n, k);
    case Binder(_, t, b) =>
      PutLevel(t, x, n, k);
      PutLevel(b, x, n, k + 1);
    case LetIn(t, v, b) =>
      PutLevel(t, x, n, k);
      PutLevel(v, x, n, k);
      PutLevel(b, x, n, k + 1);
    case _ =>
  }

  lemma {:induction false} MeaningLevel(e: Expr)
    ensures Level(Meaning(e), 0)
  {
    match e
    case App(f, a) =>
      MeaningLevel(f);
      MeaningLevel(a);
    case Lam(x, _, t, b) =>
      MeaningLevel(t);
      MeaningLevel(b);
      CloseLevel(Meaning(b), x, 0);
    case Pi(x, _, t, b) =>
      MeaningLevel(t);
      MeaningLevel(b);
      CloseLevel(Meaning(b), x, 0);
    case Let(x, t, v, b) =>
      MeaningLevel(t);
      MeaningLevel(v);
      MeaningLevel(b);
      CloseLevel(Meaning(b), x, 0);
    case Eqn(t, l, r) =>
      MeaningLevel(t);
      MeaningLevel(l);
      MeaningLevel(r);
    case And(l, r) =>
      MeaningLevel(l);
      MeaningLevel(r);
    case Or(l, r) =>
      MeaningLevel(l);
      MeaningLevel(r);
    case Ite(c, l, r) =>
      MeaningLevel(c);
      MeaningLevel(l);
      MeaningLevel(r);
    case _ =>
  }

  /** Closing forgets nothing of a term in which no variable is bound so far out already. */
  lemma {:induction false} CloseApart(m: Term, n: Term, y: string, k: nat)
    requires Level(m, k) && Level(n, k) && Close(m, y, k) == Close(n, y, k)
    ensures m == n
    decreases m
  {
    match m
    case Two(_, l, r) =>
      CloseApart(l, n.l, y, k);
      CloseApart(r, n.r, y, k);
    case Three(_, c, l, r) =>
      CloseApart(c, n.c, y, k);
      CloseApart(l, n.l, y, k);
      CloseApart(r, n.r, y, k);
    case Binder(_, t, b) =>
      CloseApart(t, n.t, y, k);
      CloseApart(b, n.b, y, k + 1);
    case LetIn(t, v, b) =>
      CloseApart(t, n.t, y, k);
      CloseApart(v, n.v, y, k);
      CloseApart(b, n.b, y, k + 1);
    case _ =>
  }

  /** Two bodies are alike under their binders if and only if they are with one new name for both variables. */
  lemma OpenedAlike(x: string, b: Term, y: string, c: Term, f: string)
    requires Level(b, 0) && Level(c, 0) && f !in Names(b) && f !in Names(c)
    ensures Close(b, x, 0) == Close(c, y, 0) <==> Put(b, x, Free(f)) == Put(c, y, Free(f))
  {
    Rename(b, x, f, 0);
    Rename(c, y, f, 0);
    PutLevel(b, x, f, 0);
    PutLevel(c, y, f, 0);
    if Close(b, x, 0) == Close(c, y, 0) {
      CloseApart(Put(b, x, Free(f)), Put(c, y, Free(f)), f, 0);
    }
  }

  lemma BinderAlike(p: Expr, t: Expr, f: string)
    requires (p.Lam? && t.Lam?) || (p.Pi? && t.Pi?)
    requires f !in Fv(p.b) && f !in Fv(t.b)
    ensures Alike(p, t) <==> Alike(p.t, t.t) && Alike(Subst(p.x, Var(f), p.b), Subst(t.x, Var(f), t.b))
  {
    var b, c := Meaning(p.b), Meaning(t.b);
    SubstMeaning(p.x, Var(f), p.b);
    SubstMeaning(t.x, Var(f), t.b);
    BarePut(b, p.x, f);
    BarePut(c, t.x, f);
    BareClose(b, p.x, 0);
    BareClose(c, t.x, 0);
    MeaningLevel(p.b);
    MeaningLevel(t.b);
    BareLevel(b, 0);
    BareLevel(c, 0);
    MeaningNames(p.b);
    MeaningNames(t.b);
    BareNames(b);
    BareNames(c);
    OpenedAlike(p.x, Bare(b), t.x, Bare(c), f);
  }

  // ---- the terms that are compared ----

  /** No metavariables, no `let`, and every name resolved. */
  predicate Rigid(e: Expr)
    decreases Size(e)
  {
    !e.Hole? && !e.Let? && !e.Name? && forall k :: k in Kids(e) ==> Rigid(k)
  }

  lemma {:induction false} RigidHoles(e: Expr)
    requires Rigid(e)
    ensures Holes(e) == {}
    decreases Size(e)
  {
    forall k | k in Kids(e) ensures Holes(k) == {} {
      RigidHoles(k);
    }
  }

  /** The names the matcher makes up. */
  function NewName(n: nat): string {
    "m$" + Digits(n)
  }

  lemma NewNameApart(i: nat, j: nat)
    requires NewName(i) == NewName(j)
    ensures i == j
  {
    assert NewName(i)[2..] == Digits(i) && NewName(j)[2..] == Digits(j);
    DigitsApart(i, j);
  }

  function Own(e: Expr): set<string> {
    match e
    case Name(n) => {n}
    case Var(n) => {n}
    case Lam(x, _, _, _) => {x}
    case Pi(x, _, _, _) => {x}
    case Let(x, _, _, _) => {x}
    case _ => {}
  }

  /** All names in the term, free or bound. */
  function AllNames(e: Expr): set<string>
    decreases Size(e)
  {
    Own(e) + set k, n | k in Kids(e) && n in AllNames(k) :: n
  }

  lemma KidNames(e: Expr, k: Expr)
    requires k in Kids(e)
    ensures AllNames(k) <= AllNames(e)
  {
  }

  lemma {:induction false} FreeNames(e: Expr)
    ensures Fv(e) <= AllNames(e)
    decreases Size(e)
  {
    var ks := Kids(e);
    forall k | k in ks ensures Fv(k) <= AllNames(e) {
      FreeNames(k);
      KidNames(e, k);
    }
    if |ks| > 0 {
      assert ks[0] in ks && ks[1] in ks;
    }
    if |ks| > 2 {
      assert ks[2] in ks;
    }
  }

  /** None of the names still to be made up is in the term. */
  ghost predicate Newer(e: Expr, n: nat) {
    forall k :: k >= n ==> NewName(k) !in AllNames(e)
  }

  lemma NamesWithin(e: Expr, names: set<string>)
    requires Own(e) <= names && forall j :: 0 <= j < |Kids(e)| ==> AllNames(Kids(e)[j]) <= names
    ensures AllNames(e) <= names
  {
    forall k | k in Kids(e) ensures AllNames(k) <= names {
      var j :| 0 <= j < |Kids(e)| && Kids(e)[j] == k;
    }
  }

  /** A binder whose variable is not the new name is not renamed. */
  lemma BinderOpens(x: string, f: string, e: Expr)
    requires (e.Lam? || e.Pi?) && e.x != f
    ensures var r := Subst(x, Var(f), e);
            && Kids(r) == [Subst(x, Var(f), e.t), if e.x == x then e.b else Subst(x, Var(f), e.b)]
            && Own(r) == Own(e)
  {
    assert Fv(Var(f)) == {f};
    assert Under(x, Var(f), e.x, e.b) == (e.x, if e.x == x then e.b else Subst(x, Var(f), e.b));
  }

  /** A new name for a variable: nothing has to be renamed, and only that name is added. */
  lemma {:induction false} OpenedNames(x: string, f: string, e: Expr)
    requires Rigid(e) && f !in AllNames(e)
    ensures AllNames(Subst(x, Var(f), e)) <= AllNames(e) + {f}
    decreases Size(e), 1
  {
    var names := AllNames(e) + {f};
    forall k | k in Kids(e) ensures AllNames(Subst(x, Var(f), k)) <= names && AllNames(k) <= names {
      KidNames(e, k);
      OpenedNames(x, f, k);
    }
    if e.Lam? || e.Pi? {
      BinderNames(x, f, e, names);
    } else {
      PartNames(x, f, e, names);
    }
  }

  lemma BinderNames(x: string, f: string, e: Expr, names: set<string>)
    requires (e.Lam? || e.Pi?) && e.x != f && Own(e) <= names
    requires forall k :: k in Kids(e) ==> AllNames(Subst(x, Var(f), k)) <= names && AllNames(k) <= names
    ensures AllNames(Subst(x, Var(f), e)) <= names
  {
    assert Kids(e)[0] == e.t && Kids(e)[1] == e.b;
    BinderOpens(x, f, e);
    NamesWithin(Subst(x, Var(f), e), names);
  }

  lemma PartsOpen(x: string, f: string, e: Expr)
    requires !e.Lam? && !e.Pi? && !e.Let?
    ensures var r := Subst(x, Var(f), e);
            && |Kids(r)| == |Kids(e)| && Own(r) <= Own(e) + {f}
            && forall j :: 0 <= j < |Kids(e)| ==> Kids(r)[j] == Subst(x, Var(f), Kids(e)[j])
  {
  }

  lemma PartNames(x: string, f: string, e: Expr, names: set<string>)
    requires !e.Lam? && !e.Pi? && !e.Let? && Own(e) + {f} <= names
    requires forall k :: k in Kids(e) ==> AllNames(Subst(x, Var(f), k)) <= names
    ensures AllNames(Subst(x, Var(f), e)) <= names
  {
    PartsOpen(x, f, e);
    forall j | 0 <= j < |Kids(e)| ensures AllNames(Subst(x, Var(f), Kids(e)[j])) <= names {
      assert Kids(e)[j] in Kids(e);
    }
    NamesWithin(Subst(x, Var(f), e), names);
  }

  lemma OpenedNewer(x: string, b: Expr, n: nat)
    requires Rigid(b) && Newer(b, n)
    ensures Newer(Subst(x, Var(NewName(n)), b), n + 1)
  {
    OpenedNames(x, NewName(n), b);
    forall k | k >= n + 1 ensures NewName(k) !in AllNames(Subst(x, Var(NewName(n)), b)) {
      if NewName(k) == NewName(n) {
        NewNameApart(k, n);
      }
    }
  }

  lemma {:induction false} OpenedRigid(x: string, f: string, e: Expr)
    requires Rigid(e)
    ensures Rigid(Subst(x, Var(f), e))
    decreases Size(e), 1
  {
    if e.Lam? || e.Pi? {
      assert Kids(e)[0] == e.t && Kids(e)[1] == e.b;
      OpenedRigid(x, f, e.t);
      UnderRigid(x, f, e.x, e.b);
      var r := Subst(x, Var(f), e);
      assert Kids(r) == [Subst(x, Var(f), e.t), Under(x, Var(f), e.x, e.b).1];
    } else {
      forall k | k in Kids(e) ensures Rigid(Subst(x, Var(f), k)) {
        OpenedRigid(x, f, k);
      }
      PartsRigid(x, f, e);
    }
  }

  lemma PartsRigid(x: string, f: string, e: Expr)
    requires Rigid(e) && !e.Lam? && !e.Pi? && forall k :: k in Kids(e) ==> Rigid(Subst(x, Var(f), k))
    ensures Rigid(Subst(x, Var(f), e))
  {
    var r, ks := Subst(x, Var(f), e), Kids(e);
    forall j | 0 <= j < |ks| ensures Rigid(Subst(x, Var(f), ks[j])) {
      assert ks[j] in Kids(e);
    }
    assert Kids(r) == seq(|ks|, j requires 0 <= j < |ks| => Subst(x, Var(f), ks[j]));
  }

  lemma {:induction false} UnderRigid(x: string, f: string, y: string, b: Expr)
    requires Rigid(b)
    ensures Rigid(Under(x, Var(f), y, b).1)
    decreases Size(b), 2
  {
    if y == x {
    } else if y in Fv(Var(f)) {
      var y2 := FreshAvoiding(y, Taken(x, Var(f), b));
      OpenedRigid(y, y2, b);
      OpenedRigid(x, f, Subst(y, Var(y2), b));
    } else {
      OpenedRigid(x, f, b);
    }
  }

  /** Both sides can be compared with the names from `n` on. */
  ghost predicate Comparable(p: Expr, t: Expr, n: nat) {
    Rigid(p) && Rigid(t) && Newer(p, n) && Newer(t, n)
  }

  lemma ComparableLater(p: Expr, t: Expr, n: nat, k: nat)
    requires Comparable(p, t, n) && n <= k
    ensures Comparable(p, t, k)
  {
  }

  lemma KidComparable(p: Expr, t: Expr, n: nat, j: nat)
    requires Comparable(p, t, n) && j < |Kids(p)| == |Kids(t)| && !p.Lam? && !p.Pi? && !t.Lam? && !t.Pi?
    ensures Comparable(Kids(p)[j], Kids(t)[j], n)
  {
    KidNames(p, Kids(p)[j]);
    KidNames(t, Kids(t)[j]);
  }

  /** Applications and the like are alike if their parts are. */
  lemma KidsAlike(p: Expr, t: Expr)
    requires SameHead(p, t) && |Kids(p)| == |Kids(t)|
    requires p.App? || p.Eqn? || p.And? || p.Or? || p.Ite?
    ensures Alike(p, t) <==> forall j :: 0 <= j < |Kids(p)| ==> Alike(Kids(p)[j], Kids(t)[j])
  {
    var ps, ts := Kids(p), Kids(t);
    assert Alike(ps[0], ts[0]) <==> Bare(Meaning(ps[0])) == Bare(Meaning(ts[0]));
    assert Alike(ps[1], ts[1]) <==> Bare(Meaning(ps[1])) == Bare(Meaning(ts[1]));
    if |ps| > 2 {
      assert Alike(ps[2], ts[2]) <==> Bare(Meaning(ps[2])) == Bare(Meaning(ts[2]));
    }
  }

  /** Under different heads, or without parts, only the same terms are alike. */
  lemma HeadsAlike(p: Expr, t: Expr)
    requires Rigid(p) && Rigid(t) && !(p.Lam? && t.Lam?) && !(p.Pi? && t.Pi?)
    requires !(p.App? && t.App?) && !(p.Eqn? && t.Eqn?) && !(p.And? && t.And?)
    requires !(p.Or? && t.Or?) && !(p.Ite? && t.Ite?)
    ensures Alike(p, t) <==> p == t
  {
  }

  // ---- what a comparison answers ----

  /** Without holes nothing is assigned, and the answer is whether the two are alike. */
  ghost predicate Compared(a: Assign, a': Assign, p: Expr, t: Expr, n: nat, ok: bool) {
    Comparable(p, t, n) ==> a' == a && (ok <==> Alike(p, t))
  }

  /** The first `i` parts have been compared. */
  ghost predicate PartsCompared(a: Assign, a': Assign, p: Expr, t: Expr, n: nat, i: nat, ok: bool)
    requires i <= |Kids(p)| == |Kids(t)|
  {
    Comparable(p, t, n) ==> a' == a && (ok <==> forall j :: 0 <= j < i ==> Alike(Kids(p)[j], Kids(t)[j]))
  }

  lemma OneMoreCompared(a: Assign, a1: Assign, a2: Assign, p: Expr, t: Expr, n: nat, m: nat, i: nat, ok: bool)
    requires i < |Kids(p)| == |Kids(t)| && n <= m && !p.Lam? && !p.Pi? && !t.Lam? && !t.Pi?
    requires PartsCompared(a, a1, p, t, n, i, true) && Compared(a1, a2, Kids(p)[i], Kids(t)[i], m, ok)
    ensures PartsCompared(a, a2, p, t, n, i + 1, ok)
  {
    if Comparable(p, t, n) {
      KidComparable(p, t, n, i);
      ComparableLater(Kids(p)[i], Kids(t)[i], n, m);
    }
  }

  lemma AllCompared(a: Assign, a': Assign, p: Expr, t: Expr, n: nat, i: nat, ok: bool)
    requires SameHead(p, t) && i <= |Kids(p)| == |Kids(t)| && (ok ==> i == |Kids(p)|)
    requires p.App? || p.Eqn? || p.And? || p.Or? || p.Ite?
    requires PartsCompared(a, a', p, t, n, i, ok)
    ensures Compared(a, a', p, t, n, ok)
  {
    KidsAlike(p, t);
  }

  lemma WholeCompared(a: Assign, p: Expr, t: Expr, n: nat)
    requires !(p.Lam? && t.Lam?) && !(p.Pi? && t.Pi?)
    requires !(p.App? && t.App?) && !(p.Eqn? && t.Eqn?) && !(p.And? && t.And?)
    requires !(p.Or? && t.Or?) && !(p.Ite? && t.Ite?)
    ensures Compared(a, a, p, t, n, p == t)
  {
    if Comparable(p, t, n) {
      HeadsAlike(p, t);
    }
  }

  /** Domains first, then the bodies with a new name. */
  lemma BinderCompared(a: Assign, a1: Assign, a2: Assign, p: Expr, t: Expr, n: nat, m: nat, ok1: bool, ok: bool)
    requires (p.Lam? && t.Lam?) || (p.Pi? && t.Pi?)
    requires n <= m && Compared(a, a1, p.t, t.t, n, ok1)
    requires if ok1 then Compared(a1, a2, Subst(p.x, Var(NewName(m)), p.b), Subst(t.x, Var(NewName(m)), t.b), m + 1, ok)
             else a2 == a1 && !ok
    ensures Compared(a, a2, p, t, n, ok)
  {
    if Comparable(p, t, n) {
      BinderNewer(p, n, m);
      BinderNewer(t, n, m);
      BinderAlike(p, t, NewName(m));
      OpenedNewer(p.x, p.b, m);
      OpenedNewer(t.x, t.b, m);
      OpenedRigid(p.x, NewName(m), p.b);
      OpenedRigid(t.x, NewName(m), t.b);
    }
  }

  lemma BinderNewer(p: Expr, n: nat, m: nat)
    requires (p.Lam? || p.Pi?) && Rigid(p) && Newer(p, n) && n <= m
    ensures Rigid(p.t) && Rigid(p.b) && Newer(p.t, n) && Newer(p.b, m) && NewName(m) !in Fv(p.b)
  {
    assert Kids(p)[0] == p.t && Kids(p)[1] == p.b;
    KidNames(p, p.t);
    KidNames(p, p.b);
    FreeNames(p.b);
  }
}
