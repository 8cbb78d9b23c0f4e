/** What it means for a pattern to match a term, apart from how a match is searched for: some larger
    assignment makes the two the same. */
module LeanSolve {
  import opened LeanTerm
  import opened LeanHoles

  /** No `fun` and no `forall`; `let` is only ever compared whole. */
  predicate Plain(e: Expr)
    decreases Size(e)
  {
    !e.Lam? && !e.Pi? && forall k :: k in Kids(e) ==> Plain(k)
  }

  predicate PlainAssign(a: Assign) {
    forall h :: h in a ==> Plain(a[h])
  }

  lemma {:induction false} ZonkPlain(a: Assign, e: Expr, rank: nat -> nat, n: nat)
    requires Ranked(a, rank) && Below(a, e, rank, n) && PlainAssign(a) && Plain(e)
    ensures Plain(Zonk(a, e, rank, n))
    decreases n, Size(e)
  {
    if e.Hole? {
      if e.h in a {
        ZonkPlain(a, a[e.h], rank, rank(e.h));
      }
    } else {
      var z := Zonk(a, e, rank, n);
      forall k | k in Kids(z) ensures Plain(k) {
        var j :| 0 <= j < |Kids(z)| && Kids(z)[j] == k;
        KidBelow(a, e, rank, n, Kids(e)[j]);
        ZonkPlain(a, Kids(e)[j], rank, n);
      }
    }
  }

  lemma KidHoles(e: Expr, k: Expr)
    requires k in Kids(e)
    ensures Holes(k) <= Holes(e)
  {
  }

  /** A plain term whose `let`s, which are only ever compared whole, have no holes. */
  predicate Pattern(e: Expr)
    decreases Size(e)
  {
    !e.Lam? && !e.Pi? && (e.Let? ==> Holes(e) == {}) && forall k :: k in Kids(e) ==> Pattern(k)
  }

  predicate Ground(e: Expr) {
    Holes(e) == {} && Plain(e)
  }

  lemma KidsGround(e: Expr)
    requires Ground(e)
    ensures !e.Hole? && forall k :: k in Kids(e) ==> Ground(k)
  {
    forall k | k in Kids(e) ensures Holes(k) == {} {
      KidHoles(e, k);
    }
  }

  lemma {:induction false} GroundPattern(e: Expr)
    requires Ground(e)
    ensures Pattern(e)
    decreases Size(e)
  {
    KidsGround(e);
    forall k | k in Kids(e) ensures Pattern(k) {
      GroundPattern(k);
    }
  }

  lemma GroundZonked(a: Assign, e: Expr)
    requires Acyclic(a) && Ground(e)
    ensures Z(a, e) == e
  {
    ZNothing(a, e);
  }

  /** With `b`, which has all of `a`, pattern `p` becomes `t`. */
  ghost predicate Solution(a: Assign, b: Assign, p: Expr, t: Expr) {
    Acyclic(b) && Grows(a, b) && Z(b, p) == t
  }

  /** What `a'` has beyond `a` are ground terms. */
  predicate GroundMore(a: Assign, a': Assign) {
    Grows(a, a') && forall h :: h in a' && h !in a ==> Ground(a'[h])
  }

  /** `b` says of every hole that `a'` has beyond `a` what `a'` says. */
  ghost predicate Agrees(a: Assign, a': Assign, b: Assign)
    requires Acyclic(b)
  {
    forall h :: h in a' && h !in a ==> Z(b, Hole(h)) == a'[h]
  }

  /** A search from `a` to `a'` that answered `ok` missed no solution, and has assigned nothing that a solution
      could see otherwise. */
  ghost predicate Complete(a: Assign, a': Assign, p: Expr, t: Expr, ok: bool) {
    Pattern(p) && Ground(t) ==>
      GroundMore(a, a') && forall b :: Solution(a, b, p, t) ==> ok && Agrees(a, a', b)
  }

  // ---- carrying a solution past the assignments already made ----

  /** `b` with the values of `a'` where `a'` goes beyond `a`. */
  function Over(a: Assign, a': Assign, b: Assign): Assign {
    map h | h in b :: if h in a' && h !in a then a'[h] else b[h]
  }

  lemma OverRanked(a: Assign, a': Assign, b: Assign, rank: nat -> nat)
    requires GroundMore(a, a') && Ranked(b, rank)
    ensures Ranked(Over(a, a', b), rank)
  {
  }

  lemma AgreedAssigned(a: Assign, a': Assign, b: Assign, h: nat)
    requires Acyclic(b) && GroundMore(a, a') && Agrees(a, a', b) && h in a' && h !in a
    ensures h in b
  {
    assert Holes(Hole(h)) == {h} && Z(b, Hole(h)) == a'[h];
    if h !in b {
      ZNothing(b, Hole(h));
      assert false;
    }
  }

  lemma OverGrows(a: Assign, a': Assign, b: Assign)
    requires Acyclic(b) && GroundMore(a, a') && Agrees(a, a', b) && Grows(a, b)
    ensures Grows(a', Over(a, a', b))
  {
    forall h | h in a' ensures h in Over(a, a', b) && Over(a, a', b)[h] == a'[h] {
      if h !in a {
        AgreedAssigned(a, a', b, h);
      }
    }
  }

  lemma {:induction false} OverZonk(a: Assign, a': Assign, b: Assign, e: Expr, rank: nat -> nat, n: nat)
    requires GroundMore(a, a') && Ranked(b, rank) && Acyclic(b) && Agrees(a, a', b) && Below(b, e, rank, n)
    ensures Ranked(Over(a, a', b), rank) && Below(Over(a, a', b), e, rank, n)
    ensures Zonk(Over(a, a', b), e, rank, n) == Zonk(b, e, rank, n)
    decreases n, Size(e)
  {
    var o := Over(a, a', b);
    OverRanked(a, a', b, rank);
    if e.Hole? {
      if e.h in b {
        if e.h in a' && e.h !in a {
          ZonkNothing(o, a'[e.h], rank, rank(e.h));
          ZIs(b, e, rank, n);
        } else {
          OverZonk(a, a', b, b[e.h], rank, rank(e.h));
        }
      }
    } else {
      var z, y := Zonk(o, e, rank, n), Zonk(b, e, rank, n);
      forall j | 0 <= j < |Kids(e)| ensures Kids(z)[j] == Kids(y)[j] {
        KidBelow(b, e, rank, n, Kids(e)[j]);
        KidBelow(o, e, rank, n, Kids(e)[j]);
        OverZonk(a, a', b, Kids(e)[j], rank, n);
      }
      assert Kids(z) == Kids(y);
      SameHeadTrans(z, e, e, y);
      SameHeadEqual(z, y);
    }
  }

  /** A solution that agrees with what has been assigned can be taken to contain it. */
  lemma Carried(a: Assign, a': Assign, b: Assign)
    requires Acyclic(b) && Grows(a, b) && GroundMore(a, a') && Agrees(a, a', b)
    ensures var o := Over(a, a', b);
            Acyclic(o) && Grows(a', o) && forall e :: Z(o, e) == Z(b, e)
  {
    var o := Over(a, a', b);
    var rank: nat -> nat :| Ranked(b, rank);
    OverRanked(a, a', b, rank);
    OverGrows(a, a', b);
    forall e ensures Z(o, e) == Z(b, e) {
      var n := MaxRank(Holes(e), rank) + 1;
      OverZonk(a, a', b, e, rank, n);
      ZIs(o, e, rank, n);
      ZIs(b, e, rank, n);
    }
  }

  // ---- one step of a search ----

  lemma GroundValue(a: Assign, h: nat)
    requires Acyclic(a) && h in a && Ground(a[h])
    ensures Z(a, Hole(h)) == a[h]
  {
    var rank: nat -> nat :| Ranked(a, rank);
    ZIs(a, Hole(h), rank, rank(h) + 1);
    ZonkNothing(a, a[h], rank, rank(h));
  }

  /** What has been assigned so far leaves a pattern a pattern. */
  lemma {:induction false} PatternZonked(a0: Assign, a: Assign, e: Expr)
    requires Acyclic(a) && GroundMore(a0, a) && Pattern(e) && forall i :: i in Holes(e) ==> i !in a0
    ensures Pattern(Z(a, e))
    decreases Size(e)
  {
    if e.Hole? {
      if e.h in a {
        GroundValue(a, e.h);
        GroundPattern(a[e.h]);
      } else {
        ZNothing(a, e);
      }
    } else if e.Let? {
      ZNothing(a, e);
    } else {
      ZKids(a, e);
      var z := Z(a, e);
      forall k | k in Kids(z) ensures Pattern(k) {
        var j :| 0 <= j < |Kids(z)| && Kids(z)[j] == k;
        KidHoles(e, Kids(e)[j]);
        PatternZonked(a0, a, Kids(e)[j]);
      }
    }
  }

  /** An unassigned hole and a ground term. */
  lemma HoleComplete(a: Assign, h: nat, t: Expr, a': Assign, ok: bool)
    requires Acyclic(a) && h !in a && (ok <==> t == Hole(h) || h !in Holes(t))
    requires a' == if ok && t != Hole(h) then a[h := t] else a
    ensures Complete(a, a', Hole(h), t, ok)
  {
  }

  /** Heads that are compared whole. */
  lemma WholeComplete(a: Assign, p: Expr, t: Expr)
    requires Acyclic(a) && !p.Hole? && !p.Lam? && !p.Pi?
    requires p.App? || p.Eqn? || p.And? || p.Or? || p.Ite? ==> !SameHead(t, p)
    ensures Complete(a, a, p, t, p == t)
  {
    forall b | Pattern(p) && Solution(a, b, p, t) ensures p == t {
      ZKids(b, p);
      if p.Let? {
        ZNothing(b, p);
      }
    }
  }

  lemma PartSolved(a0: Assign, a: Assign, b: Assign, p: Expr, t: Expr, i: nat)
    requires Acyclic(a) && GroundMore(a0, a) && Solution(a0, b, p, t) && Agrees(a0, a, b) && !p.Hole?
    requires i < |Kids(p)| == |Kids(t)| && Ground(t)
    ensures Solution(a, Over(a0, a, b), Z(a, Kids(p)[i]), Z(a, Kids(t)[i]))
  {
    var o := Over(a0, a, b);
    Carried(a0, a, b);
    ZKids(b, p);
    KidsGround(t);
    GroundZonked(a, Kids(t)[i]);
    ZTwice(a, o, Kids(p)[i]);
  }

  lemma PartAgrees(a0: Assign, a: Assign, a': Assign, b: Assign, p: Expr, t: Expr, i: nat, ok: bool)
    requires Acyclic(a) && !p.Hole? && i < |Kids(p)| == |Kids(t)| && Ground(t)
    requires GroundMore(a0, a) && Solution(a0, b, p, t) && Agrees(a0, a, b)
    requires Pattern(Z(a, Kids(p)[i])) && Ground(Z(a, Kids(t)[i]))
    requires Complete(a, a', Z(a, Kids(p)[i]), Z(a, Kids(t)[i]), ok)
    ensures ok && Agrees(a0, a', b)
  {
    PartSolved(a0, a, b, p, t, i);
    Carried(a0, a, b);
  }

  /** One more part searched. */
  lemma PartComplete(a0: Assign, a: Assign, a': Assign, p: Expr, t: Expr, i: nat, ok: bool)
    requires Acyclic(a) && !p.Hole? && i < |Kids(p)| == |Kids(t)| && (forall j :: j in Holes(p) ==> j !in a0)
    requires Complete(a0, a, p, t, true) && Complete(a, a', Z(a, Kids(p)[i]), Z(a, Kids(t)[i]), ok)
    ensures Complete(a0, a', p, t, ok)
  {
    if Pattern(p) && Ground(t) {
      KidHoles(p, Kids(p)[i]);
      KidsGround(t);
      PatternZonked(a0, a, Kids(p)[i]);
      GroundZonked(a, Kids(t)[i]);
      forall b | Solution(a0, b, p, t) ensures ok && Agrees(a0, a', b) {
        PartAgrees(a0, a, a', b, p, t, i, ok);
      }
    }
  }

  // ---- the whole search ----

  /** Some larger assignment makes pattern and subject the same. */
  ghost predicate Matchable(a: Assign, pat: Expr, s: Expr) {
    exists b :: Acyclic(b) && Grows(a, b) && Z(b, pat) == Z(b, s)
  }

  /** Terms without binders, a subject without unassigned holes, and no hole in a `let` of the pattern. */
  ghost predicate Fits(a: Assign, pat: Expr, s: Expr)
    requires Acyclic(a)
  {
    PlainAssign(a) && Plain(pat) && Plain(s) && Pattern(Z(a, pat)) && Ground(Z(a, s))
  }

  /** An answer that is right when it is yes, and misses nothing, is exact. */
  lemma MatchesIfFits(a: Assign, a': Assign, pat: Expr, s: Expr, ok: bool)
    requires Acyclic(a) && Acyclic(a') && Grows(a, a') && Complete(a, a', Z(a, pat), Z(a, s), ok)
    requires Plain(pat) && Plain(s) && PlainAssign(a) && ok ==> Z(a', pat) == Z(a', s)
    ensures Fits(a, pat, s) ==> (ok <==> Matchable(a, pat, s))
  {
    if Fits(a, pat, s) {
      MatchesExactly(a, a', pat, s, ok);
    }
  }

  lemma MatchesExactly(a: Assign, a': Assign, pat: Expr, s: Expr, ok: bool)
    requires Acyclic(a) && Acyclic(a') && Grows(a, a') && (ok ==> Z(a', pat) == Z(a', s))
    requires Pattern(Z(a, pat)) && Ground(Z(a, s)) && Complete(a, a', Z(a, pat), Z(a, s), ok)
    ensures ok <==> Matchable(a, pat, s)
  {
    forall b | Acyclic(b) && Grows(a, b) && Z(b, pat) == Z(b, s) ensures ok {
      ZTwice(a, b, pat);
      ZTwice(a, b, s);
      GroundZonked(b, Z(a, s));
      assert Solution(a, b, Z(a, pat), Z(a, s));
    }
  }
}
