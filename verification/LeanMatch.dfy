/** `assign_hole` and `match_pat` on the elaborator's assignment, which grows in place while a
    pattern is matched. */
module LeanMatch {
  import opened LeanTerm
  import opened LeanHoles
  import opened LeanSolve
  import opened LeanAlpha

  ghost predicate Closed(a: Assign, u: set<nat>) {
    forall h :: h in a ==> Holes(a[h]) <= u
  }

  lemma {:induction false} ZonkWithin(a: Assign, e: Expr, rank: nat -> nat, n: nat, u: set<nat>)
    requires Ranked(a, rank) && Below(a, e, rank, n) && Closed(a, u) && Holes(e) <= u
    ensures Holes(Zonk(a, e, rank, n)) <= u
    decreases n, Size(e)
  {
    if e.Hole? {
      if e.h in a {
        ZonkWithin(a, a[e.h], rank, rank(e.h), u);
      }
    } else {
      var z := Zonk(a, e, rank, n);
      forall k, i | k in Kids(z) && i in Holes(k) ensures i in u {
        var j :| 0 <= j < |Kids(z)| && Kids(z)[j] == k;
        KidBelow(a, e, rank, n, Kids(e)[j]);
        KidHoles(e, Kids(e)[j]);
        ZonkWithin(a, Kids(e)[j], rank, n, u);
      }
    }
  }

  // ---- holes of a substitution ----

  lemma {:induction false} SubstHoles(x: string, v: Expr, e: Expr)
    ensures Holes(Subst(x, v, e)) <= Holes(e) + Holes(v)
    decreases Size(e), 1
  {
    if e.Lam? || e.Pi? || e.Let? {
      BinderHoles(x, v, e);
    } else {
      forall k | k in Kids(e) ensures Holes(Subst(x, v, k)) <= Holes(k) + Holes(v) {
        SubstHoles(x, v, k);
      }
      PlainHoles(x, v, e);
    }
  }

  lemma PlainHoles(x: string, v: Expr, e: Expr)
    requires !e.Lam? && !e.Pi? && !e.Let?
    requires forall k :: k in Kids(e) ==> Holes(Subst(x, v, k)) <= Holes(k) + Holes(v)
    ensures Holes(Subst(x, v, e)) <= Holes(e) + Holes(v)
  {
    var r, ks := Subst(x, v, e), Kids(e);
    if |ks| > 0 {
      SubstParts(x, v, e);
      forall k, i | k in Kids(r) && i in Holes(k) ensures i in Holes(e) + Holes(v) {
        var j :| 0 <= j < |ks| && Kids(r)[j] == k;
        KidHoles(e, ks[j]);
      }
    }
  }

  lemma SubstParts(x: string, v: Expr, e: Expr)
    requires !e.Lam? && !e.Pi? && !e.Let? && |Kids(e)| > 0
    ensures var r := Subst(x, v, e);
            !r.Hole? && |Kids(r)| == |Kids(e)|
              && forall j :: 0 <= j < |Kids(e)| ==> Kids(r)[j] == Subst(x, v, Kids(e)[j])
  {
  }

  lemma {:induction false} UnderHoles(x: string, v: Expr, y: string, b: Expr)
    ensures Holes(Under(x, v, y, b).1) <= Holes(b) + Holes(v)
    decreases Size(b), 2
  {
    if y == x {
    } else if y in Fv(v) {
      var y2 := FreshAvoiding(y, Taken(x, v, b));
      SubstHoles(y, Var(y2), b);
      SubstHoles(x, v, Subst(y, Var(y2), b));
      assert Kids(Var(y2)) == [];
    } else {
      SubstHoles(x, v, b);
    }
  }

  lemma {:induction false} BinderHoles(x: string, v: Expr, e: Expr)
    requires e.Lam? || e.Pi? || e.Let?
    ensures Holes(Subst(x, v, e)) <= Holes(e) + Holes(v)
    decreases Size(e), 0
  {
    var r := Subst(x, v, e);
    SubstHoles(x, v, e.t);
    UnderHoles(x, v, e.x, e.b);
    if e.Let? {
      SubstHoles(x, v, e.v);
      assert Kids(r) == [Subst(x, v, e.t), Subst(x, v, e.v), Under(x, v, e.x, e.b).1];
      KidHoles(e, e.v);
    } else {
      assert Kids(r) == [Subst(x, v, e.t), Under(x, v, e.x, e.b).1];
    }
    KidHoles(e, e.t);
    KidHoles(e, e.b);
  }

  // ---- the elaborator ----

  /** After assigning a zonked hole, it and its value mean the same. */
  lemma AssignedSame(a: Assign, h: nat, v: Expr)
    requires Acyclic(a[h := v])
    ensures Z(a[h := v], Hole(h)) == Z(a[h := v], v)
  {
    var a' := a[h := v];
    var r: nat -> nat :| Ranked(a', r);
    ZIs(a', Hole(h), r, r(h) + 1);
    ZIs(a', v, r, r(h));
  }

  lemma FewerLeft(u: set<nat>, a: Assign, a': Assign)
    requires Grows(a, a') && a'.Keys <= a.Keys + u
    ensures a' == a || |u - a'.Keys| < |u - a.Keys|
  {
    if a'.Keys == a.Keys {
      assert a' == a;
    } else {
      var h :| h in a'.Keys && h !in a.Keys;
      assert u - a'.Keys <= (u - a.Keys) - {h};
      FewerSets(u - a'.Keys, u - a.Keys, h);
    }
  }

  lemma FewerSets(s: set<nat>, t: set<nat>, h: nat)
    requires s <= t - {h} && h in t
    ensures |s| < |t|
  {
    SubsetSize(s, t - {h});
  }

  lemma {:induction false} SubsetSize(s: set<nat>, t: set<nat>)
    requires s <= t
    ensures |s| <= |t|
  {
    if s != {} {
      var x :| x in s;
      SubsetSize(s - {x}, t - {x});
    }
  }

  /** Equal once is equal for good. */
  lemma StillSame(a: Assign, a': Assign, p: Expr, s: Expr)
    requires Acyclic(a) && Acyclic(a') && Grows(a, a') && Z(a, p) == Z(a, s)
    ensures Z(a', p) == Z(a', s)
  {
    ZTwice(a, a', p);
    ZTwice(a, a', s);
  }

  /** Terms equal part by part under the same head are equal. */
  lemma KidsSame(a: Assign, p: Expr, t: Expr)
    requires Acyclic(a) && !p.Hole? && !t.Hole? && SameHead(p, t) && |Kids(p)| == |Kids(t)|
    requires forall j :: 0 <= j < |Kids(p)| ==> Z(a, Kids(p)[j]) == Z(a, Kids(t)[j])
    ensures Z(a, p) == Z(a, t)
  {
    ZKids(a, p);
    ZKids(a, t);
    assert Kids(Z(a, p)) == Kids(Z(a, t));
    SameHeadTrans(Z(a, p), p, t, Z(a, t));
    SameHeadEqual(Z(a, p), Z(a, t));
  }

  predicate PlainAll(es: seq<Expr>) {
    forall e :: e in es ==> Plain(e)
  }

  /** What a match from `a` to `a'` has done. */
  ghost predicate Matched(a: Assign, a': Assign, p: Expr, t: Expr, ok: bool) {
    Plain(p) && Plain(t) && PlainAssign(a) ==> PlainAssign(a') && (ok ==> Acyclic(a') && Z(a', p) == Z(a', t))
  }

  lemma MatchedZonked(a: Assign, a': Assign, pat: Expr, s: Expr, p: Expr, t: Expr, ok: bool)
    requires Acyclic(a) && Acyclic(a') && Grows(a, a') && p == Z(a, pat) && t == Z(a, s) && Matched(a, a', p, t, ok)
    requires PlainAssign(a) && Plain(pat) ==> Plain(p)
    requires PlainAssign(a) && Plain(s) ==> Plain(t)
    ensures Matched(a, a', pat, s, ok)
  {
    ZTwice(a, a', pat);
    ZTwice(a, a', s);
  }

  ghost predicate AllSame(a: Assign, ps: seq<Expr>, ts: seq<Expr>, n: nat)
    requires Acyclic(a) && |ps| == |ts| && n <= |ps|
  {
    forall j :: 0 <= j < n ==> Z(a, ps[j]) == Z(a, ts[j])
  }

  lemma SameMore(a: Assign, a': Assign, ps: seq<Expr>, ts: seq<Expr>, n: nat)
    requires Acyclic(a) && Acyclic(a') && Grows(a, a') && |ps| == |ts| && n < |ps|
    requires AllSame(a, ps, ts, n) && Z(a', ps[n]) == Z(a', ts[n])
    ensures AllSame(a', ps, ts, n + 1)
  {
    forall j | 0 <= j < n ensures Z(a', ps[j]) == Z(a', ts[j]) {
      StillSame(a, a', ps[j], ts[j]);
    }
  }

  /** The heads that are matched part by part. */
  predicate BothApply(p: Expr, t: Expr) {
    (p.App? && t.App?) || (p.Eqn? && t.Eqn?) || (p.And? && t.And?) || (p.Or? && t.Or?) || (p.Ite? && t.Ite?)
  }

  lemma BothParts(p: Expr, t: Expr)
    requires BothApply(p, t)
    ensures !p.Hole? && !t.Hole? && SameHead(p, t) && |Kids(p)| == |Kids(t)|
  {
  }

  lemma PartsWithin(p: Expr, ps: seq<Expr>, u: set<nat>)
    requires ps == Kids(p) && Holes(p) <= u && !p.Hole?
    ensures forall k :: k in ps ==> Holes(k) <= u && Size(k) < Size(p)
    ensures Plain(p) ==> PlainAll(ps)
  {
    forall k | k in ps ensures Holes(k) <= u {
      KidHoles(p, k);
    }
  }

  lemma BinderParts(p: Expr, u: set<nat>)
    requires (p.Lam? || p.Pi?) && Holes(p) <= u
    ensures Holes(p.t) <= u && Holes(p.b) <= u && Size(p.t) < Size(p) && Size(p.b) < Size(p) && !Plain(p)
    ensures p.t in Kids(p) && p.b in Kids(p)
  {
    var ks := Kids(p);
    assert ks[0] == p.t && ks[1] == p.b;
    KidHoles(p, p.t);
    KidHoles(p, p.b);
  }

  /** A part of a zonked term is zonked. */
  lemma PartUnassigned(a: Assign, p: Expr, k: Expr)
    requires Acyclic(a) && (forall i :: i in Holes(p) ==> i !in a) && k in Kids(p)
    ensures Z(a, k) == k && forall i :: i in Holes(k) ==> i !in a
  {
    KidHoles(p, k);
    ZNothing(a, k);
  }

  lemma OpenedHoles(x: string, f: Expr, b: Expr)
    requires f.Var?
    ensures Holes(Subst(x, f, b)) <= Holes(b) && Size(Subst(x, f, b)) == Size(b)
  {
    SubstHoles(x, f, b);
    assert Kids(f) == [];
  }

  /** Among unassigned holes the check just looks. */
  lemma OccursPlainly(a: Assign, h: nat, v: Expr, rank: nat -> nat, n: nat)
    requires Ranked(a, rank) && Below(a, v, rank, n) && h !in a && forall i :: i in Holes(v) ==> i !in a
    ensures HoleOccurs(h, v, a, rank, n) <==> h in Holes(v)
  {
    OccursExact(h, v, a, rank, n);
    assert a - {h} == a;
    ZonkNothing(a, v, rank, n);
  }

  /** A term without holes is zonked as it is. */
  lemma ComparedZonked(a: Assign, a': Assign, pat: Expr, s: Expr, p: Expr, t: Expr, n: nat, ok: bool)
    requires Acyclic(a) && p == Z(a, pat) && t == Z(a, s) && Compared(a, a', p, t, n, ok)
    ensures Compared(a, a', pat, s, n, ok)
  {
    if Comparable(pat, s, n) {
      RigidHoles(pat);
      RigidHoles(s);
      ZNothing(a, pat);
      ZNothing(a, s);
    }
  }

  lemma HoleNotCompared(a: Assign, a': Assign, p: Expr, t: Expr, n: nat, ok: bool)
    requires p.Hole?
    ensures Compared(a, a', p, t, n, ok)
  {
  }

  class Elab {
    var assign: Assign
    var counter: nat

    /** No cycles, and every hole in the values within `u`. */
    ghost predicate Valid(u: set<nat>)
      reads this
    {
      Acyclic(assign) && Closed(assign, u)
    }

    method ZonkTerm(e: Expr, ghost u: set<nat>) returns (z: Expr)
      requires Valid(u) && Holes(e) <= u
      ensures z == Z(assign, e) && Holes(z) <= u && (forall i :: i in Holes(z) ==> i !in assign)
      ensures PlainAssign(assign) && Plain(e) ==> Plain(z)
    {
      ghost var rank: nat -> nat :| Ranked(assign, rank);
      ghost var n := MaxRank(Holes(e), rank) + 1;
      z := Zonk(assign, e, rank, n);
      ZIs(assign, e, rank, n);
      ZonkWithin(assign, e, rank, n, u);
      ZonkResolves(assign, e, rank, n);
      if PlainAssign(assign) && Plain(e) {
        ZonkPlain(assign, e, rank, n);
      }
    }

    /** `assign_hole`, of a hole and a value that have been zonked: refused exactly if the hole is in the
        value without being it. */
    method AssignHole(h: nat, v: Expr, ghost u: set<nat>) returns (ok: bool)
      requires Valid(u) && h in u && h !in assign && Holes(v) <= u && forall i :: i in Holes(v) ==> i !in assign
      modifies this`assign
      ensures Valid(u) && Grows(old(assign), assign) && assign.Keys <= old(assign).Keys + u
      ensures ok <==> v == Hole(h) || h !in Holes(v)
      ensures assign == if ok && v != Hole(h) then old(assign)[h := v] else old(assign)
      ensures ok ==> Z(assign, Hole(h)) == Z(assign, v)
    {
      if v == Hole(h) {
        return true;
      }
      ghost var rank: nat -> nat :| Ranked(assign, rank);
      ghost var n := MaxRank(Holes(v), rank) + 1;
      OccursPlainly(assign, h, v, rank, n);
      var occurs := HoleOccurs(h, v, assign, rank, n);
      if occurs {
        return false;
      }
      ghost var rank' := AssignAcyclic(assign, h, v, rank, n);
      AssignedSame(assign, h, v);
      assign := assign[h := v];
      ok := true;
    }

    /** `match_pat`. `u` bounds the holes there are, so that each assignment leaves fewer to assign. On
        terms without binders a match makes pattern and subject the same, and one is found, and is the only
        one, whenever there is any; terms without holes match if they differ in bound names alone. */
    method MatchPat(pat: Expr, s: Expr, ghost u: set<nat>) returns (ok: bool)
      requires Valid(u) && Holes(pat) <= u && Holes(s) <= u
      modifies this
      ensures Valid(u) && Grows(old(assign), assign) && assign.Keys <= old(assign).Keys + u
      ensures Matched(old(assign), assign, pat, s, ok)
      ensures Complete(old(assign), assign, Z(old(assign), pat), Z(old(assign), s), ok)
      ensures Fits(old(assign), pat, s) ==> (ok <==> Matchable(old(assign), pat, s))
      ensures counter >= old(counter) && Compared(old(assign), assign, pat, s, old(counter), ok)
      decreases |u - assign.Keys|, Size(Z(assign, pat)), 3
    {
      var p := ZonkTerm(pat, u);
      var t := ZonkTerm(s, u);
      ghost var a := assign;
      ok := MatchHeads(p, t, u);
      MatchedZonked(a, assign, pat, s, p, t, ok);
      MatchesIfFits(a, assign, pat, s, ok);
      ComparedZonked(a, assign, pat, s, p, t, old(counter), ok);
    }

    /** The cases of `match_pat` on zonked terms. */
    method MatchHeads(p: Expr, t: Expr, ghost u: set<nat>) returns (ok: bool)
      requires Valid(u) && Holes(p) <= u && Holes(t) <= u
      requires (forall i :: i in Holes(p) ==> i !in assign) && (forall i :: i in Holes(t) ==> i !in assign)
      modifies this
      ensures Valid(u) && Grows(old(assign), assign) && assign.Keys <= old(assign).Keys + u
      ensures Matched(old(assign), assign, p, t, ok) && Complete(old(assign), assign, p, t, ok)
      ensures counter >= old(counter) && Compared(old(assign), assign, p, t, old(counter), ok)
      decreases |u - assign.Keys|, Size(p), 2
    {
      ghost var a := assign;
      if p.Hole? {
        ok := AssignHole(p.h, t, u);
        HoleComplete(a, p.h, t, assign, ok);
        HoleNotCompared(a, assign, p, t, counter, ok);
      } else if BothApply(p, t) {
        BothParts(p, t);
        ok := MatchKids(p, t, u);
      } else if (p.Lam? && t.Lam?) || (p.Pi? && t.Pi?) {
        ok := MatchBinder(p, t, u);
      } else {
        ok := p == t;
        if !p.Lam? && !p.Pi? {
          WholeComplete(a, p, t);
        }
        WholeCompared(a, p, t, counter);
      }
    }

    /** The parts, in order, each under the assignments of those before. */
    method MatchKids(p: Expr, t: Expr, ghost u: set<nat>) returns (ok: bool)
      requires Valid(u) && Holes(p) <= u && Holes(t) <= u && BothApply(p, t) && SameHead(p, t)
      requires |Kids(p)| == |Kids(t)| && forall i :: i in Holes(p) ==> i !in assign
      modifies this
      ensures Valid(u) && Grows(old(assign), assign) && assign.Keys <= old(assign).Keys + u
      ensures Matched(old(assign), assign, p, t, ok) && Complete(old(assign), assign, p, t, ok)
      ensures counter >= old(counter) && Compared(old(assign), assign, p, t, old(counter), ok)
      decreases |u - assign.Keys|, Size(p), 1
    {
      ghost var a0, c0 := assign, counter;
      var ps, ts := Kids(p), Kids(t);
      PartsWithin(p, ps, u);
      PartsWithin(t, ts, u);
      var i := 0;
      ok := true;
      while i < |ps| && ok
        invariant i <= |ps| && Valid(u) && Grows(a0, assign) && assign.Keys <= a0.Keys + u
        invariant PlainAll(ps) && PlainAll(ts) && PlainAssign(a0) ==>
                    PlainAssign(assign) && (ok ==> AllSame(assign, ps, ts, i))
        invariant Complete(a0, assign, p, t, ok)
        invariant counter >= c0 && PartsCompared(a0, assign, p, t, c0, i, ok)
        decreases |ps| - i
      {
        ghost var a, c := assign, counter;
        FewerLeft(u, a0, a);
        if a == a0 {
          PartUnassigned(a, p, ps[i]);
        }
        ok := MatchPat(ps[i], ts[i], u);
        PartComplete(a0, a, assign, p, t, i, ok);
        OneMoreCompared(a0, a, assign, p, t, c0, c, i, ok);
        if ok && PlainAll(ps) && PlainAll(ts) && PlainAssign(a0) {
          SameMore(a, assign, ps, ts, i);
        }
        i := i + 1;
      }
      AllCompared(a0, assign, p, t, c0, i, ok);
      if ok && Plain(p) && Plain(t) && PlainAssign(a0) {
        KidsSame(assign, p, t);
      }
    }

    /** Domains, then bodies. */
    method MatchBinder(p: Expr, t: Expr, ghost u: set<nat>) returns (ok: bool)
      requires Valid(u) && Holes(p) <= u && Holes(t) <= u && ((p.Lam? && t.Lam?) || (p.Pi? && t.Pi?))
      requires forall i :: i in Holes(p) ==> i !in assign
      modifies this
      ensures Valid(u) && Grows(old(assign), assign) && assign.Keys <= old(assign).Keys + u
      ensures !Plain(p)
      ensures counter >= old(counter) && Compared(old(assign), assign, p, t, old(counter), ok)
      decreases |u - assign.Keys|, Size(p), 1
    {
      ghost var a0, c0 := assign, counter;
      BinderParts(p, u);
      BinderParts(t, u);
      PartUnassigned(assign, p, p.t);
      ok := MatchPat(p.t, t.t, u);
      ghost var a1, m := assign, counter;
      if !ok {
        BinderCompared(a0, a1, a1, p, t, c0, m, false, false);
        return;
      }
      ok := MatchBodies(p, t, u, a0);
      BinderCompared(a0, a1, assign, p, t, c0, m, true, ok);
    }

    /** The bodies, with the same new name for both variables. */
    method MatchBodies(p: Expr, t: Expr, ghost u: set<nat>, ghost a0: Assign) returns (ok: bool)
      requires Valid(u) && Holes(p) <= u && Holes(t) <= u && ((p.Lam? && t.Lam?) || (p.Pi? && t.Pi?))
      requires Grows(a0, assign) && assign.Keys <= a0.Keys + u && forall i :: i in Holes(p) ==> i !in a0
      modifies this
      ensures Valid(u) && Grows(old(assign), assign) && assign.Keys <= old(assign).Keys + u
      ensures counter > old(counter)
      ensures var f := Var(NewName(old(counter)));
              Compared(old(assign), assign, Subst(p.x, f, p.b), Subst(t.x, f, t.b), old(counter) + 1, ok)
      decreases |u - a0.Keys|, Size(p), 0
    {
      BinderParts(p, u);
      BinderParts(t, u);
      var f := Var(NewName(counter));
      counter := counter + 1;
      var pb, tb := Subst(p.x, f, p.b), Subst(t.x, f, t.b);
      OpenedHoles(p.x, f, p.b);
      OpenedHoles(t.x, f, t.b);
      FewerLeft(u, a0, assign);
      if assign == a0 {
        PartUnassigned(assign, p, p.b);
        ZNothing(assign, pb);
      }
      ok := MatchPat(pb, tb, u);
    }
  }
}
