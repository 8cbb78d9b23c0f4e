/** Metavariables: assignments without cycles, the occurs check that keeps them so, and `zonk`. */
module LeanHoles {
  import opened LeanTerm

  type Assign = map<nat, Expr>

  // ---- terms as a head and its immediate parts ----

  function Kids(e: Expr): (ks: seq<Expr>)
    ensures forall k :: k in ks ==> Size(k) < Size(e)
  {
    match e
    case App(f, a) => [f, a]
    case Lam(_, _, t, b) => [t, b]
    case Pi(_, _, t, b) => [t, b]
    case Let(_, t, v, b) => [t, v, b]
    case Eqn(t, l, r) => [t, l, r]
    case And(l, r) => [l, r]
    case Or(l, r) => [l, r]
    case Ite(c, l, r) => [c, l, r]
    case _ => []
  }

  /** The same head over other parts. */
  function Rebuild(e: Expr, ks: seq<Expr>): (r: Expr)
    requires |ks| == |Kids(e)|
    ensures Kids(r) == ks && (r.Hole? <==> e.Hole?) && SameHead(r, e)
    ensures ks == Kids(e) ==> r == e
  {
    match e
    case App(_, _) => App(ks[0], ks[1])
    case Lam(x, ann, _, _) => Lam(x, ann, ks[0], ks[1])
    case Pi(x, ann, _, _) => Pi(x, ann, ks[0], ks[1])
    case Let(x, _, _, _) => Let(x, ks[0], ks[1], ks[2])
    case Eqn(_, _, _) => Eqn(ks[0], ks[1], ks[2])
    case And(_, _) => And(ks[0], ks[1])
    case Or(_, _) => Or(ks[0], ks[1])
    case Ite(_, _, _) => Ite(ks[0], ks[1], ks[2])
    case _ => e
  }

  /** Equal but for their parts. */
  predicate SameHead(e: Expr, d: Expr) {
    match e
    case App(_, _) => d.App?
    case Lam(x, ann, _, _) => d.Lam? && d.x == x && d.ann == ann
    case Pi(x, ann, _, _) => d.Pi? && d.x == x && d.ann == ann
    case Let(x, _, _, _) => d.Let? && d.x == x
    case Eqn(_, _, _) => d.Eqn?
    case And(_, _) => d.And?
    case Or(_, _) => d.Or?
    case Ite(_, _, _) => d.Ite?
    case _ => d == e
  }

  lemma SameHeadEqual(e: Expr, d: Expr)
    requires SameHead(e, d) && Kids(e) == Kids(d)
    ensures e == d
  {
    var ks, ls := Kids(e), Kids(d);
    if |ks| > 0 { assert ks[0] == ls[0] && ks[1] == ls[1]; }
    if |ks| > 2 { assert ks[2] == ls[2]; }
  }

  function Holes(e: Expr): set<nat>
    decreases Size(e)
  {
    if e.Hole? then {e.h} else set k, i | k in Kids(e) && i in Holes(k) :: i
  }

  // ---- acyclic assignments ----

  /** Every assigned hole ranks above the assigned holes in its value. */
  ghost predicate Ranked(a: Assign, rank: nat -> nat) {
    forall h, i :: h in a && i in Holes(a[h]) && i in a ==> rank(i) < rank(h)
  }

  ghost predicate Acyclic(a: Assign) {
    exists rank: nat -> nat :: Ranked(a, rank)
  }

  ghost predicate Below(a: Assign, e: Expr, rank: nat -> nat, n: nat) {
    forall i :: i in Holes(e) && i in a ==> rank(i) < n
  }

  lemma KidBelow(a: Assign, e: Expr, rank: nat -> nat, n: nat, k: Expr)
    requires Below(a, e, rank, n) && k in Kids(e)
    ensures Below(a, k, rank, n)
  {
    assert !e.Hole?;
    forall i | i in Holes(k) ensures i in Holes(e) {
    }
  }

  /** `zonk`; the ranks show that it ends. */
  function Zonk(a: Assign, e: Expr, ghost rank: nat -> nat, ghost n: nat): Expr
    requires Ranked(a, rank) && Below(a, e, rank, n)
    decreases n, Size(e)
  {
    if e.Hole? then
      if e.h in a then Zonk(a, a[e.h], rank, rank(e.h)) else e
    else
      Rebuild(e, seq(|Kids(e)|, j requires 0 <= j < |Kids(e)| =>
        (KidBelow(a, e, rank, n, Kids(e)[j]); Zonk(a, Kids(e)[j], rank, n))))
  }

  /** `hole_occurs` */
  predicate HoleOccurs(h: nat, e: Expr, a: Assign, ghost rank: nat -> nat, ghost n: nat)
    requires Ranked(a, rank) && Below(a, e, rank, n)
    decreases n, Size(e)
  {
    if e.Hole? then e.h == h || (e.h in a && HoleOccurs(h, a[e.h], a, rank, rank(e.h)))
    else exists k :: k in Kids(e) && (KidBelow(a, e, rank, n, k); HoleOccurs(h, k, a, rank, n))
  }

  // ---- zonk ----

  lemma {:induction false} ZonkResolves(a: Assign, e: Expr, rank: nat -> nat, n: nat)
    requires Ranked(a, rank) && Below(a, e, rank, n)
    ensures forall i :: i in Holes(Zonk(a, e, rank, n)) ==> i !in a
    decreases n, Size(e)
  {
    if e.Hole? {
      if e.h in a {
        ZonkResolves(a, a[e.h], rank, rank(e.h));
      }
    } else {
      var z := Zonk(a, e, rank, n);
      forall k, i | k in Kids(z) && i in Holes(k) ensures i !in a {
        var j :| 0 <= j < |Kids(z)| && Kids(z)[j] == k;
        KidBelow(a, e, rank, n, Kids(e)[j]);
        ZonkResolves(a, Kids(e)[j], rank, n);
      }
    }
  }

  /** A term without assigned holes is left alone. */
  lemma {:induction false} ZonkNothing(a: Assign, e: Expr, rank: nat -> nat, n: nat)
    requires Ranked(a, rank) && forall i :: i in Holes(e) ==> i !in a
    ensures Below(a, e, rank, n) && Zonk(a, e, rank, n) == e
    decreases Size(e)
  {
    if !e.Hole? {
      forall k | k in Kids(e) ensures Below(a, k, rank, n) && Zonk(a, k, rank, n) == k {
        forall i | i in Holes(k) ensures i !in a {
          assert i in Holes(e);
        }
        ZonkNothing(a, k, rank, n);
      }
      assert Kids(Zonk(a, e, rank, n)) == Kids(e);
    }
  }

  /** The result does not depend on the ranks, and a larger assignment can be applied after a smaller. */
  lemma {:induction false} ZonkTwice(a: Assign, a': Assign, e: Expr, rank: nat -> nat, n: nat, rank': nat -> nat,
                                     n': nat, m: nat)
    requires Ranked(a, rank) && Below(a, e, rank, n) && Ranked(a', rank') && Below(a', e, rank', n')
    requires forall h :: h in a ==> h in a' && a'[h] == a[h]
    requires Below(a', Zonk(a, e, rank, n), rank', m)
    ensures Zonk(a', Zonk(a, e, rank, n), rank', m) == Zonk(a', e, rank', n')
    decreases n, Size(e)
  {
    var z := Zonk(a, e, rank, n);
    if e.Hole? {
      if e.h in a {
        ZonkTwice(a, a', a[e.h], rank, rank(e.h), rank', rank'(e.h), m);
      } else {
        ZonkAny(a', e, rank', n', rank', m);
      }
    } else {
      forall j | 0 <= j < |Kids(e)|
        ensures Below(a', Kids(z)[j], rank', m) && Below(a', Kids(e)[j], rank', n')
        ensures Zonk(a', Kids(z)[j], rank', m) == Zonk(a', Kids(e)[j], rank', n')
      {
        KidBelow(a, e, rank, n, Kids(e)[j]);
        KidBelow(a', e, rank', n', Kids(e)[j]);
        KidBelow(a', z, rank', m, Kids(z)[j]);
        ZonkTwice(a, a', Kids(e)[j], rank, n, rank', n', m);
      }
      assert Kids(Zonk(a', z, rank', m)) == Kids(Zonk(a', e, rank', n'));
      SameHeadTrans(Zonk(a', z, rank', m), z, e, Zonk(a', e, rank', n'));
      SameHeadEqual(Zonk(a', z, rank', m), Zonk(a', e, rank', n'));
    }
  }

  lemma SameHeadTrans(e1: Expr, e2: Expr, e3: Expr, e4: Expr)
    requires SameHead(e1, e2) && SameHead(e2, e3) && SameHead(e4, e3)
    ensures SameHead(e1, e4)
  {
  }

  lemma {:induction false} ZonkAny(a: Assign, e: Expr, rank: nat -> nat, n: nat, rank': nat -> nat, n': nat)
    requires Ranked(a, rank) && Below(a, e, rank, n) && Ranked(a, rank') && Below(a, e, rank', n')
    ensures Zonk(a, e, rank, n) == Zonk(a, e, rank', n')
    decreases n, Size(e)
  {
    if e.Hole? {
      if e.h in a {
        ZonkAny(a, a[e.h], rank, rank(e.h), rank', rank'(e.h));
      }
    } else {
      forall j | 0 <= j < |Kids(e)|
        ensures Below(a, Kids(e)[j], rank, n) && Below(a, Kids(e)[j], rank', n')
        ensures Zonk(a, Kids(e)[j], rank, n) == Zonk(a, Kids(e)[j], rank', n')
      {
        KidBelow(a, e, rank, n, Kids(e)[j]);
        KidBelow(a, e, rank', n', Kids(e)[j]);
        ZonkAny(a, Kids(e)[j], rank, n, rank', n');
      }
      assert Kids(Zonk(a, e, rank, n)) == Kids(Zonk(a, e, rank', n'));
      SameHeadEqual(Zonk(a, e, rank, n), Zonk(a, e, rank', n'));
    }
  }

  // ---- the occurs check ----

  lemma WithoutRanked(a: Assign, h: nat, e: Expr, rank: nat -> nat, n: nat)
    requires Ranked(a, rank) && Below(a, e, rank, n)
    ensures Ranked(a - {h}, rank) && Below(a - {h}, e, rank, n)
  {
  }

  /** The check is exact: it finds the hole if and only if it is left in the term once every other
      assignment has been applied. */
  lemma {:induction false} OccursExact(h: nat, e: Expr, a: Assign, rank: nat -> nat, n: nat)
    requires Ranked(a, rank) && Below(a, e, rank, n)
    ensures Ranked(a - {h}, rank) && Below(a - {h}, e, rank, n)
    ensures HoleOccurs(h, e, a, rank, n) <==> h in Holes(Zonk(a - {h}, e, rank, n))
    decreases n, Size(e)
  {
    WithoutRanked(a, h, e, rank, n);
    if e.Hole? {
      if e.h in a && e.h != h {
        OccursExact(h, a[e.h], a, rank, rank(e.h));
      }
    } else {
      var z := Zonk(a - {h}, e, rank, n);
      forall j | 0 <= j < |Kids(e)|
        ensures Below(a, Kids(e)[j], rank, n)
        ensures HoleOccurs(h, Kids(e)[j], a, rank, n) <==> h in Holes(Kids(z)[j])
      {
        KidBelow(a, e, rank, n, Kids(e)[j]);
        OccursExact(h, Kids(e)[j], a, rank, n);
      }
      if HoleOccurs(h, e, a, rank, n) {
        var k :| k in Kids(e) && (KidBelow(a, e, rank, n, k); HoleOccurs(h, k, a, rank, n));
        var j :| 0 <= j < |Kids(e)| && Kids(e)[j] == k;
        assert h in Holes(Kids(z)[j]);
      }
      if h in Holes(z) {
        var k :| k in Kids(z) && h in Holes(k);
        var j :| 0 <= j < |Kids(z)| && Kids(z)[j] == k;
        assert HoleOccurs(h, Kids(e)[j], a, rank, n);
      }
    }
  }

  ghost predicate Reaches(a: Assign, rank: nat -> nat, i: nat, h: nat)
    requires Ranked(a, rank)
  {
    HoleOccurs(h, Hole(i), a, rank, rank(i) + 1)
  }

  /** What occurs in a part occurs in the whole. */
  lemma {:induction false} OccursThrough(h: nat, e: Expr, a: Assign, rank: nat -> nat, n: nat, i: nat)
    requires Ranked(a, rank) && Below(a, e, rank, n) && i in Holes(e) && Reaches(a, rank, i, h)
    ensures HoleOccurs(h, e, a, rank, n)
    decreases Size(e)
  {
    if e.Hole? {
    } else {
      var k :| k in Kids(e) && i in Holes(k);
      KidBelow(a, e, rank, n, k);
      OccursThrough(h, k, a, rank, n, i);
    }
  }

  ghost function MaxRank(s: set<nat>, rank: nat -> nat): (m: nat)
    ensures forall i :: i in s ==> rank(i) <= m
  {
    if s == {} then 0
    else
      var i :| i in s;
      var m := MaxRank(s - {i}, rank);
      if rank(i) < m then m else rank(i)
  }

  /** With the occurs check passed there is still no cycle: holes that lead to `h` move above it. */
  lemma AssignAcyclic(a: Assign, h: nat, v: Expr, rank: nat -> nat, n: nat) returns (rank': nat -> nat)
    requires Ranked(a, rank) && Below(a, v, rank, n) && !HoleOccurs(h, v, a, rank, n)
    ensures Ranked(a[h := v], rank')
  {
    var lift := MaxRank(Holes(v), rank) + 1;
    rank' := (i: nat) => if i == h then lift else if Reaches(a, rank, i, h) then rank(i) + lift + 1 else rank(i);
    forall k, i | k in a[h := v] && i in Holes(a[h := v][k]) && i in a[h := v] ensures rank'(i) < rank'(k) {
      if k == h {
        if Reaches(a, rank, i, h) {
          OccursThrough(h, v, a, rank, n, i);
        }
      } else if Reaches(a, rank, i, h) {
        OccursThrough(h, a[k], a, rank, rank(k), i);
      }
    }
  }

  // ---- the elaborator's assignment ----

  /** `zonk` with some ranks; which does not matter. */
  ghost function Z(a: Assign, e: Expr): Expr
    requires Acyclic(a)
  {
    var rank: nat -> nat :| Ranked(a, rank);
    Zonk(a, e, rank, MaxRank(Holes(e), rank) + 1)
  }

  lemma ZIs(a: Assign, e: Expr, rank: nat -> nat, n: nat)
    requires Ranked(a, rank) && Below(a, e, rank, n)
    ensures Acyclic(a) && Z(a, e) == Zonk(a, e, rank, n)
  {
    var r: nat -> nat :| Ranked(a, r) && Z(a, e) == Zonk(a, e, r, MaxRank(Holes(e), r) + 1);
    ZonkAny(a, e, rank, n, r, MaxRank(Holes(e), r) + 1);
  }

  /** `a'` has all that `a` has. */
  predicate Grows(a: Assign, a': Assign) {
    forall h :: h in a ==> h in a' && a'[h] == a[h]
  }

  lemma ZTwice(a: Assign, a': Assign, e: Expr)
    requires Acyclic(a) && Acyclic(a') && Grows(a, a')
    ensures Z(a', Z(a, e)) == Z(a', e)
  {
    var r: nat -> nat :| Ranked(a, r);
    var r': nat -> nat :| Ranked(a', r');
    var n, n', m := MaxRank(Holes(e), r) + 1, MaxRank(Holes(e), r') + 1, MaxRank(Holes(Z(a, e)), r') + 1;
    ZIs(a, e, r, n);
    ZIs(a', e, r', n');
    ZIs(a', Z(a, e), r', m);
    ZonkTwice(a, a', e, r, n, r', n', m);
  }

  lemma ZResolves(a: Assign, e: Expr)
    requires Acyclic(a)
    ensures forall i :: i in Holes(Z(a, e)) ==> i !in a
  {
    var r: nat -> nat :| Ranked(a, r);
    ZIs(a, e, r, MaxRank(Holes(e), r) + 1);
    ZonkResolves(a, e, r, MaxRank(Holes(e), r) + 1);
  }

  lemma ZNothing(a: Assign, e: Expr)
    requires Acyclic(a) && forall i :: i in Holes(e) ==> i !in a
    ensures Z(a, e) == e
  {
    var r: nat -> nat :| Ranked(a, r);
    ZIs(a, e, r, MaxRank(Holes(e), r) + 1);
    ZonkNothing(a, e, r, MaxRank(Holes(e), r) + 1);
  }

  /** Part by part. */
  lemma ZKids(a: Assign, e: Expr)
    requires Acyclic(a) && !e.Hole?
    ensures SameHead(Z(a, e), e) && |Kids(Z(a, e))| == |Kids(e)|
    ensures forall j :: 0 <= j < |Kids(e)| ==> Kids(Z(a, e))[j] == Z(a, Kids(e)[j])
  {
    var r: nat -> nat :| Ranked(a, r);
    var n := MaxRank(Holes(e), r) + 1;
    ZIs(a, e, r, n);
    forall j | 0 <= j < |Kids(e)| ensures Kids(Z(a, e))[j] == Z(a, Kids(e)[j]) {
      KidBelow(a, e, r, n, Kids(e)[j]);
      ZIs(a, Kids(e)[j], r, n);
    }
  }
}
