/** `whnf` and `normalize` as they are written: a head and its arguments changed in a loop, with fuel. */
module LeanWhnf {
  // The terms have no metavariables, so `zonk` leaves them as they are.

  import opened Wrappers
  import opened LeanTerm
  import opened LeanHoles
  import opened LeanReduce
  import opened LeanHead

  /** No definition unfolds to itself: names are never defined twice. */
  ghost predicate Layered(env: Env, rank: string -> nat) {
    forall c :: c in env ==> Lower(env, rank, c)
  }

  /** If `c` unfolds to a constant that unfolds, that one is lower. */
  ghost predicate Lower(env: Env, rank: string -> nat, c: string) {
    match Unfolding(env, c)
    case Some(Const(d)) => Unfolding(env, d).Some? ==> rank(d) < rank(c)
    case _ => true
  }

  function Left(fuel: int): nat {
    if fuel > 0 then fuel else 0
  }

  ghost function HeadRank(env: Env, rank: string -> nat, head: Expr): nat {
    if head.Const? && Unfolding(env, head.n).Some? then rank(head.n) + 1 else 0
  }

  // ---- what is left to contract at the head ----

  function HeadOf(e: Expr): Expr {
    if e.App? then HeadOf(e.f) else e
  }

  /** `p` is `e` with some of its last arguments taken off. */
  predicate OnSpine(p: Expr, e: Expr) {
    p == e || (e.App? && OnSpine(p, e.f))
  }

  /** The head is no function given an argument, no `let`, no definition that unfolds and no conditional
      that is decided. */
  predicate HeadDone(env: Env, e: Expr) {
    var h := HeadOf(e);
    && (e.App? ==> !h.Lam?) && !h.Let? && !(h.Const? && Unfolding(env, h.n).Some?)
    && !(h.Ite? && (h.c == Const("true") || h.c == Const("false")))
  }

  lemma {:induction false} SameHeadOf(p: Expr, e: Expr)
    requires OnSpine(p, e)
    ensures HeadOf(p) == HeadOf(e) && (p.App? ==> e.App?)
  {
    if p != e {
      SameHeadOf(p, e.f);
    }
  }

  /** Then nothing on the spine contracts, but by the equations of a primitive. */
  lemma OnlyPrimitivesLeft(env: Env, e: Expr, p: Expr, d: Expr)
    requires HeadDone(env, e) && OnSpine(p, e) && Contracts(env, p, d)
    ensures PrimContracts(p, d)
  {
    SameHeadOf(p, e);
    assert HeadOf(p) == if p.App? then HeadOf(p.f) else p;
  }

  lemma {:induction false} HeadOfApps(h: Expr, args: seq<Expr>)
    ensures HeadOf(MkApps(h, args)) == HeadOf(h) && (args != [] ==> MkApps(h, args).App?)
    decreases |args|
  {
    if args != [] {
      HeadOfApps(App(h, args[0]), args[1..]);
    }
  }

  lemma DoneApps(env: Env, h: Expr, args: seq<Expr>)
    requires HeadDone(env, h) && (args != [] ==> !h.Lam?)
    ensures HeadDone(env, MkApps(h, args))
  {
    HeadOfApps(h, args);
  }

  /** The spine of an application. */
  method Spine(e: Expr) returns (hd: Expr, args: seq<Expr>)
    ensures MkApps(hd, args) == e && Size(hd) <= Size(e) && (e.App? ==> args != []) && !hd.App?
  {
    hd, args := e, [];
    while hd.App?
      invariant MkApps(hd, args) == e && Size(hd) <= Size(e) && (e.App? ==> hd.App? || args != [])
      decreases Size(hd)
    {
      assert ([hd.a] + args)[1..] == args;
      args := [hd.a] + args;
      hd := hd.f;
    }
  }

  /** `whnf_fuel`. Where head reduction ends after `n` steps and meets no primitive, fuel for the terms on the
      way is enough to find the end. */
  method WhnfFuel(env: Env, e: Expr, fuel0: int, ghost rank: string -> nat, ghost n: nat)
    returns (r: Expr, fuel: int)
    requires Layered(env, rank)
    ensures Red(env, e, r) && fuel < fuel0 && (fuel0 <= 1 ==> r == e)
    ensures fuel > 0 ==> HeadDone(env, r)
    ensures Enough(env, e, n, fuel0) ==> Found(env, e, n, fuel0, r, fuel)
    decreases Left(fuel0), 2
  {
    fuel := fuel0 - 1;
    if fuel <= 0 {
      RedSame(env, e);
      return e, fuel;
    }
    match e {
      case App(_, _) =>
        r, fuel := WhnfApp(env, e, fuel, rank, n);
      case Let(x, t, v, b) =>
        RedRoot(env, e, Subst(x, v, b));
        r, fuel := WhnfNext(env, e, Subst(x, v, b), fuel, rank, n);
      case Const(c) =>
        var u := Unfolding(env, c);
        if u.Some? {
          RedRoot(env, e, u.value);
          r, fuel := WhnfNext(env, e, u.value, fuel, rank, n);
        } else {
          RedSame(env, e);
          r := e;
        }
      case Ite(c, t, f) =>
        r, fuel := WhnfIte(env, e, fuel, rank, n);
      case _ =>
        RedSame(env, e);
        r := e;
    }
  }

  /** The next head step has been taken. */
  method WhnfNext(env: Env, ghost e: Expr, d: Expr, fuel0: int, ghost rank: string -> nat, ghost n: nat)
    returns (r: Expr, fuel: int)
    requires Layered(env, rank) && HeadStep(env, e) == Some(d) && Red(env, e, d)
    ensures Red(env, e, r) && fuel < fuel0 && (fuel > 0 ==> HeadDone(env, r))
    ensures Enough(env, e, n, fuel0 + 1) ==> Found(env, e, n, fuel0 + 1, r, fuel)
    decreases Left(fuel0), 3
  {
    if Enough(env, e, n, fuel0 + 1) { OneStep(env, e, n, fuel0 + 1); }
    r, fuel := WhnfFuel(env, d, fuel0, rank, if n > 0 then n - 1 else 0);
    RedThen(env, e, d, r);
  }

  /** The head of an application by itself, then with its arguments. */
  method WhnfApp(env: Env, e: Expr, fuel0: int, ghost rank: string -> nat, ghost n: nat)
    returns (r: Expr, fuel: int)
    requires Layered(env, rank) && e.App?
    ensures Red(env, e, r) && fuel <= fuel0 && (fuel > 0 ==> HeadDone(env, r))
    ensures Enough(env, e, n, fuel0 + 1) ==> Found(env, e, n, fuel0 + 1, r, fuel)
    decreases Left(fuel0), 6
  {
    var hd, args := Spine(e);
    ghost var k := 0;
    if Enough(env, e, n, fuel0 + 1) { k := UnwindReady(env, hd, args, n, fuel0 + 1); }
    var head;
    head, fuel := WhnfFuel(env, hd, fuel0, rank, k);
    RedHead(env, hd, head, args);
    r, fuel := Unwind(env, e, head, args, fuel, rank, if k <= n then n - k else 0);
  }

  method WhnfIte(env: Env, e: Expr, fuel0: int, ghost rank: string -> nat, ghost n: nat)
    returns (r: Expr, fuel: int)
    requires Layered(env, rank) && e.Ite?
    ensures Red(env, e, r) && fuel <= fuel0 && (fuel > 0 ==> HeadDone(env, r))
    ensures Enough(env, e, n, fuel0 + 1) ==> Found(env, e, n, fuel0 + 1, r, fuel)
    decreases Left(fuel0), 3
  {
    ghost var k, sure := 0, Enough(env, e, n, fuel0 + 1);
    if sure { k := IteReady(env, e, n, fuel0 + 1); }
    var wc;
    wc, fuel := WhnfFuel(env, e.c, fuel0, rank, k);
    r := Ite(wc, e.l, e.r);
    RedCondition(env, e, wc);
    if wc == Const("true") || wc == Const("false") {
      var next := if wc == Const("true") then e.l else e.r;
      RedBranch(env, e, wc, next);
      ghost var m := 0;
      if sure {
        BranchReady(env, e, n, k, wc, next, fuel0, fuel);
        m := n - k - 1;
      }
      r, fuel := WhnfFuel(env, next, fuel, rank, m);
      RedThen(env, e, next, r);
    } else if sure {
      Undecided(env, e, n, k, wc, fuel0, fuel);
    }
  }

  lemma RedCondition(env: Env, e: Expr, wc: Expr)
    requires e.Ite? && Red(env, e.c, wc)
    ensures Red(env, e, Ite(wc, e.l, e.r))
  {
    RedSame(env, e.l);
    RedSame(env, e.r);
    RedInside(env, e, Ite(wc, e.l, e.r));
  }

  lemma RedBranch(env: Env, e: Expr, wc: Expr, d: Expr)
    requires e.Ite? && Red(env, e, Ite(wc, e.l, e.r))
    requires (wc == Const("true") && d == e.l) || (wc == Const("false") && d == e.r)
    ensures Red(env, e, d)
  {
    RedRoot(env, Ite(wc, e.l, e.r), d);
    RedThen(env, e, Ite(wc, e.l, e.r), d);
  }

  /** The loop over head and arguments. */
  method Unwind(env: Env, ghost e: Expr, head0: Expr, args0: seq<Expr>, fuel0: int, ghost rank: string -> nat,
                ghost m0: nat)
    returns (r: Expr, fuel: int)
    requires Layered(env, rank) && Red(env, e, MkApps(head0, args0)) && args0 != []
    requires fuel0 > 0 ==> HeadDone(env, head0)
    ensures Red(env, e, r) && fuel <= fuel0 && (fuel > 0 ==> HeadDone(env, r))
    ensures Ready(env, head0, args0, m0, fuel0) ==>
              && r == Reach(env, MkApps(head0, args0), m0)
              && fuel >= fuel0 - Rest(env, MkApps(head0, args0), m0)
    decreases Left(fuel0), 5
  {
    var head, args := head0, args0;
    fuel := fuel0;
    ghost var m, sure := m0, Ready(env, head0, args0, m0, fuel0);
    while true
      invariant Red(env, e, MkApps(head, args)) && fuel <= fuel0 && (fuel > 0 ==> HeadDone(env, head))
      invariant sure == Ready(env, head0, args0, m0, fuel0)
      invariant sure ==> OnWay(env, head0, args0, m0, fuel0, head, args, m, fuel)
      decreases Left(fuel), |args|, HeadRank(env, rank, head)
    {
      if sure && (args == [] || !head.Lam?) {
        UnwindEnds(env, head0, args0, m0, fuel0, head, args, m, fuel);
      }
      if head.Lam? {
        if args == [] {
          if fuel > 0 { DoneApps(env, head, args); }
          return MkApps(head, args), fuel;
        }
        ghost var k := 0;
        if sure { k := BetaReady(env, head0, args0, m0, fuel0, head, args, m, fuel); }
        var rw;
        rw, fuel := BetaStep(env, e, head, args, fuel, rank, k);
        args := args[1..];
        m := if sure then m - 1 - k else 0;
        if args == [] || !rw.Lam? {
          if fuel > 0 { DoneApps(env, rw, args); }
          if sure { UnwindEnds(env, head0, args0, m0, fuel0, rw, args, m, fuel); }
          return MkApps(rw, args), fuel;
        }
        head := rw;
      } else if head.Const? {
        if sure { ReadyConst(env, head, args, m, fuel); }
        var go;
        head, args, fuel, go := ConstStep(env, e, head, args, fuel, rank);
        if !go {
          if fuel > 0 { DoneApps(env, head, args); }
          return MkApps(head, args), fuel;
        }
      } else {
        if fuel > 0 { DoneApps(env, head, args); }
        return MkApps(head, args), fuel;
      }
    }
  }

  /** A constant at the head: an equation of a primitive, or its definition; `go` if there may be more. */
  method ConstStep(env: Env, ghost e: Expr, head0: Expr, args0: seq<Expr>, fuel0: int, ghost rank: string -> nat)
    returns (head: Expr, args: seq<Expr>, fuel: int, go: bool)
    requires Layered(env, rank) && head0.Const? && Red(env, e, MkApps(head0, args0))
    ensures Red(env, e, MkApps(head, args)) && fuel <= fuel0 && (fuel > 0 ==> HeadDone(env, head))
    ensures !go && args != [] ==> !head.Lam?
    ensures go ==> Left(fuel) < Left(fuel0) || |args| < |args0|
                   || (|args| == |args0| && HeadRank(env, rank, head) < HeadRank(env, rank, head0))
    ensures Arity(head0.n).None? && Unfolding(env, head0.n).None? ==>
              head == head0 && args == args0 && fuel == fuel0 && !go
    decreases Left(fuel0), 4
  {
    var p, rest;
    ghost var b;
    p, rest, fuel, b := PrimReduce(env, e, head0.n, args0, fuel0, rank, 0);
    if p.Some? {
      head, fuel := WhnfFuel(env, p.value, fuel, rank, 0);
      RedHead(env, p.value, head, rest);
      RedThen(env, e, MkApps(p.value, rest), MkApps(head, rest));
      return head, rest, fuel, head.Lam? || head.Const?;
    }
    var u := Unfolding(env, head0.n);
    if u.None? {
      return head0, args0, fuel, false;
    }
    head, fuel := WhnfFuel(env, u.value, fuel - 1, rank, 0);
    DeltaHead(env, e, head0, u.value, head, args0);
    args, go := args0, true;
  }

  /** One argument consumed by a function. */
  method BetaStep(env: Env, ghost e: Expr, head: Expr, args: seq<Expr>, fuel0: int, ghost rank: string -> nat,
                  ghost k: nat)
    returns (rw: Expr, fuel: int)
    requires Layered(env, rank) && head.Lam? && args != [] && Red(env, e, MkApps(head, args))
    ensures fuel < fuel0 && Red(env, e, MkApps(rw, args[1..])) && (fuel > 0 ==> HeadDone(env, rw))
    ensures var d := Subst(head.x, args[0], head.b);
            Enough(env, d, k, fuel0) ==> Found(env, d, k, fuel0, rw, fuel)
    decreases Left(fuel0), 3
  {
    var d := Subst(head.x, args[0], head.b);
    RedRoot(env, App(head, args[0]), d);
    rw, fuel := WhnfFuel(env, d, fuel0, rank, k);
    RedThen(env, App(head, args[0]), d, rw);
    RedHead(env, App(head, args[0]), rw, args[1..]);
    RedThen(env, e, MkApps(head, args), MkApps(rw, args[1..]));
  }

  lemma DeltaHead(env: Env, e: Expr, head: Expr, v: Expr, rw: Expr, args: seq<Expr>)
    requires Red(env, e, MkApps(head, args)) && head.Const? && Unfolding(env, head.n) == Some(v) && Red(env, v, rw)
    ensures Red(env, e, MkApps(rw, args))
  {
    RedRoot(env, head, v);
    RedThen(env, head, v, rw);
    RedHead(env, head, rw, args);
    RedThen(env, e, MkApps(head, args), MkApps(rw, args));
  }

  /** What the primitive becomes once its argument is known; `args` are those it takes, the argument
      reduced. */
  function Fires(c: string, args: seq<Expr>): (r: Option<Expr>)
    requires Arity(c).Some? && |args| == Arity(c).value.0
    ensures r.Some? ==> PrimContracts(MkApps(Const(c), args), r.value)
  {
    if c == "Nat.add" then FiresAdd(args)
    else if c == "Nat.mul" then FiresMul(args)
    else if c == "Nat.rec" then FiresNatRec(args)
    else if c == "Bool.rec" then FiresBoolRec(args)
    else FiresSubst(args)
  }

  predicate IsSucc(e: Expr) {
    e.App? && e.f == SUCC
  }

  function FiresAdd(args: seq<Expr>): (r: Option<Expr>)
    requires |args| == 2
    ensures r.Some? ==> PrimContracts(MkApps(ADD, args), r.value)
  {
    assert args == [args[0], args[1]];
    if args[1] == ZERO then Some(args[0])
    else if IsSucc(args[1]) then
      assert args == [args[0], App(SUCC, args[1].a)];
      Some(App(SUCC, MkApps(ADD, [args[0], args[1].a])))
    else None
  }

  function FiresMul(args: seq<Expr>): (r: Option<Expr>)
    requires |args| == 2
    ensures r.Some? ==> PrimContracts(MkApps(MUL, args), r.value)
  {
    assert args == [args[0], args[1]];
    if args[1] == ZERO then Some(ZERO)
    else if IsSucc(args[1]) then
      assert args == [args[0], App(SUCC, args[1].a)];
      Some(MkApps(ADD, [MkApps(MUL, [args[0], args[1].a]), args[0]]))
    else None
  }

  function FiresNatRec(args: seq<Expr>): (r: Option<Expr>)
    requires |args| == 4
    ensures r.Some? ==> PrimContracts(MkApps(NREC, args), r.value)
  {
    assert args == [args[0], args[1], args[2], args[3]];
    if args[3] == ZERO then Some(args[1])
    else if IsSucc(args[3]) then
      assert args == [args[0], args[1], args[2], App(SUCC, args[3].a)];
      var d := MkApps(args[2], [args[3].a, MkApps(NREC, [args[0], args[1], args[2], args[3].a])]);
      assert RecursOn(MkApps(NREC, args), d, args[0], args[1], args[2], args[3].a);
      Some(d)
    else None
  }

  function FiresBoolRec(args: seq<Expr>): (r: Option<Expr>)
    requires |args| == 4
    ensures r.Some? ==> PrimContracts(MkApps(BREC, args), r.value)
  {
    assert args == [args[0], args[1], args[2], args[3]];
    if args[3] == Const("true") then Some(args[1]) else if args[3] == Const("false") then Some(args[2]) else None
  }

  function FiresSubst(args: seq<Expr>): (r: Option<Expr>)
    requires |args| == 6
    ensures r.Some? ==> PrimContracts(MkApps(SUBST, args), r.value)
  {
    assert args == [args[0], args[1], args[2], args[3], args[4], args[5]];
    if args[4] == Rfl then Some(args[5]) else None
  }

  /** `prim_reduce`: the argument looked at is reduced, to `b`, and if a rule then fires the arguments it takes
      are consumed. */
  method PrimReduce(env: Env, ghost e: Expr, c: string, args: seq<Expr>, fuel0: int, ghost rank: string -> nat,
                    ghost n: nat)
    returns (r: Option<Expr>, rest: seq<Expr>, fuel: int, ghost b: Expr)
    requires Layered(env, rank) && Red(env, e, MkApps(Const(c), args))
    ensures fuel <= fuel0 && (r.None? ==> rest == args)
            && (r.Some? ==> |rest| < |args| && Red(env, e, MkApps(r.value, rest)))
    ensures if Arity(c).None? || |args| < Arity(c).value.0 then r.None? && fuel == fuel0
            else
              var (k, i) := Arity(c).value;
              && Red(env, args[i], b) && r == Fires(c, args[..k][i := b]) && (fuel > 0 ==> HeadDone(env, b))
              && (Enough(env, args[i], n, fuel0) ==> Found(env, args[i], n, fuel0, b, fuel))
    decreases Left(fuel0), 3
  {
    fuel, b := fuel0, Const(c);
    var ar := Arity(c);
    if ar.None? || |args| < ar.value.0 {
      return None, args, fuel, b;
    }
    var (k, i) := ar.value;
    var arg;
    arg, fuel := WhnfFuel(env, args[i], fuel, rank, n);
    var taken := args[..k][i := arg];
    r := Fires(c, taken);
    rest := if r.Some? then args[k..] else args;
    if r.Some? {
      Fired(env, e, c, args, k, i, arg, taken, r.value);
    }
    b := arg;
  }

  /** The same application has the same function and arguments. */
  lemma {:induction false} AppsApart(f: Expr, a: seq<Expr>, g: Expr, b: seq<Expr>)
    requires |a| == |b| && MkApps(f, a) == MkApps(g, b)
    ensures f == g && a == b
    decreases |a|
  {
    if a != [] {
      AppsApart(App(f, a[0]), a[1..], App(g, b[0]), b[1..]);
      assert a == [a[0]] + a[1..] && b == [b[0]] + b[1..];
    }
  }

  /** An equation of a primitive is about that primitive. */
  lemma SamePrim(c: string, args: seq<Expr>, p: Expr, ps: seq<Expr>)
    requires MkApps(Const(c), args) == MkApps(p, ps) && p.Const? && |args| == |ps|
    ensures p == Const(c) && args == ps
  {
    AppsApart(Const(c), args, p, ps);
  }

  lemma OtherPrim(c: string, args: seq<Expr>, p: Expr, ps: seq<Expr>)
    requires p.Const? && p != Const(c)
    ensures MkApps(Const(c), args) != MkApps(p, ps)
  {
    HeadOfApps(Const(c), args);
    HeadOfApps(p, ps);
  }

  /** The arguments of an equation whose left side this is. */
  lemma PrimArgs(c: string, args: seq<Expr>, p: Expr, ps: seq<Expr>)
    requires MkApps(Const(c), args) == MkApps(p, ps) && p.Const? && Arity(c).Some? && |args| == Arity(c).value.0
    requires Arity(p.n).Some? && |ps| == Arity(p.n).value.0
    ensures p == Const(c) && args == ps
  {
    if p != Const(c) {
      OtherPrim(c, args, p, ps);
    }
    SamePrim(c, args, p, ps);
  }

  lemma AddZeroFires(c: string, args: seq<Expr>, a: Expr)
    requires Arity(c).Some? && |args| == Arity(c).value.0 && MkApps(Const(c), args) == MkApps(ADD, [a, ZERO])
    ensures Fires(c, args) == Some(a)
  {
    PrimArgs(c, args, ADD, [a, ZERO]);
  }

  lemma AddSuccFires(c: string, args: seq<Expr>, a: Expr, m: Expr)
    requires Arity(c).Some? && |args| == Arity(c).value.0 && MkApps(Const(c), args) == MkApps(ADD, [a, App(SUCC, m)])
    ensures Fires(c, args) == Some(App(SUCC, MkApps(ADD, [a, m])))
  {
    PrimArgs(c, args, ADD, [a, App(SUCC, m)]);
  }

  lemma MulZeroFires(c: string, args: seq<Expr>, a: Expr)
    requires Arity(c).Some? && |args| == Arity(c).value.0 && MkApps(Const(c), args) == MkApps(MUL, [a, ZERO])
    ensures Fires(c, args) == Some(ZERO)
  {
    PrimArgs(c, args, MUL, [a, ZERO]);
  }

  lemma MulSuccFires(c: string, args: seq<Expr>, a: Expr, m: Expr)
    requires Arity(c).Some? && |args| == Arity(c).value.0 && MkApps(Const(c), args) == MkApps(MUL, [a, App(SUCC, m)])
    ensures Fires(c, args) == Some(MkApps(ADD, [MkApps(MUL, [a, m]), a]))
  {
    PrimArgs(c, args, MUL, [a, App(SUCC, m)]);
  }

  lemma RecZeroFires(c: string, args: seq<Expr>, p: Expr, z: Expr, s: Expr)
    requires Arity(c).Some? && |args| == Arity(c).value.0 && MkApps(Const(c), args) == MkApps(NREC, [p, z, s, ZERO])
    ensures Fires(c, args) == Some(z)
  {
    PrimArgs(c, args, NREC, [p, z, s, ZERO]);
  }

  lemma RecSuccFires(c: string, args: seq<Expr>, d: Expr, p: Expr, z: Expr, s: Expr, m: Expr)
    requires Arity(c).Some? && |args| == Arity(c).value.0 && RecursOn(MkApps(Const(c), args), d, p, z, s, m)
    ensures Fires(c, args) == Some(d)
  {
    PrimArgs(c, args, NREC, [p, z, s, App(SUCC, m)]);
  }

  lemma BoolFires(c: string, args: seq<Expr>, p: Expr, t: Expr, f: Expr, b: bool)
    requires Arity(c).Some? && |args| == Arity(c).value.0
    requires MkApps(Const(c), args) == MkApps(BREC, [p, t, f, Const(if b then "true" else "false")])
    ensures Fires(c, args) == Some(if b then t else f)
  {
    PrimArgs(c, args, BREC, [p, t, f, Const(if b then "true" else "false")]);
  }

  lemma SubstFires(c: string, args: seq<Expr>, p: Expr, q: Expr, r: Expr, s: Expr, pa: Expr)
    requires Arity(c).Some? && |args| == Arity(c).value.0
    requires MkApps(Const(c), args) == MkApps(SUBST, [p, q, r, s, Rfl, pa])
    ensures Fires(c, args) == Some(pa)
  {
    PrimArgs(c, args, SUBST, [p, q, r, s, Rfl, pa]);
  }

  lemma AddFires(c: string, args: seq<Expr>, d: Expr)
    requires Arity(c).Some? && |args| == Arity(c).value.0 && AddRule(MkApps(Const(c), args), d)
    ensures Fires(c, args) == Some(d)
  {
    var e := MkApps(Const(c), args);
    if a :| e == MkApps(ADD, [a, ZERO]) && d == a {
      AddZeroFires(c, args, a);
    } else {
      var a, m :| e == MkApps(ADD, [a, App(SUCC, m)]) && d == App(SUCC, MkApps(ADD, [a, m]));
      AddSuccFires(c, args, a, m);
    }
  }

  lemma MulFires(c: string, args: seq<Expr>, d: Expr)
    requires Arity(c).Some? && |args| == Arity(c).value.0 && MulRule(MkApps(Const(c), args), d)
    ensures Fires(c, args) == Some(d)
  {
    var e := MkApps(Const(c), args);
    if a :| e == MkApps(MUL, [a, ZERO]) && d == ZERO {
      MulZeroFires(c, args, a);
    } else {
      var a, m :| e == MkApps(MUL, [a, App(SUCC, m)]) && d == MkApps(ADD, [MkApps(MUL, [a, m]), a]);
      MulSuccFires(c, args, a, m);
    }
  }

  lemma RecFires(c: string, args: seq<Expr>, d: Expr)
    requires Arity(c).Some? && |args| == Arity(c).value.0
    requires NatRecRule(MkApps(Const(c), args), d) || BoolRecRule(MkApps(Const(c), args), d)
    ensures Fires(c, args) == Some(d)
  {
    var e := MkApps(Const(c), args);
    if p, s :| e == MkApps(NREC, [p, d, s, ZERO]) {
      RecZeroFires(c, args, p, d, s);
    } else if p, z, s, m :| RecursOn(e, d, p, z, s, m) {
      RecSuccFires(c, args, d, p, z, s, m);
    } else if p, f :| e == MkApps(BREC, [p, d, f, Const("true")]) {
      BoolFires(c, args, p, d, f, true);
    } else {
      var p, t :| e == MkApps(BREC, [p, t, d, Const("false")]);
      BoolFires(c, args, p, t, d, false);
    }
  }

  /** The rules that are looked for are all there are: a primitive with the arguments it takes fires if and only
      if one of its equations applies, and then on its right side. */
  lemma FiresExactly(c: string, args: seq<Expr>, d: Expr)
    requires Arity(c).Some? && |args| == Arity(c).value.0
    ensures PrimContracts(MkApps(Const(c), args), d) <==> Fires(c, args) == Some(d)
  {
    var e := MkApps(Const(c), args);
    if AddRule(e, d) {
      AddFires(c, args, d);
    } else if MulRule(e, d) {
      MulFires(c, args, d);
    } else if NatRecRule(e, d) || BoolRecRule(e, d) {
      RecFires(c, args, d);
    } else if SubstRule(e, d) {
      var p, q, r, s, pa :| e == MkApps(SUBST, [p, q, r, s, Rfl, pa]) && d == pa;
      SubstFires(c, args, p, q, r, s, pa);
    }
  }

  lemma Fired(env: Env, e: Expr, c: string, args: seq<Expr>, k: nat, i: nat, b: Expr, taken: seq<Expr>, d: Expr)
    requires Red(env, e, MkApps(Const(c), args)) && i < k <= |args| && Red(env, args[i], b)
    requires taken == args[..k][i := b] && PrimContracts(MkApps(Const(c), taken), d)
    ensures Red(env, e, MkApps(d, args[k..]))
  {
    assert args[i := b] == taken + args[k..];
    RedArg(env, Const(c), args, i, b);
    MkAppsMore(Const(c), taken, args[k..]);
    RedRoot(env, MkApps(Const(c), taken), d);
    RedHead(env, MkApps(Const(c), taken), d, args[k..]);
    RedThen(env, e, MkApps(Const(c), args), MkApps(Const(c), args[i := b]));
    RedThen(env, e, MkApps(Const(c), args[i := b]), MkApps(d, args[k..]));
  }

  const WHNF_FUEL: int := 2000

  /** `whnf`: it ends, on a term the input reduces to, and on the end of head reduction where that is within
      reach. */
  method Whnf(env: Env, e: Expr, ghost rank: string -> nat, ghost n: nat) returns (r: Expr)
    requires Layered(env, rank)
    ensures Red(env, e, r)
    ensures Enough(env, e, n, WHNF_FUEL) ==> r == Reach(env, e, n)
  {
    var fuel;
    r, fuel := WhnfFuel(env, e, WHNF_FUEL, rank, n);
  }

  // ---- all positions ----

  /** How many head steps each position of a normal form takes. */
  datatype Plan = Plan(n: nat, parts: seq<Plan>)

  /** The plan of `e`: `whnf` has the fuel to reach the end at every position. */
  ghost predicate Planned(env: Env, e: Expr, t: Plan)
    decreases t
  {
    Enough(env, e, t.n, WHNF_FUEL) && var ks := Kids(Reach(env, e, t.n));
      |t.parts| == |ks| && forall j :: 0 <= j < |ks| ==> Planned(env, ks[j], t.parts[j])
  }

  /** How many positions it has. */
  function Positions(t: Plan): (n: nat)
    ensures n > 0
    decreases t, |t.parts| + 1
  {
    1 + PositionsOf(t, |t.parts|)
  }

  function PositionsOf(t: Plan, k: nat): nat
    requires k <= |t.parts|
    decreases t, k
  {
    if k == 0 then 0 else PositionsOf(t, k - 1) + Positions(t.parts[k - 1])
  }

  /** `r` is reached from `e` by head reduction at the root and then at every part. */
  ghost predicate Normal(env: Env, e: Expr, t: Plan, r: Expr)
    requires Planned(env, e, t)
    decreases t
  {
    var w := Reach(env, e, t.n);
    SameHead(r, w) && |Kids(r)| == |Kids(w)|
    && forall j :: 0 <= j < |Kids(w)| ==> Normal(env, Kids(w)[j], t.parts[j], Kids(r)[j])
  }

  /** No head step is left at any position. */
  predicate Everywhere(env: Env, r: Expr)
    decreases Size(r)
  {
    HeadStep(env, r).None? && forall k :: k in Kids(r) ==> Everywhere(env, k)
  }

  /** What goes no further keeps its outermost symbol when it is normalised. */
  lemma StuckKeepsHead(env: Env, e: Expr, t: Plan, r: Expr)
    requires Planned(env, e, t) && Normal(env, e, t, r) && HeadStep(env, e).None?
    ensures SameHead(r, e)
  {
  }

  lemma StuckApp(env: Env, f: Expr, a: Expr, t: Plan, g: Expr, b: Expr)
    requires HeadStep(env, App(f, a)).None? && PartNormal(env, f, t, g) && Everywhere(env, g)
    ensures HeadStep(env, App(g, b)).None?
  {
    StuckKeepsHead(env, f, t, g);
    assert !g.Lam? && HeadStep(env, g).None?;
  }

  lemma StuckIte(env: Env, e: Expr, t: Plan, d: Expr)
    requires e.Ite? && d.Ite? && HeadStep(env, e).None? && PartNormal(env, e.c, t, d.c) && Everywhere(env, d.c)
    ensures HeadStep(env, d).None?
  {
    IteStep(env, e.c, e.l, e.r);
    IteStep(env, d.c, d.l, d.r);
    StuckKeepsHead(env, e.c, t, d.c);
  }

  lemma StuckWhole(env: Env, w: Expr, r: Expr, t: Plan)
    requires HeadStep(env, w).None? && SameHead(r, w) && |Kids(r)| == |Kids(w)| == |t.parts|
    requires forall j :: 0 <= j < |Kids(w)| ==> PartNormal(env, Kids(w)[j], t.parts[j], Kids(r)[j])
    requires forall k :: k in Kids(r) ==> Everywhere(env, k)
    ensures HeadStep(env, r).None?
  {
    if w.App? {
      assert PartNormal(env, Kids(w)[0], t.parts[0], Kids(r)[0]) && Kids(r)[0] in Kids(r);
      StuckApp(env, w.f, w.a, t.parts[0], r.f, r.a);
    } else if w.Ite? {
      assert PartNormal(env, Kids(w)[0], t.parts[0], Kids(r)[0]) && Kids(r)[0] in Kids(r);
      StuckIte(env, w, t.parts[0], r);
    } else {
      StuckAtom(env, w, r);
    }
  }

  lemma StuckAtom(env: Env, w: Expr, r: Expr)
    requires HeadStep(env, w).None? && SameHead(r, w) && !w.App? && !w.Ite?
    ensures HeadStep(env, r).None?
  {
  }

  /** A planned normal form is one: nothing is left to contract at any position. */
  lemma {:induction false} NormalIsNormal(env: Env, e: Expr, t: Plan, r: Expr)
    requires Planned(env, e, t) && Normal(env, e, t, r)
    ensures Everywhere(env, r)
    decreases t
  {
    var w := Reach(env, e, t.n);
    forall k | k in Kids(r) ensures Everywhere(env, k) {
      var j :| 0 <= j < |Kids(r)| && Kids(r)[j] == k;
      assert Planned(env, Kids(w)[j], t.parts[j]);
      NormalIsNormal(env, Kids(w)[j], t.parts[j], Kids(r)[j]);
    }
    assert forall j :: 0 <= j < |Kids(w)| ==> PartNormal(env, Kids(w)[j], t.parts[j], Kids(r)[j]);
    StuckWhole(env, w, r, t);
  }

  /** There is a plan, and budget for its positions. */
  ghost predicate Affords(env: Env, e: Expr, t: Plan, budget: int) {
    Planned(env, e, t) && budget > Positions(t)
  }

  /** `norm`: head first, then the parts, within a budget; where there is a plan and budget for its positions,
      every position is normalised. */
  method Norm(env: Env, e: Expr, budget0: int, ghost rank: string -> nat, ghost t: Plan)
    returns (r: Expr, budget: int)
    requires Layered(env, rank)
    ensures Red(env, e, r) && budget < budget0
    ensures Affords(env, e, t, budget0) ==> Normal(env, e, t, r) && budget >= budget0 - Positions(t)
    decreases Left(budget0), 0
  {
    budget := budget0 - 1;
    if budget <= 0 {
      RedSame(env, e);
      return e, budget;
    }
    var w := Whnf(env, e, rank, t.n);
    var done;
    done, budget := NormParts(env, w, Kids(w), budget, rank, t, Affords(env, e, t, budget0));
    r := Rebuild(w, done);
    HeadSym(w, r);
    RedInside(env, w, r);
    RedThen(env, e, w, r);
  }

  /** The parts `ks` of a head, in order. */
  method NormParts(env: Env, ghost w: Expr, ks: seq<Expr>, budget0: int, ghost rank: string -> nat, ghost t: Plan,
                   ghost sure: bool)
    returns (done: seq<Expr>, budget: int)
    requires Layered(env, rank) && budget0 > 0
    requires sure ==> budget0 >= Positions(t) && PartsPlanned(env, ks, t)
    ensures |done| == |ks| && budget <= budget0 && AllReduced(env, ks, done)
    ensures sure ==> PartsNormal(env, ks, t, done) && budget >= budget0 + 1 - Positions(t)
    decreases Left(budget0), 2
  {
    done, budget := [], budget0;
    while |done| < |ks|
      invariant |done| <= |ks| && budget <= budget0 && AllReduced(env, ks, done)
      invariant sure ==> budget >= budget0 - PositionsOf(t, |done|) && PartsNormal(env, ks, t, done)
      decreases |ks| - |done|
    {
      ghost var sub := if sure then t.parts[|done|] else t;
      if sure {
        NextAffords(env, ks, t, |done|, budget, budget0);
      }
      done, budget := NormNext(env, ks, done, budget, rank, t, sub, sure);
    }
  }

  /** One more part. */
  method NormNext(env: Env, ks: seq<Expr>, done: seq<Expr>, budget: int, ghost rank: string -> nat, ghost t: Plan,
                  ghost sub: Plan, ghost sure: bool)
    returns (done': seq<Expr>, budget': int)
    requires Layered(env, rank) && |done| < |ks| && AllReduced(env, ks, done)
    requires sure ==> PartsNormal(env, ks, t, done) && sub == t.parts[|done|] && Affords(env, ks[|done|], sub, budget)
    ensures |done'| == |done| + 1 && budget' <= budget && AllReduced(env, ks, done')
    ensures sure ==> PartsNormal(env, ks, t, done') && budget' >= budget - Positions(sub)
    decreases Left(budget), 1
  {
    var k;
    k, budget' := Norm(env, ks[|done|], budget, rank, sub);
    done' := done + [k];
    ReducedMore(env, ks, done, k);
    if sure {
      NormalMore(env, ks, t, done, k);
    }
  }

  lemma ReducedMore(env: Env, ks: seq<Expr>, done: seq<Expr>, k: Expr)
    requires |done| < |ks| && AllReduced(env, ks, done) && Red(env, ks[|done|], k)
    ensures AllReduced(env, ks, done + [k])
  {
  }

  lemma NextAffords(env: Env, ks: seq<Expr>, t: Plan, n: nat, budget: int, budget0: int)
    requires n < |ks| && PartsPlanned(env, ks, t) && budget0 >= Positions(t)
    requires budget >= budget0 - PositionsOf(t, n)
    ensures Affords(env, ks[n], t.parts[n], budget)
    ensures budget - Positions(t.parts[n]) >= budget0 - PositionsOf(t, n + 1)
  {
    PositionsLeft(t, n + 1);
  }

  lemma NormalMore(env: Env, ks: seq<Expr>, t: Plan, done: seq<Expr>, k: Expr)
    requires |done| < |ks| && PartsNormal(env, ks, t, done) && PartNormal(env, ks[|done|], t.parts[|done|], k)
    ensures PartsNormal(env, ks, t, done + [k])
  {
  }

  ghost predicate AllReduced(env: Env, ks: seq<Expr>, done: seq<Expr>) {
    |done| <= |ks| && forall j :: 0 <= j < |done| ==> Red(env, ks[j], done[j])
  }

  ghost predicate PartsPlanned(env: Env, ks: seq<Expr>, t: Plan) {
    |t.parts| == |ks| && forall j :: 0 <= j < |ks| ==> Planned(env, ks[j], t.parts[j])
  }

  /** The first parts are normalised. */
  ghost predicate PartsNormal(env: Env, ks: seq<Expr>, t: Plan, done: seq<Expr>) {
    |done| <= |ks| == |t.parts| && forall j :: 0 <= j < |done| ==> PartNormal(env, ks[j], t.parts[j], done[j])
  }

  ghost predicate PartNormal(env: Env, e: Expr, t: Plan, r: Expr) {
    Planned(env, e, t) && Normal(env, e, t, r)
  }

  lemma {:induction false} PositionsLeft(t: Plan, k: nat)
    requires k <= |t.parts|
    ensures PositionsOf(t, k) <= PositionsOf(t, |t.parts|)
    decreases |t.parts| - k
  {
    if k < |t.parts| {
      PositionsLeft(t, k + 1);
    }
  }

  lemma HeadSym(w: Expr, r: Expr)
    requires SameHead(r, w)
    ensures SameHead(w, r)
  {
  }

  const BUDGET: int := 50000

  /** `normalize` */
  method Normalize(env: Env, e: Expr, ghost rank: string -> nat, ghost t: Plan) returns (r: Expr)
    requires Layered(env, rank)
    ensures Red(env, e, r)
    ensures Planned(env, e, t) && BUDGET > Positions(t) ==> Normal(env, e, t, r)
  {
    var budget;
    r, budget := Norm(env, e, BUDGET, rank, t);
  }
}
