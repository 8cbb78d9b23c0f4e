/** Head reduction of Micro-Lean terms, one step at a time, and how much of it there is: the measure that
    weak head normalisation with fuel is held against. */
module LeanHead {
  import opened Wrappers
  import opened LeanTerm
  import opened LeanHoles
  import opened LeanReduce

  /** The next step at the head: a function meets its argument, a `let` or a reducible definition is replaced
      by its value, and a conditional moves in its condition until that is decided. */
  function HeadStep(env: Env, e: Expr): Option<Expr> {
    match e
    case App(f, a) =>
      if f.Lam? then Some(Subst(f.x, a, f.b))
      else
        var s := HeadStep(env, f);
        if s.Some? then Some(App(s.value, a)) else None
    case Let(x, _, v, b) => Some(Subst(x, v, b))
    case Const(c) => Unfolding(env, c)
    case Ite(c, l, r) =>
      var s := HeadStep(env, c);
      if s.Some? then Some(Ite(s.value, l, r))
      else if c == Const("true") then Some(l)
      else if c == Const("false") then Some(r)
      else None
    case _ => None
  }

  /** A head step is a reduction. */
  lemma {:induction false} HeadStepReduces(env: Env, e: Expr)
    requires HeadStep(env, e).Some?
    ensures Red(env, e, HeadStep(env, e).value)
    decreases e
  {
    var d := HeadStep(env, e).value;
    match e {
      case App(f, a) =>
        if f.Lam? {
          RedRoot(env, e, d);
        } else {
          HeadStepReduces(env, f);
          RedSame(env, a);
          RedApp(env, f, a, d.f, a);
        }
      case Ite(c, l, r) =>
        if HeadStep(env, c).None? {
          RedRoot(env, e, d);
        } else {
          HeadStepReduces(env, c);
          RedSame(env, l);
          RedSame(env, r);
          RedInside(env, e, d);
        }
      case _ => RedRoot(env, e, d);
    }
  }

  /** How many arguments a primitive takes, and which of them it looks at. */
  function Arity(c: string): Option<(nat, nat)> {
    if c == "Nat.add" || c == "Nat.mul" then Some((2, 1))
    else if c == "Nat.rec" || c == "Bool.rec" then Some((4, 3))
    else if c == "Eq.subst" then Some((6, 4))
    else None
  }

  /** A primitive is at the head, or at the head of the condition that is. */
  predicate PrimHead(e: Expr) {
    match e
    case App(f, _) => PrimHead(f)
    case Ite(c, _, _) => PrimHead(c)
    case Const(c) => Arity(c).Some?
    case _ => false
  }

  /** Head reduction from `e` ends after `n` steps and meets no primitive. */
  predicate Goes(env: Env, e: Expr, n: nat)
    decreases n
  {
    !PrimHead(e) && var s := HeadStep(env, e);
                    if n == 0 then s.None? else s.Some? && Goes(env, s.value, n - 1)
  }

  /** The term it ends on. */
  function Reach(env: Env, e: Expr, n: nat): (r: Expr)
    requires Goes(env, e, n)
    ensures HeadStep(env, r).None? && !PrimHead(r)
    decreases n
  {
    if n == 0 then e else Reach(env, HeadStep(env, e).value, n - 1)
  }

  /** Twice the sizes of the terms on the way, those after the first. */
  function Rest(env: Env, e: Expr, n: nat): nat
    requires Goes(env, e, n)
    decreases n, 0
  {
    if n == 0 then 0 else Cost(env, HeadStep(env, e).value, n - 1)
  }

  function Cost(env: Env, e: Expr, n: nat): nat
    requires Goes(env, e, n)
    decreases n, 1
  {
    2 * Size(e) + Rest(env, e, n)
  }

  /** Fuel for every term on the way. */
  predicate Enough(env: Env, e: Expr, n: nat, fuel: int) {
    Goes(env, e, n) && fuel > Cost(env, e, n)
  }

  /** The end was found within that fuel. */
  predicate Found(env: Env, e: Expr, n: nat, fuel0: int, r: Expr, fuel: int)
    requires Goes(env, e, n)
  {
    r == Reach(env, e, n) && fuel >= fuel0 - Cost(env, e, n)
  }

  lemma StepOnce(env: Env, e: Expr, n: nat)
    requires Goes(env, e, n) && HeadStep(env, e).Some?
    ensures var d := HeadStep(env, e).value;
            && n > 0 && Goes(env, d, n - 1) && Reach(env, e, n) == Reach(env, d, n - 1)
            && Rest(env, e, n) == Cost(env, d, n - 1) && Cost(env, e, n) == 2 * Size(e) + Cost(env, d, n - 1)
  {
  }

  lemma StepBack(env: Env, e: Expr, d: Expr, k: nat)
    requires HeadStep(env, e) == Some(d) && !PrimHead(e) && k > 0 && Goes(env, d, k - 1)
    ensures Goes(env, e, k) && Reach(env, e, k) == Reach(env, d, k - 1)
            && Cost(env, e, k) == 2 * Size(e) + Cost(env, d, k - 1)
  {
    assert Goes(env, e, k);
    StepOnce(env, e, k);
  }

  /** One step less to go. */
  lemma OneStep(env: Env, e: Expr, n: nat, fuel: int)
    requires Enough(env, e, n, fuel) && HeadStep(env, e).Some?
    ensures var d := HeadStep(env, e).value;
            && n > 0 && Enough(env, d, n - 1, fuel - 1) && Reach(env, e, n) == Reach(env, d, n - 1)
            && fuel - 1 - Cost(env, d, n - 1) >= fuel - Cost(env, e, n)
  {
    StepOnce(env, e, n);
  }

  // ---- what the head does inside an application ----

  lemma {:induction false} AppsStep(env: Env, h: Expr, args: seq<Expr>)
    requires args != []
    ensures HeadStep(env, MkApps(h, args)) ==
            if h.Lam? then Some(MkApps(Subst(h.x, args[0], h.b), args[1..]))
            else if HeadStep(env, h).Some? then Some(MkApps(HeadStep(env, h).value, args)) else None
    ensures PrimHead(MkApps(h, args)) == PrimHead(h) && Size(MkApps(h, args)) > Size(h) && MkApps(h, args).App?
    decreases |args|
  {
    var g := App(h, args[0]);
    if |args| > 1 {
      AppsStep(env, g, args[1..]);
      if HeadStep(env, g).Some? {
        assert MkApps(HeadStep(env, g).value, args[1..]) ==
          if h.Lam? then MkApps(Subst(h.x, args[0], h.b), args[1..]) else MkApps(HeadStep(env, h).value, args);
      }
    } else {
      assert MkApps(g, args[1..]) == g;
    }
  }

  /** Head reduction of an application is that of its function first. */
  lemma {:induction false} SplitApps(env: Env, h: Expr, args: seq<Expr>, n: nat) returns (k: nat)
    requires args != [] && Goes(env, MkApps(h, args), n)
    ensures k <= n && Goes(env, h, k)
    ensures var h' := Reach(env, h, k);
            && Goes(env, MkApps(h', args), n - k)
            && Reach(env, MkApps(h, args), n) == Reach(env, MkApps(h', args), n - k)
            && Cost(env, MkApps(h, args), n) >= Cost(env, h, k) + 2 + Rest(env, MkApps(h', args), n - k)
    decreases n
  {
    AppsStep(env, h, args);
    if h.Lam? || HeadStep(env, h).None? {
      k := 0;
    } else {
      var g := HeadStep(env, h).value;
      StepOnce(env, MkApps(h, args), n);
      k := SplitApps(env, g, args, n - 1);
      k := k + 1;
      StepBack(env, h, g, k);
    }
  }

  /** A function that is no `fun` and goes no further keeps its application from going further. */
  lemma StuckApps(env: Env, h: Expr, args: seq<Expr>, n: nat)
    requires HeadStep(env, h).None? && (args == [] || !h.Lam?) && Goes(env, MkApps(h, args), n)
    ensures n == 0
  {
    if args != [] {
      AppsStep(env, h, args);
    }
  }

  // ---- and inside a conditional ----

  lemma IteStep(env: Env, c: Expr, l: Expr, r: Expr)
    ensures HeadStep(env, Ite(c, l, r)) ==
            if HeadStep(env, c).Some? then Some(Ite(HeadStep(env, c).value, l, r))
            else if c == Const("true") then Some(l) else if c == Const("false") then Some(r) else None
    ensures PrimHead(Ite(c, l, r)) == PrimHead(c) && Size(Ite(c, l, r)) > Size(c)
  {
  }

  lemma {:induction false} SplitIte(env: Env, c: Expr, l: Expr, r: Expr, n: nat) returns (k: nat)
    requires Goes(env, Ite(c, l, r), n)
    ensures k <= n && Goes(env, c, k)
    ensures var c' := Reach(env, c, k);
            && Goes(env, Ite(c', l, r), n - k)
            && Reach(env, Ite(c, l, r), n) == Reach(env, Ite(c', l, r), n - k)
            && Cost(env, Ite(c, l, r), n) >= Cost(env, c, k) + 2 + Rest(env, Ite(c', l, r), n - k)
    decreases n
  {
    IteStep(env, c, l, r);
    if HeadStep(env, c).None? {
      k := 0;
    } else {
      var d := HeadStep(env, c).value;
      StepOnce(env, Ite(c, l, r), n);
      k := SplitIte(env, d, l, r, n - 1);
      k := k + 1;
      StepBack(env, c, d, k);
    }
  }

  // ---- the loop over head and arguments ----

  /** The head goes no further by itself, the application ends after `m` steps, and there is fuel for them. */
  predicate Ready(env: Env, h: Expr, args: seq<Expr>, m: nat, fuel: int) {
    HeadStep(env, h).None? && Goes(env, MkApps(h, args), m) && fuel > Rest(env, MkApps(h, args), m)
  }

  /** Still on the way to the end that was reached from `h0`, within the fuel there was. */
  predicate OnWay(env: Env, h0: Expr, args0: seq<Expr>, m0: nat, fuel0: int, h: Expr, args: seq<Expr>, m: nat,
                  fuel: int)
    requires Ready(env, h0, args0, m0, fuel0)
  {
    && Ready(env, h, args, m, fuel)
    && Reach(env, MkApps(h, args), m) == Reach(env, MkApps(h0, args0), m0)
    && fuel - Rest(env, MkApps(h, args), m) >= fuel0 - Rest(env, MkApps(h0, args0), m0)
  }

  /** Head and arguments as the loop finds them. */
  lemma UnwindReady(env: Env, h: Expr, args: seq<Expr>, n: nat, fuel: int) returns (k: nat)
    requires args != [] && Enough(env, MkApps(h, args), n, fuel)
    ensures k <= n && Enough(env, h, k, fuel - 1)
    ensures Ready(env, Reach(env, h, k), args, n - k, fuel - 1 - Cost(env, h, k))
    ensures Reach(env, MkApps(h, args), n) == Reach(env, MkApps(Reach(env, h, k), args), n - k)
    ensures fuel - 1 - Cost(env, h, k) - Rest(env, MkApps(Reach(env, h, k), args), n - k)
            >= fuel - Cost(env, MkApps(h, args), n)
  {
    k := SplitApps(env, h, args, n);
  }

  /** A function has met its argument: what becomes of its body, and of the arguments left. */
  lemma BetaReady(env: Env, h0: Expr, args0: seq<Expr>, m0: nat, fuel0: int, h: Expr, args: seq<Expr>, m: nat,
                  fuel: int)
    returns (k: nat)
    requires Ready(env, h0, args0, m0, fuel0) && OnWay(env, h0, args0, m0, fuel0, h, args, m, fuel)
    requires h.Lam? && args != []
    ensures var d := Subst(h.x, args[0], h.b);
            && k < m && Enough(env, d, k, fuel)
            && OnWay(env, h0, args0, m0, fuel0, Reach(env, d, k), args[1..], m - 1 - k, fuel - Cost(env, d, k))
  {
    AppsStep(env, h, args);
    var d, rest := Subst(h.x, args[0], h.b), args[1..];
    if rest == [] {
      k := m - 1;
      assert MkApps(d, rest) == d && MkApps(Reach(env, d, k), rest) == Reach(env, d, k);
    } else {
      k := SplitApps(env, d, rest, m - 1);
    }
  }

  /** The loop may stop where the head is no `fun` that still has an argument. */
  lemma UnwindEnds(env: Env, h0: Expr, args0: seq<Expr>, m0: nat, fuel0: int, h: Expr, args: seq<Expr>, m: nat,
                   fuel: int)
    requires Ready(env, h0, args0, m0, fuel0) && OnWay(env, h0, args0, m0, fuel0, h, args, m, fuel)
    requires args == [] || !h.Lam?
    ensures MkApps(h, args) == Reach(env, MkApps(h0, args0), m0)
    ensures fuel >= fuel0 - Rest(env, MkApps(h0, args0), m0)
  {
    StuckApps(env, h, args, m);
  }

  /** No primitive is at the head, and no definition that unfolds. */
  lemma ReadyConst(env: Env, h: Expr, args: seq<Expr>, m: nat, fuel: int)
    requires Ready(env, h, args, m, fuel) && h.Const?
    ensures Arity(h.n).None? && Unfolding(env, h.n).None?
  {
    if args != [] {
      AppsStep(env, h, args);
    }
  }

  function Branch(c: Expr, e: Expr): Option<Expr>
    requires e.Ite?
  {
    if c == Const("true") then Some(e.l) else if c == Const("false") then Some(e.r) else None
  }

  /** After `k` steps of its condition the conditional has decided, and its branch has the rest of the way to
      go; or it has not, and stops there. */
  predicate Decides(env: Env, e: Expr, n: nat, k: nat, c: Expr)
    requires e.Ite? && Goes(env, e, n) && Goes(env, e.c, k)
  {
    match Branch(c, e)
    case Some(d) =>
      && k < n && Goes(env, d, n - k - 1) && Reach(env, e, n) == Reach(env, d, n - k - 1)
      && Cost(env, e, n) >= Cost(env, e.c, k) + 2 + Cost(env, d, n - k - 1)
    case None => Reach(env, e, n) == Ite(c, e.l, e.r) && Cost(env, e, n) >= Cost(env, e.c, k) + 2
  }

  /** The condition first, then the branch. */
  lemma IteReady(env: Env, e: Expr, n: nat, fuel: int) returns (k: nat)
    requires e.Ite? && Enough(env, e, n, fuel)
    ensures k <= n && Enough(env, e.c, k, fuel - 1) && Decides(env, e, n, k, Reach(env, e.c, k))
  {
    k := SplitIte(env, e.c, e.l, e.r, n);
    var c' := Reach(env, e.c, k);
    IteStep(env, c', e.l, e.r);
    if c' == Const("true") || c' == Const("false") {
      StepOnce(env, Ite(c', e.l, e.r), n - k);
    }
  }

  /** The branch has fuel for its way, and what it finds is what the conditional comes to. */
  lemma BranchReady(env: Env, e: Expr, n: nat, k: nat, c: Expr, d: Expr, fuel0: int, fuel: int)
    requires e.Ite? && Enough(env, e, n, fuel0 + 1) && Enough(env, e.c, k, fuel0) && Decides(env, e, n, k, c)
    requires Branch(c, e) == Some(d) && fuel >= fuel0 - Cost(env, e.c, k)
    ensures k < n && Enough(env, d, n - k - 1, fuel)
    ensures Reach(env, e, n) == Reach(env, d, n - k - 1)
    ensures fuel - Cost(env, d, n - k - 1) >= fuel0 + 1 - Cost(env, e, n)
  {
  }

  lemma Undecided(env: Env, e: Expr, n: nat, k: nat, c: Expr, fuel0: int, fuel: int)
    requires e.Ite? && Enough(env, e, n, fuel0 + 1) && Enough(env, e.c, k, fuel0) && Decides(env, e, n, k, c)
    requires Branch(c, e).None? && fuel >= fuel0 - Cost(env, e.c, k)
    ensures Found(env, e, n, fuel0 + 1, Ite(c, e.l, e.r), fuel)
  {
  }
}
