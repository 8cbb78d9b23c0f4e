/** The process tree: every task but init is listed once, by its parent and by nobody else, and no
    dead task but init keeps children, so every zombie can still be reaped by somebody. */
module SchedTree {
  import opened Wrappers
  import opened SchedState
  import opened SchedMachine
  import opened SchedKeeps

  /** How often `p` must list `c`. */
  function Lists(procs: map<nat, Proc>, p: nat, c: nat): nat {
    if c in procs && procs[c].parent == p then 1 else 0
  }

  predicate Listed(procs: map<nat, Proc>, p: nat, c: nat)
    requires p in procs
  {
    Times(procs[p].children, c) == Lists(procs, p, c)
  }

  predicate HasParent(procs: map<nat, Proc>, c: nat)
    requires c in procs
  {
    procs[c].parent != c
    && (c != 1 ==> procs[c].parent in procs && (procs[procs[c].parent].state == Zombie ==> procs[c].parent == 1))
  }

  ghost predicate Tree(procs: map<nat, Proc>) {
    && 1 in procs && procs[1].parent == 0 && 0 !in procs
    && (forall p, c {:trigger Listed(procs, p, c)} :: p in procs ==> Listed(procs, p, c))
    && (forall c :: c in procs ==> HasParent(procs, c))
  }

  /** Only states and kill marks differ, and nobody dies. */
  predicate SameTree(a: map<nat, Proc>, b: map<nat, Proc>) {
    a.Keys == b.Keys
    && forall p :: p in a ==> b[p].parent == a[p].parent && b[p].children == a[p].children
                              && (b[p].state == Zombie ==> a[p].state == Zombie)
  }

  lemma SameKeeps(a: map<nat, Proc>, b: map<nat, Proc>)
    requires Tree(a) && SameTree(a, b)
    ensures Tree(b)
  {
    forall p, c | p in b ensures Listed(b, p, c) {
      assert Listed(a, p, c);
    }
    forall c | c in b ensures HasParent(b, c) {
      assert HasParent(a, c);
    }
  }

  lemma ForkListed(s: Sched, child: nat, parent: nat, cg: nat, v: nat, p: nat, c: nat)
    requires Tree(s.procs) && v < |s.queues| && child !in s.procs && child != 0 && parent in s.procs
    requires p in Install(s, child, parent, cg, v).procs
    ensures Listed(Install(s, child, parent, cg, v).procs, p, c)
  {
    if p != child {
      assert Listed(s.procs, p, c);
    } else if c in s.procs {
      assert HasParent(s.procs, c);
    }
  }

  lemma ForkTree(s: Sched, child: nat, parent: nat, cg: nat, v: nat)
    requires Tree(s.procs) && v < |s.queues| && child !in s.procs && child != 0
    requires parent in s.procs && s.procs[parent].state != Zombie
    ensures Tree(Install(s, child, parent, cg, v).procs)
  {
    var b := Install(s, child, parent, cg, v).procs;
    forall p, c | p in b ensures Listed(b, p, c) {
      ForkListed(s, child, parent, cg, v, p, c);
    }
    forall c | c in b ensures HasParent(b, c) {
      if c != child {
        assert HasParent(s.procs, c);
      }
    }
  }

  lemma ReapListedParent(s: Sched, pid: nat, c: nat, x: nat)
    requires pid in s.procs && c in s.procs && c != pid && s.procs[c].parent == pid && Listed(s.procs, pid, x)
    ensures Listed(Reaped(s, pid, c).procs, pid, x)
  {
    WithoutCount(s.procs[pid].children, c, x);
  }

  lemma ReapListed(s: Sched, pid: nat, c: nat, p: nat, x: nat)
    requires pid in s.procs && c in s.procs && c != pid && s.procs[c].parent == pid
    requires p in s.procs && p != c && Listed(s.procs, p, x)
    ensures Listed(Reaped(s, pid, c).procs, p, x)
  {
    if p == pid {
      ReapListedParent(s, pid, c, x);
    } else {
      assert Reaped(s, pid, c).procs[p] == s.procs[p];
    }
  }

  lemma ReapTree(s: Sched, pid: nat, c: nat)
    requires Tree(s.procs) && pid in s.procs && c in s.procs && c in s.procs[pid].children
    requires s.procs[c].state == Zombie && s.procs[pid].state != Zombie
    ensures Tree(Reaped(s, pid, c).procs)
  {
    var a, b := s.procs, Reaped(s, pid, c).procs;
    assert Listed(a, pid, c);
    forall p, x | p in b ensures Listed(b, p, x) {
      assert Listed(a, p, x);
      ReapListed(s, pid, c, p, x);
    }
    forall x | x in b ensures HasParent(b, x) {
      assert HasParent(a, x);
    }
  }

  // ---- the funeral ----

  /** Half-way through the adoptions: `left` are the children of `pid` still to be moved. */
  ghost predicate Moving(procs: map<nat, Proc>, pid: nat, left: seq<nat>) {
    && 1 in procs && procs[1].parent == 0 && 0 !in procs && pid in procs && pid != 1 && procs[pid].parent != pid
    && (forall p, c {:trigger Listed(procs, p, c)} :: p in procs && p != pid ==> Listed(procs, p, c))
    && (forall c :: c in procs && procs[c].parent == pid ==> c in left)
    && (forall c :: c in procs && procs[c].parent != pid ==> HasParent(procs, c))
    && (forall c :: c in left ==> Times(left, c) == 1 && c in procs && procs[c].parent == pid)
  }

  lemma AdoptMoves(procs: map<nat, Proc>, pid: nat, c: nat, rest: seq<nat>)
    requires Moving(procs, pid, [c] + rest)
    ensures Moving(Adopt(procs, c), pid, rest)
  {
    assert c in [c] + rest;
    assert procs[c].parent == pid;
    assert Listed(procs, 1, c);
    var moved := procs[c := procs[c].(parent := 1)];
    assert c != 1;
    var b := Adopt(procs, c);
    assert b == moved[1 := moved[1].(children := moved[1].children + [c])];
    forall p, x | p in b && p != pid ensures Listed(b, p, x) {
      assert Listed(procs, p, x);
    }
    forall x | x in rest ensures Times(rest, x) == 1 && x in b && b[x].parent == pid {
      assert x in [c] + rest;
      assert Times([c] + rest, x) == Times([c], x) + Times(rest, x);
    }
    forall x | x in b && b[x].parent == pid ensures x in rest {
      assert x in [c] + rest;
    }
    forall x | x in b && b[x].parent != pid ensures HasParent(b, x) {
      if x != c { assert HasParent(procs, x); }
    }
  }

  lemma {:induction false} AdoptAllCons(procs: map<nat, Proc>, c: nat, rest: seq<nat>)
    ensures AdoptAll(procs, [c] + rest) == AdoptAll(Adopt(procs, c), rest)
    decreases |rest|
  {
    if rest == [] {
      assert [c] + rest == [c] && [c][..0] == [];
    } else {
      AdoptAllCons(procs, c, rest[..|rest| - 1]);
      assert ([c] + rest)[..|rest|] == [c] + rest[..|rest| - 1];
    }
  }

  lemma {:induction false} AdoptAllMoves(procs: map<nat, Proc>, pid: nat, left: seq<nat>)
    requires Moving(procs, pid, left)
    ensures Moving(AdoptAll(procs, left), pid, [])
    decreases |left|
  {
    if left != [] {
      var c, rest := left[0], left[1..];
      assert left == [c] + rest;
      AdoptMoves(procs, pid, c, rest);
      AdoptAllMoves(Adopt(procs, c), pid, rest);
      AdoptAllCons(procs, c, rest);
    }
  }

  lemma StartMoving(procs: map<nat, Proc>, pid: nat, code: int)
    requires Tree(procs) && pid in procs && pid != 1
    ensures var dead := procs[pid := procs[pid].(state := Zombie, exitCode := code)];
            Moving(dead, pid, dead[pid].children)
  {
    var dead := procs[pid := procs[pid].(state := Zombie, exitCode := code)];
    assert HasParent(procs, pid);
    forall p, c | p in dead ensures Listed(dead, p, c) {
      assert Listed(procs, p, c);
    }
    forall c | c in dead && dead[c].parent == pid ensures c in dead[pid].children {
      assert Listed(dead, pid, c);
    }
    forall c | c in dead && dead[c].parent != pid ensures HasParent(dead, c) {
      assert HasParent(procs, c);
    }
    forall c | c in dead[pid].children ensures Times(dead[pid].children, c) == 1 && c in dead && dead[c].parent == pid {
      assert Listed(dead, pid, c);
    }
  }

  lemma EndMoving(procs: map<nat, Proc>, pid: nat)
    requires Moving(procs, pid, [])
    ensures Tree(Disown(procs, pid))
  {
    var b := Disown(procs, pid);
    forall p, c | p in b ensures Listed(b, p, c) {
      if p != pid { assert Listed(procs, p, c); }
    }
    forall c | c in b ensures HasParent(b, c) {
      assert HasParent(procs, c);
    }
  }

  lemma InitDies(procs: map<nat, Proc>, code: int)
    requires Tree(procs)
    ensures Tree(procs[1 := procs[1].(state := Zombie, exitCode := code)])
  {
    var b := procs[1 := procs[1].(state := Zombie, exitCode := code)];
    forall p, c | p in b ensures Listed(b, p, c) {
      assert Listed(procs, p, c);
    }
    forall c | c in b ensures HasParent(b, c) {
      assert HasParent(procs, c);
    }
  }

  /** `exit` hands every child to init, and leaves the dead task none. */
  lemma BuriedTree(s: Sched, pid: nat, code: int)
    requires Tree(s.procs) && pid in s.procs
    ensures Tree(Buried(s, pid, code).procs)
  {
    if pid == 1 {
      InitDies(s.procs, code);
    } else {
      var dead := s.procs[pid := s.procs[pid].(state := Zombie, exitCode := code)];
      StartMoving(s.procs, pid, code);
      AdoptAllMoves(dead, pid, dead[pid].children);
      EndMoving(AdoptAll(dead, dead[pid].children), pid);
    }
  }

  lemma RequeueTree(s: Sched, h: nat)
    requires Tree(s.procs) && h < |s.current| && h < |s.queues|
    ensures Tree(Requeue(s, h).procs)
  {
    SameKeeps(s.procs, Requeue(s, h).procs);
  }

  lemma TakeTree(s: Sched, h: nat, r: Option<nat>)
    requires Tree(s.procs) && h < |s.current| && h < |s.idle| && (r.Some? ==> r.value in s.procs)
    ensures Tree(TakeOrIdle(s, h, r).procs)
  {
    SameKeeps(s.procs, TakeOrIdle(s, h, r).procs);
  }

  lemma WakeTree(s: Sched, pid: nat, v: nat)
    requires Tree(s.procs) && v < |s.queues|
    ensures Tree(Woken(s, pid, v).procs)
  {
    SameKeeps(s.procs, Woken(s, pid, v).procs);
  }

  lemma KillTree(s: Sched, pid: nat, code: int, v: nat)
    requires Tree(s.procs) && v < |s.queues|
    ensures Tree(Killed(s, pid, code, v).procs)
  {
    SameKeeps(s.procs, Killed(s, pid, code, v).procs);
  }

  lemma BlockTree(s: Sched, h: nat, reason: nat)
    requires Tree(s.procs) && h < |s.current|
    ensures Tree(Slept(s, h, reason).procs)
  {
    SameKeeps(s.procs, Slept(s, h, reason).procs);
  }

  lemma PickTree(m: Machine, n: nat, h: nat, qs: seq<seq<nat>>, r: Option<nat>)
    requires Fits(m, n) && Tree(m.sys.procs) && Enabled(m, n, SchedulePoint(h, qs, r))
    ensures Tree(Next(m, n, SchedulePoint(h, qs, r)).sys.procs)
  {
    RequeueTree(m.sys, h);
    TakeTree(Requeue(m.sys, h).(queues := qs), h, r);
  }

  lemma SwitchTree(m: Machine, n: nat, h: nat)
    requires Fits(m, n) && Tree(m.sys.procs) && Enabled(m, n, SwitchTo(h))
    ensures Tree(Next(m, n, SwitchTo(h)).sys.procs)
  {
    if m.hand[h] == 0 {
      TakeTree(m.sys, h, None);
    } else if MayEnter(m.sys, h, m.hand[h]) {
      TakeTree(m.sys, h, Some(m.hand[h]));
    }
  }

  lemma BuryTree(s: Sched, pid: nat, code: int, v: nat)
    requires Tree(s.procs) && pid in s.procs && v < |s.queues|
    ensures Tree(Bury(s, pid, code, v).procs)
  {
    BuriedTree(s, pid, code);
    BuriedStates(s, pid, code);
    BuryIsWake(s, pid, code, v);
    WakeTree(Buried(s, pid, code), Buried(s, pid, code).procs[pid].parent, v);
  }

  lemma ChildTree(m: Machine, n: nat, h: nat, cg: nat)
    requires Inv(m, n) && Tree(m.sys.procs) && Enabled(m, n, Fork(h, cg))
    ensures Tree(Next(m, n, Fork(h, cg)).sys.procs)
  {
    assert PidOk(m, m.born[h]) && HartOk(m, n, h);
    TimesIn(m.born, m.born[h]);
    ForkTree(m.sys, m.born[h], m.sys.current[h], cg, h);
  }

  lemma ReapedTree(m: Machine, n: nat, h: nat, c: nat)
    requires Inv(m, n) && Tree(m.sys.procs) && Enabled(m, n, Reap(h, c))
    ensures Tree(Next(m, n, Reap(h, c)).sys.procs)
  {
    assert HartOk(m, n, h);
    ReapTree(m.sys, m.sys.current[h], c);
  }

  /** Every step keeps the tree. */
  lemma StepTree(m: Machine, n: nat, e: Event)
    requires Inv(m, n) && Tree(m.sys.procs) && Enabled(m, n, e)
    ensures Tree(Next(m, n, e).sys.procs)
  {
    match e {
      case NewPid(_) =>
      case Abandon(_) =>
      case Fork(h, cg) => ChildTree(m, n, h, cg);
      case Block(h, reason) => BlockTree(m.sys, h, reason);
      case Wake(h, pid) => WakeTree(m.sys, pid, h);
      case Kill(h, pid, code) => KillTree(m.sys, pid, code, h);
      case SchedulePoint(h, qs, r) => PickTree(m, n, h, qs, r);
      case RunOn(h, qs, r) => if r.Some? { TakeTree(m.sys.(queues := qs), h, r); }
      case Exit(h, code, _, _) => BuryTree(m.sys, m.sys.current[h], code, h);
      case SwitchTo(h) => SwitchTree(m, n, h);
      case Reap(h, c) => ReapedTree(m, n, h, c);
    }
  }
}
