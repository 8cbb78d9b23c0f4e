/** Exits and those who wait for them, over whole runs: who is woken, and what is reaped. */
module SchedWaits {
  import opened Wrappers
  import opened SchedState
  import opened SchedMachine
  import opened SchedKeeps
  import opened SchedTree
  import opened SchedRuns
  import opened SchedSteps

  /** Asleep in `waitpid`. */
  predicate Waiting(m: Machine, p: nat) {
    p in m.sys.procs && m.sys.procs[p].state == Blocked && m.sys.procs[p].blockedOn == BLOCK_WAIT
  }

  ghost predicate NoneFor(m: Machine, p: nat, target: nat) {
    forall c :: !ZombieChild(m.sys.procs, p, target, c)
  }

  predicate SameButKin(a: Proc, b: Proc) {
    b == a.(parent := b.parent, children := b.children)
  }

  lemma {:induction false} AdoptAllKin(procs: map<nat, Proc>, orphans: seq<nat>, x: nat)
    requires x in procs
    ensures var r := AdoptAll(procs, orphans);
            && x in r && SameButKin(procs[x], r[x]) && (x != 1 ==> r[x].children == procs[x].children)
            && r[x].parent == if x in orphans then 1 else procs[x].parent
  {
    if orphans != [] {
      var k := |orphans| - 1;
      AdoptAllKin(procs, orphans[..k], x);
      assert orphans == orphans[..k] + [orphans[k]];
    }
  }

  /** Task `x` after the funeral of `pid`, before anyone is woken. */
  lemma BuriedKin(s: Sched, pid: nat, code: int, x: nat)
    requires Tree(s.procs) && pid in s.procs && x in s.procs
    ensures var t := Buried(s, pid, code).procs;
            && x in t && t[x].parent == (if pid != 1 && s.procs[x].parent == pid then 1 else s.procs[x].parent)
            && (x != pid ==> SameButKin(s.procs[x], t[x]))
            && (x != pid && x != 1 ==> t[x].children == s.procs[x].children)
            && (x == pid ==> t[x].state == Zombie && t[x].exitCode == code && (x != 1 ==> t[x].children == []))
  {
    var dead := s.procs[pid := s.procs[pid].(state := Zombie, exitCode := code)];
    AdoptAllKin(dead, dead[pid].children, x);
    assert Listed(s.procs, pid, x);
    TimesIn(s.procs[pid].children, x);
  }

  /** Task `x` before and after the exit of `p`. */
  ghost predicate Outlives(m: Machine, m': Machine, n: nat, p: nat, x: nat)
    requires Fits(m', n) && p in m.sys.procs && x in m.sys.procs && x in m'.sys.procs
  {
    var a, b := m.sys.procs[x], m'.sys.procs[x];
    && b.parent == (if p != 1 && a.parent == p then 1 else a.parent)
    && (x != 1 ==> b.children == a.children)
    && if x == m.sys.procs[p].parent && Waiting(m, x)
       then SameButKin(a.(state := Runnable, blockedOn := 0), b) && Ready(m', n, x)
       else SameButKin(a, b)
  }

  /** ... and after the parent has been woken. */
  lemma BuryKin(s: Sched, pid: nat, code: int, v: nat, x: nat)
    requires Tree(s.procs) && pid in s.procs && x in s.procs && v < |s.queues|
    ensures var t := Bury(s, pid, code, v).procs;
            && x in t && t[x].parent == (if pid != 1 && s.procs[x].parent == pid then 1 else s.procs[x].parent)
            && (x != pid && x != 1 ==> t[x].children == s.procs[x].children)
            && (x == pid ==> t[x].state == Zombie && t[x].exitCode == code && (x != 1 ==> t[x].children == []))
            && (x != pid ==>
                  if x == s.procs[pid].parent && s.procs[x].state == Blocked && s.procs[x].blockedOn == BLOCK_WAIT
                  then SameButKin(s.procs[x].(state := Runnable, blockedOn := 0), t[x])
                  else SameButKin(s.procs[x], t[x]))
  {
    BuriedKin(s, pid, code, x);
    BuriedKin(s, pid, code, pid);
    BuryIsWake(s, pid, code, v);
    assert HasParent(s.procs, pid);
  }

  lemma ExitTables(m: Machine, n: nat, e: Event)
    requires Fits(m, n) && Enabled(m, n, e) && e.Exit?
    ensures var p := m.sys.current[e.h];
            && p in m.sys.procs && Next(m, n, e).sys.procs == Bury(m.sys, p, e.code, e.h).procs
            && Next(m, n, e).sys.procs.Keys == m.sys.procs.Keys
  {
    BuriedStates(m.sys, m.sys.current[e.h], e.code);
    BuryIsWake(m.sys, m.sys.current[e.h], e.code, e.h);
  }

  lemma ExitKin(m: Machine, n: nat, e: Event, x: nat)
    requires Fits(m, n) && Tree(m.sys.procs) && Enabled(m, n, e) && e.Exit?
    requires Inv(Next(m, n, e), n) && x in m.sys.procs && x != m.sys.current[e.h]
    ensures m.sys.current[e.h] in m.sys.procs && x in Next(m, n, e).sys.procs
    ensures Outlives(m, Next(m, n, e), n, m.sys.current[e.h], x)
  {
    var p, m' := m.sys.current[e.h], Next(m, n, e);
    ExitTables(m, n, e);
    BuryKin(m.sys, p, e.code, e.h, x);
    if x == m.sys.procs[p].parent && Waiting(m, x) {
      RunnableReady(m', n, x);
    }
  }

  /** An exit leaves a zombie with the code it was given and no children, and gives its children to init;
      its parent, if it sleeps in `waitpid`, is runnable and where a hart will find it; nobody else is
      disturbed, a parent asleep for another reason included. */
  lemma ExitDoes(n: nat, ms: seq<Machine>, es: seq<Event>, i: nat)
    requires IsRun(n, ms, es) && i < |es| && es[i].Exit?
    ensures var m, m' := ms[i], ms[i + 1];
            && Fits(m, n) && Fits(m', n) && es[i].h < n
            && var p := m.sys.current[es[i].h];
               && p in m.sys.procs && m'.sys.procs.Keys == m.sys.procs.Keys
               && Alive(m', p, Zombie) && m'.sys.procs[p].exitCode == es[i].code
               && (p != 1 ==> m'.sys.procs[p].children == [])
               && forall x :: x in m.sys.procs && x != p ==> Outlives(m, m', n, p, x)
  {
    RunStep(n, ms, es, i);
    var m, m', e := ms[i], ms[i + 1], es[i];
    var p := m.sys.current[e.h];
    ExitTables(m, n, e);
    BuryKin(m.sys, p, e.code, e.h, p);
    forall x | x in m.sys.procs && x != p ensures Outlives(m, m', n, p, x) {
      ExitKin(m, n, e, x);
    }
  }

  // ---- no lost wake-up ----

  predicate WasDead(a: map<nat, Proc>, b: map<nat, Proc>, c: nat) {
    c in b && b[c].state == Zombie ==> c in a && a[c].state == Zombie && a[c].exitCode == b[c].exitCode
  }

  predicate WasListed(a: map<nat, Proc>, b: map<nat, Proc>, p: nat, c: nat) {
    p in a && p in b && c in b && b[c].state == Zombie && c in b[p].children ==> c in a[p].children
  }

  /** The zombies of `b` were zombies in `a`, with the same code and listed by the same tasks. */
  ghost predicate NoneDied(a: map<nat, Proc>, b: map<nat, Proc>) {
    (forall c :: WasDead(a, b, c)) && forall p, c :: WasListed(a, b, p, c)
  }

  lemma ReapedNoneDied(s: Sched, pid: nat, c: nat)
    ensures NoneDied(s.procs, Reaped(s, pid, c).procs)
  {
    if pid in s.procs {
      forall x | x in Without(s.procs[pid].children, c) ensures x in s.procs[pid].children {
        WithoutCount(s.procs[pid].children, c, x);
        TimesIn(s.procs[pid].children, x);
        TimesIn(Without(s.procs[pid].children, c), x);
      }
    }
  }

  lemma PickNoneDied(s: Sched, h: nat, qs: seq<seq<nat>>, r: Option<nat>)
    requires h < |s.current| && h < |s.queues| && h < |s.idle| && (r.Some? ==> r.value in s.procs)
    ensures NoneDied(s.procs, TakeOrIdle(Requeue(s, h).(queues := qs), h, r).procs)
  {
  }

  lemma SwitchNoneDied(m: Machine, n: nat, h: nat)
    requires Fits(m, n) && h < n && m.busy[h]
    ensures NoneDied(m.sys.procs, Next(m, n, SwitchTo(h)).sys.procs)
  {
  }

  lemma ForkNoneDied(s: Sched, child: nat, parent: nat, cg: nat, v: nat)
    requires v < |s.queues|
    ensures NoneDied(s.procs, Install(s, child, parent, cg, v).procs)
  {
  }

  lemma RunOnNoneDied(m: Machine, n: nat, h: nat, qs: seq<seq<nat>>, r: Option<nat>)
    requires Fits(m, n) && h < n && Enabled(m, n, RunOn(h, qs, r))
    ensures NoneDied(m.sys.procs, Next(m, n, RunOn(h, qs, r)).sys.procs)
  {
  }

  lemma WakeNoneDied(s: Sched, pid: nat, code: int, v: nat)
    requires v < |s.queues|
    ensures NoneDied(s.procs, Woken(s, pid, v).procs) && NoneDied(s.procs, Killed(s, pid, code, v).procs)
  {
  }

  lemma SleepNoneDied(s: Sched, h: nat, reason: nat)
    requires h < |s.current|
    ensures NoneDied(s.procs, Slept(s, h, reason).procs)
  {
  }

  /** Only an exit makes a zombie, and only an exit changes who lists one. */
  lemma QuietNoneDied(m: Machine, n: nat, e: Event)
    requires Fits(m, n) && Enabled(m, n, e) && !e.Exit?
    ensures NoneDied(m.sys.procs, Next(m, n, e).sys.procs)
  {
    match e {
      case SchedulePoint(h, qs, r) => PickNoneDied(m.sys, h, qs, r);
      case SwitchTo(h) => SwitchNoneDied(m, n, h);
      case Reap(h, c) => ReapedNoneDied(m.sys, m.sys.current[h], c);
      case Fork(h, cg) => ForkNoneDied(m.sys, m.born[h], m.sys.current[h], cg, h);
      case RunOn(h, qs, r) => RunOnNoneDied(m, n, h, qs, r);
      case Wake(h, p) => WakeNoneDied(m.sys, p, 0, h);
      case Kill(h, p, code) => WakeNoneDied(m.sys, p, code, h);
      case Block(h, reason) => SleepNoneDied(m.sys, h, reason);
      case _ =>
    }
  }

  /** The exiting task of this step hands init a zombie child without waking it. */
  predicate HandsOverZombie(m: Machine, e: Event) {
    e.Exit? && e.h < |m.sys.current|
    && var p := m.sys.current[e.h];
       p != 1 && p in m.sys.procs && m.sys.procs[p].parent != 1
       && exists c :: c in m.sys.procs[p].children && Alive(m, c, Zombie)
  }

  /** After an exit, a zombie child of a task that is still asleep in `waitpid` was one before, or was handed
      over. */
  lemma ExitChildWas(m: Machine, n: nat, e: Event, p: nat, c: nat)
    requires Inv(m, n) && Tree(m.sys.procs) && Enabled(m, n, e) && e.Exit?
    requires Inv(Next(m, n, e), n) && Tree(Next(m, n, e).sys.procs)
    requires Waiting(m, p) && Waiting(Next(m, n, e), p) && ZombieChild(Next(m, n, e).sys.procs, p, 0, c)
    ensures if p == 1 && m.sys.current[e.h] != 1 && c in m.sys.procs && m.sys.procs[c].parent == m.sys.current[e.h]
            then HandsOverZombie(m, e) && c in m.sys.procs[m.sys.current[e.h]].children
            else c in m.sys.procs[p].children
    ensures Alive(m, c, Zombie)
  {
    var m', q := Next(m, n, e), m.sys.current[e.h];
    ExitTables(m, n, e);
    assert Listed(m'.sys.procs, p, c);
    TimesIn(m'.sys.procs[p].children, c);
    assert m'.sys.procs[c].parent == p;
    BuryKin(m.sys, q, e.code, e.h, p);
    BuryKin(m.sys, q, e.code, e.h, c);
    assert p != q;
    assert HasParent(m.sys.procs, q);
    assert c != q;
    var a := m.sys.procs[c].parent;
    assert HasParent(m.sys.procs, c);
    if c != 1 {
      assert Listed(m.sys.procs, a, c);
      TimesIn(m.sys.procs[a].children, c);
    }
  }

  lemma ExitStillNone(m: Machine, n: nat, e: Event, p: nat, target: nat, c: nat)
    requires Inv(m, n) && Tree(m.sys.procs) && Enabled(m, n, e) && e.Exit?
    requires Inv(Next(m, n, e), n) && Tree(Next(m, n, e).sys.procs)
    requires p != 1 || !HandsOverZombie(m, e)
    requires Waiting(m, p) && NoneFor(m, p, target) && Waiting(Next(m, n, e), p)
    ensures !ZombieChild(Next(m, n, e).sys.procs, p, target, c)
  {
    if ZombieChild(Next(m, n, e).sys.procs, p, target, c) && !ZombieChild(m.sys.procs, p, target, c) {
      ExitChildWas(m, n, e, p, c);
      assert false;
    }
  }

  lemma StillNone(m: Machine, n: nat, e: Event, p: nat, target: nat)
    requires Inv(m, n) && Tree(m.sys.procs) && Enabled(m, n, e)
    requires Inv(Next(m, n, e), n) && Tree(Next(m, n, e).sys.procs)
    requires p != 1 || !HandsOverZombie(m, e)
    requires Waiting(m, p) && NoneFor(m, p, target) && Waiting(Next(m, n, e), p)
    ensures NoneFor(Next(m, n, e), p, target)
  {
    var m' := Next(m, n, e);
    if e.Exit? {
      forall c ensures !ZombieChild(m'.sys.procs, p, target, c) {
        ExitStillNone(m, n, e, p, target, c);
      }
    } else {
      QuietNoneDied(m, n, e);
      forall c ensures !ZombieChild(m'.sys.procs, p, target, c) {
        assert WasDead(m.sys.procs, m'.sys.procs, c) && WasListed(m.sys.procs, m'.sys.procs, p, c);
        assert !ZombieChild(m.sys.procs, p, target, c);
      }
    }
  }

  /** Step `i` puts `p` to sleep in `waitpid`. */
  predicate FallsAsleep(ms: seq<Machine>, es: seq<Event>, i: nat, p: nat)
    requires i < |es| && i < |ms|
  {
    es[i].Block? && es[i].reason == BLOCK_WAIT && es[i].h < |ms[i].sys.current|
    && ms[i].sys.current[es[i].h] == p && Alive(ms[i], p, Running)
  }

  /** Step `i` is the call of `waitpid(target)` by `p` that puts it to sleep: it has looked for a matching
      zombie in the same critical section and found none. */
  ghost predicate Sleeps(n: nat, ms: seq<Machine>, es: seq<Event>, i: nat, p: nat, target: nat)
    requires IsRun(n, ms, es) && i < |es|
  {
    FallsAsleep(ms, es, i, p) && NoneFor(ms[i], p, target)
  }

  /** From step `i` to step `j` task `p` is asleep in `waitpid`. */
  predicate Asleep(ms: seq<Machine>, i: nat, j: nat, p: nat)
    requires j < |ms|
  {
    forall k :: i < k <= j ==> Waiting(ms[k], p)
  }

  lemma StepNoneDied(n: nat, ms: seq<Machine>, es: seq<Event>, i: nat)
    requires IsRun(n, ms, es) && i < |es| && !es[i].Exit?
    ensures NoneDied(ms[i].sys.procs, ms[i + 1].sys.procs)
  {
    RunStep(n, ms, es, i);
    QuietNoneDied(ms[i], n, es[i]);
  }

  lemma StepStillNone(n: nat, ms: seq<Machine>, es: seq<Event>, i: nat, p: nat, target: nat)
    requires IsRun(n, ms, es) && i < |es| && (p != 1 || !HandsOverZombie(ms[i], es[i]))
    requires Waiting(ms[i], p) && NoneFor(ms[i], p, target) && Waiting(ms[i + 1], p)
    ensures NoneFor(ms[i + 1], p, target)
  {
    RunStep(n, ms, es, i);
    StillNone(ms[i], n, es[i], p, target);
  }

  /** What `p` sees when it falls asleep. */
  lemma SleepsOnNone(n: nat, ms: seq<Machine>, es: seq<Event>, i: nat, p: nat, target: nat)
    requires IsRun(n, ms, es) && i < |es| && Sleeps(n, ms, es, i, p, target)
    ensures NoneFor(ms[i + 1], p, target)
  {
    StepNoneDied(n, ms, es, i);
    var a, b := ms[i].sys.procs, ms[i + 1].sys.procs;
    forall c ensures !ZombieChild(b, p, target, c) {
      assert WasDead(a, b, c) && WasListed(a, b, p, c);
      assert !ZombieChild(a, p, target, c);
    }
  }

  /** No wake-up is lost: a task that went to sleep in `waitpid` and still sleeps there has no zombie child
      of the kind it asked for.  For init this needs that nobody handed it a zombie meanwhile. */
  lemma {:induction false} NoLostWakeup(n: nat, ms: seq<Machine>, es: seq<Event>, i: nat, j: nat, p: nat, target: nat)
    requires IsRun(n, ms, es) && i < j <= |es| && Sleeps(n, ms, es, i, p, target) && Asleep(ms, i, j, p)
    requires p == 1 ==> forall k :: i < k < j ==> !HandsOverZombie(ms[k], es[k])
    ensures NoneFor(ms[j], p, target)
    decreases j
  {
    if j == i + 1 {
      SleepsOnNone(n, ms, es, i, p, target);
    } else {
      NoLostWakeup(n, ms, es, i, j - 1, p, target);
      StepStillNone(n, ms, es, j - 1, p, target);
    }
  }

  /** Every sleep in `waitpid` of the run is one of `waitpid` itself; `ts[i]` is what step `i` asked for. */
  ghost predicate WaitsByCall(n: nat, ms: seq<Machine>, es: seq<Event>, ts: seq<nat>)
    requires IsRun(n, ms, es)
  {
    |ts| == |es| && forall i :: 0 <= i < |es| ==> CallOf(n, ms, es, ts, i)
  }

  ghost predicate CallOf(n: nat, ms: seq<Machine>, es: seq<Event>, ts: seq<nat>, i: nat)
    requires IsRun(n, ms, es) && i < |es| == |ts|
  {
    forall p: nat :: FallsAsleep(ms, es, i, p) ==> Sleeps(n, ms, es, i, p, ts[i])
  }

  lemma WaitingWasMarked(n: nat, ms: seq<Machine>, es: seq<Event>, i: nat, p: nat)
    requires IsRun(n, ms, es) && i < |es| && Waiting(ms[i + 1], p)
    requires es[i].Wake? || es[i].Kill? || es[i].Block?
    ensures Waiting(ms[i], p) || FallsAsleep(ms, es, i, p)
  {
    if es[i].Wake? {
      WakeDoes(n, ms, es, i);
    } else if es[i].Kill? {
      KillDoes(n, ms, es, i);
    } else {
      BlockDoes(n, ms, es, i);
    }
  }

  lemma WaitingWasIdle(n: nat, ms: seq<Machine>, es: seq<Event>, i: nat, p: nat)
    requires IsRun(n, ms, es) && i < |es| && Waiting(ms[i + 1], p)
    requires es[i].RunOn? || es[i].NewPid? || es[i].Abandon?
    ensures Waiting(ms[i], p)
  {
    assert StepOf(n, ms[i], es[i], ms[i + 1]);
  }

  lemma WaitingWasMoved(n: nat, ms: seq<Machine>, es: seq<Event>, i: nat, p: nat)
    requires IsRun(n, ms, es) && i < |es| && Waiting(ms[i + 1], p) && (es[i].SchedulePoint? || es[i].SwitchTo?)
    ensures Waiting(ms[i], p)
  {
    if es[i].SwitchTo? {
      SwitchDoes(n, ms, es, i);
    } else if es[i].r.Some? {
      PickDoes(n, ms, es, i, es[i].r.value);
    } else {
      IdleDoes(n, ms, es, i);
    }
  }

  lemma WaitingWasKin(n: nat, ms: seq<Machine>, es: seq<Event>, i: nat, p: nat)
    requires IsRun(n, ms, es) && i < |es| && Waiting(ms[i + 1], p) && (es[i].Fork? || es[i].Reap? || es[i].Exit?)
    ensures Waiting(ms[i], p)
  {
    if es[i].Fork? {
      ForkDoes(n, ms, es, i);
    } else if es[i].Reap? {
      ReapDoes(n, ms, es, i);
    } else {
      ExitDoes(n, ms, es, i);
    }
  }

  /** Only `block_current` puts a task to sleep. */
  lemma WaitingWas(n: nat, ms: seq<Machine>, es: seq<Event>, i: nat, p: nat)
    requires IsRun(n, ms, es) && i < |es| && Waiting(ms[i + 1], p)
    ensures Waiting(ms[i], p) || FallsAsleep(ms, es, i, p)
  {
    if es[i].SchedulePoint? || es[i].SwitchTo? {
      WaitingWasMoved(n, ms, es, i, p);
    } else if es[i].Fork? || es[i].Reap? || es[i].Exit? {
      WaitingWasKin(n, ms, es, i, p);
    } else if es[i].RunOn? || es[i].NewPid? || es[i].Abandon? {
      WaitingWasIdle(n, ms, es, i, p);
    } else {
      WaitingWasMarked(n, ms, es, i, p);
    }
  }

  /** Where the sleep of `p` at step `j` began. */
  lemma {:induction false} SleepBegan(n: nat, ms: seq<Machine>, es: seq<Event>, ts: seq<nat>, j: nat, p: nat)
    returns (i: nat)
    requires IsRun(n, ms, es) && WaitsByCall(n, ms, es, ts) && j <= |es| && Waiting(ms[j], p)
    ensures i < j && Sleeps(n, ms, es, i, p, ts[i]) && Asleep(ms, i, j, p)
  {
    if j == 0 {
      assert false;
    } else {
      WaitingWas(n, ms, es, j - 1, p);
      if Waiting(ms[j - 1], p) {
        i := SleepBegan(n, ms, es, ts, j - 1, p);
      } else {
        i := j - 1;
        assert CallOf(n, ms, es, ts, i);
      }
    }
  }

  /** In a run whose sleeps in `waitpid` are calls of it, no task but init sleeps there while a child it asked
      for is a zombie; where every call asks for any child, none sleeps there while it has a zombie child. */
  lemma NobodyWaitsForZombie(n: nat, ms: seq<Machine>, es: seq<Event>, ts: seq<nat>, j: nat, p: nat)
    requires IsRun(n, ms, es) && WaitsByCall(n, ms, es, ts) && j <= |es| && Waiting(ms[j], p) && p != 1
    ensures exists i :: 0 <= i < j && Sleeps(n, ms, es, i, p, ts[i]) && Asleep(ms, i, j, p) && NoneFor(ms[j], p, ts[i])
    ensures (forall i :: 0 <= i < |ts| ==> ts[i] == 0) ==> NoneFor(ms[j], p, 0)
  {
    var i := SleepBegan(n, ms, es, ts, j, p);
    NoLostWakeup(n, ms, es, i, j, p, ts[i]);
  }

  /** An exit leaves init asleep beside a zombie child if and only if it hands it one: the exiting task is
      neither init nor a child of init, and keeps a zombie child. */
  lemma InitMissesExactly(n: nat, ms: seq<Machine>, es: seq<Event>, i: nat)
    requires IsRun(n, ms, es) && i < |es| && es[i].Exit? && Waiting(ms[i], 1) && NoneFor(ms[i], 1, 0)
    ensures Waiting(ms[i + 1], 1) && !NoneFor(ms[i + 1], 1, 0) <==> HandsOverZombie(ms[i], es[i])
  {
    RunStep(n, ms, es, i);
    var m, m', e := ms[i], ms[i + 1], es[i];
    ExitDoes(n, ms, es, i);
    var p := m.sys.current[e.h];
    if HandsOverZombie(m, e) {
      var c :| c in m.sys.procs[p].children && Alive(m, c, Zombie);
      Inherited(m, m', n, p, c);
      assert Outlives(m, m', n, p, 1);
    } else if Waiting(m', 1) {
      StillNone(m, n, e, 1, 0);
    }
  }

  lemma Inherited(m: Machine, m': Machine, n: nat, p: nat, c: nat)
    requires Fits(m', n) && Tree(m.sys.procs) && Tree(m'.sys.procs) && p in m.sys.procs && p != 1
    requires c in m.sys.procs[p].children && Alive(m, c, Zombie) && Alive(m', p, Zombie)
    requires m'.sys.procs.Keys == m.sys.procs.Keys
    requires !Alive(m, p, Zombie) && forall x :: x in m.sys.procs && x != p ==> Outlives(m, m', n, p, x)
    ensures ZombieChild(m'.sys.procs, 1, 0, c)
  {
    assert Listed(m.sys.procs, p, c);
    TimesIn(m.sys.procs[p].children, c);
    assert Outlives(m, m', n, p, c);
    assert Listed(m'.sys.procs, 1, c);
    TimesIn(m'.sys.procs[1].children, c);
  }

  // ---- exit codes ----

  /** Step `i` is the exit of `c`. */
  predicate Exits(ms: seq<Machine>, es: seq<Event>, i: nat, c: nat)
    requires i < |es| && i < |ms|
  {
    es[i].Exit? && es[i].h < |ms[i].sys.current| && ms[i].sys.current[es[i].h] == c
  }

  lemma CodeStep(n: nat, ms: seq<Machine>, es: seq<Event>, i: nat, c: nat)
    requires IsRun(n, ms, es) && i < |es| && Alive(ms[i + 1], c, Zombie)
    ensures if Exits(ms, es, i, c) then ms[i + 1].sys.procs[c].exitCode == es[i].code
            else Alive(ms[i], c, Zombie) && ms[i].sys.procs[c].exitCode == ms[i + 1].sys.procs[c].exitCode
  {
    if es[i].Exit? {
      ExitDoes(n, ms, es, i);
      if ms[i].sys.current[es[i].h] != c {
        assert Outlives(ms[i], ms[i + 1], n, ms[i].sys.current[es[i].h], c);
      }
    } else {
      StepNoneDied(n, ms, es, i);
      assert WasDead(ms[i].sys.procs, ms[i + 1].sys.procs, c);
    }
  }

  /** A zombie's code is the one it gave to `exit`. */
  lemma {:induction false} CodeOfZombie(n: nat, ms: seq<Machine>, es: seq<Event>, j: nat, c: nat) returns (i: nat)
    requires IsRun(n, ms, es) && j <= |es| && Alive(ms[j], c, Zombie)
    ensures i < j && Exits(ms, es, i, c) && ms[j].sys.procs[c].exitCode == es[i].code
  {
    if j == 0 {
      assert false;
    } else {
      CodeStep(n, ms, es, j - 1, c);
      if Exits(ms, es, j - 1, c) {
        i := j - 1;
      } else {
        i := CodeOfZombie(n, ms, es, j - 1, c);
      }
    }
  }

  /** What `waitpid` reports of the child it reaps is what that child gave to `exit`. */
  lemma ReapedCode(n: nat, ms: seq<Machine>, es: seq<Event>, j: nat) returns (i: nat)
    requires IsRun(n, ms, es) && j < |es| && es[j].Reap?
    ensures i < j && Exits(ms, es, i, es[j].child)
    ensures es[j].child in ms[j].sys.procs && ms[j].sys.procs[es[j].child].exitCode == es[i].code
  {
    RunStep(n, ms, es, j);
    i := CodeOfZombie(n, ms, es, j, es[j].child);
  }
}
