/** Whole runs: any interleaving of critical sections, any number of harts. */
module SchedRuns {
  import opened Wrappers
  import opened SchedState
  import opened SchedMachine
  import opened SchedKeeps
  import opened SchedTree

  /** `ms[i]` is the machine after the first `i` steps. */
  ghost predicate IsRun(n: nat, ms: seq<Machine>, es: seq<Event>) {
    && |ms| == |es| + 1 && Boots(ms[0], n)
    && forall i {:trigger es[i]} :: 0 <= i < |es| ==> StepOf(n, ms[i], es[i], ms[i + 1])
  }

  ghost predicate StepOf(n: nat, m: Machine, e: Event, m': Machine) {
    Fits(m, n) && Enabled(m, n, e) && m' == Next(m, n, e)
  }

  lemma {:induction false} EmptyQueued(qs: seq<seq<nat>>, p: nat)
    requires forall v :: 0 <= v < |qs| ==> qs[v] == []
    ensures Queued(qs, p) == 0
  {
    if qs != [] {
      EmptyQueued(qs[..|qs| - 1], p);
    }
  }

  lemma BootInv(m: Machine, n: nat)
    requires Boots(m, n)
    ensures Inv(m, n) && Tree(m.sys.procs)
  {
    var qs := m.sys.queues;
    forall p: nat | p != 0 ensures PidOk(m, p) {
      QueuedUpdate(qs, 0, [], p);
      EmptyQueued(qs[0 := []], p);
      TimesIn(m.sys.current, p);
      TimesIn(m.hand, p);
      TimesIn(m.born, p);
    }
    forall h | 0 <= h < n ensures HartOk(m, n, h) {
    }
  }

  lemma {:induction false} RunKeeps(n: nat, ms: seq<Machine>, es: seq<Event>, i: nat)
    requires IsRun(n, ms, es) && i <= |es|
    ensures Inv(ms[i], n) && Tree(ms[i].sys.procs)
  {
    if i == 0 {
      BootInv(ms[0], n);
    } else {
      RunKeeps(n, ms, es, i - 1);
      assert StepOf(n, ms[i - 1], es[i - 1], ms[i]);
      StepKeeps(ms[i - 1], n, es[i - 1]);
      StepTree(ms[i - 1], n, es[i - 1]);
    }
  }

  // ---- tasks ----

  /** The places a task can be in: queued, current on a hart, or in the hand of an exiting hart. */
  function Places(m: Machine, p: nat): nat {
    Queue(m, p) + Times(m.sys.current, p) + Times(m.hand, p)
  }

  predicate OnHart(m: Machine, n: nat, p: nat, h: nat)
    requires Fits(m, n)
  {
    h < n && m.sys.current[h] == p && !m.busy[h]
  }

  /** Exactly-once scheduling, over every interleaving: a pid is in at most one place; queued or in
      hand means runnable; running means current on exactly one hart that is not leaving; and no
      runnable task is lost. */
  lemma ExactlyOnce(n: nat, ms: seq<Machine>, es: seq<Event>, i: nat, p: nat)
    requires IsRun(n, ms, es) && i <= |es| && p != 0
    ensures var m := ms[i];
            && Fits(m, n) && Places(m, p) <= 1
            && ((exists v :: 0 <= v < n && p in m.sys.queues[v]) ==>
                  p in m.sys.procs && m.sys.procs[p].state == Runnable)
            && (p in m.hand ==> p in m.sys.procs && m.sys.procs[p].state == Runnable)
            && (p in m.sys.procs && m.sys.procs[p].state == Running ==>
                  Queue(m, p) == 0 && exists h: nat :: OnHart(m, n, p, h))
            && (p in m.sys.procs && m.sys.procs[p].state == Runnable ==>
                  (exists v :: 0 <= v < n && p in m.sys.queues[v]) || p in m.hand
                    || exists h: nat :: OnHart(m, n, p, h))
  {
    RunKeeps(n, ms, es, i);
    var m := ms[i];
    assert PidOk(m, p);
    QueuedIn(m.sys.queues, p);
    TimesIn(m.hand, p);
    if p in m.sys.procs && m.sys.procs[p].state != Zombie && Times(m.sys.current, p) == 1 {
      var h := CurrentOn(m, n, p);
    }
  }

  lemma CurrentOn(m: Machine, n: nat, p: nat) returns (h: nat)
    requires Inv(m, n) && p != 0 && p in m.sys.procs && m.sys.procs[p].state != Zombie && Times(m.sys.current, p) == 1
    ensures OnHart(m, n, p, h)
  {
    TimesIn(m.sys.current, p);
    h :| h < n && m.sys.current[h] == p;
    assert HartOk(m, n, h);
  }

  /** Two harts never run one task. */
  lemma OneHart(n: nat, ms: seq<Machine>, es: seq<Event>, i: nat, h: nat, k: nat)
    requires IsRun(n, ms, es) && i <= |es| && h < n && k < n && h != k
    ensures Fits(ms[i], n)
    ensures ms[i].sys.current[h] != 0 ==> ms[i].sys.current[h] != ms[i].sys.current[k]
  {
    RunKeeps(n, ms, es, i);
    OthersKeep(ms[i], n, h, k);
  }

  /** The checks that guard against double runs never fire: `switch_to` finds its task runnable and
      unclaimed, a picked task is claimed by no other hart, and the task that calls `exit` is not
      already dead. */
  lemma GuardsNeverFire(n: nat, ms: seq<Machine>, es: seq<Event>, i: nat)
    requires IsRun(n, ms, es) && i < |es|
    ensures var m := ms[i];
            && Fits(m, n)
            && (es[i].SwitchTo? && m.hand[es[i].h] != 0 ==> MayEnter(m.sys, es[i].h, m.hand[es[i].h]))
            && (es[i].SchedulePoint? && es[i].r.Some? ==>
                  forall hh :: 0 <= hh < n && hh != es[i].h ==> m.sys.current[hh] != es[i].r.value)
            && (forall h :: 0 <= h < n && !m.busy[h] && m.sys.current[h] != 0 ==>
                  m.sys.current[h] in m.sys.procs && m.sys.procs[m.sys.current[h]].state != Zombie)
  {
    RunKeeps(n, ms, es, i);
    var m := ms[i];
    assert StepOf(n, m, es[i], ms[i + 1]);
    if es[i].SwitchTo? && m.hand[es[i].h] != 0 {
      HandMayBeEntered(m, n, es[i].h);
    }
    if es[i].SchedulePoint? && es[i].r.Some? {
      UnclaimedElsewhere(m, n, es[i].h, es[i].qs, es[i].r.value);
    }
    forall h | 0 <= h < n && !m.busy[h] && m.sys.current[h] != 0
      ensures m.sys.current[h] in m.sys.procs && m.sys.procs[m.sys.current[h]].state != Zombie
    {
      assert HartOk(m, n, h);
    }
  }

  lemma UnclaimedElsewhere(m: Machine, n: nat, h: nat, qs: seq<seq<nat>>, r: nat)
    requires Fits(m, n) && Enabled(m, n, SchedulePoint(h, qs, Some(r)))
    ensures forall hh :: 0 <= hh < n && hh != h ==> m.sys.current[hh] != r
  {
    forall hh | 0 <= hh < n && hh != h ensures m.sys.current[hh] != r {
      assert Seen(Requeue(m.sys, h)).current[hh] != r;
    }
  }

  /** A hart idles only when no task is queued anywhere. */
  lemma IdleMeansEmpty(n: nat, ms: seq<Machine>, es: seq<Event>, i: nat, p: nat)
    requires IsRun(n, ms, es) && i < |es| && es[i].SchedulePoint? && es[i].r.None? && p != 0
    ensures Queue(ms[i], p) == 0
    ensures Fits(ms[i], n)
    ensures ms[i].sys.current[es[i].h] == p && p in ms[i].sys.procs ==>
              ms[i].sys.procs[p].state == Blocked || ms[i].sys.procs[p].state == Zombie
  {
    RunKeeps(n, ms, es, i);
    var m, h := ms[i], es[i].h;
    assert StepOf(n, m, es[i], ms[i + 1]);
    RequeueBetween(m, n, h, p);
    PickCount(Requeue(m.sys, h), m, n, h, es[i].qs, None, p);
    PushCount(m.sys.queues, h, m.sys.current[h], p);
  }

  // ---- pids ----

  /** A pid that has been given out and whose task is gone. */
  predicate Spent(m: Machine, p: nat) {
    p != 0 && p < m.sys.nextPid && p !in m.sys.procs && p !in m.born
  }

  lemma ExitAddsNone(m: Machine, n: nat, e: Event)
    requires Inv(m, n) && Enabled(m, n, e) && e.Exit?
    ensures Next(m, n, e).sys.procs.Keys <= m.sys.procs.Keys
  {
    BuriedStates(m.sys, m.sys.current[e.h], e.code);
    BuryIsWake(m.sys, m.sys.current[e.h], e.code, e.h);
  }

  lemma SwitchAddsNone(m: Machine, n: nat, h: nat)
    requires Inv(m, n) && Enabled(m, n, SwitchTo(h))
    ensures Next(m, n, SwitchTo(h)).sys.procs.Keys <= m.sys.procs.Keys
  {
    if m.hand[h] != 0 {
      HandMayBeEntered(m, n, h);
    }
  }

  lemma QuietAddsNone(m: Machine, n: nat, e: Event)
    requires Fits(m, n) && Enabled(m, n, e) && !e.Fork? && !e.Exit? && !e.SwitchTo?
    ensures Next(m, n, e).sys.procs.Keys <= m.sys.procs.Keys
  {
  }

  /** No step but a fork adds a task. */
  lemma NoNewTask(m: Machine, n: nat, e: Event)
    requires Inv(m, n) && Enabled(m, n, e) && !e.Fork?
    ensures Next(m, n, e).sys.procs.Keys <= m.sys.procs.Keys
  {
    if e.Exit? {
      ExitAddsNone(m, n, e);
    } else if e.SwitchTo? {
      SwitchAddsNone(m, n, e.h);
    } else {
      QuietAddsNone(m, n, e);
    }
  }

  lemma PidsGrow(m: Machine, n: nat, e: Event, p: nat)
    requires Fits(m, n) && Enabled(m, n, e) && p in Next(m, n, e).born && p != 0
    ensures p in m.born || p == m.sys.nextPid
  {
  }

  lemma NextPidGrows(m: Machine, n: nat, e: Event)
    requires Fits(m, n) && Enabled(m, n, e)
    ensures Next(m, n, e).sys.nextPid >= m.sys.nextPid
  {
  }

  lemma SpentStays(m: Machine, n: nat, e: Event, p: nat)
    requires Inv(m, n) && Enabled(m, n, e) && Spent(m, p)
    ensures Spent(Next(m, n, e), p)
  {
    if p in Next(m, n, e).born {
      PidsGrow(m, n, e, p);
    }
    NextPidGrows(m, n, e);
    if e.Fork? {
      assert m.born[e.h] in m.born;
    } else {
      NoNewTask(m, n, e);
    }
  }

  lemma SpentNext(n: nat, ms: seq<Machine>, es: seq<Event>, j: nat, p: nat)
    requires IsRun(n, ms, es) && j < |es| && Spent(ms[j], p)
    ensures Spent(ms[j + 1], p)
  {
    RunKeeps(n, ms, es, j);
    assert StepOf(n, ms[j], es[j], ms[j + 1]);
    SpentStays(ms[j], n, es[j], p);
  }

  lemma SpentLater(n: nat, ms: seq<Machine>, es: seq<Event>, i: nat, j: nat, p: nat)
    requires IsRun(n, ms, es) && i <= j <= |es| && Spent(ms[i], p)
    ensures Spent(ms[j], p)
  {
    var k := i;
    while k < j
      invariant i <= k <= j && Spent(ms[k], p)
    {
      SpentNext(n, ms, es, k, p);
      k := k + 1;
    }
  }

  /** Pids are never reused: once a task has been reaped, its pid names nothing for the rest of the
      run, and is queued, current-and-live or in hand nowhere. */
  lemma PidsNeverReused(n: nat, ms: seq<Machine>, es: seq<Event>, i: nat, j: nat, p: nat)
    requires IsRun(n, ms, es) && i <= j <= |es| && Spent(ms[i], p)
    ensures Spent(ms[j], p) && Queue(ms[j], p) == 0 && p !in ms[j].hand
  {
    SpentLater(n, ms, es, i, j, p);
    RunKeeps(n, ms, es, j);
    assert PidOk(ms[j], p);
    TimesIn(ms[j].hand, p);
  }

  lemma ListsNobody(procs: map<nat, Proc>, c: nat, x: nat)
    requires Tree(procs) && c in procs && procs[c].state == Zombie && c != 1
    ensures Times(procs[c].children, x) == 0
  {
    assert Listed(procs, c, x);
    if x in procs {
      assert HasParent(procs, x);
    }
  }

  lemma ChildlessZombie(procs: map<nat, Proc>, c: nat)
    requires Tree(procs) && c in procs && procs[c].state == Zombie && c != 1
    ensures procs[c].children == []
  {
    if procs[c].children != [] {
      var x := procs[c].children[0];
      assert x in procs[c].children;
      ListsNobody(procs, c, x);
    }
  }

  /** Listed by its parent, once, and by nobody else. */
  predicate ListedOnce(procs: map<nat, Proc>, c: nat)
    requires c in procs
  {
    && procs[c].parent in procs && Times(procs[procs[c].parent].children, c) == 1
    && (forall p :: p in procs && p != procs[c].parent ==> c !in procs[p].children)
  }

  lemma TreeListsOnce(procs: map<nat, Proc>, c: nat)
    requires Tree(procs) && c in procs && c != 1
    ensures ListedOnce(procs, c)
  {
    assert HasParent(procs, c);
    assert Listed(procs, procs[c].parent, c);
    forall p | p in procs && p != procs[c].parent ensures c !in procs[p].children {
      assert Listed(procs, p, c);
    }
  }

  /** A zombie is never queued or in hand, keeps no children, and its parent is still there to reap
      it and lists it once. */
  lemma ZombiesAreReapable(n: nat, ms: seq<Machine>, es: seq<Event>, i: nat, c: nat)
    requires IsRun(n, ms, es) && i <= |es| && c in ms[i].sys.procs && ms[i].sys.procs[c].state == Zombie && c != 1
    ensures ListedOnce(ms[i].sys.procs, c) && ms[i].sys.procs[c].children == []
    ensures Queue(ms[i], c) == 0 && c !in ms[i].hand
  {
    RunKeeps(n, ms, es, i);
    assert PidOk(ms[i], c);
    TimesIn(ms[i].hand, c);
    TreeListsOnce(ms[i].sys.procs, c);
    ChildlessZombie(ms[i].sys.procs, c);
  }
}
