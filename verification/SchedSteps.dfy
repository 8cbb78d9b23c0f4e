/** What each kind of step does, in every run: to the task it is about and to all others. */
module SchedSteps {
  import opened Wrappers
  import opened SchedState
  import opened SchedMachine
  import opened SchedKeeps
  import opened SchedTree
  import opened SchedRuns

  /** Where the runnable tasks are: queued, in the hand of an exiting hart, or on a hart that will queue it
      in its own trap epilogue. */
  ghost predicate Ready(m: Machine, n: nat, p: nat)
    requires Fits(m, n)
  {
    || (exists v :: 0 <= v < n && p in m.sys.queues[v])
    || p in m.hand
    || exists h: nat :: OnHart(m, n, p, h)
  }

  predicate Alive(m: Machine, p: nat, st: ProcState) {
    p in m.sys.procs && m.sys.procs[p].state == st
  }

  /** No task but those of `but` is changed, made or forgotten. */
  predicate OthersSame(m: Machine, m': Machine, but: set<nat>) {
    && m'.sys.procs.Keys + but == m.sys.procs.Keys + but
    && forall p :: p in m.sys.procs && p !in but ==> m'.sys.procs[p] == m.sys.procs[p]
  }

  /** Nothing but the tasks and the queues is changed. */
  predicate HartsSame(m: Machine, m': Machine) {
    m' == m.(sys := m.sys.(procs := m'.sys.procs, queues := m'.sys.queues))
  }

  lemma RunStep(n: nat, ms: seq<Machine>, es: seq<Event>, i: nat)
    requires IsRun(n, ms, es) && i < |es|
    ensures Inv(ms[i], n) && Tree(ms[i].sys.procs) && Fits(ms[i], n) && Enabled(ms[i], n, es[i])
    ensures ms[i + 1] == Next(ms[i], n, es[i]) && Inv(ms[i + 1], n) && Tree(ms[i + 1].sys.procs)
  {
    RunKeeps(n, ms, es, i);
    RunKeeps(n, ms, es, i + 1);
    assert StepOf(n, ms[i], es[i], ms[i + 1]);
  }

  lemma RunnableReady(m: Machine, n: nat, p: nat)
    requires Inv(m, n) && p != 0 && Alive(m, p, Runnable)
    ensures Ready(m, n, p)
  {
    assert PidOk(m, p);
    QueuedIn(m.sys.queues, p);
    TimesIn(m.hand, p);
    if Times(m.sys.current, p) == 1 {
      var h := CurrentOn(m, n, p);
    }
  }

  // ---- waking, killing, sleeping ----

  /** A wake makes a blocked task runnable where a hart will find it, and leaves any other as it is. */
  lemma WakeDoes(n: nat, ms: seq<Machine>, es: seq<Event>, i: nat)
    requires IsRun(n, ms, es) && i < |es| && es[i].Wake?
    ensures var m, m', p := ms[i], ms[i + 1], es[i].pid;
            && Fits(m', n) && HartsSame(m, m') && OthersSame(m, m', {p})
            && if Alive(m, p, Blocked)
               then m'.sys.procs[p] == m.sys.procs[p].(state := Runnable, blockedOn := 0) && Ready(m', n, p)
               else m' == m
  {
    RunStep(n, ms, es, i);
    var m, m', p := ms[i], ms[i + 1], es[i].pid;
    if Alive(m, p, Blocked) {
      RunnableReady(m', n, p);
    } else {
      assert m.(sys := m.sys) == m;
    }
  }

  /** A kill marks any task that is not dead and makes it runnable if it was blocked. */
  lemma KillDoes(n: nat, ms: seq<Machine>, es: seq<Event>, i: nat)
    requires IsRun(n, ms, es) && i < |es| && es[i].Kill?
    ensures var m, m', p := ms[i], ms[i + 1], es[i].pid;
            && Fits(m', n) && HartsSame(m, m') && OthersSame(m, m', {p})
            && if p !in m.sys.procs || Alive(m, p, Zombie) then m' == m
               else
                 var marked := m.sys.procs[p].(killed := true, killCode := es[i].code);
                 if Alive(m, p, Blocked)
                 then m'.sys.procs[p] == marked.(state := Runnable, blockedOn := 0) && Ready(m', n, p)
                 else m'.sys.procs[p] == marked
  {
    RunStep(n, ms, es, i);
    var m, m', p := ms[i], ms[i + 1], es[i].pid;
    if p !in m.sys.procs || Alive(m, p, Zombie) {
      assert m.(sys := m.sys) == m;
    } else if Alive(m, p, Blocked) {
      RunnableReady(m', n, p);
    }
  }

  /** A call that blocks puts the running task to sleep for its reason, and it stays current until the trap
      epilogue. */
  lemma BlockDoes(n: nat, ms: seq<Machine>, es: seq<Event>, i: nat)
    requires IsRun(n, ms, es) && i < |es| && es[i].Block?
    ensures var m, m' := ms[i], ms[i + 1];
            && Fits(m, n) && es[i].h < n
            && var p := m.sys.current[es[i].h];
               HartsSame(m, m') && m'.sys.queues == m.sys.queues && OthersSame(m, m', {p})
               && if Alive(m, p, Running)
                  then m'.sys.procs[p] == m.sys.procs[p].(state := Blocked, blockedOn := es[i].reason)
                  else m' == m
  {
    RunStep(n, ms, es, i);
    if !Alive(ms[i], ms[i].sys.current[es[i].h], Running) {
      assert ms[i].(sys := ms[i].sys) == ms[i];
    }
  }

  // ---- the trap epilogue ----

  /** The task of a hart before its trap epilogue, when that has picked something else: back among the
      runnable ones if it could go on, and asleep or dead as before if not. */
  ghost predicate PutBack(m: Machine, m': Machine, n: nat, cur: nat)
    requires Fits(m', n) && cur in m.sys.procs
  {
    if m.sys.procs[cur].state == Running || m.sys.procs[cur].state == Runnable
    then cur in m'.sys.procs && m'.sys.procs[cur] == m.sys.procs[cur].(state := Runnable) && Ready(m', n, cur)
    else cur in m'.sys.procs && m'.sys.procs[cur] == m.sys.procs[cur]
  }

  /** The picked task was queued, or it is the current one again. */
  predicate WasReady(m: Machine, cur: nat, r: nat) {
    r in m.sys.procs
    && if r == cur then m.sys.procs[r].state == Running || m.sys.procs[r].state == Runnable
       else Queue(m, r) > 0 && m.sys.procs[r].state == Runnable
  }

  /** The picked task runs, on this hart alone. */
  predicate NowRuns(m: Machine, m': Machine, n: nat, h: nat, r: nat)
    requires Fits(m', n) && h < n
  {
    && OnHart(m', n, r, h) && !m'.sys.idle[h] && r in m.sys.procs && r in m'.sys.procs
    && m'.sys.procs[r] == m.sys.procs[r].(state := Running)
  }

  lemma PickedWasReady(m: Machine, n: nat, h: nat, qs: seq<seq<nat>>, r: nat)
    requires Inv(m, n) && Enabled(m, n, SchedulePoint(h, qs, Some(r)))
    ensures WasReady(m, m.sys.current[h], r)
  {
    assert HartOk(m, n, h) && PidOk(m, r);
    RequeueBetween(m, n, h, r);
    PickCount(Requeue(m.sys, h), m, n, h, qs, Some(r), r);
    PushCount(m.sys.queues, h, m.sys.current[h], r);
  }

  lemma PickedRuns(m: Machine, n: nat, h: nat, qs: seq<seq<nat>>, r: nat)
    requires Inv(m, n) && Enabled(m, n, SchedulePoint(h, qs, Some(r)))
    ensures var m' := Next(m, n, SchedulePoint(h, qs, Some(r)));
            Fits(m', n) && NowRuns(m, m', n, h, r) && OthersSame(m, m', {r, m.sys.current[h]})
  {
    PickedWasReady(m, n, h, qs, r);
  }

  lemma CurrentPutBack(m: Machine, n: nat, h: nat, qs: seq<seq<nat>>, r: nat)
    requires Inv(m, n) && Enabled(m, n, SchedulePoint(h, qs, Some(r)))
    requires m.sys.current[h] != r && m.sys.current[h] in m.sys.procs
    requires Inv(Next(m, n, SchedulePoint(h, qs, Some(r))), n)
    ensures PutBack(m, Next(m, n, SchedulePoint(h, qs, Some(r))), n, m.sys.current[h])
  {
    var m', cur := Next(m, n, SchedulePoint(h, qs, Some(r))), m.sys.current[h];
    if m'.sys.procs[cur].state == Runnable {
      RunnableReady(m', n, cur);
    }
  }

  /** A trap epilogue that picks a task runs it: one that was queued, or the current one again. */
  lemma PickDoes(n: nat, ms: seq<Machine>, es: seq<Event>, i: nat, r: nat)
    requires IsRun(n, ms, es) && i < |es| && es[i].SchedulePoint? && es[i].r == Some(r)
    ensures var m, m', h := ms[i], ms[i + 1], es[i].h;
            && Fits(m, n) && Fits(m', n) && h < n
            && var cur := m.sys.current[h];
               && WasReady(m, cur, r) && NowRuns(m, m', n, h, r) && OthersSame(m, m', {r, cur})
               && (cur != r && cur in m.sys.procs ==> PutBack(m, m', n, cur))
  {
    RunStep(n, ms, es, i);
    var m, h, qs := ms[i], es[i].h, es[i].qs;
    PickedWasReady(m, n, h, qs, r);
    PickedRuns(m, n, h, qs, r);
    if m.sys.current[h] != r && m.sys.current[h] in m.sys.procs {
      CurrentPutBack(m, n, h, qs, r);
    }
  }

  /** A trap epilogue that picks nothing idles the hart. */
  lemma IdleDoes(n: nat, ms: seq<Machine>, es: seq<Event>, i: nat)
    requires IsRun(n, ms, es) && i < |es| && es[i].SchedulePoint? && es[i].r.None?
    ensures var m, m', h := ms[i], ms[i + 1], es[i].h;
            && Fits(m, n) && Fits(m', n) && h < n
            && m'.sys.procs == m.sys.procs && m'.sys.current == m.sys.current[h := 0] && m'.sys.idle[h]
            && forall p: nat :: p != 0 ==> Queue(m', p) == 0
  {
    RunStep(n, ms, es, i);
    var m, m', h := ms[i], ms[i + 1], es[i].h;
    if m.sys.current[h] != 0 {
      IdleMeansEmpty(n, ms, es, i, m.sys.current[h]);
    }
    assert HartOk(m, n, h);
    forall p: nat | p != 0 ensures Queue(m', p) == 0 {
      IdleMeansEmpty(n, ms, es, i, p);
      RequeueBetween(m, n, h, p);
      PickCount(Requeue(m.sys, h), m, n, h, es[i].qs, None, p);
    }
  }

  /** An exiting hart enters what it picked, or idles when it picked nothing. */
  lemma SwitchDoes(n: nat, ms: seq<Machine>, es: seq<Event>, i: nat)
    requires IsRun(n, ms, es) && i < |es| && es[i].SwitchTo?
    ensures var m, m', h := ms[i], ms[i + 1], es[i].h;
            && Fits(m, n) && Fits(m', n) && h < n
            && var r := m.hand[h];
               OthersSame(m, m', {r}) && m'.sys.current == m.sys.current[h := r] && m'.sys.idle[h] == (r == 0)
               && !m'.busy[h] && m'.hand[h] == 0 && m'.sys.queues == m.sys.queues
               && (r != 0 ==> r in m.sys.procs && m'.sys.procs[r] == m.sys.procs[r].(state := Running))
  {
    RunStep(n, ms, es, i);
    if ms[i].hand[es[i].h] != 0 {
      HandMayBeEntered(ms[i], n, es[i].h);
    }
  }

  // ---- birth and death ----

  /** A fork adds one task: runnable, ready to be picked, unmarked, and listed by its parent alone. */
  lemma ForkDoes(n: nat, ms: seq<Machine>, es: seq<Event>, i: nat)
    requires IsRun(n, ms, es) && i < |es| && es[i].Fork?
    ensures var m, m' := ms[i], ms[i + 1];
            && Fits(m, n) && Fits(m', n) && es[i].h < n
            && var c, p := m.born[es[i].h], m.sys.current[es[i].h];
               && c !in m.sys.procs && p in m.sys.procs && OthersSame(m, m', {c, p})
               && Alive(m', c, Runnable) && Ready(m', n, c)
               && m'.sys.procs[c].parent == p && m'.sys.procs[c].children == [] && !m'.sys.procs[c].killed
               && m'.sys.procs[p] == m.sys.procs[p].(children := m.sys.procs[p].children + [c])
  {
    RunStep(n, ms, es, i);
    var m, m' := ms[i], ms[i + 1];
    var c := m.born[es[i].h];
    assert PidOk(m, c);
    TimesIn(m.born, c);
    RunnableReady(m', n, c);
  }

  /** Of the queues and of the list of `p` just `c` is gone. */
  predicate Struck(m: Machine, m': Machine, p: nat, c: nat, x: nat)
    requires p in m.sys.procs && p in m'.sys.procs
  {
    if x == c then Times(m'.sys.procs[p].children, x) == 0 && Queue(m', x) == 0
    else Times(m'.sys.procs[p].children, x) == Times(m.sys.procs[p].children, x) && Queue(m', x) == Queue(m, x)
  }

  lemma ReapStrikes(m: Machine, n: nat, h: nat, c: nat, x: nat)
    requires Inv(m, n) && Enabled(m, n, Reap(h, c))
    ensures var m', p := Next(m, n, Reap(h, c)), m.sys.current[h];
            p in m'.sys.procs && p != c && Struck(m, m', p, c, x)
  {
    assert HartOk(m, n, h);
    PurgeCount(m.sys.queues, c, x);
    WithoutCount(m.sys.procs[m.sys.current[h]].children, c, x);
  }

  /** A reaped child is gone, from the tables, from every queue and from its parent's list, and nothing else
      is. */
  lemma ReapDoes(n: nat, ms: seq<Machine>, es: seq<Event>, i: nat)
    requires IsRun(n, ms, es) && i < |es| && es[i].Reap?
    ensures var m, m', c := ms[i], ms[i + 1], es[i].child;
            && Fits(m, n) && es[i].h < n
            && var p := m.sys.current[es[i].h];
               && c !in m'.sys.procs && p in m.sys.procs && p in m'.sys.procs && OthersSame(m, m', {c, p})
               && m'.sys.procs[p] == m.sys.procs[p].(children := m'.sys.procs[p].children)
               && forall x: nat :: Struck(m, m', p, c, x)
  {
    RunStep(n, ms, es, i);
    var m, m', c, h := ms[i], ms[i + 1], es[i].child, es[i].h;
    ReapStrikes(m, n, h, c, c);
    forall x: nat ensures Struck(m, m', m.sys.current[h], c, x) {
      ReapStrikes(m, n, h, c, x);
    }
  }
}
