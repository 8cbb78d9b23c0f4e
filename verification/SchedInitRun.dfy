/** A run in which init sleeps in `waitpid` beside a zombie child: the child of a task that exits is
    handed to it without a wake. */
module SchedInitRun {
  import opened Wrappers
  import opened SchedState
  import opened SchedMachine
  import opened SchedKeeps
  import opened SchedRuns
  import opened SchedSteps
  import opened SchedWaits

  /** Some other reason to sleep. */
  const ELSE: nat := 2

  function Task(st: ProcState, parent: nat, children: seq<nat>, on: nat, code: int): Proc {
    Proc(st, parent, children, on, false, -9, code, 0)
  }

  /** A machine of one hart between steps. */
  function At(procs: map<nat, Proc>, q: seq<nat>, cur: nat, idle: bool, next: nat, born: nat): (m: Machine)
    ensures Fits(m, 1)
  {
    Machine(Sched(procs, [q], [cur], [idle], next), [false], [0], [born])
  }

  lemma PickOnly(w: View, skip: set<nat>, p: nat)
    requires Takeable(w, 0, skip, p)
    ensures Picks(w, 0, skip, [[p]], [[]], Some(p))
  {
    LiveOne(w, 0, skip, p);
    var full: seq<seq<nat>>, none: seq<seq<nat>> := [[p]], [[]];
    assert full[..0] == [] && none[..0] == [];
    assert LiveBelow(w, 0, skip, [[p]]) == multiset{p};
  }

  lemma PickNothing(w: View, skip: set<nat>)
    ensures Picks(w, 0, skip, [[]], [[]], None)
  {
    var none: seq<seq<nat>> := [[]];
    assert none[..0] == [];
  }

  lemma Extend(ms: seq<Machine>, es: seq<Event>, e: Event, m: Machine)
    requires IsRun(1, ms, es) && StepOf(1, ms[|es|], e, m)
    ensures IsRun(1, ms + [m], es + [e])
  {
    var ms', es' := ms + [m], es + [e];
    forall i {:trigger es'[i]} | 0 <= i < |es'| ensures StepOf(1, ms'[i], es'[i], ms'[i + 1]) {
      if i < |es| {
        assert StepOf(1, ms[i], es[i], ms[i + 1]);
      }
    }
  }

  lemma NothingRequeued(procs: map<nat, Proc>, cur: nat, idle: bool, next: nat, p: nat)
    requires cur !in procs || procs[cur].state == Blocked || procs[cur].state == Zombie
    ensures Requeue(At(procs, [p], cur, idle, next, 0).sys, 0) == Sched(procs, [[p]], [0], [idle], next)
  {
    assert [cur][0 := 0] == [0];
  }

  lemma PickTaken(procs: map<nat, Proc>, idle: bool, next: nat, p: nat)
    requires p in procs
    ensures TakeOrIdle(Sched(procs, [[]], [0], [idle], next), 0, Some(p))
            == Sched(procs[p := procs[p].(state := Running)], [[]], [p], [false], next)
  {
    assert [0][0 := p] == [p] && [idle][0 := false] == [false];
  }

  /** The one queued task is picked when the current one cannot go on. */
  lemma PickStep(procs: map<nat, Proc>, cur: nat, idle: bool, next: nat, p: nat, procs': map<nat, Proc>)
    requires p in procs && procs[p].state == Runnable && procs' == procs[p := procs[p].(state := Running)]
    requires cur !in procs || procs[cur].state == Blocked || procs[cur].state == Zombie
    ensures StepOf(1, At(procs, [p], cur, idle, next, 0), SchedulePoint(0, [[]], Some(p)),
                   At(procs', [], p, false, next, 0))
  {
    NothingRequeued(procs, cur, idle, next, p);
    PickTaken(procs, idle, next, p);
    PickOnly(View(procs, [0]), {}, p);
  }

  lemma ThenPick(ms: seq<Machine>, es: seq<Event>, procs: map<nat, Proc>, cur: nat, idle: bool, next: nat, p: nat,
                 procs': map<nat, Proc>)
    returns (ms': seq<Machine>, es': seq<Event>)
    requires IsRun(1, ms, es) && ms[|es|] == At(procs, [p], cur, idle, next, 0)
    requires p in procs && procs[p].state == Runnable && procs' == procs[p := procs[p].(state := Running)]
    requires cur !in procs || procs[cur].state == Blocked || procs[cur].state == Zombie
    ensures IsRun(1, ms', es') && es' == es + [SchedulePoint(0, [[]], Some(p))]
    ensures ms' == ms + [At(procs', [], p, false, next, 0)]
  {
    PickStep(procs, cur, idle, next, p, procs');
    ms', es' := Then(ms, es, SchedulePoint(0, [[]], Some(p)), At(procs', [], p, false, next, 0));
  }

  lemma ThenFork(ms: seq<Machine>, es: seq<Event>, procs: map<nat, Proc>, cur: nat, next: nat, procs': map<nat, Proc>)
    returns (ms': seq<Machine>, es': seq<Event>)
    requires IsRun(1, ms, es) && ms[|es|] == At(procs, [], cur, false, next, 0)
    requires cur in procs && procs[cur].state == Running && next !in procs && next != 0 && cur != next
    requires procs[cur].children == []
    requires procs' == procs[next := Task(Runnable, cur, [], 0, 0)][cur := procs[cur].(children := [next])]
    ensures IsRun(1, ms', es') && es' == es + [NewPid(0), Fork(0, 0)]
    ensures ms' == ms + [At(procs, [], cur, false, next + 1, next), At(procs', [next], cur, false, next + 1, 0)]
  {
    Lone(next);
    BirthSteps(procs, cur, next, procs');
    var a, b := At(procs, [], cur, false, next + 1, next), At(procs', [next], cur, false, next + 1, 0);
    ms', es' := Then(ms, es, NewPid(0), a);
    ms', es' := Then(ms', es', Fork(0, 0), b);
    assert ms + [a] + [b] == ms + [a, b];
  }

  lemma ThenSleep(ms: seq<Machine>, es: seq<Event>, procs: map<nat, Proc>, q: seq<nat>, cur: nat, next: nat,
                  reason: nat, procs': map<nat, Proc>)
    returns (ms': seq<Machine>, es': seq<Event>)
    requires IsRun(1, ms, es) && ms[|es|] == At(procs, q, cur, false, next, 0)
    requires cur in procs && procs[cur].state == Running
    requires procs' == procs[cur := procs[cur].(state := Blocked, blockedOn := reason)]
    ensures IsRun(1, ms', es') && es' == es + [Block(0, reason)]
    ensures ms' == ms + [At(procs', q, cur, false, next, 0)]
  {
    SleepStep(procs, q, cur, next, reason, procs');
    ms', es' := Then(ms, es, Block(0, reason), At(procs', q, cur, false, next, 0));
  }

  /** `fork` from the pid to the installed child. */
  lemma BirthSteps(procs: map<nat, Proc>, cur: nat, next: nat, procs': map<nat, Proc>)
    requires cur in procs && procs[cur].state == Running && next !in procs && next != 0 && cur != next
    requires procs' == procs[next := Task(Runnable, cur, [], 0, 0)]
                            [cur := procs[cur].(children := procs[cur].children + [next])]
    ensures StepOf(1, At(procs, [], cur, false, next, 0), NewPid(0), At(procs, [], cur, false, next + 1, next))
    ensures StepOf(1, At(procs, [], cur, false, next + 1, next), Fork(0, 0),
                   At(procs', [next], cur, false, next + 1, 0))
  {
    var m := At(procs, [], cur, false, next + 1, next);
    assert next !in m.sys.current;
    var m' := Next(m, 1, Fork(0, 0));
    Lone(next);
    assert m'.sys.queues == [[next]] && m'.born == [0] && m'.sys.procs == procs';
  }

  lemma SleepStep(procs: map<nat, Proc>, q: seq<nat>, cur: nat, next: nat, reason: nat, procs': map<nat, Proc>)
    requires cur in procs && procs[cur].state == Running
    requires procs' == procs[cur := procs[cur].(state := Blocked, blockedOn := reason)]
    ensures StepOf(1, At(procs, q, cur, false, next, 0), Block(0, reason), At(procs', q, cur, false, next, 0))
  {
  }

  lemma Lone(x: nat)
    ensures var none: seq<nat> := []; none + [x] == [x]
  {
  }

  function P0(): map<nat, Proc> { map[1 := Task(Runnable, 0, [], 0, 0)] }
  function P1(): map<nat, Proc> { map[1 := Task(Running, 0, [], 0, 0)] }
  function P2(): map<nat, Proc> { map[1 := Task(Running, 0, [2], 0, 0), 2 := Task(Runnable, 1, [], 0, 0)] }
  function P3(): map<nat, Proc> { P2()[1 := Task(Blocked, 0, [2], BLOCK_WAIT, 0)] }
  function P4(): map<nat, Proc> { P3()[2 := Task(Running, 1, [], 0, 0)] }
  function P5(): map<nat, Proc> { P3()[2 := Task(Running, 1, [3], 0, 0)][3 := Task(Runnable, 2, [], 0, 0)] }
  function P6(): map<nat, Proc> { P5()[2 := Task(Blocked, 1, [3], ELSE, 0)] }
  function P7(): map<nat, Proc> { P6()[3 := Task(Running, 2, [], 0, 0)] }
  function P8(): map<nat, Proc> { P6()[3 := Task(Running, 2, [4], 0, 0)][4 := Task(Runnable, 3, [], 0, 0)] }
  function P9(): map<nat, Proc> { P8()[3 := Task(Blocked, 2, [4], ELSE, 0)] }
  function P10(): map<nat, Proc> { P9()[4 := Task(Running, 3, [], 0, 0)] }
  function P11(): map<nat, Proc> { P9()[4 := Task(Zombie, 3, [], 0, 7)] }
  function P12(): map<nat, Proc> { P11()[3 := Task(Runnable, 2, [4], 0, 0)] }
  function P13(): map<nat, Proc> { P11()[3 := Task(Running, 2, [4], 0, 0)] }
  function P14(): map<nat, Proc> {
    P13()[3 := Task(Zombie, 2, [], 0, 0)][4 := Task(Zombie, 1, [], 0, 7)][1 := Task(Blocked, 0, [2, 4], BLOCK_WAIT, 0)]
  }

  /** 4 exits while its parent sleeps for another reason; the hart idles, and a timer wakes the parent. */
  lemma ChildExits()
    ensures StepOf(1, At(P10(), [], 4, false, 5, 0), Exit(0, 7, [[]], None),
                   At(P11(), [], 4, false, 5, 0).(busy := [true]))
    ensures StepOf(1, At(P11(), [], 4, false, 5, 0).(busy := [true]), SwitchTo(0), At(P11(), [], 0, true, 5, 0))
    ensures StepOf(1, At(P11(), [], 0, true, 5, 0), Wake(0, 3), At(P12(), [3], 0, true, 5, 0))
  {
    var m := At(P10(), [], 4, false, 5, 0);
    var t := Bury(m.sys, 4, 7, 0);
    assert t.procs == P11();
    PickNothing(Seen(t), {4});
    var w := At(P11(), [], 0, true, 5, 0);
    Lone(3);
    assert 3 in w.sys.procs && w.sys.procs[3] == Task(Blocked, 2, [4], ELSE, 0) && 3 !in w.sys.current;
    var m' := Next(w, 1, Wake(0, 3));
    assert m'.sys.procs == P12();
    assert m'.sys.queues == [[3]];
  }

  /** 3 exits and leaves its zombie to init, which sleeps on. */
  lemma ParentExits()
    ensures StepOf(1, At(P13(), [], 3, false, 5, 0), Exit(0, 0, [[]], None),
                   At(P14(), [], 3, false, 5, 0).(busy := [true]))
  {
    var m := At(P13(), [], 3, false, 5, 0);
    var dead := P13()[3 := Task(Zombie, 2, [4], 0, 0)];
    assert [4][..0] == [] && AdoptAll(dead, []) == dead;
    assert dead[1] == Task(Blocked, 0, [2], BLOCK_WAIT, 0) && [2] + [4] == [2, 4];
    assert dead[4] == Task(Zombie, 3, [], 0, 7);
    assert Adopt(dead, 4) == dead[4 := Task(Zombie, 1, [], 0, 7)][1 := Task(Blocked, 0, [2, 4], BLOCK_WAIT, 0)];
    var t := Bury(m.sys, 3, 0, 0);
    assert t.procs == P14();
    PickNothing(Seen(t), {3});
  }

  lemma Then(ms: seq<Machine>, es: seq<Event>, e: Event, m: Machine) returns (ms': seq<Machine>, es': seq<Event>)
    requires IsRun(1, ms, es) && StepOf(1, ms[|es|], e, m)
    ensures IsRun(1, ms', es') && ms' == ms + [m] && es' == es + [e]
  {
    Extend(ms, es, e, m);
    ms', es' := ms + [m], es + [e];
  }

  /** Init forks 2 and goes to sleep. */
  lemma InitSleeps() returns (ms: seq<Machine>, es: seq<Event>)
    ensures IsRun(1, ms, es) && |es| == 4 && ms[4] == At(P3(), [2], 1, false, 3, 0)
    ensures ms[3] == At(P2(), [2], 1, false, 3, 0) && es[3] == Block(0, BLOCK_WAIT)
  {
    ms, es := [At(P0(), [1], 0, true, 2, 0)], [];
    ms, es := ThenPick(ms, es, P0(), 0, true, 2, 1, P1());
    assert P2() == P1()[2 := Task(Runnable, 1, [], 0, 0)][1 := Task(Running, 0, [2], 0, 0)];
    ms, es := ThenFork(ms, es, P1(), 1, 2, P2());
    ms, es := ThenSleep(ms, es, P2(), [2], 1, 3, BLOCK_WAIT, P3());
  }

  /** 2 forks 3 and goes to sleep for another reason. */
  lemma SecondSleeps() returns (ms: seq<Machine>, es: seq<Event>)
    ensures IsRun(1, ms, es) && |es| == 8 && ms[8] == At(P6(), [3], 2, false, 4, 0)
    ensures ms[3] == At(P2(), [2], 1, false, 3, 0) && es[3] == Block(0, BLOCK_WAIT)
    ensures forall k :: 4 <= k <= 8 ==> Waiting(ms[k], 1)
  {
    ms, es := InitSleeps();
    ms, es := ThenPick(ms, es, P3(), 1, false, 3, 2, P4());
    assert P5() == P4()[3 := Task(Runnable, 2, [], 0, 0)][2 := Task(Running, 1, [3], 0, 0)];
    ms, es := ThenFork(ms, es, P4(), 2, 3, P5());
    ms, es := ThenSleep(ms, es, P5(), [3], 2, 4, ELSE, P6());
  }

  /** So does 3, with 4 ... */
  lemma ThirdSleeps() returns (ms: seq<Machine>, es: seq<Event>)
    ensures IsRun(1, ms, es) && |es| == 13 && ms[13] == At(P10(), [], 4, false, 5, 0)
    ensures ms[3] == At(P2(), [2], 1, false, 3, 0) && es[3] == Block(0, BLOCK_WAIT)
    ensures forall k :: 4 <= k <= 13 ==> Waiting(ms[k], 1)
  {
    ms, es := SecondSleeps();
    ms, es := ThenPick(ms, es, P6(), 2, false, 4, 3, P7());
    assert P8() == P7()[4 := Task(Runnable, 3, [], 0, 0)][3 := Task(Running, 2, [4], 0, 0)];
    ms, es := ThenFork(ms, es, P7(), 3, 4, P8());
    ms, es := ThenSleep(ms, es, P8(), [4], 3, 5, ELSE, P9());
    ms, es := ThenPick(ms, es, P9(), 3, false, 5, 4, P10());
  }

  /** ... which exits before 3 is woken. */
  lemma FourthExits() returns (ms: seq<Machine>, es: seq<Event>)
    ensures IsRun(1, ms, es) && |es| == 16 && ms[16] == At(P12(), [3], 0, true, 5, 0)
    ensures ms[3] == At(P2(), [2], 1, false, 3, 0) && es[3] == Block(0, BLOCK_WAIT)
    ensures forall k :: 4 <= k <= 16 ==> Waiting(ms[k], 1)
  {
    ms, es := ThirdSleeps();
    ChildExits();
    ms, es := Then(ms, es, Exit(0, 7, [[]], None), At(P11(), [], 4, false, 5, 0).(busy := [true]));
    ms, es := Then(ms, es, SwitchTo(0), At(P11(), [], 0, true, 5, 0));
    ms, es := Then(ms, es, Wake(0, 3), At(P12(), [3], 0, true, 5, 0));
  }

  /** A run in which init calls `waitpid` for any child with no zombie there, sleeps, is handed a zombie by an
      exiting task whose parent is somebody else, and sleeps on. */
  lemma InitSleepsBesideZombie() returns (ms: seq<Machine>, es: seq<Event>)
    ensures IsRun(1, ms, es) && |es| == 18 && Sleeps(1, ms, es, 3, 1, 0) && Asleep(ms, 3, 18, 1)
    ensures ZombieChild(ms[18].sys.procs, 1, 0, 4) && HandsOverZombie(ms[17], es[17])
  {
    ms, es := FourthExits();
    ms, es := ThenPick(ms, es, P12(), 0, true, 5, 3, P13());
    ParentExits();
    ms, es := Then(ms, es, Exit(0, 0, [[]], None), At(P14(), [], 3, false, 5, 0).(busy := [true]));
    assert 4 in P13()[3].children;
  }
}
