/** The scheduler as a transition system: any number of harts, each step one critical section of
    the big lock, in any order.  The pick an exiting hart has made and not yet switched to lives
    outside the lock, in `hand`. */
module SchedMachine {
  import opened Wrappers
  import opened SchedState

  /** `hand[h]` is the task hart `h` picked in `exit`, 0 for none; `busy[h]` says that the hart is
      between that pick and `switch_to`; `born[h]` is the pid a fork on hart `h` has been given and
      has not yet installed, 0 for none. */
  datatype Machine = Machine(sys: Sched, busy: seq<bool>, hand: seq<nat>, born: seq<nat>)

  datatype Event =
    | NewPid(h: nat)
    | Abandon(h: nat)
    | Fork(h: nat, cg: nat)
    | Block(h: nat, reason: nat)
    | Wake(h: nat, pid: nat)
    | Kill(h: nat, pid: nat, code: int)
    | SchedulePoint(h: nat, qs: seq<seq<nat>>, r: Option<nat>)
    | RunOn(h: nat, qs: seq<seq<nat>>, r: Option<nat>)
    | Exit(h: nat, code: int, qs: seq<seq<nat>>, r: Option<nat>)
    | SwitchTo(h: nat)
    | Reap(h: nat, child: nat)

  predicate Fits(m: Machine, n: nat) {
    Shaped(m.sys, n) && |m.busy| == |m.hand| == |m.born| == n
  }

  function PidOr0(r: Option<nat>): nat {
    if r.Some? then r.value else 0
  }

  /** `switch_to` looks again before it enters a task. */
  predicate MayEnter(s: Sched, h: nat, pid: nat) {
    && pid in s.procs && (s.procs[pid].state == Runnable || s.procs[pid].state == Running)
    && (forall hh :: 0 <= hh < |s.current| && hh != h ==> s.current[hh] != pid)
  }

  function TakeOrIdle(s: Sched, h: nat, r: Option<nat>): Sched
    requires h < |s.current| && h < |s.idle| && (r.Some? ==> r.value in s.procs)
  {
    if r.Some? then Take(s, h, r.value) else GoIdle(s, h)
  }

  /** Which steps a hart can take.  Between `exit` and `switch_to` it takes no other; `run_on` is
      for a hart that has run nothing yet; only a live current task exits. */
  ghost predicate Enabled(m: Machine, n: nat, e: Event)
    requires Fits(m, n)
  {
    var s := m.sys;
    match e
    case NewPid(h) => h < n && m.born[h] == 0
    case Abandon(h) => h < n
    case Fork(h, _) => h < n && m.born[h] != 0 && s.current[h] in s.procs && !m.busy[h]
    case Block(h, _) => h < n
    case Wake(h, _) => h < n
    case Kill(h, _, _) => h < n
    case SchedulePoint(h, qs, r) =>
      h < n && !m.busy[h] && Picks(Seen(Requeue(s, h)), h, {}, Requeue(s, h).queues, qs, r)
    case RunOn(h, qs, r) => h < n && !m.busy[h] && s.current[h] == 0 && Picks(Seen(s), h, {}, s.queues, qs, r)
    case Exit(h, code, qs, r) =>
      h < n && !m.busy[h] && s.current[h] in s.procs && s.procs[s.current[h]].state != Zombie
      && var t := Bury(s, s.current[h], code, h); Picks(Seen(t), h, {s.current[h]}, t.queues, qs, r)
    case SwitchTo(h) => h < n && m.busy[h]
    case Reap(h, c) =>
      h < n && !m.busy[h] && s.current[h] in s.procs && c in s.procs[s.current[h]].children
      && c in s.procs && s.procs[c].state == Zombie
  }

  ghost function Next(m: Machine, n: nat, e: Event): Machine
    requires Fits(m, n) && Enabled(m, n, e)
  {
    var s := m.sys;
    match e
    case NewPid(h) => m.(sys := PidGiven(s), born := m.born[h := s.nextPid])
    case Abandon(h) => m.(born := m.born[h := 0])
    case Fork(h, cg) => m.(sys := Install(s, m.born[h], s.current[h], cg, h), born := m.born[h := 0])
    case Block(h, reason) => m.(sys := Slept(s, h, reason))
    case Wake(h, pid) => m.(sys := Woken(s, pid, h))
    case Kill(h, pid, code) => m.(sys := Killed(s, pid, code, h))
    case SchedulePoint(h, qs, r) => m.(sys := TakeOrIdle(Requeue(s, h).(queues := qs), h, r))
    case RunOn(h, qs, r) =>
      var t := s.(queues := qs);
      m.(sys := if r.Some? then Take(t, h, r.value) else t)
    case Exit(h, code, qs, r) =>
      m.(sys := Bury(s, s.current[h], code, h).(queues := qs), busy := m.busy[h := true],
        hand := m.hand[h := PidOr0(r)])
    case SwitchTo(h) =>
      var t := if m.hand[h] == 0 then GoIdle(s, h)
               else if MayEnter(s, h, m.hand[h]) then Take(s, h, m.hand[h]) else s;
      m.(sys := t, busy := m.busy[h := false], hand := m.hand[h := 0])
    case Reap(h, c) => m.(sys := Reaped(s, s.current[h], c))
  }

  // ---- the invariant ----

  function Times(q: seq<nat>, p: nat): nat {
    multiset(q)[p]
  }

  function Queue(m: Machine, p: nat): nat {
    Queued(m.sys.queues, p)
  }

  /** Everything about one pid: it is in at most one place; and its state says in which. */
  predicate PidOk(m: Machine, p: nat) {
    var q, c, k, b := Queue(m, p), Times(m.sys.current, p), Times(m.hand, p), Times(m.born, p);
    && q + c + k + b <= 1
    && (q + c + k + b > 0 ==> p < m.sys.nextPid)
    && if p in m.sys.procs then
         && p < m.sys.nextPid && b == 0
         && match m.sys.procs[p].state
            case Runnable => q + c + k == 1
            case Running => c == 1
            case Blocked => q + k == 0
            case Zombie => q + k == 0
       else q + k == 0
  }

  /** The current slot of a hart: empty or live, except between `exit` and `switch_to`. */
  predicate HartOk(m: Machine, n: nat, h: nat)
    requires Fits(m, n) && h < n
  {
    var cur, procs := m.sys.current[h], m.sys.procs;
    if m.busy[h] then cur == 0 || cur !in procs || procs[cur].state == Zombie
    else m.hand[h] == 0 && (cur == 0 || (cur in procs && procs[cur].state != Zombie))
  }

  ghost predicate Inv(m: Machine, n: nat) {
    && Fits(m, n) && 0 !in m.sys.procs
    && (forall p: nat :: p != 0 ==> PidOk(m, p))
    && (forall h :: 0 <= h < n ==> HartOk(m, n, h))
  }

  /** The machine when the first hart starts: init, runnable, queued on hart 0. */
  predicate Boots(m: Machine, n: nat) {
    && Fits(m, n)
    && m.sys.procs == map[1 := Proc(Runnable, 0, [], 0, false, -9, 0, 0)] && m.sys.nextPid == 2
    && m.sys.queues[0] == [1] && (forall v :: 1 <= v < n ==> m.sys.queues[v] == [])
    && (forall h :: 0 <= h < n ==> m.sys.current[h] == 0 && m.hand[h] == 0 && m.born[h] == 0 && !m.busy[h])
  }
}
