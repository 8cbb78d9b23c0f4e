/** Every step of the scheduler keeps the invariant, and what the invariant says about tasks and
    harts. */
module SchedKeeps {
  import opened Wrappers
  import opened SchedState
  import opened SchedMachine

  lemma TimesUpdate(q: seq<nat>, h: nat, x: nat, p: nat)
    requires h < |q|
    ensures Times(q[h := x], p) == Times(q, p) - (if q[h] == p then 1 else 0) + (if x == p then 1 else 0)
    ensures q[h] == p ==> Times(q, p) > 0
  {
    assert q == q[..h] + [q[h]] + q[h + 1..];
    assert q[h := x] == q[..h] + [x] + q[h + 1..];
  }

  lemma TimesIn(q: seq<nat>, p: nat)
    ensures Times(q, p) > 0 <==> p in q
  {
  }

  /** Two slots that hold the same pid count twice. */
  lemma TimesTwo(q: seq<nat>, i: nat, j: nat)
    requires i < |q| && j < |q| && i != j && q[i] == q[j]
    ensures Times(q, q[i]) >= 2
  {
    var a, b := if i < j then i else j, if i < j then j else i;
    assert q == q[..a] + [q[a]] + q[a + 1..b] + [q[b]] + q[b + 1..];
  }

  lemma PushCount(qs: seq<seq<nat>>, v: nat, x: nat, p: nat)
    requires v < |qs|
    ensures Queued(qs[v := qs[v] + [x]], p) == Queued(qs, p) + if x == p then 1 else 0
  {
    QueuedUpdate(qs, v, qs[v] + [x], p);
  }

  // ---- queueing ----

  lemma EnqueueCount(s: Sched, pid: nat, v: nat, p: nat)
    requires v < |s.queues|
    ensures var t := Enqueue(s, pid, v);
            && t == s.(queues := t.queues) && |t.queues| == |s.queues|
            && Queued(t.queues, p) == Queued(s.queues, p) + if p == pid && pid !in s.current then 1 else 0
  {
    PushCount(s.queues, v, pid, p);
  }

  lemma WakeKeeps(m: Machine, n: nat, s: Sched, pid: nat, v: nat)
    requires Inv(m, n) && v < n
    requires s == m.sys.(procs := s.procs) && s.procs.Keys == m.sys.procs.Keys
    requires forall p :: p in s.procs ==> s.procs[p].state == m.sys.procs[p].state
    ensures Inv(m.(sys := Woken(s, pid, v)), n)
  {
    var m' := m.(sys := Woken(s, pid, v));
    forall p: nat | p != 0 ensures PidOk(m', p) {
      assert PidOk(m, p);
      if pid in s.procs && s.procs[pid].state == Blocked {
        EnqueueCount(Unblock(s, pid), pid, v, p);
        TimesIn(s.current, pid);
      }
    }
    forall h | 0 <= h < n ensures HartOk(m', n, h) {
      assert HartOk(m, n, h);
    }
  }

  lemma KillKeeps(m: Machine, n: nat, pid: nat, code: int, v: nat)
    requires Inv(m, n) && v < n
    ensures Inv(m.(sys := Killed(m.sys, pid, code, v)), n)
  {
    var s := m.sys;
    if pid in s.procs && s.procs[pid].state != Zombie {
      WakeKeeps(m, n, s.(procs := s.procs[pid := s.procs[pid].(killed := true, killCode := code)]), pid, v);
    } else {
      assert m.(sys := s) == m;
    }
  }

  lemma BlockKeeps(m: Machine, n: nat, h: nat, reason: nat)
    requires Inv(m, n) && h < n
    ensures Inv(m.(sys := Slept(m.sys, h, reason)), n)
  {
    var m' := m.(sys := Slept(m.sys, h, reason));
    forall p: nat | p != 0 ensures PidOk(m', p) {
      assert PidOk(m, p);
    }
    forall k | 0 <= k < n ensures HartOk(m', n, k) {
      assert HartOk(m, n, k);
    }
  }

  // ---- birth ----

  lemma NewPidKeeps(m: Machine, n: nat, h: nat)
    requires Inv(m, n) && Enabled(m, n, NewPid(h))
    ensures Inv(Next(m, n, NewPid(h)), n)
  {
    var m' := Next(m, n, NewPid(h));
    assert m.sys.nextPid != 0 ==> PidOk(m, m.sys.nextPid);
    forall p: nat | p != 0 ensures PidOk(m', p) {
      assert PidOk(m, p);
      TimesUpdate(m.born, h, m.sys.nextPid, p);
    }
    forall k | 0 <= k < n ensures HartOk(m', n, k) {
      assert HartOk(m, n, k);
    }
  }

  lemma AbandonKeeps(m: Machine, n: nat, h: nat)
    requires Inv(m, n) && h < n
    ensures Inv(m.(born := m.born[h := 0]), n)
  {
    var m' := m.(born := m.born[h := 0]);
    forall p: nat | p != 0 ensures PidOk(m', p) {
      assert PidOk(m, p);
      TimesUpdate(m.born, h, 0, p);
    }
    forall k | 0 <= k < n ensures HartOk(m', n, k) {
      assert HartOk(m, n, k);
    }
  }

  lemma ForkKeeps(m: Machine, n: nat, h: nat, cg: nat)
    requires Inv(m, n) && Enabled(m, n, Fork(h, cg))
    ensures Inv(Next(m, n, Fork(h, cg)), n)
  {
    var m', child, s := Next(m, n, Fork(h, cg)), m.born[h], m.sys;
    TimesUpdate(m.born, h, 0, child);
    assert PidOk(m, child);
    TimesIn(s.current, child);
    forall p: nat | p != 0 ensures PidOk(m', p) {
      assert PidOk(m, p);
      TimesUpdate(m.born, h, 0, p);
      PushCount(s.queues, h, child, p);
    }
    forall k | 0 <= k < n ensures HartOk(m', n, k) {
      assert HartOk(m, n, k);
      assert s.current[k] != child;
    }
  }

  // ---- the trap epilogue ----

  /** A state between two halves of one critical section of hart `h`: its current task is queued
      again and still in the current slot. */
  predicate PidBetween(s: Sched, m: Machine, h: nat, p: nat)
    requires h < |s.current|
  {
    var q, c, k, b := Queued(s.queues, p), Times(s.current, p), Times(m.hand, p), Times(m.born, p);
    && s.nextPid == m.sys.nextPid && q + c + k + b <= (if s.current[h] == p then 2 else 1)
    && (q + c + k + b > 0 ==> p < s.nextPid)
    && (s.current[h] == p ==> q == 1 && c == 1 && k + b == 0)
    && if p in s.procs then
         && p < s.nextPid && b == 0
         && match s.procs[p].state
            case Runnable => if s.current[h] == p then true else q + c + k == 1
            case Running => c == 1 && s.current[h] != p
            case Blocked => q + k == 0
            case Zombie => q + k == 0
       else q + k == 0
  }

  lemma RequeueBetween(m: Machine, n: nat, h: nat, p: nat)
    requires Inv(m, n) && h < n && !m.busy[h] && p != 0
    ensures PidBetween(Requeue(m.sys, h), m, h, p)
  {
    var s, cur := m.sys, m.sys.current[h];
    assert PidOk(m, p) && HartOk(m, n, h);
    TimesUpdate(s.current, h, 0, p);
    PushCount(s.queues, h, cur, p);
    if cur != 0 {
      assert PidOk(m, cur);
      TimesUpdate(s.current, h, 0, cur);
    }
  }

  /** On hart `h` every queued task may be taken. */
  lemma QueuedTakeable(s: Sched, m: Machine, n: nat, h: nat, p: nat)
    requires Fits(m, n) && Shaped(s, n) && h < n && p != 0 && PidBetween(s, m, h, p) && Queued(s.queues, p) > 0
    ensures Takeable(Seen(s), h, {}, p)
  {
    forall hh | 0 <= hh < n && hh != h ensures s.current[hh] != p {
      TimesIn(s.current, p);
      if s.current[hh] == p {
        assert p in s.current;
        if s.current[h] == p { TimesTwo(s.current, h, hh); }
      }
    }
  }

  /** The pick takes one copy of one task, and finds one if there is any. */
  lemma PickCount(s: Sched, m: Machine, n: nat, h: nat, qs: seq<seq<nat>>, r: Option<nat>, p: nat)
    requires Fits(m, n) && Shaped(s, n) && h < n && p != 0 && PidBetween(s, m, h, p)
    requires Picks(Seen(s), h, {}, s.queues, qs, r)
    ensures Queued(qs, p) == Queued(s.queues, p) - (if r == Some(p) then 1 else 0)
    ensures r == Some(p) ==> Queued(s.queues, p) == 1
    ensures r.None? ==> Queued(s.queues, p) == 0
  {
    PicksCount(Seen(s), h, {}, s.queues, qs, r, p);
    if Queued(s.queues, p) > 0 {
      QueuedTakeable(s, m, n, h, p);
    }
  }

  lemma TakeOk(s: Sched, m: Machine, n: nat, h: nat, qs: seq<seq<nat>>, r: nat, p: nat)
    requires Fits(m, n) && Shaped(s, n) && h < n && p != 0 && r in s.procs && r != 0 && |qs| == n
    requires PidBetween(s, m, h, p)
    requires p == r ==> Queued(s.queues, p) == 1 && Queued(qs, p) == 0
    requires p != r ==> Queued(qs, p) == Queued(s.queues, p)
    requires p == r ==> s.procs[p].state == Runnable
    ensures PidOk(m.(sys := Take(s.(queues := qs), h, r)), p)
  {
    TimesUpdate(s.current, h, r, p);
  }

  lemma PickedPid(m: Machine, n: nat, h: nat, qs: seq<seq<nat>>, r: nat, p: nat)
    requires Inv(m, n) && Enabled(m, n, SchedulePoint(h, qs, Some(r))) && p != 0
    ensures PidOk(Next(m, n, SchedulePoint(h, qs, Some(r))), p)
  {
    var s := Requeue(m.sys, h);
    RequeueBetween(m, n, h, r);
    PickCount(s, m, n, h, qs, Some(r), r);
    RequeueBetween(m, n, h, p);
    PickCount(s, m, n, h, qs, Some(r), p);
    TakeOk(s, m, n, h, qs, r, p);
  }

  lemma PickedHart(m: Machine, n: nat, h: nat, qs: seq<seq<nat>>, r: nat, k: nat)
    requires Inv(m, n) && Enabled(m, n, SchedulePoint(h, qs, Some(r))) && k < n
    ensures HartOk(Next(m, n, SchedulePoint(h, qs, Some(r))), n, k)
  {
    var s := Requeue(m.sys, h);
    assert HartOk(m, n, k) && HartOk(m, n, h);
    if k != h {
      OthersKeep(m, n, h, k);
      assert Seen(s).current[k] != r;
    }
  }

  lemma SchedulePointKeeps(m: Machine, n: nat, h: nat, qs: seq<seq<nat>>, r: Option<nat>)
    requires Inv(m, n) && Enabled(m, n, SchedulePoint(h, qs, r))
    ensures Inv(Next(m, n, SchedulePoint(h, qs, r)), n)
  {
    if r.None? {
      VacatedIdle(m, n, h, qs);
    } else {
      var m' := Next(m, n, SchedulePoint(h, qs, r));
      forall p: nat | p != 0 ensures PidOk(m', p) {
        PickedPid(m, n, h, qs, r.value, p);
      }
      forall k | 0 <= k < n ensures HartOk(m', n, k) {
        PickedHart(m, n, h, qs, r.value, k);
      }
    }
  }

  /** No other hart claims the task hart `h` is running. */
  lemma OthersKeep(m: Machine, n: nat, h: nat, k: nat)
    requires Inv(m, n) && h < n && k < n && k != h
    ensures m.sys.current[h] != 0 ==> m.sys.current[k] != m.sys.current[h]
  {
    if m.sys.current[h] != 0 && m.sys.current[k] == m.sys.current[h] {
      assert PidOk(m, m.sys.current[h]);
      TimesTwo(m.sys.current, h, k);
    }
  }

  lemma VacatedPids(m: Machine, n: nat, h: nat, qs: seq<seq<nat>>, p: nat)
    requires Inv(m, n) && Enabled(m, n, SchedulePoint(h, qs, None)) && p != 0
    ensures PidOk(Next(m, n, SchedulePoint(h, qs, None)), p)
  {
    var s := Requeue(m.sys, h);
    RequeueBetween(m, n, h, p);
    PickCount(s, m, n, h, qs, None, p);
    TimesUpdate(s.current, h, 0, p);
  }

  lemma VacatedIdle(m: Machine, n: nat, h: nat, qs: seq<seq<nat>>)
    requires Inv(m, n) && Enabled(m, n, SchedulePoint(h, qs, None))
    ensures Inv(Next(m, n, SchedulePoint(h, qs, None)), n)
  {
    var s := Requeue(m.sys, h);
    var m' := Next(m, n, SchedulePoint(h, qs, None));
    if s.current[h] != 0 {
      RequeueBetween(m, n, h, s.current[h]);
      PickCount(s, m, n, h, qs, None, s.current[h]);
    }
    forall p: nat | p != 0 ensures PidOk(m', p) {
      VacatedPids(m, n, h, qs, p);
    }
    forall k | 0 <= k < n ensures HartOk(m', n, k) {
      assert HartOk(m, n, k);
    }
  }

  lemma RunOnKeeps(m: Machine, n: nat, h: nat, qs: seq<seq<nat>>, r: Option<nat>)
    requires Inv(m, n) && Enabled(m, n, RunOn(h, qs, r))
    ensures Inv(Next(m, n, RunOn(h, qs, r)), n)
  {
    var s := m.sys;
    assert s.current[h := 0] == s.current;
    assert Requeue(s, h) == s;
    if r.Some? {
      SchedulePointKeeps(m, n, h, qs, r);
    } else {
      var m' := Next(m, n, RunOn(h, qs, r));
      forall p: nat | p != 0 ensures PidOk(m', p) {
        assert PidOk(m, p);
        RequeueBetween(m, n, h, p);
        PickCount(s, m, n, h, qs, None, p);
      }
      forall k | 0 <= k < n ensures HartOk(m', n, k) {
        assert HartOk(m, n, k);
      }
    }
  }

  // ---- death ----

  lemma {:induction false} AdoptAllStates(procs: map<nat, Proc>, orphans: seq<nat>)
    ensures AdoptAll(procs, orphans).Keys == procs.Keys
    ensures forall p :: p in procs ==> AdoptAll(procs, orphans)[p].state == procs[p].state
                                       && AdoptAll(procs, orphans)[p].blockedOn == procs[p].blockedOn
  {
    if orphans != [] {
      AdoptAllStates(procs, orphans[..|orphans| - 1]);
    }
  }

  /** The tables after the funeral, before anyone is woken. */
  function Buried(s: Sched, pid: nat, code: int): Sched
    requires pid in s.procs
  {
    var dead := s.procs[pid := s.procs[pid].(state := Zombie, exitCode := code)];
    s.(procs := if pid != 1 then Disown(AdoptAll(dead, dead[pid].children), pid) else dead)
  }

  lemma BuriedStates(s: Sched, pid: nat, code: int)
    requires pid in s.procs
    ensures var t := Buried(s, pid, code);
            && t == s.(procs := t.procs) && t.procs.Keys == s.procs.Keys && t.procs[pid].state == Zombie
            && forall p :: p in s.procs && p != pid ==> t.procs[p].state == s.procs[p].state
  {
    var dead := s.procs[pid := s.procs[pid].(state := Zombie, exitCode := code)];
    AdoptAllStates(dead, dead[pid].children);
  }

  lemma BuriedKeeps(m: Machine, n: nat, h: nat, code: int)
    requires Inv(m, n) && h < n && !m.busy[h] && m.sys.current[h] in m.sys.procs
    ensures Inv(m.(sys := Buried(m.sys, m.sys.current[h], code), busy := m.busy[h := true]), n)
  {
    var s, pid := m.sys, m.sys.current[h];
    var m' := m.(sys := Buried(s, pid, code), busy := m.busy[h := true]);
    BuriedStates(s, pid, code);
    TimesIn(s.current, pid);
    forall p: nat | p != 0 ensures PidOk(m', p) {
      assert PidOk(m, p);
    }
    forall k | 0 <= k < n ensures HartOk(m', n, k) {
      assert HartOk(m, n, k);
      if k != h { OthersKeep(m, n, h, k); }
    }
  }

  lemma BuryIsWake(s: Sched, pid: nat, code: int, v: nat)
    requires v < |s.queues| && pid in s.procs
    ensures var t := Buried(s, pid, code);
            && pid in t.procs
            && var par := t.procs[pid].parent;
               Bury(s, pid, code, v) ==
               if par != 0 && par in t.procs && t.procs[par].blockedOn == BLOCK_WAIT then Woken(t, par, v) else t
  {
    BuriedStates(s, pid, code);
  }

  lemma BuryKeeps(m: Machine, n: nat, h: nat, code: int)
    requires Inv(m, n) && h < n && !m.busy[h] && m.sys.current[h] in m.sys.procs
    ensures Inv(m.(sys := Bury(m.sys, m.sys.current[h], code, h), busy := m.busy[h := true]), n)
  {
    var s, pid := m.sys, m.sys.current[h];
    var t := Buried(s, pid, code);
    var m1 := m.(sys := t, busy := m.busy[h := true]);
    BuriedKeeps(m, n, h, code);
    BuriedStates(s, pid, code);
    BuryIsWake(s, pid, code, h);
    WakeKeeps(m1, n, t, t.procs[pid].parent, h);
  }

  lemma BuryLeaves(s: Sched, pid: nat, code: int, v: nat)
    requires v < |s.queues| && pid in s.procs
    ensures var t := Bury(s, pid, code, v);
            pid in t.procs && t.current == s.current && t.idle == s.idle && |t.queues| == |s.queues|
  {
    BuriedStates(s, pid, code);
  }

  /** The pick of an exiting hart goes from a queue into its hand. */
  lemma HandKeeps(m: Machine, n: nat, h: nat, gone: nat, qs: seq<seq<nat>>, r: Option<nat>)
    requires Inv(m, n) && h < n && m.busy[h] && m.hand[h] == 0 && m.sys.current[h] == gone != 0
    requires Picks(Seen(m.sys), h, {gone}, m.sys.queues, qs, r)
    ensures Inv(m.(sys := m.sys.(queues := qs), hand := m.hand[h := PidOr0(r)]), n)
  {
    var m' := m.(sys := m.sys.(queues := qs), hand := m.hand[h := PidOr0(r)]);
    forall p: nat | p != 0 ensures PidOk(m', p) {
      HandPid(m, n, h, gone, qs, r, p);
    }
    forall k | 0 <= k < n ensures HartOk(m', n, k) {
      assert HartOk(m, n, k);
    }
  }

  lemma HandPid(m: Machine, n: nat, h: nat, gone: nat, qs: seq<seq<nat>>, r: Option<nat>, p: nat)
    requires Inv(m, n) && h < n && m.busy[h] && m.hand[h] == 0 && m.sys.current[h] == gone != 0 && p != 0
    requires Picks(Seen(m.sys), h, {gone}, m.sys.queues, qs, r)
    ensures PidOk(m.(sys := m.sys.(queues := qs), hand := m.hand[h := PidOr0(r)]), p)
  {
    assert PidOk(m, p);
    PicksCount(Seen(m.sys), h, {gone}, m.sys.queues, qs, r, p);
    TimesUpdate(m.hand, h, PidOr0(r), p);
    if Queue(m, p) > 0 {
      TimesIn(m.sys.current, p);
      assert Takeable(Seen(m.sys), h, {gone}, p);
    }
  }

  lemma ExitKeeps(m: Machine, n: nat, h: nat, code: int, qs: seq<seq<nat>>, r: Option<nat>)
    requires Inv(m, n) && Enabled(m, n, Exit(h, code, qs, r))
    ensures Inv(Next(m, n, Exit(h, code, qs, r)), n)
  {
    var pid := m.sys.current[h];
    assert HartOk(m, n, h);
    BuryLeaves(m.sys, pid, code, h);
    BuryKeeps(m, n, h, code);
    HandKeeps(m.(sys := Bury(m.sys, pid, code, h), busy := m.busy[h := true]), n, h, pid, qs, r);
  }

  /** `switch_to` never finds its task gone, dead, blocked or claimed elsewhere. */
  lemma HandMayBeEntered(m: Machine, n: nat, h: nat)
    requires Inv(m, n) && h < n && m.hand[h] != 0
    ensures MayEnter(m.sys, h, m.hand[h]) && m.sys.procs[m.hand[h]].state == Runnable && m.busy[h]
    ensures m.hand[h] !in m.sys.current
  {
    var r := m.hand[h];
    assert PidOk(m, r) && HartOk(m, n, h);
    TimesIn(m.hand, r);
    TimesIn(m.sys.current, r);
  }

  lemma SwitchToPids(m: Machine, n: nat, h: nat, p: nat)
    requires Inv(m, n) && Enabled(m, n, SwitchTo(h)) && p != 0
    ensures PidOk(Next(m, n, SwitchTo(h)), p)
  {
    assert HartOk(m, n, h) && PidOk(m, p);
    if m.hand[h] != 0 {
      HandMayBeEntered(m, n, h);
    }
    TimesUpdate(m.hand, h, 0, p);
    TimesUpdate(m.sys.current, h, m.hand[h], p);
  }

  lemma SwitchToKeeps(m: Machine, n: nat, h: nat)
    requires Inv(m, n) && Enabled(m, n, SwitchTo(h))
    ensures Inv(Next(m, n, SwitchTo(h)), n)
  {
    var m' := Next(m, n, SwitchTo(h));
    assert HartOk(m, n, h);
    if m.hand[h] != 0 {
      HandMayBeEntered(m, n, h);
    }
    forall p: nat | p != 0 ensures PidOk(m', p) {
      SwitchToPids(m, n, h, p);
    }
    forall k | 0 <= k < n ensures HartOk(m', n, k) {
      assert HartOk(m, n, k);
    }
  }

  lemma ReapPid(m: Machine, n: nat, h: nat, c: nat, p: nat)
    requires Fits(m, n) && h < n && PidOk(m, p) && c in m.sys.procs && m.sys.procs[c].state == Zombie
    ensures PidOk(m.(sys := Reaped(m.sys, m.sys.current[h], c)), p)
  {
    PurgeCount(m.sys.queues, c, p);
  }

  lemma ReapKeeps(m: Machine, n: nat, h: nat, c: nat)
    requires Inv(m, n) && Enabled(m, n, Reap(h, c))
    ensures Inv(Next(m, n, Reap(h, c)), n)
  {
    var m' := Next(m, n, Reap(h, c));
    forall p: nat | p != 0 ensures PidOk(m', p) {
      assert PidOk(m, p);
      ReapPid(m, n, h, c, p);
    }
    forall k | 0 <= k < n ensures HartOk(m', n, k) {
      assert HartOk(m, n, k);
    }
  }

  /** Every step, in any order, on any number of harts. */
  lemma StepKeeps(m: Machine, n: nat, e: Event)
    requires Inv(m, n) && Enabled(m, n, e)
    ensures Inv(Next(m, n, e), n)
  {
    match e
    case NewPid(h) => NewPidKeeps(m, n, h);
    case Abandon(h) => AbandonKeeps(m, n, h);
    case Fork(h, cg) => ForkKeeps(m, n, h, cg);
    case Block(h, reason) => BlockKeeps(m, n, h, reason);
    case Wake(h, pid) => WakeKeeps(m, n, m.sys, pid, h);
    case Kill(h, pid, code) => KillKeeps(m, n, pid, code, h);
    case SchedulePoint(h, qs, r) => SchedulePointKeeps(m, n, h, qs, r);
    case RunOn(h, qs, r) => RunOnKeeps(m, n, h, qs, r);
    case Exit(h, code, qs, r) => ExitKeeps(m, n, h, code, qs, r);
    case SwitchTo(h) => SwitchToKeeps(m, n, h);
    case Reap(h, c) => ReapKeeps(m, n, h, c);
  }
}
