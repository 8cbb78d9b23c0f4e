/** The scheduler's shared state, as one value: what the big lock protects.  Every function is one
    thing a critical section does to it. */
module SchedState {
  import opened Wrappers

  datatype ProcState = Runnable | Running | Blocked | Zombie

  const BLOCK_WAIT: nat := 5

  datatype Proc = Proc(state: ProcState, parent: nat, children: seq<nat>, blockedOn: nat,
                       killed: bool, killCode: int, exitCode: int, cg: nat)

  datatype Sched = Sched(procs: map<nat, Proc>, queues: seq<seq<nat>>, current: seq<nat>,
                         idle: seq<bool>, nextPid: nat)

  /** One run queue, one current slot and one idle flag per hart. */
  predicate Shaped(s: Sched, harts: nat) {
    harts > 0 && |s.queues| == |s.current| == |s.idle| == harts
  }

  // ---- queueing, waking, killing, blocking ----

  /** A task some hart still claims is queued by that hart's own trap epilogue. */
  function Enqueue(s: Sched, pid: nat, v: nat): Sched
    requires v < |s.queues|
  {
    if pid in s.current then s else s.(queues := s.queues[v := s.queues[v] + [pid]])
  }

  function SetState(s: Sched, pid: nat, st: ProcState): Sched
    requires pid in s.procs
  {
    s.(procs := s.procs[pid := s.procs[pid].(state := st)])
  }

  function Unblock(s: Sched, pid: nat): Sched
    requires pid in s.procs
  {
    s.(procs := s.procs[pid := s.procs[pid].(state := Runnable, blockedOn := 0)])
  }

  function Woken(s: Sched, pid: nat, v: nat): Sched
    requires v < |s.queues|
  {
    if pid in s.procs && s.procs[pid].state == Blocked then Enqueue(Unblock(s, pid), pid, v) else s
  }

  function Killed(s: Sched, pid: nat, code: int, v: nat): Sched
    requires v < |s.queues|
  {
    if pid !in s.procs || s.procs[pid].state == Zombie then s
    else Woken(s.(procs := s.procs[pid := s.procs[pid].(killed := true, killCode := code)]), pid, v)
  }

  function Slept(s: Sched, h: nat, reason: nat): Sched
    requires h < |s.current|
  {
    var cur := s.current[h];
    if cur in s.procs && s.procs[cur].state == Running
    then s.(procs := s.procs[cur := s.procs[cur].(state := Blocked, blockedOn := reason)]) else s
  }

  // ---- the trap epilogue ----

  /** First half of `schedule_point`: requeue the current task, or vacate its slot. */
  function Requeue(s: Sched, h: nat): Sched
    requires h < |s.current| && h < |s.queues|
  {
    var cur := s.current[h];
    if cur in s.procs && s.procs[cur].state == Running then
      SetState(s, cur, Runnable).(queues := s.queues[h := s.queues[h] + [cur]])
    else if cur in s.procs && s.procs[cur].state == Runnable then
      s.(queues := s.queues[h := s.queues[h] + [cur]])
    else s.(current := s.current[h := 0])
  }

  function Take(s: Sched, h: nat, pid: nat): Sched
    requires h < |s.current| && h < |s.idle| && pid in s.procs
  {
    SetState(s, pid, Running).(current := s.current[h := pid], idle := s.idle[h := false])
  }

  function GoIdle(s: Sched, h: nat): Sched
    requires h < |s.current| && h < |s.idle|
  {
    s.(current := s.current[h := 0], idle := s.idle[h := true])
  }

  // ---- birth and death ----

  function PidGiven(s: Sched): Sched {
    s.(nextPid := s.nextPid + 1)
  }

  function Install(s: Sched, child: nat, parent: nat, cg: nat, v: nat): Sched
    requires v < |s.queues|
  {
    var p := Proc(Runnable, parent, [], 0, false, -9, 0, cg);
    var t := s.(procs := s.procs[child := p]);
    var u := if parent in t.procs
             then t.(procs := t.procs[parent := t.procs[parent].(children := t.procs[parent].children + [child])])
             else t;
    Enqueue(u, child, v)
  }

  /** Give orphan `c` to init. */
  function Adopt(procs: map<nat, Proc>, c: nat): map<nat, Proc> {
    if c !in procs then procs
    else
      var moved := procs[c := procs[c].(parent := 1)];
      if 1 in moved && c !in moved[1].children
      then moved[1 := moved[1].(children := moved[1].children + [c])] else moved
  }

  function AdoptAll(procs: map<nat, Proc>, orphans: seq<nat>): map<nat, Proc> {
    if orphans == [] then procs
    else Adopt(AdoptAll(procs, orphans[..|orphans| - 1]), orphans[|orphans| - 1])
  }

  function Disown(procs: map<nat, Proc>, pid: nat): map<nat, Proc> {
    if pid in procs then procs[pid := procs[pid].(children := [])] else procs
  }

  /** `exit` up to the pick: a zombie whose children are init's, and whose parent is woken if it
      sleeps in `waitpid`. */
  function Bury(s: Sched, pid: nat, code: int, v: nat): Sched
    requires v < |s.queues| && pid in s.procs
  {
    var dead := s.procs[pid := s.procs[pid].(state := Zombie, exitCode := code)];
    var t := s.(procs := if pid != 1 then Disown(AdoptAll(dead, dead[pid].children), pid) else dead);
    var par := if pid in t.procs then t.procs[pid].parent else 0;
    if par != 0 && par in t.procs && t.procs[par].state == Blocked && t.procs[par].blockedOn == BLOCK_WAIT
    then Enqueue(Unblock(t, par), par, v) else t
  }

  function Without(q: seq<nat>, c: nat): seq<nat> {
    if q == [] then []
    else Without(q[..|q| - 1], c) + if q[|q| - 1] == c then [] else [q[|q| - 1]]
  }

  function Purge(queues: seq<seq<nat>>, c: nat): (r: seq<seq<nat>>)
    ensures |r| == |queues|
  {
    seq(|queues|, v requires 0 <= v < |queues| => Without(queues[v], c))
  }

  /** `waitpid` on a zombie child: the slot is emptied, the queues swept, the child forgotten. */
  function Reaped(s: Sched, pid: nat, c: nat): Sched {
    var left := s.procs - {c};
    s.(procs := if pid in left then left[pid := left[pid].(children := Without(left[pid].children, c))] else left,
       queues := Purge(s.queues, c))
  }

  /** Whether `waitpid` asked for `c`; 0 asks for any child. */
  predicate Matches(target: nat, c: nat) {
    target == 0 || c == target
  }

  predicate ZombieChild(procs: map<nat, Proc>, pid: nat, target: nat, c: nat) {
    pid in procs && c in procs[pid].children && Matches(target, c) && c in procs && procs[c].state == Zombie
  }

  // ---- what a pick may take ----

  /** What a pick reads besides the queues. */
  datatype View = View(procs: map<nat, Proc>, current: seq<nat>)

  function Seen(s: Sched): View {
    View(s.procs, s.current)
  }

  /** An entry the scanning hart `h` may run: live, not skipped, claimed by no other hart. */
  predicate Takeable(w: View, h: nat, skip: set<nat>, pid: nat) {
    && pid !in skip && pid in w.procs
    && (w.procs[pid].state == Runnable || w.procs[pid].state == Running)
    && (forall hh :: 0 <= hh < |w.current| && hh != h ==> w.current[hh] != pid)
  }

  /** The takeable entries of one queue, with multiplicity. */
  function LiveIn(w: View, h: nat, skip: set<nat>, q: seq<nat>): multiset<nat> {
    if q == [] then multiset{}
    else
      LiveIn(w, h, skip, q[..|q| - 1])
      + if Takeable(w, h, skip, q[|q| - 1]) then multiset{q[|q| - 1]} else multiset{}
  }

  /** The takeable entries of the first `k` queues. */
  function LiveBelow(w: View, h: nat, skip: set<nat>, qs: seq<seq<nat>>): multiset<nat> {
    if qs == [] then multiset{}
    else LiveBelow(w, h, skip, qs[..|qs| - 1]) + LiveIn(w, h, skip, qs[|qs| - 1])
  }

  function One(r: Option<nat>): multiset<nat> {
    if r.Some? then multiset{r.value} else multiset{}
  }

  /** A pick from the queues `qs` that leaves `qs'`: nothing takeable is lost or copied, nothing
      moves to another queue, what is returned may be taken. */
  ghost predicate Leaves(w: View, h: nat, skip: set<nat>, qs: seq<seq<nat>>, qs': seq<seq<nat>>, r: Option<nat>) {
    && |qs'| == |qs|
    && (forall v :: 0 <= v < |qs| ==> multiset(qs'[v]) <= multiset(qs[v]))
    && LiveBelow(w, h, skip, qs) == LiveBelow(w, h, skip, qs') + One(r)
    && (r.Some? ==> Takeable(w, h, skip, r.value))
  }

  /** ... and nothing is found only when there is nothing to find. */
  ghost predicate Picks(w: View, h: nat, skip: set<nat>, qs: seq<seq<nat>>, qs': seq<seq<nat>>, r: Option<nat>) {
    Leaves(w, h, skip, qs, qs', r) && (r.None? ==> LiveBelow(w, h, skip, qs) == multiset{})
  }

  // ---- counting ----

  lemma {:induction false} LiveAppend(w: View, h: nat, skip: set<nat>, a: seq<nat>, b: seq<nat>)
    ensures LiveIn(w, h, skip, a + b) == LiveIn(w, h, skip, a) + LiveIn(w, h, skip, b)
    decreases |b|
  {
    if b == [] {
      assert a + b == a;
    } else {
      var c, e := b[..|b| - 1], b[|b| - 1];
      LiveAppend(w, h, skip, a, c);
      assert (a + b)[..|a + b| - 1] == a + c && (a + b)[|a + b| - 1] == e;
      var x := if Takeable(w, h, skip, e) then multiset{e} else multiset{};
      assert LiveIn(w, h, skip, a + b) == LiveIn(w, h, skip, a + c) + x;
    }
  }

  lemma LiveOne(w: View, h: nat, skip: set<nat>, p: nat)
    ensures LiveIn(w, h, skip, [p]) == if Takeable(w, h, skip, p) then multiset{p} else multiset{}
  {
    assert [p][..0] == [];
  }

  lemma {:induction false} LiveCount(w: View, h: nat, skip: set<nat>, q: seq<nat>, p: nat)
    ensures LiveIn(w, h, skip, q)[p] == if Takeable(w, h, skip, p) then multiset(q)[p] else 0
  {
    if q != [] {
      LiveCount(w, h, skip, q[..|q| - 1], p);
      assert q == q[..|q| - 1] + [q[|q| - 1]];
    }
  }

  /** How often `p` is queued. */
  function Queued(qs: seq<seq<nat>>, p: nat): nat {
    if qs == [] then 0 else Queued(qs[..|qs| - 1], p) + multiset(qs[|qs| - 1])[p]
  }

  lemma {:induction false} LiveBelowCount(w: View, h: nat, skip: set<nat>, qs: seq<seq<nat>>, p: nat)
    ensures LiveBelow(w, h, skip, qs)[p] == if Takeable(w, h, skip, p) then Queued(qs, p) else 0
  {
    if qs != [] {
      LiveBelowCount(w, h, skip, qs[..|qs| - 1], p);
      LiveCount(w, h, skip, qs[|qs| - 1], p);
    }
  }

  lemma {:induction false} QueuedUpdate(qs: seq<seq<nat>>, v: nat, q: seq<nat>, p: nat)
    requires v < |qs|
    ensures Queued(qs[v := q], p) == Queued(qs, p) - multiset(qs[v])[p] + multiset(q)[p]
    ensures Queued(qs, p) >= multiset(qs[v])[p]
  {
    var n := |qs| - 1;
    if v == n {
      assert qs[v := q][..n] == qs[..n];
    } else {
      QueuedUpdate(qs[..n], v, q, p);
      assert qs[v := q][..n] == qs[..n][v := q];
    }
  }

  lemma {:induction false} QueuedIn(qs: seq<seq<nat>>, p: nat)
    ensures Queued(qs, p) > 0 <==> exists v :: 0 <= v < |qs| && p in qs[v]
  {
    if qs != [] {
      var n := |qs| - 1;
      QueuedIn(qs[..n], p);
      if v :| 0 <= v < |qs| && p in qs[v] {
        if v < n { assert p in qs[..n][v]; }
      }
      if v :| 0 <= v < n && p in qs[..n][v] {
        assert p in qs[v];
      }
    }
  }

  lemma {:induction false} QueuedLess(a: seq<seq<nat>>, b: seq<seq<nat>>, p: nat)
    requires |a| == |b| && forall v :: 0 <= v < |a| ==> multiset(a[v]) <= multiset(b[v])
    ensures Queued(a, p) <= Queued(b, p)
  {
    if a != [] {
      QueuedLess(a[..|a| - 1], b[..|b| - 1], p);
    }
  }

  lemma {:induction false} WithoutCount(q: seq<nat>, c: nat, p: nat)
    ensures multiset(Without(q, c))[p] == if p == c then 0 else multiset(q)[p]
  {
    if q != [] {
      WithoutCount(q[..|q| - 1], c, p);
      assert q == q[..|q| - 1] + [q[|q| - 1]];
    }
  }

  lemma {:induction false} PurgeCount(qs: seq<seq<nat>>, c: nat, p: nat)
    ensures Queued(Purge(qs, c), p) == if p == c then 0 else Queued(qs, p)
  {
    if qs != [] {
      var n := |qs| - 1;
      PurgeCount(qs[..n], c, p);
      WithoutCount(qs[n], c, p);
      assert Purge(qs, c)[..n] == Purge(qs[..n], c);
    }
  }

  /** What a pick does to how often each takeable task is queued. */
  lemma PicksCount(w: View, h: nat, skip: set<nat>, qs: seq<seq<nat>>, qs': seq<seq<nat>>, r: Option<nat>, p: nat)
    requires Picks(w, h, skip, qs, qs', r)
    ensures Takeable(w, h, skip, p) ==> Queued(qs, p) == Queued(qs', p) + if r == Some(p) then 1 else 0
    ensures Queued(qs', p) <= Queued(qs, p)
    ensures r.None? && Takeable(w, h, skip, p) ==> Queued(qs, p) == 0
  {
    LiveBelowCount(w, h, skip, qs, p);
    LiveBelowCount(w, h, skip, qs', p);
    QueuedLess(qs', qs, p);
  }
}
