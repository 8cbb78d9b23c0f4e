/** Recycling of control group slots. */
module CgroupRecycle {
  // The phases of `cgcreate` are interleaved with whatever touches a group.  Every critical section, and
  // every store outside one, is one step.

  import opened Wrappers

  const MAX_CG: nat := 256

  /** `frames` are charged to the group; `cpu`, `cap` and `share` are the lock-free accounts, all 0 for
      a fresh group. */
  datatype Slot = Slot(used: bool, reserved: bool, frames: nat, lim: nat, cpu: nat, cap: nat, share: nat)

  const FRESH: Slot := Slot(false, false, 0, 0, 0, 0, 0)

  /** How far a call of `cgcreate` has got. */
  datatype Phase =
    | Probing(id: nat)
    | Zeroing(id: nat)
    | Unlimiting(id: nat)
    | Installing(id: nat)
    | Limiting(id: nat)
    | Pushing
    | Returned(group: Option<nat>)

  /** `procs` maps every process table entry, zombies too, to its group; `owner` every charged frame. */
  datatype State = State(slots: seq<Slot>, procs: map<nat, nat>, owner: map<nat, nat>, calls: map<nat, Phase>)

  datatype Step =
    | Reserve(c: nat)
    | Probe(c: nat)
    | Zero(c: nat)
    | Unlimit(c: nat)
    | Install(c: nat)
    | Limit(c: nat, lim: nat)
    | Push(c: nat)
    | Enter(pid: nat, id: nat)
    | Fork(pid: nat, child: nat)
    | Reap(pid: nat)
    | Charge(pid: nat, frame: nat)
    | Uncharge(frame: nat)
    | Tick(pid: nat)
    | SetCap(id: nat, v: nat)
    | SetShare(id: nat, v: nat)
    | SetLim(id: nat, v: nat)

  predicate Occupied(s: State, i: nat) {
    exists p :: p in s.procs && s.procs[p] == i
  }

  predicate Reusable(s: State, i: nat)
    requires i < |s.slots|
  {
    s.slots[i].used && !s.slots[i].reserved && !Occupied(s, i)
  }

  /** No slot from `i` on and below `j` can be reused. */
  predicate NoneReusable(s: State, i: nat, j: nat)
    requires j <= |s.slots|
  {
    forall k :: i <= k < j ==> !Reusable(s, k)
  }

  /** The scan of the first phase; slot 0 is never reused. */
  function FirstReusable(s: State, i: nat): (r: Option<nat>)
    ensures match r
            case Some(j) => i <= j < |s.slots| && Reusable(s, j) && NoneReusable(s, i, j)
            case None => NoneReusable(s, i, |s.slots|)
    decreases |s.slots| - i
  {
    if i >= |s.slots| then None else if Reusable(s, i) then Some(i) else FirstReusable(s, i + 1)
  }

  function Put(s: State, i: nat, x: Slot): State
    requires i < |s.slots|
  {
    s.(slots := s.slots[i := x])
  }

  function Go(s: State, c: nat, ph: Phase): State {
    s.(calls := s.calls[c := ph])
  }

  function Next(s: State, step: Step): State {
    match step
    case Reserve(c) =>
      if c in s.calls then s
      else
        var r := FirstReusable(s, 1);
        if r.None? then Go(s, c, Pushing)
        else Go(Put(s, r.value, s.slots[r.value].(reserved := true)), c, Probing(r.value))
    case Probe(c) =>
      if c in s.calls && s.calls[c].Probing? && s.calls[c].id < |s.slots| then
        var i := s.calls[c].id;
        if s.slots[i].frames != 0 then Go(Put(s, i, s.slots[i].(reserved := false)), c, Pushing)
        else Go(s, c, Zeroing(i))
      else s
    case Zero(c) =>
      if c in s.calls && s.calls[c].Zeroing? && s.calls[c].id < |s.slots| then
        var i := s.calls[c].id;
        Go(Put(s, i, s.slots[i].(cpu := 0, cap := 0, share := 0)), c, Unlimiting(i))
      else s
    case Unlimit(c) =>
      if c in s.calls && s.calls[c].Unlimiting? && s.calls[c].id < |s.slots| then
        var i := s.calls[c].id;
        Go(Put(s, i, s.slots[i].(lim := 0)), c, Installing(i))
      else s
    case Install(c) =>
      if c in s.calls && s.calls[c].Installing? then
        var i := s.calls[c].id;
        if i >= |s.slots| || !s.slots[i].reserved then Go(s, c, Pushing)
        else if Occupied(s, i) then Go(Put(s, i, s.slots[i].(reserved := false)), c, Pushing)
        else Go(Put(s, i, s.slots[i].(used := false, reserved := false)), c, Limiting(i))
      else s
    case Limit(c, lim) =>
      if c in s.calls && s.calls[c].Limiting? && s.calls[c].id < |s.slots| then
        var i := s.calls[c].id;
        Go(Put(s, i, s.slots[i].(lim := lim)), c, Returned(Some(i)))
      else s
    case Push(c) =>
      if c in s.calls && s.calls[c].Pushing? then
        if |s.slots| >= MAX_CG then Go(s, c, Returned(None))
        else Go(s.(slots := s.slots + [FRESH]), c, Limiting(|s.slots|))
      else s
    case Enter(pid, id) =>
      if pid in s.procs && id < |s.slots| && !s.slots[id].reserved then
        Put(s, id, s.slots[id].(used := true)).(procs := s.procs[pid := id])
      else s
    case Fork(pid, child) =>
      if pid in s.procs && child !in s.procs && s.procs[pid] < |s.slots| then
        var i := s.procs[pid];
        Put(s, i, s.slots[i].(used := true)).(procs := s.procs[child := i])
      else s
    case Reap(pid) => s.(procs := s.procs - {pid})
    case Charge(pid, frame) =>
      if pid in s.procs && frame !in s.owner && s.procs[pid] < |s.slots| then
        var i := s.procs[pid];
        if s.slots[i].lim != 0 && s.slots[i].frames >= s.slots[i].lim then s
        else Put(s, i, s.slots[i].(frames := s.slots[i].frames + 1)).(owner := s.owner[frame := i])
      else s
    case Uncharge(frame) =>
      if frame in s.owner && s.owner[frame] < |s.slots| then
        var i := s.owner[frame];
        Put(s, i, s.slots[i].(frames := if s.slots[i].frames == 0 then 0 else s.slots[i].frames - 1))
          .(owner := s.owner - {frame})
      else s
    case Tick(pid) =>
      if pid in s.procs && s.procs[pid] < |s.slots| then
        var i := s.procs[pid];
        Put(s, i, s.slots[i].(cpu := s.slots[i].cpu + 1))
      else s
    case SetCap(id, v) =>
      if id < |s.slots| then Put(s, id, s.slots[id].(cap := (if v < 100 then v else 100) + 1)) else s
    case SetShare(id, v) =>
      if id < |s.slots| && 1 <= v <= 1000 then Put(s, id, s.slots[id].(share := v)) else s
    case SetLim(id, v) => if id < |s.slots| then Put(s, id, s.slots[id].(lim := v)) else s
  }

  // ---- the invariant ----

  /** The slot a call holds reserved. */
  function Holding(ph: Phase): Option<nat> {
    match ph
    case Probing(i) => Some(i)
    case Zeroing(i) => Some(i)
    case Unlimiting(i) => Some(i)
    case Installing(i) => Some(i)
    case _ => None
  }

  predicate CallOk(s: State, c: nat)
    requires c in s.calls
  {
    var h := Holding(s.calls[c]);
    && (h.Some? ==> 0 < h.value < |s.slots| && HeldOk(s.slots[h.value], s.calls[c]))
    && (s.calls[c].Limiting? ==> s.calls[c].id < |s.slots|)
  }

  /** What a call in this phase can rely on about the slot it has reserved. */
  predicate HeldOk(x: Slot, ph: Phase) {
    && x.reserved && x.used
    && (!ph.Probing? ==> x.frames == 0)
    && (ph.Unlimiting? || ph.Installing? ==> x.cpu == 0)
  }

  predicate CallsApart(s: State, c: nat, d: nat)
    requires c in s.calls && d in s.calls
  {
    c != d && Holding(s.calls[c]).Some? ==> Holding(s.calls[c]) != Holding(s.calls[d])
  }

  predicate ProcOk(s: State, p: nat)
    requires p in s.procs
  {
    s.procs[p] < |s.slots| && !s.slots[s.procs[p]].reserved && (s.procs[p] != 0 ==> s.slots[s.procs[p]].used)
  }

  predicate SlotOk(s: State, i: nat)
    requires i < |s.slots|
  {
    s.slots[i].frames == |Owned(s, i)|
  }

  function Owned(s: State, i: nat): set<nat> {
    set f | f in s.owner && s.owner[f] == i
  }

  ghost predicate Inv(s: State) {
    && 0 < |s.slots| <= MAX_CG && !s.slots[0].reserved
    && (forall c :: c in s.calls ==> CallOk(s, c))
    && (forall c, d :: c in s.calls && d in s.calls ==> CallsApart(s, c, d))
    && (forall p :: p in s.procs ==> ProcOk(s, p))
    && (forall i :: 0 <= i < |s.slots| ==> SlotOk(s, i))
    && (forall f :: f in s.owner ==> s.owner[f] < |s.slots|)
  }

  /** One root group with processes in it, no calls, no frames charged. */
  function Initial(pids: set<nat>): State {
    State([FRESH], map p | p in pids :: 0, map[], map[])
  }

  lemma InitialInv(pids: set<nat>)
    ensures Inv(Initial(pids))
  {
    var s := Initial(pids);
    assert Owned(s, 0) == {};
  }

  lemma OwnedSame(s: State, s': State, i: nat)
    requires s'.owner == s.owner
    ensures Owned(s', i) == Owned(s, i)
  {
  }

  /** A step of call `c` that changes slot `i`, which it holds or is about to hold. */
  lemma CallStep(s: State, s': State, c: nat, i: nat, x: Slot, ph: Phase)
    requires Inv(s) && 0 < i < |s.slots| && s' == Go(Put(s, i, x), c, ph)
    requires (c in s.calls && Holding(s.calls[c]) == Some(i)) || (c !in s.calls && !s.slots[i].reserved)
    requires Holding(ph) == Some(i) || (Holding(ph) == None && (ph.Limiting? ==> ph.id == i))
    requires Holding(ph).Some? ==> HeldOk(x, ph)
    requires x.reserved || x.used || !Occupied(s, i)
    requires x.reserved ==> !Occupied(s, i)
    requires x.frames == s.slots[i].frames
    ensures Inv(s')
  {
    forall d | d in s'.calls ensures CallOk(s', d) {
      if d != c {
        assert CallOk(s, d);
        NotOther(s, c, i, d);
      }
    }
    forall d, e | d in s'.calls && e in s'.calls ensures CallsApart(s', d, e) {
      if d != c && e != c {
        assert CallsApart(s, d, e);
      } else if d != e {
        NotOther(s, c, i, if d == c then e else d);
      }
    }
    forall p | p in s'.procs ensures ProcOk(s', p) {
      assert ProcOk(s, p);
      assert s.procs[p] == i ==> Occupied(s, i);
    }
    forall j | 0 <= j < |s'.slots| ensures SlotOk(s', j) {
      assert SlotOk(s, j);
      OwnedSame(s, s', j);
    }
  }

  /** No other call holds the slot. */
  lemma NotOther(s: State, c: nat, i: nat, d: nat)
    requires Inv(s) && d in s.calls && d != c && i < |s.slots|
    requires (c in s.calls && Holding(s.calls[c]) == Some(i)) || (c !in s.calls && !s.slots[i].reserved)
    ensures Holding(s.calls[d]) != Some(i)
  {
    assert CallOk(s, d);
    if c in s.calls {
      assert CallsApart(s, c, d);
    }
  }

  /** A held slot has nobody in it. */
  lemma HeldEmpty(s: State, i: nat)
    requires Inv(s) && i < |s.slots| && s.slots[i].reserved
    ensures !Occupied(s, i)
  {
    forall p | p in s.procs ensures s.procs[p] != i {
      assert ProcOk(s, p);
    }
  }

  lemma ReserveKeeps(s: State, c: nat)
    requires Inv(s)
    ensures Inv(Next(s, Reserve(c)))
  {
    if c !in s.calls {
      var r := FirstReusable(s, 1);
      var s' := Next(s, Reserve(c));
      if r.Some? {
        var i := r.value;
        assert SlotOk(s, i);
        CallStep(s, s', c, i, s.slots[i].(reserved := true), Probing(i));
      } else {
        QuietCall(s, s', c, Pushing);
      }
    }
  }

  /** A call that holds nothing before or after. */
  lemma QuietCall(s: State, s': State, c: nat, ph: Phase)
    requires Inv(s) && s' == Go(s, c, ph) && Holding(ph).None? && !ph.Limiting?
    ensures Inv(s')
  {
    forall d | d in s'.calls ensures CallOk(s', d) {
      if d != c {
        assert CallOk(s, d);
      }
    }
    forall d, e | d in s'.calls && e in s'.calls ensures CallsApart(s', d, e) {
      if d != c && e != c {
        assert CallsApart(s, d, e);
      }
    }
    forall p | p in s'.procs ensures ProcOk(s', p) {
      assert ProcOk(s, p);
    }
    forall j | 0 <= j < |s'.slots| ensures SlotOk(s', j) {
      assert SlotOk(s, j);
      OwnedSame(s, s', j);
    }
  }

  /** The recheck of the third phase finds the slot reserved and empty: neither fallback is ever taken. */
  lemma RecheckNeverFails(s: State, c: nat)
    requires Inv(s) && c in s.calls && s.calls[c].Installing?
    ensures s.calls[c].id < |s.slots| && s.slots[s.calls[c].id].reserved && !Occupied(s, s.calls[c].id)
  {
    assert CallOk(s, c);
    HeldEmpty(s, s.calls[c].id);
  }

  lemma HolderKeeps(s: State, step: Step)
    requires Inv(s) && (step.Probe? || step.Zero? || step.Unlimit? || step.Install?)
    ensures Inv(Next(s, step))
  {
    var s' := Next(s, step);
    var c := step.c;
    if s' != s {
      assert CallOk(s, c);
      var i := s.calls[c].id;
      HeldEmpty(s, i);
      assert SlotOk(s, i);
      match step
      case Probe(_) =>
        if s.slots[i].frames != 0 {
          CallStep(s, s', c, i, s.slots[i].(reserved := false), Pushing);
        } else {
          assert s.slots[i := s.slots[i]] == s.slots;
          CallStep(s, s', c, i, s.slots[i], Zeroing(i));
        }
      case Zero(_) => CallStep(s, s', c, i, s.slots[i].(cpu := 0, cap := 0, share := 0), Unlimiting(i));
      case Unlimit(_) => CallStep(s, s', c, i, s.slots[i].(lim := 0), Installing(i));
      case Install(_) => CallStep(s, s', c, i, s.slots[i].(used := false, reserved := false), Limiting(i));
    }
  }

  lemma LimitKeeps(s: State, c: nat, lim: nat)
    requires Inv(s)
    ensures Inv(Next(s, Limit(c, lim)))
  {
    var s' := Next(s, Limit(c, lim));
    if s' != s {
      var i := s.calls[c].id;
      var s1 := Put(s, i, s.slots[i].(lim := lim));
      SlotStep(s, s1, i, s.slots[i].(lim := lim));
      QuietCall(s1, s', c, Returned(Some(i)));
    }
  }

  /** A change to a slot that keeps what everything relies on. */
  lemma SlotStep(s: State, s': State, i: nat, x: Slot)
    requires Inv(s) && i < |s.slots| && s' == Put(s, i, x)
    requires var o := s.slots[i];
             x.used == o.used && x.reserved == o.reserved && x.frames == o.frames && (o.reserved ==> x.cpu == o.cpu)
    ensures Inv(s')
  {
    forall d | d in s'.calls ensures CallOk(s', d) {
      assert CallOk(s, d);
    }
    forall d, e | d in s'.calls && e in s'.calls ensures CallsApart(s', d, e) {
      assert CallsApart(s, d, e);
    }
    forall p | p in s'.procs ensures ProcOk(s', p) {
      assert ProcOk(s, p);
    }
    forall j | 0 <= j < |s'.slots| ensures SlotOk(s', j) {
      assert SlotOk(s, j);
      OwnedSame(s, s', j);
    }
  }

  lemma PushKeeps(s: State, c: nat)
    requires Inv(s)
    ensures Inv(Next(s, Push(c)))
  {
    var s' := Next(s, Push(c));
    if s' != s {
      if |s.slots| >= MAX_CG {
        QuietCall(s, s', c, Returned(None));
      } else {
        forall d | d in s'.calls ensures CallOk(s', d) {
          if d != c { assert CallOk(s, d); }
        }
        forall d, e | d in s'.calls && e in s'.calls ensures CallsApart(s', d, e) {
          if d != c && e != c { assert CallsApart(s, d, e); }
        }
        forall p | p in s'.procs ensures ProcOk(s', p) {
          assert ProcOk(s, p);
        }
        forall j | 0 <= j < |s'.slots| ensures SlotOk(s', j) {
          if j < |s.slots| {
            assert SlotOk(s, j);
            OwnedSame(s, s', j);
          } else {
            assert Owned(s', j) == {};
          }
        }
      }
    }
  }

  /** A process comes to be in slot `i`, which is not reserved. */
  lemma JoinKeeps(s: State, s': State, pid: nat, i: nat)
    requires Inv(s) && i < |s.slots| && !s.slots[i].reserved
    requires s' == Put(s, i, s.slots[i].(used := true)).(procs := s.procs[pid := i])
    ensures Inv(s')
  {
    forall d | d in s'.calls ensures CallOk(s', d) {
      assert CallOk(s, d);
    }
    forall d, e | d in s'.calls && e in s'.calls ensures CallsApart(s', d, e) {
      assert CallsApart(s, d, e);
    }
    forall p | p in s'.procs ensures ProcOk(s', p) {
      if p != pid { assert ProcOk(s, p); }
    }
    forall j | 0 <= j < |s'.slots| ensures SlotOk(s', j) {
      assert SlotOk(s, j);
      OwnedSame(s, s', j);
    }
  }

  lemma ReapKeeps(s: State, pid: nat)
    requires Inv(s)
    ensures Inv(Next(s, Reap(pid)))
  {
    var s' := Next(s, Reap(pid));
    forall d | d in s'.calls ensures CallOk(s', d) {
      assert CallOk(s, d);
    }
    forall d, e | d in s'.calls && e in s'.calls ensures CallsApart(s', d, e) {
      assert CallsApart(s, d, e);
    }
    forall p | p in s'.procs ensures ProcOk(s', p) {
      assert ProcOk(s, p);
    }
    forall j | 0 <= j < |s'.slots| ensures SlotOk(s', j) {
      assert SlotOk(s, j);
      OwnedSame(s, s', j);
    }
  }

  /** The frame count of slot `i`, not held by a call past its probe, follows the owners. */
  lemma FramesKeep(s: State, s': State, i: nat, n: nat)
    requires Inv(s) && i < |s.slots| && s'.slots == s.slots[i := s.slots[i].(frames := n)] && s'.procs == s.procs
             && s'.calls == s.calls
    requires s.slots[i].reserved ==> n <= s.slots[i].frames
    requires n == |Owned(s', i)| && (forall j :: 0 <= j < |s.slots| && j != i ==> Owned(s', j) == Owned(s, j))
    requires forall f :: f in s'.owner ==> s'.owner[f] < |s.slots|
    ensures Inv(s')
  {
    forall d | d in s'.calls ensures CallOk(s', d) {
      assert CallOk(s, d);
    }
    forall d, e | d in s'.calls && e in s'.calls ensures CallsApart(s', d, e) {
      assert CallsApart(s, d, e);
    }
    forall p | p in s'.procs ensures ProcOk(s', p) {
      assert ProcOk(s, p);
    }
    forall j | 0 <= j < |s'.slots| ensures SlotOk(s', j) {
      assert SlotOk(s, j);
    }
  }

  lemma ChargeKeeps(s: State, pid: nat, frame: nat)
    requires Inv(s)
    ensures Inv(Next(s, Charge(pid, frame)))
  {
    var s' := Next(s, Charge(pid, frame));
    if s' != s {
      var i := s.procs[pid];
      assert ProcOk(s, pid) && SlotOk(s, i);
      assert Owned(s', i) == Owned(s, i) + {frame};
      forall j | 0 <= j < |s.slots| && j != i ensures Owned(s', j) == Owned(s, j) {
      }
      FramesKeep(s, s', i, s.slots[i].frames + 1);
    }
  }

  /** The count never saturates: a charged frame is counted. */
  lemma UnchargeKeeps(s: State, frame: nat)
    requires Inv(s)
    ensures Inv(Next(s, Uncharge(frame)))
  {
    var s' := Next(s, Uncharge(frame));
    if frame in s.owner {
      var i := s.owner[frame];
      assert SlotOk(s, i);
      assert frame in Owned(s, i);
      assert Owned(s, i) == Owned(s', i) + {frame};
      forall j | 0 <= j < |s.slots| && j != i ensures Owned(s', j) == Owned(s, j) {
      }
      FramesKeep(s, s', i, s.slots[i].frames - 1);
    }
  }

  lemma TickKeeps(s: State, pid: nat)
    requires Inv(s)
    ensures Inv(Next(s, Tick(pid)))
  {
    if pid in s.procs {
      var i := s.procs[pid];
      assert ProcOk(s, pid);
      SlotStep(s, Next(s, Tick(pid)), i, s.slots[i].(cpu := s.slots[i].cpu + 1));
    }
  }

  lemma StepKeeps(s: State, step: Step)
    requires Inv(s)
    ensures Inv(Next(s, step))
  {
    match step
    case Reserve(c) => ReserveKeeps(s, c);
    case Probe(_) => HolderKeeps(s, step);
    case Zero(_) => HolderKeeps(s, step);
    case Unlimit(_) => HolderKeeps(s, step);
    case Install(_) => HolderKeeps(s, step);
    case Limit(c, lim) => LimitKeeps(s, c, lim);
    case Push(c) => PushKeeps(s, c);
    case Enter(pid, id) =>
      if Next(s, step) != s { JoinKeeps(s, Next(s, step), pid, id); }
    case Fork(pid, child) =>
      if pid in s.procs { assert ProcOk(s, pid); }
      if Next(s, step) != s { JoinKeeps(s, Next(s, step), child, s.procs[pid]); }
    case Reap(pid) => ReapKeeps(s, pid);
    case Charge(pid, frame) => ChargeKeeps(s, pid, frame);
    case Uncharge(frame) => UnchargeKeeps(s, frame);
    case Tick(pid) => TickKeeps(s, pid);
    case SetCap(id, v) =>
      if id < |s.slots| { SlotStep(s, Next(s, step), id, s.slots[id].(cap := (if v < 100 then v else 100) + 1)); }
    case SetShare(id, v) =>
      if Next(s, step) != s { SlotStep(s, Next(s, step), id, s.slots[id].(share := v)); }
    case SetLim(id, v) =>
      if id < |s.slots| { SlotStep(s, Next(s, step), id, s.slots[id].(lim := v)); }
  }

  // ---- runs ----

  function Run(s: State, steps: seq<Step>): State
    decreases |steps|
  {
    if steps == [] then s else Next(Run(s, steps[..|steps| - 1]), steps[|steps| - 1])
  }

  lemma {:induction false} RunKeeps(s: State, steps: seq<Step>)
    requires Inv(s)
    ensures Inv(Run(s, steps))
    decreases |steps|
  {
    if steps != [] {
      RunKeeps(s, steps[..|steps| - 1]);
      StepKeeps(Run(s, steps[..|steps| - 1]), steps[|steps| - 1]);
    }
  }

  // ---- what a hand-out means, over the steps of the run ----

  /** The state before step `k`. */
  function Before(pids: set<nat>, steps: seq<Step>, k: nat): State
    requires k <= |steps|
  {
    Run(Initial(pids), steps[..k])
  }

  lemma BeforeNext(pids: set<nat>, steps: seq<Step>, k: nat)
    requires k < |steps|
    ensures Before(pids, steps, k + 1) == Next(Before(pids, steps, k), steps[k]) && Inv(Before(pids, steps, k))
  {
    assert steps[..k + 1][..k] == steps[..k];
    InitialInv(pids);
    RunKeeps(Initial(pids), steps[..k]);
  }

  /** The step hands slot `i` to the caller: a recycled one, or a new one at the end of the table. */
  predicate HandsOut(s: State, step: Step, i: nat) {
    match step
    case Install(c) => c in s.calls && s.calls[c] == Installing(i) && i < |s.slots| && s.slots[i].reserved
      && !Occupied(s, i)
    case Push(c) => c in s.calls && s.calls[c].Pushing? && i == |s.slots| < MAX_CG
    case _ => false
  }

  /** The step puts a process into slot `i`. */
  predicate Joins(s: State, step: Step, i: nat) {
    match step
    case Enter(pid, id) => id == i && pid in s.procs && i < |s.slots| && !s.slots[i].reserved
    case Fork(pid, child) => pid in s.procs && child !in s.procs && s.procs[pid] == i && i < |s.slots|
    case _ => false
  }

  /** The step sets a cap or a share of slot `i`. */
  predicate Sets(s: State, step: Step, i: nat) {
    match step
    case SetCap(id, _) => id == i && i < |s.slots|
    case SetShare(id, v) => id == i && i < |s.slots| && 1 <= v <= 1000
    case _ => false
  }

  predicate JoinedIn(pids: set<nat>, steps: seq<Step>, i: nat, j: nat, k: nat)
    requires k <= |steps|
  {
    exists m :: j <= m < k && Joins(Before(pids, steps, m), steps[m], i)
  }

  predicate SetIn(pids: set<nat>, steps: seq<Step>, i: nat, j: nat, k: nat)
    requires k <= |steps|
  {
    exists m :: j <= m < k && Sets(Before(pids, steps, m), steps[m], i)
  }

  lemma HandedUnused(pids: set<nat>, steps: seq<Step>, i: nat, k: nat)
    requires k < |steps| && HandsOut(Before(pids, steps, k), steps[k], i)
    ensures i < |Before(pids, steps, k + 1).slots| && !Before(pids, steps, k + 1).slots[i].used
  {
    BeforeNext(pids, steps, k);
  }

  lemma OnlyJoinsUse(s: State, step: Step, i: nat)
    requires i < |s.slots|
    ensures i < |Next(s, step).slots|
    ensures Next(s, step).slots[i].used ==> s.slots[i].used || Joins(s, step, i)
  {
  }

  lemma UsedStep(pids: set<nat>, steps: seq<Step>, i: nat, k: nat)
    requires k < |steps| && i < |Before(pids, steps, k).slots|
    ensures i < |Before(pids, steps, k + 1).slots|
    ensures Before(pids, steps, k + 1).slots[i].used ==>
              Before(pids, steps, k).slots[i].used || Joins(Before(pids, steps, k), steps[k], i)
  {
    BeforeNext(pids, steps, k);
    OnlyJoinsUse(Before(pids, steps, k), steps[k], i);
  }

  lemma JoinedMore(pids: set<nat>, steps: seq<Step>, i: nat, j: nat, k: nat)
    requires j <= k < |steps|
    requires JoinedIn(pids, steps, i, j, k) || Joins(Before(pids, steps, k), steps[k], i)
    ensures JoinedIn(pids, steps, i, j, k + 1)
  {
    if JoinedIn(pids, steps, i, j, k) {
      var m :| j <= m < k && Joins(Before(pids, steps, m), steps[m], i);
      assert j <= m < k + 1;
    }
  }

  /** Slot `i` is in use at `k` only if somebody joined it from `j` on. */
  predicate UsedOk(pids: set<nat>, steps: seq<Step>, i: nat, j: nat, k: nat)
    requires k <= |steps|
  {
    i < |Before(pids, steps, k).slots| && (Before(pids, steps, k).slots[i].used ==> JoinedIn(pids, steps, i, j, k))
  }

  lemma UsedMore(pids: set<nat>, steps: seq<Step>, i: nat, j: nat, k: nat)
    requires j <= k < |steps| && UsedOk(pids, steps, i, j, k)
    ensures UsedOk(pids, steps, i, j, k + 1)
  {
    UsedStep(pids, steps, i, k);
    if Before(pids, steps, k + 1).slots[i].used {
      JoinedMore(pids, steps, i, j, k);
    }
  }

  lemma {:induction false} UsedLater(pids: set<nat>, steps: seq<Step>, i: nat, j: nat, k: nat)
    requires j <= k <= |steps| && UsedOk(pids, steps, i, j, j)
    ensures UsedOk(pids, steps, i, j, k)
  {
    if j < k {
      UsedLater(pids, steps, i, j, k - 1);
      UsedMore(pids, steps, i, j, k - 1);
    }
  }

  /** Slot `i` is in use at `k` only if somebody joined it since it was handed out. */
  lemma UsedMeansJoined(pids: set<nat>, steps: seq<Step>, i: nat, j: nat, k: nat)
    requires j < k <= |steps| && HandsOut(Before(pids, steps, j), steps[j], i)
    ensures UsedOk(pids, steps, i, j + 1, k)
  {
    HandedUnused(pids, steps, i, j);
    UsedLater(pids, steps, i, j + 1, k);
  }

  /** A slot is never handed out twice without a process having joined it in between: a group made and
      not yet entered is nobody else's. */
  lemma JoinedBetween(pids: set<nat>, steps: seq<Step>, i: nat, j: nat, k: nat)
    requires j < k < |steps|
    requires HandsOut(Before(pids, steps, j), steps[j], i) && HandsOut(Before(pids, steps, k), steps[k], i)
    ensures JoinedIn(pids, steps, i, j + 1, k)
  {
    UsedMeansJoined(pids, steps, i, j, k);
    BeforeNext(pids, steps, k);
    var s := Before(pids, steps, k);
    if steps[k].Install? {
      assert CallOk(s, steps[k].c);
    }
  }

  /** Past its zeroing a call goes forward: it still holds the slot, or it has let it go for good. */
  predicate ZeroedOrDone(s: State, c: nat, i: nat) {
    c in s.calls
    && (s.calls[c] == Unlimiting(i) || s.calls[c] == Installing(i)
        || s.calls[c].Limiting? || s.calls[c].Pushing? || s.calls[c].Returned?)
  }

  predicate Holds(s: State, c: nat, i: nat) {
    c in s.calls && (s.calls[c] == Unlimiting(i) || s.calls[c] == Installing(i)) && i < |s.slots|
  }

  predicate Bare(s: State, i: nat)
    requires i < |s.slots|
  {
    s.slots[i].cap == 0 && s.slots[i].share == 0
  }

  lemma GoesForward(s: State, step: Step, c: nat, i: nat)
    requires ZeroedOrDone(s, c, i)
    ensures ZeroedOrDone(Next(s, step), c, i) && (Holds(Next(s, step), c, i) && Inv(s) ==> Holds(s, c, i))
  {
    if Holds(Next(s, step), c, i) && Inv(s) {
      assert CallOk(s, c);
    }
  }

  lemma ZeroBares(s: State, c: nat, i: nat)
    requires Inv(s) && c in s.calls && s.calls[c] == Zeroing(i)
    ensures var s' := Next(s, Zero(c)); ZeroedOrDone(s', c, i) && Holds(s', c, i) && Bare(s', i)
  {
    assert CallOk(s, c);
  }

  /** While `c` holds slot `i`, nothing but a setter touches its cap and share. */
  lemma BareStep(s: State, step: Step, c: nat, i: nat)
    requires Inv(s) && Holds(s, c, i) && Holds(Next(s, step), c, i)
    ensures Bare(Next(s, step), i) <==> Bare(s, i) && !Sets(s, step, i)
  {
    if step.Zero? && step.c in s.calls && step.c != c {
      assert CallsApart(s, step.c, c);
    }
  }

  lemma BareAt(pids: set<nat>, steps: seq<Step>, c: nat, i: nat, k: nat)
    requires k < |steps| && ZeroedOrDone(Before(pids, steps, k), c, i)
    ensures var s, s' := Before(pids, steps, k), Before(pids, steps, k + 1);
            && ZeroedOrDone(s', c, i) && (Holds(s', c, i) ==> Holds(s, c, i))
            && (Holds(s', c, i) ==> (Bare(s', i) <==> Bare(s, i) && !Sets(s, steps[k], i)))
  {
    BeforeNext(pids, steps, k);
    var s := Before(pids, steps, k);
    GoesForward(s, steps[k], c, i);
    if Holds(Next(s, steps[k]), c, i) {
      BareStep(s, steps[k], c, i);
    }
  }

  lemma BareAfterZero(pids: set<nat>, steps: seq<Step>, c: nat, i: nat, z: nat)
    requires z < |steps| && steps[z] == Zero(c)
    requires var s := Before(pids, steps, z); c in s.calls && s.calls[c] == Zeroing(i)
    ensures var s' := Before(pids, steps, z + 1); ZeroedOrDone(s', c, i) && Holds(s', c, i) && Bare(s', i)
  {
    BeforeNext(pids, steps, z);
    ZeroBares(Before(pids, steps, z), c, i);
  }

  lemma SetInMore(pids: set<nat>, steps: seq<Step>, i: nat, j: nat, k: nat)
    requires j <= k < |steps|
    ensures SetIn(pids, steps, i, j, k + 1) <==>
            SetIn(pids, steps, i, j, k) || Sets(Before(pids, steps, k), steps[k], i)
  {
    if m :| j <= m < k && Sets(Before(pids, steps, m), steps[m], i) {
      assert j <= m < k + 1;
    }
    if m :| j <= m < k + 1 && Sets(Before(pids, steps, m), steps[m], i) {
      if m < k {
        assert SetIn(pids, steps, i, j, k);
      }
    }
  }

  /** While call `c` holds slot `i` it is bare unless a setter has been at it from `j` on. */
  predicate BareOk(pids: set<nat>, steps: seq<Step>, c: nat, i: nat, j: nat, k: nat)
    requires k <= |steps|
  {
    var s := Before(pids, steps, k);
    ZeroedOrDone(s, c, i) && (Holds(s, c, i) ==> (Bare(s, i) <==> !SetIn(pids, steps, i, j, k)))
  }

  lemma BareMore(pids: set<nat>, steps: seq<Step>, c: nat, i: nat, j: nat, k: nat)
    requires j <= k < |steps| && BareOk(pids, steps, c, i, j, k)
    ensures BareOk(pids, steps, c, i, j, k + 1)
  {
    BareAt(pids, steps, c, i, k);
    SetInMore(pids, steps, i, j, k);
  }

  lemma {:induction false} BareLater(pids: set<nat>, steps: seq<Step>, c: nat, i: nat, j: nat, k: nat)
    requires j <= k <= |steps| && BareOk(pids, steps, c, i, j, j)
    ensures BareOk(pids, steps, c, i, j, k)
  {
    if j < k {
      BareLater(pids, steps, c, i, j, k - 1);
      BareMore(pids, steps, c, i, j, k - 1);
    }
  }

  lemma BareExactly(pids: set<nat>, steps: seq<Step>, c: nat, i: nat, z: nat, k: nat)
    requires z < k <= |steps| && steps[z] == Zero(c)
    requires var s := Before(pids, steps, z); c in s.calls && s.calls[c] == Zeroing(i)
    ensures BareOk(pids, steps, c, i, z + 1, k)
  {
    BareAfterZero(pids, steps, c, i, z);
    BareLater(pids, steps, c, i, z + 1, k);
  }

  predicate Zeroed(s: State, c: nat, i: nat) {
    c in s.calls && (s.calls[c] == Unlimiting(i) || s.calls[c] == Installing(i))
  }

  lemma ZeroedStep(s: State, step: Step, c: nat, i: nat)
    requires Zeroed(Next(s, step), c, i) && !Zeroed(s, c, i)
    ensures step == Zero(c) && c in s.calls && s.calls[c] == Zeroing(i)
  {
  }

  /** A call about to install has zeroed its slot before. */
  lemma ZeroedBefore(pids: set<nat>, steps: seq<Step>, c: nat, i: nat, k: nat) returns (z: nat)
    requires k <= |steps| && Zeroed(Before(pids, steps, k), c, i)
    ensures z < k && steps[z] == Zero(c)
    ensures var s := Before(pids, steps, z); c in s.calls && s.calls[c] == Zeroing(i)
  {
    assert !Zeroed(Before(pids, steps, 0), c, i);
    z := k - 1;
    while Zeroed(Before(pids, steps, z), c, i)
      invariant z < k && Zeroed(Before(pids, steps, z + 1), c, i)
      decreases z
    {
      z := z - 1;
    }
    ZeroedAt(pids, steps, c, i, z);
  }

  lemma ZeroedAt(pids: set<nat>, steps: seq<Step>, c: nat, i: nat, z: nat)
    requires z < |steps| && Zeroed(Before(pids, steps, z + 1), c, i) && !Zeroed(Before(pids, steps, z), c, i)
    ensures steps[z] == Zero(c)
    ensures var s := Before(pids, steps, z); c in s.calls && s.calls[c] == Zeroing(i)
  {
    BeforeNext(pids, steps, z);
    ZeroedStep(Before(pids, steps, z), steps[z], c, i);
  }

  /** In every run a slot is handed out again with nobody in it, no frames charged and no processor
      time, and neither fallback of the third phase is taken; and it has no cap and no share if and only
      if none was set since this call zeroed it, at step `z`. */
  lemma HandedOutFit(pids: set<nat>, steps: seq<Step>, c: nat, k: nat) returns (z: nat)
    requires k < |steps| && steps[k] == Install(c)
    requires var s := Before(pids, steps, k); c in s.calls && s.calls[c].Installing?
    ensures var i := Before(pids, steps, k).calls[c].id; var s' := Before(pids, steps, k + 1);
            && HandsOut(Before(pids, steps, k), steps[k], i) && c in s'.calls && s'.calls[c] == Limiting(i)
              && 0 < i < |s'.slots|
            && !Occupied(s', i) && s'.slots[i].frames == 0 && s'.slots[i].cpu == 0
            && !s'.slots[i].used && !s'.slots[i].reserved
    ensures var i := Before(pids, steps, k).calls[c].id;
            && z < k && steps[z] == Zero(c) && c in Before(pids, steps, z).calls
            && Before(pids, steps, z).calls[c] == Zeroing(i)
            && (Bare(Before(pids, steps, k + 1), i) <==> !SetIn(pids, steps, i, z + 1, k))
  {
    BeforeNext(pids, steps, k);
    var s := Before(pids, steps, k);
    assert CallOk(s, c);
    RecheckNeverFails(s, c);
    var i := s.calls[c].id;
    z := ZeroedBefore(pids, steps, c, i, k);
    BareExactly(pids, steps, c, i, z, k);
  }

  /** Two calls never hold the same slot. */
  lemma OneHolder(pids: set<nat>, steps: seq<Step>, c: nat, d: nat)
    requires var s := Run(Initial(pids), steps); c in s.calls && d in s.calls && c != d
    ensures var s := Run(Initial(pids), steps);
            Holding(s.calls[c]).Some? ==> Holding(s.calls[c]) != Holding(s.calls[d])
  {
    InitialInv(pids);
    RunKeeps(Initial(pids), steps);
    assert CallsApart(Run(Initial(pids), steps), c, d);
  }

  // ---- what is not zeroed ----

  lemma RunMore(s0: State, steps: seq<Step>, s: State, step: Step, s': State) returns (more: seq<Step>)
    requires Run(s0, steps) == s && Next(s, step) == s'
    ensures more == steps + [step] && Run(s0, more) == s'
  {
    more := steps + [step];
    assert more[..|steps|] == steps;
  }

  const ONCE: Slot := FRESH.(used := true)
  const HELD: Slot := ONCE.(reserved := true)
  const SHARED: Slot := HELD.(share := 500)
  const DONE: map<nat, Phase> := map[1 := Returned(Some(1))]

  /** Two groups, process 7 in group `at`, `calls` under way. */
  function Two(a: Slot, b: Slot, at: nat, calls: map<nat, Phase>): State {
    State([a, b], map[7 := at], map[], calls)
  }

  lemma Made() returns (steps: seq<Step>)
    ensures |steps| == 3 && Run(Initial({7}), steps) == Two(FRESH, FRESH, 0, DONE)
  {
    var s0 := State([FRESH], map[7 := 0], map[], map[]);
    assert Initial({7}) == s0 && Run(s0, []) == s0;
    var s1 := State([FRESH], map[7 := 0], map[], map[1 := Pushing]);
    steps := RunMore(s0, [], s0, Reserve(1), s1);
    var s2 := Two(FRESH, FRESH, 0, map[1 := Limiting(1)]);
    steps := RunMore(s0, steps, s1, Push(1), s2);
    var s3 := Two(FRESH, FRESH, 0, DONE);
    steps := RunMore(s0, steps, s2, Limit(1, 0), s3);
  }

  lemma EnterIs(a: Slot, b: Slot, at: nat, calls: map<nat, Phase>, to: nat)
    requires to < 2 && !a.reserved && !b.reserved
    ensures Next(Two(a, b, at, calls), Enter(7, to)) ==
            if to == 0 then Two(a.(used := true), b, 0, calls) else Two(a, b.(used := true), 1, calls)
  {
  }

  /** Group 1 is made, entered by process 7 and left again. */
  lemma MadeAndLeft() returns (steps: seq<Step>)
    ensures |steps| == 5 && Run(Initial({7}), steps) == Two(ONCE, ONCE, 0, DONE)
  {
    var s0 := Initial({7});
    steps := Made();
    EnterIs(FRESH, FRESH, 0, DONE, 1);
    EnterIs(FRESH, ONCE, 1, DONE, 0);
    steps := RunMore(s0, steps, Two(FRESH, FRESH, 0, DONE), Enter(7, 1), Two(FRESH, ONCE, 1, DONE));
    steps := RunMore(s0, steps, Two(FRESH, ONCE, 1, DONE), Enter(7, 0), Two(ONCE, ONCE, 0, DONE));
  }

  lemma ReserveIs()
    ensures Next(Two(ONCE, ONCE, 0, DONE), Reserve(2)) == Two(ONCE, HELD, 0, DONE[2 := Probing(1)])
  {
    var s := Two(ONCE, ONCE, 0, DONE);
    assert !Occupied(s, 1) && Reusable(s, 1) && FirstReusable(s, 1) == Some(1);
  }

  lemma InstallIs(b: Slot)
    requires b.reserved
    ensures Next(Two(ONCE, b, 0, DONE[2 := Installing(1)]), Install(2))
            == Two(ONCE, b.(used := false, reserved := false), 0, DONE[2 := Limiting(1)])
  {
    assert !Occupied(Two(ONCE, b, 0, DONE[2 := Installing(1)]), 1);
  }

  lemma Reserved() returns (steps: seq<Step>)
    ensures |steps| == 6 && Run(Initial({7}), steps) == Two(ONCE, HELD, 0, DONE[2 := Probing(1)])
  {
    steps := MadeAndLeft();
    ReserveIs();
    steps := RunMore(Initial({7}), steps, Two(ONCE, ONCE, 0, DONE), Reserve(2),
      Two(ONCE, HELD, 0, DONE[2 := Probing(1)]));
  }

  /** It is recycled by call 2. */
  lemma Recycled() returns (steps: seq<Step>)
    ensures |steps| == 8 && Run(Initial({7}), steps) == Two(ONCE, HELD, 0, DONE[2 := Unlimiting(1)])
  {
    var s0 := Initial({7});
    steps := Reserved();
    var s1, s2 := Two(ONCE, HELD, 0, DONE[2 := Probing(1)]), Two(ONCE, HELD, 0, DONE[2 := Zeroing(1)]);
    steps := RunMore(s0, steps, s1, Probe(2), s2);
    steps := RunMore(s0, steps, s2, Zero(2), Two(ONCE, HELD, 0, DONE[2 := Unlimiting(1)]));
  }

  /** While it is, somebody sets its share: the slot is handed out with a share of 500.
      `cg_set_share`, like `cg_set_cpu`, asks only whether the slot exists. */
  lemma HandedOutTouched() returns (steps: seq<Step>, s: State)
    ensures s == Run(Initial({7}), steps) && |steps| == 11 && steps[8] == SetShare(1, 500)
    ensures |s.slots| == 2 && 2 in s.calls && s.calls[2] == Limiting(1) && s.slots[1].share == 500
  {
    var s0 := Initial({7});
    steps := Recycled();
    var s3 := Two(ONCE, SHARED, 0, DONE[2 := Unlimiting(1)]);
    steps := RunMore(s0, steps, Two(ONCE, HELD, 0, DONE[2 := Unlimiting(1)]), SetShare(1, 500), s3);
    var s4 := Two(ONCE, SHARED, 0, DONE[2 := Installing(1)]);
    steps := RunMore(s0, steps, s3, Unlimit(2), s4);
    InstallIs(SHARED);
    s := Two(ONCE, SHARED.(used := false, reserved := false), 0, DONE[2 := Limiting(1)]);
    steps := RunMore(s0, steps, s4, Install(2), s);
  }
}
