/** What a call of `cgcreate` comes to, and why, in every run. */
module CgroupOutcome {
  import opened Wrappers
  import opened CgroupRecycle

  predicate IsIn(s: State, c: nat, ph: Phase) {
    c in s.calls && s.calls[c] == ph
  }

  lemma StartsIdle(pids: set<nat>, steps: seq<Step>)
    ensures Before(pids, steps, 0).calls == map[]
  {
    assert steps[..0] == [];
  }

  /** The step after which call `c` is in phase `ph`. */
  lemma {:induction false} Began(pids: set<nat>, steps: seq<Step>, c: nat, ph: Phase, k: nat) returns (z: nat)
    requires k <= |steps| && IsIn(Before(pids, steps, k), c, ph)
    ensures z < k && IsIn(Before(pids, steps, z + 1), c, ph) && !IsIn(Before(pids, steps, z), c, ph)
    ensures Inv(Before(pids, steps, z)) && Before(pids, steps, z + 1) == Next(Before(pids, steps, z), steps[z])
    decreases k
  {
    StartsIdle(pids, steps);
    if k == 0 {
      assert false;
    } else if IsIn(Before(pids, steps, k - 1), c, ph) {
      z := Began(pids, steps, c, ph, k - 1);
    } else {
      z := k - 1;
      BeforeNext(pids, steps, z);
    }
  }

  /** The step is the reservation of call `c`, which takes the first group that can be reused. */
  predicate Takes(s: State, step: Step, c: nat, i: nat) {
    step == Reserve(c) && c !in s.calls && 0 < i < |s.slots| && Reusable(s, i) && NoneReusable(s, 1, i)
  }

  /** ... or finds none. */
  predicate FindsNone(s: State, step: Step, c: nat) {
    step == Reserve(c) && c !in s.calls && NoneReusable(s, 1, |s.slots|)
  }

  /** The step finds frames still charged to the group `i` that call `c` has reserved. */
  predicate FindsFrames(s: State, step: Step, c: nat, i: nat) {
    step == Probe(c) && IsIn(s, c, Probing(i)) && i < |s.slots| && s.slots[i].frames != 0
  }

  lemma ToProbing(s: State, step: Step, c: nat, i: nat)
    requires IsIn(Next(s, step), c, Probing(i)) && !IsIn(s, c, Probing(i))
    ensures Takes(s, step, c, i)
  {
  }

  lemma ToPushing(s: State, step: Step, c: nat)
    requires Inv(s) && IsIn(Next(s, step), c, Pushing) && !IsIn(s, c, Pushing)
    ensures FindsNone(s, step, c) || (IsIn(s, c, if c in s.calls then s.calls[c] else Pushing) && s.calls[c].Probing?
                                      && FindsFrames(s, step, c, s.calls[c].id))
  {
    if step == Install(c) {
      RecheckNeverFails(s, c);
    }
  }

  /** Why call `c`, at step `k`, is to make a new group: at step `r` it found no group to reuse, or at step `p`
      it found frames charged to the one it had reserved, the first there was. */
  ghost predicate Because(pids: set<nat>, steps: seq<Step>, c: nat, r: nat, p: nat, k: nat)
    requires k <= |steps|
  {
    && r <= p < k
    && (FindsNone(Before(pids, steps, r), steps[r], c)
        || exists i: nat :: Takes(Before(pids, steps, r), steps[r], c, i)
                            && FindsFrames(Before(pids, steps, p), steps[p], c, i))
  }

  /** A call makes a new group only if no group could be reused when it looked, or the first that could be
      still had frames charged. */
  lemma NewOnlyIfNone(pids: set<nat>, steps: seq<Step>, c: nat, k: nat) returns (r: nat, p: nat)
    requires k <= |steps| && IsIn(Before(pids, steps, k), c, Pushing)
    ensures Because(pids, steps, c, r, p, k)
  {
    p := Began(pids, steps, c, Pushing, k);
    var s := Before(pids, steps, p);
    ToPushing(s, steps[p], c);
    if FindsNone(s, steps[p], c) {
      r := p;
    } else {
      var i := s.calls[c].id;
      r := Began(pids, steps, c, Probing(i), p);
      ToProbing(Before(pids, steps, r), steps[r], c, i);
    }
  }

  lemma ToNone(s: State, step: Step, c: nat)
    requires Inv(s) && IsIn(Next(s, step), c, Returned(None)) && !IsIn(s, c, Returned(None))
    ensures step == Push(c) && IsIn(s, c, Pushing) && |s.slots| == MAX_CG
  {
  }

  /** A call fails only with the table full, and only if no group could be reused when it looked, or the first
      that could be still had frames charged. */
  lemma FailsOnlyIfFull(pids: set<nat>, steps: seq<Step>, c: nat, k: nat) returns (r: nat, p: nat, q: nat)
    requires k <= |steps| && IsIn(Before(pids, steps, k), c, Returned(None))
    ensures q < k && steps[q] == Push(c) && |Before(pids, steps, q).slots| == MAX_CG
    ensures Because(pids, steps, c, r, p, q)
  {
    q := Began(pids, steps, c, Returned(None), k);
    ToNone(Before(pids, steps, q), steps[q], c);
    r, p := NewOnlyIfNone(pids, steps, c, q);
  }

  // ---- the limit ----

  lemma ToLimiting(s: State, step: Step, c: nat, i: nat)
    requires Inv(s) && IsIn(Next(s, step), c, Limiting(i)) && !IsIn(s, c, Limiting(i))
    ensures (step == Install(c) || step == Push(c)) && HandsOut(s, step, i)
  {
    if step == Install(c) {
      RecheckNeverFails(s, c);
    }
  }

  predicate HasLimit(s: State, i: nat, lim: nat) {
    i < |s.slots| && s.slots[i].lim == lim
  }

  lemma ToSome(s: State, step: Step, c: nat, i: nat)
    requires Inv(s) && IsIn(Next(s, step), c, Returned(Some(i))) && !IsIn(s, c, Returned(Some(i)))
    ensures step.Limit? && step.c == c && IsIn(s, c, Limiting(i)) && i < |s.slots|
    ensures HasLimit(Next(s, step), i, step.lim)
  {
  }

  /** The step changes the limit of group `i`. */
  predicate Relimits(s: State, step: Step, i: nat) {
    match step
    case SetLim(id, _) => id == i
    case Limit(d, _) => IsIn(s, d, Limiting(i))
    case Unlimit(d) => IsIn(s, d, Unlimiting(i))
    case _ => false
  }

  lemma LimStep(s: State, step: Step, i: nat)
    requires i < |s.slots| && !Relimits(s, step, i)
    ensures i < |Next(s, step).slots| && Next(s, step).slots[i].lim == s.slots[i].lim
  {
  }

  /** No step from `j` on and before `k` changes the limit of group `i`. */
  predicate Unchanged(pids: set<nat>, steps: seq<Step>, i: nat, j: nat, k: nat)
    requires k <= |steps|
  {
    forall m {:trigger steps[m]} :: j <= m < k ==> !Relimits(Before(pids, steps, m), steps[m], i)
  }

  lemma {:induction false} LimLater(pids: set<nat>, steps: seq<Step>, i: nat, j: nat, k: nat, lim: nat)
    requires j <= k <= |steps| && HasLimit(Before(pids, steps, j), i, lim) && Unchanged(pids, steps, i, j, k)
    ensures HasLimit(Before(pids, steps, k), i, lim)
    decreases k
  {
    if j < k {
      LimLater(pids, steps, i, j, k - 1, lim);
      BeforeNext(pids, steps, k - 1);
      assert !Relimits(Before(pids, steps, k - 1), steps[k - 1], i);
      LimStep(Before(pids, steps, k - 1), steps[k - 1], i);
    }
  }

  /** The step hands group `i` to call `c`. */
  predicate HandsTo(s: State, step: Step, c: nat, i: nat) {
    HandsOut(s, step, i) && (step == Install(c) || step == Push(c))
  }

  /** The step gives group `i` the limit that call `c` was called with. */
  predicate Limits(s: State, step: Step, c: nat, i: nat) {
    step.Limit? && step.c == c && IsIn(s, c, Limiting(i))
  }

  /** A call about to set the limit of a group was handed that group. */
  lemma LimitingSince(pids: set<nat>, steps: seq<Step>, c: nat, i: nat, k: nat) returns (h: nat)
    requires k <= |steps| && IsIn(Before(pids, steps, k), c, Limiting(i))
    ensures h < k && HandsTo(Before(pids, steps, h), steps[h], c, i)
  {
    h := Began(pids, steps, c, Limiting(i), k);
    ToLimiting(Before(pids, steps, h), steps[h], c, i);
  }

  lemma LimitKept(pids: set<nat>, steps: seq<Step>, i: nat, j: nat, k: nat, lim: nat)
    requires j <= k <= |steps| && HasLimit(Before(pids, steps, j), i, lim)
    ensures Unchanged(pids, steps, i, j, k) ==> HasLimit(Before(pids, steps, k), i, lim)
  {
    if Unchanged(pids, steps, i, j, k) {
      LimLater(pids, steps, i, j, k, lim);
    }
  }

  /** A call that has returned group `i` gave it the limit it was called with, at step `z`, after the group was
      handed to it (`LimitingSince`); until somebody sets another, that is the group's limit. */
  lemma HasItsLimit(pids: set<nat>, steps: seq<Step>, c: nat, i: nat, k: nat) returns (z: nat)
    requires k <= |steps| && IsIn(Before(pids, steps, k), c, Returned(Some(i)))
    ensures z < k && Limits(Before(pids, steps, z), steps[z], c, i)
    ensures HasLimit(Before(pids, steps, z + 1), i, steps[z].lim)
    ensures Unchanged(pids, steps, i, z + 1, k) ==> HasLimit(Before(pids, steps, k), i, steps[z].lim)
  {
    z := Began(pids, steps, c, Returned(Some(i)), k);
    ToSome(Before(pids, steps, z), steps[z], c, i);
    LimitKept(pids, steps, i, z + 1, k, steps[z].lim);
  }

  /** A charge is refused exactly when the process's group has a limit and has reached it. */
  lemma ChargedWithin(pids: set<nat>, steps: seq<Step>, pid: nat, frame: nat, k: nat)
    requires k < |steps| && steps[k] == Charge(pid, frame)
    requires pid in Before(pids, steps, k).procs && frame !in Before(pids, steps, k).owner
    ensures var s, s' := Before(pids, steps, k), Before(pids, steps, k + 1);
            var i := s.procs[pid];
            && i < |s.slots| == |s'.slots|
            && if s.slots[i].lim != 0 && |Owned(s, i)| >= s.slots[i].lim then s' == s
               else frame in s'.owner && s'.owner[frame] == i && |Owned(s', i)| == |Owned(s, i)| + 1
  {
    BeforeNext(pids, steps, k);
    var s := Before(pids, steps, k);
    assert ProcOk(s, pid) && SlotOk(s, s.procs[pid]);
    StepKeeps(s, steps[k]);
    assert SlotOk(Before(pids, steps, k + 1), s.procs[pid]);
  }
}
