/** A run whose next mount shows everything, and which loses a completed block one mount later, step
    by step. */
module JournalLateRun {
  // The ring has 203 slots.  The oldest record is one of block 7 that the last recovery wrote; the two after it
  // are the superblock, clear and then set; the other 200 are a full chunk of one call, all of block 7.

  import opened JournalDisk
  import opened JournalRing
  import opened JournalWindow
  import opened JournalRun
  import opened JournalMachine
  import opened JournalDurable
  import opened JournalSpared
  import opened JournalRuns
  import opened JournalStale
  import opened JournalInterrupted
  import opened JournalValveRun

  const TURN: nat := 203

  predicate Row(d: Disk, i: nat, e: nat, x: nat, t: nat, v: Data) {
    Formed(d) && |d.heads| == TURN && i < TURN && d.heads[i] == Noted(e, x, t, v) && d.bodies[i] == v
  }

  /** On the device: header, superblock with the flag set, the blocks. */
  predicate Base(d: Disk, sb: Data, seven: Data) {
    && Formed(d) && |d.heads| == TURN && d.hdr == Header(1)
    && d.home == map[0 := sb, 7 := seven, 9 := ZERO]
  }

  lemma SlotIs(q: nat, i: nat)
    requires (q == i || q == TURN + i || q == 2 * TURN + i) && i < TURN
    ensures Slot(q, TURN) == i
  {
    SlotIsMod(q, TURN);
  }

  // ---- the first mount ----

  predicate Recovered203(s: Machine, sb: Data, k: nat) {
    && s.phase == Recovering(k) && s.mem == Mem(1, k + 1, 0, 0, 0, 1)
    && Base(s.disk, sb, if k == 0 then ZERO else EARLIER)
    && (k > 0 ==> Row(s.disk, Slot(k, TURN), k, 7, 0, EARLIER))
  }

  lemma {:induction false} LongRebuild(sb: Data, k: nat) returns (ss: seq<Machine>, aa: seq<Spec>, es: seq<Event>)
    requires Dirty(sb)
    ensures IsRun(TURN, ss, aa, es) && Recovered203(ss[|es|], sb, k) && aa[|es|] == Spec(ss[|es|].disk.home, [])
  {
    if k == 0 {
      ss, aa, es := PowerOnBlank(TURN, sb);
    } else {
      ss, aa, es := LongRebuild(sb, k - 1);
      ss, aa, es := ExtendWrite(TURN, ss, aa, es, 7, EARLIER);
    }
  }

  /** The three oldest records of the ring, from when the mount is over. */
  predicate Oldest(d: Disk, sb: Data) {
    && Row(d, 0, 203, 7, 0, EARLIER) && Row(d, 1, 204, 0, 0, Clean(sb)) && Row(d, 2, 205, 0, 0, sb)
  }

  predicate Ready(s: Machine, sb: Data) {
    s.phase == Running && s.mem == Mem(1, 206, 0, 0, 0, 1) && Base(s.disk, sb, EARLIER) && Oldest(s.disk, sb)
  }

  predicate Clears(s: Machine, sb: Data) {
    && s.phase == Cleared && s.mem == Mem(1, 205, 0, 0, 0, 1) && Base(s.disk, Clean(sb), EARLIER)
    && Row(s.disk, 0, 203, 7, 0, EARLIER) && Row(s.disk, 1, 204, 0, 0, Clean(sb))
  }

  lemma FlagClears203(s: Machine, sb: Data)
    requires Recovered203(s, sb, 203)
    ensures CanStart(TURN, s, WriteBlock(0, Clean(sb))) && Clears(Recorded(TURN, s, 0, Clean(sb)), sb)
  {
    SlotIs(203, 0);
    SlotIs(204, 1);
  }

  lemma FlagSets203(s: Machine, sb: Data)
    requires Clears(s, sb) && Dirty(sb)
    ensures CanStart(TURN, s, WriteBlock(0, sb)) && Ready(Recorded(TURN, s, 0, sb), sb)
  {
    SlotIs(205, 2);
  }

  lemma LongMount(sb: Data) returns (ss: seq<Machine>, aa: seq<Spec>, es: seq<Event>)
    requires Dirty(sb)
    ensures IsRun(TURN, ss, aa, es) && Ready(ss[|es|], sb) && aa[|es|] == Spec(ss[|es|].disk.home, [])
  {
    ss, aa, es := LongRebuild(sb, 203);
    FlagClears203(ss[|es|], sb);
    ss, aa, es := ExtendWrite(TURN, ss, aa, es, 0, Clean(sb));
    FlagSets203(ss[|es|], sb);
    ss, aa, es := ExtendWrite(TURN, ss, aa, es, 0, sb);
  }

  // ---- one long call ----

  predicate OfCall(d: Disk, i: nat) {
    Row(d, i, TURN + i, 7, 1, LATER)
  }

  /** Slots [3, 3 + j) hold the first `j` records of the call. */
  predicate Chunk(d: Disk, j: nat) {
    forall i :: 3 <= i < 3 + j ==> OfCall(d, i)
  }

  predicate InCall(s: Machine, sb: Data, j: nat) {
    && s.phase == Running && s.mem == Mem(1, 206 + j, 1, 1, j, 2)
    && Base(s.disk, sb, if j == 0 then EARLIER else LATER) && Oldest(s.disk, sb) && Chunk(s.disk, j)
  }

  predicate Promised(a: Spec, sb: Data, j: nat) {
    a.done == map[0 := sb, 7 := EARLIER, 9 := ZERO] && (forall w :: w in a.open ==> w == (7, LATER))
    && (j > 0 ==> (7, LATER) in a.open)
  }

  lemma CallGoesOn(s: Machine, sb: Data, j: nat)
    requires InCall(s, sb, j) && j < 200
    ensures InCall(Recorded(TURN, s, 7, LATER), sb, j + 1)
  {
    SlotIs(206 + j, 3 + j);
    var d := Recorded(TURN, s, 7, LATER).disk;
    forall i | 3 <= i < 3 + (j + 1) ensures OfCall(d, i) {
      if i < 3 + j { assert OfCall(s.disk, i); }
    }
  }

  lemma PromiseGrows(a: Spec, sb: Data, j: nat)
    requires Promised(a, sb, j)
    ensures Promised(a.(open := a.open + [(7, LATER)]), sb, j + 1)
  {
    assert (a.open + [(7, LATER)])[|a.open|] == (7, LATER);
  }

  lemma {:induction false} CallRuns(sb: Data, j: nat) returns (ss: seq<Machine>, aa: seq<Spec>, es: seq<Event>)
    requires Dirty(sb) && j <= 200
    ensures IsRun(TURN, ss, aa, es) && InCall(ss[|es|], sb, j) && Promised(aa[|es|], sb, j)
  {
    if j == 0 {
      ss, aa, es := LongMount(sb);
      ss, aa, es := Extend(TURN, ss, aa, es, Do(Begin), ss[|es|].(mem := Mem(1, 206, 1, 1, 0, 2)));
    } else {
      ss, aa, es := CallRuns(sb, j - 1);
      CallGoesOn(ss[|es|], sb, j - 1);
      PromiseGrows(aa[|es|], sb, j - 1);
      ss, aa, es := ExtendWrite(TURN, ss, aa, es, 7, LATER);
    }
  }

  // ---- the cut, and the next mount ----

  /** The commit record is down, over the clear superblock, and the record before it is not. */
  predicate CutShort(d: Disk, sb: Data) {
    && Base(d, sb, LATER) && Row(d, 0, 203, 7, 0, EARLIER) && Row(d, 2, 205, 0, 0, sb) && Chunk(d, 200)
    && d.heads[1] == ComHead(1, 407, 1, 200, CommitCrc(1, 200))
  }

  lemma CutsShort(s: Machine, sb: Data) returns (c: Machine)
    requires InCall(s, sb, 200)
    ensures |OpWrites(s.mem, TURN, WriteBlock(7, LATER))| == 5
    ensures c == Dropped(TURN, s, WriteBlock(7, LATER), 2) && c.phase.Off? && CutShort(c.disk, sb)
  {
    SlotIs(407, 1);
    ValveCutDisk(s.disk, s.mem, TURN, 7, LATER, 2);
    c := Dropped(TURN, s, WriteBlock(7, LATER), 2);
    forall i | 3 <= i < 3 + 200 ensures OfCall(c.disk, i) {
      assert OfCall(s.disk, i);
    }
  }

  /** From slot `lo` on there are only records of the call. */
  lemma {:induction false} ChunkMembers(d: Disk, lo: nat, k: nat)
    requires Formed(d) && |d.heads| == TURN && lo <= k <= TURN && Members(d, 1, 1, lo) == []
    requires forall i :: lo <= i < TURN ==> OfCall(d, i)
    ensures |Members(d, 1, 1, k)| == k - lo
  {
    if lo < k {
      ChunkMembers(d, lo, k - 1);
      assert OfCall(d, k - 1);
    }
  }

  lemma {:induction false} NoMembers(d: Disk, k: nat)
    requires Formed(d) && k <= |d.heads| && forall i :: 0 <= i < k ==> !IsMember(d, 1, 1, i)
    ensures Members(d, 1, 1, k) == []
  {
    if k > 0 {
      NoMembers(d, k - 1);
    }
  }

  lemma CutShortWhole(d: Disk, sb: Data)
    requires CutShort(d, sb)
    ensures Complete(d, 1, 1)
  {
    NoMembers(d, 3);
    ChunkMembers(d, 3, TURN);
    forall i | 0 <= i < TURN ensures IsCommitOf(d, 1, 1, i) ==> i == 1 {
      OnlyThese(d, sb, i);
    }
    SoleCommit(d, 1, 1, 1, TURN);
  }

  /** The next mount shows the call's writes, and everything else as it was. */
  lemma NextMountShows(d: Disk, sb: Data)
    requires CutShort(d, sb) && Dirty(sb)
    ensures FlagSet(d) && Recovered(d) == map[0 := sb, 7 := LATER, 9 := ZERO]
  {
    CutShortWhole(d, sb);
    assert OfCall(d, 202) && Applies(d, 1, 202) && Applies(d, 1, 2);
    var w0, w7, w9 := Newest(d, 1, 0, TURN), Newest(d, 1, 7, TURN), Newest(d, 1, 9, TURN);
    OnlyThese(d, sb, w0.value);
    OnlyThese(d, sb, w7.value);
    if w9.Some? { OnlyThese(d, sb, w9.value); }
    assert Rcv(d, 1)[0] == sb && Rcv(d, 1)[7] == LATER && Rcv(d, 1)[9] == ZERO;
  }

  lemma OnlyThese(d: Disk, sb: Data, i: nat)
    requires CutShort(d, sb) && i < TURN
    ensures i == 0 || i == 1 || i == 2 || OfCall(d, i)
  {
  }

  lemma CutShortMounts(c: Machine, sb: Data) returns (s: Machine)
    requires CutShort(c.disk, sb) && Dirty(sb)
    ensures s == Mounted(c.disk) && s.phase == Recovering(0) && s.mem == Mem(1, 408, 0, 0, 0, 1)
    ensures CutShort(s.disk, sb)
  {
    var d := c.disk;
    NextMountShows(d, sb);
    forall i | 0 <= i < TURN && IsCurrent(d, 1, i) ensures d.heads[i].num <= 407 {
      OnlyThese(d, sb, i);
    }
    MaxNumBound(d, 1, TURN, 407);
    assert IsCurrent(d, 1, 1);
    s := Mounted(d);
  }

  // ---- two records of its recovery, and another cut ----

  predicate Worn(d: Disk, sb: Data) {
    && Formed(d) && |d.heads| == TURN && d.hdr == Header(1) && d.home == map[0 := sb, 7 := LATER, 9 := LATER]
    && Row(d, 0, 203, 7, 0, EARLIER) && Row(d, 2, 408, 9, 0, LATER) && Row(d, 3, 409, 9, 0, LATER)
    && d.heads[1] == ComHead(1, 407, 1, 200, CommitCrc(1, 200))
    && forall i :: 4 <= i < TURN ==> OfCall(d, i)
  }

  lemma TwoRecords(s: Machine, sb: Data) returns (s1: Machine, s2: Machine)
    requires s.phase == Recovering(0) && s.mem == Mem(1, 408, 0, 0, 0, 1) && CutShort(s.disk, sb)
    ensures CanStart(TURN, s, WriteBlock(9, LATER)) && s1 == Next(TURN, s, Do(WriteBlock(9, LATER))) && Formed(s1.disk)
    ensures CanStart(TURN, s1, WriteBlock(9, LATER)) && s2 == Next(TURN, s1, Do(WriteBlock(9, LATER)))
    ensures s2.phase == Recovering(2) && s2.mem.depth == 0 && Worn(s2.disk, sb)
    ensures s1.mem.depth == 0 && s1.disk.home == s2.disk.home
  {
    SlotIs(408, 2);
    SlotIs(409, 3);
    RecordedIsNext(TURN, s, 9, LATER);
    s1 := Recorded(TURN, s, 9, LATER);
    RecordedIsNext(TURN, s1, 9, LATER);
    s2 := Recorded(TURN, s1, 9, LATER);
    forall i | 4 <= i < TURN ensures OfCall(s2.disk, i) {
      assert OfCall(s.disk, i);
    }
  }

  lemma WornSlots(d: Disk, sb: Data, i: nat)
    requires Worn(d, sb) && i < TURN
    ensures i < 4 || OfCall(d, i)
  {
  }

  /** The chunk has lost a member, and the oldest record of block 7 is all that is left of it. */
  lemma WornShows(d: Disk, sb: Data)
    requires Worn(d, sb) && Dirty(sb)
    ensures FlagSet(d) && 7 in Recovered(d) && Recovered(d)[7] == EARLIER
  {
    NoMembers(d, 4);
    ChunkMembers(d, 4, TURN);
    forall i | 0 <= i < TURN ensures IsCommitOf(d, 1, 1, i) ==> i == 1 {
      WornSlots(d, sb, i);
    }
    SoleCommit(d, 1, 1, 1, TURN);
    assert !Complete(d, 1, 1) && Applies(d, 1, 0);
    var w := Newest(d, 1, 7, TURN).value;
    WornSlots(d, sb, w);
    assert w == 0;
  }

  lemma FourSteps(c: Machine, s: Machine, s1: Machine, s2: Machine, s3: Machine, a: Spec, b: Spec, e: Event, f: Event,
                  z: Spec)
    returns (tt: seq<Machine>, bb: seq<Spec>, fs: seq<Event>)
    requires StepOf(TURN, c, a, PowerOn, s, a) && StepOf(TURN, s, a, e, s1, b)
    requires StepOf(TURN, s1, b, e, s2, b) && StepOf(TURN, s2, b, f, s3, z)
    ensures tt == [c, s, s1, s2, s3] && bb == [a, a, b, b, z] && fs == [PowerOn, e, e, f] && Steps(TURN, tt, bb, fs)
  {
    tt, bb, fs := [c, s, s1, s2, s3], [a, a, b, b, z], [PowerOn, e, e, f];
  }

  lemma MountStep(c: Machine, a: Spec)
    requires Formed(c.disk) && c.phase.Off? && Formed(Mounted(c.disk).disk)
    ensures StepOf(TURN, c, a, PowerOn, Mounted(c.disk), a)
  {
  }

  lemma WriteStep(s: Machine, a: Spec, s': Machine)
    requires Formed(s.disk) && CanStart(TURN, s, WriteBlock(9, LATER)) && s.mem.depth == 0
    requires s' == Next(TURN, s, Do(WriteBlock(9, LATER))) && Formed(s'.disk)
    ensures StepOf(TURN, s, a, Do(WriteBlock(9, LATER)), s', a.(done := a.done[9 := LATER]))
  {
  }

  lemma IdleCutStep(s: Machine, a: Spec) returns (s': Machine)
    requires Formed(s.disk) && CanStart(TURN, s, WriteBlock(9, LATER)) && s.mem.depth == 0 && FlagSet(s.disk)
    ensures s' == s.(phase := Off)
    ensures StepOf(TURN, s, a, Event.Cut(WriteBlock(9, LATER), 0), s', Spec(Recovered(s.disk), []))
  {
    s' := s.(phase := Off);
    assert OpWrites(s.mem, TURN, WriteBlock(9, LATER))[..0] == [];
  }

  lemma LateMachines(c: Machine, sb: Data) returns (s: Machine, s1: Machine, s2: Machine)
    requires c.phase.Off? && CutShort(c.disk, sb) && Dirty(sb)
    ensures s == Mounted(c.disk) && Formed(s.disk) && Formed(s1.disk) && Formed(s2.disk)
    ensures s.mem.depth == 0 && s1.mem.depth == 0 && s2.mem.depth == 0
    ensures CanStart(TURN, s, WriteBlock(9, LATER)) && s1 == Next(TURN, s, Do(WriteBlock(9, LATER)))
    ensures CanStart(TURN, s1, WriteBlock(9, LATER)) && s2 == Next(TURN, s1, Do(WriteBlock(9, LATER)))
    ensures CanStart(TURN, s2, WriteBlock(9, LATER)) && FlagSet(s2.disk) && Worn(s2.disk, sb)
  {
    s := CutShortMounts(c, sb);
    s1, s2 := TwoRecords(s, sb);
  }

  lemma LateEvents(c: Machine, sb: Data) returns (tt: seq<Machine>, bb: seq<Spec>, fs: seq<Event>)
    requires c.phase.Off? && CutShort(c.disk, sb) && Dirty(sb)
    ensures Steps(TURN, tt, bb, fs) && tt[0] == c && bb[0] == Spec(map[0 := sb, 7 := LATER, 9 := ZERO], [])
    ensures |fs| == 4 && fs[3] == Event.Cut(WriteBlock(9, LATER), 0)
    ensures bb[3] == Spec(map[0 := sb, 7 := LATER, 9 := LATER], []) && Worn(tt[4].disk, sb)
  {
    var s, s1, s2 := LateMachines(c, sb);
    var a, b := Spec(map[0 := sb, 7 := LATER, 9 := ZERO], []), Spec(map[0 := sb, 7 := LATER, 9 := LATER], []);
    MountStep(c, a);
    WriteStep(s, a, s1);
    assert a.(done := a.done[9 := LATER]) == b == b.(done := b.done[9 := LATER]);
    WriteStep(s1, b, s2);
    var s3 := IdleCutStep(s2, b);
    tt, bb, fs := FourSteps(c, s, s1, s2, s3, a, b, Do(WriteBlock(9, LATER)), Event.Cut(WriteBlock(9, LATER), 0),
      Spec(Recovered(s2.disk), []));
  }

  /** A reachable cut of the valve after which the next mount keeps the promise, and yet a cut of that
      mount's recovery shows block 7 as it was before the call, with nothing in flight to it. */
  lemma ValveCutLosesBlockLater()
    returns (ss: seq<Machine>, aa: seq<Spec>, es: seq<Event>, tt: seq<Machine>, bb: seq<Spec>, fs: seq<Event>)
    ensures IsRun(TURN, ss, aa, es) && CanStart(TURN, ss[|es|], WriteBlock(7, LATER))
    ensures MidValve(ss[|es|], WriteBlock(7, LATER), 2) && 2 <= |OpWrites(ss[|es|].mem, TURN, WriteBlock(7, LATER))|
    ensures Steps(TURN, tt, bb, fs) && tt[0] == Dropped(TURN, ss[|es|], WriteBlock(7, LATER), 2)
    ensures Formed(tt[0].disk) && Kept(aa[|es|], WriteBlock(7, LATER), Recovered(tt[0].disk))
    ensures bb[0] == Spec(Recovered(tt[0].disk), []) && 7 in bb[0].done && bb[0].done[7] == LATER
    ensures |fs| == 4 && fs[3] == Event.Cut(WriteBlock(9, LATER), 0) && Formed(tt[4].disk)
    ensures bb[3].open == [] && 7 in bb[3].done && bb[3].done[7] == LATER
    ensures 7 in Recovered(tt[4].disk) && Recovered(tt[4].disk)[7] == EARLIER != LATER
  {
    var sb := Flagged();
    Values();
    ss, aa, es := CallRuns(sb, 200);
    var c := CutsShort(ss[|es|], sb);
    NextMountShows(c.disk, sb);
    InFlightHas(aa[|es|], 7, LATER);
    tt, bb, fs := LateEvents(c, sb);
    WornShows(tt[4].disk, sb);
  }
}
