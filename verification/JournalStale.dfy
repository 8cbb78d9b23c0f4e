/** Power cuts while a recovery is under way and the superblock already reads clean. */
module JournalStale {
  // Cut between a record and its block, the device keeps a record of a write that never landed; the next
  // mount replays nothing, sets the flag over it, and from then on any power cut brings that value back.

  import opened Wrappers
  import opened JournalDisk
  import opened JournalRing
  import opened JournalWindow
  import opened JournalRun
  import opened JournalMachine
  import opened JournalDurable
  import opened JournalSkipped
  import opened JournalSpared
  import opened JournalReplay
  import opened JournalRuns
  import opened JournalFindings
  import opened JournalInterrupted

  /** The machine with the power gone after `k` sectors of `op`, whether or not that cut is one of
      those the durability theorem covers. */
  function Dropped(n: nat, s: Machine, op: Op, k: nat): Machine
    requires n > 0 && k <= |OpWrites(s.mem, n, op)|
  {
    s.(disk := JournalDisk.Cut(s.disk, OpWrites(s.mem, n, op), k), phase := Off)
  }

  predicate CutKept(ss: seq<Machine>, aa: seq<Spec>, es: seq<Event>, i: nat)
    requires |ss| == |aa| == |es| + 1 && i < |es|
  {
    es[i].Cut? ==> Formed(ss[i + 1].disk) && Kept(aa[i], es[i].op, Recovered(ss[i + 1].disk))
  }

  /** Whatever happens next, every later power cut of a call leaves each block with its last
      completed value or one the call in flight wrote. */
  ghost predicate SafeAfter(n: nat, s: Machine, a: Spec) {
    forall ss: seq<Machine>, aa: seq<Spec>, es: seq<Event>, i: nat ::
      Steps(n, ss, aa, es) && ss[0] == s && aa[0] == a && i < |es| ==> CutKept(ss, aa, es, i)
  }

  lemma SoundIsSafe(n: nat, s: Machine, a: Spec)
    requires Sound(n, s, a)
    ensures SafeAfter(n, s, a)
  {
    forall ss: seq<Machine>, aa: seq<Spec>, es: seq<Event>, i: nat
      | Steps(n, ss, aa, es) && ss[0] == s && aa[0] == a && i < |es|
      ensures CutKept(ss, aa, es, i)
    {
      if es[i].Cut? {
        StepsKeepBlocks(n, ss, aa, es, i);
      }
    }
  }

  // ---- the cut that breaks a later mount ----

  lemma DroppedRing(n: nat, s: Machine, a: Spec, h: History, x: nat, v: Data, k: nat)
    returns (d: Disk, h': History)
    requires InvBy(n, s, a, h) && CanStart(n, s, WriteBlock(x, v)) && k <= |OpWrites(s.mem, n, WriteBlock(x, v))|
    requires LeavesStale(n, s, WriteBlock(x, v), k)
    ensures d == Dropped(n, s, WriteBlock(x, v), k).disk && h' == Push(h, Rec(x, v, 0))
    ensures Core(d, s.mem.gen, n, h') && Generation(d) == s.mem.gen && d.home == s.disk.home
    ensures Agree(h', Lo(h', n), d.home[x := v], {})
  {
    h' := LegacyCut(s.disk, s.mem, n, h, x, v, s.disk.home, {}, k);
    d := JournalDisk.Cut(s.disk, OpWrites(s.mem, n, WriteBlock(x, v)), k);
    if k == 1 {
      HalfLanded(s.disk, s.mem, n, h, x, v, h');
    }
  }

  /** Sector A over a sector B that happens to hold the same bytes is a whole record. */
  lemma HalfLanded(d: Disk, m: Mem, n: nat, h: History, x: nat, v: Data, h': History)
    requires Core(d, m.gen, n, h) && m.next == |h| && m.depth == 0 && d.bodies[Slot(|h|, n)] == v
    requires |OpWrites(m, n, WriteBlock(x, v))| == 3
    requires Core(JournalDisk.Cut(d, OpWrites(m, n, WriteBlock(x, v)), 1), m.gen, n, h')
    requires h' == h || h' == Push(h, Torn) || h' == Push(h, Rec(x, v, 0))
    ensures h' == Push(h, Rec(x, v, 0))
  {
    var i, ws := Slot(|h|, n), OpWrites(m, n, WriteBlock(x, v));
    Unfold(d, ws, 1);
    var d' := JournalDisk.Cut(d, ws, 1);
    assert IsCurrent(d', m.gen, i) && IsRecord(d', m.gen, i);
    EntryOf(d', m.gen, n, h', i);
  }

  /** The device after the next mount: no replay, and the flag set by a write of its own. */
  lemma MountOver(n: nat, d: Disk, g: nat, h: History, b: map<nat, Data>, sb: Data)
    returns (s1: Machine, s2: Machine)
    requires Core(d, g, n, h) && Generation(d) == g && !FlagSet(d) && 0 in d.home && Dirty(sb)
    requires Agree(h, Lo(h, n), b, {})
    ensures s1 == Mounted(d) && s1.phase.Cleared? && s1.disk.home == d.home && Formed(s1.disk)
    ensures CanStart(n, s1, WriteBlock(0, sb)) && s2 == Next(n, s1, Do(WriteBlock(0, sb)))
    ensures s2.phase == Running && s2.mem.depth == 0 && s2.disk.home == d.home[0 := sb] && FlagSet(s2.disk)
    ensures Generation(s2.disk) == g
    ensures var h' := Push(h, Rec(0, sb, 0)); Core(s2.disk, g, n, h') && Agree(h', Lo(h', n), b[0 := sb], {})
  {
    MaxNumIs(d, g, n, h);
    s1 := Mounted(d);
    CoreFrame(d, s1.disk, g, n, h);
    var ws := OpWrites(s1.mem, n, WriteBlock(0, sb));
    var h' := LegacyCut(s1.disk, s1.mem, n, h, 0, sb, b, {}, 3);
    assert ws[..3] == ws;
    s2 := Next(n, s1, Do(WriteBlock(0, sb)));
  }

  /** The record left ahead of its block is still in the ring after one more, and is what a replay
      makes of that block. */
  lemma StaleReplays(d: Disk, g: nat, n: nat, h: History, x: nat, v: Data, sb: Data, b: map<nat, Data>)
    requires n >= 2 && x != 0 && x in d.home
    requires var h' := Push(Push(h, Rec(x, v, 0)), Rec(0, sb, 0));
             Core(d, g, n, h') && Agree(h', Lo(h', n), b, {}) && x in b && b[x] == v
    ensures RcvAt(d, g, x) == v
  {
    var h' := Push(Push(h, Rec(x, v, 0)), Rec(0, sb, 0));
    RcvOf(d, g, n, h', b, {}, x);
    assert Counts(h', Lo(h', n), |h|);
  }

  lemma StaleShows(d: Disk, g: nat, x: nat, v: Data)
    requires Formed(d) && FlagSet(d) && Generation(d) == g && x in d.home && RcvAt(d, g, x) == v
    ensures x in Recovered(d) && Recovered(d)[x] == v
  {
  }

  /** Three events after such a cut the promise is broken: mount, set the flag, lose power with
      nothing in flight.  The block is promised its completed value and shows the other one. */
  lemma StaleBreaks(n: nat, s: Machine, a: Spec, x: nat, v: Data, k: nat)
    returns (ss: seq<Machine>, aa: seq<Spec>, es: seq<Event>)
    requires Inv(n, s, a) && n > 0 && CanStart(n, s, WriteBlock(x, v)) && k <= |OpWrites(s.mem, n, WriteBlock(x, v))|
    requires LeavesStale(n, s, WriteBlock(x, v), k)
    ensures Formed(Dropped(n, s, WriteBlock(x, v), k).disk) && Steps(n, ss, aa, es)
    ensures ss[0] == Dropped(n, s, WriteBlock(x, v), k) && aa[0] == Spec(Recovered(ss[0].disk), [])
    ensures |es| == 3 && es[2] == Event.Cut(Begin, 0) && Formed(ss[3].disk)
    ensures aa[2].open == [] && x in aa[2].done && aa[2].done[x] == s.disk.home[x] != v
    ensures x in Recovered(ss[3].disk) && Recovered(ss[3].disk)[x] == v
  {
    var h: History :| InvBy(n, s, a, h);
    var d, h1 := DroppedRing(n, s, a, h, x, v, k);
    var sb := Filled(1);
    var s1, s2 := MountOver(n, d, s.mem.gen, h1, d.home[x := v], sb);
    StaleReplays(s2.disk, s.mem.gen, n, h, x, v, sb, d.home[x := v][0 := sb]);
    StaleShows(s2.disk, s.mem.gen, x, v);
    ss, aa, es := BreakingRun(n, Dropped(n, s, WriteBlock(x, v), k), s1, s2, sb);
  }

  lemma BreakingRun(n: nat, s0: Machine, s1: Machine, s2: Machine, sb: Data)
    returns (ss: seq<Machine>, aa: seq<Spec>, es: seq<Event>)
    requires n > 0 && Formed(s0.disk) && s0.phase.Off? && !FlagSet(s0.disk)
    requires s1 == Mounted(s0.disk) && s1.phase.Cleared? && Formed(s1.disk) && s1.mem.depth == 0
    requires s1.disk.home == s0.disk.home
    requires CanStart(n, s1, WriteBlock(0, sb)) && s2 == Next(n, s1, Do(WriteBlock(0, sb))) && Formed(s2.disk)
    requires s2.phase.Running? && s2.disk.home == s0.disk.home[0 := sb] && s2.mem.depth == 0
    ensures Steps(n, ss, aa, es) && ss[0] == s0 && aa[0] == Spec(Recovered(s0.disk), [])
    ensures |es| == 3 && es[2] == Event.Cut(Begin, 0) && ss[3].disk == s2.disk
    ensures aa[2] == Spec(s2.disk.home, [])
  {
    var s3 := s2.(phase := Off);
    var a0 := Spec(s0.disk.home, []);
    var a1 := Spec(s2.disk.home, []);
    es := [PowerOn, Do(WriteBlock(0, sb)), Event.Cut(Begin, 0)];
    ss := [s0, s1, s2, s3];
    aa := [a0, a0, a1, Spec(Recovered(s2.disk), [])];
    assert OpWrites(s2.mem, n, Begin)[..0] == [];
    assert StepOf(n, s0, a0, PowerOn, s1, a0);
    assert StepOf(n, s1, a0, es[1], s2, a1);
    assert StepOf(n, s2, a1, es[2], s3, aa[3]);
  }

  // ---- exactly those ----

  lemma DroppedIsNext(n: nat, s: Machine, a: Spec, op: Op, k: nat)
    requires Sound(n, s, a) && n > 0 && Formed(s.disk) && Enabled(n, s, Event.Cut(op, k))
    requires !ValveLoses(n, s, a, op, k)
    ensures Formed(Dropped(n, s, op, k).disk) && Kept(a, op, Recovered(Dropped(n, s, op, k).disk))
    ensures Sound(n, Dropped(n, s, op, k), Spec(Recovered(Dropped(n, s, op, k).disk), []))
  {
    SoundKeeps(n, s, a, Event.Cut(op, k));
  }

  lemma NoCallYet(n: nat, s: Machine, a: Spec)
    requires Sound(n, s, a) && s.phase.Recovering?
    ensures s.mem.depth == 0 && (!FlagSet(s.disk) ==> Inv(n, s, a))
  {
  }

  /** Exactly which power cuts of a recovery are safe for every later mount, read off the state
      before the write: all of them while the flag on the device reads set, and with the flag clear
      those that do not leave a record ahead of its block. */
  lemma RecoveryCutExact(n: nat, s: Machine, a: Spec, op: Op, k: nat)
    requires Sound(n, s, a) && n > 0 && Formed(s.disk) && s.phase.Recovering?
    requires CanStart(n, s, op) && k <= |OpWrites(s.mem, n, op)|
    ensures Formed(Dropped(n, s, op, k).disk)
    ensures SafeAfter(n, Dropped(n, s, op, k), Spec(Recovered(Dropped(n, s, op, k).disk), []))
            <==> FlagSet(s.disk) || n == 1 || op.lba == 0 || !RecordAhead(n, s, op, k)
  {
    NoCallYet(n, s, a);
    if LeavesStale(n, s, op, k) {
      var ss, aa, es := StaleBreaks(n, s, a, op.lba, op.data, k);
      assert !CutKept(ss, aa, es, 2);
    } else {
      DroppedIsNext(n, s, a, op, k);
      SoundIsSafe(n, Dropped(n, s, op, k), Spec(Recovered(Dropped(n, s, op, k).disk), []));
    }
  }

  /** The same over runs from a fresh image. */
  lemma RunRecoveryCutExact(n: nat, ss: seq<Machine>, aa: seq<Spec>, es: seq<Event>, i: nat, op: Op, k: nat)
    requires IsRun(n, ss, aa, es) && i <= |es| && ss[i].phase.Recovering? && n > 0
    requires CanStart(n, ss[i], op) && k <= |OpWrites(ss[i].mem, n, op)|
    ensures Formed(Dropped(n, ss[i], op, k).disk)
    ensures SafeAfter(n, Dropped(n, ss[i], op, k), Spec(Recovered(Dropped(n, ss[i], op, k).disk), []))
            <==> FlagSet(ss[i].disk) || n == 1 || op.lba == 0 || !RecordAhead(n, ss[i], op, k)
  {
    RunKeeps(n, ss, aa, es, i);
    SoundFormed(n, ss[i], aa[i]);
    RecoveryCutExact(n, ss[i], aa[i], op, k);
  }

  // ---- which reachable replays may be cut ----

  /** A superblock with the flag clear is re-applied last, if at all. */
  predicate CleanRecordIsLast(d: Disk, g: nat)
    requires Formed(d)
  {
    forall i :: 0 <= i < |d.heads| && CleanRecord(d, g, i) ==> IsNewest(d, g, i)
  }

  predicate CleanRecord(d: Disk, g: nat, i: nat)
    requires Formed(d) && i < |d.heads|
  {
    Applies(d, g, i) && d.heads[i].lba == 0 && !Dirty(d.bodies[i])
  }

  predicate IsNewest(d: Disk, g: nat, i: nat)
    requires Formed(d) && i < |d.heads| && !d.heads[i].Other?
  {
    forall j :: 0 <= j < |d.heads| && Applies(d, g, j) ==> d.heads[j].num <= d.heads[i].num
  }

  lemma TwinDistinct(d: Disk, e: Disk, g: nat, n: nat, h: History, q: nat)
    requires Twin(d, e, g, n, h, q)
    ensures NumsDistinct(d, g)
  {
    forall i, j | 0 <= i < j < n && IsCurrent(d, g, i) && IsCurrent(d, g, j)
      ensures d.heads[i].num != d.heads[j].num
    {
      if i == Slot(q, n) {
        LeftOverIsOldest(d, e, g, n, h, q, j);
      } else if j == Slot(q, n) {
        LeftOverIsOldest(d, e, g, n, h, q, i);
      } else {
        EntryOf(e, g, n, h, i);
        EntryOf(e, g, n, h, j);
      }
    }
  }

  lemma LastClean(d: Disk, g: nat, i: nat)
    requires Formed(d) && NumsDistinct(d, g) && 0 in d.home
    requires i < |d.heads| && CleanRecord(d, g, i) && IsNewest(d, g, i)
    ensures !Dirty(RcvAt(d, g, 0))
  {
    var w := Newest(d, g, 0, |d.heads|).value;
    assert IsCurrent(d, g, i) && IsCurrent(d, g, w) && d.heads[w].num == d.heads[i].num;
  }

  lemma SuperblockIsLast(d: Disk, g: nat, n: nat, h: History, i: nat, j: nat)
    requires Core(d, g, n, h) && EndsAtSuperblock(h, Lo(h, n))
    requires i < n && j < n && Applies(d, g, i) && d.heads[i].lba == 0 && Applies(d, g, j)
    ensures d.heads[j].num <= d.heads[i].num
  {
    AppliesIff(d, g, n, h, i);
    EntryOf(d, g, n, h, i);
    EntryOf(d, g, n, h, j);
  }

  lemma NothingLeft(d: Disk, g: nat, n: nat, h: History, j: nat, x: nat)
    requires Core(d, g, n, h) && j < n && Applies(d, g, j) && x in d.home
    requires forall i :: 0 <= i < n && Applies(d, g, i) ==> d.heads[i].num <= d.heads[j].num
    ensures ValueAsOf(d, g, x, d.heads[j].num) == RcvAt(d, g, x)
  {
    var u, w := NewestUpto(d, g, x, d.heads[j].num, n), Newest(d, g, x, n);
    if w.Some? {
      EntryOf(d, g, n, h, u.value);
      EntryOf(d, g, n, h, w.value);
    }
  }

  lemma EndsSettled(d: Disk, g: nat, n: nat, h: History, j: nat)
    requires Core(d, g, n, h) && EndsAtSuperblock(h, Lo(h, n))
    requires j < n && Applies(d, g, j) && ReadsClean(d, g, j)
    ensures SettledAt(d, g, j)
  {
    var b := NewestUpto(d, g, 0, d.heads[j].num, n).value;
    forall i | 0 <= i < n && Applies(d, g, i) ensures d.heads[i].num <= d.heads[j].num {
      SuperblockIsLast(d, g, n, h, b, i);
    }
    forall x | x in d.home ensures ValueAsOf(d, g, x, d.heads[j].num) == RcvAt(d, g, x) {
      NothingLeft(d, g, n, h, j, x);
    }
  }

  lemma NoCleanIsLast(d: Disk, g: nat)
    requires Formed(d) && NumsDistinct(d, g) && 0 in d.home && Dirty(RcvAt(d, g, 0))
    ensures NoCleanRecord(d, g) <==> CleanRecordIsLast(d, g)
  {
    var n := |d.heads|;
    forall i | 0 <= i < n && CleanRecord(d, g, i) ensures !IsNewest(d, g, i) {
      if IsNewest(d, g, i) {
        LastClean(d, g, i);
      }
    }
    if NoCleanRecord(d, g) {
      assert forall i :: 0 <= i < n ==> !CleanRecord(d, g, i);
    } else {
      var i :| 0 <= i < n && Applies(d, g, i) && d.heads[i].lba == 0 && !Dirty(d.bodies[i]);
      assert CleanRecord(d, g, i);
    }
  }

  lemma ClearEndsExact(d: Disk, n: nat, h: History, ws: seq<Write>)
    requires OffInv(d, n, h) && FlagSet(d) && IsReplay(d, Generation(d), ws) && AllHome(d, Generation(d))
    requires !Dirty(RcvAt(d, Generation(d), 0))
    ensures ReplayCutsSafe(d, ws) && CleanRecordIsLast(d, Generation(d))
  {
    var g := Generation(d);
    ReplayCutsExact(d, ws);
    forall j | 0 <= j < n && Applies(d, g, j) && ReadsClean(d, g, j) ensures SettledAt(d, g, j) {
      EndsSettled(d, g, n, h, j);
    }
    forall i | 0 <= i < n && CleanRecord(d, g, i) ensures IsNewest(d, g, i) {
      forall j | 0 <= j < n && Applies(d, g, j) ensures d.heads[j].num <= d.heads[i].num {
        SuperblockIsLast(d, g, n, h, i, j);
      }
    }
  }

  lemma OffReplayCutsExact(d: Disk, n: nat, h: History, ws: seq<Write>)
    requires OffInv(d, n, h) && FlagSet(d) && IsReplay(d, Generation(d), ws)
    ensures ReplayCutsSafe(d, ws) <==> CleanRecordIsLast(d, Generation(d))
  {
    ApplicableAtHome(d, Generation(d), n, h);
    if Dirty(RcvAt(d, Generation(d), 0)) {
      CoreDistinct(d, Generation(d), n, h);
      DirtyReplayCutsExact(d, ws);
      NoCleanIsLast(d, Generation(d));
    } else {
      ClearEndsExact(d, n, h, ws);
    }
  }

  lemma DistinctFrame(r: Disk, d: Disk, g: nat)
    requires Formed(r) && NumsDistinct(r, g) && d.heads == r.heads && d.bodies == r.bodies
    ensures NumsDistinct(d, g)
  {
    assert forall j: nat :: j < |d.heads| ==> (IsCurrent(d, g, j) <==> IsCurrent(r, g, j));
  }

  lemma SkippedRing(n: nat, s: Machine, a: Spec)
    requires Skipped(n, s, a) && s.phase.Off?
    ensures n > 0 && Formed(s.disk) && |s.disk.heads| == n
    ensures AllHome(s.disk, Generation(s.disk)) && NumsDistinct(s.disk, Generation(s.disk))
    ensures FlagSet(s.disk) && Dirty(RcvAt(s.disk, Generation(s.disk), 0))
  {
    var e: Disk, h: History, q: nat :| SkippedBy(n, s, a, e, h, q);
    var d, g, r := s.disk, Generation(s.disk), Restored(s.disk);
    TwinDistinct(r, e, g, n, h, q);
    DistinctFrame(r, d, g);
    RestoredAtHome(d, e, n, h, q);
    assert r.home[0] == RcvAt(d, g, 0);
  }

  lemma SkippedReplayCutsExact(n: nat, s: Machine, a: Spec, ws: seq<Write>)
    requires Skipped(n, s, a) && s.phase.Off? && Formed(s.disk) && IsReplay(s.disk, Generation(s.disk), ws)
    ensures ReplayCutsSafe(s.disk, ws) <==> CleanRecordIsLast(s.disk, Generation(s.disk))
  {
    SkippedRing(n, s, a);
    DirtyReplayCutsExact(s.disk, ws);
    NoCleanIsLast(s.disk, Generation(s.disk));
  }

  /** Every device a run leaves switched off is one the journal's mount takes. */
  lemma RunMountable(n: nat, ss: seq<Machine>, aa: seq<Spec>, es: seq<Event>, i: nat)
    requires IsRun(n, ss, aa, es) && i <= |es| && ss[i].phase.Off?
    ensures var d := ss[i].disk;
            n > 0 && Formed(d) && |d.heads| == n && NumsDistinct(d, Generation(d)) && AllHome(d, Generation(d))
  {
    RunKeeps(n, ss, aa, es, i);
    if Inv(n, ss[i], aa[i]) {
      var h: History :| InvBy(n, ss[i], aa[i], h);
      CoreDistinct(ss[i].disk, Generation(ss[i].disk), n, h);
      ApplicableAtHome(ss[i].disk, Generation(ss[i].disk), n, h);
    } else {
      SkippedRing(n, ss[i], aa[i]);
    }
  }

  /** Over runs: the replay of a device may be interrupted anywhere exactly when no superblock with
      the flag clear is re-applied before another record. */
  lemma RunReplayCutsExact(n: nat, ss: seq<Machine>, aa: seq<Spec>, es: seq<Event>, i: nat, ws: seq<Write>)
    requires IsRun(n, ss, aa, es) && i <= |es| && ss[i].phase.Off?
    ensures Formed(ss[i].disk)
    ensures FlagSet(ss[i].disk) && IsReplay(ss[i].disk, Generation(ss[i].disk), ws) ==>
              (ReplayCutsSafe(ss[i].disk, ws) <==> CleanRecordIsLast(ss[i].disk, Generation(ss[i].disk)))
  {
    RunKeeps(n, ss, aa, es, i);
    SoundFormed(n, ss[i], aa[i]);
    if FlagSet(ss[i].disk) && IsReplay(ss[i].disk, Generation(ss[i].disk), ws) {
      if Inv(n, ss[i], aa[i]) {
        var h: History :| InvBy(n, ss[i], aa[i], h);
        OffReplayCutsExact(ss[i].disk, n, h, ws);
      } else {
        SkippedReplayCutsExact(n, ss[i], aa[i], ws);
      }
    }
  }

  // ---- a run that leaves one behind ----

  /** The first recovery has filled the ring, and is cut between the record of the cleared
      superblock and its home sector. */
  function CutAtFlag(sb: Data): Disk {
    var e := Noted(5, 7, 0, EARLIER);
    Disk(Header(1),
         [e, Noted(6, 0, 0, Clean(sb)), Noted(2, 7, 0, EARLIER), Noted(3, 7, 0, EARLIER), Noted(4, 7, 0, EARLIER)],
         [EARLIER, Clean(sb), EARLIER, EARLIER, EARLIER], map[0 := sb, 7 := EARLIER, 9 := ZERO])
  }

  lemma FlagCutShort(sb: Data, s: Machine)
    requires s.mem == Mem(1, 6, 0, 0, 0, 1) && s.disk == Rebuilding(sb, 5).disk && Dirty(sb)
    ensures |OpWrites(s.mem, N, WriteBlock(0, Clean(sb)))| == 3
    ensures JournalDisk.Cut(s.disk, OpWrites(s.mem, N, WriteBlock(0, Clean(sb))), 2) == CutAtFlag(sb)
  {
    Slots();
    RebuiltRing(sb);
    Unfold(s.disk, OpWrites(s.mem, N, WriteBlock(0, Clean(sb))), 2);
  }

  lemma ClearAfterReplay(sb: Data)
    requires Dirty(sb)
    ensures var d := CutAtFlag(sb); Formed(d) && FlagSet(d) && Generation(d) == 1
    ensures var d := CutAtFlag(sb); RcvAt(d, 1, 0) == Clean(sb) && RcvAt(d, 1, 7) == EARLIER
  {
    var d := CutAtFlag(sb);
    assert Applies(d, 1, 1);
    var w, u := Newest(d, 1, 0, 5), Newest(d, 1, 7, 5);
    assert w == Some(1);
  }

  lemma FlagCutEnabled(sb: Data, s: Machine) returns (s': Machine)
    requires s == Rebuilding(sb, 5) && Dirty(sb)
    ensures Formed(s.disk) && Enabled(N, s, Event.Cut(WriteBlock(0, Clean(sb)), 2))
    ensures s' == Next(N, s, Event.Cut(WriteBlock(0, Clean(sb)), 2)) && s'.phase.Off? && s'.disk == CutAtFlag(sb)
  {
    InRebuildAll(sb, 5);
    FlagCutShort(sb, s);
    s' := Next(N, s, Event.Cut(WriteBlock(0, Clean(sb)), 2));
  }

  lemma MountsClear(d: Disk, sb: Data) returns (s: Machine)
    requires d == CutAtFlag(sb) && Dirty(sb)
    ensures Formed(d) && s == Mounted(d) && Formed(s.disk) && s.phase == Recovering(0) && s.mem.depth == 0
    ensures !FlagSet(s.disk) && 7 in s.disk.home && s.disk.home[7] == EARLIER
  {
    ClearAfterReplay(sb);
    s := Mounted(d);
    assert s.disk.home[0] == RcvAt(d, 1, 0) && s.disk.home[7] == RcvAt(d, 1, 7);
  }

  /** From a fresh image: a recovery cut as it clears the flag, and the next one with the flag
      already clear, about to rewrite block 7. */
  lemma ClearRecoveryRun() returns (ss: seq<Machine>, aa: seq<Spec>, es: seq<Event>)
    ensures IsRun(N, ss, aa, es) && ss[|es|].phase == Recovering(0) && Formed(ss[|es|].disk)
    ensures !FlagSet(ss[|es|].disk) && 7 in ss[|es|].disk.home && ss[|es|].disk.home[7] == EARLIER
    ensures ss[|es|].mem.depth == 0
  {
    var sb := Flagged();
    ss, aa, es := RebuildRuns(sb, 5);
    var s := FlagCutEnabled(sb, ss[|es|]);
    var s' := MountsClear(s.disk, sb);
    ss, aa, es := Extend(N, ss, aa, es, Event.Cut(WriteBlock(0, Clean(sb)), 2), s);
    ss, aa, es := Extend(N, ss, aa, es, PowerOn, s');
  }

  /** A reachable cut that breaks a later mount: the rewrite of block 7 never lands, block 7 is
      promised its old value with nothing in flight, and shows the one that never landed. */
  lemma CutOfRecoveryLosesBlock()
    returns (ss: seq<Machine>, aa: seq<Spec>, es: seq<Event>, tt: seq<Machine>, bb: seq<Spec>, fs: seq<Event>)
    ensures IsRun(N, ss, aa, es) && CanStart(N, ss[|es|], WriteBlock(7, LATER))
    ensures 2 <= |OpWrites(ss[|es|].mem, N, WriteBlock(7, LATER))|
    ensures Steps(N, tt, bb, fs) && tt[0] == Dropped(N, ss[|es|], WriteBlock(7, LATER), 2)
    ensures Formed(tt[0].disk) && bb[0] == Spec(Recovered(tt[0].disk), [])
    ensures |fs| == 3 && fs[2] == Event.Cut(Begin, 0) && Formed(tt[3].disk)
    ensures bb[2].open == [] && 7 in bb[2].done && bb[2].done[7] == EARLIER
    ensures 7 in Recovered(tt[3].disk) && Recovered(tt[3].disk)[7] == LATER != EARLIER
  {
    Values();
    ss, aa, es := ClearRecoveryRun();
    RunKeeps(N, ss, aa, es, |es|);
    NoCallYet(N, ss[|es|], aa[|es|]);
    tt, bb, fs := StaleBreaks(N, ss[|es|], aa[|es|], 7, LATER, 2);
  }
}
