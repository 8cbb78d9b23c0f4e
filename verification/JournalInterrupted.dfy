/** A device that `mkfs` wrote, mounted once, loses a completed block to a replay that is itself
    interrupted: the run, step by step. */
module JournalInterrupted {
  import opened Wrappers
  import opened JournalDisk
  import opened JournalRing
  import opened JournalWindow
  import opened JournalRun
  import opened JournalMachine
  import opened JournalDurable
  import opened JournalRuns
  import opened JournalFindings

  const N: nat := 5
  const EARLIER: Data := Filled(1)
  const LATER: Data := Filled(2)

  lemma Values()
    ensures EARLIER != LATER && EARLIER != ZERO && LATER != ZERO
  {
    assert EARLIER[0] == 1 && LATER[0] == 2 && ZERO[0] == 0;
  }

  /** A superblock with the flag set, and one with it cleared: `set_dirty` writes four bytes. */
  function Flagged(): (sb: Data)
    ensures Dirty(sb)
  {
    seq(SECTOR, i => if i == 48 then 1 else 0)
  }

  function Clean(sb: Data): (r: Data)
    ensures !Dirty(r)
  {
    sb[48 := 0][49 := 0][50 := 0][51 := 0]
  }

  /** The device as `mkfs` leaves it: flag set, ring empty. */
  function Start(sb: Data): Machine {
    Machine(
    Disk(NoHeader, [Other, Other, Other, Other, Other], [ZERO, ZERO, ZERO, ZERO, ZERO],
      map[0 := sb, 7 := ZERO, 9 := ZERO]),
    Off, Mem(0, 0, 0, 0, 0, 1))
  }

  function Recorded(n: nat, s: Machine, x: nat, v: Data): Machine
    requires n > 0
  {
    var m, i := s.mem, Slot(s.mem.next, n);
    var t := if m.depth == 0 then 0 else m.tx;
    if i < |s.disk.heads| && i < |s.disk.bodies| then
      Machine(Disk(s.disk.hdr, s.disk.heads[i := RecHead(m.gen, m.next, x, t, Crc(m.next, x, t, v))],
                   s.disk.bodies[i := v], s.disk.home[x := v]),
              NextPhase(s.phase, WriteBlock(x, v)), OpMem(m, WriteBlock(x, v)))
    else s
  }

  lemma RecordedIsNext(n: nat, s: Machine, x: nat, v: Data)
    requires Formed(s.disk) && |s.disk.heads| == n > 0 && CanStart(n, s, WriteBlock(x, v)) && !Valve(s.mem)
    ensures Next(n, s, Do(WriteBlock(x, v))) == Recorded(n, s, x, v) && Formed(Recorded(n, s, x, v).disk)
  {
    var ws := OpWrites(s.mem, n, WriteBlock(x, v));
    Unfold(s.disk, ws, 3);
    assert ws[..3] == ws;
  }

  /** One more event at the end of a run. */
  lemma Extend(n: nat, ss: seq<Machine>, aa: seq<Spec>, es: seq<Event>, e: Event, s': Machine)
    returns (ss': seq<Machine>, aa': seq<Spec>, es': seq<Event>)
    requires IsRun(n, ss, aa, es) && Formed(ss[|es|].disk) && Enabled(n, ss[|es|], e)
    requires s' == Next(n, ss[|es|], e) && Formed(s'.disk)
    requires e.Cut? ==> !ValveLoses(n, ss[|es|], aa[|es|], e.op, e.k)
    ensures IsRun(n, ss', aa', es') && es' == es + [e] && ss' == ss + [s'] && |ss'| == |ss| + 1 && ss'[|es'|] == s'
    ensures aa' == aa + [SpecNext(n, ss[|es|], e, aa[|es|])]
    ensures |aa'| == |es'| + 1 && aa'[|es'|] == SpecNext(n, ss[|es|], e, aa[|es|])
  {
    ss', es' := ss + [s'], es + [e];
    aa' := aa + [SpecNext(n, ss[|es|], e, aa[|es|])];
    forall i | 0 <= i < |es'| ensures StepOf(n, ss'[i], aa'[i], es'[i], ss'[i + 1], aa'[i + 1]) {
      if i < |es| {
        assert StepOf(n, ss[i], aa[i], es[i], ss[i + 1], aa[i + 1]);
      }
    }
  }

  lemma ExtendWrite(n: nat, ss: seq<Machine>, aa: seq<Spec>, es: seq<Event>, x: nat, v: Data)
    returns (ss': seq<Machine>, aa': seq<Spec>, es': seq<Event>)
    requires IsRun(n, ss, aa, es) && |ss[|es|].disk.heads| == n > 0 && Formed(ss[|es|].disk)
    requires CanStart(n, ss[|es|], WriteBlock(x, v)) && !Valve(ss[|es|].mem)
    ensures IsRun(n, ss', aa', es') && es' == es + [Do(WriteBlock(x, v))] && |ss'| == |ss| + 1
    ensures ss'[|es'|] == Recorded(n, ss[|es|], x, v) && Formed(ss'[|es'|].disk)
    ensures |aa'| == |es'| + 1 && aa'[|es'|] == SpecDo(ss[|es|].mem, WriteBlock(x, v), aa[|es|])
  {
    RecordedIsNext(n, ss[|es|], x, v);
    ss', aa', es' := Extend(n, ss, aa, es, Do(WriteBlock(x, v)), Recorded(n, ss[|es|], x, v));
  }

  function Noted(e: nat, x: nat, t: nat, v: Data): Head {
    RecHead(1, e, x, t, Crc(e, x, t, v))
  }

  /** After the first mount: five records of the rebuild, the superblock cleared and set again. */
  function FirstUp(sb: Data): Machine {
    Machine(
    Disk(Header(1),
         [Noted(5, 7, 0, EARLIER), Noted(6, 0, 0, Clean(sb)), Noted(7, 0, 0, sb), Noted(3, 7, 0, EARLIER),
           Noted(4, 7, 0, EARLIER)],
         [EARLIER, Clean(sb), sb, EARLIER, EARLIER], map[0 := sb, 7 := EARLIER, 9 := ZERO]),
    Running, Mem(1, 8, 0, 0, 0, 1))
  }

  function Powered(sb: Data): Machine {
    Machine(
    Disk(Header(1), [Other, Other, Other, Other, Other], [ZERO, ZERO, ZERO, ZERO, ZERO],
      map[0 := sb, 7 := ZERO, 9 := ZERO]),
    Recovering(0), Mem(1, 1, 0, 0, 0, 1))
  }

  lemma FirstPowerOn(sb: Data) returns (ss: seq<Machine>, aa: seq<Spec>, es: seq<Event>)
    requires Dirty(sb)
    ensures IsRun(N, ss, aa, es) && |es| == 1 && ss[1] == Powered(sb)
            && aa[1] == Spec(map[0 := sb, 7 := ZERO, 9 := ZERO], [])
  {
    var d := Start(sb).disk;
    forall x | x in d.home ensures RcvAt(d, 1, x) == d.home[x] {
      var w := Newest(d, 1, x, 5);
    }
    assert Rcv(d, 1) == d.home;
    MaxNumBound(d, 1, 5, 0);
    assert Mounted(d) == Powered(sb);
    ss, aa, es := [Start(sb)], [Spec(d.home, [])], [];
    ss, aa, es := Extend(N, ss, aa, es, PowerOn, Powered(sb));
  }

  lemma Slots()
    ensures Slot(1, 5) == 1 && Slot(2, 5) == 2 && Slot(3, 5) == 3 && Slot(4, 5) == 4 && Slot(5, 5) == 0
    ensures Slot(6, 5) == 1 && Slot(7, 5) == 2 && Slot(8, 5) == 3 && Slot(9, 5) == 4
  {
    SlotIsMod(1, 5); SlotIsMod(2, 5); SlotIsMod(3, 5); SlotIsMod(4, 5); SlotIsMod(5, 5);
    SlotIsMod(6, 5); SlotIsMod(7, 5); SlotIsMod(8, 5); SlotIsMod(9, 5);
  }

  function Rebuilding(sb: Data, k: nat): Machine {
    if k == 0 then Powered(sb) else Recorded(N, Rebuilding(sb, k - 1), 7, EARLIER)
  }

  predicate InRebuild(s: Machine, sb: Data, k: nat) {
    s.phase == Recovering(k) && s.mem == Mem(1, k + 1, 0, 0, 0, 1) && Formed(s.disk) && |s.disk.heads| == N
    && s.disk.home == map[0 := sb, 7 := if k == 0 then ZERO else EARLIER, 9 := ZERO]
  }

  lemma RebuildOn(s: Machine, sb: Data, k: nat)
    requires InRebuild(s, sb, k)
    ensures CanStart(N, s, WriteBlock(7, EARLIER)) && !Valve(s.mem)
    ensures var s' := Recorded(N, s, 7, EARLIER);
            InRebuild(s', sb, k + 1) && SpecDo(s.mem, WriteBlock(7, EARLIER), Spec(s.disk.home, []))
              == Spec(s'.disk.home, [])
  {
  }

  lemma {:induction false} InRebuildAll(sb: Data, k: nat)
    ensures InRebuild(Rebuilding(sb, k), sb, k)
  {
    if k > 0 {
      InRebuildAll(sb, k - 1);
      RebuildOn(Rebuilding(sb, k - 1), sb, k - 1);
    }
  }

  lemma RebuildRuns(sb: Data, k: nat) returns (ss: seq<Machine>, aa: seq<Spec>, es: seq<Event>)
    requires Dirty(sb)
    ensures IsRun(N, ss, aa, es) && |es| == k + 1 && ss[k + 1] == Rebuilding(sb, k)
    ensures InRebuild(Rebuilding(sb, k), sb, k)
    ensures aa[k + 1] == Spec(Rebuilding(sb, k).disk.home, [])
  {
    ss, aa, es := FirstPowerOn(sb);
    var j := 0;
    InRebuildAll(sb, 0);
    while j < k
      invariant j <= k && IsRun(N, ss, aa, es) && |es| == j + 1 && ss[j + 1] == Rebuilding(sb, j)
      invariant InRebuild(Rebuilding(sb, j), sb, j) && aa[j + 1] == Spec(Rebuilding(sb, j).disk.home, [])
    {
      RebuildOn(Rebuilding(sb, j), sb, j);
      ss, aa, es := ExtendWrite(N, ss, aa, es, 7, EARLIER);
      j := j + 1;
    }
  }

  predicate HoldsRebuilt(d: Disk, q: nat) {
    Formed(d) && |d.heads| == N && d.heads[Slot(q, 5)] == Noted(q, 7, 0, EARLIER) && d.bodies[Slot(q, 5)] == EARLIER
  }

  lemma RecordedSlot(s: Machine, sb: Data, k: nat, q: nat)
    requires InRebuild(s, sb, k) && 1 <= q <= k + 1 < q + 5 && (q <= k ==> HoldsRebuilt(s.disk, q))
    ensures HoldsRebuilt(Recorded(N, s, 7, EARLIER).disk, q)
  {
    if q <= k {
      SlotDistinct(q, k + 1, 5);
    }
  }

  lemma {:induction false} RebuiltSlot(sb: Data, k: nat, q: nat)
    requires 1 <= q <= k < q + 5
    ensures HoldsRebuilt(Rebuilding(sb, k).disk, q)
  {
    InRebuildAll(sb, k - 1);
    if q < k {
      RebuiltSlot(sb, k - 1, q);
    }
    RecordedSlot(Rebuilding(sb, k - 1), sb, k - 1, q);
  }

  lemma {:induction false} RebuiltHeader(sb: Data, k: nat)
    ensures Rebuilding(sb, k).disk.hdr == Header(1)
  {
    if k > 0 {
      RebuiltHeader(sb, k - 1);
    }
  }

  lemma RebuiltRing(sb: Data)
    requires Dirty(sb)
    ensures Rebuilding(sb, 5).disk ==
            Disk(Header(1),
                 [Noted(5, 7, 0, EARLIER), Noted(1, 7, 0, EARLIER), Noted(2, 7, 0, EARLIER), Noted(3, 7, 0, EARLIER),
                   Noted(4, 7, 0, EARLIER)],
                 [EARLIER, EARLIER, EARLIER, EARLIER, EARLIER],
                 map[0 := sb, 7 := EARLIER, 9 := ZERO])
  {
    Slots();
    InRebuildAll(sb, 5);
    RebuiltHeader(sb, 5);
    RebuiltSlot(sb, 5, 1);
    RebuiltSlot(sb, 5, 2);
    RebuiltSlot(sb, 5, 3);
    RebuiltSlot(sb, 5, 4);
    RebuiltSlot(sb, 5, 5);
  }

  lemma FirstMount(sb: Data) returns (ss: seq<Machine>, aa: seq<Spec>, es: seq<Event>)
    requires Dirty(sb)
    ensures IsRun(N, ss, aa, es) && ss[|es|] == FirstUp(sb) && aa[|es|] == Spec(FirstUp(sb).disk.home, [])
  {
    Slots();
    RebuiltRing(sb);
    ss, aa, es := RebuildRuns(sb, 5);
    ss, aa, es := ExtendWrite(N, ss, aa, es, 0, Clean(sb));
    ss, aa, es := ExtendWrite(N, ss, aa, es, 0, sb);
  }

  /** One call: it writes block 7 and completes; then the power goes. */
  function Heads(sb: Data): seq<Head> {
    [Noted(5, 7, 0, EARLIER), Noted(6, 0, 0, Clean(sb)), Noted(7, 0, 0, sb), Noted(8, 7, 1, LATER),
      ComHead(1, 9, 1, 1, CommitCrc(1, 1))]
  }

  function Crashed(sb: Data): Disk {
    Disk(Header(1), Heads(sb), [EARLIER, Clean(sb), sb, LATER, ZERO], map[0 := sb, 7 := LATER, 9 := ZERO])
  }

  function Opened(sb: Data): Machine {
    Machine(FirstUp(sb).disk, Running, Mem(1, 8, 1, 1, 0, 2))
  }

  lemma CommitLands(sb: Data)
    ensures Next(N, Recorded(N, Opened(sb), 7, LATER), Do(Commit))
            == Machine(Crashed(sb), Running, Mem(1, 10, 0, 0, 0, 2))
  {
    Slots();
    var s := Recorded(N, Opened(sb), 7, LATER);
    var ws := OpWrites(s.mem, N, Commit);
    Unfold(s.disk, ws, 2);
    assert ws[..2] == ws;
  }

  lemma CallCompletes(sb: Data) returns (ss: seq<Machine>, aa: seq<Spec>, es: seq<Event>)
    requires Dirty(sb)
    ensures IsRun(N, ss, aa, es) && ss[|es|].phase == Off && ss[|es|].disk == Crashed(sb)
  {
    ss, aa, es := FirstMount(sb);
    ss, aa, es := Extend(N, ss, aa, es, Do(Begin), Opened(sb));
    ss, aa, es := ExtendWrite(N, ss, aa, es, 7, LATER);
    CommitLands(sb);
    ss, aa, es := Extend(N, ss, aa, es, Do(Commit), Machine(Crashed(sb), Running, Mem(1, 10, 0, 0, 0, 2)));
    assert OpWrites(ss[|es|].mem, N, Begin)[..0] == [];
    ss, aa, es := Extend(N, ss, aa, es, Event.Cut(Begin, 0), Machine(Crashed(sb), Off, Mem(1, 10, 0, 0, 0, 2)));
  }

  function Replay(sb: Data): seq<Write> {
    [ToHome(7, EARLIER), ToHome(0, Clean(sb)), ToHome(0, sb), ToHome(7, LATER)]
  }

  lemma RingApplies(sb: Data)
    ensures Formed(Crashed(sb))
    ensures forall i :: 0 <= i < 5 ==> (Applies(Crashed(sb), 1, i) <==> i < 4)
  {
    var d := Crashed(sb);
    assert Members(d, 1, 1, 1) == [];
    assert Members(d, 1, 1, 2) == [];
    assert Members(d, 1, 1, 3) == [];
    assert Members(d, 1, 1, 4) == [Item(8, 7, LATER)];
    assert Members(d, 1, 1, 5) == [Item(8, 7, LATER)];
    assert Complete(d, 1, 1);
  }

  lemma RingReplays(sb: Data)
    ensures Formed(Crashed(sb)) && IsReplay(Crashed(sb), 1, Replay(sb))
  {
    RingApplies(sb);
    var idx: seq<nat> := [0, 1, 2, 3];
    forall i: nat | i < 5 && Applies(Crashed(sb), 1, i) ensures i in idx {
      assert idx[i] == i;
    }
    assert ReplayOrder(Crashed(sb), 1, idx) && WritesOf(Crashed(sb), 1, idx, Replay(sb));
  }

  lemma RecoversLater(sb: Data)
    requires Dirty(sb)
    ensures Formed(Crashed(sb)) && FlagSet(Crashed(sb)) && Rcv(Crashed(sb), 1)[7] == LATER
  {
    RingApplies(sb);
    var w := Newest(Crashed(sb), 1, 7, 5);
    assert Crashed(sb).heads[3].num <= Crashed(sb).heads[w.value].num;
  }

  lemma CutShowsEarlier(sb: Data)
    ensures JournalDisk.Cut(Crashed(sb), Replay(sb), 2)
            == Crashed(sb).(home := map[0 := Clean(sb), 7 := EARLIER, 9 := ZERO])
  {
    CutStep(Crashed(sb), Replay(sb), 1);
    CutStep(Crashed(sb), Replay(sb), 2);
    assert Replay(sb)[..0] == [];
  }

  /** The completed write of block 7 is what a mount recovers; interrupt that mount's replay after
      two sector writes, and the next mount shows the value before it. */
  lemma InterruptedReplayLosesBlock()
    returns (ss: seq<Machine>, aa: seq<Spec>, es: seq<Event>, ws: seq<Write>, k: nat)
    ensures IsRun(N, ss, aa, es) && ss[|es|].phase.Off? && Formed(ss[|es|].disk) && k <= |ws|
    ensures FlagSet(ss[|es|].disk) && IsReplay(ss[|es|].disk, Generation(ss[|es|].disk), ws)
    ensures 7 in Recovered(ss[|es|].disk) && Recovered(ss[|es|].disk)[7] == LATER
    ensures var c := JournalDisk.Cut(ss[|es|].disk, ws, k);
            Formed(c) && 7 in Recovered(c) && Recovered(c)[7] == EARLIER != LATER
  {
    var sb := Flagged();
    Values();
    ss, aa, es := CallCompletes(sb);
    RingReplays(sb);
    RecoversLater(sb);
    CutShowsEarlier(sb);
    ws, k := Replay(sb), 2;
  }

  // ---- half a call ----

  /** The power goes while a call has written blocks 9 and 7 and not committed. */
  function Halfway(sb: Data): Disk {
    Disk(Header(1),
         [Noted(5, 7, 0, EARLIER), Noted(6, 0, 0, Clean(sb)), Noted(7, 0, 0, sb), Noted(8, 9, 1, LATER),
           Noted(9, 7, 1, LATER)],
         [EARLIER, Clean(sb), sb, LATER, LATER], map[0 := sb, 7 := LATER, 9 := LATER])
  }

  lemma HalfwayApplies(sb: Data)
    ensures Formed(Halfway(sb))
    ensures forall i :: 0 <= i < 5 ==> (Applies(Halfway(sb), 1, i) <==> i < 3)
  {
    var d := Halfway(sb);
    assert CommitCount(d, 1, 1, 1) == None;
    assert CommitCount(d, 1, 1, 2) == None;
    assert CommitCount(d, 1, 1, 3) == None;
    assert CommitCount(d, 1, 1, 4) == None;
    assert CommitCount(d, 1, 1, 5) == None;
  }

  lemma HalfwayRecovers(sb: Data)
    requires Dirty(sb)
    ensures Formed(Halfway(sb)) && FlagSet(Halfway(sb))
    ensures Rcv(Halfway(sb), 1)[7] == EARLIER && Rcv(Halfway(sb), 1)[9] == LATER
  {
    HalfwayApplies(sb);
    var d := Halfway(sb);
    var w, u := Newest(d, 1, 7, 5), Newest(d, 1, 9, 5);
    assert d.heads[0].num <= d.heads[w.value].num;
  }

  lemma HalfwayRun(sb: Data) returns (ss: seq<Machine>, aa: seq<Spec>, es: seq<Event>)
    requires Dirty(sb)
    ensures IsRun(N, ss, aa, es) && ss[|es|].phase == Running && ss[|es|].disk == Halfway(sb)
    ensures aa[|es|] == Spec(FirstUp(sb).disk.home, [(9, LATER), (7, LATER)])
  {
    Slots();
    ss, aa, es := FirstMount(sb);
    ss, aa, es := Extend(N, ss, aa, es, Do(Begin), Opened(sb));
    ss, aa, es := ExtendWrite(N, ss, aa, es, 9, LATER);
    ss, aa, es := ExtendWrite(N, ss, aa, es, 7, LATER);
  }

  /** A call that wrote two blocks leaves one new and one old: transactions are not applied whole
      or not at all, because the home sectors are written before the commit record. */
  lemma HalfACallSurvives() returns (ss: seq<Machine>, aa: seq<Spec>, es: seq<Event>)
    ensures IsRun(N, ss, aa, es) && |es| >= 1 && es[|es| - 1] == Event.Cut(Begin, 0)
    ensures aa[|es| - 1].open == [(9, LATER), (7, LATER)]
    ensures 7 in aa[|es| - 1].done && 9 in aa[|es| - 1].done
            && aa[|es| - 1].done[7] == EARLIER && aa[|es| - 1].done[9] == ZERO
    ensures Formed(ss[|es|].disk)
    ensures var r := Recovered(ss[|es|].disk); 7 in r && 9 in r && r[9] == LATER && r[7] == EARLIER
  {
    var sb := Flagged();
    Values();
    ss, aa, es := HalfwayRun(sb);
    assert OpWrites(ss[|es|].mem, N, Begin)[..0] == [];
    HalfwayRecovers(sb);
    ss, aa, es := Extend(N, ss, aa, es, Event.Cut(Begin, 0), ss[|es|].(phase := Off));
  }
}
