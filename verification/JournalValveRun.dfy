/** A run that shows the chunk valve losing a completed block at the next mount, step by step, on a
    ring of 202 slots. */
module JournalValveRun {
  // The oldest two records are the superblock of the last recovery, clear and then set.

  import opened JournalDisk
  import opened JournalRing
  import opened JournalWindow
  import opened JournalRun
  import opened JournalMachine
  import opened JournalDurable
  import opened JournalRuns
  import opened JournalFindings
  import opened JournalValve
  import opened JournalInterrupted

  const RING: nat := 202

  /** A device as `mkfs` leaves it, with a ring of `n` slots. */
  function Blank(n: nat, hdr: Header, sb: Data): Disk {
    Disk(hdr, seq(n, _ => Other), seq(n, _ => ZERO), map[0 := sb, 7 := ZERO, 9 := ZERO])
  }

  function BlankUp(n: nat, sb: Data): Machine {
    Machine(Blank(n, Header(1), sb), Recovering(0), Mem(1, 1, 0, 0, 0, 1))
  }

  lemma PowerOnBlank(n: nat, sb: Data) returns (ss: seq<Machine>, aa: seq<Spec>, es: seq<Event>)
    requires Dirty(sb) && n > 0
    ensures IsRun(n, ss, aa, es) && |es| == 1 && ss[1] == BlankUp(n, sb) && aa[1] == Spec(BlankUp(n, sb).disk.home, [])
  {
    var d := Blank(n, NoHeader, sb);
    forall x | x in d.home ensures RcvAt(d, 1, x) == d.home[x] {
      var w := Newest(d, 1, x, n);
    }
    assert Rcv(d, 1) == d.home;
    MaxNumBound(d, 1, n, 0);
    ss, aa, es := [Machine(d, Off, Mem(0, 0, 0, 0, 0, 1))], [Spec(d.home, [])], [];
    ss, aa, es := Extend(n, ss, aa, es, PowerOn, BlankUp(n, sb));
  }

  /** Slot `i` speaks of block 7 if of anything. */
  predicate Plain(d: Disk, i: nat) {
    i < |d.heads| && (d.heads[i].Other? || (d.heads[i].RecHead? && d.heads[i].lba == 7))
  }

  predicate PlainBut(d: Disk, but: set<nat>) {
    Formed(d) && |d.heads| == RING && d.hdr == Header(1) && forall i: nat :: i < RING && i !in but ==> Plain(d, i)
  }

  lemma StillPlain(s: Machine, x: nat, v: Data, but: set<nat>, but': set<nat>)
    requires PlainBut(s.disk, but) && but <= but' && (x == 7 || Slot(s.mem.next, RING) in but')
    ensures PlainBut(Recorded(RING, s, x, v).disk, but')
  {
    forall k: nat | k < RING && k !in but' ensures Plain(Recorded(RING, s, x, v).disk, k) {
      assert Plain(s.disk, k);
    }
  }

  predicate Rebuilt(s: Machine, sb: Data, k: nat) {
    PlainBut(s.disk, {}) && s.phase == Recovering(k) && s.mem == Mem(1, k + 1, 0, 0, 0, 1)
    && s.disk.home.Keys == {0, 7, 9} && s.disk.home[0] == sb
  }

  lemma {:induction false} Rebuild202(sb: Data, k: nat) returns (ss: seq<Machine>, aa: seq<Spec>, es: seq<Event>)
    requires Dirty(sb)
    ensures IsRun(RING, ss, aa, es) && Rebuilt(ss[|es|], sb, k) && aa[|es|] == Spec(ss[|es|].disk.home, [])
  {
    if k == 0 {
      ss, aa, es := PowerOnBlank(RING, sb);
    } else {
      ss, aa, es := Rebuild202(sb, k - 1);
      StillPlain(ss[|es|], 7, EARLIER, {}, {});
      ss, aa, es := ExtendWrite(RING, ss, aa, es, 7, EARLIER);
    }
  }

  lemma Slots202()
    ensures Slot(203, 202) == 1 && Slot(204, 202) == 2 && Slot(405, 202) == 1 && Slot(406, 202) == 2
  {
    SlotIsMod(203, 202); SlotIsMod(204, 202); SlotIsMod(405, 202); SlotIsMod(406, 202);
  }

  predicate Superblocks(d: Disk, sb: Data) {
    PlainBut(d, {1, 2}) && d.heads[1] == Noted(203, 0, 0, Clean(sb)) && d.bodies[1] == Clean(sb)
    && d.heads[2] == Noted(204, 0, 0, sb)
  }

  predicate FlagCleared(s: Machine, sb: Data) {
    PlainBut(s.disk, {1}) && s.phase == Cleared && s.mem == Mem(1, 204, 0, 0, 0, 1)
    && s.disk.heads[1] == Noted(203, 0, 0, Clean(sb)) && s.disk.bodies[1] == Clean(sb) && s.disk.home.Keys == {0, 7, 9}
  }

  predicate FlagSetAgain(s: Machine, sb: Data) {
    Superblocks(s.disk, sb) && s.phase == Running && s.mem == Mem(1, 205, 0, 0, 0, 1)
    && s.disk.home.Keys == {0, 7, 9} && s.disk.home[0] == sb
  }

  lemma FlagClears(s: Machine, sb: Data)
    requires Rebuilt(s, sb, 202)
    ensures FlagCleared(Recorded(RING, s, 0, Clean(sb)), sb)
  {
    Slots202();
    StillPlain(s, 0, Clean(sb), {}, {1});
  }

  lemma FlagSets(s: Machine, sb: Data)
    requires FlagCleared(s, sb) && Dirty(sb)
    ensures FlagSetAgain(Recorded(RING, s, 0, sb), sb)
  {
    Slots202();
    StillPlain(s, 0, sb, {1}, {1, 2});
  }

  lemma Mount202(sb: Data) returns (ss: seq<Machine>, aa: seq<Spec>, es: seq<Event>)
    requires Dirty(sb)
    ensures IsRun(RING, ss, aa, es) && FlagSetAgain(ss[|es|], sb) && aa[|es|] == Spec(ss[|es|].disk.home, [])
  {
    ss, aa, es := Rebuild202(sb, 202);
    FlagClears(ss[|es|], sb);
    ss, aa, es := ExtendWrite(RING, ss, aa, es, 0, Clean(sb));
    FlagSets(ss[|es|], sb);
    ss, aa, es := ExtendWrite(RING, ss, aa, es, 0, sb);
  }

  predicate Calling(s: Machine, sb: Data, j: nat) {
    && Superblocks(s.disk, sb) && s.phase == Running && s.mem == Mem(1, 205 + j, 1, 1, j, 2)
    && s.disk.home.Keys == {0, 7, 9} && s.disk.home[0] == sb
  }

  lemma SuperblocksStay(s: Machine, sb: Data, q: nat)
    requires Superblocks(s.disk, sb) && s.mem.next == q && 204 < q < 405
    ensures Superblocks(Recorded(RING, s, 7, LATER).disk, sb)
  {
    Slots202();
    SlotDistinct(203, q, 202);
    SlotDistinct(204, q, 202);
    StillPlain(s, 7, LATER, {1, 2}, {1, 2});
  }

  lemma CallingOn(s: Machine, sb: Data, j: nat)
    requires Calling(s, sb, j) && j < 200
    ensures Calling(Recorded(RING, s, 7, LATER), sb, j + 1)
  {
    SuperblocksStay(s, sb, 205 + j);
  }

  predicate OnlySeven(a: Spec, sb: Data) {
    0 in a.done && a.done[0] == sb && forall w :: w in a.open ==> w.0 == 7
  }

  /** One call that has written block 7 `j` times. */
  lemma {:induction false} LongCall(sb: Data, j: nat) returns (ss: seq<Machine>, aa: seq<Spec>, es: seq<Event>)
    requires Dirty(sb) && j <= 200
    ensures IsRun(RING, ss, aa, es) && Calling(ss[|es|], sb, j) && OnlySeven(aa[|es|], sb)
  {
    if j == 0 {
      ss, aa, es := Mount202(sb);
      ss, aa, es := Extend(RING, ss, aa, es, Do(Begin), ss[|es|].(mem := Mem(1, 205, 1, 1, 0, 2)));
    } else {
      ss, aa, es := LongCall(sb, j - 1);
      CallingOn(ss[|es|], sb, j - 1);
      ss, aa, es := ExtendWrite(RING, ss, aa, es, 7, LATER);
    }
  }

  lemma CleanSurfaces(d: Disk, c: Disk, sb: Data)
    requires Superblocks(d, sb) && Dirty(sb) && c.home == d.home && c.hdr == d.hdr && 0 in d.home && d.home[0] == sb
    requires GapAt(d, c, 1, RING, 2, 406, 1, 200)
    ensures Formed(c) && FlagSet(c) && Recovered(c)[0] == Clean(sb)
  {
    assert Applies(c, 1, 1);
    var w := Newest(c, 1, 0, RING);
    assert Plain(d, w.value) || w.value == 1;
  }

  /** The call has written nothing but block 7; cut between the commit record of its first chunk
      and its next record, the next mount shows block 0 as it was before the mount completed. */
  lemma ValveCutLosesBlock()
    returns (ss: seq<Machine>, aa: seq<Spec>, es: seq<Event>, c: Disk, sb: Data)
    ensures IsRun(RING, ss, aa, es) && CanStart(RING, ss[|es|], WriteBlock(7, LATER)) && Valve(ss[|es|].mem)
    ensures |OpWrites(ss[|es|].mem, RING, WriteBlock(7, LATER))| == 5
    ensures c == JournalDisk.Cut(ss[|es|].disk, OpWrites(ss[|es|].mem, RING, WriteBlock(7, LATER)), 2)
    ensures forall w :: w in InFlight(aa[|es|], WriteBlock(7, LATER)) ==> w.0 == 7
    ensures 0 in aa[|es|].done && aa[|es|].done[0] == sb
    ensures Formed(c) && 0 in Recovered(c) && Recovered(c)[0] == Clean(sb) != sb
  {
    sb := Flagged();
    ss, aa, es := LongCall(sb, 200);
    Slots202();
    ValveGap(ss[|es|].disk, ss[|es|].mem, RING, 7, LATER, 2);
    c := JournalDisk.Cut(ss[|es|].disk, OpWrites(ss[|es|].mem, RING, WriteBlock(7, LATER)), 2);
    CleanSurfaces(ss[|es|].disk, c, sb);
  }
}
