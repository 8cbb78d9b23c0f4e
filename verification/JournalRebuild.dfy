/** Why a recovery may restart the transaction ids: the rebuild writes enough to use every slot. */
module JournalRebuild {
  // `rebuild_bitmap` writes the bitmap at least once for every block of the journal, each write is one
  // untagged record, and a journal of `jb` blocks has fewer slots than that.

  import opened JournalDisk
  import opened JournalRing
  import opened JournalRun
  import opened JournalMachine
  import opened JournalDurable
  import opened JournalRuns
  import FsDisk
  import FsLayout
  import FsTree
  import FsRebuild

  const NREC: nat := 256

  /** The number of slots in a journal of `jb` blocks. */
  function RingSlots(jb: nat): nat {
    var n := (if jb == 0 then 0 else jb - 1) / 2;
    if n < NREC then n else NREC
  }

  lemma RingFits(jb: nat)
    requires jb >= 3
    ensures 1 <= RingSlots(jb) && 2 * RingSlots(jb) + 1 <= jb
  {
  }

  /** A machine `k` records into a recovery, on a device with blocks [0, blocks). */
  predicate Rebuilding(s: Machine, k: nat, blocks: nat) {
    Formed(s.disk) && s.phase == Recovering(k) && s.mem.depth == 0
    && forall x :: 0 <= x < blocks ==> x in s.disk.home
  }

  lemma RecordStep(n: nat, s: Machine, k: nat, blocks: nat, x: nat, v: Data) returns (s': Machine)
    requires n > 0 && Rebuilding(s, k, blocks) && 0 < x < blocks
    ensures CanStart(n, s, WriteBlock(x, v)) && s' == Next(n, s, Do(WriteBlock(x, v)))
    ensures Rebuilding(s', k + 1, blocks)
  {
    var ws := OpWrites(s.mem, n, WriteBlock(x, v));
    Unfold(s.disk, ws, 3);
    assert ws[..3] == ws;
    s' := Next(n, s, Do(WriteBlock(x, v)));
  }

  lemma StepsMore(n: nat, ss: seq<Machine>, aa: seq<Spec>, es: seq<Event>, s': Machine, e: Event)
    returns (aa': seq<Spec>)
    requires n > 0 && Steps(n, ss, aa, es) && Formed(ss[|es|].disk) && Enabled(n, ss[|es|], e)
    requires s' == Next(n, ss[|es|], e) && Formed(s'.disk) && !e.Cut?
    ensures Steps(n, ss + [s'], aa', es + [e]) && aa'[0] == aa[0]
  {
    aa' := aa + [SpecNext(n, ss[|es|], e, aa[|es|])];
    var tt, fs := ss + [s'], es + [e];
    forall i | 0 <= i < |fs| ensures StepOf(n, tt[i], aa'[i], fs[i], tt[i + 1], aa'[i + 1]) {
      if i < |es| {
        StepAt(n, ss, aa, es, i);
      }
    }
  }

  /** Event `k` writes the `k`-th sector of the log. */
  ghost predicate Writes(es: seq<Event>, log: seq<nat>, from: nat, data: nat -> Data) {
    from + |es| <= |log| && forall k: nat :: k < |es| ==> es[k] == Do(WriteBlock(log[from + k], data(k)))
  }

  lemma LogSector(l: FsLayout.Layout, was: seq<nat>, now: seq<nat>, k: nat)
    requires FsLayout.Placed(l) && FsDisk.Grew(l, was, now) && |was| <= k < |now|
    ensures 0 < now[k] < l.g.blocks
  {
  }

  lemma WritesMore(es: seq<Event>, log: seq<nat>, from: nat, data: nat -> Data)
    requires Writes(es, log, from, data) && from + |es| < |log|
    ensures Writes(es + [Do(WriteBlock(log[from + |es|], data(|es|)))], log, from, data)
  {
  }

  /** The writes of a rebuild are events the machine allows, one record each. */
  lemma {:induction false} RecordsRun(l: FsLayout.Layout, was: seq<nat>, now: seq<nat>, data: nat -> Data, c: nat,
                                      n: nat, s: Machine, a: Spec)
    returns (ss: seq<Machine>, aa: seq<Spec>, es: seq<Event>)
    requires FsLayout.Placed(l) && FsDisk.Grew(l, was, now) && c <= |now| - |was|
    requires n > 0 && Rebuilding(s, 0, l.g.blocks)
    ensures Steps(n, ss, aa, es) && ss[0] == s && aa[0] == a && |es| == c
    ensures Writes(es, now, |was|, data) && Rebuilding(ss[c], c, l.g.blocks)
  {
    if c == 0 {
      ss, aa, es := [s], [a], [];
    } else {
      ss, aa, es := RecordsRun(l, was, now, data, c - 1, n, s, a);
      LogSector(l, was, now, |was| + (c - 1));
      WritesMore(es, now, |was|, data);
      var x, v := now[|was| + (c - 1)], data(c - 1);
      var s' := RecordStep(n, ss[c - 1], c - 1, l.g.blocks, x, v);
      aa := StepsMore(n, ss, aa, es, s', Do(WriteBlock(x, v)));
      ss, es := ss + [s'], es + [Do(WriteBlock(x, v))];
    }
  }

  /** The recovery of a dirty mount, after the replay: the rebuild, and then the superblock write
      that clears the flag.  The rebuild's writes are allowed events of the machine, and after them
      the machine allows the flag to be cleared: `CanStart` asks nothing the code does not do. */
  method Recover(d: FsDisk.Disk, ghost n: nat, ghost s: Machine, ghost a: Spec, ghost data: nat -> Data, ghost sb: Data)
    returns (ghost ss: seq<Machine>, ghost aa: seq<Spec>, ghost es: seq<Event>)
    requires d.Valid() && FsTree.Disjoint(d.l.g, d.V()) && d.l.g.jb >= 3 && n == RingSlots(d.l.g.jb)
    requires Rebuilding(s, 0, d.l.g.blocks) && !Dirty(sb)
    modifies d`sectors, d`log
    ensures d.Valid() && FsRebuild.Rebuilt(d.l.g, old(d.V()), d.V())
    ensures Steps(n, ss, aa, es) && ss[0] == s && aa[0] == a
    ensures |es| == |d.log| - |old(d.log)| && Writes(es, d.log, |old(d.log)|, data)
    ensures ss[|es|].phase == Recovering(|es|) && CanStart(n, ss[|es|], WriteBlock(0, sb))
  {
    FsRebuild.RebuildBitmap(d);
    RingFits(d.l.g.jb);
    ss, aa, es := RecordsRun(d.l, old(d.log), d.log, data, |d.log| - |old(d.log)|, n, s, a);
  }
}
