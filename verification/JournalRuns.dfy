/** Whole runs: any mounts, calls, shutdowns and power cuts, even of replays. */
module JournalRuns {
  import opened JournalDisk
  import opened JournalRing
  import opened JournalWindow
  import opened JournalRun
  import opened JournalMachine
  import opened JournalDurable
  import opened JournalSkipped
  import opened JournalSpared

  /** A fresh image: no header, no record, a superblock. */
  predicate Image(d: Disk, n: nat) {
    Formed(d) && |d.heads| == n > 0 && d.hdr.NoHeader? && 0 in d.home
    && forall i :: 0 <= i < n ==> d.heads[i].Other?
  }

  /** One event.  The cuts of the chunk valve that lose a block are left out. */
  ghost predicate StepOf(n: nat, s: Machine, a: Spec, e: Event, s': Machine, a': Spec) {
    && n > 0 && Formed(s.disk) && Enabled(n, s, e) && (e.Cut? ==> !ValveLoses(n, s, a, e.op, e.k))
    && s' == Next(n, s, e)
    && Formed(s'.disk) && a' == SpecNext(n, s, e, a)
  }

  /** `ss[i]` and `aa[i]` are the machine and the promise after the first `i` events. */
  ghost predicate Steps(n: nat, ss: seq<Machine>, aa: seq<Spec>, es: seq<Event>) {
    && |ss| == |aa| == |es| + 1
    && forall i {:trigger es[i]} :: 0 <= i < |es| ==> StepOf(n, ss[i], aa[i], es[i], ss[i + 1], aa[i + 1])
  }

  ghost predicate IsRun(n: nat, ss: seq<Machine>, aa: seq<Spec>, es: seq<Event>) {
    && Steps(n, ss, aa, es)
    && Image(ss[0].disk, n) && ss[0].phase == Off && aa[0] == Spec(ss[0].disk.home, [])
  }

  lemma ImageInv(n: nat, s: Machine, a: Spec)
    requires Image(s.disk, n) && s.phase == Off && a == Spec(s.disk.home, [])
    ensures Inv(n, s, a)
  {
    var d, h: History := s.disk, [Torn];
    forall x | x in d.home ensures RcvAt(d, 1, x) == d.home[x] {
      var w := Newest(d, 1, x, n);
    }
    assert Rcv(d, 1) == d.home;
    assert InvBy(n, s, a, h);
  }

  lemma StepAt(n: nat, ss: seq<Machine>, aa: seq<Spec>, es: seq<Event>, i: nat)
    requires Steps(n, ss, aa, es) && i < |es|
    ensures StepOf(n, ss[i], aa[i], es[i], ss[i + 1], aa[i + 1])
  {
    var _ := es[i];
  }

  lemma StepOfKeeps(n: nat, s: Machine, a: Spec, e: Event, s': Machine, a': Spec)
    requires StepOf(n, s, a, e, s', a') && Sound(n, s, a)
    ensures Sound(n, s', a')
  {
    SoundKeeps(n, s, a, e);
  }

  /** `Sound` along a run, as one fact about a position. */
  ghost predicate SoundAt(n: nat, ss: seq<Machine>, aa: seq<Spec>, i: int) {
    0 <= i < |ss| && i < |aa| && Sound(n, ss[i], aa[i])
  }

  lemma StepAtKeeps(n: nat, ss: seq<Machine>, aa: seq<Spec>, es: seq<Event>, i: nat)
    requires Steps(n, ss, aa, es) && i < |es| && SoundAt(n, ss, aa, i)
    ensures SoundAt(n, ss, aa, i + 1)
  {
    StepAt(n, ss, aa, es, i);
    StepOfKeeps(n, ss[i], aa[i], es[i], ss[i + 1], aa[i + 1]);
  }

  lemma StepsKeep(n: nat, ss: seq<Machine>, aa: seq<Spec>, es: seq<Event>, i: nat)
    requires Steps(n, ss, aa, es) && i <= |es| && SoundAt(n, ss, aa, 0)
    ensures SoundAt(n, ss, aa, i)
  {
    var j := 0;
    while j < i
      invariant j <= i && SoundAt(n, ss, aa, j)
    {
      StepAtKeeps(n, ss, aa, es, j);
      j := j + 1;
    }
  }

  lemma RunKeeps(n: nat, ss: seq<Machine>, aa: seq<Spec>, es: seq<Event>, i: nat)
    requires IsRun(n, ss, aa, es) && i <= |es|
    ensures Sound(n, ss[i], aa[i])
  {
    ImageInv(n, ss[0], aa[0]);
    StepsKeep(n, ss, aa, es, i);
  }

  /** A skipped number does not outlive the recovery. */
  lemma SoundInv(n: nat, s: Machine, a: Spec)
    requires Sound(n, s, a) && !s.phase.Off? && !s.phase.Recovering?
    ensures Inv(n, s, a)
  {
  }

  lemma CutOfStepKept(n: nat, s: Machine, a: Spec, e: Event, s': Machine, a': Spec)
    requires StepOf(n, s, a, e, s', a') && Sound(n, s, a) && e.Cut?
    ensures Kept(a, e.op, Recovered(s'.disk))
  {
    SoundKeeps(n, s, a, e);
  }

  lemma StepsKeepBlocks(n: nat, ss: seq<Machine>, aa: seq<Spec>, es: seq<Event>, i: nat)
    requires Steps(n, ss, aa, es) && Sound(n, ss[0], aa[0]) && i < |es| && es[i].Cut?
    ensures Formed(ss[i + 1].disk) && Kept(aa[i], es[i].op, Recovered(ss[i + 1].disk))
  {
    StepsKeep(n, ss, aa, es, i);
    StepAt(n, ss, aa, es, i);
    CutOfStepKept(n, ss[i], aa[i], es[i], ss[i + 1], aa[i + 1]);
  }

  /** Durability over whole runs: every power cut of a call, anywhere in the history of the
      device, leaves each block with its last completed value or one the call in flight wrote. */
  lemma RunKeepsBlocks(n: nat, ss: seq<Machine>, aa: seq<Spec>, es: seq<Event>, i: nat)
    requires IsRun(n, ss, aa, es) && i < |es| && es[i].Cut?
    ensures Formed(ss[i + 1].disk) && Kept(aa[i], es[i].op, Recovered(ss[i + 1].disk))
  {
    ImageInv(n, ss[0], aa[0]);
    StepsKeepBlocks(n, ss, aa, es, i);
  }

  /** Between calls nothing is at stake: the home sectors, what a replay would make of the device
      and the promise are the same. */
  lemma AtRest(n: nat, ss: seq<Machine>, aa: seq<Spec>, es: seq<Event>, i: nat)
    requires IsRun(n, ss, aa, es) && i <= |es| && ss[i].phase.Running? && ss[i].mem.depth == 0
    ensures Formed(ss[i].disk) && aa[i] == Spec(ss[i].disk.home, [])
    ensures Recovered(ss[i].disk) == ss[i].disk.home && FlagSet(ss[i].disk)
  {
    RunKeeps(n, ss, aa, es, i);
    var s, a := ss[i], aa[i];
    SoundInv(n, s, a);
    var h: History :| InvBy(n, s, a, h);
    var f: nat, base: map<nat, Data> :| RunningBy(s.disk, n, h, s.mem, a, f, base);
    RcvIsHome(s.disk, s.mem.gen, n, h);
  }

  /** A mount, complete or cut any number of times before, shows the same blocks to its caller. */
  lemma MountShowsPromise(n: nat, ss: seq<Machine>, aa: seq<Spec>, es: seq<Event>, i: nat)
    requires IsRun(n, ss, aa, es) && i < |es| && es[i].PowerOn?
    ensures ss[i + 1].disk.home == aa[i].done
  {
    RunKeeps(n, ss, aa, es, i);
    StepAt(n, ss, aa, es, i);
    OffShows(n, ss[i], aa[i]);
  }

  lemma OffShows(n: nat, s: Machine, a: Spec)
    requires Sound(n, s, a) && s.phase.Off?
    ensures Formed(s.disk) && Recovered(s.disk) == a.done
  {
  }

  // ---- transaction ids across restarts ----

  /** No other commit slot carries the id of commit slot `c`, and every record that does is older. */
  predicate ClosesAlone(d: Disk, g: nat, c: nat, j: nat)
    requires Formed(d) && c < |d.heads| && j < |d.heads|
  {
    IsCommit(d, g, c) ==>
      (IsCommitOf(d, g, d.heads[c].tx, j) ==> c == j)
      && (IsMember(d, g, d.heads[c].tx, j) ==> d.heads[j].num < d.heads[c].num)
  }

  /** Between two records of a committed transaction there is nothing but its own records and
      commits. */
  predicate Unbroken(d: Disk, g: nat, c: nat, i: nat, j: nat, k: nat)
    requires Formed(d) && c < |d.heads| && i < |d.heads| && j < |d.heads| && k < |d.heads|
  {
    (&& IsCommit(d, g, c) && IsMember(d, g, d.heads[c].tx, i) && IsMember(d, g, d.heads[c].tx, j)
     && IsCurrent(d, g, k) && d.heads[i].num < d.heads[k].num < d.heads[j].num)
    ==> IsCommit(d, g, k) || IsMember(d, g, d.heads[c].tx, k)
  }

  /** Every id of the generation names one transaction. */
  predicate OneCallPerId(d: Disk, g: nat)
    requires Formed(d)
  {
    var n := |d.heads|;
    && (forall c, j :: 0 <= c < n && 0 <= j < n ==> ClosesAlone(d, g, c, j))
    && (forall c, i, j, k :: 0 <= c < n && 0 <= i < n && 0 <= j < n && 0 <= k < n ==> Unbroken(d, g, c, i, j, k))
  }

  lemma CommitEntry(d: Disk, g: nat, n: nat, h: History, c: nat)
    requires Core(d, g, n, h) && c < n && IsCommit(d, g, c)
    ensures var p := d.heads[c].num;
            Lo(h, n) <= p < |h| && Slot(p, n) == c && h[p].Com? && h[p].tx == d.heads[c].tx
            && ClosesWhole(h, p) && OwnsId(h, Lo(h, n), p)
  {
    EntryOf(d, g, n, h, c);
  }

  lemma CoreCloses(d: Disk, g: nat, n: nat, h: History, c: nat, j: nat)
    requires Core(d, g, n, h) && c < n && j < n
    ensures ClosesAlone(d, g, c, j)
  {
    if IsCommit(d, g, c) && IsCurrent(d, g, j) {
      CommitEntry(d, g, n, h, c);
      EntryOf(d, g, n, h, j);
    }
  }

  lemma CoreUnbroken(d: Disk, g: nat, n: nat, h: History, c: nat, i: nat, j: nat, k: nat)
    requires Core(d, g, n, h) && c < n && i < n && j < n && k < n
    ensures Unbroken(d, g, c, i, j, k)
  {
    if IsCommit(d, g, c) && IsMember(d, g, d.heads[c].tx, i) && IsMember(d, g, d.heads[c].tx, j) && IsCurrent(d, g, k) {
      CommitEntry(d, g, n, h, c);
      EntryOf(d, g, n, h, i);
      EntryOf(d, g, n, h, j);
      EntryOf(d, g, n, h, k);
    }
  }

  lemma CoreIds(d: Disk, g: nat, n: nat, h: History)
    requires Core(d, g, n, h)
    ensures OneCallPerId(d, g)
  {
    forall c, j | 0 <= c < n && 0 <= j < n ensures ClosesAlone(d, g, c, j) {
      CoreCloses(d, g, n, h, c, j);
    }
    forall c, i, j, k | 0 <= c < n && 0 <= i < n && 0 <= j < n && 0 <= k < n ensures Unbroken(d, g, c, i, j, k) {
      CoreUnbroken(d, g, n, h, c, i, j, k);
    }
  }

  /** Whether an id names one transaction is read off the ring alone. */
  lemma IdsFrame(d: Disk, e: Disk, g: nat)
    requires Formed(d) && OneCallPerId(d, g) && e.heads == d.heads && e.bodies == d.bodies
    ensures OneCallPerId(e, g)
  {
    forall c, j | 0 <= c < |e.heads| && 0 <= j < |e.heads| ensures ClosesAlone(e, g, c, j) {
      assert ClosesAlone(d, g, c, j);
    }
    forall c, i, j, k | 0 <= c < |e.heads| && 0 <= i < |e.heads| && 0 <= j < |e.heads| && 0 <= k < |e.heads|
      ensures Unbroken(e, g, c, i, j, k)
    {
      assert Unbroken(d, g, c, i, j, k);
    }
  }

  lemma TwinCloses(d: Disk, e: Disk, g: nat, n: nat, h: History, q: nat, c: nat, j: nat)
    requires Twin(d, e, g, n, h, q) && c < n && j < n
    ensures ClosesAlone(d, g, c, j)
  {
    var i := Slot(q, n);
    if IsCommit(d, g, c) && c != j && (IsCommit(d, g, j) || IsRecord(d, g, j)) {
      if c == i {
        EntryOf(e, g, n, h, j);
      } else if j == i {
        EntryOf(e, g, n, h, c);
        LeftOverIsOldest(d, e, g, n, h, q, c);
      } else {
        CoreCloses(e, g, n, h, c, j);
        assert IsCommit(e, g, c) && (IsCommit(e, g, j) || IsRecord(e, g, j));
      }
    }
  }

  lemma TwinUnbroken(d: Disk, e: Disk, g: nat, n: nat, h: History, q: nat, c: nat, i: nat, j: nat, k: nat)
    requires Twin(d, e, g, n, h, q) && c < n && i < n && j < n && k < n
    ensures Unbroken(d, g, c, i, j, k)
  {
    if IsCommit(d, g, c) && IsMember(d, g, d.heads[c].tx, i) && IsMember(d, g, d.heads[c].tx, j) && IsCurrent(d, g, k)
       && d.heads[i].num < d.heads[k].num < d.heads[j].num {
      var z := Slot(q, n);
      if j == z { LeftOverIsOldest(d, e, g, n, h, q, i); }
      if k == z { LeftOverIsOldest(d, e, g, n, h, q, i); }
      TwinCloses(d, e, g, n, h, q, c, j);
      if c == z { LeftOverIsOldest(d, e, g, n, h, q, j); }
      if i == z {
        assert IsCommit(e, g, c) && IsMember(e, g, d.heads[c].tx, j) && IsCurrent(e, g, k);
        CommitEntry(e, g, n, h, c);
        EntryOf(e, g, n, h, j);
        EntryOf(e, g, n, h, k);
      } else {
        CoreUnbroken(e, g, n, h, c, i, j, k);
        assert IsCommit(e, g, c) && IsMember(e, g, d.heads[c].tx, i) && IsMember(e, g, d.heads[c].tx, j);
        assert IsCurrent(e, g, k);
      }
    }
  }

  lemma TwinIds(d: Disk, e: Disk, g: nat, n: nat, h: History, q: nat)
    requires Twin(d, e, g, n, h, q)
    ensures OneCallPerId(d, g)
  {
    forall c, j | 0 <= c < n && 0 <= j < n ensures ClosesAlone(d, g, c, j) {
      TwinCloses(d, e, g, n, h, q, c, j);
    }
    forall c, i, j, k | 0 <= c < n && 0 <= i < n && 0 <= j < n && 0 <= k < n ensures Unbroken(d, g, c, i, j, k) {
      TwinUnbroken(d, e, g, n, h, q, c, i, j, k);
    }
  }

  lemma SkippedIds(n: nat, s: Machine, a: Spec)
    requires Skipped(n, s, a)
    ensures Formed(s.disk) && OneCallPerId(s.disk, if s.phase.Off? then Generation(s.disk) else s.mem.gen)
  {
    var e: Disk, h: History, q: nat :| SkippedBy(n, s, a, e, h, q);
    if s.phase.Off? {
      TwinIds(Restored(s.disk), e, Generation(s.disk), n, h, q);
      IdsFrame(Restored(s.disk), s.disk, Generation(s.disk));
    } else {
      TwinIds(s.disk, e, s.mem.gen, n, h, q);
    }
  }

  /** Ids restart at 1 on every mount, and still never name two transactions of one generation. */
  lemma IdsNameOneCall(n: nat, ss: seq<Machine>, aa: seq<Spec>, es: seq<Event>, i: nat)
    requires IsRun(n, ss, aa, es) && i <= |es|
    ensures Formed(ss[i].disk)
    ensures OneCallPerId(ss[i].disk, if ss[i].phase.Off? then Generation(ss[i].disk) else ss[i].mem.gen)
  {
    RunKeeps(n, ss, aa, es, i);
    if Inv(n, ss[i], aa[i]) {
      var h: History :| InvBy(n, ss[i], aa[i], h);
      CoreIds(ss[i].disk, if ss[i].phase.Off? then Generation(ss[i].disk) else ss[i].mem.gen, n, h);
    } else {
      SkippedIds(n, ss[i], aa[i]);
    }
  }

  /** By the first `begin` after a mount, no slot of the ring holds a tagged record or a commit of
      an earlier life. */
  lemma NoOldIds(n: nat, ss: seq<Machine>, aa: seq<Spec>, es: seq<Event>, i: nat)
    requires IsRun(n, ss, aa, es) && i < |es| && ss[i].phase.Cleared?
    ensures Formed(ss[i].disk)
    ensures forall j :: 0 <= j < |ss[i].disk.heads| ==>
              !IsCommit(ss[i].disk, ss[i].mem.gen, j)
              && (IsRecord(ss[i].disk, ss[i].mem.gen, j) ==> ss[i].disk.heads[j].tx == 0)
  {
    RunKeeps(n, ss, aa, es, i);
    SoundInv(n, ss[i], aa[i]);
    var h: History :| InvBy(n, ss[i], aa[i], h);
    var d, g := ss[i].disk, ss[i].mem.gen;
    forall j | 0 <= j < n ensures !IsCommit(d, g, j) && (IsRecord(d, g, j) ==> d.heads[j].tx == 0) {
      if IsCurrent(d, g, j) {
        EntryOf(d, g, n, h, j);
      }
    }
  }
}
