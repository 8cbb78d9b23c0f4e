/** The chunk valve: the commit record of a full chunk is written before the record numbered ahead of
    it.  What the next mount shows after a cut between the two. */
module JournalValve {
  // A power cut between the two leaves a ring in which the slot due to be overwritten survives and the one
  // after it is gone.

  import opened Wrappers
  import opened JournalDisk
  import opened JournalRing
  import opened JournalWindow
  import opened JournalRun
  import opened JournalMachine
  import opened JournalDurable

  /** The ring with slot `i` overwritten by a commit of `t`, as both cuts leave it. */
  ghost predicate GapAt(d: Disk, c: Disk, g: nat, n: nat, i: nat, q: nat, t: nat, count: nat) {
    && Formed(d) && Formed(c) && |d.heads| == |c.heads| == n && i < n && t != 0
    && c.heads[i] == ComHead(g, q, t, count, CommitCrc(t, count)) && q != 0
    && (forall j :: 0 <= j < n && j != i ==> c.heads[j] == d.heads[j] && c.bodies[j] == d.bodies[j])
  }

  lemma GapMembers(d: Disk, c: Disk, g: nat, n: nat, i: nat, q: nat, t: nat, count: nat, u: nat)
    requires GapAt(d, c, g, n, i, q, t, count)
    ensures |Members(c, g, u, n)| == |MemberSet(d, g, u, n) - {i}|
    ensures |Members(d, g, u, n)| == |MemberSet(d, g, u, n)|
  {
    MembersSize(c, g, u, n);
    MembersSize(d, g, u, n);
    forall j: nat | j < n ensures j in MemberSet(c, g, u, n) <==> j in MemberSet(d, g, u, n) - {i} {
      assert IsMember(c, g, u, j) <==> j != i && IsMember(d, g, u, j);
    }
    assert MemberSet(c, g, u, n) == MemberSet(d, g, u, n) - {i};
  }

  lemma {:induction false} GapCommit(d: Disk, c: Disk, g: nat, n: nat, i: nat, q: nat, t: nat, count: nat, u: nat,
                                     k: nat)
    returns (j: nat)
    requires GapAt(d, c, g, n, i, q, t, count) && u != t && k <= n && CommitCount(c, g, u, k).Some?
    ensures j < k && j != i && IsCommitOf(d, g, u, j) && CommitCount(c, g, u, k) == Some(d.heads[j].count)
  {
    if IsCommitOf(c, g, u, k - 1) {
      j := k - 1;
    } else {
      j := GapCommit(d, c, g, n, i, q, t, count, u, k - 1);
    }
  }

  /** A transaction still whole with slot `i` gone was whole before, and slot `i` was no part of it. */
  lemma GapComplete(d: Disk, c: Disk, g: nat, n: nat, h: History, i: nat, q: nat, t: nat, count: nat, u: nat)
    requires GapAt(d, c, g, n, i, q, t, count) && Core(d, g, n, h) && u != t && u != 0 && Complete(c, g, u)
    ensures Complete(d, g, u) && !IsMember(d, g, u, i) && !IsCommitOf(d, g, u, i)
  {
    var j := GapCommit(d, c, g, n, i, q, t, count, u, n);
    EntryOf(d, g, n, h, j);
    var p := d.heads[j].num;
    GapMembers(d, c, g, n, i, q, t, count, u);
    MembersKept(d, g, n, h, p);
    SubsetSize(KeptRun(h, Lo(h, n), p), RunSet(h, h[p].tx, h[p].first, h[p].last));
    CommitCountIs(d, g, n, h, u, n);
    if IsCommitOf(d, g, u, i) {
      EntryOf(d, g, n, h, i);
    }
  }

  /** Slots of other transactions apply only if they did before. */
  lemma GapApplies(d: Disk, c: Disk, g: nat, n: nat, h: History, i: nat, q: nat, t: nat, count: nat, j: nat)
    requires GapAt(d, c, g, n, i, q, t, count) && Core(d, g, n, h) && j < n && Applies(c, g, j) && c.heads[j].tx != t
    ensures j != i && c.heads[j] == d.heads[j] && c.bodies[j] == d.bodies[j] && Applies(d, g, j)
    ensures d.heads[j].tx != 0 ==>
              !IsMember(d, g, d.heads[j].tx, i) && !IsCommitOf(d, g, d.heads[j].tx, i)
  {
    if d.heads[j].tx != 0 {
      GapComplete(d, c, g, n, h, i, q, t, count, d.heads[j].tx);
    }
  }

  /** What stops applying when slot `i` goes: slot `i`, and the transaction it belonged to. */
  lemma GapLost(d: Disk, c: Disk, g: nat, n: nat, h: History, i: nat, q: nat, t: nat, count: nat, j: nat)
    requires GapAt(d, c, g, n, i, q, t, count) && Core(d, g, n, h) && j < n && Applies(d, g, j) && !Applies(c, g, j)
    requires d.heads[j].tx != t
    ensures j == i || (d.heads[j].tx != 0 && (IsMember(d, g, d.heads[j].tx, i) || IsCommitOf(d, g, d.heads[j].tx, i)))
  {
    var u := d.heads[j].tx;
    if j != i && u != 0 && !IsMember(d, g, u, i) && !IsCommitOf(d, g, u, i) {
      GapMembers(d, c, g, n, i, q, t, count, u);
      assert MemberSet(d, g, u, n) - {i} == MemberSet(d, g, u, n);
      GapCounts(d, c, g, n, i, q, t, count, u, n);
    }
  }

  lemma {:induction false} GapCounts(d: Disk, c: Disk, g: nat, n: nat, i: nat, q: nat, t: nat, count: nat, u: nat,
                                     k: nat)
    requires GapAt(d, c, g, n, i, q, t, count) && u != t && k <= n && !IsCommitOf(d, g, u, i)
    ensures CommitCount(c, g, u, k) == CommitCount(d, g, u, k)
  {
    if k > 0 {
      GapCounts(d, c, g, n, i, q, t, count, u, k - 1);
    }
  }

  // ---- which value surfaces ----

  /** The only entries of the window at or before the slot that is gone. */
  lemma SlotBack(h: History, n: nat, q: nat)
    requires n >= 2 && Lo(h, n) <= q < |h| && Slot(q, n) == Slot(|h| + 1, n)
    ensures q == |h| + 1 - n
  {
    if q > |h| + 1 - n {
      SlotDistinct(q, |h| + 1, n);
    } else if q == |h| - n {
      SlotWraps(q, n);
      SlotDistinct(|h|, |h| + 1, n);
    }
  }

  lemma SlotBefore(h: History, n: nat, r: nat)
    requires n >= 2 && Lo(h, n) <= r < |h| + 1 - n
    ensures Slot(r, n) == Slot(|h|, n)
  {
    SlotWraps(r, n);
  }

  ghost predicate AtValve(d: Disk, c: Disk, m: Mem, n: nat, h: History, f: nat, base: map<nat, Data>) {
    && n >= 2 && Core(d, m.gen, n, h) && Agree(h, Lo(h, n), base, {})
    && OpenRun(h, Lo(h, n), m.tx, f, |h|, m.count) && LaidOver(h, m.tx, f, |h|, base, d.home)
    && GapAt(d, c, m.gen, n, Slot(|h| + 1, n), |h| + 1, m.tx, m.count)
    && c.home == d.home
  }

  lemma NotOpen(h: History, lo: nat, t: nat, f: nat, m: nat, s: nat)
    requires OpenRun(h, lo, t, f, |h|, m) && Counts(h, lo, s)
    ensures h[s].tx != t
  {
  }

  /** An older record shows its own value: whatever replaced it is still there. */
  lemma OlderSurfaces(d: Disk, c: Disk, m: Mem, n: nat, h: History, f: nat, base: map<nat, Data>, x: nat)
    requires AtValve(d, c, m, n, h, f, base)
    requires var w := Newest(c, m.gen, x, n);
             w.Some? && w.value != Slot(|h|, n) && c.heads[w.value].tx != m.tx
    ensures x in base && RcvAt(c, m.gen, x) == base[x]
  {
    var g, i, w := m.gen, Slot(|h| + 1, n), Newest(c, m.gen, x, n).value;
    GapApplies(d, c, g, n, h, i, |h| + 1, m.tx, m.count, w);
    AppliesIff(d, g, n, h, w);
    var r := d.heads[w].num;
    EntryOf(d, g, n, h, w);
    if Shadowed(h, Lo(h, n), r) {
      var s: nat :| r < s && Counts(h, Lo(h, n), s) && h[s].lba == x;
      NotShadowed(d, c, m, n, h, f, base, x, r, s);
    }
  }

  lemma NotShadowed(d: Disk, c: Disk, m: Mem, n: nat, h: History, f: nat, base: map<nat, Data>, x: nat, r: nat, s: nat)
    requires AtValve(d, c, m, n, h, f, base)
    requires Newest(c, m.gen, x, n) == Some(Slot(r, n)) && Slot(r, n) != Slot(|h|, n)
    requires c.heads[Slot(r, n)].tx != m.tx && c.heads[Slot(r, n)].num == r < s
    requires Counts(h, Lo(h, n), r)
    ensures !Counts(h, Lo(h, n), s) || h[s].lba != x
  {
    if Counts(h, Lo(h, n), s) && h[s].lba == x {
      var g, lo, i, j := m.gen, Lo(h, n), Slot(|h| + 1, n), Slot(s, n);
      CountsApplies(d, g, n, h, s);
      NotOpen(h, lo, m.tx, f, m.count, s);
      if !Applies(c, g, j) {
        GapLost(d, c, g, n, h, i, |h| + 1, m.tx, m.count, j);
        if r < |h| + 1 - n { SlotBefore(h, n, r); }
        if j == i {
          SlotBack(h, n, s);
        } else {
          LostRun(d, c, m, n, h, f, base, r, s);
        }
      }
    }
  }

  lemma LostRun(d: Disk, c: Disk, m: Mem, n: nat, h: History, f: nat, base: map<nat, Data>, r: nat, s: nat)
    requires AtValve(d, c, m, n, h, f, base)
    requires Applies(c, m.gen, Slot(r, n)) && c.heads[Slot(r, n)].tx != m.tx && c.heads[Slot(r, n)].num == r
    requires Counts(h, Lo(h, n), r) && Counts(h, Lo(h, n), s) && h[s].tx != 0
    requires var i := Slot(|h| + 1, n); IsMember(d, m.gen, h[s].tx, i) || IsCommitOf(d, m.gen, h[s].tx, i)
    ensures !(|h| + 1 - n <= r < s)
  {
    var g, lo, i, u := m.gen, Lo(h, n), Slot(|h| + 1, n), h[s].tx;
    EntryOf(d, g, n, h, i);
    SlotBack(h, n, d.heads[i].num);
    var p: nat :| ClosedBy(h, lo, u, p);
    assert ClosesWhole(h, p) && OwnsId(h, lo, p);
    SlotOfEntry(d, g, n, h, r);
    GapApplies(d, c, g, n, h, i, |h| + 1, m.tx, m.count, Slot(r, n));
  }

  /** A record of the chunk just closed shows the home sector. */
  lemma ChunkSurfaces(d: Disk, c: Disk, m: Mem, n: nat, h: History, f: nat, base: map<nat, Data>, x: nat)
    requires AtValve(d, c, m, n, h, f, base) && m.tx != 0
    requires var w := Newest(c, m.gen, x, n);
             w.Some? && w.value != Slot(|h|, n) && c.heads[w.value].tx == m.tx
    ensures x in d.home && RcvAt(c, m.gen, x) == d.home[x]
  {
    var g, i, w := m.gen, Slot(|h| + 1, n), Newest(c, m.gen, x, n).value;
    assert IsRecord(d, g, w);
    EntryOf(d, g, n, h, w);
    var r := d.heads[w].num;
    assert OfRun(h, m.tx, f, |h|, r);
    if Rewritten(h, m.tx, f, |h|, r) {
      var s: nat :| r < s && OfRun(h, m.tx, f, |h|, s) && h[s].lba == h[r].lba;
      var j := Slot(s, n);
      if j == i {
        SlotBack(h, n, s);
        SlotBefore(h, n, r);
      } else {
        SlotOfEntry(d, g, n, h, s);
        EntryOf(d, g, n, h, j);
        assert Applies(c, g, j);
      }
    }
  }

  /** The record in the slot due to be overwritten is the newest one left for its block, and its
      value is neither the completed one nor one the call wrote. */
  predicate StaleSurfaces(c: Disk, g: nat, i: nat, a: Spec, op: Op)
    requires Formed(c) && i < |c.heads|
  {
    c.heads[i].RecHead? && Newest(c, g, c.heads[i].lba, |c.heads|) == Some(i)
    && !Admits(a, op, c.heads[i].lba, c.bodies[i])
  }

  lemma ValveGap(d: Disk, m: Mem, n: nat, x: nat, v: Data, k: nat)
    requires Formed(d) && |d.heads| == n >= 2 && Valve(m) && m.tx != 0 && 1 <= k <= 2
    ensures |OpWrites(m, n, WriteBlock(x, v))| == 5
    ensures var c := JournalDisk.Cut(d, OpWrites(m, n, WriteBlock(x, v)), k);
            && GapAt(d, c, m.gen, n, Slot(m.next + 1, n), m.next + 1, m.tx, m.count)
            && c.home == d.home && c.hdr == d.hdr
  {
    var ws := OpWrites(m, n, WriteBlock(x, v));
    Unfold(d, ws[..2], k);
    assert ws[..2][..k] == ws[..k];
  }

  lemma SurfacesAdmitted(d: Disk, c: Disk, m: Mem, n: nat, h: History, f: nat, base: map<nat, Data>,
                         a: Spec, op: Op, x: nat)
    requires AtValve(d, c, m, n, h, f, base) && m.tx != 0 && x in c.home
    requires AllAdmitted(a, op, base) && AllAdmitted(a, op, d.home)
    requires Newest(c, m.gen, x, n) != Some(Slot(|h|, n))
    ensures Admits(a, op, x, RcvAt(c, m.gen, x))
  {
    var w := Newest(c, m.gen, x, n);
    if w.Some? {
      if c.heads[w.value].tx == m.tx {
        ChunkSurfaces(d, c, m, n, h, f, base, x);
      } else {
        OlderSurfaces(d, c, m, n, h, f, base, x);
      }
    }
  }

  lemma StaleBreaks(c: Disk, g: nat, i: nat, a: Spec, op: Op)
    requires Formed(c) && i < |c.heads| && StaleSurfaces(c, g, i, a, op)
    requires a.done.Keys == c.home.Keys && c.heads[i].lba in c.home
    ensures !Kept(a, op, Rcv(c, g))
  {
    var x := c.heads[i].lba;
    assert RcvAt(c, g, x) == c.bodies[i];
    assert Rcv(c, g)[x] == c.bodies[i];
  }

  lemma NoStaleKeeps(c: Disk, g: nat, i: nat, a: Spec, op: Op)
    requires Formed(c) && i < |c.heads| && !StaleSurfaces(c, g, i, a, op) && a.done.Keys == c.home.Keys
    requires forall x :: x in c.home && Newest(c, g, x, |c.heads|) != Some(i) ==> Admits(a, op, x, RcvAt(c, g, x))
    ensures Kept(a, op, Rcv(c, g))
  {
    forall x | x in a.done ensures Admits(a, op, x, RcvAt(c, g, x)) {
      if Newest(c, g, x, |c.heads|) == Some(i) {
        assert c.heads[i].lba == x;
      }
    }
  }

  lemma GapKept(d: Disk, c: Disk, m: Mem, n: nat, h: History, f: nat, base: map<nat, Data>, a: Spec, op: Op)
    requires AtValve(d, c, m, n, h, f, base) && m.tx != 0
    requires AllAdmitted(a, op, base) && AllAdmitted(a, op, d.home) && a.done.Keys == d.home.Keys
    ensures Kept(a, op, Rcv(c, m.gen)) <==> !StaleSurfaces(c, m.gen, Slot(|h|, n), a, op)
  {
    if StaleSurfaces(c, m.gen, Slot(|h|, n), a, op) {
      StaleAtHome(d, c, m, n, h, f, base);
      StaleBreaks(c, m.gen, Slot(|h|, n), a, op);
    } else {
      forall x | x in c.home && Newest(c, m.gen, x, |c.heads|) != Some(Slot(|h|, n))
        ensures Admits(a, op, x, RcvAt(c, m.gen, x))
      {
        SurfacesAdmitted(d, c, m, n, h, f, base, a, op, x);
      }
      NoStaleKeeps(c, m.gen, Slot(|h|, n), a, op);
    }
  }

  lemma StaleAtHome(d: Disk, c: Disk, m: Mem, n: nat, h: History, f: nat, base: map<nat, Data>)
    requires AtValve(d, c, m, n, h, f, base)
    ensures var i := Slot(|h|, n); Applies(c, m.gen, i) ==> c.heads[i].lba in c.home
  {
    var i := Slot(|h|, n);
    SlotDistinct(|h|, |h| + 1, n);
    if Applies(c, m.gen, i) {
      assert IsRecord(d, m.gen, i);
      EntryOf(d, m.gen, n, h, i);
    }
  }

  lemma ValveCutAt(d: Disk, m: Mem, n: nat, h: History, f: nat, base: map<nat, Data>, x: nat, v: Data, k: nat)
    returns (c: Disk)
    requires Core(d, m.gen, n, h) && m.next == |h| && Valve(m) && n >= 2 && 1 <= k <= 2
    requires Agree(h, Lo(h, n), base, {}) && OpenRun(h, Lo(h, n), m.tx, f, |h|, m.count)
    requires LaidOver(h, m.tx, f, |h|, base, d.home)
    ensures |OpWrites(m, n, WriteBlock(x, v))| == 5
    ensures c == JournalDisk.Cut(d, OpWrites(m, n, WriteBlock(x, v)), k)
    ensures AtValve(d, c, m, n, h, f, base) && c.hdr == d.hdr
  {
    ValveGap(d, m, n, x, v, k);
    c := JournalDisk.Cut(d, OpWrites(m, n, WriteBlock(x, v)), k);
  }

  // ---- the same, read off the device before the write ----

  lemma {:induction false} GapCountChunk(d: Disk, c: Disk, g: nat, n: nat, i: nat, q: nat, t: nat, count: nat, k: nat)
    requires GapAt(d, c, g, n, i, q, t, count) && k <= n
    requires forall j :: 0 <= j < n ==> !IsCommitOf(d, g, t, j)
    ensures CommitCount(c, g, t, k) == if i < k then Some(count) else None
  {
    if k > 0 {
      GapCountChunk(d, c, g, n, i, q, t, count, k - 1);
      if k - 1 != i {
        assert IsCommitOf(c, g, t, k - 1) <==> IsCommitOf(d, g, t, k - 1);
      }
    }
  }

  lemma ChunkUncommitted(d: Disk, g: nat, n: nat, h: History, t: nat, f: nat, m: nat, j: nat)
    requires Core(d, g, n, h) && OpenRun(h, Lo(h, n), t, f, |h|, m) && j < n
    ensures !IsCommitOf(d, g, t, j)
  {
    if IsCommitOf(d, g, t, j) {
      EntryOf(d, g, n, h, j);
    }
  }

  lemma ChunkApplies(d: Disk, c: Disk, m: Mem, n: nat, h: History, f: nat, base: map<nat, Data>, j: nat)
    requires AtValve(d, c, m, n, h, f, base) && m.tx != 0 && j < n && c.heads[j].RecHead? && c.heads[j].tx == m.tx
    ensures Applies(c, m.gen, j) <==> Survives(d, m, Slot(|h| + 1, n), j)
  {
    var g, i := m.gen, Slot(|h| + 1, n);
    forall u: nat | u < n ensures !IsCommitOf(d, g, m.tx, u) {
      ChunkUncommitted(d, g, n, h, m.tx, f, m.count, u);
    }
    GapCountChunk(d, c, g, n, i, |h| + 1, m.tx, m.count, n);
    GapMembers(d, c, g, n, i, |h| + 1, m.tx, m.count, m.tx);
  }

  lemma OtherApplies(d: Disk, c: Disk, m: Mem, n: nat, h: History, f: nat, base: map<nat, Data>, j: nat)
    requires AtValve(d, c, m, n, h, f, base) && m.tx != 0 && j < n && d.heads[j].RecHead? && d.heads[j].tx != m.tx
    ensures Applies(c, m.gen, j) <==> Survives(d, m, Slot(|h| + 1, n), j)
  {
    var g, i := m.gen, Slot(|h| + 1, n);
    if Applies(c, g, j) {
      GapApplies(d, c, g, n, h, i, |h| + 1, m.tx, m.count, j);
    }
    if Survives(d, m, i, j) && !Applies(c, g, j) {
      GapLost(d, c, g, n, h, i, |h| + 1, m.tx, m.count, j);
    }
  }

  lemma AppliesIsSurvives(d: Disk, c: Disk, m: Mem, n: nat, h: History, f: nat, base: map<nat, Data>, j: nat)
    requires AtValve(d, c, m, n, h, f, base) && m.tx != 0 && j < n
    ensures Applies(c, m.gen, j) <==> Survives(d, m, Slot(|h| + 1, n), j)
    ensures Applies(c, m.gen, j) ==> c.heads[j] == d.heads[j] && c.bodies[j] == d.bodies[j]
  {
    if j != Slot(|h| + 1, n) && d.heads[j].RecHead? {
      if d.heads[j].tx == m.tx {
        ChunkApplies(d, c, m, n, h, f, base, j);
      } else {
        OtherApplies(d, c, m, n, h, f, base, j);
      }
    }
  }

  /** The slot due to be overwritten holds the oldest number of the ring. */
  lemma DueIsOldest(d: Disk, g: nat, n: nat, h: History, j: nat)
    requires Core(d, g, n, h) && j < n && IsCurrent(d, g, j) && IsCurrent(d, g, Slot(|h|, n))
    ensures d.heads[Slot(|h|, n)].num <= d.heads[j].num
  {
    var i := Slot(|h|, n);
    EntryOf(d, g, n, h, i);
    EntryOf(d, g, n, h, j);
    if d.heads[i].num > |h| - n {
      SlotDistinct(d.heads[i].num, |h|, n);
    }
  }

  lemma DueSurfaces(d: Disk, c: Disk, m: Mem, n: nat, h: History, f: nat, base: map<nat, Data>)
    requires AtValve(d, c, m, n, h, f, base) && m.tx != 0
    requires var i, gap := Slot(|h|, n), Slot(|h| + 1, n);
             Survives(d, m, gap, i)
             && forall j :: 0 <= j < n && j != i && Survives(d, m, gap, j) ==> d.heads[j].lba != d.heads[i].lba
    ensures var i := Slot(|h|, n);
            c.heads[i] == d.heads[i] && c.bodies[i] == d.bodies[i] && Newest(c, m.gen, d.heads[i].lba, n) == Some(i)
  {
    var i := Slot(|h|, n);
    AppliesIsSurvives(d, c, m, n, h, f, base, i);
    var w := Newest(c, m.gen, d.heads[i].lba, n).value;
    AppliesIsSurvives(d, c, m, n, h, f, base, w);
  }

  lemma SurfacesSurvives(d: Disk, c: Disk, m: Mem, n: nat, h: History, f: nat, base: map<nat, Data>)
    requires AtValve(d, c, m, n, h, f, base) && m.tx != 0
    requires var i := Slot(|h|, n); c.heads[i].RecHead? && Newest(c, m.gen, c.heads[i].lba, n) == Some(i)
    ensures var i, gap := Slot(|h|, n), Slot(|h| + 1, n);
            Survives(d, m, gap, i) && c.heads[i] == d.heads[i] && c.bodies[i] == d.bodies[i]
  {
    AppliesIsSurvives(d, c, m, n, h, f, base, Slot(|h|, n));
  }

  lemma SameNumSameSlot(d: Disk, g: nat, n: nat, h: History, i: nat, j: nat)
    requires Core(d, g, n, h) && i < n && j < n && IsCurrent(d, g, i) && IsCurrent(d, g, j)
    requires d.heads[i].num == d.heads[j].num
    ensures i == j
  {
    EntryOf(d, g, n, h, i);
    EntryOf(d, g, n, h, j);
  }

  lemma SurfacesDue(d: Disk, c: Disk, m: Mem, n: nat, h: History, f: nat, base: map<nat, Data>, j: nat)
    requires AtValve(d, c, m, n, h, f, base) && m.tx != 0 && j < n && j != Slot(|h|, n)
    requires var i := Slot(|h|, n);
             Survives(d, m, Slot(|h| + 1, n), i) && c.heads[i] == d.heads[i]
             && Newest(c, m.gen, c.heads[i].lba, n) == Some(i)
    requires Survives(d, m, Slot(|h| + 1, n), j)
    ensures d.heads[j].lba != d.heads[Slot(|h|, n)].lba
  {
    var i := Slot(|h|, n);
    if d.heads[j].lba == d.heads[i].lba {
      AppliesIsSurvives(d, c, m, n, h, f, base, j);
      DueIsOldest(d, m.gen, n, h, j);
      SameNumSameSlot(d, m.gen, n, h, i, j);
    }
  }

  lemma StaleIsDue(d: Disk, c: Disk, m: Mem, n: nat, h: History, f: nat, base: map<nat, Data>, a: Spec, op: Op)
    requires AtValve(d, c, m, n, h, f, base) && m.tx != 0 && m.next == |h| && a.done.Keys == d.home.Keys
    ensures StaleSurfaces(c, m.gen, Slot(|h|, n), a, op) <==> StaleDue(d, m, n, a, op)
  {
    var i := Slot(|h|, n);
    if StaleSurfaces(c, m.gen, i, a, op) {
      SurfacesSurvives(d, c, m, n, h, f, base);
      forall j | 0 <= j < n && j != i && Survives(d, m, Slot(|h| + 1, n), j)
        ensures d.heads[j].lba != d.heads[i].lba
      {
        SurfacesDue(d, c, m, n, h, f, base, j);
      }
      StaleAtHome(d, c, m, n, h, f, base);
      NotAdmitted(a, op, d.heads[i].lba, d.bodies[i]);
    }
    if StaleDue(d, m, n, a, op) {
      DueSurfaces(d, c, m, n, h, f, base);
      NotAdmitted(a, op, d.heads[i].lba, d.bodies[i]);
    }
  }

  lemma NotAdmitted(a: Spec, op: Op, x: nat, v: Data)
    ensures !Admits(a, op, x, v) <==>
            && (x in a.done ==> v != a.done[x])
            && (x in a.done ==> (x, v) !in a.open && (op.WriteBlock? && x == op.lba ==> v != op.data))
  {
    if op.WriteBlock? {
      InFlightHas(a, op.lba, op.data);
    }
    assert forall y :: y in a.open ==> y in InFlight(a, op);
  }

  /** Exactly when the next mount after such a cut shows what it should, read off the device before
      the write: when the record the block's own record is about to overwrite is not the last word
      on a block whose completed value it does not hold. */
  lemma NextMountExact(n: nat, s: Machine, a: Spec, h: History, x: nat, v: Data, k: nat) returns (c: Disk)
    requires InvBy(n, s, a, h) && s.phase.Running? && Valve(s.mem) && n >= 2 && x in s.disk.home && 1 <= k <= 2
    ensures |OpWrites(s.mem, n, WriteBlock(x, v))| == 5
    ensures c == JournalDisk.Cut(s.disk, OpWrites(s.mem, n, WriteBlock(x, v)), k) && Formed(c) && |s.disk.heads| == n
    ensures Kept(a, WriteBlock(x, v), Recovered(c)) <==> !StaleDue(s.disk, s.mem, n, a, WriteBlock(x, v))
  {
    var f: nat, base: map<nat, Data> :| RunningBy(s.disk, n, h, s.mem, a, f, base);
    c := ValveCutAt(s.disk, s.mem, n, h, f, base, x, v, k);
    OverlayAdmitted(a, WriteBlock(x, v));
    AdmitsMore(a, WriteBlock(x, v), base);
    GapKept(s.disk, c, s.mem, n, h, f, base, a, WriteBlock(x, v));
    StaleIsDue(s.disk, c, s.mem, n, h, f, base, a, WriteBlock(x, v));
  }
}
