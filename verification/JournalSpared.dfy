/** The cuts of the chunk valve that lose nothing: what they leave behind is harmless for good, and so
    every event keeps what a run relies on. */
module JournalSpared {
  import opened Wrappers
  import opened JournalDisk
  import opened JournalRing
  import opened JournalWindow
  import opened JournalRun
  import opened JournalMachine
  import opened JournalDurable
  import opened JournalValve
  import opened JournalSkipped

  // ---- the twin of the device ----

  lemma TornEntries(d: Disk, m: Mem, n: nat, h: History, a: Spec, f: nat, base: map<nat, Data>, x: nat, z: Data)
    returns (r: Disk)
    requires Core(d, m.gen, n, h) && m.next == |h| && Valve(m) && n >= 2 && x in d.home
    requires RunningBy(d, n, h, m, a, f, base) && z != d.bodies[Slot(|h|, n)]
    ensures r == Put(d, RecordPair(m, n, |h|, m.txNext, x, z)[0]) && Core(r, m.gen, n, Push(h, Torn))
    ensures OpenRun(Push(h, Torn), Lo(Push(h, Torn), n), m.tx, f, |h|, m.count)
  {
    ValveEntries(d, m, n, h, x, z, Torn, f, base, d.home);
    r := RecordLanded(d, m, n, h, x, z, true, Torn);
  }

  function Committed(d: Disk, n: nat, m: Mem, k: nat): Disk
    requires n > 0
  {
    var cs := CommitPair(m, n, m.next + 1, m.tx, m.count);
    if k == 1 then Put(d, cs[0]) else Put(Put(d, cs[0]), cs[1])
  }

  lemma CommittedLands(r: Disk, m: Mem, n: nat, h: History, f: nat, k: nat)
    requires Core(r, m.gen, n, h) && |h| == m.next + 1 && m.count > 1 && 1 <= k <= 2
    requires OpenRun(h, Lo(h, n), m.tx, f, m.next, m.count)
    ensures Core(Committed(r, n, m, k), m.gen, n, Push(h, Com(m.tx, m.count, f, m.next)))
  {
    CommitWritten(r, m, n, h, m.tx, f, m.next, m.count);
  }

  lemma CommittedApart(d: Disk, r: Disk, m: Mem, n: nat, k: nat, head: Head)
    requires Formed(d) && |d.heads| == n >= 2 && r == Put(d, ToHead(Slot(m.next, n), head)) && 1 <= k <= 2
    ensures var c, e := Committed(d, n, m, k), Committed(r, n, m, k);
            Differ(e, c, Slot(m.next, n)) && e.hdr == c.hdr && e.bodies == c.bodies && e.home == c.home
  {
    SlotDistinct(m.next, m.next + 1, n);
  }

  /** The device with a torn record under the skipped number, and then the commit record cut where
      it was. */
  lemma ValveTwin(d: Disk, m: Mem, n: nat, h: History, a: Spec, f: nat, base: map<nat, Data>, x: nat, k: nat)
    returns (e: Disk, h': History)
    requires Core(d, m.gen, n, h) && m.next == |h| && Valve(m) && n >= 2 && 1 <= k <= 2 && x in d.home
    requires RunningBy(d, n, h, m, a, f, base)
    ensures h' == Push(Push(h, Torn), Com(m.tx, m.count, f, |h|)) && Core(e, m.gen, n, h')
    ensures var c := Committed(d, n, m, k);
            Differ(e, c, Slot(|h|, n)) && e.hdr == c.hdr && e.bodies == c.bodies && e.home == c.home
  {
    var i := Slot(|h|, n);
    var z := if d.bodies[i] == Filled(1) then Filled(2) else Filled(1);
    OtherValue(d.bodies[i]);
    var r := TornEntries(d, m, n, h, a, f, base, x, z);
    CommittedLands(r, m, n, Push(h, Torn), f, k);
    e, h' := Committed(r, n, m, k), Push(Push(h, Torn), Com(m.tx, m.count, f, |h|));
    CommittedApart(d, r, m, n, k, RecordPair(m, n, |h|, m.txNext, x, z)[0].head);
  }

  lemma OtherValue(b: Data)
    ensures (if b == Filled(1) then Filled(2) else Filled(1)) != b
  {
    assert Filled(1)[0] == 1 && Filled(2)[0] == 2;
  }

  lemma ValveCutDisk(d: Disk, m: Mem, n: nat, x: nat, v: Data, k: nat)
    requires Formed(d) && |d.heads| == n >= 2 && Valve(m) && 1 <= k <= 2
    ensures |OpWrites(m, n, WriteBlock(x, v))| == 5
    ensures JournalDisk.Cut(d, OpWrites(m, n, WriteBlock(x, v)), k) == Committed(d, n, m, k)
  {
    var ws := OpWrites(m, n, WriteBlock(x, v));
    Unfold(d, ws[..2], k);
    assert ws[..2][..k] == ws[..k];
  }

  // ---- what is left in the slot of the skipped number ----

  lemma LeftOverNum(d: Disk, g: nat, n: nat, h: History)
    requires Core(d, g, n, h) && IsCurrent(d, g, Slot(|h|, n))
    ensures var i := Slot(|h|, n); d.heads[i].num + n == |h| && Lo(h, n) == d.heads[i].num >= 1
  {
    EntryOf(d, g, n, h, Slot(|h|, n));
    var p := d.heads[Slot(|h|, n)].num;
    if p > |h| - n {
      SlotDistinct(p, |h|, n);
    }
  }

  lemma LeftOverFromBefore(d: Disk, c: Disk, m: Mem, n: nat, h: History, f: nat, base: map<nat, Data>, h': History)
    requires AtValve(d, c, m, n, h, f, base) && h' == Push(Push(h, Torn), Com(m.tx, m.count, f, |h|))
    ensures FromBefore(c, m.gen, n, h', |h|)
  {
    var g, i := m.gen, Slot(|h|, n);
    SlotDistinct(|h|, |h| + 1, n);
    if IsCurrent(c, g, i) {
      assert IsCurrent(d, g, i);
      LeftOverNum(d, g, n, h);
      EntryOf(d, g, n, h, i);
      forall p {:trigger h'[p]} | Lo(h', n) <= p < |h'|
        ensures IsCommit(c, g, i) ==> TxOf(h'[p]) != c.heads[i].tx
        ensures IsRecord(c, g, i) && c.heads[i].tx != 0 && h'[p].Com? && h'[p].tx == c.heads[i].tx ==>
                  h'[p].first + n <= |h|
      {
        if p < |h| {
          assert h'[p] == h[p];
          EarlierEntry(d, g, n, h, i, p);
        } else if IsCommit(c, g, i) {
          ChunkUncommitted(d, g, n, h, m.tx, f, m.count, i);
        }
      }
    }
  }

  lemma EarlierEntry(d: Disk, g: nat, n: nat, h: History, i: nat, p: nat)
    requires Core(d, g, n, h) && i == Slot(|h|, n) && IsCurrent(d, g, i) && d.heads[i].num < p < |h|
    ensures IsCommit(d, g, i) ==> TxOf(h[p]) != d.heads[i].tx
    ensures IsRecord(d, g, i) && d.heads[i].tx != 0 && h[p].Com? && h[p].tx == d.heads[i].tx ==> h[p].first + n <= |h|
  {
    LeftOverNum(d, g, n, h);
    EntryOf(d, g, n, h, i);
    var q := d.heads[i].num;
    if IsCommit(d, g, i) {
      assert ClosesWhole(h, q) && OwnsId(h, Lo(h, n), q);
    }
    if h[p].Com? {
      assert OwnsId(h, Lo(h, n), p);
    }
  }

  // -- a commit --

  lemma CommitLeftOver(d: Disk, c: Disk, m: Mem, n: nat, h: History, f: nat, base: map<nat, Data>)
    requires AtValve(d, c, m, n, h, f, base) && IsCommit(c, m.gen, Slot(|h|, n))
    ensures Starved(c, m.gen, c.heads[Slot(|h|, n)].tx)
  {
    var g, i := m.gen, Slot(|h|, n);
    SlotDistinct(|h|, |h| + 1, n);
    assert IsCommit(d, g, i);
    ChunkUncommitted(d, g, n, h, m.tx, f, m.count, i);
    LeftOverNum(d, g, n, h);
    EntryOf(d, g, n, h, i);
    var t, q := d.heads[i].tx, d.heads[i].num;
    assert ClosesWhole(h, q) && OwnsId(h, Lo(h, n), q);
    assert h[q].first in RunSet(h, t, h[q].first, h[q].last);
    forall j: nat | j < n ensures j !in MemberSet(c, g, t, n) {
      if IsMember(c, g, t, j) {
        EntryOf(d, g, n, h, j);
      }
    }
    assert MemberSet(c, g, t, n) == {};
    forall j | 0 <= j < n && IsCommitOf(c, g, t, j) ensures 0 < c.heads[j].count {
      assert IsCommitOf(d, g, t, j);
      EntryOf(d, g, n, h, j);
    }
  }

  // -- a record of a transaction --

  lemma {:induction false} SoleCommit(c: Disk, g: nat, u: nat, j: nat, k: nat)
    requires Formed(c) && j < k <= |c.heads| && IsCommitOf(c, g, u, j)
    requires forall i :: 0 <= i < |c.heads| && IsCommitOf(c, g, u, i) ==> i == j
    ensures CommitCount(c, g, u, k) == Some(c.heads[j].count)
  {
    if k - 1 != j {
      SoleCommit(c, g, u, j, k - 1);
    }
  }

  lemma IncompleteIsStarved(c: Disk, g: nat, u: nat, j: nat)
    requires Formed(c) && j < |c.heads| && IsCommitOf(c, g, u, j) && !Complete(c, g, u)
    requires forall i :: 0 <= i < |c.heads| && IsCommitOf(c, g, u, i) ==> i == j
    requires |MemberSet(c, g, u, |c.heads|)| <= c.heads[j].count
    ensures Starved(c, g, u)
  {
    SoleCommit(c, g, u, j, |c.heads|);
    MembersSize(c, g, u, |c.heads|);
  }

  lemma RunMembers(d: Disk, g: nat, n: nat, h: History, u: nat, f: nat, l: nat)
    requires Core(d, g, n, h) && u != 0 && l <= |h|
    requires forall r :: Lo(h, n) <= r < |h| && h[r].Rec? && h[r].tx == u ==> f <= r < l
    ensures |MemberSet(d, g, u, n)| <= |RunSet(h, u, f, l)|
  {
    var w := set r | r in RunSet(h, u, f, l) && Lo(h, n) <= r;
    forall i | i in MemberSet(d, g, u, n) ensures i in SlotsOf(w, n) {
      EntryOf(d, g, n, h, i);
      assert d.heads[i].num in w;
    }
    SlotsOfSize(w, n, Lo(h, n));
    SubsetSize(MemberSet(d, g, u, n), SlotsOf(w, n));
    SubsetSize(w, RunSet(h, u, f, l));
  }

  lemma FewerLeft(d: Disk, c: Disk, m: Mem, n: nat, h: History, f: nat, base: map<nat, Data>, u: nat)
    requires AtValve(d, c, m, n, h, f, base)
    ensures |MemberSet(c, m.gen, u, n)| <= |MemberSet(d, m.gen, u, n)|
  {
    assert forall j: nat :: j < n && IsMember(c, m.gen, u, j) ==> IsMember(d, m.gen, u, j);
    SubsetSize(MemberSet(c, m.gen, u, n), MemberSet(d, m.gen, u, n));
  }

  lemma OldIncomplete(d: Disk, c: Disk, m: Mem, n: nat, h: History, f: nat, base: map<nat, Data>, u: nat)
    requires AtValve(d, c, m, n, h, f, base) && u != 0 && u != m.tx && !Complete(c, m.gen, u)
    ensures Starved(c, m.gen, u)
  {
    var g := m.gen;
    FewerLeft(d, c, m, n, h, f, base, u);
    if j :| 0 <= j < n && IsCommitOf(c, g, u, j) {
      assert IsCommitOf(d, g, u, j);
      EntryOf(d, g, n, h, j);
      var p := d.heads[j].num;
      assert ClosesWhole(h, p) && OwnsId(h, Lo(h, n), p);
      RunMembers(d, g, n, h, u, h[p].first, h[p].last);
      forall i | 0 <= i < n && IsCommitOf(c, g, u, i) ensures i == j {
        assert IsCommitOf(d, g, u, i);
        EntryOf(d, g, n, h, i);
      }
      IncompleteIsStarved(c, g, u, j);
    }
  }

  lemma ChunkIncomplete(d: Disk, c: Disk, m: Mem, n: nat, h: History, f: nat, base: map<nat, Data>)
    requires AtValve(d, c, m, n, h, f, base) && m.tx != 0 && !Complete(c, m.gen, m.tx)
    ensures Starved(c, m.gen, m.tx)
  {
    var g, u := m.gen, m.tx;
    FewerLeft(d, c, m, n, h, f, base, u);
    RunMembers(d, g, n, h, u, f, |h|);
    forall i | 0 <= i < n && IsCommitOf(c, g, u, i) ensures i == Slot(|h| + 1, n) {
      ChunkUncommitted(d, g, n, h, u, f, m.count, i);
    }
    IncompleteIsStarved(c, g, u, Slot(|h| + 1, n));
  }

  // -- a record of a transaction that is still whole --

  /** The entry after the next in a run that begins with the left-over: a record of the run, or its
      commit. */
  lemma SecondNext(h: History, p: nat, q: nat)
    requires p < |h| && h[p].Com? && ClosesWhole(h, p) && h[p].first == q && q + 1 < |h|
    requires !(h[q + 1].Rec? && h[q + 1].tx == h[p].tx) && p != q + 1
    ensures q + 2 < |h| && (p == q + 2 || (h[q + 2].Rec? && h[q + 2].tx == h[p].tx))
  {
    var e := h[p];
    if e.last <= q + 2 {
      assert RunSet(h, e.tx, e.first, e.last) == {q};
    }
  }

  lemma OldRun(d: Disk, c: Disk, m: Mem, n: nat, h: History, f: nat, base: map<nat, Data>, u: nat) returns (p: nat)
    requires AtValve(d, c, m, n, h, f, base) && m.tx != 0 && IsMember(c, m.gen, u, Slot(|h|, n))
    requires u != 0 && u != m.tx && Complete(c, m.gen, u)
    ensures Lo(h, n) <= p < |h| && h[p].Com? && h[p].tx == u && h[p].first + n == |h| && ClosesWhole(h, p)
    ensures OwnsId(h, Lo(h, n), p) && Lo(h, n) + n == |h|
    ensures !IsMember(d, m.gen, u, Slot(|h| + 1, n)) && !IsCommitOf(d, m.gen, u, Slot(|h| + 1, n))
  {
    var g, i := m.gen, Slot(|h|, n);
    SlotDistinct(|h|, |h| + 1, n);
    GapComplete(d, c, g, n, h, Slot(|h| + 1, n), |h| + 1, m.tx, m.count, u);
    CompleteIff(d, g, n, h, u);
    p :| ClosedBy(h, Lo(h, n), u, p);
    assert ClosesWhole(h, p) && OwnsId(h, Lo(h, n), p);
    assert IsCurrent(d, g, i);
    LeftOverNum(d, g, n, h);
    EntryOf(d, g, n, h, i);
  }

  /** The run of the left-over goes on in the entry after the next, or is closed there. */
  lemma RunGoesOn(d: Disk, g: nat, n: nat, h: History, u: nat, p: nat, q: nat)
    requires Core(d, g, n, h) && Lo(h, n) <= q && q + 1 < |h|
    requires p < |h| && h[p].Com? && h[p].tx == u && h[p].first == q && ClosesWhole(h, p)
    requires !IsMember(d, g, u, Slot(q + 1, n)) && !IsCommitOf(d, g, u, Slot(q + 1, n))
    ensures var j := Slot(q + 2, n); IsMember(d, g, u, j) || (IsCommitOf(d, g, u, j) && j == Slot(p, n))
  {
    EntryAt(d, g, n, h, q + 1);
    SecondNext(h, p, q);
    EntryAt(d, g, n, h, q + 2);
  }

  lemma PartKept(d: Disk, c: Disk, g: nat, n: nat, gap: nat, p: nat, t: nat, count: nat, u: nat, j: nat)
    requires GapAt(d, c, g, n, gap, p, t, count) && j < n && j != gap
    ensures IsMember(c, g, u, j) <==> IsMember(d, g, u, j)
    ensures IsCommitOf(c, g, u, j) <==> IsCommitOf(d, g, u, j)
  {
  }

  lemma RunOutlasts(d: Disk, c: Disk, g: nat, n: nat, h: History, t: nat, count: nat, u: nat, p: nat)
    requires Core(d, g, n, h) && n >= 2 && GapAt(d, c, g, n, Slot(|h| + 1, n), |h| + 1, t, count)
    requires p < |h| && h[p].Com? && h[p].tx == u && h[p].first + n == |h| == Lo(h, n) + n && ClosesWhole(h, p)
    requires !IsMember(d, g, u, Slot(|h| + 1, n)) && !IsCommitOf(d, g, u, Slot(|h| + 1, n))
    ensures var j := Slot(|h| + 2, n); IsMember(c, g, u, j) || (IsCommitOf(c, g, u, j) && j == Slot(p, n))
  {
    NextSlots(n, |h| - n);
    RunGoesOn(d, g, n, h, u, p, |h| - n);
    SlotDistinct(|h| + 1, |h| + 2, n);
    PartKept(d, c, g, n, Slot(|h| + 1, n), |h| + 1, t, count, u, Slot(|h| + 2, n));
  }

  lemma SoleCount(c: Disk, g: nat, u: nat, j: nat)
    requires Formed(c) && Complete(c, g, u) && j < |c.heads|
    requires forall i :: 0 <= i < |c.heads| && IsCommitOf(c, g, u, i) ==> i == j
    ensures IsCommitOf(c, g, u, j) && c.heads[j].count == |MemberSet(c, g, u, |c.heads|)|
  {
    var w := CommitCountSlot(c, g, u, |c.heads|);
    MembersSize(c, g, u, |c.heads|);
  }

  lemma OldDoomed(d: Disk, c: Disk, m: Mem, n: nat, h: History, f: nat, base: map<nat, Data>, u: nat)
    requires AtValve(d, c, m, n, h, f, base) && m.tx != 0 && IsMember(c, m.gen, u, Slot(|h|, n))
    requires u != 0 && u != m.tx && Complete(c, m.gen, u)
    ensures Doomed(c, m.gen, u, Slot(|h| + 2, n))
  {
    var p := OldRun(d, c, m, n, h, f, base, u);
    RunOutlasts(d, c, m.gen, n, h, m.tx, m.count, u, p);
    forall i | 0 <= i < n && IsCommitOf(c, m.gen, u, i) ensures i == Slot(p, n) {
      SameCommit(d, c, m, n, h, f, base, u, p, i);
    }
    SoleCount(c, m.gen, u, Slot(p, n));
  }

  lemma NextSlots(n: nat, q: nat)
    requires n >= 2
    ensures Slot(q + n + 1, n) == Slot(q + 1, n) && Slot(q + n + 2, n) == Slot(q + 2, n)
  {
    SlotWraps(q + 1, n);
    SlotWraps(q + 2, n);
  }

  lemma EntryAt(d: Disk, g: nat, n: nat, h: History, q: nat)
    requires Core(d, g, n, h) && Lo(h, n) <= q
    ensures q < |h| ==> IsCurrent(d, g, Slot(q, n)) && d.heads[Slot(q, n)].num == q
    ensures q < |h| && h[q].Rec? ==> IsMember(d, g, h[q].tx, Slot(q, n))
    ensures q < |h| && h[q].Com? ==> IsCommitOf(d, g, h[q].tx, Slot(q, n))
  {
    if q < |h| {
      SlotOfEntry(d, g, n, h, q);
      EntryOf(d, g, n, h, Slot(q, n));
    }
  }

  lemma SameCommit(d: Disk, c: Disk, m: Mem, n: nat, h: History, f: nat, base: map<nat, Data>, u: nat, p: nat, i: nat)
    requires AtValve(d, c, m, n, h, f, base) && u != m.tx && i < n && IsCommitOf(c, m.gen, u, i)
    requires Lo(h, n) <= p < |h| && h[p].Com? && h[p].tx == u && OwnsId(h, Lo(h, n), p)
    ensures i == Slot(p, n)
  {
    assert IsCommitOf(d, m.gen, u, i);
    EntryOf(d, m.gen, n, h, i);
  }

  /** The entry after the next of an open run that reaches back to the left-over. */
  lemma ChunkGoesOn(d: Disk, g: nat, n: nat, h: History, t: nat, f: nat, count: nat)
    requires Core(d, g, n, h) && n >= 2 && OpenRun(h, Lo(h, n), t, f, |h|, count) && IsMember(d, g, t, Slot(|h|, n))
    ensures IsMember(d, g, t, Slot(|h| + 2, n))
  {
    LeftOverNum(d, g, n, h);
    EntryOf(d, g, n, h, Slot(|h|, n));
    NextSlots(n, |h| - n);
    EntryAt(d, g, n, h, |h| - n + 2);
  }

  lemma ChunkDoomed(d: Disk, c: Disk, m: Mem, n: nat, h: History, f: nat, base: map<nat, Data>)
    requires AtValve(d, c, m, n, h, f, base) && m.tx != 0 && IsMember(c, m.gen, m.tx, Slot(|h|, n))
    requires Complete(c, m.gen, m.tx)
    ensures Doomed(c, m.gen, m.tx, Slot(|h| + 2, n))
  {
    var g, u, gap := m.gen, m.tx, Slot(|h| + 1, n);
    SlotDistinct(|h|, |h| + 1, n);
    SlotDistinct(|h| + 1, |h| + 2, n);
    PartKept(d, c, g, n, gap, |h| + 1, u, m.count, u, Slot(|h|, n));
    ChunkGoesOn(d, g, n, h, u, f, m.count);
    PartKept(d, c, g, n, gap, |h| + 1, u, m.count, u, Slot(|h| + 2, n));
    forall l | 0 <= l < n && IsCommitOf(c, g, u, l) ensures l == gap {
      ChunkUncommitted(d, g, n, h, u, f, m.count, l);
    }
    SoleCount(c, g, u, gap);
  }

  // -- all of them --

  lemma TaggedLeftOver(d: Disk, c: Disk, m: Mem, n: nat, h: History, f: nat, base: map<nat, Data>)
    requires AtValve(d, c, m, n, h, f, base) && m.tx != 0
    requires var i := Slot(|h|, n); (IsRecord(c, m.gen, i) || IsCommit(c, m.gen, i)) && c.heads[i].tx != 0
    ensures var u := c.heads[Slot(|h|, n)].tx;
            Starved(c, m.gen, u) || (Complete(c, m.gen, u) && IsMember(c, m.gen, u, Slot(|h|, n))
                                     && Doomed(c, m.gen, u, Slot(|h| + 2, n)))
  {
    var g, i, u := m.gen, Slot(|h|, n), c.heads[Slot(|h|, n)].tx;
    if IsCommit(c, g, i) {
      CommitLeftOver(d, c, m, n, h, f, base);
    } else if u == m.tx {
      if Complete(c, g, u) { ChunkDoomed(d, c, m, n, h, f, base); } else { ChunkIncomplete(d, c, m, n, h, f, base); }
    } else {
      if Complete(c, g, u) { OldDoomed(d, c, m, n, h, f, base, u); } else { OldIncomplete(d, c, m, n, h, f, base, u); }
    }
  }

  lemma NewestLeads(d: Disk, c: Disk, m: Mem, n: nat, h: History, f: nat, base: map<nat, Data>, w: nat)
    requires AtValve(d, c, m, n, h, f, base) && m.tx != 0 && m.next == |h| && w < n && d.heads[Slot(|h|, n)].RecHead?
    requires Newest(c, m.gen, d.heads[Slot(|h|, n)].lba, n) == Some(w)
    ensures Leads(d, m, n, Slot(|h|, n), w)
  {
    AppliesIsSurvives(d, c, m, n, h, f, base, w);
    forall l | 0 <= l < n && Survives(d, m, Slot(|h| + 1, n), l) && d.heads[l].lba == d.heads[Slot(|h|, n)].lba
      ensures d.heads[l].num <= d.heads[w].num
    {
      AppliesIsSurvives(d, c, m, n, h, f, base, l);
    }
  }

  /** An untagged left-over speaks of a block whose newest record left has the same value, unless the
      cut is one of those that lose the block later. */
  lemma UntaggedLeftOver(d: Disk, c: Disk, m: Mem, n: nat, h: History, f: nat, base: map<nat, Data>)
    requires AtValve(d, c, m, n, h, f, base) && m.tx != 0 && m.next == |h|
    requires var i := Slot(|h|, n); IsRecord(c, m.gen, i) && c.heads[i].tx == 0
    ensures var i := Slot(|h|, n);
            c.heads[i].lba in c.home && (RcvAt(c, m.gen, c.heads[i].lba) == c.bodies[i] || StaleLater(d, m, n))
  {
    var g, i := m.gen, Slot(|h|, n);
    SlotDistinct(|h|, |h| + 1, n);
    assert IsRecord(d, g, i) && Applies(c, g, i);
    StaleAtHome(d, c, m, n, h, f, base);
    var w := Newest(c, g, c.heads[i].lba, n).value;
    AppliesIsSurvives(d, c, m, n, h, f, base, w);
    if c.bodies[w] != c.bodies[i] {
      NewestLeads(d, c, m, n, h, f, base, w);
    }
  }

  // ---- what the twin shows ----

  /** Between two records of one transaction there are no records of others. */
  lemma NothingBetween(d: Disk, c: Disk, m: Mem, n: nat, h: History, f: nat, base: map<nat, Data>, u: nat,
                       w: nat, z: nat)
    requires AtValve(d, c, m, n, h, f, base) && m.tx != 0 && u != 0 && Complete(c, m.gen, u)
    requires w < n && z < n && IsMember(c, m.gen, u, Slot(|h|, n)) && IsMember(c, m.gen, u, z) && IsRecord(c, m.gen, w)
    requires c.heads[Slot(|h|, n)].num < c.heads[w].num < c.heads[z].num
    ensures c.heads[w].tx == u
  {
    var g, i := m.gen, Slot(|h|, n);
    assert IsRecord(d, g, i) && IsRecord(d, g, w) && IsRecord(d, g, z);
    EntryOf(d, g, n, h, i);
    EntryOf(d, g, n, h, w);
    EntryOf(d, g, n, h, z);
    if u != m.tx {
      var p := OldRun(d, c, m, n, h, f, base, u);
    }
  }

  lemma DoomedInTwin(c: Disk, e: Disk, g: nat, u: nat, i: nat, j: nat)
    requires Differ(e, c, i) && j < |c.heads| && Doomed(c, g, u, j) && IsMember(c, g, u, i)
    requires !IsRecord(e, g, i) && !IsCommit(e, g, i)
    ensures !Complete(e, g, u)
  {
    FewerMembers(c, e, g, u, i);
    forall l | 0 <= l < |e.heads| && IsCommitOf(e, g, u, l) ensures |MemberSet(e, g, u, |e.heads|)| < e.heads[l].count {
      assert IsCommitOf(c, g, u, l);
    }
    StarvedIncomplete(e, g, u);
  }

  lemma DoomedNewest(d: Disk, c: Disk, e: Disk, m: Mem, n: nat, h: History, f: nat, base: map<nat, Data>, h': History,
                     u: nat, y: nat)
    requires AtValve(d, c, m, n, h, f, base) && m.tx != 0 && u != 0
    requires h' == Push(Push(h, Torn), Com(m.tx, m.count, f, |h|))
    requires Core(e, m.gen, n, h') && Differ(e, c, Slot(|h|, n))
    requires IsMember(c, m.gen, u, Slot(|h|, n)) && Complete(c, m.gen, u) && Doomed(c, m.gen, u, Slot(|h| + 2, n))
    requires Newest(e, m.gen, y, n).Some?
    ensures Newest(c, m.gen, y, n) == Newest(e, m.gen, y, n) && Newest(e, m.gen, y, n).value != Slot(|h|, n)
  {
    var g, i := m.gen, Slot(|h|, n);
    assert h'[|h|] == Torn;
    TornIsNothing(e, g, n, h', |h|);
    DoomedInTwin(c, e, g, u, i, Slot(|h| + 2, n));
    var w := Newest(e, g, y, n).value;
    assert e.heads[w].tx != u;
    OtherAlike(c, e, g, i, u, w);
    LeftOverFromBefore(d, c, m, n, h, f, base, h');
    LeftOverIsOldest(c, e, g, n, h', |h|, w);
    var z := Newest(c, g, y, n).value;
    if z != w {
      NewestTagged(d, c, e, m, n, h, f, base, h', u, w, z);
    }
  }

  lemma OtherAlike(c: Disk, e: Disk, g: nat, i: nat, u: nat, j: nat)
    requires Differ(e, c, i) && !IsRecord(e, g, i) && !IsCommit(e, g, i) && IsMember(c, g, u, i)
    requires j < |c.heads| && j != i && c.heads[j].RecHead? && c.heads[j].tx != u
    ensures Applies(c, g, j) <==> Applies(e, g, j)
  {
    if c.heads[j].tx != 0 {
      CompleteSame(e, c, g, c.heads[j].tx, i);
    }
  }

  lemma NewestTagged(d: Disk, c: Disk, e: Disk, m: Mem, n: nat, h: History, f: nat, base: map<nat, Data>, h': History,
                     u: nat, w: nat, z: nat)
    requires AtValve(d, c, m, n, h, f, base) && m.tx != 0 && u != 0
    requires Core(e, m.gen, n, h') && Differ(e, c, Slot(|h|, n))
    requires !IsRecord(e, m.gen, Slot(|h|, n)) && !IsCommit(e, m.gen, Slot(|h|, n))
    requires IsMember(c, m.gen, u, Slot(|h|, n)) && Complete(c, m.gen, u)
    requires w < n && z < n && Applies(e, m.gen, w) && Applies(c, m.gen, w) && Applies(c, m.gen, z)
    requires c.heads[w].tx != u && c.heads[Slot(|h|, n)].num < c.heads[w].num <= c.heads[z].num
    requires c.heads[z].lba == c.heads[w].lba && Newest(e, m.gen, c.heads[w].lba, n) == Some(w)
    ensures z == w
  {
    if c.heads[z].tx == u {
      if c.heads[w].num < c.heads[z].num {
        NothingBetween(d, c, m, n, h, f, base, u, w, z);
      } else {
        SameNumber(c, e, m.gen, n, h', Slot(|h|, n), w, z);
      }
    } else {
      OtherAlike(c, e, m.gen, Slot(|h|, n), u, z);
      SameNumber(c, e, m.gen, n, h', Slot(|h|, n), w, z);
    }
  }

  lemma SameNumber(c: Disk, e: Disk, g: nat, n: nat, h': History, i: nat, w: nat, z: nat)
    requires Core(e, g, n, h') && Differ(e, c, i) && w < n && z < n && w != i && z != i
    requires IsCurrent(c, g, w) && IsCurrent(c, g, z) && c.heads[w].num == c.heads[z].num
    ensures w == z
  {
    EntryOf(e, g, n, h', w);
    EntryOf(e, g, n, h', z);
  }

  /** Where the twin has anything to replay, it replays what the device does. */
  lemma TwinShows(d: Disk, c: Disk, e: Disk, m: Mem, n: nat, h: History, f: nat, base: map<nat, Data>, h': History,
                  y: nat)
    requires AtValve(d, c, m, n, h, f, base) && m.tx != 0
    requires h' == Push(Push(h, Torn), Com(m.tx, m.count, f, |h|)) && Core(e, m.gen, n, h')
    requires Differ(e, c, Slot(|h|, n)) && e.bodies == c.bodies && e.home == c.home
    requires y in c.home && Newest(e, m.gen, y, n).Some?
    ensures RcvAt(c, m.gen, y) == RcvAt(e, m.gen, y)
  {
    var g, i := m.gen, Slot(|h|, n);
    LeftOverFromBefore(d, c, m, n, h, f, base, h');
    assert h'[|h|] == Torn;
    if (IsRecord(c, g, i) || IsCommit(c, g, i)) && c.heads[i].tx != 0 && !Starved(c, g, c.heads[i].tx) {
      TaggedLeftOver(d, c, m, n, h, f, base);
      DoomedNewest(d, c, e, m, n, h, f, base, h', c.heads[i].tx, y);
    } else {
      NewestAlike(c, e, g, n, h', |h|, y);
    }
  }

  lemma TwinAgrees(d: Disk, c: Disk, e: Disk, m: Mem, n: nat, h: History, f: nat, base: map<nat, Data>, h': History)
    requires AtValve(d, c, m, n, h, f, base) && m.tx != 0
    requires h' == Push(Push(h, Torn), Com(m.tx, m.count, f, |h|)) && Core(e, m.gen, n, h')
    requires Differ(e, c, Slot(|h|, n)) && e.bodies == c.bodies && e.home == c.home
    ensures Agree(h', Lo(h', n), Rcv(c, m.gen), {})
  {
    var g, lo := m.gen, Lo(h', n);
    RcvCore(e, g, n, h');
    forall r: nat | Counts(h', lo, r)
      ensures h'[r].lba in Rcv(c, g) && (Shadowed(h', lo, r) || h'[r].data == Rcv(c, g)[h'[r].lba])
    {
      CountsApplies(e, g, n, h', r);
      TwinShows(d, c, e, m, n, h, f, base, h', h'[r].lba);
      assert Rcv(e, g)[h'[r].lba] == RcvAt(e, g, h'[r].lba);
    }
  }

  // ---- a cut that loses nothing leaves a sound device ----

  lemma SparedHarmless(d: Disk, c: Disk, m: Mem, n: nat, h: History, f: nat, base: map<nat, Data>, h': History)
    requires AtValve(d, c, m, n, h, f, base) && m.tx != 0 && m.next == |h| && Generation(c) == m.gen
    requires |h'| == |h| + 2 && !StaleLater(d, m, n)
    ensures Harmless(Restored(c), m.gen, n, h', |h|)
  {
    var g, i, r := m.gen, Slot(|h|, n), Restored(c);
    assert IsRecord(r, g, i) == IsRecord(c, g, i) && IsCommit(r, g, i) == IsCommit(c, g, i);
    if IsRecord(c, g, i) || IsCommit(c, g, i) {
      if c.heads[i].tx == 0 {
        UntaggedLeftOver(d, c, m, n, h, f, base);
      } else {
        TaggedLeftOver(d, c, m, n, h, f, base);
        TagsSame(c, r, g, c.heads[i].tx, Slot(|h| + 2, n));
      }
    }
  }

  lemma FlagOutlasts(d: Disk, m: Mem, n: nat, h: History, a: Spec, f: nat, base: map<nat, Data>, op: Op,
                     b: map<nat, Data>)
    requires n > 0 && RunningBy(d, n, h, m, a, f, base) && Kept(a, op, b) && op.WriteBlock? && op.lba != 0
    ensures 0 in b && Dirty(b[0])
  {
    OverlayAt(a.done, a.open, 0);
  }

  lemma SparedTwin(d: Disk, m: Mem, n: nat, h: History, a: Spec, f: nat, base: map<nat, Data>, x: nat, k: nat, c: Disk)
    returns (e: Disk, h': History)
    requires Core(d, m.gen, n, h) && Generation(d) == m.gen && m.next == |h| && Valve(m) && x in d.home && 1 <= k <= 2
    requires RunningBy(d, n, h, m, a, f, base) && m.tx != 0
    requires c == Committed(d, n, m, k) && AtValve(d, c, m, n, h, f, base) && c.hdr == d.hdr
    requires !StaleLater(d, m, n) && 0 in c.home && Dirty(RcvAt(c, m.gen, 0)) && Generation(c) == m.gen
    ensures Twin(Restored(c), e, m.gen, n, h', |h|)
  {
    e, h' := ValveTwin(d, m, n, h, a, f, base, x, k);
    TwinAgrees(d, c, e, m, n, h, f, base, h');
    LeftOverFromBefore(d, c, m, n, h, f, base, h');
    SparedHarmless(d, c, m, n, h, f, base, h');
    assert h'[|h|] == Torn;
    e := MakeTwin(c, e, m.gen, n, h', |h|);
  }

  lemma MakeTwin(c: Disk, e: Disk, g: nat, n: nat, h: History, q: nat) returns (e': Disk)
    requires n >= 2 && Core(e, g, n, h) && Differ(e, c, Slot(q, n)) && Generation(c) == g
    requires e.hdr == c.hdr && e.bodies == c.bodies && e.home == c.home && 0 in c.home && Dirty(RcvAt(c, g, 0))
    requires Agree(h, Lo(h, n), Rcv(c, g), {}) && Lo(h, n) <= q && q + 1 < |h| && h[q] == Torn
    requires FromBefore(c, g, n, h, q) && Harmless(Restored(c), g, n, h, q)
    ensures Twin(Restored(c), e', g, n, h, q)
  {
    var r := Restored(c);
    e' := e.(home := r.home);
    CoreFrame(e, e', g, n, h);
    RestoredAtRest(c);
    SameOrigin(c, r, g, n, h, q);
  }

  lemma SameOrigin(c: Disk, r: Disk, g: nat, n: nat, h: History, q: nat)
    requires Formed(c) && |c.heads| == n > 0 && r.heads == c.heads && r.bodies == c.bodies && r.home.Keys == c.home.Keys
    requires FromBefore(c, g, n, h, q)
    ensures FromBefore(r, g, n, h, q)
  {
  }

  /** A cut of the valve that loses nothing at the next mount nor at a later one keeps the promise,
      and leaves a device with one skipped number. */
  lemma ValveSpared(n: nat, s: Machine, a: Spec, h: History, op: Op, k: nat)
    requires InvBy(n, s, a, h) && s.phase.Running? && Enabled(n, s, Event.Cut(op, k)) && MidValve(s, op, k)
    requires !ValveLoses(n, s, a, op, k)
    ensures var s' := Next(n, s, Event.Cut(op, k));
            && Formed(s'.disk) && Kept(a, op, Recovered(s'.disk)) && Skipped(n, s', Spec(Recovered(s'.disk), []))
  {
    var d, m, s' := s.disk, s.mem, Next(n, s, Event.Cut(op, k));
    var c := NextMountExact(n, s, a, h, op.lba, op.data, k);
    var f: nat, base: map<nat, Data> :| RunningBy(d, n, h, m, a, f, base);
    ValveCutDisk(d, m, n, op.lba, op.data, k);
    var c' := ValveCutAt(d, m, n, h, f, base, op.lba, op.data, k);
    FlagOutlasts(d, m, n, h, a, f, base, op, Recovered(c));
    var e, h' := SparedTwin(d, m, n, h, a, f, base, op.lba, k, c);
    assert SkippedBy(n, s', Spec(Recovered(c), []), e, h', |h|);
  }

  // ---- every event ----

  /** What every event keeps, the cuts that lose a block apart. */
  lemma SoundKeeps(n: nat, s: Machine, a: Spec, e: Event)
    requires Sound(n, s, a) && n > 0 && Formed(s.disk) && Enabled(n, s, e)
    requires e.Cut? ==> !ValveLoses(n, s, a, e.op, e.k)
    ensures Formed(Next(n, s, e).disk) && Sound(n, Next(n, s, e), SpecNext(n, s, e, a))
    ensures e.Cut? ==> Kept(a, e.op, Recovered(Next(n, s, e).disk))
  {
    if Inv(n, s, a) {
      SettledStep(n, s, a, e);
    } else {
      SkippedStep(n, s, a, e);
    }
  }

  lemma SettledStep(n: nat, s: Machine, a: Spec, e: Event)
    requires Inv(n, s, a) && n > 0 && Formed(s.disk) && Enabled(n, s, e)
    requires e.Cut? ==> !ValveLoses(n, s, a, e.op, e.k)
    ensures Formed(Next(n, s, e).disk) && Sound(n, Next(n, s, e), SpecNext(n, s, e, a))
    ensures e.Cut? ==> Kept(a, e.op, Recovered(Next(n, s, e).disk))
  {
    if e.Cut? && MidValve(s, e.op, e.k) {
      var h: History :| InvBy(n, s, a, h);
      OnlyRunning(n, s, a, h);
      ValveSpared(n, s, a, h, e.op, e.k);
    } else {
      StepKeeps(n, s, a, e);
      if e.Cut? {
        CutKeepsBlocks(n, s, a, e.op, e.k);
      }
    }
  }

  lemma OnlyRunning(n: nat, s: Machine, a: Spec, h: History)
    requires InvBy(n, s, a, h) && Valve(s.mem)
    ensures s.phase.Off? || s.phase.Running?
  {
  }

  lemma SkippedStep(n: nat, s: Machine, a: Spec, e: Event)
    requires Skipped(n, s, a) && n > 0 && Formed(s.disk) && Enabled(n, s, e)
    ensures Formed(Next(n, s, e).disk) && Sound(n, Next(n, s, e), SpecNext(n, s, e, a))
    ensures e.Cut? ==> Kept(a, e.op, Recovered(Next(n, s, e).disk))
  {
    var t: Disk, h: History, q: nat :| SkippedBy(n, s, a, t, h, q);
    match e {
      case Stamp => SkippedStamp(n, s, a, t, h, q);
      case ReplayCut(ws, k) => SkippedReplayCut(n, s, a, t, h, q, ws, k);
      case PowerOn => SkippedPowerOn(n, s, a, t, h, q);
      case Do(op) => SkippedDo(n, s, a, t, h, q, op); SoundFormed(n, Next(n, s, e), SpecDo(s.mem, op, a));
      case Cut(op, k) => SkippedCut(n, s, a, t, h, q, op, k);
      case Reset =>
    }
  }

  lemma SoundFormed(n: nat, s: Machine, a: Spec)
    requires Sound(n, s, a)
    ensures n > 0 && Formed(s.disk)
  {
  }
}
