/** Devices on which one number of the ring was skipped, as a cut of the chunk valve leaves them: the
    slot of that number still holds an older record. */
module JournalSkipped {
  // Number `q` was given out and never written, so its slot still holds the record numbered `q - n`.  Beside
  // such a device there is a twin without the gap, and while the left-over record matters to no block the two
  // cannot be told apart.

  import opened Wrappers
  import opened JournalDisk
  import opened JournalRing
  import opened JournalWindow
  import opened JournalRun
  import opened JournalMachine
  import opened JournalDurable

  // ---- transactions that can no longer be whole ----

  /** Fewer members of `u` are left than any commit record of `u` announces. */
  predicate Starved(d: Disk, g: nat, u: nat)
    requires Formed(d)
  {
    forall c :: 0 <= c < |d.heads| && IsCommitOf(d, g, u, c) ==> |MemberSet(d, g, u, |d.heads|)| < d.heads[c].count
  }

  /** Once slot `j` is overwritten, `u` is starved. */
  predicate Doomed(d: Disk, g: nat, u: nat, j: nat)
    requires Formed(d) && j < |d.heads|
  {
    && (IsMember(d, g, u, j) || IsCommitOf(d, g, u, j))
    && forall c :: 0 <= c < |d.heads| && IsCommitOf(d, g, u, c) ==>
         |MemberSet(d, g, u, |d.heads|)| <= d.heads[c].count && (IsCommitOf(d, g, u, j) ==> c == j)
  }

  lemma {:induction false} CommitCountSlot(d: Disk, g: nat, u: nat, k: nat) returns (c: nat)
    requires Formed(d) && k <= |d.heads| && CommitCount(d, g, u, k).Some?
    ensures c < k && IsCommitOf(d, g, u, c) && CommitCount(d, g, u, k) == Some(d.heads[c].count)
  {
    if IsCommitOf(d, g, u, k - 1) {
      c := k - 1;
    } else {
      c := CommitCountSlot(d, g, u, k - 1);
    }
  }

  lemma StarvedIncomplete(d: Disk, g: nat, u: nat)
    requires Formed(d) && Starved(d, g, u)
    ensures !Complete(d, g, u)
  {
    if Complete(d, g, u) {
      var c := CommitCountSlot(d, g, u, |d.heads|);
      MembersSize(d, g, u, |d.heads|);
    }
  }

  /** `c` is `d` with another sector pair in slot `j`. */
  predicate Differ(d: Disk, c: Disk, j: nat) {
    && Formed(d) && Formed(c) && |c.heads| == |d.heads| && j < |d.heads|
    && forall i :: 0 <= i < |d.heads| && i != j ==> c.heads[i] == d.heads[i] && c.bodies[i] == d.bodies[i]
  }

  lemma FewerMembers(d: Disk, c: Disk, g: nat, u: nat, j: nat)
    requires Differ(d, c, j) && !IsMember(c, g, u, j)
    ensures var n := |d.heads|;
            |MemberSet(c, g, u, n)| == |MemberSet(d, g, u, n)| - if IsMember(d, g, u, j) then 1 else 0
  {
    var n := |d.heads|;
    forall i: nat | i < n ensures i in MemberSet(c, g, u, n) <==> i in MemberSet(d, g, u, n) - {j} {
      assert i != j ==> (IsMember(c, g, u, i) <==> IsMember(d, g, u, i));
    }
    assert MemberSet(c, g, u, n) == MemberSet(d, g, u, n) - {j};
  }

  lemma OverwriteStarves(d: Disk, c: Disk, g: nat, u: nat, j: nat)
    requires Differ(d, c, j) && !IsMember(c, g, u, j) && !IsCommitOf(c, g, u, j)
    requires Starved(d, g, u) || Doomed(d, g, u, j)
    ensures Starved(c, g, u)
  {
    FewerMembers(d, c, g, u, j);
    forall i | 0 <= i < |c.heads| && IsCommitOf(c, g, u, i)
      ensures |MemberSet(c, g, u, |c.heads|)| < c.heads[i].count
    {
      assert IsCommitOf(d, g, u, i);
    }
  }

  lemma {:induction false} CommitCountSame(d: Disk, c: Disk, g: nat, u: nat, j: nat, k: nat)
    requires Differ(d, c, j) && !IsCommitOf(c, g, u, j) && !IsCommitOf(d, g, u, j) && k <= |d.heads|
    ensures CommitCount(c, g, u, k) == CommitCount(d, g, u, k)
  {
    if k > 0 {
      CommitCountSame(d, c, g, u, j, k - 1);
    }
  }

  /** A slot that is no part of `u` on either device has no say in whether `u` is whole. */
  lemma CompleteSame(d: Disk, c: Disk, g: nat, u: nat, j: nat)
    requires Differ(d, c, j)
    requires !IsMember(c, g, u, j) && !IsCommitOf(c, g, u, j) && !IsMember(d, g, u, j) && !IsCommitOf(d, g, u, j)
    ensures Complete(c, g, u) <==> Complete(d, g, u)
  {
    FewerMembers(d, c, g, u, j);
    CommitCountSame(d, c, g, u, j, |d.heads|);
    MembersSize(d, g, u, |d.heads|);
    MembersSize(c, g, u, |d.heads|);
  }

  // ---- the twin ----

  /** The block a left-over untagged record speaks of has the value of that record, or a newer record
      that will outlast it. */
  ghost predicate Echoes(d: Disk, h: History, q: nat, i: nat)
    requires Formed(d) && i < |d.heads| && d.heads[i].RecHead?
  {
    d.heads[i].lba in d.home
    && (d.home[d.heads[i].lba] == d.bodies[i]
        || exists r: nat :: q < r < |h| && h[r].Rec? && h[r].tx == 0 && h[r].lba == d.heads[i].lba)
  }

  /** What is left in the slot of the skipped number matters to no block: it is no record and no
      commit, it belongs to a transaction that is not whole or will not be after the next record, or
      it is an untagged record that `Echoes`. */
  ghost predicate Harmless(d: Disk, g: nat, n: nat, h: History, q: nat)
    requires Formed(d) && |d.heads| == n > 0
  {
    var i := Slot(q, n);
    IsRecord(d, g, i) || IsCommit(d, g, i) ==>
      if d.heads[i].tx == 0 then d.heads[i].RecHead? && Echoes(d, h, q, i)
      else Starved(d, g, d.heads[i].tx) || (|h| == q + 2 && Doomed(d, g, d.heads[i].tx, Slot(|h|, n)))
  }

  /** The left-over has the number before the window and is of a block of the device, and its
      transaction, if the window holds the commit of it, began no later. */
  ghost predicate FromBefore(d: Disk, g: nat, n: nat, h: History, q: nat)
    requires Formed(d) && |d.heads| == n > 0
  {
    var i := Slot(q, n);
    IsCurrent(d, g, i) ==>
      d.heads[i].num + n == q && (IsRecord(d, g, i) ==> d.heads[i].lba in d.home)
      && forall p {:trigger h[p]} :: Lo(h, n) <= p < |h| ==>
           (IsCommit(d, g, i) ==> TxOf(h[p]) != d.heads[i].tx)
           && (IsRecord(d, g, i) && d.heads[i].tx != 0 && h[p].Com? && h[p].tx == d.heads[i].tx ==>
                 h[p].first + n <= q)
  }

  /** `e` is `d` with the skipped number spent on a torn record, and the device is at rest. */
  ghost predicate Twin(d: Disk, e: Disk, g: nat, n: nat, h: History, q: nat) {
    && n >= 2 && Core(e, g, n, h) && Generation(e) == g && Differ(e, d, Slot(q, n))
    && e.hdr == d.hdr && e.bodies == d.bodies && e.home == d.home && 0 in d.home && Dirty(d.home[0])
    && Agree(h, Lo(h, n), d.home, {}) && Lo(h, n) <= q && q + 1 < |h| && h[q] == Torn
    && FromBefore(d, g, n, h, q) && Harmless(d, g, n, h, q) && Rcv(d, g) == d.home
  }

  lemma TornIsNothing(e: Disk, g: nat, n: nat, h: History, q: nat)
    requires Core(e, g, n, h) && Lo(h, n) <= q < |h| && h[q] == Torn
    ensures !IsRecord(e, g, Slot(q, n)) && !IsCommit(e, g, Slot(q, n))
  {
    SlotOfEntry(e, g, n, h, q);
    EntryOf(e, g, n, h, Slot(q, n));
  }

  /** Unless the left-over is still waiting for its transaction to break. */
  ghost predicate Settled(d: Disk, g: nat, i: nat)
    requires Formed(d) && i < |d.heads|
  {
    (IsRecord(d, g, i) || IsCommit(d, g, i)) && d.heads[i].tx != 0 ==> Starved(d, g, d.heads[i].tx)
  }

  lemma AppliesAlike(d: Disk, e: Disk, g: nat, i: nat, j: nat)
    requires Differ(e, d, i) && !IsRecord(e, g, i) && !IsCommit(e, g, i) && Settled(d, g, i)
    requires j < |d.heads| && j != i
    ensures Applies(d, g, j) <==> Applies(e, g, j)
  {
    if IsRecord(d, g, j) && d.heads[j].tx != 0 {
      var u := d.heads[j].tx;
      if IsMember(d, g, u, i) || IsCommitOf(d, g, u, i) {
        StarvedIncomplete(d, g, u);
        OverwriteStarves(d, e, g, u, i);
        StarvedIncomplete(e, g, u);
      } else {
        CompleteSame(e, d, g, u, i);
      }
    }
  }

  lemma StarvedLeftOver(d: Disk, g: nat, i: nat)
    requires Formed(d) && i < |d.heads| && Settled(d, g, i) && Applies(d, g, i)
    ensures d.heads[i].tx == 0
  {
    if d.heads[i].tx != 0 {
      StarvedIncomplete(d, g, d.heads[i].tx);
    }
  }

  /** The left-over has the smallest number of the ring. */
  lemma LeftOverIsOldest(d: Disk, e: Disk, g: nat, n: nat, h: History, q: nat, j: nat)
    requires Core(e, g, n, h) && Differ(e, d, Slot(q, n)) && Lo(h, n) <= q < |h| && FromBefore(d, g, n, h, q)
    requires j < n && j != Slot(q, n) && IsCurrent(d, g, j) && IsCurrent(d, g, Slot(q, n))
    ensures d.heads[Slot(q, n)].num < Lo(h, n) <= d.heads[j].num
  {
    assert IsCurrent(e, g, j);
    EntryOf(e, g, n, h, j);
  }

  lemma NewestAlike(d: Disk, e: Disk, g: nat, n: nat, h: History, q: nat, y: nat)
    requires Core(e, g, n, h) && Differ(e, d, Slot(q, n)) && Lo(h, n) <= q < |h| && h[q] == Torn
    requires FromBefore(d, g, n, h, q) && Settled(d, g, Slot(q, n)) && Newest(e, g, y, n).Some?
    ensures Newest(d, g, y, n) == Newest(e, g, y, n) && Newest(e, g, y, n).value != Slot(q, n)
  {
    var i, w := Slot(q, n), Newest(e, g, y, n).value;
    TornIsNothing(e, g, n, h, q);
    AppliesAlike(d, e, g, i, w);
    var u := Newest(d, g, y, n).value;
    if u == i {
      LeftOverIsOldest(d, e, g, n, h, q, w);
    } else {
      AppliesAlike(d, e, g, i, u);
      EntryOf(e, g, n, h, u);
      EntryOf(e, g, n, h, w);
    }
  }

  lemma NothingNewer(d: Disk, e: Disk, g: nat, n: nat, h: History, q: nat, y: nat)
    requires Core(e, g, n, h) && Differ(e, d, Slot(q, n)) && Lo(h, n) <= q < |h| && h[q] == Torn
    requires Settled(d, g, Slot(q, n)) && Harmless(d, g, n, h, q)
    requires Newest(e, g, y, n).None? && Newest(d, g, y, n).Some?
    ensures Newest(d, g, y, n).value == Slot(q, n) && y in d.home && d.home[y] == d.bodies[Slot(q, n)]
  {
    var i, u := Slot(q, n), Newest(d, g, y, n).value;
    TornIsNothing(e, g, n, h, q);
    if u != i {
      AppliesAlike(d, e, g, i, u);
    }
    StarvedLeftOver(d, g, i);
    if r: nat :| q < r < |h| && h[r].Rec? && h[r].tx == 0 && h[r].lba == y {
      CountsApplies(e, g, n, h, r);
    }
  }

  /** A device whose left-over is settled and harmless replays to its own home sectors. */
  lemma AtRestAgain(d: Disk, e: Disk, g: nat, n: nat, h: History, q: nat)
    requires Core(e, g, n, h) && Differ(e, d, Slot(q, n)) && Lo(h, n) <= q < |h| && h[q] == Torn
    requires FromBefore(d, g, n, h, q) && Settled(d, g, Slot(q, n)) && Harmless(d, g, n, h, q)
    requires e.home == d.home && Agree(h, Lo(h, n), d.home, {})
    ensures Rcv(d, g) == d.home
  {
    RcvIsHome(e, g, n, h);
    forall y | y in d.home ensures RcvAt(d, g, y) == d.home[y] {
      assert Rcv(e, g)[y] == RcvAt(e, g, y);
      if Newest(e, g, y, n).Some? {
        NewestAlike(d, e, g, n, h, q, y);
      } else if Newest(d, g, y, n).Some? {
        NothingNewer(d, e, g, n, h, q, y);
      }
    }
  }

  // ---- one more record ----

  /** The device after the first `k` sectors of a block write outside any transaction. */
  function Hit(d: Disk, n: nat, m: Mem, x: nat, v: Data, k: nat): Disk
    requires n > 0 && m.depth == 0 && k <= 3
  {
    JournalDisk.Cut(d, RecordPair(m, n, m.next, 0, x, v) + [ToHome(x, v)], k)
  }

  lemma HitIs(d: Disk, n: nat, m: Mem, x: nat, v: Data, k: nat)
    requires Formed(d) && |d.heads| == n > 0 && m.depth == 0 && 1 <= k <= 3
    ensures var c, j := Hit(d, n, m, x, v, k), Slot(m.next, n);
            && Differ(d, c, j) && c.hdr == d.hdr && c.home == (if k == 3 then d.home[x := v] else d.home)
            && c.heads[j] == RecHead(m.gen, m.next, x, 0, Crc(m.next, x, 0, v))
            && c.bodies[j] == (if k == 1 then d.bodies[j] else v)
  {
    Unfold(d, RecordPair(m, n, m.next, 0, x, v) + [ToHome(x, v)], k);
  }

  /** What the blocks are once a record has landed, and before it. */
  function Landing(home: map<nat, Data>, h: History, h': History, x: nat, v: Data): map<nat, Data> {
    if h' == Push(h, Rec(x, v, 0)) then home[x := v] else home
  }

  /** An untagged record over another slot leaves the left-over settled. */
  lemma HitSettles(d: Disk, c: Disk, g: nat, n: nat, h: History, h': History, q: nat, x: nat, v: Data)
    requires Formed(d) && |d.heads| == n > 0 && Harmless(d, g, n, h, q) && Differ(d, c, Slot(|h|, n))
    requires Slot(|h|, n) != Slot(q, n) && c.heads[Slot(|h|, n)].RecHead? && c.heads[Slot(|h|, n)].tx == 0
    requires |h'| == |h| + 1 && h' == Push(h, h'[|h|]) && q < |h|
    requires c.home == Landing(d.home, h, h', x, v) && x in d.home
    ensures Settled(c, g, Slot(q, n)) && Harmless(c, g, n, h', q)
  {
    var i, j := Slot(q, n), Slot(|h|, n);
    if IsRecord(c, g, i) || IsCommit(c, g, i) {
      var u := d.heads[i].tx;
      if u != 0 {
        OverwriteStarves(d, c, g, u, j);
      } else {
        EchoStays(d, c, h, h', q, i, x, v);
      }
    }
  }

  lemma EchoStays(d: Disk, c: Disk, h: History, h': History, q: nat, i: nat, x: nat, v: Data)
    requires Formed(d) && Formed(c) && |c.heads| == |d.heads| && i < |d.heads| && d.heads[i].RecHead?
    requires Echoes(d, h, q, i) && c.heads[i] == d.heads[i] && c.bodies[i] == d.bodies[i] && q < |h|
    requires |h'| == |h| + 1 && h' == Push(h, h'[|h|]) && c.home == Landing(d.home, h, h', x, v) && x in d.home
    ensures Echoes(c, h', q, i)
  {
    var y := d.heads[i].lba;
    if r: nat :| q < r < |h| && h[r].Rec? && h[r].tx == 0 && h[r].lba == y {
      assert h'[r] == h[r];
    } else if y == x && h' == Push(h, Rec(x, v, 0)) {
      assert h'[|h|].lba == y;
    }
  }

  lemma StillFromBefore(d: Disk, c: Disk, g: nat, n: nat, h: History, h': History, q: nat)
    requires Formed(d) && |d.heads| == n > 0 && FromBefore(d, g, n, h, q) && Differ(d, c, Slot(|h|, n))
    requires Slot(|h|, n) != Slot(q, n)
    requires |h'| == |h| + 1 && h' == Push(h, h'[|h|]) && TxOf(h'[|h|]) == 0 && !h'[|h|].Com?
    requires c.home.Keys >= d.home.Keys
    ensures FromBefore(c, g, n, h', q)
  {
    var i := Slot(q, n);
    if IsCurrent(c, g, i) {
      assert IsCurrent(d, g, i);
      forall p {:trigger h'[p]} | Lo(h', n) <= p < |h'|
        ensures IsCommit(c, g, i) ==> TxOf(h'[p]) != c.heads[i].tx
        ensures IsRecord(c, g, i) && c.heads[i].tx != 0 && h'[p].Com? && h'[p].tx == c.heads[i].tx ==>
                  h'[p].first + n <= q
      {
        if p < |h| {
          assert h'[p] == h[p];
        }
      }
    }
  }

  lemma TwinStays(d: Disk, e: Disk, d': Disk, e': Disk, g: nat, n: nat, h: History, h': History, q: nat, x: nat,
                  v: Data)
    requires Twin(d, e, g, n, h, q) && x in d.home && x != 0
    requires |h'| == |h| + 1 && h' == Push(h, h'[|h|]) && (h'[|h|] == Torn || h'[|h|] == Rec(x, v, 0)) && Lo(h', n) <= q
    requires Core(e', g, n, h') && Generation(e') == g && Agree(h', Lo(h', n), d'.home, {})
    requires Differ(d, d', Slot(|h|, n)) && Differ(e', d', Slot(q, n)) && e'.bodies == d'.bodies && e'.hdr == d'.hdr
    requires d'.heads[Slot(|h|, n)].RecHead? && d'.heads[Slot(|h|, n)].tx == 0
    requires d'.home == Landing(d.home, h, h', x, v) == e'.home
    ensures Twin(d', e', g, n, h', q)
  {
    SlotDistinct(q, |h|, n);
    HitSettles(d, d', g, n, h, h', q, x, v);
    StillFromBefore(d, d', g, n, h, h', q);
    AtRestAgain(d', e', g, n, h', q);
  }

  /** The twins after the same sectors of the same write, once the next mount has replayed them. */
  lemma TwinHit(d: Disk, e: Disk, g: nat, n: nat, h: History, q: nat, m: Mem, x: nat, v: Data, k: nat)
    returns (h': History, d': Disk, e': Disk)
    requires Twin(d, e, g, n, h, q) && m.gen == g && m.next == |h| && m.depth == 0
    requires x in d.home && x != 0 && 1 <= k <= 3
    ensures |h'| == |h| + 1 && h' == Push(h, h'[|h|]) && (k >= 2 ==> h' == Push(h, Rec(x, v, 0)))
    ensures d' == Hit(d, n, m, x, v, k).(home := Landing(d.home, h, h', x, v))
    ensures Core(e', g, n, h') && Generation(e') == g && Agree(h', Lo(h', n), d'.home, {}) && e'.home == d'.home
    ensures if Lo(h', n) <= q then Twin(d', e', g, n, h', q) else d' == e'
  {
    h' := LegacyCut(e, m, n, h, x, v, e.home, {}, k);
    var c, ce := Hit(d, n, m, x, v, k), Hit(e, n, m, x, v, k);
    HitIs(d, n, m, x, v, k);
    HitIs(e, n, m, x, v, k);
    assert OpWrites(m, n, WriteBlock(x, v)) == RecordPair(m, n, m.next, 0, x, v) + [ToHome(x, v)];
    var b := Landing(d.home, h, h', x, v);
    d', e' := c.(home := b), ce.(home := b);
    CoreFrame(ce, e', g, n, h');
    assert e'.bodies == d'.bodies by {
      assert forall j :: 0 <= j < n ==> ce.bodies[j] == c.bodies[j];
    }
    if Lo(h', n) <= q {
      TwinStays(d, e, d', e', g, n, h, h', q, x, v);
    } else {
      SlotReused(h, n, q);
      SameAgain(e', d');
    }
  }

  lemma SameAgain(e: Disk, d: Disk)
    requires Formed(e) && Formed(d) && |e.heads| == |d.heads| && e.hdr == d.hdr && e.home == d.home
    requires forall j :: 0 <= j < |e.heads| ==> e.heads[j] == d.heads[j] && e.bodies[j] == d.bodies[j]
    ensures e == d
  {
    assert e.heads == d.heads && e.bodies == d.bodies;
  }

  lemma SlotReused(h: History, n: nat, q: nat)
    requires n > 0 && Lo(h, n) <= q < |h| && q < Lo(Push(h, Torn), n)
    ensures Slot(|h|, n) == Slot(q, n)
  {
    SlotWraps(q, n);
  }

  // ---- the machine ----

  /** The device with everything a mount would restore restored. */
  function Restored(d: Disk): Disk
    requires Formed(d)
  {
    d.(home := Rcv(d, Generation(d)))
  }

  /** The only phases a skipped number lives through: the power is off, or a recovery is at work and
      has not come round to the slot again. */
  ghost predicate SkippedBy(n: nat, s: Machine, a: Spec, e: Disk, h: History, q: nat) {
    && n > 0 && Formed(s.disk) && FlagSet(s.disk)
    && match s.phase
       case Off => Twin(Restored(s.disk), e, Generation(s.disk), n, h, q) && a == Spec(Restored(s.disk).home, [])
       case Recovering(k) =>
         Twin(s.disk, e, s.mem.gen, n, h, q) && s.mem.next == |h| && s.mem.depth == 0 && s.mem.txNext == 1
         && TailLegacy(h, k) && a == Spec(s.disk.home, [])
       case _ => false
  }

  ghost predicate Skipped(n: nat, s: Machine, a: Spec) {
    exists e: Disk, h: History, q: nat :: SkippedBy(n, s, a, e, h, q)
  }

  /** What holds after every event: the invariant of the durability proof, or the same but for one
      skipped number. */
  ghost predicate Sound(n: nat, s: Machine, a: Spec) {
    Inv(n, s, a) || Skipped(n, s, a)
  }

  lemma RcvFrame(d: Disk, e: Disk, g: nat)
    requires Formed(d) && e.heads == d.heads && e.bodies == d.bodies && e.home.Keys == d.home.Keys
    requires forall y :: y in d.home && Newest(d, g, y, |d.heads|).None? ==> e.home[y] == d.home[y]
    ensures Rcv(e, g) == Rcv(d, g)
  {
    forall y | y in d.home ensures RcvAt(e, g, y) == RcvAt(d, g, y) {
      SameNewest(d, e, g, y, |d.heads|);
    }
  }

  lemma RestoredAtRest(d: Disk)
    requires Formed(d)
    ensures Formed(Restored(d)) && Rcv(Restored(d), Generation(d)) == Restored(d).home
  {
    RcvFrame(d, Restored(d), Generation(d));
  }

  lemma SkippedStamp(n: nat, s: Machine, a: Spec, e: Disk, h: History, q: nat)
    requires SkippedBy(n, s, a, e, h, q) && Enabled(n, s, Stamp)
    ensures Sound(n, Next(n, s, Stamp), a)
  {
    var d, d' := s.disk, Stamped(s.disk);
    var g, e' := Generation(s.disk), Stamped(e);
    RcvFrame(d, d', g);
    var r, r' := Restored(d), Restored(d');
    CoreFrame(e, e', g, n, h);
    RcvFrame(r, r', g);
    TwinStamped(r, e, r', e', g, n, h, q);
    assert SkippedBy(n, Next(n, s, Stamp), a, e', h, q);
  }

  lemma TwinStamped(d: Disk, e: Disk, d': Disk, e': Disk, g: nat, n: nat, h: History, q: nat)
    requires Twin(d, e, g, n, h, q) && d' == d.(hdr := d'.hdr) && e' == e.(hdr := d'.hdr)
    requires Core(e', g, n, h) && Generation(e') == g && Rcv(d', g) == Rcv(d, g)
    ensures Twin(d', e', g, n, h, q)
  {
    var i := Slot(q, n);
    if (IsRecord(d', g, i) || IsCommit(d', g, i)) && d.heads[i].tx != 0 {
      TagsSame(d, d', g, d.heads[i].tx, if |h| == q + 2 then Slot(|h|, n) else i);
    }
  }

  /** Which transactions are starved or doomed is read off the ring alone. */
  lemma TagsSame(d: Disk, d': Disk, g: nat, u: nat, j: nat)
    requires Formed(d) && d'.heads == d.heads && d'.bodies == d.bodies && j < |d.heads|
    ensures Starved(d, g, u) ==> Starved(d', g, u)
    ensures Doomed(d, g, u, j) ==> Doomed(d', g, u, j)
  {
    assert MemberSet(d', g, u, |d.heads|) == MemberSet(d, g, u, |d.heads|) by {
      assert forall i: nat :: i < |d.heads| ==> (IsMember(d', g, u, i) <==> IsMember(d, g, u, i));
    }
    assert forall i: nat :: i < |d.heads| ==> (IsCommitOf(d', g, u, i) <==> IsCommitOf(d, g, u, i));
  }

  /** Every record a replay would apply is of a block the device has. */
  lemma TwinAtHome(d: Disk, e: Disk, g: nat, n: nat, h: History, q: nat)
    requires Twin(d, e, g, n, h, q)
    ensures forall j :: 0 <= j < n && IsRecord(d, g, j) ==> d.heads[j].lba in d.home
  {
    forall j | 0 <= j < n && IsRecord(d, g, j) ensures d.heads[j].lba in d.home {
      if j != Slot(q, n) {
        assert IsRecord(e, g, j);
        EntryOf(e, g, n, h, j);
      }
    }
  }

  lemma RestoredAtHome(d: Disk, e: Disk, n: nat, h: History, q: nat)
    requires Formed(d) && Twin(Restored(d), e, Generation(d), n, h, q)
    ensures AllHome(d, Generation(d))
  {
    TwinAtHome(Restored(d), e, Generation(d), n, h, q);
    assert forall j :: 0 <= j < n && Applies(d, Generation(d), j) ==> IsRecord(Restored(d), Generation(d), j);
  }

  lemma ReplayCutRestores(d: Disk, ws: seq<Write>, k: nat)
    requires Formed(d) && FlagSet(d) && Dirty(RcvAt(d, Generation(d), 0))
    requires AllHome(d, Generation(d))
    requires IsReplay(d, Generation(d), ws) && k <= |ws| && ReplayCutSafe(d, ws, k)
    ensures var c := JournalDisk.Cut(d, ws, k);
            Formed(c) && FlagSet(c) && Generation(c) == Generation(d) && Restored(c) == Restored(d)
  {
    ReplayIdempotent(d, Generation(d), ws, k);
    assert Rcv(d, Generation(d))[0] == RcvAt(d, Generation(d), 0);
  }

  lemma SkippedReplayCut(n: nat, s: Machine, a: Spec, e: Disk, h: History, q: nat, ws: seq<Write>, k: nat)
    requires SkippedBy(n, s, a, e, h, q) && Enabled(n, s, ReplayCut(ws, k))
    ensures Sound(n, Next(n, s, ReplayCut(ws, k)), a)
  {
    RestoredAtHome(s.disk, e, n, h, q);
    assert Restored(s.disk).home[0] == RcvAt(s.disk, Generation(s.disk), 0);
    ReplayCutRestores(s.disk, ws, k);
    assert SkippedBy(n, Next(n, s, ReplayCut(ws, k)), a, e, h, q);
  }

  /** The numbering goes on after the skipped number: `max_seq` does not see the gap. */
  lemma MaxNumSkips(d: Disk, e: Disk, g: nat, n: nat, h: History, q: nat)
    requires Twin(d, e, g, n, h, q)
    ensures MaxNum(d, g, n) == |h| - 1
  {
    forall j | 0 <= j < n && IsCurrent(d, g, j) ensures d.heads[j].num <= |h| - 1 {
      if j != Slot(q, n) {
        assert IsCurrent(e, g, j);
        EntryOf(e, g, n, h, j);
      }
    }
    MaxNumBound(d, g, n, |h| - 1);
    SlotOfEntry(e, g, n, h, |h| - 1);
    SlotDistinct(q, |h| - 1, n);
    assert IsCurrent(d, g, Slot(|h| - 1, n));
  }

  lemma MaxNumFrame(d: Disk, e: Disk, g: nat, k: nat)
    requires e.heads == d.heads && k <= |d.heads|
    ensures MaxNum(e, g, k) == MaxNum(d, g, k)
  {
    if k > 0 {
      MaxNumFrame(d, e, g, k - 1);
    }
  }

  lemma SkippedPowerOn(n: nat, s: Machine, a: Spec, e: Disk, h: History, q: nat)
    requires SkippedBy(n, s, a, e, h, q) && s.phase.Off?
    ensures Sound(n, Next(n, s, PowerOn), a)
    ensures Next(n, s, PowerOn).disk.home == a.done
  {
    var d, g, s' := s.disk, Generation(s.disk), Mounted(s.disk);
    MaxNumSkips(Restored(d), e, g, n, h, q);
    MaxNumFrame(d, Restored(d), g, n);
    var r, e' := Restored(d), Stamped(e);
    assert s'.disk == r.(hdr := Stamped(d).hdr);
    CoreFrame(e, e', g, n, h);
    RcvFrame(r, s'.disk, g);
    TwinStamped(r, e, s'.disk, e', g, n, h, q);
    assert SkippedBy(n, s', a, e', h, q);
  }

  /** A recovery cannot have cleared the flag before it has come round to the slot. */
  lemma FlagWaits(n: nat, s: Machine, a: Spec, e: Disk, h: History, q: nat, op: Op)
    requires SkippedBy(n, s, a, e, h, q) && CanStart(n, s, op)
    ensures s.phase.Recovering? && op.WriteBlock? && op.lba != 0 && op.lba in s.disk.home
  {
  }

  lemma HitWhole(d: Disk, d': Disk, n: nat, h: History, h': History, m: Mem, x: nat, v: Data)
    requires Formed(d) && |d.heads| == n > 0 && m.depth == 0 && h' == Push(h, Rec(x, v, 0))
    requires d' == Hit(d, n, m, x, v, 3).(home := Landing(d.home, h, h', x, v))
    ensures Hit(d, n, m, x, v, 3) == d'
    ensures PutAll(d, OpWrites(m, n, WriteBlock(x, v))) == d'
  {
    HitIs(d, n, m, x, v, 3);
    var ws := OpWrites(m, n, WriteBlock(x, v));
    assert ws[..3] == ws;
  }

  lemma LegacyTail(h: History, k: nat, x: nat, v: Data)
    requires TailLegacy(h, k) && x != 0
    ensures TailLegacy(Push(h, Rec(x, v, 0)), k + 1)
  {
  }

  lemma SkippedDo(n: nat, s: Machine, a: Spec, e: Disk, h: History, q: nat, op: Op)
    requires SkippedBy(n, s, a, e, h, q) && Enabled(n, s, Do(op))
    ensures Sound(n, Next(n, s, Do(op)), SpecDo(s.mem, op, a))
  {
    FlagWaits(n, s, a, e, h, q, op);
    SkippedWrite(n, s, a, e, h, q, op.lba, op.data);
    NextWrite(n, s, a, op);
  }

  lemma NextWrite(n: nat, s: Machine, a: Spec, op: Op)
    requires n > 0 && Formed(s.disk) && Enabled(n, s, Do(op)) && s.phase.Recovering? && s.mem.depth == 0
    requires op.WriteBlock? && op.lba != 0 && a.open == []
    ensures Next(n, s, Do(op)) == Machine(PutAll(s.disk, OpWrites(s.mem, n, op)), Recovering(s.phase.written + 1),
                                          s.mem.(next := s.mem.next + 1))
    ensures SpecDo(s.mem, op, a) == Spec(a.done[op.lba := op.data], [])
  {
  }

  lemma SkippedWrite(n: nat, s: Machine, a: Spec, e: Disk, h: History, q: nat, x: nat, v: Data)
    requires SkippedBy(n, s, a, e, h, q) && s.phase.Recovering? && x in s.disk.home && x != 0
    ensures var d' := PutAll(s.disk, OpWrites(s.mem, n, WriteBlock(x, v)));
            Sound(n, Machine(d', Recovering(s.phase.written + 1), s.mem.(next := s.mem.next + 1)),
                  Spec(a.done[x := v], []))
  {
    var h', d', e' := TwinHit(s.disk, e, s.mem.gen, n, h, q, s.mem, x, v, 3);
    HitWhole(s.disk, d', n, h, h', s.mem, x, v);
    LegacyTail(h, s.phase.written, x, v);
    var s' := Machine(d', Recovering(s.phase.written + 1), s.mem.(next := s.mem.next + 1));
    if Lo(h', n) <= q {
      assert SkippedBy(n, s', Spec(d'.home, []), e', h', q);
    } else {
      assert InvBy(n, s', Spec(d'.home, []), h');
    }
  }

  /** What the next mount restores after a cut: a record that landed counts at once. */
  lemma HitRestores(c: Disk, d': Disk, g: nat, n: nat, j: nat, x: nat, v: Data)
    requires Formed(c) && d' == c.(home := d'.home) && d'.home == c.home[x := v] && x in c.home
    requires Generation(c) == g && Rcv(d', g) == d'.home
    requires j < |c.heads| && Applies(c, g, j) && c.heads[j].lba == x
    ensures Restored(c) == d'
  {
    RcvFrame(c, d', g);
  }

  lemma LandedApplies(e: Disk, d: Disk, g: nat, n: nat, h: History, x: nat, v: Data)
    requires Core(e, g, n, Push(h, Rec(x, v, 0))) && Formed(d) && |d.heads| == n
    requires var j := Slot(|h|, n); d.heads[j] == e.heads[j] && d.bodies[j] == e.bodies[j]
    ensures Applies(d, g, Slot(|h|, n)) && d.heads[Slot(|h|, n)].lba == x
  {
    var h' := Push(h, Rec(x, v, 0));
    assert Matches(e, g, Slot(|h|, n), |h|, h'[|h|]);
  }

  /** A write of a recovery, cut after its first sector or later. */
  lemma HitOff(d: Disk, e: Disk, g: nat, n: nat, h: History, q: nat, m: Mem, x: nat, v: Data, k: nat)
    returns (h': History, e': Disk, b: map<nat, Data>)
    requires Twin(d, e, g, n, h, q) && m.gen == g && m.next == |h| && m.depth == 0
    requires x in d.home && x != 0 && 1 <= k <= 3
    ensures var c := Hit(d, n, m, x, v, k);
            && Formed(c) && Generation(c) == g && FlagSet(c)
            && Restored(c).home == b && (b == d.home || b == d.home[x := v])
            && if Lo(h', n) <= q then Twin(Restored(c), e', g, n, h', q) else Restored(c) == e'
    ensures Core(e', g, n, h') && Agree(h', Lo(h', n), b, {}) && e'.home == b
  {
    var d';
    h', d', e' := TwinHit(d, e, g, n, h, q, m, x, v, k);
    HitIs(d, n, m, x, v, k);
    b := d'.home;
    var c := Hit(d, n, m, x, v, k);
    RcvIsHome(e', g, n, h');
    if h' == Push(h, Rec(x, v, 0)) {
      if Lo(h', n) <= q { SlotDistinct(q, |h|, n); }
      LandedApplies(e', c, g, n, h, x, v);
      if k == 3 {
        assert c == d';
      } else {
        HitRestores(c, d', g, n, Slot(|h|, n), x, v);
      }
    } else {
      assert c == d';
    }
  }

  /** A ring with no gap, at rest once it has been replayed. */
  lemma RingOff(c: Disk, e: Disk, g: nat, n: nat, h: History)
    requires Core(e, g, n, h) && Formed(c) && Restored(c) == e && Generation(c) == g && FlagSet(c)
    requires 0 in e.home && Dirty(e.home[0])
    ensures OffInv(c, n, h)
  {
    CoreFrame(e, c, g, n, h);
    assert Restored(c).home[0] == RcvAt(c, g, 0);
  }

  lemma SkippedCutIdle(n: nat, s: Machine, a: Spec, e: Disk, h: History, q: nat, op: Op)
    requires SkippedBy(n, s, a, e, h, q) && s.phase.Recovering? && op.WriteBlock?
    ensures JournalDisk.Cut(s.disk, OpWrites(s.mem, n, op), 0) == s.disk && Restored(s.disk) == s.disk
    ensures SkippedBy(n, s.(phase := Off), a, e, h, q)
  {
    assert OpWrites(s.mem, n, op)[..0] == [];
  }

  lemma SkippedHit(n: nat, s: Machine, a: Spec, e: Disk, h: History, q: nat, x: nat, v: Data, k: nat) returns (c: Disk)
    requires SkippedBy(n, s, a, e, h, q) && s.phase.Recovering? && x in s.disk.home && x != 0 && 1 <= k <= 3
    ensures c == Hit(s.disk, n, s.mem, x, v, k) && Formed(c) && FlagSet(c)
    ensures Recovered(c) == s.disk.home || Recovered(c) == s.disk.home[x := v]
    ensures Sound(n, s.(disk := c, phase := Off), Spec(Recovered(c), []))
  {
    var g := s.mem.gen;
    c := Hit(s.disk, n, s.mem, x, v, k);
    var s' := s.(disk := c, phase := Off);
    var h', e', b := HitOff(s.disk, e, g, n, h, q, s.mem, x, v, k);
    if Lo(h', n) <= q {
      assert SkippedBy(n, s', Spec(b, []), e', h', q);
    } else {
      RingOff(c, e', g, n, h');
      assert InvBy(n, s', Spec(b, []), h');
    }
  }

  lemma SkippedCut(n: nat, s: Machine, a: Spec, e: Disk, h: History, q: nat, op: Op, k: nat)
    requires SkippedBy(n, s, a, e, h, q) && Enabled(n, s, Event.Cut(op, k))
    ensures var c := Next(n, s, Event.Cut(op, k));
            && Formed(c.disk) && Kept(a, op, Recovered(c.disk)) && Sound(n, c, Spec(Recovered(c.disk), []))
  {
    FlagWaits(n, s, a, e, h, q, op);
    InFlightHas(a, op.lba, op.data);
    if k == 0 {
      SkippedCutIdle(n, s, a, e, h, q, op);
    } else {
      var c := SkippedHit(n, s, a, e, h, q, op.lba, op.data, k);
      assert Next(n, s, Event.Cut(op, k)) == s.(disk := c, phase := Off);
    }
  }
}
