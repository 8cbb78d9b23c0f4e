/** The ring read as a window over the history of the current generation.  Entry `h[q]` is what sequence
    number `q` was spent on; the ring holds exactly the last `n` of them. */
module JournalRing {
  import opened Wrappers
  import opened JournalDisk
  import opened Arithmetic

  datatype Entry =
    | Rec(lba: nat, data: Data, tx: nat)   // both sectors written
    | Torn                                 // sector A written, sector B still the old one
    | Com(tx: nat, count: nat, first: nat, last: nat) // closes the run [first, last)

  type History = h: seq<Entry> | |h| >= 1 && h[0] == Torn witness [Torn]

  /** `seq % n`, counted up one sequence number at a time. */
  function Step(q: nat, n: nat): (i: nat)
    requires n > 0
    ensures i < n
  {
    if q == 0 then 0
    else
      var i := Step(q - 1, n) + 1;
      if i == n then 0 else i
  }

  function Slot(q: nat, n: nat): (i: nat)
    requires n > 0
    ensures i < n
  {
    Step(q, n)
  }

  lemma {:induction false} SlotIsMod(q: nat, n: nat)
    requires n > 0
    ensures Slot(q, n) == q % n
  {
    if q > 0 {
      SlotIsMod(q - 1, n);
      ModStep(q - 1, n);
    }
  }

  lemma {:induction false} StepApart(p: nat, q: nat, n: nat)
    requires n > 0 && p <= q < p + n
    ensures Step(q, n) == if Step(p, n) + (q - p) < n then Step(p, n) + (q - p) else Step(p, n) + (q - p) - n
    decreases q
  {
    if p < q {
      StepApart(p, q - 1, n);
    }
  }

  lemma SlotDistinct(p: nat, q: nat, n: nat)
    requires n > 0 && p < q < p + n
    ensures Slot(p, n) != Slot(q, n)
  {
    StepApart(p, q, n);
  }

  lemma SlotWraps(p: nat, n: nat)
    requires n > 0
    ensures Slot(p + n, n) == Slot(p, n)
  {
    StepApart(p, p + n - 1, n);
  }

  /** The oldest sequence number still in the ring. */
  function Lo(h: History, n: nat): (lo: nat)
    requires n > 0
    ensures 1 <= lo <= |h| && |h| <= lo + n
  {
    if |h| > n then |h| - n else 1
  }

  predicate Matches(d: Disk, g: nat, i: nat, q: nat, e: Entry)
    requires Formed(d) && i < |d.heads|
  {
    match e
    case Rec(x, v, t) => d.heads[i] == RecHead(g, q, x, t, Crc(q, x, t, v)) && d.bodies[i] == v
    case Torn => d.heads[i].RecHead? && d.heads[i].gen == g && d.heads[i].num == q && !IsRecord(d, g, i)
    case Com(t, c, _, _) => t != 0 && d.heads[i] == ComHead(g, q, t, c, CommitCrc(t, c))
  }

  ghost predicate Holds(d: Disk, g: nat, n: nat, h: History) {
    && n > 0 && Formed(d) && |d.heads| == n
    && (forall i :: 0 <= i < n && !d.heads[i].Other? ==> d.heads[i].gen <= g)
    && (forall q {:trigger Slot(q, n)} :: Lo(h, n) <= q < |h| ==> Matches(d, g, Slot(q, n), q, h[q]))
    && (forall i {:trigger IsCurrent(d, g, i)} :: 0 <= i < n && IsCurrent(d, g, i) ==>
          Lo(h, n) <= d.heads[i].num < |h| && Slot(d.heads[i].num, n) == i)
  }

  lemma EntryOf(d: Disk, g: nat, n: nat, h: History, i: nat)
    requires Holds(d, g, n, h) && i < n && IsCurrent(d, g, i)
    ensures Lo(h, n) <= d.heads[i].num < |h| && Slot(d.heads[i].num, n) == i
    ensures var q := d.heads[i].num;
            && Matches(d, g, i, q, h[q])
            && (IsRecord(d, g, i) <==> h[q].Rec?)
            && (IsCommit(d, g, i) <==> h[q].Com?)
  {
    var q := d.heads[i].num;
    assert Matches(d, g, Slot(q, n), q, h[q]);
  }

  lemma SlotOfEntry(d: Disk, g: nat, n: nat, h: History, q: nat)
    requires Holds(d, g, n, h) && Lo(h, n) <= q < |h|
    ensures IsCurrent(d, g, Slot(q, n)) && d.heads[Slot(q, n)].num == q
  {
    assert Matches(d, g, Slot(q, n), q, h[q]);
  }

  // ---- the transactions of the window ----

  /** The records of `t` among the entries [f, l). */
  ghost function RunSet(h: History, t: nat, f: nat, l: nat): set<nat>
    requires l <= |h|
  {
    set r: nat | f <= r < l && h[r].Rec? && h[r].tx == t
  }

  /** A commit closes a run that starts with a record of its own and holds nothing but its own
      records and, second in it, the commit of the chunk before.  The commit follows its run, or the
      first record of the next chunk if the run is more than one record long. */
  ghost predicate ClosesWhole(h: History, p: nat)
    requires p < |h| && h[p].Com?
  {
    var e := h[p];
    && 1 <= e.first < e.last <= p && h[e.first].Rec? && h[e.first].tx == e.tx
    && (forall r :: e.first <= r < e.last ==> (h[r].Com? && r == e.first + 1) || (h[r].Rec? && h[r].tx == e.tx))
    && p <= e.last + 1 && (p > e.last ==> e.count > 1)
    && |RunSet(h, e.tx, e.first, e.last)| == e.count
  }

  predicate OwnsId(h: History, lo: nat, p: nat)
    requires p < |h| && h[p].Com?
  {
    && (forall r :: lo <= r < |h| && h[r].Rec? && h[r].tx == h[p].tx ==> h[p].first <= r < h[p].last)
    && (forall r :: lo <= r < |h| && h[r].Com? && h[r].tx == h[p].tx ==> r == p)
  }

  /** Every commit record of the window closes a run of records of its own, and no other entry of
      the window carries its id: current-generation records with one id are one transaction. */
  ghost predicate Whole(h: History, lo: nat) {
    forall p :: lo <= p < |h| && h[p].Com? ==> h[p].tx != 0 && ClosesWhole(h, p) && OwnsId(h, lo, p)
  }

  predicate ClosedBy(h: History, lo: nat, t: nat, p: nat) {
    lo <= p < |h| && h[p].Com? && h[p].tx == t && lo <= h[p].first
  }

  /** Entry `q` takes part in a replay. */
  ghost predicate Counts(h: History, lo: nat, q: nat) {
    lo <= q < |h| && h[q].Rec? && (h[q].tx == 0 || exists p: nat :: ClosedBy(h, lo, h[q].tx, p))
  }

  function MemberSet(d: Disk, g: nat, t: nat, k: nat): set<nat>
    requires Formed(d) && k <= |d.heads|
  {
    set i: nat | 0 <= i < k && IsMember(d, g, t, i)
  }

  lemma {:induction false} MembersSize(d: Disk, g: nat, t: nat, k: nat)
    requires Formed(d) && k <= |d.heads|
    ensures |Members(d, g, t, k)| == |MemberSet(d, g, t, k)|
  {
    if k == 0 {
      assert MemberSet(d, g, t, 0) == {};
    } else {
      MembersSize(d, g, t, k - 1);
      if IsMember(d, g, t, k - 1) {
        assert MemberSet(d, g, t, k) == MemberSet(d, g, t, k - 1) + {k - 1};
      } else {
        assert MemberSet(d, g, t, k) == MemberSet(d, g, t, k - 1);
      }
    }
  }

  ghost function SlotsOf(s: set<nat>, n: nat): set<nat>
    requires n > 0
  {
    set r | r in s :: Slot(r, n)
  }

  /** Distinct sequence numbers of one window sit in distinct slots. */
  lemma {:induction false} SlotsOfSize(s: set<nat>, n: nat, lo: nat)
    requires n > 0 && forall r :: r in s ==> lo <= r < lo + n
    ensures |SlotsOf(s, n)| == |s|
  {
    if s == {} {
      assert SlotsOf(s, n) == {};
    } else {
      var x :| x in s;
      SlotsOfSize(s - {x}, n, lo);
      forall r | r in s && r != x ensures Slot(r, n) != Slot(x, n) {
        if r < x { SlotDistinct(r, x, n); } else { SlotDistinct(x, r, n); }
      }
      assert SlotsOf(s, n) == SlotsOf(s - {x}, n) + {Slot(x, n)};
    }
  }

  ghost function KeptRun(h: History, lo: nat, p: nat): set<nat>
    requires p < |h| && h[p].Com? && h[p].last <= |h|
  {
    set r | r in RunSet(h, h[p].tx, h[p].first, h[p].last) && lo <= r
  }

  lemma MemberIff(d: Disk, g: nat, n: nat, h: History, p: nat, i: nat)
    requires Holds(d, g, n, h) && Lo(h, n) <= p < |h| && h[p].Com?
    requires ClosesWhole(h, p) && OwnsId(h, Lo(h, n), p)
    ensures i < n && IsMember(d, g, h[p].tx, i) <==> i in SlotsOf(KeptRun(h, Lo(h, n), p), n)
  {
    var s := KeptRun(h, Lo(h, n), p);
    if i < n && IsMember(d, g, h[p].tx, i) {
      EntryOf(d, g, n, h, i);
      assert d.heads[i].num in s;
    }
    if i in SlotsOf(s, n) {
      var q :| q in s && Slot(q, n) == i;
      assert Matches(d, g, i, q, h[q]);
    }
  }

  lemma MembersKept(d: Disk, g: nat, n: nat, h: History, p: nat)
    requires Holds(d, g, n, h) && Lo(h, n) <= p < |h| && h[p].Com?
    requires ClosesWhole(h, p) && OwnsId(h, Lo(h, n), p)
    ensures |Members(d, g, h[p].tx, n)| == |KeptRun(h, Lo(h, n), p)|
  {
    var s := KeptRun(h, Lo(h, n), p);
    forall i: nat ensures i in MemberSet(d, g, h[p].tx, n) <==> i in SlotsOf(s, n) {
      MemberIff(d, g, n, h, p, i);
    }
    assert MemberSet(d, g, h[p].tx, n) == SlotsOf(s, n);
    MembersSize(d, g, h[p].tx, n);
    SlotsOfSize(s, n, Lo(h, n));
  }

  lemma SmallerSet(a: set<nat>, b: set<nat>, x: nat)
    requires a <= b && x in b && x !in a
    ensures |a| < |b|
  {
    assert a <= b - {x};
    SubsetSize(a, b - {x});
  }

  lemma {:induction false} SubsetSize(a: set<nat>, b: set<nat>)
    requires a <= b
    ensures |a| <= |b|
  {
    if x :| x in a {
      SubsetSize(a - {x}, b - {x});
    }
  }

  /** All the members of a committed transaction are found exactly when the first still is. */
  lemma MembersInWindow(d: Disk, g: nat, n: nat, h: History, p: nat)
    requires Holds(d, g, n, h) && Lo(h, n) <= p < |h| && h[p].Com?
    requires ClosesWhole(h, p) && OwnsId(h, Lo(h, n), p)
    ensures |Members(d, g, h[p].tx, n)| == h[p].count <==> Lo(h, n) <= h[p].first
  {
    MembersKept(d, g, n, h, p);
    var s, k := RunSet(h, h[p].tx, h[p].first, h[p].last), KeptRun(h, Lo(h, n), p);
    if Lo(h, n) <= h[p].first {
      assert k == s;
    } else {
      SmallerSet(k, s, h[p].first);
    }
  }

  lemma {:induction false} CommitCountIs(d: Disk, g: nat, n: nat, h: History, t: nat, k: nat)
    requires Holds(d, g, n, h) && Whole(h, Lo(h, n)) && k <= n && t != 0
    ensures CommitCount(d, g, t, k).Some? ==>
              exists p :: Lo(h, n) <= p < |h| && h[p].Com? && h[p].tx == t
                          && CommitCount(d, g, t, k) == Some(h[p].count)
    ensures forall p :: Lo(h, n) <= p < |h| && h[p].Com? && h[p].tx == t && Slot(p, n) < k ==>
                          CommitCount(d, g, t, k) == Some(h[p].count)
  {
    if k > 0 {
      CommitCountIs(d, g, n, h, t, k - 1);
      if IsCommitOf(d, g, t, k - 1) {
        EntryOf(d, g, n, h, k - 1);
        var p := d.heads[k - 1].num;
        assert OwnsId(h, Lo(h, n), p);
      }
      forall p | Lo(h, n) <= p < |h| && h[p].Com? && h[p].tx == t && Slot(p, n) == k - 1
        ensures IsCommitOf(d, g, t, k - 1) && d.heads[k - 1].count == h[p].count
      {
        assert Matches(d, g, Slot(p, n), p, h[p]);
      }
    }
  }

  lemma CompleteIff(d: Disk, g: nat, n: nat, h: History, t: nat)
    requires Holds(d, g, n, h) && Whole(h, Lo(h, n)) && t != 0
    ensures Complete(d, g, t) <==> exists p: nat :: ClosedBy(h, Lo(h, n), t, p)
  {
    CommitCountIs(d, g, n, h, t, n);
    if Complete(d, g, t) {
      var p :| Lo(h, n) <= p < |h| && h[p].Com? && h[p].tx == t && CommitCount(d, g, t, n) == Some(h[p].count);
      MembersInWindow(d, g, n, h, p);
      assert ClosedBy(h, Lo(h, n), t, p);
    }
    if p: nat :| ClosedBy(h, Lo(h, n), t, p) {
      MembersInWindow(d, g, n, h, p);
    }
  }

  /** What a replay of the disk re-applies is what the history says counts. */
  lemma AppliesIff(d: Disk, g: nat, n: nat, h: History, i: nat)
    requires Holds(d, g, n, h) && Whole(h, Lo(h, n)) && i < n
    ensures Applies(d, g, i) <==> IsCurrent(d, g, i) && Counts(h, Lo(h, n), d.heads[i].num)
    ensures Applies(d, g, i) ==>
              var e := h[d.heads[i].num]; e == Rec(d.heads[i].lba, d.bodies[i], d.heads[i].tx)
  {
    if IsCurrent(d, g, i) {
      EntryOf(d, g, n, h, i);
      var q := d.heads[i].num;
      if h[q].Rec? && h[q].tx != 0 {
        CompleteIff(d, g, n, h, h[q].tx);
      }
    }
  }
}
