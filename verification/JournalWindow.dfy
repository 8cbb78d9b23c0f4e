/** How one more entry moves the window: the oldest entry falls out, and with it every other member of
    its transaction stops counting. */
module JournalWindow {
  import opened Wrappers
  import opened JournalDisk
  import opened JournalRing

  function Push(h: History, e: Entry): History {
    h + [e]
  }

  function TxOf(e: Entry): nat {
    match e
    case Rec(_, _, t) => t
    case Torn => 0
    case Com(t, _, _, _) => t
  }

  /** Writing slot `|h| % n` is spending the next sequence number. */
  lemma HoldsPush(d: Disk, d': Disk, g: nat, n: nat, h: History, e: Entry)
    requires Holds(d, g, n, h) && Formed(d') && |d'.heads| == n
    requires var i := Slot(|h|, n);
             && (forall j :: 0 <= j < n && j != i ==> d'.heads[j] == d.heads[j] && d'.bodies[j] == d.bodies[j])
             && Matches(d', g, i, |h|, e) && (d'.heads[i].Other? || d'.heads[i].gen <= g)
    ensures Holds(d', g, n, Push(h, e))
  {
    var i, h' := Slot(|h|, n), Push(h, e);
    forall q | Lo(h', n) <= q < |h'| ensures Matches(d', g, Slot(q, n), q, h'[q]) {
      if q < |h| {
        SlotDistinct(q, |h|, n);
        assert Matches(d, g, Slot(q, n), q, h[q]);
      }
    }
    forall j | 0 <= j < n && IsCurrent(d', g, j)
      ensures Lo(h', n) <= d'.heads[j].num < |h'| && Slot(d'.heads[j].num, n) == j
    {
      if j != i {
        assert IsCurrent(d, g, j);
        if |h| > n {
          SlotWraps(|h| - n, n);
        }
      }
    }
  }

  // ---- agreement of the window with a set of values ----

  ghost predicate Shadowed(h: History, lo: nat, q: nat)
    requires q < |h| && h[q].Rec?
  {
    exists r: nat :: q < r && Counts(h, lo, r) && h[r].lba == h[q].lba
  }

  /** For every sector other than `skip`, the newest entry that counts carries the value `b`. */
  ghost predicate Agree(h: History, lo: nat, b: map<nat, Data>, skip: set<nat>) {
    forall q: nat :: Counts(h, lo, q) && h[q].lba !in skip ==>
                  h[q].lba in b && (Shadowed(h, lo, q) || h[q].data == b[h[q].lba])
  }

  /** Replaying a ring that agrees with `b` gives `b` wherever it writes, and the old home sector
      wherever it does not. */
  lemma RcvOf(d: Disk, g: nat, n: nat, h: History, b: map<nat, Data>, skip: set<nat>, x: nat)
    requires Holds(d, g, n, h) && Whole(h, Lo(h, n)) && Agree(h, Lo(h, n), b, skip)
    requires x in d.home && x !in skip
    ensures (exists q: nat :: Counts(h, Lo(h, n), q) && h[q].lba == x) ==> x in b && RcvAt(d, g, x) == b[x]
    ensures (forall q: nat :: Counts(h, Lo(h, n), q) ==> h[q].lba != x) ==> RcvAt(d, g, x) == d.home[x]
  {
    var lo, w := Lo(h, n), Newest(d, g, x, n);
    if w.Some? {
      AppliesIff(d, g, n, h, w.value);
      var q := d.heads[w.value].num;
      if Shadowed(h, lo, q) {
        var r: nat :| q < r && Counts(h, lo, r) && h[r].lba == x;
        CountsApplies(d, g, n, h, r);
      }
    }
    if q: nat :| Counts(h, lo, q) && h[q].lba == x {
      CountsApplies(d, g, n, h, q);
    }
  }

  lemma CountsApplies(d: Disk, g: nat, n: nat, h: History, q: nat)
    requires Holds(d, g, n, h) && Whole(h, Lo(h, n)) && Counts(h, Lo(h, n), q)
    ensures var i := Slot(q, n);
            Applies(d, g, i) && d.heads[i].num == q && d.heads[i].lba == h[q].lba && d.bodies[i] == h[q].data
  {
    SlotOfEntry(d, g, n, h, q);
    AppliesIff(d, g, n, h, Slot(q, n));
  }

  /** Corollary: a ring that agrees with the home sectors replays to the home sectors. */
  lemma RcvIsHome(d: Disk, g: nat, n: nat, h: History)
    requires Holds(d, g, n, h) && Whole(h, Lo(h, n)) && Agree(h, Lo(h, n), d.home, {})
    ensures Rcv(d, g) == d.home
  {
    forall x | x in d.home ensures RcvAt(d, g, x) == d.home[x] {
      RcvOf(d, g, n, h, d.home, {}, x);
    }
  }

  // ---- an entry that counts for nothing by itself ----

  predicate Fresh(h: History, lo: nat, t: nat) {
    forall p :: lo <= p < |h| && h[p].Com? ==> h[p].tx != t
  }

  lemma RunSetFrame(h: History, e: Entry, t: nat, f: nat, l: nat)
    requires l <= |h|
    ensures RunSet(Push(h, e), t, f, l) == RunSet(h, t, f, l)
  {
  }

  lemma WholePush(h: History, n: nat, e: Entry)
    requires n > 0 && Whole(h, Lo(h, n)) && !e.Com?
    requires e.Rec? ==> e.tx == 0 || Fresh(h, Lo(Push(h, e), n), e.tx)
    ensures Whole(Push(h, e), Lo(Push(h, e), n))
  {
    var h', lo := Push(h, e), Lo(Push(h, e), n);
    forall p | lo <= p < |h'| && h'[p].Com?
      ensures h'[p].tx != 0 && ClosesWhole(h', p) && OwnsId(h', lo, p)
    {
      assert ClosesWhole(h, p) && OwnsId(h, Lo(h, n), p);
      RunSetFrame(h, e, h[p].tx, h[p].first, h[p].last);
    }
  }

  /** Anything that still counts later counted before. */
  lemma CountsBefore(h: History, n: nat, e: Entry, q: nat)
    requires n > 0 && q < |h| && !e.Com? && Counts(Push(h, e), Lo(Push(h, e), n), q)
    ensures Counts(h, Lo(h, n), q)
  {
    var h', lo := Push(h, e), Lo(Push(h, e), n);
    if h[q].tx != 0 {
      var p: nat :| ClosedBy(h', lo, h'[q].tx, p);
      assert ClosedBy(h, Lo(h, n), h[q].tx, p);
    }
  }

  /** Dropping the oldest entry never uncovers an older value: whatever shadowed a counting entry
      still does, because the run that just lost a member holds nothing else that counts. */
  lemma ShadowKept(h: History, n: nat, e: Entry, q: nat)
    requires n > 0 && Whole(h, Lo(h, n)) && q < |h|
    requires Counts(h, Lo(h, n), q) && Counts(Push(h, e), Lo(Push(h, e), n), q)
    requires e.Com? ==> Fresh(h, Lo(h, n), e.tx) && h[q].tx != e.tx
    requires Shadowed(h, Lo(h, n), q)
    ensures Shadowed(Push(h, e), Lo(Push(h, e), n), q)
  {
    var h', lo, lo' := Push(h, e), Lo(h, n), Lo(Push(h, e), n);
    var r: nat :| q < r && Counts(h, lo, r) && h[r].lba == h[q].lba;
    if h[r].tx != 0 {
      var p: nat :| ClosedBy(h, lo, h[r].tx, p);
      assert OwnsId(h, lo, p) && ClosesWhole(h, p);
      assert ClosedBy(h', lo', h'[r].tx, p);
    }
    assert Counts(h', lo', r);
  }

  lemma AgreePush(h: History, n: nat, e: Entry, b: map<nat, Data>, skip: set<nat>)
    requires n > 0 && Whole(h, Lo(h, n)) && Agree(h, Lo(h, n), b, skip)
    requires e.Torn? || (e.Rec? && e.tx != 0 && Fresh(h, Lo(h, n), e.tx))
    ensures Agree(Push(h, e), Lo(Push(h, e), n), b, skip)
  {
    var h', lo := Push(h, e), Lo(Push(h, e), n);
    forall q: nat | Counts(h', lo, q) && h'[q].lba !in skip
      ensures h'[q].lba in b && (Shadowed(h', lo, q) || h'[q].data == b[h'[q].lba])
    {
      CountsBefore(h, n, e, q);
      if Shadowed(h, Lo(h, n), q) {
        ShadowKept(h, n, e, q);
      }
    }
  }

  /** An untagged record counts at once, and becomes the newest of its sector. */
  lemma AgreeLegacy(h: History, n: nat, e: Entry, b: map<nat, Data>, skip: set<nat>)
    requires n > 0 && Whole(h, Lo(h, n)) && Agree(h, Lo(h, n), b, skip)
    requires e.Rec? && e.tx == 0
    ensures Agree(Push(h, e), Lo(Push(h, e), n), b[e.lba := e.data], skip - {e.lba})
  {
    var h', lo := Push(h, e), Lo(Push(h, e), n);
    var b' := b[e.lba := e.data];
    assert Counts(h', lo, |h|);
    forall q: nat | Counts(h', lo, q) && h'[q].lba !in skip - {e.lba}
      ensures h'[q].lba in b' && (Shadowed(h', lo, q) || h'[q].data == b'[h'[q].lba])
    {
      if q < |h| && h[q].lba != e.lba {
        CountsBefore(h, n, e, q);
        if Shadowed(h, Lo(h, n), q) {
          ShadowKept(h, n, e, q);
        }
      }
    }
  }

  // ---- closing a transaction ----

  /** Entries [f, l) are the run of the open transaction `t`: `m` records of its own, possibly
      with one commit of another second; no other entry of the window carries its id. */
  ghost predicate OpenRun(h: History, lo: nat, t: nat, f: nat, l: nat, m: nat) {
    && t != 0 && 1 <= f <= l <= |h|
    && (m > 0 ==> f < l && h[f].Rec? && h[f].tx == t)
    && (forall r :: f <= r < l ==> (h[r].Rec? && h[r].tx == t) || (h[r].Com? && h[r].tx != t && r == f + 1))
    && (forall r :: lo <= r < |h| && !(f <= r < l) ==> TxOf(h[r]) != t)
    && |RunSet(h, t, f, l)| == m
  }

  predicate OfRun(h: History, t: nat, f: nat, l: nat, r: nat) {
    f <= r < l <= |h| && h[r].Rec? && h[r].tx == t
  }

  ghost predicate Rewritten(h: History, t: nat, f: nat, l: nat, r: nat)
    requires OfRun(h, t, f, l, r)
  {
    exists s: nat :: r < s && OfRun(h, t, f, l, s) && h[s].lba == h[r].lba
  }

  /** `b` is `base` with the records of the run laid over it. */
  ghost predicate LaidOver(h: History, t: nat, f: nat, l: nat, base: map<nat, Data>, b: map<nat, Data>) {
    && b.Keys == base.Keys
    && (forall r: nat :: OfRun(h, t, f, l, r) ==>
          h[r].lba in b && (h[r].data == b[h[r].lba] || Rewritten(h, t, f, l, r)))
    && (forall x :: x in base && (forall r: nat :: OfRun(h, t, f, l, r) ==> h[r].lba != x) ==> b[x] == base[x])
  }

  lemma WholeCommit(h: History, n: nat, t: nat, f: nat, l: nat, m: nat)
    requires n > 0 && Whole(h, Lo(h, n)) && m >= 1 && OpenRun(h, Lo(h, n), t, f, l, m)
    requires |h| == l || (|h| == l + 1 && m > 1)
    ensures Whole(Push(h, Com(t, m, f, l)), Lo(Push(h, Com(t, m, f, l)), n))
  {
    var e := Com(t, m, f, l);
    var h', lo := Push(h, e), Lo(Push(h, e), n);
    forall p | lo <= p < |h'| && h'[p].Com?
      ensures h'[p].tx != 0 && ClosesWhole(h', p) && OwnsId(h', lo, p)
    {
      if p < |h| {
        assert ClosesWhole(h, p) && OwnsId(h, Lo(h, n), p);
        RunSetFrame(h, e, h[p].tx, h[p].first, h[p].last);
      } else {
        RunSetFrame(h, e, t, f, l);
      }
    }
  }

  /** Nothing written after the run counts for anything yet. */
  predicate QuietAfter(h: History, lo: nat, l: nat) {
    forall q :: l <= q < |h| && h[q].Rec? ==> h[q].tx != 0 && Fresh(h, lo, h[q].tx)
  }

  lemma RunCounts(h: History, n: nat, t: nat, f: nat, l: nat, m: nat, q: nat)
    requires n > 0 && OpenRun(h, Lo(h, n), t, f, l, m) && OfRun(h, t, f, l, q)
    requires Lo(Push(h, Com(t, m, f, l)), n) <= f
    ensures Counts(Push(h, Com(t, m, f, l)), Lo(Push(h, Com(t, m, f, l)), n), q)
  {
    var h' := Push(h, Com(t, m, f, l));
    assert ClosedBy(h', Lo(h', n), t, |h|);
  }

  lemma RunEntryAgrees(h: History, n: nat, t: nat, f: nat, l: nat, m: nat,
                       base: map<nat, Data>, b: map<nat, Data>, q: nat)
    requires n > 0 && OpenRun(h, Lo(h, n), t, f, l, m) && LaidOver(h, t, f, l, base, b) && OfRun(h, t, f, l, q)
    requires Counts(Push(h, Com(t, m, f, l)), Lo(Push(h, Com(t, m, f, l)), n), q)
    ensures var h' := Push(h, Com(t, m, f, l));
            h'[q].lba in b && (Shadowed(h', Lo(h', n), q) || h'[q].data == b[h'[q].lba])
  {
    var h' := Push(h, Com(t, m, f, l));
    var lo := Lo(h', n);
    var p: nat :| ClosedBy(h', lo, t, p);
    assert p == |h|;
    if Rewritten(h, t, f, l, q) {
      var s: nat :| q < s && OfRun(h, t, f, l, s) && h[s].lba == h[q].lba;
      RunCounts(h, n, t, f, l, m, s);
      assert Shadowed(h', lo, q);
    }
  }

  lemma OlderEntryAgrees(h: History, n: nat, t: nat, f: nat, l: nat, m: nat,
                         base: map<nat, Data>, b: map<nat, Data>, q: nat)
    requires n > 0 && Whole(h, Lo(h, n)) && Agree(h, Lo(h, n), base, {}) && QuietAfter(h, Lo(h, n), l)
    requires OpenRun(h, Lo(h, n), t, f, l, m) && LaidOver(h, t, f, l, base, b) && !OfRun(h, t, f, l, q)
    requires Counts(Push(h, Com(t, m, f, l)), Lo(Push(h, Com(t, m, f, l)), n), q)
    ensures var h' := Push(h, Com(t, m, f, l));
            h'[q].lba in b && (Shadowed(h', Lo(h', n), q) || h'[q].data == b[h'[q].lba])
  {
    var h' := Push(h, Com(t, m, f, l));
    var lo := Lo(h', n);
    if h[q].tx != 0 {
      var p: nat :| ClosedBy(h', lo, h'[q].tx, p);
      assert ClosedBy(h, Lo(h, n), h[q].tx, p);
    }
    assert q < f;
    if r: nat :| OfRun(h, t, f, l, r) && h[r].lba == h[q].lba {
      RunCounts(h, n, t, f, l, m, r);
      assert Shadowed(h', lo, q);
    } else if Shadowed(h, Lo(h, n), q) {
      assert Fresh(h, Lo(h, n), t);
      ShadowKept(h, n, Com(t, m, f, l), q);
    }
  }

  lemma AgreeCommit(h: History, n: nat, t: nat, f: nat, l: nat, m: nat,
                    base: map<nat, Data>, b: map<nat, Data>)
    requires n > 0 && Whole(h, Lo(h, n)) && Agree(h, Lo(h, n), base, {}) && QuietAfter(h, Lo(h, n), l)
    requires OpenRun(h, Lo(h, n), t, f, l, m) && LaidOver(h, t, f, l, base, b)
    ensures Agree(Push(h, Com(t, m, f, l)), Lo(Push(h, Com(t, m, f, l)), n), b, {})
  {
    var h' := Push(h, Com(t, m, f, l));
    var lo := Lo(h', n);
    forall q: nat | Counts(h', lo, q)
      ensures h'[q].lba in b && (Shadowed(h', lo, q) || h'[q].data == b[h'[q].lba])
    {
      if OfRun(h, t, f, l, q) {
        RunEntryAgrees(h, n, t, f, l, m, base, b, q);
      } else {
        OlderEntryAgrees(h, n, t, f, l, m, base, b, q);
      }
    }
  }

  // ---- growing the open run ----

  lemma OpenPush(h: History, n: nat, t: nat, f: nat, m: nat, x: nat, v: Data,
                 base: map<nat, Data>, b: map<nat, Data>)
    requires n > 0 && OpenRun(h, Lo(h, n), t, f, |h|, m) && LaidOver(h, t, f, |h|, base, b)
    requires x in b && (m == 0 ==> f == |h|)
    ensures var h' := Push(h, Rec(x, v, t));
            OpenRun(h', Lo(h', n), t, f, |h'|, m + 1) && LaidOver(h', t, f, |h'|, base, b[x := v])
  {
    var h' := Push(h, Rec(x, v, t));
    assert RunSet(h', t, f, |h'|) == RunSet(h, t, f, |h|) + {|h|};
    LaidPush(h, t, f, x, v, base, b);
  }

  lemma LaidPush(h: History, t: nat, f: nat, x: nat, v: Data, base: map<nat, Data>, b: map<nat, Data>)
    requires LaidOver(h, t, f, |h|, base, b) && x in b && f <= |h|
    ensures LaidOver(Push(h, Rec(x, v, t)), t, f, |h| + 1, base, b[x := v])
  {
    var h' := Push(h, Rec(x, v, t));
    assert OfRun(h', t, f, |h| + 1, |h|);
    forall r: nat | OfRun(h', t, f, |h| + 1, r)
      ensures h'[r].data == b[x := v][h'[r].lba] || Rewritten(h', t, f, |h| + 1, r)
    {
      if r < |h| {
        assert OfRun(h, t, f, |h|, r);
        if Rewritten(h, t, f, |h|, r) {
          var s: nat :| r < s && OfRun(h, t, f, |h|, s) && h[s].lba == h[r].lba;
          assert OfRun(h', t, f, |h| + 1, s);
        }
      }
    }
    forall y | y in base && (forall r: nat :: OfRun(h', t, f, |h| + 1, r) ==> h'[r].lba != y)
      ensures b[x := v][y] == base[y]
    {
      forall r: nat | OfRun(h, t, f, |h|, r) ensures h[r].lba != y {
        assert OfRun(h', t, f, |h| + 1, r);
      }
    }
  }
}
