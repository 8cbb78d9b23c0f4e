/** Where the journal does not keep the per-block promise, and exactly when it does. */
module JournalFindings {
  // Also what a power cut does to a whole call.

  import opened Wrappers
  import opened JournalDisk
  import opened JournalRing
  import opened JournalWindow
  import opened JournalRun
  import opened JournalMachine
  import opened JournalDurable

  // ---- a mount whose replay is interrupted ----

  /** No superblock a replay would re-apply has the dirty flag clear. */
  predicate NoCleanRecord(d: Disk, g: nat)
    requires Formed(d)
  {
    forall i :: 0 <= i < |d.heads| && Applies(d, g, i) && d.heads[i].lba == 0 ==> Dirty(d.bodies[i])
  }

  ghost predicate ReplayCutsSafe(d: Disk, ws: seq<Write>)
    requires Formed(d)
  {
    forall k :: 0 <= k <= |ws| ==>
      Formed(JournalDisk.Cut(d, ws, k)) && Recovered(JournalDisk.Cut(d, ws, k)) == Rcv(d, Generation(d))
  }

  lemma CutStep(d: Disk, ws: seq<Write>, k: nat)
    requires 0 < k <= |ws|
    ensures JournalDisk.Cut(d, ws, k) == Put(JournalDisk.Cut(d, ws, k - 1), ws[k - 1])
  {
    assert ws[..k][..k - 1] == ws[..k - 1];
  }

  lemma CutsReplayAlike(d: Disk, ws: seq<Write>, k: nat)
    requires Formed(d) && IsReplay(d, Generation(d), ws) && AllHome(d, Generation(d)) && k <= |ws|
    ensures var c := JournalDisk.Cut(d, ws, k);
            Formed(c) && Generation(c) == Generation(d) && Rcv(c, Generation(c)) == Rcv(d, Generation(d))
  {
    ReplayIdempotent(d, Generation(d), ws, k);
  }

  /** The applicable slot of sector `x` with the greatest number up to `q`, among slots below `k`. */
  function NewestUpto(d: Disk, g: nat, x: nat, q: nat, k: nat): (r: Option<nat>)
    requires Formed(d) && k <= |d.heads|
    ensures r.Some? ==>
              r.value < k && Applies(d, g, r.value) && d.heads[r.value].lba == x && d.heads[r.value].num <= q
    ensures forall i :: 0 <= i < k && Applies(d, g, i) && d.heads[i].lba == x && d.heads[i].num <= q ==>
                          r.Some? && d.heads[i].num <= d.heads[r.value].num
  {
    if k == 0 then None
    else
      var b := NewestUpto(d, g, x, q, k - 1);
      if Applies(d, g, k - 1) && d.heads[k - 1].lba == x && d.heads[k - 1].num <= q
         && (b.None? || d.heads[b.value].num < d.heads[k - 1].num)
      then Some(k - 1) else b
  }

  /** Sector `x` once the records numbered up to `q` have been re-applied. */
  function ValueAsOf(d: Disk, g: nat, x: nat, q: nat): Data
    requires Formed(d) && x in d.home
  {
    var b := NewestUpto(d, g, x, q, |d.heads|);
    if b.Some? then d.bodies[b.value] else d.home[x]
  }

  /** The newest superblock re-applied up to record `j` has the flag clear. */
  predicate ReadsClean(d: Disk, g: nat, j: nat)
    requires Formed(d) && j < |d.heads| && d.heads[j].RecHead?
  {
    var b := NewestUpto(d, g, 0, d.heads[j].num, |d.heads|);
    b.Some? && !Dirty(d.bodies[b.value])
  }

  predicate SettledAt(d: Disk, g: nat, j: nat)
    requires Formed(d) && j < |d.heads| && d.heads[j].RecHead?
  {
    forall x :: x in d.home ==> ValueAsOf(d, g, x, d.heads[j].num) == RcvAt(d, g, x)
  }

  /** Wherever the superblock reads clean during the replay, the rest of the replay changes nothing. */
  predicate CleanOnlyWhenSettled(d: Disk, g: nat)
    requires Formed(d)
  {
    forall j :: 0 <= j < |d.heads| && Applies(d, g, j) && ReadsClean(d, g, j) ==> SettledAt(d, g, j)
  }

  /** After `k` writes of a replay every sector has its value as of the last record written. */
  lemma HomeAsOf(d: Disk, g: nat, idx: seq<nat>, k: nat, home: map<nat, Data>, x: nat)
    requires Formed(d) && ReplayOrder(d, g, idx) && 1 <= k <= |idx| && PartReplayed(d, idx, k, home) && x in d.home
    ensures x in home && home[x] == ValueAsOf(d, g, x, d.heads[idx[k - 1]].num)
  {
    var q := d.heads[idx[k - 1]].num;
    var w := NewestUpto(d, g, x, q, |d.heads|);
    if w.None? {
      forall j | 0 <= j < k ensures LbaAt(d, idx, j) != x {
        assert Applies(d, g, idx[j]);
      }
    } else {
      assert w.value in idx;
      var j :| 0 <= j < |idx| && idx[j] == w.value;
      assert j < k && Landed(d, idx, k, home, j);
      forall i | j < i < k ensures LbaAt(d, idx, i) != x {
        assert Applies(d, g, idx[i]);
      }
    }
  }

  lemma ReplayCutAt(d: Disk, g: nat, idx: seq<nat>, ws: seq<Write>, k: nat)
    requires Formed(d) && FlagSet(d) && g == Generation(d) && AllHome(d, g)
    requires ReplayOrder(d, g, idx) && WritesOf(d, g, idx, ws) && 1 <= k <= |ws|
    ensures ReplayCutSafe(d, ws, k) <==> (ReadsClean(d, g, idx[k - 1]) ==> SettledAt(d, g, idx[k - 1]))
  {
    var c, j := JournalDisk.Cut(d, ws, k), idx[k - 1];
    ReplaySteps(d, g, idx, ws, k);
    forall x | x in d.home ensures x in c.home && c.home[x] == ValueAsOf(d, g, x, d.heads[j].num) {
      HomeAsOf(d, g, idx, k, c.home, x);
    }
    assert FlagSet(c) <==> !ReadsClean(d, g, j);
    if SettledAt(d, g, j) {
      RcvEqual(d, g, c.home);
    }
    if c.home == Rcv(d, g) {
      forall x | x in d.home ensures ValueAsOf(d, g, x, d.heads[j].num) == RcvAt(d, g, x) {
        assert Rcv(d, g)[x] == RcvAt(d, g, x);
      }
    }
  }

  lemma SafeIsAlike(d: Disk, ws: seq<Write>, k: nat)
    requires Formed(d) && IsReplay(d, Generation(d), ws) && AllHome(d, Generation(d)) && k <= |ws|
    ensures var c := JournalDisk.Cut(d, ws, k);
            Formed(c) && (ReplayCutSafe(d, ws, k) <==> Recovered(c) == Rcv(d, Generation(d)))
  {
    CutsReplayAlike(d, ws, k);
  }

  lemma ReplayCutShows(d: Disk, g: nat, idx: seq<nat>, ws: seq<Write>, k: nat)
    requires Formed(d) && FlagSet(d) && g == Generation(d) && AllHome(d, g)
    requires ReplayOrder(d, g, idx) && WritesOf(d, g, idx, ws) && k <= |ws|
    ensures var c := JournalDisk.Cut(d, ws, k);
            Formed(c) && (Recovered(c) == Rcv(d, g)
                          <==> k == 0 || (ReadsClean(d, g, idx[k - 1]) ==> SettledAt(d, g, idx[k - 1])))
  {
    SafeIsAlike(d, ws, k);
    if k > 0 {
      ReplayCutAt(d, g, idx, ws, k);
    } else {
      assert ws[..0] == [];
    }
  }

  lemma SettledCutsSafe(d: Disk, g: nat, idx: seq<nat>, ws: seq<Write>, k: nat)
    requires Formed(d) && FlagSet(d) && g == Generation(d) && AllHome(d, g)
    requires ReplayOrder(d, g, idx) && WritesOf(d, g, idx, ws) && k <= |ws| && CleanOnlyWhenSettled(d, g)
    ensures var c := JournalDisk.Cut(d, ws, k); Formed(c) && Recovered(c) == Rcv(d, g)
  {
    ReplayCutShows(d, g, idx, ws, k);
    if k > 0 {
      assert Applies(d, g, idx[k - 1]);
    }
  }

  lemma UnsettledCutLoses(d: Disk, g: nat, idx: seq<nat>, ws: seq<Write>, j: nat) returns (k: nat)
    requires Formed(d) && FlagSet(d) && g == Generation(d) && AllHome(d, g)
    requires ReplayOrder(d, g, idx) && WritesOf(d, g, idx, ws)
    requires j < |d.heads| && Applies(d, g, j) && ReadsClean(d, g, j) && !SettledAt(d, g, j)
    ensures k <= |ws| && var c := JournalDisk.Cut(d, ws, k); Formed(c) && Recovered(c) != Rcv(d, g)
  {
    assert j in idx;
    var i :| 0 <= i < |idx| && idx[i] == j;
    k := i + 1;
    ReplayCutShows(d, g, idx, ws, k);
  }

  /** Exactly when a replay may be interrupted anywhere: when the superblock it re-applies reads
      clean only where nothing is left to change.  Otherwise the device reads clean too early, and
      the next mount replays nothing. */
  lemma ReplayCutsExact(d: Disk, ws: seq<Write>)
    requires Formed(d) && FlagSet(d) && IsReplay(d, Generation(d), ws) && AllHome(d, Generation(d))
    ensures ReplayCutsSafe(d, ws) <==> CleanOnlyWhenSettled(d, Generation(d))
  {
    var g := Generation(d);
    var idx :| ReplayOrder(d, g, idx) && WritesOf(d, g, idx, ws);
    if CleanOnlyWhenSettled(d, g) {
      forall k | 0 <= k <= |ws|
        ensures Formed(JournalDisk.Cut(d, ws, k)) && Recovered(JournalDisk.Cut(d, ws, k)) == Rcv(d, g)
      {
        SettledCutsSafe(d, g, idx, ws, k);
      }
    } else {
      var j :| 0 <= j < |d.heads| && Applies(d, g, j) && ReadsClean(d, g, j) && !SettledAt(d, g, j);
      var _ := UnsettledCutLoses(d, g, idx, ws, j);
    }
  }

  /** A replay that ends with the flag set may be interrupted anywhere exactly when it re-applies no
      superblock whose flag is clear. */
  lemma DirtyReplayCutsExact(d: Disk, ws: seq<Write>)
    requires Formed(d) && FlagSet(d) && IsReplay(d, Generation(d), ws) && AllHome(d, Generation(d))
    requires Dirty(RcvAt(d, Generation(d), 0))
    ensures ReplayCutsSafe(d, ws) <==> NoCleanRecord(d, Generation(d))
  {
    var g := Generation(d);
    ReplayCutsExact(d, ws);
    var idx :| ReplayOrder(d, g, idx) && WritesOf(d, g, idx, ws);
    forall i | 0 <= i < |d.heads| && Applies(d, g, i) && d.heads[i].lba == 0 && !Dirty(d.bodies[i])
      ensures ReadsClean(d, g, i) && !SettledAt(d, g, i)
    {
      OwnNewest(d, g, idx, i);
      assert ValueAsOf(d, g, 0, d.heads[i].num) != RcvAt(d, g, 0);
    }
  }

  lemma OwnNewest(d: Disk, g: nat, idx: seq<nat>, i: nat)
    requires Formed(d) && ReplayOrder(d, g, idx) && i < |d.heads| && Applies(d, g, i)
    ensures NewestUpto(d, g, d.heads[i].lba, d.heads[i].num, |d.heads|) == Some(i)
  {
    var w := NewestUpto(d, g, d.heads[i].lba, d.heads[i].num, |d.heads|);
    assert w.value in idx && i in idx;
  }

  // ---- whole calls ----

  predicate Logged(d: Disk, g: nat, x: nat)
    requires Formed(d)
  {
    exists i :: 0 <= i < |d.heads| && Applies(d, g, i) && d.heads[i].lba == x
  }

  lemma RecoversBase(d: Disk, g: nat, n: nat, h: History, base: map<nat, Data>, x: nat)
    requires Core(d, g, n, h) && Agree(h, Lo(h, n), base, {}) && x in d.home && x in base
    ensures RcvAt(d, g, x) == if Logged(d, g, x) then base[x] else d.home[x]
  {
    RcvOf(d, g, n, h, base, {}, x);
    if i :| 0 <= i < n && Applies(d, g, i) && d.heads[i].lba == x {
      AppliesIff(d, g, n, h, i);
      var q := d.heads[i].num;
      assert Counts(h, Lo(h, n), q) && h[q].lba == x;
    }
    if q: nat :| Counts(h, Lo(h, n), q) && h[q].lba == x {
      CountsApplies(d, g, n, h, q);
    }
  }

  lemma RebuiltFrom(d: Disk, g: nat, base: map<nat, Data>)
    requires Formed(d) && d.home.Keys == base.Keys
    requires forall x :: x in base ==> RcvAt(d, g, x) == if Logged(d, g, x) then base[x] else d.home[x]
    ensures Rcv(d, g) == base <==> forall x :: x in base && d.home[x] != base[x] ==> Logged(d, g, x)
  {
    forall x | x in base ensures Rcv(d, g)[x] == if Logged(d, g, x) then base[x] else d.home[x] {
    }
  }

  /** Exactly when an interrupted call is undone as a whole: when every block it has changed since
      the last commit record still has a record in the ring that a replay would re-apply. */
  lemma RollsBackExactly(d: Disk, n: nat, h: History, m: Mem, a: Spec, f: nat, base: map<nat, Data>)
    requires Core(d, m.gen, n, h) && RunningBy(d, n, h, m, a, f, base)
    ensures Rcv(d, m.gen) == base <==>
            forall x :: x in base && d.home[x] != base[x] ==> Logged(d, m.gen, x)
  {
    forall x | x in base
      ensures RcvAt(d, m.gen, x) == if Logged(d, m.gen, x) then base[x] else d.home[x]
    {
      RecoversBase(d, m.gen, n, h, base, x);
    }
    RebuiltFrom(d, m.gen, base);
  }
}
