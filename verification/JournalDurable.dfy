/** The invariant over every run of the journal machine, event by event, and what it says about
    a power cut. */
module JournalDurable {
  import opened JournalDisk
  import opened JournalRing
  import opened JournalWindow
  import opened JournalRun
  import opened JournalMachine

  lemma Unfold(d: Disk, ws: seq<Write>, k: nat)
    requires k <= |ws| <= 3
    ensures JournalDisk.Cut(d, ws, k) ==
            if k == 0 then d
            else if k == 1 then Put(d, ws[0])
            else if k == 2 then Put(Put(d, ws[0]), ws[1])
            else Put(Put(Put(d, ws[0]), ws[1]), ws[2])
  {
    if k >= 1 {
      assert ws[..1][..0] == [];
      assert PutAll(d, ws[..1]) == Put(PutAll(d, []), ws[0]);
    }
    if k >= 2 {
      assert ws[..2][..1] == ws[..1];
      assert PutAll(d, ws[..2]) == Put(PutAll(d, ws[..1]), ws[1]);
    }
    if k == 3 {
      assert ws[..3][..2] == ws[..2];
      assert PutAll(d, ws[..3]) == Put(PutAll(d, ws[..2]), ws[2]);
    }
  }

  /** A block write outside any transaction, cut before sector write `k`. */
  lemma LegacyCut(d: Disk, m: Mem, n: nat, h: History, x: nat, v: Data,
                  b: map<nat, Data>, skip: set<nat>, k: nat) returns (h': History)
    requires Core(d, m.gen, n, h) && m.next == |h| && m.depth == 0 && x in d.home && k <= 3
    requires Agree(h, Lo(h, n), b, skip)
    ensures |OpWrites(m, n, WriteBlock(x, v))| == 3
    ensures var d' := JournalDisk.Cut(d, OpWrites(m, n, WriteBlock(x, v)), k);
            && Core(d', m.gen, n, h') && d'.hdr == d.hdr
            && d'.home == (if k == 3 then d.home[x := v] else d.home)
    ensures h' == h || h' == Push(h, Torn) || h' == Push(h, Rec(x, v, 0))
    ensures k >= 2 ==> h' == Push(h, Rec(x, v, 0))
    ensures |h'| == if k == 0 then |h| else |h| + 1
    ensures if h' == Push(h, Rec(x, v, 0)) then Agree(h', Lo(h', n), b[x := v], skip - {x})
            else Agree(h', Lo(h', n), b, skip)
  {
    var ws := OpWrites(m, n, WriteBlock(x, v));
    Unfold(d, ws, k);
    AgreeLegacy(h, n, Rec(x, v, 0), b, skip);
    if k == 0 {
      h' := h;
    } else if k == 1 {
      HeadWritten(d, m, n, h, 0, x, v);
      h' := Push(h, HalfWritten(d, Slot(|h|, n), x, v, 0));
      if h' == Push(h, Torn) { AgreePush(h, n, Torn, b, skip); }
    } else {
      PairWritten(d, m, n, h, 0, x, v);
      h' := Push(h, Rec(x, v, 0));
      if k == 3 {
        CoreFrame(Put(Put(d, ws[0]), ws[1]), Put(Put(Put(d, ws[0]), ws[1]), ws[2]), m.gen, n, h');
      }
    }
  }

  lemma OpenIsFresh(h: History, lo: nat, t: nat, f: nat, m: nat)
    requires OpenRun(h, lo, t, f, |h|, m)
    ensures Fresh(h, lo, t)
  {
  }

  /** A block write inside a transaction: its record counts for nothing yet. */
  lemma TxCut(d: Disk, m: Mem, n: nat, h: History, x: nat, v: Data, b: map<nat, Data>, k: nat)
    returns (h': History)
    requires Core(d, m.gen, n, h) && m.next == |h| && m.depth > 0 && !Valve(m) && x in d.home && k <= 3
    requires Agree(h, Lo(h, n), b, {}) && m.tx != 0 && Fresh(h, Lo(h, n), m.tx)
    ensures |OpWrites(m, n, WriteBlock(x, v))| == 3
    ensures var d' := JournalDisk.Cut(d, OpWrites(m, n, WriteBlock(x, v)), k);
            && Core(d', m.gen, n, h') && d'.hdr == d.hdr
            && d'.home == (if k == 3 then d.home[x := v] else d.home)
    ensures k >= 2 ==> h' == Push(h, Rec(x, v, m.tx))
    ensures Agree(h', Lo(h', n), b, {})
  {
    var ws := OpWrites(m, n, WriteBlock(x, v));
    Unfold(d, ws, k);
    if k == 0 {
      h' := h;
    } else if k == 1 {
      HeadWritten(d, m, n, h, m.tx, x, v);
      h' := Push(h, HalfWritten(d, Slot(|h|, n), x, v, m.tx));
      AgreePush(h, n, HalfWritten(d, Slot(|h|, n), x, v, m.tx), b, {});
    } else {
      PairWritten(d, m, n, h, m.tx, x, v);
      h' := Push(h, Rec(x, v, m.tx));
      AgreePush(h, n, Rec(x, v, m.tx), b, {});
      if k == 3 {
        CoreFrame(Put(Put(d, ws[0]), ws[1]), Put(Put(Put(d, ws[0]), ws[1]), ws[2]), m.gen, n, h');
      }
    }
  }

  // ---- the writes of the open call over the completed ones ----

  lemma {:induction false} OverlayAt(done: map<nat, Data>, s: seq<(nat, Data)>, x: nat)
    ensures x in done ==> x in Overlay(done, s)
    ensures (forall j :: 0 <= j < |s| ==> s[j].0 != x) && x in done ==> Overlay(done, s)[x] == done[x]
    ensures x in Overlay(done, s) ==>
              (x in done && Overlay(done, s)[x] == done[x]) || (x, Overlay(done, s)[x]) in s
  {
    if s != [] {
      OverlayAt(done, s[..|s| - 1], x);
      assert s == s[..|s| - 1] + [s[|s| - 1]];
    }
  }

  // ---- a power cut, phase by phase ----

  /** If the newest counting values and the home sectors are admitted, so is what a replay makes
      of them. */
  lemma RcvKept(d: Disk, g: nat, n: nat, h: History, b: map<nat, Data>, a: Spec, op: Op)
    requires Core(d, g, n, h) && Agree(h, Lo(h, n), b, {})
    requires d.home.Keys == a.done.Keys && AllAdmitted(a, op, d.home) && AllAdmitted(a, op, b)
    ensures Kept(a, op, Rcv(d, g))
  {
    forall x | x in a.done ensures Admits(a, op, x, RcvAt(d, g, x)) {
      RcvOf(d, g, n, h, b, {}, x);
    }
  }

  lemma InFlightHas(a: Spec, x: nat, v: Data)
    ensures (x, v) in InFlight(a, WriteBlock(x, v))
  {
    assert InFlight(a, WriteBlock(x, v))[|a.open|] == (x, v);
  }

  lemma AgreeWider(h: History, lo: nat, b: map<nat, Data>, x: nat, v: Data)
    requires Agree(h, lo, b[x := v], {}) && x in b
    ensures Agree(h, lo, b, {x})
  {
  }

  ghost predicate CutGood(n: nat, s: Machine, a: Spec, op: Op, k: nat)
    requires n > 0 && k <= |OpWrites(s.mem, n, op)|
  {
    var d' := JournalDisk.Cut(s.disk, OpWrites(s.mem, n, op), k);
    && Formed(d') && Kept(a, op, Recovered(d')) && exists h' :: OffInv(d', n, h')
  }

  /** Enough to be left behind by a power cut while the flag is set. */
  lemma CutGoodBy(n: nat, s: Machine, a: Spec, op: Op, k: nat, d: Disk, g: nat, h: History, b: map<nat, Data>)
    requires n > 0 && k <= |OpWrites(s.mem, n, op)| && d == JournalDisk.Cut(s.disk, OpWrites(s.mem, n, op), k)
    requires Core(d, g, n, h) && Generation(d) == g && FlagSet(d) && Agree(h, Lo(h, n), b, {})
    requires d.home.Keys == a.done.Keys && AllAdmitted(a, op, d.home) && AllAdmitted(a, op, b)
    requires (0 in b && Dirty(b[0])) || (Untagged(h, Lo(h, n)) && EndsAtSuperblock(h, Lo(h, n)))
    ensures CutGood(n, s, a, op, k)
  {
    RcvKept(d, g, n, h, b, a, op);
    RcvOf(d, g, n, h, b, {}, 0);
    assert OffInv(d, n, h);
  }

  lemma CutRecoveringSet(n: nat, s: Machine, a: Spec, op: Op, k: nat, h: History)
    requires InvBy(n, s, a, h) && s.phase.Recovering? && Enabled(n, s, Event.Cut(op, k))
    requires FlagSet(JournalDisk.Cut(s.disk, OpWrites(s.mem, n, op), k))
    ensures CutGood(n, s, a, op, k)
  {
    var x, v := op.lba, op.data;
    var h' := LegacyCut(s.disk, s.mem, n, h, x, v, s.disk.home, {}, k);
    var d' := JournalDisk.Cut(s.disk, OpWrites(s.mem, n, op), k);
    var b := if h' == Push(h, Rec(x, v, 0)) then s.disk.home[x := v] else s.disk.home;
    InFlightHas(a, x, v);
    CutGoodBy(n, s, a, op, k, d', s.mem.gen, h', b);
  }

  /** A ring of one slot holds only its newest entry. */
  lemma LoneEntryAgrees(h: History, n: nat, b: map<nat, Data>)
    requires n == 1 && forall q :: Lo(h, n) <= q < |h| && h[q].Rec? ==> h[q].lba in b
    ensures Agree(h, Lo(h, n), b, b.Keys)
  {
  }

  /** Where a recovery may be cut with the flag clear, the record, if it landed, speaks of the
      value the block holds. */
  lemma CutRecoveringAgrees(n: nat, s: Machine, a: Spec, op: Op, k: nat, h: History, h': History)
    requires InvBy(n, s, a, h) && s.phase.Recovering? && Enabled(n, s, Event.Cut(op, k))
    requires !FlagSet(s.disk) && s.phase.Recovering?
    requires var d' := JournalDisk.Cut(s.disk, OpWrites(s.mem, n, op), k);
             Core(d', s.mem.gen, n, h') && d'.home == (if k == 3 then s.disk.home[op.lba := op.data] else s.disk.home)
    requires h' == Push(h, Rec(op.lba, op.data, 0)) ==>
               k >= 2 || (k == 1 && s.disk.bodies[Slot(|h|, n)] == op.data)
    requires if h' == Push(h, Rec(op.lba, op.data, 0))
             then Agree(h', Lo(h', n), s.disk.home[op.lba := op.data], {})
             else Agree(h', Lo(h', n), s.disk.home, {})
    requires h' == Push(h, Rec(op.lba, op.data, 0)) || k < 3
    ensures var d' := JournalDisk.Cut(s.disk, OpWrites(s.mem, n, op), k);
            Agree(h', Lo(h', n), d'.home, Loose(d', n))
  {
    var d', x, v := JournalDisk.Cut(s.disk, OpWrites(s.mem, n, op), k), op.lba, op.data;
    if n == 1 {
      LoneEntryAgrees(h', n, d'.home);
    } else if h' == Push(h, Rec(x, v, 0)) && k < 3 {
      if x == 0 {
        AgreeWider(h', Lo(h', n), s.disk.home, 0, v);
      } else {
        assert s.disk.home[x := v] == s.disk.home;
      }
    }
  }

  lemma HalfIsRecord(d: Disk, m: Mem, n: nat, h: History, x: nat, v: Data, k: nat, h': History)
    requires Core(d, m.gen, n, h) && m.next == |h| && m.depth == 0 && k <= 3
    requires |OpWrites(m, n, WriteBlock(x, v))| == 3
    requires Core(JournalDisk.Cut(d, OpWrites(m, n, WriteBlock(x, v)), k), m.gen, n, h')
    requires h' == Push(h, Rec(x, v, 0))
    ensures k >= 2 || (k == 1 && d.bodies[Slot(|h|, n)] == v)
  {
    var i, ws := Slot(|h|, n), OpWrites(m, n, WriteBlock(x, v));
    Unfold(d, ws, k);
    var d' := JournalDisk.Cut(d, ws, k);
    assert Matches(d', m.gen, i, |h|, h'[|h|]);
    if k == 0 {
      assert IsCurrent(d, m.gen, i);
    }
  }

  lemma CutRecoveringClear(n: nat, s: Machine, a: Spec, op: Op, k: nat, h: History)
    requires InvBy(n, s, a, h) && s.phase.Recovering? && Enabled(n, s, Event.Cut(op, k))
    requires !FlagSet(s.disk)
    ensures CutGood(n, s, a, op, k)
  {
    var x, v := op.lba, op.data;
    var h' := LegacyCut(s.disk, s.mem, n, h, x, v, s.disk.home, {}, k);
    var d' := JournalDisk.Cut(s.disk, OpWrites(s.mem, n, op), k);
    InFlightHas(a, x, v);
    if h' == Push(h, Rec(x, v, 0)) {
      HalfIsRecord(s.disk, s.mem, n, h, x, v, k, h');
    }
    CutRecoveringAgrees(n, s, a, op, k, h, h');
    assert OffInv(d', n, h');
  }

  /** The recovery clears the flag as its last write: by then every slot holds a record of its own. */
  lemma CutRecoveringLast(n: nat, s: Machine, a: Spec, op: Op, h: History)
    requires InvBy(n, s, a, h) && s.phase.Recovering? && Enabled(n, s, Event.Cut(op, 3)) && op.lba == 0
    ensures CutGood(n, s, a, op, 3)
  {
    var v := op.data;
    var h' := LegacyCut(s.disk, s.mem, n, h, 0, v, s.disk.home, {}, 3);
    var d' := JournalDisk.Cut(s.disk, OpWrites(s.mem, n, op), 3);
    InFlightHas(a, 0, v);
    assert Agree(h', Lo(h', n), d'.home, Loose(d', n));
    assert OffInv(d', n, h');
  }

  lemma CutRecovering(n: nat, s: Machine, a: Spec, op: Op, k: nat, h: History)
    requires InvBy(n, s, a, h) && s.phase.Recovering? && Enabled(n, s, Event.Cut(op, k))
    ensures CutGood(n, s, a, op, k)
  {
    var d' := JournalDisk.Cut(s.disk, OpWrites(s.mem, n, op), k);
    if !FlagSet(s.disk) {
      CutRecoveringClear(n, s, a, op, k, h);
    } else if op.lba == 0 && k == 3 {
      CutRecoveringLast(n, s, a, op, h);
    } else {
      var _ := LegacyCut(s.disk, s.mem, n, h, op.lba, op.data, s.disk.home, {}, k);
      CutRecoveringSet(n, s, a, op, k, h);
    }
  }

  /** The flag's own record is the newest one of the superblock, and all there is in a ring of one
      slot. */
  lemma FlagRecorded(h: History, n: nat, b: map<nat, Data>, v: Data)
    requires n > 0 && 0 in b
    requires var h' := Push(h, Rec(0, v, 0));
             Agree(h', Lo(h', n), b[0 := v], (if n == 1 then b.Keys else {0}) - {0})
    ensures var h' := Push(h, Rec(0, v, 0)); Agree(h', Lo(h', n), b[0 := v], {})
  {
    var h' := Push(h, Rec(0, v, 0));
    forall q: nat | Counts(h', Lo(h', n), q)
      ensures h'[q].lba in b[0 := v] && (Shadowed(h', Lo(h', n), q) || h'[q].data == b[0 := v][h'[q].lba])
    {
      if n == 1 {
        assert q == |h|;
      }
    }
  }

  lemma LooseStays(h: History, n: nat, b: map<nat, Data>, v: Data, d: Disk)
    requires n > 0 && 0 in b && d.home == b
    requires var h' := Push(h, Rec(0, v, 0)); Agree(h', Lo(h', n), b[0 := v], {})
    ensures var h' := Push(h, Rec(0, v, 0)); Agree(h', Lo(h', n), b, Loose(d, n))
  {
    AgreeWider(Push(h, Rec(0, v, 0)), Lo(Push(h, Rec(0, v, 0)), n), b, 0, v);
  }

  lemma CutCleared(n: nat, s: Machine, a: Spec, op: Op, k: nat, h: History)
    requires InvBy(n, s, a, h) && s.phase.Cleared? && Enabled(n, s, Event.Cut(op, k))
    ensures CutGood(n, s, a, op, k)
  {
    var v := op.data;
    var h' := LegacyCut(s.disk, s.mem, n, h, 0, v, s.disk.home, Loose(s.disk, n), k);
    var d' := JournalDisk.Cut(s.disk, OpWrites(s.mem, n, op), k);
    InFlightHas(a, 0, v);
    if h' == Push(h, Rec(0, v, 0)) {
      FlagRecorded(h, n, s.disk.home, v);
    }
    if k == 3 {
      CutGoodBy(n, s, a, op, k, d', s.mem.gen, h', s.disk.home[0 := v]);
    } else {
      if h' == Push(h, Rec(0, v, 0)) {
        LooseStays(h, n, s.disk.home, v, d');
      }
      assert OffInv(d', n, h');
    }
  }

  lemma CutStopping(n: nat, s: Machine, a: Spec, op: Op, k: nat, h: History)
    requires InvBy(n, s, a, h) && s.phase.Stopping? && Enabled(n, s, Event.Cut(op, k)) && k < 3
    ensures CutGood(n, s, a, op, k)
  {
    var v := op.data;
    var h' := LegacyCut(s.disk, s.mem, n, h, 0, v, s.disk.home, {}, k);
    var d' := JournalDisk.Cut(s.disk, OpWrites(s.mem, n, op), k);
    var b := if h' == Push(h, Rec(0, v, 0)) then s.disk.home[0 := v] else s.disk.home;
    InFlightHas(a, 0, v);
    CutGoodBy(n, s, a, op, k, d', s.mem.gen, h', b);
  }

  lemma CutStopped(n: nat, s: Machine, a: Spec, op: Op, h: History)
    requires InvBy(n, s, a, h) && s.phase.Stopping? && Enabled(n, s, Event.Cut(op, 3))
    ensures CutGood(n, s, a, op, 3)
  {
    var v := op.data;
    var h' := LegacyCut(s.disk, s.mem, n, h, 0, v, s.disk.home, {}, 3);
    var d' := JournalDisk.Cut(s.disk, OpWrites(s.mem, n, op), 3);
    InFlightHas(a, 0, v);
    LooseStays(h, n, d'.home, v, d');
    assert OffInv(d', n, h');
  }

  lemma OverlayAdmitted(a: Spec, op: Op)
    ensures AllAdmitted(a, op, a.done)
    ensures Overlay(a.done, a.open).Keys == a.done.Keys ==> AllAdmitted(a, op, Overlay(a.done, a.open))
  {
    var b := Overlay(a.done, a.open);
    if b.Keys == a.done.Keys {
      forall x | x in b ensures Admits(a, op, x, b[x]) {
        OverlayAt(a.done, a.open, x);
        assert forall y :: y in a.open ==> y in InFlight(a, op);
      }
    }
  }

  lemma CutRunningLegacy(n: nat, s: Machine, a: Spec, op: Op, k: nat, h: History)
    requires InvBy(n, s, a, h) && s.phase.Running? && Enabled(n, s, Event.Cut(op, k))
    requires op.WriteBlock? && s.mem.depth == 0
    ensures CutGood(n, s, a, op, k)
  {
    var d' := JournalDisk.Cut(s.disk, OpWrites(s.mem, n, op), k);
    var f: nat, base: map<nat, Data> :| RunningBy(s.disk, n, h, s.mem, a, f, base);
    OverlayAdmitted(a, op);
    var x, v := op.lba, op.data;
    InFlightHas(a, x, v);
    var h' := LegacyCut(s.disk, s.mem, n, h, x, v, base, {}, k);
    CutGoodBy(n, s, a, op, k, d', s.mem.gen, h', if h' == Push(h, Rec(x, v, 0)) then base[x := v] else base);
  }

  lemma CutTx(n: nat, s: Machine, a: Spec, x: nat, v: Data, k: nat, h: History, f: nat, base: map<nat, Data>)
    requires Core(s.disk, s.mem.gen, n, h) && Generation(s.disk) == s.mem.gen && s.mem.next == |h|
    requires RunningBy(s.disk, n, h, s.mem, a, f, base)
    requires s.mem.depth > 0 && !Valve(s.mem) && x in s.disk.home && 0 in s.disk.home && x != 0 && k <= 3
    ensures |OpWrites(s.mem, n, WriteBlock(x, v))| == 3 && CutGood(n, s, a, WriteBlock(x, v), k)
  {
    OverlayAdmitted(a, WriteBlock(x, v));
    AdmitsMore(a, WriteBlock(x, v), base);
    InFlightHas(a, x, v);
    OpenIsFresh(h, Lo(h, n), s.mem.tx, f, s.mem.count);
    var h' := TxCut(s.disk, s.mem, n, h, x, v, base, k);
    CutGoodBy(n, s, a, WriteBlock(x, v), k, JournalDisk.Cut(s.disk, OpWrites(s.mem, n, WriteBlock(x, v)), k),
              s.mem.gen, h', base);
  }

  lemma CutRunningTx(n: nat, s: Machine, a: Spec, op: Op, k: nat, h: History)
    requires InvBy(n, s, a, h) && s.phase.Running? && Enabled(n, s, Event.Cut(op, k))
    requires op.WriteBlock? && s.mem.depth > 0 && !Valve(s.mem)
    ensures CutGood(n, s, a, op, k)
  {
    var f: nat, base: map<nat, Data> :| RunningBy(s.disk, n, h, s.mem, a, f, base);
    CutTx(n, s, a, op.lba, op.data, k, h, f, base);
  }

  lemma AdmitsMore(a: Spec, op: Op, b: map<nat, Data>)
    requires AllAdmitted(a, Begin, b)
    ensures AllAdmitted(a, op, b)
  {
    forall x | x in b ensures Admits(a, op, x, b[x]) {
      assert forall y :: y in a.open ==> y in InFlight(a, op);
    }
  }

  lemma CutRunningIdle(n: nat, s: Machine, a: Spec, op: Op, h: History)
    requires InvBy(n, s, a, h) && s.phase.Running? && Enabled(n, s, Event.Cut(op, 0))
    ensures CutGood(n, s, a, op, 0)
  {
    var f: nat, base: map<nat, Data> :| RunningBy(s.disk, n, h, s.mem, a, f, base);
    OverlayAdmitted(a, op);
    AdmitsMore(a, op, base);
    assert OpWrites(s.mem, n, op)[..0] == [];
    CutGoodBy(n, s, a, op, 0, s.disk, s.mem.gen, h, base);
  }

  lemma CutRunningCommit(n: nat, s: Machine, a: Spec, k: nat, h: History)
    requires InvBy(n, s, a, h) && s.phase.Running? && Enabled(n, s, Event.Cut(Commit, k)) && k > 0
    ensures CutGood(n, s, a, Commit, k)
  {
    var d' := JournalDisk.Cut(s.disk, OpWrites(s.mem, n, Commit), k);
    OverlayAdmitted(a, Commit);
    var h' := CommitCut(n, s, a, h, k);
    CutGoodBy(n, s, a, Commit, k, d', s.mem.gen, h', s.disk.home);
  }

  lemma CommitDisk(d: Disk, m: Mem, n: nat, h: History, f: nat, k: nat)
    requires Core(d, m.gen, n, h) && m.next == |h| && m.depth == 1 && m.count > 0 && 1 <= k <= 2
    requires OpenRun(h, Lo(h, n), m.tx, f, |h|, m.count)
    ensures |OpWrites(m, n, Commit)| == 2
    ensures var d' := JournalDisk.Cut(d, OpWrites(m, n, Commit), k);
            Core(d', m.gen, n, Push(h, Com(m.tx, m.count, f, |h|))) && d'.home == d.home && d'.hdr == d.hdr
  {
    Unfold(d, OpWrites(m, n, Commit), k);
    CommitWritten(d, m, n, h, m.tx, f, |h|, m.count);
  }

  /** The first sector of the commit record is the point where the call's writes become the ones
      a replay restores. */
  lemma CommitCut(n: nat, s: Machine, a: Spec, h: History, k: nat) returns (h': History)
    requires InvBy(n, s, a, h) && s.phase.Running? && s.mem.depth == 1 && s.mem.count > 0 && 1 <= k <= 2
    ensures |OpWrites(s.mem, n, Commit)| == 2 && |h'| == |h| + 1
    ensures var d' := JournalDisk.Cut(s.disk, OpWrites(s.mem, n, Commit), k);
            Core(d', s.mem.gen, n, h') && Agree(h', Lo(h', n), s.disk.home, {})
            && d'.home == s.disk.home && d'.hdr == s.disk.hdr
    ensures IdsBelow(h', Lo(h', n), s.mem.txNext)
  {
    var f: nat, base: map<nat, Data> :| RunningBy(s.disk, n, h, s.mem, a, f, base);
    h' := Push(h, Com(s.mem.tx, s.mem.count, f, |h|));
    CommitDisk(s.disk, s.mem, n, h, f, k);
    AgreeCommit(h, n, s.mem.tx, f, |h|, s.mem.count, base, s.disk.home);
  }

  // ---- the chunk valve ----

  lemma OpenFrame(h: History, n: nat, e: Entry, t: nat, f: nat, m: nat, base: map<nat, Data>, b: map<nat, Data>)
    requires n > 0 && OpenRun(h, Lo(h, n), t, f, |h|, m) && LaidOver(h, t, f, |h|, base, b) && TxOf(e) != t
    ensures OpenRun(Push(h, e), Lo(Push(h, e), n), t, f, |h|, m) && LaidOver(Push(h, e), t, f, |h|, base, b)
  {
    var h' := Push(h, e);
    RunSetFrame(h, e, t, f, |h|);
    forall r: nat ensures OfRun(h', t, f, |h|, r) <==> OfRun(h, t, f, |h|, r) {
    }
    forall r: nat | OfRun(h', t, f, |h|, r)
      ensures h'[r].data == b[h'[r].lba] || Rewritten(h', t, f, |h|, r)
    {
      if Rewritten(h, t, f, |h|, r) {
        var s: nat :| r < s && OfRun(h, t, f, |h|, s) && h[s].lba == h[r].lba;
        assert OfRun(h', t, f, |h|, s);
      }
    }
  }

  function AfterRecord(d: Disk, m: Mem, n: nat, x: nat, v: Data, half: bool): Disk
    requires n > 0
  {
    var rs := RecordPair(m, n, m.next, m.txNext, x, v);
    if half then Put(d, rs[0]) else Put(Put(d, rs[0]), rs[1])
  }

  function AfterCommit(d: Disk, m: Mem, n: nat, q: nat): Disk
    requires n > 0
  {
    var cs := CommitPair(m, n, q, m.tx, m.count);
    Put(Put(d, cs[0]), cs[1])
  }

  function AfterHome(c: Disk, x: nat, v: Data, landed: bool): Disk {
    if landed then Put(c, ToHome(x, v)) else c
  }

  /** The two slots are written in the opposite order of their numbers; once both heads are down
      the disk is the one the numbers suggest. */
  lemma ValveDisk(d: Disk, m: Mem, n: nat, x: nat, v: Data, k: nat)
    requires Formed(d) && |d.heads| == n >= 2 && Valve(m) && 3 <= k <= 5
    ensures |OpWrites(m, n, WriteBlock(x, v))| == 5
    ensures JournalDisk.Cut(d, OpWrites(m, n, WriteBlock(x, v)), k)
            == AfterHome(AfterCommit(AfterRecord(d, m, n, x, v, k == 3), m, n, m.next + 1), x, v, k == 5)
  {
    var ws := OpWrites(m, n, WriteBlock(x, v));
    var rs, cs := RecordPair(m, n, m.next, m.txNext, x, v), CommitPair(m, n, m.next + 1, m.tx, m.count);
    assert ws == [cs[0], cs[1], rs[0], rs[1], ToHome(x, v)];
    SlotDistinct(m.next, m.next + 1, n);
    Unfold(d, ws[..3], 3);
    assert ws[..3][..3] == ws[..3];
    var c := PutAll(d, ws[..3]);
    assert c == Put(Put(Put(d, cs[0]), cs[1]), rs[0]);
    assert ws[..4][..3] == ws[..3] && PutAll(d, ws[..4]) == Put(c, rs[1]);
    assert ws[..5][..4] == ws[..4] && PutAll(d, ws[..5]) == Put(Put(c, rs[1]), ToHome(x, v));
    var j, i := Slot(m.next, n), Slot(m.next + 1, n);
    assert d.heads[i := cs[0].head][j := rs[0].head] == d.heads[j := rs[0].head][i := cs[0].head];
    assert d.bodies[i := ZERO][j := v] == d.bodies[j := v][i := ZERO];
  }

  lemma ValveEntries(d: Disk, m: Mem, n: nat, h: History, x: nat, v: Data, e: Entry,
                     f: nat, base: map<nat, Data>, b: map<nat, Data>)
    requires n > 0 && Whole(h, Lo(h, n)) && Agree(h, Lo(h, n), base, {})
    requires OpenRun(h, Lo(h, n), m.tx, f, |h|, m.count) && LaidOver(h, m.tx, f, |h|, base, b)
    requires m.tx < m.txNext && IdsBelow(h, Lo(h, n), m.txNext)
    requires e == Torn || e == Rec(x, v, m.txNext)
    ensures var h1 := Push(h, e);
            var h2 := Push(h1, Com(m.tx, m.count, f, |h|));
            && Whole(h1, Lo(h1, n)) && OpenRun(h1, Lo(h1, n), m.tx, f, |h|, m.count)
            && Agree(h2, Lo(h2, n), b, {}) && IdsBelow(h2, Lo(h2, n), m.txNext + 1)
  {
    var h1 := Push(h, e);
    WholePush(h, n, e);
    AgreePush(h, n, e, base, {});
    OpenFrame(h, n, e, m.tx, f, m.count, base, b);
    AgreeCommit(h1, n, m.tx, f, |h|, m.count, base, b);
  }

  lemma RecordLanded(d: Disk, m: Mem, n: nat, h: History, x: nat, v: Data, half: bool, e: Entry) returns (r: Disk)
    requires Core(d, m.gen, n, h) && m.next == |h| && x in d.home
    requires m.txNext != 0 && Fresh(h, Lo(h, n), m.txNext)
    requires e == if half then HalfWritten(d, Slot(|h|, n), x, v, m.txNext) else Rec(x, v, m.txNext)
    ensures r == AfterRecord(d, m, n, x, v, half) && Core(r, m.gen, n, Push(h, e))
  {
    r := AfterRecord(d, m, n, x, v, half);
    if half {
      HeadWritten(d, m, n, h, m.txNext, x, v);
    } else {
      PairWritten(d, m, n, h, m.txNext, x, v);
    }
  }

  lemma CommitLanded(r: Disk, m: Mem, n: nat, h1: History, f: nat, l: nat) returns (c: Disk)
    requires Core(r, m.gen, n, h1)
    requires m.count >= 1 && OpenRun(h1, Lo(h1, n), m.tx, f, l, m.count)
    requires |h1| == l || (|h1| == l + 1 && m.count > 1)
    ensures c == AfterCommit(r, m, n, |h1|) && Core(c, m.gen, n, Push(h1, Com(m.tx, m.count, f, l)))
  {
    c := AfterCommit(r, m, n, |h1|);
    CommitWritten(r, m, n, h1, m.tx, f, l, m.count);
  }

  lemma HomeWritten(c: Disk, g: nat, n: nat, h: History, x: nat, v: Data, landed: bool) returns (c': Disk)
    requires Core(c, g, n, h)
    ensures c' == AfterHome(c, x, v, landed) && Core(c', g, n, h)
  {
    c' := AfterHome(c, x, v, landed);
    CoreFrame(c, c', g, n, h);
  }

  lemma ValveFrame(d: Disk, m: Mem, n: nat, q: nat, x: nat, v: Data, half: bool, landed: bool)
    requires n > 0
    ensures var c := AfterHome(AfterCommit(AfterRecord(d, m, n, x, v, half), m, n, q), x, v, landed);
            c.hdr == d.hdr && c.home == if landed then d.home[x := v] else d.home
  {
  }

  lemma ValveHeads(d: Disk, m: Mem, n: nat, h: History, x: nat, v: Data, k: nat, e: Entry, f: nat) returns (c: Disk)
    requires Core(d, m.gen, n, h) && m.next == |h| && Valve(m) && x in d.home
    requires m.txNext != 0 && Fresh(h, Lo(h, n), m.txNext)
    requires e == if k == 3 then HalfWritten(d, Slot(|h|, n), x, v, m.txNext) else Rec(x, v, m.txNext)
    requires var h1 := Push(h, e); OpenRun(h1, Lo(h1, n), m.tx, f, |h|, m.count)
    ensures c == AfterCommit(AfterRecord(d, m, n, x, v, k == 3), m, n, m.next + 1)
    ensures Core(c, m.gen, n, Push(Push(h, e), Com(m.tx, m.count, f, |h|)))
  {
    var r := RecordLanded(d, m, n, h, x, v, k == 3, e);
    c := CommitLanded(r, m, n, Push(h, e), f, |h|);
  }

  /** A block write that trips the valve, cut after both heads. */
  lemma ValveCut(d: Disk, m: Mem, n: nat, h: History, x: nat, v: Data, k: nat,
                 a: Spec, f: nat, base: map<nat, Data>) returns (c: Disk, h': History)
    requires Core(d, m.gen, n, h) && m.next == |h| && Valve(m) && 3 <= k <= 5 && x in d.home
    requires RunningBy(d, n, h, m, a, f, base)
    ensures c == AfterHome(AfterCommit(AfterRecord(d, m, n, x, v, k == 3), m, n, m.next + 1), x, v, k == 5)
    ensures Core(c, m.gen, n, h') && Agree(h', Lo(h', n), d.home, {})
    ensures k >= 4 ==> h' == Push(Push(h, Rec(x, v, m.txNext)), Com(m.tx, m.count, f, |h|))
    ensures IdsBelow(h', Lo(h', n), m.txNext + 1)
  {
    var e := if k == 3 then HalfWritten(d, Slot(|h|, n), x, v, m.txNext) else Rec(x, v, m.txNext);
    ValveEntries(d, m, n, h, x, v, e, f, base, d.home);
    h' := Push(Push(h, e), Com(m.tx, m.count, f, |h|));
    c := ValveHeads(d, m, n, h, x, v, k, e, f);
    c := HomeWritten(c, m.gen, n, h', x, v, k == 5);
  }

  lemma ValveLanded(d: Disk, m: Mem, n: nat, x: nat, v: Data, k: nat, c: Disk)
    requires Formed(d) && |d.heads| == n >= 2 && Valve(m) && 3 <= k <= 5
    requires c == AfterHome(AfterCommit(AfterRecord(d, m, n, x, v, k == 3), m, n, m.next + 1), x, v, k == 5)
    ensures |OpWrites(m, n, WriteBlock(x, v))| == 5
    ensures c == JournalDisk.Cut(d, OpWrites(m, n, WriteBlock(x, v)), k)
    ensures c.hdr == d.hdr && c.home == if k == 5 then d.home[x := v] else d.home
  {
    ValveDisk(d, m, n, x, v, k);
    ValveFrame(d, m, n, m.next + 1, x, v, k == 3, k == 5);
  }

  lemma ValveRun(d: Disk, m: Mem, n: nat, h: History, x: nat, v: Data, k: nat,
                 a: Spec, f: nat, base: map<nat, Data>) returns (c: Disk, h': History)
    requires Core(d, m.gen, n, h) && m.next == |h| && Valve(m) && n >= 2 && 3 <= k <= 5 && x in d.home
    requires RunningBy(d, n, h, m, a, f, base)
    ensures |OpWrites(m, n, WriteBlock(x, v))| == 5
    ensures c == JournalDisk.Cut(d, OpWrites(m, n, WriteBlock(x, v)), k)
    ensures Core(c, m.gen, n, h') && Agree(h', Lo(h', n), d.home, {})
    ensures c.hdr == d.hdr && c.home == if k == 5 then d.home[x := v] else d.home
    ensures k >= 4 ==> h' == Push(Push(h, Rec(x, v, m.txNext)), Com(m.tx, m.count, f, |h|))
    ensures IdsBelow(h', Lo(h', n), m.txNext + 1)
  {
    c, h' := ValveCut(d, m, n, h, x, v, k, a, f, base);
    ValveLanded(d, m, n, x, v, k, c);
  }

  lemma CutValve(n: nat, s: Machine, a: Spec, x: nat, v: Data, k: nat, h: History, f: nat, base: map<nat, Data>)
    requires Core(s.disk, s.mem.gen, n, h) && Generation(s.disk) == s.mem.gen && s.mem.next == |h|
    requires RunningBy(s.disk, n, h, s.mem, a, f, base)
    requires Valve(s.mem) && n >= 2 && x in s.disk.home && 0 in s.disk.home && x != 0 && 3 <= k <= 5
    ensures |OpWrites(s.mem, n, WriteBlock(x, v))| == 5 && CutGood(n, s, a, WriteBlock(x, v), k)
  {
    OverlayAdmitted(a, WriteBlock(x, v));
    InFlightHas(a, x, v);
    var c, h' := ValveRun(s.disk, s.mem, n, h, x, v, k, a, f, base);
    CutGoodBy(n, s, a, WriteBlock(x, v), k, c, s.mem.gen, h', s.disk.home);
  }

  lemma CutRunningValve(n: nat, s: Machine, a: Spec, op: Op, k: nat, h: History)
    requires InvBy(n, s, a, h) && s.phase.Running? && Enabled(n, s, Event.Cut(op, k)) && k > 2
    requires op.WriteBlock? && Valve(s.mem)
    ensures CutGood(n, s, a, op, k)
  {
    var f: nat, base: map<nat, Data> :| RunningBy(s.disk, n, h, s.mem, a, f, base);
    CutValve(n, s, a, op.lba, op.data, k, h, f, base);
  }

  lemma CutRunning(n: nat, s: Machine, a: Spec, op: Op, k: nat, h: History)
    requires InvBy(n, s, a, h) && s.phase.Running? && Enabled(n, s, Event.Cut(op, k)) && !MidValve(s, op, k)
    ensures CutGood(n, s, a, op, k)
  {
    if k == 0 {
      CutRunningIdle(n, s, a, op, h);
    } else if op.Commit? {
      CutRunningCommit(n, s, a, k, h);
    } else if s.mem.depth == 0 {
      CutRunningLegacy(n, s, a, op, k, h);
    } else if Valve(s.mem) {
      CutRunningValve(n, s, a, op, k, h);
    } else {
      CutRunningTx(n, s, a, op, k, h);
    }
  }

  /** Durability.  Wherever the power fails during a block write or a commit, what the next mount
      recovers holds, in every block, the value of the last completed call or one the call in
      flight wrote to it: never an older one. */
  lemma CutKeepsBlocks(n: nat, s: Machine, a: Spec, op: Op, k: nat)
    requires Inv(n, s, a) && n > 0 && Formed(s.disk) && Enabled(n, s, Event.Cut(op, k)) && !MidValve(s, op, k)
    ensures CutGood(n, s, a, op, k)
  {
    var h: History :| InvBy(n, s, a, h);
    match s.phase
    case Recovering(_) => CutRecovering(n, s, a, op, k, h);
    case Cleared => CutCleared(n, s, a, op, k, h);
    case Running => CutRunning(n, s, a, op, k, h);
    case Stopping => if k < 3 { CutStopping(n, s, a, op, k, h); } else { CutStopped(n, s, a, op, h); }
  }

  // ---- every step keeps the invariant ----

  lemma DoRecovering(n: nat, s: Machine, a: Spec, op: Op, h: History)
    requires InvBy(n, s, a, h) && s.phase.Recovering? && Enabled(n, s, Do(op))
    ensures Inv(n, Next(n, s, Do(op)), SpecDo(s.mem, op, a))
  {
    var x, v := op.lba, op.data;
    var ws := OpWrites(s.mem, n, op);
    var h' := LegacyCut(s.disk, s.mem, n, h, x, v, s.disk.home, {}, 3);
    assert ws[..3] == ws;
    assert InvBy(n, Next(n, s, Do(op)), SpecDo(s.mem, op, a), h');
  }

  lemma DoCleared(n: nat, s: Machine, a: Spec, op: Op, h: History)
    requires InvBy(n, s, a, h) && s.phase.Cleared? && Enabled(n, s, Do(op))
    ensures Inv(n, Next(n, s, Do(op)), SpecDo(s.mem, op, a))
  {
    var ws := OpWrites(s.mem, n, op);
    var h' := LegacyCut(s.disk, s.mem, n, h, 0, op.data, s.disk.home, Loose(s.disk, n), 3);
    assert ws[..3] == ws;
    FlagRecorded(h, n, s.disk.home, op.data);
    var s', a' := Next(n, s, Do(op)), SpecDo(s.mem, op, a);
    assert RunningBy(s'.disk, n, h', s'.mem, a', 0, s'.disk.home);
    assert InvBy(n, s', a', h');
  }

  lemma DoStopping(n: nat, s: Machine, a: Spec, op: Op, h: History)
    requires InvBy(n, s, a, h) && s.phase.Stopping? && Enabled(n, s, Do(op))
    ensures Inv(n, Next(n, s, Do(op)), SpecDo(s.mem, op, a))
  {
    var ws := OpWrites(s.mem, n, op);
    var h' := LegacyCut(s.disk, s.mem, n, h, 0, op.data, s.disk.home, {}, 3);
    assert ws[..3] == ws;
    LooseStays(h, n, s.disk.home[0 := op.data], op.data, PutAll(s.disk, ws));
    assert InvBy(n, Next(n, s, Do(op)), SpecDo(s.mem, op, a), h');
  }

  lemma DoRunningLegacy(n: nat, s: Machine, a: Spec, op: Op, h: History)
    requires InvBy(n, s, a, h) && s.phase.Running? && Enabled(n, s, Do(op)) && op.WriteBlock? && s.mem.depth == 0
    ensures Inv(n, Next(n, s, Do(op)), SpecDo(s.mem, op, a))
  {
    var x, v := op.lba, op.data;
    var ws := OpWrites(s.mem, n, op);
    var f: nat, base: map<nat, Data> :| RunningBy(s.disk, n, h, s.mem, a, f, base);
    var h' := LegacyCut(s.disk, s.mem, n, h, x, v, base, {}, 3);
    assert ws[..3] == ws;
    var s', a' := Next(n, s, Do(op)), SpecDo(s.mem, op, a);
    assert RunningBy(s'.disk, n, h', s'.mem, a', f, s'.disk.home);
    assert InvBy(n, s', a', h');
  }

  lemma GrowAdmitted(a: Spec, x: nat, v: Data, b: map<nat, Data>)
    requires AllAdmitted(a, Begin, b)
    ensures AllAdmitted(a.(open := a.open + [(x, v)]), Begin, b)
  {
    AdmitsMore(a, WriteBlock(x, v), b);
    assert InFlight(a.(open := a.open + [(x, v)]), Begin) == InFlight(a, WriteBlock(x, v));
  }

  lemma OverlayGrow(a: Spec, x: nat, v: Data)
    ensures Overlay(a.done, a.open + [(x, v)]) == Overlay(a.done, a.open)[x := v]
  {
    assert (a.open + [(x, v)])[..|a.open|] == a.open;
  }

  lemma TxGrows(d: Disk, n: nat, h: History, m: Mem, a: Spec, f: nat, base: map<nat, Data>,
                x: nat, v: Data, d': Disk)
    requires n > 0 && RunningBy(d, n, h, m, a, f, base) && m.depth > 0 && x in d.home && x != 0
    requires d'.home == d.home[x := v]
    requires var h' := Push(h, Rec(x, v, m.tx)); Agree(h', Lo(h', n), base, {})
    ensures var h' := Push(h, Rec(x, v, m.tx));
            var m' := m.(next := m.next + 1, count := m.count + 1);
            RunningBy(d', n, h', m', a.(open := a.open + [(x, v)]), f, base)
  {
    OpenPush(h, n, m.tx, f, m.count, x, v, base, d.home);
    GrowAdmitted(a, x, v, base);
    OverlayGrow(a, x, v);
  }

  lemma TxStep(d: Disk, m: Mem, n: nat, h: History, a: Spec, f: nat, base: map<nat, Data>, x: nat, v: Data)
    returns (h': History)
    requires Core(d, m.gen, n, h) && m.next == |h| && m.depth > 0 && !Valve(m) && x in d.home && x != 0
    requires RunningBy(d, n, h, m, a, f, base)
    ensures var d' := PutAll(d, OpWrites(m, n, WriteBlock(x, v)));
            && Core(d', m.gen, n, h') && d'.hdr == d.hdr && d'.home.Keys == d.home.Keys && |h'| == |h| + 1
            && RunningBy(d', n, h', OpMem(m, WriteBlock(x, v)), SpecDo(m, WriteBlock(x, v), a), f, base)
  {
    OpenIsFresh(h, Lo(h, n), m.tx, f, m.count);
    h' := TxCut(d, m, n, h, x, v, base, 3);
    var ws := OpWrites(m, n, WriteBlock(x, v));
    assert ws[..3] == ws;
    TxGrows(d, n, h, m, a, f, base, x, v, PutAll(d, ws));
  }

  lemma DoRunningTx(n: nat, s: Machine, a: Spec, op: Op, h: History)
    requires InvBy(n, s, a, h) && s.phase.Running? && Enabled(n, s, Do(op)) && op.WriteBlock?
    requires s.mem.depth > 0 && !Valve(s.mem)
    ensures Inv(n, Next(n, s, Do(op)), SpecDo(s.mem, op, a))
  {
    var f: nat, base: map<nat, Data> :| RunningBy(s.disk, n, h, s.mem, a, f, base);
    var h' := TxStep(s.disk, s.mem, n, h, a, f, base, op.lba, op.data);
    assert InvBy(n, Next(n, s, Do(op)), SpecDo(s.mem, op, a), h');
  }

  lemma SingleRun(h: History, n: nat, t: nat, x: nat, v: Data, c: Entry, b: map<nat, Data>)
    requires n > 0 && t != 0 && IdsBelow(h, Lo(h, n), t) && c.Com? && c.tx != t && x in b
    ensures var h2 := Push(Push(h, Rec(x, v, t)), c);
            OpenRun(h2, Lo(h2, n), t, |h|, |h2|, 1) && LaidOver(h2, t, |h|, |h2|, b, b[x := v])
  {
    var h2 := Push(Push(h, Rec(x, v, t)), c);
    assert RunSet(h2, t, |h|, |h2|) == {|h|};
    assert OfRun(h2, t, |h|, |h2|, |h|);
  }

  lemma ValveGrows(c: Disk, d: Disk, m: Mem, n: nat, h: History, a: Spec, f: nat, base: map<nat, Data>,
                   x: nat, v: Data, h': History)
    requires n > 0 && RunningBy(d, n, h, m, a, f, base) && Valve(m) && x in d.home && x != 0
    requires h' == Push(Push(h, Rec(x, v, m.txNext)), Com(m.tx, m.count, f, |h|))
    requires Agree(h', Lo(h', n), d.home, {}) && IdsBelow(h', Lo(h', n), m.txNext + 1)
    requires c.home == d.home[x := v]
    ensures RunningBy(c, n, h', OpMem(m, WriteBlock(x, v)), SpecDo(m, WriteBlock(x, v), a), |h|, d.home)
  {
    SingleRun(h, n, m.txNext, x, v, Com(m.tx, m.count, f, |h|), d.home);
    OverlayAdmitted(a, Begin);
    GrowAdmitted(a, x, v, d.home);
    OverlayGrow(a, x, v);
  }

  lemma ValveStep(d: Disk, m: Mem, n: nat, h: History, a: Spec, f: nat, base: map<nat, Data>, x: nat, v: Data)
    returns (c: Disk, h': History)
    requires Core(d, m.gen, n, h) && m.next == |h| && Valve(m) && n >= 2 && x in d.home && x != 0
    requires RunningBy(d, n, h, m, a, f, base)
    ensures c == PutAll(d, OpWrites(m, n, WriteBlock(x, v))) && Core(c, m.gen, n, h')
    ensures c.hdr == d.hdr && c.home.Keys == d.home.Keys && |h'| == |h| + 2
    ensures RunningBy(c, n, h', OpMem(m, WriteBlock(x, v)), SpecDo(m, WriteBlock(x, v), a), |h|, d.home)
  {
    c, h' := ValveRun(d, m, n, h, x, v, 5, a, f, base);
    var ws := OpWrites(m, n, WriteBlock(x, v));
    assert ws[..5] == ws;
    ValveGrows(c, d, m, n, h, a, f, base, x, v, h');
  }

  lemma DoRunningValve(n: nat, s: Machine, a: Spec, op: Op, h: History)
    requires InvBy(n, s, a, h) && s.phase.Running? && Enabled(n, s, Do(op)) && op.WriteBlock?
    requires Valve(s.mem)
    ensures Inv(n, Next(n, s, Do(op)), SpecDo(s.mem, op, a))
  {
    var f: nat, base: map<nat, Data> :| RunningBy(s.disk, n, h, s.mem, a, f, base);
    var c, h' := ValveStep(s.disk, s.mem, n, h, a, f, base, op.lba, op.data);
    assert InvBy(n, Next(n, s, Do(op)), SpecDo(s.mem, op, a), h');
  }

  lemma DoCommitEmpty(n: nat, s: Machine, a: Spec, h: History)
    requires InvBy(n, s, a, h) && s.phase.Running? && !(s.mem.depth == 1 && s.mem.count > 0)
    ensures Inv(n, Next(n, s, Do(Commit)), SpecDo(s.mem, Commit, a))
  {
    var f: nat, base: map<nat, Data> :| RunningBy(s.disk, n, h, s.mem, a, f, base);
    var s', a' := Next(n, s, Do(Commit)), SpecDo(s.mem, Commit, a);
    if s.mem.depth == 1 {
      assert base == s.disk.home;
    }
    assert RunningBy(s'.disk, n, h, s'.mem, a', f, base);
    assert InvBy(n, s', a', h);
  }

  lemma DoCommitRun(n: nat, s: Machine, a: Spec, h: History)
    requires InvBy(n, s, a, h) && s.phase.Running? && s.mem.depth == 1 && s.mem.count > 0
    ensures Inv(n, Next(n, s, Do(Commit)), SpecDo(s.mem, Commit, a))
  {
    var h' := CommitCut(n, s, a, h, 2);
    var ws := OpWrites(s.mem, n, Commit);
    assert ws[..2] == ws;
    var s', a' := Next(n, s, Do(Commit)), SpecDo(s.mem, Commit, a);
    assert RunningBy(s'.disk, n, h', s'.mem, a', 0, s.disk.home);
    assert InvBy(n, s', a', h');
  }

  lemma DoRunningCommit(n: nat, s: Machine, a: Spec, h: History)
    requires InvBy(n, s, a, h) && s.phase.Running?
    ensures Inv(n, Next(n, s, Do(Commit)), SpecDo(s.mem, Commit, a))
  {
    if s.mem.depth == 1 && s.mem.count > 0 {
      DoCommitRun(n, s, a, h);
    } else {
      DoCommitEmpty(n, s, a, h);
    }
  }

  lemma DoRunningBegin(n: nat, s: Machine, a: Spec, h: History)
    requires InvBy(n, s, a, h) && s.phase.Running?
    ensures Inv(n, Next(n, s, Do(Begin)), SpecDo(s.mem, Begin, a))
  {
    var f: nat, base: map<nat, Data> :| RunningBy(s.disk, n, h, s.mem, a, f, base);
    var s', a' := Next(n, s, Do(Begin)), SpecDo(s.mem, Begin, a);
    var f' := if s.mem.depth == 0 then |h| else f;
    if s.mem.depth == 0 {
      assert RunSet(h, s'.mem.tx, |h|, |h|) == {};
    }
    assert RunningBy(s'.disk, n, h, s'.mem, a', f', base);
    assert InvBy(n, s', a', h);
  }

  /** A new generation voids every record at once: `reset` writes one sector and the ring is empty. */
  lemma StepReset(n: nat, s: Machine, a: Spec, h: History)
    requires InvBy(n, s, a, h) && Enabled(n, s, Reset)
    ensures Inv(n, Next(n, s, Reset), a)
  {
    var f: nat, base: map<nat, Data> :| RunningBy(s.disk, n, h, s.mem, a, f, base);
    var h': History := [Torn];
    assert InvBy(n, Next(n, s, Reset), a, h');
  }

  lemma StepStamp(n: nat, s: Machine, a: Spec, h: History)
    requires InvBy(n, s, a, h) && Enabled(n, s, Stamp)
    ensures Inv(n, Next(n, s, Stamp), a)
  {
    var d, e := s.disk, Stamped(s.disk);
    CoreFrame(d, e, 1, n, h);
    forall x | x in d.home ensures RcvAt(e, 1, x) == RcvAt(d, 1, x) {
      SameNewest(d, e, 1, x, n);
    }
    assert Rcv(e, 1) == Rcv(d, 1);
    assert InvBy(n, Next(n, s, Stamp), a, h);
  }

  lemma ApplicableAtHome(d: Disk, g: nat, n: nat, h: History)
    requires Core(d, g, n, h)
    ensures AllHome(d, g)
  {
    forall i | 0 <= i < n && Applies(d, g, i) ensures d.heads[i].lba in d.home {
      AppliesIff(d, g, n, h, i);
    }
  }

  /** The ring of a replay cut short is the ring before it. */
  lemma CutReplayOff(d: Disk, e: Disk, g: nat, n: nat, h: History)
    requires OffInv(d, n, h) && g == Generation(d) && FlagSet(d) && Formed(e)
    requires e == d.(home := e.home) && e.home.Keys == d.home.Keys && Rcv(e, g) == Rcv(d, g)
    requires FlagSet(e) || e.home == Rcv(d, g)
    ensures OffInv(e, n, h) && Recovered(e) == Recovered(d)
  {
    CoreFrame(d, e, g, n, h);
    RcvCore(d, g, n, h);
    assert Rcv(d, g)[0] == RcvAt(d, g, 0);
    assert Rcv(e, g)[0] == RcvAt(e, g, 0);
  }

  lemma StepReplayCut(n: nat, s: Machine, a: Spec, ws: seq<Write>, k: nat, h: History)
    requires InvBy(n, s, a, h) && Enabled(n, s, ReplayCut(ws, k))
    ensures Inv(n, Next(n, s, ReplayCut(ws, k)), a)
  {
    var d, g := s.disk, Generation(s.disk);
    ApplicableAtHome(d, g, n, h);
    ReplayIdempotent(d, g, ws, k);
    CutReplayOff(d, JournalDisk.Cut(d, ws, k), g, n, h);
    assert InvBy(n, Next(n, s, ReplayCut(ws, k)), a, h);
  }

  lemma StepPowerOn(n: nat, s: Machine, a: Spec, h: History)
    requires InvBy(n, s, a, h) && s.phase.Off?
    ensures Inv(n, Next(n, s, PowerOn), a)
  {
    var d, g := s.disk, Generation(s.disk);
    MaxNumIs(d, g, n, h);
    RcvCore(d, g, n, h);
    assert FlagSet(d) ==> Rcv(d, g)[0] == RcvAt(d, g, 0);
    CoreFrame(d, Mounted(d).disk, g, n, h);
    assert InvBy(n, Next(n, s, PowerOn), a, h);
  }

  lemma StepCut(n: nat, s: Machine, a: Spec, op: Op, k: nat)
    requires Inv(n, s, a) && n > 0 && Formed(s.disk) && Enabled(n, s, Event.Cut(op, k)) && !MidValve(s, op, k)
    ensures Formed(Next(n, s, Event.Cut(op, k)).disk)
    ensures Inv(n, Next(n, s, Event.Cut(op, k)), SpecNext(n, s, Event.Cut(op, k), a))
  {
    CutKeepsBlocks(n, s, a, op, k);
    var d' := JournalDisk.Cut(s.disk, OpWrites(s.mem, n, op), k);
    var h' :| OffInv(d', n, h');
    assert InvBy(n, Next(n, s, Event.Cut(op, k)), SpecNext(n, s, Event.Cut(op, k), a), h');
  }

  lemma StepDo(n: nat, s: Machine, a: Spec, op: Op)
    requires Inv(n, s, a) && n > 0 && Formed(s.disk) && Enabled(n, s, Do(op))
    ensures Inv(n, Next(n, s, Do(op)), SpecDo(s.mem, op, a))
  {
    var h: History :| InvBy(n, s, a, h);
    match s.phase
    case Recovering(_) => DoRecovering(n, s, a, op, h);
    case Cleared => DoCleared(n, s, a, op, h);
    case Stopping => DoStopping(n, s, a, op, h);
    case Running =>
      match op
      case Begin => DoRunningBegin(n, s, a, h);
      case WriteBlock(_, _) =>
        if s.mem.depth == 0 {
          DoRunningLegacy(n, s, a, op, h);
        } else if Valve(s.mem) {
          DoRunningValve(n, s, a, op, h);
        } else {
          DoRunningTx(n, s, a, op, h);
        }
      case Commit => DoRunningCommit(n, s, a, h);
  }

  lemma FormedOf(n: nat, s: Machine, a: Spec)
    requires Inv(n, s, a)
    ensures n > 0 && Formed(s.disk)
  {
  }

  /** The invariant survives every event, power cuts in the middle of the chunk valve apart. */
  lemma StepKeeps(n: nat, s: Machine, a: Spec, e: Event)
    requires Inv(n, s, a) && n > 0 && Formed(s.disk) && Enabled(n, s, e)
    requires e.Cut? ==> !MidValve(s, e.op, e.k)
    ensures Formed(Next(n, s, e).disk) && Inv(n, Next(n, s, e), SpecNext(n, s, e, a))
  {
    var h: History :| InvBy(n, s, a, h);
    match e {
      case Stamp => StepStamp(n, s, a, h);
      case ReplayCut(ws, k) => StepReplayCut(n, s, a, ws, k, h);
      case PowerOn => StepPowerOn(n, s, a, h);
      case Do(op) => StepDo(n, s, a, op); FormedOf(n, Next(n, s, e), SpecDo(s.mem, op, a));
      case Cut(op, k) => StepCut(n, s, a, op, k);
      case Reset => StepReset(n, s, a, h);
    }
  }
}
