/** Exactly which cuts of the chunk valve lose a block, at the next mount or at any later one. */
module JournalLate {
  // The next mount goes on numbering behind the commit record.  From then on every slot of the ring is reused
  // before the one whose number was skipped, and what that slot still holds outlives all newer records.

  import opened Wrappers
  import opened JournalDisk
  import opened JournalRing
  import opened JournalWindow
  import opened JournalRun
  import opened JournalMachine
  import opened JournalDurable
  import opened JournalValve
  import opened JournalSkipped
  import opened JournalSpared
  import opened JournalRuns
  import opened JournalStale

  // ---- runs that go on ----

  lemma StepBefore(n: nat, s: Machine, a: Spec, e: Event, ss: seq<Machine>, aa: seq<Spec>, es: seq<Event>)
    requires Steps(n, ss, aa, es) && StepOf(n, s, a, e, ss[0], aa[0])
    ensures Steps(n, [s] + ss, [a] + aa, [e] + es)
  {
    var tt, bb, fs := [s] + ss, [a] + aa, [e] + es;
    forall i {:trigger fs[i]} | 0 <= i < |fs| ensures StepOf(n, tt[i], bb[i], fs[i], tt[i + 1], bb[i + 1]) {
      if i > 0 {
        StepAt(n, ss, aa, es, i - 1);
      }
    }
  }

  lemma KeptTail(s: Machine, a: Spec, e: Event, ss: seq<Machine>, aa: seq<Spec>, es: seq<Event>, i: nat)
    requires |ss| == |aa| == |es| + 1 && i < |es| && CutKept([s] + ss, [a] + aa, [e] + es, i + 1)
    ensures CutKept(ss, aa, es, i)
  {
  }

  lemma KeptFurther(n: nat, s: Machine, a: Spec, e: Event, ss: seq<Machine>, aa: seq<Spec>, es: seq<Event>, i: nat)
    requires SafeAfter(n, s, a) && Steps(n, ss, aa, es) && i < |es| && StepOf(n, s, a, e, ss[0], aa[0])
    ensures CutKept(ss, aa, es, i)
  {
    StepBefore(n, s, a, e, ss, aa, es);
    assert CutKept([s] + ss, [a] + aa, [e] + es, i + 1);
    KeptTail(s, a, e, ss, aa, es, i);
  }

  lemma SafeFurther(n: nat, s: Machine, a: Spec, e: Event, s1: Machine, a1: Spec)
    requires SafeAfter(n, s, a) && StepOf(n, s, a, e, s1, a1)
    ensures SafeAfter(n, s1, a1)
  {
    forall ss: seq<Machine>, aa: seq<Spec>, es: seq<Event>, i: nat
      | Steps(n, ss, aa, es) && ss[0] == s1 && aa[0] == a1 && i < |es|
      ensures CutKept(ss, aa, es, i)
    {
      KeptFurther(n, s, a, e, ss, aa, es, i);
    }
  }

  lemma SafeNow(n: nat, s: Machine, a: Spec, e: Event, s1: Machine, a1: Spec)
    requires SafeAfter(n, s, a) && StepOf(n, s, a, e, s1, a1) && e.Cut?
    ensures Kept(a, e.op, Recovered(s1.disk))
  {
    var tt, bb, fs := [s, s1], [a, a1], [e];
    assert Steps(n, tt, bb, fs);
    assert CutKept(tt, bb, fs, 0);
  }

  // ---- the ring turns ----

  /** Number `p` is the last one given out, and the slots of the numbers after `q` hold no record. */
  ghost predicate WornTo(d: Disk, g: nat, n: nat, q: nat, p: nat) {
    && n >= 2 && Formed(d) && |d.heads| == n && q < p < q + n
    && (forall j :: 0 <= j < n && IsCurrent(d, g, j) ==> d.heads[j].num <= p)
    && IsCurrent(d, g, Slot(p, n)) && d.heads[Slot(p, n)].num == p
    && (forall r {:trigger Slot(r, n)} :: q < r <= p ==> !IsRecord(d, g, Slot(r, n)))
  }

  /** Slot `i` holds an untagged record, and its block is recovered with another value. */
  predicate Overtaken(d: Disk, g: nat, i: nat)
    requires Formed(d) && i < |d.heads|
  {
    && IsRecord(d, g, i) && d.heads[i].tx == 0 && d.heads[i].lba in d.home
    && RcvAt(d, g, d.heads[i].lba) != d.bodies[i]
  }

  /** The power is off, the slot of `q` holds a record overtaken by newer ones, and there is a block
      `y` a recovery may write. */
  ghost predicate Fading(d: Disk, n: nat, q: nat, p: nat, y: nat) {
    && WornTo(d, Generation(d), n, q, p) && Overtaken(d, Generation(d), Slot(q, n))
    && FlagSet(d) && Dirty(RcvAt(d, Generation(d), 0)) && 0 < y && y in d.home
  }

  lemma EverySlot(n: nat, q: nat, j: nat) returns (r: nat)
    requires j < n
    ensures q <= r < q + n && Slot(r, n) == j
  {
    var i := Slot(q, n);
    r := q + if j >= i then j - i else j + n - i;
    StepApart(q, r, n);
  }

  /** When the ring has come round, only the record left over is there. */
  lemma LastLeft(d: Disk, g: nat, n: nat, q: nat)
    requires n > 0 && Formed(d) && |d.heads| == n
    requires forall r {:trigger Slot(r, n)} :: q < r < q + n ==> !IsRecord(d, g, Slot(r, n))
    requires var i := Slot(q, n); IsRecord(d, g, i) && d.heads[i].tx == 0 && d.heads[i].lba in d.home
    ensures RcvAt(d, g, d.heads[Slot(q, n)].lba) == d.bodies[Slot(q, n)]
  {
    var i := Slot(q, n);
    forall j | 0 <= j < n && j != i ensures !IsRecord(d, g, j) {
      var r := EverySlot(n, q, j);
      assert q < r < q + n;
    }
    assert Applies(d, g, i);
    var w := Newest(d, g, d.heads[i].lba, n);
    assert w == Some(i);
  }

  lemma FadingMounts(d: Disk, n: nat, q: nat, p: nat, y: nat) returns (s: Machine)
    requires Fading(d, n, q, p, y)
    ensures s == Mounted(d) && s.disk == Stamped(d).(home := Rcv(d, Generation(d))) && s.phase == Recovering(0)
    ensures s.mem == Mem(Generation(d), p + 1, 0, 0, 0, 1) && FlagSet(s.disk) && Formed(s.disk)
  {
    MaxNumBound(d, Generation(d), n, p);
    s := Mounted(d);
    assert Rcv(d, Generation(d))[0] == RcvAt(d, Generation(d), 0);
  }

  /** A value that is neither of two. */
  function Third(b: Data, c: Data): (z: Data)
    ensures z != b && z != c
  {
    assert Filled(1)[0] == 1 && Filled(2)[0] == 2 && Filled(3)[0] == 3;
    if Filled(1) != b && Filled(1) != c then Filled(1)
    else if Filled(2) != b && Filled(2) != c then Filled(2) else Filled(3)
  }

  /** The device after the first sector of a recovery's write of `y`, a value the next slot does not
      happen to hold. */
  function TornOver(d: Disk, n: nat, p: nat, y: nat, z: Data): Disk
    requires Formed(d) && |d.heads| == n > 0
  {
    var g := Generation(d);
    Put(Stamped(d).(home := Rcv(d, g)), ToHead(Slot(p + 1, n), RecHead(g, p + 1, y, 0, Crc(p + 1, y, 0, z))))
  }

  lemma FadingCut(d: Disk, n: nat, q: nat, p: nat, y: nat, s: Machine, z: Data)
    requires Fading(d, n, q, p, y) && s == Mounted(d) && s.phase == Recovering(0) && FlagSet(s.disk)
    requires s.mem == Mem(Generation(d), p + 1, 0, 0, 0, 1) && Formed(s.disk)
    requires s.disk == Stamped(d).(home := Rcv(d, Generation(d)))
    ensures Enabled(n, s, Event.Cut(WriteBlock(y, z), 1))
    ensures Next(n, s, Event.Cut(WriteBlock(y, z), 1)).disk == TornOver(d, n, p, y, z)
  {
    Unfold(s.disk, OpWrites(s.mem, n, WriteBlock(y, z)), 1);
  }

  lemma TornOverIs(d: Disk, n: nat, p: nat, y: nat, z: Data)
    requires Formed(d) && |d.heads| == n > 0 && z != d.bodies[Slot(p + 1, n)]
    ensures var c, g, j := TornOver(d, n, p, y, z), Generation(d), Slot(p + 1, n);
            && Differ(d, c, j) && c.bodies == d.bodies && c.home == Rcv(d, g) && Generation(c) == g
            && !IsRecord(c, g, j) && (g > 0 ==> IsCurrent(c, g, j)) && c.heads[j].RecHead? && c.heads[j].num == p + 1
  {
  }

  lemma WearsOn(d: Disk, c: Disk, g: nat, n: nat, q: nat, p: nat)
    requires WornTo(d, g, n, q, p) && p + 1 < q + n && Differ(d, c, Slot(p + 1, n))
    requires var j := Slot(p + 1, n); !IsRecord(c, g, j) && IsCurrent(c, g, j) && c.heads[j].num == p + 1
    ensures WornTo(c, g, n, q, p + 1)
  {
    forall r {:trigger Slot(r, n)} | q < r <= p + 1 ensures !IsRecord(c, g, Slot(r, n)) {
      if Slot(r, n) != Slot(p + 1, n) { assert !IsRecord(d, g, Slot(r, n)); }
    }
    forall j | 0 <= j < n && IsCurrent(c, g, j) ensures c.heads[j].num <= p + 1 {
      assert j != Slot(p + 1, n) ==> IsCurrent(d, g, j);
    }
  }

  lemma RcvIs(d: Disk, x: nat)
    requires Formed(d) && FlagSet(d) && x in d.home
    ensures x in Recovered(d) && Recovered(d)[x] == RcvAt(d, Generation(d), x)
  {
  }

  lemma KeptAt(d: Disk, c: Disk, y: nat, z: Data, x: nat)
    requires Formed(d) && Formed(c) && FlagSet(d) && FlagSet(c) && x in d.home && x in c.home
    requires Kept(Spec(Recovered(d), []), WriteBlock(y, z), Recovered(c))
    ensures var v := RcvAt(c, Generation(c), x); v == RcvAt(d, Generation(d), x) || (x == y && v == z)
  {
    RcvIs(d, x);
    RcvIs(c, x);
  }

  lemma StaysOvertaken(d: Disk, c: Disk, g: nat, i: nat, j: nat)
    requires Differ(d, c, j) && i < |d.heads| && i != j && Overtaken(d, g, i) && c.home.Keys == d.home.Keys
    requires RcvAt(c, g, d.heads[i].lba) != d.bodies[i]
    ensures Overtaken(c, g, i)
  {
  }

  /** While the promise is kept, the overtaken record stays overtaken. */
  lemma StillOvertaken(d: Disk, c: Disk, g: nat, i: nat, j: nat, y: nat, z: Data)
    requires Differ(d, c, j) && i < |d.heads| && i != j && Overtaken(d, g, i)
    requires Generation(d) == g && Generation(c) == g && c.home == Rcv(d, g) && z != d.bodies[i] && y != 0
    requires FlagSet(d) && Dirty(RcvAt(d, g, 0))
    requires Kept(Spec(Recovered(d), []), WriteBlock(y, z), Recovered(c))
    ensures Overtaken(c, g, i) && FlagSet(c) && Dirty(RcvAt(c, g, 0))
  {
    assert c.home[0] == RcvAt(d, g, 0);
    KeptAt(d, c, y, z, 0);
    KeptAt(d, c, y, z, d.heads[i].lba);
    StaysOvertaken(d, c, g, i, j);
  }

  lemma TornWears(d: Disk, n: nat, q: nat, p: nat, y: nat, z: Data)
    requires WornTo(d, Generation(d), n, q, p) && p + 1 < q + n && z != d.bodies[Slot(p + 1, n)]
    ensures WornTo(TornOver(d, n, p, y, z), Generation(d), n, q, p + 1)
  {
    TornOverIs(d, n, p, y, z);
    WearsOn(d, TornOver(d, n, p, y, z), Generation(d), n, q, p);
  }

  lemma FadesTo(d: Disk, c: Disk, n: nat, q: nat, p: nat, y: nat, z: Data)
    requires Fading(d, n, q, p, y) && p + 1 < q + n && z != d.bodies[Slot(q, n)]
    requires WornTo(c, Generation(d), n, q, p + 1) && Differ(d, c, Slot(p + 1, n))
    requires Generation(c) == Generation(d) && c.home == Rcv(d, Generation(d))
    requires Kept(Spec(Recovered(d), []), WriteBlock(y, z), Recovered(c))
    ensures Fading(c, n, q, p + 1, y)
  {
    SlotDistinct(q, p + 1, n);
    StillOvertaken(d, c, Generation(d), Slot(q, n), Slot(p + 1, n), y, z);
  }

  lemma FadesMore(d: Disk, n: nat, q: nat, p: nat, y: nat, z: Data)
    requires Fading(d, n, q, p, y) && p + 1 < q + n
    requires z != d.bodies[Slot(p + 1, n)] && z != d.bodies[Slot(q, n)]
    requires Formed(TornOver(d, n, p, y, z))
    requires Kept(Spec(Recovered(d), []), WriteBlock(y, z), Recovered(TornOver(d, n, p, y, z)))
    ensures Fading(TornOver(d, n, p, y, z), n, q, p + 1, y)
  {
    TornWears(d, n, q, p, y, z);
    TornOverIs(d, n, p, y, z);
    FadesTo(d, TornOver(d, n, p, y, z), n, q, p, y, z);
  }

  /** The next mount, and a power cut after the first sector of its recovery. */
  lemma FadingStep(n: nat, s: Machine, a: Spec, q: nat, p: nat, y: nat) returns (s2: Machine, a2: Spec)
    requires Fading(s.disk, n, q, p, y) && s.phase.Off? && a == Spec(Recovered(s.disk), [])
    requires p + 1 < q + n && SafeAfter(n, s, a)
    ensures SafeAfter(n, s2, a2) && s2.phase.Off? && Fading(s2.disk, n, q, p + 1, y)
    ensures a2 == Spec(Recovered(s2.disk), [])
  {
    var d := s.disk;
    var z := Third(d.bodies[Slot(p + 1, n)], d.bodies[Slot(q, n)]);
    var s1, e := FadingEvents(n, s, a, q, p, y, z);
    s2 := Next(n, s1, e);
    a2 := Spec(Recovered(s2.disk), []);
    SafeFurther(n, s, a, PowerOn, s1, a);
    SafeFurther(n, s1, a, e, s2, a2);
    SafeNow(n, s1, a, e, s2, a2);
    FadesMore(d, n, q, p, y, z);
  }

  lemma FadingEvents(n: nat, s: Machine, a: Spec, q: nat, p: nat, y: nat, z: Data) returns (s1: Machine, e: Event)
    requires Fading(s.disk, n, q, p, y) && s.phase.Off?
    ensures StepOf(n, s, a, PowerOn, s1, a) && e == Event.Cut(WriteBlock(y, z), 1)
    ensures Formed(s1.disk) && Enabled(n, s1, e) && Next(n, s1, e).disk == TornOver(s.disk, n, p, y, z)
    ensures Next(n, s1, e).phase.Off? && Formed(Next(n, s1, e).disk)
    ensures StepOf(n, s1, a, e, Next(n, s1, e), Spec(Recovered(Next(n, s1, e).disk), []))
  {
    s1 := FadingMounts(s.disk, n, q, p, y);
    e := Event.Cut(WriteBlock(y, z), 1);
    FadingCut(s.disk, n, q, p, y, s1, z);
  }

  /** Power cuts of one recovery after the other wear away every record but the one left over. */
  lemma {:induction false} FadingIsLost(n: nat, s: Machine, a: Spec, q: nat, p: nat, y: nat)
    requires Fading(s.disk, n, q, p, y) && s.phase.Off? && a == Spec(Recovered(s.disk), [])
    ensures !SafeAfter(n, s, a)
    decreases q + n - p
  {
    if p + 1 == q + n {
      LastLeft(s.disk, Generation(s.disk), n, q);
      assert false;
    } else if SafeAfter(n, s, a) {
      var s2, a2 := FadingStep(n, s, a, q, p, y);
      FadingIsLost(n, s2, a2, q, p + 1, y);
    }
  }

  // ---- the cut that starts it ----

  lemma LeaderIsNewest(d: Disk, c: Disk, m: Mem, n: nat, h: History, f: nat, base: map<nat, Data>, j: nat)
    requires AtValve(d, c, m, n, h, f, base) && m.tx != 0 && m.next == |h| && j < n && d.heads[Slot(|h|, n)].RecHead?
    requires Leads(d, m, n, Slot(|h|, n), j)
    ensures Newest(c, m.gen, d.heads[Slot(|h|, n)].lba, n) == Some(j) && c.bodies[j] == d.bodies[j]
  {
    AppliesIsSurvives(d, c, m, n, h, f, base, j);
    var w := Newest(c, m.gen, d.heads[Slot(|h|, n)].lba, n).value;
    AppliesIsSurvives(d, c, m, n, h, f, base, w);
    SameNumSameSlot(d, m.gen, n, h, j, w);
  }

  lemma LaterShows(d: Disk, c: Disk, m: Mem, n: nat, h: History, f: nat, base: map<nat, Data>)
    requires AtValve(d, c, m, n, h, f, base) && m.tx != 0 && m.next == |h| && StaleLater(d, m, n)
    ensures Overtaken(c, m.gen, Slot(|h|, n))
  {
    SlotDistinct(|h|, |h| + 1, n);
    StaleAtHome(d, c, m, n, h, f, base);
    var j :| 0 <= j < n && Leads(d, m, n, Slot(|h|, n), j) && d.bodies[j] != d.bodies[Slot(|h|, n)];
    LeaderIsNewest(d, c, m, n, h, f, base, j);
  }

  lemma LaterFades(d: Disk, c: Disk, m: Mem, n: nat, h: History, f: nat, base: map<nat, Data>, y: nat)
    requires AtValve(d, c, m, n, h, f, base) && m.tx != 0 && m.next == |h| && StaleLater(d, m, n)
    requires FlagSet(c) && Generation(c) == m.gen && Dirty(RcvAt(c, m.gen, 0)) && 0 < y && y in c.home
    ensures Fading(c, n, |h|, |h| + 1, y)
  {
    LaterShows(d, c, m, n, h, f, base);
    forall j | 0 <= j < n && IsCurrent(c, m.gen, j) ensures c.heads[j].num <= |h| + 1 {
      if j != Slot(|h| + 1, n) {
        EntryOf(d, m.gen, n, h, j);
      }
    }
  }

  lemma CutFades(n: nat, s: Machine, a: Spec, h: History, op: Op, k: nat) returns (c: Disk)
    requires InvBy(n, s, a, h) && s.phase.Running? && MidValve(s, op, k) && n > 0 && CanStart(n, s, op)
    requires StaleLater(s.disk, s.mem, n)
    ensures k <= |OpWrites(s.mem, n, op)| && c == JournalDisk.Cut(s.disk, OpWrites(s.mem, n, op), k) && Formed(c)
    ensures Kept(a, op, Recovered(c)) ==> Fading(c, n, |h|, |h| + 1, op.lba)
  {
    var f: nat, base: map<nat, Data> :| RunningBy(s.disk, n, h, s.mem, a, f, base);
    c := ValveCutAt(s.disk, s.mem, n, h, f, base, op.lba, op.data, k);
    if Kept(a, op, Recovered(c)) {
      FlagOutlasts(s.disk, s.mem, n, h, a, f, base, op, Recovered(c));
      RcvIs(c, 0);
      LaterFades(s.disk, c, s.mem, n, h, f, base, op.lba);
    }
  }

  lemma LostLater(n: nat, s: Machine, op: Op, k: nat, q: nat, y: nat)
    requires n > 0 && k <= |OpWrites(s.mem, n, op)| && Fading(Dropped(n, s, op, k).disk, n, q, q + 1, y)
    ensures !SafeAfter(n, Dropped(n, s, op, k), Spec(Recovered(Dropped(n, s, op, k).disk), []))
  {
    FadingIsLost(n, Dropped(n, s, op, k), Spec(Recovered(Dropped(n, s, op, k).disk), []), q, q + 1, y);
  }

  lemma MidValveRuns(n: nat, s: Machine, a: Spec, op: Op, k: nat)
    requires Sound(n, s, a) && MidValve(s, op, k) && CanStart(n, s, op)
    ensures s.phase.Running? && Inv(n, s, a)
  {
  }

  /** The power cut keeps the promise, and every later one will. */
  ghost predicate LosesNothing(n: nat, s: Machine, a: Spec, op: Op, k: nat)
    requires n > 0 && k <= |OpWrites(s.mem, n, op)| && Formed(Dropped(n, s, op, k).disk)
  {
    var c := Dropped(n, s, op, k);
    Kept(a, op, Recovered(c.disk)) && SafeAfter(n, c, Spec(Recovered(c.disk), []))
  }

  lemma DueLoses(n: nat, s: Machine, a: Spec, h: History, op: Op, k: nat)
    requires InvBy(n, s, a, h) && s.phase.Running? && n > 0 && CanStart(n, s, op) && MidValve(s, op, k)
    requires k <= |OpWrites(s.mem, n, op)| && |s.disk.heads| == n && StaleDue(s.disk, s.mem, n, a, op)
    ensures Formed(Dropped(n, s, op, k).disk) && !LosesNothing(n, s, a, op, k)
  {
    var _ := NextMountExact(n, s, a, h, op.lba, op.data, k);
  }

  lemma FadingLoses(n: nat, s: Machine, a: Spec, op: Op, k: nat, q: nat, y: nat)
    requires n > 0 && k <= |OpWrites(s.mem, n, op)| && Formed(Dropped(n, s, op, k).disk)
    requires Kept(a, op, Recovered(Dropped(n, s, op, k).disk)) ==> Fading(Dropped(n, s, op, k).disk, n, q, q + 1, y)
    ensures !LosesNothing(n, s, a, op, k)
  {
    if Kept(a, op, Recovered(Dropped(n, s, op, k).disk)) {
      LostLater(n, s, op, k, q, y);
    }
  }

  lemma SparedCutKeeps(n: nat, s: Machine, a: Spec, op: Op, k: nat)
    requires Sound(n, s, a) && n > 0 && Formed(s.disk) && Enabled(n, s, Event.Cut(op, k)) && !ValveLoses(n, s, a, op, k)
    ensures Formed(Dropped(n, s, op, k).disk) && LosesNothing(n, s, a, op, k)
  {
    DroppedIsNext(n, s, a, op, k);
    SoundIsSafe(n, Dropped(n, s, op, k), Spec(Recovered(Dropped(n, s, op, k).disk), []));
  }

  /** Exactly when a power cut between the commit record of a full chunk and the record numbered
      before it loses nothing, at the next mount and at every later one, read off the device before
      the write: when the record in the slot due to be overwritten is not the only one left for a
      block that should show another value, and is not an untagged one that newer records of its
      block disagree with. */
  lemma ValveCutExact(n: nat, s: Machine, a: Spec, op: Op, k: nat)
    requires Sound(n, s, a) && n > 0 && Formed(s.disk) && MidValve(s, op, k)
    requires CanStart(n, s, op) && k <= |OpWrites(s.mem, n, op)|
    ensures Formed(Dropped(n, s, op, k).disk)
    ensures LosesNothing(n, s, a, op, k) <==> !ValveLoses(n, s, a, op, k)
  {
    MidValveRuns(n, s, a, op, k);
    if ValveLoses(n, s, a, op, k) {
      var h: History :| InvBy(n, s, a, h);
      if StaleDue(s.disk, s.mem, n, a, op) {
        DueLoses(n, s, a, h, op, k);
      } else {
        var _ := CutFades(n, s, a, h, op, k);
        FadingLoses(n, s, a, op, k, |h|, op.lba);
      }
    } else {
      SparedCutKeeps(n, s, a, op, k);
    }
  }

  /** The same over runs from a fresh image. */
  lemma RunValveCutExact(n: nat, ss: seq<Machine>, aa: seq<Spec>, es: seq<Event>, i: nat, op: Op, k: nat)
    requires IsRun(n, ss, aa, es) && i <= |es| && n > 0 && MidValve(ss[i], op, k)
    requires CanStart(n, ss[i], op) && k <= |OpWrites(ss[i].mem, n, op)|
    ensures Formed(ss[i].disk) && Formed(Dropped(n, ss[i], op, k).disk)
    ensures LosesNothing(n, ss[i], aa[i], op, k) <==> !ValveLoses(n, ss[i], aa[i], op, k)
  {
    RunKeeps(n, ss, aa, es, i);
    SoundFormed(n, ss[i], aa[i]);
    ValveCutExact(n, ss[i], aa[i], op, k);
  }
}
