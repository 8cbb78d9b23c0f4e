/** Mounts, replays, system calls, shutdowns and power cuts as one transition system, and its promise. */
module JournalMachine {
  // The reference `Spec` holds the blocks that completed calls left and the writes of the call in flight.
  // Nothing in `Spec` knows about a ring, a record or a replay.

  import opened Wrappers
  import opened JournalDisk
  import opened JournalRing
  import opened JournalWindow
  import opened JournalRun

  datatype Phase =
    | Off
    | Recovering(written: nat)  // flag found set, replay done: rebuilding, `written` records so far
    | Cleared                   // flag found clear, or cleared by the recovery
    | Running                   // flag set again: system calls
    | Stopping                  // generation bumped, flag not yet cleared

  datatype Machine = Machine(disk: Disk, phase: Phase, mem: Mem)

  datatype Event =
    | Stamp                              // `init` writes a missing header and the power fails
    | ReplayCut(ws: seq<Write>, k: nat)  // the power fails after `k` writes of a replay
    | PowerOn                            // `mount` up to the end of `replay`
    | Do(op: Op)
    | Cut(op: Op, k: nat)                // the power fails after `k` sector writes of `op`
    | Reset                              // `reset` on the shutdown path

  datatype Spec = Spec(done: map<nat, Data>, open: seq<(nat, Data)>)

  function Overlay(done: map<nat, Data>, s: seq<(nat, Data)>): map<nat, Data> {
    if s == [] then done else Overlay(done, s[..|s| - 1])[s[|s| - 1].0 := s[|s| - 1].1]
  }

  // ---- transitions ----

  /** `max_seq`: the greatest current sequence number in slots below `k`. */
  function MaxNum(d: Disk, g: nat, k: nat): nat
    requires k <= |d.heads|
  {
    if k == 0 then 0
    else
      var m := MaxNum(d, g, k - 1);
      if IsCurrent(d, g, k - 1) && m < d.heads[k - 1].num then d.heads[k - 1].num else m
  }

  /** Every record a replay applies is of a block of the device. */
  predicate AllHome(d: Disk, g: nat)
    requires Formed(d)
  {
    forall i :: 0 <= i < |d.heads| && Applies(d, g, i) ==> d.heads[i].lba in d.home
  }

  /** The slots `replay` applies, oldest first. */
  ghost predicate ReplayOrder(d: Disk, g: nat, idx: seq<nat>)
    requires Formed(d)
  {
    && (forall j :: 0 <= j < |idx| ==> idx[j] < |d.heads| && Applies(d, g, idx[j]))
    && (forall i: nat :: i < |d.heads| && Applies(d, g, i) ==> i in idx)
    && (forall j, k :: 0 <= j < k < |idx| ==> d.heads[idx[j]].num < d.heads[idx[k]].num)
  }

  ghost predicate WritesOf(d: Disk, g: nat, idx: seq<nat>, ws: seq<Write>)
    requires Formed(d) && ReplayOrder(d, g, idx)
  {
    |ws| == |idx|
    && forall j :: 0 <= j < |ws| ==> ws[j] == ToHome(d.heads[idx[j]].lba, d.bodies[idx[j]])
  }

  ghost predicate IsReplay(d: Disk, g: nat, ws: seq<Write>)
    requires Formed(d)
  {
    exists idx :: ReplayOrder(d, g, idx) && WritesOf(d, g, idx, ws)
  }

  /** The block writes each phase issues.  Only `set_dirty` writes sector 0: clear once the
      recovery has journalled at least one record per slot (`JournalRebuild.Recover` proves that it
      has), set when the mount is over, clear when the machine stops. */
  predicate CanStart(n: nat, s: Machine, op: Op) {
    match s.phase
    case Off => false
    case Recovering(k) =>
      op.WriteBlock? && op.lba in s.disk.home && (op.lba == 0 ==> !Dirty(op.data) && k >= n)
    case Cleared => op.WriteBlock? && op.lba == 0 && 0 in s.disk.home && Dirty(op.data)
    case Running =>
      op.WriteBlock? ==> op.lba != 0 && op.lba in s.disk.home && (Valve(s.mem) ==> n >= 2)
    case Stopping => op.WriteBlock? && op.lba == 0 && 0 in s.disk.home && !Dirty(op.data)
  }

  function NextPhase(p: Phase, op: Op): Phase {
    match p
    case Off => Off
    case Recovering(k) => if op.WriteBlock? && op.lba == 0 then Cleared else Recovering(k + 1)
    case Cleared => Running
    case Running => Running
    case Stopping => Off
  }

  /** Cutting `op` after `k` sectors leaves a record of a value that its block does not hold. */
  predicate RecordAhead(n: nat, s: Machine, op: Op, k: nat)
    requires n > 0
  {
    && op.WriteBlock? && op.lba in s.disk.home && op.data != s.disk.home[op.lba]
    && (k == 2
        || (k == 1 && Slot(s.mem.next, n) < |s.disk.bodies| && s.disk.bodies[Slot(s.mem.next, n)] == op.data))
  }

  /** A record left ahead of its block while the flag reads clear: the next mount replays nothing,
      goes on numbering after the record, and sets the flag over it.  In a ring of one slot the
      flag's own record removes it.  `JournalStale.RecoveryCutExact` says that these cuts, and no
      others of a recovery, break a later mount. */
  predicate LeavesStale(n: nat, s: Machine, op: Op, k: nat)
    requires n > 0
  {
    s.phase.Recovering? && !FlagSet(s.disk) && n >= 2 && RecordAhead(n, s, op, k) && op.lba != 0
  }

  /** A replay cut after `k` writes still shows the next mount what the whole replay gives
      (`JournalFindings.ReplayCutsExact` says when every cut does). */
  predicate ReplayCutSafe(d: Disk, ws: seq<Write>, k: nat)
    requires Formed(d) && k <= |ws|
  {
    var c := JournalDisk.Cut(d, ws, k);
    FlagSet(c) || c.home == Rcv(d, Generation(d))
  }

  ghost predicate Enabled(n: nat, s: Machine, e: Event)
    requires n > 0 && Formed(s.disk)
  {
    match e
    case Stamp => s.phase.Off? && s.disk.hdr.NoHeader?
    case ReplayCut(ws, k) =>
      s.phase.Off? && FlagSet(s.disk) && IsReplay(s.disk, Generation(s.disk), ws)
      && k <= |ws| && ReplayCutSafe(s.disk, ws, k)
    case PowerOn => s.phase.Off?
    case Do(op) => CanStart(n, s, op)
    case Cut(op, k) =>
      CanStart(n, s, op) && k <= |OpWrites(s.mem, n, op)| && !LeavesStale(n, s, op, k)
    case Reset => s.phase.Running? && s.mem.depth == 0
  }

  function Stamped(d: Disk): Disk {
    if d.hdr.NoHeader? then Put(d, ToHeader(1)) else d
  }

  function Mounted(d: Disk): Machine
    requires Formed(d)
  {
    var g := Generation(d);
    Machine(Stamped(d).(home := Recovered(d)),
            if FlagSet(d) then Recovering(0) else Cleared,
            Mem(g, MaxNum(d, g, |d.heads|) + 1, 0, 0, 0, 1))
  }

  ghost function Next(n: nat, s: Machine, e: Event): Machine
    requires n > 0 && Formed(s.disk) && Enabled(n, s, e)
  {
    match e
    case Stamp => s.(disk := Stamped(s.disk))
    case ReplayCut(ws, k) => s.(disk := JournalDisk.Cut(s.disk, ws, k))
    case PowerOn => Mounted(s.disk)
    case Do(op) =>
      Machine(PutAll(s.disk, OpWrites(s.mem, n, op)), NextPhase(s.phase, op), OpMem(s.mem, op))
    case Cut(op, k) => s.(disk := JournalDisk.Cut(s.disk, OpWrites(s.mem, n, op), k), phase := Off)
    case Reset =>
      s.(disk := Put(s.disk, ToHeader(s.mem.gen + 1)), phase := Stopping,
         mem := s.mem.(gen := s.mem.gen + 1, next := 1))
  }

  /** What a caller is promised: completed calls land in `done`, and a power cut may only leave,
      block by block, the completed value or one the call in flight wrote.  Mounting, replaying and
      a replay that was itself cut leave every block alone. */
  ghost function SpecNext(n: nat, s: Machine, e: Event, a: Spec): Spec
    requires n > 0 && Formed(s.disk) && Enabled(n, s, e)
    requires Formed(Next(n, s, e).disk)
  {
    match e
    case Do(op) => SpecDo(s.mem, op, a)
    case Cut(_, _) => Spec(Recovered(Next(n, s, e).disk), [])
    case _ => a
  }

  function SpecDo(m: Mem, op: Op, a: Spec): Spec {
    match op
    case Begin => if m.depth == 0 then a.(open := []) else a
    case WriteBlock(x, v) =>
      if m.depth == 0 then a.(done := a.done[x := v]) else a.(open := a.open + [(x, v)])
    case Commit => if m.depth == 1 then Spec(Overlay(a.done, a.open), []) else a
  }

  function InFlight(a: Spec, op: Op): seq<(nat, Data)> {
    a.open + if op.WriteBlock? then [(op.lba, op.data)] else []
  }

  /** The per-block guarantee: never an older value. */
  predicate Kept(a: Spec, op: Op, r: map<nat, Data>) {
    forall x :: x in a.done ==> x in r && (r[x] == a.done[x] || (x, r[x]) in InFlight(a, op))
  }

  // ---- the chunk valve, cut between its commit record and the record numbered before it ----

  /** The write trips the valve, and the power fails after its commit record and before the head of
      the record with the smaller number. */
  predicate MidValve(s: Machine, op: Op, k: nat) {
    op.WriteBlock? && Valve(s.mem) && 1 <= k <= 2
  }

  /** Slot `j` still counts once slot `gap` holds the commit record of the chunk: an untagged record,
      one of the chunk if all of the chunk is still there, or one of an older transaction that is
      whole without `gap`. */
  predicate Survives(d: Disk, m: Mem, gap: nat, j: nat)
    requires Formed(d) && gap < |d.heads| && j < |d.heads|
  {
    && j != gap && IsRecord(d, m.gen, j)
    && var t := d.heads[j].tx;
       if t == 0 then true
       else if t == m.tx then |MemberSet(d, m.gen, t, |d.heads|) - {gap}| == m.count
       else Complete(d, m.gen, t) && !IsMember(d, m.gen, t, gap) && !IsCommitOf(d, m.gen, t, gap)
  }

  /** The record in the slot due to be overwritten still counts, nothing else that counts speaks of
      its block, and its value is neither the block's completed one nor one this call wrote to it. */
  predicate StaleDue(d: Disk, m: Mem, n: nat, a: Spec, op: Op)
    requires Formed(d) && |d.heads| == n > 0
  {
    var i := Slot(m.next, n);
    && Survives(d, m, Slot(m.next + 1, n), i)
    && (forall j :: 0 <= j < n && j != i && Survives(d, m, Slot(m.next + 1, n), j) ==>
          d.heads[j].lba != d.heads[i].lba)
    && (d.heads[i].lba in a.done ==> d.bodies[i] != a.done[d.heads[i].lba])
    && (d.heads[i].lba, d.bodies[i]) !in a.open
    && (op.WriteBlock? && d.heads[i].lba == op.lba ==> d.bodies[i] != op.data)
  }

  /** Slot `j` holds the newest of the records that still count and speak of the block of slot `i`. */
  predicate Leads(d: Disk, m: Mem, n: nat, i: nat, j: nat)
    requires Formed(d) && |d.heads| == n > 0 && i < n && j < n && d.heads[i].RecHead?
  {
    && Survives(d, m, Slot(m.next + 1, n), j) && d.heads[j].lba == d.heads[i].lba
    && forall l :: 0 <= l < n && Survives(d, m, Slot(m.next + 1, n), l) && d.heads[l].lba == d.heads[i].lba ==>
         d.heads[l].num <= d.heads[j].num
  }

  /** The slot due to be overwritten holds an untagged record, and the newest record that still counts
      for its block holds another value.  The next mount shows that other value; but the numbering
      goes on behind the commit record, so every other slot of the ring is reused before this one. */
  predicate StaleLater(d: Disk, m: Mem, n: nat)
    requires Formed(d) && |d.heads| == n > 0
  {
    var i := Slot(m.next, n);
    && IsRecord(d, m.gen, i) && d.heads[i].tx == 0
    && exists j :: 0 <= j < n && Leads(d, m, n, i, j) && d.bodies[j] != d.bodies[i]
  }

  /** The cuts of the valve that lose a block, at the next mount or at a later one
      (`JournalLate.ValveCutExact`). */
  predicate ValveLoses(n: nat, s: Machine, a: Spec, op: Op, k: nat)
    requires Formed(s.disk)
  {
    MidValve(s, op, k) && |s.disk.heads| == n > 0
    && (StaleDue(s.disk, s.mem, n, a, op) || StaleLater(s.disk, s.mem, n))
  }

  // ---- the invariant ----

  predicate Untagged(h: History, lo: nat) {
    forall q :: lo <= q < |h| ==> TxOf(h[q]) == 0
  }

  predicate TailLegacy(h: History, k: nat) {
    k < |h| && forall q :: |h| - k <= q < |h| ==> h[q].Rec? && h[q].tx == 0 && h[q].lba != 0
  }

  /** The newest entry is a superblock record, and the window holds no other. */
  predicate EndsAtSuperblock(h: History, lo: nat) {
    h[|h| - 1].Rec? && h[|h| - 1].lba == 0
    && forall q :: lo <= q < |h| - 1 && h[q].Rec? ==> h[q].lba != 0
  }

  predicate IdsBelow(h: History, lo: nat, t: nat) {
    forall q :: lo <= q < |h| ==> TxOf(h[q]) < t
  }

  predicate Admits(a: Spec, op: Op, x: nat, v: Data) {
    x in a.done && (v == a.done[x] || (x, v) in InFlight(a, op))
  }

  predicate AllAdmitted(a: Spec, op: Op, r: map<nat, Data>) {
    forall x :: x in r ==> Admits(a, op, x, r[x])
  }

  /** The sectors whose records the flag's own record will replace before any replay. */
  function Loose(d: Disk, n: nat): set<nat> {
    if n == 1 then d.home.Keys else {0}
  }

  ghost predicate OffInv(d: Disk, n: nat, h: History) {
    && Core(d, Generation(d), n, h) && 0 in d.home
    && (!FlagSet(d) ==> Untagged(h, Lo(h, n)) && Agree(h, Lo(h, n), d.home, Loose(d, n)))
    && (FlagSet(d) && !Dirty(RcvAt(d, Generation(d), 0)) ==>
          Untagged(h, Lo(h, n)) && EndsAtSuperblock(h, Lo(h, n)))
  }

  /** While calls run: the ring agrees with `base`, the blocks as of the last commit record, and
      the home sectors are `base` with the open run, which starts at entry `f`, laid over it. */
  ghost predicate RunningBy(d: Disk, n: nat, h: History, m: Mem, a: Spec, f: nat, base: map<nat, Data>)
    requires n > 0
  {
    && FlagSet(d) && Agree(h, Lo(h, n), base, {}) && 0 in base && Dirty(base[0])
    && a.done.Keys == d.home.Keys && base.Keys == d.home.Keys && AllAdmitted(a, Begin, base)
    && d.home == Overlay(a.done, a.open) && (forall w :: w in a.open ==> w.0 != 0)
    && m.txNext >= 1 && IdsBelow(h, Lo(h, n), m.txNext)
    && (m.depth == 0 ==> a.open == [] && base == d.home)
    && (m.depth > 0 ==>
          m.tx < m.txNext && OpenRun(h, Lo(h, n), m.tx, f, |h|, m.count)
          && LaidOver(h, m.tx, f, |h|, base, d.home) && (m.count == 0 ==> f == |h|))
  }

  ghost predicate RunningInv(d: Disk, n: nat, h: History, m: Mem, a: Spec)
    requires n > 0
  {
    exists f: nat, base: map<nat, Data> :: RunningBy(d, n, h, m, a, f, base)
  }

  ghost predicate OnInv(s: Machine, n: nat, h: History, a: Spec) {
    && Core(s.disk, s.mem.gen, n, h) && Generation(s.disk) == s.mem.gen && s.mem.next == |h|
    && 0 in s.disk.home
    && (!s.phase.Running? ==> s.mem.depth == 0 && a == Spec(s.disk.home, []))
    && match s.phase
       case Off => false
       case Recovering(k) =>
         Agree(h, Lo(h, n), s.disk.home, {}) && TailLegacy(h, k) && s.mem.txNext == 1
         && (!FlagSet(s.disk) ==> Untagged(h, Lo(h, n)))
       case Cleared =>
         !FlagSet(s.disk) && Agree(h, Lo(h, n), s.disk.home, Loose(s.disk, n)) && Untagged(h, Lo(h, n))
         && s.mem.txNext == 1
       case Running => RunningInv(s.disk, n, h, s.mem, a)
       case Stopping => FlagSet(s.disk) && h == [Torn]
  }

  ghost predicate InvBy(n: nat, s: Machine, a: Spec, h: History) {
    && n > 0 && Formed(s.disk)
    && if s.phase.Off? then OffInv(s.disk, n, h) && a == Spec(Recovered(s.disk), [])
       else OnInv(s, n, h, a)
  }

  ghost predicate Inv(n: nat, s: Machine, a: Spec) {
    exists h: History :: InvBy(n, s, a, h)
  }

  // ---- reading the ring back ----

  lemma {:induction false} MaxNumBound(d: Disk, g: nat, k: nat, b: nat)
    requires k <= |d.heads|
    requires forall i :: 0 <= i < k && IsCurrent(d, g, i) ==> d.heads[i].num <= b
    ensures MaxNum(d, g, k) <= b
    ensures forall i :: 0 <= i < k && IsCurrent(d, g, i) ==> d.heads[i].num <= MaxNum(d, g, k)
  {
    if k > 0 {
      MaxNumBound(d, g, k - 1, b);
    }
  }

  /** `max_seq` recovers the sequence counter from the ring alone. */
  lemma MaxNumIs(d: Disk, g: nat, n: nat, h: History)
    requires Holds(d, g, n, h)
    ensures MaxNum(d, g, n) == |h| - 1
  {
    MaxNumBound(d, g, n, |h| - 1);
    if |h| > 1 {
      SlotOfEntry(d, g, n, h, |h| - 1);
    }
  }

  lemma RcvCore(d: Disk, g: nat, n: nat, h: History)
    requires Core(d, g, n, h)
    ensures Agree(h, Lo(h, n), Rcv(d, g), {}) && Rcv(d, g).Keys == d.home.Keys
  {
    var lo, b := Lo(h, n), Rcv(d, g);
    forall q: nat | Counts(h, lo, q)
      ensures h[q].lba in b && (Shadowed(h, lo, q) || h[q].data == b[h[q].lba])
    {
      CountsApplies(d, g, n, h, q);
      var w := Newest(d, g, h[q].lba, n);
      var r := d.heads[w.value].num;
      AppliesIff(d, g, n, h, w.value);
      if q < r {
        assert Counts(h, lo, r) && h[r].lba == h[q].lba;
      }
    }
  }

  // ---- replay ----

  /** Nothing a replay looks for depends on the header or the home sectors. */
  lemma SameRing(d: Disk, e: Disk, g: nat, k: nat)
    requires Formed(d) && e.heads == d.heads && e.bodies == d.bodies && k <= |d.heads|
    ensures forall t :: Members(e, g, t, k) == Members(d, g, t, k)
    ensures forall t :: CommitCount(e, g, t, k) == CommitCount(d, g, t, k)
  {
    if k > 0 {
      SameRing(d, e, g, k - 1);
    }
  }

  lemma SameNewest(d: Disk, e: Disk, g: nat, y: nat, k: nat)
    requires Formed(d) && e.heads == d.heads && e.bodies == d.bodies && k <= |d.heads|
    ensures Newest(e, g, y, k) == Newest(d, g, y, k)
  {
    SameRing(d, e, g, |d.heads|);
    if k > 0 {
      SameNewest(d, e, g, y, k - 1);
    }
  }

  predicate Replays(d: Disk, idx: seq<nat>) {
    Formed(d) && forall j :: 0 <= j < |idx| ==> idx[j] < |d.heads| && d.heads[idx[j]].RecHead?
  }

  function LbaAt(d: Disk, idx: seq<nat>, j: nat): nat
    requires Replays(d, idx) && j < |idx|
  {
    d.heads[idx[j]].lba
  }

  /** Replay write `j` is on its sector, unless a later one of the first `k` has replaced it. */
  predicate Landed(d: Disk, idx: seq<nat>, k: nat, home: map<nat, Data>, j: nat)
    requires Replays(d, idx) && j < k <= |idx|
  {
    LbaAt(d, idx, j) in home
    && (home[LbaAt(d, idx, j)] == d.bodies[idx[j]]
        || exists i :: j < i < k && LbaAt(d, idx, i) == LbaAt(d, idx, j))
  }

  /** What the home sectors hold after the first `k` writes of a replay. */
  predicate PartReplayed(d: Disk, idx: seq<nat>, k: nat, home: map<nat, Data>)
    requires Replays(d, idx) && k <= |idx|
  {
    && home.Keys == d.home.Keys
    && (forall x :: x in home && (forall j :: 0 <= j < k ==> LbaAt(d, idx, j) != x) ==> home[x] == d.home[x])
    && (forall j :: 0 <= j < k ==> Landed(d, idx, k, home, j))
  }

  lemma PartStep(d: Disk, idx: seq<nat>, k: nat, home: map<nat, Data>)
    requires Replays(d, idx) && k < |idx|
    requires PartReplayed(d, idx, k, home) && LbaAt(d, idx, k) in d.home
    ensures PartReplayed(d, idx, k + 1, home[LbaAt(d, idx, k) := d.bodies[idx[k]]])
  {
    var home' := home[LbaAt(d, idx, k) := d.bodies[idx[k]]];
    forall j: nat {:trigger LbaAt(d, idx, j)} | j < k ensures Landed(d, idx, k + 1, home', j) {
      assert Landed(d, idx, k, home, j);
    }
  }

  lemma {:induction false} ReplaySteps(d: Disk, g: nat, idx: seq<nat>, ws: seq<Write>, k: nat)
    requires Formed(d) && ReplayOrder(d, g, idx) && WritesOf(d, g, idx, ws) && k <= |ws|
    requires forall j :: 0 <= j < |idx| ==> d.heads[idx[j]].lba in d.home
    ensures var e := JournalDisk.Cut(d, ws, k);
            e == d.(home := e.home) && PartReplayed(d, idx, k, e.home)
  {
    if k == 0 {
      assert ws[..0] == [];
    } else {
      ReplaySteps(d, g, idx, ws, k - 1);
      assert ws[..k][..k - 1] == ws[..k - 1];
      assert Applies(d, g, idx[k - 1]);
      PartStep(d, idx, k - 1, JournalDisk.Cut(d, ws, k - 1).home);
    }
  }

  lemma ReplayedAt(d: Disk, g: nat, idx: seq<nat>, k: nat, home: map<nat, Data>, x: nat)
    requires Formed(d) && ReplayOrder(d, g, idx) && k <= |idx| && PartReplayed(d, idx, k, home) && x in d.home
    ensures Newest(d, g, x, |d.heads|).None? ==> home[x] == d.home[x]
    ensures k == |idx| ==> home[x] == RcvAt(d, g, x)
  {
    var w := Newest(d, g, x, |d.heads|);
    if w.None? {
      forall j | 0 <= j < k ensures LbaAt(d, idx, j) != x {
        assert Applies(d, g, idx[j]);
      }
    } else if k == |idx| {
      assert w.value in idx;
      var j :| 0 <= j < |idx| && idx[j] == w.value;
      assert Landed(d, idx, k, home, j);
      forall i | j < i < k ensures LbaAt(d, idx, i) != x {
        assert Applies(d, g, idx[i]);
      }
    }
  }

  lemma ReplayedSector(d: Disk, e: Disk, g: nat, idx: seq<nat>, k: nat, x: nat)
    requires Formed(d) && ReplayOrder(d, g, idx) && k <= |idx|
    requires e.heads == d.heads && e.bodies == d.bodies && PartReplayed(d, idx, k, e.home) && x in d.home
    ensures Formed(e) && x in e.home
    ensures RcvAt(e, g, x) == RcvAt(d, g, x) && (k == |idx| ==> e.home[x] == RcvAt(d, g, x))
  {
    assert Formed(e) && e.home.Keys == d.home.Keys;
    SameNewest(d, e, g, x, |d.heads|);
    ReplayedAt(d, g, idx, k, e.home, x);
  }

  lemma RcvEqual(d: Disk, g: nat, b: map<nat, Data>)
    requires Formed(d) && b.Keys == d.home.Keys && forall x :: x in d.home ==> b[x] == RcvAt(d, g, x)
    ensures b == Rcv(d, g)
  {
  }

  lemma ReplayedRcv(d: Disk, e: Disk, g: nat, idx: seq<nat>, k: nat)
    requires Formed(d) && ReplayOrder(d, g, idx) && k <= |idx|
    requires e.heads == d.heads && e.bodies == d.bodies && PartReplayed(d, idx, k, e.home)
    ensures Formed(e) && Rcv(e, g) == Rcv(d, g) && (k == |idx| ==> e.home == Rcv(d, g))
  {
    forall x | x in d.home
      ensures x in e.home && RcvAt(e, g, x) == RcvAt(d, g, x) && (k == |idx| ==> e.home[x] == RcvAt(d, g, x))
    {
      ReplayedSector(d, e, g, idx, k, x);
    }
    RcvEqual(d, g, Rcv(e, g));
    if k == |idx| {
      RcvEqual(d, g, e.home);
    }
  }

  /** A replay cut anywhere, run again, gives the disk the whole replay gives; and the whole
      replay gives `Rcv`. */
  lemma ReplayIdempotent(d: Disk, g: nat, ws: seq<Write>, k: nat)
    requires Formed(d) && IsReplay(d, g, ws) && k <= |ws|
    requires AllHome(d, g)
    ensures var e := JournalDisk.Cut(d, ws, k);
            && e == d.(home := e.home) && e.home.Keys == d.home.Keys
            && Rcv(e, g) == Rcv(d, g) && (k == |ws| ==> e.home == Rcv(d, g))
  {
    var idx :| ReplayOrder(d, g, idx) && WritesOf(d, g, idx, ws);
    ReplaySteps(d, g, idx, ws, k);
    ReplayedRcv(d, JournalDisk.Cut(d, ws, k), g, idx, k);
  }
}
