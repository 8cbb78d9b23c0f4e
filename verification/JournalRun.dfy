/** The journal as a machine: mount, replay, system calls and power cuts between any two sector
    writes.  `Spec` is what an application may rely on, written without any journal. */
module JournalRun {
  import opened JournalDisk
  import opened JournalRing
  import opened JournalWindow

  const CHUNK: nat := 200

  /** The fields of `JLog`. */
  datatype Mem = Mem(gen: nat, next: nat, depth: nat, tx: nat, count: nat, txNext: nat)

  datatype Op = Begin | WriteBlock(lba: nat, data: Data) | Commit

  function RecordPair(m: Mem, n: nat, q: nat, t: nat, x: nat, v: Data): seq<Write>
    requires n > 0
  {
    [ToHead(Slot(q, n), RecHead(m.gen, q, x, t, Crc(q, x, t, v))), ToBody(Slot(q, n), v)]
  }

  function CommitPair(m: Mem, n: nat, q: nat, t: nat, c: nat): seq<Write>
    requires n > 0
  {
    [ToHead(Slot(q, n), ComHead(m.gen, q, t, c, CommitCrc(t, c))), ToBody(Slot(q, n), ZERO)]
  }

  /** The chunk valve fires: the open transaction is full. */
  predicate Valve(m: Mem) {
    m.depth > 0 && m.count >= CHUNK
  }

  /** `blk::write`: the journal record, then the home sector. */
  function OpWrites(m: Mem, n: nat, op: Op): seq<Write>
    requires n > 0
  {
    match op
    case Begin => []
    case WriteBlock(x, v) =>
      if m.depth == 0 then RecordPair(m, n, m.next, 0, x, v) + [ToHome(x, v)]
      else if !Valve(m) then RecordPair(m, n, m.next, m.tx, x, v) + [ToHome(x, v)]
      else CommitPair(m, n, m.next + 1, m.tx, m.count)
           + RecordPair(m, n, m.next, m.txNext, x, v) + [ToHome(x, v)]
    case Commit =>
      if m.depth == 1 && m.count > 0 && m.tx != 0 then CommitPair(m, n, m.next, m.tx, m.count) else []
  }

  function OpMem(m: Mem, op: Op): Mem {
    match op
    case Begin =>
      if m.depth == 0 then m.(depth := 1, tx := m.txNext, txNext := m.txNext + 1, count := 0)
      else m.(depth := m.depth + 1)
    case WriteBlock(x, v) =>
      if m.depth == 0 then m.(next := m.next + 1)
      else if !Valve(m) then m.(next := m.next + 1, count := m.count + 1)
      else m.(next := m.next + 2, tx := m.txNext, txNext := m.txNext + 1, count := 1)
    case Commit =>
      if m.depth == 0 then m
      else if m.depth > 1 then m.(depth := m.depth - 1)
      else if m.count > 0 && m.tx != 0 then m.(depth := 0, tx := 0, count := 0, next := m.next + 1)
      else m.(depth := 0, tx := 0, count := 0)
  }

  // ---- one record, cut by cut ----

  ghost predicate Core(d: Disk, g: nat, n: nat, h: History) {
    && Holds(d, g, n, h) && Whole(h, Lo(h, n)) && g >= 1
    && forall q :: Lo(h, n) <= q < |h| && h[q].Rec? ==> h[q].lba in d.home
  }

  /** The entry on record after sector A alone: whole already if sector B happens to hold the
      same bytes, torn otherwise. */
  function HalfWritten(d: Disk, i: nat, x: nat, v: Data, t: nat): Entry
    requires i < |d.bodies|
  {
    if d.bodies[i] == v then Rec(x, v, t) else Torn
  }

  lemma HeadWritten(d: Disk, m: Mem, n: nat, h: History, t: nat, x: nat, v: Data)
    requires Core(d, m.gen, n, h) && x in d.home
    requires t == 0 || Fresh(h, Lo(h, n), t)
    ensures var e := HalfWritten(d, Slot(|h|, n), x, v, t);
            Core(Put(d, RecordPair(m, n, |h|, t, x, v)[0]), m.gen, n, Push(h, e))
  {
    var e := HalfWritten(d, Slot(|h|, n), x, v, t);
    HoldsPush(d, Put(d, RecordPair(m, n, |h|, t, x, v)[0]), m.gen, n, h, e);
    WholePush(h, n, e);
  }

  lemma PairWritten(d: Disk, m: Mem, n: nat, h: History, t: nat, x: nat, v: Data)
    requires Core(d, m.gen, n, h) && x in d.home
    requires t == 0 || Fresh(h, Lo(h, n), t)
    ensures var ws := RecordPair(m, n, |h|, t, x, v);
            Core(Put(Put(d, ws[0]), ws[1]), m.gen, n, Push(h, Rec(x, v, t)))
  {
    var ws := RecordPair(m, n, |h|, t, x, v);
    HoldsPush(d, Put(Put(d, ws[0]), ws[1]), m.gen, n, h, Rec(x, v, t));
    WholePush(h, n, Rec(x, v, t));
  }

  lemma CommitWritten(d: Disk, m: Mem, n: nat, h: History, t: nat, f: nat, l: nat, c: nat)
    requires Core(d, m.gen, n, h) && c >= 1 && OpenRun(h, Lo(h, n), t, f, l, c)
    requires |h| == l || (|h| == l + 1 && c > 1)
    ensures var ws := CommitPair(m, n, |h|, t, c);
            && Core(Put(d, ws[0]), m.gen, n, Push(h, Com(t, c, f, l)))
            && Core(Put(Put(d, ws[0]), ws[1]), m.gen, n, Push(h, Com(t, c, f, l)))
  {
    var ws := CommitPair(m, n, |h|, t, c);
    var e := Com(t, c, f, l);
    WholeCommit(h, n, t, f, l, c);
    HoldsPush(d, Put(d, ws[0]), m.gen, n, h, e);
    HoldsPush(d, Put(Put(d, ws[0]), ws[1]), m.gen, n, h, e);
  }

  /** The ring is judged by its own sectors; only the set of home sectors matters besides. */
  lemma CoreFrame(d: Disk, e: Disk, g: nat, n: nat, h: History)
    requires Core(d, g, n, h)
    requires e.heads == d.heads && e.bodies == d.bodies && e.home.Keys >= d.home.Keys
    ensures Core(e, g, n, h)
  {
    forall q | Lo(h, n) <= q < |h| ensures Matches(e, g, Slot(q, n), q, h[q]) {
      assert Matches(d, g, Slot(q, n), q, h[q]);
    }
    forall i | 0 <= i < n && IsCurrent(e, g, i)
      ensures Lo(h, n) <= e.heads[i].num < |h| && Slot(e.heads[i].num, n) == i
    {
      assert IsCurrent(d, g, i);
    }
  }
}
