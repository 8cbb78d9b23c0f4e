/** `jnl.rs` and the write path of `blk.rs` as they are written: a log object whose fields change in
    place, sector writes issued one by one, and loops over the ring.  Every method is tied to the
    specification the durability theorems are about. */
module JournalLog {
  import opened JournalDisk
  import opened JournalRing
  import opened JournalWindow
  import opened JournalRun
  import opened JournalMachine
  import opened JournalReplay

  lemma PutAllSnoc(d: Disk, ws: seq<Write>, w: Write)
    ensures PutAll(d, ws + [w]) == Put(PutAll(d, ws), w)
  {
    assert (ws + [w])[..|ws|] == ws;
  }

  /** The part of a block write that `record` issues. */
  function RecordWrites(m: Mem, n: nat, x: nat, v: Data): seq<Write>
    requires n > 0
  {
    if m.depth == 0 then RecordPair(m, n, m.next, 0, x, v)
    else if !Valve(m) then RecordPair(m, n, m.next, m.tx, x, v)
    else CommitPair(m, n, m.next + 1, m.tx, m.count) + RecordPair(m, n, m.next, m.txNext, x, v)
  }

  class Log {
    var disk: Disk
    ghost var written: seq<Write>
    var gen: nat
    var next: nat
    var depth: nat
    var tx: nat
    var count: nat
    var txNext: nat
    const n: nat

    predicate Valid()
      reads this
    {
      n > 0 && Formed(disk) && |disk.heads| == n && txNext > 0 && (depth > 0 ==> tx != 0)
    }

    function State(): Mem
      reads this
    {
      Mem(gen, next, depth, tx, count, txNext)
    }

    constructor (d: Disk)
      requires Formed(d) && |d.heads| > 0
      ensures Valid() && disk == d && n == |d.heads| && written == [] && State() == Mem(0, 0, 0, 0, 0, 1)
    {
      disk, written, n := d, [], |d.heads|;
      gen, next, depth, tx, count, txNext := 0, 0, 0, 0, 0, 1;
    }

    method RawWrite(w: Write)
      requires Valid()
      modifies this`disk, this`written
      ensures Valid() && disk == Put(old(disk), w) && written == old(written) + [w]
    {
      written := written + [w];
      match w {
        case ToHeader(g) => disk := disk.(hdr := Header(g));
        case ToHead(s, h) => if s < |disk.heads| { disk := disk.(heads := disk.heads[s := h]); }
        case ToBody(s, b) => if s < |disk.bodies| { disk := disk.(bodies := disk.bodies[s := b]); }
        case ToHome(x, v) => disk := disk.(home := disk.home[x := v]);
      }
    }

    method MaxSeq(g: nat) returns (max: nat)
      requires Valid()
      ensures max == MaxNum(disk, g, n)
    {
      max := 0;
      var s := 0;
      while s < n
        invariant s <= n && max == MaxNum(disk, g, s)
      {
        var a := disk.heads[s];
        if !a.Other? && a.gen == g && a.num != 0 && a.num > max {
          max := a.num;
        }
        s := s + 1;
      }
    }

    /** `init`: adopt the generation on the device, or stamp the first one, and go on numbering
        after the records that survive. */
    method Init()
      requires Valid()
      modifies this
      ensures Valid() && disk == Stamped(old(disk))
      ensures State() == old(State()).(gen := Generation(old(disk)),
                                       next := MaxNum(old(disk), Generation(old(disk)), n) + 1)
      ensures written == old(written) + if old(disk).hdr.NoHeader? then [ToHeader(1)] else []
    {
      if disk.hdr.Header? {
        gen := if disk.hdr.gen == 0 then 1 else disk.hdr.gen;
      } else {
        RawWrite(ToHeader(1));
        gen := 1;
      }
      var max := MaxSeq(gen);
      MaxIgnoresHeader(old(disk), disk, gen, n);
      next := max + 1;
    }

    method Pair(slot: nat, a: Head, b: Data)
      requires Valid()
      modifies this`disk, this`written
      ensures Valid() && written == old(written) + [ToHead(slot, a), ToBody(slot, b)]
      ensures disk == PutAll(old(disk), [ToHead(slot, a), ToBody(slot, b)])
    {
      ghost var d := disk;
      RawWrite(ToHead(slot, a));
      RawWrite(ToBody(slot, b));
      PutAllSnoc(d, [], ToHead(slot, a));
      PutAllSnoc(d, [ToHead(slot, a)], ToBody(slot, b));
      assert [ToHead(slot, a)] + [ToBody(slot, b)] == [ToHead(slot, a), ToBody(slot, b)];
      assert [] + [ToHead(slot, a)] == [ToHead(slot, a)];
    }

    method WriteCommit(t: nat, c: nat)
      requires Valid()
      modifies this`disk, this`written, this`next
      ensures Valid()
      ensures if t == 0 then disk == old(disk) && written == old(written) && next == old(next)
              else
                var ws := CommitPair(old(State()), n, old(next), t, c);
                next == old(next) + 1 && written == old(written) + ws && disk == PutAll(old(disk), ws)
    {
      if t != 0 {
        var seq_ := next;
        next := next + 1;
        SlotIsMod(seq_, n);
        Pair(seq_ % n, ComHead(gen, seq_, t, c, CommitCrc(t, c)), ZERO);
      }
    }

    method Record(lba: nat, data: Data)
      requires Valid()
      modifies this
      ensures Valid()
      ensures State() == OpMem(old(State()), WriteBlock(lba, data))
      ensures written == old(written) + RecordWrites(old(State()), n, lba, data)
      ensures disk == PutAll(old(disk), RecordWrites(old(State()), n, lba, data))
    {
      ghost var d, m := disk, State();
      var seq_ := next;
      next := next + 1;
      var t := 0;
      ghost var before: seq<Write> := [];
      if depth > 0 {
        var pendingTx, pendingCount := 0, 0;
        if count >= CHUNK {
          pendingTx, pendingCount := tx, count;
          tx := txNext;
          txNext := txNext + 1;
          count := 0;
        }
        count := count + 1;
        t := tx;
        if pendingCount > 0 {
          before := CommitPair(m, n, m.next + 1, m.tx, m.count);
          WriteCommit(pendingTx, pendingCount);
        }
      }
      SlotIsMod(seq_, n);
      Pair(seq_ % n, RecHead(gen, seq_, lba, t, Crc(seq_, lba, t, data)), data);
      PutAllAppend(d, before, RecordPair(m, n, m.next, t, lba, data));
    }

    method Begin()
      requires Valid()
      modifies this`depth, this`tx, this`txNext, this`count
      ensures Valid() && State() == OpMem(old(State()), Op.Begin)
    {
      if depth == 0 {
        tx := txNext;
        txNext := txNext + 1;
        count := 0;
      }
      depth := depth + 1;
    }

    method Commit()
      requires Valid()
      modifies this
      ensures Valid() && State() == OpMem(old(State()), Op.Commit)
      ensures written == old(written) + OpWrites(old(State()), n, Op.Commit)
      ensures disk == PutAll(old(disk), OpWrites(old(State()), n, Op.Commit))
    {
      if depth == 0 {
        return;
      }
      depth := depth - 1;
      if depth > 0 {
        return;
      }
      var t, c := tx, count;
      tx := 0;
      count := 0;
      if c > 0 {
        WriteCommit(t, c);
      }
    }

    /** `blk::write`: the record, then the home sector. */
    method Write(lba: nat, data: Data)
      requires Valid()
      modifies this
      ensures Valid() && State() == OpMem(old(State()), WriteBlock(lba, data))
      ensures written == old(written) + OpWrites(old(State()), n, WriteBlock(lba, data))
      ensures disk == PutAll(old(disk), OpWrites(old(State()), n, WriteBlock(lba, data)))
    {
      ghost var d, m := disk, State();
      Record(lba, data);
      RawWrite(ToHome(lba, data));
      PutAllSnoc(d, RecordWrites(m, n, lba, data), ToHome(lba, data));
      assert OpWrites(m, n, WriteBlock(lba, data)) == RecordWrites(m, n, lba, data) + [ToHome(lba, data)];
    }

    method Reset()
      requires Valid()
      modifies this
      ensures Valid() && disk == Put(old(disk), ToHeader(old(gen) + 1))
      ensures State() == old(State()).(gen := old(gen) + 1, next := 1)
              && written == old(written) + [ToHeader(old(gen) + 1)]
    {
      gen := gen + 1;
      next := 1;
      RawWrite(ToHeader(gen));
    }

    /** The scan of a replay: the applicable slots, each once, oldest first. */
    method Scan() returns (recs: seq<Item>, max: nat)
      requires Valid() && NumsDistinct(disk, gen)
      ensures IsReplay(disk, gen, Writes(recs)) && IsLast(disk, gen, max)
    {
      var legacy: seq<Item>, groups: seq<Group> := [], [];
      var s := 0;
      while s < n
        invariant s <= n && legacy == Members(disk, gen, 0, s) && Staged(disk, gen, s, groups)
      {
        legacy, groups := StageSlot(disk, gen, s, legacy, groups);
        s := s + 1;
      }
      recs := SortByNum(Flatten(legacy, groups));
      FlattenAre(disk, gen, legacy, groups);
      forall it ensures it in recs <==> FromApplicable(disk, gen, it) {
        FlattenApplies(disk, gen, legacy, groups, it);
      }
      max := if recs == [] then 0 else recs[|recs| - 1].num;
      SortedReplays(disk, gen, recs);
      LastIsMax(disk, gen, recs);
    }

    /** `replay`: scan, write the home sectors, never number backwards. */
    method Replay() returns (applied: nat, max: nat, ghost ws: seq<Write>)
      requires Valid() && NumsDistinct(disk, gen)
      modifies this`disk, this`written, this`next
      ensures Valid() && IsReplay(old(disk), old(gen), ws) && applied == |ws|
      ensures written == old(written) + ws && disk == PutAll(old(disk), ws)
      ensures IsLast(old(disk), old(gen), max)
      ensures next == if max != 0 && max >= old(next) then max + 1 else old(next)
    {
      var recs: seq<Item>;
      recs, max := Scan();
      ws := Writes(recs);
      applied := |recs|;
      Apply(recs, max);
    }

    method Apply(recs: seq<Item>, max: nat)
      requires Valid()
      modifies this`disk, this`written, this`next
      ensures Valid() && written == old(written) + Writes(recs) && disk == PutAll(old(disk), Writes(recs))
      ensures next == if max != 0 && max >= old(next) then max + 1 else old(next)
    {
      WriteHome(recs);
      if max != 0 && max >= next {
        next := max + 1;
      }
    }

    method WriteHome(recs: seq<Item>)
      requires Valid()
      modifies this`disk, this`written
      ensures Valid() && written == old(written) + Writes(recs) && disk == PutAll(old(disk), Writes(recs))
    {
      ghost var d := disk;
      var j := 0;
      while j < |recs|
        invariant j <= |recs| && Valid()
        invariant written == old(written) + Writes(recs[..j]) && disk == PutAll(d, Writes(recs[..j]))
      {
        RawWrite(ToHome(recs[j].lba, recs[j].data));
        assert Writes(recs[..j + 1]) == Writes(recs[..j]) + [ToHome(recs[j].lba, recs[j].data)];
        PutAllSnoc(d, Writes(recs[..j]), ToHome(recs[j].lba, recs[j].data));
        j := j + 1;
      }
      assert recs[..j] == recs;
    }

    /** The journal's part of `mount` on a booting machine: what a mount leaves on the device and in
        the log is `Mounted`. */
    method Mount() returns (replayed: bool)
      requires Valid() && State() == Mem(0, 0, 0, 0, 0, 1)
      requires NumsDistinct(disk, Generation(disk)) && AllHome(disk, Generation(disk))
      modifies this
      ensures Valid() && replayed == FlagSet(old(disk))
      ensures disk == Mounted(old(disk)).disk && State() == Mounted(old(disk)).mem
    {
      ghost var d := disk;
      Init();
      MountIgnoresHeader(d, disk, gen);
      replayed := 0 in disk.home && Dirty(disk.home[0]);
      if replayed {
        MaxIgnoresHeader(d, disk, gen, n);
        Recover();
        RcvIgnoresHeader(d, Stamped(d), gen);
      }
    }

    method Recover()
      requires Valid() && NumsDistinct(disk, gen) && AllHome(disk, gen) && next == MaxNum(disk, gen, n) + 1
      modifies this
      ensures Valid() && disk == old(disk).(home := Rcv(old(disk), gen)) && State() == old(State())
    {
      ghost var d := disk;
      ghost var ws;
      var applied, max;
      applied, max, ws := Replay();
      ReplayGivesRcv(d, gen, ws);
      MaxNumCovers(d, gen, n);
    }
  }

  /** `max` is the greatest number a replay applies, 0 when it applies nothing. */
  predicate IsLast(d: Disk, g: nat, max: nat)
    requires Formed(d)
  {
    && (forall i :: 0 <= i < |d.heads| && Applies(d, g, i) ==> d.heads[i].num <= max)
    && (max != 0 ==> exists i :: 0 <= i < |d.heads| && Applies(d, g, i) && d.heads[i].num == max)
  }

  lemma LastIsMax(d: Disk, g: nat, recs: seq<Item>)
    requires Formed(d) && InOrder(d, g, recs)
    ensures IsLast(d, g, if recs == [] then 0 else recs[|recs| - 1].num)
  {
    forall i | 0 <= i < |d.heads| && Applies(d, g, i)
      ensures recs != [] && d.heads[i].num <= recs[|recs| - 1].num
    {
      assert FromApplicable(d, g, ItemAt(d, i));
      assert ItemAt(d, i) in recs;
    }
    if recs != [] {
      assert recs[|recs| - 1] in recs;
      assert FromApplicable(d, g, recs[|recs| - 1]);
    }
  }

  lemma ReplayGivesRcv(d: Disk, g: nat, ws: seq<Write>)
    requires Formed(d) && AllHome(d, g) && IsReplay(d, g, ws)
    ensures PutAll(d, ws) == d.(home := Rcv(d, g))
  {
    ReplayIdempotent(d, g, ws, |ws|);
    assert ws[..|ws|] == ws;
  }

  lemma {:induction false} MaxNumCovers(d: Disk, g: nat, k: nat)
    requires k <= |d.heads|
    ensures forall i :: 0 <= i < k && IsCurrent(d, g, i) ==> d.heads[i].num <= MaxNum(d, g, k)
  {
    if k > 0 {
      MaxNumCovers(d, g, k - 1);
    }
  }

  lemma MountIgnoresHeader(d: Disk, e: Disk, g: nat)
    requires Formed(d) && e == d.(hdr := e.hdr) && NumsDistinct(d, g) && AllHome(d, g)
    ensures NumsDistinct(e, g) && AllHome(e, g)
  {
    assert forall i: nat :: i < |d.heads| ==> (IsCurrent(e, g, i) <==> IsCurrent(d, g, i));
    SameRing(d, e, g, |d.heads|);
    assert forall i: nat :: i < |d.heads| && Applies(e, g, i) ==> Applies(d, g, i);
  }

  lemma {:induction false} MaxIgnoresHeader(d: Disk, e: Disk, g: nat, k: nat)
    requires e.heads == d.heads && k <= |d.heads|
    ensures MaxNum(e, g, k) == MaxNum(d, g, k)
  {
    if k > 0 {
      MaxIgnoresHeader(d, e, g, k - 1);
    }
  }

  lemma RcvIgnoresHeader(d: Disk, e: Disk, g: nat)
    requires Formed(d) && e.heads == d.heads && e.bodies == d.bodies && e.home == d.home
    ensures Rcv(e, g) == Rcv(d, g)
  {
    forall x | x in d.home ensures RcvAt(e, g, x) == RcvAt(d, g, x) {
      SameNewest(d, e, g, x, |d.heads|);
    }
  }
}
