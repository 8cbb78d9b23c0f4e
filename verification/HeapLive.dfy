/** The live blocks of the heap, which is all there is to it: what allocating and freeing do to them. */
module HeapLive {
  import opened HeapTiles

  /** Where a live block is, header included, and how long it is. */
  datatype Block = Block(addr: nat, size: nat)

  function Live(ts: Tiles): set<Block> {
    set i | 0 <= i < |ts| && !ts[i].free :: Block(ts[i].addr, ts[i].size)
  }

  lemma LiveIn(ts: Tiles, i: nat)
    requires i < |ts| && !ts[i].free
    ensures Block(ts[i].addr, ts[i].size) in Live(ts)
  {
  }

  /** A live block among the tiles with one stretch replaced. */
  lemma LiveReplaced(a: Tiles, b: Tiles, c: Tiles, x: Block)
    ensures x in Live(a + b + c) <==> x in Live(a) || x in Live(b) || x in Live(c)
  {
    var ts := a + b + c;
    if x in Live(ts) {
      var i :| 0 <= i < |ts| && !ts[i].free && Block(ts[i].addr, ts[i].size) == x;
      if i < |a| {
        LiveIn(a, i);
      } else if i < |a| + |b| {
        LiveIn(b, i - |a|);
      } else {
        LiveIn(c, i - |a| - |b|);
      }
    }
    if x in Live(a) {
      var i :| 0 <= i < |a| && !a[i].free && Block(a[i].addr, a[i].size) == x;
      assert ts[i] == a[i];
    }
    if x in Live(b) {
      var i :| 0 <= i < |b| && !b[i].free && Block(b[i].addr, b[i].size) == x;
      assert ts[|a| + i] == b[i];
    }
    if x in Live(c) {
      var i :| 0 <= i < |c| && !c[i].free && Block(c[i].addr, c[i].size) == x;
      assert ts[|a| + |b| + i] == c[i];
    }
  }

  lemma Cut(a: Tiles, b: Tiles, b': Tiles, c: Tiles)
    requires Live(b) == {}
    ensures Live(a + b' + c) == Live(a + b + c) + Live(b')
  {
    forall x ensures x in Live(a + b' + c) <==> x in Live(a + b + c) + Live(b') {
      LiveReplaced(a, b, c, x);
      LiveReplaced(a, b', c, x);
    }
  }

  /** How much of a gap an allocation takes. */
  function Got(t: Tile, need: nat): nat {
    if t.size < need + HEADER then t.size else need
  }

  lemma TakenLive(t: Tile, need: nat)
    requires Fits(t, need)
    ensures Live(Taken(t, need)) == {Block(t.addr, Got(t, need))}
  {
    var cut := Taken(t, need);
    LiveIn(cut, 0);
    forall x | x in Live(cut) ensures x == Block(t.addr, Got(t, need)) {
      var i :| 0 <= i < |cut| && !cut[i].free && Block(cut[i].addr, cut[i].size) == x;
    }
  }

  lemma AllocAtLive(ts: Tiles, i: nat, need: nat)
    requires i < |ts| && Fits(ts[i], need)
    ensures Live(AllocAt(ts, i, need)) == Live(ts) + {Block(ts[i].addr, Got(ts[i], need))}
  {
    assert ts == ts[..i] + [ts[i]] + ts[i + 1..];
    assert Live([ts[i]]) == {};
    Cut(ts[..i], [ts[i]], Taken(ts[i], need), ts[i + 1..]);
    TakenLive(ts[i], need);
  }

  /** Allocating adds one block, at the front of the first gap that is long enough, of the size needed, or of the
      whole gap if what would be left could not hold a header; all others stay where they are. */
  lemma AllocLive(ts: Tiles, size: nat)
    ensures var i := FirstFit(ts, Need(size));
            var ts' := Step(ts, Alloc(size));
            if i == |ts| then ts' == ts
            else
              && Live(ts') == Live(ts) + {Block(ts[i].addr, Got(ts[i], Need(size)))}
              && Need(size) <= Got(ts[i], Need(size)) < Need(size) + HEADER
  {
    var i := FirstFit(ts, Need(size));
    if i < |ts| {
      AllocAtLive(ts, i, Need(size));
    }
  }

  lemma MergedLive(a: Tiles, b: Tiles, m: Tile, c: Tiles)
    requires m.free && forall i :: 0 <= i < |b| ==> b[i].free
    ensures Live(a + [m] + c) == Live(a + b + c)
  {
    Cut(a, b, [m], c);
    assert Live([m]) == {};
  }

  lemma MergeRightLive(ts: Tiles, i: nat)
    requires i < |ts| && ts[i].free
    ensures Live(MergeRight(ts, i)) == Live(ts)
  {
    if i + 1 < |ts| && ts[i + 1].free {
      var b := [ts[i], ts[i + 1]];
      assert ts == ts[..i] + b + ts[i + 2..];
      MergedLive(ts[..i], b, ts[i].(size := ts[i].size + ts[i + 1].size), ts[i + 2..]);
    }
  }

  lemma MergeLeftLive(ts: Tiles, i: nat)
    requires i < |ts| && ts[i].free
    ensures Live(MergeLeft(ts, i)) == Live(ts)
  {
    if i > 0 && ts[i - 1].free {
      var b := [ts[i - 1], ts[i]];
      assert ts == ts[..i - 1] + b + ts[i + 1..];
      MergedLive(ts[..i - 1], b, ts[i - 1].(size := ts[i - 1].size + ts[i].size), ts[i + 1..]);
    }
  }

  lemma OnlyOneAt(ts: Tiles, lo: nat, hi: nat, i: nat, j: nat)
    requires Contiguous(ts, lo, hi) && i < |ts| && j < |ts| && ts[i].addr == ts[j].addr
    ensures i == j
  {
    if i < j {
      Ordered(ts, lo, hi, i, j);
      AtLeast(ts, lo, hi, i);
    } else if j < i {
      Ordered(ts, lo, hi, j, i);
      AtLeast(ts, lo, hi, j);
    }
  }

  /** Freeing a live block removes that block and no other. */
  lemma FreeLive(ts: Tiles, lo: nat, hi: nat, addr: nat)
    requires Good(ts, lo, hi)
    ensures var i := FindLive(ts, addr);
            var ts' := Step(ts, Free(addr));
            if i == |ts| then ts' == ts
            else Live(ts') == Live(ts) - {Block(addr, ts[i].size)} && Block(addr, ts[i].size) in Live(ts)
  {
    var i := FindLive(ts, addr);
    if i < |ts| {
      var x := Block(addr, ts[i].size);
      LiveIn(ts, i);
      var t0 := ts[i := ts[i].(free := true)];
      assert ts == ts[..i] + [ts[i]] + ts[i + 1..] && t0 == ts[..i] + [t0[i]] + ts[i + 1..];
      assert Live([t0[i]]) == {} && Live([ts[i]]) == {x};
      Cut(ts[..i], [t0[i]], [ts[i]], ts[i + 1..]);
      forall j | 0 <= j < |t0| && !t0[j].free ensures Block(t0[j].addr, t0[j].size) != x {
        if t0[j].addr == addr {
          OnlyOneAt(ts, lo, hi, i, j);
        }
      }
      assert x !in Live(t0);
      MergeRightLive(t0, i);
      MergeLeftLive(MergeRight(t0, i), i);
    }
  }

  lemma StepStays(ts: Tiles, lo: nat, hi: nat, op: Op, x: Block)
    requires Good(ts, lo, hi) && x in Live(ts) && op != Free(x.addr)
    ensures Good(Step(ts, op), lo, hi) && x in Live(Step(ts, op))
  {
    RunGood(ts, lo, hi, [op]);
    assert Run(ts, [op]) == Step(ts, op) by {
      assert [op][1..] == [];
    }
    match op
    case Alloc(size) => AllocLive(ts, size);
    case Free(addr) => FreeLive(ts, lo, hi, addr);
  }

  /** Until it is freed a live block stays where it is, as long as it is, whatever is allocated and freed around it. */
  lemma {:induction false} LiveStays(ts: Tiles, lo: nat, hi: nat, ops: seq<Op>, x: Block)
    requires Good(ts, lo, hi) && x in Live(ts) && Free(x.addr) !in ops
    ensures x in Live(Run(ts, ops))
    decreases |ops|
  {
    if ops != [] {
      StepStays(ts, lo, hi, ops[0], x);
      LiveStays(Step(ts, ops[0]), lo, hi, ops[1..], x);
    }
  }

  // ---- nothing else matters ----

  /** The end of the run of free tiles that `ts` begins with. */
  lemma FirstTile(ts: Tiles, lo: nat, hi: nat)
    requires Good(ts, lo, hi) && ts != []
    ensures Good(ts[1..], lo + ts[0].size, hi)
    ensures ts[0].free && |ts| > 1 ==> !ts[1].free && ts[1].addr == lo + ts[0].size
    ensures ts[0].free && |ts| == 1 ==> hi == lo + ts[0].size
  {
    if |ts| > 1 {
      assert !BothFree(ts, 0);
    } else {
      assert ts[1..] == [];
    }
    forall k | 0 <= k < |ts[1..]| - 1 ensures !BothFree(ts[1..], k) {
      assert !BothFree(ts, k + 1);
    }
  }

  lemma LiveRest(ts: Tiles, lo: nat, hi: nat)
    requires Contiguous(ts, lo, hi) && ts != []
    ensures Live(ts[1..]) == set x | x in Live(ts) && x.addr != lo
  {
    forall x ensures x in Live(ts[1..]) <==> x in Live(ts) && x.addr != lo {
      assert ts == [] + [ts[0]] + ts[1..];
      LiveReplaced([], [ts[0]], ts[1..], x);
      if x in Live(ts[1..]) {
        var i :| 0 <= i < |ts[1..]| && !ts[1..][i].free && Block(ts[1..][i].addr, ts[1..][i].size) == x;
        AtLeast(ts, lo, hi, i + 1);
      }
    }
  }

  /** The live blocks fix the whole heap: two heaps of one range with the same live blocks are the same. */
  lemma {:induction false} LiveDecides(ts: Tiles, us: Tiles, lo: nat, hi: nat)
    requires Good(ts, lo, hi) && Good(us, lo, hi) && Live(ts) == Live(us)
    ensures ts == us
    decreases |ts|
  {
    if ts == [] || us == [] {
      ContiguousUp(ts, lo, hi);
      ContiguousUp(us, lo, hi);
    } else {
      SameFirst(ts, us, lo, hi);
      FirstTile(ts, lo, hi);
      FirstTile(us, lo, hi);
      LiveRest(ts, lo, hi);
      LiveRest(us, lo, hi);
      LiveDecides(ts[1..], us[1..], lo + ts[0].size, hi);
    }
  }

  lemma LiveAt(ts: Tiles, lo: nat, hi: nat, x: Block) returns (i: nat)
    requires Contiguous(ts, lo, hi) && x in Live(ts)
    ensures i < |ts| && !ts[i].free && ts[i].addr == x.addr && ts[i].size == x.size
  {
    i :| i < |ts| && !ts[i].free && Block(ts[i].addr, ts[i].size) == x;
  }

  /** A live first tile is first in every heap with the same live blocks. */
  lemma LiveFirst(ts: Tiles, us: Tiles, lo: nat, hi: nat)
    requires Good(ts, lo, hi) && Good(us, lo, hi) && Live(ts) == Live(us) && ts != [] && us != [] && !ts[0].free
    ensures ts[0] == us[0]
  {
    LiveIn(ts, 0);
    var i := LiveAt(us, lo, hi, Block(ts[0].addr, ts[0].size));
    OnlyOneAt(us, lo, hi, 0, i);
  }

  /** The first gap of one is no longer than that of the other. */
  lemma GapAtMost(ts: Tiles, us: Tiles, lo: nat, hi: nat)
    requires Good(ts, lo, hi) && Good(us, lo, hi) && Live(ts) == Live(us) && ts != [] && us != []
    requires ts[0].free && us[0].free
    ensures us[0].size <= ts[0].size
  {
    FirstTile(ts, lo, hi);
    if |ts| > 1 {
      LiveIn(ts, 1);
      var i := LiveAt(us, lo, hi, Block(ts[1].addr, ts[1].size));
      Ordered(us, lo, hi, 0, i);
    } else {
      AtLeast(us, lo, hi, 0);
    }
  }

  lemma SameFirst(ts: Tiles, us: Tiles, lo: nat, hi: nat)
    requires Good(ts, lo, hi) && Good(us, lo, hi) && Live(ts) == Live(us) && ts != [] && us != []
    ensures ts[0] == us[0]
  {
    if !ts[0].free {
      LiveFirst(ts, us, lo, hi);
    } else if !us[0].free {
      LiveFirst(us, ts, lo, hi);
    } else {
      GapAtMost(ts, us, lo, hi);
      GapAtMost(us, ts, lo, hi);
    }
  }
}
