/** The kernel heap as the tiles it is cut into, free and live. */
module HeapTiles {
  datatype Tile = Tile(addr: nat, size: nat, free: bool)

  type Tiles = seq<Tile>

  const HEADER: nat := 16

  predicate Contiguous(ts: Tiles, lo: nat, hi: nat) {
    if ts == [] then lo == hi
    else
      ts[0].addr == lo && ts[0].size >= HEADER && ts[0].addr % HEADER == 0
      && Contiguous(ts[1..], lo + ts[0].size, hi)
  }

  /** No two free tiles touch. */
  predicate Coalesced(ts: Tiles) {
    forall i :: 0 <= i < |ts| - 1 ==> !BothFree(ts, i)
  }

  predicate BothFree(ts: Tiles, i: nat)
    requires i + 1 < |ts|
  {
    ts[i].free && ts[i + 1].free
  }

  predicate Good(ts: Tiles, lo: nat, hi: nat) {
    Contiguous(ts, lo, hi) && Coalesced(ts)
  }

  // ---- contiguity ----

  lemma {:induction false} ContiguousParts(a: Tiles, b: Tiles, lo: nat, hi: nat) returns (mid: nat)
    requires Contiguous(a + b, lo, hi)
    ensures Contiguous(a, lo, mid) && Contiguous(b, mid, hi) && mid <= hi && lo <= mid
  {
    if a == [] {
      assert a + b == b;
      mid := lo;
      ContiguousUp(b, lo, hi);
    } else {
      assert (a + b)[1..] == a[1..] + b;
      mid := ContiguousParts(a[1..], b, lo + a[0].size, hi);
    }
  }

  lemma {:induction false} ContiguousUp(ts: Tiles, lo: nat, hi: nat)
    requires Contiguous(ts, lo, hi)
    ensures lo <= hi && (ts != [] ==> lo < hi)
  {
    if ts != [] {
      ContiguousUp(ts[1..], lo + ts[0].size, hi);
    }
  }

  lemma {:induction false} ContiguousJoin(a: Tiles, b: Tiles, lo: nat, mid: nat, hi: nat)
    requires Contiguous(a, lo, mid) && Contiguous(b, mid, hi)
    ensures Contiguous(a + b, lo, hi)
  {
    if a == [] {
      assert a + b == b;
    } else {
      ContiguousJoin(a[1..], b, lo + a[0].size, mid, hi);
      assert (a + b)[1..] == a[1..] + b;
    }
  }

  /** Part of the tiles cut again differently. */
  lemma Recut(a: Tiles, b: Tiles, b': Tiles, c: Tiles, lo: nat, hi: nat)
    requires Contiguous(a + b + c, lo, hi)
    requires forall l: nat, h: nat :: Contiguous(b, l, h) ==> Contiguous(b', l, h)
    ensures Contiguous(a + b' + c, lo, hi)
  {
    var m2 := ContiguousParts(a + b, c, lo, hi);
    var m1 := ContiguousParts(a, b, lo, m2);
    ContiguousJoin(a, b', lo, m1, m2);
    ContiguousJoin(a + b', c, lo, m2, hi);
  }

  /** Later tiles lie at or past the end of earlier ones. */
  lemma {:induction false} Ordered(ts: Tiles, lo: nat, hi: nat, i: nat, j: nat)
    requires Contiguous(ts, lo, hi) && i < j < |ts|
    ensures ts[i].addr + ts[i].size <= ts[j].addr && (j == i + 1 ==> ts[j].addr == ts[i].addr + ts[i].size)
    ensures j > i + 1 ==> ts[i].addr + ts[i].size < ts[j].addr
  {
    if i == 0 {
      AtLeast(ts[1..], lo + ts[0].size, hi, j - 1);
    } else {
      Ordered(ts[1..], lo + ts[0].size, hi, i - 1, j - 1);
    }
  }

  lemma {:induction false} AtLeast(ts: Tiles, lo: nat, hi: nat, j: nat)
    requires Contiguous(ts, lo, hi) && j < |ts|
    ensures lo <= ts[j].addr && (j == 0 ==> lo == ts[j].addr) && (j > 0 ==> lo < ts[j].addr)
    ensures ts[j].size >= HEADER && ts[j].addr % HEADER == 0 && ts[j].addr + ts[j].size <= hi
  {
    if j > 0 {
      AtLeast(ts[1..], lo + ts[0].size, hi, j - 1);
    } else {
      ContiguousUp(ts[1..], lo + ts[0].size, hi);
    }
  }

  lemma Ascending(ts: Tiles, lo: nat, hi: nat)
    requires Contiguous(ts, lo, hi)
    ensures forall i, j :: 0 <= i < j < |ts| ==> ts[i].addr < ts[j].addr
    ensures forall i :: 0 <= i < |ts| ==> lo <= ts[i].addr && ts[i].size >= HEADER
  {
    forall i, j | 0 <= i < j < |ts| ensures ts[i].addr < ts[j].addr {
      AtLeast(ts, lo, hi, i);
      Ordered(ts, lo, hi, i, j);
    }
    forall i | 0 <= i < |ts| ensures lo <= ts[i].addr && ts[i].size >= HEADER {
      AtLeast(ts, lo, hi, i);
    }
  }

  // ---- allocation ----

  /** `(size + 15) & !15` and the header. */
  function Need(size: nat): (n: nat)
    ensures n % HEADER == 0 && n >= HEADER && size + HEADER <= n < size + 2 * HEADER
  {
    (size + 15) / 16 * 16 + 16
  }

  predicate Fits(t: Tile, need: nat) {
    t.free && t.size >= need
  }

  /** The first free tile that is large enough, or the number of tiles. */
  function FirstFit(ts: Tiles, need: nat): (i: nat)
    ensures i <= |ts| && (i < |ts| ==> Fits(ts[i], need))
    ensures forall j :: 0 <= j < i ==> !Fits(ts[j], need)
  {
    if ts == [] || Fits(ts[0], need) then 0 else 1 + FirstFit(ts[1..], need)
  }

  /** Tile `i` made live: its front if the rest can hold a node of its own, else the whole. */
  function Taken(t: Tile, need: nat): Tiles
    requires Fits(t, need)
  {
    if t.size >= need + HEADER then [Tile(t.addr, need, false), Tile(t.addr + need, t.size - need, true)]
    else [t.(free := false)]
  }

  function AllocAt(ts: Tiles, i: nat, need: nat): Tiles
    requires i < |ts| && Fits(ts[i], need)
  {
    ts[..i] + Taken(ts[i], need) + ts[i + 1..]
  }

  lemma AllocGood(ts: Tiles, lo: nat, hi: nat, i: nat, need: nat)
    requires Good(ts, lo, hi) && i < |ts| && Fits(ts[i], need) && need % HEADER == 0 && need >= HEADER
    ensures Good(AllocAt(ts, i, need), lo, hi)
  {
    var ts' := AllocAt(ts, i, need);
    var cut := Taken(ts[i], need);
    assert ts == ts[..i] + [ts[i]] + ts[i + 1..];
    forall l: nat, h: nat | Contiguous([ts[i]], l, h) ensures Contiguous(cut, l, h) {
      assert [ts[i]][1..] == [];
      if |cut| == 2 {
        assert cut[1..] == [cut[1]] && cut[1..][1..] == [];
      } else {
        assert cut[1..] == [];
      }
    }
    Recut(ts[..i], [ts[i]], cut, ts[i + 1..], lo, hi);
    forall k | 0 <= k < |ts'| - 1 ensures !BothFree(ts', k) {
      if k + 1 < i {
        assert !BothFree(ts, k);
      } else if k >= i + |cut| {
        assert !BothFree(ts, k - |cut| + 1);
      } else if k == i + |cut| - 1 && |cut| == 2 {
        assert !BothFree(ts, i);
      }
    }
  }

  // ---- freeing ----

  function MergeRight(ts: Tiles, i: nat): Tiles
    requires i < |ts|
  {
    if i + 1 < |ts| && ts[i + 1].free then
      ts[..i] + [ts[i].(size := ts[i].size + ts[i + 1].size)] + ts[i + 2..]
    else ts
  }

  function MergeLeft(ts: Tiles, i: nat): Tiles
    requires i < |ts|
  {
    if i > 0 && ts[i - 1].free then
      ts[..i - 1] + [ts[i - 1].(size := ts[i - 1].size + ts[i].size)] + ts[i + 1..]
    else ts
  }

  /** Tile `i` freed and merged with its free neighbours. */
  function FreeAt(ts: Tiles, i: nat): Tiles
    requires i < |ts|
  {
    MergeLeft(MergeRight(ts[i := ts[i].(free := true)], i), i)
  }

  lemma MergePair(a: Tile, b: Tile, m: Tile)
    requires m == a.(size := a.size + b.size)
    ensures forall l: nat, h: nat :: Contiguous([a, b], l, h) ==> Contiguous([m], l, h)
  {
    forall l: nat, h: nat | Contiguous([a, b], l, h) ensures Contiguous([m], l, h) {
      assert [a, b][1..] == [b] && [b][1..] == [] && [m][1..] == [];
      assert Contiguous([b], l + a.size, h);
      assert Contiguous([], l + m.size, h);
    }
  }

  lemma MergeRightContiguous(ts: Tiles, lo: nat, hi: nat, i: nat)
    requires Contiguous(ts, lo, hi) && i < |ts|
    ensures Contiguous(MergeRight(ts, i), lo, hi)
  {
    if i + 1 < |ts| && ts[i + 1].free {
      assert ts == ts[..i] + [ts[i], ts[i + 1]] + ts[i + 2..];
      var m := ts[i].(size := ts[i].size + ts[i + 1].size);
      MergePair(ts[i], ts[i + 1], m);
      Recut(ts[..i], [ts[i], ts[i + 1]], [m], ts[i + 2..], lo, hi);
    }
  }

  lemma MergeLeftContiguous(ts: Tiles, lo: nat, hi: nat, i: nat)
    requires Contiguous(ts, lo, hi) && i < |ts|
    ensures Contiguous(MergeLeft(ts, i), lo, hi)
  {
    if i > 0 && ts[i - 1].free {
      assert ts == ts[..i - 1] + [ts[i - 1], ts[i]] + ts[i + 1..];
      var m := ts[i - 1].(size := ts[i - 1].size + ts[i].size);
      MergePair(ts[i - 1], ts[i], m);
      Recut(ts[..i - 1], [ts[i - 1], ts[i]], [m], ts[i + 1..], lo, hi);
    }
  }

  lemma FreeGood(ts: Tiles, lo: nat, hi: nat, i: nat)
    requires Good(ts, lo, hi) && i < |ts| && !ts[i].free
    ensures Good(FreeAt(ts, i), lo, hi)
  {
    var t0 := ts[i := ts[i].(free := true)];
    assert ts == ts[..i] + [ts[i]] + ts[i + 1..] && t0 == ts[..i] + [t0[i]] + ts[i + 1..];
    forall l: nat, h: nat | Contiguous([ts[i]], l, h) ensures Contiguous([t0[i]], l, h) {
      assert [ts[i]][1..] == [] && [t0[i]][1..] == [];
    }
    Recut(ts[..i], [ts[i]], [t0[i]], ts[i + 1..], lo, hi);
    MergeRightContiguous(t0, lo, hi, i);
    MergeLeftContiguous(MergeRight(t0, i), lo, hi, i);
    FreeCoalesced(ts, i);
  }

  lemma FreeCoalesced(ts: Tiles, i: nat)
    requires Coalesced(ts) && i < |ts| && !ts[i].free
    ensures Coalesced(FreeAt(ts, i))
  {
    var t1 := MergeRight(ts[i := ts[i].(free := true)], i);
    var r := |ts| - |t1|;
    forall k | 0 <= k < |t1| - 1 && k + 1 != i ensures !BothFree(t1, k) {
      if k + 1 < i {
        assert !BothFree(ts, k);
      } else {
        assert !BothFree(ts, k + r);
      }
    }
    var t2 := MergeLeft(t1, i);
    var l := |t1| - |t2|;
    forall k | 0 <= k < |t2| - 1 ensures !BothFree(t2, k) {
      if k + 1 < i {
        assert !BothFree(t1, k);
      } else if l == 1 {
        assert !BothFree(t1, k + 1);
      } else if k + 1 > i {
        assert !BothFree(t1, k);
      }
    }
  }

  /** Freeing what was just allocated restores the heap. */
  lemma AllocFree(ts: Tiles, i: nat, need: nat)
    requires Coalesced(ts) && i < |ts| && Fits(ts[i], need)
    ensures i < |AllocAt(ts, i, need)| && FreeAt(AllocAt(ts, i, need), i) == ts
  {
    var ts' := AllocAt(ts, i, need);
    var t0 := ts'[i := ts'[i].(free := true)];
    if i > 0 {
      assert !BothFree(ts, i - 1);
    }
    if i + 1 < |ts| {
      assert !BothFree(ts, i);
    }
    assert MergeRight(t0, i) == ts;
  }

  // ---- sums ----

  function Total(ts: Tiles, free: bool): nat {
    if ts == [] then 0 else (if ts[0].free == free then ts[0].size else 0) + Total(ts[1..], free)
  }

  /** Free and live sizes together are the heap. */
  lemma {:induction false} Conserved(ts: Tiles, lo: nat, hi: nat)
    requires Contiguous(ts, lo, hi)
    ensures Total(ts, true) + Total(ts, false) == hi - lo
  {
    if ts != [] {
      Conserved(ts[1..], lo + ts[0].size, hi);
    }
  }

  /** With nothing live the heap is the one node it began as. */
  lemma AllFree(ts: Tiles, lo: nat, hi: nat)
    requires Good(ts, lo, hi) && lo < hi && NoneLive(ts)
    ensures ts == [Tile(lo, hi - lo, true)]
  {
    if |ts| > 1 {
      FirstTwo(ts);
    } else {
      assert ts[1..] == [] && Contiguous([], lo + ts[0].size, hi);
    }
  }

  lemma FirstTwo(ts: Tiles)
    requires Coalesced(ts) && |ts| > 1
    ensures !ts[0].free || !ts[1].free
  {
    assert !BothFree(ts, 0);
  }

  predicate NoneLive(ts: Tiles) {
    forall i :: 0 <= i < |ts| ==> ts[i].free
  }

  // ---- runs ----

  datatype Op = Alloc(size: nat) | Free(addr: nat)

  function FindLive(ts: Tiles, addr: nat): (i: nat)
    ensures i <= |ts| && (i < |ts| ==> ts[i].addr == addr && !ts[i].free)
    ensures i == |ts| ==> forall t :: t in ts && t.addr == addr ==> t.free
  {
    if ts == [] || (ts[0].addr == addr && !ts[0].free) then 0 else 1 + FindLive(ts[1..], addr)
  }

  /** One call; freeing anything but a live block is not a call this allocator allows. */
  function Step(ts: Tiles, op: Op): Tiles {
    match op
    case Alloc(size) =>
      var i := FirstFit(ts, Need(size));
      if i < |ts| then AllocAt(ts, i, Need(size)) else ts
    case Free(addr) =>
      var i := FindLive(ts, addr);
      if i < |ts| then FreeAt(ts, i) else ts
  }

  function Run(ts: Tiles, ops: seq<Op>): Tiles
    decreases ops
  {
    if ops == [] then ts else Run(Step(ts, ops[0]), ops[1..])
  }

  lemma {:induction false} RunGood(ts: Tiles, lo: nat, hi: nat, ops: seq<Op>)
    requires Good(ts, lo, hi)
    ensures Good(Run(ts, ops), lo, hi)
    decreases ops
  {
    if ops != [] {
      match ops[0] {
        case Alloc(size) =>
          var i := FirstFit(ts, Need(size));
          if i < |ts| {
            AllocGood(ts, lo, hi, i, Need(size));
          }
        case Free(addr) =>
          var i := FindLive(ts, addr);
          if i < |ts| {
            FreeGood(ts, lo, hi, i);
          }
      }
      RunGood(Step(ts, ops[0]), lo, hi, ops[1..]);
    }
  }

  /** However a heap was used, once nothing is live it is the single node again. */
  lemma FreedIsInitial(lo: nat, hi: nat, ops: seq<Op>)
    requires lo % HEADER == 0 && lo + HEADER <= hi
    requires NoneLive(Run([Tile(lo, hi - lo, true)], ops))
    ensures Run([Tile(lo, hi - lo, true)], ops) == [Tile(lo, hi - lo, true)]
  {
    var ts := [Tile(lo, hi - lo, true)];
    assert ts[1..] == [];
    RunGood(ts, lo, hi, ops);
    AllFree(Run(ts, ops), lo, hi);
  }
}
