/** `rebuild_bitmap`: the bitmap recomputed from the inode trees. */
module FsRebuild {
  import opened Wrappers
  import opened FsTree
  import opened FsLink
  import opened FsFile
  import opened FsLayout
  import opened FsDisk
  import opened FsFree
  import opened FsReclaim

  function Span(a: nat, b: nat): (s: set<nat>)
    ensures forall x :: x in s <==> a <= x < b
    decreases b
  {
    if b <= a then {} else Span(a, b - 1) + {b - 1}
  }

  lemma SpanMore(a: nat, b: nat, on: set<nat>)
    requires a <= b
    ensures on + Span(a, b) + {b} == on + Span(a, b + 1)
    ensures on + Span(a, a) == on
  {
  }

  /** The trees of the inodes. */
  function TreeList(f: Fs): (ts: seq<set<nat>>)
    ensures |ts| == |f.inos|
  {
    seq(|f.inos|, i requires 0 <= i < |f.inos| => TreeOf(f, i))
  }

  /** `mark` */
  method Mark(d: Disk, b: nat, ghost f: Fs, ghost on: set<nat>)
    requires d.Valid() && b < d.l.g.blocks && d.V() == Marking(f, on) && |f.bits| == d.l.g.blocks
    modifies d`sectors, d`log
    ensures Grew(d.l, old(d.log), d.log)
    ensures d.Valid() && d.V() == Marking(f, on + {b}) && |d.log| == |old(d.log)| + 1
  {
    d.PutBit(b, true);
    MarkMore(f, on, b);
  }

  method MarkSpan(d: Disk, lo: nat, hi: nat, ghost f: Fs, ghost on: set<nat>)
    requires d.Valid() && lo <= hi <= d.l.g.blocks && d.V() == Marking(f, on) && |f.bits| == d.l.g.blocks
    modifies d`sectors, d`log
    ensures Grew(d.l, old(d.log), d.log)
    ensures d.Valid() && d.V() == Marking(f, on + Span(lo, hi)) && |d.log| == |old(d.log)| + (hi - lo)
  {
    var b := lo;
    SpanMore(lo, lo, on);
    while b < hi
      invariant Grew(d.l, old(d.log), d.log)
      invariant lo <= b <= hi && d.Valid() && d.V() == Marking(f, on + Span(lo, b))
      invariant |d.log| == |old(d.log)| + (b - lo)
    {
      Mark(d, b, f, on + Span(lo, b));
      SpanMore(lo, b, on);
      b := b + 1;
    }
  }

  method MarkIf(d: Disk, b: nat, ghost f: Fs, ghost was: set<nat>, ghost now: set<nat>)
    requires d.Valid() && b < d.l.g.blocks && d.V() == Marking(f, was) && |f.bits| == d.l.g.blocks
    requires now == was + if b == 0 then {} else {b}
    modifies d`sectors, d`log
    ensures Grew(d.l, old(d.log), d.log)
    ensures d.Valid() && d.V() == Marking(f, now)
  {
    if b != 0 {
      Mark(d, b, f, was);
    } else {
      assert now == was;
    }
  }

  lemma EntriesOn(f: Fs, x: nat, k: nat, on: set<nat>)
    requires k < PPB
    ensures on + Entries(f, x, k + 1) == on + Entries(f, x, k) + if Below(f, x, k) == 0 then {} else {Below(f, x, k)}
  {
    EntriesMore(f, x, k);
  }

  lemma DirectsOn(n: Ino, k: nat, on: set<nat>)
    requires |n.direct| == 8 && k < 8
    ensures on + Directs(n, k + 1) == on + Directs(n, k) + if n.direct[k] == 0 then {} else {n.direct[k]}
  {
    DirectsMore(n, k);
  }

  method MarkEntries(d: Disk, ghost x: nat, blk: Block, ghost f: Fs, ghost on: set<nat>)
    requires d.Valid() && d.V() == Marking(f, on) && |f.bits| == d.l.g.blocks && |f.blocks| == d.l.g.blocks
    requires x != 0 && TableWithin(d.l.g, f, x) && x < |f.blocks| && blk == f.blocks[x]
    modifies d`sectors, d`log
    ensures Grew(d.l, old(d.log), d.log)
    ensures d.Valid() && d.V() == Marking(f, on + Entries(f, x, PPB))
  {
    var k := 0;
    assert on + Entries(f, x, 0) == on;
    while k < PPB
      invariant Grew(d.l, old(d.log), d.log)
      invariant k <= PPB && d.Valid() && d.V() == Marking(f, on + Entries(f, x, k))
    {
      EntriesOn(f, x, k, on);
      MarkIf(d, Ptr(blk, k), f, on + Entries(f, x, k), on + Entries(f, x, k + 1));
      k := k + 1;
    }
  }

  /** A pointer block and its entries: `rebuild_bitmap` marks the block before it reads the entries. */
  method MarkTable(d: Disk, x: nat, ghost f: Fs, ghost on: set<nat>)
    requires d.Valid() && d.V() == Marking(f, on) && |f.bits| == d.l.g.blocks && |f.blocks| == d.l.g.blocks
    requires x != 0 && TableWithin(d.l.g, f, x)
    modifies d`sectors, d`log
    ensures Grew(d.l, old(d.log), d.log)
    ensures d.Valid() && d.V() == Marking(f, on + Table(f, x))
  {
    Mark(d, x, f, on);
    var blk := d.ReadData(x);
    MarkEntries(d, x, blk, f, on + {x});
    assert on + {x} + Entries(f, x, PPB) == on + Table(f, x);
  }

  method MarkEntry(d: Disk, blk: Block, ghost i: nat, ghost x: nat, k: nat, ghost f: Fs, ghost was: set<nat>,
                   ghost now: set<nat>)
    requires d.Valid() && Disjoint(d.l.g, f) && Live(f, i) && x == f.inos[i].dind
    requires k < PPB && 0 < x < |f.blocks| && blk == f.blocks[x]
    requires d.V() == Marking(f, was) && now == was + Table(f, Below(f, x, k))
    modifies d`sectors, d`log
    ensures Grew(d.l, old(d.log), d.log)
    ensures d.Valid() && d.V() == Marking(f, now)
  {
    var b := Ptr(blk, k);
    if b != 0 {
      SecondWithin(d.l.g, f, i, k);
      MarkTable(d, b, f, was);
    } else {
      assert now == was;
    }
  }

  method MarkTables(d: Disk, ghost i: nat, x: nat, ghost f: Fs, ghost on: set<nat>, ghost ts: seq<set<nat>>)
    requires d.Valid() && d.V() == Marking(f, on)
    requires Disjoint(d.l.g, f) && Live(f, i) && x == f.inos[i].dind && Ownable(d.l.g, x)
    requires |ts| == PPB && forall k :: 0 <= k < PPB ==> Lists(f, x, ts, k)
    modifies d`sectors, d`log
    ensures Grew(d.l, old(d.log), d.log)
    ensures d.Valid() && d.V() == Marking(f, on + Union(ts, PPB))
  {
    var blk := d.ReadData(x);
    assert on + Union(ts, 0) == on;
    var k := 0;
    while k < PPB
      invariant Grew(d.l, old(d.log), d.log)
      invariant k <= PPB && d.Valid() && d.V() == Marking(f, on + Union(ts, k))
    {
      UnionMore(ts, k, on);
      assert Lists(f, x, ts, k);
      MarkEntry(d, blk, i, x, k, f, on + Union(ts, k), on + Union(ts, k + 1));
      k := k + 1;
    }
  }

  method MarkDouble(d: Disk, ghost i: nat, x: nat, ghost f: Fs, ghost on: set<nat>)
    requires d.Valid() && d.V() == Marking(f, on)
    requires Disjoint(d.l.g, f) && Live(f, i) && x == f.inos[i].dind != 0
    modifies d`sectors, d`log
    ensures Grew(d.l, old(d.log), d.log)
    ensures d.Valid() && d.V() == Marking(f, on + DoubleTable(f, x))
  {
    DindWithin(d.l.g, f, i);
    Mark(d, x, f, on);
    ghost var ts := Listed(f, x, on + {x});
    MarkTables(d, i, x, f, on + {x}, ts);
    RootFirst(f, x, on);
  }

  lemma RootFirst(f: Fs, x: nat, on: set<nat>)
    requires x != 0
    ensures on + {x} + Tables(f, x) == on + DoubleTable(f, x)
  {
  }

  method MarkDirects(d: Disk, ghost i: nat, rec: Ino, ghost f: Fs, ghost on: set<nat>)
    requires d.Valid() && d.V() == Marking(f, on)
    requires Disjoint(d.l.g, f) && Live(f, i) && rec == f.inos[i]
    modifies d`sectors, d`log
    ensures Grew(d.l, old(d.log), d.log)
    ensures d.Valid() && d.V() == Marking(f, on + Directs(rec, 8))
  {
    assert on + Directs(rec, 0) == on;
    var k := 0;
    while k < 8
      invariant Grew(d.l, old(d.log), d.log)
      invariant k <= 8 && d.Valid() && d.V() == Marking(f, on + Directs(rec, k))
    {
      DirectsOn(rec, k, on);
      if rec.direct[k] != 0 {
        DirectWithin(d.l.g, f, i, k);
      }
      MarkIf(d, rec.direct[k], f, on + Directs(rec, k), on + Directs(rec, k + 1));
      k := k + 1;
    }
  }

  method MarkIndirect(d: Disk, ghost i: nat, x: nat, ghost f: Fs, ghost was: set<nat>, ghost now: set<nat>)
    requires d.Valid() && d.V() == Marking(f, was) && now == was + Table(f, x)
    requires Disjoint(d.l.g, f) && Live(f, i) && x == f.inos[i].indirect
    modifies d`sectors, d`log
    ensures Grew(d.l, old(d.log), d.log)
    ensures d.Valid() && d.V() == Marking(f, now)
  {
    if x != 0 {
      IndirectWithin(d.l.g, f, i);
      MarkTable(d, x, f, was);
    } else {
      assert now == was;
    }
  }

  method MarkRoot(d: Disk, ghost i: nat, x: nat, ghost f: Fs, ghost was: set<nat>, ghost now: set<nat>)
    requires d.Valid() && d.V() == Marking(f, was) && now == was + DoubleTable(f, x)
    requires Disjoint(d.l.g, f) && Live(f, i) && x == f.inos[i].dind
    modifies d`sectors, d`log
    ensures Grew(d.l, old(d.log), d.log)
    ensures d.Valid() && d.V() == Marking(f, now)
  {
    if x != 0 {
      MarkDouble(d, i, x, f, was);
    } else {
      assert now == was;
    }
  }

  lemma TreeOn(f: Fs, n: Ino, on: set<nat>)
    requires |n.direct| == 8
    ensures on + Directs(n, 8) + Table(f, n.indirect) + DoubleTable(f, n.dind) == on + Tree(f, n)
  {
  }

  /** All blocks of one inode. */
  method MarkTree(d: Disk, ghost i: nat, rec: Ino, ghost f: Fs, ghost on: set<nat>)
    requires d.Valid() && d.V() == Marking(f, on)
    requires Disjoint(d.l.g, f) && Live(f, i) && rec == f.inos[i]
    modifies d`sectors, d`log
    ensures Grew(d.l, old(d.log), d.log)
    ensures d.Valid() && d.V() == Marking(f, on + Tree(f, rec))
  {
    MarkDirects(d, i, rec, f, on);
    ghost var on1 := on + Directs(rec, 8);
    ghost var on2 := on1 + Table(f, rec.indirect);
    ghost var on3 := on2 + DoubleTable(f, rec.dind);
    MarkIndirect(d, i, rec.indirect, f, on1, on2);
    MarkRoot(d, i, rec.dind, f, on2, on3);
    TreeOn(f, rec, on);
  }

  /** One inode of the scan. */
  method MarkInode(d: Disk, i: nat, ghost f: Fs, ghost was: set<nat>, ghost now: set<nat>)
    requires d.Valid() && d.V() == Marking(f, was) && Disjoint(d.l.g, f)
    requires 0 < i <= d.l.g.inodes && now == was + TreeOf(f, i)
    modifies d`sectors, d`log
    ensures Grew(d.l, old(d.log), d.log)
    ensures d.Valid() && d.V() == Marking(f, now)
  {
    var r := d.GetIno(i);
    if r.Some? {
      MarkTree(d, i, r.value, f, was);
    } else {
      assert now == was;
    }
  }

  predicate ListsTree(f: Fs, ts: seq<set<nat>>, i: nat)
    requires i < |ts| == |f.inos|
  {
    ts[i] == TreeOf(f, i)
  }

  method MarkInodes(d: Disk, ghost f: Fs, ghost on: set<nat>, ghost ts: seq<set<nat>>)
    requires d.Valid() && Disjoint(d.l.g, f) && d.V() == Marking(f, on)
    requires |ts| == |f.inos| && (forall i :: 0 <= i < |ts| ==> ListsTree(f, ts, i))
    modifies d`sectors, d`log
    ensures Grew(d.l, old(d.log), d.log)
    ensures d.Valid() && d.V() == Marking(f, on + Union(ts, |ts|))
  {
    NoFirstTree(f, ts, on);
    var i := 1;
    while i <= d.l.g.inodes
      invariant Grew(d.l, old(d.log), d.log)
      invariant 1 <= i <= |ts| && d.Valid() && d.V() == Marking(f, on + Union(ts, i))
    {
      UnionMore(ts, i, on);
      assert ListsTree(f, ts, i);
      MarkInode(d, i, f, on + Union(ts, i), on + Union(ts, i + 1));
      i := i + 1;
    }
  }

  lemma NoFirstTree(f: Fs, ts: seq<set<nat>>, on: set<nat>)
    requires 0 < |ts| == |f.inos| && ListsTree(f, ts, 0)
    ensures on + Union(ts, 1) == on
  {
  }

  // ---- the whole ----

  /** Sectors cleared: `nb / 8` bytes rounded up, not `nb` bits rounded up. */
  function ClearedSectors(g: Geo): nat {
    (g.blocks / 8 + 511) / BLOCK
  }

  /** The first bit the clearing does not reach. */
  function Reach(g: Geo): nat {
    BITS_PER_BLOCK * ClearedSectors(g)
  }

  lemma ReachPlaced(l: Layout)
    requires Placed(l)
    ensures l.bmap + ClearedSectors(l.g) <= l.table
  {
  }

  method ClearBitmap(d: Disk)
    requires d.Valid()
    modifies d`sectors, d`log
    ensures Grew(d.l, old(d.log), d.log)
    ensures d.Valid() && d.V().inos == old(d.V()).inos && d.V().blocks == old(d.V()).blocks
    ensures forall b :: 0 <= b < d.l.g.blocks ==> d.V().bits[b] == (old(d.V()).bits[b] && b >= Reach(d.l.g))
  {
    ReachPlaced(d.l);
    var m := 0;
    while m < ClearedSectors(d.l.g)
      invariant m <= ClearedSectors(d.l.g) && |d.sectors| == d.l.g.blocks && Grew(d.l, old(d.log), d.log)
      invariant forall x :: 0 <= x < |d.sectors| ==>
                              d.sectors[x] == if d.l.bmap <= x < d.l.bmap + m then Zeros(512) else old(d.sectors)[x]
    {
      d.sectors, d.log := d.sectors[d.l.bmap + m := Zeros(512)], d.log + [d.l.bmap + m];
      m := m + 1;
    }
    ViewCleared(d.l, old(d.sectors), d.sectors, m);
  }

  /** A bit the rebuild leaves as it found it, whatever that was. */
  predicate Stale(g: Geo, f: Fs, b: nat)
    requires b < |f.bits| && |f.inos| == g.inodes + 1
  {
    b >= Reach(g) && f.bits[b] && !Marked(g, f, g.inodes, b)
  }

  ghost predicate Rebuilt(g: Geo, f: Fs, f': Fs)
    requires |f.inos| == g.inodes + 1 && |f.bits| == g.blocks
  {
    && f'.inos == f.inos && f'.blocks == f.blocks && |f'.bits| == g.blocks
    && forall b :: 0 <= b < g.blocks ==> (f'.bits[b] <==> Marked(g, f, g.inodes, b) || Stale(g, f, b))
  }

  /** The bitmap after a rebuild is exact if and only if no stale bit was set past the reach of the
      clearing. */
  lemma RebuiltExact(g: Geo, f: Fs, f': Fs)
    requires Disjoint(g, f) && Rebuilt(g, f, f')
    ensures Exact(g, f') <==> forall b :: 0 <= b < g.blocks ==> !Stale(g, f, b)
  {
    if forall b :: 0 <= b < g.blocks ==> !Stale(g, f, b) {
      MarkedExact(g, f, f');
    } else {
      var b :| 0 <= b < g.blocks && Stale(g, f, b);
      assert !Marked(g, f, g.inodes, b);
      MarkedReferenced(g, f, b);
      if Exact(g, f') {
        assert BitRight(g, f', b);
        var r: Ref :| InRange(r) && At(f', r) == b;
        SameAt(f, f', r);
        assert false;
      }
    }
  }

  /** The clearing reaches every bit unless the block count is just past a multiple of 4096, and then
      it misses at most seven. */
  lemma ReachesAll(g: Geo)
    ensures Reach(g) >= g.blocks <==> g.blocks % 8 == 0 || g.blocks / 8 % BLOCK != 0
    ensures Reach(g) + 8 > g.blocks
  {
  }

  /** So a rebuild is exact whatever the bitmap held when the clearing reaches every bit, or when the
      journal lies at the tail of the disk, as the image builder puts it. */
  lemma NothingStale(g: Geo, f: Fs, b: nat)
    requires b < g.blocks && |f.bits| == g.blocks && |f.inos| == g.inodes + 1
    requires g.blocks % 8 == 0 || g.blocks / 8 % BLOCK != 0 || (g.jb >= 8 && g.jlba + g.jb == g.blocks)
    ensures !Stale(g, f, b)
  {
    ReachesAll(g);
  }

  lemma MarkedIs(g: Geo, f: Fs, f1: Fs, b: nat)
    requires |f.inos| == g.inodes + 1 && f1.inos == f.inos && f1.blocks == f.blocks && b < g.blocks
    ensures var ts := TreeList(f1);
            b in {} + Span(0, g.data) + Span(g.jlba, g.jlba + g.jb) + Union(ts, |ts|) <==> Marked(g, f, g.inodes, b)
  {
    var ts := TreeList(f1);
    UnionIs(ts, |ts|, b);
    forall i | 0 <= i <= g.inodes ensures InTree(f1, i, b) <==> InTree(f, i, b) {
      if Live(f, i) && |f.inos[i].direct| == 8 {
        SameTree(f, f1, i);
      }
    }
    if i :| 0 <= i <= g.inodes && b in ts[i] {
      assert InTree(f, i, b) && i != 0;
    }
    if i :| 0 < i <= g.inodes && InTree(f, i, b) {
      assert b in ts[i];
    }
  }

  lemma SameTree(f: Fs, f1: Fs, i: nat)
    requires f1.inos == f.inos && f1.blocks == f.blocks && i < |f.inos| && |f.inos[i].direct| == 8
    ensures Tree(f1, f.inos[i]) == Tree(f, f.inos[i])
  {
    var n := f.inos[i];
    SameTables(f, f1, n.dind);
    SameTable(f, f1, n.indirect);
  }

  lemma SameTable(f: Fs, f1: Fs, x: nat)
    requires f1.blocks == f.blocks
    ensures Table(f1, x) == Table(f, x)
  {
    assert forall k :: 0 <= k < PPB ==> Below(f1, x, k) == Below(f, x, k);
    assert Entries(f1, x, PPB) == Entries(f, x, PPB);
  }

  lemma SameTables(f: Fs, f1: Fs, x: nat)
    requires f1.blocks == f.blocks
    ensures Tables(f1, x) == Tables(f, x)
  {
    forall k | 0 <= k < PPB ensures TableList(f1, x)[k] == TableList(f, x)[k] {
      SameTable(f, f1, Below(f, x, k));
    }
    assert TableList(f1, x) == TableList(f, x);
  }

  /** `rebuild_bitmap`, from any bitmap, when the trees are disjoint.  It journals a record for every
      sector it clears and every block it marks, the blocks of the journal among them. */
  method RebuildBitmap(d: Disk)
    requires d.Valid() && Disjoint(d.l.g, d.V())
    modifies d`sectors, d`log
    ensures Grew(d.l, old(d.log), d.log)
    ensures d.Valid() && Rebuilt(d.l.g, old(d.V()), d.V())
    ensures |d.log| >= |old(d.log)| + d.l.g.jb
    ensures Exact(d.l.g, d.V()) <==> forall b :: 0 <= b < d.l.g.blocks ==> !Stale(d.l.g, old(d.V()), b)
  {
    ghost var f := d.V();
    var g := d.l.g;
    ClearBitmap(d);
    ghost var f1 := d.V();
    MarkNone(f1);
    MarkSpan(d, 0, g.data, f1, {});
    MarkSpan(d, g.jlba, g.jlba + g.jb, f1, {} + Span(0, g.data));
    SameTreeDisjoint(g, f, f1);
    MarkInodes(d, f1, {} + Span(0, g.data) + Span(g.jlba, g.jlba + g.jb), TreeList(f1));
    forall b | 0 <= b < g.blocks ensures d.V().bits[b] <==> Marked(g, f, g.inodes, b) || Stale(g, f, b) {
      MarkedIs(g, f, f1, b);
    }
    RebuiltExact(g, f, d.V());
  }

  lemma SameTreeDisjoint(g: Geo, f: Fs, f': Fs)
    requires Disjoint(g, f) && f'.inos == f.inos && f'.blocks == f.blocks && |f'.bits| == g.blocks
    ensures Disjoint(g, f')
  {
    forall r: Ref | InRange(r) ensures At(f', r) == At(f, r) {
      SameAt(f, f', r);
    }
    forall r: Ref ensures Targets(g, f', r) {
      assert Targets(g, f, r);
    }
    forall r: Ref, q: Ref ensures Apart(f', r, q) {
      assert Apart(f, r, q);
    }
  }

  // ---- a bit the clearing misses ----

  /** A device of 4097 blocks: its last bit is the first of the second bitmap sector. */
  const ODD: Geo := Geo(4097, 10, 8, 0, 0)

  /** No file, and one bit set that nothing accounts for. */
  function Littered(): Fs {
    Fs(seq(4097, b => b == 4096), seq(9, _ => EMPTY), seq(4097, _ => Zeros(512)))
  }

  /** So a rebuild of this device leaves block 4096 in use for good. */
  lemma RebuildLeavesStale(f': Fs)
    requires Rebuilt(ODD, Littered(), f')
    ensures Disjoint(ODD, Littered()) && Stale(ODD, Littered(), 4096) && f'.bits[4096] && !Exact(ODD, f')
  {
    var f := Littered();
    forall r: Ref | InRange(r) ensures At(f, r) == 0 {
      assert !Live(f, r.ino);
    }
    assert !Marked(ODD, f, ODD.inodes, 4096);
    RebuiltExact(ODD, f, f');
  }
}
