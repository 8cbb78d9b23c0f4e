/** Freeing a file's blocks: truncation and the last unlink, and the links and inodes that lead
    there. */
module FsReclaim {
  import opened Wrappers
  import opened FsTree
  import opened FsLink
  import opened FsFile
  import opened FsLayout
  import opened FsDisk
  import opened FsFree

  /** A pointer block and all it refers to are blocks a file may own. */
  predicate TableWithin(g: Geo, f: Fs, x: nat) {
    Ownable(g, x) && forall k :: 0 <= k < PPB && Below(f, x, k) != 0 ==> Ownable(g, Below(f, x, k))
  }

  lemma IndirectWithin(g: Geo, f: Fs, i: nat)
    requires Disjoint(g, f) && Live(f, i) && f.inos[i].indirect != 0
    ensures TableWithin(g, f, f.inos[i].indirect)
  {
    assert Targets(g, f, Ind(i));
    forall k | 0 <= k < PPB && Below(f, f.inos[i].indirect, k) != 0
      ensures Ownable(g, Below(f, f.inos[i].indirect, k))
    {
      assert Targets(g, f, IndLeaf(i, k));
    }
  }

  lemma SecondWithin(g: Geo, f: Fs, i: nat, k: nat)
    requires Disjoint(g, f) && Live(f, i) && k < PPB && Below(f, f.inos[i].dind, k) != 0
    ensures TableWithin(g, f, Below(f, f.inos[i].dind, k))
  {
    var x := Below(f, f.inos[i].dind, k);
    assert Targets(g, f, L1(i, k));
    forall j | 0 <= j < PPB && Below(f, x, j) != 0 ensures Ownable(g, Below(f, x, j)) {
      assert Targets(g, f, L2(i, k, j));
    }
  }

  /** `bfree`, the blocks in `gone` being free already. */
  method FreeBlock(d: Disk, b: nat, ghost f: Fs, ghost gone: set<nat>)
    requires d.Valid() && b < d.l.g.blocks && d.V() == Cleared(f, gone) && |f.bits| == d.l.g.blocks
    modifies d`sectors, d`log
    ensures d.Valid() && d.V() == Cleared(f, gone + {b})
  {
    d.PutBit(b, false);
    ClearMore(f, gone, b);
  }

  /** The entries of one pointer block, then the block. */
  method FreeTable(d: Disk, x: nat, ghost f: Fs, ghost gone: set<nat>)
    requires d.Valid() && d.V() == Cleared(f, gone) && |f.bits| == d.l.g.blocks && |f.blocks| == d.l.g.blocks
    requires x != 0 && TableWithin(d.l.g, f, x)
    modifies d`sectors, d`log
    ensures d.Valid() && d.V() == Cleared(f, gone + Table(f, x))
  {
    var blk := d.ReadData(x);
    var k := 0;
    assert gone + Entries(f, x, 0) == gone;
    while k < PPB
      invariant k <= PPB && d.Valid() && d.V() == Cleared(f, gone + Entries(f, x, k))
    {
      var b := Ptr(blk, k);
      assert b == Below(f, x, k);
      EntriesMore(f, x, k);
      if b != 0 {
        FreeBlock(d, b, f, gone + Entries(f, x, k));
        assert gone + Entries(f, x, k) + {b} == gone + Entries(f, x, k + 1);
      }
      k := k + 1;
    }
    FreeBlock(d, x, f, gone + Entries(f, x, PPB));
    assert gone + Entries(f, x, PPB) + {x} == gone + Table(f, x);
  }

  /** Set `k` of the list is the table under entry `k`. */
  predicate Lists(f: Fs, x: nat, ts: seq<set<nat>>, k: nat)
    requires k < PPB == |ts|
  {
    ts[k] == Table(f, Below(f, x, k))
  }

  lemma Listed(f: Fs, x: nat, gone: set<nat>) returns (ts: seq<set<nat>>)
    ensures |ts| == PPB && gone + Union(ts, PPB) == gone + Tables(f, x)
    ensures forall k :: 0 <= k < PPB ==> Lists(f, x, ts, k)
  {
    ts := TableList(f, x);
  }

  lemma UnionMore(ts: seq<set<nat>>, k: nat, gone: set<nat>)
    requires k < |ts|
    ensures gone + Union(ts, k) + ts[k] == gone + Union(ts, k + 1)
  {
  }

  /** Entry `k` of the double-indirect root: nothing, or a table. */
  method FreeEntry(d: Disk, blk: Block, ghost i: nat, ghost x: nat, k: nat, ghost f: Fs, ghost was: set<nat>,
                   ghost now: set<nat>)
    requires d.Valid() && Disjoint(d.l.g, f) && Live(f, i) && x == f.inos[i].dind
    requires k < PPB && 0 < x < |f.blocks| && blk == f.blocks[x]
    requires d.V() == Cleared(f, was) && now == was + Table(f, Below(f, x, k))
    modifies d`sectors, d`log
    ensures d.Valid() && d.V() == Cleared(f, now)
  {
    var b := Ptr(blk, k);
    if b != 0 {
      SecondWithin(d.l.g, f, i, k);
      FreeTable(d, b, f, was);
    } else {
      assert now == was;
    }
  }

  /** All entries of the double-indirect root. */
  method FreeTables(d: Disk, ghost i: nat, x: nat, ghost f: Fs, ghost gone: set<nat>, ghost ts: seq<set<nat>>)
    requires d.Valid() && d.V() == Cleared(f, gone)
    requires Disjoint(d.l.g, f) && Live(f, i) && x == f.inos[i].dind && Ownable(d.l.g, x)
    requires |ts| == PPB && forall k :: 0 <= k < PPB ==> Lists(f, x, ts, k)
    modifies d`sectors, d`log
    ensures d.Valid() && d.V() == Cleared(f, gone + Union(ts, PPB))
  {
    var blk := d.ReadData(x);
    assert gone + Union(ts, 0) == gone;
    var k := 0;
    while k < PPB
      invariant k <= PPB && d.Valid() && d.V() == Cleared(f, gone + Union(ts, k))
    {
      UnionMore(ts, k, gone);
      assert Lists(f, x, ts, k);
      FreeEntry(d, blk, i, x, k, f, gone + Union(ts, k), gone + Union(ts, k + 1));
      k := k + 1;
    }
  }

  lemma DindWithin(g: Geo, f: Fs, i: nat)
    requires Disjoint(g, f) && Live(f, i) && f.inos[i].dind != 0
    ensures Ownable(g, f.inos[i].dind)
  {
    assert Targets(g, f, Dind(i));
  }

  lemma DoubleParts(f: Fs, x: nat, gone: set<nat>)
    requires x != 0
    ensures gone + Tables(f, x) + {x} == gone + DoubleTable(f, x)
  {
  }

  method FreeDouble(d: Disk, ghost i: nat, x: nat, ghost f: Fs, ghost gone: set<nat>)
    requires d.Valid() && d.V() == Cleared(f, gone)
    requires Disjoint(d.l.g, f) && Live(f, i) && x == f.inos[i].dind != 0
    modifies d`sectors, d`log
    ensures d.Valid() && d.V() == Cleared(f, gone + DoubleTable(f, x))
  {
    DindWithin(d.l.g, f, i);
    ghost var ts := Listed(f, x, gone);
    FreeTables(d, i, x, f, gone, ts);
    FreeBlock(d, x, f, gone + Tables(f, x));
    DoubleParts(f, x, gone);
  }

  lemma DirectWithin(g: Geo, f: Fs, i: nat, k: nat)
    requires Disjoint(g, f) && Live(f, i) && k < 8 && f.inos[i].direct[k] != 0
    ensures Ownable(g, f.inos[i].direct[k])
  {
    assert Targets(g, f, Direct(i, k));
  }

  method FreeIf(d: Disk, b: nat, ghost f: Fs, ghost was: set<nat>, ghost now: set<nat>)
    requires d.Valid() && b < d.l.g.blocks && d.V() == Cleared(f, was) && |f.bits| == d.l.g.blocks
    requires now == was + if b == 0 then {} else {b}
    modifies d`sectors, d`log
    ensures d.Valid() && d.V() == Cleared(f, now)
  {
    if b != 0 {
      FreeBlock(d, b, f, was);
    } else {
      assert now == was;
    }
  }

  /** The direct blocks. */
  method FreeDirects(d: Disk, ghost i: nat, rec: Ino)
    requires d.Valid() && Disjoint(d.l.g, d.V()) && Live(d.V(), i) && rec == d.V().inos[i]
    modifies d`sectors, d`log
    ensures d.Valid() && d.V() == Cleared(old(d.V()), Directs(rec, 8))
  {
    ghost var f := d.V();
    ClearNone(f);
    assert Directs(rec, 0) == {};
    var k := 0;
    while k < 8
      invariant k <= 8 && d.Valid() && d.V() == Cleared(f, Directs(rec, k))
    {
      DirectsMore(rec, k);
      if rec.direct[k] != 0 {
        DirectWithin(d.l.g, f, i, k);
      }
      FreeIf(d, rec.direct[k], f, Directs(rec, k), Directs(rec, k + 1));
      k := k + 1;
    }
  }

  /** `free_ino_blocks`: the bits of exactly the blocks in the inode's tree. */
  method FreeInoBlocks(d: Disk, ghost i: nat, rec: Ino)
    requires d.Valid() && Disjoint(d.l.g, d.V()) && Live(d.V(), i) && rec == d.V().inos[i]
    modifies d`sectors, d`log
    ensures d.Valid() && d.V() == Cleared(old(d.V()), Tree(old(d.V()), rec))
  {
    ghost var f := d.V();
    FreeDirects(d, i, rec);
    ghost var gone := Directs(rec, 8);
    if rec.indirect != 0 {
      IndirectWithin(d.l.g, f, i);
      FreeTable(d, rec.indirect, f, gone);
    }
    TreeParts(f, rec);
    gone := gone + Table(f, rec.indirect);
    if rec.dind != 0 {
      FreeDouble(d, i, rec.dind, f, gone);
    }
  }

  lemma TreeParts(f: Fs, n: Ino)
    requires |n.direct| == 8
    ensures n.indirect == 0 ==> Directs(n, 8) + Table(f, n.indirect) == Directs(n, 8)
    ensures Directs(n, 8) + Table(f, n.indirect) + DoubleTable(f, n.dind) == Tree(f, n)
    ensures n.dind == 0 ==> Directs(n, 8) + Table(f, n.indirect) == Tree(f, n)
  {
  }

  /** Every file but `i`, and its bytes, are the same. */
  ghost predicate OthersKept(f: Fs, f': Fs, i: nat) {
    && |f'.inos| == |f.inos|
    && (forall j :: 0 <= j < |f.inos| && j != i ==> f'.inos[j] == f.inos[j])
    && (forall j :: 0 <= j < |f.inos| && j != i && HoleFree(f, j) ==>
          HoleFree(f', j) && Content(f', j) == Content(f, j))
  }

  lemma SameByte(f: Fs, f': Fs, j: nat, p: nat)
    requires f'.blocks == f.blocks && |f'.inos| == |f.inos| && j < |f.inos| && f'.inos[j] == f.inos[j]
    ensures ByteAt(f', j, p) == ByteAt(f, j, p)
  {
    if LeafOf(j, p / BLOCK).Some? {
      LeafInRange(j, p / BLOCK);
    }
  }

  /** Changing bits and one inode record changes no other file. */
  lemma RecordChange(f: Fs, f': Fs, i: nat)
    requires f'.blocks == f.blocks && |f'.inos| == |f.inos|
    requires forall j :: 0 <= j < |f.inos| && j != i ==> f'.inos[j] == f.inos[j]
    ensures OthersKept(f, f', i)
  {
    forall j | 0 <= j < |f.inos| && j != i && HoleFree(f, j)
      ensures HoleFree(f', j) && Content(f', j) == Content(f, j)
    {
      forall p | 0 <= p < f.inos[j].size ensures ByteAt(f', j, p) == ByteAt(f, j, p) && ByteAt(f, j, p).Some? {
        SameByte(f, f', j, p);
      }
    }
  }

  function Emptied(n: Ino): Ino {
    n.(size := 0, direct := EMPTY.direct, indirect := 0, dind := 0)
  }

  lemma EmptiedStorable(n: Ino)
    requires Storable(n)
    ensures Storable(Emptied(n))
  {
  }

  lemma GoneExact(g: Geo, f: Fs, i: nat, n: Ino)
    requires Exact(g, f) && Live(f, i)
    requires n == Emptied(f.inos[i]) || n == f.inos[i].(kind := 0)
    ensures Exact(g, PutIno(Cleared(f, Tree(f, f.inos[i])), i, n))
    ensures OthersKept(f, PutIno(Cleared(f, Tree(f, f.inos[i])), i, n), i)
  {
    var f' := PutIno(Cleared(f, Tree(f, f.inos[i])), i, n);
    forall r: Ref | InRange(r) && r.ino == i ensures At(f', r) == 0 {
      EmptyAt(f', i, r);
    }
    FreedExact(g, f, i, n);
    RecordChange(f, f', i);
  }

  lemma NoContent(f: Fs, i: nat)
    requires i < |f.inos| && f.inos[i].size == 0
    ensures HoleFree(f, i) && Content(f, i) == []
  {
  }

  /** File `i` is empty, its blocks are free, and nothing else has changed. */
  ghost predicate Truncated(g: Geo, f: Fs, f': Fs, i: nat)
    requires Shaped(g, f) && Shaped(g, f') && i < |f.inos|
  {
    && OthersKept(f, f', i) && f'.inos[i] == Emptied(f.inos[i])
    && HoleFree(f', i) && Content(f', i) == []
    && forall b :: 0 <= b < g.blocks ==> f'.bits[b] == (f.bits[b] && b !in Tree(f, f.inos[i]))
  }

  lemma TruncateFinishes(g: Geo, f: Fs, f1: Fs, f2: Fs, i: nat)
    requires Exact(g, f) && Live(f, i) && f1 == Cleared(f, Tree(f, f.inos[i]))
             && f2 == PutIno(f1, i, Emptied(f.inos[i]))
    ensures Exact(g, f2) && Truncated(g, f, f2, i)
  {
    GoneExact(g, f, i, Emptied(f.inos[i]));
    NoContent(f2, i);
  }

  /** `truncate_path` on inode `ino`. */
  method Truncate(d: Disk, ino: nat) returns (ok: bool)
    requires d.Valid() && Exact(d.l.g, d.V())
    modifies d`sectors, d`log
    ensures d.Valid() && Exact(d.l.g, d.V()) && ok == IsFile(old(d.V()), ino)
    ensures if ok then Truncated(d.l.g, old(d.V()), d.V(), ino) else d.V() == old(d.V())
  {
    var r := d.GetIno(ino);
    if r.None? || r.value.kind != KIND_FILE {
      return false;
    }
    ghost var f := d.V();
    var rec := r.value;
    InosStorable(d.l, d.sectors, ino);
    FreeInoBlocks(d, ino, rec);
    ghost var f1 := d.V();
    EmptiedStorable(rec);
    d.PutInode(ino, Emptied(rec));
    TruncateFinishes(d.l.g, f, f1, d.V(), ino);
    ok := true;
  }

  /** One link of inode `i` is gone: the count is one less, or with the last one the blocks are free and
      so is the inode. */
  ghost predicate Dropped(g: Geo, f: Fs, f': Fs, i: nat)
    requires Shaped(g, f) && Shaped(g, f')
  {
    if !Live(f, i) then f' == f
    else if f.inos[i].nlink > 1 then f' == PutIno(f, i, f.inos[i].(nlink := f.inos[i].nlink - 1))
    else OthersKept(f, f', i) && f'.inos[i] == f.inos[i].(kind := 0)
         && forall b :: 0 <= b < g.blocks ==> f'.bits[b] == (f.bits[b] && b !in Tree(f, f.inos[i]))
  }

  /** What `unlink` does to the inode once the entry is gone. */
  method DropLink(d: Disk, child: nat)
    requires d.Valid() && Exact(d.l.g, d.V())
    modifies d`sectors, d`log
    ensures d.Valid() && Exact(d.l.g, d.V()) && Dropped(d.l.g, old(d.V()), d.V(), child)
  {
    var r := d.GetIno(child);
    if r.None? {
      return;
    }
    ghost var f := d.V();
    var rec := r.value;
    InosStorable(d.l, d.sectors, child);
    if rec.nlink > 1 {
      LinksExact(d.l.g, f, child, rec.nlink - 1);
      d.PutInode(child, rec.(nlink := rec.nlink - 1));
    } else {
      FreeInoBlocks(d, child, rec);
      GoneExact(d.l.g, f, child, rec.(kind := 0));
      d.ClearKind(child);
    }
  }

  /** Every other file outlives a dropped link. */
  lemma DroppedKeeps(g: Geo, f: Fs, f': Fs, i: nat, j: nat)
    requires Shaped(g, f) && Shaped(g, f') && Dropped(g, f, f', i) && j != i && HoleFree(f, j)
    ensures HoleFree(f', j) && Content(f', j) == Content(f, j) && f'.inos[j] == f.inos[j]
  {
    if Live(f, i) && f.inos[i].nlink > 1 {
      RecordChange(f, f', i);
    }
  }

  lemma LinksExact(g: Geo, f: Fs, i: nat, n: nat)
    requires Exact(g, f) && i < |f.inos|
    ensures Exact(g, PutIno(f, i, f.inos[i].(nlink := n)))
  {
    SameTreeExact(g, f, PutIno(f, i, f.inos[i].(nlink := n)));
  }

  /** What `link` does to the old file's inode; the count is a 32-bit word, and 0 in it reads as 1. */
  method AddLink(d: Disk, ino: nat) returns (ok: bool)
    requires d.Valid() && Exact(d.l.g, d.V())
    requires IsFile(d.V(), ino) ==> d.V().inos[ino].nlink + 1 < 0x1_0000_0000
    modifies d`sectors, d`log
    ensures d.Valid() && Exact(d.l.g, d.V()) && ok == IsFile(old(d.V()), ino)
    ensures var f := old(d.V());
            d.V() == if ok then PutIno(f, ino, f.inos[ino].(nlink := f.inos[ino].nlink + 1)) else f
  {
    var r := d.GetIno(ino);
    if r.None? || r.value.kind != KIND_FILE {
      return false;
    }
    InosStorable(d.l, d.sectors, ino);
    LinksExact(d.l.g, d.V(), ino, r.value.nlink + 1);
    d.PutInode(ino, r.value.(nlink := r.value.nlink + 1));
    ok := true;
  }

  lemma LinkThenDrop(g: Geo, f: Fs, f1: Fs, f2: Fs, i: nat)
    requires Shaped(g, f1) && Shaped(g, f2) && Live(f, i) && f.inos[i].nlink >= 1
    requires f1 == PutIno(f, i, f.inos[i].(nlink := f.inos[i].nlink + 1)) && Dropped(g, f1, f2, i)
    ensures f2 == f
  {
    assert f2.inos == f.inos;
  }

  /** A link more and a link fewer is no change, and frees nothing. */
  method LinkUnlink(d: Disk, ino: nat)
    requires d.Valid() && Exact(d.l.g, d.V()) && IsFile(d.V(), ino)
    requires d.V().inos[ino].nlink + 1 < 0x1_0000_0000
    modifies d`sectors, d`log
    ensures d.Valid() && d.V() == old(d.V())
  {
    ghost var f := d.V();
    InosStorable(d.l, d.sectors, ino);
    var ok := AddLink(d, ino);
    ghost var f1 := d.V();
    DropLink(d, ino);
    LinkThenDrop(d.l.g, f, f1, d.V(), ino);
  }

  /** Inode `i`, the first one free, is now an empty file or directory with one link. */
  ghost predicate Taken(f: Fs, f': Fs, i: nat, kind: nat) {
    && 0 < i < |f.inos| && f.inos[i].kind == 0 && NoneFree(f, i)
    && f' == PutIno(f, i, EMPTY.(kind := kind, nlink := 1))
    && HoleFree(f', i) && Content(f', i) == [] && OthersKept(f, f', i)
  }

  lemma TakenExact(g: Geo, f: Fs, f': Fs, i: nat, kind: nat)
    requires Exact(g, f) && 0 < i < |f.inos| && f.inos[i].kind == 0 && NoneFree(f, i)
    requires f' == PutIno(f, i, EMPTY.(kind := kind, nlink := 1))
    ensures Exact(g, f') && Taken(f, f', i, kind)
  {
    forall q: Ref | InRange(q) ensures At(f', q) == At(f, q) {
      if q.ino == i {
        EmptyAt(f, i, q);
        EmptyAt(f', i, q);
      }
    }
    SameTreeExact(g, f, f');
    RecordChange(f, f', i);
    NoContent(f', i);
  }

  lemma NewStorable(kind: nat)
    requires kind < 256
    ensures Storable(EMPTY.(kind := kind, nlink := 1))
  {
  }

  /** No inode below `n` is free. */
  predicate NoneFree(f: Fs, n: nat)
    requires n <= |f.inos|
  {
    forall j :: 0 < j < n ==> f.inos[j].kind != 0
  }

  lemma NoneFreeMore(f: Fs, n: nat)
    requires 0 < n < |f.inos| && NoneFree(f, n) && f.inos[n].kind != 0
    ensures NoneFree(f, n + 1)
  {
  }

  /** The inode that `create_empty` and `mkdir` take: the first whose kind byte is 0, its whole record
      reset. */
  method TakeInode(d: Disk, kind: nat) returns (r: Option<nat>)
    requires d.Valid() && Exact(d.l.g, d.V()) && (kind == KIND_FILE || kind == KIND_DIR)
    modifies d`sectors, d`log
    ensures d.Valid() && Exact(d.l.g, d.V())
    ensures match r
            case Some(i) => Taken(old(d.V()), d.V(), i, kind)
            case None => d.V() == old(d.V()) && NoneFree(d.V(), d.l.g.inodes + 1)
  {
    ghost var f := d.V();
    var i := 1;
    while i <= d.l.g.inodes
      invariant 1 <= i <= |f.inos| && d.Valid() && d.V() == f
      invariant NoneFree(f, i)
    {
      var k := d.KindOf(i);
      if k == 0 {
        NewStorable(kind);
        d.ResetIno(i, EMPTY.(kind := kind, nlink := 1));
        TakenExact(d.l.g, f, d.V(), i, kind);
        return Some(i);
      }
      NoneFreeMore(f, i);
      i := i + 1;
    }
    r := None;
  }
}
