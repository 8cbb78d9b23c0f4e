/** The image `mkfs` starts from: reserved and journal blocks in use, and two empty directories.  The
    bitmap is exact, so the theorems about the mounted file system have a first state. */
module FsImage {
  import opened Wrappers
  import opened FsTree
  import opened FsLink
  import opened FsFile
  import opened FsLayout
  import opened FsDisk
  import opened FsFree
  import opened FsReclaim
  import opened FsRebuild

  /** A zeroed device seen as a file system. */
  function Zeroed(l: Layout): Fs {
    Fs(seq(l.g.blocks, _ => false), [EMPTY] + seq(l.g.inodes, _ => EMPTY.(nlink := 1)),
       seq(l.g.blocks, _ => Zeros(512)))
  }

  lemma {:induction false} TestZero(k: nat)
    ensures !TestBit(0, k)
  {
    if k > 0 {
      TestZero(k - 1);
    }
  }

  lemma ZeroBits(l: Layout, d: seq<Block>)
    requires Placed(l) && d == seq(l.g.blocks, _ => Zeros(512))
    ensures Bits(l, d) == Zeroed(l).bits
  {
    forall b | 0 <= b < l.g.blocks ensures !Bits(l, d)[b] {
      BitPlaced(l, b);
      BitsAt(l, d, b);
      TestZero(b % 8);
    }
  }

  lemma ZeroRecord(w: nat)
    requires w + 16 <= PPB
    ensures Record(Zeros(512), w) == EMPTY.(nlink := 1)
  {
    forall k: nat | k < PPB ensures Ptr(Zeros(512), k) == 0 {
      PtrZero(k);
    }
  }

  lemma ZeroInos(l: Layout, d: seq<Block>)
    requires Placed(l) && d == seq(l.g.blocks, _ => Zeros(512))
    ensures Inos(l, d) == Zeroed(l).inos
  {
    forall i | 0 < i <= l.g.inodes ensures Inos(l, d)[i] == EMPTY.(nlink := 1) {
      InoPlaced(l, i);
      InosAt(l, d, i);
      ZeroRecord(Word(i));
    }
  }

  lemma ZeroView(l: Layout, d: seq<Block>)
    requires Placed(l) && d == seq(l.g.blocks, _ => Zeros(512))
    ensures Device(l, d) && View(l, d) == Zeroed(l)
  {
    ZeroBits(l, d);
    ZeroInos(l, d);
  }

  /** With no file at all, the reserved and the journal blocks are exactly the ones in use. */
  lemma ReservedExact(l: Layout)
    requires Placed(l) && l.g.jlba + l.g.jb <= l.g.blocks
    ensures Exact(l.g, Marking(Zeroed(l), Span(0, l.g.data) + Span(l.g.jlba, l.g.jlba + l.g.jb)))
  {
    var f := Marking(Zeroed(l), Span(0, l.g.data) + Span(l.g.jlba, l.g.jlba + l.g.jb));
    forall r: Ref | InRange(r) ensures At(f, r) == 0 {
      assert !Live(f, r.ino);
    }
    forall b | 0 <= b < l.g.blocks ensures BitRight(l.g, f, b) {
    }
  }

  /** The two directories of a new image, both empty, and every other inode free. */
  predicate TwoDirectories(f: Fs) {
    && |f.inos| > 2 && f.inos[1] == EMPTY.(kind := KIND_DIR, nlink := 1) == f.inos[2]
    && forall i :: 2 < i < |f.inos| ==> f.inos[i].kind == 0
  }

  lemma FreeIsPast(f: Fs, i: nat, k: nat)
    requires i <= |f.inos| && NoneFree(f, i) && 0 < k < |f.inos| && f.inos[k].kind == 0
    ensures i <= k
  {
  }

  predicate AllFree(f: Fs) {
    forall k :: 0 < k < |f.inos| ==> f.inos[k].kind == 0
  }

  lemma BothTaken(f0: Fs, f1: Fs, f2: Fs, i: nat, j: nat)
    requires |f0.inos| > 2 && AllFree(f0)
    requires Taken(f0, f1, i, KIND_DIR) && Taken(f1, f2, j, KIND_DIR)
    ensures TwoDirectories(f2)
    ensures HoleFree(f2, 1) && Content(f2, 1) == [] && HoleFree(f2, 2) && Content(f2, 2) == []
  {
    FreeIsPast(f0, i, 1);
    FreeIsPast(f1, j, 2);
    assert f1.inos[1].kind == KIND_DIR;
    NoContent(f2, 1);
    NoContent(f2, 2);
  }

  /** The blocks in front of the data area, and the journal's. */
  method Reserve(d: Disk)
    requires d.Valid() && d.V() == Zeroed(d.l)
    modifies d`sectors, d`log
    ensures d.Valid() && Exact(d.l.g, d.V()) && d.V().inos == Zeroed(d.l).inos
  {
    ghost var f := Zeroed(d.l);
    var g := d.l.g;
    MarkNone(f);
    MarkSpan(d, 0, g.data, f, {});
    MarkSpan(d, g.jlba, g.jlba + g.jb, f, {} + Span(0, g.data));
    assert {} + Span(0, g.data) == Span(0, g.data);
    ReservedExact(d.l);
  }

  /** An inode for a directory, when one is free. */
  method TakeDirectory(d: Disk, ghost k: nat) returns (i: nat)
    requires d.Valid() && Exact(d.l.g, d.V()) && 0 < k < |d.V().inos| && d.V().inos[k].kind == 0
    modifies d`sectors, d`log
    ensures d.Valid() && Exact(d.l.g, d.V()) && Taken(old(d.V()), d.V(), i, KIND_DIR)
  {
    var r := TakeInode(d, KIND_DIR);
    if r.None? {
      assert false;
    }
    i := r.value;
  }

  lemma SecondFree(f0: Fs, f1: Fs, i: nat)
    requires |f0.inos| > 2 && AllFree(f0) && Taken(f0, f1, i, KIND_DIR)
    ensures |f1.inos| > 2 && f1.inos[2].kind == 0
  {
    FreeIsPast(f0, i, 1);
  }

  method TakeDirectories(d: Disk)
    requires d.Valid() && Exact(d.l.g, d.V()) && |d.V().inos| > 2 && AllFree(d.V())
    modifies d`sectors, d`log
    ensures d.Valid() && Exact(d.l.g, d.V()) && TwoDirectories(d.V())
    ensures HoleFree(d.V(), 1) && Content(d.V(), 1) == [] && HoleFree(d.V(), 2) && Content(d.V(), 2) == []
  {
    ghost var f0 := d.V();
    var root := TakeDirectory(d, 1);
    ghost var f1 := d.V();
    SecondFree(f0, f1, root);
    var bin := TakeDirectory(d, 2);
    BothTaken(f0, f1, d.V(), root, bin);
  }

  /** `Image::new`: mark the reserved and the journal blocks, then take the inodes of `/` and
      `/bin`.  On zeroed records `inode_set` and `inode_alloc` are what `create_empty` does. */
  method NewImage(l: Layout) returns (d: Disk)
    requires Placed(l) && l.g.inodes >= 2
    ensures fresh(d) && d.l == l && d.Valid() && Exact(l.g, d.V()) && TwoDirectories(d.V())
    ensures HoleFree(d.V(), 1) && Content(d.V(), 1) == [] && HoleFree(d.V(), 2) && Content(d.V(), 2) == []
  {
    d := new Disk(l);
    ZeroView(l, d.sectors);
    Reserve(d);
    TakeDirectories(d);
  }
}
