/** Files as byte sequences: the contents an inode's tree roots, and what allocating a block or
    writing one does to them. */
module FsFile {
  import opened Wrappers
  import opened Arithmetic
  import opened FsTree
  import opened FsLink

  /** Where the number of file block `idx` is kept: eight in the inode, then one level of pointer
      blocks, then two. */
  function LeafOf(i: nat, idx: nat): Option<Ref> {
    if idx < 8 then Some(Direct(i, idx))
    else if idx - 8 < PPB then Some(IndLeaf(i, idx - 8))
    else if idx - 8 - PPB < PPB * PPB then Some(L2(i, (idx - 8 - PPB) / PPB, (idx - 8 - PPB) % PPB))
    else None
  }

  predicate IsLeaf(r: Ref) {
    r.Direct? || r.IndLeaf? || r.L2?
  }

  lemma LeafInRange(i: nat, idx: nat)
    requires LeafOf(i, idx).Some?
    ensures InRange(LeafOf(i, idx).value) && IsLeaf(LeafOf(i, idx).value) && LeafOf(i, idx).value.ino == i
  {
  }

  /** Different file blocks are kept in different places. */
  lemma LeafApart(i: nat, a: nat, j: nat, b: nat)
    requires LeafOf(i, a).Some? && LeafOf(i, a) == LeafOf(j, b)
    ensures i == j && a == b
  {
  }

  function BlockOf(f: Fs, i: nat, idx: nat): nat {
    var r := LeafOf(i, idx);
    if r.Some? then LeafInRange(i, idx); At(f, r.value) else 0
  }

  /** The byte of file `i` at `pos`, if its block is there. */
  function ByteAt(f: Fs, i: nat, pos: nat): Option<byte> {
    var b := BlockOf(f, i, pos / BLOCK);
    if 0 < b < |f.blocks| then Some(f.blocks[b][pos % BLOCK]) else None
  }

  /** Every byte below the size has its block. */
  predicate HoleFree(f: Fs, i: nat) {
    i < |f.inos| && forall p :: 0 <= p < f.inos[i].size ==> ByteAt(f, i, p).Some?
  }

  function Content(f: Fs, i: nat): (c: seq<byte>)
    requires HoleFree(f, i)
    ensures |c| == f.inos[i].size
  {
    seq(f.inos[i].size, p requires 0 <= p < f.inos[i].size => ByteAt(f, i, p).value)
  }

  // ---- allocation changes no file ----

  /** From `f` to `f'` only file `i` may have gained blocks, all of them zero. */
  ghost predicate Extends(f: Fs, f': Fs, i: nat) {
    && |f'.bits| == |f.bits| && |f'.blocks| == |f.blocks| && |f'.inos| == |f.inos| && i < |f.inos|
    && (forall j :: 0 <= j < |f.inos| && j != i ==> f'.inos[j] == f.inos[j])
    && f'.inos[i].kind == f.inos[i].kind && f'.inos[i].size == f.inos[i].size && f'.inos[i].nlink == f.inos[i].nlink
    && (forall r: Ref :: InRange(r) && At(f, r) != 0 ==> At(f', r) == At(f, r))
    && (forall r: Ref :: InRange(r) && r.ino != i ==> At(f', r) == At(f, r))
    && (forall r: Ref :: InRange(r) && IsLeaf(r) && 0 < At(f, r) < |f.blocks| ==>
          f'.blocks[At(f, r)] == f.blocks[At(f, r)])
    && (forall r: Ref :: InRange(r) && IsLeaf(r) && At(f, r) == 0 && 0 < At(f', r) < |f.blocks| ==>
          f'.blocks[At(f', r)] == Zeros(512))
  }

  lemma ExtendsRefl(f: Fs, i: nat)
    requires i < |f.inos|
    ensures Extends(f, f, i)
  {
  }

  lemma ExtendsTrans(f: Fs, f1: Fs, f2: Fs, i: nat)
    requires Extends(f, f1, i) && Extends(f1, f2, i)
    ensures Extends(f, f2, i)
  {
    forall r: Ref | InRange(r) && IsLeaf(r) && At(f, r) == 0 && 0 < At(f2, r) < |f.blocks|
      ensures f2.blocks[At(f2, r)] == Zeros(512)
    {
      if At(f1, r) != 0 {
        assert At(f2, r) == At(f1, r);
      }
    }
  }

  lemma ExtendsByte(f: Fs, f': Fs, i: nat, j: nat, p: nat)
    requires Extends(f, f', i) && ByteAt(f, j, p).Some?
    ensures ByteAt(f', j, p) == ByteAt(f, j, p)
  {
    LeafInRange(j, p / BLOCK);
  }

  /** Allocating changes no byte of any file. */
  lemma ExtendsContent(f: Fs, f': Fs, i: nat, j: nat)
    requires Extends(f, f', i) && HoleFree(f, j)
    ensures HoleFree(f', j) && Content(f', j) == Content(f, j)
  {
    forall p | 0 <= p < f.inos[j].size ensures ByteAt(f', j, p) == ByteAt(f, j, p) && ByteAt(f, j, p).Some? {
      ExtendsByte(f, f', i, j, p);
    }
  }

  /** A link that touches only the fresh block and one pointer block or inode. */
  lemma LinkedExtends(g: Geo, f: Fs, f': Fs, r0: Ref, b: nat, i: nat, x: nat)
    requires Exact(g, f) && Fresh(g, f, b) && Linked(f, f', r0, b) && r0.ino == i && Live(f, i)
    requires forall j :: 0 <= j < |f.inos| && j != i ==> f'.inos[j] == f.inos[j]
    requires f'.inos[i].kind == f.inos[i].kind && f'.inos[i].size == f.inos[i].size
             && f'.inos[i].nlink == f.inos[i].nlink
    requires forall y :: 0 <= y < |f.blocks| && y != b && y != x ==> f'.blocks[y] == f.blocks[y]
    requires x == 0 || exists h: Ref :: InRange(h) && IsHolder(h) && At(f, h) == x
    requires x != b && f'.blocks[b] == Zeros(512)
    ensures Extends(f, f', i)
  {
    forall r: Ref | InRange(r) && IsLeaf(r) && 0 < At(f, r) < |f.blocks|
      ensures f'.blocks[At(f, r)] == f.blocks[At(f, r)]
    {
      FreshUnreached(g, f, b, r);
      if x != 0 {
        var h: Ref :| InRange(h) && IsHolder(h) && At(f, h) == x;
        assert Apart(f, h, r);
      }
    }
  }

  // ---- writing a data block ----

  function PutBlock(f: Fs, b: nat, d: Block): Fs
    requires b < |f.blocks|
  {
    f.(blocks := f.blocks[b := d])
  }

  lemma LeafHoldsNoPointers(g: Geo, f: Fs, r: Ref, h: Ref)
    requires Disjoint(g, f) && InRange(r) && IsLeaf(r) && At(f, r) != 0 && InRange(h) && IsHolder(h)
    ensures At(f, h) != At(f, r)
  {
    assert Apart(f, r, h);
  }

  /** Writing a data block moves no block number. */
  lemma WriteSameAt(g: Geo, f: Fs, q: Ref, d: Block, r: Ref)
    requires Disjoint(g, f) && InRange(q) && IsLeaf(q) && 0 < At(f, q) < |f.blocks| && InRange(r)
    ensures At(PutBlock(f, At(f, q), d), r) == At(f, r)
  {
    forall h: Ref | InRange(h) && IsHolder(h) ensures At(f, h) != At(f, q) {
      LeafHoldsNoPointers(g, f, q, h);
    }
    DataWriteSameAt(f, At(f, q), d, r);
  }

  lemma WriteExact(g: Geo, f: Fs, q: Ref, d: Block)
    requires Exact(g, f) && InRange(q) && IsLeaf(q) && 0 < At(f, q) < |f.blocks|
    ensures Exact(g, PutBlock(f, At(f, q), d))
  {
    SameTreeExact(g, f, PutBlock(f, At(f, q), d)) by {
      forall r: Ref | InRange(r) ensures At(PutBlock(f, At(f, q), d), r) == At(f, r) {
        WriteSameAt(g, f, q, d, r);
      }
    }
  }

  /** The invariant is about block numbers and bits alone. */
  lemma SameTreeExact(g: Geo, f: Fs, f': Fs)
    requires Exact(g, f) && Shaped(g, f') && f'.bits == f.bits
    requires forall r: Ref :: InRange(r) ==> At(f', r) == At(f, r)
    ensures Exact(g, f')
  {
    forall r: Ref ensures Targets(g, f', r) {
      assert Targets(g, f, r);
    }
    forall r: Ref, q: Ref ensures Apart(f', r, q) {
      assert Apart(f, r, q);
    }
    forall b | 0 <= b < g.blocks ensures BitRight(g, f', b) {
      assert BitRight(g, f, b);
      if r: Ref :| InRange(r) && At(f, r) == b { assert At(f', r) == b; }
      if r: Ref :| InRange(r) && At(f', r) == b { assert At(f, r) == b; }
    }
  }

  /** A write to one file block changes the bytes of that block of that file, and no others. */
  lemma WriteByte(g: Geo, f: Fs, i: nat, idx: nat, d: Block, j: nat, p: nat)
    requires Disjoint(g, f) && 0 < BlockOf(f, i, idx) < |f.blocks|
    ensures ByteAt(PutBlock(f, BlockOf(f, i, idx), d), j, p) ==
            if j == i && p / BLOCK == idx then Some(d[p % BLOCK]) else ByteAt(f, j, p)
  {
    LeafInRange(i, idx);
    var q := LeafOf(i, idx).value;
    if LeafOf(j, p / BLOCK).Some? {
      LeafInRange(j, p / BLOCK);
      var r := LeafOf(j, p / BLOCK).value;
      WriteSameAt(g, f, q, d, r);
      assert Apart(f, q, r);
      if r == q { LeafApart(i, idx, j, p / BLOCK); }
    }
  }

  // ---- a write in progress ----

  /** The byte at `p` of file `j` when the first `n` bytes of `buf` have gone to `off` of file `i`. */
  predicate WrittenAt(f0: Fs, f: Fs, i: nat, off: nat, n: nat, buf: seq<byte>, j: nat, p: nat)
    requires n <= |buf|
  {
    if j == i && off <= p < off + n then ByteAt(f, j, p) == Some(buf[p - off])
    else ByteAt(f0, j, p).Some? ==> ByteAt(f, j, p) == ByteAt(f0, j, p)
  }

  ghost predicate Written(f0: Fs, f: Fs, i: nat, off: nat, n: nat, buf: seq<byte>)
    requires n <= |buf|
  {
    forall j: nat, p: nat :: WrittenAt(f0, f, i, off, n, buf, j, p)
  }

  /** `blk[bo..bo + chunk].copy_from_slice(&buf[n..n + chunk])` */
  function Patch(blk: Block, bo: nat, d: seq<byte>): Block
    requires bo + |d| <= BLOCK
  {
    blk[..bo] + d + blk[bo + |d|..]
  }

  lemma PosIn(pos: nat, chunk: nat, p: nat)
    requires pos % BLOCK + chunk <= BLOCK && pos <= p < pos + chunk
    ensures p / BLOCK == pos / BLOCK && p % BLOCK == pos % BLOCK + (p - pos)
  {
  }

  lemma WriteStepAt(g: Geo, f0: Fs, f: Fs, f1: Fs, i: nat, off: nat, n: nat, chunk: nat, buf: seq<byte>, j: nat, p: nat)
    requires n + chunk <= |buf| && (off + n) % BLOCK + chunk <= BLOCK
    requires WrittenAt(f0, f, i, off, n, buf, j, p) && Extends(f, f1, i) && Disjoint(g, f1)
    requires 0 < BlockOf(f1, i, (off + n) / BLOCK) < |f1.blocks|
    ensures var b := BlockOf(f1, i, (off + n) / BLOCK);
            WrittenAt(f0, PutBlock(f1, b, Patch(f1.blocks[b], (off + n) % BLOCK, buf[n..n + chunk])),
                      i, off, n + chunk, buf, j, p)
  {
    var idx, bo := (off + n) / BLOCK, (off + n) % BLOCK;
    var b := BlockOf(f1, i, idx);
    var d := Patch(f1.blocks[b], bo, buf[n..n + chunk]);
    WriteByte(g, f1, i, idx, d, j, p);
    if ByteAt(f, j, p).Some? {
      ExtendsByte(f, f1, i, j, p);
    }
    if j == i && off + n <= p < off + n + chunk {
      PosIn(off + n, chunk, p);
      assert d[p % BLOCK] == buf[n..n + chunk][p % BLOCK - bo];
    } else if j == i && p / BLOCK == idx {
      assert p % BLOCK < bo || p % BLOCK >= bo + chunk;
      assert d[p % BLOCK] == f1.blocks[b][p % BLOCK];
    }
  }

  lemma WriteStep(g: Geo, f0: Fs, f: Fs, f1: Fs, i: nat, off: nat, n: nat, chunk: nat, buf: seq<byte>)
    requires n + chunk <= |buf| && (off + n) % BLOCK + chunk <= BLOCK
    requires Written(f0, f, i, off, n, buf) && Extends(f, f1, i) && Disjoint(g, f1)
    requires 0 < BlockOf(f1, i, (off + n) / BLOCK) < |f1.blocks|
    ensures var b := BlockOf(f1, i, (off + n) / BLOCK);
            Written(f0, PutBlock(f1, b, Patch(f1.blocks[b], (off + n) % BLOCK, buf[n..n + chunk])),
                    i, off, n + chunk, buf)
  {
    var b := BlockOf(f1, i, (off + n) / BLOCK);
    var f2 := PutBlock(f1, b, Patch(f1.blocks[b], (off + n) % BLOCK, buf[n..n + chunk]));
    var m := n + chunk;
    forall j: nat, p: nat ensures WrittenAt(f0, f2, i, off, m, buf, j, p) {
      WriteStepAt(g, f0, f, f1, i, off, n, chunk, buf, j, p);
    }
  }

  function Max(a: nat, b: nat): nat {
    if a < b then b else a
  }

  /** `old[..off] + buf[..n] + old[off + n..]` */
  function Overwritten(c: seq<byte>, off: nat, d: seq<byte>): seq<byte>
    requires off <= |c|
  {
    c[..off] + d + if off + |d| <= |c| then c[off + |d|..] else []
  }

  lemma WrittenContent(f0: Fs, f: Fs, i: nat, off: nat, n: nat, buf: seq<byte>)
    requires n <= |buf| && Written(f0, f, i, off, n, buf)
    requires HoleFree(f0, i) && off <= f0.inos[i].size && i < |f.inos|
             && f.inos[i].size == Max(f0.inos[i].size, off + n)
    ensures HoleFree(f, i) && Content(f, i) == Overwritten(Content(f0, i), off, buf[..n])
  {
    forall p | 0 <= p < f.inos[i].size
      ensures ByteAt(f, i, p) == Some(Overwritten(Content(f0, i), off, buf[..n])[p])
    {
      assert WrittenAt(f0, f, i, off, n, buf, i, p);
    }
  }

  /** Every other file is as it was. */
  lemma WrittenOthers(f0: Fs, f: Fs, i: nat, off: nat, n: nat, buf: seq<byte>, j: nat)
    requires n <= |buf| && Written(f0, f, i, off, n, buf) && j != i
    requires HoleFree(f0, j) && j < |f.inos| && f.inos[j] == f0.inos[j]
    ensures HoleFree(f, j) && Content(f, j) == Content(f0, j)
  {
    forall p | 0 <= p < f0.inos[j].size ensures ByteAt(f, j, p) == ByteAt(f0, j, p) && ByteAt(f0, j, p).Some? {
      assert WrittenAt(f0, f, i, off, n, buf, j, p);
    }
  }

  /** The size field is no part of the trees. */
  lemma SizeSameByte(f: Fs, i: nat, size: nat, j: nat, p: nat)
    requires i < |f.inos|
    ensures ByteAt(PutIno(f, i, f.inos[i].(size := size)), j, p) == ByteAt(f, j, p)
  {
    if LeafOf(j, p / BLOCK).Some? {
      LeafInRange(j, p / BLOCK);
      SizeSameAt(f, i, size, LeafOf(j, p / BLOCK).value);
    }
  }

  lemma SizeSameAt(f: Fs, i: nat, size: nat, r: Ref)
    requires i < |f.inos| && InRange(r)
    ensures At(PutIno(f, i, f.inos[i].(size := size)), r) == At(f, r)
  {
  }

  lemma SizeExact(g: Geo, f: Fs, i: nat, size: nat)
    requires Exact(g, f) && i < |f.inos|
    ensures Exact(g, PutIno(f, i, f.inos[i].(size := size)))
  {
    forall r: Ref | InRange(r) ensures At(PutIno(f, i, f.inos[i].(size := size)), r) == At(f, r) {
      SizeSameAt(f, i, size, r);
    }
    SameTreeExact(g, f, PutIno(f, i, f.inos[i].(size := size)));
  }
}
