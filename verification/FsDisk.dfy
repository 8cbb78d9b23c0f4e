/** `disk.rs` as it is written: sectors read, changed and written back, with the scanning loops, and
    a copy of the inode record carried from call to call. */
module FsDisk {
  import opened Wrappers
  import opened Arithmetic
  import opened FsTree
  import opened FsLink
  import opened FsFile
  import opened FsLayout

  /** No free block is left. */
  predicate Full(g: Geo, f: Fs) {
    forall b :: 0 <= b < |f.bits| && !InJournal(g, b) ==> f.bits[b]
  }

  /** Only sectors of the bitmap were written between the two. */
  predicate Grew(l: Layout, was: seq<nat>, now: seq<nat>) {
    was <= now && forall k :: |was| <= k < |now| ==> l.bmap <= now[k] < l.table
  }

  lemma NoSecond(f: Fs, i: nat, l1: nat, l2: nat)
    requires l1 < PPB && l2 < PPB && i < |f.inos| && At(f, L1(i, l1)) == 0
    ensures At(f, L2(i, l1, l2)) == 0
  {
  }

  class Disk {
    var sectors: seq<Block>
    /** The sector of every block write so far: each is one record of the journal. */
    ghost var log: seq<nat>
    const l: Layout

    /** A device of zeroed sectors. */
    constructor (l: Layout)
      requires Placed(l)
      ensures this.l == l && sectors == seq(l.g.blocks, _ => Zeros(512)) && log == []
    {
      this.l := l;
      sectors, log := seq(l.g.blocks, _ => Zeros(512)), [];
    }

    predicate Valid()
      reads this`sectors
    {
      Device(l, sectors)
    }

    function V(): Fs
      reads this`sectors
      requires Valid()
    {
      View(l, sectors)
    }

    method Bit(b: nat) returns (v: bool)
      requires Valid() && b < l.g.blocks
      ensures v == V().bits[b]
    {
      BitPlaced(l, b);
      BitsAt(l, sectors, b);
      var blk := sectors[l.bmap + b / 8 / BLOCK];
      v := TestBit(blk[b / 8 % BLOCK] as nat, b % 8);
    }

    method PutBit(b: nat, v: bool)
      requires Valid() && b < l.g.blocks
      modifies this`sectors, this`log
      ensures Valid() && V() == old(V()).(bits := old(V()).bits[b := v])
      ensures Grew(l, old(log), log) && |log| == |old(log)| + 1
    {
      BitPlaced(l, b);
      ViewWithBit(l, sectors, b, v);
      var lb := l.bmap + b / 8 / BLOCK;
      var off := b / 8 % BLOCK;
      var blk := sectors[lb];
      blk := blk[off := FlipByte(blk[off], b % 8, v)];
      var changed := sectors[lb := blk];
      assert changed == WithBit(l, sectors, b, v);
      sectors, log := changed, log + [lb];
    }

    method WriteData(b: nat, d: Block)
      requires Valid() && l.g.data <= b < l.g.blocks
      modifies this`sectors, this`log
      ensures Valid() && V() == PutBlock(old(V()), b, d)
    {
      ViewWithBlock(l, sectors, b, d);
      sectors, log := sectors[b := d], log + [b];
    }

    method ReadData(b: nat) returns (d: Block)
      requires Valid() && l.g.data <= b < l.g.blocks
      ensures d == V().blocks[b]
    {
      d := sectors[b];
    }

    method GetIno(i: nat) returns (r: Option<Ino>)
      requires Valid()
      ensures r == if Live(V(), i) then Some(V().inos[i]) else None
    {
      if i == 0 || i > l.g.inodes {
        return None;
      }
      InoPlaced(l, i);
      InosAt(l, sectors, i);
      var n := Record(sectors[InoLba(l, i)], Word(i));
      r := if n.kind != KIND_FILE && n.kind != KIND_DIR then None else Some(n);
    }

    method PutInode(i: nat, n: Ino)
      requires Valid() && 0 < i <= l.g.inodes && Storable(n)
      modifies this`sectors, this`log
      ensures Valid() && V() == PutIno(old(V()), i, n)
    {
      InoPlaced(l, i);
      ViewWithIno(l, sectors, i, n);
      var lba := InoLba(l, i);
      sectors, log := sectors[lba := PutWords(sectors[lba], Word(i), n, 13)], log + [lba];
    }

    /** `ib[off] = 0` on the sector of inode `i`. */
    method ClearKind(i: nat)
      requires Valid() && 0 < i <= l.g.inodes
      modifies this`sectors, this`log
      ensures Valid() && V() == PutIno(old(V()), i, old(V()).inos[i].(kind := 0))
    {
      InosStorable(l, sectors, i);
      ghost var e := ViewWithKind(l, sectors, i, V().inos[i].(kind := 0), 1);
      var lba := InoLba(l, i);
      sectors, log := sectors[lba := sectors[lba][4 * Word(i) := 0]], log + [lba];
      assert sectors == e;
    }

    /** The record of a new inode: every field, but not the three bytes after the kind. */
    method ResetIno(i: nat, n: Ino)
      requires Valid() && 0 < i <= l.g.inodes && Storable(n)
      modifies this`sectors, this`log
      ensures Valid() && V() == PutIno(old(V()), i, n)
    {
      ghost var e := ViewWithKind(l, sectors, i, n, 13);
      var lba := InoLba(l, i);
      sectors, log := sectors[lba := PutKindAnd(sectors[lba], Word(i), n, 13)], log + [lba];
    }

    /** The kind byte of inode `i`, whatever it is. */
    method KindOf(i: nat) returns (k: byte)
      requires Valid() && 0 < i <= l.g.inodes
      ensures k as nat == V().inos[i].kind
    {
      InoPlaced(l, i);
      InosAt(l, sectors, i);
      k := sectors[InoLba(l, i)][4 * Word(i)];
    }

    /** `balloc`: the first free block that is not the journal's, its bit set, zeroed. */
    method Balloc() returns (r: Option<nat>)
      requires Valid() && Exact(l.g, V())
      modifies this`sectors, this`log
      ensures Valid()
      ensures match r
              case Some(b) => Fresh(l.g, old(V()), b) && V() == Grab(old(V()), b)
              case None => V() == old(V()) && Full(l.g, V())
    {
      ghost var f := V();
      var b := 0;
      while b < l.g.blocks
        invariant b <= l.g.blocks && sectors == old(sectors)
        invariant forall c :: 0 <= c < b && !InJournal(l.g, c) ==> f.bits[c]
      {
        if !(l.g.jb != 0 && l.g.jlba <= b < l.g.jlba + l.g.jb) {
          var v := Bit(b);
          if !v {
            assert BitRight(l.g, f, b);
            PutBit(b, true);
            WriteData(b, Zeros(512));
            return Some(b);
          }
        }
        b := b + 1;
      }
      r := None;
    }

    /** A fresh block under entry `k` of the pointer block `x` that `h` refers to. */
    method GrowChild(ghost h: Ref, x: nat, k: nat) returns (r: Option<nat>)
      requires Valid() && Exact(l.g, V()) && InRange(h) && IsHolder(h) && k < PPB && Live(V(), h.ino)
      requires At(V(), h) == x != 0 && At(V(), Child(h, k)) == 0
      modifies this`sectors, this`log
      ensures Valid() && Exact(l.g, V()) && Extends(old(V()), V(), h.ino) && V().inos == old(V()).inos
      ensures match r
              case Some(b) => Ownable(l.g, b) && At(V(), Child(h, k)) == b
              case None => V() == old(V()) && Full(l.g, V())
    {
      ghost var f := V();
      assert Targets(l.g, f, h);
      var blk := ReadData(x);
      r := Balloc();
      if r.Some? {
        var b := r.value;
        GrewChild(l.g, f, h, k, b);
        blk := SetPtr(blk, k, b);
        WriteData(x, blk);
      } else {
        ExtendsRefl(f, h.ino);
      }
    }

    /** The explicit zeroing of a new pointer block, which `balloc` has already zeroed. */
    method ZeroAgain(b: nat)
      requires Valid() && l.g.data <= b < l.g.blocks && V().blocks[b] == Zeros(512)
      modifies this`sectors, this`log
      ensures Valid() && V() == old(V())
    {
      assert V().blocks[b := Zeros(512)] == V().blocks;
      WriteData(b, Zeros(512));
    }

    /** A fresh block for an empty direct entry. */
    method GrowDirect(ino: nat, rec: Ino, k: nat) returns (rec': Ino, r: Option<nat>)
      requires Valid() && Exact(l.g, V()) && Live(V(), ino) && rec == V().inos[ino] && k < 8 && rec.direct[k] == 0
      modifies this`sectors, this`log
      ensures Grown(old(V()), ino, rec', r, Direct(ino, k))
    {
      ghost var f := V();
      rec' := rec;
      r := Balloc();
      if r.Some? {
        LinkDirect(l.g, f, ino, k, r.value);
        rec' := rec.(direct := rec.direct[k := r.value]);
        GrewIno(l.g, f, Direct(ino, k), r.value, rec');
        InosStorable(l, old(sectors), ino);
        PutInode(ino, rec');
      } else {
        ExtendsRefl(f, ino);
      }
    }

    method GrowInd(ino: nat, rec: Ino) returns (rec': Ino, r: Option<nat>)
      requires Valid() && Exact(l.g, V()) && Live(V(), ino) && rec == V().inos[ino] && rec.indirect == 0
      modifies this`sectors, this`log
      ensures Grown(old(V()), ino, rec', r, Ind(ino))
    {
      ghost var f := V();
      rec' := rec;
      r := Balloc();
      if r.Some? {
        LinkInd(l.g, f, ino, r.value);
        rec' := rec.(indirect := r.value);
        GrewIno(l.g, f, Ind(ino), r.value, rec');
        ZeroAgain(r.value);
        InosStorable(l, old(sectors), ino);
        PutInode(ino, rec');
      } else {
        ExtendsRefl(f, ino);
      }
    }

    method GrowDind(ino: nat, rec: Ino) returns (rec': Ino, r: Option<nat>)
      requires Valid() && Exact(l.g, V()) && Live(V(), ino) && rec == V().inos[ino] && rec.dind == 0
      modifies this`sectors, this`log
      ensures Grown(old(V()), ino, rec', r, Dind(ino))
    {
      ghost var f := V();
      rec' := rec;
      r := Balloc();
      if r.Some? {
        LinkDind(l.g, f, ino, r.value);
        rec' := rec.(dind := r.value);
        GrewIno(l.g, f, Dind(ino), r.value, rec');
        ZeroAgain(r.value);
        InosStorable(l, old(sectors), ino);
        PutInode(ino, rec');
      } else {
        ExtendsRefl(f, ino);
      }
    }

    /** The inode and its in-memory copy after one growth at `r0`. */
    ghost predicate Grown(f: Fs, ino: nat, rec: Ino, r: Option<nat>, r0: Ref)
      reads this`sectors
      requires InRange(r0)
    {
      && Valid() && Exact(l.g, V()) && Extends(f, V(), ino) && Live(V(), ino) && rec == V().inos[ino]
      && match r
         case Some(b) => b != 0 && At(V(), r0) == b
         case None => V() == f && Full(l.g, V())
    }

    /** The entry of holder `h` in pointer block `x`, grown when empty and `alloc`. */
    method Entry(ghost h: Ref, x: nat, k: nat, alloc: bool) returns (r: Option<nat>)
      requires Valid() && Exact(l.g, V()) && InRange(h) && IsHolder(h) && k < PPB && Live(V(), h.ino)
      requires At(V(), h) == x != 0
      modifies this`sectors, this`log
      ensures Valid() && Exact(l.g, V()) && Extends(old(V()), V(), h.ino) && V().inos == old(V()).inos
      ensures !alloc ==> V() == old(V())
      ensures match r
              case Some(b) => b != 0 && At(V(), Child(h, k)) == b
              case None => V() == old(V()) && At(V(), Child(h, k)) == 0 && (alloc ==> Full(l.g, V()))
    {
      ghost var f := V();
      assert Targets(l.g, f, h);
      var blk := ReadData(x);
      var b := Ptr(blk, k);
      assert At(f, Child(h, k)) == b;
      if b == 0 {
        if !alloc {
          ExtendsRefl(f, h.ino);
          return None;
        }
        r := GrowChild(h, x, k);
      } else {
        ExtendsRefl(f, h.ino);
        r := Some(b);
      }
    }

    /** What `data_block` promises: the number of file block `idx`, and with it the inode as it now
        is on the disk. */
    ghost predicate Found(f: Fs, ino: nat, idx: nat, alloc: bool, rec: Ino, r: Option<nat>)
      reads this`sectors
    {
      && Valid() && Exact(l.g, V()) && Extends(f, V(), ino) && Live(V(), ino) && rec == V().inos[ino]
      && (!alloc ==> V() == f)
      && match r
         case Some(b) => b != 0 && BlockOf(V(), ino, idx) == b
         case None => if alloc then LeafOf(ino, idx).None? || Full(l.g, V()) else BlockOf(V(), ino, idx) == 0
    }

    method DirectBlock(ino: nat, rec: Ino, idx: nat, alloc: bool) returns (rec': Ino, r: Option<nat>)
      requires Valid() && Exact(l.g, V()) && Live(V(), ino) && rec == V().inos[ino] && idx < 8
      modifies this`sectors, this`log
      ensures Found(old(V()), ino, idx, alloc, rec', r)
    {
      ExtendsRefl(V(), ino);
      if rec.direct[idx] == 0 && alloc {
        rec', r := GrowDirect(ino, rec, idx);
      } else {
        rec' := rec;
        r := if rec.direct[idx] == 0 then None else Some(rec.direct[idx]);
      }
    }

    method IndirectBlock(ino: nat, rec: Ino, idx: nat, alloc: bool) returns (rec': Ino, r: Option<nat>)
      requires Valid() && Exact(l.g, V()) && Live(V(), ino) && rec == V().inos[ino] && 8 <= idx < 8 + PPB
      modifies this`sectors, this`log
      ensures Found(old(V()), ino, idx, alloc, rec', r)
    {
      ghost var f := V();
      ExtendsRefl(f, ino);
      rec' := rec;
      if rec.indirect == 0 {
        if !alloc {
          assert At(f, IndLeaf(ino, idx - 8)) == 0;
          return rec, None;
        }
        rec', r := GrowInd(ino, rec);
        if r.None? {
          return;
        }
      }
      r := FirstLevel(ino, rec', idx, alloc, f);
    }

    method FirstLevel(ino: nat, rec: Ino, idx: nat, alloc: bool, ghost f: Fs) returns (r: Option<nat>)
      requires Valid() && Exact(l.g, V()) && Live(V(), ino) && rec == V().inos[ino] && 8 <= idx < 8 + PPB
      requires rec.indirect != 0 && Extends(f, V(), ino) && (!alloc ==> V() == f)
      modifies this`sectors, this`log
      ensures Found(f, ino, idx, alloc, rec, r)
    {
      ghost var f1 := V();
      r := Entry(Ind(ino), rec.indirect, idx - 8, alloc);
      ExtendsTrans(f, f1, V(), ino);
    }

    /** Entry `l2` of the second-level block under entry `l1` of the double-indirect root. */
    method DoubleEntry(ino: nat, rec: Ino, l1: nat, l2: nat, alloc: bool) returns (rec': Ino, r: Option<nat>)
      requires Valid() && Exact(l.g, V()) && Live(V(), ino) && rec == V().inos[ino] && l1 < PPB && l2 < PPB
      modifies this`sectors, this`log
      ensures Valid() && Exact(l.g, V()) && Extends(old(V()), V(), ino) && Live(V(), ino) && rec' == V().inos[ino]
      ensures !alloc ==> V() == old(V())
      ensures match r
              case Some(b) => b != 0 && At(V(), L2(ino, l1, l2)) == b
              case None => if alloc then Full(l.g, V()) else At(V(), L2(ino, l1, l2)) == 0
    {
      ghost var f := V();
      ExtendsRefl(f, ino);
      rec' := rec;
      if rec.dind == 0 {
        if !alloc {
          assert At(f, L2(ino, l1, l2)) == 0;
          return rec, None;
        }
        rec', r := GrowDind(ino, rec);
        if r.None? {
          return;
        }
      }
      r := SecondLevel(ino, rec', l1, l2, alloc, f);
    }

    method SecondLevel(ino: nat, rec: Ino, l1: nat, l2: nat, alloc: bool, ghost f: Fs) returns (r: Option<nat>)
      requires Valid() && Exact(l.g, V()) && Live(V(), ino) && rec == V().inos[ino] && l1 < PPB && l2 < PPB
      requires rec.dind != 0 && Extends(f, V(), ino)
      modifies this`sectors, this`log
      ensures Valid() && Exact(l.g, V()) && Extends(f, V(), ino) && V().inos == old(V()).inos
      ensures !alloc ==> V() == old(V())
      ensures match r
              case Some(b) => b != 0 && At(V(), L2(ino, l1, l2)) == b
              case None => if alloc then Full(l.g, V()) else At(V(), L2(ino, l1, l2)) == 0
    {
      ghost var f1 := V();
      var r1 := Entry(Dind(ino), rec.dind, l1, alloc);
      ghost var f2 := V();
      ExtendsTrans(f, f1, f2, ino);
      if r1.None? {
        NoSecond(f2, ino, l1, l2);
        return None;
      }
      r := Entry(L1(ino, l1), r1.value, l2, alloc);
      ExtendsTrans(f, f2, V(), ino);
    }

    method DoubleBlock(ino: nat, rec: Ino, idx: nat, alloc: bool) returns (rec': Ino, r: Option<nat>)
      requires Valid() && Exact(l.g, V()) && Live(V(), ino) && rec == V().inos[ino]
      requires 8 + PPB <= idx < 8 + PPB + PPB * PPB
      modifies this`sectors, this`log
      ensures Found(old(V()), ino, idx, alloc, rec', r)
    {
      var l1, l2 := (idx - 8 - PPB) / PPB, (idx - 8 - PPB) % PPB;
      rec', r := DoubleEntry(ino, rec, l1, l2, alloc);
    }

    /** `data_block` */
    method DataBlock(ino: nat, rec: Ino, idx: nat, alloc: bool) returns (rec': Ino, r: Option<nat>)
      requires Valid() && Exact(l.g, V()) && Live(V(), ino) && rec == V().inos[ino]
      modifies this`sectors, this`log
      ensures Found(old(V()), ino, idx, alloc, rec', r)
    {
      if idx < 8 {
        rec', r := DirectBlock(ino, rec, idx, alloc);
      } else if idx - 8 < PPB {
        rec', r := IndirectBlock(ino, rec, idx, alloc);
      } else if idx - 8 - PPB >= PPB * PPB {
        ExtendsRefl(V(), ino);
        rec', r := rec, None;
      } else {
        rec', r := DoubleBlock(ino, rec, idx, alloc);
      }
    }

    // ---- reading and writing files ----

    /** One block's worth of `write_at`. */
    method WriteChunk(bo: nat, n: nat, buf: seq<byte>, b: nat) returns (n': nat)
      requires Valid() && n < |buf| && bo < BLOCK && 0 < b < |V().blocks| && Ownable(l.g, b)
      modifies this`sectors, this`log
      ensures Valid() && n < n' <= |buf| && bo + (n' - n) <= BLOCK
      ensures V() == PutBlock(old(V()), b, Patch(old(V()).blocks[b], bo, buf[n..n']))
    {
      var blk := ReadData(b);
      var chunk := if |buf| - n < BLOCK - bo then |buf| - n else BLOCK - bo;
      n' := n + chunk;
      WriteData(b, Patch(blk, bo, buf[n..n']));
    }

    /** The loop of `write_at`; block numbers are 32 bits wide, so positions are told apart only
        below 2^41. */
    method WriteBlocks(ino: nat, rec0: Ino, off: nat, buf: seq<byte>) returns (rec: Ino, n: nat, ghost end: nat)
      requires Valid() && Exact(l.g, V()) && Live(V(), ino) && rec0 == V().inos[ino]
      modifies this`sectors, this`log
      ensures Valid() && Exact(l.g, V()) && Live(V(), ino) && rec == V().inos[ino] && n <= |buf|
      ensures SameButPointers(old(V()), V(), ino)
      ensures end == off + n
      ensures off + |buf| < POSITIONS ==>
                Written(old(V()), V(), ino, off, n, buf) && (n < |buf| ==> NoRoom(l.g, V(), ino, end))
    {
      ghost var f0 := V();
      rec, n := rec0, 0;
      while n < |buf|
        invariant Valid() && Exact(l.g, V()) && Live(V(), ino) && rec == V().inos[ino] && n <= |buf|
        invariant SameButPointers(f0, V(), ino)
        invariant off + |buf| < POSITIONS ==> Written(f0, V(), ino, off, n, buf)
        decreases |buf| - n
      {
        ghost var f := V();
        var pos := off + n;
        var r;
        var idx := pos / BLOCK % 0x1_0000_0000;
        rec, r := DataBlock(ino, rec, idx, true);
        ghost var f1 := V();
        if r.None? {
          StopWriting(l.g, f0, f, f1, ino, off, n, buf, pos, idx);
          end := pos;
          return;
        }
        ghost var n0 := n;
        BlockFound(l.g, f1, ino, idx, r.value);
        n := WriteChunk(pos % BLOCK, n, buf, r.value);
        ChunkWritten(l.g, f0, f, f1, V(), ino, off, n0, n, buf, r.value, pos, idx);
      }
      end := off + n;
    }

    /** `write_at` past its check of the kind. */
    method WriteFile(ino: nat, rec0: Ino, off: nat, buf: seq<byte>) returns (n: nat, ghost end: nat)
      requires Valid() && Exact(l.g, V()) && Live(V(), ino) && rec0 == V().inos[ino] && rec0.size < 0x1_0000_0000
      modifies this`sectors, this`log
      ensures Valid() && Exact(l.g, V()) && n <= |buf| && end == off + n
      ensures Resized(old(V()), V(), ino, end)
      ensures off + |buf| < POSITIONS ==>
                && WroteBytes(old(V()), V(), ino, off, n, buf) && (n < |buf| ==> NoRoom(l.g, V(), ino, end))
    {
      ghost var f0 := V();
      var rec;
      rec, n, end := WriteBlocks(ino, rec0, off, buf);
      ghost var f1 := V();
      var size := (off + n) % 0x1_0000_0000;
      SetEnd(ino, rec, size);
      WriteFinishes(l.g, f0, f1, V(), ino, off, n, buf, end, size);
    }

    /** `write_at` on inode `ino`. */
    method WriteAt(ino: nat, off: nat, buf: seq<byte>) returns (n: nat, ghost end: nat)
      requires Valid() && Exact(l.g, V())
      modifies this`sectors, this`log
      ensures Valid() && Exact(l.g, V()) && n <= |buf| && end == off + n
      ensures !IsFile(old(V()), ino) ==> n == 0 && V() == old(V())
      ensures IsFile(old(V()), ino) ==> Resized(old(V()), V(), ino, end)
      ensures IsFile(old(V()), ino) && off + |buf| < POSITIONS ==>
                && WroteBytes(old(V()), V(), ino, off, n, buf) && (n < |buf| ==> NoRoom(l.g, V(), ino, end))
    {
      var r := GetIno(ino);
      if r.None? || r.value.kind != KIND_FILE {
        return 0, off;
      }
      InosStorable(l, sectors, ino);
      n, end := WriteFile(ino, r.value, off, buf);
    }

    /** `if (off + n) as u32 > rec.size { rec.size = (off + n) as u32; put_ino(ino, &rec); }` */
    method SetEnd(ino: nat, rec: Ino, end: nat)
      requires Valid() && Exact(l.g, V()) && Live(V(), ino) && rec == V().inos[ino] && end < 0x1_0000_0000
      modifies this`sectors, this`log
      ensures Valid() && Exact(l.g, V()) && V() == Lengthened(old(V()), ino, end)
    {
      if end > rec.size {
        InosStorable(l, sectors, ino);
        SizeExact(l.g, V(), ino, end);
        PutInode(ino, rec.(size := end));
      }
    }

    /** What was written is read back. */
    method WriteThenRead(ino: nat, off: nat, buf: seq<byte>) returns (n: nat, d: seq<byte>)
      requires Valid() && Exact(l.g, V()) && IsFile(V(), ino) && HoleFree(V(), ino)
      requires off <= V().inos[ino].size && off + |buf| < POSITIONS
      modifies this`sectors, this`log
      ensures Valid() && Exact(l.g, V()) && IsFile(V(), ino) && n <= |buf| && d == buf[..n]
    {
      ghost var end;
      n, end := WriteAt(ino, off, buf);
      d := ReadAt(ino, off, n);
    }

    /** `read_at` on inode `ino`: `room` is the length of the caller's buffer. */
    method ReadAt(ino: nat, off: nat, room: nat) returns (d: seq<byte>)
      requires Valid() && Exact(l.g, V())
      modifies this`sectors, this`log
      ensures Valid() && V() == old(V())
      ensures !IsFile(V(), ino) ==> d == []
      ensures IsFile(V(), ino) ==> IsRead(V(), ino, off, room, d) && ReadStops(V(), ino, off, room, d)
      ensures IsFile(V(), ino) && HoleFree(V(), ino) ==> d == Slice(Content(V(), ino), off, room)
    {
      var r := GetIno(ino);
      if r.None? || r.value.kind != KIND_FILE {
        return [];
      }
      InosStorable(l, sectors, ino);
      d := ReadFile(ino, r.value, off, room, V());
    }

    /** `read_at` past its check of the kind. */
    method ReadFile(ino: nat, rec: Ino, off: nat, room: nat, ghost f: Fs) returns (d: seq<byte>)
      requires Valid() && V() == f && Exact(l.g, f) && Live(f, ino) && rec == f.inos[ino] && rec.size < 0x1_0000_0000
      modifies this`sectors, this`log
      ensures Valid() && V() == f && IsRead(f, ino, off, room, d) && ReadStops(f, ino, off, room, d)
      ensures HoleFree(f, ino) ==> d == Slice(Content(f, ino), off, room)
    {
      d := ReadBlocks(ino, rec, off, room, f);
      ReadIsSlice(f, ino, off, room, d);
    }

    /** The loop of `read_at`: up to the end, the room, or a hole at `end`. */
    method ReadBlocks(ino: nat, rec0: Ino, off: nat, room: nat, ghost f: Fs) returns (d: seq<byte>)
      requires Valid() && V() == f && Exact(l.g, f) && Live(f, ino) && rec0 == f.inos[ino] && rec0.size < 0x1_0000_0000
      modifies this`sectors, this`log
      ensures Valid() && V() == f && IsRead(f, ino, off, room, d) && ReadStops(f, ino, off, room, d)
    {
      var rec := rec0;
      d := [];
      while |d| < room && off + |d| < rec.size
        invariant Valid() && V() == f && rec == rec0 && IsRead(f, ino, off, room, d)
        decreases room - |d|
      {
        var chunk;
        var pos, left := off + |d|, room - |d|;
        rec, chunk := ReadNext(ino, rec, pos, left, f);
        if chunk == [] {
          ReadEnds(f, ino, off, room, d, pos);
          return;
        }
        ReadMore(f, ino, off, room, d, pos, left, chunk);
        d := d + chunk;
      }
      ReadEnds(f, ino, off, room, d, off + |d|);
    }

    /** `data_block` without allocation. */
    method FindBlock(ino: nat, rec: Ino, idx: nat, ghost f: Fs) returns (rec': Ino, b: Option<nat>)
      requires Valid() && V() == f && Exact(l.g, f) && Live(f, ino) && rec == f.inos[ino]
      modifies this`sectors, this`log
      ensures Valid() && V() == f && rec' == rec && BlockOf(f, ino, idx) == (if b.Some? then b.value else 0)
      ensures b.Some? ==> 0 < b.value < |f.blocks| && Ownable(l.g, b.value)
    {
      rec', b := DataBlock(ino, rec, idx, false);
      if b.Some? {
        BlockFound(l.g, f, ino, idx, b.value);
      }
    }

    /** At most `m` bytes of file block `idx` from `bo` on, none at a hole. */
    method ReadBlockAt(ino: nat, rec: Ino, idx: nat, bo: nat, m: nat, ghost f: Fs)
      returns (rec': Ino, chunk: seq<byte>, ghost b: Option<nat>)
      requires Valid() && V() == f && Exact(l.g, f) && Live(f, ino) && rec == f.inos[ino] && bo < BLOCK && m > 0
      modifies this`sectors, this`log
      ensures Valid() && V() == f && rec' == rec && BlockOf(f, ino, idx) == (if b.Some? then b.value else 0)
      ensures ChunkAt(f, b, bo, m, chunk)
    {
      var r;
      rec', r := FindBlock(ino, rec, idx, f);
      b := r;
      if r.None? {
        return rec', [], b;
      }
      chunk := ReadChunk(bo, r.value, m, f);
    }

    /** One turn of the loop: bytes from `pos` on, none at a hole. */
    method ReadNext(ino: nat, rec: Ino, pos: nat, room: nat, ghost f: Fs) returns (rec': Ino, chunk: seq<byte>)
      requires Valid() && V() == f && Exact(l.g, f) && Live(f, ino) && rec == f.inos[ino] && rec.size < 0x1_0000_0000
      requires room > 0 && pos < rec.size
      modifies this`sectors, this`log
      ensures Valid() && V() == f && rec' == rec && IsRead(f, ino, pos, room, chunk)
      ensures chunk == [] ==> ByteAt(f, ino, pos).None?
    {
      var idx, bo := pos / BLOCK % 0x1_0000_0000, pos % BLOCK;
      ghost var b;
      var m := if room < rec.size - pos then room else rec.size - pos;
      rec', chunk, b := ReadBlockAt(ino, rec, idx, bo, m, f);
      NextIsRead(f, ino, pos, room, idx, bo, b, m, chunk);
    }

    /** At most `m` bytes of block `b` from `bo` on. */
    method ReadChunk(bo: nat, b: nat, m: nat, ghost f: Fs) returns (chunk: seq<byte>)
      requires Valid() && V() == f && Ownable(l.g, b) && bo < BLOCK && m > 0
      ensures ChunkAt(f, Some(b), bo, m, chunk)
    {
      var blk := ReadData(b);
      var n := if m < BLOCK - bo then m else BLOCK - bo;
      chunk := blk[bo..bo + n];
    }
  }

  /** At most `m` bytes of block `b` from `bo` on, and none without a block. */
  predicate ChunkAt(f: Fs, b: Option<nat>, bo: nat, m: nat, chunk: seq<byte>) {
    |chunk| <= m && match b
                    case None => chunk == []
                    case Some(x) =>
                      && 0 < x < |f.blocks| && chunk != [] && bo + |chunk| <= BLOCK
                      && chunk == f.blocks[x][bo..bo + |chunk|]
  }

  /** `d` is what file `i` holds from `off` on. */
  predicate IsRead(f: Fs, i: nat, off: nat, room: nat, d: seq<byte>) {
    && i < |f.inos| && |d| <= room && (d != [] ==> off + |d| <= f.inos[i].size)
    && forall k :: 0 <= k < |d| ==> ByteAt(f, i, off + k) == Some(d[k])
  }

  lemma ChunkIsRead(f: Fs, i: nat, pos: nat, room: nat, chunk: seq<byte>, b: nat)
    requires i < |f.inos| && |chunk| <= room && pos + |chunk| <= f.inos[i].size
    requires 0 < b < |f.blocks| && BlockOf(f, i, pos / BLOCK) == b
    requires pos % BLOCK + |chunk| <= BLOCK && chunk == f.blocks[b][pos % BLOCK..pos % BLOCK + |chunk|]
    ensures IsRead(f, i, pos, room, chunk)
  {
    forall k | 0 <= k < |chunk| ensures ByteAt(f, i, pos + k) == Some(chunk[k]) {
      PosIn(pos, |chunk|, pos + k);
    }
  }

  lemma NextIsRead(f: Fs, i: nat, pos: nat, room: nat, idx: nat, bo: nat, b: Option<nat>, m: nat, chunk: seq<byte>)
    requires i < |f.inos| && pos < f.inos[i].size < 0x1_0000_0000
    requires idx == pos / BLOCK % 0x1_0000_0000 && bo == pos % BLOCK
             && BlockOf(f, i, idx) == (if b.Some? then b.value else 0)
    requires m == (if room < f.inos[i].size - pos then room else f.inos[i].size - pos) && ChunkAt(f, b, bo, m, chunk)
    ensures IsRead(f, i, pos, room, chunk) && (chunk == [] ==> ByteAt(f, i, pos).None?)
  {
    SmallIdx(pos);
    if b.Some? {
      ChunkIsRead(f, i, pos, room, chunk, b.value);
    }
  }

  lemma ReadMore(f: Fs, i: nat, off: nat, room: nat, d: seq<byte>, pos: nat, left: nat, chunk: seq<byte>)
    requires IsRead(f, i, off, room, d) && |d| <= room && pos == off + |d| && left == room - |d|
    requires IsRead(f, i, pos, left, chunk)
    ensures IsRead(f, i, off, room, d + chunk)
  {
    forall k | 0 <= k < |d + chunk| ensures ByteAt(f, i, off + k) == Some((d + chunk)[k]) {
      if k >= |d| {
        assert (d + chunk)[k] == chunk[k - |d|];
        assert off + k == pos + (k - |d|);
      }
    }
  }

  predicate IsFile(f: Fs, i: nat) {
    Live(f, i) && f.inos[i].kind == KIND_FILE
  }

  /** Reading `d` from `off` ended with the room, the file, or at a hole. */
  predicate ReadStops(f: Fs, i: nat, off: nat, room: nat, d: seq<byte>)
    requires i < |f.inos|
  {
    |d| == room || off + |d| >= f.inos[i].size || ByteAt(f, i, off + |d|).None?
  }

  /** Of all inode records only that of `i` is changed: it reaches to `end`, a 32-bit word, if it was
      shorter, and it keeps its kind and its links. */
  predicate Resized(f: Fs, f': Fs, i: nat, end: nat) {
    && |f'.inos| == |f.inos| && i < |f.inos|
    && (forall j :: 0 <= j < |f.inos| && j != i ==> f'.inos[j] == f.inos[j])
    && f'.inos[i].kind == f.inos[i].kind && f'.inos[i].nlink == f.inos[i].nlink
    && f'.inos[i].size == Max(f.inos[i].size, end % 0x1_0000_0000)
  }

  /** File `i` after `d` has been written at `off`, and all other files. */
  ghost predicate WroteAt(f0: Fs, f: Fs, i: nat, off: nat, d: seq<byte>)
    requires HoleFree(f0, i) && off <= f0.inos[i].size
  {
    && HoleFree(f, i) && Content(f, i) == Overwritten(Content(f0, i), off, d)
    && (forall j :: 0 <= j < |f0.inos| && j != i && HoleFree(f0, j) ==>
          HoleFree(f, j) && Content(f, j) == Content(f0, j))
  }

  /** The first `n` bytes of `buf` are in file `i` from `off` on, and every other byte of every file that
      was there is there still; without holes, these are the contents. */
  ghost predicate WroteBytes(f0: Fs, f: Fs, i: nat, off: nat, n: nat, buf: seq<byte>)
    requires n <= |buf| && i < |f0.inos|
  {
    && Written(f0, f, i, off, n, buf)
    && (HoleFree(f0, i) && off <= f0.inos[i].size ==> WroteAt(f0, f, i, off, buf[..n]))
  }

  /** A byte that is there is below the greatest size the tree can carry. */
  lemma TreeReach(f: Fs, i: nat, p: nat)
    requires ByteAt(f, i, p).Some?
    ensures p + 1 < 0x1_0000_0000
  {
  }

  function Lengthened(f: Fs, i: nat, end: nat): Fs
    requires i < |f.inos|
  {
    if end > f.inos[i].size then PutIno(f, i, f.inos[i].(size := end)) else f
  }

  lemma LengthenedRoom(g: Geo, f: Fs, f': Fs, i: nat, end: nat, pos: nat)
    requires i < |f.inos| && f' == Lengthened(f, i, end)
    ensures NoRoom(g, f, i, pos) ==> NoRoom(g, f', i, pos)
  {
  }

  lemma LengthenedWritten(f0: Fs, f1: Fs, f: Fs, i: nat, off: nat, n: nat, buf: seq<byte>, end: nat,
                          size: nat)
    requires n <= |buf| && SameButPointers(f0, f1, i) && f == Lengthened(f1, i, size)
    requires size == end % 0x1_0000_0000
    requires off + |buf| < POSITIONS ==> Written(f0, f1, i, off, n, buf)
    ensures Resized(f0, f, i, end)
    ensures off + |buf| < POSITIONS ==> Written(f0, f, i, off, n, buf)
  {
    if off + |buf| < POSITIONS {
      SizeWritten(f0, f1, f, i, off, n, buf, size);
    }
  }

  /** What `write_at` leaves once the size is set. */
  lemma WriteFinishes(g: Geo, f0: Fs, f1: Fs, f: Fs, i: nat, off: nat, n: nat, buf: seq<byte>, end: nat,
                      size: nat)
    requires n <= |buf| && end == off + n && size == (off + n) % 0x1_0000_0000
    requires SameButPointers(f0, f1, i) && f0.inos[i].size < 0x1_0000_0000
    requires f == Lengthened(f1, i, size)
    requires off + |buf| < POSITIONS ==>
               Written(f0, f1, i, off, n, buf) && (n < |buf| ==> NoRoom(g, f1, i, end))
    ensures Resized(f0, f, i, end)
    ensures off + |buf| < POSITIONS ==>
              WroteBytes(f0, f, i, off, n, buf) && (n < |buf| ==> NoRoom(g, f, i, end))
  {
    LengthenedWritten(f0, f1, f, i, off, n, buf, end, size);
    LengthenedRoom(g, f1, f, i, size, end);
    if off + |buf| < POSITIONS && HoleFree(f0, i) && off <= f0.inos[i].size {
      WroteAll(f0, f, i, off, n, buf);
    }
  }

  lemma WroteAll(f0: Fs, f: Fs, i: nat, off: nat, n: nat, buf: seq<byte>)
    requires n <= |buf| && Written(f0, f, i, off, n, buf) && Resized(f0, f, i, off + n)
    requires HoleFree(f0, i) && off <= f0.inos[i].size < 0x1_0000_0000
    ensures WroteAt(f0, f, i, off, buf[..n])
  {
    if n > 0 {
      assert WrittenAt(f0, f, i, off, n, buf, i, off + n - 1);
      TreeReach(f, i, off + n - 1);
    }
    WrittenContent(f0, f, i, off, n, buf);
    forall j | 0 <= j < |f0.inos| && j != i && HoleFree(f0, j)
      ensures HoleFree(f, j) && Content(f, j) == Content(f0, j)
    {
      WrittenOthers(f0, f, i, off, n, buf, j);
    }
  }

  lemma SizeWritten(f0: Fs, f1: Fs, f: Fs, i: nat, off: nat, n: nat, buf: seq<byte>, end: nat)
    requires n <= |buf| && Written(f0, f1, i, off, n, buf) && i < |f1.inos|
    requires f == f1 || f == PutIno(f1, i, f1.inos[i].(size := end))
    ensures Written(f0, f, i, off, n, buf)
  {
    forall j: nat, p: nat ensures WrittenAt(f0, f, i, off, n, buf, j, p) {
      assert WrittenAt(f0, f1, i, off, n, buf, j, p);
      SizeSameByte(f1, i, end, j, p);
    }
  }

  /** `c[off..off + room]`, as much of it as there is. */
  function Slice(c: seq<byte>, off: nat, room: nat): seq<byte> {
    if off >= |c| then [] else if off + room <= |c| then c[off..off + room] else c[off..]
  }

  lemma ReadEnds(f: Fs, i: nat, off: nat, room: nat, d: seq<byte>, end: nat)
    requires IsRead(f, i, off, room, d) && end == off + |d|
    requires |d| >= room || end >= f.inos[i].size || ByteAt(f, i, end).None?
    ensures ReadStops(f, i, off, room, d)
  {
  }

  lemma ReadIsSlice(f: Fs, i: nat, off: nat, room: nat, d: seq<byte>)
    requires IsRead(f, i, off, room, d) && ReadStops(f, i, off, room, d)
    ensures HoleFree(f, i) ==> d == Slice(Content(f, i), off, room)
  {
    if HoleFree(f, i) {
      WholeRead(f, i, off, room, d);
    }
  }

  lemma WholeRead(f: Fs, i: nat, off: nat, room: nat, d: seq<byte>)
    requires HoleFree(f, i) && IsRead(f, i, off, room, d) && ReadStops(f, i, off, room, d)
    ensures d == Slice(Content(f, i), off, room)
  {
    var c := Content(f, i);
    assert |d| == |Slice(c, off, room)|;
    forall k | 0 <= k < |d| ensures d[k] == Slice(c, off, room)[k] {
      assert ByteAt(f, i, off + k) == Some(c[off + k]);
    }
  }

  const POSITIONS: nat := BLOCK * 0x1_0000_0000

  lemma BlockFound(g: Geo, f: Fs, i: nat, idx: nat, b: nat)
    requires Exact(g, f) && b != 0 && BlockOf(f, i, idx) == b
    ensures 0 < b < |f.blocks| && Ownable(g, b)
  {
    LeafInRange(i, idx);
    assert Targets(g, f, LeafOf(i, idx).value);
  }

  lemma ChunkWritten(g: Geo, f0: Fs, f: Fs, f1: Fs, f2: Fs, i: nat, off: nat, n: nat, n': nat, buf: seq<byte>,
                     b: nat, pos: nat, idx: nat)
    requires Exact(g, f1) && Extends(f, f1, i) && n < n' <= |buf| && pos % BLOCK + (n' - n) <= BLOCK
    requires pos == off + n && idx == pos / BLOCK % 0x1_0000_0000
    requires 0 < b < |f1.blocks| && BlockOf(f1, i, idx) == b
    requires f2 == PutBlock(f1, b, Patch(f1.blocks[b], pos % BLOCK, buf[n..n']))
    ensures Exact(g, f2)
    ensures off + |buf| < POSITIONS && Written(f0, f, i, off, n, buf) ==> Written(f0, f2, i, off, n', buf)
  {
    LeafInRange(i, idx);
    WriteExact(g, f1, LeafOf(i, idx).value, Patch(f1.blocks[b], pos % BLOCK, buf[n..n']));
    if off + |buf| < POSITIONS && Written(f0, f, i, off, n, buf) {
      SmallIdx(pos);
      WriteStep(g, f0, f, f1, i, off, n, n' - n, buf);
    }
  }

  /** File `i` cannot have a block for `pos`: it would be too big, or the disk is full. */
  predicate NoRoom(g: Geo, f: Fs, i: nat, pos: nat) {
    LeafOf(i, pos / BLOCK).None? || Full(g, f)
  }

  lemma StopWriting(g: Geo, f0: Fs, f: Fs, f1: Fs, i: nat, off: nat, n: nat, buf: seq<byte>, pos: nat, idx: nat)
    requires n < |buf| && Extends(f, f1, i) && pos == off + n
    requires idx == pos / BLOCK % 0x1_0000_0000 && (LeafOf(i, idx).None? || Full(g, f1))
    ensures off + |buf| < POSITIONS && Written(f0, f, i, off, n, buf) ==>
              Written(f0, f1, i, off, n, buf) && NoRoom(g, f1, i, pos)
  {
    if off + |buf| < POSITIONS && Written(f0, f, i, off, n, buf) {
      SmallIdx(pos);
      NothingWritten(f0, f, f1, i, off, n, buf);
    }
  }

  /** Everything of every inode but the block numbers of file `i`. */
  predicate SameButPointers(f: Fs, f': Fs, i: nat) {
    && |f'.inos| == |f.inos| && i < |f.inos|
    && (forall j :: 0 <= j < |f.inos| && j != i ==> f'.inos[j] == f.inos[j])
    && f'.inos[i].kind == f.inos[i].kind && f'.inos[i].size == f.inos[i].size && f'.inos[i].nlink == f.inos[i].nlink
  }

  lemma SmallIdx(pos: nat)
    requires pos < BLOCK * 0x1_0000_0000
    ensures pos / BLOCK % 0x1_0000_0000 == pos / BLOCK
  {
  }

  lemma NothingWritten(f0: Fs, f: Fs, f1: Fs, i: nat, off: nat, n: nat, buf: seq<byte>)
    requires n <= |buf| && Written(f0, f, i, off, n, buf) && Extends(f, f1, i)
    ensures Written(f0, f1, i, off, n, buf)
  {
    forall j: nat, p: nat ensures WrittenAt(f0, f1, i, off, n, buf, j, p) {
      assert WrittenAt(f0, f, i, off, n, buf, j, p);
      if ByteAt(f, j, p).Some? {
        ExtendsByte(f, f1, i, j, p);
      }
    }
  }

  /** What `GrowChild` leaves. */
  lemma GrewChild(g: Geo, f: Fs, h: Ref, k: nat, b: nat)
    requires Exact(g, f) && Fresh(g, f, b) && InRange(h) && IsHolder(h) && k < PPB && Live(f, h.ino)
    requires At(f, h) != 0 && At(f, h) < |f.blocks| && At(f, Child(h, k)) == 0
    ensures var f' := PutPtr(Grab(f, b), At(f, h), k, b);
            Exact(g, f') && Extends(f, f', h.ino) && At(f', Child(h, k)) == b && At(f, h) != b
            && f'.blocks[At(f, h)] == SetPtr(f.blocks[At(f, h)], k, b)
  {
    var f' := PutPtr(Grab(f, b), At(f, h), k, b);
    FreshUnreached(g, f, b, h);
    LinkChild(g, f, h, k, b);
    LinkedExact(g, f, f', Child(h, k), b);
    LinkedExtends(g, f, f', Child(h, k), b, h.ino, At(f, h));
  }

  /** What filling an empty field of an inode leaves. */
  lemma GrewIno(g: Geo, f: Fs, r0: Ref, b: nat, n: Ino)
    requires Exact(g, f) && Fresh(g, f, b) && Live(f, r0.ino)
    requires Linked(f, PutIno(Grab(f, b), r0.ino, n), r0, b)
    requires var o := f.inos[r0.ino]; n.kind == o.kind && n.size == o.size && n.nlink == o.nlink
    ensures var f' := PutIno(Grab(f, b), r0.ino, n);
            Exact(g, f') && Extends(f, f', r0.ino) && At(f', r0) == b
  {
    var f' := PutIno(Grab(f, b), r0.ino, n);
    LinkedExact(g, f, f', r0, b);
    LinkedExtends(g, f, f', r0, b, r0.ino, 0);
  }
}
