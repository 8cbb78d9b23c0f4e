/** `lookup`, `dir_insert`, `create` and `unlink` on directory inodes, each tied to the look-ups of
    `FsDir`. */
module FsNames {
  import opened Wrappers
  import opened FsTree
  import opened FsLink
  import opened FsFile
  import opened FsLayout
  import opened FsDisk
  import opened FsReclaim
  import opened FsDir

  predicate IsDir(f: Fs, i: nat) {
    Live(f, i) && f.inos[i].kind == KIND_DIR
  }

  /** Whole slots in `size` bytes. */
  function Slots(size: nat): (n: nat)
    ensures DENT * n <= size < DENT * n + DENT
  {
    size / DENT
  }

  const PER_BLOCK: nat := 16

  /** Where in its block slot `i` starts. */
  function SlotStart(i: nat): (o: nat)
    ensures o + DENT <= BLOCK
  {
    i % PER_BLOCK * DENT
  }

  lemma SlotPlace(i: nat, p: nat)
    requires DENT * i <= p < DENT * i + DENT
    ensures p / BLOCK == i / PER_BLOCK && p % BLOCK == SlotStart(i) + (p - DENT * i)
  {
  }

  /** A slot of the directory, seen in its block. */
  lemma SlotSeen(f: Fs, p: nat, i: nat, b: nat)
    requires HoleFree(f, p) && DENT * i + DENT <= f.inos[p].size && BlockOf(f, p, i / PER_BLOCK) == b
    ensures 0 < b < |f.blocks| && f.blocks[b][SlotStart(i)..SlotStart(i) + DENT] == Slot(Content(f, p), i)
  {
    SlotPlace(i, DENT * i);
    assert ByteAt(f, p, DENT * i).Some?;
    var o := SlotStart(i);
    var t, c := f.blocks[b][o..o + DENT], Slot(Content(f, p), i);
    forall q | 0 <= q < DENT ensures t[q] == c[q] {
      SlotPlace(i, DENT * i + q);
      assert ByteAt(f, p, DENT * i + q).Some?;
    }
  }

  lemma SlotBlock(i: nat)
    ensures i * DENT / BLOCK == i / PER_BLOCK
  {
  }

  /** The bytes of a name up to its zero. */
  method NameAt(blk: Block, o: nat) returns (nb: nat)
    requires o + DENT <= BLOCK
    ensures nb <= NAME_LEN && blk[o..o + nb] == SlotName(blk[o..o + DENT])
  {
    nb := 0;
    while nb < NAME_LEN && blk[o + nb] != 0
      invariant nb <= NAME_LEN && 0 !in blk[o..o + nb]
    {
      nb := nb + 1;
    }
    assert blk[o..o + DENT][..nb] == blk[o..o + nb];
    PrefixIs(blk[o..o + DENT], NAME_LEN, blk[o..o + nb]);
  }

  /** Whether the entry at `o` is in use under `name`. */
  method Hit(blk: Block, o: nat, name: Name) returns (hit: bool)
    requires o + DENT <= BLOCK
    ensures hit == Matches(blk[o..o + DENT], name)
  {
    if blk[o] == 0 {
      return false;
    }
    var nb := NameAt(blk, o);
    hit := blk[o..o + nb] == name;
  }

  function ChildAt(blk: Block, o: nat): nat
    requires o + DENT <= BLOCK
  {
    SlotChild(blk[o..o + DENT])
  }

  /** `c` is the directory's bytes, if it is to be taken as `whole`. */
  ghost predicate Bytes(f: Fs, p: nat, whole: bool, c: seq<byte>) {
    p < |f.inos| && |c| == f.inos[p].size && (whole ==> HoleFree(f, p) && c == Content(f, p))
  }

  /** Slot `i`, in block `b`, is in use under `name`. */
  predicate SlotHit(f: Fs, p: nat, i: nat, b: nat, name: Name) {
    && 0 < b < |f.blocks| && BlockOf(f, p, i / PER_BLOCK) == b
    && Matches(f.blocks[b][SlotStart(i)..SlotStart(i) + DENT], name)
  }

  lemma Whole(f: Fs, p: nat) returns (whole: bool, c: seq<byte>)
    requires p < |f.inos|
    ensures Bytes(f, p, whole, c) && whole == HoleFree(f, p)
  {
    whole := HoleFree(f, p);
    c := if whole then Content(f, p) else Zeros(f.inos[p].size);
  }

  /** One turn of the scan: slot `i`, its block if it has one, and whether it is in use under `name`. */
  method TrySlot(d: Disk, parent: nat, rec: Ino, i: nat, name: Name, ghost f: Fs, ghost whole: bool, ghost c: seq<byte>)
    returns (rec': Ino, b: nat, hit: bool)
    requires d.Valid() && d.V() == f && Exact(d.l.g, f) && Live(f, parent) && rec == f.inos[parent]
    requires DENT * i + DENT <= rec.size && Bytes(f, parent, whole, c)
    modifies d`sectors, d`log
    ensures d.Valid() && d.V() == f && rec' == rec
    ensures whole ==> b != 0 && (hit <==> Matches(Slot(c, i), name))
    ensures hit ==> Ownable(d.l.g, b) && SlotHit(f, parent, i, b, name)
  {
    var x;
    rec', x := FindSlot(d, parent, rec, i, f, whole, c);
    if x.None? {
      return rec', 0, false;
    }
    b := x.value;
    var blk := d.ReadData(b);
    hit := Hit(blk, SlotStart(i), name);
  }

  /** The scan shared by `lookup` and `unlink`: the first slot under `name`, with its block. */
  method Scan(d: Disk, parent: nat, rec: Ino, name: Name, ghost f: Fs, ghost whole: bool, ghost c: seq<byte>)
    returns (r: Option<nat>, b: nat)
    requires Bytes(f, parent, whole, c)
    requires d.Valid() && d.V() == f && Exact(d.l.g, f) && Live(f, parent) && rec == f.inos[parent]
    modifies d`sectors, d`log
    ensures d.Valid() && d.V() == f
    ensures whole ==> r == Search(c, name, 0)
    ensures r.Some? ==> DENT * r.value + DENT <= rec.size && Ownable(d.l.g, b) && SlotHit(f, parent, r.value, b, name)
  {
    var tmp, i := rec, 0;
    b := 0;
    var n := Slots(rec.size);
    while i < n
      invariant i <= n && d.Valid() && d.V() == f && tmp == rec
      invariant whole ==> Search(c, name, 0) == Search(c, name, i)
    {
      var hit;
      tmp, b, hit := TrySlot(d, parent, tmp, i, name, f, whole, c);
      if b == 0 {
        return None, 0;
      }
      if hit {
        return Some(i), b;
      }
      i := i + 1;
    }
    r := None;
  }

  /** `data_block` for the block of slot `i`. */
  method FindSlot(d: Disk, parent: nat, rec: Ino, i: nat, ghost f: Fs, ghost whole: bool, ghost c: seq<byte>)
    returns (rec': Ino, b: Option<nat>)
    requires d.Valid() && d.V() == f && Exact(d.l.g, f) && Live(f, parent) && rec == f.inos[parent]
    requires DENT * i + DENT <= rec.size && Bytes(f, parent, whole, c)
    modifies d`sectors, d`log
    ensures d.Valid() && d.V() == f && rec' == rec
            && BlockOf(f, parent, i / PER_BLOCK) == (if b.Some? then b.value else 0)
    ensures b.Some? ==> 0 < b.value < |f.blocks| && Ownable(d.l.g, b.value)
    ensures whole ==> b.Some? && f.blocks[b.value][SlotStart(i)..SlotStart(i) + DENT] == Slot(c, i)
  {
    SlotBlock(i);
    var bi := i * DENT / BLOCK;
    rec', b := d.FindBlock(parent, rec, bi, f);
    if whole {
      SlotSeen(f, parent, i, if b.Some? then b.value else 0);
    }
  }

  /** The inode number in slot `i`, read from its block. */
  method ReadChild(d: Disk, parent: nat, i: nat, b: nat, ghost f: Fs, ghost whole: bool, ghost c: seq<byte>)
    returns (child: nat)
    requires d.Valid() && d.V() == f && Shaped(d.l.g, f) && Live(f, parent) && Bytes(f, parent, whole, c)
    requires DENT * i + DENT <= f.inos[parent].size && Ownable(d.l.g, b) && BlockOf(f, parent, i / PER_BLOCK) == b
    ensures whole ==> child == SlotChild(Slot(c, i))
  {
    var blk := d.ReadData(b);
    child := ChildAt(blk, SlotStart(i));
    if whole {
      SlotSeen(f, parent, i, b);
    }
  }

  /** `lookup` */
  method Lookup(d: Disk, parent: nat, name: Name) returns (r: Option<nat>)
    requires d.Valid() && Exact(d.l.g, d.V())
    modifies d`sectors, d`log
    ensures d.Valid() && d.V() == old(d.V())
    ensures !IsDir(d.V(), parent) || |name| > NAME_LEN ==> r == None
    ensures IsDir(d.V(), parent) && HoleFree(d.V(), parent) && |name| <= NAME_LEN ==>
              r == Look(Content(d.V(), parent), name)
  {
    if |name| > NAME_LEN {
      return None;
    }
    var rec := d.GetIno(parent);
    if rec.None? || rec.value.kind != KIND_DIR {
      return None;
    }
    ghost var f := d.V();
    ghost var whole, c := Whole(f, parent);
    var i, b := Scan(d, parent, rec.value, name, f, whole, c);
    if i.None? {
      return None;
    }
    var child := ReadChild(d, parent, i.value, b, f, whole, c);
    r := Some(child);
  }

  // ---- changing one slot ----

  /** Bytes past the end that are there are zero. */
  ghost predicate TailZero(f: Fs, i: nat) {
    i < |f.inos| && forall p :: p >= f.inos[i].size ==> ZeroIfThere(f, i, p)
  }

  predicate ZeroIfThere(f: Fs, i: nat, p: nat) {
    ByteAt(f, i, p).Some? ==> ByteAt(f, i, p) == Some(0)
  }

  lemma ExtendsTail(f: Fs, f': Fs, i: nat, p: nat)
    requires Extends(f, f', i) && ZeroIfThere(f, i, p)
    ensures ZeroIfThere(f', i, p)
  {
    if ByteAt(f, i, p).Some? {
      ExtendsByte(f, f', i, i, p);
    } else if LeafOf(i, p / BLOCK).Some? {
      LeafInRange(i, p / BLOCK);
    }
  }

  /** `f2` is `f0` with slot `i` of directory `p` set to `s`, after `f1` found or made its block. */
  lemma SlotPut(g: Geo, f0: Fs, f1: Fs, f2: Fs, p: nat, i: nat, b: nat, s: seq<byte>)
    requires Exact(g, f1) && Extends(f0, f1, p) && |s| == DENT
    requires 0 < b < |f1.blocks| && BlockOf(f1, p, i / PER_BLOCK) == b
    requires f2 == PutBlock(f1, b, Patch(f1.blocks[b], SlotStart(i), s))
    ensures Exact(g, f2) && Written(f0, f2, p, DENT * i, DENT, s)
  {
    LeafInRange(p, i / PER_BLOCK);
    WriteExact(g, f1, LeafOf(p, i / PER_BLOCK).value, Patch(f1.blocks[b], SlotStart(i), s));
    SlotPlace(i, DENT * i);
    assert s[0..DENT] == s;
    WriteStep(g, f0, f0, f1, p, DENT * i, 0, DENT, s);
  }

  /** The directory holds `c'` now; no other file has changed. */
  ghost predicate DirIs(f0: Fs, f: Fs, p: nat, c': seq<byte>) {
    && HoleFree(f, p) && Content(f, p) == c' && |f.inos| == |f0.inos|
    && f.inos[p].kind == f0.inos[p].kind && f.inos[p].nlink == f0.inos[p].nlink
    && (forall j :: 0 <= j < |f0.inos| && j != p ==> f.inos[j] == f0.inos[j])
    && forall j :: 0 <= j < |f0.inos| && j != p && HoleFree(f0, j) ==> HoleFree(f, j) && Content(f, j) == Content(f0, j)
  }

  lemma SlotPutIs(f0: Fs, f: Fs, p: nat, i: nat, s: seq<byte>)
    requires |s| == DENT && Written(f0, f, p, DENT * i, DENT, s)
    requires |f.inos| == |f0.inos| && (forall j :: 0 <= j < |f0.inos| && j != p ==> f.inos[j] == f0.inos[j])
    requires p < |f0.inos| && f.inos[p].kind == f0.inos[p].kind && f.inos[p].nlink == f0.inos[p].nlink
    requires HoleFree(f0, p) && DENT * i <= f0.inos[p].size && f.inos[p].size == Max(f0.inos[p].size, DENT * i + DENT)
    ensures DirIs(f0, f, p, Overwritten(Content(f0, p), DENT * i, s))
  {
    WrittenContent(f0, f, p, DENT * i, DENT, s);
    assert s[..DENT] == s;
    forall j | 0 <= j < |f0.inos| && j != p && HoleFree(f0, j)
      ensures HoleFree(f, j) && Content(f, j) == Content(f0, j)
    {
      WrittenOthers(f0, f, p, DENT * i, DENT, s, j);
    }
  }

  // ---- insertion ----

  /** What `dir_insert` promises of directory `p` when its bytes are in order. */
  ghost predicate InsertedInto(f0: Fs, f: Fs, p: nat, name: Name, child: nat)
    requires HoleFree(f0, p) && |name| <= NAME_LEN && child < 0x1_0000_0000
  {
    DirIs(f0, f, p, Inserted(Content(f0, p), name, child))
  }

  ghost predicate InOrder(f: Fs, p: nat) {
    IsDir(f, p) && HoleFree(f, p) && Tidy(Content(f, p)) && TailZero(f, p)
  }

  /** Whether slot `i` is free, and its block, 0 if there is none. */
  method IsFree(d: Disk, parent: nat, rec: Ino, i: nat, ghost f: Fs, ghost whole: bool, ghost c: seq<byte>)
    returns (b: nat, free: bool)
    requires d.Valid() && d.V() == f && Exact(d.l.g, f) && Live(f, parent) && rec == f.inos[parent]
    requires DENT * i + DENT <= rec.size && Bytes(f, parent, whole, c)
    modifies d`sectors, d`log
    ensures d.Valid() && d.V() == f
    ensures whole ==> b != 0 && free == (c[DENT * i] == 0)
    ensures b != 0 ==> Ownable(d.l.g, b) && BlockOf(f, parent, i / PER_BLOCK) == b
  {
    var tmp, x := FindSlot(d, parent, rec, i, f, whole, c);
    if x.None? {
      return 0, false;
    }
    b := x.value;
    var blk := d.ReadData(b);
    free := blk[SlotStart(i)] == 0;
    if whole {
      SlotFirst(blk, i, c);
    }
  }

  predicate FreeFrom(c: seq<byte>, i: nat)
    requires DENT * i <= |c|
  {
    FreeSlot(c, 0) == FreeSlot(c, i)
  }

  lemma FreeStep(c: seq<byte>, i: nat)
    requires DENT * i + DENT <= |c| && FreeFrom(c, i)
    ensures if c[DENT * i] == 0 then FreeSlot(c, 0) == i else FreeFrom(c, i + 1)
  {
  }

  /** One turn of the scan: slot `i` is the first free one, or the scan goes on. */
  method TryFree(d: Disk, parent: nat, rec: Ino, i: nat, ghost f: Fs, ghost whole: bool, ghost c: seq<byte>)
    returns (b: nat, free: bool)
    requires d.Valid() && d.V() == f && Exact(d.l.g, f) && Live(f, parent) && rec == f.inos[parent]
    requires i < Slots(rec.size) && Bytes(f, parent, whole, c) && (whole ==> FreeFrom(c, i))
    modifies d`sectors, d`log
    ensures d.Valid() && d.V() == f
    ensures whole ==> b != 0 && if free then i == FreeSlot(c, 0) else FreeFrom(c, i + 1)
    ensures b != 0 ==> Ownable(d.l.g, b) && BlockOf(f, parent, i / PER_BLOCK) == b
  {
    b, free := IsFree(d, parent, rec, i, f, whole, c);
    if whole {
      FreeStep(c, i);
    }
  }

  /** The scan for a free slot: slot `i` is the first, in block `b`; `b` is 0 when none was found among
      the slots in use, or a hole came first. */
  method FindFree(d: Disk, parent: nat, rec: Ino, ghost f: Fs, ghost whole: bool, ghost c: seq<byte>)
    returns (i: nat, b: nat)
    requires d.Valid() && d.V() == f && Exact(d.l.g, f) && Live(f, parent) && rec == f.inos[parent]
    requires Bytes(f, parent, whole, c)
    modifies d`sectors, d`log
    ensures d.Valid() && d.V() == f && i <= Slots(rec.size)
    ensures whole ==> i == FreeSlot(c, 0) && (b == 0 ==> i == Slots(rec.size))
    ensures b != 0 ==> i < Slots(rec.size) && Ownable(d.l.g, b) && BlockOf(f, parent, i / PER_BLOCK) == b
  {
    var n := Slots(rec.size);
    i, b := 0, 0;
    while i < n
      invariant i <= n && b == 0 && d.Valid() && d.V() == f
      invariant whole ==> FreeFrom(c, i)
    {
      var x, free := TryFree(d, parent, rec, i, f, whole, c);
      if x == 0 {
        return i, 0;
      }
      if free {
        return i, x;
      }
      i := i + 1;
    }
    if whole {
      FreeEnds(c, i);
    }
  }

  lemma FreeEnds(c: seq<byte>, i: nat)
    requires i == Slots(|c|) && FreeFrom(c, i)
    ensures FreeSlot(c, 0) == i
  {
  }

  lemma SlotFirst(blk: Block, i: nat, c: seq<byte>)
    requires DENT * i + DENT <= |c| && blk[SlotStart(i)..SlotStart(i) + DENT] == Slot(c, i)
    ensures blk[SlotStart(i)] == c[DENT * i]
  {
    assert blk[SlotStart(i)..SlotStart(i) + DENT][0] == Slot(c, i)[0];
  }

  lemma TwoPatches(blk: Block, o: nat, name: Name, child: nat)
    requires o + DENT <= BLOCK && |name| <= NAME_LEN && child < 0x1_0000_0000
    ensures Patch(Patch(blk, o, name), o + NAME_LEN, Bytes4(child))
            == Patch(blk, o, NewSlot(blk[o..o + DENT], name, child))
  {
    var w := Bytes4(child);
    assert |w| == 4;
    assert Patch(Patch(blk, o, name), o + NAME_LEN, w)
        == blk[..o] + name + blk[o + |name|..o + NAME_LEN] + w + blk[o + DENT..];
  }

  /** `blk[o..o + name.len()]` and the child's number, written back. */
  method PutSlot(d: Disk, b: nat, o: nat, name: Name, child: nat)
    requires d.Valid() && Ownable(d.l.g, b) && o + DENT <= BLOCK && |name| <= NAME_LEN && child < 0x1_0000_0000
    modifies d`sectors, d`log
    ensures d.Valid()
    ensures var blk := old(d.V()).blocks[b];
            d.V() == PutBlock(old(d.V()), b, Patch(blk, o, NewSlot(blk[o..o + DENT], name, child)))
  {
    var blk := d.ReadData(b);
    var named := Patch(blk, o, name);
    var done := Patch(named, o + NAME_LEN, Bytes4(child));
    TwoPatches(blk, o, name, child);
    d.WriteData(b, done);
  }

  /** The directory after one of its slots in use has been set. */
  lemma SetIs(g: Geo, f0: Fs, f: Fs, p: nat, i: nat, b: nat, s: seq<byte>)
    requires Exact(g, f0) && p < |f0.inos| && DENT * i + DENT <= f0.inos[p].size && |s| == DENT && Ownable(g, b)
    requires b != 0 && BlockOf(f0, p, i / PER_BLOCK) == b
    requires f == PutBlock(f0, b, Patch(f0.blocks[b], SlotStart(i), s))
    ensures Exact(g, f) && (HoleFree(f0, p) ==> DirIs(f0, f, p, Overwritten(Content(f0, p), DENT * i, s)))
    ensures TailZero(f0, p) ==> TailZero(f, p)
  {
    ExtendsRefl(f0, p);
    SlotPut(g, f0, f0, f, p, i, b, s);
    if TailZero(f0, p) {
      forall q | q >= f.inos[p].size ensures ZeroIfThere(f, p, q) {
        assert ZeroIfThere(f0, p, q);
        TailAfter(g, f0, f0, p, i, b, s, q);
      }
    }
    if HoleFree(f0, p) {
      SlotPutIs(f0, f, p, i, s);
    }
  }

  /** A directory that has a block for another slot is small enough to grow by one. */
  lemma RoomForSize(rec: Ino, p: nat, n: nat) returns (rec': Ino)
    requires Storable(rec) && n == Slots(rec.size) && LeafOf(p, n / PER_BLOCK).Some?
    ensures rec' == rec.(size := rec.size + DENT) && Storable(rec')
  {
    rec' := rec.(size := rec.size + DENT);
    assert n / PER_BLOCK < 16520;
    assert rec.size < DENT * n + DENT;
  }

  /** The slot past the end is zero in its block, found or new. */
  lemma TailSlot(f0: Fs, f1: Fs, p: nat, n: nat, b: nat)
    requires Extends(f0, f1, p) && TailZero(f0, p) && f0.inos[p].size <= DENT * n
    requires 0 < b < |f1.blocks| && BlockOf(f1, p, n / PER_BLOCK) == b
    ensures f1.blocks[b][SlotStart(n)..SlotStart(n) + DENT] == Zeros(DENT)
  {
    var o := SlotStart(n);
    var t := f1.blocks[b][o..o + DENT];
    forall q | 0 <= q < DENT ensures t[q] == 0 {
      var p' := DENT * n + q;
      SlotPlace(n, p');
      assert ZeroIfThere(f0, p, p');
      ExtendsTail(f0, f1, p, p');
    }
  }

  /** Past the slot set what was zero is still zero. */
  lemma TailAfter(g: Geo, f0: Fs, f1: Fs, p: nat, n: nat, b: nat, s: seq<byte>, q: nat)
    requires Exact(g, f1) && Extends(f0, f1, p) && ZeroIfThere(f0, p, q) && |s| == DENT
    requires 0 < b < |f1.blocks| && BlockOf(f1, p, n / PER_BLOCK) == b && q >= DENT * n + DENT
    ensures ZeroIfThere(PutBlock(f1, b, Patch(f1.blocks[b], SlotStart(n), s)), p, q)
  {
    var d := Patch(f1.blocks[b], SlotStart(n), s);
    WriteByte(g, f1, p, n / PER_BLOCK, d, p, q);
    ExtendsTail(f0, f1, p, q);
    if q / BLOCK == n / PER_BLOCK {
      assert q % BLOCK >= SlotStart(n) + DENT;
      assert d[q % BLOCK] == f1.blocks[b][q % BLOCK];
    }
  }

  /** A directory in order has a new last slot. */
  ghost predicate Appended(f0: Fs, f: Fs, p: nat, n: nat, name: Name, child: nat)
    requires |name| <= NAME_LEN && child < 0x1_0000_0000
  {
    InOrder(f0, p) && DENT * n == f0.inos[p].size ==>
      && DirIs(f0, f, p, Overwritten(Content(f0, p), DENT * n, NewSlot(Zeros(DENT), name, child)))
      && TailZero(f, p)
  }

  lemma AppendIs(g: Geo, f0: Fs, f1: Fs, f2: Fs, f: Fs, p: nat, rec: Ino, rec': Ino, n: nat, b: nat, name: Name,
                 child: nat)
    requires Exact(g, f1) && Extends(f0, f1, p) && |name| <= NAME_LEN && child < 0x1_0000_0000
    requires 0 < b < |f1.blocks| && BlockOf(f1, p, n / PER_BLOCK) == b && n == Slots(f1.inos[p].size)
    requires var o := SlotStart(n);
             f2 == PutBlock(f1, b, Patch(f1.blocks[b], o, NewSlot(f1.blocks[b][o..o + DENT], name, child)))
    requires rec == f1.inos[p] && rec' == rec.(size := rec.size + DENT) && f == PutIno(f2, p, rec')
    ensures Exact(g, f) && Appended(f0, f, p, n, name, child)
  {
    var o := SlotStart(n);
    var s := NewSlot(f1.blocks[b][o..o + DENT], name, child);
    SlotPut(g, f0, f1, f2, p, n, b, s);
    var size := f2.inos[p].size + DENT;
    SizeExact(g, f2, p, size);
    SizeWritten(f0, f2, f, p, DENT * n, DENT, s, size);
    if InOrder(f0, p) {
      TailSlot(f0, f1, p, n, b);
      SlotPutIs(f0, f, p, n, s);
      forall q | q >= f.inos[p].size ensures ZeroIfThere(f, p, q) {
        assert ZeroIfThere(f0, p, q);
        TailAfter(g, f0, f1, p, n, b, s, q);
        SizeSameByte(f2, p, size, p, q);
      }
    }
  }

  /** A new slot in its block, and the size. */
  method AppendSlot(d: Disk, parent: nat, rec: Ino, n: nat, b: nat, name: Name, child: nat, ghost f0: Fs)
    requires d.Valid() && Exact(d.l.g, d.V()) && Live(d.V(), parent) && rec == d.V().inos[parent]
    requires Extends(f0, d.V(), parent) && n == Slots(rec.size) && |name| <= NAME_LEN && child < 0x1_0000_0000
    requires b != 0 && BlockOf(d.V(), parent, n / PER_BLOCK) == b
    modifies d`sectors, d`log
    ensures d.Valid() && Exact(d.l.g, d.V()) && Appended(f0, d.V(), parent, n, name, child)
  {
    ghost var f1 := d.V();
    ghost var bi := n / PER_BLOCK;
    BlockFound(d.l.g, f1, parent, bi, b);
    PutSlot(d, b, SlotStart(n), name, child);
    ghost var f2 := d.V();
    InosStorable(d.l, d.sectors, parent);
    ghost var grown := RoomForSize(rec, parent, n);
    var rec' := rec.(size := rec.size + DENT);
    d.PutInode(parent, rec');
    AppendIs(d.l.g, f0, f1, f2, d.V(), parent, rec, rec', n, b, name, child);
  }

  /** A new last slot, with a new block if it needs one. */
  method Append(d: Disk, parent: nat, rec: Ino, n: nat, name: Name, child: nat) returns (ok: bool)
    requires d.Valid() && Exact(d.l.g, d.V()) && Live(d.V(), parent) && rec == d.V().inos[parent]
    requires n == Slots(rec.size) && |name| <= NAME_LEN && child < 0x1_0000_0000
    modifies d`sectors, d`log
    ensures d.Valid() && Exact(d.l.g, d.V())
    ensures if ok then Appended(old(d.V()), d.V(), parent, n, name, child)
            else Extends(old(d.V()), d.V(), parent) && (LeafOf(parent, n / PER_BLOCK).None? || Full(d.l.g, d.V()))
  {
    ghost var f0 := d.V();
    SlotBlock(n);
    var bi := n * DENT / BLOCK;
    var rec', r := d.DataBlock(parent, rec, bi, true);
    if r.None? {
      return false;
    }
    AppendSlot(d, parent, rec', n, r.value, name, child, f0);
    ok := true;
  }

  /** Directory `p`, with contents `c`, has no free slot, and `f` no room for one more: the directory is as
      long as a file can be, or every block is in use. */
  predicate NoSlot(g: Geo, f: Fs, p: nat, c: seq<byte>) {
    FreeSlot(c, 0) == Slots(|c|) && (LeafOf(p, Slots(|c|) / PER_BLOCK).None? || Full(g, f))
  }

  /** `dir_insert`: into the first free slot, or appended. */
  method DirInsert(d: Disk, parent: nat, name: Name, child: nat) returns (ok: bool)
    requires d.Valid() && Exact(d.l.g, d.V()) && 0 < |name| <= NAME_LEN && child < 0x1_0000_0000
    modifies d`sectors, d`log
    ensures d.Valid() && Exact(d.l.g, d.V())
    ensures ok && InOrder(old(d.V()), parent) ==>
              DirIs(old(d.V()), d.V(), parent, Inserted(Content(old(d.V()), parent), name, child))
                && TailZero(d.V(), parent)
    ensures !ok ==> d.V() == old(d.V()) || Extends(old(d.V()), d.V(), parent)
    ensures ok ==> IsDir(old(d.V()), parent)
    ensures !ok && IsDir(old(d.V()), parent) && HoleFree(old(d.V()), parent) ==>
              NoSlot(d.l.g, d.V(), parent, Content(old(d.V()), parent))
  {
    var r := d.GetIno(parent);
    if r.None? || r.value.kind != KIND_DIR {
      return false;
    }
    var rec := r.value;
    ghost var f := d.V();
    ghost var whole, c := Whole(f, parent);
    var i, b := FindFree(d, parent, rec, f, whole, c);
    if b != 0 {
      PutSlot(d, b, SlotStart(i), name, child);
      SetFree(d.l.g, f, d.V(), parent, i, b, name, child);
      ok := true;
    } else if i < Slots(rec.size) {
      ok := false;
    } else {
      ok := Append(d, parent, rec, i, name, child);
    }
  }

  lemma SetFree(g: Geo, f0: Fs, f: Fs, p: nat, i: nat, b: nat, name: Name, child: nat)
    requires Exact(g, f0) && Live(f0, p) && i < Slots(f0.inos[p].size) && Ownable(g, b)
    requires b != 0 && BlockOf(f0, p, i / PER_BLOCK) == b && |name| <= NAME_LEN && child < 0x1_0000_0000
    requires HoleFree(f0, p) ==> i == FreeSlot(Content(f0, p), 0)
    requires var o := SlotStart(i);
             f == PutBlock(f0, b, Patch(f0.blocks[b], o, NewSlot(f0.blocks[b][o..o + DENT], name, child)))
    ensures Exact(g, f) && (HoleFree(f0, p) ==> DirIs(f0, f, p, Inserted(Content(f0, p), name, child)))
    ensures TailZero(f0, p) ==> TailZero(f, p)
  {
    var o := SlotStart(i);
    SetIs(g, f0, f, p, i, b, NewSlot(f0.blocks[b][o..o + DENT], name, child));
    if HoleFree(f0, p) {
      SlotSeen(f0, p, i, b);
    }
  }

  // ---- removal ----

  /** `for x in &mut blk[o..o + DENT] { *x = 0; }`, written back. */
  method ZeroSlot(d: Disk, b: nat, o: nat)
    requires d.Valid() && Ownable(d.l.g, b) && o + DENT <= BLOCK
    modifies d`sectors, d`log
    ensures d.Valid() && d.V() == PutBlock(old(d.V()), b, Patch(old(d.V()).blocks[b], o, Zeros(DENT)))
  {
    var blk := d.ReadData(b);
    d.WriteData(b, Patch(blk, o, Zeros(DENT)));
  }

  /** The first half of `unlink`: the entry under `name` is zeroed and its child reported. */
  method TakeEntry(d: Disk, parent: nat, name: Name) returns (r: Option<nat>)
    requires d.Valid() && Exact(d.l.g, d.V())
    modifies d`sectors, d`log
    ensures d.Valid() && Exact(d.l.g, d.V()) && (r.None? ==> d.V() == old(d.V()))
    ensures InOrder(old(d.V()), parent) ==> r == Look(Content(old(d.V()), parent), name)
    ensures InOrder(old(d.V()), parent) && r.Some? ==> TookEntry(old(d.V()), d.V(), parent, name)
  {
    var rec := d.GetIno(parent);
    if rec.None? || rec.value.kind != KIND_DIR {
      return None;
    }
    ghost var f := d.V();
    ghost var whole, c := Whole(f, parent);
    var i, b := Scan(d, parent, rec.value, name, f, whole, c);
    if i.None? {
      return None;
    }
    var blk := d.ReadData(b);
    r := Some(ChildAt(blk, SlotStart(i.value)));
    if HoleFree(f, parent) {
      SlotSeen(f, parent, i.value, b);
    }
    ZeroSlot(d, b, SlotStart(i.value));
    SetIs(d.l.g, f, d.V(), parent, i.value, b, Zeros(DENT));
  }

  ghost predicate TookEntry(f0: Fs, f: Fs, p: nat, name: Name)
    requires HoleFree(f0, p)
  {
    var i := Search(Content(f0, p), name, 0);
    i.Some? && DirIs(f0, f, p, Removed(Content(f0, p), i.value)) && TailZero(f, p)
  }

  /** `unlink`: the entry goes, and then one link of the inode it named. */
  method Unlink(d: Disk, parent: nat, name: Name) returns (ok: bool)
    requires d.Valid() && Exact(d.l.g, d.V())
    modifies d`sectors, d`log
    ensures d.Valid() && Exact(d.l.g, d.V()) && (!ok ==> d.V() == old(d.V()))
    ensures InOrder(old(d.V()), parent) ==> ok == Look(Content(old(d.V()), parent), name).Some?
    ensures InOrder(old(d.V()), parent) && ok ==> Unlinked(old(d.V()), d.V(), parent, name)
  {
    var r := TakeEntry(d, parent, name);
    if r.None? {
      return false;
    }
    ghost var f1 := d.V();
    DropLink(d, r.value);
    ok := true;
    if InOrder(old(d.V()), parent) {
      UnlinkDone(d.l.g, old(d.V()), f1, d.V(), parent, name, r.value);
    }
  }

  /** Record and contents of file `j` are the same. */
  ghost predicate SameFile(f0: Fs, f: Fs, j: nat)
    requires j < |f0.inos| == |f.inos|
  {
    f.inos[j] == f0.inos[j] && (HoleFree(f0, j) ==> HoleFree(f, j) && Content(f, j) == Content(f0, j))
  }

  /** Inode `i` has lost a link: it has one fewer and its contents, or with the last one it is free. */
  ghost predicate LostLink(f0: Fs, f: Fs, i: nat)
    requires Live(f0, i) && |f.inos| == |f0.inos|
  {
    if f0.inos[i].nlink > 1 then
      && f.inos[i] == f0.inos[i].(nlink := f0.inos[i].nlink - 1)
      && (HoleFree(f0, i) ==> HoleFree(f, i) && Content(f, i) == Content(f0, i))
    else f.inos[i] == f0.inos[i].(kind := 0)
  }

  /** The directory lost the entry and the inode it named a link, and no other file changed, unless the
      entry named the directory itself. */
  ghost predicate Unlinked(f0: Fs, f: Fs, p: nat, name: Name)
    requires HoleFree(f0, p)
  {
    var i := Search(Content(f0, p), name, 0);
    i.Some? && |f.inos| == |f0.inos|
    && var child := SlotChild(Slot(Content(f0, p), i.value));
       child != p ==>
         && HoleFree(f, p) && Content(f, p) == Removed(Content(f0, p), i.value) && SameObject(f0, f, p)
         && (Live(f0, child) ==> LostLink(f0, f, child))
         && forall j :: 0 <= j < |f0.inos| && j != p && (j != child || !Live(f0, child)) ==> SameFile(f0, f, j)
  }

  predicate SameObject(f0: Fs, f: Fs, p: nat)
    requires p < |f0.inos| == |f.inos|
  {
    f.inos[p].kind == f0.inos[p].kind && f.inos[p].nlink == f0.inos[p].nlink
  }

  lemma UnlinkDone(g: Geo, f0: Fs, f1: Fs, f: Fs, p: nat, name: Name, child: nat)
    requires Shaped(g, f1) && Shaped(g, f) && HoleFree(f0, p) && TookEntry(f0, f1, p, name) && Dropped(g, f1, f, child)
    requires Look(Content(f0, p), name) == Some(child)
    ensures Unlinked(f0, f, p, name)
  {
    if p != child {
      DroppedKeeps(g, f1, f, child, p);
      if Live(f0, child) {
        LinkLost(g, f0, f1, f, p, child);
      }
      forall j | 0 <= j < |f0.inos| && j != p && (j != child || !Live(f0, child)) ensures SameFile(f0, f, j) {
        Bystander(g, f0, f1, f, p, child, j);
      }
    }
  }

  lemma LinkLost(g: Geo, f0: Fs, f1: Fs, f: Fs, p: nat, child: nat)
    requires Shaped(g, f1) && Shaped(g, f) && p < |f0.inos| && Dropped(g, f1, f, child) && p != child && Live(f0, child)
    requires HoleFree(f1, p) && DirIs(f0, f1, p, Content(f1, p))
    ensures LostLink(f0, f, child)
  {
    if f0.inos[child].nlink > 1 && HoleFree(f0, child) {
      forall q | 0 <= q < f.inos[child].size
        ensures ByteAt(f, child, q) == ByteAt(f1, child, q) && ByteAt(f1, child, q).Some?
      {
        LinkSameByte(f1, child, f1.inos[child].nlink - 1, child, q);
      }
    }
  }

  lemma LinkSameByte(f: Fs, i: nat, n: nat, j: nat, p: nat)
    requires i < |f.inos|
    ensures ByteAt(PutIno(f, i, f.inos[i].(nlink := n)), j, p) == ByteAt(f, j, p)
  {
    if LeafOf(j, p / BLOCK).Some? {
      LeafInRange(j, p / BLOCK);
    }
  }

  lemma Bystander(g: Geo, f0: Fs, f1: Fs, f: Fs, p: nat, child: nat, j: nat)
    requires Shaped(g, f1) && Shaped(g, f) && p < |f0.inos| && Dropped(g, f1, f, child) && p != child
    requires HoleFree(f1, p) && DirIs(f0, f1, p, Content(f1, p))
    requires j < |f0.inos| && j != p && (j != child || !Live(f0, child))
    ensures |f.inos| == |f0.inos| && SameFile(f0, f, j)
  {
    if Live(f1, child) && f1.inos[child].nlink > 1 {
      RecordChange(f1, f, child);
    }
  }

  // ---- creation ----

  /** `create_empty` and `mkdir` past their path walk: a free inode, then its name. */
  method Create(d: Disk, parent: nat, name: Name, kind: nat) returns (ok: bool, ghost child: nat)
    requires d.Valid() && Exact(d.l.g, d.V()) && 0 < |name| <= NAME_LEN && (kind == KIND_FILE || kind == KIND_DIR)
    modifies d`sectors, d`log
    ensures d.Valid() && Exact(d.l.g, d.V())
    ensures ok && InOrder(old(d.V()), parent) ==> Created(old(d.V()), d.V(), parent, name, kind, child)
    ensures !ok ==> if child == 0 then d.V() == old(d.V()) else Leaked(old(d.V()), d.V(), child)
    ensures child == 0 <==> NoneFree(old(d.V()), |old(d.V()).inos|)
    ensures !ok && child != 0 && InOrder(old(d.V()), parent) ==>
              NoSlot(d.l.g, d.V(), parent, Content(old(d.V()), parent))
  {
    ghost var f0 := d.V();
    var i := TakeInode(d, kind);
    if i.None? {
      return false, 0;
    }
    child := i.value;
    ghost var f1 := d.V();
    ok := DirInsert(d, parent, name, i.value);
    if InOrder(f0, parent) {
      TakenInOrder(f0, f1, i.value, kind, parent);
    }
    if ok && InOrder(f0, parent) {
      CreateDone(f0, f1, d.V(), parent, name, kind, child);
    }
    if !ok {
      NotNamed(f0, f1, d.V(), parent, kind, child);
    }
  }

  /** The inode stays taken when its name could not be inserted. */
  predicate Leaked(f0: Fs, f: Fs, i: nat) {
    0 < i < |f0.inos| && f0.inos[i].kind == 0 && Live(f, i)
  }

  lemma NotNamed(f0: Fs, f1: Fs, f: Fs, p: nat, kind: nat, i: nat)
    requires Taken(f0, f1, i, kind) && (kind == KIND_FILE || kind == KIND_DIR)
    requires f == f1 || Extends(f1, f, p)
    ensures Leaked(f0, f, i)
  {
  }

  /** The first free inode is an empty file or directory with one link, under a new name, and no other file
      has changed. */
  ghost predicate Created(f0: Fs, f: Fs, p: nat, name: Name, kind: nat, child: nat)
    requires HoleFree(f0, p) && |name| <= NAME_LEN
  {
    && 0 < child < |f.inos| == |f0.inos| && child < 0x1_0000_0000 && f0.inos[child].kind == 0 && NoneFree(f0, child)
    && f.inos[child] == EMPTY.(kind := kind, nlink := 1) && HoleFree(f, child) && Content(f, child) == []
    && HoleFree(f, p) && Content(f, p) == Inserted(Content(f0, p), name, child) && SameObject(f0, f, p)
    && forall j :: 0 <= j < |f0.inos| && j != p && j != child ==> SameFile(f0, f, j)
  }

  lemma TakenInOrder(f0: Fs, f1: Fs, i: nat, kind: nat, p: nat)
    requires Taken(f0, f1, i, kind) && InOrder(f0, p)
    ensures InOrder(f1, p) && p != i && Content(f1, p) == Content(f0, p)
  {
    forall q | q >= f1.inos[p].size ensures ZeroIfThere(f1, p, q) {
      assert ZeroIfThere(f0, p, q);
      SameByte(f0, f1, p, q);
    }
  }

  lemma CreateDone(f0: Fs, f1: Fs, f: Fs, p: nat, name: Name, kind: nat, i: nat)
    requires Taken(f0, f1, i, kind) && InOrder(f0, p) && |name| <= NAME_LEN && i < 0x1_0000_0000
    requires InOrder(f1, p) ==> DirIs(f1, f, p, Inserted(Content(f1, p), name, i))
    ensures Created(f0, f, p, name, kind, i)
  {
    TakenInOrder(f0, f1, i, kind, p);
  }
}
