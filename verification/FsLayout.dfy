/** The bytes behind the bitmap and the inode table, and the round trips between bytes and the
    values of `FsTree`. */
module FsLayout {
  import opened Wrappers
  import opened Arithmetic
  import opened FsTree
  import opened FsLink
  import opened FsFile

  const INODES_PER_BLOCK: nat := 8
  const BITS_PER_BLOCK: nat := 4096

  /** Where the superblock puts the two tables. */
  datatype Layout = Layout(g: Geo, bmap: nat, table: nat)

  predicate Placed(l: Layout) {
    && 0 < l.bmap && l.bmap + (l.g.blocks + 4095) / BITS_PER_BLOCK <= l.table
    && l.table + (l.g.inodes + 7) / INODES_PER_BLOCK <= l.g.data <= l.g.blocks
    && l.g.blocks < 0x1_0000_0000 && l.g.inodes < 0x1_0000_0000 && l.g.jlba + l.g.jb <= l.g.blocks
  }

  // ---- bits ----

  function Pow2(n: nat): (p: nat)
    ensures p > 0
  {
    if n == 0 then 1 else 2 * Pow2(n - 1)
  }

  /** `x & 1 << k != 0`, one shift at a time. */
  predicate TestBit(x: nat, k: nat) {
    if k == 0 then x % 2 == 1 else TestBit(x / 2, k - 1)
  }

  /** `x | 1 << k` or `x & !(1 << k)` */
  function FlipTo(x: nat, k: nat, v: bool): nat {
    if k == 0 then x / 2 * 2 + (if v then 1 else 0) else 2 * FlipTo(x / 2, k - 1, v) + x % 2
  }

  lemma {:induction false} FlipFits(x: nat, k: nat, v: bool, n: nat)
    requires k < n && x < Pow2(n)
    ensures FlipTo(x, k, v) < Pow2(n)
  {
    if k > 0 {
      FlipFits(x / 2, k - 1, v, n - 1);
    }
  }

  lemma {:induction false} FlipTests(x: nat, k: nat, v: bool, j: nat)
    ensures TestBit(FlipTo(x, k, v), j) == if j == k then v else TestBit(x, j)
  {
    var y := FlipTo(x, k, v);
    if k > 0 {
      assert y % 2 == x % 2 && y / 2 == FlipTo(x / 2, k - 1, v);
      if j > 0 {
        FlipTests(x / 2, k - 1, v, j - 1);
      }
    } else {
      assert y / 2 == x / 2;
    }
  }

  lemma EightBits()
    ensures Pow2(8) == 256
  {
    assert Pow2(2) == 4 && Pow2(4) == 16 && Pow2(6) == 64;
  }

  function FlipByte(x: byte, k: nat, v: bool): byte
    requires k < 8
  {
    EightBits();
    FlipFits(x as nat, k, v, 8);
    FlipTo(x as nat, k, v) as byte
  }

  function BitLba(l: Layout, b: nat): nat {
    l.bmap + b / 8 / BLOCK
  }

  function BitOf(l: Layout, d: seq<Block>, b: nat): bool
    requires BitLba(l, b) < |d|
  {
    TestBit(d[BitLba(l, b)][b / 8 % BLOCK] as nat, b % 8)
  }

  function WithBit(l: Layout, d: seq<Block>, b: nat, v: bool): seq<Block>
    requires BitLba(l, b) < |d|
  {
    var s := d[BitLba(l, b)];
    d[BitLba(l, b) := s[b / 8 % BLOCK := FlipByte(s[b / 8 % BLOCK], b % 8, v)]]
  }

  lemma BitPlaced(l: Layout, b: nat)
    requires Placed(l) && b < l.g.blocks
    ensures l.bmap <= BitLba(l, b) < l.table
  {
  }

  lemma WithBitBit(l: Layout, d: seq<Block>, b: nat, v: bool, c: nat)
    requires BitLba(l, b) < |d| && BitLba(l, c) < |d|
    ensures BitOf(l, WithBit(l, d, b, v), c) == if c == b then v else BitOf(l, d, c)
  {
    if BitLba(l, c) == BitLba(l, b) && c / 8 % BLOCK == b / 8 % BLOCK {
      assert c / 8 == b / 8;
      FlipTests(d[BitLba(l, b)][b / 8 % BLOCK] as nat, b % 8, v, c % 8);
    }
  }

  // ---- inode records: sixteen words each ----

  function InoLba(l: Layout, i: nat): nat
    requires i > 0
  {
    l.table + (i - 1) / INODES_PER_BLOCK
  }

  /** The first of the sixteen words of inode `i` in its sector. */
  function Word(i: nat): (w: nat)
    requires i > 0
    ensures w + 16 <= PPB
  {
    (i - 1) % INODES_PER_BLOCK * 16
  }

  /** The record starting at word `w`: kind in the first byte, size at +4, direct at +8, indirect at
      +40, nlink at +44 (0 read as 1), dind at +48. */
  function Record(s: Block, w: nat): (n: Ino)
    requires w + 16 <= PPB
    ensures |n.direct| == 8
  {
    var nl := Ptr(s, w + 11);
    Ino(s[4 * w] as nat, Ptr(s, w + 1),
        [Ptr(s, w + 2), Ptr(s, w + 3), Ptr(s, w + 4), Ptr(s, w + 5),
         Ptr(s, w + 6), Ptr(s, w + 7), Ptr(s, w + 8), Ptr(s, w + 9)],
        Ptr(s, w + 10), if nl == 0 then 1 else nl, Ptr(s, w + 12))
  }

  /** What fits a record. */
  predicate Storable(n: Ino) {
    && n.kind < 256 && n.size < 0x1_0000_0000 && |n.direct| == 8
      && (forall k :: 0 <= k < 8 ==> n.direct[k] < 0x1_0000_0000)
    && n.indirect < 0x1_0000_0000 && 0 < n.nlink < 0x1_0000_0000 && n.dind < 0x1_0000_0000
  }

  function Word32(n: Ino, k: nat): nat
    requires Storable(n) && k < 13
  {
    if k == 0 then n.kind else if k == 1 then n.size else if k < 10 then n.direct[k - 2]
    else if k == 10 then n.indirect else if k == 11 then n.nlink else n.dind
  }

  /** `put_ino` on one sector: the kind with its three zero bytes is the first word. */
  function PutWords(s: Block, w: nat, n: Ino, k: nat): Block
    requires w + 16 <= PPB && Storable(n) && k <= 13
  {
    if k == 0 then s else SetPtr(PutWords(s, w, n, k - 1), w + (k - 1), Word32(n, k - 1))
  }

  lemma {:induction false} PutWordsAt(s: Block, w: nat, n: Ino, k: nat, j: nat)
    requires w + 16 <= PPB && Storable(n) && k <= 13 && j < PPB
    ensures Ptr(PutWords(s, w, n, k), j) == if w <= j < w + k then Word32(n, j - w) else Ptr(s, j)
  {
    if k > 0 {
      PutWordsAt(s, w, n, k - 1, j);
      PtrSet(PutWords(s, w, n, k - 1), w + (k - 1), Word32(n, k - 1), j);
    }
  }

  lemma FirstByte(s: Block, w: nat)
    requires w < PPB
    ensures s[4 * w] as nat == Ptr(s, w) % 256
  {
  }

  lemma RecordPut(s: Block, w: nat, n: Ino)
    requires w + 16 <= PPB && Storable(n)
    ensures Record(PutWords(s, w, n, 13), w) == n
  {
    var t := PutWords(s, w, n, 13);
    forall j | w <= j < w + 13 ensures Ptr(t, j) == Word32(n, j - w) {
      PutWordsAt(s, w, n, 13, j);
    }
    FirstByte(t, w);
    assert Record(t, w).direct == n.direct;
  }

  /** The other seven records of the sector are untouched. */
  lemma RecordOther(s: Block, w: nat, n: Ino, v: nat)
    requires w + 16 <= PPB && v + 16 <= PPB && Storable(n) && (v + 16 <= w || w + 16 <= v)
    ensures Record(PutWords(s, w, n, 13), v) == Record(s, v)
  {
    var t := PutWords(s, w, n, 13);
    forall j | v <= j < v + 13 ensures Ptr(t, j) == Ptr(s, j) {
      PutWordsAt(s, w, n, 13, j);
    }
    FirstByte(t, v);
    FirstByte(s, v);
  }

  /** Words 1 to `k - 1` of the record and the kind byte, the three bytes after it left alone. */
  function PutKindAnd(s: Block, w: nat, n: Ino, k: nat): Block
    requires w + 16 <= PPB && Storable(n) && 0 < k <= 13
    decreases k
  {
    if k == 1 then s[4 * w := n.kind as byte] else SetPtr(PutKindAnd(s, w, n, k - 1), w + (k - 1), Word32(n, k - 1))
  }

  lemma SetAfter(t: Block, w: nat, k: nat, v: nat, j: nat)
    requires w + 16 <= PPB && 0 < k < 13 && v < 0x1_0000_0000 && j < PPB
    ensures SetPtr(t, w + k, v)[4 * w] == t[4 * w]
    ensures Ptr(SetPtr(t, w + k, v), j) == if j == w + k then v else Ptr(t, j)
  {
    PtrSet(t, w + k, v, j);
  }

  lemma {:induction false} PutKindAndAt(s: Block, w: nat, n: Ino, k: nat, j: nat)
    requires w + 16 <= PPB && Storable(n) && 0 < k <= 13 && j < PPB
    ensures var t := PutKindAnd(s, w, n, k);
            if j == w then t[4 * w] as nat == n.kind
            else Ptr(t, j) == (if w < j < w + k then Word32(n, j - w) else Ptr(s, j))
  {
    if k > 1 {
      PutKindAndAt(s, w, n, k - 1, j);
      SetAfter(PutKindAnd(s, w, n, k - 1), w, k - 1, Word32(n, k - 1), j);
    }
  }

  lemma RecordIs(t: Block, w: nat, n: Ino)
    requires w + 16 <= PPB && Storable(n) && t[4 * w] as nat == n.kind
    requires forall j :: w < j < w + 13 && j != w + 11 ==> Ptr(t, j) == Word32(n, j - w)
    requires n.nlink == (var nl := Ptr(t, w + 11); if nl == 0 then 1 else nl)
    ensures Record(t, w) == n
  {
    assert Record(t, w).direct == n.direct;
  }

  /** Writing every field. */
  lemma RecordReset(s: Block, w: nat, n: Ino)
    requires w + 16 <= PPB && Storable(n)
    ensures Record(PutKindAnd(s, w, n, 13), w) == n
  {
    var t := PutKindAnd(s, w, n, 13);
    PutKindAndAt(s, w, n, 13, w);
    forall j | w < j < w + 13 ensures Ptr(t, j) == Word32(n, j - w) {
      PutKindAndAt(s, w, n, 13, j);
    }
    RecordIs(t, w, n);
  }

  /** Writing only the kind. */
  lemma RecordKind(s: Block, w: nat, n: Ino)
    requires w + 16 <= PPB && Storable(n) && n == Record(s, w).(kind := n.kind)
    ensures Record(PutKindAnd(s, w, n, 1), w) == n
  {
    var t := PutKindAnd(s, w, n, 1);
    PutKindAndAt(s, w, n, 1, w);
    forall j | w < j < w + 13 ensures Ptr(t, j) == Ptr(s, j) {
      PutKindAndAt(s, w, n, 1, j);
    }
    assert Record(t, w).direct == Record(s, w).direct;
  }

  lemma RecordKindOther(s: Block, w: nat, n: Ino, k: nat, v: nat)
    requires w + 16 <= PPB && v + 16 <= PPB && Storable(n) && (v + 16 <= w || w + 16 <= v) && 0 < k <= 13
    ensures Record(PutKindAnd(s, w, n, k), v) == Record(s, v)
  {
    var t := PutKindAnd(s, w, n, k);
    forall j | v <= j < v + 13 ensures Ptr(t, j) == Ptr(s, j) {
      PutKindAndAt(s, w, n, k, j);
    }
    FirstByte(t, v);
    FirstByte(s, v);
  }

  function InoOf(l: Layout, d: seq<Block>, i: nat): (n: Ino)
    requires 0 < i && InoLba(l, i) < |d|
    ensures |n.direct| == 8
  {
    Record(d[InoLba(l, i)], Word(i))
  }

  function WithIno(l: Layout, d: seq<Block>, i: nat, n: Ino): seq<Block>
    requires 0 < i && InoLba(l, i) < |d| && Storable(n)
  {
    d[InoLba(l, i) := PutWords(d[InoLba(l, i)], Word(i), n, 13)]
  }

  lemma InoPlaced(l: Layout, i: nat)
    requires Placed(l) && 0 < i <= l.g.inodes
    ensures l.table <= InoLba(l, i) < l.g.data
  {
  }

  lemma WordsApart(i: nat, j: nat)
    requires 0 < i && 0 < j && i != j && (i - 1) / INODES_PER_BLOCK == (j - 1) / INODES_PER_BLOCK
    ensures Word(i) + 16 <= Word(j) || Word(j) + 16 <= Word(i)
  {
  }

  lemma WithInoIno(l: Layout, d: seq<Block>, i: nat, n: Ino, j: nat)
    requires 0 < i && 0 < j && InoLba(l, i) < |d| && InoLba(l, j) < |d| && Storable(n)
    ensures InoOf(l, WithIno(l, d, i, n), j) == if j == i then n else InoOf(l, d, j)
  {
    if j == i {
      RecordPut(d[InoLba(l, i)], Word(i), n);
    } else if InoLba(l, j) == InoLba(l, i) {
      WordsApart(i, j);
      RecordOther(d[InoLba(l, i)], Word(i), n, Word(j));
    }
  }

  // ---- the view ----

  predicate Device(l: Layout, d: seq<Block>) {
    Placed(l) && |d| == l.g.blocks
  }

  function Bits(l: Layout, d: seq<Block>): (r: seq<bool>)
    requires Device(l, d)
    ensures |r| == l.g.blocks
  {
    seq(l.g.blocks, b requires 0 <= b < l.g.blocks => (BitPlaced(l, b); BitOf(l, d, b)))
  }

  function Inos(l: Layout, d: seq<Block>): (r: seq<Ino>)
    requires Device(l, d)
    ensures |r| == l.g.inodes + 1
  {
    seq(l.g.inodes + 1, i requires 0 <= i <= l.g.inodes =>
      if i == 0 then EMPTY else (InoPlaced(l, i); InoOf(l, d, i)))
  }

  /** The data area; the tables in front of it are seen through `Bits` and `Inos`. */
  function DataArea(l: Layout, d: seq<Block>): (r: seq<Block>)
    requires Device(l, d)
    ensures |r| == l.g.blocks
  {
    seq(l.g.blocks, b requires 0 <= b < l.g.blocks => SectorSeen(l, d, b))
  }

  function SectorSeen(l: Layout, d: seq<Block>, b: nat): Block
    requires b < |d|
  {
    if b < l.g.data then Zeros(512) else d[b]
  }

  function View(l: Layout, d: seq<Block>): Fs
    requires Device(l, d)
  {
    Fs(Bits(l, d), Inos(l, d), DataArea(l, d))
  }

  lemma BitsAt(l: Layout, d: seq<Block>, b: nat)
    requires Device(l, d) && b < l.g.blocks
    ensures BitLba(l, b) < |d| && Bits(l, d)[b] == BitOf(l, d, b)
  {
    BitPlaced(l, b);
  }

  lemma InosAt(l: Layout, d: seq<Block>, i: nat)
    requires Device(l, d) && 0 < i <= l.g.inodes
    ensures InoLba(l, i) < |d| && Inos(l, d)[i] == InoOf(l, d, i)
  {
    InoPlaced(l, i);
  }

  /** The inodes are read from the table alone. */
  lemma TableSame(l: Layout, d: seq<Block>, e: seq<Block>)
    requires Device(l, d) && Device(l, e)
    requires forall x :: l.table <= x < l.g.data ==> e[x] == d[x]
    ensures Inos(l, e) == Inos(l, d)
  {
    var was, now := Inos(l, d), Inos(l, e);
    forall i | 0 <= i < |was| ensures now[i] == was[i] {
      if i > 0 {
        InosAt(l, d, i);
        InosAt(l, e, i);
        InoPlaced(l, i);
      }
    }
  }

  /** The bits are read from the bitmap alone. */
  lemma BitmapSame(l: Layout, d: seq<Block>, e: seq<Block>)
    requires Device(l, d) && Device(l, e)
    requires forall x :: l.bmap <= x < l.table ==> e[x] == d[x]
    ensures Bits(l, e) == Bits(l, d)
  {
    var was, now := Bits(l, d), Bits(l, e);
    forall b | 0 <= b < |was| ensures now[b] == was[b] {
      BitsAt(l, d, b);
      BitsAt(l, e, b);
      BitPlaced(l, b);
    }
  }

  /** Setting or clearing one bit, as seen. */
  lemma ViewWithBit(l: Layout, d: seq<Block>, b: nat, v: bool)
    requires Device(l, d) && b < l.g.blocks
    ensures BitLba(l, b) < |d| && Device(l, WithBit(l, d, b, v))
    ensures View(l, WithBit(l, d, b, v)) == View(l, d).(bits := View(l, d).bits[b := v])
  {
    BitPlaced(l, b);
    var e := WithBit(l, d, b, v);
    forall c | 0 <= c < l.g.blocks ensures Bits(l, e)[c] == if c == b then v else Bits(l, d)[c] {
      BitsAt(l, d, c);
      BitsAt(l, e, c);
      WithBitBit(l, d, b, v, c);
    }
    assert Bits(l, e) == Bits(l, d)[b := v];
    TableSame(l, d, e);
    assert DataArea(l, e) == DataArea(l, d);
  }

  /** A write into the inode table is seen in the inodes alone. */
  lemma TableWrite(l: Layout, d: seq<Block>, e: seq<Block>, i: nat)
    requires Device(l, d) && 0 < i <= l.g.inodes && |e| == |d|
    requires forall x :: 0 <= x < |d| && x != InoLba(l, i) ==> e[x] == d[x]
    ensures Bits(l, e) == Bits(l, d) && DataArea(l, e) == DataArea(l, d)
  {
    InoPlaced(l, i);
    BitmapSame(l, d, e);
  }

  predicate InoPut(l: Layout, d: seq<Block>, e: seq<Block>, i: nat, n: Ino, j: nat)
    requires 0 < j && InoLba(l, j) < |d| && InoLba(l, j) < |e|
  {
    InoOf(l, e, j) == if j == i then n else InoOf(l, d, j)
  }

  /** A write of one record, as seen. */
  lemma ViewInoPut(l: Layout, d: seq<Block>, e: seq<Block>, i: nat, n: Ino)
    requires Device(l, d) && 0 < i <= l.g.inodes && |e| == |d|
    requires forall x :: 0 <= x < |d| && x != InoLba(l, i) ==> e[x] == d[x]
    requires forall j :: 0 < j <= l.g.inodes ==> InoLba(l, j) < |d| && InoPut(l, d, e, i, n, j)
    ensures Device(l, e) && View(l, e) == PutIno(View(l, d), i, n)
  {
    TableWrite(l, d, e, i);
    InosPut(l, d, e, i, n);
  }

  lemma InosPut(l: Layout, d: seq<Block>, e: seq<Block>, i: nat, n: Ino)
    requires Device(l, d) && Device(l, e) && 0 < i <= l.g.inodes
    requires forall j :: 0 < j <= l.g.inodes ==> InoLba(l, j) < |d| && InoPut(l, d, e, i, n, j)
    ensures Inos(l, e) == Inos(l, d)[i := n]
  {
    var was, now := Inos(l, d), Inos(l, e);
    forall j | 0 <= j < |was| ensures now[j] == if j == i then n else was[j] {
      if j > 0 {
        InoPutSeen(l, d, e, i, n, j);
      }
    }
  }

  lemma InoPutSeen(l: Layout, d: seq<Block>, e: seq<Block>, i: nat, n: Ino, j: nat)
    requires Device(l, d) && Device(l, e) && 0 < j <= l.g.inodes
    requires InoLba(l, j) < |d| && InoLba(l, j) < |e| && InoPut(l, d, e, i, n, j)
    ensures Inos(l, e)[j] == if j == i then n else Inos(l, d)[j]
  {
    InosAt(l, d, j);
    InosAt(l, e, j);
  }

  /** Writing one inode record, as seen. */
  lemma ViewWithIno(l: Layout, d: seq<Block>, i: nat, n: Ino)
    requires Device(l, d) && 0 < i <= l.g.inodes && Storable(n)
    ensures InoLba(l, i) < |d| && Device(l, WithIno(l, d, i, n))
    ensures View(l, WithIno(l, d, i, n)) == PutIno(View(l, d), i, n)
  {
    InoPlaced(l, i);
    forall j | 0 < j <= l.g.inodes ensures InoLba(l, j) < |d| && InoPut(l, d, WithIno(l, d, i, n), i, n, j) {
      InoPlaced(l, j);
      WithInoIno(l, d, i, n, j);
    }
    ViewInoPut(l, d, WithIno(l, d, i, n), i, n);
  }

  function WithKind(l: Layout, d: seq<Block>, i: nat, n: Ino, k: nat): seq<Block>
    requires 0 < i && InoLba(l, i) < |d| && Storable(n) && 0 < k <= 13
  {
    d[InoLba(l, i) := PutKindAnd(d[InoLba(l, i)], Word(i), n, k)]
  }

  predicate KindOnly(l: Layout, d: seq<Block>, i: nat, n: Ino)
    requires 0 < i && InoLba(l, i) < |d|
  {
    n == InoOf(l, d, i).(kind := n.kind)
  }

  lemma WithKindIno(l: Layout, d: seq<Block>, i: nat, n: Ino, k: nat, j: nat)
    requires 0 < i && 0 < j && InoLba(l, i) < |d| && InoLba(l, j) < |d| && Storable(n)
    requires k == 13 || (k == 1 && KindOnly(l, d, i, n))
    ensures InoOf(l, WithKind(l, d, i, n, k), j) == if j == i then n else InoOf(l, d, j)
  {
    if j == i {
      if k == 13 {
        RecordReset(d[InoLba(l, i)], Word(i), n);
      } else {
        RecordKind(d[InoLba(l, i)], Word(i), n);
      }
    } else if InoLba(l, j) == InoLba(l, i) {
      WordsApart(i, j);
      RecordKindOther(d[InoLba(l, i)], Word(i), n, k, Word(j));
    }
  }

  /** Writing the kind of a record, with or without its other fields, as seen. */
  lemma ViewWithKind(l: Layout, d: seq<Block>, i: nat, n: Ino, k: nat) returns (e: seq<Block>)
    requires Device(l, d) && 0 < i <= l.g.inodes && Storable(n)
    requires k == 13 || (k == 1 && n == View(l, d).inos[i].(kind := n.kind))
    ensures InoLba(l, i) < |d| && e == WithKind(l, d, i, n, k)
    ensures Device(l, e) && View(l, e) == PutIno(View(l, d), i, n)
  {
    InosAt(l, d, i);
    e := WithKind(l, d, i, n, k);
    forall j | 0 < j <= l.g.inodes ensures InoLba(l, j) < |d| && InoPut(l, d, e, i, n, j) {
      InoPlaced(l, j);
      WithKindIno(l, d, i, n, k, j);
    }
    ViewInoPut(l, d, e, i, n);
  }

  /** Zeroing the first `m` bitmap sectors, as seen. */
  lemma ViewCleared(l: Layout, d: seq<Block>, e: seq<Block>, m: nat)
    requires Device(l, d) && |e| == |d| && l.bmap + m <= l.table
    requires forall x :: 0 <= x < |d| ==> e[x] == if l.bmap <= x < l.bmap + m then Zeros(512) else d[x]
    ensures Device(l, e) && View(l, e).inos == View(l, d).inos && View(l, e).blocks == View(l, d).blocks
    ensures forall b :: 0 <= b < l.g.blocks ==> View(l, e).bits[b] == (View(l, d).bits[b] && b >= BITS_PER_BLOCK * m)
  {
    forall b | 0 <= b < l.g.blocks ensures Bits(l, e)[b] == (Bits(l, d)[b] && b >= BITS_PER_BLOCK * m) {
      BitsAt(l, d, b);
      BitsAt(l, e, b);
      BitCleared(l, d, e, m, b);
    }
    TableSame(l, d, e);
    assert DataArea(l, e) == DataArea(l, d);
  }

  lemma BitCleared(l: Layout, d: seq<Block>, e: seq<Block>, m: nat, b: nat)
    requires BitLba(l, b) < |d| && |e| == |d|
    requires e[BitLba(l, b)] == if l.bmap <= BitLba(l, b) < l.bmap + m then Zeros(512) else d[BitLba(l, b)]
    ensures BitOf(l, e, b) == (BitOf(l, d, b) && b >= BITS_PER_BLOCK * m)
  {
    ZeroHasNoBits(b % 8);
    assert b / 8 / BLOCK < m <==> b < BITS_PER_BLOCK * m;
  }

  lemma {:induction false} ZeroHasNoBits(k: nat)
    ensures !TestBit(0, k)
  {
    if k > 0 {
      ZeroHasNoBits(k - 1);
    }
  }

  /** Writing a data block, as seen. */
  lemma ViewWithBlock(l: Layout, d: seq<Block>, b: nat, x: Block)
    requires Device(l, d) && l.g.data <= b < l.g.blocks
    ensures Device(l, d[b := x]) && View(l, d[b := x]) == PutBlock(View(l, d), b, x)
  {
    var e := d[b := x];
    BitmapSame(l, d, e);
    TableSame(l, d, e);
    assert DataArea(l, e) == DataArea(l, d)[b := x];
  }

  /** What is read from the table can be written back. */
  lemma InosStorable(l: Layout, d: seq<Block>, i: nat)
    requires Device(l, d) && 0 < i <= l.g.inodes
    ensures Storable(Inos(l, d)[i])
  {
    InosAt(l, d, i);
  }
}
