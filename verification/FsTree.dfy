/** The file system above its byte layout: a bitmap, an inode table and data blocks, and the trees
    of block numbers that inodes root. */
module FsTree {
  import opened Wrappers

  newtype byte = x: int | 0 <= x < 256
  type Block = b: seq<byte> | |b| == 512 witness Zeros(512)

  function Zeros(n: nat): (z: seq<byte>)
    ensures |z| == n
  {
    seq(n, _ => 0)
  }

  const BLOCK: nat := 512
  /** Block numbers in a pointer block. */
  const PPB: nat := 128
  const KIND_FILE: nat := 1
  const KIND_DIR: nat := 2

  datatype Ino = Ino(kind: nat, size: nat, direct: seq<nat>, indirect: nat, nlink: nat, dind: nat)

  const EMPTY: Ino := Ino(0, 0, [0, 0, 0, 0, 0, 0, 0, 0], 0, 0, 0)

  /** Sizes from the superblock: `data` is the first data block, [jlba, jlba + jb) the journal. */
  datatype Geo = Geo(blocks: nat, data: nat, inodes: nat, jlba: nat, jb: nat)

  datatype Fs = Fs(bits: seq<bool>, inos: seq<Ino>, blocks: seq<Block>)

  predicate InJournal(g: Geo, b: nat) {
    g.jb != 0 && g.jlba <= b < g.jlba + g.jb
  }

  /** Blocks a file may own. */
  predicate Ownable(g: Geo, b: nat) {
    g.data <= b < g.blocks && !InJournal(g, b)
  }

  /** Slot 0 of `inos` is never used: inode numbers start at 1. */
  predicate Shaped(g: Geo, f: Fs) {
    g.data > 0 && |f.bits| == |f.blocks| == g.blocks && |f.inos| == g.inodes + 1
    && forall i :: 0 <= i < |f.inos| ==> |f.inos[i].direct| == 8
  }

  /** `r32(&block, k * 4)` */
  function Ptr(b: Block, k: nat): nat
    requires k < PPB
  {
    b[4 * k] as nat + 256 * (b[4 * k + 1] as nat) + 65536 * (b[4 * k + 2] as nat) + 16777216 * (b[4 * k + 3] as nat)
  }

  function Bytes4(v: nat): seq<byte>
    requires v < 0x1_0000_0000
  {
    [(v % 256) as byte, (v / 256 % 256) as byte, (v / 65536 % 256) as byte, (v / 16777216) as byte]
  }

  /** `w32(&mut block, k * 4, v)` */
  function SetPtr(b: Block, k: nat, v: nat): Block
    requires k < PPB && v < 0x1_0000_0000
  {
    b[..4 * k] + Bytes4(v) + b[4 * k + 4..]
  }

  lemma PtrSet(b: Block, k: nat, v: nat, j: nat)
    requires k < PPB && j < PPB && v < 0x1_0000_0000
    ensures Ptr(SetPtr(b, k, v), j) == if j == k then v else Ptr(b, j)
  {
    var c := SetPtr(b, k, v);
    if j < k {
      assert c[4 * j] == b[4 * j] && c[4 * j + 1] == b[4 * j + 1] && c[4 * j + 2] == b[4 * j + 2]
             && c[4 * j + 3] == b[4 * j + 3];
    } else if j > k {
      assert c[4 * j] == b[4 * j] && c[4 * j + 1] == b[4 * j + 1] && c[4 * j + 2] == b[4 * j + 2]
             && c[4 * j + 3] == b[4 * j + 3];
    } else {
      var w := Bytes4(v);
      assert c[4 * k] == w[0] && c[4 * k + 1] == w[1] && c[4 * k + 2] == w[2] && c[4 * k + 3] == w[3];
    }
  }

  lemma PtrZero(k: nat)
    requires k < PPB
    ensures Ptr(Zeros(512), k) == 0
  {
  }

  // ---- where block numbers are kept ----

  /** A place that holds a block number. */
  datatype Ref =
    | Direct(ino: nat, k: nat)
    | Ind(ino: nat)
    | Dind(ino: nat)
    | IndLeaf(ino: nat, k: nat)
    | L1(ino: nat, k: nat)
    | L2(ino: nat, k: nat, j: nat)

  predicate Live(f: Fs, i: nat) {
    0 < i < |f.inos| && (f.inos[i].kind == KIND_FILE || f.inos[i].kind == KIND_DIR)
  }

  predicate InRange(r: Ref) {
    match r
    case Direct(_, k) => k < 8
    case Ind(_) => true
    case Dind(_) => true
    case IndLeaf(_, k) => k < PPB
    case L1(_, k) => k < PPB
    case L2(_, k, j) => k < PPB && j < PPB
  }

  function Below(f: Fs, b: nat, k: nat): nat
    requires k < PPB
  {
    if 0 < b < |f.blocks| then Ptr(f.blocks[b], k) else 0
  }

  /** The block number kept at `r`, 0 for none. */
  function At(f: Fs, r: Ref): nat
    requires InRange(r)
  {
    if !Live(f, r.ino) || |f.inos[r.ino].direct| != 8 then 0
    else
      var n := f.inos[r.ino];
      match r
      case Direct(_, k) => n.direct[k]
      case Ind(_) => n.indirect
      case Dind(_) => n.dind
      case IndLeaf(_, k) => Below(f, n.indirect, k)
      case L1(_, k) => Below(f, n.dind, k)
      case L2(_, k, j) => Below(f, Below(f, n.dind, k), j)
  }

  /** The pointer block that holds `r`, if it is not in the inode itself. */
  function Holder(r: Ref): Option<Ref> {
    match r
    case IndLeaf(i, _) => Some(Ind(i))
    case L1(i, _) => Some(Dind(i))
    case L2(i, k, _) => Some(L1(i, k))
    case _ => None
  }

  // ---- the invariant ----

  predicate Targets(g: Geo, f: Fs, r: Ref) {
    InRange(r) ==> At(f, r) == 0 || Ownable(g, At(f, r))
  }

  predicate Apart(f: Fs, r: Ref, q: Ref) {
    InRange(r) && InRange(q) && At(f, r) != 0 && At(f, r) == At(f, q) ==> r == q
  }

  /** No block is reached twice, whether by two files or by one. */
  ghost predicate Disjoint(g: Geo, f: Fs) {
    && Shaped(g, f)
    && (forall r: Ref :: Targets(g, f, r))
    && (forall r: Ref, q: Ref :: Apart(f, r, q))
  }

  ghost predicate Referenced(f: Fs, b: nat) {
    exists r: Ref :: InRange(r) && At(f, r) == b
  }

  /** A bit is set exactly when its block is reserved, in the journal, or referenced. */
  ghost predicate BitRight(g: Geo, f: Fs, b: nat)
    requires b < |f.bits|
  {
    f.bits[b] <==> b < g.data || InJournal(g, b) || Referenced(f, b)
  }

  ghost predicate Exact(g: Geo, f: Fs) {
    Disjoint(g, f) && forall b :: 0 <= b < g.blocks ==> BitRight(g, f, b)
  }
}
