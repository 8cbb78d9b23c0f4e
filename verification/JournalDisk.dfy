/** The device as the journal sees it: one header sector, a ring of two-sector slots and the
    home sectors of the file system.  `Rcv` is the reference meaning of a replay: what every home
    sector holds once the current generation has been replayed.  It is defined by looking for the
    newest applicable slot of each sector, with no list, no grouping and no sort. */
module JournalDisk {
  import opened Wrappers

  newtype byte = x: int | 0 <= x < 256

  const SECTOR: nat := 512

  function Filled(v: byte): seq<byte> {
    seq(SECTOR, _ => v)
  }

  /** What one sector holds. */
  type Data = s: seq<byte> | |s| == SECTOR witness Filled(0)

  /** `jnl_crc`, taken as collision-free: equal sums mean equal inputs. */
  datatype Crc = Crc(a: nat, b: nat, c: nat, data: Data)

  /** Sector A of a slot.  `Other` is any sector without one of the two magic numbers. */
  datatype Head =
    | Other
    | RecHead(gen: nat, num: nat, lba: nat, tx: nat, crc: Crc)
    | ComHead(gen: nat, num: nat, tx: nat, count: nat, crc: Crc)

  datatype Header = NoHeader | Header(gen: nat)

  datatype Disk = Disk(hdr: Header, heads: seq<Head>, bodies: seq<Data>, home: map<nat, Data>)

  /** One sector write: the unit between two possible power cuts. */
  datatype Write =
    | ToHeader(gen: nat)
    | ToHead(slot: nat, head: Head)
    | ToBody(slot: nat, body: Data)
    | ToHome(lba: nat, data: Data)

  const COMMIT_MARK: nat := 0xffff_ffff
  const ZERO: Data := Filled(0)

  function CommitCrc(tx: nat, count: nat): Crc {
    Crc(tx, count, COMMIT_MARK, ZERO)
  }

  predicate Formed(d: Disk) {
    |d.heads| == |d.bodies|
  }

  function Put(d: Disk, w: Write): Disk {
    match w
    case ToHeader(g) => d.(hdr := Header(g))
    case ToHead(s, h) => if s < |d.heads| then d.(heads := d.heads[s := h]) else d
    case ToBody(s, b) => if s < |d.bodies| then d.(bodies := d.bodies[s := b]) else d
    case ToHome(x, v) => d.(home := d.home[x := v])
  }

  function PutAll(d: Disk, ws: seq<Write>): Disk {
    if ws == [] then d else Put(PutAll(d, ws[..|ws| - 1]), ws[|ws| - 1])
  }

  /** A crash leaves the device after some prefix of the sector writes. */
  function Cut(d: Disk, ws: seq<Write>, k: nat): Disk
    requires k <= |ws|
  {
    PutAll(d, ws[..k])
  }

  lemma {:induction false} PutAllAppend(d: Disk, a: seq<Write>, b: seq<Write>)
    ensures PutAll(d, a + b) == PutAll(PutAll(d, a), b)
    decreases |b|
  {
    if b == [] {
      assert a + b == a;
    } else {
      PutAllAppend(d, a, b[..|b| - 1]);
      assert (a + b)[..|a + b| - 1] == a + b[..|b| - 1];
    }
  }

  // ---- reading the ring ----

  /** What `jnl::init` settles on as the current generation. */
  function Generation(d: Disk): nat {
    if d.hdr.NoHeader? || d.hdr.gen == 0 then 1 else d.hdr.gen
  }

  /** The magic, generation and sequence tests shared by `max_seq` and `replay`. */
  predicate IsCurrent(d: Disk, g: nat, i: nat)
    requires i < |d.heads|
  {
    !d.heads[i].Other? && d.heads[i].gen == g && d.heads[i].num != 0
  }

  predicate IsRecord(d: Disk, g: nat, i: nat)
    requires Formed(d) && i < |d.heads|
  {
    var a := d.heads[i];
    IsCurrent(d, g, i) && a.RecHead? && a.crc == Crc(a.num, a.lba, a.tx, d.bodies[i])
  }

  predicate IsCommit(d: Disk, g: nat, i: nat)
    requires Formed(d) && i < |d.heads|
  {
    IsCurrent(d, g, i) && d.heads[i].ComHead? && d.heads[i].tx != 0
    && d.heads[i].crc == CommitCrc(d.heads[i].tx, d.heads[i].count)
  }

  datatype Item = Item(num: nat, lba: nat, data: Data)

  function ItemAt(d: Disk, i: nat): Item
    requires Formed(d) && i < |d.heads| && d.heads[i].RecHead?
  {
    Item(d.heads[i].num, d.heads[i].lba, d.bodies[i])
  }

  predicate IsMember(d: Disk, g: nat, t: nat, i: nat)
    requires Formed(d) && i < |d.heads|
  {
    IsRecord(d, g, i) && d.heads[i].tx == t
  }

  /** The valid records tagged `t` in slots below `k`, in slot order. */
  function Members(d: Disk, g: nat, t: nat, k: nat): seq<Item>
    requires Formed(d) && k <= |d.heads|
  {
    if k == 0 then []
    else Members(d, g, t, k - 1) + if IsMember(d, g, t, k - 1) then [ItemAt(d, k - 1)] else []
  }

  predicate IsCommitOf(d: Disk, g: nat, t: nat, i: nat)
    requires Formed(d) && i < |d.heads|
  {
    IsCommit(d, g, i) && d.heads[i].tx == t
  }

  /** The count announced by the last commit slot of `t` below `k`. */
  function CommitCount(d: Disk, g: nat, t: nat, k: nat): Option<nat>
    requires Formed(d) && k <= |d.heads|
  {
    if k == 0 then None
    else if IsCommitOf(d, g, t, k - 1) then Some(d.heads[k - 1].count)
    else CommitCount(d, g, t, k - 1)
  }

  predicate Complete(d: Disk, g: nat, t: nat)
    requires Formed(d)
  {
    CommitCount(d, g, t, |d.heads|) == Some(|Members(d, g, t, |d.heads|)|)
  }

  /** The slots a replay re-applies: untagged records, and the members of whole transactions. */
  predicate Applies(d: Disk, g: nat, i: nat)
    requires Formed(d) && i < |d.heads|
  {
    IsRecord(d, g, i) && (d.heads[i].tx == 0 || Complete(d, g, d.heads[i].tx))
  }

  /** The applicable slot of sector `x` with the greatest sequence number, among slots below `k`. */
  function Newest(d: Disk, g: nat, x: nat, k: nat): (r: Option<nat>)
    requires Formed(d) && k <= |d.heads|
    ensures r.Some? ==>
              r.value < k && Applies(d, g, r.value) && d.heads[r.value].lba == x
    ensures forall i :: 0 <= i < k && Applies(d, g, i) && d.heads[i].lba == x ==>
                          r.Some? && d.heads[i].num <= d.heads[r.value].num
  {
    if k == 0 then None
    else
      var b := Newest(d, g, x, k - 1);
      if Applies(d, g, k - 1) && d.heads[k - 1].lba == x
         && (b.None? || d.heads[b.value].num < d.heads[k - 1].num)
      then Some(k - 1) else b
  }

  function RcvAt(d: Disk, g: nat, x: nat): Data
    requires Formed(d) && x in d.home
  {
    var b := Newest(d, g, x, |d.heads|);
    if b.Some? then d.bodies[b.value] else d.home[x]
  }

  /** The home sectors after a replay of generation `g`. */
  function Rcv(d: Disk, g: nat): map<nat, Data>
    requires Formed(d)
  {
    map x | x in d.home :: RcvAt(d, g, x)
  }

  // ---- the superblock flag ----

  /** `r32(&sb, 48) != 0`. */
  predicate Dirty(sb: Data) {
    !(sb[48] == 0 && sb[49] == 0 && sb[50] == 0 && sb[51] == 0)
  }

  predicate FlagSet(d: Disk) {
    0 in d.home && Dirty(d.home[0])
  }

  /** What the next mount makes of the device: a replay when the dirty flag is set, and nothing
      when it is clear. */
  function Recovered(d: Disk): map<nat, Data>
    requires Formed(d)
  {
    if FlagSet(d) then Rcv(d, Generation(d)) else d.home
  }
}
