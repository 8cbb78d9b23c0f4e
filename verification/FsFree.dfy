/** The blocks of one file as a set, collected table by table, and what freeing or marking them
    does to the bitmap. */
module FsFree {
  import opened Wrappers
  import opened FsTree
  import opened FsLink
  import opened FsFile

  // ---- the tree of one inode as a set ----

  /** The block numbers among the first `n` entries of pointer block `x`. */
  function Entries(f: Fs, x: nat, n: nat): set<nat>
    requires n <= PPB
  {
    set k | 0 <= k < n && Below(f, x, k) != 0 :: Below(f, x, k)
  }

  function Directs(n: Ino, k: nat): set<nat>
    requires |n.direct| == 8 && k <= 8
  {
    set j | 0 <= j < k && n.direct[j] != 0 :: n.direct[j]
  }

  /** A pointer block with all it refers to. */
  function Table(f: Fs, x: nat): set<nat> {
    if x == 0 then {} else Entries(f, x, PPB) + {x}
  }

  /** The first `n` of some sets together. */
  function Union(ts: seq<set<nat>>, n: nat): set<nat>
    requires n <= |ts|
  {
    if n == 0 then {} else Union(ts, n - 1) + ts[n - 1]
  }

  lemma {:induction false} UnionIs(ts: seq<set<nat>>, n: nat, b: nat)
    requires n <= |ts|
    ensures b in Union(ts, n) <==> exists k :: 0 <= k < n && b in ts[k]
  {
    if n > 0 {
      UnionIs(ts, n - 1, b);
    }
  }

  /** The second-level tables under the entries of `x`. */
  function TableList(f: Fs, x: nat): (ts: seq<set<nat>>)
    ensures |ts| == PPB
  {
    seq(PPB, k requires 0 <= k < PPB => Table(f, Below(f, x, k)))
  }

  function Tables(f: Fs, x: nat): set<nat> {
    Union(TableList(f, x), PPB)
  }

  function DoubleTable(f: Fs, x: nat): set<nat> {
    if x == 0 then {} else Tables(f, x) + {x}
  }

  function Tree(f: Fs, n: Ino): set<nat>
    requires |n.direct| == 8
  {
    Directs(n, 8) + Table(f, n.indirect) + DoubleTable(f, n.dind)
  }

  ghost predicate Owned(f: Fs, i: nat, b: nat) {
    b != 0 && exists r: Ref :: InRange(r) && r.ino == i && At(f, r) == b
  }

  predicate UnderEntry(f: Fs, x: nat, k: nat, b: nat)
    requires k < PPB
  {
    b in Table(f, Below(f, x, k))
  }

  lemma TablesAre(f: Fs, x: nat, b: nat)
    ensures b in Tables(f, x) <==> exists k :: 0 <= k < PPB && UnderEntry(f, x, k, b)
  {
    var ts := TableList(f, x);
    UnionIs(ts, PPB, b);
    if k :| 0 <= k < PPB && UnderEntry(f, x, k, b) {
      assert b in ts[k];
    }
    if k :| 0 <= k < PPB && b in ts[k] {
      assert UnderEntry(f, x, k, b);
    }
  }

  lemma TreeOwned(f: Fs, i: nat, b: nat)
    requires Live(f, i) && |f.inos[i].direct| == 8 && b in Tree(f, f.inos[i]) && b != 0
    ensures Owned(f, i, b)
  {
    var n := f.inos[i];
    if b in Directs(n, 8) {
      var j :| 0 <= j < 8 && n.direct[j] == b;
      assert At(f, Direct(i, j)) == b;
    } else if b in Table(f, n.indirect) {
      if b == n.indirect {
        assert At(f, Ind(i)) == b;
      } else {
        var k :| 0 <= k < PPB && Below(f, n.indirect, k) == b;
        assert At(f, IndLeaf(i, k)) == b;
      }
    } else if b == n.dind {
      assert At(f, Dind(i)) == b;
    } else {
      TablesAre(f, n.dind, b);
      var k :| 0 <= k < PPB && UnderEntry(f, n.dind, k, b);
      var x := Below(f, n.dind, k);
      if b == x {
        assert At(f, L1(i, k)) == b;
      } else {
        var j :| 0 <= j < PPB && Below(f, x, j) == b;
        assert At(f, L2(i, k, j)) == b;
      }
    }
  }

  lemma OwnedTree(f: Fs, r: Ref)
    requires InRange(r) && Live(f, r.ino) && |f.inos[r.ino].direct| == 8 && At(f, r) != 0
    ensures At(f, r) in Tree(f, f.inos[r.ino])
  {
    var n := f.inos[r.ino];
    match r
    case Direct(_, k) =>
    case Ind(_) =>
    case Dind(_) =>
    case IndLeaf(_, k) =>
      assert Below(f, n.indirect, k) in Entries(f, n.indirect, PPB);
    case L1(_, k) =>
      TablesAre(f, n.dind, At(f, r));
      assert UnderEntry(f, n.dind, k, At(f, r));
    case L2(_, k, j) =>
      TablesAre(f, n.dind, At(f, r));
      assert Below(f, Below(f, n.dind, k), j) in Entries(f, Below(f, n.dind, k), PPB);
      assert UnderEntry(f, n.dind, k, At(f, r));
  }

  /** The set is exactly what the inode's references reach. */
  lemma TreeIsOwned(f: Fs, i: nat, b: nat)
    requires Live(f, i) && |f.inos[i].direct| == 8 && b != 0
    ensures b in Tree(f, f.inos[i]) <==> Owned(f, i, b)
  {
    if b in Tree(f, f.inos[i]) { TreeOwned(f, i, b); }
    if r: Ref :| InRange(r) && r.ino == i && At(f, r) == b { OwnedTree(f, r); }
  }

  lemma TreeOwnable(g: Geo, f: Fs, i: nat, b: nat)
    requires Disjoint(g, f) && Live(f, i) && b in Tree(f, f.inos[i]) && b != 0
    ensures Ownable(g, b)
  {
    TreeOwned(f, i, b);
    var r: Ref :| InRange(r) && r.ino == i && At(f, r) == b;
    assert Targets(g, f, r);
  }

  // ---- clearing and setting bits ----

  function Cleared(f: Fs, gone: set<nat>): Fs {
    f.(bits := seq(|f.bits|, b requires 0 <= b < |f.bits| => f.bits[b] && b !in gone))
  }

  lemma ClearMore(f: Fs, gone: set<nat>, b: nat)
    requires b < |f.bits|
    ensures Cleared(f, gone).(bits := Cleared(f, gone).bits[b := false]) == Cleared(f, gone + {b})
  {
  }

  lemma ClearNone(f: Fs)
    ensures Cleared(f, {}) == f
  {
    assert Cleared(f, {}).bits == f.bits;
  }

  function Marking(f: Fs, on: set<nat>): Fs {
    f.(bits := seq(|f.bits|, b requires 0 <= b < |f.bits| => f.bits[b] || b in on))
  }

  lemma MarkMore(f: Fs, on: set<nat>, b: nat)
    requires b < |f.bits|
    ensures Marking(f, on).(bits := Marking(f, on).bits[b := true]) == Marking(f, on + {b})
  {
  }

  lemma MarkNone(f: Fs)
    ensures Marking(f, {}) == f
  {
    assert Marking(f, {}).bits == f.bits;
  }

  lemma EntriesMore(f: Fs, x: nat, n: nat)
    requires n < PPB
    ensures Entries(f, x, n + 1) == Entries(f, x, n) + (if Below(f, x, n) == 0 then {} else {Below(f, x, n)})
  {
  }

  lemma DirectsMore(n: Ino, k: nat)
    requires |n.direct| == 8 && k < 8
    ensures Directs(n, k + 1) == Directs(n, k) + (if n.direct[k] == 0 then {} else {n.direct[k]})
  {
  }

  /** Freeing a whole file and emptying its inode keeps the bitmap exact. */
  lemma FreedExact(g: Geo, f: Fs, i: nat, n: Ino)
    requires Exact(g, f) && Live(f, i) && |n.direct| == 8
    requires var f' := PutIno(Cleared(f, Tree(f, f.inos[i])), i, n);
             forall r: Ref :: InRange(r) && r.ino == i ==> At(f', r) == 0
    ensures Exact(g, PutIno(Cleared(f, Tree(f, f.inos[i])), i, n))
  {
    var f' := PutIno(Cleared(f, Tree(f, f.inos[i])), i, n);
    forall r: Ref | InRange(r) && r.ino != i ensures At(f', r) == At(f, r) {
    }
    forall r: Ref ensures Targets(g, f', r) {
      assert Targets(g, f, r);
    }
    forall r: Ref, q: Ref ensures Apart(f', r, q) {
      assert Apart(f, r, q);
    }
    forall b | 0 <= b < g.blocks ensures BitRight(g, f', b) {
      FreedBit(g, f, f', i, b);
    }
  }

  lemma FreedBit(g: Geo, f: Fs, f': Fs, i: nat, b: nat)
    requires Exact(g, f) && Live(f, i) && b < g.blocks && |f'.bits| == g.blocks
    requires f'.bits[b] == (f.bits[b] && b !in Tree(f, f.inos[i]))
    requires forall r: Ref :: InRange(r) && r.ino == i ==> At(f', r) == 0
    requires forall r: Ref :: InRange(r) && r.ino != i ==> At(f', r) == At(f, r)
    ensures BitRight(g, f', b)
  {
    assert BitRight(g, f, b);
    if b == 0 {
      NoZero(f, f.inos[i]);
    } else if b in Tree(f, f.inos[i]) {
      TreeOwned(f, i, b);
      TreeOwnable(g, f, i, b);
      var q: Ref :| InRange(q) && q.ino == i && At(f, q) == b;
      forall r: Ref | InRange(r) ensures At(f', r) != b {
        assert Apart(f, q, r);
      }
    } else {
      KeptReferences(f, f', i, b);
    }
  }

  lemma NoZero(f: Fs, n: Ino)
    requires |n.direct| == 8
    ensures 0 !in Tree(f, n)
  {
    TablesAre(f, n.dind, 0);
  }

  /** A block that was not file `i`'s is referenced as before. */
  lemma KeptReferences(f: Fs, f': Fs, i: nat, b: nat)
    requires Live(f, i) && |f.inos[i].direct| == 8 && b != 0 && b !in Tree(f, f.inos[i])
    requires forall r: Ref :: InRange(r) && r.ino == i ==> At(f', r) == 0
    requires forall r: Ref :: InRange(r) && r.ino != i ==> At(f', r) == At(f, r)
    ensures Referenced(f', b) <==> Referenced(f, b)
  {
    if r: Ref :| InRange(r) && At(f, r) == b {
      if r.ino == i {
        OwnedTree(f, r);
      }
      assert At(f', r) == b;
    }
    if r: Ref :| InRange(r) && At(f', r) == b {
      assert At(f, r) == b;
    }
  }

  /** An inode with nothing in it refers to nothing. */
  lemma EmptyAt(f: Fs, i: nat, r: Ref)
    requires InRange(r) && r.ino == i && i < |f.inos|
    requires !Live(f, i) || (f.inos[i].direct == EMPTY.direct && f.inos[i].indirect == 0 && f.inos[i].dind == 0)
    ensures At(f, r) == 0
  {
  }

  // ---- rebuilding ----

  function TreeOf(f: Fs, i: nat): set<nat>
    requires i < |f.inos|
  {
    if Live(f, i) && |f.inos[i].direct| == 8 then Tree(f, f.inos[i]) else {}
  }

  predicate InTree(f: Fs, i: nat, b: nat)
    requires i < |f.inos|
  {
    b in TreeOf(f, i)
  }

  /** What the rebuild must have set: the reserved blocks, the journal, the trees of inodes 1..n. */
  predicate Marked(g: Geo, f: Fs, n: nat, b: nat)
    requires n < |f.inos|
  {
    b < g.data || InJournal(g, b) || exists i :: 0 < i <= n && InTree(f, i, b)
  }

  /** Marking everything reserved, journalled or reached, in a bitmap cleared first, makes it exact
      whatever it held before. */
  lemma MarkedExact(g: Geo, f: Fs, f': Fs)
    requires Disjoint(g, f) && f'.inos == f.inos && f'.blocks == f.blocks && |f'.bits| == g.blocks
    requires forall b :: 0 <= b < g.blocks ==> (f'.bits[b] <==> Marked(g, f, g.inodes, b))
    ensures Exact(g, f')
  {
    forall r: Ref | InRange(r) ensures At(f', r) == At(f, r) {
      SameAt(f, f', r);
    }
    forall r: Ref ensures Targets(g, f', r) {
      assert Targets(g, f, r);
    }
    forall r: Ref, q: Ref ensures Apart(f', r, q) {
      assert Apart(f, r, q);
    }
    forall b | 0 <= b < g.blocks ensures BitRight(g, f', b) {
      if b >= g.data && !InJournal(g, b) {
        MarkedReferenced(g, f, b);
        if r: Ref :| InRange(r) && At(f, r) == b { assert At(f', r) == b; }
        if r: Ref :| InRange(r) && At(f', r) == b { assert At(f, r) == b; }
      }
    }
  }

  lemma MarkedReferenced(g: Geo, f: Fs, b: nat)
    requires Disjoint(g, f) && b >= g.data && !InJournal(g, b)
    ensures Marked(g, f, g.inodes, b) <==> Referenced(f, b)
  {
    if Marked(g, f, g.inodes, b) {
      var i :| 0 < i <= g.inodes && InTree(f, i, b);
      TreeOwned(f, i, b);
    }
    if r: Ref :| InRange(r) && At(f, r) == b {
      OwnedTree(f, r);
      assert InTree(f, r.ino, b);
    }
  }
}
