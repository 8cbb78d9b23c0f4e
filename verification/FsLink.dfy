/** What one allocation does to the trees: a fresh, zeroed block hangs under exactly one more
    reference, and nothing else is reached differently. */
module FsLink {
  import opened Wrappers
  import opened FsTree

  /** References to pointer blocks. */
  predicate IsHolder(r: Ref) {
    r.Ind? || r.Dind? || r.L1?
  }

  /** The state seen through references is the same wherever pointer blocks are the same. */
  lemma SameAt(f: Fs, f': Fs, r: Ref)
    requires InRange(r) && f'.inos == f.inos && |f'.blocks| == |f.blocks|
    requires forall h: Ref :: InRange(h) && IsHolder(h) && h.ino == r.ino && 0 < At(f, h) < |f.blocks| ==>
                                f'.blocks[At(f, h)] == f.blocks[At(f, h)]
    ensures At(f', r) == At(f, r)
  {
    match r
    case Direct(_, _) =>
    case Ind(_) =>
    case Dind(_) =>
    case IndLeaf(i, k) =>
      assert InRange(Ind(i)) && At(f', Ind(i)) == At(f, Ind(i));
    case L1(i, k) =>
      assert InRange(Dind(i)) && At(f', Dind(i)) == At(f, Dind(i));
    case L2(i, k, j) =>
      assert InRange(Dind(i)) && At(f', Dind(i)) == At(f, Dind(i));
      assert InRange(L1(i, k));
  }

  /** Writing a block that no reference holds pointers in, a data block or an unused one, moves
      nothing. */
  lemma DataWriteSameAt(f: Fs, x: nat, b: Block, r: Ref)
    requires InRange(r) && x < |f.blocks|
    requires forall h: Ref :: InRange(h) && IsHolder(h) ==> At(f, h) != x || x == 0
    ensures At(f.(blocks := f.blocks[x := b]), r) == At(f, r)
  {
    SameAt(f, f.(blocks := f.blocks[x := b]), r);
  }

  /** `r0` now refers to the fresh block `b`. */
  ghost predicate Linked(f: Fs, f': Fs, r0: Ref, b: nat) {
    && InRange(r0) && b < |f.bits| && At(f, r0) == 0 && At(f', r0) == b
    && f'.bits == f.bits[b := true] && |f'.blocks| == |f.blocks| && |f'.inos| == |f.inos|
    && (forall i :: 0 <= i < |f'.inos| && |f.inos[i].direct| == 8 ==> |f'.inos[i].direct| == 8)
    && (forall r: Ref :: InRange(r) && r != r0 ==> At(f', r) == At(f, r))
  }

  lemma LinkedDisjoint(g: Geo, f: Fs, f': Fs, r0: Ref, b: nat)
    requires Exact(g, f) && Linked(f, f', r0, b) && Ownable(g, b) && !f.bits[b]
    ensures Disjoint(g, f')
  {
    assert BitRight(g, f, b);
    forall r: Ref ensures Targets(g, f', r) {
      assert Targets(g, f, r);
    }
    forall r: Ref, q: Ref ensures Apart(f', r, q) {
      assert Apart(f, r, q);
    }
  }

  /** Linking a free block keeps the bitmap exact. */
  lemma LinkedExact(g: Geo, f: Fs, f': Fs, r0: Ref, b: nat)
    requires Exact(g, f) && Linked(f, f', r0, b) && Ownable(g, b) && !f.bits[b]
    ensures Exact(g, f')
  {
    LinkedDisjoint(g, f, f', r0, b);
    forall x | 0 <= x < g.blocks ensures BitRight(g, f', x) {
      LinkedBit(g, f, f', r0, b, x);
    }
  }

  lemma LinkedBit(g: Geo, f: Fs, f': Fs, r0: Ref, b: nat, x: nat)
    requires Exact(g, f) && Linked(f, f', r0, b) && Ownable(g, b) && x < g.blocks
    ensures x < |f'.bits| && BitRight(g, f', x)
  {
    assert BitRight(g, f, x);
    if x == b {
      assert InRange(r0) && At(f', r0) == x;
    } else {
      if r: Ref :| InRange(r) && At(f, r) == x {
        if r != r0 {
          assert At(f', r) == x;
        }
      }
      if r: Ref :| InRange(r) && At(f', r) == x {
        assert r != r0;
        assert At(f, r) == x;
      }
    }
  }

  // ---- the five places a block can be hung under ----

  /** `balloc`: the bit and the zeroed block. */
  function Grab(f: Fs, b: nat): Fs
    requires b < |f.bits| && b < |f.blocks|
  {
    f.(bits := f.bits[b := true], blocks := f.blocks[b := Zeros(512)])
  }

  predicate Fresh(g: Geo, f: Fs, b: nat) {
    Ownable(g, b) && b < |f.bits| && b < |f.blocks| && !f.bits[b] && b < 0x1_0000_0000
  }

  lemma FreshUnreached(g: Geo, f: Fs, b: nat, r: Ref)
    requires Exact(g, f) && Fresh(g, f, b) && InRange(r)
    ensures At(f, r) != b
  {
    assert BitRight(g, f, b);
  }

  lemma GrabSame(g: Geo, f: Fs, b: nat, r: Ref)
    requires Exact(g, f) && Fresh(g, f, b) && InRange(r)
    ensures At(Grab(f, b), r) == At(f, r)
  {
    forall h: Ref | InRange(h) && IsHolder(h) ensures At(f, h) != b {
      FreshUnreached(g, f, b, h);
    }
    SameAt(f, Grab(f, b), r);
  }

  function PutIno(f: Fs, i: nat, n: Ino): Fs
    requires i < |f.inos|
  {
    f.(inos := f.inos[i := n])
  }

  function PutPtr(f: Fs, x: nat, k: nat, v: nat): Fs
    requires x < |f.blocks| && k < PPB && v < 0x1_0000_0000
  {
    f.(blocks := f.blocks[x := SetPtr(f.blocks[x], k, v)])
  }

  lemma OtherInoSame(f: Fs, i: nat, n: Ino, r: Ref)
    requires i < |f.inos| && InRange(r) && r.ino != i
    ensures At(PutIno(f, i, n), r) == At(f, r)
  {
  }

  lemma ZeroBelow(f: Fs, b: nat, k: nat)
    requires b < |f.blocks| && f.blocks[b] == Zeros(512) && k < PPB
    ensures Below(f, b, k) == 0
  {
    PtrZero(k);
  }

  lemma LinkDirect(g: Geo, f: Fs, i: nat, k: nat, b: nat)
    requires Exact(g, f) && Fresh(g, f, b) && Live(f, i) && k < 8 && f.inos[i].direct[k] == 0
    ensures var n := f.inos[i];
            Linked(f, PutIno(Grab(f, b), i, n.(direct := n.direct[k := b])), Direct(i, k), b)
  {
    var n := f.inos[i];
    var f' := PutIno(Grab(f, b), i, n.(direct := n.direct[k := b]));
    forall r: Ref | InRange(r) && r != Direct(i, k) ensures At(f', r) == At(f, r) {
      GrabSame(g, f, b, r);
      if r.ino != i { OtherInoSame(Grab(f, b), i, f'.inos[i], r); }
    }
  }

  lemma LinkInd(g: Geo, f: Fs, i: nat, b: nat)
    requires Exact(g, f) && Fresh(g, f, b) && Live(f, i) && f.inos[i].indirect == 0
    ensures Linked(f, PutIno(Grab(f, b), i, f.inos[i].(indirect := b)), Ind(i), b)
  {
    var f' := PutIno(Grab(f, b), i, f.inos[i].(indirect := b));
    forall r: Ref | InRange(r) && r != Ind(i) ensures At(f', r) == At(f, r) {
      GrabSame(g, f, b, r);
      if r.ino != i {
        OtherInoSame(Grab(f, b), i, f'.inos[i], r);
      } else if r.IndLeaf? {
        ZeroBelow(f', b, r.k);
      }
    }
  }

  lemma LinkDind(g: Geo, f: Fs, i: nat, b: nat)
    requires Exact(g, f) && Fresh(g, f, b) && Live(f, i) && f.inos[i].dind == 0
    ensures Linked(f, PutIno(Grab(f, b), i, f.inos[i].(dind := b)), Dind(i), b)
  {
    var f' := PutIno(Grab(f, b), i, f.inos[i].(dind := b));
    forall r: Ref | InRange(r) && r != Dind(i) ensures At(f', r) == At(f, r) {
      GrabSame(g, f, b, r);
      if r.ino != i {
        OtherInoSame(Grab(f, b), i, f'.inos[i], r);
      } else if r.L1? || r.L2? {
        ZeroBelow(f', b, r.k);
      }
    }
  }

  // ---- hanging under a pointer block ----

  function Child(h: Ref, k: nat): Ref
    requires IsHolder(h)
  {
    match h
    case Ind(i) => IndLeaf(i, k)
    case Dind(i) => L1(i, k)
    case L1(i, j) => L2(i, j, k)
    case _ => h
  }

  /** Only the children of `h` are kept in the block `h` refers to. */
  lemma OnlyHolder(g: Geo, f: Fs, h: Ref, q: Ref)
    requires Disjoint(g, f) && InRange(h) && IsHolder(h) && At(f, h) != 0 && InRange(q) && At(f, q) == At(f, h)
    ensures q == h
  {
    assert Apart(f, h, q);
  }

  /** Changing a pointer in the block of `h` changes that child and, if it is a pointer block, what
      is below it. */
  lemma PutPtrAt(g: Geo, f: Fs, h: Ref, k: nat, v: nat, r: Ref)
    requires Disjoint(g, f) && InRange(h) && IsHolder(h) && At(f, h) != 0 && k < PPB && v < 0x1_0000_0000
    requires At(f, h) < |f.blocks| && InRange(r) && r != Child(h, k)
    requires h.Dind? ==> !(r.L2? && r.ino == h.ino && r.k == k)
    ensures At(PutPtr(f, At(f, h), k, v), r) == At(f, r)
  {
    var x := At(f, h);
    var f' := PutPtr(f, x, k, v);
    match r
    case Direct(_, _) =>
    case Ind(_) =>
    case Dind(_) =>
    case IndLeaf(i, j) => HolderAt(g, f, h, k, v, Ind(i), j);
    case L1(i, j) => HolderAt(g, f, h, k, v, Dind(i), j);
    case L2(i, j, e) =>
      HolderAt(g, f, h, k, v, Dind(i), j);
      HolderAt(g, f, h, k, v, L1(i, j), e);
  }

  /** One level down. */
  lemma HolderAt(g: Geo, f: Fs, h: Ref, k: nat, v: nat, q: Ref, j: nat)
    requires Disjoint(g, f) && InRange(h) && IsHolder(h) && At(f, h) != 0 && k < PPB && v < 0x1_0000_0000
    requires At(f, h) < |f.blocks| && InRange(q) && IsHolder(q) && j < PPB && !(q == h && j == k)
    ensures Below(PutPtr(f, At(f, h), k, v), At(f, q), j) == Below(f, At(f, q), j)
  {
    if At(f, q) == At(f, h) {
      OnlyHolder(g, f, h, q);
      PtrSet(f.blocks[At(f, h)], k, v, j);
    }
  }

  lemma GrabDisjoint(g: Geo, f: Fs, b: nat)
    requires Exact(g, f) && Fresh(g, f, b)
    ensures Disjoint(g, Grab(f, b))
  {
    var f' := Grab(f, b);
    forall r: Ref ensures Targets(g, f', r) {
      assert Targets(g, f, r);
      if InRange(r) { GrabSame(g, f, b, r); }
    }
    forall r: Ref, q: Ref ensures Apart(f', r, q) {
      assert Apart(f, r, q);
      if InRange(r) { GrabSame(g, f, b, r); }
      if InRange(q) { GrabSame(g, f, b, q); }
    }
  }

  /** The new child, and below a new first-level block nothing. */
  lemma ChildAt(g: Geo, f: Fs, h: Ref, k: nat, b: nat, r: Ref)
    requires Exact(g, f) && Fresh(g, f, b) && InRange(h) && IsHolder(h) && At(f, h) != 0 && k < PPB
    requires At(f, h) < |f.blocks| && At(f, Child(h, k)) == 0
    requires InRange(r) && (r == Child(h, k) || (h.Dind? && r.L2? && r.ino == h.ino && r.k == k))
    ensures At(PutPtr(Grab(f, b), At(f, h), k, b), r) == (if r == Child(h, k) then b else 0)
    ensures r != Child(h, k) ==> At(f, r) == 0
  {
    var x, f1 := At(f, h), Grab(f, b);
    var f' := PutPtr(f1, x, k, b);
    GrabSame(g, f, b, h);
    FreshUnreached(g, f, b, h);
    GrabDisjoint(g, f, b);
    PtrSet(f1.blocks[x], k, b, k);
    match h
    case Ind(i) =>
    case Dind(i) =>
      if r.L2? { ZeroBelow(f', b, r.j); }
    case L1(i, j) =>
      PutPtrAt(g, f1, h, k, b, h);
    case _ =>
  }

  lemma LinkChild(g: Geo, f: Fs, h: Ref, k: nat, b: nat)
    requires Exact(g, f) && Fresh(g, f, b) && InRange(h) && IsHolder(h) && At(f, h) != 0 && k < PPB
    requires At(f, h) < |f.blocks| && At(f, Child(h, k)) == 0
    ensures Linked(f, PutPtr(Grab(f, b), At(f, h), k, b), Child(h, k), b)
  {
    var f1 := Grab(f, b);
    var f' := PutPtr(f1, At(f, h), k, b);
    GrabSame(g, f, b, h);
    GrabDisjoint(g, f, b);
    forall r: Ref | InRange(r) && r != Child(h, k) ensures At(f', r) == At(f, r) {
      if h.Dind? && r.L2? && r.ino == h.ino && r.k == k {
        ChildAt(g, f, h, k, b, r);
      } else {
        GrabSame(g, f, b, r);
        PutPtrAt(g, f1, h, k, b, r);
      }
    }
    ChildAt(g, f, h, k, b, Child(h, k));
  }
}
