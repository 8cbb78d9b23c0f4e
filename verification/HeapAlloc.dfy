/** `heap.rs` as it is written: a linked list of free nodes, kept in the headers of the blocks,
    changed in place. */
module HeapAlloc {
  import opened HeapTiles

  /** The address of the first free tile from index `i` on, 0 for none. */
  function NextFree(ts: Tiles, i: nat): nat
    requires i <= |ts|
    decreases |ts| - i
  {
    if i == |ts| then 0 else if ts[i].free then ts[i].addr else NextFree(ts, i + 1)
  }

  lemma {:induction false} SkipLive(ts: Tiles, i: nat, j: nat)
    requires i <= j <= |ts| && forall k :: i <= k < j ==> !ts[k].free
    ensures NextFree(ts, i) == NextFree(ts, j)
    decreases j - i
  {
    if i < j {
      SkipLive(ts, i + 1, j);
    }
  }

  /** Where the first free tile from `i` on is, or the number of tiles. */
  function FreeIndex(ts: Tiles, i: nat): (j: nat)
    requires i <= |ts|
    ensures i <= j <= |ts| && (j < |ts| ==> ts[j].free && NextFree(ts, i) == ts[j].addr)
    ensures j == |ts| ==> NextFree(ts, i) == 0
    ensures forall k :: i <= k < j ==> !ts[k].free
    decreases |ts| - i
  {
    if i == |ts| || ts[i].free then i else FreeIndex(ts, i + 1)
  }

  /** The same tail gives the same next. */
  lemma {:induction false} SameTail(ts: Tiles, i: nat, us: Tiles, j: nat)
    requires i <= |ts| && j <= |us| && ts[i..] == us[j..]
    ensures NextFree(ts, i) == NextFree(us, j)
    decreases |ts| - i
  {
    if i < |ts| {
      assert ts[i] == ts[i..][0] == us[j];
      assert ts[i + 1..] == ts[i..][1..] == us[j + 1..];
      SameTail(ts, i + 1, us, j + 1);
    }
  }

  /** With the same tiles before `m`, a list entered before a free tile `k < m` goes the same way. */
  lemma {:induction false} SameUntil(ts: Tiles, us: Tiles, m: nat, i: nat, k: nat)
    requires i <= k < m <= |ts| && m <= |us| && ts[..m] == us[..m] && ts[k].free
    ensures NextFree(us, i) == NextFree(ts, i)
    decreases k - i
  {
    assert ts[i] == ts[..m][i] == us[i];
    if !ts[i].free {
      SameUntil(ts, us, m, i + 1, k);
    }
  }

  /** With none free before `m` it reaches `m`. */
  lemma PastLive(ts: Tiles, us: Tiles, m: nat, i: nat)
    requires i <= m <= |ts| && m <= |us| && ts[..m] == us[..m] && forall k :: i <= k < m ==> !ts[k].free
    ensures NextFree(us, i) == NextFree(us, m)
  {
    forall k | i <= k < m ensures !us[k].free {
      assert ts[k] == ts[..m][k] == us[k];
    }
    SkipLive(us, i, m);
  }

  /** The headers of tile `i`: its size, and if it is free the next free tile. */
  predicate Header(ts: Tiles, next: map<nat, nat>, size: map<nat, nat>, i: nat)
    requires i < |ts|
  {
    && ts[i].addr in size && size[ts[i].addr] == ts[i].size
    && (ts[i].free ==> ts[i].addr in next && next[ts[i].addr] == NextFree(ts, i + 1))
  }

  predicate Linked(ts: Tiles, head: nat, next: map<nat, nat>, size: map<nat, nat>) {
    head == NextFree(ts, 0) && forall i :: 0 <= i < |ts| ==> Header(ts, next, size, i)
  }

  /** `prev` is the last free tile before tile `c`, at index `pi`, or 0 if there is none. */
  predicate PrevOf(ts: Tiles, c: nat, prev: nat, pi: nat) {
    && c <= |ts|
    && if prev == 0 then forall k :: 0 <= k < c ==> !ts[k].free
       else pi < c && ts[pi].free && ts[pi].addr == prev && forall k :: pi < k < c ==> !ts[k].free
  }

  /** Tiles `m..r` of a linked list, lying between `from` and `to`, have given way to tiles `m..s`:
      everything before them goes on pointing into them through `prev`, everything after is as it was. */
  lemma Spliced(ts: Tiles, us: Tiles, lo: nat, hi: nat, m: nat, r: nat, s: nat, from: nat, to: nat, prev: nat, pi: nat,
                head: nat, next: map<nat, nat>, size: map<nat, nat>,
                head': nat, next': map<nat, nat>, size': map<nat, nat>)
    requires Contiguous(ts, lo, hi) && Linked(ts, head, next, size)
    requires m <= r <= |ts| && m <= s <= |us| && ts[..m] == us[..m] && ts[r..] == us[s..] && PrevOf(ts, m, prev, pi)
    requires (forall i :: 0 <= i < m ==> ts[i].addr < from) && (forall i :: r <= i < |ts| ==> ts[i].addr >= to)
    requires head' == if prev == 0 then NextFree(us, m) else head
    requires prev != 0 ==> prev in next' && next'[prev] == NextFree(us, m)
    requires forall x: nat :: x < from || x >= to ==> Untouched(x, size, size')
    requires forall x: nat :: (x < from || x >= to) && x != prev ==> Untouched(x, next, next')
    requires prev < from <= to
    requires forall i :: m <= i < s ==> Header(us, next', size', i)
    ensures Linked(us, head', next', size')
  {
    if prev == 0 {
      PastLive(ts, us, m, 0);
    } else {
      SameUntil(ts, us, m, 0, pi);
    }
    forall i | 0 <= i < |us| ensures Header(us, next', size', i) {
      if i < m {
        assert Header(ts, next, size, i);
        BeforeCut(ts, us, lo, hi, m, prev, pi, next, size, next', size', i);
      } else if i >= s {
        var j := i - s + r;
        assert Header(ts, next, size, j) && ts[j].addr >= to;
        AfterCut(ts, us, r, s, next, size, next', size', j, i);
      }
    }
  }

  lemma BeforeCut(ts: Tiles, us: Tiles, lo: nat, hi: nat, m: nat, prev: nat, pi: nat,
                  next: map<nat, nat>, size: map<nat, nat>, next': map<nat, nat>, size': map<nat, nat>, i: nat)
    requires Contiguous(ts, lo, hi) && i < m <= |ts| && m <= |us| && ts[..m] == us[..m] && PrevOf(ts, m, prev, pi)
    requires Header(ts, next, size, i) && Untouched(ts[i].addr, size, size')
             && (ts[i].addr != prev ==> Untouched(ts[i].addr, next, next'))
    requires prev != 0 ==> prev in next' && next'[prev] == NextFree(us, m)
    ensures Header(us, next', size', i)
  {
    assert us[i] == ts[..m][i] == ts[i];
    if us[i].free {
      if i == pi {
        PastLive(ts, us, m, i + 1);
      } else {
        AtLeast(ts, lo, hi, i);
        Ordered(ts, lo, hi, i, pi);
        SameUntil(ts, us, m, i + 1, pi);
      }
    }
  }

  lemma AfterCut(ts: Tiles, us: Tiles, r: nat, s: nat,
                 next: map<nat, nat>, size: map<nat, nat>, next': map<nat, nat>, size': map<nat, nat>, j: nat, i: nat)
    requires r <= j < |ts| && s <= i < |us| && i - s == j - r && ts[r..] == us[s..]
    requires Header(ts, next, size, j) && Untouched(ts[j].addr, size, size') && Untouched(ts[j].addr, next, next')
    ensures Header(us, next', size', i)
  {
    assert us[i] == us[s..][i - s] == ts[r..][j - r] == ts[j];
    assert ts[j + 1..] == ts[r..][j + 1 - r..] == us[s..][i + 1 - s..] == us[i + 1..];
    SameTail(ts, j + 1, us, i + 1);
  }

  /** The tiles around tile `c`. */
  lemma Around(ts: Tiles, lo: nat, hi: nat, c: nat)
    requires Contiguous(ts, lo, hi) && c < |ts|
    ensures forall i :: 0 <= i < c ==> ts[i].addr < ts[c].addr
    ensures forall i :: c < i < |ts| ==> ts[i].addr >= ts[c].addr + ts[c].size
    ensures lo <= ts[c].addr && ts[c].size >= HEADER
  {
    AtLeast(ts, lo, hi, c);
    forall i | 0 <= i < c ensures ts[i].addr < ts[c].addr {
      AtLeast(ts, lo, hi, i);
      Ordered(ts, lo, hi, i, c);
    }
    forall i | c < i < |ts| ensures ts[i].addr >= ts[c].addr + ts[c].size {
      Ordered(ts, lo, hi, c, i);
    }
  }

  predicate Untouched(a: nat, m: map<nat, nat>, m': map<nat, nat>) {
    (a in m <==> a in m') && (a in m ==> m'[a] == m[a])
  }

  class Heap {
    var head: nat
    var next: map<nat, nat>
    var size: map<nat, nat>
    ghost var tiles: Tiles
    ghost var lo: nat
    ghost var hi: nat

    ghost predicate Valid()
      reads this
    {
      0 < lo && Good(tiles, lo, hi) && Linked(tiles, head, next, size)
    }

    /** `init`, over [start, end): the first node starts at the next multiple of 16. */
    constructor (start: nat, end: nat)
      requires 0 < start && start + 32 <= end
      ensures Valid() && lo == (start + 15) / 16 * 16 && hi == end && tiles == [Tile(lo, hi - lo, true)]
    {
      var aligned := (start + 15) / 16 * 16;
      head := aligned;
      next := map[aligned := 0];
      size := map[aligned := end - aligned];
      lo := aligned;
      hi := end;
      tiles := [Tile(aligned, end - aligned, true)];
      new;
      assert tiles[1..] == [];
      assert Contiguous([], lo + tiles[0].size, hi);
    }

    /** The first node of at least `need` bytes, and the free node before it. */
    method Search(need: nat) returns (cur: nat, prev: nat, ghost c: nat, ghost pi: nat)
      requires Valid()
      ensures c == FirstFit(tiles, need) && PrevOf(tiles, c, prev, pi)
      ensures if c < |tiles| then cur == tiles[c].addr && cur != 0 else cur == 0
    {
      prev, cur := 0, head;
      c, pi := FreeIndex(tiles, 0), 0;
      while cur != 0
        invariant c <= |tiles| && PrevOf(tiles, c, prev, pi)
        invariant if c < |tiles| then cur == tiles[c].addr && tiles[c].free else cur == 0
        invariant forall j :: 0 <= j < c ==> !Fits(tiles[j], need)
        decreases |tiles| - c
      {
        assert Header(tiles, next, size, c);
        if size[cur] >= need {
          break;
        }
        prev, pi := cur, c;
        cur := next[cur];
        c := FreeIndex(tiles, c + 1);
      }
      if c < |tiles| {
        AtLeast(tiles, lo, hi, c);
      }
      FirstFitIs(tiles, need, c);
    }

    /** `alloc`: null, or 16 past the header of a block of at least the size asked for. */
    method Alloc(bytes: nat) returns (p: nat)
      requires Valid()
      modifies this
      ensures Valid() && lo == old(lo) && hi == old(hi) && tiles == Step(old(tiles), Op.Alloc(bytes))
      ensures var i := FirstFit(old(tiles), Need(bytes));
              p == if i < |old(tiles)| then old(tiles)[i].addr + HEADER else 0
    {
      var need := Need(bytes);
      var cur: nat, prev: nat;
      ghost var c: nat, pi: nat;
      cur, prev, c, pi := Search(need);
      if cur == 0 {
        return 0;
      }
      ghost var ts := tiles;
      ghost var us := AllocAt(ts, c, need);
      assert Header(ts, next, size, c);
      AllocGood(ts, lo, hi, c, need);
      var csize := size[cur];
      if csize >= need + HEADER {
        var rest := cur + need;
        next := next[rest := next[cur]];
        size := size[rest := csize - need];
        if prev == 0 {
          head := rest;
        } else {
          next := next[prev := rest];
        }
        size := size[cur := need];
        tiles := us;
        SplitLinks(ts, us, lo, hi, c, need, prev, pi, old(head), old(next), old(size), head, next, size);
      } else {
        if prev == 0 {
          head := next[cur];
        } else {
          next := next[prev := next[cur]];
        }
        tiles := us;
        WholeLinks(ts, us, lo, hi, c, need, prev, pi, old(head), old(next), size, head, next);
      }
      p := cur + HEADER;
    }

    /** The free nodes around `node`. */
    method Find(node: nat, ghost i: nat) returns (cur: nat, prev: nat, ghost c: nat, ghost pi: nat)
      requires Valid() && i < |tiles| && tiles[i].addr == node && !tiles[i].free
      ensures i < c <= |tiles| && PrevOf(tiles, i, prev, pi) && forall k :: i <= k < c ==> !tiles[k].free
      ensures if c < |tiles| then cur == tiles[c].addr && cur != 0 && tiles[c].free else cur == 0
    {
      prev, cur := 0, head;
      c, pi := FreeIndex(tiles, 0), 0;
      while cur != 0 && cur < node
        invariant c <= |tiles| && PrevOf(tiles, c, prev, pi) && (prev != 0 ==> prev < node)
        invariant if c < |tiles| then cur == tiles[c].addr && tiles[c].free else cur == 0
        decreases |tiles| - c
      {
        assert Header(tiles, next, size, c);
        prev, pi := cur, c;
        cur := next[cur];
        c := FreeIndex(tiles, c + 1);
      }
      Between(tiles, lo, hi, i, c, prev, pi);
    }

    /** The first half of `dealloc`: the node takes in the free block after it, or points to it. */
    method MergeNext(node: nat, cur: nat, ghost i: nat, ghost c: nat)
      requires Valid() && i < c <= |tiles| && tiles[i].addr == node && !tiles[i].free
               && (forall k :: i <= k < c ==> !tiles[k].free)
      requires if c < |tiles| then cur == tiles[c].addr && cur != 0 && tiles[c].free else cur == 0
      modifies `size, `next
      ensures var r := After(tiles, i);
              var bytes := if r == i + 2 then tiles[i].size + tiles[i + 1].size else tiles[i].size;
              size == old(size)[node := bytes] && next == old(next)[node := NextFree(tiles, r)]
    {
      NextTile(tiles, lo, hi, i, c, next, size);
      SkipLive(tiles, i + 1, c);
      if cur != 0 && node + size[node] == cur {
        size := size[node := size[node] + size[cur]];
        next := next[node := next[cur]];
      } else {
        next := next[node := cur];
        assert size == size[node := size[node]];
      }
    }

    /** `dealloc`: null, or what `Alloc` returned and has not been freed since. */
    method Dealloc(ptr: nat)
      requires Valid() && (ptr == 0 || (ptr >= HEADER && FindLive(tiles, ptr - HEADER) < |tiles|))
      modifies this
      ensures Valid() && lo == old(lo) && hi == old(hi)
      ensures tiles == if ptr == 0 then old(tiles) else Step(old(tiles), Free(ptr - HEADER))
    {
      if ptr == 0 {
        return;
      }
      var node: nat := ptr - HEADER;
      ghost var i: nat := FindLive(tiles, node);
      var cur: nat, prev: nat;
      ghost var c: nat, pi: nat;
      cur, prev, c, pi := Find(node, i);
      MergePrev(node, cur, prev, i, c, pi);
    }

    /** The second half of `dealloc`. */
    method MergePrev(node: nat, cur: nat, prev: nat, ghost i: nat, ghost c: nat, ghost pi: nat)
      requires Valid() && i < c <= |tiles| && tiles[i].addr == node && !tiles[i].free
               && (forall k :: i <= k < c ==> !tiles[k].free)
      requires if c < |tiles| then cur == tiles[c].addr && cur != 0 && tiles[c].free else cur == 0
      requires PrevOf(tiles, i, prev, pi)
      modifies this
      ensures Valid() && lo == old(lo) && hi == old(hi) && tiles == FreeAt(old(tiles), i)
    {
      ghost var ts, r := tiles, After(tiles, i);
      PrevTile(ts, lo, hi, i, prev, pi, next, size);
      MergeNext(node, cur, i, c);
      ghost var m: nat := if prev != 0 && pi + 1 == i then pi else i;
      tiles := Freed(ts, lo, hi, i, m, r);
      if prev != 0 && prev + size[prev] == node {
        size := size[prev := size[prev] + size[node]];
        next := next[prev := next[node]];
        MergeLinks(ts, tiles, lo, hi, m, r, head, old(next), old(size), next, size);
      } else {
        if prev == 0 {
          head := node;
        } else {
          next := next[prev := node];
        }
        FreeLinks(ts, tiles, lo, hi, i, r, prev, pi, old(head), old(next), old(size), head, next, size);
      }
    }
  }

  lemma Freed(ts: Tiles, lo: nat, hi: nat, i: nat, m: nat, r: nat) returns (us: Tiles)
    requires Good(ts, lo, hi) && i < |ts| && !ts[i].free && r == After(ts, i)
    requires m == if i > 0 && ts[i - 1].free then i - 1 else i
    ensures us == FreeAt(ts, i) && Good(us, lo, hi)
    ensures m < |us| && us[..m] == ts[..m] && us[m + 1..] == ts[r..] && us[m].free && us[m].addr == ts[m].addr
    ensures us[m].size == (if m < i then ts[m].size else 0) + ts[i].size + if r == i + 2 then ts[i + 1].size else 0
  {
    us := FreeAt(ts, i);
    FreedShape(ts, us, i, m, r);
    FreeGood(ts, lo, hi, i);
  }

  /** One past tile `i` and the free tile after it, if there is one. */
  function After(ts: Tiles, i: nat): nat {
    if i + 1 < |ts| && ts[i + 1].free then i + 2 else i + 1
  }

  /** What `dealloc` reads of the free block before the node. */
  lemma PrevTile(ts: Tiles, lo: nat, hi: nat, i: nat, prev: nat, pi: nat, next: map<nat, nat>, size: map<nat, nat>)
    requires Contiguous(ts, lo, hi) && lo > 0 && i < |ts| && PrevOf(ts, i, prev, pi)
    requires forall k :: 0 <= k < |ts| ==> Header(ts, next, size, k)
    ensures prev != 0 ==> prev in size && size[prev] == ts[pi].size && prev < ts[i].addr
    ensures prev != 0 ==> (prev + ts[pi].size == ts[i].addr <==> pi + 1 == i)
    ensures i > 0 && ts[i - 1].free ==> prev != 0 && pi + 1 == i
  {
    if prev != 0 {
      assert Header(ts, next, size, pi);
      AtLeast(ts, lo, hi, pi);
      Ordered(ts, lo, hi, pi, i);
    }
  }

  /** What `dealloc` reads of the free block after the node; the address test tells whether it is next
      to it. */
  lemma NextTile(ts: Tiles, lo: nat, hi: nat, i: nat, c: nat, next: map<nat, nat>, size: map<nat, nat>)
    requires Contiguous(ts, lo, hi) && i < c <= |ts| && (c < |ts| ==> ts[c].free)
    requires forall k :: 0 <= k < |ts| ==> Header(ts, next, size, k)
    ensures Header(ts, next, size, i) && (c < |ts| ==> Header(ts, next, size, c))
    ensures c < |ts| ==> (ts[i].addr + ts[i].size == ts[c].addr <==> c == i + 1)
  {
    if c < |ts| {
      Ordered(ts, lo, hi, i, c);
    }
  }

  lemma Lower(ts: Tiles, lo: nat, hi: nat, i: nat, j: nat)
    requires Contiguous(ts, lo, hi) && i < |ts| && j < |ts| && ts[i].addr < ts[j].addr
    ensures i < j
  {
    if j < i {
      Ordered(ts, lo, hi, j, i);
    }
  }

  /** The scan stopped past tile `i`, all free tiles before it being lower. */
  lemma Between(ts: Tiles, lo: nat, hi: nat, i: nat, c: nat, prev: nat, pi: nat)
    requires Contiguous(ts, lo, hi) && lo > 0 && i < |ts| && !ts[i].free && PrevOf(ts, c, prev, pi)
             && (prev != 0 ==> prev < ts[i].addr)
    requires c < |ts| ==> ts[c].free && (ts[c].addr >= ts[i].addr || ts[c].addr == 0)
    ensures i < c && PrevOf(ts, i, prev, pi) && (forall k :: i <= k < c ==> !ts[k].free)
            && (c < |ts| ==> ts[c].addr > 0)
  {
    Around(ts, lo, hi, i);
    if c < |ts| {
      AtLeast(ts, lo, hi, c);
    }
    if prev != 0 {
      Lower(ts, lo, hi, pi, i);
    }
  }

  lemma SplitHeaders(ts: Tiles, us: Tiles, c: nat, need: nat, prev: nat, next: map<nat, nat>, size: map<nat, nat>,
                     next': map<nat, nat>, size': map<nat, nat>)
    requires need > 0 && c < |ts| && Fits(ts[c], need) && ts[c].size >= need + HEADER && us == AllocAt(ts, c, need)
    requires Header(ts, next, size, c) && NextFree(us, c + 2) == NextFree(ts, c + 1) && prev < ts[c].addr
    requires var cur, rest := ts[c].addr, ts[c].addr + need;
             && size' == size[rest := ts[c].size - need][cur := need]
             && cur in next
             && next' == (if prev == 0 then next[rest := next[cur]] else next[rest := next[cur]][prev := rest])
    ensures c + 2 <= |us| && Header(us, next', size', c) && Header(us, next', size', c + 1)
  {
    assert us[c] == Tile(ts[c].addr, need, false) && us[c + 1] == Tile(ts[c].addr + need, ts[c].size - need, true);
  }

  lemma SplitLinks(ts: Tiles, us: Tiles, lo: nat, hi: nat, c: nat, need: nat, prev: nat, pi: nat,
                   head: nat, next: map<nat, nat>, size: map<nat, nat>,
                   head': nat, next': map<nat, nat>, size': map<nat, nat>)
    requires Contiguous(ts, lo, hi) && Linked(ts, head, next, size) && need > 0 && lo > 0
    requires c < |ts| && Fits(ts[c], need) && ts[c].size >= need + HEADER && us == AllocAt(ts, c, need)
             && PrevOf(ts, c, prev, pi)
    requires var cur, rest := ts[c].addr, ts[c].addr + need;
             && size' == size[rest := ts[c].size - need][cur := need]
             && cur in next
             && next' == (if prev == 0 then next[rest := next[cur]] else next[rest := next[cur]][prev := rest])
             && head' == (if prev == 0 then rest else head)
    ensures Linked(us, head', next', size')
  {
    Around(ts, lo, hi, c);
    assert Header(ts, next, size, c);
    assert us[..c] == ts[..c] && us[c + 2..] == ts[c + 1..];
    SameTail(ts, c + 1, us, c + 2);
    SplitHeaders(ts, us, c, need, prev, next, size, next', size');
    var from := ts[c].addr;
    Spliced(ts, us, lo, hi, c, c + 1, c + 2, from, from + ts[c].size, prev, pi, head, next, size, head', next', size');
  }

  lemma WholeLinks(ts: Tiles, us: Tiles, lo: nat, hi: nat, c: nat, need: nat, prev: nat, pi: nat,
                   head: nat, next: map<nat, nat>, size: map<nat, nat>, head': nat, next': map<nat, nat>)
    requires Contiguous(ts, lo, hi) && Linked(ts, head, next, size) && lo > 0
    requires c < |ts| && Fits(ts[c], need) && ts[c].size < need + HEADER && us == AllocAt(ts, c, need)
             && PrevOf(ts, c, prev, pi)
    requires var cur := ts[c].addr;
             cur in next && next' == (if prev == 0 then next else next[prev := next[cur]])
               && head' == (if prev == 0 then next[cur] else head)
    ensures Linked(us, head', next', size)
  {
    Around(ts, lo, hi, c);
    assert Header(ts, next, size, c);
    assert us[..c] == ts[..c] && us[c + 1..] == ts[c + 1..];
    SameTail(ts, c + 1, us, c + 1);
    var from := ts[c].addr;
    Spliced(ts, us, lo, hi, c, c + 1, c + 1, from, from + ts[c].size, prev, pi, head, next, size, head', next', size);
  }

  /** The last free tile before `m`. */
  lemma {:induction false} LastFree(ts: Tiles, m: nat) returns (prev: nat, pi: nat)
    requires m <= |ts| && forall k :: 0 <= k < m ==> ts[k].addr > 0
    ensures PrevOf(ts, m, prev, pi)
  {
    if m == 0 {
      prev, pi := 0, 0;
    } else if ts[m - 1].free {
      prev, pi := ts[m - 1].addr, m - 1;
    } else {
      prev, pi := LastFree(ts, m - 1);
    }
  }

  /** What the last free tile before a free tile, or the head, points to. */
  lemma PointsAt(ts: Tiles, m: nat, prev: nat, pi: nat, head: nat, next: map<nat, nat>, size: map<nat, nat>)
    requires m < |ts| && ts[m].free && PrevOf(ts, m, prev, pi) && Linked(ts, head, next, size)
    ensures if prev == 0 then head == ts[m].addr else prev in next && next[prev] == ts[m].addr
  {
    if prev == 0 {
      SkipLive(ts, 0, m);
    } else {
      assert Header(ts, next, size, pi);
      SkipLive(ts, pi + 1, m);
    }
  }

  /** The new headers, when the free tile before is not a neighbour. */
  lemma FreeLinks(ts: Tiles, us: Tiles, lo: nat, hi: nat, i: nat, r: nat, prev: nat, pi: nat,
                  head: nat, next: map<nat, nat>, size: map<nat, nat>,
                  head': nat, next': map<nat, nat>, size': map<nat, nat>)
    requires Contiguous(ts, lo, hi) && lo > 0 && Linked(ts, head, next, size) && i < r <= |ts|
             && PrevOf(ts, i, prev, pi)
    requires i < |us| && us[..i] == ts[..i] && us[i + 1..] == ts[r..] && us[i].free && us[i].addr == ts[i].addr
    requires size' == size[ts[i].addr := us[i].size]
    requires var next1 := next[ts[i].addr := NextFree(ts, r)];
             next' == (if prev == 0 then next1 else next1[prev := ts[i].addr])
               && head' == (if prev == 0 then ts[i].addr else head)
    ensures Linked(us, head', next', size')
  {
    Around(ts, lo, hi, i);
    Around(ts, lo, hi, r - 1);
    Ordered2(ts, lo, hi, i, r - 1);
    SameTail(ts, r, us, i + 1);
    Spliced(ts, us, lo, hi, i, r, i + 1, ts[i].addr, ts[r - 1].addr + ts[r - 1].size, prev, pi,
            head, next, size, head', next', size');
  }

  /** The new headers, when tile `m` before tile `i` is free and takes it in. */
  lemma MergeLinks(ts: Tiles, us: Tiles, lo: nat, hi: nat, m: nat, r: nat,
                   head: nat, next: map<nat, nat>, size: map<nat, nat>, next': map<nat, nat>, size': map<nat, nat>)
    requires Contiguous(ts, lo, hi) && lo > 0 && Linked(ts, head, next, size) && m + 1 < r <= |ts| && ts[m].free
    requires m < |us| && us[..m] == ts[..m] && us[m + 1..] == ts[r..] && us[m].free && us[m].addr == ts[m].addr
    requires var prev, node := ts[m].addr, ts[m + 1].addr;
             && next' == next[node := NextFree(ts, r)][prev := NextFree(ts, r)]
             && prev in size' && size'[prev] == us[m].size
             && forall x: nat :: x != prev && x != node ==> Untouched(x, size, size')
    ensures Linked(us, head, next', size')
  {
    Around(ts, lo, hi, m);
    Around(ts, lo, hi, r - 1);
    Ordered2(ts, lo, hi, m, m + 1);
    Ordered2(ts, lo, hi, m + 1, r - 1);
    SameTail(ts, r, us, m + 1);
    forall k | 0 <= k < m ensures ts[k].addr > 0 {
      AtLeast(ts, lo, hi, k);
    }
    var before, bi := LastFree(ts, m);
    PointsAt(ts, m, before, bi, head, next, size);
    Spliced(ts, us, lo, hi, m, r, m + 1, ts[m].addr, ts[r - 1].addr + ts[r - 1].size, before, bi,
            head, next, size, head, next', size');
  }

  lemma Ordered2(ts: Tiles, lo: nat, hi: nat, i: nat, j: nat)
    requires Contiguous(ts, lo, hi) && i <= j < |ts|
    ensures ts[i].addr <= ts[j].addr
  {
    if i < j {
      Ordered(ts, lo, hi, i, j);
    }
  }

  /** Freeing makes one free tile of tiles `m` to `r - 1`. */
  lemma FreedShape(ts: Tiles, us: Tiles, i: nat, m: nat, r: nat)
    requires i < |ts| && !ts[i].free && us == FreeAt(ts, i)
    requires m == if i > 0 && ts[i - 1].free then i - 1 else i
    requires r == After(ts, i)
    ensures m < |us| && us[..m] == ts[..m] && us[m + 1..] == ts[r..] && us[m].free && us[m].addr == ts[m].addr
    ensures us[m].size == (if m < i then ts[m].size else 0) + ts[i].size + if r == i + 2 then ts[i + 1].size else 0
  {
  }

  lemma {:induction false} FirstFitIs(ts: Tiles, need: nat, c: nat)
    requires c <= |ts| && (forall j :: 0 <= j < c ==> !Fits(ts[j], need)) && (c < |ts| ==> Fits(ts[c], need))
    ensures FirstFit(ts, need) == c
  {
    if c > 0 {
      assert !Fits(ts[0], need);
      forall j | 0 <= j < c - 1 ensures !Fits(ts[1..][j], need) {
        assert !Fits(ts[j + 1], need);
      }
      FirstFitIs(ts[1..], need, c - 1);
    }
  }
}
