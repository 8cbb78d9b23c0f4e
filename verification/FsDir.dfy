/** Directories: files of 32-byte entries, a name of at most 28 bytes and an inode number. */
module FsDir {
  import opened Wrappers
  import opened FsTree
  import opened FsLink
  import opened FsFile

  const DENT: nat := 32
  const NAME_LEN: nat := 28

  type Name = seq<byte>

  function Slot(c: seq<byte>, i: nat): (s: seq<byte>)
    requires DENT * i + DENT <= |c|
    ensures |s| == DENT
  {
    c[DENT * i..DENT * i + DENT]
  }

  /** The bytes before the first zero, `n` at the most. */
  function Prefix(s: seq<byte>, n: nat): (r: Name)
    requires n <= |s|
    ensures |r| <= n && r == s[..|r|] && 0 !in r && (|r| < n ==> s[|r|] == 0)
  {
    if n == 0 || s[0] == 0 then [] else [s[0]] + Prefix(s[1..], n - 1)
  }

  lemma {:induction false} PrefixIs(s: seq<byte>, n: nat, m: Name)
    requires n <= |s| && |m| <= n && m == s[..|m|] && 0 !in m && (|m| < n ==> s[|m|] == 0)
    ensures Prefix(s, n) == m
  {
    if m != [] {
      assert m[0] == s[0];
      PrefixIs(s[1..], n - 1, m[1..]);
    }
  }

  function SlotName(s: seq<byte>): Name
    requires |s| == DENT
  {
    Prefix(s, NAME_LEN)
  }

  function SlotChild(s: seq<byte>): nat
    requires |s| == DENT
  {
    s[28] as nat + 256 * (s[29] as nat) + 65536 * (s[30] as nat) + 16777216 * (s[31] as nat)
  }

  predicate Matches(s: seq<byte>, name: Name)
    requires |s| == DENT
  {
    s[0] != 0 && SlotName(s) == name
  }

  /** The first entry from slot `i` on with this name. */
  function Search(c: seq<byte>, name: Name, i: nat): (r: Option<nat>)
    ensures r.Some? ==> i <= r.value && DENT * r.value + DENT <= |c| && Matches(Slot(c, r.value), name)
    decreases |c| - i
  {
    if DENT * i + DENT > |c| then None
    else if Matches(Slot(c, i), name) then Some(i) else Search(c, name, i + 1)
  }

  function Look(c: seq<byte>, name: Name): Option<nat> {
    var r := Search(c, name, 0);
    if r.Some? then Some(SlotChild(Slot(c, r.value))) else None
  }

  /** The first free slot from `i` on, or one past the last. */
  function FreeSlot(c: seq<byte>, i: nat): (r: nat)
    requires DENT * i <= |c|
    ensures i <= r && DENT * r <= |c|
    ensures DENT * r + DENT <= |c| ==> c[DENT * r] == 0
    ensures DENT * r + DENT > |c| || c[DENT * r] == 0
    decreases |c| - i
  {
    if DENT * i + DENT > |c| || c[DENT * i] == 0 then i else FreeSlot(c, i + 1)
  }

  /** Name and child over a slot, the bytes between left as they were. */
  function NewSlot(s: seq<byte>, name: Name, child: nat): (r: seq<byte>)
    requires |s| == DENT && |name| <= NAME_LEN && child < 0x1_0000_0000
    ensures |r| == DENT
  {
    name + s[|name|..NAME_LEN] + Bytes4(child)
  }

  lemma NewSlotReads(s: seq<byte>, name: Name, child: nat)
    requires |s| == DENT && 0 < |name| <= NAME_LEN && 0 !in name && child < 0x1_0000_0000
    requires |name| < NAME_LEN ==> s[|name|] == 0
    ensures Matches(NewSlot(s, name, child), name) && SlotChild(NewSlot(s, name, child)) == child
  {
    var r := NewSlot(s, name, child);
    assert r[0] == name[0];
    assert r[..|name|] == name;
    PrefixIs(r, NAME_LEN, name);
    assert r[28..] == Bytes4(child);
    ChildIs(r, child);
  }

  lemma ChildIs(r: seq<byte>, child: nat)
    requires |r| == DENT && child < 0x1_0000_0000 && r[28..] == Bytes4(child)
    ensures SlotChild(r) == child
  {
    var w := r[28..];
    assert r[28] == w[0] && r[29] == w[1] && r[30] == w[2] && r[31] == w[3];
    WordValue(child);
  }

  lemma WordValue(v: nat)
    requires v < 0x1_0000_0000
    ensures var w := Bytes4(v);
            v == w[0] as nat + 256 * (w[1] as nat) + 65536 * (w[2] as nat) + 16777216 * (w[3] as nat)
  {
    assert v == v % 256 + 256 * (v / 256);
    assert v / 256 == v / 256 % 256 + 256 * (v / 65536);
    assert v / 65536 == v / 65536 % 256 + 256 * (v / 16777216);
  }

  /** A directory's bytes: whole slots, the free ones all zero. */
  ghost predicate Tidy(c: seq<byte>) {
    |c| % DENT == 0 && forall i :: 0 <= i && DENT * i + DENT <= |c| ==> TidySlot(c, i)
  }

  predicate TidySlot(c: seq<byte>, i: nat)
    requires DENT * i + DENT <= |c|
  {
    c[DENT * i] == 0 ==> Slot(c, i) == Zeros(DENT)
  }

  /** The slot at `i`, all zeros when it is to be appended. */
  function OldSlot(c: seq<byte>, i: nat): (s: seq<byte>)
    requires DENT * i <= |c|
    ensures |s| == DENT
  {
    if DENT * i + DENT <= |c| then Slot(c, i) else Zeros(DENT)
  }

  /** The directory after `name` has been inserted. */
  function Inserted(c: seq<byte>, name: Name, child: nat): seq<byte>
    requires |name| <= NAME_LEN && child < 0x1_0000_0000
  {
    var i := FreeSlot(c, 0);
    Overwritten(c, DENT * i, NewSlot(OldSlot(c, i), name, child))
  }

  /** `c'` differs from `c` in slot `i` at most, which may be new. */
  ghost predicate SlotChanged(c: seq<byte>, c': seq<byte>, i: nat) {
    && |c| % DENT == 0 && |c'| % DENT == 0 && DENT * i + DENT <= |c'| && DENT * i <= |c|
    && |c'| == (if DENT * i + DENT <= |c| then |c| else |c| + DENT)
    && forall j :: 0 <= j && DENT * j + DENT <= |c| && j != i ==> SameSlot(c, c', j)
  }

  predicate SameSlot(c: seq<byte>, c': seq<byte>, j: nat)
    requires DENT * j + DENT <= |c| && DENT * j + DENT <= |c'|
  {
    Slot(c, j) == Slot(c', j)
  }

  lemma SlotKept(c: seq<byte>, i: nat, s: seq<byte>, j: nat)
    requires DENT * i <= |c| && |s| == DENT && j != i && DENT * j + DENT <= |c|
    ensures |Overwritten(c, DENT * i, s)| >= |c| && SameSlot(c, Overwritten(c, DENT * i, s), j)
  {
    var c' := Overwritten(c, DENT * i, s);
    var p := DENT * j;
    assert p + DENT <= DENT * i || DENT * i + DENT <= p;
    assert Slot(c', j) == Slot(c, j);
  }

  lemma OverwrittenSlot(c: seq<byte>, i: nat, s: seq<byte>)
    requires |c| % DENT == 0 && DENT * i <= |c| && |s| == DENT
    ensures SlotChanged(c, Overwritten(c, DENT * i, s), i)
    ensures Slot(Overwritten(c, DENT * i, s), i) == s
  {
    var c' := Overwritten(c, DENT * i, s);
    assert DENT * i + DENT <= |c| || DENT * i == |c|;
    forall j | 0 <= j && DENT * j + DENT <= |c| && j != i ensures SameSlot(c, c', j) {
      SlotKept(c, i, s, j);
    }
  }

  /** Slot `k` answers a search in `c'` as it does in `c`, unless there is no slot `k` in `c`. */
  lemma SlotAnswers(c: seq<byte>, c': seq<byte>, i: nat, name: Name, k: nat)
    requires SlotChanged(c, c', i) && DENT * k + DENT <= |c'|
    requires !Matches(Slot(c', i), name) && (DENT * i + DENT <= |c| ==> !Matches(Slot(c, i), name))
    ensures if DENT * k + DENT <= |c| then Matches(Slot(c', k), name) == Matches(Slot(c, k), name)
            else !Matches(Slot(c', k), name) && DENT * k + DENT == |c'|
  {
    if k != i {
      assert DENT * k + DENT <= |c| && SameSlot(c, c', k);
    }
  }

  /** Where the changed slot cannot be the answer, before or after, a search goes as before. */
  lemma {:induction false} SearchSame(c: seq<byte>, c': seq<byte>, i: nat, name: Name, k: nat)
    requires SlotChanged(c, c', i)
    requires !Matches(Slot(c', i), name) && (DENT * i + DENT <= |c| ==> !Matches(Slot(c, i), name))
    ensures Search(c', name, k) == Search(c, name, k)
    decreases |c'| - k
  {
    if DENT * k + DENT <= |c'| {
      SlotAnswers(c, c', i, name, k);
      if DENT * k + DENT <= |c| {
        SearchSame(c, c', i, name, k + 1);
      }
    }
  }

  /** A search that found nothing finds the changed slot when that now matches. */
  lemma {:induction false} SearchFinds(c: seq<byte>, c': seq<byte>, i: nat, name: Name, k: nat)
    requires SlotChanged(c, c', i) && k <= i
    requires Matches(Slot(c', i), name) && Search(c, name, k).None?
    ensures Search(c', name, k) == Some(i)
    decreases i - k
  {
    if k < i {
      assert SameSlot(c, c', k);
      SearchFinds(c, c', i, name, k + 1);
    }
  }

  lemma FreeSlotFree(c: seq<byte>, name: Name)
    requires |c| % DENT == 0
    ensures var i := FreeSlot(c, 0); DENT * i + DENT <= |c| ==> !Matches(Slot(c, i), name)
  {
  }

  /** Inserting a new name: it is found with its child, and every other name as before. */
  lemma InsertedLook(c: seq<byte>, name: Name, child: nat, other: Name)
    requires Tidy(c) && 0 < |name| <= NAME_LEN && 0 !in name && child < 0x1_0000_0000
    requires Look(c, name).None?
    ensures Tidy(Inserted(c, name, child))
    ensures Look(Inserted(c, name, child), other) == if other == name then Some(child) else Look(c, other)
  {
    var i := FreeSlot(c, 0);
    var was := OldSlot(c, i);
    if DENT * i + DENT <= |c| {
      assert TidySlot(c, i);
    }
    assert was == Zeros(DENT);
    var s := NewSlot(was, name, child);
    var c' := Inserted(c, name, child);
    NewSlotReads(was, name, child);
    OverwrittenSlot(c, i, s);
    FreeSlotFree(c, other);
    if other == name {
      SearchFinds(c, c', i, name, 0);
    } else {
      SearchSame(c, c', i, other, 0);
      KeptSlot(c, c', i, other);
    }
    forall j | 0 <= j && DENT * j + DENT <= |c'| ensures TidySlot(c', j) {
      if j != i {
        assert SameSlot(c, c', j) && TidySlot(c, j);
        assert c'[DENT * j] == Slot(c', j)[0];
      } else {
        assert c'[DENT * j] == s[0];
      }
    }
  }

  lemma KeptSlot(c: seq<byte>, c': seq<byte>, i: nat, other: Name)
    requires SlotChanged(c, c', i) && Search(c', other, 0) == Search(c, other, 0)
    requires !Matches(Slot(c', i), other)
    ensures Look(c', other) == Look(c, other)
  {
    var r := Search(c, other, 0);
    if r.Some? {
      assert SameSlot(c, c', r.value);
    }
  }

  /** The directory after slot `i` has been zeroed. */
  function Removed(c: seq<byte>, i: nat): seq<byte>
    requires DENT * i + DENT <= |c|
  {
    Overwritten(c, DENT * i, Zeros(DENT))
  }

  lemma {:induction false} SearchPast(c: seq<byte>, c': seq<byte>, i: nat, name: Name, k: nat)
    requires SlotChanged(c, c', i) && DENT * i + DENT <= |c| && k <= i
    requires !Matches(Slot(c', i), name) && Search(c, name, k) == Some(i)
    ensures Search(c', name, k) == Search(c, name, i + 1)
    decreases i - k
  {
    if k < i {
      assert SameSlot(c, c', k);
      SearchPast(c, c', i, name, k + 1);
    } else {
      SearchLater(c, c', i, name, i + 1);
    }
  }

  lemma {:induction false} SearchLater(c: seq<byte>, c': seq<byte>, i: nat, name: Name, k: nat)
    requires SlotChanged(c, c', i) && DENT * i + DENT <= |c| && k > i
    ensures Search(c', name, k) == Search(c, name, k)
    decreases |c| - k
  {
    if DENT * k + DENT <= |c| {
      assert SameSlot(c, c', k);
      SearchLater(c, c', i, name, k + 1);
    }
  }

  /** Removing the entry a name was found at: every other name is as before, and the name is found
      again only if it was there twice. */
  lemma RemovedLook(c: seq<byte>, name: Name, other: Name)
    requires Tidy(c) && Search(c, name, 0).Some?
    ensures var i := Search(c, name, 0).value; var c' := Removed(c, i);
            && Tidy(c') && (other != name ==> Look(c', other) == Look(c, other))
            && (Look(c', name).None? <==> Search(c, name, i + 1).None?)
  {
    var i := Search(c, name, 0).value;
    var c' := Removed(c, i);
    OverwrittenSlot(c, i, Zeros(DENT));
    SearchPast(c, c', i, name, 0);
    if other != name {
      SearchSame(c, c', i, other, 0);
      KeptSlot(c, c', i, other);
    }
    forall j | 0 <= j && DENT * j + DENT <= |c'| ensures TidySlot(c', j) {
      if j != i {
        assert SameSlot(c, c', j) && TidySlot(c, j);
        assert c'[DENT * j] == Slot(c', j)[0];
      }
    }
  }

  /** A new name is in one slot only. */
  lemma InsertedOnce(c: seq<byte>, name: Name, child: nat)
    requires Tidy(c) && 0 < |name| <= NAME_LEN && 0 !in name && child < 0x1_0000_0000
    requires Search(c, name, 0).None?
    ensures var c1, i := Inserted(c, name, child), FreeSlot(c, 0);
            Search(c1, name, 0) == Some(i) && Search(c1, name, i + 1).None?
  {
    var c1, i := Inserted(c, name, child), FreeSlot(c, 0);
    if DENT * i + DENT <= |c| { assert TidySlot(c, i); }
    NewSlotReads(OldSlot(c, i), name, child);
    OverwrittenSlot(c, i, NewSlot(OldSlot(c, i), name, child));
    SearchFinds(c, c1, i, name, 0);
    NotLater(c, c1, i, name);
  }

  /** Inserting a new name and removing it again leaves every name as it was. */
  lemma InsertRemove(c: seq<byte>, name: Name, child: nat, other: Name)
    requires Tidy(c) && 0 < |name| <= NAME_LEN && 0 !in name && child < 0x1_0000_0000
    requires Look(c, name).None?
    ensures var c1 := Inserted(c, name, child);
            Search(c1, name, 0).Some? && Look(Removed(c1, Search(c1, name, 0).value), other) == Look(c, other)
  {
    var c1 := Inserted(c, name, child);
    InsertedLook(c, name, child, other);
    InsertedOnce(c, name, child);
    RemovedLook(c1, name, other);
  }

  lemma NotLater(c: seq<byte>, c': seq<byte>, i: nat, name: Name)
    requires SlotChanged(c, c', i) && Search(c, name, 0).None?
    ensures Search(c', name, i + 1).None?
  {
    if DENT * i + DENT <= |c| {
      SearchLater(c, c', i, name, i + 1);
      NoneFrom(c, name, 0, i + 1);
    }
  }

  lemma {:induction false} NoneFrom(c: seq<byte>, name: Name, j: nat, k: nat)
    requires Search(c, name, j).None? && j <= k
    ensures Search(c, name, k).None?
    decreases k - j
  {
    if j < k {
      if DENT * j + DENT <= |c| {
        NoneFrom(c, name, j + 1, k);
      }
    }
  }
}
