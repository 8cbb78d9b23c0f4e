/** The staging a replay does: untagged records in one list, tagged ones grouped by id, the whole
    groups flattened, the result sorted by number.  What comes out is the applicable slots, each
    once, oldest first. */
module JournalReplay {
  import opened Wrappers
  import opened JournalDisk
  import opened JournalRing
  import opened JournalRun
  import opened JournalMachine

  datatype Group = Group(tx: nat, members: seq<Item>, committed: bool, count: nat)

  /** No two records of the generation share a number. */
  predicate NumsDistinct(d: Disk, g: nat) {
    forall i, j :: 0 <= i < j < |d.heads| && IsCurrent(d, g, i) && IsCurrent(d, g, j) ==>
      d.heads[i].num != d.heads[j].num
  }

  lemma CoreDistinct(d: Disk, g: nat, n: nat, h: History)
    requires Core(d, g, n, h)
    ensures NumsDistinct(d, g)
  {
  }

  // ---- staging ----

  /** What one group holds after the slots below `k`. */
  predicate GroupOf(d: Disk, g: nat, k: nat, e: Group)
    requires Formed(d) && k <= |d.heads|
  {
    && e.tx != 0 && e.members == Members(d, g, e.tx, k)
    && CommitCount(d, g, e.tx, k) == if e.committed then Some(e.count) else None
  }

  predicate Named(groups: seq<Group>, t: nat) {
    exists i :: 0 <= i < |groups| && groups[i].tx == t
  }

  ghost predicate Staged(d: Disk, g: nat, k: nat, groups: seq<Group>)
    requires Formed(d) && k <= |d.heads|
  {
    && (forall i :: 0 <= i < |groups| ==> GroupOf(d, g, k, groups[i]))
    && (forall i, j :: 0 <= i < j < |groups| ==> groups[i].tx != groups[j].tx)
    && (forall t: nat :: t != 0 && !Named(groups, t) ==> Members(d, g, t, k) == [] && CommitCount(d, g, t, k) == None)
  }

  method FindGroup(groups: seq<Group>, t: nat) returns (i: nat)
    ensures i <= |groups| && (i < |groups| ==> groups[i].tx == t)
    ensures i == |groups| ==> !Named(groups, t)
  {
    i := 0;
    while i < |groups| && groups[i].tx != t
      invariant i <= |groups| && forall j :: 0 <= j < i ==> groups[j].tx != t
    {
      i := i + 1;
    }
  }

  function AddMember(e: Group, it: Item): Group {
    e.(members := e.members + [it])
  }

  function AddCommit(e: Group, c: nat): Group {
    e.(committed := true, count := c)
  }

  lemma StagedSkip(d: Disk, g: nat, k: nat, groups: seq<Group>)
    requires Formed(d) && k < |d.heads| && Staged(d, g, k, groups)
    requires !IsCommit(d, g, k) && (IsRecord(d, g, k) ==> d.heads[k].tx == 0)
    ensures Staged(d, g, k + 1, groups)
  {
    forall i | 0 <= i < |groups| ensures GroupOf(d, g, k + 1, groups[i]) {
      assert GroupOf(d, g, k, groups[i]);
    }
  }

  lemma StagedChange(d: Disk, g: nat, k: nat, groups: seq<Group>, i: nat, e: Group)
    requires Formed(d) && k < |d.heads| && Staged(d, g, k, groups) && i < |groups| && e.tx == groups[i].tx
    requires GroupOf(d, g, k + 1, e)
    requires forall t: nat :: t != 0 && t != e.tx ==> !IsMember(d, g, t, k) && !IsCommitOf(d, g, t, k)
    ensures Staged(d, g, k + 1, groups[i := e])
  {
    var r := groups[i := e];
    forall j | 0 <= j < |r| ensures GroupOf(d, g, k + 1, r[j]) {
      if j != i {
        assert GroupOf(d, g, k, groups[j]);
      }
    }
    forall t: nat | t != 0 && !Named(r, t)
      ensures Members(d, g, t, k + 1) == [] && CommitCount(d, g, t, k + 1) == None
    {
      assert r[i].tx == e.tx;
      assert forall j :: 0 <= j < |groups| ==> r[j].tx == groups[j].tx;
    }
  }

  lemma StagedGrow(d: Disk, g: nat, k: nat, groups: seq<Group>, e: Group)
    requires Formed(d) && k < |d.heads| && Staged(d, g, k, groups) && !Named(groups, e.tx)
    requires GroupOf(d, g, k + 1, e)
    requires forall t: nat :: t != 0 && t != e.tx ==> !IsMember(d, g, t, k) && !IsCommitOf(d, g, t, k)
    ensures Staged(d, g, k + 1, groups + [e])
  {
    var r := groups + [e];
    forall j | 0 <= j < |r| ensures GroupOf(d, g, k + 1, r[j]) {
      if j < |groups| {
        assert GroupOf(d, g, k, groups[j]);
      }
    }
    forall t: nat | t != 0 && !Named(r, t)
      ensures Members(d, g, t, k + 1) == [] && CommitCount(d, g, t, k + 1) == None
    {
      assert r[|groups|].tx == e.tx;
      assert forall j :: 0 <= j < |groups| ==> r[j].tx == groups[j].tx;
    }
  }

  /** One slot of the scan. */
  method StageSlot(d: Disk, g: nat, k: nat, legacy: seq<Item>, groups: seq<Group>)
    returns (legacy': seq<Item>, groups': seq<Group>)
    requires Formed(d) && k < |d.heads| && Staged(d, g, k, groups) && legacy == Members(d, g, 0, k)
    ensures Staged(d, g, k + 1, groups') && legacy' == Members(d, g, 0, k + 1)
  {
    legacy', groups' := legacy, groups;
    var a := d.heads[k];
    if a.Other? || a.gen != g || a.num == 0 {
      StagedSkip(d, g, k, groups);
    } else if a.ComHead? {
      if a.tx == 0 || a.crc != CommitCrc(a.tx, a.count) {
        StagedSkip(d, g, k, groups);
      } else {
        var i := FindGroup(groups, a.tx);
        if i < |groups| {
          assert GroupOf(d, g, k, groups[i]);
          groups' := groups[i := AddCommit(groups[i], a.count)];
          StagedChange(d, g, k, groups, i, AddCommit(groups[i], a.count));
        } else {
          groups' := groups + [Group(a.tx, [], true, a.count)];
          StagedGrow(d, g, k, groups, Group(a.tx, [], true, a.count));
        }
      }
    } else if a.crc != Crc(a.num, a.lba, a.tx, d.bodies[k]) {
      StagedSkip(d, g, k, groups);
    } else {
      var it := Item(a.num, a.lba, d.bodies[k]);
      if a.tx == 0 {
        legacy' := legacy + [it];
        StagedSkip(d, g, k, groups);
      } else {
        var i := FindGroup(groups, a.tx);
        if i < |groups| {
          assert GroupOf(d, g, k, groups[i]);
          groups' := groups[i := AddMember(groups[i], it)];
          StagedChange(d, g, k, groups, i, AddMember(groups[i], it));
        } else {
          groups' := groups + [Group(a.tx, [it], false, 0)];
          StagedGrow(d, g, k, groups, Group(a.tx, [it], false, 0));
        }
      }
    }
  }

  // ---- flattening ----

  predicate WholeGroup(e: Group) {
    e.committed && |e.members| == e.count
  }

  function Flatten(legacy: seq<Item>, groups: seq<Group>): seq<Item> {
    if groups == [] then legacy
    else
      var e := groups[|groups| - 1];
      Flatten(legacy, groups[..|groups| - 1]) + if WholeGroup(e) then e.members else []
  }

  predicate OneEach(s: seq<Item>) {
    forall i, j :: 0 <= i < j < |s| ==> s[i].num != s[j].num
  }

  lemma {:induction false} MembersAre(d: Disk, g: nat, t: nat, k: nat)
    requires Formed(d) && NumsDistinct(d, g) && k <= |d.heads|
    ensures forall it :: it in Members(d, g, t, k) <==>
                           exists i :: 0 <= i < k && IsMember(d, g, t, i) && ItemAt(d, i) == it
    ensures OneEach(Members(d, g, t, k))
  {
    if k > 0 {
      MembersAre(d, g, t, k - 1);
      var s := Members(d, g, t, k - 1);
      if IsMember(d, g, t, k - 1) {
        assert Members(d, g, t, k) == s + [ItemAt(d, k - 1)];
        forall j | 0 <= j < |s| ensures s[j].num != d.heads[k - 1].num {
          assert s[j] in s;
        }
      }
    }
  }

  /** The item of some slot whose id is `t`. */
  ghost predicate FromTx(d: Disk, g: nat, t: nat, it: Item)
    requires Formed(d)
  {
    exists i :: 0 <= i < |d.heads| && IsMember(d, g, t, i) && ItemAt(d, i) == it
  }

  ghost predicate FromApplied(d: Disk, g: nat, groups: seq<Group>, it: Item)
    requires Formed(d)
  {
    FromTx(d, g, 0, it) || exists i :: 0 <= i < |groups| && WholeGroup(groups[i]) && FromTx(d, g, groups[i].tx, it)
  }

  lemma DistinctTxs(d: Disk, g: nat, t: nat, u: nat, a: Item, b: Item)
    requires Formed(d) && NumsDistinct(d, g) && t != u && FromTx(d, g, t, a) && FromTx(d, g, u, b)
    ensures a.num != b.num
  {
  }

  lemma {:induction false} FlattenAre(d: Disk, g: nat, legacy: seq<Item>, groups: seq<Group>)
    requires Formed(d) && NumsDistinct(d, g) && legacy == Members(d, g, 0, |d.heads|)
    requires forall i :: 0 <= i < |groups| ==> GroupOf(d, g, |d.heads|, groups[i])
    requires forall i, j :: 0 <= i < j < |groups| ==> groups[i].tx != groups[j].tx
    ensures OneEach(Flatten(legacy, groups))
    ensures forall it :: it in Flatten(legacy, groups) <==> FromApplied(d, g, groups, it)
  {
    if groups == [] {
      MembersAre(d, g, 0, |d.heads|);
    } else {
      var rest, e := groups[..|groups| - 1], groups[|groups| - 1];
      FlattenAre(d, g, legacy, rest);
      MembersAre(d, g, e.tx, |d.heads|);
      assert GroupOf(d, g, |d.heads|, e);
      forall it
        ensures FromApplied(d, g, groups, it) <==>
                FromApplied(d, g, rest, it) || (WholeGroup(e) && FromTx(d, g, e.tx, it))
      {
        AppliedGrows(d, g, groups, it);
      }
      if WholeGroup(e) {
        FlattenApart(d, g, Flatten(legacy, rest), rest, e);
      }
    }
  }

  lemma AppliedGrows(d: Disk, g: nat, groups: seq<Group>, it: Item)
    requires Formed(d) && groups != []
    ensures var rest, e := groups[..|groups| - 1], groups[|groups| - 1];
            FromApplied(d, g, groups, it) <==> FromApplied(d, g, rest, it) || (WholeGroup(e) && FromTx(d, g, e.tx, it))
  {
    var rest := groups[..|groups| - 1];
    if i :| 0 <= i < |rest| && WholeGroup(rest[i]) && FromTx(d, g, rest[i].tx, it) {
      assert groups[i] == rest[i];
    }
    if i :| 0 <= i < |groups| && WholeGroup(groups[i]) && FromTx(d, g, groups[i].tx, it) {
      if i < |rest| {
        assert rest[i] == groups[i];
      }
    }
  }

  lemma FlattenApart(d: Disk, g: nat, s: seq<Item>, rest: seq<Group>, e: Group)
    requires Formed(d) && NumsDistinct(d, g) && GroupOf(d, g, |d.heads|, e) && OneEach(s)
    requires forall it :: it in s <==> FromApplied(d, g, rest, it)
    requires forall i :: 0 <= i < |rest| ==> rest[i].tx != e.tx
    ensures OneEach(s + e.members)
  {
    MembersAre(d, g, e.tx, |d.heads|);
    forall i, j | 0 <= i < |s| && 0 <= j < |e.members| ensures s[i].num != e.members[j].num {
      assert s[i] in s && e.members[j] in e.members;
      assert FromTx(d, g, e.tx, e.members[j]);
      if FromTx(d, g, 0, s[i]) {
        DistinctTxs(d, g, 0, e.tx, s[i], e.members[j]);
      } else {
        var m :| 0 <= m < |rest| && WholeGroup(rest[m]) && FromTx(d, g, rest[m].tx, s[i]);
        DistinctTxs(d, g, rest[m].tx, e.tx, s[i], e.members[j]);
      }
    }
  }

  predicate FromApplicable(d: Disk, g: nat, it: Item)
    requires Formed(d)
  {
    exists i :: 0 <= i < |d.heads| && Applies(d, g, i) && ItemAt(d, i) == it
  }

  /** Flattening the staged groups yields the applicable slots. */
  lemma FlattenApplies(d: Disk, g: nat, legacy: seq<Item>, groups: seq<Group>, it: Item)
    requires Formed(d) && NumsDistinct(d, g) && legacy == Members(d, g, 0, |d.heads|)
    requires Staged(d, g, |d.heads|, groups)
    ensures it in Flatten(legacy, groups) <==> FromApplicable(d, g, it)
  {
    FlattenAre(d, g, legacy, groups);
    if i :| 0 <= i < |d.heads| && Applies(d, g, i) && ItemAt(d, i) == it {
      var t := d.heads[i].tx;
      assert IsMember(d, g, t, i) && FromTx(d, g, t, it);
      if t != 0 {
        assert Named(groups, t);
        var j :| 0 <= j < |groups| && groups[j].tx == t;
        assert GroupOf(d, g, |d.heads|, groups[j]) && WholeGroup(groups[j]);
      }
    }
    if j :| 0 <= j < |groups| && WholeGroup(groups[j]) && FromTx(d, g, groups[j].tx, it) {
      assert GroupOf(d, g, |d.heads|, groups[j]);
      var i :| 0 <= i < |d.heads| && IsMember(d, g, groups[j].tx, i) && ItemAt(d, i) == it;
      assert Applies(d, g, i);
    }
    if FromTx(d, g, 0, it) {
      var i :| 0 <= i < |d.heads| && IsMember(d, g, 0, i) && ItemAt(d, i) == it;
      assert Applies(d, g, i);
    }
  }

  // ---- sorting ----

  predicate Ascending(s: seq<Item>) {
    forall i, j :: 0 <= i < j < |s| ==> s[i].num < s[j].num
  }

  function Insert(s: seq<Item>, e: Item): (r: seq<Item>)
    ensures forall it :: it in r <==> it in s || it == e
    ensures |r| == |s| + 1
    ensures Ascending(s) && (forall i :: 0 <= i < |s| ==> s[i].num != e.num) ==> Ascending(r)
  {
    if s == [] then [e]
    else if s[|s| - 1].num <= e.num then s + [e]
    else
      var r := Insert(s[..|s| - 1], e);
      assert forall i :: 0 <= i < |r| ==> r[i] in r;
      r + [s[|s| - 1]]
  }

  /** The library sort, on numbers that are all different. */
  function SortByNum(s: seq<Item>): (r: seq<Item>)
    ensures forall it :: it in r <==> it in s
    ensures |r| == |s|
    ensures OneEach(s) ==> Ascending(r)
  {
    if s == [] then []
    else
      var r := SortByNum(s[..|s| - 1]);
      assert s == s[..|s| - 1] + [s[|s| - 1]];
      assert OneEach(s) ==> forall i :: 0 <= i < |r| ==> r[i].num != s[|s| - 1].num by {
        assert forall i :: 0 <= i < |r| ==> r[i] in r;
      }
      Insert(r, s[|s| - 1])
  }

  // ---- the order of a replay ----

  ghost predicate InOrder(d: Disk, g: nat, recs: seq<Item>)
    requires Formed(d)
  {
    Ascending(recs) && forall it :: it in recs <==> FromApplicable(d, g, it)
  }

  function Writes(recs: seq<Item>): seq<Write> {
    seq(|recs|, j requires 0 <= j < |recs| => ToHome(recs[j].lba, recs[j].data))
  }

  ghost function SlotFor(d: Disk, g: nat, it: Item): nat
    requires Formed(d) && FromApplicable(d, g, it)
  {
    var i :| 0 <= i < |d.heads| && Applies(d, g, i) && ItemAt(d, i) == it;
    i
  }

  lemma SortedReplays(d: Disk, g: nat, recs: seq<Item>)
    requires Formed(d) && NumsDistinct(d, g) && InOrder(d, g, recs)
    ensures IsReplay(d, g, Writes(recs))
  {
    assert forall j :: 0 <= j < |recs| ==> recs[j] in recs;
    var idx := seq(|recs|, j requires 0 <= j < |recs| && recs[j] in recs => SlotFor(d, g, recs[j]));
    forall i: nat | i < |d.heads| && Applies(d, g, i) ensures i in idx {
      assert FromApplicable(d, g, ItemAt(d, i));
      assert ItemAt(d, i) in recs;
      var j :| 0 <= j < |recs| && recs[j] == ItemAt(d, i);
      assert idx[j] == i;
    }
    assert ReplayOrder(d, g, idx) && WritesOf(d, g, idx, Writes(recs));
  }
}
