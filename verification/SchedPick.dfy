/** The pick loops of the scheduler, as scans of queues whose entries are parked and put back
    while they run. */
module SchedPick {
  import opened Wrappers
  import opened SchedState
  import opened Arithmetic

  /** A snapshot of the accounting a pick reads: per cgroup, virtual run time and quota verdict. */
  datatype Load = Load(vr: nat -> nat, over: nat -> bool)

  predicate Eligible(w: View, h: nat, skip: set<nat>, l: Load, pid: nat) {
    Takeable(w, h, skip, pid) && !l.over(w.procs[pid].cg)
  }

  function VrOf(w: View, l: Load, pid: nat): nat
    requires pid in w.procs
  {
    l.vr(w.procs[pid].cg)
  }

  /** Entry `i` is the least-loaded eligible entry of `q`, the earliest of its kind. */
  predicate LeastAt(w: View, h: nat, skip: set<nat>, l: Load, q: seq<nat>, i: nat) {
    && i < |q| && Eligible(w, h, skip, l, q[i])
    && (forall j :: 0 <= j < |q| && Eligible(w, h, skip, l, q[j]) ==>
          VrOf(w, l, q[i]) <= VrOf(w, l, q[j]) && (j < i ==> VrOf(w, l, q[i]) < VrOf(w, l, q[j])))
  }

  predicate NoneEligible(w: View, h: nat, skip: set<nat>, l: Load, q: seq<nat>) {
    forall j :: 0 <= j < |q| ==> !Eligible(w, h, skip, l, q[j])
  }

  predicate NoneTakeable(w: View, h: nat, skip: set<nat>, q: seq<nat>) {
    forall j :: 0 <= j < |q| ==> !Takeable(w, h, skip, q[j])
  }

  /** `r` is the first takeable entry of `q`, if there is one. */
  predicate FirstTakeable(w: View, h: nat, skip: set<nat>, q: seq<nat>, r: Option<nat>) {
    if r.None? then NoneTakeable(w, h, skip, q)
    else exists i :: 0 <= i < |q| && q[i] == r.value && Takeable(w, h, skip, q[i]) && NoneTakeable(w, h, skip, q[..i])
  }

  /** `r` is the least-loaded eligible entry of `q`, the earliest of its kind, if there is one. */
  predicate LeastEligible(w: View, h: nat, skip: set<nat>, l: Load, q: seq<nat>, r: Option<nat>) {
    if r.None? then NoneEligible(w, h, skip, l, q)
    else exists i :: 0 <= i < |q| && q[i] == r.value && LeastAt(w, h, skip, l, q, i)
  }

  /** What one scan of queue `q` leaves and returns. */
  ghost predicate Scans(w: View, h: nat, skip: set<nat>, q: seq<nat>, q': seq<nat>, r: Option<nat>) {
    && multiset(q') <= multiset(q)
    && LiveIn(w, h, skip, q) == LiveIn(w, h, skip, q') + One(r)
    && (r.Some? ==> Takeable(w, h, skip, r.value))
  }

  predicate AllTakeable(w: View, h: nat, skip: set<nat>, q: seq<nat>) {
    forall j :: 0 <= j < |q| ==> Takeable(w, h, skip, q[j])
  }

  lemma {:induction false} AllLive(w: View, h: nat, skip: set<nat>, q: seq<nat>)
    requires AllTakeable(w, h, skip, q)
    ensures LiveIn(w, h, skip, q) == multiset(q)
  {
    if q != [] {
      AllLive(w, h, skip, q[..|q| - 1]);
      assert q == q[..|q| - 1] + [q[|q| - 1]];
    }
  }

  lemma LiveWithin(w: View, h: nat, skip: set<nat>, q: seq<nat>)
    ensures LiveIn(w, h, skip, q) <= multiset(q)
  {
    forall p ensures LiveIn(w, h, skip, q)[p] <= multiset(q)[p] {
      LiveCount(w, h, skip, q, p);
    }
  }

  lemma {:induction false} NoneLive(w: View, h: nat, skip: set<nat>, q: seq<nat>)
    requires NoneTakeable(w, h, skip, q)
    ensures LiveIn(w, h, skip, q) == multiset{}
  {
    if q != [] {
      NoneLive(w, h, skip, q[..|q| - 1]);
    }
  }

  lemma NextEntry(w: View, h: nat, skip: set<nat>, q: seq<nat>, i: nat)
    requires i < |q|
    ensures q[..i + 1] == q[..i] + [q[i]] && q[i..] == [q[i]] + q[i + 1..]
    ensures LiveIn(w, h, skip, q[..i + 1]) ==
            LiveIn(w, h, skip, q[..i]) + if Takeable(w, h, skip, q[i]) then multiset{q[i]} else multiset{}
  {
    assert q[..i + 1] == q[..i] + [q[i]];
    LiveAppend(w, h, skip, q[..i], [q[i]]);
    LiveOne(w, h, skip, q[i]);
  }

  /** A scan that stops at the first takeable entry leaves what is behind it. */
  lemma StopScans(w: View, h: nat, skip: set<nat>, q: seq<nat>, i: nat)
    requires i < |q| && NoneTakeable(w, h, skip, q[..i]) && Takeable(w, h, skip, q[i])
    ensures Scans(w, h, skip, q, q[i + 1..], Some(q[i])) && FirstTakeable(w, h, skip, q, Some(q[i]))
  {
    NextEntry(w, h, skip, q, i);
    NoneLive(w, h, skip, q[..i]);
    assert q == q[..i + 1] + q[i + 1..];
    LiveAppend(w, h, skip, q[..i + 1], q[i + 1..]);
  }

  lemma SkipNext(w: View, h: nat, skip: set<nat>, q: seq<nat>, i: nat)
    requires i < |q| && NoneTakeable(w, h, skip, q[..i]) && !Takeable(w, h, skip, q[i])
    ensures NoneTakeable(w, h, skip, q[..i + 1])
  {
  }

  lemma NoneScans(w: View, h: nat, skip: set<nat>, q: seq<nat>)
    requires NoneTakeable(w, h, skip, q)
    ensures Scans(w, h, skip, q, [], None) && FirstTakeable(w, h, skip, q, None)
  {
    NoneLive(w, h, skip, q);
  }

  /** A scan that parks what it does not choose leaves exactly that. */
  lemma ParkScans(w: View, h: nat, skip: set<nat>, q: seq<nat>, q': seq<nat>, r: Option<nat>)
    requires LiveIn(w, h, skip, q) == multiset(q') + One(r) && AllTakeable(w, h, skip, q')
    requires r.Some? ==> Takeable(w, h, skip, r.value)
    ensures Scans(w, h, skip, q, q', r)
  {
    AllLive(w, h, skip, q');
    LiveWithin(w, h, skip, q);
  }

  /** The best entry of a scanned prefix. */
  predicate BestSoFar(w: View, h: nat, skip: set<nat>, l: Load, q: seq<nat>, best: Option<nat>, bi: nat) {
    if best.None? then NoneEligible(w, h, skip, l, q)
    else LeastAt(w, h, skip, l, q, bi) && q[bi] == best.value
  }

  /** The running winner after one more entry. */
  function Better(w: View, l: Load, best: Option<nat>, pid: nat): bool
    requires pid in w.procs && (best.Some? ==> best.value in w.procs)
  {
    best.None? || VrOf(w, l, pid) < VrOf(w, l, best.value)
  }

  lemma BestNext(w: View, h: nat, skip: set<nat>, l: Load, q: seq<nat>, i: nat, best: Option<nat>, bi: nat)
    requires i < |q| && BestSoFar(w, h, skip, l, q[..i], best, bi)
    ensures !Eligible(w, h, skip, l, q[i]) ==> BestSoFar(w, h, skip, l, q[..i + 1], best, bi)
    ensures Eligible(w, h, skip, l, q[i]) ==>
              if Better(w, l, best, q[i]) then BestSoFar(w, h, skip, l, q[..i + 1], Some(q[i]), i)
              else BestSoFar(w, h, skip, l, q[..i + 1], best, bi)
  {
    assert q[..i + 1] == q[..i] + [q[i]];
  }

  lemma Shift(q: seq<nat>, i: nat, over: seq<nat>)
    requires i < |q|
    ensures q[i..] + over != [] && (q[i..] + over)[0] == q[i] && (q[i..] + over)[1..] == q[i + 1..] + over
  {
  }

  lemma Requeued(q: seq<nat>, i: nat, over: seq<nat>, back: seq<nat>)
    requires i < |q|
    ensures (q[i + 1..] + over) + back == q[i + 1..] + (over + back)
  {
  }

  /** A first-pass scan after the entries `q`: everything takeable is in `over` (back in the queue),
      in `parked` (in the stash) or is the winner so far. */
  ghost predicate Scanning(w: View, h: nat, skip: set<nat>, l: Load, q: seq<nat>, over: seq<nat>, parked: seq<nat>,
                           best: Option<nat>, bestVr: nat, bi: nat) {
    && LiveIn(w, h, skip, q) == multiset(over) + multiset(parked) + One(best)
    && AllTakeable(w, h, skip, over) && AllTakeable(w, h, skip, parked)
    && BestSoFar(w, h, skip, l, q, best, bi)
    && (best.Some? ==> bestVr == VrOf(w, l, best.value))
  }

  lemma ScanSkip(w: View, h: nat, skip: set<nat>, l: Load, q: seq<nat>, i: nat, over: seq<nat>, parked: seq<nat>,
                 best: Option<nat>, bestVr: nat, bi: nat)
    requires i < |q| && Scanning(w, h, skip, l, q[..i], over, parked, best, bestVr, bi)
    requires !Takeable(w, h, skip, q[i])
    ensures Scanning(w, h, skip, l, q[..i + 1], over, parked, best, bestVr, bi)
  {
    NextEntry(w, h, skip, q, i);
    BestNext(w, h, skip, l, q, i, best, bi);
  }

  lemma ScanPark(w: View, h: nat, skip: set<nat>, l: Load, q: seq<nat>, i: nat, over: seq<nat>, parked: seq<nat>,
                 best: Option<nat>, bestVr: nat, bi: nat, back: seq<nat>, parked': seq<nat>,
                 best': Option<nat>, bestVr': nat, loser: Option<nat>) returns (bi': nat)
    requires i < |q| && Scanning(w, h, skip, l, q[..i], over, parked, best, bestVr, bi) && Takeable(w, h, skip, q[i])
    requires if !l.over(w.procs[q[i]].cg) && Better(w, l, best, q[i]) then loser == best && best' == Some(q[i])
             else loser == Some(q[i]) && best' == best
    requires best'.Some? ==> best'.value in w.procs && bestVr' == VrOf(w, l, best'.value)
    requires multiset(back) + multiset(parked') == multiset(parked) + One(loser)
    ensures Scanning(w, h, skip, l, q[..i + 1], over + back, parked', best', bestVr', bi')
  {
    NextEntry(w, h, skip, q, i);
    BestNext(w, h, skip, l, q, i, best, bi);
    bi' := if best' == best && loser == Some(q[i]) then bi else i;
    forall p | p in back || p in parked' ensures Takeable(w, h, skip, p) {
      assert p in multiset(back) + multiset(parked');
      assert p in parked || loser == Some(p);
    }
    assert multiset(over + back) == multiset(over) + multiset(back);
    assert One(loser) + One(best') == One(best) + multiset{q[i]};
    Balance(multiset(over), multiset(parked), One(best), multiset(back), multiset(parked'), One(loser), One(best'),
      multiset{q[i]});
  }

  lemma Balance(o: multiset<nat>, p: multiset<nat>, b: multiset<nat>, back: multiset<nat>, p': multiset<nat>,
                lost: multiset<nat>, b': multiset<nat>, e: multiset<nat>)
    requires back + p' == p + lost && lost + b' == b + e
    ensures o + p + b + e == (o + back) + p' + b'
  {
    assert o + p + b + e == o + p + (b + e);
    assert o + p + (lost + b') == o + (p + lost) + b';
    assert o + (back + p') + b' == (o + back) + p' + b';
  }

  lemma ScanEnds(w: View, h: nat, skip: set<nat>, l: Load, q: seq<nat>, over: seq<nat>, parked: seq<nat>,
                 best: Option<nat>, bestVr: nat, bi: nat, q': seq<nat>)
    requires Scanning(w, h, skip, l, q, over, parked, best, bestVr, bi) && q' == over + parked
    ensures Scans(w, h, skip, q, q', best) && LeastEligible(w, h, skip, l, q, best)
  {
    assert multiset(q') == multiset(over) + multiset(parked);
    ParkScans(w, h, skip, q, q', best);
  }

  // ---- all queues, own queue first ----

  /** `(h + k) % harts` */
  function Nth(h: nat, k: nat, harts: nat): (v: nat)
    requires h < harts && k < harts
    ensures v < harts
  {
    if h + k < harts then h + k else h + k - harts
  }

  lemma NthIsMod(h: nat, k: nat, harts: nat)
    requires h < harts && k < harts
    ensures (h + k) % harts == Nth(h, k, harts)
  {
    if h + k >= harts {
      DivUnique(h + k, harts, 1, h + k - harts);
    } else {
      DivUnique(h + k, harts, 0, h + k);
    }
  }

  lemma NthCovers(h: nat, v: nat, harts: nat) returns (k: nat)
    requires h < harts && v < harts
    ensures k < harts && Nth(h, k, harts) == v
  {
    k := if v >= h then v - h else v + harts - h;
  }

  lemma {:induction false} LiveBelowUpdate(w: View, h: nat, skip: set<nat>, qs: seq<seq<nat>>, v: nat, q: seq<nat>)
    requires v < |qs|
    ensures LiveBelow(w, h, skip, qs[v := q]) + LiveIn(w, h, skip, qs[v])
            == LiveBelow(w, h, skip, qs) + LiveIn(w, h, skip, q)
  {
    var n := |qs| - 1;
    if v == n {
      assert qs[v := q][..n] == qs[..n];
    } else {
      LiveBelowUpdate(w, h, skip, qs[..n], v, q);
      assert qs[v := q][..n] == qs[..n][v := q];
      var a, b := LiveBelow(w, h, skip, qs[..n][v := q]), LiveIn(w, h, skip, qs[v]);
      var c, d := LiveBelow(w, h, skip, qs[..n]), LiveIn(w, h, skip, q);
      var e := LiveIn(w, h, skip, qs[n]);
      assert (a + e) + b == (a + b) + e && (c + e) + d == (c + d) + e;
    }
  }

  lemma FirstFound(w: View, h: nat, skip: set<nat>, l: Load, qs: seq<seq<nat>>, k: nat, r: Option<nat>)
    requires h < |qs| && k < |qs| && BareBelow(w, h, skip, l, qs, k)
    requires LeastEligible(w, h, skip, l, qs[Nth(h, k, |qs|)], r)
    ensures r.Some? ==> LeastOfFirst(w, h, skip, l, qs, r)
    ensures r.None? ==> BareBelow(w, h, skip, l, qs, k + 1)
  {
  }

  /** The queues from the `k`-th on are as they were. */
  predicate Untouched(h: nat, qs: seq<seq<nat>>, qs': seq<seq<nat>>, k: nat)
    requires h < |qs| == |qs'|
  {
    forall j :: k <= j < |qs| ==> qs'[Nth(h, j, |qs|)] == qs[Nth(h, j, |qs|)]
  }

  lemma UntouchedNext(h: nat, qs: seq<seq<nat>>, qs': seq<seq<nat>>, k: nat, q: seq<nat>)
    requires h < |qs| == |qs'| && k < |qs| && Untouched(h, qs, qs', k)
    ensures Untouched(h, qs, qs'[Nth(h, k, |qs|) := q], k + 1) && qs'[Nth(h, k, |qs|)] == qs[Nth(h, k, |qs|)]
  {
  }

  predicate Drained(w: View, h: nat, skip: set<nat>, qs: seq<seq<nat>>, k: nat)
    requires h < |qs| && k <= |qs|
  {
    forall j :: 0 <= j < k ==> NoneTakeable(w, h, skip, qs[Nth(h, j, |qs|)])
  }

  lemma DrainedNext(w: View, h: nat, skip: set<nat>, qs: seq<seq<nat>>, k: nat, r: Option<nat>)
    requires h < |qs| && k < |qs| && Drained(w, h, skip, qs, k) && FirstTakeable(w, h, skip, qs[Nth(h, k, |qs|)], r)
    ensures r.None? ==> Drained(w, h, skip, qs, k + 1)
  {
  }

  lemma {:induction false} AllDrained(w: View, h: nat, skip: set<nat>, qs: seq<seq<nat>>)
    requires forall v :: 0 <= v < |qs| ==> NoneTakeable(w, h, skip, qs[v])
    ensures LiveBelow(w, h, skip, qs) == multiset{}
  {
    if qs != [] {
      AllDrained(w, h, skip, qs[..|qs| - 1]);
      NoneLive(w, h, skip, qs[|qs| - 1]);
    }
  }

  lemma NothingLeft(w: View, h: nat, skip: set<nat>, qs: seq<seq<nat>>)
    requires h < |qs| && Drained(w, h, skip, qs, |qs|)
    ensures LiveBelow(w, h, skip, qs) == multiset{}
  {
    forall v | 0 <= v < |qs| ensures NoneTakeable(w, h, skip, qs[v]) {
      var k := NthCovers(h, v, |qs|);
    }
    AllDrained(w, h, skip, qs);
  }

  lemma PicksAfter(w: View, h: nat, skip: set<nat>, qs0: seq<seq<nat>>, qs: seq<seq<nat>>, qs': seq<seq<nat>>,
                   r: Option<nat>)
    requires Leaves(w, h, skip, qs0, qs, None) && Picks(w, h, skip, qs, qs', r)
    ensures Picks(w, h, skip, qs0, qs', r)
  {
    assert LiveBelow(w, h, skip, qs) + One(None) == LiveBelow(w, h, skip, qs);
  }

  lemma Cancel(a: multiset<nat>, b: multiset<nat>, x: multiset<nat>)
    requires a + x == b + x
    ensures a == b
  {
    forall p: nat ensures a[p] == b[p] {
      assert (a + x)[p] == (b + x)[p];
    }
  }

  lemma LeavesScan(w: View, h: nat, skip: set<nat>, qs0: seq<seq<nat>>, qs: seq<seq<nat>>, v: nat, q: seq<nat>,
                   r: Option<nat>)
    requires Leaves(w, h, skip, qs0, qs, None) && v < |qs| && Scans(w, h, skip, qs[v], q, r)
    ensures Leaves(w, h, skip, qs0, qs[v := q], r)
  {
    LiveBelowUpdate(w, h, skip, qs, v, q);
    CancelScan(LiveBelow(w, h, skip, qs[v := q]), LiveBelow(w, h, skip, qs), LiveIn(w, h, skip, qs[v]),
      LiveIn(w, h, skip, q), One(r));
  }

  lemma CancelScan(a: multiset<nat>, b: multiset<nat>, before: multiset<nat>, after: multiset<nat>, r: multiset<nat>)
    requires a + before == b + after && before == after + r
    ensures b == a + r
  {
    assert a + (after + r) == (a + r) + after;
    Cancel(b, a + r, after);
  }

  /** No queue from `h` on, `k` of them, holds an eligible entry. */
  predicate BareBelow(w: View, h: nat, skip: set<nat>, l: Load, qs: seq<seq<nat>>, k: nat)
    requires h < |qs| && k <= |qs|
  {
    forall j :: 0 <= j < k ==> NoneEligible(w, h, skip, l, qs[Nth(h, j, |qs|)])
  }

  /** `r` is the least-loaded eligible entry of the first queue from `h` on that has one. */
  predicate LeastOfFirst(w: View, h: nat, skip: set<nat>, l: Load, qs: seq<seq<nat>>, r: Option<nat>)
    requires h < |qs|
  {
    if r.None? then BareBelow(w, h, skip, l, qs, |qs|)
    else exists k :: 0 <= k < |qs| && BareBelow(w, h, skip, l, qs, k)
                     && LeastEligible(w, h, skip, l, qs[Nth(h, k, |qs|)], r)
  }
}
