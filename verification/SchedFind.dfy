/** `find_next`: the pick of an exiting hart.  Its first pass weighs the tasks of all queues against
    each other, with one stash that remembers which queue each parked task came from. */
module SchedFind {
  import opened Wrappers
  import opened Arithmetic
  import opened SchedState
  import opened SchedPick

  /** A task and the queue it was taken from. */
  datatype Taken = Taken(queue: nat, pid: nat)

  function PidOf(e: Option<Taken>): Option<nat> {
    if e.Some? then Some(e.value.pid) else None
  }

  function Pids(es: seq<Taken>): multiset<nat> {
    if es == [] then multiset{} else Pids(es[..|es| - 1]) + multiset{es[|es| - 1].pid}
  }

  /** The tasks of `es` that came from queue `u`. */
  function From(es: seq<Taken>, u: nat): multiset<nat> {
    if es == [] then multiset{}
    else From(es[..|es| - 1], u) + if es[|es| - 1].queue == u then multiset{es[|es| - 1].pid} else multiset{}
  }

  function Held(e: Option<Taken>): seq<Taken> {
    if e.Some? then [e.value] else []
  }

  function Home(e: Option<Taken>): set<nat> {
    if e.Some? then {e.value.queue} else {}
  }

  lemma PushTaken(es: seq<Taken>, e: Taken)
    ensures Pids(es + [e]) == Pids(es) + multiset{e.pid}
    ensures forall u :: From(es + [e], u) == From(es, u) + if e.queue == u then multiset{e.pid} else multiset{}
  {
    assert (es + [e])[..|es|] == es;
  }

  /** The queues in scan order, end to end. */
  function Flat(qs: seq<seq<nat>>, h: nat, k: nat): seq<nat>
    requires h < |qs| && k <= |qs|
  {
    if k == 0 then [] else Flat(qs, h, k - 1) + qs[Nth(h, k - 1, |qs|)]
  }

  ghost predicate Parked(w: View, h: nat, skip: set<nat>, n: nat, es: seq<Taken>) {
    forall e :: e in es ==> e.queue < n && Takeable(w, h, skip, e.pid)
  }

  /** Nothing takeable of `qs0` is outside `qs` and `out`. */
  predicate Conserved(w: View, h: nat, skip: set<nat>, qs0: seq<seq<nat>>, qs: seq<seq<nat>>, out: seq<Taken>) {
    LiveBelow(w, h, skip, qs0) == LiveBelow(w, h, skip, qs) + Pids(out)
  }

  /** The entries of a queue, counted one by one. */
  function Bag(q: seq<nat>): multiset<nat> {
    if q == [] then multiset{} else Bag(q[..|q| - 1]) + multiset{q[|q| - 1]}
  }

  lemma {:induction false} BagIs(q: seq<nat>)
    ensures Bag(q) == multiset(q)
  {
    if q != [] {
      BagIs(q[..|q| - 1]);
      assert q == q[..|q| - 1] + [q[|q| - 1]];
    }
  }

  lemma BagPop(q: seq<nat>)
    requires q != []
    ensures Bag(q) == multiset{q[0]} + Bag(q[1..])
  {
    BagIs(q);
    BagIs(q[1..]);
    assert q == [q[0]] + q[1..];
  }

  predicate FitsAt(qs0: seq<seq<nat>>, qs: seq<seq<nat>>, out: seq<Taken>, u: nat)
    requires u < |qs0| == |qs|
  {
    Bag(qs[u]) + From(out, u) <= Bag(qs0[u])
  }

  /** Everything in `out` can go back to the queue it came from. */
  predicate Fits(qs0: seq<seq<nat>>, qs: seq<seq<nat>>, out: seq<Taken>) {
    |qs| == |qs0| && forall u :: 0 <= u < |qs| ==> FitsAt(qs0, qs, out, u)
  }

  ghost predicate Balanced(w: View, h: nat, skip: set<nat>, qs0: seq<seq<nat>>, qs: seq<seq<nat>>, out: seq<Taken>) {
    Fits(qs0, qs, out) && Parked(w, h, skip, |qs0|, out) && Conserved(w, h, skip, qs0, qs, out)
  }

  lemma LiveBelowPop(w: View, h: nat, skip: set<nat>, qs: seq<seq<nat>>, v: nat)
    requires v < |qs| && qs[v] != []
    ensures LiveBelow(w, h, skip, qs) == LiveBelow(w, h, skip, qs[v := qs[v][1..]])
                                         + if Takeable(w, h, skip, qs[v][0]) then multiset{qs[v][0]} else multiset{}
    ensures multiset(qs[v]) == multiset{qs[v][0]} + multiset(qs[v][1..])
  {
    var p, q := qs[v][0], qs[v][1..];
    LiveBelowUpdate(w, h, skip, qs, v, q);
    assert qs[v] == [p] + q;
    LiveAppend(w, h, skip, [p], q);
    LiveOne(w, h, skip, p);
    assert LiveIn(w, h, skip, [p]) + LiveIn(w, h, skip, q) == LiveIn(w, h, skip, q) + LiveIn(w, h, skip, [p]);
    CancelScan(LiveBelow(w, h, skip, qs[v := q]), LiveBelow(w, h, skip, qs), LiveIn(w, h, skip, qs[v]),
               LiveIn(w, h, skip, q), LiveIn(w, h, skip, [p]));
  }

  lemma LiveBelowPush(w: View, h: nat, skip: set<nat>, qs: seq<seq<nat>>, v: nat, p: nat)
    requires v < |qs| && Takeable(w, h, skip, p)
    ensures LiveBelow(w, h, skip, qs[v := qs[v] + [p]]) == LiveBelow(w, h, skip, qs) + multiset{p}
    ensures multiset(qs[v] + [p]) == multiset(qs[v]) + multiset{p}
  {
    LiveBelowUpdate(w, h, skip, qs, v, qs[v] + [p]);
    LiveAppend(w, h, skip, qs[v], [p]);
    LiveOne(w, h, skip, p);
    var a, b, c := LiveBelow(w, h, skip, qs[v := qs[v] + [p]]), LiveBelow(w, h, skip, qs), LiveIn(w, h, skip, qs[v]);
    assert b + (c + multiset{p}) == (b + multiset{p}) + c;
    Cancel(a, b + multiset{p}, c);
  }

  function AfterPop(w: View, h: nat, skip: set<nat>, out: seq<Taken>, v: nat, p: nat): seq<Taken> {
    if Takeable(w, h, skip, p) then out + [Taken(v, p)] else out
  }

  lemma PopConserved(w: View, h: nat, skip: set<nat>, qs0: seq<seq<nat>>, qs: seq<seq<nat>>, out: seq<Taken>, v: nat)
    requires Conserved(w, h, skip, qs0, qs, out) && v < |qs| && qs[v] != []
    ensures Conserved(w, h, skip, qs0, qs[v := qs[v][1..]], AfterPop(w, h, skip, out, v, qs[v][0]))
  {
    LiveBelowPop(w, h, skip, qs, v);
    PushTaken(out, Taken(v, qs[v][0]));
    var a := LiveBelow(w, h, skip, qs[v := qs[v][1..]]);
    assert (a + multiset{qs[v][0]}) + Pids(out) == a + (Pids(out) + multiset{qs[v][0]});
  }

  lemma PopFitsAt(w: View, h: nat, skip: set<nat>, qs0: seq<seq<nat>>, qs: seq<seq<nat>>, out: seq<Taken>, v: nat,
                  u: nat)
    requires u < |qs| == |qs0| && FitsAt(qs0, qs, out, u) && v < |qs| && qs[v] != []
    ensures FitsAt(qs0, qs[v := qs[v][1..]], AfterPop(w, h, skip, out, v, qs[v][0]), u)
  {
    var p, q := qs[v][0], qs[v][1..];
    PushTaken(out, Taken(v, p));
    if u == v {
      BagPop(qs[v]);
      MoveOne(Bag(q), From(out, v), p, Bag(qs0[v]));
    }
  }

  lemma MoveOne(q: multiset<nat>, out: multiset<nat>, p: nat, limit: multiset<nat>)
    requires (multiset{p} + q) + out <= limit
    ensures q + (out + multiset{p}) <= limit && q + out <= limit
  {
    assert (multiset{p} + q) + out == q + (out + multiset{p});
  }

  lemma PopFits(w: View, h: nat, skip: set<nat>, qs0: seq<seq<nat>>, qs: seq<seq<nat>>, out: seq<Taken>, v: nat)
    requires Fits(qs0, qs, out) && v < |qs| && qs[v] != []
    ensures Fits(qs0, qs[v := qs[v][1..]], AfterPop(w, h, skip, out, v, qs[v][0]))
  {
    var qs', out' := qs[v := qs[v][1..]], AfterPop(w, h, skip, out, v, qs[v][0]);
    forall u | 0 <= u < |qs'| ensures FitsAt(qs0, qs', out', u) {
      PopFitsAt(w, h, skip, qs0, qs, out, v, u);
    }
  }

  /** Taking the head of queue `v`: dropped when stale, in hand when takeable. */
  lemma PopBalanced(w: View, h: nat, skip: set<nat>, qs0: seq<seq<nat>>, qs: seq<seq<nat>>, out: seq<Taken>, v: nat)
    requires Balanced(w, h, skip, qs0, qs, out) && v < |qs| && qs[v] != []
    ensures Balanced(w, h, skip, qs0, qs[v := qs[v][1..]], AfterPop(w, h, skip, out, v, qs[v][0]))
  {
    PopConserved(w, h, skip, qs0, qs, out, v);
    PopFits(w, h, skip, qs0, qs, out, v);
  }

  lemma PushConserved(w: View, h: nat, skip: set<nat>, qs0: seq<seq<nat>>, qs: seq<seq<nat>>, out: seq<Taken>, e: Taken)
    requires Conserved(w, h, skip, qs0, qs, out + [e]) && e.queue < |qs| && Takeable(w, h, skip, e.pid)
    ensures Conserved(w, h, skip, qs0, qs[e.queue := qs[e.queue] + [e.pid]], out)
  {
    PushTaken(out, e);
    LiveBelowPush(w, h, skip, qs, e.queue, e.pid);
    assert (LiveBelow(w, h, skip, qs) + multiset{e.pid}) + Pids(out)
           == LiveBelow(w, h, skip, qs) + (Pids(out) + multiset{e.pid});
  }

  lemma PushFits(qs0: seq<seq<nat>>, qs: seq<seq<nat>>, out: seq<Taken>, e: Taken)
    requires Fits(qs0, qs, out + [e]) && e.queue < |qs|
    ensures Fits(qs0, qs[e.queue := qs[e.queue] + [e.pid]], out)
  {
    var qs' := qs[e.queue := qs[e.queue] + [e.pid]];
    forall u | 0 <= u < |qs| ensures FitsAt(qs0, qs', out, u) {
      assert FitsAt(qs0, qs, out + [e], u);
      PushTaken(out, e);
      if u == e.queue {
        assert (qs[u] + [e.pid])[..|qs[u]|] == qs[u];
        assert Bag(qs[u] + [e.pid]) + From(out, u) == Bag(qs[u]) + (From(out, u) + multiset{e.pid});
      }
    }
  }

  /** Putting the last task in hand back where it came from. */
  lemma PushBalanced(w: View, h: nat, skip: set<nat>, qs0: seq<seq<nat>>, qs: seq<seq<nat>>, out: seq<Taken>, e: Taken)
    requires Balanced(w, h, skip, qs0, qs, out + [e])
    ensures e.queue < |qs| && Balanced(w, h, skip, qs0, qs[e.queue := qs[e.queue] + [e.pid]], out)
  {
    assert (out + [e])[|out|] == e;
    assert forall x :: x in out ==> x in out + [e];
    PushConserved(w, h, skip, qs0, qs, out, e);
    PushFits(qs0, qs, out, e);
  }

  lemma SwapBalanced(w: View, h: nat, skip: set<nat>, qs0: seq<seq<nat>>, qs: seq<seq<nat>>, out: seq<Taken>, a: Taken,
                     b: Taken)
    requires Balanced(w, h, skip, qs0, qs, out + [a] + [b])
    ensures Balanced(w, h, skip, qs0, qs, out + [b] + [a])
  {
    PushTaken(out, a);
    PushTaken(out + [a], b);
    PushTaken(out, b);
    PushTaken(out + [b], a);
    assert forall x :: x in out + [b] + [a] ==> x in out + [a] + [b];
    var out' := out + [b] + [a];
    forall u | 0 <= u < |qs| ensures FitsAt(qs0, qs, out', u) {
      assert FitsAt(qs0, qs, out + [a] + [b], u);
    }
  }

  // ---- the scan ----

  /** A first-pass scan over all queues after the entries `seen`. */
  ghost predicate Finding(w: View, h: nat, skip: set<nat>, l: Load, qs0: seq<seq<nat>>, qs: seq<seq<nat>>,
                          seen: seq<nat>, parked: seq<Taken>, best: Option<Taken>, bestVr: nat, bi: nat) {
    && Balanced(w, h, skip, qs0, qs, parked + Held(best))
    && BestSoFar(w, h, skip, l, seen, PidOf(best), bi)
    && (best.Some? ==> bestVr == VrOf(w, l, best.value.pid))
  }

  /** One takeable entry more: the winner is held, the loser goes to the stash or back to the queue
      it came from. */
  lemma FindParked(w: View, h: nat, skip: set<nat>, qs0: seq<seq<nat>>, qs: seq<seq<nat>>, parked: seq<Taken>,
                   best: Option<Taken>, e: Taken, wins: bool)
    requires Balanced(w, h, skip, qs0, qs, parked + Held(best) + [e])
    ensures var loser, best' := if wins then best else Some(e), if wins then Some(e) else best;
            && Balanced(w, h, skip, qs0, qs, parked + Held(loser) + Held(best'))
            && (loser.Some? ==> loser.value.queue < |qs| && Balanced(w, h, skip, qs0,
                  qs[loser.value.queue := qs[loser.value.queue] + [loser.value.pid]], parked + Held(best')))
  {
    if best.None? {
      assert parked + Held(best) + [e] == parked + [e];
      assert parked + [] + [e] == parked + [e] && parked + [e] + [] == parked + [e];
      if !wins {
        PushBalanced(w, h, skip, qs0, qs, parked, e);
        assert parked + [] == parked;
      }
    } else {
      SwapBalanced(w, h, skip, qs0, qs, parked, best.value, e);
      if wins {
        PushBalanced(w, h, skip, qs0, qs, parked + [e], best.value);
      } else {
        PushBalanced(w, h, skip, qs0, qs, parked + [best.value], e);
      }
    }
  }

  lemma FlatNext(qs: seq<seq<nat>>, h: nat, k: nat, i: nat)
    requires h < |qs| && k < |qs| && i < |qs[Nth(h, k, |qs|)]|
    ensures var q := qs[Nth(h, k, |qs|)];
            Flat(qs, h, k) + q[..i + 1] == (Flat(qs, h, k) + q[..i]) + [q[i]]
  {
  }

  lemma SeenNext(w: View, h: nat, skip: set<nat>, l: Load, seen: seq<nat>, p: nat, best: Option<nat>, bi: nat)
    returns (bi': nat)
    requires BestSoFar(w, h, skip, l, seen, best, bi)
    ensures !Eligible(w, h, skip, l, p) ==> bi' == bi && BestSoFar(w, h, skip, l, seen + [p], best, bi')
    ensures Eligible(w, h, skip, l, p) ==>
              if Better(w, l, best, p) then BestSoFar(w, h, skip, l, seen + [p], Some(p), bi')
              else BestSoFar(w, h, skip, l, seen + [p], best, bi')
  {
    var q := seen + [p];
    assert q[..|seen|] == seen && q[..|seen| + 1] == q;
    BestNext(w, h, skip, l, q, |seen|, best, bi);
    bi' := if Eligible(w, h, skip, l, p) && Better(w, l, best, p) then |seen| else bi;
  }

  /** Only queue `v` and the queues in `home` have changed. */
  predicate Elsewhere(qs: seq<seq<nat>>, qs': seq<seq<nat>>, v: nat, home: set<nat>) {
    |qs| == |qs'| && forall u :: 0 <= u < |qs| && u != v && u !in home ==> qs'[u] == qs[u]
  }

  lemma ElsewhereThen(qs: seq<seq<nat>>, qs1: seq<seq<nat>>, qs2: seq<seq<nat>>, v: nat, home: set<nat>,
                      home1: set<nat>)
    requires Elsewhere(qs, qs1, v, home) && Elsewhere(qs1, qs2, v, home1) && home1 <= home + {v}
    ensures Elsewhere(qs, qs2, v, home)
  {
  }

  lemma HeadOf(q: seq<nat>, i: nat, q': seq<nat>, seen: seq<nat>)
    requires i < |q| && q[i..] <= q'
    ensures q' != [] && q'[0] == q[i] && q[i + 1..] <= q'[1..]
    ensures seen + q[..i + 1] == (seen + q[..i]) + [q[i]]
  {
    assert q'[0] == q[i..][0];
    assert q[i..][1..] == q[i + 1..];
  }

  lemma FindStarts(w: View, h: nat, skip: set<nat>, l: Load, qs0: seq<seq<nat>>)
    requires h < |qs0|
    ensures Finding(w, h, skip, l, qs0, qs0, Flat(qs0, h, 0), [], None, 0, 0)
    ensures Untouched(h, qs0, qs0, 0) && Behind(None, h, 0, |qs0|)
  {
    StartBalanced(w, h, skip, qs0);
  }

  lemma StashFront(parked: seq<Taken>, k: nat, best: Option<Taken>)
    requires k < |parked|
    ensures parked[k..] + Held(best) == [parked[k]] + (parked[k + 1..] + Held(best))
  {
  }

  /** `best` was not taken from a queue still to be scanned. */
  predicate Behind(best: Option<Taken>, h: nat, k: nat, n: nat)
    requires h < n
  {
    best.Some? ==> forall j :: k <= j < n ==> best.value.queue != Nth(h, j, n)
  }

  /** The scan for the least-loaded task after `k` queues. */
  ghost predicate Searching(w: View, h: nat, skip: set<nat>, l: Load, qs0: seq<seq<nat>>, qs: seq<seq<nat>>, k: nat,
                            parked: seq<Taken>, best: Option<Taken>, bestVr: nat, bi: nat) {
    && h < |qs0| == |qs| && k <= |qs0|
    && Finding(w, h, skip, l, qs0, qs, Flat(qs0, h, k), parked, best, bestVr, bi)
    && Untouched(h, qs0, qs, k) && Behind(best, h, k, |qs0|)
  }

  lemma SearchStarts(w: View, h: nat, skip: set<nat>, l: Load, qs0: seq<seq<nat>>)
    requires h < |qs0|
    ensures Searching(w, h, skip, l, qs0, qs0, 0, [], None, 0, 0) == true
  {
    FindStarts(w, h, skip, l, qs0);
  }

  lemma UntouchedAfter(h: nat, qs0: seq<seq<nat>>, qs: seq<seq<nat>>, qs': seq<seq<nat>>, k: nat, best: Option<Taken>,
                       best': Option<Taken>)
    requires h < |qs0| == |qs| && k < |qs0| && Untouched(h, qs0, qs, k) && Behind(best, h, k, |qs0|)
    requires Elsewhere(qs, qs', Nth(h, k, |qs0|), Home(best))
    requires best' == best || (best'.Some? && best'.value.queue == Nth(h, k, |qs0|))
    ensures Untouched(h, qs0, qs', k + 1) && Behind(best', h, k + 1, |qs0|)
  {
  }

  lemma FindPicks(w: View, h: nat, skip: set<nat>, l: Load, qs0: seq<seq<nat>>, qs: seq<seq<nat>>,
                  seen: seq<nat>, best: Option<Taken>, bi: nat)
    requires Balanced(w, h, skip, qs0, qs, Held(best)) && BestSoFar(w, h, skip, l, seen, PidOf(best), bi)
    ensures Leaves(w, h, skip, qs0, qs, PidOf(best)) && LeastEligible(w, h, skip, l, seen, PidOf(best))
  {
    if best.Some? {
      assert [best.value][..0] == [];
      assert best.value in Held(best);
    }
    assert Pids(Held(best)) == One(PidOf(best));
    forall u | 0 <= u < |qs| ensures multiset(qs[u]) <= multiset(qs0[u]) {
      assert FitsAt(qs0, qs, Held(best), u);
      BagIs(qs[u]);
      BagIs(qs0[u]);
    }
  }

  // ---- emptying the stash ----

  lemma {:induction false} PidsSplit(a: seq<Taken>, b: seq<Taken>)
    ensures Pids(a + b) == Pids(a) + Pids(b)
    decreases |b|
  {
    if b == [] {
      assert a + b == a;
    } else {
      var c, e := b[..|b| - 1], b[|b| - 1];
      PidsSplit(a, c);
      assert (a + b)[..|a + b| - 1] == a + c && (a + b)[|a + b| - 1] == e;
      assert (Pids(a) + Pids(c)) + multiset{e.pid} == Pids(a) + (Pids(c) + multiset{e.pid});
    }
  }

  lemma {:induction false} FromSplit(a: seq<Taken>, b: seq<Taken>, u: nat)
    ensures From(a + b, u) == From(a, u) + From(b, u)
    decreases |b|
  {
    if b == [] {
      assert a + b == a;
    } else {
      var c, e := b[..|b| - 1], b[|b| - 1];
      FromSplit(a, c, u);
      assert (a + b)[..|a + b| - 1] == a + c && (a + b)[|a + b| - 1] == e;
      var x := if e.queue == u then multiset{e.pid} else multiset{};
      assert (From(a, u) + From(c, u)) + x == From(a, u) + (From(c, u) + x);
    }
  }

  lemma RotateFits(qs0: seq<seq<nat>>, qs: seq<seq<nat>>, e: Taken, rest: seq<Taken>, u: nat)
    requires u < |qs| == |qs0| && FitsAt(qs0, qs, [e] + rest, u)
    ensures FitsAt(qs0, qs, rest + [e], u)
  {
    FromSplit([e], rest, u);
    FromSplit(rest, [e], u);
  }

  lemma RotateBalanced(w: View, h: nat, skip: set<nat>, qs0: seq<seq<nat>>, qs: seq<seq<nat>>, e: Taken,
                       rest: seq<Taken>)
    requires Balanced(w, h, skip, qs0, qs, [e] + rest)
    ensures Balanced(w, h, skip, qs0, qs, rest + [e])
  {
    var out, out' := [e] + rest, rest + [e];
    PidsSplit([e], rest);
    PidsSplit(rest, [e]);
    assert forall x :: x in out' ==> x in out;
    forall u | 0 <= u < |qs| ensures FitsAt(qs0, qs, out', u) {
      assert FitsAt(qs0, qs, out, u);
      RotateFits(qs0, qs, e, rest, u);
    }
  }

  /** The oldest task of the stash goes back. */
  lemma UnstashBalanced(w: View, h: nat, skip: set<nat>, qs0: seq<seq<nat>>, qs: seq<seq<nat>>, e: Taken,
                        rest: seq<Taken>)
    requires Balanced(w, h, skip, qs0, qs, [e] + rest)
    ensures e.queue < |qs| && Balanced(w, h, skip, qs0, qs[e.queue := qs[e.queue] + [e.pid]], rest)
  {
    RotateBalanced(w, h, skip, qs0, qs, e, rest);
    PushBalanced(w, h, skip, qs0, qs, rest, e);
  }

  lemma StartBalanced(w: View, h: nat, skip: set<nat>, qs: seq<seq<nat>>)
    ensures Balanced(w, h, skip, qs, qs, [] + Held(None))
  {
    var out: seq<Taken> := [] + Held(None);
    assert out == [];
    forall u | 0 <= u < |qs| ensures FitsAt(qs, qs, out, u) {
    }
  }
}
