/** `task/mod.rs` as it is written: one object holding the tables behind the big lock, whose
    methods are the critical sections. */
module HartScheduler {
  import opened Wrappers
  import opened Arithmetic
  import opened SchedState
  import opened SchedPick
  import opened SchedFind
  import opened SchedMachine

  class Scheduler {
    var procs: map<nat, Proc>
    var queues: seq<seq<nat>>
    var current: seq<nat>
    var idle: seq<bool>
    var nextPid: nat
    const harts: nat

    function State(): Sched
      reads this
    {
      Sched(procs, queues, current, idle, nextPid)
    }

    predicate Valid()
      reads this
    {
      Shaped(State(), harts)
    }

    /** `w` is what the scan read when it began: scanning changes queues only. */
    method IsTakeable(h: nat, skip: set<nat>, pid: nat, ghost w: View) returns (live: bool)
      requires Valid() && w == Seen(State())
      ensures live == Takeable(w, h, skip, pid)
    {
      var owned := false;
      var hh := 0;
      while hh < harts && !owned
        invariant hh <= harts && (owned <==> exists k :: 0 <= k < hh && k != h && current[k] == pid)
      {
        if hh != h && current[hh] == pid {
          owned := true;
        }
        hh := hh + 1;
      }
      live := pid !in skip && pid in procs && (procs[pid].state == Runnable || procs[pid].state == Running) && !owned;
    }

    method PopFront(v: nat) returns (pid: nat)
      requires Valid() && v < harts && queues[v] != []
      modifies this`queues
      ensures Valid() && queues == old(queues)[v := queues[v]]
      ensures queues[v] == old(queues[v])[1..] && pid == old(queues[v])[0]
    {
      pid := queues[v][0];
      queues := queues[v := queues[v][1..]];
    }

    /** `park!`: into the stash while there is room, else straight back to the queue. */
    method Park(v: nat, pid: nat, stash: array<nat>, used: nat) returns (used': nat, ghost back: seq<nat>)
      requires Valid() && v < harts && used <= stash.Length
      modifies this`queues, stash
      ensures Valid() && used' <= stash.Length && back == (if used < stash.Length then [] else [pid])
      ensures queues == old(queues)[v := old(queues[v]) + back]
      ensures stash[..used'] == old(stash[..used]) + if used < stash.Length then [pid] else []
    {
      if used < stash.Length {
        stash[used] := pid;
        used', back := used + 1, [];
        assert old(queues[v]) + [] == old(queues[v]);
        assert queues == old(queues)[v := old(queues[v])];
      } else {
        queues := queues[v := queues[v] + [pid]];
        used', back := used, [pid];
      }
    }

    method Unpark(v: nat, stash: array<nat>, used: nat)
      requires Valid() && v < harts && used <= stash.Length
      modifies this`queues
      ensures Valid() && queues == old(queues)[v := queues[v]] && queues[v] == old(queues[v]) + stash[..used]
    {
      ghost var q := queues[v];
      var k := 0;
      assert q + stash[..0] == q;
      while k < used
        invariant k <= used && Valid() && queues == old(queues)[v := q + stash[..k]]
      {
        queues := queues[v := queues[v] + [stash[k]]];
        assert q + stash[..k + 1] == (q + stash[..k]) + [stash[k]];
        k := k + 1;
      }
    }

    /** `pop_valid_locked`, second pass: the first takeable entry of queue `v`. */
    method PopAny(h: nat, v: nat, skip: set<nat>) returns (r: Option<nat>)
      requires Valid() && h < harts && v < harts
      modifies this`queues
      ensures Valid() && queues == old(queues)[v := queues[v]]
      ensures Scans(Seen(old(State())), h, skip, old(queues[v]), queues[v], r)
      ensures FirstTakeable(Seen(old(State())), h, skip, old(queues[v]), r)
    {
      ghost var w, q := Seen(State()), queues[v];
      var n := |queues[v]|;
      var i := 0;
      while i < n
        invariant i <= n == |q| && Valid() && queues == old(queues)[v := queues[v]] && queues[v] == q[i..]
        invariant NoneTakeable(w, h, skip, q[..i])
      {
        var pid := PopFront(v);
        var live := IsTakeable(h, skip, pid, w);
        if live {
          StopScans(w, h, skip, q, i);
          return Some(pid);
        }
        SkipNext(w, h, skip, q, i);
        i := i + 1;
      }
      assert q[..i] == q;
      NoneScans(w, h, skip, q);
      r := None;
    }

    /** Weigh a takeable entry against the best one so far; the loser is to be parked. */
    method Weigh(pid: nat, l: Load, best: Option<nat>, bestVr: nat, ghost w: View)
      returns (loser: Option<nat>, best': Option<nat>, bestVr': nat)
      requires Valid() && w == Seen(State()) && pid in procs
      requires best.Some? ==> best.value in procs && bestVr == VrOf(w, l, best.value)
      ensures if !l.over(w.procs[pid].cg) && Better(w, l, best, pid) then loser == best && best' == Some(pid)
              else loser == Some(pid) && best' == best
      ensures best'.Some? ==> best'.value in w.procs && bestVr' == VrOf(w, l, best'.value)
    {
      loser, best', bestVr' := Some(pid), best, bestVr;
      var cg := procs[pid].cg;
      if !l.over(cg) {
        var vr := l.vr(cg);
        if best.None? || vr < bestVr {
          loser, best', bestVr' := best, Some(pid), vr;
        }
      }
    }

    method ParkLoser(v: nat, loser: Option<nat>, stash: array<nat>, used: nat)
      returns (used': nat, ghost back: seq<nat>)
      requires Valid() && v < harts && used <= stash.Length
      modifies this`queues, stash
      ensures Valid() && used' <= stash.Length
      ensures queues == old(queues)[v := queues[v]] && queues[v] == old(queues[v]) + back
      ensures multiset(back) + multiset(stash[..used']) == multiset(old(stash[..used])) + One(loser)
    {
      if loser.Some? {
        used', back := Park(v, loser.value, stash, used);
      } else {
        used', back := used, [];
        assert queues[v] + [] == queues[v];
      }
    }

    /** One entry of a first-pass scan. */
    method ScanEntry(h: nat, v: nat, l: Load, stash: array<nat>, used: nat, best: Option<nat>, bestVr: nat,
                     ghost w: View, ghost q: seq<nat>, ghost i: nat, ghost over: seq<nat>, ghost bi: nat)
      returns (used': nat, best': Option<nat>, bestVr': nat, ghost over': seq<nat>, ghost bi': nat)
      requires Valid() && v < harts && i < |q| && used <= stash.Length && queues[v] == q[i..] + over
      requires w == Seen(State())
      requires Scanning(w, h, {}, l, q[..i], over, stash[..used], best, bestVr, bi)
      modifies this`queues, stash
      ensures Valid() && queues == old(queues)[v := queues[v]] && queues[v] == q[i + 1..] + over'
      ensures used' <= stash.Length
      ensures Scanning(w, h, {}, l, q[..i + 1], over', stash[..used'], best', bestVr', bi')
    {
      Shift(q, i, over);
      var pid := PopFront(v);
      var live := IsTakeable(h, {}, pid, w);
      if live {
        var loser;
        ghost var back;
        loser, best', bestVr' := Weigh(pid, l, best, bestVr, w);
        ghost var parked := stash[..used];
        used', back := ParkLoser(v, loser, stash, used);
        bi' := ScanPark(w, h, {}, l, q, i, over, parked, best, bestVr, bi, back, stash[..used'], best', bestVr', loser);
        Requeued(q, i, over, back);
        over' := over + back;
      } else {
        ScanSkip(w, h, {}, l, q, i, over, stash[..used], best, bestVr, bi);
        used', best', bestVr', over', bi' := used, best, bestVr, over, bi;
      }
    }

    method ScanQueue(h: nat, v: nat, l: Load, stash: array<nat>, ghost w: View, ghost q: seq<nat>)
      returns (used: nat, best: Option<nat>, ghost bestVr: nat, ghost over: seq<nat>, ghost bi: nat)
      requires Valid() && v < harts && queues[v] == q && w == Seen(State())
      modifies this`queues, stash
      ensures Valid() && queues == old(queues)[v := queues[v]] && queues[v] == over && used <= stash.Length
      ensures Scanning(w, h, {}, l, q, over, stash[..used], best, bestVr, bi)
    {
      var n := |queues[v]|;
      var vr: nat := 0;
      used, best, over, bi := 0, None, [], 0;
      var i := 0;
      assert q[..0] == [] && q[0..] + [] == q;
      while i < n
        invariant i <= n == |q| && Valid() && queues == old(queues)[v := queues[v]] && queues[v] == q[i..] + over
        invariant used <= stash.Length && Scanning(w, h, {}, l, q[..i], over, stash[..used], best, vr, bi)
      {
        used, best, vr, over, bi := ScanEntry(h, v, l, stash, used, best, vr, w, q, i, over, bi);
        i := i + 1;
      }
      assert q[..i] == q && q[i..] + over == over;
      bestVr := vr;
    }

    method FinishScan(h: nat, v: nat, l: Load, stash: array<nat>, used: nat, ghost w: View, ghost q: seq<nat>,
                      ghost over: seq<nat>, ghost best: Option<nat>, ghost bestVr: nat, ghost bi: nat)
      requires Valid() && v < harts && used <= stash.Length && queues[v] == over
      requires Scanning(w, h, {}, l, q, over, stash[..used], best, bestVr, bi)
      modifies this`queues
      ensures Valid() && queues == old(queues)[v := queues[v]]
      ensures Scans(w, h, {}, q, queues[v], best) && LeastEligible(w, h, {}, l, q, best)
    {
      Unpark(v, stash, used);
      ScanEnds(w, h, {}, l, q, over, stash[..used], best, bestVr, bi, queues[v]);
    }

    /** `pop_valid_locked`, first pass: the least-loaded entry of queue `v` that is under its quota;
        everything else takeable goes back, in whatever order. */
    method PopLeast(h: nat, v: nat, l: Load) returns (r: Option<nat>)
      requires Valid() && h < harts && v < harts
      modifies this`queues
      ensures Valid() && queues == old(queues)[v := queues[v]]
      ensures Scans(Seen(old(State())), h, {}, old(queues[v]), queues[v], r)
      ensures LeastEligible(Seen(old(State())), h, {}, l, old(queues[v]), r)
    {
      ghost var w, q := Seen(State()), queues[v];
      var stash := new nat[32];
      var used;
      ghost var bestVr, over, bi;
      used, r, bestVr, over, bi := ScanQueue(h, v, l, stash, w, q);
      FinishScan(h, v, l, stash, used, w, q, over, r, bestVr, bi);
    }

    /** `pick_pass`, first pass. */
    method PassLeast(h: nat, l: Load) returns (r: Option<nat>)
      requires Valid() && h < harts
      modifies this`queues
      ensures Valid() && Leaves(Seen(old(State())), h, {}, old(queues), queues, r)
      ensures LeastOfFirst(Seen(old(State())), h, {}, l, old(queues), r)
    {
      ghost var w, qs0 := Seen(State()), queues;
      var k := 0;
      while k < harts
        invariant k <= harts && Valid() && Leaves(w, h, {}, qs0, queues, None) && BareBelow(w, h, {}, l, qs0, k)
        invariant Untouched(h, qs0, queues, k)
      {
        NthIsMod(h, k, harts);
        var v := (h + k) % harts;
        ghost var qs := queues;
        r := PopLeast(h, v, l);
        LeavesScan(w, h, {}, qs0, qs, v, queues[v], r);
        UntouchedNext(h, qs0, qs, k, queues[v]);
        FirstFound(w, h, {}, l, qs0, k, r);
        if r.Some? {
          return;
        }
        k := k + 1;
      }
      r := None;
    }

    /** `pick_pass` and `find_next_pass`, second pass. */
    method PassAny(h: nat, skip: set<nat>) returns (r: Option<nat>)
      requires Valid() && h < harts
      modifies this`queues
      ensures Valid() && Picks(Seen(old(State())), h, skip, old(queues), queues, r)
    {
      ghost var w, qs0 := Seen(State()), queues;
      var k := 0;
      while k < harts
        invariant k <= harts && Valid() && Leaves(w, h, skip, qs0, queues, None) && Drained(w, h, skip, qs0, k)
        invariant Untouched(h, qs0, queues, k)
      {
        NthIsMod(h, k, harts);
        var v := (h + k) % harts;
        ghost var qs := queues;
        r := PopAny(h, v, skip);
        LeavesScan(w, h, skip, qs0, qs, v, queues[v], r);
        UntouchedNext(h, qs0, qs, k, queues[v]);
        DrainedNext(w, h, skip, qs0, k, r);
        if r.Some? {
          return;
        }
        k := k + 1;
      }
      NothingLeft(w, h, skip, qs0);
      r := None;
    }

    /** `pick_locked`: the least-loaded task under its quota, own queue first; failing that any
        task, for an idle hart is worse than one over its quota. */
    method PickLocked(h: nat, l: Load) returns (r: Option<nat>)
      requires Valid() && h < harts
      modifies this`queues
      ensures Valid() && Picks(Seen(old(State())), h, {}, old(queues), queues, r)
      ensures !BareBelow(Seen(old(State())), h, {}, l, old(queues), harts) ==>
                LeastOfFirst(Seen(old(State())), h, {}, l, old(queues), r)
    {
      ghost var w, qs0 := Seen(State()), queues;
      r := PassLeast(h, l);
      if r.None? {
        ghost var qs := queues;
        r := PassAny(h, {});
        PicksAfter(w, h, {}, qs0, qs, queues, r);
      }
    }

    // ---- find_next ----

    /** Into the stash while there is room, else back to the queue it came from. */
    method StashTaken(e: Taken, stash: array<Taken>, used: nat) returns (used': nat, ghost stashed: bool)
      requires Valid() && e.queue < harts && used <= stash.Length
      modifies this`queues, stash
      ensures Valid() && used' <= stash.Length
      ensures if stashed then queues == old(queues) && stash[..used'] == old(stash[..used]) + [e]
              else
                queues == old(queues)[e.queue := old(queues)[e.queue] + [e.pid]]
                && stash[..used'] == old(stash[..used])
    {
      stashed := used < stash.Length;
      if used < stash.Length {
        stash[used] := e;
        used' := used + 1;
      } else {
        queues := queues[e.queue := queues[e.queue] + [e.pid]];
        used' := used;
      }
    }

    /** One entry of `find_next_pass`, first pass. */
    method FindEntry(h: nat, v: nat, skip: set<nat>, l: Load, stash: array<Taken>, used: nat, best: Option<Taken>,
                     bestVr: nat, ghost w: View, ghost qs0: seq<seq<nat>>, ghost seen: seq<nat>, ghost bi: nat)
      returns (used': nat, best': Option<Taken>, bestVr': nat, ghost bi': nat)
      requires Valid() && v < harts && used <= stash.Length && queues[v] != [] && w == Seen(State())
      requires Finding(w, h, skip, l, qs0, queues, seen, stash[..used], best, bestVr, bi)
      modifies this`queues, stash
      ensures Valid() && used' <= stash.Length
      ensures Finding(w, h, skip, l, qs0, queues, seen + [old(queues[v])[0]], stash[..used'], best', bestVr', bi')
      ensures old(queues[v])[1..] <= queues[v] && (best' == best || (best'.Some? && best'.value.queue == v))
      ensures Elsewhere(old(queues), queues, v, Home(best))
    {
      ghost var parked := stash[..used];
      PopBalanced(w, h, skip, qs0, queues, parked + Held(best), v);
      var pid := PopFront(v);
      bi' := SeenNext(w, h, skip, l, seen, pid, PidOf(best), bi);
      used', best', bestVr' := used, best, bestVr;
      var live := IsTakeable(h, skip, pid, w);
      if live {
        var e := Taken(v, pid);
        var cg := procs[pid].cg;
        var wins := !l.over(cg) && (best.None? || l.vr(cg) < bestVr);
        FindParked(w, h, skip, qs0, queues, parked, best, e, wins);
        var loser := Some(e);
        if wins {
          loser, best', bestVr' := best, Some(e), l.vr(cg);
        }
        if loser.Some? {
          ghost var stashed;
          used', stashed := StashTaken(loser.value, stash, used);
        } else {
          assert parked + [] == parked;
        }
      }
    }

    /** The `i`-th entry `q` had when the scan of queue `v` began. */
    method FindNth(h: nat, v: nat, skip: set<nat>, l: Load, stash: array<Taken>, used: nat, best: Option<Taken>,
                   bestVr: nat, ghost w: View, ghost qs0: seq<seq<nat>>, ghost seen: seq<nat>, ghost bi: nat,
                   ghost q: seq<nat>, ghost i: nat)
      returns (used': nat, best': Option<Taken>, bestVr': nat, ghost bi': nat)
      requires Valid() && v < harts && used <= stash.Length && w == Seen(State()) && i < |q| && q[i..] <= queues[v]
      requires Finding(w, h, skip, l, qs0, queues, seen + q[..i], stash[..used], best, bestVr, bi)
      modifies this`queues, stash
      ensures Valid() && used' <= stash.Length && q[i + 1..] <= queues[v]
      ensures Finding(w, h, skip, l, qs0, queues, seen + q[..i + 1], stash[..used'], best', bestVr', bi')
      ensures best' == best || (best'.Some? && best'.value.queue == v)
      ensures Elsewhere(old(queues), queues, v, Home(best))
    {
      HeadOf(q, i, queues[v], seen);
      used', best', bestVr', bi' := FindEntry(h, v, skip, l, stash, used, best, bestVr, w, qs0, seen + q[..i], bi);
    }

    /** The scan of one queue by `find_next_pass`. */
    method FindInQueue(h: nat, v: nat, skip: set<nat>, l: Load, stash: array<Taken>, used: nat, best: Option<Taken>,
                       bestVr: nat, ghost w: View, ghost qs0: seq<seq<nat>>, ghost seen: seq<nat>, ghost bi: nat)
      returns (used': nat, best': Option<Taken>, bestVr': nat, ghost bi': nat)
      requires Valid() && v < harts && used <= stash.Length && w == Seen(State())
      requires Finding(w, h, skip, l, qs0, queues, seen, stash[..used], best, bestVr, bi)
      modifies this`queues, stash
      ensures Valid() && used' <= stash.Length
      ensures Finding(w, h, skip, l, qs0, queues, seen + old(queues[v]), stash[..used'], best', bestVr', bi')
      ensures best' == best || (best'.Some? && best'.value.queue == v)
      ensures Elsewhere(old(queues), queues, v, Home(best))
    {
      ghost var q := queues[v];
      var n := |queues[v]|;
      used', best', bestVr', bi' := used, best, bestVr, bi;
      var i := 0;
      assert seen + q[..0] == seen && q[0..] == q;
      while i < n
        invariant i <= n == |q| && Valid() && used' <= stash.Length && q[i..] <= queues[v]
        invariant Finding(w, h, skip, l, qs0, queues, seen + q[..i], stash[..used'], best', bestVr', bi')
        invariant best' == best || (best'.Some? && best'.value.queue == v)
        invariant Elsewhere(old(queues), queues, v, Home(best))
      {
        ghost var qs1, home1 := queues, Home(best');
        used', best', bestVr', bi' := FindNth(h, v, skip, l, stash, used', best', bestVr', w, qs0, seen, bi', q, i);
        ElsewhereThen(old(queues), qs1, queues, v, Home(best), home1);
        i := i + 1;
      }
      assert q[..i] == q;
    }

    method ReturnTaken(h: nat, skip: set<nat>, e: Taken, ghost rest: seq<Taken>, ghost w: View,
                       ghost qs0: seq<seq<nat>>)
      requires Valid() && Balanced(w, h, skip, qs0, queues, [e] + rest)
      modifies this`queues
      ensures Valid() && Balanced(w, h, skip, qs0, queues, rest)
    {
      UnstashBalanced(w, h, skip, qs0, queues, e, rest);
      queues := queues[e.queue := queues[e.queue] + [e.pid]];
    }

    method Unstash(h: nat, skip: set<nat>, stash: array<Taken>, used: nat, ghost best: Option<Taken>,
                   ghost w: View, ghost qs0: seq<seq<nat>>)
      requires Valid() && used <= stash.Length && Balanced(w, h, skip, qs0, queues, stash[..used] + Held(best))
      modifies this`queues
      ensures Valid() && Balanced(w, h, skip, qs0, queues, Held(best))
    {
      var k := 0;
      ghost var parked := stash[..used];
      assert parked[0..] == parked;
      while k < used
        invariant k <= used && Valid() && Balanced(w, h, skip, qs0, queues, parked[k..] + Held(best))
      {
        StashFront(parked, k, best);
        ReturnTaken(h, skip, stash[k], parked[k + 1..] + Held(best), w, qs0);
        k := k + 1;
      }
      assert parked[k..] + Held(best) == Held(best);
    }

    /** The scan of `find_next_pass` before its turn `off`. */
    ghost predicate Sought(h: nat, skip: set<nat>, l: Load, w: View, qs0: seq<seq<nat>>, off: nat, stash: array<Taken>,
                           used: nat, best: Option<Taken>, bestVr: nat, bi: nat)
      reads this, stash
    {
      && Valid() && w == Seen(State()) && off <= harts == |qs0| && h < harts && used <= stash.Length
      && Searching(w, h, skip, l, qs0, queues, off, stash[..used], best, bestVr, bi)
    }

    lemma SoughtStarts(h: nat, skip: set<nat>, l: Load, stash: array<Taken>)
      requires Valid() && h < harts
      ensures Sought(h, skip, l, Seen(State()), queues, 0, stash, 0, None, 0, 0) == true
    {
      SearchStarts(Seen(State()), h, skip, l, queues);
      assert stash[..0] == [];
    }

    /** `Sought` is compared with true to carry it whole through the loop. */
    method FindScan(h: nat, skip: set<nat>, l: Load, stash: array<Taken>, ghost w: View, ghost qs0: seq<seq<nat>>)
      returns (used: nat, best: Option<Taken>, bestVr: nat, ghost bi: nat)
      requires Valid() && h < harts && w == Seen(State()) && queues == qs0
      modifies this`queues, stash
      ensures Sought(h, skip, l, w, qs0, harts, stash, used, best, bestVr, bi) == true
    {
      used, best, bestVr, bi := 0, None, 0, 0;
      SoughtStarts(h, skip, l, stash);
      var off := 0;
      while off != harts
        invariant off <= harts && Sought(h, skip, l, w, qs0, off, stash, used, best, bestVr, bi) == true
      {
        used, best, bestVr, bi := FindAt(h, off, skip, l, stash, used, best, bestVr, w, qs0, bi);
        off := off + 1;
      }
    }

    method FindAt(h: nat, off: nat, skip: set<nat>, l: Load, stash: array<Taken>, used: nat,
                  best: Option<Taken>, bestVr: nat, ghost w: View, ghost qs0: seq<seq<nat>>, ghost bi: nat)
      returns (used': nat, best': Option<Taken>, bestVr': nat, ghost bi': nat)
      requires off < harts && Sought(h, skip, l, w, qs0, off, stash, used, best, bestVr, bi) == true
      modifies this`queues, stash
      ensures Sought(h, skip, l, w, qs0, off + 1, stash, used', best', bestVr', bi') == true
    {
      NthIsMod(h, off, harts);
      var v := (h + off) % harts;
      ghost var qs := queues;
      ghost var seen := Flat(qs0, h, off);
      used', best', bestVr', bi' := FindInQueue(h, v, skip, l, stash, used, best, bestVr, w, qs0, seen, bi);
      UntouchedAfter(h, qs0, qs, queues, off, best, best');
    }

    /** `find_next_pass`, first pass: the least-loaded task under its quota over all queues. */
    method FindLeast(h: nat, skip: set<nat>, l: Load) returns (r: Option<nat>)
      requires Valid() && h < harts
      modifies this`queues
      ensures Valid() && Leaves(Seen(old(State())), h, skip, old(queues), queues, r)
      ensures LeastEligible(Seen(old(State())), h, skip, l, Flat(old(queues), h, harts), r)
    {
      ghost var w, qs0 := Seen(State()), queues;
      var stash := new Taken[64](_ => Taken(0, 0));
      var used, best, bestVr;
      ghost var bi;
      used, best, bestVr, bi := FindScan(h, skip, l, stash, w, qs0);
      Unstash(h, skip, stash, used, best, w, qs0);
      FindPicks(w, h, skip, l, qs0, queues, Flat(qs0, h, harts), best, bi);
      r := PidOf(best);
    }

    /** `find_next`: the least-loaded task under its quota, wherever it is queued; failing that any
        task but the one that is exiting. */
    method FindNext(h: nat, exclude: nat, l: Load) returns (r: Option<nat>)
      requires Valid() && h < harts
      modifies this`queues
      ensures Valid() && Picks(Seen(old(State())), h, {exclude}, old(queues), queues, r)
      ensures !NoneEligible(Seen(old(State())), h, {exclude}, l, Flat(old(queues), h, harts)) ==>
                LeastEligible(Seen(old(State())), h, {exclude}, l, Flat(old(queues), h, harts), r)
    {
      ghost var w, qs0 := Seen(State()), queues;
      r := FindLeast(h, {exclude}, l);
      if r.None? {
        ghost var qs := queues;
        r := PassAny(h, {exclude});
        PicksAfter(w, h, {exclude}, qs0, qs, queues, r);
      }
    }

    // ---- the critical sections ----

    constructor (n: nat)
      requires n > 0
      ensures Valid() && harts == n && fresh(this)
      ensures State() == Sched(map[], seq(n, _ => []), seq(n, _ => 0), seq(n, _ => false), 1)
    {
      harts := n;
      procs, nextPid := map[], 1;
      queues, current, idle := seq(n, _ => []), seq(n, _ => 0), seq(n, _ => false);
    }

    /** `enqueue_locked` */
    method EnqueueLocked(pid: nat, hq: nat) returns (queued: bool)
      requires Valid() && hq < harts
      modifies this`queues
      ensures Valid() && State() == Enqueue(old(State()), pid, hq) && queued == (pid !in current)
    {
      var hh := 0;
      while hh < harts
        invariant hh <= harts && pid !in current[..hh]
        modifies {}
      {
        if current[hh] == pid {
          return false;
        }
        hh := hh + 1;
      }
      assert current[..hh] == current;
      queues := queues[hq := queues[hq] + [pid]];
      queued := true;
    }

    /** `wake_locked` */
    method WakeLocked(pid: nat, hq: nat) returns (queued: bool)
      requires Valid() && hq < harts
      modifies this`queues, this`procs
      ensures Valid() && State() == Woken(old(State()), pid, hq)
    {
      if pid in procs && procs[pid].state == Blocked {
        procs := procs[pid := procs[pid].(state := Runnable, blockedOn := 0)];
        queued := EnqueueLocked(pid, hq);
      } else {
        queued := false;
      }
    }

    /** `kill_with` */
    method KillWith(h: nat, pid: nat, code: int) returns (found: bool)
      requires Valid() && h < harts
      modifies this`queues, this`procs
      ensures Valid() && State() == Killed(old(State()), pid, code, h)
      ensures found == (pid in old(procs) && old(procs)[pid].state != Zombie)
    {
      if pid !in procs || procs[pid].state == Zombie {
        return false;
      }
      procs := procs[pid := procs[pid].(killed := true, killCode := code)];
      if procs[pid].state == Blocked {
        procs := procs[pid := procs[pid].(state := Runnable, blockedOn := 0)];
        var queued := EnqueueLocked(pid, h);
      }
      found := true;
    }

    /** `block_current` */
    method BlockCurrent(h: nat, reason: nat)
      requires Valid() && h < harts
      modifies this`procs
      ensures Valid() && State() == Slept(old(State()), h, reason)
    {
      var cur := current[h];
      if cur in procs && procs[cur].state == Running {
        procs := procs[cur := procs[cur].(state := Blocked, blockedOn := reason)];
      }
    }

    method RequeueCurrent(h: nat)
      requires Valid() && h < harts
      modifies this`queues, this`procs, this`current
      ensures Valid() && State() == Requeue(old(State()), h)
    {
      var cur := current[h];
      var repush := false;
      if cur in procs {
        if procs[cur].state == Running {
          procs := procs[cur := procs[cur].(state := Runnable)];
          repush := true;
        } else if procs[cur].state == Runnable {
          repush := true;
        } else {
          current := current[h := 0];
        }
      } else {
        current := current[h := 0];
      }
      if repush {
        queues := queues[h := queues[h] + [cur]];
      }
    }

    /** Make `pid` the current task of hart `h`, unless another hart claims it. */
    method Enter(h: nat, pid: nat) returns (dup: bool)
      requires Valid() && h < harts && pid in procs
      modifies this`procs, this`current, this`idle
      ensures Valid() && dup == (exists hh :: 0 <= hh < harts && hh != h && old(current)[hh] == pid)
      ensures State() == if dup then old(State()) else Take(old(State()), h, pid)
    {
      dup := false;
      var hh := 0;
      while hh < harts
        invariant hh <= harts && (dup <==> exists k :: 0 <= k < hh && k != h && current[k] == pid)
        modifies {}
      {
        if hh != h && current[hh] == pid {
          dup := true;
        }
        hh := hh + 1;
      }
      if !dup {
        procs := procs[pid := procs[pid].(state := Running)];
        current := current[h := pid];
        idle := idle[h := false];
      }
    }

    method Idle(h: nat)
      requires Valid() && h < harts
      modifies this`current, this`idle
      ensures Valid() && State() == GoIdle(old(State()), h)
    {
      current := current[h := 0];
      idle := idle[h := true];
    }

    /** `schedule_point`: whatever was picked is entered; the duplicate it looks for is never there,
        because the pick has already passed over tasks other harts claim. */
    method SchedulePoint(h: nat, l: Load) returns (r: Option<nat>, ghost qs: seq<seq<nat>>)
      requires Valid() && h < harts
      modifies this`procs, this`queues, this`current, this`idle
      ensures Valid()
      ensures var s := Requeue(old(State()), h);
              && Picks(Seen(s), h, {}, s.queues, qs, r)
              && State() == TakeOrIdle(s.(queues := qs), h, r)
    {
      RequeueCurrent(h);
      r := PickLocked(h, l);
      qs := queues;
      if r.Some? {
        var dup := Enter(h, r.value);
        assert !dup;
      } else {
        Idle(h);
      }
    }

    /** One turn of the `run_on` loop. */
    method RunOn(h: nat, l: Load) returns (r: Option<nat>, ghost qs: seq<seq<nat>>)
      requires Valid() && h < harts
      modifies this`procs, this`queues, this`current, this`idle
      ensures Valid() && Picks(Seen(old(State())), h, {}, old(queues), qs, r)
      ensures State() == if r.Some? then Take(old(State()).(queues := qs), h, r.value) else old(State()).(queues := qs)
    {
      r := PickLocked(h, l);
      qs := queues;
      if r.Some? {
        current := current[h := r.value];
        idle := idle[h := false];
        procs := procs[r.value := procs[r.value].(state := Running)];
      }
    }

    method AdoptOrphans(orphans: seq<nat>)
      requires Valid()
      modifies this`procs
      ensures Valid() && procs == AdoptAll(old(procs), orphans)
    {
      var k := 0;
      assert orphans[..0] == [];
      while k < |orphans|
        invariant k <= |orphans| && procs == AdoptAll(old(procs), orphans[..k])
      {
        var c := orphans[k];
        assert orphans[..k + 1][..k] == orphans[..k];
        if c in procs {
          procs := procs[c := procs[c].(parent := 1)];
          if 1 in procs && c !in procs[1].children {
            procs := procs[1 := procs[1].(children := procs[1].children + [c])];
          }
        }
        k := k + 1;
      }
      assert orphans[..k] == orphans;
    }

    /** `exit`: the funeral, the parent's wake-up, and the pick; the lock is dropped before
        `switch_to`. */
    method Exit(h: nat, pid: nat, code: int, l: Load) returns (next: Option<nat>, ghost qs: seq<seq<nat>>)
      requires Valid() && h < harts && pid in procs && procs[pid].state != Zombie
      modifies this`procs, this`queues
      ensures Valid()
      ensures var t := Bury(old(State()), pid, code, h);
              Picks(Seen(t), h, {pid}, t.queues, qs, next) && State() == t.(queues := qs)
    {
      BuryPid(h, pid, code);
      next := FindNext(h, pid, l);
      qs := queues;
    }

    method BuryPid(h: nat, pid: nat, code: int)
      requires Valid() && h < harts && pid in procs
      modifies this`procs, this`queues
      ensures Valid() && State() == Bury(old(State()), pid, code, h)
    {
      procs := procs[pid := procs[pid].(state := Zombie, exitCode := code)];
      if pid != 1 {
        AdoptOrphans(procs[pid].children);
        if pid in procs {
          procs := procs[pid := procs[pid].(children := [])];
        }
      }
      var par := if pid in procs then procs[pid].parent else 0;
      if par != 0 {
        if par in procs && procs[par].state == Blocked && procs[par].blockedOn == BLOCK_WAIT {
          procs := procs[par := procs[par].(state := Runnable, blockedOn := 0)];
          var queued := EnqueueLocked(par, h);
        }
      }
    }

    /** `switch_to`: look again, then enter or idle. */
    method SwitchTo(h: nat, next: Option<nat>) returns (entered: bool)
      requires Valid() && h < harts
      modifies this`procs, this`current, this`idle
      ensures Valid() && entered == (next.Some? && MayEnter(old(State()), h, next.value))
      ensures State() == if next.None? then GoIdle(old(State()), h)
                         else if entered then Take(old(State()), h, next.value) else old(State())
    {
      if next.None? {
        Idle(h);
        return false;
      }
      var pid := next.value;
      if pid !in procs || !(procs[pid].state == Runnable || procs[pid].state == Running) {
        return false;
      }
      var dup := Enter(h, pid);
      entered := !dup;
    }

    /** `new_proc`, once its frames are there. */
    method AllocPid() returns (pid: nat)
      requires Valid()
      modifies this`nextPid
      ensures Valid() && pid == old(nextPid) && State() == PidGiven(old(State()))
    {
      pid := nextPid;
      nextPid := nextPid + 1;
    }

    /** The last critical section of `fork`. */
    method InstallChild(h: nat, child: nat, parent: nat, cg: nat) returns (ok: bool)
      requires Valid() && h < harts
      modifies this`procs, this`queues
      ensures Valid() && ok == (parent in old(procs))
      ensures State() == if ok then Install(old(State()), child, parent, cg, h) else old(State())
    {
      if parent !in procs {
        return false;
      }
      procs := procs[child := Proc(Runnable, parent, [], 0, false, -9, 0, cg)];
      if parent in procs {
        procs := procs[parent := procs[parent].(children := procs[parent].children + [child])];
      }
      var queued := EnqueueLocked(child, h);
      ok := true;
    }

    /** `waitpid` by the task `pid` on hart `h`; `target` 0 is any child. */
    method WaitPid(h: nat, pid: nat, target: nat, nohang: bool) returns (r: WaitResult)
      requires Valid() && h < harts
      modifies this`procs, this`queues
      ensures Valid()
      ensures var s := old(State());
              match r
              case Gone(c, code) =>
                && pid in s.procs && ZombieChild(s.procs, pid, target, c) && code == s.procs[c].exitCode
                && State() == Reaped(s, pid, c)
              case NoChildren =>
                State() == s
                && (pid in s.procs ==>
                      forall c :: c in s.procs[pid].children && Matches(target, c) ==> c !in s.procs)
              case NotYet =>
                nohang && State() == s && pid in s.procs && forall c :: !ZombieChild(s.procs, pid, target, c)
              case WouldBlock =>
                !nohang && State() == Slept(s, h, BLOCK_WAIT) && pid in s.procs
                && forall c :: !ZombieChild(s.procs, pid, target, c)
    {
      if pid !in procs {
        return NoChildren;
      }
      var children := procs[pid].children;
      var k := 0;
      var found, any := false, false;
      while k < |children| && !found
        invariant k <= |children| && (found ==> k < |children| && ZombieChild(procs, pid, target, children[k]))
        invariant forall j :: 0 <= j < k ==> !ZombieChild(procs, pid, target, children[j])
        invariant any <==> exists j :: 0 <= j < k && Matches(target, children[j]) && children[j] in procs
        decreases |children| - k, !found
        modifies {}
      {
        var c := children[k];
        if Matches(target, c) && c in procs {
          if procs[c].state == Zombie {
            found := true;
          } else {
            any := true;
          }
        }
        if !found {
          k := k + 1;
        }
      }
      if found {
        r := Gone(children[k], procs[children[k]].exitCode);
        ReapChild(pid, children[k]);
      } else if !any {
        r := NoChildren;
      } else if nohang {
        r := NotYet;
      } else {
        r := WouldBlock;
        BlockCurrent(h, BLOCK_WAIT);
      }
    }

    method ReapChild(pid: nat, c: nat)
      requires Valid()
      modifies this`procs, this`queues
      ensures Valid() && State() == Reaped(old(State()), pid, c)
    {
      procs := procs - {c};
      queues := Purge(queues, c);
      if pid in procs {
        procs := procs[pid := procs[pid].(children := Without(procs[pid].children, c))];
      }
    }
  }

  datatype WaitResult = Gone(child: nat, code: int) | NoChildren | NotYet | WouldBlock
}
