/** The task table's side of control groups as it is written, each critical section one step of
    `CgroupRecycle`. */
module CgroupTable {
  import opened Wrappers
  import opened CgroupRecycle

  class Groups {
    var slots: seq<Slot>
    /** The process table: the group of every process in it. */
    var procs: seq<Option<nat>>
    ghost var owner: map<nat, nat>
    ghost var calls: map<nat, Phase>

    ghost function Members(): map<nat, nat>
      reads this
    {
      map p | 0 <= p < |procs| && procs[p].Some? :: procs[p].value
    }

    ghost function V(): State
      reads this
    {
      State(slots, Members(), owner, calls)
    }

    /** Whether any entry of the process table is in group `i`. */
    method IsOccupied(i: nat) returns (occupied: bool)
      ensures occupied == Occupied(V(), i)
    {
      occupied := false;
      var p := 0;
      while p < |procs|
        invariant p <= |procs| && !occupied
        invariant forall q :: 0 <= q < p ==> procs[q] != Some(i)
      {
        if procs[p] == Some(i) {
          assert p in V().procs && V().procs[p] == i;
          return true;
        }
        p := p + 1;
      }
    }

    /** The first phase of `cgcreate`. */
    method ReserveSlot(ghost c: nat) returns (reuse: Option<nat>)
      requires c !in calls
      modifies this
      ensures V() == Next(old(V()), Reserve(c)) && reuse == FirstReusable(old(V()), 1)
    {
      ghost var s := V();
      var i := 1;
      reuse := None;
      while i < |slots| && reuse.None?
        invariant 1 <= i && V() == s
        invariant FirstReusable(s, 1) == if reuse.Some? then reuse else FirstReusable(s, i)
        invariant reuse.Some? ==> reuse.value < |slots|
        decreases |slots| - i + if reuse.None? then 1 else 0
        modifies {}
      {
        if !slots[i].reserved && slots[i].used {
          var occupied := IsOccupied(i);
          if !occupied {
            reuse := Some(i);
          }
        }
        if reuse.None? {
          i := i + 1;
        }
      }
      if reuse.Some? {
        slots := slots[reuse.value := slots[reuse.value].(reserved := true)];
        calls := calls[c := Probing(reuse.value)];
      } else {
        calls := calls[c := Pushing];
      }
    }

    /** The third phase: the recheck, then the hand-over. */
    method InstallSlot(ghost c: nat, id: nat) returns (ok: bool)
      requires c in calls && calls[c].Installing? && calls[c].id == id
      modifies this
      ensures V() == Next(old(V()), Install(c))
      ensures old(Inv(V())) ==> ok
    {
      ghost var s := V();
      if Inv(s) {
        RecheckNeverFails(s, c);
      }
      if id >= |slots| || !slots[id].reserved {
        calls := calls[c := Pushing];
        return false;
      }
      var occupied := IsOccupied(id);
      if occupied {
        slots := slots[id := slots[id].(reserved := false)];
        calls := calls[c := Pushing];
        return false;
      }
      slots := slots[id := slots[id].(used := false, reserved := false)];
      calls := calls[c := CgroupRecycle.Limiting(id)];
      ok := true;
    }

    /** `cgcreate_push` */
    method PushSlot(ghost c: nat) returns (id: Option<nat>)
      requires c in calls && calls[c].Pushing?
      modifies this
      ensures V() == Next(old(V()), Push(c))
      ensures id == if |old(slots)| >= MAX_CG then None else Some(|old(slots)|)
    {
      if |slots| >= MAX_CG {
        calls := calls[c := Returned(None)];
        return None;
      }
      id := Some(|slots|);
      calls := calls[c := CgroupRecycle.Limiting(|slots|)];
      slots := slots + [FRESH];
    }

    /** `cgenter` of the current process. */
    method EnterGroup(pid: nat, id: nat) returns (ok: bool)
      modifies this
      ensures V() == Next(old(V()), Enter(pid, id))
      ensures ok <==> pid in old(V()).procs && id < |old(slots)| && !old(slots)[id].reserved
    {
      if id >= |slots| || slots[id].reserved {
        return false;
      }
      if pid >= |procs| || procs[pid].None? {
        return false;
      }
      ghost var was := Members();
      procs := procs[pid := Some(id)];
      slots := slots[id := slots[id].(used := true)];
      assert Members() == was[pid := id];
      ok := true;
    }
  }
}
