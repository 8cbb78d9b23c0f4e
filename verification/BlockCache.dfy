/** The second-chance block cache over the device, used by one hart at a time: the clock, the
    fill, read-ahead and write-through. */
module BlockCache {
  import opened Wrappers

  type Sector = seq<int>

  const NSLOT: nat := 64

  datatype Slot = Slot(lba: nat, valid: bool, referenced: bool, data: Sector)

  /** Referenced bits among the first `n` slots: what the clock has still to clear. */
  function Bits(c: seq<Slot>, n: nat): nat
    requires n <= |c|
  {
    if n == 0 then 0 else Bits(c, n - 1) + if c[n - 1].referenced then 1 else 0
  }

  lemma {:induction false} BitCleared(c: seq<Slot>, d: seq<Slot>, n: nat, i: nat)
    requires n <= |c| == |d| && i < |c| && c[i].referenced && d == c[i := c[i].(referenced := false)]
    ensures Bits(d, n) == Bits(c, n) - if i < n then 1 else 0
    ensures i < n ==> Bits(c, n) > 0
  {
    if n > 0 {
      BitCleared(c, d, n - 1, i);
    }
  }

  predicate AtMostOne(c: seq<Slot>) {
    forall i, j :: 0 <= i < j < |c| && c[i].valid && c[j].valid ==> c[i].lba != c[j].lba
  }

  predicate Agrees(c: seq<Slot>, dev: map<nat, Sector>) {
    forall i :: 0 <= i < |c| && c[i].valid ==> c[i].lba in dev && c[i].data == dev[c[i].lba]
  }

  /** Some slot holds the sector. */
  predicate Holds(c: seq<Slot>, lba: nat) {
    exists i :: 0 <= i < |c| && c[i].valid && c[i].lba == lba
  }

  /** The slots but for their referenced bits. */
  predicate SameContents(c: seq<Slot>, d: seq<Slot>) {
    |c| == |d| && forall i :: 0 <= i < |c| ==> d[i] == c[i].(referenced := d[i].referenced)
  }

  predicate InUse(x: Slot) {
    x.valid && x.referenced
  }

  function At(k: nat): (i: nat)
    ensures i < NSLOT
  {
    k % NSLOT
  }

  predicate Passed(c: seq<Slot>, k: nat)
    requires |c| == NSLOT
  {
    InUse(c[At(k)])
  }

  lemma Apart(k: nat, j: nat)
    requires k < j < k + NSLOT
    ensures At(k) != At(j)
  {
  }

  /** In a whole round the hand passes every slot. */
  lemma Visit(h: nat, j: nat) returns (k: nat)
    requires j < NSLOT
    ensures h <= k < h + NSLOT && At(k) == j
  {
    k := if h % NSLOT <= j then h - h % NSLOT + j else h - h % NSLOT + NSLOT + j;
  }

  class Cache {
    const slots: array<Slot>
    var hand: nat
    /** The device, by sector number. */
    var device: map<nat, Sector>

    /** At most one valid slot holds each sector, and every valid slot holds what the device holds. */
    ghost predicate Valid()
      reads this, slots
    {
      slots.Length == NSLOT && AtMostOne(slots[..]) && Agrees(slots[..], device)
    }

    method Lookup(lba: nat) returns (r: Option<nat>)
      ensures r.Some? ==> r.value < slots.Length && slots[r.value].valid && slots[r.value].lba == lba
      ensures r.None? ==> forall i :: 0 <= i < slots.Length && slots[i].valid ==> slots[i].lba != lba
      ensures r.Some? <==> Holds(slots[..], lba)
    {
      var i := 0;
      while i < slots.Length
        invariant i <= slots.Length && forall j :: 0 <= j < i && slots[j].valid ==> slots[j].lba != lba
      {
        if slots[i].valid && slots[i].lba == lba {
          return Some(i);
        }
        i := i + 1;
      }
      r := None;
    }

    /** The clock: it ends because every turn that does not choose a slot clears a referenced bit. The
        slot chosen is empty or not referenced, and a slot that was referenced is chosen only when every
        slot was, and then it is the first the hand came to: each has had its second chance. */
    method Victim() returns (i: nat)
      requires slots.Length == NSLOT
      modifies slots, this`hand
      ensures i < NSLOT && (!slots[i].valid || !slots[i].referenced)
      ensures InUse(old(slots[i])) ==> i == At(old(hand)) && forall j :: 0 <= j < NSLOT ==> InUse(old(slots[j]))
      ensures SameContents(old(slots[..]), slots[..])
      ensures hand > 0 && i == At(hand - 1)
    {
      ghost var h := hand;
      while true
        invariant SameContents(old(slots[..]), slots[..]) && h <= hand <= h + NSLOT
        invariant forall k :: h <= k < hand ==> !slots[At(k)].referenced
        invariant forall k :: h <= k < hand ==> Passed(old(slots[..]), k)
        invariant forall j :: 0 <= j < NSLOT && (forall k :: h <= k < hand ==> At(k) != j) ==> slots[j] == old(slots[j])
        decreases Bits(slots[..], NSLOT)
      {
        i := hand % NSLOT;
        ghost var was := slots[..];
        if hand < h + NSLOT {
          forall k | h <= k < hand ensures At(k) != i {
            Apart(k, hand);
          }
        } else {
          assert At(hand) == At(h);
          forall j | 0 <= j < NSLOT ensures InUse(old(slots[j])) {
            var k := Visit(h, j);
            assert Passed(old(slots[..]), k);
          }
        }
        hand := hand + 1;
        if !slots[i].valid {
          return;
        }
        if slots[i].referenced {
          assert InUse(old(slots[i]));
          slots[i] := slots[i].(referenced := false);
          BitCleared(was, slots[..], NSLOT, i);
          assert At(hand - 1) == i;
        } else {
          return;
        }
      }
    }

    /** A sector that is in no slot, into slot `i`. */
    method Fill(i: nat, lba: nat, data: Sector, referenced: bool)
      requires slots.Length == NSLOT && i < NSLOT && AtMostOne(slots[..])
      requires forall j :: 0 <= j < NSLOT && slots[j].valid ==> slots[j].lba != lba
      modifies slots
      ensures AtMostOne(slots[..]) && slots[i] == Slot(lba, true, referenced, data)
      ensures forall j :: 0 <= j < NSLOT && j != i ==> slots[j] == old(slots[j])
    {
      slots[i] := Slot(lba, true, referenced, data);
    }

    /** `read`: a hit never touches the device; a miss whose fetch fails leaves the caller's buffer as it was. What
        is returned is otherwise always the device's, and then the sector is in the cache, and the next one too if
        it was read ahead. */
    method Read(lba: nat, out0: Sector, fetched: bool, capacity: nat, ahead: bool) returns (out: Sector)
      requires Valid() && lba in device && (forall b :: 0 <= b < capacity ==> b in device)
      modifies slots, this`hand
      ensures Valid()
      ensures out == if Holds(old(slots[..]), lba) || fetched then device[lba] else out0
      ensures Holds(slots[..], lba) <==> Holds(old(slots[..]), lba) || fetched
      ensures !Holds(old(slots[..]), lba) && fetched && ahead && lba + 1 < capacity ==> Holds(slots[..], lba + 1)
    {
      var r := Lookup(lba);
      if r.Some? {
        slots[r.value] := slots[r.value].(referenced := true);
        assert slots[..][r.value].valid && slots[..][r.value].lba == lba;
        return slots[r.value].data;
      }
      if !fetched {
        return out0;
      }
      out := device[lba];
      var i := Victim();
      Fill(i, lba, out, true);
      ReadAhead(lba + 1, capacity, ahead, i);
    }

    /** The next sector, never into slot `last`, which has just been filled. */
    method ReadAhead(lba: nat, capacity: nat, fetched: bool, ghost last: nat)
      requires Valid() && (forall b :: 0 <= b < capacity ==> b in device)
      requires hand > 0 && last == At(hand - 1) && InUse(slots[last])
      modifies slots, this`hand
      ensures Valid() && slots[last].valid && slots[last].lba == old(slots[last].lba)
      ensures Holds(slots[..], slots[last].lba)
      ensures fetched && lba < capacity ==> Holds(slots[..], lba)
    {
      assert slots[..][last].valid;
      if lba >= capacity {
        return;
      }
      var r := Lookup(lba);
      if r.Some? || !fetched {
        return;
      }
      Apart(hand - 1, hand);
      var i := Victim();
      assert slots[..][last].valid;
      Fill(i, lba, device[lba], false);
      assert slots[..][last].valid && slots[..][i].lba == lba;
    }

    /** `write`, past the journal record: the device first, then the cache. `stored` is what the device
        answered, which the code does not look at. */
    method Write(lba: nat, data: Sector, stored: bool)
      requires Valid() && lba in device
      modifies slots, this`hand, this`device
      ensures device == if stored then old(device)[lba := data] else old(device)
      ensures slots.Length == NSLOT && AtMostOne(slots[..])
      ensures exists i :: 0 <= i < NSLOT && slots[i] == Slot(lba, true, true, data)
      ensures Valid() <==> stored || old(device)[lba] == data
    {
      if stored {
        device := device[lba := data];
      }
      var r := Lookup(lba);
      var i;
      if r.Some? {
        i := r.value;
        slots[i] := slots[i].(data := data, referenced := true);
      } else {
        i := Victim();
        Fill(i, lba, data, true);
      }
      assert slots[i] == Slot(lba, true, true, data);
    }
  }
}
