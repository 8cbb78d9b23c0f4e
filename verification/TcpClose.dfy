/** What a close costs the other side: a reset throws away bytes not yet read. */
module TcpClose {
  // Exactly which deliveries do, which steps put a reset on the network, and which closes can end so.

  import opened Wrappers
  import opened TcpSegment
  import opened TcpConn
  import opened TcpKeeps
  import opened TcpStream

  // ---- what a delivery does to unread bytes ----

  lemma DataOnlyGrows(t: Tcb, s: Segment)
    ensures t.rx <= TakeData(t, s).rx && TakeData(t, s).closing == t.closing
  {
  }

  lemma BodyOnlyGrows(t: Tcb, s: Segment)
    ensures t.rx <= TakeBody(t, s).rx && TakeBody(t, s).closing == t.closing
  {
    DataOnlyGrows(t, s);
    assert TakeFin(TakeData(t, s), s).rx == TakeData(t, s).rx;
  }

  lemma RxOnlyGrows(t: Tcb, s: Segment)
    ensures t.rx <= ChildRx(t, s).0.rx && ChildRx(t, s).0.closing == t.closing
  {
    var t1 := if s.flags.ack then TakeAck(t, s.ack) else t;
    assert t1.rx == t.rx && t1.closing == t.closing;
    BodyOnlyGrows(t1, s);
  }

  /** A delivery leaves unread bytes to be read exactly when the segment is not a reset. */
  lemma DeliveryKeepsUnread(n: Conn, x: Side, seg: Segment, iss: u32, tx: bool, room: nat)
    requires Open(At(n, x)) && At(n, x).t.rx != [] && room > 0
    ensures var p, q := At(n, x), At(Delivered(n, x, seg, iss, tx), x);
            && (!seg.flags.rst <==> Open(q) && p.t.rx <= q.t.rx)
            && (seg.flags.rst <==> RecvAnswer(q, room) == Dead)
            && (!seg.flags.rst ==> RecvAnswer(q, room).Data? && RecvAnswer(p, room).d <= RecvAnswer(q, room).d)
  {
    var p, q := At(n, x), At(Delivered(n, x, seg, iss, tx), x);
    if !seg.flags.rst {
      RxOnlyGrows(p.t, seg);
      var k, l := Min(room, |p.t.rx|), Min(room, |q.t.rx|);
      assert q.t.rx[..k] == p.t.rx[..k] && q.t.rx[..l][..k] == q.t.rx[..k];
    }
  }

  // ---- who resets ----

  /** The steps that put a reset of `y` on the network: a segment for a side that is closing, given up
      or was never opened; a close outside ESTABLISHED and CLOSE_WAIT; and giving up. */
  predicate Resets(n: Conn, e: Event, y: Side) {
    match e
    case Deliver(x, seg, _, tx) =>
      x == y && tx && !seg.flags.rst && !Open(At(n, y)) && (At(n, y).started || y == Client || !seg.flags.syn)
    case Close(x, tx) => x == y && tx && !MaySend(At(n, y).t)
    case GiveUp(x, tx) => x == y && tx
    case _ => false
  }

  lemma {:induction false} CutHasNoReset(num: u32, ack: u32, data: Bytes, i: nat)
    requires i < |Cut(num, ack, data)|
    ensures !Cut(num, ack, data)[i].flags.rst
    decreases i
  {
    var k := Min(MSS, |data|);
    if i > 0 {
      CutHasNoReset(Add(num, k), ack, data[k..], i - 1);
    }
  }

  lemma SegsNoReset(x: Side, segs: seq<Segment>, k: Packet)
    requires (forall i :: 0 <= i < |segs| ==> !segs[i].flags.rst) && k in Packets(x, segs)
    ensures !k.seg.flags.rst
  {
  }

  lemma SendNoReset(n: Conn, x: Side, data: Bytes, ok: nat, k: Packet)
    requires k in Next(n, Send(x, data, ok)).net && k !in n.net
    ensures !k.seg.flags.rst
  {
    var p := At(n, x);
    var segs := Cut(p.t.nxt, p.t.rcv, Prefix(data, ok));
    forall i | 0 <= i < |segs| ensures !segs[i].flags.rst {
      CutHasNoReset(p.t.nxt, p.t.rcv, Prefix(data, ok), i);
    }
    SegsNoReset(x, segs, k);
  }

  lemma TickNoReset(n: Conn, x: Side, ok: nat, k: Packet)
    requires k in Next(n, Tick(x, ok)).net && k !in n.net
    ensures !k.seg.flags.rst
  {
    var t := At(n, x).t;
    var segs := First(Resent(t), ok);
    forall i | 0 <= i < |segs| ensures !segs[i].flags.rst {
      if !Handshake(t) {
        CutHasNoReset(t.una, t.rcv, Window(t), i);
      }
    }
    SegsNoReset(x, segs, k);
  }

  lemma IfHas(x: Side, tx: bool, s: Segment, k: Packet)
    ensures k in Packets(x, If(tx, s)) <==> tx && k == Packet(x, s)
  {
    if tx {
      assert If(tx, s)[0] == s;
    }
  }

  lemma DeliverResets(n: Conn, x: Side, seg: Segment, iss: u32, tx: bool, k: Packet)
    requires k in Delivered(n, x, seg, iss, tx).net && k !in n.net && k.seg.flags.rst
    ensures k == Packet(x, RESET) && Resets(n, Deliver(x, seg, iss, tx), x)
  {
    var p := At(n, x);
    if Open(p) {
      var reply := ChildRx(p.t, seg).1;
      if reply.Some? {
        IfHas(x, tx, reply.value, k);
      }
    } else if !p.started && x == Server && seg.flags.syn {
      IfHas(x, tx, Segment(iss, Accepting(iss, seg.num).rcv, SYN_ACK, []), k);
    } else {
      IfHas(x, tx, RESET, k);
    }
  }

  lemma ResetsComeFrom(n: Conn, e: Event, k: Packet)
    requires k in Next(n, e).net && k !in n.net && k.seg.flags.rst
    ensures k == Packet(k.from, RESET) && Resets(n, e, k.from)
  {
    match e
    case Connect(iss, tx) => IfHas(Client, tx, Segment(iss, 0, SYN, []), k);
    case Deliver(x, seg, iss, tx) => DeliverResets(n, x, seg, iss, tx, k);
    case Send(x, data, ok) => SendNoReset(n, x, data, ok, k);
    case Recv(_, _) =>
    case Close(x, tx) => IfHas(x, tx, if MaySend(At(n, x).t) then FinSegment(At(n, x).t) else RESET, k);
    case Tick(x, ok) => TickNoReset(n, x, ok, k);
    case GiveUp(x, tx) => IfHas(x, tx, RESET, k);
  }

  lemma ResetsLands(n: Conn, e: Event, y: Side)
    requires Resets(n, e, y)
    ensures Packet(y, RESET) in Next(n, e).net
  {
    IfHas(y, true, RESET, Packet(y, RESET));
  }

  lemma NetOnlyGrows(n: Conn, e: Event)
    ensures n.net <= Next(n, e).net
  {
  }

  /** `y` has reset the connection: what it put on the network includes a reset, and it is `RESET`. */
  ghost predicate HasReset(n: Conn, y: Side) {
    exists seg: Segment :: seg.flags.rst && Packet(y, seg) in n.net
  }

  lemma ResetStep(n: Conn, e: Event, y: Side)
    ensures HasReset(Next(n, e), y) <==> HasReset(n, y) || Resets(n, e, y)
  {
    NetOnlyGrows(n, e);
    if seg: Segment :| seg.flags.rst && Packet(y, seg) in Next(n, e).net {
      if Packet(y, seg) !in n.net {
        ResetsComeFrom(n, e, Packet(y, seg));
      }
    }
    if seg: Segment :| seg.flags.rst && Packet(y, seg) in n.net {
      assert Packet(y, seg) in Next(n, e).net;
    }
    if Resets(n, e, y) {
      ResetsLands(n, e, y);
      assert RESET.flags.rst;
    }
  }

  predicate ResetBefore(ns: seq<Conn>, es: seq<Event>, i: nat, y: Side)
    requires i <= |es| <= |ns|
  {
    exists j :: 0 <= j < i && Resets(ns[j], es[j], y)
  }

  /** Over runs: a reset of `y` is on the network exactly when one of the steps of `Resets` has been
      taken. */
  lemma {:induction false} ResetExactly(ns: seq<Conn>, es: seq<Event>, i: nat, y: Side)
    requires IsRun(ns, es) && i <= |es|
    ensures HasReset(ns[i], y) <==> ResetBefore(ns, es, i, y)
  {
    if i > 0 {
      ResetExactly(ns, es, i - 1, y);
      assert Enabled(ns[i - 1], es[i - 1]);
      ResetStep(ns[i - 1], es[i - 1], y);
      if j :| 0 <= j < i && Resets(ns[j], es[j], y) {
        if j < i - 1 {
          assert ResetBefore(ns, es, i - 1, y);
        }
      }
    }
  }

  // ---- when a close can lose bytes ----

  /** `x` has said something that is not a reset. */
  ghost predicate Spoke(n: Conn, x: Side) {
    exists seg: Segment :: !seg.flags.rst && Packet(x, seg) in n.net
  }

  /** A side that knows the other's numbers has heard from it. */
  lemma {:induction false} SyncedHasHeard(ns: seq<Conn>, es: seq<Event>, i: nat, y: Side)
    requires IsRun(ns, es) && i <= |es| && Synced(At(ns[i], y))
    ensures Spoke(ns[i], Other(y))
  {
    if i > 0 {
      assert Enabled(ns[i - 1], es[i - 1]);
      NetOnlyGrows(ns[i - 1], es[i - 1]);
      if Synced(At(ns[i - 1], y)) {
        SyncedHasHeard(ns, es, i - 1, y);
        var seg: Segment :| !seg.flags.rst && Packet(Other(y), seg) in ns[i - 1].net;
        assert Packet(Other(y), seg) in ns[i].net;
      } else {
        SyncsOnlyOnDelivery(ns[i - 1], es[i - 1], y);
        assert Packet(Other(y), es[i - 1].seg) in ns[i].net;
      }
    }
  }

  lemma SyncsOnlyOnDelivery(n: Conn, e: Event, y: Side)
    requires Enabled(n, e) && !Synced(At(n, y)) && Synced(At(Next(n, e), y))
    ensures e.Deliver? && !e.seg.flags.rst && Packet(Other(y), e.seg) in n.net
  {
  }

  /** Events that are not `x` closing or being given up: what is left can only happen to it. */
  predicate Spares(e: Event, x: Side) {
    && (e.Close? ==> e.x != x)
    && (e.GiveUp? ==> e.x != x)
  }

  /** After `y` closes, some run in which `x` itself neither closes nor gives up ends with `x` shut out
      before it has read all that `y` sent. */
  ghost predicate CloseMayLose(n: Conn, y: Side, tx: bool) {
    exists ns: seq<Conn>, es: seq<Event> ::
      && Steps(ns, es) && ns[0] == Next(n, Close(y, tx)) && (forall e :: e in es ==> Spares(e, Other(y)))
      && var x := At(ns[|es|], Other(y)); !Open(x) && x.read != At(ns[|es|], y).sent
  }

  lemma LosingRun(n: Conn, y: Side, tx: bool, seg: Segment) returns (ns: seq<Conn>, es: seq<Event>)
    requires Open(At(n, y)) && MaySend(At(n, y).t) && Open(At(n, Other(y)))
    requires !seg.flags.rst && Packet(Other(y), seg) in n.net
    ensures Steps(ns, es) && ns[0] == Next(n, Close(y, tx)) && forall e :: e in es ==> Spares(e, Other(y))
    ensures var x := At(ns[|es|], Other(y));
            !Open(x) && x.read == At(n, Other(y)).read && At(ns[|es|], y).sent == At(n, y).sent
  {
    var n0 := Next(n, Close(y, tx));
    NetOnlyGrows(n, Close(y, tx));
    var e1 := Deliver(y, seg, 0, true);
    var n1 := Next(n0, e1);
    ResetsLands(n0, e1, y);
    var e2 := Deliver(Other(y), RESET, 0, true);
    var n2 := Next(n1, e2);
    ns, es := [n0, n1, n2], [e1, e2];
  }

  /** Once `y` is closing and `x` has read everything, that stays so. */
  lemma {:induction false} AllReadStays(ns: seq<Conn>, es: seq<Event>, i: nat, y: Side)
    requires Steps(ns, es) && Inv(ns[0]) && i <= |es|
    requires At(ns[0], y).started && !Open(At(ns[0], y)) && At(ns[0], Other(y)).read == At(ns[0], y).sent
    requires At(ns[0], Other(y)).started
    ensures At(ns[i], Other(y)).read == At(ns[i], y).sent && At(ns[i], Other(y)).started
    ensures At(ns[i], y).started && !Open(At(ns[i], y))
  {
    if i > 0 {
      AllReadStays(ns, es, i - 1, y);
      StepsKeep(ns, es, i - 1);
      assert Enabled(ns[i - 1], es[i - 1]);
      AllReadStep(ns[i - 1], es[i - 1], y);
    }
  }

  lemma AllReadStep(n: Conn, e: Event, y: Side)
    requires Inv(n) && Enabled(n, e) && At(n, y).started && !Open(At(n, y))
    requires At(n, Other(y)).started && At(n, Other(y)).read == At(n, y).sent
    ensures var n' := Next(n, e);
            && At(n', y).started && !Open(At(n', y)) && At(n', Other(y)).started
            && At(n', Other(y)).read == At(n', y).sent
  {
    var x := At(n, Other(y));
    assert x.read <= Got(x) <= At(n, y).sent;
    assert x.t.rx == [];
  }

  /** Exactly when a close can lose bytes, read off the connection before it: when the other side is
      open and has not read everything.  That every byte has been acknowledged does not help. */
  lemma CloseLosesExactly(ns: seq<Conn>, es: seq<Event>, i: nat, y: Side, tx: bool)
    requires IsRun(ns, es) && i <= |es| && Enabled(ns[i], Close(y, tx)) && Open(At(ns[i], Other(y)))
    ensures CloseMayLose(ns[i], y, tx) <==> At(ns[i], Other(y)).read != At(ns[i], y).sent
  {
    RunKeeps(ns, es, i);
    var n := ns[i];
    if At(n, Other(y)).read != At(n, y).sent {
      UnreadMeansSynced(n, y);
      SyncedHasHeard(ns, es, i, y);
      var seg: Segment :| !seg.flags.rst && Packet(Other(y), seg) in n.net;
      var ms, fs := LosingRun(n, y, tx, seg);
    } else {
      StepKeeps(n, Close(y, tx));
      forall ms: seq<Conn>, fs: seq<Event> | Steps(ms, fs) && ms[0] == Next(n, Close(y, tx))
        ensures At(ms[|fs|], Other(y)).read == At(ms[|fs|], y).sent
      {
        AllReadStays(ms, fs, |fs|, y);
      }
    }
  }

  lemma UnreadMeansSynced(n: Conn, y: Side)
    requires Inv(n) && Open(At(n, y)) && Open(At(n, Other(y))) && At(n, Other(y)).read != At(n, y).sent
    ensures MaySend(At(n, y).t) && Synced(At(n, y))
  {
    var x := At(n, Other(y));
    assert x.read <= Got(x);
  }
}
