/** What is put on the network, and that from every open state everything sent can still arrive. */
module TcpReaches {
  import opened Wrappers
  import opened TcpSegment
  import opened TcpConn
  import opened TcpKeeps
  import opened TcpStream
  import opened TcpClose
  import opened TcpArrives

  // ---- what a transmission carries ----

  /** The data of the segments, one after the other. */
  function Joined(segs: seq<Segment>): Bytes {
    if segs == [] then [] else segs[0].data + Joined(segs[1..])
  }

  lemma CutHead(num: u32, ack: u32, data: Bytes)
    requires data != []
    ensures var k := Min(MSS, |data|);
            && Cut(num, ack, data) == [Segment(num, ack, ACK, data[..k])] + Cut(Add(num, k), ack, data[k..])
            && Cut(num, ack, data)[1..] == Cut(Add(num, k), ack, data[k..]) && 0 < k <= MSS
  {
  }

  lemma {:induction false} CutJoins(num: u32, ack: u32, data: Bytes)
    ensures Joined(Cut(num, ack, data)) == data
    decreases |data|
  {
    if data != [] {
      var k := Min(MSS, |data|);
      CutHead(num, ack, data);
      CutJoins(Add(num, k), ack, data[k..]);
      assert data == data[..k] + data[k..];
    }
  }

  /** A full-size segment at most, never empty, numbered `at` bytes after `num`. */
  predicate Numbered(s: Segment, num: u32, ack: u32, at: nat) {
    0 < |s.data| <= MSS && s.ack == ack && s.flags == ACK && s.num == Add(num, at)
  }

  lemma NumberedLater(s: Segment, num: u32, ack: u32, k: nat, at: nat)
    requires Numbered(s, Add(num, k), ack, at)
    ensures Numbered(s, num, ack, k + at)
  {
  }

  lemma {:induction false} CutNumbers(num: u32, ack: u32, data: Bytes, i: nat)
    requires i < |Cut(num, ack, data)|
    ensures Numbered(Cut(num, ack, data)[i], num, ack, |Joined(Cut(num, ack, data)[..i])|)
    decreases i
  {
    var segs, k := Cut(num, ack, data), Min(MSS, |data|);
    CutHead(num, ack, data);
    if i > 0 {
      CutNumbers(Add(num, k), ack, data[k..], i - 1);
      assert segs[..i][1..] == segs[1..][..i - 1];
      NumberedLater(segs[i], num, ack, k, |Joined(segs[1..][..i - 1])|);
    }
  }

  /** A transmission carries its bytes once each, in order, in segments that are neither empty nor too long,
      each numbered by its first byte. */
  lemma CutExact(num: u32, ack: u32, data: Bytes)
    ensures var segs := Cut(num, ack, data);
            && Joined(segs) == data
            && forall i :: 0 <= i < |segs| ==> Numbered(segs[i], num, ack, |Joined(segs[..i])|)
  {
    CutJoins(num, ack, data);
    forall i | 0 <= i < |Cut(num, ack, data)|
      ensures Numbered(Cut(num, ack, data)[i], num, ack, |Joined(Cut(num, ack, data)[..i])|)
    {
      CutNumbers(num, ack, data, i);
    }
  }

  /** Some packet of `x` carries byte `b` of its stream. */
  ghost predicate OnWire(n: Conn, x: Side, b: nat) {
    exists k: Packet, o: nat :: Carries(n, x, k, o, b)
  }

  predicate Carries(n: Conn, x: Side, k: Packet, o: nat, b: nat) {
    k in n.net && k.from == x && DataAt(At(n, x), k.seg, o) && o <= b < o + |k.seg.data|
  }

  lemma {:induction false} CutCarries(p: Peer, o: nat, ack: u32, data: Bytes, b: nat) returns (i: nat, oi: nat)
    requires o + |data| <= |p.sent| && data == p.sent[o..o + |data|] && o <= b < o + |data|
    ensures var segs := Cut(W(p.iss + 1 + o), ack, data);
            i < |segs| && DataAt(p, segs[i], oi) && oi <= b < oi + |segs[i].data|
    decreases |data|
  {
    var k := Min(MSS, |data|);
    SliceOfSlice(p.sent, o, data, k);
    if b < o + k {
      i, oi := 0, o;
    } else {
      AddPlace(p.iss + 1, o, k);
      i, oi := CutCarries(p, o + k, ack, data[k..], b);
      i := i + 1;
    }
  }

  lemma InPackets(x: Side, segs: seq<Segment>, i: nat)
    requires i < |segs|
    ensures Packet(x, segs[i]) in Packets(x, segs)
  {
  }

  lemma SentCarries(n: Conn, x: Side, data: Bytes, ok: nat, b: nat)
    requires Inv(n) && Enabled(n, Send(x, data, ok)) && |At(n, x).sent| <= b < |At(Next(n, Send(x, data, ok)), x).sent|
    ensures OnWire(Next(n, Send(x, data, ok)), x, b)
  {
    var p, n', d := At(n, x), Next(n, Send(x, data, ok)), Prefix(data, ok);
    var segs, o0 := Cut(p.t.nxt, p.t.rcv, d), |p.sent|;
    var q := At(n', x);
    assert q.iss == p.iss && q.sent == p.sent + d && p.t.nxt == W(p.iss + 1 + o0);
    assert q.sent[o0..o0 + |d|] == d;
    var i, o := CutCarries(q, o0, p.t.rcv, d, b);
    InPackets(x, segs, i);
    assert Carries(n', x, Packet(x, segs[i]), o, b);
  }

  /** What one step leaves of the stream of `x`. */
  predicate SentLater(n: Conn, n': Conn, x: Side) {
    n.net <= n'.net && At(n', x).started && At(n', x).iss == At(n, x).iss && At(n', x).sent == At(n, x).sent
  }

  lemma DeliverSentStays(n: Conn, y: Side, seg: Segment, iss: u32, tx: bool, x: Side)
    requires At(n, x).started
    ensures SentLater(n, Delivered(n, y, seg, iss, tx), x)
  {
  }

  lemma SentStays(n: Conn, e: Event, x: Side)
    requires Enabled(n, e) && At(n, x).started && !(e.Send? && e.x == x)
    ensures SentLater(n, Next(n, e), x)
  {
    match e {
      case Deliver(y, seg, iss, tx) => DeliverSentStays(n, y, seg, iss, tx, x);
      case _ =>
    }
  }

  lemma SendAdds(n: Conn, x: Side, data: Bytes, ok: nat)
    requires Enabled(n, Send(x, data, ok))
    ensures var n' := Next(n, Send(x, data, ok));
            n.net <= n'.net && At(n', x).started && At(n', x).iss == At(n, x).iss && At(n, x).sent <= At(n', x).sent
  {
  }

  lemma CarriesLater(n: Conn, n': Conn, x: Side, b: nat)
    requires OnWire(n, x, b) && n.net <= n'.net && At(n', x).iss == At(n, x).iss && At(n, x).sent <= At(n', x).sent
    ensures OnWire(n', x, b)
  {
    var k, o :| Carries(n, x, k, o, b);
    assert Carries(n', x, k, o, b);
  }

  /** A byte accepted before or in this step is on the network after it. */
  lemma WireStep(n: Conn, e: Event, x: Side, b: nat)
    requires Inv(n) && Enabled(n, e) && At(n, x).started && b < |At(Next(n, e), x).sent|
    requires b < |At(n, x).sent| ==> OnWire(n, x, b)
    ensures OnWire(Next(n, e), x, b)
  {
    if e.Send? && e.x == x {
      SendAdds(n, x, e.data, e.ok);
      if b < |At(n, x).sent| {
        CarriesLater(n, Next(n, e), x, b);
      } else {
        SentCarries(n, x, e.data, e.ok, b);
      }
    } else {
      SentStays(n, e, x);
      CarriesLater(n, Next(n, e), x, b);
    }
  }

  lemma StartsEmpty(n: Conn, e: Event, x: Side)
    requires Inv(n) && Enabled(n, e) && !At(n, x).started && At(Next(n, e), x).started
    ensures At(Next(n, e), x).sent == []
  {
  }

  /** Every byte that `tcp_send` accepted has been put on the network. */
  lemma {:induction false} AcceptedIsSent(ns: seq<Conn>, es: seq<Event>, i: nat, x: Side, b: nat)
    requires IsRun(ns, es) && i <= |es| && At(ns[i], x).started && b < |At(ns[i], x).sent|
    ensures OnWire(ns[i], x, b)
  {
    if i == 0 {
      assert false;
    } else {
      RunKeeps(ns, es, i - 1);
      var n, e := ns[i - 1], es[i - 1];
      assert Enabled(n, e) && ns[i] == Next(n, e);
      if !At(n, x).started {
        StartsEmpty(n, e, x);
      } else {
        if b < |At(n, x).sent| {
          AcceptedIsSent(ns, es, i - 1, x, b);
        }
        WireStep(n, e, x, b);
      }
    }
  }

  /** What is read is what `tcp_recv` answers, and it is gone from the buffer. */
  lemma ReadIsAnswer(ns: seq<Conn>, es: seq<Event>, i: nat)
    requires IsRun(ns, es) && i < |es| && es[i].Recv?
    ensures var p, p' := At(ns[i], es[i].x), At(ns[i + 1], es[i].x);
            var a := RecvAnswer(p, es[i].room);
            && Got(p') == Got(p) && p'.read == p.read + (if a.Data? then a.d else [])
            && (a.Data? && es[i].room > 0 ==> a.d != []) && (es[i].room >= |p.t.rx| ==> p'.t.rx == [])
  {
    assert Enabled(ns[i], es[i]);
    var p := At(ns[i], es[i].x);
    var k := Min(es[i].room, |p.t.rx|);
    assert p.t.rx == p.t.rx[..k] + p.t.rx[k..];
  }

  // ---- from any open state everything can arrive ----

  predicate Up(p: Peer) {
    Open(p) && p.t.state == Est
  }

  /** Both sides are established, and neither has closed. */
  ghost predicate BothUp(n: Conn) {
    Inv(n) && Up(n.c) && Up(n.s)
  }

  /** The same streams, at least as much received by `x`, and no less read. */
  predicate Onward(n: Conn, n': Conn, x: Side) {
    && n'.c.sent == n.c.sent && n'.s.sent == n.s.sent && n.net <= n'.net
    && Got(At(n, x)) <= Got(At(n', x))
  }

  /** All that `x` has is acknowledged. */
  predicate Level(n: Conn, x: Side) {
    Forgotten(At(n, Other(x))) == |Got(At(n, x))|
  }

  lemma Drain(n: Conn, x: Side) returns (e: Event)
    requires BothUp(n)
    ensures Enabled(n, e) && var n' := Next(n, e);
            BothUp(n') && Onward(n, n', x) && At(n', x).t.rx == [] && Got(At(n', x)) == Got(At(n, x))
  {
    var p := At(n, x);
    e := Recv(x, |p.t.rx|);
    StepKeeps(n, e);
    assert p.t.rx[..|p.t.rx|] == p.t.rx;
  }

  /** The first segment of a retransmission of `y`. */
  lemma ResentHead(p: Peer, y: Peer) returns (s: Segment)
    requires Pair(p, y) && Up(p) && Up(y) && |Got(p)| < |y.sent|
    ensures Resent(y.t) != [] && s == Resent(y.t)[0]
    ensures 0 <= Forgotten(y) <= |Got(p)| && DataAt(y, s, Forgotten(y)) && s.data != []
    ensures !s.flags.fin && !s.flags.rst && s.flags.ack && s.ack == y.t.rcv
  {
    var w := Window(y.t);
    assert w == y.sent[Forgotten(y)..Forgotten(y) + |w|];
    CutHead(y.t.una, y.t.rcv, w);
    s := Resent(y.t)[0];
  }

  lemma TickOne(n: Conn, x: Side)
    requires At(n, x).started && At(n, x).alive && Resent(At(n, x).t) != []
    ensures Next(n, Tick(x, 1)) == n.(net := n.net + {Packet(x, Resent(At(n, x).t)[0])})
  {
    var segs := Resent(At(n, x).t);
    assert First(segs, 1) == [segs[0]];
    assert Packets(x, [segs[0]]) == {Packet(x, segs[0])} by {
      assert [segs[0]][0] == segs[0];
    }
  }

  lemma FirstResent(n: Conn, x: Side) returns (s: Segment)
    requires BothUp(n) && |Got(At(n, x))| < |At(n, Other(x)).sent|
    ensures var y := At(n, Other(x));
            && 0 <= Forgotten(y) <= |Got(At(n, x))| && DataAt(y, s, Forgotten(y)) && s.data != []
            && !s.flags.fin && !s.flags.rst && s.flags.ack && s.ack == y.t.rcv
    ensures Enabled(n, Tick(Other(x), 1)) && Next(n, Tick(Other(x), 1)) == n.(net := n.net + {Packet(Other(x), s)})
  {
    s := ResentHead(At(n, x), At(n, Other(x)));
    TickOne(n, Other(x));
  }

  lemma PlaceOnce(p: Peer, s: Segment, a: nat, b: nat)
    requires DataAt(p, s, a) && DataAt(p, s, b) && |p.sent| < LIMIT
    ensures a == b
  {
    SamePlace(p.iss + 1, a, b);
  }

  lemma FitsSome(x: Peer, d: Bytes)
    requires x.t.rx == [] && d != []
    ensures Fitting(x, d) != []
  {
  }

  /** A retransmission that arrives brings something new if the sides are level, and an acknowledgement in
      any case. */
  lemma ResentArrives(n: Conn, x: Side, s: Segment) returns (e: Event)
    requires BothUp(n) && Packet(Other(x), s) in n.net && At(n, x).t.rx == []
    requires !s.flags.fin && !s.flags.rst && s.flags.ack && s.ack == At(n, Other(x)).t.rcv && s.data != []
    requires var y := At(n, Other(x)); Forgotten(y) >= 0 && DataAt(y, s, Forgotten(y))
    ensures Enabled(n, e) && var n' := Next(n, e);
            && BothUp(n') && Onward(n, n', x) && At(n', Other(x)) == At(n, Other(x))
            && Packet(x, FullAck(At(n', x), At(n', Other(x)))) in n'.net
            && if Level(n, x) then |Got(At(n', x))| > |Got(At(n, x))| else At(n', x).t.rx == []
  {
    var p, y := At(n, x), At(n, Other(x));
    e := Deliver(x, s, 0, true);
    StepKeeps(n, e);
    DeliveredExact(n, x, s, 0, true);
    AckOfNow(y, p, s);
    if Stale(p, y, s) {
      var g: nat :| AckAt(y, p, s, g) && g < Forgotten(p);
      AckOnce(p, y, s, g, Reached(y));
      assert false;
    }
    var p' := At(Next(n, e), x);
    var o: nat :| DataAt(y, s, o) && Got(p') == Got(p) + if o == |Got(p)| then Fitting(p, s.data) else [];
    PlaceOnce(y, s, o, Forgotten(y));
    FitsSome(p, s.data);
  }

  lemma FullAckFresh(p: Peer, y: Peer)
    requires Pair(y, p) && Up(p) && Up(y)
    ensures !Stale(y, p, FullAck(p, y)) && AckAt(p, y, FullAck(p, y), Reached(p)) && Reached(p) == |Got(p)| < LIMIT
  {
    var s := FullAck(p, y);
    if Stale(y, p, s) {
      var g: nat :| AckAt(p, y, s, g) && g < Forgotten(y);
      AckOnce(y, p, s, g, Reached(p));
      assert false;
    }
  }

  /** A full acknowledgement that arrives levels the sides. */
  lemma FullAckArrives(n: Conn, x: Side) returns (e: Event)
    requires BothUp(n) && Packet(x, FullAck(At(n, x), At(n, Other(x)))) in n.net
    ensures Enabled(n, e) && var n' := Next(n, e);
            BothUp(n') && Onward(n, n', x) && At(n', x) == At(n, x) && Level(n', x)
  {
    var p, y := At(n, x), At(n, Other(x));
    var s := FullAck(p, y);
    e := Deliver(Other(x), s, 0, true);
    StepKeeps(n, e);
    DeliveredExact(n, Other(x), s, 0, true);
    FullAckFresh(p, y);
    AckOnce(y, p, s, Forgotten(At(Next(n, e), Other(x))), Reached(p));
  }

  lemma Go(ms: seq<Conn>, fs: seq<Event>, e: Event) returns (ms': seq<Conn>, fs': seq<Event>)
    requires Steps(ms, fs) && Enabled(ms[|fs|], e)
    ensures Steps(ms', fs') && ms'[0] == ms[0] && ms'[|fs'|] == Next(ms[|fs|], e)
  {
    ms', fs' := ms + [Next(ms[|fs|], e)], fs + [e];
    forall i {:trigger fs'[i]} | 0 <= i < |fs'| ensures Enabled(ms'[i], fs'[i]) && ms'[i + 1] == Next(ms'[i], fs'[i]) {
      if i < |fs| {
        assert Enabled(ms[i], fs[i]);
      }
    }
  }

  /** One retransmission and its acknowledgement. */
  lemma Exchange(ms: seq<Conn>, fs: seq<Event>, x: Side) returns (ms': seq<Conn>, fs': seq<Event>)
    requires Steps(ms, fs)
    requires var n := ms[|fs|]; BothUp(n) && At(n, x).t.rx == [] && |Got(At(n, x))| < |At(n, Other(x)).sent|
    ensures Steps(ms', fs') && ms'[0] == ms[0]
    ensures var n, n' := ms[|fs|], ms'[|fs'|];
            && BothUp(n') && Onward(n, n', x) && Level(n', x)
            && if Level(n, x) then |Got(At(n', x))| > |Got(At(n, x))| else At(n', x).t.rx == []
  {
    var n := ms[|fs|];
    var s := FirstResent(n, x);
    StepKeeps(n, Tick(Other(x), 1));
    ms', fs' := Go(ms, fs, Tick(Other(x), 1));
    var n1 := ms'[|fs'|];
    var e1 := ResentArrives(n1, x, s);
    ms', fs' := Go(ms', fs', e1);
    var n2 := ms'[|fs'|];
    var e2 := FullAckArrives(n2, x);
    ms', fs' := Go(ms', fs', e2);
  }

  /** Two exchanges bring at least one byte. */
  lemma Progress(ms: seq<Conn>, fs: seq<Event>, x: Side) returns (ms': seq<Conn>, fs': seq<Event>)
    requires Steps(ms, fs) && BothUp(ms[|fs|])
    requires |Got(At(ms[|fs|], x))| < |At(ms[|fs|], Other(x)).sent|
    ensures Steps(ms', fs') && ms'[0] == ms[0]
    ensures BothUp(ms'[|fs'|]) && Onward(ms[|fs|], ms'[|fs'|], x)
    ensures |Got(At(ms'[|fs'|], x))| > |Got(At(ms[|fs|], x))|
  {
    var n := ms[|fs|];
    var e := Drain(n, x);
    ms', fs' := Go(ms, fs, e);
    ms', fs' := Exchange(ms', fs', x);
    var n1 := ms'[|fs'|];
    if |Got(At(n1, x))| == |Got(At(n, x))| {
      ms', fs' := Exchange(ms', fs', x);
    }
  }

  lemma GotWithin(n: Conn, x: Side)
    requires BothUp(n)
    ensures Got(At(n, x)) <= At(n, Other(x)).sent
  {
  }

  lemma {:induction false} AllArrives(ms: seq<Conn>, fs: seq<Event>, x: Side) returns (ms': seq<Conn>, fs': seq<Event>)
    requires Steps(ms, fs) && BothUp(ms[|fs|])
    ensures Steps(ms', fs') && ms'[0] == ms[0] && BothUp(ms'[|fs'|])
    ensures var n, n' := ms[|fs|], ms'[|fs'|];
            && n'.c.sent == n.c.sent && n'.s.sent == n.s.sent
            && At(n', x).read == At(n, Other(x)).sent && At(n', x).t.rx == []
    decreases |At(ms[|fs|], Other(x)).sent| - |Got(At(ms[|fs|], x))|
  {
    var n := ms[|fs|];
    GotWithin(n, x);
    if |Got(At(n, x))| == |At(n, Other(x)).sent| {
      var e := Drain(n, x);
      ms', fs' := Go(ms, fs, e);
      assert Got(At(ms'[|fs'|], x)) == At(ms'[|fs'|], x).read;
    } else {
      ms', fs' := Progress(ms, fs, x);
      GotWithin(ms'[|fs'|], x);
      ms', fs' := AllArrives(ms', fs', x);
    }
  }

  /** A close whose FIN is delivered when all has been read. */
  lemma CloseArrives(n: Conn, x: Side, room: nat) returns (s: Segment)
    requires BothUp(n) && FinsOk(n) && At(n, x).read == At(n, Other(x)).sent && At(n, x).t.rx == []
    ensures Enabled(n, Close(Other(x), true))
    ensures var n1 := Next(n, Close(Other(x), true));
            Enabled(n1, Deliver(x, s, 0, true))
            && var n2 := Next(n1, Deliver(x, s, 0, true));
               RecvAnswer(At(n2, x), room) == Eof && At(n2, x).read == At(n, Other(x)).sent
  {
    var e := Close(Other(x), true);
    s := FinSegment(At(n, Other(x)).t);
    StepKeeps(n, e);
    FinsKeep(n, e);
    IfIs(Other(x), true, s);
    var n1 := Next(n, e);
    assert Packet(Other(x), s) in n1.net && At(n1, x) == At(n, x);
    assert Got(At(n, x)) == At(n, x).read;
    FinNotStale(At(n1, x), At(n1, Other(x)), s);
    DeliveredExact(n1, x, s, 0, true);
  }

  lemma {:induction false} StepsFins(ms: seq<Conn>, fs: seq<Event>, i: nat)
    requires Steps(ms, fs) && Inv(ms[0]) && FinsOk(ms[0]) && i <= |fs|
    ensures FinsOk(ms[i])
  {
    if i > 0 {
      StepsFins(ms, fs, i - 1);
      StepsKeep(ms, fs, i - 1);
      assert Enabled(ms[i - 1], fs[i - 1]);
      FinsKeep(ms[i - 1], fs[i - 1]);
    }
  }

  /** No run gets stuck: wherever both sides are established, whatever was lost, repeated or reordered before,
      there is a continuation in which one side reads everything the other has sent and then the end of the
      stream. */
  lemma EverythingCanArrive(ns: seq<Conn>, es: seq<Event>, i: nat, x: Side, room: nat)
    returns (ms: seq<Conn>, fs: seq<Event>)
    requires IsRun(ns, es) && i <= |es| && Up(At(ns[i], x)) && Up(At(ns[i], Other(x)))
    ensures Steps(ms, fs) && ms[0] == ns[i]
    ensures At(ms[|fs|], x).read == At(ns[i], Other(x)).sent && RecvAnswer(At(ms[|fs|], x), room) == Eof
  {
    RunKeeps(ns, es, i);
    RunFins(ns, es, i);
    ms, fs := AllArrives([ns[i]], [], x);
    StepsFins(ms, fs, |fs|);
    var n := ms[|fs|];
    var s := CloseArrives(n, x, room);
    ms, fs := Go(ms, fs, Close(Other(x), true));
    ms, fs := Go(ms, fs, Deliver(x, s, 0, true));
  }
}
