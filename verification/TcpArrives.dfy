/** What one delivery does to an open side, exactly, over every run. */
module TcpArrives {
  import opened Wrappers
  import opened TcpSegment
  import opened TcpConn
  import opened TcpKeeps
  import opened TcpStream
  import opened TcpClose

  // ---- acknowledgements ----

  /** Segment `s` acknowledges bytes of `x` that were acknowledged before, and fewer. */
  ghost predicate Stale(x: Peer, y: Peer, s: Segment) {
    s.flags.ack && exists g: nat :: AckAt(y, x, s, g) && g < Forgotten(x)
  }

  /** An open side drops exactly the segments with an old acknowledgement. */
  lemma AckExact(x: Peer, y: Peer, s: Segment, g: nat)
    requires Pair(x, y) && Open(x) && MaySend(x.t) && y.started && Synced(y) && AckAt(y, x, s, g)
    ensures g <= |x.sent| && (AckInWindow(x.t, s.ack) <==> Forgotten(x) <= g)
  {
    Ahead(x.iss + 1, g, Forgotten(x));
    Ahead(x.iss + 1, |x.sent|, Forgotten(x));
  }

  lemma AckOnce(x: Peer, y: Peer, s: Segment, g: nat, k: nat)
    requires AckAt(y, x, s, g) && AckAt(y, x, s, k) && g < LIMIT && k < LIMIT
    ensures g == k
  {
    SamePlace(x.iss + 1, g, k);
  }

  lemma DroppedIsStale(x: Peer, y: Peer, s: Segment)
    requires Pair(x, y) && Open(x) && MaySend(x.t) && y.started && SegOk(y, x, s) && !s.flags.rst
    ensures Stale(x, y, s) <==> s.flags.ack && !AckInWindow(x.t, s.ack)
  {
    if s.flags.ack {
      var g: nat :| AckAt(y, x, s, g);
      AckExact(x, y, s, g);
      if k: nat :| AckAt(y, x, s, k) && k < Forgotten(x) {
        AckExact(x, y, s, k);
      }
    }
  }

  /** The side after the acknowledgement alone. */
  function Acked(x: Peer, s: Segment): Peer {
    x.(t := if s.flags.ack then TakeAck(x.t, s.ack) else x.t)
  }

  /** The bytes acknowledged are forgotten, and no others. */
  lemma AckTaken(x: Peer, y: Peer, s: Segment)
    requires Pair(x, y) && Open(x) && MaySend(x.t) && y.started && SegOk(y, x, s) && !s.flags.rst && !Stale(x, y, s)
    ensures var x1 := Acked(x, s);
            && Pair(x1, y) && Open(x1) && SegOk(y, x1, s)
            && x1 == x.(t := x.t.(unacked := x1.t.unacked, una := x1.t.una))
            && (if s.flags.ack then AckAt(y, x, s, Forgotten(x1)) else x1 == x)
  {
    DroppedIsStale(x, y, s);
    if s.flags.ack {
      var g: nat :| AckAt(y, x, s, g);
      AckForgets(x, y, s, g);
      RxAck(x, y, s);
      StillOk(y, x, y, Acked(x, s), s);
      assert Forgotten(Acked(x, s)) == g;
    }
  }

  // ---- data ----

  /** What there is room for. */
  function Fitting(x: Peer, d: Bytes): Bytes {
    d[..Min(if |x.t.rx| <= RX_CAP then RX_CAP - |x.t.rx| else 0, |d|)]
  }

  /** `x'` is `x` with the data of `s` taken: all that fits if it is what comes next, and none if not. */
  ghost predicate TookData(x: Peer, x': Peer, y: Peer, s: Segment) {
    if s.data == [] then Got(x') == Got(x)
    else exists o: nat :: DataAt(y, s, o) && Got(x') == Got(x) + if o == |Got(x)| then Fitting(x, s.data) else []
  }

  lemma DataExact(x: Peer, y: Peer, s: Segment)
    requires Pair(x, y) && Open(x) && MaySend(x.t) && y.started && SegOk(y, x, s) && !s.flags.rst
    ensures var x1 := x.(t := TakeData(x.t, s)); TookData(x, x1, y, s) && x1.t.state == x.t.state && x1.read == x.read
  {
    if s.data != [] {
      var o: nat :| DataAt(y, s, o);
      var x1 := x.(t := TakeData(x.t, s));
      if s.num == x.t.rcv {
        DataPlace(x, y, s, o);
        assert Got(x1) == Got(x) + Fitting(x, s.data);
      } else {
        assert o != |Got(x)|;
        assert Got(x1) == Got(x) + [];
      }
    }
  }

  // ---- FIN ----

  /** An open side has heard the end of the stream after this segment if it had before, or the segment is a
      FIN and everything sent is there. */
  lemma FinExact(x: Peer, y: Peer, s: Segment)
    requires Pair(x, y) && Open(x) && MaySend(x.t) && y.started && SegOk(y, x, s) && !s.flags.rst
    ensures var x1 := x.(t := TakeFin(x.t, s));
            && x1 == x.(t := x.t.(rcv := x1.t.rcv, state := x1.t.state))
            && x1.t.state == (if s.flags.fin && Got(x) == y.sent then CloseWait else x.t.state)
  {
    if s.flags.fin {
      assert s.data == [] && s.num == W(y.iss + 1 + |y.sent|);
      AddPlace(y.iss + 1, |y.sent|, 0);
      if Add(s.num, |s.data|) == x.t.rcv {
        FinPlace(x, y, s);
      } else if x.t.state == Est && Got(x) == y.sent {
        assert false;
      }
    }
  }

  // ---- a whole delivery ----

  /** The pure acknowledgement of everything `x` has. */
  function FullAck(x: Peer, y: Peer): Segment {
    Segment(W(x.iss + 1 + |x.sent|), W(y.iss + 1 + Reached(x)), ACK, [])
  }

  /** Everything a segment that is not dropped does to an open side. */
  ghost predicate Took(x: Peer, x': Peer, y: Peer, s: Segment) {
    && x' == x.(t := x'.t) && Open(x')
    && (if s.flags.ack then Forgotten(x') >= 0 && AckAt(y, x, s, Forgotten(x')) else Forgotten(x') == Forgotten(x))
    && TookData(x, x', y, s)
    && x'.t.state == (if s.flags.fin && Got(x) == y.sent then CloseWait else x.t.state)
  }

  /** A segment that carries data or a FIN is answered with a full acknowledgement, any other with nothing. */
  predicate Answered(x': Peer, y: Peer, s: Segment, reply: Option<Segment>) {
    reply == if s.data != [] || s.flags.fin then Some(FullAck(x', y)) else None
  }

  lemma StreamExact(x: Peer, y: Peer, s: Segment)
    requires Pair(x, y) && Open(x) && MaySend(x.t) && y.started && SegOk(y, x, s) && !s.flags.rst
    ensures var x1 := x.(t := TakeFin(TakeData(x.t, s), s));
            && Pair(x1, y) && x1 == x.(t := x1.t) && x1.t.unacked == x.t.unacked && Open(x1) && MaySend(x1.t)
            && TookData(x, x1, y, s)
            && x1.t.state == (if s.flags.fin && Got(x) == y.sent then CloseWait else x.t.state)
  {
    DataExact(x, y, s);
    RxData(x, y, s);
    var x0 := x.(t := TakeData(x.t, s));
    StillOk(y, x, y, x0, s);
    FinExact(x0, y, s);
    RxStream(x, y, s);
    if s.flags.fin {
      assert x0 == x;
    }
  }

  lemma AckNumbers(x: Peer, y: Peer)
    requires Pair(x, y) && Open(x) && MaySend(x.t) && y.started
    ensures AckNow(x.t) == FullAck(x, y)
  {
  }

  /** A segment that arrives at an open side and is not stale. */
  lemma ArrivalExact(x: Peer, y: Peer, s: Segment)
    requires Pair(x, y) && Open(x) && MaySend(x.t) && y.started && SegOk(y, x, s) && !s.flags.rst && !Stale(x, y, s)
    ensures var (t, reply) := ChildRx(x.t, s);
            Took(x, x.(t := t), y, s) && Answered(x.(t := t), y, s, reply)
  {
    DroppedIsStale(x, y, s);
    AckTaken(x, y, s);
    var x1 := Acked(x, s);
    StreamExact(x1, y, s);
    var x2 := x1.(t := TakeFin(TakeData(x1.t, s), s));
    assert Got(x1) == Got(x) && Fitting(x1, s.data) == Fitting(x, s.data);
    AckNumbers(x2, y);
  }

  /** One delivery, from any connection the invariant allows. */
  ghost predicate Effect(n: Conn, n': Conn, x: Side, s: Segment, tx: bool)
    requires Open(At(n, x)) && MaySend(At(n, x).t) && At(n, Other(x)).started
  {
    var p, p', y := At(n, x), At(n', x), At(n, Other(x));
    && At(n', Other(x)) == y
    && if Stale(p, y, s) then n' == n
       else
         && Took(p, p', y, s)
         && n'.net == n.net + if tx && (s.data != [] || s.flags.fin) then {Packet(x, FullAck(p', y))} else {}
  }

  lemma DeliveredExact(n: Conn, x: Side, s: Segment, iss: u32, tx: bool)
    requires Inv(n) && Packet(Other(x), s) in n.net && !s.flags.rst && Open(At(n, x)) && MaySend(At(n, x).t)
    ensures At(n, Other(x)).started && Effect(n, Delivered(n, x, s, iss, tx), x, s, tx)
  {
    var p, y := At(n, x), At(n, Other(x));
    assert SegOk(y, p, s);
    DroppedIsStale(p, y, s);
    assert Packets(x, []) == {};
    if Stale(p, y, s) {
      assert n.net + {} == n.net;
    } else {
      ArrivalExact(p, y, s);
      var (t, reply) := ChildRx(p.t, s);
      if reply.Some? {
        IfIs(x, tx, reply.value);
      }
    }
  }

  /** Every delivery, in every run, of anything but a reset to a side that is open and established or half
      closed: a stale segment is dropped whole, and any other does exactly what `Took` says and is answered
      by a full acknowledgement if it carries data or a FIN. */
  lemma DeliveryExact(ns: seq<Conn>, es: seq<Event>, i: nat)
    requires IsRun(ns, es) && i < |es| && es[i].Deliver? && !es[i].seg.flags.rst
    requires Open(At(ns[i], es[i].x)) && MaySend(At(ns[i], es[i].x).t)
    ensures At(ns[i], Other(es[i].x)).started && Effect(ns[i], ns[i + 1], es[i].x, es[i].seg, es[i].tx)
  {
    RunKeeps(ns, es, i);
    assert Enabled(ns[i], es[i]) && ns[i + 1] == Next(ns[i], es[i]);
    DeliveredExact(ns[i], es[i].x, es[i].seg, es[i].iss, es[i].tx);
  }

  lemma IfIs(x: Side, tx: bool, s: Segment)
    ensures Packets(x, If(tx, s)) == if tx then {Packet(x, s)} else {}
  {
    if tx {
      assert If(tx, s)[0] == s;
    }
  }

  // ---- the end of the stream ----

  /** What the FIN of a side that has closed carries: the number after its last byte, and the acknowledgement
      of all it had. */
  predicate IsFin(y: Peer, s: Segment) {
    && y.started && y.t.closing
    && s.flags == FIN_ACK && s.data == [] && s.ack == y.t.rcv && Add(s.num, 1) == y.t.nxt
  }

  ghost predicate FinsOk(n: Conn) {
    forall k :: k in n.net && k.seg.flags.fin ==> IsFin(At(n, k.from), k.seg)
  }

  lemma {:induction false} CutHasNoFin(num: u32, ack: u32, data: Bytes, i: nat)
    requires i < |Cut(num, ack, data)|
    ensures !Cut(num, ack, data)[i].flags.fin
    decreases i
  {
    var k := Min(MSS, |data|);
    if i > 0 {
      CutHasNoFin(Add(num, k), ack, data[k..], i - 1);
    }
  }

  lemma SendHasNoFin(n: Conn, x: Side, data: Bytes, ok: nat, k: Packet)
    requires k in Next(n, Send(x, data, ok)).net && k !in n.net
    ensures !k.seg.flags.fin
  {
    var p := At(n, x);
    var segs := Cut(p.t.nxt, p.t.rcv, Prefix(data, ok));
    var i :| 0 <= i < |segs| && k == Packet(x, segs[i]);
    CutHasNoFin(p.t.nxt, p.t.rcv, Prefix(data, ok), i);
  }

  lemma TickHasNoFin(n: Conn, x: Side, ok: nat, k: Packet)
    requires k in Next(n, Tick(x, ok)).net && k !in n.net
    ensures !k.seg.flags.fin
  {
    var t := At(n, x).t;
    var segs := First(Resent(t), ok);
    var i :| 0 <= i < |segs| && k == Packet(x, segs[i]);
    if !Handshake(t) {
      CutHasNoFin(t.una, t.rcv, Window(t), i);
    }
  }

  /** A step that puts a FIN on the network closes its side. */
  lemma NewFin(n: Conn, e: Event, k: Packet)
    requires Inv(n) && Enabled(n, e) && k in Next(n, e).net && k !in n.net && k.seg.flags.fin
    ensures e == Close(k.from, true) && Open(At(n, k.from)) && MaySend(At(n, k.from).t)
            && k.seg == FinSegment(At(n, k.from).t)
  {
    match e {
      case Send(x, data, ok) => SendHasNoFin(n, x, data, ok, k);
      case Tick(x, ok) => TickHasNoFin(n, x, ok, k);
      case _ =>
    }
  }

  /** A side that has closed stays as it is. */
  lemma ClosingStays(n: Conn, e: Event, x: Side)
    requires Inv(n) && Enabled(n, e) && At(n, x).started && At(n, x).t.closing
    ensures At(Next(n, e), x).started && At(Next(n, e), x).t == At(n, x).t && At(Next(n, e), x).sent == At(n, x).sent
  {
  }

  lemma FinsKeep(n: Conn, e: Event)
    requires Inv(n) && Enabled(n, e) && FinsOk(n)
    ensures FinsOk(Next(n, e))
  {
    forall k | k in Next(n, e).net && k.seg.flags.fin ensures IsFin(At(Next(n, e), k.from), k.seg) {
      if k in n.net {
        ClosingStays(n, e, k.from);
      } else {
        NewFin(n, e, k);
      }
    }
  }

  lemma {:induction false} RunFins(ns: seq<Conn>, es: seq<Event>, i: nat)
    requires IsRun(ns, es) && i <= |es|
    ensures FinsOk(ns[i])
  {
    if i > 0 {
      RunFins(ns, es, i - 1);
      RunKeeps(ns, es, i - 1);
      assert Enabled(ns[i - 1], es[i - 1]);
      FinsKeep(ns[i - 1], es[i - 1]);
    }
  }

  /** A FIN is never stale. */
  lemma FinNotStale(x: Peer, y: Peer, s: Segment)
    requires Pair(x, y) && Open(x) && MaySend(x.t) && y.started && IsFin(y, s)
    ensures !Stale(x, y, s)
  {
    if Stale(x, y, s) {
      var g: nat :| AckAt(y, x, s, g) && g < Forgotten(x);
      AckOfNow(y, x, s);
      AckOnce(x, y, s, g, Reached(y));
      assert false;
    }
  }

  /** The end of the stream is heard: a FIN that reaches an open, established side brings it to CLOSE_WAIT if
      and only if every byte sent before it has arrived, and is answered either way; once what waits has been
      read, `tcp_recv` reports the end. */
  lemma FinIsHeard(ns: seq<Conn>, es: seq<Event>, i: nat, room: nat)
    requires IsRun(ns, es) && i < |es| && es[i].Deliver? && es[i].seg.flags.fin
    requires Open(At(ns[i], es[i].x)) && At(ns[i], es[i].x).t.state == Est
    ensures var x := es[i].x;
            var p, p', y := At(ns[i], x), At(ns[i + 1], x), At(ns[i], Other(x));
            && y.t.closing && Open(p') && p' == p.(t := p'.t) && p'.t.rx == p.t.rx
            && (p'.t.state == CloseWait <==> Got(p) == y.sent)
            && (es[i].tx ==> Packet(x, FullAck(p', y)) in ns[i + 1].net)
            && (Got(p) == y.sent && room >= |p'.t.rx| ==>
                  RecvAnswer(At(Next(ns[i + 1], Recv(x, room)), x), room) == Eof)
  {
    var x, s := es[i].x, es[i].seg;
    RunKeeps(ns, es, i);
    RunFins(ns, es, i);
    assert Enabled(ns[i], es[i]);
    assert IsFin(At(ns[i], Other(x)), s);
    FinNotStale(At(ns[i], x), At(ns[i], Other(x)), s);
    DeliveryExact(ns, es, i);
    assert At(ns[i + 1], x).read == At(ns[i], x).read;
  }

  /** Both sides send a byte; the client's arrives and is acknowledged, the server's is on its way. */
  lemma CrossingBytes() returns (ns: seq<Conn>, es: seq<Event>)
    ensures IsRun(ns, es)
    ensures var n := ns[|es|];
            && Packet(Server, DATA_SEG) in n.net
            && n.c == Peer(true, true, 0, CLIENT_UP.(una := 2, nxt := 2), HELLO, [])
            && n.s == Peer(true, true, 0, SERVER_UP.(nxt := 2, rcv := 2, unacked := HELLO, rx := HELLO), HELLO, [])
  {
    ns, es := HandshakeRun();
    HelloCut();
    ns, es := Extend(ns, es, Send(Server, HELLO, 1));
    InNet(Server, [DATA_SEG]);
    ns, es := Extend(ns, es, Send(Client, HELLO, 1));
    InNet(Client, [DATA_SEG]);
    ns, es := Extend(ns, es, Deliver(Server, DATA_SEG, 0, true));
    var r := Segment(2, 2, ACK, []);
    InNet(Server, [r]);
    ns, es := Extend(ns, es, Deliver(Client, r, 0, true));
  }

  /** The server's byte was sent with the older acknowledgement, and so, when it reaches the client as the very
      byte it waits for, it is dropped and not even acknowledged. */
  lemma NewDataDropped() returns (ns: seq<Conn>, es: seq<Event>)
    ensures IsRun(ns, es) && |es| > 0
    ensures var n, n' := ns[|es| - 1], ns[|es|];
            && es[|es| - 1] == Deliver(Client, DATA_SEG, 0, true) && DATA_SEG.num == n.c.t.rcv && Open(n.c)
            && Stale(n.c, n.s, DATA_SEG) && n' == n && Got(n'.c) == [] && n'.s.sent == HELLO
  {
    ns, es := CrossingBytes();
    ghost var n := ns[|es|];
    ns, es := Extend(ns, es, Deliver(Client, DATA_SEG, 0, true));
    assert Packets(Client, []) == {} && n.net + {} == n.net;
    assert AckAt(n.s, n.c, DATA_SEG, 0);
  }
}
