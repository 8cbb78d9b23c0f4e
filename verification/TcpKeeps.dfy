/** Every event of a connection keeps its invariant: sends, deliveries, reads, closes and
    retransmissions. */
module TcpKeeps {
  import opened Wrappers
  import opened TcpSegment
  import opened TcpConn

  // ---- wrapped numbers ----

  lemma SamePlace(i: nat, a: nat, b: nat)
    requires W(i + a) == W(i + b) && a < LIMIT && b < LIMIT
    ensures a == b
  {
  }

  lemma AddPlace(i: nat, a: nat, k: nat)
    ensures Add(W(i + a), k) == W(i + a + k)
  {
  }

  /** How far `a` is ahead of `b`, as the code measures it. */
  lemma Ahead(i: nat, a: nat, b: nat)
    requires a < LIMIT && b < LIMIT
    ensures Sub(W(i + a), W(i + b)) == if a >= b then a - b else M - (b - a)
  {
  }

  // ---- what is on the network ----

  /** `p` later: nothing it has said becomes untrue. */
  predicate Grows(p: Peer, p': Peer) {
    p.started ==>
      && p'.started && p'.iss == p.iss && p.sent <= p'.sent
      && (p.t.finSent ==> p'.t.finSent && p'.sent == p.sent)
      && (Synced(p) ==> Synced(p')) && Reached(p) <= Reached(p')
  }

  lemma StillOk(x: Peer, y: Peer, x': Peer, y': Peer, s: Segment)
    requires Grows(x, x') && Grows(y, y') && SegOk(x, y, s) && (Synced(x) ==> y.started)
    ensures SegOk(x', y', s)
  {
    if !s.flags.rst {
      if s.data != [] {
        var o: nat :| DataAt(x, s, o);
        assert DataAt(x', s, o);
      }
      if s.flags.ack {
        var g: nat :| AckAt(x, y, s, g);
        assert AckAt(x', y', s, g);
      }
    }
  }

  lemma NetGrows(n: Conn, n': Conn, x: Side, segs: seq<Segment>)
    requires Inv(n) && Grows(n.c, n'.c) && Grows(n.s, n'.s) && n'.net == n.net + Packets(x, segs)
    requires forall i :: 0 <= i < |segs| ==> SegOk(At(n', x), At(n', Other(x)), segs[i])
    ensures NetOk(n')
  {
    forall k | k in n'.net ensures SegOk(At(n', k.from), At(n', Other(k.from)), k.seg) {
      if k in n.net {
        StillOk(At(n, k.from), At(n, Other(k.from)), At(n', k.from), At(n', Other(k.from)), k.seg);
      }
    }
  }

  /** A piece of a slice is a slice. */
  lemma SliceOfSlice(sent: Bytes, o: nat, data: Bytes, k: nat)
    requires o + |data| <= |sent| && data == sent[o..o + |data|] && k <= |data|
    ensures data[..k] == sent[o..o + k] && data[k..] == sent[o + k..o + |data|]
  {
  }

  lemma {:induction false} CutIsData(x: Peer, y: Peer, o: nat, ack: u32, g: nat, data: Bytes, i: nat)
    requires o + |data| <= |x.sent| && data == x.sent[o..o + |data|] && Synced(x)
    requires g <= Reached(x) && ack == W(y.iss + 1 + g)
    requires i < |Cut(W(x.iss + 1 + o), ack, data)|
    ensures SegOk(x, y, Cut(W(x.iss + 1 + o), ack, data)[i])
    decreases i
  {
    var k := Min(MSS, |data|);
    var s := Segment(W(x.iss + 1 + o), ack, ACK, data[..k]);
    SliceOfSlice(x.sent, o, data, k);
    if i == 0 {
      assert DataAt(x, s, o) && AckAt(x, y, s, g);
    } else {
      AddPlace(x.iss + 1, o, k);
      CutIsData(x, y, o + k, ack, g, data[k..], i - 1);
    }
  }

  /** The acknowledgement every segment of `x` carries. */
  lemma AckOfNow(x: Peer, y: Peer, s: Segment)
    requires Synced(x) && RecvOk(x, y) && s.ack == x.t.rcv
    ensures AckAt(x, y, s, Reached(x))
  {
  }

  // ---- receiving ----

  /** Both directions between an open `x` and the other side. */
  ghost predicate Pair(x: Peer, y: Peer) {
    Stream(x, y) && Stream(y, x)
  }

  lemma AckPlace(x: Peer, y: Peer, s: Segment, g: nat)
    requires Pair(x, y) && Open(x) && !Handshake(x.t) && y.started && Synced(y) && AckAt(y, x, s, g)
    requires AckInWindow(x.t, s.ack)
    ensures Forgotten(x) <= g <= |x.sent| && g <= |Got(y)| && Sub(s.ack, x.t.una) == g - Forgotten(x)
  {
    Ahead(x.iss + 1, g, Forgotten(x));
    Ahead(x.iss + 1, |x.sent|, Forgotten(x));
  }

  lemma SubZero(a: u32, b: u32)
    requires Sub(a, b) == 0
    ensures a == b
  {
  }

  lemma TakesAck(t: Tcb, ack: u32, k: nat)
    requires Sub(ack, t.una) == k <= |t.unacked| && (t.state == Est || t.state == CloseWait)
    ensures TakeAck(t, ack) == t.(unacked := t.unacked[k..], una := ack)
  {
    if k == 0 {
      SubZero(ack, t.una);
    }
  }

  /** An acknowledgement of byte `g` forgets the bytes below it. */
  lemma AckForgets(x: Peer, y: Peer, s: Segment, g: nat)
    requires Pair(x, y) && Open(x) && !Handshake(x.t) && y.started && Synced(y) && AckAt(y, x, s, g)
    requires AckInWindow(x.t, s.ack)
    ensures var u := Forgotten(x);
            u <= g <= |x.sent| && g <= |Got(y)|
            && TakeAck(x.t, s.ack) == x.t.(unacked := x.sent[g..], una := W(x.iss + 1 + g))
  {
    AckPlace(x, y, s, g);
    assert x.t.unacked[g - Forgotten(x)..] == x.sent[g..];
    TakesAck(x.t, s.ack, g - Forgotten(x));
  }

  lemma Forgets(x: Peer, y: Peer, g: nat)
    requires Pair(x, y) && Open(x) && !Handshake(x.t) && Synced(y) && g <= |x.sent| && g <= |Got(y)|
    ensures var x1 := x.(t := x.t.(unacked := x.sent[g..], una := W(x.iss + 1 + g)));
            Stream(x1, y) && Stream(y, x1) && Grows(x, x1)
  {
  }

  lemma ShakeTcb(t: Tcb, ack: u32)
    requires Handshake(t) && t.unacked == [] && t.nxt == Add(t.iss, 1) && (t.una == t.iss || t.una == t.nxt)
    requires AckInWindow(t, ack)
    ensures ack == t.iss || ack == t.nxt
    ensures TakeAck(t, ack) == t
            || TakeAck(t, ack) == t.(una := t.nxt, state := if t.state == SynRcvd then Est else SynSent)
    ensures TakeAck(t, ack).una == ack
  {
  }

  lemma ShakeAck(x: Peer, y: Peer, s: Segment, g: nat)
    requires Pair(x, y) && Open(x) && Handshake(x.t) && y.started && AckAt(y, x, s, g) && AckInWindow(x.t, s.ack)
    ensures var t1 := TakeAck(x.t, s.ack);
            && (t1 == x.t || t1 == x.t.(una := Add(x.iss, 1), state := if x.t.state == SynRcvd then Est else SynSent))
            && t1.una == s.ack
  {
    assert x.t.unacked == [] && FinOf(x) == 0 && x.t.nxt == Add(x.t.iss, 1);
    ShakeTcb(x.t, s.ack);
  }

  lemma Opens(x: Peer, y: Peer)
    requires Pair(x, y) && Open(x) && Handshake(x.t) && y.started
    ensures var x1 := x.(t := x.t.(una := Add(x.iss, 1), state := if x.t.state == SynRcvd then Est else SynSent));
            Stream(x1, y) && Stream(y, x1) && Grows(x, x1)
  {
  }

  lemma RxAck(x: Peer, y: Peer, s: Segment)
    requires Pair(x, y) && Open(x) && y.started && SegOk(y, x, s) && !s.flags.rst && s.flags.ack
             && AckInWindow(x.t, s.ack)
    ensures var x1 := x.(t := TakeAck(x.t, s.ack));
            Pair(x1, y) && Open(x1) && Grows(x, x1) && x1.t.una == s.ack
  {
    var g: nat :| AckAt(y, x, s, g);
    if Handshake(x.t) {
      ShakeAck(x, y, s, g);
      Opens(x, y);
    } else {
      AckForgets(x, y, s, g);
      Forgets(x, y, g);
    }
  }

  lemma SynAckSends(x: Peer, y: Peer, num: u32)
    requires Pair(x, y) && Open(x) && y.started && x.t.state == SynSent && x.t.una == x.t.nxt
    ensures var x1 := x.(t := x.t.(rcv := Add(num, 1), state := Est)); SendOk(x1) && KeptUntilGot(x1, y)
  {
  }

  lemma SynAckReceives(x: Peer, y: Peer)
    requires Pair(x, y) && Open(x) && y.started && x.t.state == SynSent
    ensures var x1 := x.(t := x.t.(rcv := Add(y.iss, 1), state := Est));
            RecvOk(x1, y) && KeptUntilGot(y, x1) && (y.started ==> SendOk(y)) && RecvOk(y, x1) && Grows(x, x1)
  {
  }

  lemma RxSynAck(x: Peer, y: Peer, s: Segment)
    requires Pair(x, y) && Open(x) && y.started && SegOk(y, x, s) && !s.flags.rst
    requires x.t.state == SynSent && s.flags.ack && x.t.una == s.ack
    ensures var x1 := x.(t := TakeBody(x.t, s)); Pair(x1, y) && Open(x1) && Grows(x, x1)
  {
    if s.flags.syn && s.ack == x.t.nxt {
      SynAckSends(x, y, s.num);
      SynAckReceives(x, y);
    }
  }

  lemma DataPlace(x: Peer, y: Peer, s: Segment, o: nat)
    requires Pair(x, y) && Open(x) && Synced(x) && y.started && DataAt(y, s, o) && s.data != [] && s.num == x.t.rcv
    ensures !FinGot(x) && o == |Got(x)|
  {
    SamePlace(y.iss + 1, o, |Got(x)| + if FinGot(x) then 1 else 0);
  }

  lemma Takes(x: Peer, y: Peer, d: Bytes)
    requires Pair(x, y) && Open(x) && x.t.state == Est && y.started
    requires Got(x) + d <= y.sent
    ensures var x1 := x.(t := x.t.(rx := x.t.rx + d, rcv := W(y.iss + 1 + |Got(x)| + |d|)));
            Stream(x1, y) && Stream(y, x1) && Open(x1) && Grows(x, x1)
  {
    var x1 := x.(t := x.t.(rx := x.t.rx + d, rcv := W(y.iss + 1 + |Got(x)| + |d|)));
    assert Got(x1) == Got(x) + d;
    assert Forgotten(x1) == Forgotten(x);
  }

  lemma TakesData(t: Tcb, s: Segment) returns (k: nat)
    requires s.data != [] && s.num == t.rcv
    ensures k <= |s.data| && TakeData(t, s) == t.(rx := t.rx + s.data[..k], rcv := Add(t.rcv, k))
  {
    k := Min(if |t.rx| <= RX_CAP then RX_CAP - |t.rx| else 0, |s.data|);
  }

  lemma DataTaken(x: Peer, y: Peer, s: Segment) returns (d: Bytes)
    requires Pair(x, y) && Open(x) && y.started && SegOk(y, x, s) && !s.flags.rst
    requires (x.t.state == Est || x.t.state == CloseWait) && s.data != [] && s.num == x.t.rcv
    ensures x.t.state == Est && Got(x) + d <= y.sent
    ensures TakeData(x.t, s) == x.t.(rx := x.t.rx + d, rcv := W(y.iss + 1 + |Got(x)| + |d|))
  {
    var o: nat :| DataAt(y, s, o);
    DataPlace(x, y, s, o);
    var k := TakesData(x.t, s);
    AddPlace(y.iss + 1, |Got(x)|, k);
    d := s.data[..k];
  }

  lemma RxData(x: Peer, y: Peer, s: Segment)
    requires Pair(x, y) && Open(x) && y.started && SegOk(y, x, s) && !s.flags.rst
    requires x.t.state == Est || x.t.state == CloseWait
    ensures var x1 := x.(t := TakeData(x.t, s));
            Pair(x1, y) && Open(x1) && Grows(x, x1) && x1.t.state == x.t.state && (s.data == [] ==> x1 == x)
  {
    if s.data != [] && s.num == x.t.rcv {
      var d := DataTaken(x, y, s);
      Takes(x, y, d);
    }
  }

  lemma FinPlace(x: Peer, y: Peer, s: Segment)
    requires Pair(x, y) && Open(x) && y.started && SegOk(y, x, s) && !s.flags.rst
    requires x.t.state == Est || x.t.state == CloseWait
    requires s.flags.fin && Add(s.num, |s.data|) == x.t.rcv
    ensures x.t.state == Est && Got(x) == y.sent && y.t.finSent && x.t.rcv == W(y.iss + 1 + |y.sent|)
  {
    AddPlace(y.iss + 1, |y.sent|, 0);
    SamePlace(y.iss + 1, |y.sent|, |Got(x)| + if FinGot(x) then 1 else 0);
  }

  lemma FinTaken(x: Peer, y: Peer)
    requires Pair(x, y) && Open(x) && y.started && x.t.state == Est
    requires Got(x) == y.sent && y.t.finSent && x.t.rcv == W(y.iss + 1 + |y.sent|)
    ensures var x1 := x.(t := x.t.(rcv := Add(x.t.rcv, 1), state := CloseWait));
            Stream(x1, y) && Stream(y, x1) && Open(x1) && Grows(x, x1)
  {
    AddPlace(y.iss + 1, |Got(x)|, 1);
    var x1 := x.(t := x.t.(rcv := Add(x.t.rcv, 1), state := CloseWait));
    assert Got(x1) == Got(x) && Forgotten(x1) == Forgotten(x);
  }

  lemma RxFin(x: Peer, y: Peer, s: Segment)
    requires Pair(x, y) && Open(x) && y.started && SegOk(y, x, s) && !s.flags.rst
    requires x.t.state == Est || x.t.state == CloseWait
    ensures var x1 := x.(t := TakeFin(x.t, s)); Pair(x1, y) && Open(x1) && Grows(x, x1)
  {
    if s.flags.fin && Add(s.num, |s.data|) == x.t.rcv {
      FinPlace(x, y, s);
      FinTaken(x, y);
    }
  }

  lemma RxStream(x: Peer, y: Peer, s: Segment)
    requires Pair(x, y) && Open(x) && y.started && SegOk(y, x, s) && !s.flags.rst
    requires x.t.state == Est || x.t.state == CloseWait
    ensures var x1 := x.(t := TakeFin(TakeData(x.t, s), s)); Pair(x1, y) && Open(x1) && Grows(x, x1)
  {
    RxData(x, y, s);
    var x1 := x.(t := TakeData(x.t, s));
    StillOk(y, x, y, x1, s);
    RxFin(x1, y, s);
  }

  lemma RxBody(x: Peer, y: Peer, s: Segment)
    requires Pair(x, y) && Open(x) && y.started && SegOk(y, x, s) && !s.flags.rst
    requires s.flags.ack ==> x.t.una == s.ack
    ensures var x1 := x.(t := TakeBody(x.t, s)); Pair(x1, y) && Open(x1) && Grows(x, x1)
  {
    if x.t.state == SynSent {
      if s.flags.ack { RxSynAck(x, y, s); }
    } else if x.t.state == Est || x.t.state == CloseWait {
      RxStream(x, y, s);
    }
  }

  lemma RxReply(x: Peer, y: Peer, s: Segment)
    requires Pair(x, y) && Open(x) && y.started && Reply(x.t, s).Some?
    requires var x1 := x.(t := TakeBody(x.t, s)); Pair(x1, y) && Open(x1)
    ensures SegOk(x.(t := TakeBody(x.t, s)), y, Reply(x.t, s).value)
  {
    var x1 := x.(t := TakeBody(x.t, s));
    AckOfNow(x1, y, Reply(x.t, s).value);
  }

  /** `child_rx`, whatever segment of the other side arrives. */
  lemma RxKeeps(x: Peer, y: Peer, s: Segment)
    requires Pair(x, y) && Open(x) && y.started && SegOk(y, x, s) && !s.flags.rst
    ensures var (t, reply) := ChildRx(x.t, s);
            var x1 := x.(t := t);
            Pair(x1, y) && Open(x1) && Grows(x, x1) && (reply.Some? ==> SegOk(x1, y, reply.value))
  {
    if s.flags.ack && AckInWindow(x.t, s.ack) {
      RxAck(x, y, s);
      StillOk(y, x, y, x.(t := TakeAck(x.t, s.ack)), s);
    }
    if !s.flags.ack || AckInWindow(x.t, s.ack) {
      var x0 := x.(t := if s.flags.ack then TakeAck(x.t, s.ack) else x.t);
      RxBody(x0, y, s);
      if Reply(x0.t, s).Some? {
        RxReply(x0, y, s);
      }
    }
  }

  // ---- events ----

  /** One side changes and puts segments on the network. */
  lemma SideKeeps(n: Conn, x: Side, p: Peer, segs: seq<Segment>)
    requires Inv(n) && Pair(p, At(n, Other(x))) && Grows(At(n, x), p)
    requires p.started && (x == Server ==> n.c.started)
    requires forall i :: 0 <= i < |segs| ==> SegOk(p, At(n, Other(x)), segs[i])
    ensures Inv(Put(With(n, x, p), x, segs))
  {
    NetGrows(n, Put(With(n, x, p), x, segs), x, segs);
  }

  lemma PutKeeps(n: Conn, x: Side, segs: seq<Segment>)
    requires Inv(n)
    requires forall i :: 0 <= i < |segs| ==> SegOk(At(n, x), At(n, Other(x)), segs[i])
    ensures Inv(Put(n, x, segs))
  {
    NetGrows(n, Put(n, x, segs), x, segs);
  }

  lemma ConnectKeeps(n: Conn, iss: u32, tx: bool)
    requires Inv(n) && !n.c.started
    ensures Inv(Next(n, Connect(iss, tx)))
  {
    if tx {
      var p := Peer(true, true, iss, Connecting(iss), [], []);
      assert Pair(p, n.s);
      assert SegOk(p, n.s, Segment(iss, 0, SYN, []));
      SideKeeps(n, Client, p, [Segment(iss, 0, SYN, [])]);
    }
  }

  lemma AcceptKeeps(n: Conn, seg: Segment, iss: u32, tx: bool)
    requires Inv(n) && Packet(Client, seg) in n.net && !seg.flags.rst && seg.flags.syn && !n.s.started
    ensures Inv(Delivered(n, Server, seg, iss, tx))
  {
    var t := Accepting(iss, seg.num);
    var p := Peer(true, true, iss, t, [], []);
    assert SegOk(n.c, n.s, seg);
    assert !Synced(n.c);
    assert SendOk(p) && RecvOk(p, n.c) && KeptUntilGot(n.c, p) && KeptUntilGot(p, n.c);
    var reply := Segment(iss, t.rcv, SYN_ACK, []);
    AckOfNow(p, n.c, reply);
    SideKeeps(n, Server, p, If(tx, reply));
  }

  lemma ReplyKeeps(n: Conn, x: Side, p: Peer, r: Option<Segment>, tx: bool)
    requires Inv(n) && Pair(p, At(n, Other(x))) && Grows(At(n, x), p) && p.started && (x == Server ==> n.c.started)
    requires r.Some? ==> SegOk(p, At(n, Other(x)), r.value)
    ensures Inv(Put(With(n, x, p), x, if r.Some? then If(tx, r.value) else []))
  {
    SideKeeps(n, x, p, if r.Some? then If(tx, r.value) else []);
  }

  lemma OpenDeliverKeeps(n: Conn, x: Side, seg: Segment, tx: bool)
    requires Inv(n) && Packet(Other(x), seg) in n.net && Open(At(n, x)) && !seg.flags.rst
    ensures var (t, reply) := ChildRx(At(n, x).t, seg);
            Inv(Put(With(n, x, At(n, x).(t := t)), x, if reply.Some? then If(tx, reply.value) else []))
  {
    var p, y := At(n, x), At(n, Other(x));
    assert SegOk(y, p, seg);
    RxKeeps(p, y, seg);
    var (t, reply) := ChildRx(p.t, seg);
    ReplyKeeps(n, x, p.(t := t), reply, tx);
  }

  lemma ResetDeliverKeeps(n: Conn, x: Side)
    requires Inv(n) && Open(At(n, x))
    ensures Inv(With(n, x, At(n, x).(alive := false)))
  {
    DeadKeeps(n, x, false);
    assert Packets(x, []) == {};
    assert Put(With(n, x, At(n, x).(alive := false)), x, []) == With(n, x, At(n, x).(alive := false));
  }

  lemma DeliverKeeps(n: Conn, x: Side, seg: Segment, iss: u32, tx: bool)
    requires Inv(n) && Enabled(n, Deliver(x, seg, iss, tx))
    ensures Inv(Delivered(n, x, seg, iss, tx))
  {
    var p := At(n, x);
    if seg.flags.rst {
      if Open(p) {
        ResetDeliverKeeps(n, x);
      }
    } else if Open(p) {
      OpenDeliverKeeps(n, x, seg, tx);
    } else if !p.started && x == Server && seg.flags.syn {
      AcceptKeeps(n, seg, iss, tx);
    } else {
      ResetOk(p, At(n, Other(x)), tx);
      PutKeeps(n, x, If(tx, RESET));
    }
  }

  lemma DeadPair(p: Peer, y: Peer)
    requires Pair(p, y) && p.started
    ensures var q := p.(alive := false); Stream(q, y) && Stream(y, q) && Grows(p, q)
  {
    var q := p.(alive := false);
    assert Got(q) == Got(p) && Forgotten(q) == Forgotten(p) && FinOf(q) == FinOf(p);
  }

  lemma ResetOk(p: Peer, y: Peer, tx: bool)
    ensures forall i :: 0 <= i < |If(tx, RESET)| ==> SegOk(p, y, If(tx, RESET)[i])
  {
  }

  lemma DeadKeeps(n: Conn, x: Side, tx: bool)
    requires Inv(n) && At(n, x).started
    ensures Inv(Put(With(n, x, At(n, x).(alive := false)), x, If(tx, RESET)))
  {
    DeadPair(At(n, x), At(n, Other(x)));
    ResetOk(At(n, x).(alive := false), At(n, Other(x)), tx);
    SideKeeps(n, x, At(n, x).(alive := false), If(tx, RESET));
  }

  // ---- the application ----

  lemma SentSide(p: Peer, y: Peer, d: Bytes)
    requires SendOk(p) && KeptUntilGot(p, y) && Open(p) && MaySend(p.t) && |p.sent| + |d| + 2 < LIMIT
    ensures var q := p.(t := Sent(p.t, d), sent := p.sent + d); SendOk(q) && KeptUntilGot(q, y)
  {
    var q := p.(t := Sent(p.t, d), sent := p.sent + d);
    assert FinOf(p) == 0 && p.t.nxt == W(p.iss + 1 + |p.sent|);
    AddPlace(p.iss + 1, |p.sent|, |d|);
    assert Forgotten(q) == Forgotten(p) && q.t.unacked == q.sent[Forgotten(q)..];
  }

  lemma SendGrows(p: Peer, y: Peer, d: Bytes)
    requires Pair(p, y) && Open(p) && MaySend(p.t) && |p.sent| + |d| + 2 < LIMIT
    ensures var q := p.(t := Sent(p.t, d), sent := p.sent + d); Pair(q, y) && Grows(p, q)
  {
    var q := p.(t := Sent(p.t, d), sent := p.sent + d);
    SentSide(p, y, d);
    assert Got(q) == Got(p) && p.sent <= q.sent;
  }

  lemma SentOk(p: Peer, y: Peer, d: Bytes, i: nat)
    requires Pair(p, y) && Open(p) && MaySend(p.t) && i < |Cut(p.t.nxt, p.t.rcv, d)|
    ensures SegOk(p.(t := Sent(p.t, d), sent := p.sent + d), y, Cut(p.t.nxt, p.t.rcv, d)[i])
  {
    CutIsData(p.(t := Sent(p.t, d), sent := p.sent + d), y, |p.sent|, p.t.rcv, Reached(p), d, i);
  }

  lemma SendKeeps(n: Conn, x: Side, data: Bytes, ok: nat)
    requires Inv(n) && Enabled(n, Send(x, data, ok))
    ensures Inv(Next(n, Send(x, data, ok)))
  {
    var p, y, d := At(n, x), At(n, Other(x)), Prefix(data, ok);
    var q := p.(t := Sent(p.t, d), sent := p.sent + d);
    SendGrows(p, y, d);
    var segs := Cut(p.t.nxt, p.t.rcv, d);
    forall i | 0 <= i < |segs| ensures SegOk(q, y, segs[i]) {
      SentOk(p, y, d, i);
    }
    SideKeeps(n, x, q, segs);
  }

  /** Neither side tells where the boundary is between what has been read and what waits. */
  lemma SameView(p: Peer, q: Peer, y: Peer)
    requires Pair(p, y) && p.started && Got(q) == Got(p)
    requires q == p.(t := p.t.(rx := q.t.rx), read := q.read)
    ensures Pair(q, y) && Grows(p, q)
  {
    assert Forgotten(q) == Forgotten(p) && FinOf(q) == FinOf(p) && FinGot(q) == FinGot(p);
    assert SendOk(q) && KeptUntilGot(q, y);
    assert y.started ==> RecvOk(y, q) && KeptUntilGot(y, q);
  }

  lemma ReadPair(p: Peer, y: Peer, k: nat)
    requires Pair(p, y) && p.started && k <= |p.t.rx|
    ensures var q := p.(t := p.t.(rx := p.t.rx[k..]), read := p.read + p.t.rx[..k]); Pair(q, y) && Grows(p, q)
  {
    var q := p.(t := p.t.(rx := p.t.rx[k..]), read := p.read + p.t.rx[..k]);
    assert p.t.rx == p.t.rx[..k] + p.t.rx[k..];
    SameView(p, q, y);
  }

  lemma RecvKeeps(n: Conn, x: Side, room: nat)
    requires Inv(n) && Enabled(n, Recv(x, room))
    ensures Inv(Next(n, Recv(x, room)))
  {
    var p := At(n, x);
    var k := Min(room, |p.t.rx|);
    ReadPair(p, At(n, Other(x)), k);
    SideKeeps(n, x, p.(t := p.t.(rx := p.t.rx[k..]), read := p.read + p.t.rx[..k]), []);
    assert Packets(x, []) == {};
  }

  lemma FinGrows(p: Peer, y: Peer)
    requires Pair(p, y) && Open(p) && MaySend(p.t)
    ensures var q := p.(t := Finishing(p.t)); Stream(q, y) && Stream(y, q) && Grows(p, q)
  {
    AddPlace(p.iss + 1, |p.sent|, 1);
    var q := p.(t := Finishing(p.t));
    assert Got(q) == Got(p) && Forgotten(q) == Forgotten(p) && FinGot(q) == FinGot(p);
  }

  lemma FinSegmentOk(p: Peer, y: Peer)
    requires Pair(p, y) && Open(p) && MaySend(p.t)
    ensures SegOk(p.(t := Finishing(p.t)), y, FinSegment(p.t))
  {
    AckOfNow(p, y, FinSegment(p.t));
    assert AckAt(p.(t := Finishing(p.t)), y, FinSegment(p.t), Reached(p));
  }

  lemma CloseKeeps(n: Conn, x: Side, tx: bool)
    requires Inv(n) && Enabled(n, Close(x, tx))
    ensures Inv(Next(n, Close(x, tx)))
  {
    var p, y := At(n, x), At(n, Other(x));
    if MaySend(p.t) {
      FinGrows(p, y);
      FinSegmentOk(p, y);
      SideKeeps(n, x, p.(t := Finishing(p.t)), If(tx, FinSegment(p.t)));
    } else {
      DeadKeeps(n, x, tx);
    }
  }

  lemma ResentOk(p: Peer, y: Peer, i: nat)
    requires Pair(p, y) && p.started && i < |Resent(p.t)|
    ensures SegOk(p, y, Resent(p.t)[i])
  {
    if p.t.state == SynSent {
    } else if p.t.state == SynRcvd {
      AckOfNow(p, y, SynAgain(p.t));
    } else {
      var w := Window(p.t);
      assert w == p.sent[Forgotten(p)..Forgotten(p) + |w|];
      CutIsData(p, y, Forgotten(p), p.t.rcv, Reached(p), w, i);
    }
  }

  lemma TickKeeps(n: Conn, x: Side, ok: nat)
    requires Inv(n) && Enabled(n, Tick(x, ok))
    ensures Inv(Next(n, Tick(x, ok)))
  {
    var p, y := At(n, x), At(n, Other(x));
    var segs := First(Resent(p.t), ok);
    forall i | 0 <= i < |segs| ensures SegOk(p, y, segs[i]) {
      ResentOk(p, y, i);
    }
    PutKeeps(n, x, segs);
  }

  /** Every event keeps the invariant: whatever the network does, whenever. */
  lemma StepKeeps(n: Conn, e: Event)
    requires Inv(n) && Enabled(n, e)
    ensures Inv(Next(n, e))
  {
    match e
    case Connect(iss, tx) => ConnectKeeps(n, iss, tx);
    case Deliver(x, seg, iss, tx) => DeliverKeeps(n, x, seg, iss, tx);
    case Send(x, data, ok) => SendKeeps(n, x, data, ok);
    case Recv(x, room) => RecvKeeps(n, x, room);
    case Close(x, tx) => CloseKeeps(n, x, tx);
    case Tick(x, ok) => TickKeeps(n, x, ok);
    case GiveUp(x, tx) => DeadKeeps(n, x, tx);
  }
}
