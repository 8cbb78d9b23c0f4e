/** What the two applications see, over every run of a connection. */
module TcpStream {
  import opened Wrappers
  import opened TcpSegment
  import opened TcpConn
  import opened TcpKeeps

  /** `ns[i]` is the connection after the first `i` events. */
  predicate Steps(ns: seq<Conn>, es: seq<Event>) {
    |ns| == |es| + 1
    && forall i {:trigger es[i]} :: 0 <= i < |es| ==> Enabled(ns[i], es[i]) && ns[i + 1] == Next(ns[i], es[i])
  }

  predicate IsRun(ns: seq<Conn>, es: seq<Event>) {
    Steps(ns, es) && Begins(ns[0])
  }

  lemma {:induction false} StepsKeep(ns: seq<Conn>, es: seq<Event>, i: nat)
    requires Steps(ns, es) && Inv(ns[0]) && i <= |es|
    ensures Inv(ns[i])
  {
    if i > 0 {
      StepsKeep(ns, es, i - 1);
      assert Enabled(ns[i - 1], es[i - 1]);
      StepKeeps(ns[i - 1], es[i - 1]);
    }
  }

  lemma RunKeeps(ns: seq<Conn>, es: seq<Event>, i: nat)
    requires IsRun(ns, es) && i <= |es|
    ensures Inv(ns[i])
  {
    StepsKeep(ns, es, i);
  }

  /** Stream integrity: what one application has read is a prefix of what the other has sent, no
      byte lost, repeated, altered or out of order. */
  lemma StreamIntegrity(ns: seq<Conn>, es: seq<Event>, i: nat, x: Side)
    requires IsRun(ns, es) && i <= |es| && At(ns[i], x).started && At(ns[i], Other(x)).started
    ensures At(ns[i], x).read <= At(ns[i], Other(x)).sent
  {
    RunKeeps(ns, es, i);
    var p := At(ns[i], x);
    assert p.read <= Got(p);
  }

  /** End of stream is reported only when the other side has closed and everything it ever sent has
      been read. */
  lemma EofIsTheEnd(ns: seq<Conn>, es: seq<Event>, i: nat, x: Side, room: nat)
    requires IsRun(ns, es) && i <= |es| && RecvAnswer(At(ns[i], x), room) == Eof
    ensures var y := At(ns[i], Other(x));
            y.started && y.t.closing && At(ns[i], x).read == y.sent
  {
    RunKeeps(ns, es, i);
    var p := At(ns[i], x);
    assert Got(p) == p.read;
  }

  /** ... and stays true: a side that has closed sends no more. */
  lemma ClosedSendsNoMore(n: Conn, e: Event, x: Side)
    requires Inv(n) && Enabled(n, e) && At(n, x).started && At(n, x).t.closing
    ensures At(Next(n, e), x).sent == At(n, x).sent && At(Next(n, e), x).t == At(n, x).t
  {
  }

  /** Nothing is forgotten before it has arrived: every byte sent is either among the bytes the
      other side holds or still kept for retransmission. */
  lemma NothingForgotten(ns: seq<Conn>, es: seq<Event>, i: nat, x: Side)
    requires IsRun(ns, es) && i <= |es| && At(ns[i], x).started && At(ns[i], Other(x)).started
    requires At(ns[i], Other(x)).t.state != SynSent
    ensures var p, y := At(ns[i], x), At(ns[i], Other(x));
            var u := |p.sent| - |p.t.unacked|;
            0 <= u <= |Got(y)| && p.sent == Got(y)[..u] + p.t.unacked
  {
    RunKeeps(ns, es, i);
    var p, y := At(ns[i], x), At(ns[i], Other(x));
    var u := |p.sent| - |p.t.unacked|;
    assert p.sent == p.sent[..u] + p.sent[u..];
    assert Got(y)[..u] == p.sent[..u];
  }

  // ---- one round trip makes progress ----

  /** An acknowledgement that arrives brings the sender level with the receiver. */
  lemma AckCatchesUp(x: Peer, y: Peer)
    requires Pair(x, y) && Open(x) && !Handshake(x.t) && y.started && y.t.state == Est
    ensures var (t, _) := ChildRx(x.t, AckNow(y.t)); Forgotten(x.(t := t)) == |Got(y)|
  {
    var s := AckNow(y.t);
    AckOfNow(y, x, s);
    Ahead(x.iss + 1, |Got(y)|, Forgotten(x));
    Ahead(x.iss + 1, |x.sent|, Forgotten(x));
    AckForgets(x, y, s, |Got(y)|);
  }

  /** What one side acknowledges, the other has sent and not yet forgotten. */
  lemma RcvInWindow(x: Peer, y: Peer)
    requires Pair(x, y) && x.started && !Handshake(x.t) && Open(y) && y.t.state == Est
    ensures AckInWindow(y.t, x.t.rcv)
  {
    Ahead(y.iss + 1, |Got(x)|, Forgotten(y));
    Ahead(y.iss + 1, |y.sent|, Forgotten(y));
  }

  /** Once level, the first segment of a retransmission that arrives is taken. */
  lemma RetransmissionIsTaken(x: Peer, y: Peer)
    requires Pair(x, y) && x.started && !Handshake(x.t) && Forgotten(x) == |Got(y)| && x.t.unacked != []
    requires Open(y) && y.t.state == Est && |y.t.rx| < RX_CAP
    ensures Resent(x.t) != []
    ensures var (t, _) := ChildRx(y.t, Resent(x.t)[0]);
            Got(y) < Got(y.(t := t)) <= x.sent
  {
    RcvInWindow(x, y);
  }

  // ---- closing ----

  /** A closed side hears nothing: its block never changes again, and whatever the other side says
      is answered with a reset. */
  lemma ClosingHearsNothing(n: Conn, x: Side, seg: Segment, iss: u32)
    requires Inv(n) && At(n, x).started && At(n, x).t.closing && !seg.flags.rst
    ensures var n' := Delivered(n, x, seg, iss, true);
            At(n', x) == At(n, x) && Packet(x, RESET) in n'.net
  {
    assert Packets(x, If(true, RESET)) == {Packet(x, RESET)} by {
      assert If(true, RESET)[0] == RESET;
    }
  }

  /** So the second half of the close never happens: no connection reaches FIN_WAIT_2, CLOSING or
      CLOSED by an exchange of segments. */
  lemma CloseNeverCompletes(ns: seq<Conn>, es: seq<Event>, i: nat, x: Side)
    requires IsRun(ns, es) && i <= |es| && At(ns[i], x).started
    ensures var st := At(ns[i], x).t.state; st != FinW2 && st != Closing && st != TState.Closed
  {
    RunKeeps(ns, es, i);
  }

  // ---- a close that loses data already acknowledged ----

  const HELLO: Bytes := [7]
  const IDLE := Peer(false, false, 0, Connecting(0), [], [])

  const CLIENT_UP := Tcb(Est, 0, 1, 1, 1, false, false, [], [])
  const SERVER_UP := Tcb(Est, 0, 1, 1, 1, false, false, [], [])
  const DATA_SEG := Segment(1, 1, ACK, HELLO)

  lemma HandshakeRun() returns (ns: seq<Conn>, es: seq<Event>)
    ensures IsRun(ns, es)
    ensures var n := ns[|es|];
            n.c == Peer(true, true, 0, CLIENT_UP, [], []) && n.s == Peer(true, true, 0, SERVER_UP, [], [])
  {
    ns, es := [Conn(IDLE, IDLE, {})], [];
    ns, es := Extend(ns, es, Connect(0, true));
    InNet(Client, [Segment(0, 0, SYN, [])]);
    ns, es := Extend(ns, es, Deliver(Server, Segment(0, 0, SYN, []), 0, true));
    InNet(Server, [Segment(0, 1, SYN_ACK, [])]);
    ns, es := Extend(ns, es, Deliver(Client, Segment(0, 1, SYN_ACK, []), 0, true));
    InNet(Client, [Segment(1, 1, ACK, [])]);
    ns, es := Extend(ns, es, Deliver(Server, Segment(1, 1, ACK, []), 0, true));
  }

  lemma InNet(x: Side, segs: seq<Segment>)
    requires |segs| == 1
    ensures Packet(x, segs[0]) in Packets(x, segs)
  {
  }

  lemma Extend(ns: seq<Conn>, es: seq<Event>, e: Event) returns (ns': seq<Conn>, es': seq<Event>)
    requires IsRun(ns, es) && Enabled(ns[|es|], e)
    ensures IsRun(ns', es') && es' == es + [e] && ns' == ns + [Next(ns[|es|], e)]
  {
    ns', es' := ns + [Next(ns[|es|], e)], es + [e];
    forall i {:trigger es'[i]} | 0 <= i < |es'| ensures Enabled(ns'[i], es'[i]) && ns'[i + 1] == Next(ns'[i], es'[i]) {
      if i < |es| {
        assert Enabled(ns[i], es[i]);
      }
    }
  }

  lemma HelloCut()
    ensures Prefix(HELLO, 1) == HELLO && Cut(1, 1, HELLO) == [DATA_SEG]
  {
    assert HELLO[..1] == HELLO && HELLO[1..] == [];
    assert Cut(Add(1, 1), 1, HELLO[1..]) == [];
  }

  /** The client sends a byte, the server takes and acknowledges it, the client closes; the
      acknowledgement then provokes a reset, and the server's application never reads the byte.
      `TcpClose.CloseLosesExactly` says when a close can do this. */
  lemma CloseLosesAcknowledgedData() returns (ns: seq<Conn>, es: seq<Event>)
    ensures IsRun(ns, es)
    ensures var n := ns[|es|];
            n.c.sent == HELLO && n.s.t.rx == HELLO && n.s.read == [] && RecvAnswer(n.s, 100) == Dead
  {
    ns, es := HandshakeRun();
    HelloCut();
    ns, es := Extend(ns, es, Send(Client, HELLO, 1));
    InNet(Client, [DATA_SEG]);
    ns, es := Extend(ns, es, Deliver(Server, DATA_SEG, 0, true));
    InNet(Server, [Segment(1, 2, ACK, [])]);
    ns, es := Extend(ns, es, Close(Client, true));
    ns, es := Extend(ns, es, Deliver(Client, Segment(1, 2, ACK, []), 0, true));
    InNet(Client, [RESET]);
    ns, es := Extend(ns, es, Deliver(Server, RESET, 0, true));
  }
}
