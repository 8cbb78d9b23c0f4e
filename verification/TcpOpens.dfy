/** The three segments that open a connection, each exactly, over every run. */
module TcpOpens {
  import opened Wrappers
  import opened TcpSegment
  import opened TcpConn
  import opened TcpKeeps
  import opened TcpStream
  import opened TcpClose
  import opened TcpArrives

  /** A SYN that reaches a server not yet opened opens it half, and is answered with the server's own. */
  lemma SynIsAnswered(ns: seq<Conn>, es: seq<Event>, i: nat)
    requires IsRun(ns, es) && i < |es| && es[i].Deliver? && es[i].x == Server
    requires es[i].seg.flags.syn && !es[i].seg.flags.rst && !ns[i].s.started
    ensures var s, c := ns[i + 1].s, ns[i].c;
            && ns[i + 1].c == c && Open(s) && s.t.state == SynRcvd && s.iss == es[i].iss && s.sent == s.read == []
            && s.t.rcv == Add(c.iss, 1)
            && ns[i + 1].net == ns[i].net
                 + if es[i].tx then {Packet(Server, Segment(s.iss, Add(c.iss, 1), SYN_ACK, []))} else {}
  {
    RunKeeps(ns, es, i);
    assert Enabled(ns[i], es[i]);
    assert SegOk(ns[i].c, ns[i].s, es[i].seg);
    IfIs(Server, es[i].tx, Segment(es[i].iss, Add(ns[i].c.iss, 1), SYN_ACK, []));
  }

  /** What a side that has sent nothing is told has arrived. */
  lemma NothingAcked(x: Peer, y: Peer, s: Segment)
    requires Pair(x, y) && Open(x) && Handshake(x.t) && y.started && SegOk(y, x, s) && !s.flags.rst && s.flags.ack
    ensures s.ack == x.t.nxt && AckInWindow(x.t, s.ack)
  {
    var g: nat :| AckAt(y, x, s, g);
    assert Got(y) == [] && g == 0;
    Ahead(x.iss, 1, 0);
    Ahead(x.iss, 1, 1);
  }

  /** The server's SYN and acknowledgement always establish a client that waits for them. */
  lemma SynAckOpens(ns: seq<Conn>, es: seq<Event>, i: nat)
    requires IsRun(ns, es) && i < |es| && es[i].Deliver? && es[i].x == Client
    requires es[i].seg.flags.syn && es[i].seg.flags.ack && !es[i].seg.flags.rst
    requires Open(ns[i].c) && ns[i].c.t.state == SynSent
    ensures var c, s := ns[i + 1].c, ns[i].s;
            && ns[i + 1].s == s && Open(c) && c.t.state == Est && c.t.rcv == Add(s.iss, 1) && c.t.una == c.t.nxt
            && ns[i + 1].net == ns[i].net
                 + if es[i].tx then {Packet(Client, Segment(Add(c.iss, 1), Add(s.iss, 1), ACK, []))} else {}
  {
    RunKeeps(ns, es, i);
    var n, seg := ns[i], es[i].seg;
    assert Enabled(n, es[i]) && ns[i + 1] == Next(n, es[i]);
    assert SegOk(n.s, n.c, seg);
    NothingAcked(n.c, n.s, seg);
    IfIs(Client, es[i].tx, Segment(Add(n.c.iss, 1), Add(n.s.iss, 1), ACK, []));
  }

  /** Any acknowledgement of the client's establishes the server that waits for it. */
  lemma AckOpens(ns: seq<Conn>, es: seq<Event>, i: nat)
    requires IsRun(ns, es) && i < |es| && es[i].Deliver? && es[i].x == Server
    requires es[i].seg.flags.ack && !es[i].seg.flags.rst && Open(ns[i].s) && ns[i].s.t.state == SynRcvd
    ensures Open(ns[i + 1].s) && MaySend(ns[i + 1].s.t) && ns[i + 1].s.t.una == ns[i + 1].s.t.nxt
    ensures !es[i].seg.flags.fin ==> ns[i + 1].s.t.state == Est
  {
    RunKeeps(ns, es, i);
    var n, seg := ns[i], es[i].seg;
    assert Enabled(n, es[i]) && ns[i + 1] == Next(n, es[i]);
    assert SegOk(n.c, n.s, seg);
    NothingAcked(n.s, n.c, seg);
    assert n.s.t.una == n.s.t.iss && n.s.t.una != seg.ack;
  }
}
