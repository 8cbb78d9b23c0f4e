/** One connection between two stacks running this code, over a network that may lose, repeat,
    delay and reorder whatever was ever put on it.  `sent` and `read` are what the applications have
    seen: the bytes `tcp_send` accepted and the bytes `tcp_recv` returned. */
module TcpConn {
  import opened Wrappers
  import opened TcpSegment

  datatype Side = Client | Server

  function Other(x: Side): Side {
    if x == Client then Server else Client
  }

  /** `alive` is false once the slot has been given up; nothing of it changes afterwards. */
  datatype Peer = Peer(started: bool, alive: bool, iss: u32, t: Tcb, sent: Bytes, read: Bytes)

  datatype Packet = Packet(from: Side, seg: Segment)

  datatype Conn = Conn(c: Peer, s: Peer, net: set<Packet>)

  function At(n: Conn, x: Side): Peer {
    if x == Client then n.c else n.s
  }

  function With(n: Conn, x: Side, p: Peer): Conn {
    if x == Client then n.(c := p) else n.(s := p)
  }

  function Packets(x: Side, segs: seq<Segment>): set<Packet> {
    set i | 0 <= i < |segs| :: Packet(x, segs[i])
  }

  function Put(n: Conn, x: Side, segs: seq<Segment>): Conn {
    n.(net := n.net + Packets(x, segs))
  }

  /** Nothing at all, or the segment, as the link decides. */
  function If(tx: bool, s: Segment): seq<Segment> {
    if tx then [s] else []
  }

  /** Bytes received in order so far, read or not. */
  function Got(p: Peer): Bytes {
    p.read + p.t.rx
  }

  /** The slot that `tcp_rx` looks up: in use and not closing. */
  predicate Open(p: Peer) {
    p.started && p.alive && !p.t.closing
  }

  const LIMIT: nat := 0x8000_0000

  datatype Event =
    | Connect(iss: u32, tx: bool)
    | Deliver(x: Side, seg: Segment, iss: u32, tx: bool)
    | Send(x: Side, data: Bytes, ok: nat)      // the link takes the first `ok` segments
    | Recv(x: Side, room: nat)
    | Close(x: Side, tx: bool)
    | Tick(x: Side, ok: nat)                   // a retransmission, cut off by the link after `ok`
    | GiveUp(x: Side, tx: bool)                // retries or time exhausted, or the slot reclaimed

  function Prefix(data: Bytes, ok: nat): Bytes {
    data[..Min(|data|, ok * MSS)]
  }

  /** Fewer than 2^31 sequence numbers on each side, and one connection per pair of addresses. */
  predicate Enabled(n: Conn, e: Event) {
    match e
    case Connect(_, _) => !n.c.started
    case Deliver(x, seg, _, _) => Packet(Other(x), seg) in n.net
    case Send(x, data, ok) =>
      Open(At(n, x)) && MaySend(At(n, x).t) && |At(n, x).t.unacked| + |data| <= UNACK_CAP
      && |At(n, x).sent| + |data| + 2 < LIMIT
    case Recv(x, _) => Open(At(n, x))
    case Close(x, _) => Open(At(n, x))
    case Tick(x, _) => At(n, x).started && At(n, x).alive
    case GiveUp(x, _) => At(n, x).started && At(n, x).alive
  }

  /** `tcp_rx` for one pair of addresses.  The lookup skips a closing slot, so a SYN that reaches a
      closing or given-up server would go to the listener and open a new connection there; that is
      a second connection of the same pair, outside this model, and a reset stands in for it. */
  function Delivered(n: Conn, x: Side, seg: Segment, iss: u32, tx: bool): Conn {
    var p := At(n, x);
    if seg.flags.rst then
      if Open(p) then With(n, x, p.(alive := false)) else n
    else if Open(p) then
      var (t, reply) := ChildRx(p.t, seg);
      Put(With(n, x, p.(t := t)), x, if reply.Some? then If(tx, reply.value) else [])
    else if !p.started && x == Server && seg.flags.syn then
      var t := Accepting(iss, seg.num);
      Put(With(n, x, Peer(true, true, iss, t, [], [])), x, If(tx, Segment(iss, t.rcv, SYN_ACK, [])))
    else Put(n, x, If(tx, RESET))
  }

  function Resent(t: Tcb): seq<Segment> {
    if t.state == SynSent || t.state == SynRcvd then [SynAgain(t)] else Cut(t.una, t.rcv, Window(t))
  }

  function First(segs: seq<Segment>, k: nat): seq<Segment> {
    segs[..Min(|segs|, k)]
  }

  function Next(n: Conn, e: Event): Conn {
    match e
    case Connect(iss, tx) =>
      if tx then Put(With(n, Client, Peer(true, true, iss, Connecting(iss), [], [])), Client,
        [Segment(iss, 0, SYN, [])])
      else n
    case Deliver(x, seg, iss, tx) => Delivered(n, x, seg, iss, tx)
    case Send(x, data, ok) =>
      var p := At(n, x);
      var d := Prefix(data, ok);
      Put(With(n, x, p.(t := Sent(p.t, d), sent := p.sent + d)), x, Cut(p.t.nxt, p.t.rcv, d))
    case Recv(x, room) =>
      var p := At(n, x);
      var k := Min(room, |p.t.rx|);
      With(n, x, p.(t := p.t.(rx := p.t.rx[k..]), read := p.read + p.t.rx[..k]))
    case Close(x, tx) =>
      var p := At(n, x);
      if MaySend(p.t) then Put(With(n, x, p.(t := Finishing(p.t))), x, If(tx, FinSegment(p.t)))
      else Put(With(n, x, p.(alive := false)), x, If(tx, RESET))
    case Tick(x, ok) => Put(n, x, First(Resent(At(n, x).t), ok))
    case GiveUp(x, tx) => Put(With(n, x, At(n, x).(alive := false)), x, If(tx, RESET))
  }

  /** What `tcp_recv` answers: data, end of stream, a dead connection, or try again. */
  datatype Answer = Data(d: Bytes) | Eof | Dead | Again

  function RecvAnswer(p: Peer, room: nat): Answer {
    if !Open(p) then Dead
    else if p.t.rx != [] then Data(p.t.rx[..Min(room, |p.t.rx|)])
    else if p.t.state == CloseWait then Eof
    else if p.t.state == Closed then Dead
    else Again
  }

  // ---- the invariant ----

  /** Bytes no longer kept for retransmission. */
  function Forgotten(p: Peer): int {
    |p.sent| - |p.t.unacked|
  }

  function FinOf(p: Peer): nat {
    if p.t.finSent then 1 else 0
  }

  predicate FinGot(p: Peer) {
    p.t.state == CloseWait || p.t.state == LastAck
  }

  predicate Handshake(t: Tcb) {
    t.state == SynSent || t.state == SynRcvd
  }

  /** The sending half. */
  predicate SendOk(x: Peer) {
    && x.t.iss == x.iss && |x.sent| + 2 < LIMIT
    && |x.t.unacked| <= |x.sent| && x.t.unacked == x.sent[Forgotten(x)..]
    && x.t.nxt == W(x.iss + 1 + |x.sent| + FinOf(x))
    && (if Handshake(x.t) then
          x.sent == [] && (x.t.una == x.iss || (x.t.state == SynSent && x.t.una == Add(x.iss, 1)))
        else x.t.una == W(x.iss + 1 + Forgotten(x)))
    && x.t.finSent == x.t.closing
    && (if x.t.closing then x.t.state == FinW1 || x.t.state == LastAck
        else Handshake(x.t) || x.t.state == Est || x.t.state == CloseWait)
  }

  /** Synchronised with the other side's numbers. */
  predicate Synced(y: Peer) {
    y.started && y.t.state != SynSent
  }

  /** The receiving half of `y` against the sender `x`. */
  predicate RecvOk(y: Peer, x: Peer) {
    if y.t.state == SynSent then Got(y) == []
    else
      && x.started && Got(y) <= x.sent
      && y.t.rcv == W(x.iss + 1 + |Got(y)| + if FinGot(y) then 1 else 0)
      && (FinGot(y) ==> Got(y) == x.sent && x.t.finSent)
      && (y.t.state == SynRcvd ==> Got(y) == [])
  }

  /** Only what the other side has is forgotten. */
  predicate KeptUntilGot(x: Peer, y: Peer) {
    if Synced(y) then Forgotten(x) <= |Got(y)| else Forgotten(x) == 0
  }

  predicate DataAt(x: Peer, s: Segment, o: nat) {
    o + |s.data| <= |x.sent| && s.num == W(x.iss + 1 + o) && s.data == x.sent[o..o + |s.data|]
  }

  /** How far `x` may have acknowledged. */
  function Reached(x: Peer): nat {
    |Got(x)| + if FinGot(x) then 1 else 0
  }

  predicate AckAt(x: Peer, y: Peer, s: Segment, g: nat) {
    g <= Reached(x) && s.ack == W(y.iss + 1 + g)
  }

  /** A segment `x` has put on the network. */
  ghost predicate SegOk(x: Peer, y: Peer, s: Segment) {
    s.flags.rst ||
    (&& x.started
     && (s.flags.syn ==> s.num == x.iss && s.data == [] && !s.flags.fin)
     && (s.flags.fin ==> s.data == [] && x.t.finSent && s.num == W(x.iss + 1 + |x.sent|))
     && (s.data != [] ==> exists o: nat :: DataAt(x, s, o))
     && (s.flags.ack ==> Synced(x) && exists g: nat :: AckAt(x, y, s, g)))
  }

  /** Everything about the stream from `x` to `y`. */
  ghost predicate Stream(x: Peer, y: Peer) {
    (x.started ==> SendOk(x) && KeptUntilGot(x, y)) && (y.started ==> RecvOk(y, x))
  }

  ghost predicate NetOk(n: Conn) {
    forall k :: k in n.net ==> SegOk(At(n, k.from), At(n, Other(k.from)), k.seg)
  }

  ghost predicate Inv(n: Conn) {
    Stream(n.c, n.s) && Stream(n.s, n.c) && NetOk(n) && (n.s.started ==> n.c.started)
  }

  predicate Begins(n: Conn) {
    n.net == {} && !n.c.started && !n.s.started
  }
}
