/** Segments and one connection's control block, with 32-bit sequence arithmetic as the code does
    it: every sum and difference wraps. */
module TcpSegment {
  import opened Wrappers

  newtype byte = x: int | 0 <= x < 256
  type Bytes = seq<byte>

  const M: nat := 0x1_0000_0000

  type u32 = x: nat | x < M

  function W(x: int): u32 {
    x % M
  }

  /** `a.wrapping_sub(b)` */
  function Sub(a: u32, b: u32): u32 {
    W(a - b)
  }

  function Add(a: u32, k: nat): u32 {
    W(a + k)
  }

  const MSS: nat := 1460
  const RX_CAP: nat := 32768
  const UNACK_CAP: nat := 65536

  datatype Flags = Flags(fin: bool, syn: bool, rst: bool, ack: bool)

  const FIN_ACK := Flags(true, false, false, true)
  const SYN := Flags(false, true, false, false)
  const SYN_ACK := Flags(false, true, false, true)
  const RST_ACK := Flags(false, false, true, true)
  const ACK := Flags(false, false, false, true)

  datatype Segment = Segment(num: u32, ack: u32, flags: Flags, data: Bytes)

  datatype TState = Closed | SynRcvd | SynSent | Est | FinW1 | FinW2 | Closing | CloseWait | LastAck

  datatype Tcb = Tcb(state: TState, iss: u32, una: u32, nxt: u32, rcv: u32, finSent: bool, closing: bool,
                     unacked: Bytes, rx: Bytes)

  function Min(a: nat, b: nat): nat {
    if a < b then a else b
  }

  // ---- opening ----

  /** `tcp_connect` */
  function Connecting(iss: u32): Tcb {
    Tcb(SynSent, iss, iss, Add(iss, 1), 0, false, false, [], [])
  }

  /** `listener_syn` */
  function Accepting(iss: u32, num: u32): Tcb {
    Tcb(SynRcvd, iss, iss, Add(iss, 1), Add(num, 1), false, false, [], [])
  }

  // ---- receiving ----

  /** The acknowledgement is one of a byte sent and not yet acknowledged, or of the last one that
      was. */
  predicate AckInWindow(t: Tcb, ack: u32) {
    Sub(ack, t.una) <= Sub(t.nxt, t.una)
  }

  function AckedState(t: Tcb, ack: u32): TState {
    match t.state
    case SynRcvd => Est
    case FinW1 => if t.finSent && ack == t.nxt then FinW2 else FinW1
    case Closing => if ack == t.nxt then Closed else Closing
    case LastAck => if ack == t.nxt then Closed else LastAck
    case s => s
  }

  function TakeAck(t: Tcb, ack: u32): Tcb {
    if ack == t.una then t
    else
      var adv := Min(Sub(ack, t.una), |t.unacked|);
      t.(unacked := t.unacked[adv..], una := ack, state := AckedState(t, ack))
  }

  function AckNow(t: Tcb): Segment {
    Segment(t.nxt, t.rcv, ACK, [])
  }

  /** Data: the part that fits, if it is the next byte expected. */
  function TakeData(t: Tcb, s: Segment): Tcb {
    if s.data != [] && s.num == t.rcv then
      var k := Min(if |t.rx| <= RX_CAP then RX_CAP - |t.rx| else 0, |s.data|);
      t.(rx := t.rx + s.data[..k], rcv := Add(t.rcv, k))
    else t
  }

  function TakeFin(t: Tcb, s: Segment): Tcb {
    if s.flags.fin && Add(s.num, |s.data|) == t.rcv then
      t.(rcv := Add(t.rcv, 1),
         state := if t.state == Est then CloseWait else if t.state == FinW2 then Closed else t.state)
    else t
  }

  /** After the acknowledgement, by state. */
  function TakeBody(t: Tcb, s: Segment): Tcb {
    match t.state
    case SynSent =>
      if s.flags.syn && s.flags.ack && s.ack == t.nxt then t.(rcv := Add(s.num, 1), state := Est) else t
    case Est => TakeFin(TakeData(t, s), s)
    case FinW2 => TakeFin(TakeData(t, s), s)
    case CloseWait => TakeFin(TakeData(t, s), s)
    case FinW1 =>
      if s.flags.fin && Add(s.num, |s.data|) == t.rcv then t.(rcv := Add(t.rcv, 1), state := Closing) else t
    case _ => t
  }

  /** What `child_rx` answers; the numbers are those of the block it leaves. */
  function Reply(t: Tcb, s: Segment): Option<Segment> {
    var t' := TakeBody(t, s);
    match t.state
    case SynRcvd => if s.flags.syn then Some(Segment(t.iss, t.rcv, SYN_ACK, [])) else None
    case SynSent => if t'.state == Est then Some(AckNow(t')) else None
    case Est => if s.data != [] || s.flags.fin then Some(AckNow(t')) else None
    case FinW2 => if s.data != [] || s.flags.fin then Some(AckNow(t')) else None
    case CloseWait => if s.data != [] || s.flags.fin then Some(AckNow(t')) else None
    case FinW1 => if t'.state == Closing then Some(AckNow(t')) else None
    case _ => None
  }

  /** `child_rx`: a segment that acknowledges anything else is dropped whole. */
  function ChildRx(t: Tcb, s: Segment): (Tcb, Option<Segment>) {
    if s.flags.ack && !AckInWindow(t, s.ack) then (t, None)
    else
      var t1 := if s.flags.ack then TakeAck(t, s.ack) else t;
      (TakeBody(t1, s), Reply(t1, s))
  }

  // ---- sending ----

  predicate MaySend(t: Tcb) {
    t.state == Est || t.state == CloseWait
  }

  /** The segments `tcp_send` cuts `data` into, from sequence number `num` on. */
  function Cut(num: u32, ack: u32, data: Bytes): seq<Segment>
    decreases |data|
  {
    if data == [] then []
    else
      var k := Min(MSS, |data|);
      [Segment(num, ack, ACK, data[..k])] + Cut(Add(num, k), ack, data[k..])
  }

  function Sent(t: Tcb, data: Bytes): Tcb {
    t.(unacked := t.unacked + data, nxt := Add(t.nxt, |data|))
  }

  /** `tcp_close` on a connection that can still send. */
  function Finishing(t: Tcb): Tcb {
    t.(finSent := true, nxt := Add(t.nxt, 1), state := if t.state == Est then FinW1 else LastAck, closing := true)
  }

  function FinSegment(t: Tcb): Segment {
    Segment(t.nxt, t.rcv, FIN_ACK, [])
  }

  const RESET := Segment(0, 0, RST_ACK, [])

  function SynAgain(t: Tcb): Segment {
    Segment(t.iss, t.rcv, if t.state == SynSent then SYN else SYN_ACK, [])
  }

  /** What one tick resends: at most four segments' worth from the oldest unacknowledged byte. */
  function Window(t: Tcb): Bytes {
    t.unacked[..Min(|t.unacked|, 4 * MSS)]
  }
}
