/** `tcp.rs` as it is written: a socket slot whose control block changes in place, segment by
    segment.  Each method is tied to the functions the stream theorems are about.  `wire` is what
    the link has taken; a refused transmission puts nothing on it. */
module TcpSocket {
  import opened Wrappers
  import opened TcpSegment
  import opened TcpConn

  lemma AddAdd(num: u32, a: nat, b: nat)
    ensures Add(Add(num, a), b) == Add(num, a + b)
  {
  }

  /** Cutting what starts with a full segment. */
  lemma CutFull(num: u32, ack: u32, head: Bytes, rest: Bytes)
    requires |head| == MSS
    ensures Cut(num, ack, head + rest) == [Segment(num, ack, ACK, head)] + Cut(Add(num, MSS), ack, rest)
  {
    var d := head + rest;
    assert d[..MSS] == head && d[MSS..] == rest;
  }

  lemma CutShort(num: u32, ack: u32, d: Bytes)
    requires 0 < |d| <= MSS
    ensures Cut(num, ack, d) == [Segment(num, ack, ACK, d)]
  {
    assert d[..|d|] == d && d[|d|..] == [];
  }

  lemma OneFewer(n: nat)
    requires n % MSS == 0 && n > 0
    ensures n >= MSS && (n - MSS) % MSS == 0
  {
  }

  /** Cutting `done` full segments' worth and one more. */
  lemma {:induction false} CutSnoc(num: u32, ack: u32, done: Bytes, next: Bytes)
    requires |done| % MSS == 0 && 0 < |next| <= MSS
    ensures Cut(num, ack, done + next) == Cut(num, ack, done) + [Segment(Add(num, |done|), ack, ACK, next)]
    decreases |done|
  {
    if done == [] {
      assert done + next == next;
      CutShort(num, ack, next);
    } else {
      OneFewer(|done|);
      var head, rest := done[..MSS], done[MSS..];
      assert done == head + rest && done + next == head + (rest + next);
      CutFull(num, ack, head, rest);
      CutFull(num, ack, head, rest + next);
      CutSnoc(Add(num, MSS), ack, rest, next);
      AddAdd(num, MSS, |rest|);
    }
  }

  /** The link cutting a transmission off after `ok` segments is the transmission of what they
      carry. */
  lemma {:induction false} CutFirst(num: u32, ack: u32, d: Bytes, ok: nat)
    ensures First(Cut(num, ack, d), ok) == Cut(num, ack, Prefix(d, ok))
    decreases |d|
  {
    if d != [] && ok > 0 {
      var k := Min(MSS, |d|);
      CutFirst(Add(num, k), ack, d[k..], ok - 1);
      var p := Prefix(d, ok);
      if |d| <= MSS {
        assert p == d;
        CutShort(num, ack, d);
      } else {
        assert p == d[..MSS] + Prefix(d[MSS..], ok - 1);
        CutFull(num, ack, d[..MSS], Prefix(d[MSS..], ok - 1));
        assert d == d[..MSS] + d[MSS..];
        CutFull(num, ack, d[..MSS], d[MSS..]);
      }
    }
  }

  /** One more segment of a transmission. */
  lemma CutOneMore(first: u32, ack: u32, data: Bytes, done: nat, k: nat)
    requires done % MSS == 0 && 0 < k <= MSS && done + k <= |data|
    ensures Cut(first, ack, data[..done + k])
            == Cut(first, ack, data[..done]) + [Segment(Add(first, done), ack, ACK, data[done..done + k])]
  {
    CutSnoc(first, ack, data[..done], data[done..done + k]);
    assert data[..done] + data[done..done + k] == data[..done + k];
  }

  lemma FullSegments(len: nat, n: nat, done: nat)
    requires done == Min(len, n * MSS) && done < len
    ensures done == n * MSS && done % MSS == 0 && Min(len, done + MSS) == Min(len, (n + 1) * MSS)
  {
    assert n * MSS % MSS == 0;
  }

  class Sock {
    var used: bool
    var closing: bool
    var state: TState
    var iss: u32
    var una: u32
    var nxt: u32
    var rcv: u32
    var finSent: bool
    var unacked: Bytes
    var rx: Bytes
    ghost var wire: seq<Segment>

    function Block(): Tcb
      reads this
    {
      Tcb(state, iss, una, nxt, rcv, finSent, closing, unacked, rx)
    }

    method TxSeg(s: Segment, ok: bool) returns (sent: bool)
      modifies this`wire
      ensures sent == ok && wire == old(wire) + If(ok, s)
    {
      sent := ok;
      if ok {
        wire := wire + [s];
      } else {
        assert wire + [] == wire;
      }
    }

    /** Acknowledgement processing; false drops the segment. */
    method RxAck(ackn: u32) returns (ok: bool)
      modifies this`unacked, this`una, this`state
      ensures ok == AckInWindow(old(Block()), ackn)
      ensures Block() == if ok then TakeAck(old(Block()), ackn) else old(Block())
    {
      var lo, hi := una, nxt;
      ok := Sub(ackn, lo) <= Sub(hi, lo);
      if ok && ackn != lo {
        var adv: nat := Sub(ackn, lo);
        if adv > |unacked| {
          adv := |unacked|;
        }
        unacked := unacked[adv..];
        una := ackn;
        match state {
          case SynRcvd => state := Est;
          case FinW1 =>
            if finSent && ackn == nxt {
              state := FinW2;
            }
          case Closing =>
            if ackn == nxt {
              state := TState.Closed;
            }
          case LastAck =>
            if ackn == nxt {
              state := TState.Closed;
            }
          case _ =>
        }
      }
    }

    method RxStream(s: Segment) returns (reply: Option<Segment>)
      requires state == Est || state == FinW2 || state == CloseWait
      modifies this`rx, this`rcv, this`state
      ensures Block() == TakeBody(old(Block()), s) && reply == Reply(old(Block()), s)
    {
      reply := None;
      if s.data != [] {
        if s.num == rcv {
          var room := if |rx| <= RX_CAP then RX_CAP - |rx| else 0;
          var k := Min(room, |s.data|);
          rx := rx + s.data[..k];
          rcv := Add(rcv, k);
        }
        reply := Some(Segment(nxt, rcv, ACK, []));
      }
      if s.flags.fin {
        if Add(s.num, |s.data|) == rcv {
          rcv := Add(rcv, 1);
          if state == Est {
            state := CloseWait;
          } else if state == FinW2 {
            state := TState.Closed;
          }
        }
        reply := Some(Segment(nxt, rcv, ACK, []));
      }
    }

    /** `child_rx` */
    method ChildRx(s: Segment, tx: bool)
      modifies this`unacked, this`una, this`state, this`rx, this`rcv, this`wire
      ensures Block() == TcpSegment.ChildRx(old(Block()), s).0
      ensures wire == old(wire) +
                match TcpSegment.ChildRx(old(Block()), s).1
                case Some(r) => If(tx, r)
                case None => []
    {
      if s.flags.ack {
        var ok := RxAck(s.ack);
        if !ok {
          assert wire + [] == wire;
          return;
        }
      }
      var reply: Option<Segment> := None;
      if state == SynRcvd {
        if s.flags.syn {
          reply := Some(Segment(iss, rcv, SYN_ACK, []));
        }
      } else if state == SynSent {
        if s.flags.syn && s.flags.ack && s.ack == nxt {
          rcv := Add(s.num, 1);
          state := Est;
          reply := Some(Segment(nxt, rcv, ACK, []));
        }
      } else if state == Est || state == FinW2 || state == CloseWait {
        reply := RxStream(s);
      } else if state == FinW1 {
        if s.flags.fin && Add(s.num, |s.data|) == rcv {
          rcv := Add(rcv, 1);
          state := Closing;
          reply := Some(Segment(nxt, rcv, ACK, []));
        }
      }
      if reply.Some? {
        var sent := TxSeg(reply.value, tx);
      } else {
        assert wire + [] == wire;
      }
    }

    /** `tcp_send`; the link takes the first `ok` segments. */
    method Send(data: Bytes, ok: nat) returns (r: int)
      modifies this`unacked, this`nxt, this`wire
      ensures if state == SynSent then r == -2 && Block() == old(Block()) && wire == old(wire)
              else if !MaySend(old(Block())) then r == -1 && Block() == old(Block()) && wire == old(wire)
              else if |old(unacked)| + |data| > UNACK_CAP then r == -2 && Block() == old(Block()) && wire == old(wire)
              else
                var d := Prefix(data, ok);
                && Block() == Sent(old(Block()), d) && wire == old(wire) + Cut(old(nxt), rcv, d)
                && r == (if d == [] then -1 else |d|)
    {
      if state == SynSent {
        return -2;
      }
      if state != Est && state != CloseWait {
        return -1;
      }
      if |unacked| + |data| > UNACK_CAP {
        return -2;
      }
      var done := TransmitAll(data, ok, nxt);
      unacked := unacked + data[..done];
      nxt := Add(nxt, done);
      r := if done == 0 then -1 else done;
    }

    /** The transmission loop of `tcp_send` and of `tcp_tick`. */
    method TransmitAll(data: Bytes, ok: nat, first: u32) returns (done: nat)
      modifies this`wire
      ensures done == |Prefix(data, ok)| <= |data| && wire == old(wire) + Cut(first, rcv, Prefix(data, ok))
    {
      done := 0;
      var n := 0;
      assert data[..0] == [] && Cut(first, rcv, []) == [];
      while done < |data|
        invariant n <= ok && done == Min(|data|, n * MSS)
        invariant wire == old(wire) + Cut(first, rcv, data[..done])
      {
        var k := Min(MSS, |data| - done);
        FullSegments(|data|, n, done);
        CutOneMore(first, rcv, data, done, k);
        var sent := TxSeg(Segment(Add(first, done), rcv, ACK, data[done..done + k]), n < ok);
        if !sent {
          assert Prefix(data, ok) == data[..done];
          return;
        }
        done := done + k;
        n := n + 1;
      }
      assert data[..done] == data && Prefix(data, ok) == data;
    }

    /** `tcp_recv` */
    method Recv(room: nat) returns (d: Bytes, code: int)
      modifies this`rx
      ensures d == old(rx)[..Min(room, |old(rx)|)] && Block() == old(Block()).(rx := old(rx)[|d|..])
      ensures if old(rx) != [] then code == |d|
              else code == (if state == CloseWait then 0 else if state == TState.Closed then -1 else -2)
    {
      if rx != [] {
        var k := Min(room, |rx|);
        d := rx[..k];
        rx := rx[k..];
        code := k;
      } else {
        d := [];
        code := if state == CloseWait then 0 else if state == TState.Closed then -1 else -2;
      }
    }

    /** `tcp_close` on a connection. */
    method Close(tx: bool)
      modifies this`finSent, this`nxt, this`state, this`closing, this`used, this`wire
      ensures if MaySend(old(Block()))
              then Block() == Finishing(old(Block())) && used == old(used)
                && wire == old(wire) + If(tx, FinSegment(old(Block())))
              else !used && wire == old(wire) + If(tx, RESET)
    {
      if state == Est || state == CloseWait {
        var sent := TxSeg(Segment(nxt, rcv, FIN_ACK, []), tx);
        finSent := true;
        nxt := Add(nxt, 1);
        state := if state == Est then FinW1 else LastAck;
        closing := true;
      } else {
        var sent := TxSeg(RESET, tx);
        used := false;
        closing := false;
      }
    }

    /** The retransmission of one tick, cut off by the link after `ok` segments. */
    method Resend(ok: nat)
      modifies this`wire
      ensures Block() == old(Block())
      ensures if Handshake(Block()) then wire == old(wire) + If(ok > 0, SynAgain(Block()))
              else wire == old(wire) + First(Cut(una, rcv, Window(Block())), ok)
    {
      if state == SynRcvd || state == SynSent {
        var sent := TxSeg(Segment(iss, rcv, if state == SynSent then SYN else SYN_ACK, []), ok > 0);
      } else {
        var done := TransmitAll(unacked[..Min(|unacked|, 4 * MSS)], ok, una);
        CutFirst(una, rcv, Window(Block()), ok);
      }
    }
  }
}
