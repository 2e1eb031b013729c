/**
 One TCP connection as the network stack keeps it: a window of one segment on
 the sending side, in-order acceptance into a fixed buffer on the receiving
 side. These functions are what the stack does to one entry of its connection
 table; the stack itself and the two-host stream are built on them.
 */
module Tcp {
  import opened Bytes

  const TCP_RX := 8192            // the receive buffer
  const IPC_INLINE := 256         // what one request can carry
  const READ_MAX := 200           // what one read is answered with at most

  // An entry of the connection table that is not in use.
  const NoConn := Conn(false, Dead, 0, false, 0, 0, 0, false, 0, 0, [], [], 0, 0, 0)

  function Add32(a: nat, b: nat): nat { (a + b) % WRAP }

  datatype Phase = SynSent | SynRcvd | Established | Dead

  /**
   An entry of the connection table. `out` is the one segment in flight, empty
   when nothing is outstanding.
   */
  datatype Conn = Conn(
    used: bool, phase: Phase, id: nat, peerClosed: bool,
    peerIp: nat, peerPort: nat, localPort: nat, v6: bool,
    sndNext: nat, rcvNext: nat, rx: seq<Byte>,
    out: seq<Byte>, outSeq: nat, outDeadline: nat, outTries: nat)

  /** The fields of a segment the state machine looks at. */
  datatype Segment = Segment(
    seqNo: nat, ackNo: nat, syn: bool, ack: bool, fin: bool, rst: bool, window: nat, body: seq<Byte>)

  /** A segment sent on `c`: whatever it carries, it acknowledges and advertises. */
  function Sent(c: Conn, seqNo: nat, syn: bool, ack: bool, fin: bool, body: seq<Byte>): Segment {
    Segment(seqNo, c.rcvNext, syn, ack, fin, false, TCP_RX - Min(|c.rx|, TCP_RX), body)
  }

  // ---- opening ----

  /** An active open, once its SYN has been sent. */
  function Connecting(id: nat, peerIp: nat, peerPort: nat, localPort: nat, v6: bool, iss: nat): Conn {
    Conn(true, SynSent, id, false, peerIp, peerPort, localPort, v6, Add32(iss, 1), 0, [], [], 0, 0, 0)
  }

  /** A passive open: a SYN has arrived at a port something listens on, and has been answered. */
  function Answering(id: nat, peerIp: nat, peerPort: nat, localPort: nat, iss: nat, seg: Segment): Conn {
    Conn(true, SynRcvd, id, false, peerIp, peerPort, localPort, false,
         Add32(iss, 1), Add32(seg.seqNo, 1), [], [], 0, 0, 0)
  }

  // ---- a segment arrives ----

  /** The acknowledgement of our half of a passive open. */
  function Opened(c: Conn, seg: Segment): Conn {
    if c.phase.SynRcvd? && seg.ack then c.(phase := Established) else c
  }

  /** The answer to an active open. */
  predicate Completes(c: Conn, seg: Segment) { c.phase.SynSent? && seg.syn && seg.ack }

  function Synchronised(c: Conn, seg: Segment): Conn {
    c.(rcvNext := Add32(seg.seqNo, 1), sndNext := seg.ackNo, phase := Established)
  }

  /** An acknowledgement of everything in flight, compared as plain unsigned numbers. */
  predicate Acknowledges(c: Conn, seg: Segment) {
    seg.ack && |c.out| > 0 && seg.ackNo >= Add32(c.outSeq, |c.out|)
  }

  function Acknowledged(c: Conn, seg: Segment): Conn {
    if Acknowledges(c, seg) then c.(out := [], outTries := 0) else c
  }

  /** How much of an in-order body is kept; the rest is acknowledged and lost. */
  function Room(c: Conn, seg: Segment): nat {
    if |c.rx| >= TCP_RX then 0 else Min(|seg.body|, TCP_RX - |c.rx|)
  }

  function Stored(c: Conn, seg: Segment): Conn {
    if |seg.body| > 0 && seg.seqNo == c.rcvNext then
      c.(rx := c.rx + seg.body[..Room(c, seg)], rcvNext := Add32(c.rcvNext, |seg.body|))
    else c
  }

  function Finished(c: Conn, seg: Segment): Conn {
    if seg.fin then c.(rcvNext := Add32(seg.seqNo, |seg.body| + 1), peerClosed := true) else c
  }

  /** The connection after a segment, before any waiting reader is served. */
  function Arrive(c: Conn, seg: Segment): Conn {
    var o := Opened(c, seg);
    if seg.rst then o.(phase := Dead)
    else if Completes(o, seg) then Synchronised(o, seg)
    else Finished(Stored(Acknowledged(o, seg), seg), seg)
  }

  /** The bytes a segment adds to the receive buffer. */
  function Fresh(c: Conn, seg: Segment): seq<Byte> {
    if !seg.rst && !Completes(Opened(c, seg), seg) && seg.seqNo == c.rcvNext then seg.body[..Room(c, seg)] else []
  }

  /** What is sent back at once for a segment's data and FIN. */
  function Answers(o: Conn, seg: Segment): seq<Segment> {
    var s := Stored(Acknowledged(o, seg), seg);
    var f := Finished(s, seg);
    (if |seg.body| > 0 then [Sent(s, s.sndNext, false, true, false, [])] else []) +
    (if seg.fin then [Sent(f, f.sndNext, false, true, false, [])] else [])
  }

  /** What is sent back at once. */
  function Replies(c: Conn, seg: Segment): seq<Segment> {
    var o := Opened(c, seg);
    if seg.rst then []
    else if Completes(o, seg) then
      var s := Synchronised(o, seg);
      [Sent(s, s.sndNext, false, true, false, [])]
    else Answers(o, seg)
  }

  // ---- the caller ----

  /** How much of an offered block is taken: all that fits a request, or nothing while a segment is in flight. */
  function Taken(c: Conn, data: seq<Byte>): seq<Byte> {
    if c.used && c.phase.Established? && c.out == [] then data[..Min(|data|, IPC_INLINE)] else []
  }

  function Offered(c: Conn, data: seq<Byte>, ticks: nat): Conn {
    if c.used && c.phase.Established? && c.out == [] then
      var block := data[..Min(|data|, IPC_INLINE)];
      c.(out := block, outSeq := c.sndNext, outTries := 0, outDeadline := Add32(ticks, 400),
         sndNext := Add32(c.sndNext, |block|))
    else c
  }

  function OfferSends(c: Conn, data: seq<Byte>): seq<Segment> {
    if c.used && c.phase.Established? && c.out == [] then
      [Sent(c, c.sndNext, false, true, false, data[..Min(|data|, IPC_INLINE)])]
    else []
  }

  /** What one read returns, and what it leaves. */
  function ReadSize(c: Conn): nat { Min(|c.rx|, READ_MAX) }

  function AfterRead(c: Conn): Conn { c.(rx := c.rx[ReadSize(c)..]) }

  // ---- the clock ----

  predicate Due(c: Conn, ticks: nat) { c.used && |c.out| > 0 && ticks >= c.outDeadline }

  function Retransmitted(c: Conn, ticks: nat): Conn {
    if !Due(c, ticks) then c
    else if c.outTries + 1 > (if c.phase.SynSent? then 8 else 5) then
      c.(phase := Dead, out := [], outTries := c.outTries + 1)
    else
      var wait := if c.phase.SynSent? then 200 else 400;
      c.(outTries := c.outTries + 1, outDeadline := Add32(ticks, wait * (c.outTries + 1)))
  }

  function RetransmitSends(c: Conn, ticks: nat): seq<Segment> {
    if !Due(c, ticks) || c.outTries + 1 > (if c.phase.SynSent? then 8 else 5) then []
    else if c.phase.SynSent? then [Sent(c, Add32(c.sndNext, WRAP - 1), true, false, false, [])]
    else [Sent(c, c.outSeq, false, true, false, c.out)]
  }
}
