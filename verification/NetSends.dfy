/**
 The segments the network stack sends, turn by turn, and what its tables hold of
 one connection meanwhile.

 A segment counts as sent when it is given to the routine that builds the frame.
 One that finds no hardware address to go to never leaves; to the other end that
 is the same as one lost on the way.
 */
module NetSends {
  import opened Bytes
  import opened Tcp
  import opened NetServer

  /** A segment and the connection it was sent on. */
  datatype Packet = Packet(id: nat, seg: Segment)

  function Packets(id: nat, segs: seq<Segment>): seq<Packet> {
    seq(|segs|, i requires 0 <= i < |segs| => Packet(id, segs[i]))
  }

  lemma PacketsJoin(id: nat, a: seq<Segment>, b: seq<Segment>)
    ensures Packets(id, a + b) == Packets(id, a) + Packets(id, b)
  {
  }

  // ---- frames ----

  /** An answer to ARP lets the SYN go that waited for it. */
  function SlotSends(s: Server, i: nat, cause: Cause): seq<Packet>
    requires i < |s.pending|
  {
    var p := s.pending[i];
    if p.Parked? && cause.ArpAnswer? && p.ip == cause.sender && p.kind.TcpArp? then
      var k := ConnById(s.conns, p.ip, 0);
      if k < |s.conns| then Packets(p.ip, [Sent(s.conns[k], s.conns[k].sndNext, true, false, false, [])]) else []
    else []
  }

  function SweepSends(s: Server, i: nat, cause: Cause): seq<Packet>
    requires i <= |s.pending|
    requires cause.Readable? ==> cause.conn < |s.conns|
    decreases |s.pending| - i
  {
    if i == |s.pending| then []
    else SlotSends(s, i, cause) + SweepSends(ServeSlot(s, i, cause), i + 1, cause)
  }

  /** One slot more of the table. */
  lemma SweepOne(s: Server, i: nat, cause: Cause, sent: seq<Packet>)
    requires i < |s.pending|
    requires cause.Readable? ==> cause.conn < |s.conns|
    ensures Sweep(s, i, cause) == Sweep(ServeSlot(s, i, cause), i + 1, cause)
    ensures sent + SweepSends(s, i, cause) ==
            sent + SlotSends(s, i, cause) + SweepSends(ServeSlot(s, i, cause), i + 1, cause)
  {
  }

  function SegmentSends(s: Server, k: nat, seg: Segment): seq<Packet>
    requires k < |s.conns|
  {
    Packets(s.conns[k].id, Replies(s.conns[k], seg))
  }

  /** The SYN is answered, and then goes through the new connection's own state machine. */
  function PassiveSends(s: Server, local: nat, ip: nat, port: nat, seg: Segment): seq<Packet> {
    if ListenerOn(s.listeners, local, 0) < |s.listeners| && FreeConn(s.conns, 0) < |s.conns| then
      var c := Answering(s.nextId, ip, port, local, InitialSeq(s), seg);
      Packets(s.nextId, [Sent(c, InitialSeq(s), true, true, false, [])]) + Packets(s.nextId, Replies(c, seg))
    else []
  }

  function FrameSends(s: Server, f: Frame): seq<Packet> {
    match f
    case Signal(cause) => if Wire(cause) then SweepSends(s, 0, cause) else []
    case Segment4(local, ip, port, seg) =>
      var k := ConnByTuple(s.conns, local, ip, port, 0);
      if k < |s.conns| then SegmentSends(s, k, seg)
      else if seg.syn && !seg.ack then PassiveSends(s, local, ip, port, seg)
      else []
    case Segment6(local, seg) =>
      var k := ConnByPort6(s.conns, local);
      if k < |s.conns| then SegmentSends(s, k, seg) else []
    case Other => []
  }

  function DrainSends(s: Server, frames: seq<Frame>): seq<Packet>
    decreases |frames|
  {
    if frames == [] then [] else FrameSends(s, frames[0]) + DrainSends(HandleFrame(s, frames[0]), frames[1..])
  }

  /** One frame more off the ring. */
  lemma DrainOne(s: Server, frames: seq<Frame>, t: nat, sent: seq<Packet>)
    requires t < |frames|
    ensures Drain(s, frames[t..]) == Drain(HandleFrame(s, frames[t]), frames[t+1..])
    ensures sent + DrainSends(s, frames[t..]) ==
            sent + FrameSends(s, frames[t]) + DrainSends(HandleFrame(s, frames[t]), frames[t+1..])
  {
    assert frames[t..][0] == frames[t] && frames[t..][1..] == frames[t+1..];
  }

  // ---- the clock ----

  function ResendAll(conns: seq<Conn>, ticks: nat): seq<Packet> {
    if conns == [] then []
    else Packets(conns[0].id, RetransmitSends(conns[0], ticks)) + ResendAll(conns[1..], ticks)
  }

  lemma ResendOne(conns: seq<Conn>, ticks: nat, i: nat, sent: seq<Packet>)
    requires i < |conns|
    ensures sent + ResendAll(conns[i..], ticks) ==
            sent + Packets(conns[i].id, RetransmitSends(conns[i], ticks)) + ResendAll(conns[i+1..], ticks)
  {
    assert conns[i..][0] == conns[i] && conns[i..][1..] == conns[i+1..];
  }

  function UpkeepSends(s: Server, frames: seq<Frame>): seq<Packet> {
    var drained := Drain(s, frames);
    DrainSends(s, frames) + ResendAll(drained.conns, Ticks(drained))
  }

  // ---- requests ----

  function ConnectSends(s: Server, ip: nat, port: nat, v6: bool, known: bool): seq<Packet> {
    if FreeConn(s.conns, 0) < |s.conns| && !Full(s) && (v6 || known) then
      Packets(s.nextId, [Sent(Dialled(s, ip, port, v6, known), InitialSeq(s), true, false, false, [])])
    else []
  }

  function SendSends(s: Server, id: nat, data: seq<Byte>): seq<Packet> {
    var k := ConnById(s.conns, id, 0);
    if k < |s.conns| then Packets(id, OfferSends(s.conns[k], data)) else []
  }

  function CloseSends(s: Server, id: nat): seq<Packet> {
    var k := ConnById(s.conns, id, 0);
    if k < |s.conns| && s.conns[k].phase.Established? then
      Packets(id, [Sent(s.conns[k], s.conns[k].sndNext, false, true, true, [])])
    else []
  }

  function StreamSends(s: Server, op: StreamOp): seq<Packet> {
    match op
    case TcpConnect(ip, port, v6, via, known) => ConnectSends(s, ip, port, v6, known)
    case TcpSend(id, data) => SendSends(s, id, data)
    case TcpClose(id) => CloseSends(s, id)
    case _ => []
  }

  function TakeSends(s: Server, arrived: Arrived): seq<Packet> {
    if arrived.Asked? && arrived.request.Stream? then
      StreamSends(s.(asked := s.asked + [arrived.handle]), arrived.request.op)
    else []
  }

  // ---- whole runs ----

  function LoopSends(s: Server, t: Turn): seq<Packet> {
    UpkeepSends(s, t.frames) + TakeSends(Upkeep(s, t.frames, t.haveDns6), t.arrived)
  }

  function RunSends(turns: seq<Turn>): seq<Packet> {
    if turns == [] then []
    else RunSends(turns[..|turns| - 1]) + LoopSends(Run(turns[..|turns| - 1]), turns[|turns| - 1])
  }

  /** Of all that makes the server look through its table, only an answer to ARP makes it send. */
  lemma {:induction false} SweepQuiet(s: Server, i: nat, cause: Cause)
    requires i <= |s.pending| && !cause.ArpAnswer?
    requires cause.Readable? ==> cause.conn < |s.conns|
    ensures SweepSends(s, i, cause) == []
    decreases |s.pending| - i
  {
    if i < |s.pending| {
      SweepQuiet(ServeSlot(s, i, cause), i + 1, cause);
    }
  }

  // ---- the connection table moves as one connection does ----

  /** A connection after `n` reads. */
  function ReadTimes(c: Conn, n: nat): Conn
    decreases n
  {
    if n == 0 then c else ReadTimes(AfterRead(c), n - 1)
  }

  lemma {:induction false} SweepReads(s: Server, i: nat, k: nat) returns (n: nat)
    requires i <= |s.pending| && k < |s.conns|
    ensures Sweep(s, i, Readable(k)).conns == s.conns[k := ReadTimes(s.conns[k], n)]
    decreases |s.pending| - i
  {
    if i == |s.pending| {
      n := 0;
    } else {
      var t := ServeSlot(s, i, Readable(k));
      var m := SweepReads(t, i + 1, k);
      if t.conns == s.conns {
        n := m;
      } else {
        assert t.conns == s.conns[k := AfterRead(s.conns[k])];
        n := m + 1;
      }
    }
  }

  lemma {:induction false} SweepLeaves(s: Server, i: nat, cause: Cause)
    requires i <= |s.pending| && (cause.Refused? || cause.Connected?)
    ensures Sweep(s, i, cause).conns == s.conns
    decreases |s.pending| - i
  {
    if i < |s.pending| {
      SweepLeaves(ServeSlot(s, i, cause), i + 1, cause);
    }
  }

  /** Over IPv6, a connection that opens also drops what it kept to repeat its SYN. */
  function Landed(c: Conn, seg: Segment): Conn {
    var d := Arrive(c, seg);
    if c.v6 && !seg.rst && Completes(Opened(c, seg), seg) then d.(out := []) else d
  }

  /**
   A segment does to the table what it does to its connection by itself, followed
   by as many reads as there were waiting readers to serve; no other connection
   changes.
   */
  lemma SegmentArrives(s: Server, k: nat, seg: Segment, code: int) returns (n: nat)
    requires k < |s.conns|
    ensures HandleSegment(s, k, seg, code).conns == s.conns[k := ReadTimes(Landed(s.conns[k], seg), n)]
    ensures !s.conns[k].v6 ==> Landed(s.conns[k], seg) == Arrive(s.conns[k], seg)
  {
    var o := if s.conns[k].phase.SynRcvd? && seg.ack then HandOver(s, k) else s;
    var c := o.conns[k];
    assert o.conns == s.conns[k := Opened(s.conns[k], seg)];
    n := 0;
    if seg.rst {
      SweepLeaves(o.(conns := o.conns[k := c.(phase := Dead)]), 0, Refused(c.id, code));
    } else if Completes(c, seg) {
      var open := Synchronised(c, seg);
      SweepLeaves(o.(conns := o.conns[k := if c.v6 then open.(out := []) else open]), 0, Connected(c.id));
    } else {
      var t := o.(conns := o.conns[k := Finished(Stored(Acknowledged(c, seg), seg), seg)],
                  stored := o.stored + [Chunk(c.id, Fresh(c, seg))]);
      n := SweepReads(t, 0, k);
    }
  }

  /** Offering a block is, busy or not, what it is to the connection by itself. */
  lemma OfferTaken(s: Server, h: int, id: nat, data: seq<Byte>)
    ensures var k := ConnById(s.conns, id, 0);
            ServeSend(s, h, id, data).conns ==
              if k < |s.conns| then s.conns[k := Offered(s.conns[k], data, Ticks(s))] else s.conns
  {
    var k := ConnById(s.conns, id, 0);
    if k < |s.conns| && (s.conns[k].out != [] || !s.conns[k].phase.Established?) {
      assert Offered(s.conns[k], data, Ticks(s)) == s.conns[k];
    }
  }

  /** And so is a read. */
  lemma ReceiveReads(s: Server, h: int, id: nat)
    ensures var k := ConnById(s.conns, id, 0);
            ServeReceive(s, h, id).conns ==
              if k < |s.conns| && !s.conns[k].phase.Dead? then s.conns[k := AfterRead(s.conns[k])] else s.conns
  {
    var k := ConnById(s.conns, id, 0);
    if k < |s.conns| && s.conns[k].rx == [] {
      assert AfterRead(s.conns[k]) == s.conns[k];
    }
  }
}
