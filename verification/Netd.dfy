/**
 The network stack itself: one object whose tables are updated in place, step
 by step, by the loops of the event handlers. Every method is proved to take the
 state where the state machine of NetServer says, and to send what NetSends says,
 so what is proved of all runs there holds of this object.
 */
module Netd {
  import opened Bytes
  import opened Tcp
  import opened NetServer
  import opened NetSends

  class Stack {
    var ticks: nat                    // the 32-bit loop counter
    var pending: seq<Slot>
    var conns: seq<Conn>
    var listeners: seq<Listener>
    var nextId: nat
    var nextPort: nat
    var dnsId: nat
    var replies: seq<Answer>          // what has been sent back, in order
    var sent: seq<Packet>             // the segments sent, in order
    var now: nat                      // history: the loop counter, had it no width
    ghost var asked: seq<int>
    ghost var completed: seq<Arrival>
    ghost var stored: seq<Chunk>

    ghost predicate Valid()
      reads this
    {
      ticks == now % WRAP && |pending| == PENDING_MAX && |conns| == CONN_MAX && |listeners| == LISTEN_MAX
    }

    /** The state of the abstract server this object stands for. */
    ghost function View(): Server
      reads this
    {
      Server(now, pending, conns, listeners, nextId, nextPort, dnsId, asked, replies, completed, stored)
    }

    constructor ()
      ensures Valid() && View() == Start() && sent == []
    {
      ticks, now := 0, 0;
      pending := seq(PENDING_MAX, _ => Free);
      conns := seq(CONN_MAX, _ => NoConn);
      listeners := seq(LISTEN_MAX, _ => Listener(false, 0, []));
      nextId, nextPort, dnsId := 1, 40000, 0x4C45;
      replies, sent, asked, completed, stored := [], [], [], [], [];
    }

    // ---- searching the tables ----

    method FindFree() returns (k: nat)
      ensures k == FirstFree(pending, 0)
    {
      k := 0;
      while k < |pending| && !pending[k].Free?
        invariant k <= |pending| && FirstFree(pending, k) == FirstFree(pending, 0)
      {
        k := k + 1;
      }
    }

    method FindConn(id: nat) returns (k: nat)
      ensures k == ConnById(conns, id, 0)
    {
      k := 0;
      if id == 0 {
        return |conns|;
      }
      while k < |conns| && !(conns[k].used && conns[k].id == id)
        invariant k <= |conns| && ConnById(conns, id, k) == ConnById(conns, id, 0)
      {
        k := k + 1;
      }
    }

    method FindTuple(local: nat, ip: nat, port: nat) returns (k: nat)
      ensures k == ConnByTuple(conns, local, ip, port, 0)
    {
      k := 0;
      while k < |conns| && !Between(conns[k], local, ip, port)
        invariant k <= |conns| && ConnByTuple(conns, local, ip, port, k) == ConnByTuple(conns, local, ip, port, 0)
      {
        k := k + 1;
      }
    }

    /** Over IPv6 the scan runs to the end and keeps the last match. */
    method FindPort6(local: nat) returns (k: nat)
      ensures k == ConnByPort6(conns, local)
    {
      k := |conns|;
      var i := 0;
      while i < |conns|
        invariant 0 <= i <= |conns|
        invariant var found := ConnByPort6(conns[..i], local); k == if found < i then found else |conns|
      {
        assert conns[..i+1][..i] == conns[..i];
        if conns[i].used && conns[i].v6 && conns[i].localPort == local {
          k := i;
        }
        i := i + 1;
      }
      assert conns[..|conns|] == conns;
    }

    method FindFreeConn() returns (k: nat)
      ensures k == FreeConn(conns, 0)
    {
      k := 0;
      while k < |conns| && conns[k].used
        invariant k <= |conns| && FreeConn(conns, k) == FreeConn(conns, 0)
      {
        k := k + 1;
      }
    }

    method FindListener(port: nat) returns (k: nat)
      ensures k == ListenerOn(listeners, port, 0)
    {
      k := 0;
      while k < |listeners| && !(listeners[k].used && listeners[k].port == port)
        invariant k <= |listeners| && ListenerOn(listeners, port, k) == ListenerOn(listeners, port, 0)
      {
        k := k + 1;
      }
    }

    // ---- replying and parking ----

    method Reply(handle: int, w0: int, data: seq<Byte>, topic: Topic)
      modifies this`replies
      ensures View() == Replied(old(View()), handle, w0, data, topic)
    {
      replies := replies + [Answer(handle, w0, data, topic)];
    }

    /** Answers a parked request and frees its slot. */
    method AnswerSlot(i: nat, w0: int, data: seq<Byte>, topic: Topic)
      requires i < |pending| && pending[i].Parked?
      modifies this`replies, this`pending
      ensures View() == Settle(old(View()), i, w0, data, topic)
    {
      Reply(pending[i].handle, w0, data, topic);
      pending := pending[i := Free];
    }

    /** Parks a request in the first free slot; with none free the requester is told so. */
    method FillSlot(k: nat, p: Slot)
      requires p.Parked? && k == FirstFree(pending, 0) < |pending|
      modifies this`pending
      ensures View() == Park(old(View()), p)
    {
      pending := pending[k := p];
    }

    /** A slot for a request that arrived now. */
    method NewWait(kind: Wait, h: int, ip: nat, seqNo: nat) returns (p: Slot)
      requires Valid()
      ensures p.Parked? && p == NewSlot(View(), kind, h, ip, seqNo)
    {
      p := Parked(kind, h, ip, seqNo, Add32(ticks, PATIENCE), false, false, [], now, now + PATIENCE);
    }

    method FirstNumber() returns (iss: nat)
      requires Valid()
      ensures iss == InitialSeq(View())
    {
      iss := (0x5EED0000 + ticks * 7919) % WRAP;
    }

    method ParkRequest(p: Slot)
      requires p.Parked?
      modifies this`replies, this`pending
      ensures View() == Park(old(View()), p)
    {
      var k := FindFree();
      if k == |pending| {
        Reply(p.handle, -1, [], Plain);
      } else {
        pending := pending[k := p];
      }
    }

    /** Gives a segment to the card; it acknowledges and advertises what the connection stands at. */
    method Transmit(k: nat, syn: bool, ack: bool, fin: bool, seqNo: nat, body: seq<Byte>)
      requires k < |conns|
      modifies this`sent
      ensures sent == old(sent) + Packets(conns[k].id, [Sent(conns[k], seqNo, syn, ack, fin, body)])
    {
      var c := conns[k];
      var window := if |c.rx| >= TCP_RX then 0 else TCP_RX - |c.rx|;
      sent := sent + [Packet(c.id, Segment(seqNo, c.rcvNext, syn, ack, fin, false, window, body))];
    }

    method CloseConn(id: nat)
      modifies this`conns
      ensures View() == old(View()).(conns := Closed(old(conns), id))
    {
      var k := FindConn(id);
      if k < |conns| {
        conns := conns[k := conns[k].(used := false)];
      }
    }

    // ---- the pending table ----

    /** The deadline test on one slot. */
    method ExpireSlot(i: nat, haveDns6: bool)
      requires Valid() && i < |pending| && pending[i].Parked?
      modifies this`replies, this`pending, this`conns
      ensures Valid() && View() == ServeSlot(old(View()), i, Deadline(haveDns6))
    {
      var p := pending[i];
      if ticks < p.deadline {
        return;
      }
      if p.kind.Connect? || p.kind.TcpArp? {
        CloseConn(p.ip);
      }
      if p.kind.Dns? && !p.over6 && haveDns6 && |p.name| > 0 && p.name[0] != 0 {
        pending := pending[i := p.(over6 := true, deadline := Add32(ticks, PATIENCE), due := now + PATIENCE)];
        return;
      }
      AnswerSlot(i, -1, [], Plain);
    }

    method ServeArp(i: nat, sender: nat, mac: seq<Byte>)
      requires Valid() && i < |pending| && pending[i].Parked?
      modifies this`replies, this`pending, this`conns, this`sent
      ensures Valid() && View() == ServeSlot(old(View()), i, ArpAnswer(sender, mac))
      ensures sent == old(sent) + SlotSends(old(View()), i, ArpAnswer(sender, mac))
    {
      var p := pending[i];
      if p.ip == sender && p.kind.Arp? {
        AnswerSlot(i, 0, mac, Plain);
      } else if p.ip == sender && p.kind.TcpArp? {
        var k := FindConn(p.ip);
        if k < |conns| {
          Transmit(k, true, false, false, conns[k].sndNext, []);
          conns := conns[k := conns[k].(sndNext := Add32(conns[k].sndNext, 1))];
        }
        pending := pending[i := p.(kind := Connect)];
      }
    }

    method ServeName(i: nat, over6: bool, id: nat, found6: bool, address6: seq<Byte>, address: nat)
      requires Valid() && i < |pending| && pending[i].Parked?
      modifies this`replies, this`pending
      ensures Valid() && View() == ServeSlot(old(View()), i, NameAnswer(over6, id, found6, address6, address))
    {
      var p := pending[i];
      if p.kind.Dns? && p.seqNo == id {
        if found6 && (over6 || p.want6) {
          AnswerSlot(i, 0, address6, Plain);
        } else if !over6 && p.want6 {
          AnswerSlot(i, -1, [], Plain);
        } else {
          AnswerSlot(i, if address != 0 then address else -1, [], Plain);
        }
      }
    }

    /** What one event does to one slot of the pending table. */
    method ServeOne(i: nat, cause: Cause)
      requires Valid() && i < |pending| && (cause.Readable? ==> cause.conn < |conns|)
      modifies this`replies, this`pending, this`conns, this`sent
      ensures Valid() && View() == ServeSlot(old(View()), i, cause)
      ensures sent == old(sent) + SlotSends(old(View()), i, cause)
    {
      var p := pending[i];
      if p.Free? {
        return;
      }
      match cause {
        case ArpAnswer(sender, mac) =>
          ServeArp(i, sender, mac);
        case Neighbour(target, mac) =>
          if p.kind.Nd? && p.name == target { AnswerSlot(i, 0, mac, Plain); }
        case EchoReply(seqNo, ttl) =>
          if p.kind.Ping? && p.seqNo == seqNo { AnswerSlot(i, ttl, [], Plain); }
        case EchoReply6(seqNo, hops) =>
          if p.kind.Ping6? && p.seqNo == seqNo { AnswerSlot(i, hops, [], Plain); }
        case NameAnswer(over6, id, found6, address6, address) =>
          ServeName(i, over6, id, found6, address6, address);
        case Datagram(port, w0, body) =>
          if p.kind.Udp? && p.seqNo == port { AnswerSlot(i, w0, body[..Min(|body|, READ_MAX)], Plain); }
        case Refused(id, code) =>
          if p.ip == id && (p.kind.Connect? || p.kind.Read?) { AnswerSlot(i, code, [], Plain); }
        case Connected(id) =>
          if p.kind.Connect? && p.ip == id { AnswerSlot(i, id, [], Plain); }
        case Readable(k) => ServeReader(i, k);
        case Deadline(haveDns6) => ExpireSlot(i, haveDns6);
      }
    }

    /** One waiting reader: some bytes, the end of the stream, or nothing yet. */
    method ServeReader(i: nat, k: nat)
      requires Valid() && i < |pending| && pending[i].Parked? && k < |conns|
      modifies this`replies, this`pending, this`conns
      ensures Valid() && View() == ServeSlot(old(View()), i, Readable(k))
    {
      var p, c := pending[i], conns[k];
      if !p.kind.Read? || p.ip != c.id {
        return;
      }
      if |c.rx| > 0 {
        var n := if |c.rx| > READ_MAX then READ_MAX else |c.rx|;
        AnswerSlot(i, n, c.rx[..n], Bytes(c.id));
        conns := conns[k := c.(rx := c.rx[n..])];
      } else if c.peerClosed {
        AnswerSlot(i, 0, [], Plain);
      }
    }

    /** The loop over the pending table. */
    method LookThrough(cause: Cause)
      requires Valid() && (cause.Readable? ==> cause.conn < |conns|)
      modifies this`replies, this`pending, this`conns, this`sent
      ensures Valid() && View() == Sweep(old(View()), 0, cause)
      ensures sent == old(sent) + SweepSends(old(View()), 0, cause)
    {
      var i := 0;
      while i < PENDING_MAX
        invariant 0 <= i <= PENDING_MAX && Valid()
        invariant Sweep(View(), i, cause) == Sweep(old(View()), 0, cause)
        invariant sent + SweepSends(View(), i, cause) == old(sent) + SweepSends(old(View()), 0, cause)
      {
        SweepOne(View(), i, cause, sent);
        ServeOne(i, cause);
        i := i + 1;
      }
    }

    // ---- segments ----

    /** A handshake completed: to the first acceptor waiting on the port, else into the backlog. */
    method HandToAcceptor(k: nat)
      requires Valid() && k < |conns|
      modifies this`replies, this`pending, this`conns, this`listeners, this`completed
      ensures Valid() && View() == HandOver(old(View()), k)
    {
      var c := conns[k];
      conns := conns[k := c.(phase := Established)];
      completed := completed + [Arrival(c.localPort, c.id)];
      var l := FindListener(c.localPort);
      var i := 0;
      while i < |pending| && !(pending[i].Parked? && pending[i].kind.Accept? && pending[i].ip == c.localPort)
        invariant i <= |pending|
        invariant Acceptor(pending, c.localPort, i) == Acceptor(pending, c.localPort, 0)
      {
        i := i + 1;
      }
      if i < |pending| {
        AnswerSlot(i, c.id, [], Accepted(c.localPort, c.id, Peer(c.peerIp, c.peerPort)));
      } else if l < |listeners| && |listeners[l].queue| < BACKLOG_MAX {
        listeners := listeners[l := listeners[l].(queue := listeners[l].queue + [c.id])];
      }
    }

    /** Acknowledgement, then in-order data as far as there is room. */
    static method AckAndStore(c: Conn, seg: Segment) returns (d: Conn)
      ensures d == Stored(Acknowledged(c, seg), seg)
    {
      d := c;
      if seg.ack && |d.out| > 0 && seg.ackNo >= Add32(d.outSeq, |d.out|) {
        d := d.(out := [], outTries := 0);
      }
      if |seg.body| > 0 && seg.seqNo == d.rcvNext {
        var n := |seg.body|;
        if |d.rx| >= TCP_RX {
          n := 0;
        } else if n > TCP_RX - |d.rx| {
          n := TCP_RX - |d.rx|;
        }
        d := d.(rx := d.rx + seg.body[..n], rcvNext := Add32(d.rcvNext, |seg.body|));
      }
    }

    /** A bare acknowledgement of what the connection stands at, if one is called for. */
    method Acknowledge(k: nat, wanted: bool)
      requires k < |conns|
      modifies this`sent
      ensures sent == old(sent) +
              Packets(conns[k].id, if wanted then [Sent(conns[k], conns[k].sndNext, false, true, false, [])] else [])
    {
      if wanted {
        Transmit(k, false, true, false, conns[k].sndNext, []);
      }
    }

    /** Acknowledgement, data and FIN, in that order, and what is sent back for the last two. */
    method UpdateConn(k: nat, seg: Segment)
      requires k < |conns|
      modifies this`conns, this`sent
      ensures conns == old(conns)[k := Finished(Stored(Acknowledged(old(conns[k]), seg), seg), seg)]
      ensures sent == old(sent) + Packets(old(conns[k]).id, Answers(old(conns[k]), seg))
    {
      var c := conns[k];
      var d := AckAndStore(c, seg);
      conns := conns[k := d];
      Acknowledge(k, |seg.body| > 0);
      var f := if seg.fin then d.(rcvNext := Add32(seg.seqNo, |seg.body| + 1), peerClosed := true) else d;
      conns := conns[k := f];
      Acknowledge(k, seg.fin);
      PacketsJoin(c.id, if |seg.body| > 0 then [Sent(d, d.sndNext, false, true, false, [])] else [],
                  if seg.fin then [Sent(f, f.sndNext, false, true, false, [])] else []);
    }

    /** A reset: the connection is dead, and whoever waited on it is told so. */
    method Refuse(k: nat, code: int)
      requires Valid() && k < |conns|
      modifies this`replies, this`pending, this`conns, this`sent
      ensures Valid() && sent == old(sent)
      ensures View() == Sweep(old(View()).(conns := old(conns)[k := old(conns[k]).(phase := Dead)]), 0,
                              Refused(old(conns[k]).id, code))
    {
      conns := conns[k := conns[k].(phase := Dead)];
      SweepQuiet(View(), 0, Refused(conns[k].id, code));
      LookThrough(Refused(conns[k].id, code));
    }

    /** The answer to an active open. */
    method Complete(k: nat, seg: Segment)
      requires Valid() && k < |conns|
      modifies this`replies, this`pending, this`conns, this`sent
      ensures var c := old(conns[k]);
              var open := Synchronised(c, seg);
              && Valid() && sent == old(sent) + Packets(c.id, [Sent(open, open.sndNext, false, true, false, [])])
              && View() == Sweep(old(View()).(conns := old(conns)[k := if c.v6 then open.(out := []) else open]), 0,
                                 Connected(c.id))
    {
      var c := conns[k];
      var d := c.(rcvNext := Add32(seg.seqNo, 1), sndNext := seg.ackNo, phase := Established);
      conns := conns[k := if c.v6 then d.(out := []) else d];
      Transmit(k, false, true, false, d.sndNext, []);
      SweepQuiet(View(), 0, Connected(c.id));
      LookThrough(Connected(c.id));
    }

    /** The part of a segment's handling that updates the connection and serves who waited for it. */
    method TakeSegment(k: nat, seg: Segment, code: int)
      requires Valid() && k < |conns| && !(conns[k].phase.SynRcvd? && seg.ack)
      modifies this`replies, this`pending, this`conns, this`stored, this`sent
      ensures Valid() && View() == HandleSegment(old(View()), k, seg, code)
      ensures sent == old(sent) + SegmentSends(old(View()), k, seg)
    {
      var c := conns[k];
      if seg.rst {
        Refuse(k, code);
      } else if c.phase.SynSent? && seg.syn && seg.ack {
        Complete(k, seg);
      } else {
        stored := stored + [Chunk(c.id, Fresh(c, seg))];
        UpdateConn(k, seg);
        SweepQuiet(View(), 0, Readable(k));
        LookThrough(Readable(k));
      }
    }

    method HandleSegmentAt(k: nat, seg: Segment, code: int)
      requires Valid() && k < |conns|
      modifies this
      ensures Valid() && View() == HandleSegment(old(View()), k, seg, code)
      ensures sent == old(sent) + SegmentSends(old(View()), k, seg)
    {
      if conns[k].phase.SynRcvd? && seg.ack {
        HandToAcceptor(k);
      }
      TakeSegment(k, seg, code);
    }

    /** One frame off the ring. */
    method TakeFrame(f: Frame)
      requires Valid()
      modifies this
      ensures Valid() && View() == HandleFrame(old(View()), f)
      ensures sent == old(sent) + FrameSends(old(View()), f)
    {
      match f {
        case Signal(cause) =>
          if Wire(cause) { LookThrough(cause); }
        case Segment4(local, ip, port, seg) =>
          var k := FindTuple(local, ip, port);
          if k < |conns| {
            HandleSegmentAt(k, seg, -1);
          } else if seg.syn && !seg.ack {
            OpenPassively(local, ip, port, seg);
          }
        case Segment6(local, seg) =>
          var k := FindPort6(local);
          if k < |conns| { HandleSegmentAt(k, seg, -2); }
        case Other =>
      }
    }

    /** A new connection in entry `k`, and its SYN-ACK on the way. */
    method AnswerSyn(k: nat, local: nat, ip: nat, port: nat, seg: Segment)
      requires Valid() && k < |conns|
      modifies this`conns, this`nextId, this`sent
      ensures var c := Answering(old(nextId), ip, port, local, InitialSeq(old(View())), seg);
              && Valid() && View() == old(View()).(conns := old(conns)[k := c], nextId := old(nextId) + 1)
              && sent == old(sent) + Packets(c.id, [Sent(c, InitialSeq(old(View())), true, true, false, [])])
    {
      var iss := FirstNumber();
      conns := conns[k := Conn(true, SynRcvd, nextId, false, ip, port, local, false,
                               Add32(iss, 1), Add32(seg.seqNo, 1), [], [], 0, 0, 0)];
      nextId := nextId + 1;
      Transmit(k, true, true, false, iss, []);
    }

    method OpenPassively(local: nat, ip: nat, port: nat, seg: Segment)
      requires Valid()
      modifies this
      ensures Valid() && View() == PassiveOpen(old(View()), local, ip, port, seg)
      ensures sent == old(sent) + PassiveSends(old(View()), local, ip, port, seg)
    {
      var l := FindListener(local);
      if l == |listeners| {
        return;
      }
      var k := FindFreeConn();
      if k == |conns| {
        return;
      }
      AnswerSyn(k, local, ip, port, seg);
      HandleSegmentAt(k, seg, -1);
    }

    // ---- requests ----

    method TakeQuery(h: int, q: Query)
      requires Valid()
      modifies this`replies, this`pending, this`dnsId
      ensures Valid() && View() == ServeQuery(old(View()), h, q)
    {
      var deadline := Add32(ticks, PATIENCE);
      match q {
        case Inform(w0) => Reply(h, w0, [], Plain);
        case Resolve(target, seqNo, known, mac) =>
          if known {
            Reply(h, 0, mac, Plain);
          } else {
            ParkRequest(Parked(Arp, h, target, seqNo, deadline, false, false, [], now, now + PATIENCE));
          }
        case PingHost(target, seqNo) =>
          ParkRequest(Parked(Ping, h, target, seqNo, deadline, false, false, [], now, now + PATIENCE));
        case LookUp(name, want6, dns, over6) =>
          dnsId := (dnsId + 1) % WRAP;
          var kept := name[..Min(|name|, 127)];
          ParkRequest(Parked(Dns, h, dns, dnsId % 65536, deadline, want6, over6, kept, now, now + PATIENCE, over6));
        case UdpReceive(port) =>
          ParkRequest(Parked(Udp, h, 0, port, deadline, false, false, [], now, now + PATIENCE));
        case FindNeighbour(via, seqNo, known, mac) =>
          if known {
            Reply(h, 0, mac, Plain);
          } else {
            ParkRequest(Parked(Nd, h, 0, seqNo, deadline, false, false, via, now, now + PATIENCE));
          }
        case PingHost6(target, seqNo) =>
          ParkRequest(Parked(Ping6, h, 0, seqNo, deadline, false, false, target, now, now + PATIENCE));
      }
    }

    method OpenActively(h: int, ip: nat, port: nat, v6: bool, via: nat, known: bool)
      requires Valid()
      modifies this`replies, this`pending, this`conns, this`nextId, this`nextPort, this`sent
      ensures Valid() && View() == ServeConnect(old(View()), h, ip, port, v6, via, known)
      ensures sent == old(sent) + ConnectSends(old(View()), ip, port, v6, known)
    {
      var k := FindFreeConn();
      if k == |conns| {
        Reply(h, -1, [], Plain);
      } else {
        OpenAt(k, h, ip, port, v6, via, known);
      }
    }

    method OpenAt(k: nat, h: int, ip: nat, port: nat, v6: bool, via: nat, known: bool)
      requires Valid() && k == FreeConn(conns, 0) < |conns|
      modifies this`replies, this`pending, this`conns, this`nextId, this`nextPort, this`sent
      ensures Valid() && View() == ServeConnect(old(View()), h, ip, port, v6, via, known)
      ensures sent == old(sent) + ConnectSends(old(View()), ip, port, v6, known)
    {
      var c := Dial(ip, port, v6, known);
      var p := ConnectWait(h, via, v6 || known);
      var iss := FirstNumber();
      TakeNumbers();
      var free := FindFree();
      if free == |pending| {
        Reply(h, -1, [], Plain);
        return;
      }
      conns := conns[k := c];
      FillSlot(free, p);
      if v6 || known {
        Transmit(k, true, false, false, iss, []);
      }
    }

    method TakeNumbers()
      requires Valid()
      modifies this`nextId, this`nextPort
      ensures Valid() && View() == Numbered(old(View()))
    {
      nextPort := if nextPort + 1 > 60000 then 40000 else nextPort + 1;
      nextId := nextId + 1;
    }

    method ConnectWait(h: int, via: nat, sent: bool) returns (p: Slot)
      requires Valid()
      ensures p == ConnectSlot(View(), h, via, sent)
    {
      if sent {
        p := NewWait(Connect, h, nextId, 0);
      } else {
        p := NewWait(TcpArp, h, nextId, via);
      }
    }

    method Dial(ip: nat, port: nat, v6: bool, known: bool) returns (c: Conn)
      requires Valid()
      ensures c == Dialled(View(), ip, port, v6, known)
    {
      var iss := FirstNumber();
      c := Conn(true, SynSent, nextId, false, ip, port, nextPort, v6, iss, 0, [], [], 0, 0, 0);
      if v6 && !known {
        c := c.(out := [0], outSeq := iss, outDeadline := Add32(ticks, 200));
      }
      if v6 || known {
        c := c.(sndNext := Add32(iss, 1));
      }
    }

    method Send(h: int, id: nat, data: seq<Byte>)
      requires Valid()
      modifies this`replies, this`conns, this`sent
      ensures Valid() && View() == ServeSend(old(View()), h, id, data)
      ensures sent == old(sent) + SendSends(old(View()), id, data)
    {
      var k := FindConn(id);
      if k == |conns| || !conns[k].phase.Established? || conns[k].out != [] {
        Reply(h, if k < |conns| && conns[k].out != [] then 0 else -1, [], Plain);
        return;
      }
      var c := conns[k];
      var n := |data|;
      if n > IPC_INLINE {
        n := IPC_INLINE;
      }
      conns := conns[k := c.(out := data[..n], outSeq := c.sndNext, outTries := 0,
                             outDeadline := Add32(ticks, 400), sndNext := Add32(c.sndNext, n))];
      Transmit(k, false, true, false, c.sndNext, data[..n]);
      Reply(h, n, [], Plain);
    }

    method Receive(h: int, id: nat)
      requires Valid()
      modifies this`replies, this`conns, this`pending
      ensures Valid() && View() == ServeReceive(old(View()), h, id)
    {
      var k := FindConn(id);
      if k == |conns| || conns[k].phase.Dead? {
        Reply(h, -1, [], Plain);
        return;
      }
      var c := conns[k];
      if |c.rx| > 0 {
        var n := if |c.rx| > READ_MAX then READ_MAX else |c.rx|;
        conns := conns[k := c.(rx := c.rx[n..])];
        Reply(h, n, c.rx[..n], Bytes(c.id));
      } else if c.peerClosed {
        Reply(h, 0, [], Plain);
      } else {
        ParkRequest(Parked(Read, h, c.id, 0, Add32(ticks, PATIENCE), false, false, [], now, now + PATIENCE));
      }
    }

    method Listen(h: int, port: nat)
      requires Valid()
      modifies this`replies, this`listeners
      ensures Valid() && View() == ServeListen(old(View()), h, port)
    {
      var l := FindListener(port);
      if l == |listeners| {
        l := 0;
        while l < |listeners| && listeners[l].used
          invariant l <= |listeners| && FreeListener(listeners, l) == FreeListener(listeners, 0)
        {
          l := l + 1;
        }
        if l == |listeners| {
          Reply(h, -1, [], Plain);
          return;
        }
        listeners := listeners[l := Listener(true, port, [])];
      }
      Reply(h, 0, [], Plain);
    }

    /** Takes the head of the backlog, shifting the rest down, or waits. */
    method AcceptOn(h: int, port: nat)
      requires Valid()
      modifies this`replies, this`listeners, this`pending
      ensures Valid() && View() == ServeAccept(old(View()), h, port)
    {
      var l := FindListener(port);
      if l == |listeners| {
        Reply(h, -1, [], Plain);
      } else if |listeners[l].queue| > 0 {
        var q := listeners[l].queue;
        listeners := listeners[l := listeners[l].(queue := q[1..])];
        var k := FindConn(q[0]);
        var peer := if k < |conns| then Peer(conns[k].peerIp, conns[k].peerPort) else Peer(0, 0);
        Reply(h, q[0], [], Accepted(port, q[0], peer));
      } else {
        ParkRequest(Parked(Accept, h, port, 0, Add32(ticks, PATIENCE), false, false, [], now, now + PATIENCE));
      }
    }

    /** Says goodbye on an open connection, and forgets it either way. */
    method HangUp(h: int, id: nat)
      requires Valid()
      modifies this`replies, this`conns, this`sent
      ensures Valid() && View() == ServeClose(old(View()), h, id)
      ensures sent == old(sent) + CloseSends(old(View()), id)
    {
      var k := FindConn(id);
      if k < |conns| {
        if conns[k].phase.Established? {
          Transmit(k, false, true, true, conns[k].sndNext, []);
        }
        conns := conns[k := conns[k].(used := false)];
      }
      Reply(h, 0, [], Plain);
    }

    method TakeStreamOp(h: int, op: StreamOp)
      requires Valid()
      modifies this
      ensures Valid() && View() == ServeStream(old(View()), h, op)
      ensures sent == old(sent) + StreamSends(old(View()), op)
    {
      match op {
        case TcpConnect(ip, port, v6, via, known) => OpenActively(h, ip, port, v6, via, known);
        case TcpSend(id, data) => Send(h, id, data);
        case TcpReceive(id) => Receive(h, id);
        case TcpListen(port) => Listen(h, port);
        case TcpAccept(port) => AcceptOn(h, port);
        case TcpUnlisten(port) =>
          var l := FindListener(port);
          if l < |listeners| {
            listeners := listeners[l := listeners[l].(used := false)];
          }
          Reply(h, 0, [], Plain);
        case TcpClose(id) => HangUp(h, id);
      }
    }

    // ---- the loop ----

    method RetransmitOne(i: nat)
      requires i < |conns|
      modifies this`conns, this`sent
      ensures conns == old(conns)[i := Retransmitted(old(conns[i]), ticks)]
      ensures sent == old(sent) + Packets(old(conns[i]).id, RetransmitSends(old(conns[i]), ticks))
    {
      var c := conns[i];
      if c.used && |c.out| > 0 && ticks >= c.outDeadline {
        var tries := c.outTries + 1;
        if tries > (if c.phase.SynSent? then 8 else 5) {
          conns := conns[i := c.(outTries := tries, phase := Dead, out := [])];
        } else if c.phase.SynSent? {
          Transmit(i, true, false, false, Add32(c.sndNext, WRAP - 1), []);
          conns := conns[i := c.(outTries := tries, outDeadline := Add32(ticks, 200 * tries))];
        } else {
          Transmit(i, false, true, false, c.outSeq, c.out);
          conns := conns[i := c.(outTries := tries, outDeadline := Add32(ticks, 400 * tries))];
        }
      }
    }

    /** Repeats whatever has gone unacknowledged for too long. */
    method Retransmit()
      requires Valid()
      modifies this`conns, this`sent
      ensures Valid() && View() == old(View()).(conns := RetransmitAll(old(conns), ticks))
      ensures sent == old(sent) + ResendAll(old(conns), ticks)
    {
      var i := 0;
      ghost var before := conns;
      while i < |conns|
        invariant 0 <= i <= |conns| == |before|
        invariant forall k :: 0 <= k < i ==> conns[k] == Retransmitted(before[k], ticks)
        invariant conns[i..] == before[i..]
        invariant sent + ResendAll(before[i..], ticks) == old(sent) + ResendAll(before, ticks)
      {
        assert conns[i] == conns[i..][0] == before[i];
        ResendOne(before, ticks, i, sent);
        RetransmitOne(i);
        i := i + 1;
      }
      assert conns == RetransmitAll(before, ticks);
    }

    method DrainRing(frames: seq<Frame>)
      requires Valid()
      modifies this
      ensures Valid() && View() == Drain(old(View()), frames)
      ensures sent == old(sent) + DrainSends(old(View()), frames)
    {
      var t := 0;
      while t < |frames|
        invariant 0 <= t <= |frames| && Valid()
        invariant Drain(View(), frames[t..]) == Drain(old(View()), frames)
        invariant sent + DrainSends(View(), frames[t..]) == old(sent) + DrainSends(old(View()), frames)
      {
        DrainOne(View(), frames, t, sent);
        TakeFrame(frames[t]);
        t := t + 1;
      }
    }

    /** Drain the card, retransmit, expire. */
    method KeepUp(frames: seq<Frame>, haveDns6: bool)
      requires Valid()
      modifies this
      ensures Valid() && View() == Upkeep(old(View()), frames, haveDns6)
      ensures sent == old(sent) + UpkeepSends(old(View()), frames)
    {
      DrainRing(frames);
      ghost var drained := View();
      Retransmit();
      ghost var repeated := drained.(conns := RetransmitAll(drained.conns, Ticks(drained)));
      SweepQuiet(repeated, 0, Deadline(haveDns6));
      LookThrough(Deadline(haveDns6));
    }

    method TakeArrival(arrived: Arrived)
      requires Valid()
      modifies this
      ensures Valid() && View() == Take(old(View()), arrived)
      ensures sent == old(sent) + TakeSends(old(View()), arrived)
    {
      match arrived {
        case Nothing =>
          ticks := (ticks + 1) % WRAP;
          now := now + 1;
        case Asked(h, m) =>
          asked := asked + [h];
          match m {
            case Ask(q) => TakeQuery(h, q);
            case Stream(op) => TakeStreamOp(h, op);
          }
      }
    }

    /** One turn of the event loop. */
    method Once(turn: Turn)
      requires Valid()
      modifies this
      ensures Valid() && View() == Loop(old(View()), turn)
      ensures sent == old(sent) + LoopSends(old(View()), turn)
    {
      KeepUp(turn.frames, turn.haveDns6);
      TakeArrival(turn.arrived);
    }

    /** The server from start to however far it has got. */
    method Serve(turns: seq<Turn>)
      requires Valid() && View() == Start() && sent == []
      modifies this
      ensures Valid() && View() == Run(turns) && sent == RunSends(turns)
    {
      var i := 0;
      assert turns[..0] == [];
      while i < |turns|
        invariant 0 <= i <= |turns| && Valid() && View() == Run(turns[..i]) && sent == RunSends(turns[..i])
      {
        assert turns[..i+1][..i] == turns[..i] && turns[..i+1][i] == turns[i];
        Once(turns[i]);
        i := i + 1;
      }
      assert turns[..i] == turns;
    }
  }
}
