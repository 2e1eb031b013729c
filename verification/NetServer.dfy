/**
 The network stack's event loop as a state machine: tables of parked requests,
 connections and listeners, and one step for everything a frame, a request or
 the clock can do to them.

 Frames arrive already decoded and requests already unpacked. Addresses that
 have to be looked up (the ARP and neighbour caches, the interface's own
 configuration) are not part of the state: what a lookup returned travels with
 the frame or request it was made for, so everything proved holds whatever
 those tables contain.
 */
module NetServer {
  import opened Bytes
  import opened Tcp

  const PENDING_MAX := 8
  const CONN_MAX := 8
  const LISTEN_MAX := 4
  const BACKLOG_MAX := 4
  const PATIENCE := 2000        // ticks before a parked request is given up on

  // ---- the tables ----

  datatype Wait = Arp | Ping | Dns | Udp | Connect | Read | TcpArp | Nd | Ping6 | Accept

  /**
   An entry of the pending table. The last three are history: the loop ticks,
   counted without wrapping, at which the request was parked and at which it will
   be given up on, and whether it was over IPv6 from the start.
   */
  datatype Slot =
    | Free
    | Parked(kind: Wait, handle: int, ip: nat, seqNo: nat, deadline: nat,
             want6: bool, over6: bool, name: seq<Byte>, since: nat, due: nat, first6: bool := false)

  datatype Listener = Listener(used: bool, port: nat, queue: seq<nat>)

  /** The far end of a connection, as an acceptor is told it. */
  datatype Peer = Peer(ip: nat, port: nat)

  /** What a reply is about, when it hands something over. */
  datatype Topic = Plain | Bytes(id: nat) | Accepted(port: nat, id: nat, peer: Peer)

  datatype Answer = Answer(handle: int, w0: int, data: seq<Byte>, topic: Topic)

  /** A connection that completed its passive open, and the port it came in on. */
  datatype Arrival = Arrival(port: nat, id: nat)

  /** Bytes stored in order on a connection. */
  datatype Chunk = Chunk(id: nat, bytes: seq<Byte>)

  /**
   The server. The last four fields are history: the handle of every request
   received, every reply sent, every passive open completed and every run of
   bytes stored.
   */
  datatype Server = Server(
    now: nat, pending: seq<Slot>, conns: seq<Conn>, listeners: seq<Listener>,
    nextId: nat, nextPort: nat, dnsId: nat,
    asked: seq<int>, replies: seq<Answer>, completed: seq<Arrival>, stored: seq<Chunk>)

  function Start(): Server {
    Server(0, seq(PENDING_MAX, _ => Free), seq(CONN_MAX, _ => NoConn),
           seq(LISTEN_MAX, _ => Listener(false, 0, [])), 1, 40000, 0x4C45, [], [], [], [])
  }

  ghost predicate Shaped(s: Server) {
    |s.pending| == PENDING_MAX && |s.conns| == CONN_MAX && |s.listeners| == LISTEN_MAX
  }

  /** The 32-bit tick counter. */
  function Ticks(s: Server): nat { s.now % WRAP }

  // ---- table lookups, each the first match from the start ----

  function FirstFree(pending: seq<Slot>, i: nat): (k: nat)
    requires i <= |pending|
    ensures i <= k <= |pending|
    ensures k < |pending| ==> pending[k].Free?
    ensures forall j :: i <= j < k ==> !pending[j].Free?
    decreases |pending| - i
  {
    if i == |pending| || pending[i].Free? then i else FirstFree(pending, i + 1)
  }

  /** The open connection called `id`, or the length of the table. Zero is never a connection. */
  function ConnById(conns: seq<Conn>, id: nat, i: nat): (k: nat)
    requires i <= |conns|
    ensures i <= k <= |conns|
    ensures k < |conns| ==> conns[k].used && conns[k].id == id && id != 0
    ensures id != 0 ==> forall j :: i <= j < k ==> !(conns[j].used && conns[j].id == id)
    ensures id == 0 ==> k == |conns|
    decreases |conns| - i
  {
    if i == |conns| || (id != 0 && conns[i].used && conns[i].id == id) then i else ConnById(conns, id, i + 1)
  }

  /** The two ends of an IPv4 connection. */
  predicate Between(c: Conn, local: nat, ip: nat, port: nat) {
    c.used && !c.v6 && c.localPort == local && c.peerIp == ip && c.peerPort == port
  }

  function ConnByTuple(conns: seq<Conn>, local: nat, ip: nat, port: nat, i: nat): (k: nat)
    requires i <= |conns|
    ensures i <= k <= |conns|
    ensures k < |conns| ==> Between(conns[k], local, ip, port)
    ensures forall j :: i <= j < k ==> !Between(conns[j], local, ip, port)
    decreases |conns| - i
  {
    if i == |conns| || Between(conns[i], local, ip, port) then i else ConnByTuple(conns, local, ip, port, i + 1)
  }

  /** Over IPv6 the last match wins and the peer is not compared. */
  function ConnByPort6(conns: seq<Conn>, local: nat): (k: nat)
    ensures k <= |conns|
    ensures k < |conns| ==> conns[k].used && conns[k].v6 && conns[k].localPort == local
    ensures forall j :: 0 <= j < |conns| && (j > k || k == |conns|) ==>
              !(conns[j].used && conns[j].v6 && conns[j].localPort == local)
    decreases |conns|
  {
    if conns == [] then 0
    else
      var last := |conns| - 1;
      if conns[last].used && conns[last].v6 && conns[last].localPort == local then last
      else
        var k := ConnByPort6(conns[..last], local);
        if k == last then |conns| else k
  }

  function FreeConn(conns: seq<Conn>, i: nat): (k: nat)
    requires i <= |conns|
    ensures i <= k <= |conns|
    ensures k < |conns| ==> !conns[k].used
    ensures forall j :: i <= j < k ==> conns[j].used
    decreases |conns| - i
  {
    if i == |conns| || !conns[i].used then i else FreeConn(conns, i + 1)
  }

  function ListenerOn(listeners: seq<Listener>, port: nat, i: nat): (k: nat)
    requires i <= |listeners|
    ensures i <= k <= |listeners|
    ensures k < |listeners| ==> listeners[k].used && listeners[k].port == port
    ensures forall j :: i <= j < k ==> !(listeners[j].used && listeners[j].port == port)
    decreases |listeners| - i
  {
    if i == |listeners| || (listeners[i].used && listeners[i].port == port) then i
    else ListenerOn(listeners, port, i + 1)
  }

  function FreeListener(listeners: seq<Listener>, i: nat): (k: nat)
    requires i <= |listeners|
    ensures i <= k <= |listeners|
    ensures k < |listeners| ==> !listeners[k].used
    ensures forall j :: i <= j < k ==> listeners[j].used
    decreases |listeners| - i
  {
    if i == |listeners| || !listeners[i].used then i else FreeListener(listeners, i + 1)
  }

  /** The first parked acceptor for a port. */
  function Acceptor(pending: seq<Slot>, port: nat, i: nat): (k: nat)
    requires i <= |pending|
    ensures i <= k <= |pending|
    ensures k < |pending| ==> pending[k].Parked? && pending[k].kind.Accept? && pending[k].ip == port
    ensures forall j :: i <= j < k ==>
              !(pending[j].Parked? && pending[j].kind.Accept? && pending[j].ip == port)
    decreases |pending| - i
  {
    if i == |pending| || (pending[i].Parked? && pending[i].kind.Accept? && pending[i].ip == port) then i
    else Acceptor(pending, port, i + 1)
  }

  // ---- replying and parking ----

  function Replied(s: Server, handle: int, w0: int, data: seq<Byte>, topic: Topic): Server {
    s.(replies := s.replies + [Answer(handle, w0, data, topic)])
  }

  /** Answers the request parked in slot `i` and frees the slot. */
  function Settle(s: Server, i: nat, w0: int, data: seq<Byte>, topic: Topic): Server
    requires i < |s.pending| && s.pending[i].Parked?
  {
    Replied(s, s.pending[i].handle, w0, data, topic).(pending := s.pending[i := Free])
  }

  function NewSlot(s: Server, kind: Wait, handle: int, ip: nat, seqNo: nat): (p: Slot)
    ensures p.Parked? && p.kind == kind
  {
    NamedSlot(s, kind, handle, ip, seqNo, [], false, false)
  }

  /** A slot that also remembers a name, or the sixteen bytes of an address. */
  function NamedSlot(s: Server, kind: Wait, handle: int, ip: nat, seqNo: nat,
                     name: seq<Byte>, want6: bool, over6: bool): (p: Slot)
    ensures p.Parked? && p.kind == kind
  {
    Parked(kind, handle, ip, seqNo, Add32(Ticks(s), PATIENCE), want6, over6, name, s.now, s.now + PATIENCE,
           over6)
  }

  predicate Full(s: Server) { FirstFree(s.pending, 0) == |s.pending| }

  /** Parks a request in the first free slot, or refuses it when there is none. */
  function Park(s: Server, p: Slot): Server
    requires p.Parked?
  {
    if Full(s) then Replied(s, p.handle, -1, [], Plain)
    else s.(pending := s.pending[FirstFree(s.pending, 0) := p])
  }

  // ---- what one event does to one parked request ----

  /** Everything that can make the server look through its pending table. */
  datatype Cause =
    | ArpAnswer(sender: nat, mac: seq<Byte>)
    | Neighbour(target: seq<Byte>, mac: seq<Byte>)
    | EchoReply(seqNo: nat, ttl: nat)
    | EchoReply6(seqNo: nat, hops: nat)
    | NameAnswer(over6: bool, id: nat, found6: bool, address6: seq<Byte>, address: nat)
    | Datagram(port: nat, w0: int, body: seq<Byte>)
    | Refused(id: nat, code: int)
    | Connected(id: nat)
    | Readable(conn: nat)
    | Deadline(haveDns6: bool)

  /** What becomes of one parked request. */
  datatype Verdict = Leave | Rewrite(slot: Slot) | Finish(w0: int, data: seq<Byte>, topic: Topic)

  /** A name that got no answer over IPv4 is asked for once more over IPv6. */
  predicate Renews(p: Slot, haveDns6: bool) {
    p.Parked? && p.kind.Dns? && !p.over6 && haveDns6 && |p.name| > 0 && p.name[0] != 0
  }

  function Renewed(p: Slot, now: nat): Slot
    requires p.Parked?
  {
    p.(over6 := true, deadline := Add32(now % WRAP, PATIENCE), due := now + PATIENCE)
  }

  /** Whether a connection has something for this request to read. */
  predicate Reads(p: Slot, conns: seq<Conn>, k: nat)
    requires p.Parked? && k < |conns|
  {
    p.kind.Read? && p.ip == conns[k].id
  }

  function Judge(p: Slot, cause: Cause, now: nat, conns: seq<Conn>): Verdict
    requires p.Parked? && (cause.Readable? ==> cause.conn < |conns|)
  {
    match cause
    case ArpAnswer(sender, mac) =>
      if p.ip != sender then Leave
      else if p.kind.Arp? then Finish(0, mac, Plain)
      else if p.kind.TcpArp? then Rewrite(p.(kind := Connect))
      else Leave
    case Neighbour(target, mac) => if p.kind.Nd? && p.name == target then Finish(0, mac, Plain) else Leave
    case EchoReply(seqNo, ttl) => if p.kind.Ping? && p.seqNo == seqNo then Finish(ttl, [], Plain) else Leave
    case EchoReply6(seqNo, hops) => if p.kind.Ping6? && p.seqNo == seqNo then Finish(hops, [], Plain) else Leave
    case NameAnswer(over6, id, found6, address6, address) =>
      if !p.kind.Dns? || p.seqNo != id then Leave
      else if found6 && (over6 || p.want6) then Finish(0, address6, Plain)
      else if !over6 && p.want6 then Finish(-1, [], Plain)
      else Finish(if address != 0 then address else -1, [], Plain)
    case Datagram(port, w0, body) =>
      if p.kind.Udp? && p.seqNo == port then Finish(w0, body[..Min(|body|, READ_MAX)], Plain) else Leave
    case Refused(id, code) =>
      if p.ip == id && (p.kind.Connect? || p.kind.Read?) then Finish(code, [], Plain) else Leave
    case Connected(id) => if p.kind.Connect? && p.ip == id then Finish(id, [], Plain) else Leave
    case Readable(k) =>
      if !Reads(p, conns, k) then Leave
      else if conns[k].rx != [] then
        Finish(ReadSize(conns[k]), conns[k].rx[..ReadSize(conns[k])], Bytes(conns[k].id))
      else if conns[k].peerClosed then Finish(0, [], Plain)
      else Leave
    case Deadline(haveDns6) =>
      if now % WRAP < p.deadline then Leave
      else if Renews(p, haveDns6) then Rewrite(Renewed(p, now))
      else Finish(-1, [], Plain)
  }

  function Closed(conns: seq<Conn>, id: nat): seq<Conn> {
    var k := ConnById(conns, id, 0);
    if k < |conns| then conns[k := conns[k].(used := false)] else conns
  }

  /** What the same event does to the connections. */
  function ConnsAfter(p: Slot, cause: Cause, now: nat, conns: seq<Conn>): seq<Conn>
    requires p.Parked? && (cause.Readable? ==> cause.conn < |conns|)
  {
    if cause.ArpAnswer? && p.ip == cause.sender && p.kind.TcpArp? then
      // The SYN that waited for an address goes out now.
      var k := ConnById(conns, p.ip, 0);
      if k < |conns| then conns[k := conns[k].(sndNext := Add32(conns[k].sndNext, 1))] else conns
    else if cause.Readable? && Reads(p, conns, cause.conn) && conns[cause.conn].rx != [] then
      conns[cause.conn := AfterRead(conns[cause.conn])]
    else if cause.Deadline? && now % WRAP >= p.deadline && (p.kind.Connect? || p.kind.TcpArp?) then
      // Nothing answered; no half-open connection is left behind.
      Closed(conns, p.ip)
    else conns
  }

  function ServeSlot(s: Server, i: nat, cause: Cause): Server
    requires i < |s.pending|
    requires cause.Readable? ==> cause.conn < |s.conns|
  {
    var p := s.pending[i];
    if p.Free? then s
    else
      var t := s.(conns := ConnsAfter(p, cause, s.now, s.conns));
      match Judge(p, cause, s.now, s.conns)
      case Leave => t
      case Rewrite(q) => t.(pending := s.pending[i := q])
      case Finish(w0, data, topic) => Settle(t, i, w0, data, topic)
  }

  /** The loop over the pending table, from slot `i` on. */
  function Sweep(s: Server, i: nat, cause: Cause): (t: Server)
    requires i <= |s.pending|
    requires cause.Readable? ==> cause.conn < |s.conns|
    ensures |t.pending| == |s.pending| && |t.conns| == |s.conns| && t.listeners == s.listeners
    decreases |s.pending| - i
  {
    if i == |s.pending| then s else Sweep(ServeSlot(s, i, cause), i + 1, cause)
  }

  // ---- segments ----

  /** A passive open completes: to a waiting acceptor, else into the listener's queue, else nowhere. */
  function HandOver(s: Server, k: nat): Server
    requires k < |s.conns|
  {
    var c := s.conns[k];
    var t := s.(conns := s.conns[k := c.(phase := Established)],
                completed := s.completed + [Arrival(c.localPort, c.id)]);
    var a := Acceptor(s.pending, c.localPort, 0);
    var l := ListenerOn(s.listeners, c.localPort, 0);
    if a < |s.pending| then Settle(t, a, c.id, [], Accepted(c.localPort, c.id, Peer(c.peerIp, c.peerPort)))
    else if l < |s.listeners| && |s.listeners[l].queue| < BACKLOG_MAX then
      t.(listeners := s.listeners[l := s.listeners[l].(queue := s.listeners[l].queue + [c.id])])
    else t
  }

  /** A segment for the connection at `k`. A refusal is reported with `code`. */
  function HandleSegment(s: Server, k: nat, seg: Segment, code: int): Server
    requires k < |s.conns|
  {
    var o := if s.conns[k].phase.SynRcvd? && seg.ack then HandOver(s, k) else s;
    var c := o.conns[k];
    if seg.rst then
      Sweep(o.(conns := o.conns[k := c.(phase := Dead)]), 0, Refused(c.id, code))
    else if Completes(c, seg) then
      var open := Synchronised(c, seg);
      Sweep(o.(conns := o.conns[k := if c.v6 then open.(out := []) else open]), 0, Connected(c.id))
    else
      var t := o.(conns := o.conns[k := Finished(Stored(Acknowledged(c, seg), seg), seg)],
                  stored := o.stored + [Chunk(c.id, Fresh(c, seg))]);
      Sweep(t, 0, Readable(k))
  }

  /** The initial sequence number of a connection opened now. */
  function InitialSeq(s: Server): nat { (0x5EED0000 + Ticks(s) * 7919) % WRAP }

  /**
   A SYN that belongs to no connection: at a port something listens on it makes
   one, and goes on through that connection's own state machine.
   */
  function PassiveOpen(s: Server, local: nat, ip: nat, port: nat, seg: Segment): Server {
    var l := ListenerOn(s.listeners, local, 0);
    var k := FreeConn(s.conns, 0);
    if l < |s.listeners| && k < |s.conns| then
      var c := Answering(s.nextId, ip, port, local, InitialSeq(s), seg);
      HandleSegment(s.(conns := s.conns[k := c], nextId := s.nextId + 1), k, seg, -1)
    else s
  }

  /** A decoded frame. Those that only make the server send something are `Other`. */
  datatype Frame =
    | Signal(cause: Cause)
    | Segment4(local: nat, ip: nat, port: nat, seg: Segment)
    | Segment6(local: nat, seg: Segment)
    | Other

  /** The causes that come off the wire, as against those the server raises itself. */
  predicate Wire(c: Cause) {
    c.ArpAnswer? || c.Neighbour? || c.EchoReply? || c.EchoReply6? || c.NameAnswer? || c.Datagram?
  }

  function HandleFrame(s: Server, f: Frame): Server {
    match f
    case Signal(cause) => if Wire(cause) then Sweep(s, 0, cause) else s
    case Segment4(local, ip, port, seg) =>
      var k := ConnByTuple(s.conns, local, ip, port, 0);
      if k < |s.conns| then HandleSegment(s, k, seg, -1)
      else if seg.syn && !seg.ack then PassiveOpen(s, local, ip, port, seg)
      else s
    case Segment6(local, seg) =>
      var k := ConnByPort6(s.conns, local);
      if k < |s.conns| then HandleSegment(s, k, seg, -2) else s
    case Other => s
  }

  // ---- requests ----

  /**
   A request about names, addresses or datagrams. `known` says the hardware
   address it needs is in the cache, and `mac` what the cache holds.
   */
  datatype Query =
    | Inform(w0: int)                              // anything answered at once from the server's own state
    | Resolve(target: nat, seqNo: nat, known: bool, mac: seq<Byte>)
    | PingHost(target: nat, seqNo: nat)
    | LookUp(name: seq<Byte>, want6: bool, dns: nat, over6: bool)
    | UdpReceive(port: nat)
    | FindNeighbour(via6: seq<Byte>, seqNo: nat, known: bool, mac: seq<Byte>)
    | PingHost6(target6: seq<Byte>, seqNo: nat)

  /** A request about connections. `known` says the first segment can be sent at once. */
  datatype StreamOp =
    | TcpConnect(ip: nat, port: nat, v6: bool, via: nat, known: bool)
    | TcpSend(id: nat, data: seq<Byte>)
    | TcpReceive(id: nat)
    | TcpListen(port: nat)
    | TcpAccept(port: nat)
    | TcpUnlisten(port: nat)
    | TcpClose(id: nat)

  datatype Request = Ask(query: Query) | Stream(op: StreamOp)

  function NextPort(port: nat): nat { if port + 1 > 60000 then 40000 else port + 1 }

  /** The first `max` bytes of a name, as the slot keeps them. */
  function Kept(name: seq<Byte>): seq<Byte> { name[..Min(|name|, 127)] }

  function ServeConnect(s: Server, h: int, ip: nat, port: nat, v6: bool, via: nat, known: bool): Server {
    var k := FreeConn(s.conns, 0);
    if k == |s.conns| then Replied(s, h, -1, [], Plain)
    else if Full(s) then Replied(Numbered(s), h, -1, [], Plain)
    else
      Park(Numbered(s).(conns := s.conns[k := Dialled(s, ip, port, v6, known)]), ConnectSlot(s, h, via, v6 || known))
  }

  /** A connection takes the next id and the next local port. */
  function Numbered(s: Server): Server { s.(nextId := s.nextId + 1, nextPort := NextPort(s.nextPort)) }

  /** A connection just opened; when its SYN could not be sent, IPv6 leaves something for the timer to repeat. */
  function Dialled(s: Server, ip: nat, port: nat, v6: bool, known: bool): Conn {
    var c := Connecting(s.nextId, ip, port, s.nextPort, v6, InitialSeq(s));
    if known then c
    else if v6 then c.(out := [0], outSeq := InitialSeq(s), outDeadline := Add32(Ticks(s), 200))
    else c.(sndNext := InitialSeq(s))
  }

  function ConnectSlot(s: Server, h: int, via: nat, sent: bool): (p: Slot)
    ensures p.Parked?
  {
    if sent then NewSlot(s, Connect, h, s.nextId, 0) else NewSlot(s, TcpArp, h, s.nextId, via)
  }

  function ServeSend(s: Server, h: int, id: nat, data: seq<Byte>): Server {
    var k := ConnById(s.conns, id, 0);
    if k == |s.conns| then Replied(s, h, -1, [], Plain)
    else
      var c := s.conns[k];
      if c.out != [] then Replied(s, h, 0, [], Plain)
      else if !c.phase.Established? then Replied(s, h, -1, [], Plain)
      else
        Replied(s, h, |Taken(c, data)|, [], Plain).(conns := s.conns[k := Offered(c, data, Ticks(s))])
  }

  function ServeReceive(s: Server, h: int, id: nat): Server {
    var k := ConnById(s.conns, id, 0);
    if k == |s.conns| || s.conns[k].phase.Dead? then Replied(s, h, -1, [], Plain)
    else
      var c := s.conns[k];
      if c.rx != [] then
        Replied(s, h, ReadSize(c), c.rx[..ReadSize(c)], Bytes(c.id)).(conns := s.conns[k := AfterRead(c)])
      else if c.peerClosed then Replied(s, h, 0, [], Plain)
      else Park(s, NewSlot(s, Read, h, c.id, 0))
  }

  function ServeListen(s: Server, h: int, port: nat): Server {
    if ListenerOn(s.listeners, port, 0) < |s.listeners| then Replied(s, h, 0, [], Plain)
    else
      var l := FreeListener(s.listeners, 0);
      if l == |s.listeners| then Replied(s, h, -1, [], Plain)
      else Replied(s, h, 0, [], Plain).(listeners := s.listeners[l := Listener(true, port, [])])
  }

  /** The far end of a connection that was queued, or zeroes once it has been closed. */
  function PeerOf(conns: seq<Conn>, id: nat): Peer {
    var k := ConnById(conns, id, 0);
    if k < |conns| then Peer(conns[k].peerIp, conns[k].peerPort) else Peer(0, 0)
  }

  function ServeAccept(s: Server, h: int, port: nat): Server {
    var l := ListenerOn(s.listeners, port, 0);
    if l == |s.listeners| then Replied(s, h, -1, [], Plain)
    else
      var q := s.listeners[l].queue;
      if q != [] then
        Replied(s, h, q[0], [], Accepted(port, q[0], PeerOf(s.conns, q[0]))).(
          listeners := s.listeners[l := s.listeners[l].(queue := q[1..])])
      else Park(s, NewSlot(s, Accept, h, port, 0))
  }

  function ServeUnlisten(s: Server, h: int, port: nat): Server {
    var l := ListenerOn(s.listeners, port, 0);
    var r := Replied(s, h, 0, [], Plain);
    if l < |s.listeners| then r.(listeners := s.listeners[l := s.listeners[l].(used := false)]) else r
  }

  function ServeLookUp(s: Server, h: int, name: seq<Byte>, want6: bool, dns: nat, over6: bool): Server {
    var id := (s.dnsId + 1) % WRAP;
    Park(s.(dnsId := id), NamedSlot(s, Dns, h, dns, id % 65536, Kept(name), want6, over6))
  }

  /** An answer already in the cache, or a request to park until one arrives. */
  function ServeFromCache(s: Server, h: int, known: bool, mac: seq<Byte>, p: Slot): Server
    requires p.Parked?
  {
    if known then Replied(s, h, 0, mac, Plain) else Park(s, p)
  }

  function ServeQuery(s: Server, h: int, q: Query): Server {
    match q
    case Inform(w0) => Replied(s, h, w0, [], Plain)
    case Resolve(target, seqNo, known, mac) =>
      ServeFromCache(s, h, known, mac, NewSlot(s, Arp, h, target, seqNo))
    case PingHost(target, seqNo) => Park(s, NewSlot(s, Ping, h, target, seqNo))
    case LookUp(name, want6, dns, over6) => ServeLookUp(s, h, name, want6, dns, over6)
    case UdpReceive(port) => Park(s, NewSlot(s, Udp, h, 0, port))
    case FindNeighbour(via, seqNo, known, mac) =>
      ServeFromCache(s, h, known, mac, NamedSlot(s, Nd, h, 0, seqNo, via, false, false))
    case PingHost6(target, seqNo) => Park(s, NamedSlot(s, Ping6, h, 0, seqNo, target, false, false))
  }

  function ServeClose(s: Server, h: int, id: nat): Server {
    Replied(s.(conns := Closed(s.conns, id)), h, 0, [], Plain)
  }

  function ServeStream(s: Server, h: int, op: StreamOp): Server {
    match op
    case TcpConnect(ip, port, v6, via, known) => ServeConnect(s, h, ip, port, v6, via, known)
    case TcpSend(id, data) => ServeSend(s, h, id, data)
    case TcpReceive(id) => ServeReceive(s, h, id)
    case TcpListen(port) => ServeListen(s, h, port)
    case TcpAccept(port) => ServeAccept(s, h, port)
    case TcpUnlisten(port) => ServeUnlisten(s, h, port)
    case TcpClose(id) => ServeClose(s, h, id)
  }

  function Serve(s: Server, h: int, m: Request): Server {
    match m
    case Ask(q) => ServeQuery(s, h, q)
    case Stream(op) => ServeStream(s, h, op)
  }

  // ---- one turn of the loop ----

  function RetransmitAll(conns: seq<Conn>, ticks: nat): (r: seq<Conn>)
    ensures |r| == |conns|
    ensures forall k :: 0 <= k < |conns| ==> r[k] == Retransmitted(conns[k], ticks)
  {
    if conns == [] then [] else [Retransmitted(conns[0], ticks)] + RetransmitAll(conns[1..], ticks)
  }

  function Drain(s: Server, frames: seq<Frame>): Server
    decreases |frames|
  {
    if frames == [] then s else Drain(HandleFrame(s, frames[0]), frames[1..])
  }

  /** A request waiting at the port, with the handle to answer it by. */
  datatype Arrived = Nothing | Asked(handle: int, request: Request)

  datatype Turn = Turn(frames: seq<Frame>, haveDns6: bool, arrived: Arrived)

  /** Drain the card, retransmit, expire. */
  function Upkeep(s: Server, frames: seq<Frame>, haveDns6: bool): Server {
    var drained := Drain(s, frames);
    var sent := drained.(conns := RetransmitAll(drained.conns, Ticks(drained)));
    Sweep(sent, 0, Deadline(haveDns6))
  }

  /** Take one request, or let a tick pass. */
  function Take(s: Server, arrived: Arrived): Server {
    match arrived
    case Nothing => s.(now := s.now + 1)
    case Asked(h, m) => Serve(s.(asked := s.asked + [h]), h, m)
  }

  function Loop(s: Server, t: Turn): Server { Take(Upkeep(s, t.frames, t.haveDns6), t.arrived) }

  function Run(turns: seq<Turn>): Server {
    if turns == [] then Start() else Loop(Run(turns[..|turns| - 1]), turns[|turns| - 1])
  }
}
