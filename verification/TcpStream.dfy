/**
 Two hosts running this stack, and a network between them that may lose,
 duplicate and reorder: everything ever sent stays in a set, and any member of
 it may be delivered at any moment, any number of times, or never.

 One host has connected and the other listens. Both send; the theorems are
 about both directions at once.
 */
module TcpStream {
  import opened Bytes
  import opened Tcp

  /**
   One host's end. `iss` is the sequence number of its SYN; `taken` is history:
   every byte accepted from its caller, `accepted` every byte stored in order
   from the peer, `returned` every byte handed to a reader.
   */
  datatype Host = Host(conn: Conn, iss: nat, taken: seq<Byte>, accepted: seq<Byte>, returned: seq<Byte>)

  /** Both ends, and everything ever sent to each. */
  datatype State = State(client: Host, server: Host, toServer: set<Segment>, toClient: set<Segment>)

  /** The client has just sent its SYN; nothing has reached the server. */
  function Start(id: nat, ip: nat, port: nat, local: nat, iss: nat): State {
    var c := Connecting(id, ip, port, local, false, iss);
    State(Host(c, iss, [], [], []), Host(NoConn, 0, [], [], []), {Sent(c, iss, true, false, false, [])}, {})
  }

  datatype Action =
    | Deliver(toServer: bool, seg: Segment, iss: nat)
    | Offer(byServer: bool, data: seq<Byte>, ticks: nat)
    | Read(byServer: bool)
    | Tick(ofServer: bool, ticks: nat)

  // ---- the steps ----

  function Segments(sent: seq<Segment>): set<Segment> { set seg | seg in sent }

  /** A host whose connection is open takes a segment in. */
  function Received(h: Host, seg: Segment): Host {
    h.(conn := Arrive(h.conn, seg), accepted := h.accepted + Fresh(h.conn, seg))
  }

  /** The server's listener answers a SYN with a connection of its own. */
  function Accepting(h: Host, seg: Segment, iss: nat): Host {
    h.(conn := Answering(1, 0, 0, 0, iss, seg), iss := iss)
  }

  function Offering(h: Host, data: seq<Byte>, ticks: nat): Host {
    h.(conn := Offered(h.conn, data, ticks), taken := h.taken + Taken(h.conn, data))
  }

  /** A reader is served; one that was waiting, on a connection given up on too. */
  function Reading(h: Host): Host {
    if h.conn.used then
      h.(conn := AfterRead(h.conn), returned := h.returned + h.conn.rx[..ReadSize(h.conn)])
    else h
  }

  function Waiting(h: Host, ticks: nat): Host { h.(conn := Retransmitted(h.conn, ticks)) }

  function ToServer(s: State, seg: Segment, iss: nat): State {
    var h := s.server;
    if h.conn.used then
      s.(server := Received(h, seg), toClient := s.toClient + Segments(Replies(h.conn, seg)))
    else if seg.syn && !seg.ack then
      var h' := Accepting(h, seg, iss);
      s.(server := h', toClient := s.toClient + {Sent(h'.conn, iss, true, true, false, [])})
    else s
  }

  function ToClient(s: State, seg: Segment): State {
    s.(client := Received(s.client, seg),
       toServer := s.toServer + Segments(Replies(s.client.conn, seg)))
  }

  function Step(s: State, a: Action): State {
    match a
    case Deliver(toServer, seg, iss) => if toServer then ToServer(s, seg, iss) else ToClient(s, seg)
    case Offer(byServer, data, ticks) =>
      if byServer then s.(server := Offering(s.server, data, ticks),
                          toClient := s.toClient + Segments(OfferSends(s.server.conn, data)))
      else s.(client := Offering(s.client, data, ticks),
              toServer := s.toServer + Segments(OfferSends(s.client.conn, data)))
    case Read(byServer) =>
      if byServer then s.(server := Reading(s.server)) else s.(client := Reading(s.client))
    case Tick(ofServer, ticks) =>
      if ofServer then s.(server := Waiting(s.server, ticks),
                          toClient := s.toClient + Segments(RetransmitSends(s.server.conn, ticks)))
      else s.(client := Waiting(s.client, ticks),
              toServer := s.toServer + Segments(RetransmitSends(s.client.conn, ticks)))
  }

  // ---- which runs ----

  /** The body fits what is left of the receiver's buffer, if it is the one expected next. */
  predicate Fits(c: Conn, seg: Segment) { seg.seqNo == c.rcvNext ==> |c.rx| + |seg.body| <= TCP_RX }

  /** The sequence numbers of everything taken so far, and of this block, stay below 2^32. */
  predicate NoWrap(h: Host, data: seq<Byte>) { h.iss + 1 + |h.taken| + Min(|data|, IPC_INLINE) < WRAP }

  ghost predicate Allowed(s: State, a: Action) {
    match a
    case Deliver(toServer, seg, iss) =>
      seg in (if toServer then s.toServer else s.toClient) && iss + 1 < WRAP
    case Offer(byServer, data, _) => NoWrap(if byServer then s.server else s.client, data)
    case Read(_) => true
    case Tick(_, _) => true
  }

  function Run(s: State, actions: seq<Action>): State {
    if actions == [] then s else Step(Run(s, actions[..|actions| - 1]), actions[|actions| - 1])
  }

  ghost predicate AllAllowed(s: State, actions: seq<Action>) {
    actions == [] ||
    (AllAllowed(s, actions[..|actions| - 1]) &&
     Allowed(Run(s, actions[..|actions| - 1]), actions[|actions| - 1]))
  }

  /** A step that delivers nothing to one of the hosts, or something it has room for. */
  predicate FitsAt(s: State, a: Action, toServer: bool) {
    a.Deliver? && a.toServer == toServer ==> Fits(if toServer then s.server.conn else s.client.conn, a.seg)
  }

  /** Every segment a run delivered in order to one of the hosts found room there. */
  ghost predicate AllFit(s: State, actions: seq<Action>, toServer: bool) {
    actions == [] ||
    (AllFit(s, actions[..|actions| - 1], toServer) &&
     FitsAt(Run(s, actions[..|actions| - 1]), actions[|actions| - 1], toServer))
  }

  // ---- the invariant ----

  /** The sequence number of the first byte of `h`'s stream. */
  function Base(h: Host): nat { h.iss + 1 }

  /** A host that has been given the other's sequence numbers. */
  predicate Synced(h: Host) { h.conn.used && !h.conn.phase.SynSent? }

  /** What is in flight is the tail of what was taken. */
  ghost predicate InFlight(base: nat, taken: seq<Byte>, out: seq<Byte>, outSeq: nat) {
    && |out| <= |taken|
    && out == taken[|taken| - |out|..]
    && (out != [] ==> outSeq == base + |taken| - |out|)
  }

  /** The sending side. */
  ghost predicate Sender(x: Host) {
    && Base(x) + |x.taken| < WRAP
    && (x.conn.used ==> x.conn.sndNext == Base(x) + |x.taken|)
    && InFlight(Base(x), x.taken, x.conn.out, x.conn.outSeq)
    && (!x.conn.phase.Established? ==> x.conn.out == [])
  }

  /** How much of the stream starting at `base` a host has acknowledged. */
  function Seen(y: Host, base: nat): int { if Synced(y) then y.conn.rcvNext - base else 0 }

  /** The receiving side: what was accepted is what was returned and what is buffered, and no more than was seen. */
  ghost predicate Receiver(y: Host, base: nat) {
    && y.returned + y.conn.rx == y.accepted
    && |y.conn.rx| <= TCP_RX
    && |y.accepted| <= Seen(y, base)
  }

  /** Nothing that was acknowledged has been lost. */
  predicate InStep(x: Host, y: Host) { Seen(y, Base(x)) == |y.accepted| }

  /**
   A segment in the network carries bytes the sender took, at their place in
   the stream: either it is the one in flight, or it ends before that begins.
   */
  ghost predicate Carries(seg: Segment, base: nat, taken: seq<Byte>, flying: nat) {
    && !seg.fin && !seg.rst
    && (seg.body != [] ==>
          && base <= seg.seqNo && seg.seqNo - base + |seg.body| <= |taken|
          && seg.body == taken[seg.seqNo - base..seg.seqNo - base + |seg.body|]
          && (seg.seqNo - base + flying == |taken| || seg.seqNo - base + |seg.body| + flying <= |taken|)
          && (seg.seqNo - base + flying == |taken| ==> |seg.body| == flying))
  }

  ghost predicate AllCarry(xy: set<Segment>, base: nat, taken: seq<Byte>, flying: nat) {
    forall seg <- xy :: Carries(seg, base, taken, flying)
  }

  /** Nothing is acknowledged that has not been seen. */
  ghost predicate AcksBelow(yx: set<Segment>, bound: nat) {
    forall seg <- yx :: seg.ack ==> seg.ackNo <= bound
  }

  /** One direction of the stream, from `x` to `y`. */
  ghost predicate Flow(x: Host, y: Host, xy: set<Segment>, yx: set<Segment>) {
    && Sender(x) && Receiver(y, Base(x))
    && Progress(x, Seen(y, Base(x)))
    && (InStep(x, y) ==> y.accepted <= x.taken)
    && AllCarry(xy, Base(x), x.taken, |x.conn.out|)
    && AcksBelow(yx, Base(x) + Seen(y, Base(x)))
  }

  /** The receiver has seen everything taken, or everything but what is in flight. */
  ghost predicate Progress(x: Host, seen: int) {
    seen <= |x.taken| && (!x.conn.phase.Dead? ==> seen == |x.taken| || seen == |x.taken| - |x.conn.out|)
  }

  /** How far the handshake has come. */
  ghost predicate Handshake(s: State) {
    var c, d := s.client.conn, s.server.conn;
    && c.used && !c.phase.SynRcvd?
    && !(d.used && d.phase.SynSent?)
    && (forall seg <- s.toServer :: seg.syn ==> seg.seqNo == s.client.iss && seg.body == [] && !seg.ack)
    && (forall seg <- s.toClient :: seg.syn ==> seg.ack && seg.seqNo == s.server.iss && seg.ackNo == Base(s.client) && seg.body == [])
    && (c.phase.SynSent? ==>
          && s.client.taken == []
          && (d.used ==> d.phase.SynRcvd?)
          && (forall seg <- s.toServer :: !seg.ack)
          && (forall seg <- s.toClient :: seg.syn))
    && (!c.phase.SynSent? ==> d.used)
    && (!d.used ==> s.toClient == {})
    && (!(d.used && !d.phase.SynRcvd?) ==> s.server.taken == [])
  }

  ghost predicate Inv(s: State) {
    && Handshake(s)
    && Flow(s.client, s.server, s.toServer, s.toClient)
    && Flow(s.server, s.client, s.toClient, s.toServer)
  }

  // ---- the sending side of a flow ----

  /** With nothing in flight, a new block leaves older segments where they were. */
  lemma CarriesMore(seg: Segment, base: nat, taken: seq<Byte>, more: seq<Byte>)
    requires Carries(seg, base, taken, 0)
    ensures Carries(seg, base, taken + more, |more|)
  {
    if seg.body != [] {
      var i := seg.seqNo - base;
      assert (taken + more)[i..i + |seg.body|] == taken[i..i + |seg.body|];
    }
  }

  /** Clearing what was in flight leaves every segment where it was. */
  lemma CarriesCleared(xy: set<Segment>, base: nat, taken: seq<Byte>, flying: nat)
    requires AllCarry(xy, base, taken, flying)
    ensures AllCarry(xy, base, taken, 0)
  {
    forall seg | seg in xy ensures Carries(seg, base, taken, 0) {
      assert Carries(seg, base, taken, flying);
    }
  }

  /** A block sent for the first time joins the segments already in the network. */
  lemma BlockJoins(xy: set<Segment>, base: nat, taken: seq<Byte>, block: seq<Byte>, seg: Segment)
    requires AllCarry(xy, base, taken, 0)
    requires seg.seqNo == base + |taken| && seg.body == block && !seg.fin && !seg.rst
    ensures AllCarry(xy + {seg}, base, taken + block, |block|)
    ensures InFlight(base, taken + block, block, base + |taken|)
  {
    forall t | t in xy ensures Carries(t, base, taken + block, |block|) {
      CarriesMore(t, base, taken, block);
    }
  }

  lemma BlockTaken(x: Host, x': Host, y: Host, xy: set<Segment>, yx: set<Segment>, block: seq<Byte>, seg: Segment)
    requires Flow(x, y, xy, yx) && x.conn.used && x.conn.phase.Established? && x.conn.out == []
    requires Base(x) + |x.taken| + |block| < WRAP
    requires seg.seqNo == Base(x) + |x.taken| && seg.body == block && !seg.fin && !seg.rst
    requires x'.iss == x.iss && x'.taken == x.taken + block && x'.conn.phase.Established?
    requires x'.conn.out == block && x'.conn.outSeq == Base(x) + |x.taken|
    requires x'.conn.sndNext == Base(x) + |x.taken| + |block|
    ensures Flow(x', y, xy + {seg}, yx)
  {
    BlockJoins(xy, Base(x), x.taken, block, seg);
    assert Seen(y, Base(x)) == |x.taken|;
  }

  /** A sender with nothing in flight takes a block and sends it, numbered from the end of what it took before. */
  lemma OfferGoes(x: Host, data: seq<Byte>, ticks: nat)
    requires Sender(x) && NoWrap(x, data) && x.conn.used && x.conn.phase.Established? && x.conn.out == []
    ensures var block, x', end := data[..Min(|data|, IPC_INLINE)], Offering(x, data, ticks), Base(x) + |x.taken|;
            && x'.iss == x.iss && x'.taken == x.taken + block && x'.conn.phase.Established?
            && x'.conn.out == block && x'.conn.outSeq == end && x'.conn.sndNext == end + |block|
            && OfferSends(x.conn, data) == [Sent(x.conn, end, false, true, false, block)]
  {
  }

  /** Taking a block from the caller keeps the flow it joins. */
  lemma SenderOffers(x: Host, y: Host, xy: set<Segment>, yx: set<Segment>, data: seq<Byte>, ticks: nat)
    requires Flow(x, y, xy, yx) && NoWrap(x, data)
    ensures Flow(Offering(x, data, ticks), y, xy + Segments(OfferSends(x.conn, data)), yx)
  {
    if x.conn.used && x.conn.phase.Established? && x.conn.out == [] {
      var block := data[..Min(|data|, IPC_INLINE)];
      var seg := Sent(x.conn, Base(x) + |x.taken|, false, true, false, block);
      OfferGoes(x, data, ticks);
      BlockTaken(x, Offering(x, data, ticks), y, xy, yx, block, seg);
      assert Segments(OfferSends(x.conn, data)) == {seg};
    } else {
      assert Offering(x, data, ticks) == x && OfferSends(x.conn, data) == [];
      assert xy + Segments(OfferSends(x.conn, data)) == xy;
    }
  }

  lemma SenderWaits(x: Host, y: Host, xy: set<Segment>, yx: set<Segment>, ticks: nat)
    requires Flow(x, y, xy, yx)
    ensures Flow(Waiting(x, ticks), y, xy + Segments(RetransmitSends(x.conn, ticks)), yx)
  {
    if Due(x.conn, ticks) {
      var n, k := |x.taken|, |x.conn.out|;
      assert x.taken[n - k..n] == x.conn.out;
      CarriesCleared(xy, Base(x), x.taken, k);
      assert Waiting(x, ticks).conn.out == x.conn.out || Waiting(x, ticks).conn.out == [];
    }
  }

  /** A reader on the sending host does not touch its sending side. */
  lemma SenderReads(x: Host, y: Host, xy: set<Segment>, yx: set<Segment>)
    requires Flow(x, y, xy, yx)
    ensures Flow(Reading(x), y, xy, yx)
  {
    var x' := Reading(x);
    assert x'.iss == x.iss && x'.taken == x.taken && x'.conn == x.conn.(rx := x'.conn.rx);
    assert Sender(x');
  }

  /** A sender that has learnt, at most, that all it sent has been seen, and has answered with bare segments. */
  lemma SenderLearns(x: Host, x': Host, y: Host, xy: set<Segment>, yx: set<Segment>, bare: set<Segment>)
    requires Flow(x, y, xy, yx) && x'.iss == x.iss && x'.taken == x.taken
    requires x'.conn.used == x.conn.used && x'.conn.sndNext == x.conn.sndNext && x'.conn.outSeq == x.conn.outSeq
    requires x'.conn.phase == x.conn.phase || (x.conn.phase.SynRcvd? && x'.conn.phase.Established?)
    requires x'.conn.out == x.conn.out || (x'.conn.out == [] && Seen(y, Base(x)) == |x.taken|)
    requires forall seg <- bare :: seg.body == [] && !seg.fin && !seg.rst
    ensures Flow(x', y, xy + bare, yx)
  {
    CarriesCleared(xy, Base(x), x.taken, |x.conn.out|);
  }

  /** The sender takes a segment in: only a full acknowledgement clears what is in flight. */
  lemma SenderReceives(x: Host, y: Host, xy: set<Segment>, yx: set<Segment>, seg: Segment)
    requires Flow(x, y, xy, yx) && x.conn.used && seg in yx && !seg.rst && !seg.fin
    requires !x.conn.phase.SynSent?
    ensures Flow(Received(x, seg), y, xy + Segments(Replies(x.conn, seg)), yx)
  {
    ArriveAcknowledges(x.conn, seg);
    assert Acknowledges(Opened(x.conn, seg), seg) ==> Seen(y, Base(x)) == |x.taken|;
    forall r | r in Replies(x.conn, seg) ensures r.body == [] && !r.fin && !r.rst {
      RepliesAcknowledge(x.conn, seg, r);
    }
    SenderLearns(x, Received(x, seg), y, xy, yx, Segments(Replies(x.conn, seg)));
  }

  // ---- the receiving side of a flow ----

  lemma ReceiverOffers(x: Host, y: Host, xy: set<Segment>, yx: set<Segment>, data: seq<Byte>, ticks: nat)
    requires Flow(x, y, xy, yx)
    requires y.conn.used && y.conn.phase.Established? ==> Synced(y)
    ensures Flow(x, Offering(y, data, ticks), xy, yx + Segments(OfferSends(y.conn, data)))
  {
  }

  lemma ReceiverWaits(x: Host, y: Host, xy: set<Segment>, yx: set<Segment>, ticks: nat)
    requires Flow(x, y, xy, yx) && Sender(y)
    ensures Flow(x, Waiting(y, ticks), xy, yx + Segments(RetransmitSends(y.conn, ticks)))
  {
  }

  lemma ReceiverReads(x: Host, y: Host, xy: set<Segment>, yx: set<Segment>)
    requires Flow(x, y, xy, yx)
    ensures Flow(x, Reading(y), xy, yx)
  {
    var n := ReadSize(y.conn);
    assert y.returned + y.conn.rx[..n] + y.conn.rx[n..] == y.returned + y.conn.rx;
  }

  /** The bytes of an in-order segment are the next ones of the stream. */
  lemma NextBytes(seg: Segment, base: nat, taken: seq<Byte>, accepted: seq<Byte>, flying: nat)
    requires Carries(seg, base, taken, flying) && accepted <= taken
    requires seg.body != [] && seg.seqNo == base + |accepted|
    ensures accepted + seg.body <= taken
  {
    var k := |accepted|;
    assert accepted + seg.body == taken[..k] + taken[k..k + |seg.body|] == taken[..k + |seg.body|];
  }

  /** A receiver acknowledges all of an in-order segment, accepts what fits of it, and nothing of any other. */
  lemma ReceiverStores(y: Host, base: nat, seg: Segment)
    requires Receiver(y, base) && Synced(y) && !seg.rst && !seg.fin
    requires seg.seqNo == y.conn.rcvNext ==> y.conn.rcvNext + |seg.body| < WRAP
    ensures Receiver(Received(y, seg), base) && Synced(Received(y, seg))
    ensures Seen(Received(y, seg), base) == Seen(y, base) + if seg.seqNo == y.conn.rcvNext then |seg.body| else 0
    ensures Received(y, seg).accepted ==
            y.accepted + if seg.seqNo == y.conn.rcvNext then seg.body[..Room(y.conn, seg)] else []
  {
    var bytes := Fresh(y.conn, seg);
    ArriveStores(y.conn, seg);
    assert y.returned + (y.conn.rx + bytes) == y.accepted + bytes;
  }

  /** What a segment without FIN or RST does to the receiving half of a synchronised connection. */
  lemma ArriveStores(c: Conn, seg: Segment)
    requires !c.phase.SynSent? && !seg.rst && !seg.fin
    ensures var d := Arrive(c, seg);
            && d.used == c.used && !d.phase.SynSent? && d.rx == c.rx + Fresh(c, seg)
            && (seg.seqNo != c.rcvNext ==> d.rcvNext == c.rcvNext && Fresh(c, seg) == [])
            && (seg.seqNo == c.rcvNext ==>
                  && Fresh(c, seg) == seg.body[..Room(c, seg)]
                  && (seg.body == [] || d.rcvNext == Add32(c.rcvNext, |seg.body|))
                  && (seg.body == [] ==> d.rcvNext == c.rcvNext))
  {
    assert !Completes(Opened(c, seg), seg);
  }

  /** And to the sending half. */
  lemma ArriveAcknowledges(c: Conn, seg: Segment)
    requires !c.phase.SynSent? && !seg.rst && !seg.fin
    ensures var d := Arrive(c, seg);
            && d.used == c.used && d.sndNext == c.sndNext && d.outSeq == c.outSeq && Opened(c, seg).out == c.out
            && d.out == (if Acknowledges(Opened(c, seg), seg) then [] else c.out)
            && d.phase == Opened(c, seg).phase
  {
    assert !Completes(Opened(c, seg), seg);
  }

  /** What a synchronised host sends back is a bare acknowledgement of what it has now accepted. */
  lemma RepliesAcknowledge(c: Conn, seg: Segment, r: Segment)
    requires !c.phase.SynSent? && !seg.rst && !seg.fin && r in Replies(c, seg)
    ensures r.ackNo == Arrive(c, seg).rcvNext && r.ack && !r.syn && !r.fin && !r.rst && r.body == []
  {
  }

  /** The receiver takes a segment in: it extends the accepted bytes only by the ones that come next. */
  lemma ReceiverReceives(x: Host, y: Host, xy: set<Segment>, yx: set<Segment>, seg: Segment)
    requires Flow(x, y, xy, yx) && Synced(y) && seg in xy
    ensures Flow(x, Received(y, seg), xy, yx + Segments(Replies(y.conn, seg)))
    ensures InStep(x, Received(y, seg)) <==> InStep(x, y) && Fits(y.conn, seg)
  {
    assert Carries(seg, Base(x), x.taken, |x.conn.out|);
    ReceiverStores(y, Base(x), seg);
    if InStep(x, y) && Fits(y.conn, seg) && seg.body != [] && seg.seqNo == y.conn.rcvNext {
      NextBytes(seg, Base(x), x.taken, y.accepted, |x.conn.out|);
      assert seg.body[..|seg.body|] == seg.body;
    }
    forall r | r in Replies(y.conn, seg) ensures r.ackNo == Base(x) + Seen(Received(y, seg), Base(x)) {
      RepliesAcknowledge(y.conn, seg, r);
    }
  }

  // ---- every step of the pair keeps the invariant ----

  /** Once both ends exist, sending anything but a SYN leaves the handshake where it was. */
  lemma HandshakeKept(s: State, s': State)
    requires Handshake(s)
    requires s'.client.iss == s.client.iss && s'.server.iss == s.server.iss
    requires s'.client.conn.used && s'.server.conn.used == s.server.conn.used
    requires s'.client.conn.phase == s.client.conn.phase || (s.client.conn.phase.Established? && s'.client.conn.phase.Dead?)
    requires s'.server.conn.phase == s.server.conn.phase ||
             (s.server.conn.used && !s.client.conn.phase.SynSent? && !s'.server.conn.phase.SynSent? && !s'.server.conn.phase.SynRcvd?)
    requires s.client.conn.phase.SynSent? ==> s'.client.taken == s.client.taken
    requires !(s'.server.conn.used && !s'.server.conn.phase.SynRcvd?) ==> s'.server.taken == s.server.taken
    requires s.toServer <= s'.toServer && s.toClient <= s'.toClient
    requires forall seg <- s'.toServer - s.toServer :: !seg.syn && !s.client.conn.phase.SynSent?
    requires forall seg <- s'.toClient - s.toClient :: !seg.syn && s.server.conn.used && !s.client.conn.phase.SynSent?
    ensures Handshake(s')
  {
  }

  /** The first SYN to get through gives the server its connection, expecting the client's first byte. */
  lemma ServerAccepts(s: State, seg: Segment, iss: nat)
    requires Inv(s) && Allowed(s, Deliver(true, seg, iss)) && !s.server.conn.used
    ensures Inv(ToServer(s, seg, iss))
    ensures var c := ToServer(s, seg, iss).server.conn;
            c.used ==> c.phase.SynRcvd? && c.rcvNext == Base(s.client) && c.sndNext == iss + 1
  {
    if seg.syn && !seg.ack {
      var s' := ToServer(s, seg, iss);
      assert s'.server.conn.rcvNext == Base(s.client);
      assert Flow(s'.server, s'.client, s'.toClient, s'.toServer);
      assert Flow(s'.client, s'.server, s'.toServer, s'.toClient);
    }
  }

  lemma ServerReceivesHandshake(s: State, seg: Segment, iss: nat)
    requires Handshake(s) && s.server.conn.used && seg in s.toServer && !seg.rst && !seg.fin
    requires s.client.conn.phase.SynSent? ==> seg.body == []
    ensures Handshake(ToServer(s, seg, iss))
  {
    forall r | r in Replies(s.server.conn, seg) ensures !r.syn && !s.client.conn.phase.SynSent? {
      RepliesAcknowledge(s.server.conn, seg, r);
    }
    HandshakeKept(s, ToServer(s, seg, iss));
  }

  lemma ServerReceives(s: State, seg: Segment, iss: nat)
    requires Inv(s) && Allowed(s, Deliver(true, seg, iss)) && s.server.conn.used
    ensures Inv(ToServer(s, seg, iss))
  {
    assert Carries(seg, Base(s.client), s.client.taken, |s.client.conn.out|);
    ReceiverReceives(s.client, s.server, s.toServer, s.toClient, seg);
    SenderReceives(s.server, s.client, s.toClient, s.toServer, seg);
    ServerReceivesHandshake(s, seg, iss);
  }

  /** Whatever first gets through to the client opens it, at its own first byte and expecting the server's. */
  lemma ClientCompletes(s: State, seg: Segment)
    requires Inv(s) && seg in s.toClient && s.client.conn.phase.SynSent?
    ensures Inv(ToClient(s, seg))
    ensures var c := ToClient(s, seg).client.conn;
            c.phase.Established? && c.rcvNext == Base(s.server) && c.sndNext == Base(s.client)
  {
    var s' := ToClient(s, seg);
    var c := Synchronised(s.client.conn, seg);
    assert seg.syn && seg.ack && !seg.rst && seg.seqNo == s.server.iss && seg.ackNo == Base(s.client);
    assert s'.client == s.client.(conn := c) by { assert Fresh(s.client.conn, seg) == []; }
    assert Replies(s.client.conn, seg) == [Sent(c, c.sndNext, false, true, false, [])];
    assert s'.toServer == s.toServer + {Sent(c, c.sndNext, false, true, false, [])};
    assert Receiver(s'.client, Base(s.server));
    assert Sender(s'.client);
  }

  lemma ClientReceivesHandshake(s: State, seg: Segment)
    requires Handshake(s) && !s.client.conn.phase.SynSent? && !seg.rst && !seg.fin
    ensures Handshake(ToClient(s, seg))
  {
    forall r | r in Replies(s.client.conn, seg) ensures !r.syn {
      RepliesAcknowledge(s.client.conn, seg, r);
    }
    HandshakeKept(s, ToClient(s, seg));
  }

  lemma ClientReceives(s: State, seg: Segment)
    requires Inv(s) && seg in s.toClient && !s.client.conn.phase.SynSent?
    ensures Inv(ToClient(s, seg))
  {
    assert Carries(seg, Base(s.server), s.server.taken, |s.server.conn.out|);
    ReceiverReceives(s.server, s.client, s.toClient, s.toServer, seg);
    SenderReceives(s.client, s.server, s.toServer, s.toClient, seg);
    ClientReceivesHandshake(s, seg);
  }

  lemma ServerOffersHandshake(s: State, data: seq<Byte>, ticks: nat)
    requires Handshake(s)
    ensures Handshake(Step(s, Offer(true, data, ticks)))
  {
    HandshakeKept(s, Step(s, Offer(true, data, ticks)));
  }

  lemma ServerOffers(s: State, data: seq<Byte>, ticks: nat)
    requires Inv(s) && NoWrap(s.server, data)
    ensures Inv(Step(s, Offer(true, data, ticks)))
  {
    var s' := Step(s, Offer(true, data, ticks));
    SenderOffers(s.server, s.client, s.toClient, s.toServer, data, ticks);
    ReceiverOffers(s.client, s.server, s.toServer, s.toClient, data, ticks);
    assert Flow(s'.client, s'.server, s'.toServer, s'.toClient);
    assert Flow(s'.server, s'.client, s'.toClient, s'.toServer);
    ServerOffersHandshake(s, data, ticks);
  }

  lemma ClientOffersHandshake(s: State, data: seq<Byte>, ticks: nat)
    requires Handshake(s)
    ensures Handshake(Step(s, Offer(false, data, ticks)))
  {
    HandshakeKept(s, Step(s, Offer(false, data, ticks)));
  }

  lemma ClientOffers(s: State, data: seq<Byte>, ticks: nat)
    requires Inv(s) && NoWrap(s.client, data)
    ensures Inv(Step(s, Offer(false, data, ticks)))
  {
    var s' := Step(s, Offer(false, data, ticks));
    SenderOffers(s.client, s.server, s.toServer, s.toClient, data, ticks);
    ReceiverOffers(s.server, s.client, s.toClient, s.toServer, data, ticks);
    assert Flow(s'.client, s'.server, s'.toServer, s'.toClient);
    assert Flow(s'.server, s'.client, s'.toClient, s'.toServer);
    ClientOffersHandshake(s, data, ticks);
  }

  lemma ServerTicksHandshake(s: State, ticks: nat)
    requires Handshake(s) && Sender(s.server)
    ensures Handshake(Step(s, Tick(true, ticks)))
  {
    HandshakeKept(s, Step(s, Tick(true, ticks)));
  }

  lemma ServerTicks(s: State, ticks: nat)
    requires Inv(s)
    ensures Inv(Step(s, Tick(true, ticks)))
  {
    var s' := Step(s, Tick(true, ticks));
    SenderWaits(s.server, s.client, s.toClient, s.toServer, ticks);
    ReceiverWaits(s.client, s.server, s.toServer, s.toClient, ticks);
    assert Flow(s'.client, s'.server, s'.toServer, s'.toClient);
    assert Flow(s'.server, s'.client, s'.toClient, s'.toServer);
    ServerTicksHandshake(s, ticks);
  }

  lemma ClientTicksHandshake(s: State, ticks: nat)
    requires Handshake(s) && Sender(s.client)
    ensures Handshake(Step(s, Tick(false, ticks)))
  {
    HandshakeKept(s, Step(s, Tick(false, ticks)));
  }

  lemma ClientTicks(s: State, ticks: nat)
    requires Inv(s)
    ensures Inv(Step(s, Tick(false, ticks)))
  {
    var s' := Step(s, Tick(false, ticks));
    SenderWaits(s.client, s.server, s.toServer, s.toClient, ticks);
    ReceiverWaits(s.server, s.client, s.toClient, s.toServer, ticks);
    assert Flow(s'.client, s'.server, s'.toServer, s'.toClient);
    assert Flow(s'.server, s'.client, s'.toClient, s'.toServer);
    ClientTicksHandshake(s, ticks);
  }

  lemma ServerReadsHandshake(s: State)
    requires Handshake(s)
    ensures Handshake(Step(s, Read(true)))
  {
    HandshakeKept(s, Step(s, Read(true)));
  }

  lemma ServerReads(s: State)
    requires Inv(s)
    ensures Inv(Step(s, Read(true)))
  {
    var s' := Step(s, Read(true));
    SenderReads(s.server, s.client, s.toClient, s.toServer);
    ReceiverReads(s.client, s.server, s.toServer, s.toClient);
    assert Flow(s'.client, s'.server, s'.toServer, s'.toClient);
    assert Flow(s'.server, s'.client, s'.toClient, s'.toServer);
    ServerReadsHandshake(s);
  }

  lemma ClientReadsHandshake(s: State)
    requires Handshake(s)
    ensures Handshake(Step(s, Read(false)))
  {
    HandshakeKept(s, Step(s, Read(false)));
  }

  lemma ClientReads(s: State)
    requires Inv(s)
    ensures Inv(Step(s, Read(false)))
  {
    var s' := Step(s, Read(false));
    SenderReads(s.client, s.server, s.toServer, s.toClient);
    ReceiverReads(s.server, s.client, s.toClient, s.toServer);
    assert Flow(s'.client, s'.server, s'.toServer, s'.toClient);
    assert Flow(s'.server, s'.client, s'.toClient, s'.toServer);
    ClientReadsHandshake(s);
  }

  lemma StepKeeps(s: State, a: Action)
    requires Inv(s) && Allowed(s, a)
    ensures Inv(Step(s, a))
  {
    match a
    case Deliver(toServer, seg, iss) =>
      if toServer {
        if s.server.conn.used { ServerReceives(s, seg, iss); } else { ServerAccepts(s, seg, iss); }
      } else {
        if s.client.conn.phase.SynSent? { ClientCompletes(s, seg); } else { ClientReceives(s, seg); }
      }
    case Offer(byServer, data, ticks) =>
      if byServer { ServerOffers(s, data, ticks); } else { ClientOffers(s, data, ticks); }
    case Read(byServer) =>
      if byServer { ServerReads(s); } else { ClientReads(s); }
    case Tick(ofServer, ticks) =>
      if ofServer { ServerTicks(s, ticks); } else { ClientTicks(s, ticks); }
  }

  lemma {:induction false} RunKeeps(s: State, actions: seq<Action>)
    requires Inv(s) && AllAllowed(s, actions)
    ensures Inv(Run(s, actions))
  {
    if actions != [] {
      var before, a := actions[..|actions| - 1], actions[|actions| - 1];
      RunKeeps(s, before);
      StepKeeps(Run(s, before), a);
    }
  }

  // ---- in step ----

  /** What one host does by itself leaves alone how much it has seen and accepted. */
  predicate Quiet(h: Host, h': Host, base: nat) {
    h'.iss == h.iss && h'.accepted == h.accepted && Seen(h', base) == Seen(h, base)
  }

  lemma OfferQuiet(h: Host, data: seq<Byte>, ticks: nat, base: nat)
    ensures Quiet(h, Offering(h, data, ticks), base)
  {
  }

  lemma ReadQuiet(h: Host, base: nat)
    ensures Quiet(h, Reading(h), base)
  {
  }

  lemma TickQuiet(h: Host, ticks: nat, base: nat)
    requires Sender(h)
    ensures Quiet(h, Waiting(h, ticks), base)
  {
  }

  lemma StepQuiet(s: State, a: Action)
    requires Sender(s.client) && Sender(s.server) && !a.Deliver?
    ensures Quiet(s.client, Step(s, a).client, Base(s.server)) && Quiet(s.server, Step(s, a).server, Base(s.client))
  {
    match a
    case Offer(byServer, data, ticks) =>
      OfferQuiet(s.server, data, ticks, Base(s.client));
      OfferQuiet(s.client, data, ticks, Base(s.server));
    case Read(byServer) =>
      ReadQuiet(s.server, Base(s.client));
      ReadQuiet(s.client, Base(s.server));
    case Tick(ofServer, ticks) =>
      TickQuiet(s.server, ticks, Base(s.client));
      TickQuiet(s.client, ticks, Base(s.server));
  }

  /** Before it has a connection the server has seen nothing, and neither has it when it gets one. */
  lemma OpeningInStep(s: State, seg: Segment, iss: nat)
    requires Inv(s) && seg in s.toServer && !s.server.conn.used
    ensures InStep(s.client, s.server) && Fits(s.server.conn, seg)
    ensures InStep(s.client, ToServer(s, seg, iss).server)
  {
    assert Carries(seg, Base(s.client), s.client.taken, |s.client.conn.out|);
    assert s.client.taken == [] && s.server.accepted == [] && s.server.conn.rx == [];
  }

  /** Until it has the server's numbers the client has seen nothing. */
  lemma CompletingInStep(s: State, seg: Segment)
    requires Inv(s) && seg in s.toClient && s.client.conn.phase.SynSent?
    ensures InStep(s.server, s.client) && Fits(s.client.conn, seg)
    ensures InStep(s.server, ToClient(s, seg).client)
  {
    ClientCompletes(s, seg);
    assert seg.body == [] && s.client.accepted == [];
  }

  lemma ServerTakesIn(s: State, seg: Segment, iss: nat)
    requires Inv(s) && seg in s.toServer
    ensures InStep(s.client, ToServer(s, seg, iss).server) <==> InStep(s.client, s.server) && Fits(s.server.conn, seg)
  {
    if s.server.conn.used {
      ReceiverReceives(s.client, s.server, s.toServer, s.toClient, seg);
    } else {
      OpeningInStep(s, seg, iss);
    }
  }

  lemma ClientTakesIn(s: State, seg: Segment)
    requires Inv(s) && seg in s.toClient
    ensures InStep(s.server, ToClient(s, seg).client) <==> InStep(s.server, s.client) && Fits(s.client.conn, seg)
  {
    if s.client.conn.phase.SynSent? {
      CompletingInStep(s, seg);
    } else {
      ReceiverReceives(s.server, s.client, s.toClient, s.toServer, seg);
    }
  }

  /** A host falls out of step exactly by taking in a segment it has no room for. */
  lemma ServerInStepIff(s: State, a: Action)
    requires Inv(s) && Allowed(s, a)
    ensures InStep(Step(s, a).client, Step(s, a).server) <==> InStep(s.client, s.server) && FitsAt(s, a, true)
  {
    if !a.Deliver? {
      StepQuiet(s, a);
    } else if a.toServer {
      ServerTakesIn(s, a.seg, a.iss);
    }
  }

  lemma ClientInStepIff(s: State, a: Action)
    requires Inv(s) && Allowed(s, a)
    ensures InStep(Step(s, a).server, Step(s, a).client) <==> InStep(s.server, s.client) && FitsAt(s, a, false)
  {
    if !a.Deliver? {
      StepQuiet(s, a);
    } else if a.toServer {
      assert !s.server.conn.used ==> s.client.conn.phase.SynSent?;
    } else {
      ClientTakesIn(s, a.seg);
    }
  }

  lemma {:induction false} RunInStepIff(s: State, actions: seq<Action>)
    requires Inv(s) && AllAllowed(s, actions) && InStep(s.client, s.server) && InStep(s.server, s.client)
    ensures InStep(Run(s, actions).client, Run(s, actions).server) <==> AllFit(s, actions, true)
    ensures InStep(Run(s, actions).server, Run(s, actions).client) <==> AllFit(s, actions, false)
  {
    if actions != [] {
      var before, a := actions[..|actions| - 1], actions[|actions| - 1];
      RunInStepIff(s, before);
      RunKeeps(s, before);
      ServerInStepIff(Run(s, before), a);
      ClientInStepIff(Run(s, before), a);
    }
  }

  // ---- the theorems ----

  /**
   One direction of the stream. Bytes read, then bytes buffered, are the bytes
   accepted. If everything delivered in order fitted, they are a prefix of the
   bytes the other side's caller handed over. And a live sender with nothing
   outstanding has delivered everything it took exactly if everything fitted.
   */
  ghost predicate Stream(x: Host, y: Host, fitted: bool) {
    && y.returned + y.conn.rx == y.accepted
    && (fitted ==> y.accepted <= x.taken)
    && (x.conn.phase.Established? && x.conn.out == [] ==> (y.accepted == x.taken <==> fitted))
  }

  lemma FlowStreams(x: Host, y: Host, xy: set<Segment>, yx: set<Segment>, fitted: bool)
    requires Flow(x, y, xy, yx) && (InStep(x, y) <==> fitted)
    ensures Stream(x, y, fitted)
  {
  }

  /** In every run, in both directions, whatever the network does. */
  lemma StreamTheorem(id: nat, ip: nat, port: nat, local: nat, iss: nat, actions: seq<Action>)
    requires iss + 1 < WRAP && AllAllowed(Start(id, ip, port, local, iss), actions)
    ensures var s0 := Start(id, ip, port, local, iss);
            var s := Run(s0, actions);
            && Stream(s.client, s.server, AllFit(s0, actions, true))
            && Stream(s.server, s.client, AllFit(s0, actions, false))
  {
    var s0 := Start(id, ip, port, local, iss);
    StartInv(id, ip, port, local, iss);
    RunKeeps(s0, actions);
    RunInStepIff(s0, actions);
    var s := Run(s0, actions);
    FlowStreams(s.client, s.server, s.toServer, s.toClient, AllFit(s0, actions, true));
    FlowStreams(s.server, s.client, s.toClient, s.toServer, AllFit(s0, actions, false));
  }

  lemma StartInv(id: nat, ip: nat, port: nat, local: nat, iss: nat)
    requires iss + 1 < WRAP
    ensures var s0 := Start(id, ip, port, local, iss);
            Inv(s0) && InStep(s0.client, s0.server) && InStep(s0.server, s0.client)
  {
  }

  /** The segment in flight, whenever it gets through to a receiver with room, completes the stream of one in step. */
  lemma FlyingSegmentCompletes(x: Host, y: Host, xy: set<Segment>, yx: set<Segment>, seg: Segment)
    requires Flow(x, y, xy, yx) && Synced(y) && x.conn.phase.Established? && x.conn.out != []
    requires seg.seqNo == x.conn.outSeq && seg.body == x.conn.out && !seg.rst && !seg.fin
    requires |y.conn.rx| + |x.conn.out| <= TCP_RX
    ensures Received(y, seg).accepted == x.taken <==> InStep(x, y)
    ensures Received(y, seg).conn.rcvNext == Base(x) + |x.taken|
  {
    ReceiverStores(y, Base(x), seg);
    var n, k := |x.taken|, |x.conn.out|;
    assert x.taken == x.taken[..n - k] + x.taken[n - k..];
    assert seg.body[..k] == seg.body;
  }

  lemma FullAckClears(x: Host, r: Segment, ticks: nat)
    requires Sender(x) && x.conn.used && x.conn.phase.Established? && x.conn.out != [] && x.conn.outTries < 5
    requires r.ack && !r.syn && !r.rst && r.ackNo == Base(x) + |x.taken|
    ensures Received(Waiting(x, ticks), r).conn.out == []
  {
    var c := Retransmitted(x.conn, ticks);
    assert c.out == x.conn.out && c.outSeq == x.conn.outSeq && c.phase == x.conn.phase;
    assert Acknowledges(c, r);
  }

  /**
   No data is ever stuck: whenever a segment is due again, one round trip that
   the network lets through, to a receiver with room, leaves nothing outstanding,
   and has delivered all that was taken to one in step.
   */
  lemma RetransmissionDelivers(x: Host, y: Host, xy: set<Segment>, yx: set<Segment>, ticks: nat)
    requires Flow(x, y, xy, yx) && Synced(y)
    requires x.conn.used && x.conn.phase.Established? && x.conn.out != []
    requires ticks >= x.conn.outDeadline && x.conn.outTries < 5
    requires |y.conn.rx| + |x.conn.out| <= TCP_RX
    ensures var sent := RetransmitSends(x.conn, ticks);
            && |sent| == 1
            && (Received(y, sent[0]).accepted == x.taken <==> InStep(x, y))
            && |Replies(y.conn, sent[0])| == 1
            && Received(Waiting(x, ticks), Replies(y.conn, sent[0])[0]).conn.out == []
  {
    var seg := RetransmitSends(x.conn, ticks)[0];
    FlyingSegmentCompletes(x, y, xy, yx, seg);
    var r := Replies(y.conn, seg)[0];
    RepliesAcknowledge(y.conn, seg, r);
    FullAckClears(x, r, ticks);
  }

  // ---- the edges of those theorems ----

  /** The highest sequence number the receiver has said it will take. */
  function Edge(c: Conn): int { c.rcvNext + TCP_RX - |c.rx| }

  /** Every segment says so: its acknowledgement plus its window is that edge. */
  lemma SentAdvertises(c: Conn, seqNo: nat, syn: bool, ack: bool, fin: bool, body: seq<Byte>)
    requires |c.rx| <= TCP_RX
    ensures var seg := Sent(c, seqNo, syn, ack, fin, body);
            seg.ackNo + seg.window == Edge(c) && seg.ackNo == c.rcvNext && seg.seqNo == seqNo && seg.body == body
  {
  }

  /**
   Whatever a peer sends, the right edge of a synchronised connection retreats
   exactly when a FIN claims to end the stream before bytes already received.
   */
  lemma EdgeRetreatsIff(c: Conn, seg: Segment)
    requires !c.phase.SynSent? && !seg.rst && |c.rx| <= TCP_RX
    requires seg.seqNo == c.rcvNext ==> c.rcvNext + |seg.body| < WRAP
    requires seg.fin ==> seg.seqNo + |seg.body| + 1 < WRAP
    ensures Edge(Arrive(c, seg)) < Edge(c) <==> seg.fin && seg.seqNo + |seg.body| + 1 < c.rcvNext
  {
    var o := Acknowledged(Opened(c, seg), seg);
    assert !Completes(Opened(c, seg), seg) && o.rx == c.rx && o.rcvNext == c.rcvNext;
    var d := Stored(o, seg);
    assert Edge(d) >= Edge(c) && d.rcvNext >= c.rcvNext;
    assert seg.fin ==> Finished(d, seg).rcvNext == seg.seqNo + |seg.body| + 1;
  }

  /** A segment from a host running this stack never moves the edge back. */
  lemma DeliveryAdvances(x: Host, y: Host, xy: set<Segment>, yx: set<Segment>, seg: Segment)
    requires Flow(x, y, xy, yx) && Synced(y) && seg in xy
    ensures Edge(Received(y, seg).conn) >= Edge(y.conn)
  {
    assert Carries(seg, Base(x), x.taken, |x.conn.out|);
    EdgeRetreatsIff(y.conn, seg);
  }

  lemma ServerEdgeAdvances(s: State, a: Action)
    requires Flow(s.client, s.server, s.toServer, s.toClient) && Allowed(s, a) && Synced(s.server)
    ensures Edge(Step(s, a).server.conn) >= Edge(s.server.conn)
  {
    if a.Deliver? && a.toServer {
      DeliveryAdvances(s.client, s.server, s.toServer, s.toClient, a.seg);
    }
  }

  lemma ClientEdgeAdvances(s: State, a: Action)
    requires Flow(s.server, s.client, s.toClient, s.toServer) && Allowed(s, a) && Synced(s.client)
    ensures Edge(Step(s, a).client.conn) >= Edge(s.client.conn)
  {
    if a.Deliver? && !a.toServer {
      DeliveryAdvances(s.server, s.client, s.toClient, s.toServer, a.seg);
    }
  }

  /** In every run, in both directions, the advertised right edge only moves forward. */
  lemma EdgeTheorem(id: nat, ip: nat, port: nat, local: nat, iss: nat, actions: seq<Action>, a: Action)
    requires iss + 1 < WRAP && AllAllowed(Start(id, ip, port, local, iss), actions)
    requires Allowed(Run(Start(id, ip, port, local, iss), actions), a)
    ensures var s := Run(Start(id, ip, port, local, iss), actions);
            && (Synced(s.client) ==> Edge(Step(s, a).client.conn) >= Edge(s.client.conn))
            && (Synced(s.server) ==> Edge(Step(s, a).server.conn) >= Edge(s.server.conn))
  {
    var s0 := Start(id, ip, port, local, iss);
    StartInv(id, ip, port, local, iss);
    RunKeeps(s0, actions);
    var s := Run(s0, actions);
    if Synced(s.client) { ClientEdgeAdvances(s, a); }
    if Synced(s.server) { ServerEdgeAdvances(s, a); }
  }

  /** Out of step, a host stays so whatever happens next. */
  lemma {:induction false} OutOfStepForGood(s: State, actions: seq<Action>)
    requires Inv(s) && AllAllowed(s, actions)
    ensures !InStep(s.client, s.server) ==> !InStep(Run(s, actions).client, Run(s, actions).server)
    ensures !InStep(s.server, s.client) ==> !InStep(Run(s, actions).server, Run(s, actions).client)
  {
    if actions != [] {
      var before, a := actions[..|actions| - 1], actions[|actions| - 1];
      OutOfStepForGood(s, before);
      RunKeeps(s, before);
      ServerInStepIff(Run(s, before), a);
      ClientInStepIff(Run(s, before), a);
    }
  }

  /** What that costs: a byte sent to a full receiver is missing from what it accepts once it has been read from. */
  lemma OverflowBreaksStream(y: Host, base: nat, lost: Byte, next: Byte)
    requires Receiver(y, base) && Synced(y) && |y.conn.rx| == TCP_RX && !y.conn.phase.Dead?
    requires y.conn.rcvNext + 2 < WRAP && lost != next
    ensures var first := Segment(y.conn.rcvNext, 0, false, false, false, false, 0, [lost]);
            var second := Segment(y.conn.rcvNext + 1, 0, false, false, false, false, 0, [next]);
            var y' := Received(Reading(Received(y, first)), second);
            && y'.accepted == y.accepted + [next]
            && !(y'.accepted <= y.accepted + [lost, next])
  {
    var first := Segment(y.conn.rcvNext, 0, false, false, false, false, 0, [lost]);
    var full := Received(y, first);
    assert Fresh(y.conn, first) == [];
    assert full.conn == y.conn.(rcvNext := y.conn.rcvNext + 1);
    var y' := y.accepted + [next];
    assert y'[|y.accepted|] != (y.accepted + [lost, next])[|y.accepted|];
  }

  /**
   Acknowledgements are compared as plain numbers. Counting positions in the
   stream without wrapping, one for the first `acked` bytes of a sender that has
   sent `sent` clears the block it sends next exactly when a multiple of 2^32
   lies between the two.
   */
  lemma StaleAckClearsIff(c: Conn, data: seq<Byte>, ticks: nat, seg: Segment, sent: nat, acked: nat)
    requires c.used && c.phase.Established? && c.out == [] && data != [] && c.sndNext == sent % WRAP
    requires seg.ack && seg.ackNo == acked % WRAP && !seg.rst && !seg.syn
    requires acked <= sent < acked + WRAP - IPC_INLINE
    ensures Arrive(Offered(c, data, ticks), seg).out == [] <==>
            acked / WRAP != (sent + Min(|data|, IPC_INLINE)) / WRAP
  {
    var end := sent + Min(|data|, IPC_INLINE);
    WrapsBetween(acked, end);
    assert Add32(c.sndNext, Min(|data|, IPC_INLINE)) == end % WRAP;
  }

  lemma WrapsBetween(a: nat, b: nat)
    requires a < b < a + WRAP
    ensures a % WRAP >= b % WRAP <==> a / WRAP != b / WRAP
  {
  }

  /** A block that does not itself run past 2^32, cleared by an acknowledgement from before the last wrap. */
  lemma OldAckClears(c: Conn, ticks: nat)
    requires c.used && c.phase.Established? && c.out == [] && c.sndNext == 10
    ensures var seg := Segment(0, 0xFFFF_FF00, false, true, false, false, 0, []);
            Arrive(Offered(c, [1, 2, 3], ticks), seg).out == []
  {
    StaleAckClearsIff(c, [1, 2, 3], ticks, Segment(0, 0xFFFF_FF00, false, true, false, false, 0, []), WRAP + 10, 0xFFFF_FF00);
  }
}
