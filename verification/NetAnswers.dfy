/**
 What the network stack's replies are about: every one is to a question that was
 asked, and says what an event said that came in for that question, or that there
 was none.
 */
module NetAnswers {
  import opened Bytes
  import opened Tcp
  import opened NetServer
  import NetConns

  /**
   A request as it was received. `given` is the number it was given: for a lookup
   which of all the lookups it is, for a connect the id of its connection, or 0 if
   there was no room for one. `since` is how many frames had come in before it.
   */
  datatype Question = Question(handle: int, request: Request, given: nat, since: nat)

  /** The id a lookup carries on the wire, by its number. */
  function LookUpId(n: nat): nat { (0x4C45 + n) % 65536 }

  predicate IsLookUp(m: Request) { m.Ask? && m.query.LookUp? }

  function LookUps(qs: seq<Question>): nat {
    if qs == [] then 0 else LookUps(qs[..|qs| - 1]) + if IsLookUp(qs[|qs| - 1].request) then 1 else 0
  }

  // ---- slots and replies ----

  /** A slot of the pending table is where a question waits. */
  predicate WaitsIn(q: Question, p: Slot) {
    p.Parked? && p.handle == q.handle &&
    match q.request
    case Ask(query) => QueryWaits(query, q.given, p)
    case Stream(op) => StreamWaits(op, q.given, p)
  }

  predicate QueryWaits(query: Query, given: nat, p: Slot)
    requires p.Parked?
  {
    match query
    case Inform(_) => false
    case Resolve(target, _, _, _) => p.kind.Arp? && p.ip == target
    case PingHost(_, seqNo) => p.kind.Ping? && p.seqNo == seqNo
    case LookUp(_, want6, _, _) => p.kind.Dns? && p.seqNo == LookUpId(given) && p.want6 == want6
    case UdpReceive(port) => p.kind.Udp? && p.seqNo == port
    case FindNeighbour(via, _, _, _) => p.kind.Nd? && p.name == via
    case PingHost6(_, seqNo) => p.kind.Ping6? && p.seqNo == seqNo
  }

  predicate StreamWaits(op: StreamOp, given: nat, p: Slot)
    requires p.Parked?
  {
    match op
    case TcpConnect(_, _, _, _, _) => (p.kind.Connect? || p.kind.TcpArp?) && p.ip == given && given > 0
    case TcpReceive(id) => p.kind.Read? && p.ip == id
    case TcpAccept(port) => p.kind.Accept? && p.ip == port
    case _ => false
  }

  /** The question asked of the cache was answered from there. */
  predicate FromCache(known: bool, mac: seq<Byte>, a: Answer) { known && a.w0 == 0 && a.data == mac }

  /** An answer to a name carries an address, of the family asked for. */
  predicate Carries(e: Cause, id: nat, want6: bool, a: Answer) {
    e.NameAnswer? && e.id == id &&
    if e.found6 && (e.over6 || want6) then a.w0 == 0 && a.data == e.address6
    else a.w0 == e.address && e.address != 0 && a.data == []
  }

  ghost predicate NameArrived(seen: seq<Frame>, id: nat, want6: bool, a: Answer) {
    exists f :: f in seen && f.Signal? && Carries(f.cause, id, want6, a)
  }

  ghost predicate DatagramArrived(seen: seq<Frame>, port: nat, a: Answer) {
    exists f :: f in seen && f.Signal? && f.cause.Datagram? && f.cause.port == port &&
      a.w0 == f.cause.w0 && a.data == f.cause.body[..Min(|f.cause.body|, READ_MAX)]
  }

  /** What a query may be told, and the frame that has to have come in for it. */
  ghost predicate QueryTold(query: Query, given: nat, a: Answer, seen: seq<Frame>) {
    match query
    case Inform(w0) => a.w0 == w0
    case Resolve(target, _, known, mac) =>
      FromCache(known, mac, a) || (a.w0 == 0 && Signal(ArpAnswer(target, a.data)) in seen)
    case PingHost(_, seqNo) => a.w0 >= 0 && Signal(EchoReply(seqNo, a.w0)) in seen
    case LookUp(_, want6, _, _) => NameArrived(seen, LookUpId(given), want6, a)
    case UdpReceive(port) => DatagramArrived(seen, port, a)
    case FindNeighbour(via, _, known, mac) =>
      FromCache(known, mac, a) || (a.w0 == 0 && Signal(Neighbour(via, a.data)) in seen)
    case PingHost6(_, seqNo) => a.w0 >= 0 && Signal(EchoReply6(seqNo, a.w0)) in seen
  }

  /** The peer a connect named has answered its SYN. */
  ghost predicate SynAckFrom(seen: seq<Frame>, ip: nat, port: nat, v6: bool) {
    exists f :: f in seen &&
      if v6 then f.Segment6? && f.seg.syn && f.seg.ack
      else f.Segment4? && f.ip == ip && f.port == port && f.seg.syn && f.seg.ack
  }

  ghost predicate StreamTold(op: StreamOp, given: nat, a: Answer, seen: seq<Frame>) {
    match op
    case TcpConnect(ip, port, v6, _, _) => a.w0 == given && SynAckFrom(seen, ip, port, v6)
    case TcpSend(_, data) => 0 <= a.w0 <= Min(|data|, IPC_INLINE) && a.data == []
    case TcpReceive(_) => a.w0 == |a.data|
    case TcpAccept(port) => a.topic.Accepted? && a.topic.port == port && a.w0 == a.topic.id
    case _ => a.w0 == 0
  }

  /** A refusal says nothing else. */
  predicate Refusal(a: Answer) { (a.w0 == -1 || a.w0 == -2) && a.data == [] && a.topic.Plain? }

  /** The frames that came in behind the first `n`. */
  function After(seen: seq<Frame>, n: nat): seq<Frame> { if n <= |seen| then seen[n..] else [] }

  /** A refusal, or what a frame said that came in after the question. */
  ghost predicate Told(q: Question, a: Answer, seen: seq<Frame>) {
    a.handle == q.handle &&
    (Refusal(a) ||
     match q.request
     case Ask(query) => QueryTold(query, q.given, a, After(seen, q.since))
     case Stream(op) => StreamTold(op, q.given, a, After(seen, q.since)))
  }

  // ---- one event and one slot ----

  /** An event that came off the wire, or one the server raised itself. */
  predicate Known(cause: Cause, seen: seq<Frame>) {
    if Wire(cause) then Signal(cause) in seen
    else cause.Refused? ==> cause.code == -1 || cause.code == -2
  }

  /** A connect that has got a connection. */
  predicate Dials(q: Question) { q.request.Stream? && q.request.op.TcpConnect? && q.given > 0 }

  /** One that came in after a question; a connection that a question opened is open once its peer has answered. */
  ghost predicate KnownTo(cause: Cause, q: Question, seen: seq<Frame>) {
    && Known(cause, After(seen, q.since))
    && (cause.Connected? && Dials(q) && q.given == cause.id ==>
          SynAckFrom(After(seen, q.since), q.request.op.ip, q.request.op.port, q.request.op.v6))
  }

  ghost predicate KnownAfter(cause: Cause, qs: seq<Question>, seen: seq<Frame>) {
    forall k :: 0 <= k < |qs| ==> KnownTo(cause, qs[k], seen)
  }

  predicate CameAfter(f: Frame, qs: seq<Question>, seen: seq<Frame>) {
    forall k :: 0 <= k < |qs| ==> f in After(seen, qs[k].since)
  }

  lemma JudgedForQuery(q: Question, p: Slot, cause: Cause, now: nat, conns: seq<Conn>, seen: seq<Frame>)
    requires WaitsIn(q, p) && q.request.Ask? && KnownTo(cause, q, seen) && (cause.Readable? ==> cause.conn < |conns|)
    ensures var v := Judge(p, cause, now, conns);
            && (v.Rewrite? ==> WaitsIn(q, v.slot))
            && (v.Finish? ==> Told(q, Answer(p.handle, v.w0, v.data, v.topic), seen))
  {
  }

  lemma JudgedForStream(q: Question, p: Slot, cause: Cause, now: nat, conns: seq<Conn>, seen: seq<Frame>)
    requires WaitsIn(q, p) && q.request.Stream? && KnownTo(cause, q, seen) && (cause.Readable? ==> cause.conn < |conns|)
    ensures var v := Judge(p, cause, now, conns);
            && (v.Rewrite? ==> WaitsIn(q, v.slot))
            && (v.Finish? ==> Told(q, Answer(p.handle, v.w0, v.data, v.topic), seen))
  {
  }

  lemma Judged(q: Question, p: Slot, cause: Cause, now: nat, conns: seq<Conn>, seen: seq<Frame>)
    requires WaitsIn(q, p) && KnownTo(cause, q, seen) && (cause.Readable? ==> cause.conn < |conns|)
    ensures var v := Judge(p, cause, now, conns);
            && (v.Rewrite? ==> WaitsIn(q, v.slot))
            && (v.Finish? ==> Told(q, Answer(p.handle, v.w0, v.data, v.topic), seen))
  {
    if q.request.Ask? {
      JudgedForQuery(q, p, cause, now, conns, seen);
    } else {
      JudgedForStream(q, p, cause, now, conns, seen);
    }
  }

  // ---- the invariant ----

  /** `owner` says of every parked slot which question waits in it, and of no two the same. */
  ghost predicate Owners(pending: seq<Slot>, qs: seq<Question>, owner: seq<nat>) {
    && |owner| == |pending|
    && (forall i :: 0 <= i < |pending| && pending[i].Parked? ==> owner[i] < |qs| && WaitsIn(qs[owner[i]], pending[i]))
    && (forall i, j :: 0 <= i < j < |pending| && pending[i].Parked? && pending[j].Parked? ==> owner[i] != owner[j])
  }

  ghost predicate HasQuestion(qs: seq<Question>, a: Answer, seen: seq<Frame>) {
    exists k :: 0 <= k < |qs| && Told(qs[k], a, seen)
  }

  ghost predicate AllTold(replies: seq<Answer>, qs: seq<Question>, seen: seq<Frame>) {
    forall i :: 0 <= i < |replies| ==> HasQuestion(qs, replies[i], seen)
  }

  ghost predicate Inv(s: Server, qs: seq<Question>, seen: seq<Frame>, owner: seq<nat>) {
    && Owners(s.pending, qs, owner) && AllTold(s.replies, qs, seen)
    && s.dnsId == (0x4C45 + LookUps(qs)) % WRAP
  }

  lemma OneMoreTold(replies: seq<Answer>, qs: seq<Question>, seen: seq<Frame>, a: Answer, k: nat)
    requires AllTold(replies, qs, seen) && k < |qs| && Told(qs[k], a, seen)
    ensures AllTold(replies + [a], qs, seen)
  {
    forall i | 0 <= i < |replies + [a]| ensures HasQuestion(qs, (replies + [a])[i], seen) {
    }
  }

  lemma SlotOwned(pending: seq<Slot>, qs: seq<Question>, owner: seq<nat>, i: nat, p: Slot)
    requires Owners(pending, qs, owner) && i < |pending| && pending[i].Parked?
    requires p.Parked? ==> WaitsIn(qs[owner[i]], p)
    ensures Owners(pending[i := p], qs, owner)
  {
  }

  /** The server's tables of connections and listeners, its counters and its histories do not matter here. */
  predicate Alike(s: Server, t: Server) { t.pending == s.pending && t.replies == s.replies && t.dnsId == s.dnsId }

  lemma AlikeKeeps(s: Server, t: Server, qs: seq<Question>, seen: seq<Frame>, owner: seq<nat>)
    requires Alike(s, t) && Inv(s, qs, seen, owner)
    ensures Inv(t, qs, seen, owner)
  {
  }

  lemma SettleKeeps(s: Server, qs: seq<Question>, seen: seq<Frame>, owner: seq<nat>, i: nat, w0: int, data: seq<Byte>, topic: Topic)
    requires Inv(s, qs, seen, owner) && i < |s.pending| && s.pending[i].Parked?
    requires Told(qs[owner[i]], Answer(s.pending[i].handle, w0, data, topic), seen)
    ensures Inv(Settle(s, i, w0, data, topic), qs, seen, owner)
  {
    SlotOwned(s.pending, qs, owner, i, Free);
    OneMoreTold(s.replies, qs, seen, Answer(s.pending[i].handle, w0, data, topic), owner[i]);
  }

  lemma ServeSlotKeeps(s: Server, qs: seq<Question>, seen: seq<Frame>, owner: seq<nat>, i: nat, cause: Cause)
    requires Inv(s, qs, seen, owner) && i < |s.pending| && KnownAfter(cause, qs, seen)
    requires cause.Readable? ==> cause.conn < |s.conns|
    ensures Inv(ServeSlot(s, i, cause), qs, seen, owner)
  {
    var p := s.pending[i];
    if p.Parked? {
      var t := s.(conns := ConnsAfter(p, cause, s.now, s.conns));
      Judged(qs[owner[i]], p, cause, s.now, s.conns, seen);
      match Judge(p, cause, s.now, s.conns)
      case Leave =>
      case Rewrite(slot) => SlotOwned(s.pending, qs, owner, i, slot);
      case Finish(w0, data, topic) => SettleKeeps(t, qs, seen, owner, i, w0, data, topic);
    }
  }

  lemma SlotSizes(s: Server, i: nat, cause: Cause)
    requires i < |s.pending| && (cause.Readable? ==> cause.conn < |s.conns|)
    ensures |ServeSlot(s, i, cause).pending| == |s.pending| && |ServeSlot(s, i, cause).conns| == |s.conns|
  {
  }

  lemma {:induction false} SweepKeeps(s: Server, qs: seq<Question>, seen: seq<Frame>, owner: seq<nat>, i: nat, cause: Cause)
    requires Inv(s, qs, seen, owner) && i <= |s.pending| && KnownAfter(cause, qs, seen)
    requires cause.Readable? ==> cause.conn < |s.conns|
    ensures Inv(Sweep(s, i, cause), qs, seen, owner)
    decreases |s.pending| - i
  {
    if i < |s.pending| {
      ServeSlotKeeps(s, qs, seen, owner, i, cause);
      var t := ServeSlot(s, i, cause);
      SlotSizes(s, i, cause);
      SweepKeeps(t, qs, seen, owner, i + 1, cause);
    }
  }

  // ---- frames ----

  lemma HandOverKeeps(s: Server, qs: seq<Question>, seen: seq<Frame>, owner: seq<nat>, k: nat)
    requires Inv(s, qs, seen, owner) && k < |s.conns|
    ensures Inv(HandOver(s, k), qs, seen, owner)
  {
    var c := s.conns[k];
    var a := Acceptor(s.pending, c.localPort, 0);
    if a < |s.pending| {
      var t := s.(conns := s.conns[k := c.(phase := Established)], completed := s.completed + [Arrival(c.localPort, c.id)]);
      var topic := Accepted(c.localPort, c.id, Peer(c.peerIp, c.peerPort));
      AcceptorTold(qs[owner[a]], s.pending[a], c.id, topic, seen);
      SettleKeeps(t, qs, seen, owner, a, c.id, [], topic);
    }
  }

  lemma AcceptorTold(q: Question, p: Slot, id: nat, topic: Topic, seen: seq<Frame>)
    requires WaitsIn(q, p) && p.kind.Accept? && topic.Accepted? && topic.port == p.ip && topic.id == id
    ensures Told(q, Answer(p.handle, id, [], topic), seen)
  {
  }

  predicate DialledBy(c: Conn, op: StreamOp)
    requires op.TcpConnect?
  {
    c.peerIp == op.ip && c.peerPort == op.port && c.v6 == op.v6
  }

  /** Every connection that a question opened has the ends it named. */
  ghost predicate Dialling(conns: seq<Conn>, nextId: nat, qs: seq<Question>) {
    && nextId > 0 && (forall k :: 0 <= k < |conns| && conns[k].used ==> conns[k].id < nextId)
    && (forall j :: 0 <= j < |qs| && Dials(qs[j]) ==> qs[j].given < nextId)
    && (forall k, j :: 0 <= k < |conns| && 0 <= j < |qs| && conns[k].used && Dials(qs[j]) && qs[j].given == conns[k].id ==>
          DialledBy(conns[k], qs[j].request.op))
  }

  /** The frame that brought a segment to its connection. */
  predicate Brought(f: Frame, c: Conn, seg: Segment) {
    if c.v6 then f.Segment6? && f.seg == seg
    else f.Segment4? && f.ip == c.peerIp && f.port == c.peerPort && f.seg == seg
  }

  /** Where it completes a connection, whoever opened that may be told so. */
  lemma CompletesKnown(s: Server, qs: seq<Question>, seen: seq<Frame>, k: nat, f: Frame, seg: Segment)
    requires Dialling(s.conns, s.nextId, qs) && k < |s.conns| && s.conns[k].used
    requires CameAfter(f, qs, seen) && Brought(f, s.conns[k], seg) && seg.syn && seg.ack
    ensures KnownAfter(Connected(s.conns[k].id), qs, seen)
  {
    forall j | 0 <= j < |qs| ensures KnownTo(Connected(s.conns[k].id), qs[j], seen) {
      assert f in After(seen, qs[j].since);
    }
  }

  lemma OpenSegmentKeeps(o: Server, qs: seq<Question>, seen: seq<Frame>, owner: seq<nat>, k: nat, seg: Segment, code: int)
    requires Inv(o, qs, seen, owner) && k < |o.conns| && (code == -1 || code == -2)
    requires !(o.conns[k].phase.SynRcvd? && seg.ack)
    requires Completes(o.conns[k], seg) ==> KnownAfter(Connected(o.conns[k].id), qs, seen)
    ensures Inv(HandleSegment(o, k, seg, code), qs, seen, owner)
  {
    var c := o.conns[k];
    if seg.rst {
      SweepKeeps(o.(conns := o.conns[k := c.(phase := Dead)]), qs, seen, owner, 0, Refused(c.id, code));
    } else if Completes(c, seg) {
      var open := Synchronised(c, seg);
      SweepKeeps(o.(conns := o.conns[k := if c.v6 then open.(out := []) else open]), qs, seen, owner, 0, Connected(c.id));
    } else {
      SweepKeeps(o.(conns := o.conns[k := Finished(Stored(Acknowledged(c, seg), seg), seg)],
                    stored := o.stored + [Chunk(c.id, Fresh(c, seg))]), qs, seen, owner, 0, Readable(k));
    }
  }

  lemma HandleSegmentKeeps(s: Server, qs: seq<Question>, seen: seq<Frame>, owner: seq<nat>, k: nat, f: Frame, seg: Segment, code: int)
    requires Inv(s, qs, seen, owner) && k < |s.conns| && (code == -1 || code == -2)
    requires Dialling(s.conns, s.nextId, qs) && s.conns[k].used && CameAfter(f, qs, seen) && Brought(f, s.conns[k], seg)
    ensures Inv(HandleSegment(s, k, seg, code), qs, seen, owner)
  {
    if s.conns[k].phase.SynRcvd? && seg.ack {
      HandOverKeeps(s, qs, seen, owner, k);
      NetConns.HandOverFewer(s, k);
      OpenSegmentKeeps(HandOver(s, k), qs, seen, owner, k, seg, code);
      assert HandleSegment(s, k, seg, code) == HandleSegment(HandOver(s, k), k, seg, code);
    } else {
      if Completes(s.conns[k], seg) {
        CompletesKnown(s, qs, seen, k, f, seg);
      }
      OpenSegmentKeeps(s, qs, seen, owner, k, seg, code);
    }
  }

  lemma HandleFrameKeeps(s: Server, qs: seq<Question>, seen: seq<Frame>, owner: seq<nat>, f: Frame)
    requires Inv(s, qs, seen, owner) && Dialling(s.conns, s.nextId, qs) && CameAfter(f, qs, seen)
    ensures Inv(HandleFrame(s, f), qs, seen, owner)
  {
    match f
    case Signal(cause) => if Wire(cause) { SweepKeeps(s, qs, seen, owner, 0, cause); }
    case Segment4(local, ip, port, seg) =>
      var k := ConnByTuple(s.conns, local, ip, port, 0);
      if k < |s.conns| {
        HandleSegmentKeeps(s, qs, seen, owner, k, f, seg, -1);
      } else if seg.syn && !seg.ack {
        PassiveKeeps(s, qs, seen, owner, f);
      }
    case Segment6(local, seg) =>
      var k := ConnByPort6(s.conns, local);
      if k < |s.conns| { HandleSegmentKeeps(s, qs, seen, owner, k, f, seg, -2); }
    case Other =>
  }

  /** A connection with a new id, which no question has been given. */
  lemma NewDialling(conns: seq<Conn>, nextId: nat, qs: seq<Question>, k: nat, c: Conn)
    requires Dialling(conns, nextId, qs) && k < |conns| && c.id == nextId
    ensures Dialling(conns[k := c], nextId + 1, qs)
  {
  }

  lemma PassiveKeeps(s: Server, qs: seq<Question>, seen: seq<Frame>, owner: seq<nat>, f: Frame)
    requires Inv(s, qs, seen, owner) && Dialling(s.conns, s.nextId, qs) && CameAfter(f, qs, seen) && f.Segment4?
    ensures Inv(PassiveOpen(s, f.local, f.ip, f.port, f.seg), qs, seen, owner)
  {
    var local, ip, port, seg := f.local, f.ip, f.port, f.seg;
    var k := FreeConn(s.conns, 0);
    if ListenerOn(s.listeners, local, 0) < |s.listeners| && k < |s.conns| {
      var c := Answering(s.nextId, ip, port, local, InitialSeq(s), seg);
      var t := s.(conns := s.conns[k := c], nextId := s.nextId + 1);
      AlikeKeeps(s, t, qs, seen, owner);
      NewDialling(s.conns, s.nextId, qs, k, c);
      HandleSegmentKeeps(t, qs, seen, owner, k, f, seg, -1);
      assert PassiveOpen(s, local, ip, port, seg) == HandleSegment(t, k, seg, -1);
    }
  }

  lemma FewerDialling(conns: seq<Conn>, after: seq<Conn>, nextId: nat, qs: seq<Question>)
    requires Dialling(conns, nextId, qs) && NetConns.Fewer(conns, after)
    ensures Dialling(after, nextId, qs)
  {
    assert forall k :: 0 <= k < |conns| ==> NetConns.SameOrGone(conns[k], after[k]);
  }

  lemma SegmentDialling(s: Server, qs: seq<Question>, k: nat, seg: Segment, code: int)
    requires Dialling(s.conns, s.nextId, qs) && k < |s.conns|
    ensures var t := HandleSegment(s, k, seg, code); Dialling(t.conns, t.nextId, qs)
  {
    NetConns.SegmentFewer(s, k, seg, code);
    FewerDialling(s.conns, HandleSegment(s, k, seg, code).conns, s.nextId, qs);
  }

  lemma SweepDialling(s: Server, qs: seq<Question>, cause: Cause)
    requires Dialling(s.conns, s.nextId, qs) && !cause.Readable?
    ensures var t := Sweep(s, 0, cause); Dialling(t.conns, t.nextId, qs)
  {
    NetConns.SweepFewer(s, 0, cause);
    FewerDialling(s.conns, Sweep(s, 0, cause).conns, s.nextId, qs);
  }

  lemma PassiveDialling(s: Server, qs: seq<Question>, local: nat, ip: nat, port: nat, seg: Segment)
    requires Dialling(s.conns, s.nextId, qs)
    ensures var t := PassiveOpen(s, local, ip, port, seg); Dialling(t.conns, t.nextId, qs)
  {
    var k := FreeConn(s.conns, 0);
    if ListenerOn(s.listeners, local, 0) < |s.listeners| && k < |s.conns| {
      var c := Answering(s.nextId, ip, port, local, InitialSeq(s), seg);
      NewDialling(s.conns, s.nextId, qs, k, c);
      SegmentDialling(s.(conns := s.conns[k := c], nextId := s.nextId + 1), qs, k, seg, -1);
    }
  }

  lemma FrameDialling(s: Server, qs: seq<Question>, f: Frame)
    requires Dialling(s.conns, s.nextId, qs)
    ensures Dialling(HandleFrame(s, f).conns, HandleFrame(s, f).nextId, qs)
  {
    match f
    case Signal(cause) => if Wire(cause) { SweepDialling(s, qs, cause); }
    case Segment4(local, ip, port, seg) =>
      var k := ConnByTuple(s.conns, local, ip, port, 0);
      if k < |s.conns| {
        SegmentDialling(s, qs, k, seg, -1);
      } else if seg.syn && !seg.ack {
        PassiveDialling(s, qs, local, ip, port, seg);
      }
    case Segment6(local, seg) =>
      var k := ConnByPort6(s.conns, local);
      if k < |s.conns| { SegmentDialling(s, qs, k, seg, -2); }
    case Other =>
  }

  lemma {:induction false} DrainKeeps(s: Server, qs: seq<Question>, seen: seq<Frame>, owner: seq<nat>, frames: seq<Frame>)
    requires Inv(s, qs, seen, owner) && Dialling(s.conns, s.nextId, qs)
    requires forall i :: 0 <= i < |frames| ==> CameAfter(frames[i], qs, seen)
    ensures Inv(Drain(s, frames), qs, seen, owner)
    ensures Dialling(Drain(s, frames).conns, Drain(s, frames).nextId, qs)
    decreases |frames|
  {
    if frames != [] {
      HandleFrameKeeps(s, qs, seen, owner, frames[0]);
      FrameDialling(s, qs, frames[0]);
      DrainKeeps(HandleFrame(s, frames[0]), qs, seen, owner, frames[1..]);
    }
  }

  /** Frames that come in later leave what was said true. */
  lemma MoreSeen(q: Question, a: Answer, seen: seq<Frame>, more: seq<Frame>)
    requires Told(q, a, seen)
    ensures Told(q, a, seen + more)
  {
    var later := After(seen, q.since);
    if q.since <= |seen| {
      assert After(seen + more, q.since) == later + more;
    }
    assert forall f :: f in later ==> f in After(seen + more, q.since);
  }

  lemma InvMoreSeen(s: Server, qs: seq<Question>, seen: seq<Frame>, owner: seq<nat>, more: seq<Frame>)
    requires Inv(s, qs, seen, owner)
    ensures Inv(s, qs, seen + more, owner)
  {
    forall i | 0 <= i < |s.replies| ensures HasQuestion(qs, s.replies[i], seen + more) {
      assert HasQuestion(qs, s.replies[i], seen);
      var k :| 0 <= k < |qs| && Told(qs[k], s.replies[i], seen);
      MoreSeen(qs[k], s.replies[i], seen, more);
    }
  }

  lemma ComeAfter(qs: seq<Question>, seen: seq<Frame>, frames: seq<Frame>, i: nat)
    requires i < |frames| && forall k :: 0 <= k < |qs| ==> qs[k].since <= |seen|
    ensures CameAfter(frames[i], qs, seen + frames)
  {
    forall k | 0 <= k < |qs| ensures frames[i] in After(seen + frames, qs[k].since) {
      assert After(seen + frames, qs[k].since)[|seen| - qs[k].since + i] == frames[i];
    }
  }

  lemma UpkeepKeeps(s: Server, qs: seq<Question>, seen: seq<Frame>, owner: seq<nat>, frames: seq<Frame>, haveDns6: bool)
    requires Inv(s, qs, seen, owner)
    requires Dialling(s.conns, s.nextId, qs) && forall k :: 0 <= k < |qs| ==> qs[k].since <= |seen|
    ensures Inv(Upkeep(s, frames, haveDns6), qs, seen + frames, owner)
    ensures Dialling(Upkeep(s, frames, haveDns6).conns, Upkeep(s, frames, haveDns6).nextId, qs)
  {
    forall i | 0 <= i < |frames| ensures CameAfter(frames[i], qs, seen + frames) {
      ComeAfter(qs, seen, frames, i);
    }
    InvMoreSeen(s, qs, seen, owner, frames);
    DrainKeeps(s, qs, seen + frames, owner, frames);
    var drained := Drain(s, frames);
    var sent := drained.(conns := RetransmitAll(drained.conns, Ticks(drained)));
    NetConns.RetransmitFewer(drained.conns, Ticks(drained));
    FewerDialling(drained.conns, sent.conns, sent.nextId, qs);
    AlikeKeeps(drained, sent, qs, seen + frames, owner);
    SweepKeeps(sent, qs, seen + frames, owner, 0, Deadline(haveDns6));
    SweepDialling(sent, qs, Deadline(haveDns6));
  }

  // ---- requests ----

  /** The number a request is given. */
  function Given(s: Server, m: Request, qs: seq<Question>): nat {
    if IsLookUp(m) then LookUps(qs) + 1
    else if m.Stream? && m.op.TcpConnect? && FreeConn(s.conns, 0) < |s.conns| then s.nextId
    else 0
  }

  /** The last question is in no slot. */
  ghost predicate NotYet(pending: seq<Slot>, qs: seq<Question>, owner: seq<nat>) {
    |owner| == |pending| && forall i :: 0 <= i < |pending| && pending[i].Parked? ==> owner[i] + 1 < |qs|
  }

  /** The state in which a request is served: its question counts, and its handle is on record. */
  ghost predicate Serving(s: Server, qs: seq<Question>, seen: seq<Frame>, owner: seq<nat>) {
    Inv(s, qs, seen, owner) && qs != [] && NotYet(s.pending, qs, owner)
  }

  lemma MoreQuestions(s: Server, qs: seq<Question>, seen: seq<Frame>, owner: seq<nat>, q: Question)
    requires Inv(s, qs, seen, owner)
    ensures Owners(s.pending, qs + [q], owner) && AllTold(s.replies, qs + [q], seen)
    ensures NotYet(s.pending, qs + [q], owner)
    ensures LookUps(qs + [q]) == LookUps(qs) + if IsLookUp(q.request) then 1 else 0
  {
    var more := qs + [q];
    assert more[..|more| - 1] == qs;
    forall i | 0 <= i < |s.replies| ensures HasQuestion(more, s.replies[i], seen) {
      assert HasQuestion(qs, s.replies[i], seen);
      var k :| 0 <= k < |qs| && Told(qs[k], s.replies[i], seen);
      assert Told(more[k], s.replies[i], seen);
    }
  }

  lemma ReplyKeeps(s: Server, qs: seq<Question>, seen: seq<Frame>, owner: seq<nat>, w0: int, data: seq<Byte>, topic: Topic)
    requires Serving(s, qs, seen, owner)
    requires Told(qs[|qs| - 1], Answer(qs[|qs| - 1].handle, w0, data, topic), seen)
    ensures Inv(Replied(s, qs[|qs| - 1].handle, w0, data, topic), qs, seen, owner)
  {
    OneMoreTold(s.replies, qs, seen, Answer(qs[|qs| - 1].handle, w0, data, topic), |qs| - 1);
  }

  lemma RefuseKeeps(s: Server, qs: seq<Question>, seen: seq<Frame>, owner: seq<nat>)
    requires Serving(s, qs, seen, owner)
    ensures Inv(Replied(s, qs[|qs| - 1].handle, -1, [], Plain), qs, seen, owner)
  {
    ReplyKeeps(s, qs, seen, owner, -1, [], Plain);
  }

  lemma FillOwned(pending: seq<Slot>, qs: seq<Question>, owner: seq<nat>, k: nat, p: Slot)
    requires Owners(pending, qs, owner) && qs != [] && NotYet(pending, qs, owner)
    requires k < |pending| && WaitsIn(qs[|qs| - 1], p)
    ensures Owners(pending[k := p], qs, owner[k := |qs| - 1])
  {
  }

  lemma ParkKeeps(s: Server, qs: seq<Question>, seen: seq<Frame>, owner: seq<nat>, p: Slot) returns (after: seq<nat>)
    requires Serving(s, qs, seen, owner) && WaitsIn(qs[|qs| - 1], p)
    ensures Inv(Park(s, p), qs, seen, after)
  {
    if Full(s) {
      after := owner;
      RefuseKeeps(s, qs, seen, owner);
    } else {
      var k := FirstFree(s.pending, 0);
      after := owner[k := |qs| - 1];
      FillOwned(s.pending, qs, owner, k, p);
    }
  }

  lemma FromCacheKeeps(s: Server, qs: seq<Question>, seen: seq<Frame>, owner: seq<nat>, known: bool, mac: seq<Byte>, p: Slot)
    returns (after: seq<nat>)
    requires Serving(s, qs, seen, owner) && p.Parked? && WaitsIn(qs[|qs| - 1], p)
    requires known ==> Told(qs[|qs| - 1], Answer(qs[|qs| - 1].handle, 0, mac, Plain), seen)
    ensures Inv(ServeFromCache(s, qs[|qs| - 1].handle, known, mac, p), qs, seen, after)
  {
    if known {
      after := owner;
      ReplyKeeps(s, qs, seen, owner, 0, mac, Plain);
    } else {
      after := ParkKeeps(s, qs, seen, owner, p);
    }
  }

  /** A query other than a lookup. */
  lemma QueryKeeps(s: Server, qs: seq<Question>, seen: seq<Frame>, owner: seq<nat>, query: Query) returns (after: seq<nat>)
    requires Serving(s, qs, seen, owner) && qs[|qs| - 1].request == Ask(query) && !query.LookUp?
    ensures Inv(ServeQuery(s, qs[|qs| - 1].handle, query), qs, seen, after)
  {
    var h := qs[|qs| - 1].handle;
    after := owner;
    match query
    case Inform(w0) => ReplyKeeps(s, qs, seen, owner, w0, [], Plain);
    case Resolve(target, seqNo, known, mac) =>
      after := FromCacheKeeps(s, qs, seen, owner, known, mac, NewSlot(s, Arp, h, target, seqNo));
    case PingHost(target, seqNo) => after := ParkKeeps(s, qs, seen, owner, NewSlot(s, Ping, h, target, seqNo));
    case UdpReceive(port) => after := ParkKeeps(s, qs, seen, owner, NewSlot(s, Udp, h, 0, port));
    case FindNeighbour(via, seqNo, known, mac) =>
      after := FromCacheKeeps(s, qs, seen, owner, known, mac, NamedSlot(s, Nd, h, 0, seqNo, via, false, false));
    case PingHost6(target, seqNo) =>
      after := ParkKeeps(s, qs, seen, owner, NamedSlot(s, Ping6, h, 0, seqNo, target, false, false));
  }

  lemma SameRemainder(k: nat, r: nat)
    ensures (65536 * k + r) % 65536 == r % 65536
  {
  }

  lemma LowHalf(x: nat)
    ensures (x % WRAP) % 65536 == x % 65536
  {
    assert x == 65536 * (65536 * (x / WRAP)) + x % WRAP;
    SameRemainder(65536 * (x / WRAP), x % WRAP);
  }

  lemma NextRemainder(x: nat)
    ensures (x % WRAP + 1) % WRAP == (x + 1) % WRAP
  {
  }

  lemma IdOfNumber(n: nat)
    ensures ((0x4C45 + n) % WRAP + 1) % WRAP == (0x4C45 + (n + 1)) % WRAP
    ensures ((0x4C45 + n) % WRAP) % 65536 == LookUpId(n)
  {
    NextRemainder(0x4C45 + n);
    LowHalf(0x4C45 + n);
  }

  lemma LookUpKeeps(s: Server, qs: seq<Question>, seen: seq<Frame>, owner: seq<nat>, q: Question) returns (after: seq<nat>)
    requires Inv(s, qs, seen, owner) && IsLookUp(q.request) && q.given == LookUps(qs) + 1
    ensures Inv(ServeQuery(s, q.handle, q.request.query), qs + [q], seen, after)
  {
    var query := q.request.query;
    var id := (s.dnsId + 1) % WRAP;
    var t := s.(dnsId := id);
    MoreQuestions(s, qs, seen, owner, q);
    IdOfNumber(LookUps(qs));
    IdOfNumber(LookUps(qs) + 1);
    assert (qs + [q])[|qs + [q]| - 1] == q;
    after := ParkKeeps(t, qs + [q], seen, owner,
                       NamedSlot(s, Dns, q.handle, query.dns, id % 65536, Kept(query.name), query.want6, query.over6));
  }

  // ---- requests about connections ----

  lemma ConnectKeeps(s: Server, qs: seq<Question>, seen: seq<Frame>, owner: seq<nat>, op: StreamOp) returns (after: seq<nat>)
    requires Serving(s, qs, seen, owner) && op.TcpConnect?
    requires qs[|qs| - 1].request == Stream(op) && s.nextId > 0
    requires FreeConn(s.conns, 0) < |s.conns| ==> qs[|qs| - 1].given == s.nextId
    ensures Inv(ServeConnect(s, qs[|qs| - 1].handle, op.ip, op.port, op.v6, op.via, op.known), qs, seen, after)
  {
    after := owner;
    var h, k := qs[|qs| - 1].handle, FreeConn(s.conns, 0);
    if k == |s.conns| {
      RefuseKeeps(s, qs, seen, owner);
    } else if Full(s) {
      RefuseKeeps(Numbered(s), qs, seen, owner);
    } else {
      var t := Numbered(s).(conns := s.conns[k := Dialled(s, op.ip, op.port, op.v6, op.known)]);
      after := ParkKeeps(t, qs, seen, owner, ConnectSlot(s, h, op.via, op.v6 || op.known));
    }
  }

  lemma SendKeeps(s: Server, qs: seq<Question>, seen: seq<Frame>, owner: seq<nat>, op: StreamOp)
    requires Serving(s, qs, seen, owner) && op.TcpSend? && qs[|qs| - 1].request == Stream(op)
    ensures Inv(ServeSend(s, qs[|qs| - 1].handle, op.id, op.data), qs, seen, owner)
  {
    var k := ConnById(s.conns, op.id, 0);
    RefuseKeeps(s, qs, seen, owner);
    ReplyKeeps(s, qs, seen, owner, 0, [], Plain);
    if k < |s.conns| {
      ReplyKeeps(s, qs, seen, owner, |Taken(s.conns[k], op.data)|, [], Plain);
    }
  }

  lemma ReceiveKeeps(s: Server, qs: seq<Question>, seen: seq<Frame>, owner: seq<nat>, op: StreamOp) returns (after: seq<nat>)
    requires Serving(s, qs, seen, owner) && op.TcpReceive? && qs[|qs| - 1].request == Stream(op)
    ensures Inv(ServeReceive(s, qs[|qs| - 1].handle, op.id), qs, seen, after)
  {
    after := owner;
    var h, k := qs[|qs| - 1].handle, ConnById(s.conns, op.id, 0);
    if k == |s.conns| || s.conns[k].phase.Dead? {
      RefuseKeeps(s, qs, seen, owner);
    } else if s.conns[k].rx != [] {
      var c := s.conns[k];
      ReplyKeeps(s, qs, seen, owner, ReadSize(c), c.rx[..ReadSize(c)], Bytes(c.id));
    } else if s.conns[k].peerClosed {
      ReplyKeeps(s, qs, seen, owner, 0, [], Plain);
    } else {
      after := ParkKeeps(s, qs, seen, owner, NewSlot(s, Read, h, s.conns[k].id, 0));
    }
  }

  lemma AcceptKeeps(s: Server, qs: seq<Question>, seen: seq<Frame>, owner: seq<nat>, op: StreamOp) returns (after: seq<nat>)
    requires Serving(s, qs, seen, owner) && op.TcpAccept? && qs[|qs| - 1].request == Stream(op)
    ensures Inv(ServeAccept(s, qs[|qs| - 1].handle, op.port), qs, seen, after)
  {
    after := owner;
    var h, l := qs[|qs| - 1].handle, ListenerOn(s.listeners, op.port, 0);
    if l == |s.listeners| {
      RefuseKeeps(s, qs, seen, owner);
    } else if s.listeners[l].queue != [] {
      var id := s.listeners[l].queue[0];
      ReplyKeeps(s, qs, seen, owner, id, [], Accepted(op.port, id, PeerOf(s.conns, id)));
    } else {
      after := ParkKeeps(s, qs, seen, owner, NewSlot(s, Accept, h, op.port, 0));
    }
  }

  lemma OtherOpKeeps(s: Server, qs: seq<Question>, seen: seq<Frame>, owner: seq<nat>, op: StreamOp)
    requires Serving(s, qs, seen, owner) && qs[|qs| - 1].request == Stream(op)
    requires op.TcpListen? || op.TcpUnlisten? || op.TcpClose?
    ensures Inv(ServeStream(s, qs[|qs| - 1].handle, op), qs, seen, owner)
  {
    RefuseKeeps(s, qs, seen, owner);
    ReplyKeeps(s, qs, seen, owner, 0, [], Plain);
  }

  lemma StreamKeeps(s: Server, qs: seq<Question>, seen: seq<Frame>, owner: seq<nat>, op: StreamOp) returns (after: seq<nat>)
    requires Serving(s, qs, seen, owner) && qs[|qs| - 1].request == Stream(op)
    requires op.TcpConnect? && FreeConn(s.conns, 0) < |s.conns| ==> qs[|qs| - 1].given == s.nextId > 0
    requires s.nextId > 0
    ensures Inv(ServeStream(s, qs[|qs| - 1].handle, op), qs, seen, after)
  {
    after := owner;
    match op
    case TcpConnect(_, _, _, _, _) => after := ConnectKeeps(s, qs, seen, owner, op);
    case TcpSend(_, _) => SendKeeps(s, qs, seen, owner, op);
    case TcpReceive(_) => after := ReceiveKeeps(s, qs, seen, owner, op);
    case TcpAccept(_) => after := AcceptKeeps(s, qs, seen, owner, op);
    case _ => OtherOpKeeps(s, qs, seen, owner, op);
  }

  // ---- an event settles what waited for it ----

  /** An event that is the answer to a question. */
  predicate Answers(cause: Cause, q: Question) {
    match q.request
    case Ask(Resolve(target, _, _, _)) => cause.ArpAnswer? && cause.sender == target
    case Ask(PingHost(_, seqNo)) => cause.EchoReply? && cause.seqNo == seqNo
    case Ask(LookUp(_, _, _, _)) => cause.NameAnswer? && cause.id == LookUpId(q.given)
    case Ask(UdpReceive(port)) => cause.Datagram? && cause.port == port
    case Ask(FindNeighbour(via, _, _, _)) => cause.Neighbour? && cause.target == via
    case Ask(PingHost6(_, seqNo)) => cause.EchoReply6? && cause.seqNo == seqNo
    case Stream(TcpConnect(_, _, _, _, _)) => cause.Connected? && cause.id == q.given
    case _ => false
  }

  /** A slot after an event that does not look at the connections. */
  function SlotAfter(p: Slot, cause: Cause, now: nat): Slot
    requires !cause.Readable?
  {
    if p.Free? then p
    else
      match Judge(p, cause, now, [])
      case Leave => p
      case Rewrite(slot) => slot
      case Finish(_, _, _) => Free
  }

  lemma ServeSlotAt(s: Server, i: nat, cause: Cause)
    requires i < |s.pending| && !cause.Readable?
    ensures ServeSlot(s, i, cause).pending == s.pending[i := SlotAfter(s.pending[i], cause, s.now)]
    ensures ServeSlot(s, i, cause).now == s.now
  {
  }

  lemma {:induction false} SweepAt(s: Server, j: nat, cause: Cause, i: nat)
    requires i < |s.pending| && j <= |s.pending| && !cause.Readable?
    ensures |Sweep(s, j, cause).pending| == |s.pending|
    ensures Sweep(s, j, cause).pending[i] == if i < j then s.pending[i] else SlotAfter(s.pending[i], cause, s.now)
    decreases |s.pending| - j
  {
    if j < |s.pending| {
      ServeSlotAt(s, j, cause);
      SweepAt(ServeSlot(s, j, cause), j + 1, cause, i);
    }
  }

  lemma AnswerSettles(q: Question, p: Slot, cause: Cause, now: nat)
    requires WaitsIn(q, p) && Answers(cause, q) && !p.kind.TcpArp?
    ensures SlotAfter(p, cause, now).Free?
  {
  }

  /** A frame leaves no question waiting that it answers. */
  lemma FrameSettles(s: Server, q: Question, i: nat, cause: Cause)
    requires i < |s.pending| && WaitsIn(q, s.pending[i]) && Answers(cause, q) && Wire(cause)
    ensures |HandleFrame(s, Signal(cause)).pending| == |s.pending| && HandleFrame(s, Signal(cause)).pending[i].Free?
  {
    SweepAt(s, 0, cause, i);
    AnswerSettles(q, s.pending[i], cause, s.now);
  }

  /** And the answer to a SYN leaves no connect waiting whose SYN has gone out. */
  lemma SynAckSettles(s: Server, q: Question, i: nat, k: nat, seg: Segment, code: int)
    requires k < |s.conns| && Completes(s.conns[k], seg) && !seg.rst
    requires i < |s.pending| && WaitsIn(q, s.pending[i]) && Answers(Connected(s.conns[k].id), q) && s.pending[i].kind.Connect?
    ensures |HandleSegment(s, k, seg, code).pending| == |s.pending| && HandleSegment(s, k, seg, code).pending[i].Free?
  {
    var c, open := s.conns[k], Synchronised(s.conns[k], seg);
    var t := s.(conns := s.conns[k := if c.v6 then open.(out := []) else open]);
    SweepAt(t, 0, Connected(c.id), i);
    AnswerSettles(q, s.pending[i], Connected(c.id), s.now);
  }

  // ---- runs ----

  /** Every request received, in order, with the number it was given. */
  function Questions(turns: seq<Turn>): seq<Question> {
    if turns == [] then []
    else
      var earlier, last := turns[..|turns| - 1], turns[|turns| - 1];
      Questions(earlier) +
      match last.arrived
      case Nothing => []
      case Asked(h, m) =>
        [Question(h, m, Given(Upkeep(Run(earlier), last.frames, last.haveDns6), m, Questions(earlier)), |Frames(turns)|)]
  }

  /** Every frame that came in, in order. */
  function Frames(turns: seq<Turn>): seq<Frame> {
    if turns == [] then [] else Frames(turns[..|turns| - 1]) + turns[|turns| - 1].frames
  }

  lemma AskKeeps(s: Server, qs: seq<Question>, seen: seq<Frame>, owner: seq<nat>, h: int, m: Request) returns (after: seq<nat>)
    requires Inv(s, qs, seen, owner) && s.nextId > 0
    ensures Inv(Take(s, Asked(h, m)), qs + [Question(h, m, Given(s, m, qs), |seen|)], seen, after)
  {
    var q := Question(h, m, Given(s, m, qs), |seen|);
    var t := s.(asked := s.asked + [h]);
    if IsLookUp(m) {
      after := LookUpKeeps(t, qs, seen, owner, q);
    } else {
      MoreQuestions(t, qs, seen, owner, q);
      assert (qs + [q])[|qs + [q]| - 1] == q;
      match m
      case Ask(query) => after := QueryKeeps(t, qs + [q], seen, owner, query);
      case Stream(op) => after := StreamKeeps(t, qs + [q], seen, owner, op);
    }
  }

  lemma NewQuestion(conns: seq<Conn>, nextId: nat, qs: seq<Question>, q: Question)
    requires Dialling(conns, nextId, qs) && !Dials(q)
    ensures Dialling(conns, nextId, qs + [q])
  {
  }

  /** The connection a connect opens is the one it is given. */
  lemma NewDial(conns: seq<Conn>, nextId: nat, qs: seq<Question>, q: Question, k: nat, c: Conn)
    requires Dialling(conns, nextId, qs) && k < |conns| && Dials(q) && q.given == c.id == nextId
    requires DialledBy(c, q.request.op)
    ensures Dialling(conns[k := c], nextId + 1, qs + [q])
  {
  }

  /** Nor is one that is given a number and refused all the same anybody else's. */
  lemma NewNumber(conns: seq<Conn>, nextId: nat, qs: seq<Question>, q: Question)
    requires Dialling(conns, nextId, qs) && (Dials(q) ==> q.given == nextId)
    ensures Dialling(conns, nextId + 1, qs + [q])
  {
  }

  lemma ConnectDialling(s: Server, qs: seq<Question>, q: Question)
    requires Dialling(s.conns, s.nextId, qs) && q.request.Stream? && q.request.op.TcpConnect?
    requires q.given == if FreeConn(s.conns, 0) < |s.conns| then s.nextId else 0
    ensures var t := Serve(s, q.handle, q.request); Dialling(t.conns, t.nextId, qs + [q])
  {
    var op, k := q.request.op, FreeConn(s.conns, 0);
    if k == |s.conns| {
      NewQuestion(s.conns, s.nextId, qs, q);
    } else if Full(s) {
      NewNumber(s.conns, s.nextId, qs, q);
    } else {
      NetConns.ConnectTable(s, q.handle, op.ip, op.port, op.v6, op.via, op.known);
      NewDial(s.conns, s.nextId, qs, q, k, Dialled(s, op.ip, op.port, op.v6, op.known));
    }
  }

  lemma AskDialling(s: Server, qs: seq<Question>, h: int, m: Request, since: nat)
    requires Dialling(s.conns, s.nextId, qs)
    ensures var t := Take(s, Asked(h, m)); Dialling(t.conns, t.nextId, qs + [Question(h, m, Given(s, m, qs), since)])
  {
    var q, t := Question(h, m, Given(s, m, qs), since), s.(asked := s.asked + [h]);
    if m.Stream? && m.op.TcpConnect? {
      ConnectDialling(t, qs, q);
    } else {
      NetConns.ServeFewer(t, h, m);
      FewerDialling(t.conns, Serve(t, h, m).conns, t.nextId, qs);
      NewQuestion(Serve(t, h, m).conns, t.nextId, qs, q);
    }
  }

  lemma {:induction false} AskedSince(turns: seq<Turn>)
    ensures forall k :: 0 <= k < |Questions(turns)| ==> Questions(turns)[k].since <= |Frames(turns)|
  {
    if turns != [] {
      AskedSince(turns[..|turns| - 1]);
    }
  }

  lemma {:induction false} RunKeeps(turns: seq<Turn>) returns (owner: seq<nat>)
    ensures Inv(Run(turns), Questions(turns), Frames(turns), owner)
    ensures Dialling(Run(turns).conns, Run(turns).nextId, Questions(turns))
  {
    if turns == [] {
      owner := seq(PENDING_MAX, _ => 0);
    } else {
      var earlier, last := turns[..|turns| - 1], turns[|turns| - 1];
      owner := RunKeeps(earlier);
      AskedSince(earlier);
      UpkeepKeeps(Run(earlier), Questions(earlier), Frames(earlier), owner, last.frames, last.haveDns6);
      var s, qs, seen := Upkeep(Run(earlier), last.frames, last.haveDns6), Questions(earlier), Frames(earlier) + last.frames;
      match last.arrived
      case Nothing => assert qs + [] == qs;
      case Asked(h, m) =>
        owner := AskKeeps(s, qs, seen, owner, h, m);
        AskDialling(s, qs, h, m, |seen|);
    }
  }

  /**
   In every run, every reply is to a question that was asked, and is a refusal or
   says what a frame said that came in after it with that question's own id, sequence
   number, port or address.
   */
  lemma EveryReplyTold(turns: seq<Turn>, i: nat) returns (k: nat)
    requires i < |Run(turns).replies|
    ensures k < |Questions(turns)| && Told(Questions(turns)[k], Run(turns).replies[i], Frames(turns))
  {
    var owner := RunKeeps(turns);
    assert HasQuestion(Questions(turns), Run(turns).replies[i], Frames(turns));
    k :| 0 <= k < |Questions(turns)| && Told(Questions(turns)[k], Run(turns).replies[i], Frames(turns));
  }

  /** For a lookup: a refusal, or the address of a later answer with the id its question went out with. */
  lemma NameReplyTold(turns: seq<Turn>, k: nat, a: Answer)
    requires k < |Questions(turns)| && Told(Questions(turns)[k], a, Frames(turns)) && IsLookUp(Questions(turns)[k].request)
    ensures var q := Questions(turns)[k];
            a.handle == q.handle &&
            (Refusal(a) || NameArrived(After(Frames(turns), q.since), LookUpId(q.given), q.request.query.want6, a))
  {
  }

  // ---- one answer, one slot ----

  /** Lookups are numbered in the order they are asked. */
  predicate Counted(qs: seq<Question>) {
    forall k :: 0 <= k < |qs| && IsLookUp(qs[k].request) ==> qs[k].given == LookUps(qs[..k + 1])
  }

  lemma CountedMore(qs: seq<Question>, q: Question)
    requires Counted(qs) && (IsLookUp(q.request) ==> q.given == LookUps(qs) + 1)
    ensures Counted(qs + [q])
  {
    var more := qs + [q];
    forall k | 0 <= k < |more| && IsLookUp(more[k].request) ensures more[k].given == LookUps(more[..k + 1]) {
      if k < |qs| {
        assert more[..k + 1] == qs[..k + 1];
      } else {
        assert more[..k + 1] == more && more[..|more| - 1] == qs;
      }
    }
  }

  lemma {:induction false} AllCounted(turns: seq<Turn>)
    ensures Counted(Questions(turns))
  {
    if turns != [] {
      var earlier, last := turns[..|turns| - 1], turns[|turns| - 1];
      AllCounted(earlier);
      match last.arrived
      case Nothing => assert Questions(turns) == Questions(earlier);
      case Asked(h, m) =>
        CountedMore(Questions(earlier),
                    Question(h, m, Given(Upkeep(Run(earlier), last.frames, last.haveDns6), m, Questions(earlier)),
                             |Frames(turns)|));
    }
  }

  lemma {:induction false} LookUpsGrow(qs: seq<Question>, i: nat, j: nat)
    requires i <= j <= |qs|
    ensures LookUps(qs[..i]) <= LookUps(qs[..j])
    decreases j - i
  {
    if i < j {
      LookUpsGrow(qs, i, j - 1);
      assert qs[..j][..j - 1] == qs[..j - 1];
    }
  }

  lemma NumbersDiffer(qs: seq<Question>, i: nat, j: nat)
    requires Counted(qs) && i < j < |qs| && IsLookUp(qs[i].request) && IsLookUp(qs[j].request)
    ensures qs[i].given < qs[j].given
  {
    LookUpsGrow(qs, i + 1, j);
    assert qs[..j + 1][..j] == qs[..j];
  }

  lemma IdsDiffer(n: nat, m: nat)
    requires n < m < n + 65536
    ensures LookUpId(n) != LookUpId(m)
  {
  }

  /** Two lookups that wait at once have different numbers, and different ids unless 65536 or more lie between. */
  lemma LookUpsApart(turns: seq<Turn>, i: nat, j: nat) returns (n: nat, m: nat)
    requires i < |Run(turns).pending| && j < |Run(turns).pending| && i != j
    requires Run(turns).pending[i].Parked? && Run(turns).pending[i].kind.Dns?
    requires Run(turns).pending[j].Parked? && Run(turns).pending[j].kind.Dns?
    ensures Run(turns).pending[i].seqNo == LookUpId(n) && Run(turns).pending[j].seqNo == LookUpId(m) && n != m
    ensures -65536 < n - m < 65536 ==> Run(turns).pending[i].seqNo != Run(turns).pending[j].seqNo
  {
    var owner := RunKeeps(turns);
    var qs := Questions(turns);
    AllCounted(turns);
    n, m := qs[owner[i]].given, qs[owner[j]].given;
    if owner[i] < owner[j] {
      NumbersDiffer(qs, owner[i], owner[j]);
    } else {
      NumbersDiffer(qs, owner[j], owner[i]);
    }
    if n < m < n + 65536 {
      IdsDiffer(n, m);
    } else if m < n < m + 65536 {
      IdsDiffer(m, n);
    }
  }

  /** So one answer to a name settles at most one of them. */
  lemma OneAnswerOneSlot(p: Slot, r: Slot, cause: Cause, now: nat, conns: seq<Conn>)
    requires p.Parked? && r.Parked? && p.kind.Dns? && r.kind.Dns? && p.seqNo != r.seqNo && cause.NameAnswer?
    ensures Judge(p, cause, now, conns).Leave? || Judge(r, cause, now, conns).Leave?
  {
  }
}
