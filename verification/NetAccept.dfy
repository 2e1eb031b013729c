/**
 Accepting: over every run, the connections handed to acceptors on a port are
 handed over at most once each and in the order their handshakes completed. It
 rests on one invariant: no acceptor is ever parked on a port whose queue holds
 a connection.
 */
module NetAccept {
  import opened Bytes
  import opened Tcp
  import opened NetServer
  import opened Sequences

  /** The connections replies have handed over on a port, in order. */
  function Handed(replies: seq<Answer>, port: nat): seq<nat> {
    if replies == [] then []
    else
      var last := replies[|replies| - 1];
      Handed(replies[..|replies| - 1], port) +
      (if last.topic.Accepted? && last.topic.port == port then [last.topic.id] else [])
  }

  /** The connections whose passive open on a port has completed, in order. */
  function Completed(completed: seq<Arrival>, port: nat): seq<nat> {
    if completed == [] then []
    else
      var last := completed[|completed| - 1];
      Completed(completed[..|completed| - 1], port) + (if last.port == port then [last.id] else [])
  }

  /** The connections queued for a port. */
  function Queue(listeners: seq<Listener>, port: nat): seq<nat> {
    var l := ListenerOn(listeners, port, 0);
    if l < |listeners| then listeners[l].queue else []
  }

  predicate Accepting(p: Slot, port: nat) { p.Parked? && p.kind.Accept? && p.ip == port }

  // ---- the invariant ----

  /** What was handed over, then what is queued, is in completion order. */
  ghost predicate InOrder(replies: seq<Answer>, queue: seq<nat>, completed: seq<Arrival>, port: nat) {
    IsSubseq(Handed(replies, port) + queue, Completed(completed, port))
  }

  ghost predicate NobodyWaitsInVain(pending: seq<Slot>, queue: seq<nat>, port: nat) {
    forall i :: 0 <= i < |pending| && Accepting(pending[i], port) ==> queue == []
  }

  ghost predicate OneListenerEach(listeners: seq<Listener>) {
    forall i, j :: 0 <= i < j < |listeners| && listeners[i].used && listeners[j].used ==>
      listeners[i].port != listeners[j].port
  }

  /** Connection ids are never reused, and no connection completes twice. */
  ghost predicate Identified(conns: seq<Conn>, completed: seq<Arrival>, nextId: nat) {
    && 0 < nextId
    && (forall k :: 0 <= k < |conns| && conns[k].used ==> 0 < conns[k].id < nextId)
    && (forall j, k :: 0 <= j < k < |conns| && conns[j].used && conns[k].used ==> conns[j].id != conns[k].id)
    && (forall k, n :: 0 <= k < |conns| && 0 <= n < |completed| && conns[k].used && conns[k].phase.SynRcvd? ==>
          conns[k].id != completed[n].id)
    && (forall n :: 0 <= n < |completed| ==> completed[n].id < nextId)
    && (forall m, n :: 0 <= m < n < |completed| ==> completed[m].id != completed[n].id)
  }

  ghost predicate Inv(s: Server, port: nat) {
    && InOrder(s.replies, Queue(s.listeners, port), s.completed, port)
    && NobodyWaitsInVain(s.pending, Queue(s.listeners, port), port)
    && OneListenerEach(s.listeners)
    && Identified(s.conns, s.completed, s.nextId)
  }

  // ---- steps that only look through the pending table ----

  ghost predicate SameConn(c: Conn, d: Conn) {
    d.id == c.id && (d.used ==> c.used) && (d.phase.SynRcvd? ==> c.phase.SynRcvd?)
  }

  /** Connections keep their ids; some may have been closed, none is back in its handshake. */
  ghost predicate SameConns(cs: seq<Conn>, ds: seq<Conn>) {
    && |cs| == |ds|
    && (forall k :: 0 <= k < |cs| ==> SameConn(cs[k], ds[k]))
  }

  /** No acceptor appears, and nothing is handed over on `port`. */
  ghost predicate Quiet(s: Server, t: Server, port: nat) {
    && t.listeners == s.listeners && t.nextId == s.nextId && t.completed == s.completed
    && SameConns(s.conns, t.conns)
    && NoNewAcceptor(s.pending, t.pending)
    && Handed(t.replies, port) == Handed(s.replies, port)
  }

  ghost predicate NoNewAcceptor(ps: seq<Slot>, qs: seq<Slot>) {
    && |ps| == |qs|
    && (forall i :: 0 <= i < |ps| && qs[i].Parked? && qs[i].kind.Accept? ==> qs[i] == ps[i])
  }

  lemma QuietThen(s: Server, t: Server, u: Server, port: nat)
    requires Quiet(s, t, port) && Quiet(t, u, port)
    ensures Quiet(s, u, port)
  {
    forall k | 0 <= k < |s.conns| ensures SameConn(s.conns[k], u.conns[k]) {
      assert SameConn(s.conns[k], t.conns[k]) && SameConn(t.conns[k], u.conns[k]);
    }
  }

  lemma HandedMore(replies: seq<Answer>, a: Answer, port: nat)
    ensures Handed(replies + [a], port) ==
            if a.topic.Accepted? && a.topic.port == port then Handed(replies, port) + [a.topic.id]
            else Handed(replies, port)
  {
    assert (replies + [a])[..|replies|] == replies;
  }

  lemma CompletedMore(completed: seq<Arrival>, a: Arrival, port: nat)
    ensures Completed(completed + [a], port) ==
            if a.port == port then Completed(completed, port) + [a.id] else Completed(completed, port)
  {
    assert (completed + [a])[..|completed|] == completed;
  }

  lemma IdentifiedKept(cs: seq<Conn>, ds: seq<Conn>, completed: seq<Arrival>, nextId: nat)
    requires Identified(cs, completed, nextId) && SameConns(cs, ds)
    ensures Identified(ds, completed, nextId)
  {
    assert forall k :: 0 <= k < |cs| ==> SameConn(cs[k], ds[k]);
  }

  lemma QuietKeeps(s: Server, t: Server, port: nat)
    requires Inv(s, port) && Quiet(s, t, port)
    ensures Inv(t, port)
  {
    IdentifiedKept(s.conns, t.conns, s.completed, s.nextId);
  }

  lemma JudgeQuiet(p: Slot, cause: Cause, now: nat, conns: seq<Conn>)
    requires p.Parked? && (cause.Readable? ==> cause.conn < |conns|)
    ensures var v := Judge(p, cause, now, conns);
            && (v.Rewrite? && v.slot.Parked? ==> !v.slot.kind.Accept?)
            && (v.Finish? ==> !v.topic.Accepted?)
  {
  }

  lemma ConnsAfterSame(p: Slot, cause: Cause, now: nat, conns: seq<Conn>)
    requires p.Parked? && (cause.Readable? ==> cause.conn < |conns|)
    ensures SameConns(conns, ConnsAfter(p, cause, now, conns))
  {
  }

  lemma SettleQuiet(s: Server, t: Server, i: nat, w0: int, data: seq<Byte>, topic: Topic, port: nat)
    requires i < |s.pending| && s.pending[i].Parked? && !topic.Accepted?
    requires t == s.(conns := t.conns) && SameConns(s.conns, t.conns)
    ensures Quiet(s, Settle(t, i, w0, data, topic), port)
  {
    HandedMore(s.replies, Answer(s.pending[i].handle, w0, data, topic), port);
  }

  lemma ServeSlotQuiet(s: Server, i: nat, cause: Cause, port: nat)
    requires i < |s.pending| && (cause.Readable? ==> cause.conn < |s.conns|)
    ensures Quiet(s, ServeSlot(s, i, cause), port)
  {
    var p := s.pending[i];
    if p.Parked? {
      JudgeQuiet(p, cause, s.now, s.conns);
      ConnsAfterSame(p, cause, s.now, s.conns);
      var t := s.(conns := ConnsAfter(p, cause, s.now, s.conns));
      match Judge(p, cause, s.now, s.conns)
      case Leave => assert Quiet(s, t, port);
      case Rewrite(q) => assert Quiet(s, t.(pending := s.pending[i := q]), port);
      case Finish(w0, data, topic) => SettleQuiet(s, t, i, w0, data, topic, port);
    }
  }

  lemma {:induction false} SweepQuiet(s: Server, i: nat, cause: Cause, port: nat)
    requires i <= |s.pending| && (cause.Readable? ==> cause.conn < |s.conns|)
    ensures Quiet(s, Sweep(s, i, cause), port)
    decreases |s.pending| - i
  {
    if i < |s.pending| {
      var t := ServeSlot(s, i, cause);
      ServeSlotQuiet(s, i, cause, port);
      SweepQuiet(t, i + 1, cause, port);
      QuietThen(s, t, Sweep(s, i, cause), port);
    }
  }

  lemma SweepKeeps(s: Server, i: nat, cause: Cause, port: nat)
    requires i <= |s.pending| && (cause.Readable? ==> cause.conn < |s.conns|) && Inv(s, port)
    ensures Inv(Sweep(s, i, cause), port)
  {
    SweepQuiet(s, i, cause, port);
    QuietKeeps(s, Sweep(s, i, cause), port);
  }

  // ---- listeners ----

  lemma {:induction false} ListenerKept(listeners: seq<Listener>, l: nat, q: seq<nat>, port: nat, i: nat)
    requires l < |listeners| && i <= |listeners|
    ensures ListenerOn(listeners[l := listeners[l].(queue := q)], port, i) == ListenerOn(listeners, port, i)
    decreases |listeners| - i
  {
    if i < |listeners| {
      ListenerKept(listeners, l, q, port, i + 1);
    }
  }

  /** Rewriting one listener's queue changes that port's queue and no other. */
  lemma QueueUpdate(listeners: seq<Listener>, l: nat, q: seq<nat>, port: nat)
    requires l < |listeners| && listeners[l].used && OneListenerEach(listeners)
    ensures var ls := listeners[l := listeners[l].(queue := q)];
            OneListenerEach(ls) && Queue(ls, port) == if port == listeners[l].port then q else Queue(listeners, port)
  {
    ListenerKept(listeners, l, q, port, 0);
  }

  /** A new listener starts with nothing queued, on a port that had nothing queued. */
  lemma QueueOpened(listeners: seq<Listener>, l: nat, claimed: nat, port: nat)
    requires l < |listeners| && !listeners[l].used && OneListenerEach(listeners)
    requires ListenerOn(listeners, claimed, 0) == |listeners|
    ensures var ls := listeners[l := Listener(true, claimed, [])];
            OneListenerEach(ls) && Queue(ls, port) == Queue(listeners, port)
  {
    var ls := listeners[l := Listener(true, claimed, [])];
    var j, k := ListenerOn(ls, port, 0), ListenerOn(listeners, port, 0);
    assert ls[l].used && ls[l].port == claimed;
    assert k < |ls| ==> ls[k] == listeners[k];
    assert j < |ls| && j != l ==> ls[j] == listeners[j];
  }

  /** Giving a port up drops its queue and no other. */
  lemma QueueClosed(listeners: seq<Listener>, l: nat, port: nat)
    requires l < |listeners| && listeners[l].used && OneListenerEach(listeners)
    ensures var ls := listeners[l := listeners[l].(used := false)];
            OneListenerEach(ls) && Queue(ls, port) == if port == listeners[l].port then [] else Queue(listeners, port)
  {
    var ls := listeners[l := listeners[l].(used := false)];
    var j, k := ListenerOn(ls, port, 0), ListenerOn(listeners, port, 0);
    assert k < |ls| && k != l ==> ls[k] == listeners[k];
    assert j < |ls| ==> ls[j] == listeners[j];
  }

  // ---- a handshake completes ----

  /** The new arrival is one nobody has seen complete before. */
  lemma ArrivalIdentified(conns: seq<Conn>, completed: seq<Arrival>, nextId: nat, k: nat)
    requires k < |conns| && conns[k].used && conns[k].phase.SynRcvd? && Identified(conns, completed, nextId)
    ensures Identified(conns[k := conns[k].(phase := Established)],
                       completed + [Arrival(conns[k].localPort, conns[k].id)], nextId)
  {
  }

  /** To a waiting acceptor: nothing was queued before it. */
  lemma HandedOrder(s: Server, handle: int, id: nat, at: nat, peer: Peer, port: nat)
    requires InOrder(s.replies, Queue(s.listeners, port), s.completed, port)
    requires port == at ==> Queue(s.listeners, port) == []
    ensures InOrder(s.replies + [Answer(handle, id, [], Accepted(at, id, peer))], Queue(s.listeners, port),
                    s.completed + [Arrival(at, id)], port)
  {
    var queued, before := Queue(s.listeners, port), Handed(s.replies, port);
    CompletedMore(s.completed, Arrival(at, id), port);
    HandedMore(s.replies, Answer(handle, id, [], Accepted(at, id, peer)), port);
    SubseqMore(before + queued, Completed(s.completed, port), id);
    assert queued == [] ==> before + queued + [id] == before + [id] + queued;
  }

  /** Into the queue, behind everything already there. */
  lemma QueuedOrder(s: Server, id: nat, at: nat, port: nat)
    requires InOrder(s.replies, Queue(s.listeners, port), s.completed, port)
    ensures InOrder(s.replies, if port == at then Queue(s.listeners, port) + [id] else Queue(s.listeners, port),
                    s.completed + [Arrival(at, id)], port)
    ensures InOrder(s.replies, Queue(s.listeners, port), s.completed + [Arrival(at, id)], port)
  {
    var queued, before := Queue(s.listeners, port), Handed(s.replies, port);
    CompletedMore(s.completed, Arrival(at, id), port);
    SubseqMore(before + queued, Completed(s.completed, port), id);
    assert before + queued + [id] == before + (queued + [id]);
  }

  lemma HandOverKeeps(s: Server, k: nat, port: nat)
    requires k < |s.conns| && s.conns[k].used && s.conns[k].phase.SynRcvd?
    requires Inv(s, port) && Inv(s, s.conns[k].localPort)
    ensures Inv(HandOver(s, k), port)
  {
    var c := s.conns[k];
    ArrivalIdentified(s.conns, s.completed, s.nextId, k);
    var a := Acceptor(s.pending, c.localPort, 0);
    var l := ListenerOn(s.listeners, c.localPort, 0);
    if a < |s.pending| {
      HandOverToAcceptor(s, k, port, a);
    } else if l < |s.listeners| && |s.listeners[l].queue| < BACKLOG_MAX {
      HandOverToQueue(s, k, port, l);
    } else {
      QueuedOrder(s, c.id, c.localPort, port);
    }
  }

  lemma HandOverToAcceptor(s: Server, k: nat, port: nat, a: nat)
    requires k < |s.conns| && s.conns[k].used && s.conns[k].phase.SynRcvd?
    requires Inv(s, port) && Inv(s, s.conns[k].localPort)
    requires a == Acceptor(s.pending, s.conns[k].localPort, 0) < |s.pending|
    ensures Inv(HandOver(s, k), port)
  {
    var c := s.conns[k];
    ArrivalIdentified(s.conns, s.completed, s.nextId, k);
    assert Accepting(s.pending[a], c.localPort);
    HandedOrder(s, s.pending[a].handle, c.id, c.localPort, Peer(c.peerIp, c.peerPort), port);
  }

  lemma HandOverToQueue(s: Server, k: nat, port: nat, l: nat)
    requires k < |s.conns| && s.conns[k].used && s.conns[k].phase.SynRcvd?
    requires Inv(s, port) && Acceptor(s.pending, s.conns[k].localPort, 0) == |s.pending|
    requires l == ListenerOn(s.listeners, s.conns[k].localPort, 0) < |s.listeners|
    requires |s.listeners[l].queue| < BACKLOG_MAX
    ensures Inv(HandOver(s, k), port)
  {
    var c := s.conns[k];
    ArrivalIdentified(s.conns, s.completed, s.nextId, k);
    QueueUpdate(s.listeners, l, s.listeners[l].queue + [c.id], port);
    QueuedOrder(s, c.id, c.localPort, port);
    assert port == c.localPort ==> forall i :: 0 <= i < |s.pending| ==> !Accepting(s.pending[i], port);
  }

  // ---- frames ----

  /** Invariants for the port asked about and for the one a connection came in on. */
  ghost predicate Inv2(s: Server, port: nat, other: nat) { Inv(s, port) && Inv(s, other) }

  lemma ConnChangeKeeps(s: Server, k: nat, d: Conn, stored: seq<Chunk>, port: nat)
    requires k < |s.conns| && SameConn(s.conns[k], d) && Inv(s, port)
    ensures Inv(s.(conns := s.conns[k := d]), port)
    ensures Inv(s.(conns := s.conns[k := d], stored := stored), port)
  {
    QuietKeeps(s, s.(conns := s.conns[k := d]), port);
    QuietKeeps(s, s.(conns := s.conns[k := d], stored := stored), port);
  }

  /** The part of a segment's handling after a handshake may have completed. */
  lemma OpenSegmentKeeps(o: Server, k: nat, seg: Segment, code: int, port: nat)
    requires k < |o.conns| && Inv(o, port)
    requires !(o.conns[k].phase.SynRcvd? && seg.ack)
    ensures Inv(HandleSegment(o, k, seg, code), port)
  {
    var c := o.conns[k];
    if seg.rst {
      var d := c.(phase := Dead);
      ConnChangeKeeps(o, k, d, o.stored, port);
      SweepKeeps(o.(conns := o.conns[k := d]), 0, Refused(c.id, code), port);
    } else if Completes(c, seg) {
      var open := Synchronised(c, seg);
      var d := if c.v6 then open.(out := []) else open;
      ConnChangeKeeps(o, k, d, o.stored, port);
      SweepKeeps(o.(conns := o.conns[k := d]), 0, Connected(c.id), port);
    } else {
      var d, stored := Finished(Stored(Acknowledged(c, seg), seg), seg), o.stored + [Chunk(c.id, Fresh(c, seg))];
      ConnChangeKeeps(o, k, d, stored, port);
      SweepKeeps(o.(conns := o.conns[k := d], stored := stored), 0, Readable(k), port);
    }
  }

  lemma HandleSegmentKeeps(s: Server, k: nat, seg: Segment, code: int, port: nat)
    requires k < |s.conns| && s.conns[k].used && Inv2(s, port, s.conns[k].localPort)
    ensures Inv(HandleSegment(s, k, seg, code), port)
  {
    if s.conns[k].phase.SynRcvd? && seg.ack {
      HandOverKeeps(s, k, port);
      var o := HandOver(s, k);
      assert |o.conns| == |s.conns| && o.conns[k].phase.Established?;
      OpenSegmentKeeps(o, k, seg, code, port);
      assert HandleSegment(s, k, seg, code) == HandleSegment(o, k, seg, code);
    } else {
      OpenSegmentKeeps(s, k, seg, code, port);
    }
  }

  /** A connection that takes the next id is told apart from every other. */
  lemma NewConnKeeps(s: Server, k: nat, c: Conn, nextPort: nat, port: nat)
    requires k < |s.conns| && !s.conns[k].used && c.id == s.nextId && Inv(s, port)
    ensures Inv(s.(conns := s.conns[k := c], nextId := s.nextId + 1, nextPort := nextPort), port)
    ensures Inv(s.(conns := s.conns[k := c], nextId := s.nextId + 1), port)
  {
  }

  lemma PassiveKeeps(s: Server, local: nat, ip: nat, from: nat, seg: Segment, port: nat)
    requires Inv(s, port) && Inv(s, local)
    ensures Inv(PassiveOpen(s, local, ip, from, seg), port)
  {
    var j := FreeConn(s.conns, 0);
    if ListenerOn(s.listeners, local, 0) < |s.listeners| && j < |s.conns| {
      var c := Answering(s.nextId, ip, from, local, InitialSeq(s), seg);
      NewConnKeeps(s, j, c, s.nextPort, port);
      NewConnKeeps(s, j, c, s.nextPort, local);
      HandleSegmentKeeps(s.(conns := s.conns[j := c], nextId := s.nextId + 1), j, seg, -1, port);
    }
  }

  lemma HandleFrameKeeps(s: Server, f: Frame, port: nat)
    requires forall p :: Inv(s, p)
    ensures Inv(HandleFrame(s, f), port)
  {
    match f
    case Signal(cause) => if Wire(cause) { SweepKeeps(s, 0, cause, port); }
    case Segment4(local, ip, from, seg) =>
      var k := ConnByTuple(s.conns, local, ip, from, 0);
      if k < |s.conns| {
        HandleSegmentKeeps(s, k, seg, -1, port);
      } else if seg.syn && !seg.ack {
        PassiveKeeps(s, local, ip, from, seg, port);
      }
    case Segment6(local, seg) =>
      var k := ConnByPort6(s.conns, local);
      if k < |s.conns| { HandleSegmentKeeps(s, k, seg, -2, port); }
    case Other =>
  }

  lemma {:induction false} DrainKeeps(s: Server, frames: seq<Frame>)
    requires forall p :: Inv(s, p)
    ensures forall p :: Inv(Drain(s, frames), p)
    decreases |frames|
  {
    if frames != [] {
      forall p ensures Inv(HandleFrame(s, frames[0]), p) {
        HandleFrameKeeps(s, frames[0], p);
      }
      DrainKeeps(HandleFrame(s, frames[0]), frames[1..]);
    }
  }

  // ---- requests ----

  lemma ParkQuiet(s: Server, p: Slot, port: nat)
    requires p.Parked? && !p.kind.Accept? && Inv(s, port)
    ensures Inv(Park(s, p), port)
  {
    if Full(s) {
      ReplyKeeps(s, p.handle, -1, [], Plain, port);
    } else {
      QuietKeeps(s, Park(s, p), port);
    }
  }

  lemma ReplyKeeps(s: Server, h: int, w0: int, data: seq<Byte>, topic: Topic, port: nat)
    requires !topic.Accepted? && Inv(s, port)
    ensures Inv(Replied(s, h, w0, data, topic), port)
  {
    HandedMore(s.replies, Answer(h, w0, data, topic), port);
    QuietKeeps(s, Replied(s, h, w0, data, topic), port);
  }

  lemma ConnectKeeps(s: Server, h: int, ip: nat, to: nat, v6: bool, via: nat, known: bool, port: nat)
    requires Inv(s, port)
    ensures Inv(ServeConnect(s, h, ip, to, v6, via, known), port)
  {
    var k := FreeConn(s.conns, 0);
    if k == |s.conns| {
      ReplyKeeps(s, h, -1, [], Plain, port);
    } else if Full(s) {
      assert Inv(Numbered(s), port);
      ReplyKeeps(Numbered(s), h, -1, [], Plain, port);
    } else {
      var c := Dialled(s, ip, to, v6, known);
      NewConnKeeps(s, k, c, NextPort(s.nextPort), port);
      ParkQuiet(Numbered(s).(conns := s.conns[k := c]), ConnectSlot(s, h, via, v6 || known), port);
    }
  }

  lemma ListenKeeps(s: Server, h: int, claimed: nat, port: nat)
    requires Inv(s, port)
    ensures Inv(ServeListen(s, h, claimed), port)
  {
    ReplyKeeps(s, h, 0, [], Plain, port);
    ReplyKeeps(s, h, -1, [], Plain, port);
    if ListenerOn(s.listeners, claimed, 0) == |s.listeners| && FreeListener(s.listeners, 0) < |s.listeners| {
      QueueOpened(s.listeners, FreeListener(s.listeners, 0), claimed, port);
    }
  }

  lemma UnlistenKeeps(s: Server, h: int, given: nat, port: nat)
    requires Inv(s, port)
    ensures Inv(ServeUnlisten(s, h, given), port)
  {
    ReplyKeeps(s, h, 0, [], Plain, port);
    var l := ListenerOn(s.listeners, given, 0);
    if l < |s.listeners| {
      QueueClosed(s.listeners, l, port);
      var handed := Handed(Replied(s, h, 0, [], Plain).replies, port);
      SubseqPrefix(handed, Queue(s.listeners, port), Completed(s.completed, port));
      assert handed + [] == handed;
    }
  }

  /** Taking the head of the queue hands over the connection that completed first of those waiting. */
  lemma AcceptOrder(replies: seq<Answer>, q: seq<nat>, other: seq<nat>, completed: seq<Arrival>,
                    h: int, at: nat, peer: Peer, port: nat)
    requires q != [] && InOrder(replies, if port == at then q else other, completed, port)
    ensures InOrder(replies + [Answer(h, q[0], [], Accepted(at, q[0], peer))],
                    if port == at then q[1..] else other, completed, port)
  {
    HandedMore(replies, Answer(h, q[0], [], Accepted(at, q[0], peer)), port);
    assert Handed(replies, at) + q == Handed(replies, at) + [q[0]] + q[1..];
  }

  lemma AcceptKeeps(s: Server, h: int, at: nat, port: nat)
    requires Inv(s, port)
    ensures Inv(ServeAccept(s, h, at), port)
  {
    var l := ListenerOn(s.listeners, at, 0);
    if l == |s.listeners| {
      ReplyKeeps(s, h, -1, [], Plain, port);
    } else if s.listeners[l].queue != [] {
      var q := s.listeners[l].queue;
      AcceptOrder(s.replies, q, Queue(s.listeners, port), s.completed, h, at, PeerOf(s.conns, q[0]), port);
      QueueUpdate(s.listeners, l, s.listeners[l].queue[1..], port);
    } else if Full(s) {
      ReplyKeeps(s, h, -1, [], Plain, port);
    } else {
      assert at == port ==> Queue(s.listeners, port) == [];
    }
  }

  lemma LookUpKeeps(s: Server, h: int, name: seq<Byte>, want6: bool, dns: nat, over6: bool, port: nat)
    requires Inv(s, port)
    ensures Inv(ServeLookUp(s, h, name, want6, dns, over6), port)
  {
    var id := (s.dnsId + 1) % WRAP;
    QuietKeeps(s, s.(dnsId := id), port);
    ParkQuiet(s.(dnsId := id), NamedSlot(s, Dns, h, dns, id % 65536, NetServer.Kept(name), want6, over6), port);
  }

  lemma FromCacheKeeps(s: Server, h: int, known: bool, mac: seq<Byte>, p: Slot, port: nat)
    requires p.Parked? && !p.kind.Accept? && Inv(s, port)
    ensures Inv(ServeFromCache(s, h, known, mac, p), port)
  {
    if known { ReplyKeeps(s, h, 0, mac, Plain, port); } else { ParkQuiet(s, p, port); }
  }

  lemma CloseKeeps(s: Server, h: int, id: nat, port: nat)
    requires Inv(s, port)
    ensures Inv(ServeClose(s, h, id), port)
  {
    QuietKeeps(s, s.(conns := Closed(s.conns, id)), port);
    ReplyKeeps(s.(conns := Closed(s.conns, id)), h, 0, [], Plain, port);
  }

  lemma QueryKeeps(s: Server, h: int, q: Query, port: nat)
    requires Inv(s, port)
    ensures Inv(ServeQuery(s, h, q), port)
  {
    match q
    case Inform(w0) => ReplyKeeps(s, h, w0, [], Plain, port);
    case Resolve(target, seqNo, known, mac) =>
      FromCacheKeeps(s, h, known, mac, NewSlot(s, Arp, h, target, seqNo), port);
    case PingHost(target, seqNo) => ParkQuiet(s, NewSlot(s, Ping, h, target, seqNo), port);
    case LookUp(name, want6, dns, over6) => LookUpKeeps(s, h, name, want6, dns, over6, port);
    case UdpReceive(at) => ParkQuiet(s, NewSlot(s, Udp, h, 0, at), port);
    case FindNeighbour(via6, seqNo, known, mac) =>
      FromCacheKeeps(s, h, known, mac, NamedSlot(s, Nd, h, 0, seqNo, via6, false, false), port);
    case PingHost6(target6, seqNo) => ParkQuiet(s, NamedSlot(s, Ping6, h, 0, seqNo, target6, false, false), port);
  }

  lemma StreamKeeps(s: Server, h: int, op: StreamOp, port: nat)
    requires Inv(s, port)
    ensures Inv(ServeStream(s, h, op), port)
  {
    match op
    case TcpConnect(ip, to, v6, via, known) =>
      ConnectKeeps(s, h, ip, to, v6, via, known, port);
    case TcpSend(id, data) =>
      SendKeeps(s, h, id, data, port);
    case TcpReceive(id) =>
      ReceiveKeeps(s, h, id, port);
    case TcpListen(at) =>
      ListenKeeps(s, h, at, port);
    case TcpAccept(at) =>
      AcceptKeeps(s, h, at, port);
    case TcpUnlisten(at) =>
      UnlistenKeeps(s, h, at, port);
    case TcpClose(id) =>
      CloseKeeps(s, h, id, port);
  }

  lemma ServeKeeps(s: Server, h: int, m: Request, port: nat)
    requires Inv(s, port)
    ensures Inv(Serve(s, h, m), port)
  {
    match m
    case Ask(q) => QueryKeeps(s, h, q, port);
    case Stream(op) => StreamKeeps(s, h, op, port);
  }

  lemma SendKeeps(s: Server, h: int, id: nat, data: seq<Byte>, port: nat)
    requires Inv(s, port)
    ensures Inv(ServeSend(s, h, id, data), port)
  {
    var k := ConnById(s.conns, id, 0);
    ReplyKeeps(s, h, -1, [], Plain, port);
    ReplyKeeps(s, h, 0, [], Plain, port);
    if k < |s.conns| {
      var c := s.conns[k];
      ReplyKeeps(s, h, |Taken(c, data)|, [], Plain, port);
      ConnChangeKeeps(Replied(s, h, |Taken(c, data)|, [], Plain), k, Offered(c, data, Ticks(s)), s.stored, port);
    }
  }

  lemma ReceiveKeeps(s: Server, h: int, id: nat, port: nat)
    requires Inv(s, port)
    ensures Inv(ServeReceive(s, h, id), port)
  {
    var k := ConnById(s.conns, id, 0);
    ReplyKeeps(s, h, -1, [], Plain, port);
    ReplyKeeps(s, h, 0, [], Plain, port);
    if k < |s.conns| {
      var c := s.conns[k];
      var r := Replied(s, h, ReadSize(c), c.rx[..ReadSize(c)], Bytes(c.id));
      ReplyKeeps(s, h, ReadSize(c), c.rx[..ReadSize(c)], Bytes(c.id), port);
      ConnChangeKeeps(r, k, AfterRead(c), s.stored, port);
      ParkQuiet(s, NewSlot(s, Read, h, c.id, 0), port);
    }
  }

  // ---- over every run ----

  lemma LoopKeeps(s: Server, t: Turn)
    requires forall p :: Inv(s, p)
    ensures forall p :: Inv(Loop(s, t), p)
  {
    DrainKeeps(s, t.frames);
    var drained := Drain(s, t.frames);
    var sent := drained.(conns := RetransmitAll(drained.conns, Ticks(drained)));
    var expired := Sweep(sent, 0, Deadline(t.haveDns6));
    forall p ensures Inv(Loop(s, t), p) {
      QuietKeeps(drained, sent, p);
      SweepKeeps(sent, 0, Deadline(t.haveDns6), p);
      match t.arrived
      case Nothing => QuietKeeps(expired, expired.(now := expired.now + 1), p);
      case Asked(h, m) =>
        var owing := expired.(asked := expired.asked + [h]);
        QuietKeeps(expired, owing, p);
        ServeKeeps(owing, h, m, p);
    }
  }

  lemma {:induction false} RunKeeps(turns: seq<Turn>)
    ensures forall p :: Inv(Run(turns), p)
  {
    if turns != [] {
      RunKeeps(turns[..|turns| - 1]);
      LoopKeeps(Run(turns[..|turns| - 1]), turns[|turns| - 1]);
    }
  }

  lemma {:induction false} CompletedDistinct(completed: seq<Arrival>, port: nat)
    requires forall m, n :: 0 <= m < n < |completed| ==> completed[m].id != completed[n].id
    ensures Distinct(Completed(completed, port))
    ensures forall e <- Completed(completed, port) :: exists n :: 0 <= n < |completed| && completed[n] == Arrival(port, e)
    decreases |completed|
  {
    if completed != [] {
      var k := |completed| - 1;
      CompletedDistinct(completed[..k], port);
      forall e | e in Completed(completed, port)
        ensures exists n :: 0 <= n < |completed| && completed[n] == Arrival(port, e)
      {
        if e in Completed(completed[..k], port) {
          var n :| 0 <= n < k && completed[..k][n] == Arrival(port, e);
          assert completed[n] == Arrival(port, e);
        } else {
          assert completed[k] == Arrival(port, e);
        }
      }
    }
  }

  /** On every port, in every run: handed over in completion order, each at most once, and never with an acceptor kept waiting. */
  lemma AcceptedInOrder(turns: seq<Turn>, port: nat)
    ensures var s := Run(turns);
            && IsSubseq(Handed(s.replies, port), Completed(s.completed, port))
            && Distinct(Handed(s.replies, port))
            && (forall i :: 0 <= i < |s.pending| && Accepting(s.pending[i], port) ==> Queue(s.listeners, port) == [])
  {
    RunKeeps(turns);
    var s := Run(turns);
    assert Inv(s, port);
    SubseqPrefix(Handed(s.replies, port), Queue(s.listeners, port), Completed(s.completed, port));
    CompletedDistinct(s.completed, port);
    SubseqDistinct(Handed(s.replies, port), Completed(s.completed, port));
  }

  /** No connection is handed over on two ports. */
  lemma AcceptedOnOnePort(turns: seq<Turn>, port: nat, other: nat, id: nat)
    requires id in Handed(Run(turns).replies, port) && id in Handed(Run(turns).replies, other)
    ensures port == other
  {
    RunKeeps(turns);
    var s := Run(turns);
    assert Inv(s, port) && Inv(s, other);
    AcceptedInOrder(turns, port);
    AcceptedInOrder(turns, other);
    SubseqMembers(Handed(s.replies, port), Completed(s.completed, port));
    SubseqMembers(Handed(s.replies, other), Completed(s.completed, other));
    CompletedDistinct(s.completed, port);
    CompletedDistinct(s.completed, other);
    var m :| 0 <= m < |s.completed| && s.completed[m] == Arrival(port, id);
    var n :| 0 <= n < |s.completed| && s.completed[n] == Arrival(other, id);
    assert m == n;
  }
}
