/**
 The connection table: which entry a segment is for, and that no connection is
 left half open with nobody waiting for it.
 */
module NetConns {
  import opened Bytes
  import opened Tcp
  import opened NetServer
  import opened NetSends

  // ---- which entry a segment is for ----

  lemma {:induction false} FoundIff(conns: seq<Conn>, local: nat, ip: nat, port: nat, i: nat, k: nat)
    requires i <= |conns| && i <= k <= |conns|
    ensures ConnByTuple(conns, local, ip, port, i) == k <==>
            && (forall j :: i <= j < k ==> !Between(conns[j], local, ip, port))
            && (k < |conns| ==> Between(conns[k], local, ip, port))
    decreases |conns| - i
  {
    if i < |conns| && !Between(conns[i], local, ip, port) && i < k {
      FoundIff(conns, local, ip, port, i + 1, k);
    }
  }

  predicate SameEnds(c: Conn, d: Conn) {
    d.used == c.used && d.v6 == c.v6 && d.id == c.id && d.localPort == c.localPort && d.peerIp == c.peerIp && d.peerPort == c.peerPort
  }

  lemma {:induction false} ReadSameEnds(c: Conn, n: nat)
    ensures SameEnds(c, ReadTimes(c, n))
    decreases n
  {
    if n > 0 {
      ReadSameEnds(AfterRead(c), n - 1);
    }
  }

  lemma LandedSameEnds(c: Conn, seg: Segment)
    ensures SameEnds(c, Landed(c, seg))
  {
  }

  /** A connection made for a SYN is the one the peer's next segment is for. */
  lemma PassiveFound(s: Server, local: nat, ip: nat, port: nat, seg: Segment)
    requires ConnByTuple(s.conns, local, ip, port, 0) == |s.conns|
    requires ListenerOn(s.listeners, local, 0) < |s.listeners| && FreeConn(s.conns, 0) < |s.conns|
    ensures ConnByTuple(PassiveOpen(s, local, ip, port, seg).conns, local, ip, port, 0) == FreeConn(s.conns, 0)
  {
    var k := FreeConn(s.conns, 0);
    var c := Answering(s.nextId, ip, port, local, InitialSeq(s), seg);
    var t := s.(conns := s.conns[k := c], nextId := s.nextId + 1);
    var n := SegmentArrives(t, k, seg, -1);
    LandedSameEnds(c, seg);
    ReadSameEnds(Landed(c, seg), n);
    var conns := PassiveOpen(s, local, ip, port, seg).conns;
    assert conns == s.conns[k := ReadTimes(Landed(c, seg), n)];
    FoundIff(conns, local, ip, port, 0, k);
  }

  lemma ConnectTable(s: Server, h: int, ip: nat, port: nat, v6: bool, via: nat, known: bool)
    requires FreeConn(s.conns, 0) < |s.conns| && !Full(s)
    ensures ServeConnect(s, h, ip, port, v6, via, known).conns ==
            s.conns[FreeConn(s.conns, 0) := Dialled(s, ip, port, v6, known)]
  {
  }

  lemma DialledEnds(s: Server, ip: nat, port: nat, known: bool)
    ensures Between(Dialled(s, ip, port, false, known), s.nextPort, ip, port)
  {
  }

  lemma PlacedIff(conns: seq<Conn>, k: nat, c: Conn, local: nat, ip: nat, port: nat)
    requires k < |conns| && Between(c, local, ip, port)
    ensures ConnByTuple(conns[k := c], local, ip, port, 0) == k <==>
            forall j :: 0 <= j < k ==> !Between(conns[j], local, ip, port)
  {
    var placed := conns[k := c];
    FoundIff(placed, local, ip, port, 0, k);
    assert forall j :: 0 <= j < k ==> placed[j] == conns[j];
  }

  /** One opened to a peer is, exactly if no earlier entry of the table has the same ends. */
  lemma ActiveFoundIff(s: Server, h: int, ip: nat, port: nat, via: nat, known: bool)
    requires FreeConn(s.conns, 0) < |s.conns| && !Full(s)
    ensures var k := FreeConn(s.conns, 0);
            ConnByTuple(ServeConnect(s, h, ip, port, false, via, known).conns, s.nextPort, ip, port, 0) == k <==>
            forall j :: 0 <= j < k ==> !Between(s.conns[j], s.nextPort, ip, port)
  {
    var k := FreeConn(s.conns, 0);
    ConnectTable(s, h, ip, port, false, via, known);
    DialledEnds(s, ip, port, known);
    PlacedIff(s.conns, k, Dialled(s, ip, port, false, known), s.nextPort, ip, port);
  }

  // ---- no entry becomes another connection ----

  /** A connection keeps its id and its ends as long as it is there. */
  predicate SameOrGone(c: Conn, d: Conn) {
    d.used ==> c.used && d.id == c.id && d.v6 == c.v6 && d.peerIp == c.peerIp && d.peerPort == c.peerPort
  }

  predicate Fewer(conns: seq<Conn>, after: seq<Conn>) {
    |after| == |conns| && forall k :: 0 <= k < |conns| ==> SameOrGone(conns[k], after[k])
  }

  lemma FewerAgain(conns: seq<Conn>, after: seq<Conn>, last: seq<Conn>)
    requires Fewer(conns, after) && Fewer(after, last)
    ensures Fewer(conns, last)
  {
  }

  lemma ServeSlotFewer(s: Server, i: nat, cause: Cause)
    requires i < |s.pending| && (cause.Readable? ==> cause.conn < |s.conns|)
    ensures var t := ServeSlot(s, i, cause); Fewer(s.conns, t.conns) && t.nextId == s.nextId && |t.pending| == |s.pending|
  {
  }

  lemma {:induction false} SweepFewer(s: Server, i: nat, cause: Cause)
    requires i <= |s.pending| && (cause.Readable? ==> cause.conn < |s.conns|)
    ensures var t := Sweep(s, i, cause); Fewer(s.conns, t.conns) && t.nextId == s.nextId
    decreases |s.pending| - i
  {
    if i < |s.pending| {
      var t := ServeSlot(s, i, cause);
      ServeSlotFewer(s, i, cause);
      SweepFewer(t, i + 1, cause);
      FewerAgain(s.conns, t.conns, Sweep(t, i + 1, cause).conns);
    }
  }

  lemma ChangeFewer(s: Server, k: nat, d: Conn, t: Server, cause: Cause)
    requires k < |s.conns| && SameOrGone(s.conns[k], d) && t.conns == s.conns[k := d] && t.nextId == s.nextId
    requires cause.Readable? ==> cause.conn < |s.conns|
    ensures Fewer(s.conns, Sweep(t, 0, cause).conns) && Sweep(t, 0, cause).nextId == s.nextId
  {
    SweepFewer(t, 0, cause);
    FewerAgain(s.conns, t.conns, Sweep(t, 0, cause).conns);
  }

  lemma OpenSegmentFewer(o: Server, k: nat, seg: Segment, code: int)
    requires k < |o.conns| && !(o.conns[k].phase.SynRcvd? && seg.ack)
    ensures var t := HandleSegment(o, k, seg, code); Fewer(o.conns, t.conns) && t.nextId == o.nextId
  {
    var c := o.conns[k];
    if seg.rst {
      var d := c.(phase := Dead);
      ChangeFewer(o, k, d, o.(conns := o.conns[k := d]), Refused(c.id, code));
    } else if Completes(c, seg) {
      var d := if c.v6 then Synchronised(c, seg).(out := []) else Synchronised(c, seg);
      ChangeFewer(o, k, d, o.(conns := o.conns[k := d]), Connected(c.id));
    } else {
      var d := Finished(Stored(Acknowledged(c, seg), seg), seg);
      ChangeFewer(o, k, d, o.(conns := o.conns[k := d], stored := o.stored + [Chunk(c.id, Fresh(c, seg))]), Readable(k));
    }
  }

  lemma HandOverFewer(s: Server, k: nat)
    requires k < |s.conns|
    ensures Fewer(s.conns, HandOver(s, k).conns) && HandOver(s, k).nextId == s.nextId
    ensures HandOver(s, k).conns[k] == s.conns[k].(phase := Established)
  {
  }

  lemma SegmentFewer(s: Server, k: nat, seg: Segment, code: int)
    requires k < |s.conns|
    ensures var t := HandleSegment(s, k, seg, code); Fewer(s.conns, t.conns) && t.nextId == s.nextId
  {
    if s.conns[k].phase.SynRcvd? && seg.ack {
      var o := HandOver(s, k);
      HandOverFewer(s, k);
      OpenSegmentFewer(o, k, seg, code);
      assert HandleSegment(s, k, seg, code) == HandleSegment(o, k, seg, code);
      FewerAgain(s.conns, o.conns, HandleSegment(o, k, seg, code).conns);
    } else {
      OpenSegmentFewer(s, k, seg, code);
    }
  }

  lemma RetransmitFewer(conns: seq<Conn>, ticks: nat)
    ensures Fewer(conns, RetransmitAll(conns, ticks))
  {
  }

  lemma QueryFewer(s: Server, h: int, q: Query)
    ensures ServeQuery(s, h, q).conns == s.conns && ServeQuery(s, h, q).nextId == s.nextId
  {
  }

  lemma StreamFewer(s: Server, h: int, op: StreamOp)
    requires !op.TcpConnect?
    ensures Fewer(s.conns, ServeStream(s, h, op).conns) && ServeStream(s, h, op).nextId == s.nextId
  {
  }

  /** Of the requests only a connect adds an entry. */
  lemma ServeFewer(s: Server, h: int, m: Request)
    requires !(m.Stream? && m.op.TcpConnect?)
    ensures Fewer(s.conns, Serve(s, h, m).conns) && Serve(s, h, m).nextId == s.nextId
  {
    match m
    case Ask(q) => QueryFewer(s, h, q);
    case Stream(op) => StreamFewer(s, h, op);
  }

  // ---- no connection is left half open ----

  /** Connections have ids of their own, counted from 1. */
  ghost predicate Ids(conns: seq<Conn>, nextId: nat) {
    && nextId > 0
    && (forall k :: 0 <= k < |conns| && conns[k].used ==> 0 < conns[k].id < nextId)
    && (forall i, j :: 0 <= i < j < |conns| && conns[i].used && conns[j].used ==> conns[i].id != conns[j].id)
  }

  /** A connect that waits for the connection with an id. */
  predicate WaitsFor(p: Slot, id: nat) { p.Parked? && (p.kind.Connect? || p.kind.TcpArp?) && p.ip == id }

  ghost predicate HasWaiter(pending: seq<Slot>, id: nat) { exists i :: 0 <= i < |pending| && WaitsFor(pending[i], id) }

  predicate HalfOpen(c: Conn) { c.used && c.phase.SynSent? }

  ghost predicate AllWaited(conns: seq<Conn>, pending: seq<Slot>) {
    forall k :: 0 <= k < |conns| && HalfOpen(conns[k]) ==> HasWaiter(pending, conns[k].id)
  }

  ghost predicate Inv(s: Server) { Ids(s.conns, s.nextId) && AllWaited(s.conns, s.pending) }

  /** No connection with this id is half open. */
  predicate Settled(conns: seq<Conn>, id: nat) { forall k :: 0 <= k < |conns| && HalfOpen(conns[k]) ==> conns[k].id != id }

  /** An event that ends a connect comes when its connection is no longer half open. */
  predicate Timely(cause: Cause, conns: seq<Conn>) {
    (cause.Refused? || cause.Connected?) ==> Settled(conns, cause.id)
  }

  /** No entry becomes half open, or another connection's. */
  predicate Calmer(conns: seq<Conn>, after: seq<Conn>) {
    |after| == |conns| &&
    forall k :: 0 <= k < |conns| ==>
      after[k].id == conns[k].id && (after[k].used ==> conns[k].used) && (HalfOpen(after[k]) ==> HalfOpen(conns[k]))
  }

  lemma CalmerIds(conns: seq<Conn>, after: seq<Conn>, nextId: nat)
    requires Calmer(conns, after) && Ids(conns, nextId)
    ensures Ids(after, nextId)
  {
  }

  lemma ClosedCalmer(conns: seq<Conn>, id: nat)
    ensures Calmer(conns, Closed(conns, id))
  {
  }

  lemma ClosedSettles(conns: seq<Conn>, nextId: nat, id: nat)
    requires Ids(conns, nextId)
    ensures Settled(Closed(conns, id), id)
  {
    var k := ConnById(conns, id, 0);
    forall j | 0 <= j < |conns| && HalfOpen(Closed(conns, id)[j]) ensures conns[j].id != id {
    }
  }

  lemma AfterCalmer(p: Slot, cause: Cause, now: nat, conns: seq<Conn>)
    requires p.Parked? && (cause.Readable? ==> cause.conn < |conns|)
    ensures Calmer(conns, ConnsAfter(p, cause, now, conns))
  {
    ClosedCalmer(conns, p.ip);
  }

  /** A waiting connect goes on waiting, or its connection is no longer half open. */
  lemma WaiterStays(p: Slot, cause: Cause, now: nat, conns: seq<Conn>, nextId: nat, id: nat)
    requires WaitsFor(p, id) && Ids(conns, nextId) && Timely(cause, conns) && (cause.Readable? ==> cause.conn < |conns|)
    ensures var v := Judge(p, cause, now, conns);
            v.Leave? || (v.Rewrite? && WaitsFor(v.slot, id)) || Settled(ConnsAfter(p, cause, now, conns), id)
  {
    ClosedSettles(conns, nextId, id);
  }

  lemma WaiterKept(pending: seq<Slot>, i: nat, p: Slot, id: nat)
    requires HasWaiter(pending, id) && i < |pending| && (WaitsFor(pending[i], id) ==> WaitsFor(p, id))
    ensures HasWaiter(pending[i := p], id)
  {
    var j :| 0 <= j < |pending| && WaitsFor(pending[j], id);
    assert WaitsFor(pending[i := p][j], id);
  }

  lemma ServeSlotTable(s: Server, i: nat, cause: Cause)
    requires i < |s.pending| && s.pending[i].Parked? && (cause.Readable? ==> cause.conn < |s.conns|)
    ensures var t := ServeSlot(s, i, cause);
            var v := Judge(s.pending[i], cause, s.now, s.conns);
            && t.conns == ConnsAfter(s.pending[i], cause, s.now, s.conns) && t.nextId == s.nextId
            && t.pending == s.pending[i := if v.Leave? then s.pending[i] else if v.Rewrite? then v.slot else Free]
  {
  }

  lemma ServeSlotKeeps(s: Server, i: nat, cause: Cause)
    requires Inv(s) && i < |s.pending| && (cause.Readable? ==> cause.conn < |s.conns|) && Timely(cause, s.conns)
    ensures Inv(ServeSlot(s, i, cause)) && Calmer(s.conns, ServeSlot(s, i, cause).conns)
    ensures |ServeSlot(s, i, cause).pending| == |s.pending|
  {
    var p, t := s.pending[i], ServeSlot(s, i, cause);
    if p.Parked? {
      ServeSlotTable(s, i, cause);
      AfterCalmer(p, cause, s.now, s.conns);
      CalmerIds(s.conns, t.conns, s.nextId);
      forall k | 0 <= k < |t.conns| && HalfOpen(t.conns[k]) ensures HasWaiter(t.pending, t.conns[k].id) {
        var id := s.conns[k].id;
        assert HasWaiter(s.pending, id);
        if WaitsFor(p, id) {
          WaiterStays(p, cause, s.now, s.conns, s.nextId, id);
        }
        WaiterKept(s.pending, i, t.pending[i], id);
      }
    }
  }

  lemma CalmerTimely(cause: Cause, conns: seq<Conn>, after: seq<Conn>)
    requires Calmer(conns, after) && Timely(cause, conns)
    ensures Timely(cause, after)
  {
  }

  lemma {:induction false} SweepKeeps(s: Server, i: nat, cause: Cause)
    requires Inv(s) && i <= |s.pending| && (cause.Readable? ==> cause.conn < |s.conns|) && Timely(cause, s.conns)
    ensures Inv(Sweep(s, i, cause))
    decreases |s.pending| - i
  {
    if i < |s.pending| {
      ServeSlotKeeps(s, i, cause);
      CalmerTimely(cause, s.conns, ServeSlot(s, i, cause).conns);
      SweepKeeps(ServeSlot(s, i, cause), i + 1, cause);
    }
  }

  // ---- frames ----

  /** Changing one entry, not to half open and not to another id. */
  lemma ChangeKeeps(s: Server, t: Server, k: nat, d: Conn)
    requires Inv(s) && k < |s.conns| && t.conns == s.conns[k := d] && t.nextId == s.nextId
    requires d.id == s.conns[k].id && (d.used ==> s.conns[k].used) && (HalfOpen(d) ==> HalfOpen(s.conns[k]))
    requires forall id :: HasWaiter(s.pending, id) ==> HasWaiter(t.pending, id)
    ensures Inv(t)
  {
    CalmerIds(s.conns, t.conns, s.nextId);
  }

  lemma SamePending(s: Server, t: Server)
    requires t.pending == s.pending
    ensures forall id :: HasWaiter(s.pending, id) ==> HasWaiter(t.pending, id)
  {
  }

  lemma HandOverTable(s: Server, k: nat)
    requires k < |s.conns|
    ensures HandOver(s, k).conns == s.conns[k := s.conns[k].(phase := Established)] && HandOver(s, k).nextId == s.nextId
    ensures var a := Acceptor(s.pending, s.conns[k].localPort, 0);
            HandOver(s, k).pending == if a < |s.pending| then s.pending[a := Free] else s.pending
  {
  }

  lemma HandOverKeeps(s: Server, k: nat)
    requires Inv(s) && k < |s.conns|
    ensures Inv(HandOver(s, k)) && |HandOver(s, k).conns| == |s.conns|
    ensures HandOver(s, k).conns[k] == s.conns[k].(phase := Established)
  {
    HandOverTable(s, k);
    var t, a := HandOver(s, k), Acceptor(s.pending, s.conns[k].localPort, 0);
    forall id | HasWaiter(s.pending, id) ensures HasWaiter(t.pending, id) {
      if a < |s.pending| {
        WaiterKept(s.pending, a, Free, id);
      }
    }
    ChangeKeeps(s, t, k, s.conns[k].(phase := Established));
  }

  lemma OneSettled(conns: seq<Conn>, nextId: nat, k: nat)
    requires Ids(conns, nextId) && k < |conns| && conns[k].used && !HalfOpen(conns[k])
    ensures Settled(conns, conns[k].id)
  {
  }

  /** A connection no longer half open: those who waited for it are told. */
  lemma EndKeeps(o: Server, k: nat, d: Conn, cause: Cause)
    requires Inv(o) && k < |o.conns| && o.conns[k].used && d.used && d.id == o.conns[k].id && !d.phase.SynSent?
    requires (cause.Refused? || cause.Connected?) && cause.id == d.id
    ensures Inv(Sweep(o.(conns := o.conns[k := d]), 0, cause))
  {
    var t := o.(conns := o.conns[k := d]);
    SamePending(o, t);
    ChangeKeeps(o, t, k, d);
    OneSettled(t.conns, t.nextId, k);
    SweepKeeps(t, 0, cause);
  }

  lemma DataSame(c: Conn, seg: Segment)
    ensures var d := Finished(Stored(Acknowledged(c, seg), seg), seg); d.id == c.id && d.used == c.used && d.phase == c.phase
  {
  }

  lemma DataKeeps(o: Server, k: nat, d: Conn, chunk: Chunk)
    requires Inv(o) && k < |o.conns| && d.id == o.conns[k].id && d.used == o.conns[k].used && d.phase == o.conns[k].phase
    ensures Inv(Sweep(o.(conns := o.conns[k := d], stored := o.stored + [chunk]), 0, Readable(k)))
  {
    var t := o.(conns := o.conns[k := d], stored := o.stored + [chunk]);
    SamePending(o, t);
    ChangeKeeps(o, t, k, d);
    SweepKeeps(t, 0, Readable(k));
  }

  lemma OpenSegmentKeeps(o: Server, k: nat, seg: Segment, code: int)
    requires Inv(o) && k < |o.conns| && o.conns[k].used && !(o.conns[k].phase.SynRcvd? && seg.ack)
    ensures Inv(HandleSegment(o, k, seg, code))
  {
    var c := o.conns[k];
    if seg.rst {
      EndKeeps(o, k, c.(phase := Dead), Refused(c.id, code));
    } else if Completes(c, seg) {
      var open := Synchronised(c, seg);
      EndKeeps(o, k, if c.v6 then open.(out := []) else open, Connected(c.id));
    } else {
      DataSame(c, seg);
      DataKeeps(o, k, Finished(Stored(Acknowledged(c, seg), seg), seg), Chunk(c.id, Fresh(c, seg)));
    }
  }

  lemma HandleSegmentKeeps(s: Server, k: nat, seg: Segment, code: int)
    requires Inv(s) && k < |s.conns| && s.conns[k].used
    ensures Inv(HandleSegment(s, k, seg, code))
  {
    if s.conns[k].phase.SynRcvd? && seg.ack {
      HandOverKeeps(s, k);
      OpenSegmentKeeps(HandOver(s, k), k, seg, code);
      assert HandleSegment(s, k, seg, code) == HandleSegment(HandOver(s, k), k, seg, code);
    } else {
      OpenSegmentKeeps(s, k, seg, code);
    }
  }

  /** A new connection takes a new id. */
  lemma NewKeeps(s: Server, t: Server, k: nat, c: Conn)
    requires Inv(s) && k < |s.conns| && !s.conns[k].used && c.id == s.nextId
    requires t.conns == s.conns[k := c] && t.nextId == s.nextId + 1
    requires forall id :: HasWaiter(s.pending, id) ==> HasWaiter(t.pending, id)
    requires HalfOpen(c) ==> HasWaiter(t.pending, c.id)
    ensures Inv(t)
  {
  }

  lemma PassiveKeeps(s: Server, local: nat, ip: nat, port: nat, seg: Segment)
    requires Inv(s)
    ensures Inv(PassiveOpen(s, local, ip, port, seg))
  {
    var k := FreeConn(s.conns, 0);
    if ListenerOn(s.listeners, local, 0) < |s.listeners| && k < |s.conns| {
      var c := Answering(s.nextId, ip, port, local, InitialSeq(s), seg);
      var t := s.(conns := s.conns[k := c], nextId := s.nextId + 1);
      SamePending(s, t);
      NewKeeps(s, t, k, c);
      HandleSegmentKeeps(t, k, seg, -1);
    }
  }

  lemma HandleFrameKeeps(s: Server, f: Frame)
    requires Inv(s)
    ensures Inv(HandleFrame(s, f))
  {
    match f
    case Signal(cause) => if Wire(cause) { SweepKeeps(s, 0, cause); }
    case Segment4(local, ip, port, seg) =>
      var k := ConnByTuple(s.conns, local, ip, port, 0);
      if k < |s.conns| {
        HandleSegmentKeeps(s, k, seg, -1);
      } else if seg.syn && !seg.ack {
        PassiveKeeps(s, local, ip, port, seg);
      }
    case Segment6(local, seg) =>
      var k := ConnByPort6(s.conns, local);
      if k < |s.conns| { HandleSegmentKeeps(s, k, seg, -2); }
    case Other =>
  }

  lemma {:induction false} DrainKeeps(s: Server, frames: seq<Frame>)
    requires Inv(s)
    ensures Inv(Drain(s, frames))
    decreases |frames|
  {
    if frames != [] {
      HandleFrameKeeps(s, frames[0]);
      DrainKeeps(HandleFrame(s, frames[0]), frames[1..]);
    }
  }

  lemma UpkeepKeeps(s: Server, frames: seq<Frame>, haveDns6: bool)
    requires Inv(s)
    ensures Inv(Upkeep(s, frames, haveDns6))
  {
    DrainKeeps(s, frames);
    var drained := Drain(s, frames);
    var t := drained.(conns := RetransmitAll(drained.conns, Ticks(drained)));
    assert Calmer(drained.conns, t.conns);
    CalmerIds(drained.conns, t.conns, t.nextId);
    SweepKeeps(t, 0, Deadline(haveDns6));
  }

  // ---- requests ----

  /** Parking something takes nobody's slot. */
  lemma FillKept(pending: seq<Slot>, k: nat, p: Slot, id: nat)
    requires k < |pending| && pending[k].Free? && HasWaiter(pending, id)
    ensures HasWaiter(pending[k := p], id)
  {
    WaiterKept(pending, k, p, id);
  }

  lemma ParkKeeps(s: Server, p: Slot)
    requires Inv(s) && p.Parked?
    ensures Inv(Park(s, p))
  {
    if !Full(s) {
      var k := FirstFree(s.pending, 0);
      forall id | HasWaiter(s.pending, id) ensures HasWaiter(s.pending[k := p], id) {
        FillKept(s.pending, k, p, id);
      }
    }
  }

  lemma ConnectKeeps(s: Server, h: int, ip: nat, port: nat, v6: bool, via: nat, known: bool)
    requires Inv(s)
    ensures Inv(ServeConnect(s, h, ip, port, v6, via, known))
  {
    var k := FreeConn(s.conns, 0);
    if k < |s.conns| && !Full(s) {
      var c, p, j := Dialled(s, ip, port, v6, known), ConnectSlot(s, h, via, v6 || known), FirstFree(s.pending, 0);
      var t := ServeConnect(s, h, ip, port, v6, via, known);
      ConnectTable(s, h, ip, port, v6, via, known);
      assert t.pending == s.pending[j := p] && t.nextId == s.nextId + 1;
      forall id | HasWaiter(s.pending, id) ensures HasWaiter(t.pending, id) {
        FillKept(s.pending, j, p, id);
      }
      assert WaitsFor(t.pending[j], c.id);
      NewKeeps(s, t, k, c);
    }
  }

  lemma SendKeeps(s: Server, h: int, id: nat, data: seq<Byte>)
    requires Inv(s)
    ensures Inv(ServeSend(s, h, id, data))
  {
    OfferTaken(s, h, id, data);
    var k, t := ConnById(s.conns, id, 0), ServeSend(s, h, id, data);
    SamePending(s, t);
    if k < |s.conns| {
      ChangeKeeps(s, t, k, Offered(s.conns[k], data, Ticks(s)));
    }
  }

  lemma ReceiveKeeps(s: Server, h: int, id: nat)
    requires Inv(s)
    ensures Inv(ServeReceive(s, h, id))
  {
    var k := ConnById(s.conns, id, 0);
    if k < |s.conns| && !s.conns[k].phase.Dead? {
      if s.conns[k].rx != [] {
        var t := ServeReceive(s, h, id);
        SamePending(s, t);
        ChangeKeeps(s, t, k, AfterRead(s.conns[k]));
      } else {
        ParkKeeps(s, NewSlot(s, Read, h, s.conns[k].id, 0));
      }
    }
  }

  lemma CloseKeeps(s: Server, h: int, id: nat)
    requires Inv(s)
    ensures Inv(ServeClose(s, h, id))
  {
    ClosedCalmer(s.conns, id);
    CalmerIds(s.conns, Closed(s.conns, id), s.nextId);
  }

  lemma AcceptKeeps(s: Server, h: int, port: nat)
    requires Inv(s)
    ensures Inv(ServeAccept(s, h, port))
  {
    ParkKeeps(s, NewSlot(s, Accept, h, port, 0));
  }

  lemma StreamKeeps(s: Server, h: int, op: StreamOp)
    requires Inv(s)
    ensures Inv(ServeStream(s, h, op))
  {
    match op
    case TcpConnect(ip, port, v6, via, known) => ConnectKeeps(s, h, ip, port, v6, via, known);
    case TcpSend(id, data) => SendKeeps(s, h, id, data);
    case TcpReceive(id) => ReceiveKeeps(s, h, id);
    case TcpAccept(port) => AcceptKeeps(s, h, port);
    case TcpClose(id) => CloseKeeps(s, h, id);
    case _ =>
  }

  lemma QueryKeeps(s: Server, h: int, q: Query)
    requires Inv(s)
    ensures Inv(ServeQuery(s, h, q))
  {
    match q
    case Inform(_) =>
    case Resolve(target, seqNo, _, _) => ParkKeeps(s, NewSlot(s, Arp, h, target, seqNo));
    case PingHost(target, seqNo) => ParkKeeps(s, NewSlot(s, Ping, h, target, seqNo));
    case LookUp(name, want6, dns, over6) =>
      var id := (s.dnsId + 1) % WRAP;
      ParkKeeps(s.(dnsId := id), NamedSlot(s, Dns, h, dns, id % 65536, Kept(name), want6, over6));
    case UdpReceive(port) => ParkKeeps(s, NewSlot(s, Udp, h, 0, port));
    case FindNeighbour(via, seqNo, _, _) => ParkKeeps(s, NamedSlot(s, Nd, h, 0, seqNo, via, false, false));
    case PingHost6(target, seqNo) => ParkKeeps(s, NamedSlot(s, Ping6, h, 0, seqNo, target, false, false));
  }

  lemma TakeKeeps(s: Server, arrived: Arrived)
    requires Inv(s)
    ensures Inv(Take(s, arrived))
  {
    match arrived
    case Nothing =>
    case Asked(h, m) =>
      var t := s.(asked := s.asked + [h]);
      match m
      case Ask(q) => QueryKeeps(t, h, q);
      case Stream(op) => StreamKeeps(t, h, op);
  }

  lemma {:induction false} RunKeeps(turns: seq<Turn>)
    ensures Inv(Run(turns))
  {
    if turns != [] {
      var earlier, last := turns[..|turns| - 1], turns[|turns| - 1];
      RunKeeps(earlier);
      UpkeepKeeps(Run(earlier), last.frames, last.haveDns6);
      TakeKeeps(Upkeep(Run(earlier), last.frames, last.haveDns6), last.arrived);
    }
  }

  /** In every run a connection still waiting for its SYN to be answered has a connect waiting for it: none is left behind. */
  lemma NoneLeftHalfOpen(turns: seq<Turn>, k: nat) returns (i: nat)
    requires k < |Run(turns).conns| && Run(turns).conns[k].used && Run(turns).conns[k].phase.SynSent?
    ensures i < |Run(turns).pending| && WaitsFor(Run(turns).pending[i], Run(turns).conns[k].id)
  {
    RunKeeps(turns);
    assert HasWaiter(Run(turns).pending, Run(turns).conns[k].id);
    i :| 0 <= i < |Run(turns).pending| && WaitsFor(Run(turns).pending[i], Run(turns).conns[k].id);
  }
}
