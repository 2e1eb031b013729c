/**
 Reading: over every run and for every connection, the bytes replies have
 carried to readers, followed by the bytes still buffered, are the bytes stored
 in order; and no reader is left parked while its connection has bytes for it
 or has ended. Both ways a read is answered are covered: at once, and when a
 segment arrives for a reader that was put aside.
 */
module NetReaders {
  import opened Bytes
  import opened Tcp
  import opened NetServer

  /** The bytes replies have carried to readers of a connection, in order. */
  function Given(replies: seq<Answer>, id: nat): seq<Byte> {
    if replies == [] then []
    else
      var last := replies[|replies| - 1];
      Given(replies[..|replies| - 1], id) + (if last.topic == Bytes(id) then last.data else [])
  }

  /** The bytes stored in order on a connection. */
  function Kept(stored: seq<Chunk>, id: nat): seq<Byte> {
    if stored == [] then []
    else
      var last := stored[|stored| - 1];
      Kept(stored[..|stored| - 1], id) + (if last.id == id then last.bytes else [])
  }

  lemma GivenMore(replies: seq<Answer>, a: Answer, id: nat)
    ensures Given(replies + [a], id) == if a.topic == Bytes(id) then Given(replies, id) + a.data else Given(replies, id)
  {
    assert (replies + [a])[..|replies|] == replies;
  }

  lemma KeptMore(stored: seq<Chunk>, c: Chunk, id: nat)
    ensures Kept(stored + [c], id) == if c.id == id then Kept(stored, id) + c.bytes else Kept(stored, id)
  {
    assert (stored + [c])[..|stored|] == stored;
  }

  // ---- the invariant ----

  ghost predicate ConnConserves(c: Conn, given: seq<Byte>, kept: seq<Byte>, id: nat) {
    c.used && c.id == id ==> given + c.rx == kept
  }

  /** Given, then buffered, is what was stored; an id not yet used has neither. */
  ghost predicate Conserved(conns: seq<Conn>, given: seq<Byte>, kept: seq<Byte>, nextId: nat, id: nat) {
    && (forall k :: 0 <= k < |conns| ==> ConnConserves(conns[k], given, kept, id))
    && (id >= nextId ==> given == [] && kept == [])
  }

  /** This request is not one its connection could have answered. */
  ghost predicate Patient(p: Slot, c: Conn) {
    p.Parked? && p.kind.Read? && c.used && p.ip == c.id ==> c.rx == [] && !c.peerClosed
  }

  /** Every parked reader has good reason to wait; on connection `k` only those before slot `n` have been looked at. */
  ghost predicate PatientBut(pending: seq<Slot>, conns: seq<Conn>, k: int, n: int) {
    forall i, j :: 0 <= i < |pending| && 0 <= j < |conns| && (j != k || i < n) ==> Patient(pending[i], conns[j])
  }

  /** Ids of open connections are distinct and below the next one, and so is any id a reader waits for. */
  ghost predicate Named(pending: seq<Slot>, conns: seq<Conn>, nextId: nat) {
    && 0 < nextId
    && (forall k :: 0 <= k < |conns| && conns[k].used ==> 0 < conns[k].id < nextId)
    && (forall j, k :: 0 <= j < k < |conns| && conns[j].used && conns[k].used ==> conns[j].id != conns[k].id)
    && (forall i :: 0 <= i < |pending| && pending[i].Parked? && pending[i].kind.Read? ==> pending[i].ip < nextId)
  }

  ghost predicate InvBut(s: Server, id: nat, k: int, n: int) {
    && Conserved(s.conns, Given(s.replies, id), Kept(s.stored, id), s.nextId, id)
    && PatientBut(s.pending, s.conns, k, n)
    && Named(s.pending, s.conns, s.nextId)
  }

  ghost predicate Inv(s: Server, id: nat) { InvBut(s, id, -1, 0) }

  // ---- steps that leave every buffer alone ----

  ghost predicate SameBuffer(c: Conn, d: Conn) {
    d.id == c.id && (d.used ==> c.used && d.rx == c.rx && d.peerClosed == c.peerClosed)
  }

  ghost predicate SameBuffers(cs: seq<Conn>, ds: seq<Conn>) {
    |cs| == |ds| && forall k :: 0 <= k < |cs| ==> SameBuffer(cs[k], ds[k])
  }

  ghost predicate NoNewReader(ps: seq<Slot>, qs: seq<Slot>) {
    |ps| == |qs| && forall i :: 0 <= i < |ps| && qs[i].Parked? && qs[i].kind.Read? ==> qs[i] == ps[i]
  }

  ghost predicate Still(s: Server, t: Server, id: nat) {
    && t.nextId == s.nextId && t.stored == s.stored
    && SameBuffers(s.conns, t.conns) && NoNewReader(s.pending, t.pending)
    && Given(t.replies, id) == Given(s.replies, id)
  }

  lemma StillThen(s: Server, t: Server, u: Server, id: nat)
    requires Still(s, t, id) && Still(t, u, id)
    ensures Still(s, u, id)
  {
    forall k | 0 <= k < |s.conns| ensures SameBuffer(s.conns[k], u.conns[k]) {
      assert SameBuffer(s.conns[k], t.conns[k]) && SameBuffer(t.conns[k], u.conns[k]);
    }
  }

  lemma StillConserves(cs: seq<Conn>, ds: seq<Conn>, given: seq<Byte>, kept: seq<Byte>, nextId: nat, id: nat)
    requires Conserved(cs, given, kept, nextId, id) && SameBuffers(cs, ds)
    ensures Conserved(ds, given, kept, nextId, id)
  {
    forall k | 0 <= k < |ds| ensures ConnConserves(ds[k], given, kept, id) {
      assert SameBuffer(cs[k], ds[k]) && ConnConserves(cs[k], given, kept, id);
    }
  }

  lemma StillPatient(ps: seq<Slot>, qs: seq<Slot>, cs: seq<Conn>, ds: seq<Conn>, k: int, n: int)
    requires PatientBut(ps, cs, k, n) && SameBuffers(cs, ds) && NoNewReader(ps, qs)
    ensures PatientBut(qs, ds, k, n)
  {
    forall i, j | 0 <= i < |qs| && 0 <= j < |ds| && (j != k || i < n) ensures Patient(qs[i], ds[j]) {
      assert SameBuffer(cs[j], ds[j]) && Patient(ps[i], cs[j]);
    }
  }

  lemma StillNamed(ps: seq<Slot>, qs: seq<Slot>, cs: seq<Conn>, ds: seq<Conn>, nextId: nat)
    requires Named(ps, cs, nextId) && SameBuffers(cs, ds) && NoNewReader(ps, qs)
    ensures Named(qs, ds, nextId)
  {
    assert forall k :: 0 <= k < |cs| ==> SameBuffer(cs[k], ds[k]);
  }

  lemma StillKeeps(s: Server, t: Server, id: nat, k: int, n: int)
    requires InvBut(s, id, k, n) && Still(s, t, id)
    ensures InvBut(t, id, k, n)
  {
    StillConserves(s.conns, t.conns, Given(s.replies, id), Kept(s.stored, id), s.nextId, id);
    StillPatient(s.pending, t.pending, s.conns, t.conns, k, n);
    StillNamed(s.pending, t.pending, s.conns, t.conns, s.nextId);
  }

  lemma JudgeStill(p: Slot, cause: Cause, now: nat, conns: seq<Conn>)
    requires p.Parked? && !cause.Readable?
    ensures var v := Judge(p, cause, now, conns);
            && (v.Rewrite? && v.slot.Parked? ==> !v.slot.kind.Read?)
            && (v.Finish? ==> !v.topic.Bytes?)
  {
  }

  lemma ConnsAfterStill(p: Slot, cause: Cause, now: nat, conns: seq<Conn>)
    requires p.Parked? && !cause.Readable?
    ensures SameBuffers(conns, ConnsAfter(p, cause, now, conns))
  {
  }

  lemma SettleStill(s: Server, t: Server, i: nat, w0: int, data: seq<Byte>, topic: Topic, id: nat)
    requires i < |s.pending| && s.pending[i].Parked? && !topic.Bytes?
    requires t == s.(conns := t.conns) && SameBuffers(s.conns, t.conns)
    ensures Still(s, Settle(t, i, w0, data, topic), id)
  {
    GivenMore(s.replies, Answer(s.pending[i].handle, w0, data, topic), id);
  }

  lemma ServeSlotStill(s: Server, i: nat, cause: Cause, id: nat)
    requires i < |s.pending| && !cause.Readable?
    ensures Still(s, ServeSlot(s, i, cause), id)
  {
    var p := s.pending[i];
    if p.Parked? {
      JudgeStill(p, cause, s.now, s.conns);
      ConnsAfterStill(p, cause, s.now, s.conns);
      var t := s.(conns := ConnsAfter(p, cause, s.now, s.conns));
      match Judge(p, cause, s.now, s.conns)
      case Leave => assert Still(s, t, id);
      case Rewrite(q) => assert Still(s, t.(pending := s.pending[i := q]), id);
      case Finish(w0, data, topic) => SettleStill(s, t, i, w0, data, topic, id);
    }
  }

  lemma {:induction false} SweepStill(s: Server, i: nat, cause: Cause, id: nat)
    requires i <= |s.pending| && !cause.Readable?
    ensures Still(s, Sweep(s, i, cause), id)
    decreases |s.pending| - i
  {
    if i < |s.pending| {
      var t := ServeSlot(s, i, cause);
      ServeSlotStill(s, i, cause, id);
      SweepStill(t, i + 1, cause, id);
      StillThen(s, t, Sweep(s, i, cause), id);
    }
  }

  // ---- serving readers ----

  /** Moving the head of a buffer into a reply conserves the connection's bytes. */
  lemma ReadConserves(conns: seq<Conn>, given: seq<Byte>, kept: seq<Byte>, nextId: nat, id: nat, k: nat, given': seq<Byte>)
    requires k < |conns| && conns[k].used && conns[k].id < nextId && Conserved(conns, given, kept, nextId, id)
    requires forall j :: 0 <= j < |conns| && j != k && conns[j].used ==> conns[j].id != conns[k].id
    requires given' == if conns[k].id == id then given + conns[k].rx[..ReadSize(conns[k])] else given
    ensures Conserved(conns[k := AfterRead(conns[k])], given', kept, nextId, id)
  {
    var c, r := conns[k], ReadSize(conns[k]);
    var ds := conns[k := AfterRead(c)];
    assert c.rx == c.rx[..r] + c.rx[r..];
    assert given + (c.rx[..r] + c.rx[r..]) == given + c.rx[..r] + c.rx[r..];
    forall j | 0 <= j < |ds| ensures ConnConserves(ds[j], given', kept, id) {
      assert ConnConserves(conns[j], given, kept, id);
    }
  }

  lemma ReadNamed(pending: seq<Slot>, conns: seq<Conn>, nextId: nat, i: nat, k: nat)
    requires i < |pending| && k < |conns| && Named(pending, conns, nextId)
    ensures Named(pending[i := Free], conns[k := AfterRead(conns[k])], nextId)
  {
  }

  /** Once slot `i` is served and freed, and the buffer only shrank, one more slot has been looked at. */
  lemma ReadPatient(pending: seq<Slot>, conns: seq<Conn>, i: nat, k: nat)
    requires i < |pending| && k < |conns| && PatientBut(pending, conns, k, i)
    ensures PatientBut(pending[i := Free], conns[k := AfterRead(conns[k])], k, i + 1)
  {
    var qs, ds := pending[i := Free], conns[k := AfterRead(conns[k])];
    forall m, j | 0 <= m < |qs| && 0 <= j < |ds| && (j != k || m < i + 1) ensures Patient(qs[m], ds[j]) {
      if m != i { assert Patient(pending[m], conns[j]); }
    }
  }

  /** A reader that gets bytes. */
  lemma ReadKeeps(s: Server, t: Server, i: nat, k: nat, a: Answer, id: nat)
    requires i < |s.pending| && k < |s.conns| && s.conns[k].used && InvBut(s, id, k, i)
    requires a.topic == Bytes(s.conns[k].id) && a.data == s.conns[k].rx[..ReadSize(s.conns[k])]
    requires t == s.(conns := s.conns[k := AfterRead(s.conns[k])], replies := s.replies + [a],
                     pending := s.pending[i := Free])
    ensures InvBut(t, id, k, i + 1)
  {
    GivenMore(s.replies, a, id);
    ReadConserves(s.conns, Given(s.replies, id), Kept(s.stored, id), s.nextId, id, k, Given(t.replies, id));
    ReadNamed(s.pending, s.conns, s.nextId, i, k);
    ReadPatient(s.pending, s.conns, i, k);
  }

  /** A reader that gets the end of the stream, or nothing: it has reason to wait, or waits no more. */
  lemma LeftKeeps(s: Server, t: Server, i: nat, k: nat, id: nat)
    requires i < |s.pending| && k < |s.conns| && InvBut(s, id, k, i) && Still(s, t, id)
    requires Patient(t.pending[i], t.conns[k])
    ensures InvBut(t, id, k, i + 1)
  {
    StillKeeps(s, t, id, k, i);
    forall m, j | 0 <= m < |t.pending| && 0 <= j < |t.conns| && (j != k || m < i + 1)
      ensures Patient(t.pending[m], t.conns[j])
    {
      if j != k || m < i { assert Patient(t.pending[m], t.conns[j]); }
    }
  }

  lemma SettlePlainStill(s: Server, i: nat, id: nat)
    requires i < |s.pending| && s.pending[i].Parked?
    ensures Still(s, Settle(s, i, 0, [], Plain), id)
  {
    GivenMore(s.replies, Answer(s.pending[i].handle, 0, [], Plain), id);
  }

  lemma ServeReaderKeeps(s: Server, i: nat, k: nat, id: nat)
    requires i < |s.pending| && k < |s.conns| && s.conns[k].used && InvBut(s, id, k, i)
    ensures InvBut(ServeSlot(s, i, Readable(k)), id, k, i + 1)
  {
    var p, c := s.pending[i], s.conns[k];
    var t := ServeSlot(s, i, Readable(k));
    if p.Parked? && Reads(p, s.conns, k) && c.rx != [] {
      var a := Answer(p.handle, ReadSize(c), c.rx[..ReadSize(c)], Bytes(c.id));
      ReadKeeps(s, t, i, k, a, id);
    } else if p.Parked? && Reads(p, s.conns, k) && c.peerClosed {
      assert t == Settle(s, i, 0, [], Plain);
      SettlePlainStill(s, i, id);
      LeftKeeps(s, t, i, k, id);
    } else {
      assert t == s;
      LeftKeeps(s, t, i, k, id);
    }
  }

  lemma {:induction false} SweepReaders(s: Server, i: nat, k: nat, id: nat)
    requires i <= |s.pending| && k < |s.conns| && s.conns[k].used && InvBut(s, id, k, i)
    ensures Inv(Sweep(s, i, Readable(k)), id)
    decreases |s.pending| - i
  {
    if i < |s.pending| {
      var t := ServeSlot(s, i, Readable(k));
      ServeReaderKeeps(s, i, k, id);
      assert |t.pending| == |s.pending| && |t.conns| == |s.conns| && t.conns[k].used;
      SweepReaders(t, i + 1, k, id);
    }
  }

  // ---- frames ----

  lemma HandOverStill(s: Server, k: nat, id: nat)
    requires k < |s.conns|
    ensures Still(s, HandOver(s, k), id)
  {
    var c := s.conns[k];
    var a := Acceptor(s.pending, c.localPort, 0);
    if a < |s.pending| {
      GivenMore(s.replies, Answer(s.pending[a].handle, c.id, [], Accepted(c.localPort, c.id, Peer(c.peerIp, c.peerPort))), id);
    }
  }

  lemma ConnChangeStill(s: Server, k: nat, d: Conn, id: nat)
    requires k < |s.conns| && SameBuffer(s.conns[k], d)
    ensures Still(s, s.(conns := s.conns[k := d]), id)
  {
  }

  /** What a data segment does to the buffer, the log of stored bytes says too. */
  lemma StoreAppends(c: Conn, seg: Segment)
    requires !seg.rst && !Completes(c, seg) && !(c.phase.SynRcvd? && seg.ack)
    ensures var d := Finished(Stored(Acknowledged(c, seg), seg), seg);
            d.rx == c.rx + Fresh(c, seg) && d.id == c.id && d.used == c.used
  {
    assert Opened(c, seg) == c;
    assert Acknowledged(c, seg).rx == c.rx && Acknowledged(c, seg).rcvNext == c.rcvNext;
  }

  lemma StoreConserves(conns: seq<Conn>, given: seq<Byte>, kept: seq<Byte>, nextId: nat, id: nat, k: nat, d: Conn,
                        more: seq<Byte>, kept': seq<Byte>)
    requires k < |conns| && conns[k].used && conns[k].id < nextId && Conserved(conns, given, kept, nextId, id)
    requires forall j :: 0 <= j < |conns| && j != k && conns[j].used ==> conns[j].id != conns[k].id
    requires d.id == conns[k].id && d.used && d.rx == conns[k].rx + more
    requires kept' == if conns[k].id == id then kept + more else kept
    ensures Conserved(conns[k := d], given, kept', nextId, id)
  {
    var ds := conns[k := d];
    assert given + (conns[k].rx + more) == given + conns[k].rx + more;
    forall j | 0 <= j < |ds| ensures ConnConserves(ds[j], given, kept', id) {
      assert ConnConserves(conns[j], given, kept, id);
    }
  }

  lemma StoreKeeps(s: Server, k: nat, d: Conn, more: seq<Byte>, id: nat)
    requires k < |s.conns| && s.conns[k].used && Inv(s, id)
    requires d.id == s.conns[k].id && d.used && d.rx == s.conns[k].rx + more
    ensures InvBut(s.(conns := s.conns[k := d], stored := s.stored + [Chunk(d.id, more)]), id, k, 0)
  {
    var t := s.(conns := s.conns[k := d], stored := s.stored + [Chunk(d.id, more)]);
    KeptMore(s.stored, Chunk(d.id, more), id);
    StoreConserves(s.conns, Given(s.replies, id), Kept(s.stored, id), s.nextId, id, k, d, more, Kept(t.stored, id));
    forall i, j | 0 <= i < |t.pending| && 0 <= j < |t.conns| && (j != k || i < 0) ensures Patient(t.pending[i], t.conns[j]) {
      assert Patient(s.pending[i], s.conns[j]);
    }
  }

  lemma OpenSegmentKeeps(o: Server, k: nat, seg: Segment, code: int, id: nat)
    requires k < |o.conns| && o.conns[k].used && Inv(o, id) && !(o.conns[k].phase.SynRcvd? && seg.ack)
    ensures Inv(HandleSegment(o, k, seg, code), id)
  {
    var c := o.conns[k];
    if seg.rst {
      var t := o.(conns := o.conns[k := c.(phase := Dead)]);
      ConnChangeStill(o, k, c.(phase := Dead), id);
      SweepStill(t, 0, Refused(c.id, code), id);
      StillThen(o, t, HandleSegment(o, k, seg, code), id);
      StillKeeps(o, HandleSegment(o, k, seg, code), id, -1, 0);
    } else if Completes(c, seg) {
      var open := Synchronised(c, seg);
      var d := if c.v6 then open.(out := []) else open;
      var t := o.(conns := o.conns[k := d]);
      ConnChangeStill(o, k, d, id);
      SweepStill(t, 0, Connected(c.id), id);
      StillThen(o, t, HandleSegment(o, k, seg, code), id);
      StillKeeps(o, HandleSegment(o, k, seg, code), id, -1, 0);
    } else {
      StoreAppends(c, seg);
      var d := Finished(Stored(Acknowledged(c, seg), seg), seg);
      StoreKeeps(o, k, d, Fresh(c, seg), id);
      SweepReaders(o.(conns := o.conns[k := d], stored := o.stored + [Chunk(c.id, Fresh(c, seg))]), 0, k, id);
    }
  }

  lemma HandleSegmentKeeps(s: Server, k: nat, seg: Segment, code: int, id: nat)
    requires k < |s.conns| && s.conns[k].used && Inv(s, id)
    ensures Inv(HandleSegment(s, k, seg, code), id)
  {
    if s.conns[k].phase.SynRcvd? && seg.ack {
      var o := HandOver(s, k);
      HandOverStill(s, k, id);
      StillKeeps(s, o, id, -1, 0);
      assert |o.conns| == |s.conns| && o.conns[k].phase.Established? && o.conns[k].used;
      OpenSegmentKeeps(o, k, seg, code, id);
      assert HandleSegment(s, k, seg, code) == HandleSegment(o, k, seg, code);
    } else {
      OpenSegmentKeeps(s, k, seg, code, id);
    }
  }

  /** A new connection starts with nothing given, nothing buffered and nobody reading. */
  lemma NewConnKeeps(s: Server, k: nat, c: Conn, nextPort: nat, id: nat)
    requires k < |s.conns| && !s.conns[k].used && c.used && c.id == s.nextId && c.rx == [] && !c.peerClosed && Inv(s, id)
    ensures Inv(s.(conns := s.conns[k := c], nextId := s.nextId + 1, nextPort := nextPort), id)
    ensures Inv(s.(conns := s.conns[k := c], nextId := s.nextId + 1), id)
  {
    var ds := s.conns[k := c];
    forall j | 0 <= j < |ds| ensures ConnConserves(ds[j], Given(s.replies, id), Kept(s.stored, id), id) {
      assert ConnConserves(s.conns[j], Given(s.replies, id), Kept(s.stored, id), id);
    }
    forall i, j | 0 <= i < |s.pending| && 0 <= j < |ds| ensures Patient(s.pending[i], ds[j]) {
      assert Patient(s.pending[i], s.conns[j]);
    }
  }

  lemma HandleFrameKeeps(s: Server, f: Frame, id: nat)
    requires Inv(s, id)
    ensures Inv(HandleFrame(s, f), id)
  {
    match f
    case Signal(cause) =>
      if Wire(cause) {
        SweepStill(s, 0, cause, id);
        StillKeeps(s, Sweep(s, 0, cause), id, -1, 0);
      }
    case Segment4(local, ip, from, seg) =>
      var k := ConnByTuple(s.conns, local, ip, from, 0);
      if k < |s.conns| {
        HandleSegmentKeeps(s, k, seg, -1, id);
      } else if seg.syn && !seg.ack {
        var j := FreeConn(s.conns, 0);
        if ListenerOn(s.listeners, local, 0) < |s.listeners| && j < |s.conns| {
          var c := Answering(s.nextId, ip, from, local, InitialSeq(s), seg);
          NewConnKeeps(s, j, c, s.nextPort, id);
          HandleSegmentKeeps(s.(conns := s.conns[j := c], nextId := s.nextId + 1), j, seg, -1, id);
        }
      }
    case Segment6(local, seg) =>
      var k := ConnByPort6(s.conns, local);
      if k < |s.conns| { HandleSegmentKeeps(s, k, seg, -2, id); }
    case Other =>
  }

  lemma {:induction false} DrainKeeps(s: Server, frames: seq<Frame>, id: nat)
    requires Inv(s, id)
    ensures Inv(Drain(s, frames), id)
    decreases |frames|
  {
    if frames != [] {
      HandleFrameKeeps(s, frames[0], id);
      DrainKeeps(HandleFrame(s, frames[0]), frames[1..], id);
    }
  }

  // ---- requests ----

  lemma ReplyKeeps(s: Server, h: int, w0: int, data: seq<Byte>, topic: Topic, id: nat)
    requires !topic.Bytes? && Inv(s, id)
    ensures Inv(Replied(s, h, w0, data, topic), id)
  {
    GivenMore(s.replies, Answer(h, w0, data, topic), id);
    StillKeeps(s, Replied(s, h, w0, data, topic), id, -1, 0);
  }

  lemma ParkKeeps(s: Server, p: Slot, id: nat)
    requires p.Parked? && !p.kind.Read? && Inv(s, id)
    ensures Inv(Park(s, p), id)
  {
    if Full(s) {
      ReplyKeeps(s, p.handle, -1, [], Plain, id);
    } else {
      StillKeeps(s, Park(s, p), id, -1, 0);
    }
  }

  /** A reader is parked only on a connection with nothing for it. */
  lemma ParkReader(s: Server, k: nat, p: Slot, id: nat)
    requires k < |s.conns| && s.conns[k].used && s.conns[k].rx == [] && !s.conns[k].peerClosed
    requires p.Parked? && p.kind.Read? && p.ip == s.conns[k].id && Inv(s, id)
    ensures Inv(Park(s, p), id)
  {
    if Full(s) {
      ReplyKeeps(s, p.handle, -1, [], Plain, id);
    } else {
      var qs := s.pending[FirstFree(s.pending, 0) := p];
      forall i, j | 0 <= i < |qs| && 0 <= j < |s.conns| ensures Patient(qs[i], s.conns[j]) {
        assert Patient(s.pending[i], s.conns[j]);
      }
    }
  }

  /** A read answered at once takes the head of the buffer with it. */
  lemma ReadNowKeeps(s: Server, k: nat, a: Answer, id: nat)
    requires k < |s.conns| && s.conns[k].used && Inv(s, id)
    requires a.topic == Bytes(s.conns[k].id) && a.data == s.conns[k].rx[..ReadSize(s.conns[k])]
    ensures Inv(s.(conns := s.conns[k := AfterRead(s.conns[k])], replies := s.replies + [a]), id)
  {
    var t := s.(conns := s.conns[k := AfterRead(s.conns[k])], replies := s.replies + [a]);
    GivenMore(s.replies, a, id);
    ReadConserves(s.conns, Given(s.replies, id), Kept(s.stored, id), s.nextId, id, k, Given(t.replies, id));
    forall i, j | 0 <= i < |t.pending| && 0 <= j < |t.conns| ensures Patient(t.pending[i], t.conns[j]) {
      assert Patient(s.pending[i], s.conns[j]);
    }
  }

  lemma ReceiveKeeps(s: Server, h: int, of: nat, id: nat)
    requires Inv(s, id)
    ensures Inv(ServeReceive(s, h, of), id)
  {
    var k := ConnById(s.conns, of, 0);
    if k == |s.conns| || s.conns[k].phase.Dead? {
      ReplyKeeps(s, h, -1, [], Plain, id);
    } else if s.conns[k].rx != [] {
      var c := s.conns[k];
      ReadNowKeeps(s, k, Answer(h, ReadSize(c), c.rx[..ReadSize(c)], Bytes(c.id)), id);
    } else if s.conns[k].peerClosed {
      ReplyKeeps(s, h, 0, [], Plain, id);
    } else {
      ParkReader(s, k, NewSlot(s, Read, h, s.conns[k].id, 0), id);
    }
  }

  lemma ConnectKeeps(s: Server, h: int, ip: nat, to: nat, v6: bool, via: nat, known: bool, id: nat)
    requires Inv(s, id)
    ensures Inv(ServeConnect(s, h, ip, to, v6, via, known), id)
  {
    var k := FreeConn(s.conns, 0);
    if k == |s.conns| {
      ReplyKeeps(s, h, -1, [], Plain, id);
    } else if Full(s) {
      assert Inv(Numbered(s), id);
      ReplyKeeps(Numbered(s), h, -1, [], Plain, id);
    } else {
      var c := Dialled(s, ip, to, v6, known);
      NewConnKeeps(s, k, c, NextPort(s.nextPort), id);
      ParkKeeps(Numbered(s).(conns := s.conns[k := c]), ConnectSlot(s, h, via, v6 || known), id);
    }
  }

  lemma SendKeeps(s: Server, h: int, to: nat, data: seq<Byte>, id: nat)
    requires Inv(s, id)
    ensures Inv(ServeSend(s, h, to, data), id)
  {
    var k := ConnById(s.conns, to, 0);
    ReplyKeeps(s, h, -1, [], Plain, id);
    ReplyKeeps(s, h, 0, [], Plain, id);
    if k < |s.conns| {
      var c := s.conns[k];
      var r := Replied(s, h, |Taken(c, data)|, [], Plain);
      ReplyKeeps(s, h, |Taken(c, data)|, [], Plain, id);
      ConnChangeStill(r, k, Offered(c, data, Ticks(s)), id);
      StillKeeps(r, r.(conns := s.conns[k := Offered(c, data, Ticks(s))]), id, -1, 0);
    }
  }

  lemma ListenKeeps(s: Server, h: int, port: nat, id: nat)
    requires Inv(s, id)
    ensures Inv(ServeListen(s, h, port), id)
  {
    ReplyKeeps(s, h, 0, [], Plain, id);
    ReplyKeeps(s, h, -1, [], Plain, id);
  }

  lemma UnlistenKeeps(s: Server, h: int, port: nat, id: nat)
    requires Inv(s, id)
    ensures Inv(ServeUnlisten(s, h, port), id)
  {
    ReplyKeeps(s, h, 0, [], Plain, id);
  }

  lemma CloseKeeps(s: Server, h: int, gone: nat, id: nat)
    requires Inv(s, id)
    ensures Inv(ServeClose(s, h, gone), id)
  {
    var t := s.(conns := Closed(s.conns, gone));
    StillKeeps(s, t, id, -1, 0);
    ReplyKeeps(t, h, 0, [], Plain, id);
  }

  lemma AcceptKeeps(s: Server, h: int, at: nat, id: nat)
    requires Inv(s, id)
    ensures Inv(ServeAccept(s, h, at), id)
  {
    ReplyKeeps(s, h, -1, [], Plain, id);
    var l := ListenerOn(s.listeners, at, 0);
    if l < |s.listeners| && s.listeners[l].queue != [] {
      var q := s.listeners[l].queue;
      ReplyKeeps(s, h, q[0], [], Accepted(at, q[0], PeerOf(s.conns, q[0])), id);
    } else {
      ParkKeeps(s, NewSlot(s, Accept, h, at, 0), id);
    }
  }

  lemma StreamKeeps(s: Server, h: int, op: StreamOp, id: nat)
    requires Inv(s, id)
    ensures Inv(ServeStream(s, h, op), id)
  {
    match op
    case TcpConnect(ip, to, v6, via, known) =>
      ConnectKeeps(s, h, ip, to, v6, via, known, id);
    case TcpSend(to, data) =>
      SendKeeps(s, h, to, data, id);
    case TcpReceive(of) =>
      ReceiveKeeps(s, h, of, id);
    case TcpAccept(at) =>
      AcceptKeeps(s, h, at, id);
    case TcpListen(port) => ListenKeeps(s, h, port, id);
    case TcpUnlisten(port) => UnlistenKeeps(s, h, port, id);
    case TcpClose(gone) => CloseKeeps(s, h, gone, id);
  }

  lemma LookUpKeeps(s: Server, h: int, name: seq<Byte>, want6: bool, dns: nat, over6: bool, id: nat)
    requires Inv(s, id)
    ensures Inv(ServeLookUp(s, h, name, want6, dns, over6), id)
  {
    var dnsId := (s.dnsId + 1) % WRAP;
    StillKeeps(s, s.(dnsId := dnsId), id, -1, 0);
    ParkKeeps(s.(dnsId := dnsId), NamedSlot(s, Dns, h, dns, dnsId % 65536, NetServer.Kept(name), want6, over6), id);
  }

  lemma FromCacheKeeps(s: Server, h: int, known: bool, mac: seq<Byte>, p: Slot, id: nat)
    requires p.Parked? && !p.kind.Read? && Inv(s, id)
    ensures Inv(ServeFromCache(s, h, known, mac, p), id)
  {
    if known { ReplyKeeps(s, h, 0, mac, Plain, id); } else { ParkKeeps(s, p, id); }
  }

  lemma QueryKeeps(s: Server, h: int, q: Query, id: nat)
    requires Inv(s, id)
    ensures Inv(ServeQuery(s, h, q), id)
  {
    match q
    case Inform(w0) => ReplyKeeps(s, h, w0, [], Plain, id);
    case Resolve(target, seqNo, known, mac) =>
      FromCacheKeeps(s, h, known, mac, NewSlot(s, Arp, h, target, seqNo), id);
    case PingHost(target, seqNo) => ParkKeeps(s, NewSlot(s, Ping, h, target, seqNo), id);
    case LookUp(name, want6, dns, over6) => LookUpKeeps(s, h, name, want6, dns, over6, id);
    case UdpReceive(at) => ParkKeeps(s, NewSlot(s, Udp, h, 0, at), id);
    case FindNeighbour(via6, seqNo, known, mac) =>
      FromCacheKeeps(s, h, known, mac, NamedSlot(s, Nd, h, 0, seqNo, via6, false, false), id);
    case PingHost6(target6, seqNo) => ParkKeeps(s, NamedSlot(s, Ping6, h, 0, seqNo, target6, false, false), id);
  }

  // ---- over every run ----

  lemma LoopKeeps(s: Server, t: Turn, id: nat)
    requires Inv(s, id)
    ensures Inv(Loop(s, t), id)
  {
    DrainKeeps(s, t.frames, id);
    var drained := Drain(s, t.frames);
    var sent := drained.(conns := RetransmitAll(drained.conns, Ticks(drained)));
    var expired := Sweep(sent, 0, Deadline(t.haveDns6));
    StillKeeps(drained, sent, id, -1, 0);
    SweepStill(sent, 0, Deadline(t.haveDns6), id);
    StillKeeps(sent, expired, id, -1, 0);
    match t.arrived
    case Nothing => StillKeeps(expired, expired.(now := expired.now + 1), id, -1, 0);
    case Asked(h, m) =>
      var owing := expired.(asked := expired.asked + [h]);
      StillKeeps(expired, owing, id, -1, 0);
      match m
      case Ask(q) => QueryKeeps(owing, h, q, id);
      case Stream(op) => StreamKeeps(owing, h, op, id);
  }

  lemma {:induction false} RunKeeps(turns: seq<Turn>, id: nat)
    ensures Inv(Run(turns), id)
  {
    if turns != [] {
      RunKeeps(turns[..|turns| - 1], id);
      LoopKeeps(Run(turns[..|turns| - 1]), turns[|turns| - 1], id);
    }
  }

  /** In every run, for every open connection: bytes given to readers, then bytes buffered, are the bytes stored. */
  lemma NothingLostOrRepeated(turns: seq<Turn>, k: nat)
    requires k < |Run(turns).conns| && Run(turns).conns[k].used
    ensures var s := Run(turns);
            Given(s.replies, s.conns[k].id) + s.conns[k].rx == Kept(s.stored, s.conns[k].id)
  {
    var s := Run(turns);
    RunKeeps(turns, s.conns[k].id);
    assert ConnConserves(s.conns[k], Given(s.replies, s.conns[k].id), Kept(s.stored, s.conns[k].id), s.conns[k].id);
  }

  /** In every run, a parked reader's connection has nothing buffered and has not ended. */
  lemma NoReaderForgotten(turns: seq<Turn>, i: nat, k: nat)
    requires i < |Run(turns).pending| && k < |Run(turns).conns|
    requires var s := Run(turns);
             s.pending[i].Parked? && s.pending[i].kind.Read? && s.conns[k].used && s.pending[i].ip == s.conns[k].id
    ensures Run(turns).conns[k].rx == [] && !Run(turns).conns[k].peerClosed
  {
    var s := Run(turns);
    RunKeeps(turns, 0);
    assert Patient(s.pending[i], s.conns[k]);
  }
}
