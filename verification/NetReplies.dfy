/**
 Every request is answered exactly once, and in time: over every run of the
 event loop, the handles received are those replied to together with those
 still parked, and none stays parked past its limit, even when the 32-bit tick
 counter wraps.
 */
module NetReplies {
  import opened Bytes
  import opened Tcp
  import opened NetServer

  // ---- conservation of handles ----

  /** How often `h` was received, replied to, and is parked. */
  function Received(asked: seq<int>, h: int): nat {
    if asked == [] then 0
    else Received(asked[..|asked| - 1], h) + (if asked[|asked| - 1] == h then 1 else 0)
  }

  function Answered(replies: seq<Answer>, h: int): nat {
    if replies == [] then 0
    else Answered(replies[..|replies| - 1], h) + (if replies[|replies| - 1].handle == h then 1 else 0)
  }

  function Holds(p: Slot, h: int): nat { if p.Parked? && p.handle == h then 1 else 0 }

  function Waiting(pending: seq<Slot>, h: int): nat {
    if pending == [] then 0 else Holds(pending[0], h) + Waiting(pending[1..], h)
  }

  /** Every request with handle `h` but `owed` of them has been answered or is parked. */
  ghost predicate Ledger(s: Server, h: int, owed: nat) {
    Received(s.asked, h) == Answered(s.replies, h) + Waiting(s.pending, h) + owed
  }

  lemma {:induction false} WaitingUpdate(pending: seq<Slot>, i: nat, q: Slot, h: int)
    requires i < |pending|
    ensures Waiting(pending[i := q], h) + Holds(pending[i], h) == Waiting(pending, h) + Holds(q, h)
  {
    if i == 0 {
      assert pending[i := q][1..] == pending[1..];
    } else {
      WaitingUpdate(pending[1..], i - 1, q, h);
      assert pending[i := q][1..] == pending[1..][i - 1 := q];
    }
  }

  lemma AnsweredMore(replies: seq<Answer>, a: Answer, h: int)
    ensures Answered(replies + [a], h) == Answered(replies, h) + (if a.handle == h then 1 else 0)
  {
    assert (replies + [a])[..|replies|] == replies;
  }

  // ---- what looking at one slot can do ----

  /** Slot `i` was left alone, rewritten for the same requester, or answered once and freed. */
  ghost predicate SlotStep(s: Server, t: Server, i: nat)
    requires i < |s.pending|
  {
    && t.now == s.now && t.asked == s.asked && t.listeners == s.listeners && t.nextId == s.nextId
    && t.completed == s.completed && t.stored == s.stored && |t.conns| == |s.conns|
    && (|| (t.pending == s.pending && t.replies == s.replies)
        || Rewritten(s, t, i)
        || Freed(s, t, i))
  }

  ghost predicate Rewritten(s: Server, t: Server, i: nat)
    requires i < |s.pending|
  {
    && |t.pending| == |s.pending| && t.pending == s.pending[i := t.pending[i]] && t.replies == s.replies
    && s.pending[i].Parked? && t.pending[i].Parked? && t.pending[i].handle == s.pending[i].handle
  }

  ghost predicate Freed(s: Server, t: Server, i: nat)
    requires i < |s.pending|
  {
    && t.pending == s.pending[i := Free] && s.pending[i].Parked?
    && |t.replies| == |s.replies| + 1 && t.replies == s.replies + [t.replies[|s.replies|]]
    && t.replies[|s.replies|].handle == s.pending[i].handle
  }

  lemma SettleIsFreed(s: Server, i: nat, w0: int, data: seq<Byte>, topic: Topic)
    requires i < |s.pending| && s.pending[i].Parked?
    ensures SlotStep(s, Settle(s, i, w0, data, topic), i)
    ensures Freed(s, Settle(s, i, w0, data, topic), i)
  {
  }

  lemma JudgeSameHandle(p: Slot, cause: Cause, now: nat, conns: seq<Conn>)
    requires p.Parked? && (cause.Readable? ==> cause.conn < |conns|)
    ensures var v := Judge(p, cause, now, conns);
            v.Rewrite? ==> v.slot.Parked? && v.slot.handle == p.handle
  {
  }

  lemma ServeSlotStep(s: Server, i: nat, cause: Cause)
    requires i < |s.pending| && (cause.Readable? ==> cause.conn < |s.conns|)
    ensures SlotStep(s, ServeSlot(s, i, cause), i)
  {
    var p := s.pending[i];
    if p.Parked? {
      JudgeSameHandle(p, cause, s.now, s.conns);
    }
  }

  lemma SlotStepLedger(s: Server, t: Server, i: nat, h: int, owed: nat)
    requires i < |s.pending| && SlotStep(s, t, i) && Ledger(s, h, owed)
    ensures Ledger(t, h, owed)
  {
    if Rewritten(s, t, i) {
      WaitingUpdate(s.pending, i, t.pending[i], h);
    } else if Freed(s, t, i) {
      WaitingUpdate(s.pending, i, Free, h);
      AnsweredMore(s.replies, t.replies[|s.replies|], h);
    }
  }

  // ---- deadlines ----

  /** A name asked for a second time, over IPv6. */
  predicate AskedAgain(p: Slot) { p.Parked? && p.kind.Dns? && p.over6 && !p.first6 }

  /** How long a request may stay parked; a name first asked for over IPv4 is asked for twice. */
  function Limit(p: Slot): nat { if AskedAgain(p) then 2 * PATIENCE else PATIENCE }

  /** The slot is not past due, and its 32-bit deadline is the due time reduced. */
  ghost predicate SlotInTime(now: nat, p: Slot) {
    p.Parked? ==>
      && p.since <= now <= p.due <= now + PATIENCE
      && p.deadline == p.due % WRAP
      && p.due <= p.since + Limit(p) && (!AskedAgain(p) ==> p.due == p.since + PATIENCE)
      && (p.first6 ==> p.over6)
  }

  ghost predicate InTime(s: Server) {
    forall i :: 0 <= i < |s.pending| ==> SlotInTime(s.now, s.pending[i])
  }

  /** Nothing before slot `n` is due yet. */
  ghost predicate NotDue(s: Server, n: nat)
    requires n <= |s.pending|
  {
    forall i :: 0 <= i < n ==> s.pending[i].Parked? ==> s.now < s.pending[i].due
  }

  /** Comparing reduced counters never misses a due time, and fires early exactly when they wrap in between. */
  lemma FiresIff(now: nat, due: nat)
    requires now <= due <= now + PATIENCE
    ensures now == due ==> now % WRAP >= due % WRAP
    ensures now < due ==> (now % WRAP >= due % WRAP <==> now / WRAP != due / WRAP)
  {
    assert now == (now / WRAP) * WRAP + now % WRAP && due == (due / WRAP) * WRAP + due % WRAP;
    if now / WRAP == due / WRAP {
    } else {
      assert due / WRAP == now / WRAP + 1;
    }
  }

  lemma JudgeInTime(p: Slot, cause: Cause, now: nat, conns: seq<Conn>)
    requires p.Parked? && (cause.Readable? ==> cause.conn < |conns|) && SlotInTime(now, p)
    ensures var v := Judge(p, cause, now, conns);
            && (v.Rewrite? ==> SlotInTime(now, v.slot))
            && (cause.Deadline? && v.Rewrite? && v.slot.Parked? ==> now < v.slot.due)
            && (cause.Deadline? && v.Leave? ==> now < p.due)
  {
    FiresIff(now, p.due);
    assert Add32(now % WRAP, PATIENCE) == (now + PATIENCE) % WRAP;
  }

  lemma ServeSlotInTime(s: Server, i: nat, cause: Cause)
    requires i < |s.pending| && (cause.Readable? ==> cause.conn < |s.conns|)
    requires SlotInTime(s.now, s.pending[i])
    ensures var t := ServeSlot(s, i, cause);
            |t.pending| == |s.pending| && SlotInTime(t.now, t.pending[i]) &&
            (cause.Deadline? && t.pending[i].Parked? ==> t.now < t.pending[i].due)
  {
    if s.pending[i].Parked? {
      JudgeInTime(s.pending[i], cause, s.now, s.conns);
    }
  }

  // ---- whole sweeps ----

  lemma {:induction false} SweepKeeps(s: Server, i: nat, cause: Cause, h: int, owed: nat)
    requires i <= |s.pending| && (cause.Readable? ==> cause.conn < |s.conns|)
    requires Ledger(s, h, owed) && InTime(s) && (cause.Deadline? ==> NotDue(s, i))
    ensures var t := Sweep(s, i, cause);
            && Ledger(t, h, owed) && InTime(t) && t.now == s.now && t.asked == s.asked
            && (cause.Deadline? ==> NotDue(t, |t.pending|))
    decreases |s.pending| - i
  {
    if i < |s.pending| {
      var t := ServeSlot(s, i, cause);
      ServeSlotStep(s, i, cause);
      SlotStepLedger(s, t, i, h, owed);
      ServeSlotInTime(s, i, cause);
      SweepKeeps(t, i + 1, cause, h, owed);
    }
  }

  lemma HandOverKeeps(s: Server, k: nat, h: int, owed: nat)
    requires k < |s.conns| && Ledger(s, h, owed) && InTime(s)
    ensures var t := HandOver(s, k);
            Ledger(t, h, owed) && InTime(t) && t.now == s.now && t.asked == s.asked
  {
    var c := s.conns[k];
    var a := Acceptor(s.pending, c.localPort, 0);
    if a < |s.pending| {
      var t := s.(conns := s.conns[k := c.(phase := Established)],
                  completed := s.completed + [Arrival(c.localPort, c.id)]);
      SettleIsFreed(t, a, c.id, [], Accepted(c.localPort, c.id, Peer(c.peerIp, c.peerPort)));
      SlotStepLedger(t, HandOver(s, k), a, h, owed);
    }
  }

  lemma HandleSegmentKeeps(s: Server, k: nat, seg: Segment, code: int, h: int, owed: nat)
    requires k < |s.conns| && Ledger(s, h, owed) && InTime(s)
    ensures var t := HandleSegment(s, k, seg, code);
            Ledger(t, h, owed) && InTime(t) && t.now == s.now && t.asked == s.asked
  {
    var o := if s.conns[k].phase.SynRcvd? && seg.ack then HandOver(s, k) else s;
    if s.conns[k].phase.SynRcvd? && seg.ack {
      HandOverKeeps(s, k, h, owed);
    }
    var c := o.conns[k];
    if seg.rst {
      SweepKeeps(o.(conns := o.conns[k := c.(phase := Dead)]), 0, Refused(c.id, code), h, owed);
    } else if Completes(c, seg) {
      var open := Synchronised(c, seg);
      SweepKeeps(o.(conns := o.conns[k := if c.v6 then open.(out := []) else open]), 0, Connected(c.id), h, owed);
    } else {
      SweepKeeps(o.(conns := o.conns[k := Finished(Stored(Acknowledged(c, seg), seg), seg)],
                    stored := o.stored + [Chunk(c.id, Fresh(c, seg))]), 0, Readable(k), h, owed);
    }
  }

  lemma HandleFrameKeeps(s: Server, f: Frame, h: int, owed: nat)
    requires Ledger(s, h, owed) && InTime(s)
    ensures var t := HandleFrame(s, f);
            Ledger(t, h, owed) && InTime(t) && t.now == s.now && t.asked == s.asked
  {
    match f
    case Signal(cause) => if Wire(cause) { SweepKeeps(s, 0, cause, h, owed); }
    case Segment4(local, ip, port, seg) =>
      var k := ConnByTuple(s.conns, local, ip, port, 0);
      if k < |s.conns| {
        HandleSegmentKeeps(s, k, seg, -1, h, owed);
      } else if seg.syn && !seg.ack {
        var free := FreeConn(s.conns, 0);
        if ListenerOn(s.listeners, local, 0) < |s.listeners| && free < |s.conns| {
          var c := Answering(s.nextId, ip, port, local, InitialSeq(s), seg);
          HandleSegmentKeeps(s.(conns := s.conns[free := c], nextId := s.nextId + 1), free, seg, -1, h, owed);
        }
      }
    case Segment6(local, seg) =>
      var k := ConnByPort6(s.conns, local);
      if k < |s.conns| { HandleSegmentKeeps(s, k, seg, -2, h, owed); }
    case Other =>
  }

  lemma {:induction false} DrainKeeps(s: Server, frames: seq<Frame>, h: int, owed: nat)
    requires Ledger(s, h, owed) && InTime(s)
    ensures var t := Drain(s, frames);
            Ledger(t, h, owed) && InTime(t) && t.now == s.now && t.asked == s.asked
    decreases |frames|
  {
    if frames != [] {
      HandleFrameKeeps(s, frames[0], h, owed);
      DrainKeeps(HandleFrame(s, frames[0]), frames[1..], h, owed);
    }
  }

  // ---- requests ----

  /** One for the request in hand, none for any other handle. */
  function Due(asking: int, h: int): nat { if asking == h then 1 else 0 }

  /** The request was answered at once, or parked in the first free slot with a full wait ahead of it. */
  ghost predicate RequestStep(s: Server, t: Server, asking: int) {
    && t.now == s.now && t.asked == s.asked
    && (AnsweredNow(s, t, asking) || ParkedNow(s, t, asking))
  }

  ghost predicate AnsweredNow(s: Server, t: Server, asking: int) {
    && t.pending == s.pending
    && |t.replies| == |s.replies| + 1 && t.replies == s.replies + [t.replies[|s.replies|]]
    && t.replies[|s.replies|].handle == asking
  }

  ghost predicate ParkedNow(s: Server, t: Server, asking: int) {
    var k := FirstFree(s.pending, 0);
    && k < |s.pending| == |t.pending| && t.pending == s.pending[k := t.pending[k]] && t.replies == s.replies
    && t.pending[k].Parked? && t.pending[k].handle == asking
    && t.pending[k].since == s.now && t.pending[k].due == s.now + PATIENCE
    && t.pending[k].deadline == Add32(Ticks(s), PATIENCE) && t.pending[k].first6 == t.pending[k].over6
  }

  lemma ConnectStep(s: Server, h: int, ip: nat, port: nat, v6: bool, via: nat, known: bool)
    ensures RequestStep(s, ServeConnect(s, h, ip, port, v6, via, known), h)
  {
  }

  lemma QueryStep(s: Server, h: int, q: Query)
    ensures RequestStep(s, ServeQuery(s, h, q), h)
  {
  }

  lemma ReceiveStep(s: Server, h: int, id: nat)
    ensures RequestStep(s, ServeReceive(s, h, id), h)
  {
  }

  lemma AcceptStep(s: Server, h: int, port: nat)
    ensures RequestStep(s, ServeAccept(s, h, port), h)
  {
  }

  lemma StreamStep(s: Server, h: int, op: StreamOp)
    ensures RequestStep(s, ServeStream(s, h, op), h)
  {
    match op
    case TcpConnect(ip, port, v6, via, known) => ConnectStep(s, h, ip, port, v6, via, known);
    case TcpReceive(id) => ReceiveStep(s, h, id);
    case TcpAccept(port) => AcceptStep(s, h, port);
    case _ =>
  }

  lemma ServeStep(s: Server, h: int, m: Request)
    ensures RequestStep(s, Serve(s, h, m), h)
  {
    match m
    case Ask(q) => QueryStep(s, h, q);
    case Stream(op) => StreamStep(s, h, op);
  }

  lemma RequestStepKeeps(s: Server, t: Server, asking: int, h: int)
    requires RequestStep(s, t, asking) && Ledger(s, h, Due(asking, h)) && InTime(s)
    ensures Ledger(t, h, 0) && InTime(t)
  {
    if AnsweredNow(s, t, asking) {
      AnsweredMore(s.replies, t.replies[|s.replies|], h);
    } else {
      var k := FirstFree(s.pending, 0);
      WaitingUpdate(s.pending, k, t.pending[k], h);
      assert Add32(Ticks(s), PATIENCE) == (s.now + PATIENCE) % WRAP;
    }
  }

  // ---- over every run ----

  lemma ReceivedMore(asked: seq<int>, asking: int, h: int)
    ensures Received(asked + [asking], h) == Received(asked, h) + Due(asking, h)
  {
    assert (asked + [asking])[..|asked|] == asked;
  }

  lemma LoopKeeps(s: Server, t: Turn, h: int)
    requires Ledger(s, h, 0) && InTime(s)
    ensures Ledger(Loop(s, t), h, 0) && InTime(Loop(s, t))
  {
    DrainKeeps(s, t.frames, h, 0);
    var drained := Drain(s, t.frames);
    var sent := drained.(conns := RetransmitAll(drained.conns, Ticks(drained)));
    SweepKeeps(sent, 0, Deadline(t.haveDns6), h, 0);
    var expired := Sweep(sent, 0, Deadline(t.haveDns6));
    match t.arrived
    case Nothing =>
    case Asked(asking, m) =>
      ReceivedMore(expired.asked, asking, h);
      var owing := expired.(asked := expired.asked + [asking]);
      ServeStep(owing, asking, m);
      RequestStepKeeps(owing, Serve(owing, asking, m), asking, h);
  }

  lemma {:induction false} RunKeeps(turns: seq<Turn>, h: int)
    ensures Ledger(Run(turns), h, 0) && InTime(Run(turns))
  {
    if turns == [] {
      NothingWaits(Start().pending, h);
    } else {
      RunKeeps(turns[..|turns| - 1], h);
      LoopKeeps(Run(turns[..|turns| - 1]), turns[|turns| - 1], h);
    }
  }

  lemma {:induction false} NothingWaits(pending: seq<Slot>, h: int)
    requires forall i :: 0 <= i < |pending| ==> pending[i].Free?
    ensures Waiting(pending, h) == 0
  {
    if pending != [] {
      NothingWaits(pending[1..], h);
    }
  }

  /**
   In every run, for every handle: the requests received are exactly those
   replied to and those still parked. With handles that are never handed out
   twice, no request is answered twice and none is forgotten.
   */
  lemma ExactlyOnce(turns: seq<Turn>, h: int)
    ensures var s := Run(turns);
            Received(s.asked, h) == Answered(s.replies, h) + Waiting(s.pending, h)
  {
    RunKeeps(turns, h);
  }

  /**
   In every run, no request has been parked for longer than 2000 ticks, or 4000 for a
   name first asked for over IPv4 and then again over IPv6.
   */
  lemma NoneKeptWaiting(turns: seq<Turn>, i: nat)
    requires i < |Run(turns).pending| && Run(turns).pending[i].Parked?
    ensures var p := Run(turns).pending[i];
            && p.since <= Run(turns).now <= p.since + 2 * PATIENCE
            && (!p.kind.Dns? || !p.over6 || p.first6 ==> Run(turns).now <= p.since + PATIENCE)
  {
    RunKeeps(turns, 0);
    assert SlotInTime(Run(turns).now, Run(turns).pending[i]);
  }

  /** Before its time a parked request is given up on, or renewed, exactly when the tick counter wraps first. */
  lemma GivenUpEarlyIff(turns: seq<Turn>, i: nat, haveDns6: bool)
    requires i < |Run(turns).pending| && Run(turns).pending[i].Parked?
    requires Run(turns).now < Run(turns).pending[i].due
    ensures var s := Run(turns);
            !Judge(s.pending[i], Deadline(haveDns6), s.now, s.conns).Leave? <==> s.now / WRAP != s.pending[i].due / WRAP
  {
    RunKeeps(turns, 0);
    var s := Run(turns);
    assert SlotInTime(s.now, s.pending[i]);
    FiresIff(s.now, s.pending[i].due);
  }

  // ---- a wrap while a request waits ----

  const IDLE := Turn([], false, Nothing)

  function Idle(n: nat): seq<Turn> { seq(n, _ => IDLE) }

  lemma {:induction false} SweepFree(s: Server, i: nat, cause: Cause)
    requires i <= |s.pending| && !cause.Readable? && forall j :: 0 <= j < |s.pending| ==> s.pending[j].Free?
    ensures Sweep(s, i, cause) == s
    decreases |s.pending| - i
  {
    if i < |s.pending| {
      SweepFree(s, i + 1, cause);
    }
  }

  /** Nothing happens in an idle turn to a server with nothing parked and nothing connected. */
  lemma UpkeepIdle(s: Server)
    requires Resting(s)
    ensures Upkeep(s, [], false) == s
  {
    assert RetransmitAll(s.conns, Ticks(s)) == s.conns;
    SweepFree(s, 0, Deadline(false));
  }

  ghost predicate Resting(s: Server) {
    (forall j :: 0 <= j < |s.pending| ==> s.pending[j].Free?) && forall k :: 0 <= k < |s.conns| ==> !s.conns[k].used
  }

  lemma LoopIdle(s: Server)
    requires Resting(s)
    ensures Loop(s, IDLE) == s.(now := s.now + 1)
  {
    UpkeepIdle(s);
  }

  lemma {:induction false} IdleRun(n: nat)
    ensures Run(Idle(n)) == Start().(now := n)
  {
    if n > 0 {
      IdleRun(n - 1);
      assert Idle(n)[..n - 1] == Idle(n - 1) && Idle(n)[n - 1] == IDLE;
      LoopIdle(Start().(now := n - 1));
    } else {
      assert Idle(0) == [];
    }
  }

  function PingTurn(h: int, target: nat, seqNo: nat): Turn { Turn([], false, Asked(h, Ask(PingHost(target, seqNo)))) }

  lemma PingParked(s: Server, h: int, target: nat, seqNo: nat)
    requires Resting(s) && |s.pending| > 0
    ensures Loop(s, PingTurn(h, target, seqNo)) ==
            s.(asked := s.asked + [h], pending := s.pending[0 := NewSlot(s, Ping, h, target, seqNo)])
  {
    UpkeepIdle(s);
    assert s.pending[0].Free? && FirstFree(s.pending, 0) == 0;
  }

  lemma RunMore(turns: seq<Turn>, turn: Turn)
    ensures Run(turns + [turn]) == Loop(Run(turns), turn)
  {
    var all := turns + [turn];
    assert all[..|all| - 1] == turns && all[|all| - 1] == turn;
  }

  lemma JudgedEarly(s: Server, h: int, target: nat, seqNo: nat, conns: seq<Conn>)
    requires s.now < WRAP <= s.now + PATIENCE
    ensures Judge(NewSlot(s, Ping, h, target, seqNo), Deadline(false), s.now, conns) == Finish(-1, [], Plain)
  {
  }

  /**
   A ping that arrives within 2000 ticks of the counter's wrap is given up on at
   the very next look at the deadlines, with its whole time still ahead of it.
   */
  lemma WrapGivesUp(n: nat, h: int, target: nat, seqNo: nat)
    requires n < WRAP <= n + PATIENCE
    ensures var s := Run(Idle(n) + [PingTurn(h, target, seqNo)]);
            && s.now == n && |s.pending| == PENDING_MAX
            && s.pending[0].Parked? && s.pending[0].handle == h && s.pending[0].due == n + PATIENCE
            && Judge(s.pending[0], Deadline(false), s.now, s.conns) == Finish(-1, [], Plain)
  {
    var s := Start().(now := n);
    IdleRun(n);
    RunMore(Idle(n), PingTurn(h, target, seqNo));
    PingParked(s, h, target, seqNo);
    JudgedEarly(s, h, target, seqNo, s.conns);
  }
}
