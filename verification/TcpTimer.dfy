/**
 When an unacknowledged segment is repeated, and when the stack gives up: the
 clock's side of a connection, against a schedule written down by itself.
 */
module TcpTimer {
  import opened Bytes
  import opened Tcp
  import opened NetServer

  // ---- the schedule ----

  /** How long to wait before the next repeat: one unit before the first two, then one more each time. */
  function Gap(unit: nat, n: nat): nat { if n == 0 then unit else unit * n }

  /** The position of the first tick at or past a bound, or the length. */
  function FirstFrom(ticks: seq<nat>, bound: nat): (i: nat)
    ensures i <= |ticks| && (i < |ticks| ==> ticks[i] >= bound)
    ensures forall j :: 0 <= j < i ==> ticks[j] < bound
  {
    if ticks == [] || ticks[0] >= bound then 0 else 1 + FirstFrom(ticks[1..], bound)
  }

  /**
   The ticks, of those at which the stack looks, at which a segment goes out again:
   `n` repeats have been made, the last at `last`, and there are `most` in all.
   */
  function Schedule(unit: nat, most: nat, last: nat, n: nat, ticks: seq<nat>): seq<nat>
    decreases |ticks|
  {
    var i := FirstFrom(ticks, last + Gap(unit, n));
    if n >= most || i == |ticks| then [] else [ticks[i]] + Schedule(unit, most, ticks[i], n + 1, ticks[i + 1..])
  }

  /** Whether there is a tick at which no repeat is left to make. */
  predicate GivesUp(unit: nat, most: nat, last: nat, n: nat, ticks: seq<nat>)
    decreases |ticks|
  {
    var i := FirstFrom(ticks, last + Gap(unit, n));
    i < |ticks| && (n >= most || GivesUp(unit, most, ticks[i], n + 1, ticks[i + 1..]))
  }

  lemma {:induction false} ScheduleShort(unit: nat, most: nat, last: nat, n: nat, ticks: seq<nat>)
    requires n <= most
    ensures |Schedule(unit, most, last, n, ticks)| <= most - n
    ensures GivesUp(unit, most, last, n, ticks) ==> |Schedule(unit, most, last, n, ticks)| == most - n
    decreases |ticks|
  {
    var i := FirstFrom(ticks, last + Gap(unit, n));
    if n < most && i < |ticks| {
      ScheduleShort(unit, most, ticks[i], n + 1, ticks[i + 1..]);
    }
  }

  /** A tick too early changes nothing. */
  lemma ScheduleSkips(unit: nat, most: nat, last: nat, n: nat, ticks: seq<nat>)
    requires ticks != [] && ticks[0] < last + Gap(unit, n)
    ensures Schedule(unit, most, last, n, ticks) == Schedule(unit, most, last, n, ticks[1..])
    ensures GivesUp(unit, most, last, n, ticks) <==> GivesUp(unit, most, last, n, ticks[1..])
  {
    var i := FirstFrom(ticks[1..], last + Gap(unit, n));
    assert FirstFrom(ticks, last + Gap(unit, n)) == 1 + i;
    assert i < |ticks[1..]| ==> ticks[1..][i] == ticks[1 + i] && ticks[1..][i + 1..] == ticks[1 + i + 1..];
  }

  /** A tick late enough takes the next place in the schedule, or ends it. */
  lemma ScheduleTakes(unit: nat, most: nat, last: nat, n: nat, ticks: seq<nat>)
    requires ticks != [] && ticks[0] >= last + Gap(unit, n)
    ensures n < most ==>
              && Schedule(unit, most, last, n, ticks) == [ticks[0]] + Schedule(unit, most, ticks[0], n + 1, ticks[1..])
              && (GivesUp(unit, most, last, n, ticks) <==> GivesUp(unit, most, ticks[0], n + 1, ticks[1..]))
    ensures n >= most ==> Schedule(unit, most, last, n, ticks) == [] && GivesUp(unit, most, last, n, ticks)
  {
    assert FirstFrom(ticks, last + Gap(unit, n)) == 0;
  }

  // ---- the connection ----

  function Unit(c: Conn): nat { if c.phase.SynSent? then 200 else 400 }

  function MostRepeats(c: Conn): nat { if c.phase.SynSent? then 8 else 5 }

  /** What goes out again: the block in flight at its own place, or the SYN. */
  function Repeated(c: Conn): Segment {
    if c.phase.SynSent? then Sent(c, Add32(c.sndNext, WRAP - 1), true, false, false, [])
    else Sent(c, c.outSeq, false, true, false, c.out)
  }

  /** The connection after the stack has looked at it at each of these ticks, with nothing arriving. */
  function Waited(c: Conn, ticks: seq<nat>): Conn
    decreases |ticks|
  {
    if ticks == [] then c else Waited(Retransmitted(c, ticks[0]), ticks[1..])
  }

  function WaitedSends(c: Conn, ticks: seq<nat>): seq<Segment>
    decreases |ticks|
  {
    if ticks == [] then [] else RetransmitSends(c, ticks[0]) + WaitedSends(Retransmitted(c, ticks[0]), ticks[1..])
  }

  /** The ticks at which something was sent. */
  function SendTicks(c: Conn, ticks: seq<nat>): seq<nat>
    decreases |ticks|
  {
    if ticks == [] then []
    else (if RetransmitSends(c, ticks[0]) != [] then [ticks[0]] else []) + SendTicks(Retransmitted(c, ticks[0]), ticks[1..])
  }

  function Copies(seg: Segment, n: nat): seq<Segment> { if n == 0 then [] else [seg] + Copies(seg, n - 1) }

  /** A connection with something outstanding, repeated `n` times, the last at `last`. */
  predicate Outstanding(c: Conn, last: nat, n: nat) {
    && c.used && !c.phase.Dead? && c.out != [] && c.outTries == n && c.outDeadline == last + Gap(Unit(c), n)
    && n <= MostRepeats(c)
  }

  /** No tick comes near the counter's wrap. */
  predicate Early(ticks: seq<nat>) { forall i :: 0 <= i < |ticks| ==> ticks[i] + 2000 < WRAP }

  lemma LookTooEarly(c: Conn, last: nat, n: nat, tick: nat)
    requires Outstanding(c, last, n) && tick < last + Gap(Unit(c), n)
    ensures Retransmitted(c, tick) == c && RetransmitSends(c, tick) == []
  {
  }

  lemma LookRepeats(c: Conn, last: nat, n: nat, tick: nat)
    requires Outstanding(c, last, n) && tick >= last + Gap(Unit(c), n) && n < MostRepeats(c) && tick + 2000 < WRAP
    ensures RetransmitSends(c, tick) == [Repeated(c)]
    ensures var d := Retransmitted(c, tick);
            Outstanding(d, tick, n + 1) && d.phase == c.phase && Repeated(d) == Repeated(c)
  {
  }

  lemma LookGivesUp(c: Conn, last: nat, n: nat, tick: nat)
    requires Outstanding(c, last, n) && tick >= last + Gap(Unit(c), n) && n == MostRepeats(c)
    ensures RetransmitSends(c, tick) == []
    ensures var d := Retransmitted(c, tick); d.phase.Dead? && d.out == []
  {
  }

  lemma {:induction false} DeadWaits(c: Conn, ticks: seq<nat>)
    requires c.out == []
    ensures Waited(c, ticks) == c && WaitedSends(c, ticks) == [] && SendTicks(c, ticks) == []
    decreases |ticks|
  {
    if ticks != [] {
      DeadWaits(c, ticks[1..]);
    }
  }

  /**
   Whenever the stack looks, it repeats exactly what the schedule says, exactly
   then, and the connection is dead exactly when the schedule gives up.
   */
  lemma {:induction false} FollowsSchedule(c: Conn, last: nat, n: nat, ticks: seq<nat>)
    requires Outstanding(c, last, n) && Early(ticks)
    ensures SendTicks(c, ticks) == Schedule(Unit(c), MostRepeats(c), last, n, ticks)
    ensures WaitedSends(c, ticks) == Copies(Repeated(c), |SendTicks(c, ticks)|)
    ensures Waited(c, ticks).phase.Dead? <==> GivesUp(Unit(c), MostRepeats(c), last, n, ticks)
    decreases |ticks|
  {
    if ticks != [] {
      var rest, unit, most := ticks[1..], Unit(c), MostRepeats(c);
      if ticks[0] < last + Gap(Unit(c), n) {
        LookTooEarly(c, last, n, ticks[0]);
        ScheduleSkips(unit, most, last, n, ticks);
        FollowsSchedule(c, last, n, rest);
      } else if n < MostRepeats(c) {
        var d := Retransmitted(c, ticks[0]);
        LookRepeats(c, last, n, ticks[0]);
        ScheduleTakes(unit, most, last, n, ticks);
        FollowsSchedule(d, ticks[0], n + 1, rest);
      } else {
        LookGivesUp(c, last, n, ticks[0]);
        ScheduleTakes(unit, most, last, n, ticks);
        DeadWaits(Retransmitted(c, ticks[0]), rest);
      }
    }
  }

  // ---- the two things that are ever outstanding ----

  /** A block offered at a tick: first repeated 400 ticks later, then after 400, 800, 1200 and 1600 more, five times at most. */
  lemma BlockRepeats(c: Conn, data: seq<Byte>, tick: nat, ticks: seq<nat>)
    requires c.used && c.phase.Established? && c.out == [] && data != [] && tick + 2000 < WRAP && Early(ticks)
    ensures var o, block := Offered(c, data, tick), data[..Min(|data|, IPC_INLINE)];
            && SendTicks(o, ticks) == Schedule(400, 5, tick, 0, ticks) && |SendTicks(o, ticks)| <= 5
            && WaitedSends(o, ticks) == Copies(Sent(c, c.sndNext, false, true, false, block), |SendTicks(o, ticks)|)
            && (Waited(o, ticks).phase.Dead? <==> GivesUp(400, 5, tick, 0, ticks))
  {
    var o := Offered(c, data, tick);
    assert Outstanding(o, tick, 0);
    FollowsSchedule(o, tick, 0, ticks);
    ScheduleShort(400, 5, tick, 0, ticks);
  }

  /** A single look: nothing before the block's time, and the block itself from then on. */
  lemma FirstRepeat(c: Conn, data: seq<Byte>, tick: nat, now: nat)
    requires c.used && c.phase.Established? && c.out == [] && data != [] && tick + 400 < WRAP
    ensures RetransmitSends(Offered(c, data, tick), now) ==
            if now < tick + 400 then []
            else [Sent(c, c.sndNext, false, true, false, data[..Min(|data|, IPC_INLINE)])]
  {
  }

  /** A SYN that could not be sent over IPv6: tried again after 200 ticks, eight times at most. */
  lemma SynRepeats(s: Server, ip: nat, port: nat, ticks: seq<nat>)
    requires Ticks(s) + 2000 < WRAP && Early(ticks)
    ensures var c := Dialled(s, ip, port, true, false);
            && SendTicks(c, ticks) == Schedule(200, 8, Ticks(s), 0, ticks) && |SendTicks(c, ticks)| <= 8
            && WaitedSends(c, ticks) == Copies(Repeated(c), |SendTicks(c, ticks)|)
            && Repeated(c).syn && Repeated(c).seqNo == InitialSeq(s)
            && (Waited(c, ticks).phase.Dead? <==> GivesUp(200, 8, Ticks(s), 0, ticks))
  {
    var c := Dialled(s, ip, port, true, false);
    assert Outstanding(c, Ticks(s), 0);
    FollowsSchedule(c, Ticks(s), 0, ticks);
    ScheduleShort(200, 8, Ticks(s), 0, ticks);
    SynNumber(InitialSeq(s));
  }

  lemma SynNumber(iss: nat)
    requires iss < WRAP
    ensures Add32(Add32(iss, 1), WRAP - 1) == iss
  {
  }

  lemma Wraps(now: nat, due: nat)
    requires now < due < now + WRAP
    ensures now % WRAP >= due % WRAP <==> now / WRAP != due / WRAP
  {
  }

  /** Counting ticks without wrapping, a block is repeated before its time exactly when the counter wraps first. */
  lemma RepeatsEarlyIff(c: Conn, data: seq<Byte>, tick: nat, now: nat)
    requires c.used && c.phase.Established? && c.out == [] && data != [] && tick <= now < tick + 400
    ensures RetransmitSends(Offered(c, data, tick % WRAP), now % WRAP) != [] <==> now / WRAP != (tick + 400) / WRAP
  {
    Wraps(now, tick + 400);
    assert Add32(tick % WRAP, 400) == (tick + 400) % WRAP;
  }
}
