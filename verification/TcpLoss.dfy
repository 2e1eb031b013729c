/**
 What the stream keeps when segments do not fit the receiver's buffer: whatever is
 lost, the bytes accepted are bytes of the stream in their order; and a run that
 loses some.
 */
module TcpLoss {
  import opened Bytes
  import opened Sequences
  import opened Tcp
  import opened TcpStream

  // ---- never out of order ----

  /** What was accepted are bytes of the stream, in order, from as far as it has been seen. */
  ghost predicate InOrder(x: Host, y: Host) {
    var n := Seen(y, Base(x));
    0 <= n <= |x.taken| && IsSubseq(y.accepted, x.taken[..n])
  }

  /** What the sender takes later changes nothing, nor does what leaves the receiver as it is. */
  lemma StaysInOrder(x: Host, x': Host, y: Host, y': Host)
    requires InOrder(x, y) && x'.iss == x.iss && x.taken <= x'.taken && Quiet(y, y', Base(x))
    ensures InOrder(x', y')
  {
    var n := Seen(y, Base(x));
    assert x'.taken[..n] == x.taken[..n];
  }

  lemma TakenInOrder(accepted: seq<Byte>, taken: seq<Byte>, n: nat, body: seq<Byte>, k: nat)
    requires n + |body| <= |taken| && IsSubseq(accepted, taken[..n]) && body == taken[n..n + |body|] && k <= |body|
    ensures IsSubseq(accepted + body[..k], taken[..n + |body|])
  {
    SubseqJoin(accepted, taken[..n], body, k);
    assert taken[..n] + body == taken[..n + |body|];
  }

  lemma ReceivedInOrder(x: Host, y: Host, xy: set<Segment>, yx: set<Segment>, seg: Segment)
    requires Flow(x, y, xy, yx) && Synced(y) && seg in xy && InOrder(x, y)
    ensures InOrder(x, Received(y, seg))
  {
    assert Carries(seg, Base(x), x.taken, |x.conn.out|);
    ReceiverStores(y, Base(x), seg);
    if seg.seqNo == y.conn.rcvNext && seg.body != [] {
      TakenInOrder(y.accepted, x.taken, Seen(y, Base(x)), seg.body, Room(y.conn, seg));
    } else {
      assert Received(y, seg).accepted == y.accepted;
    }
  }

  lemma NothingAccepted(x: Host, y: Host)
    requires y.accepted == [] && Seen(y, Base(x)) == 0
    ensures InOrder(x, y)
  {
  }

  lemma ServerInOrder(s: State, seg: Segment, iss: nat)
    requires Inv(s) && seg in s.toServer && InOrder(s.client, s.server)
    ensures InOrder(s.client, ToServer(s, seg, iss).server)
  {
    if s.server.conn.used {
      ReceivedInOrder(s.client, s.server, s.toServer, s.toClient, seg);
    } else {
      OpeningInStep(s, seg, iss);
      NothingAccepted(s.client, ToServer(s, seg, iss).server);
    }
  }

  lemma ClientInOrder(s: State, seg: Segment)
    requires Inv(s) && seg in s.toClient && InOrder(s.server, s.client)
    ensures InOrder(s.server, ToClient(s, seg).client)
  {
    if s.client.conn.phase.SynSent? {
      CompletingInStep(s, seg);
      NothingAccepted(s.server, ToClient(s, seg).client);
    } else {
      ReceivedInOrder(s.server, s.client, s.toClient, s.toServer, seg);
    }
  }

  ghost predicate BothInOrder(s: State) { InOrder(s.client, s.server) && InOrder(s.server, s.client) }

  lemma StepInOrder(s: State, a: Action)
    requires Inv(s) && Allowed(s, a) && BothInOrder(s)
    ensures BothInOrder(Step(s, a))
  {
    var t := Step(s, a);
    if !a.Deliver? {
      StepQuiet(s, a);
      StaysInOrder(s.client, t.client, s.server, t.server);
      StaysInOrder(s.server, t.server, s.client, t.client);
    } else if a.toServer {
      ServerInOrder(s, a.seg, a.iss);
      if !s.server.conn.used {
        NothingAccepted(t.server, t.client);
      }
    } else {
      ClientInOrder(s, a.seg);
    }
  }

  lemma {:induction false} RunInOrder(s: State, actions: seq<Action>)
    requires Inv(s) && AllAllowed(s, actions) && BothInOrder(s)
    ensures BothInOrder(Run(s, actions))
  {
    if actions != [] {
      var before, a := actions[..|actions| - 1], actions[|actions| - 1];
      RunInOrder(s, before);
      RunKeeps(s, before);
      StepInOrder(Run(s, before), a);
    }
  }

  lemma {:induction false} SubseqOfPrefix<T>(z: seq<T>, x: seq<T>, n: nat)
    requires n <= |x| && IsSubseq(z, x[..n])
    ensures IsSubseq(z, x)
  {
    SubseqJoin(z, x[..n], x[n..], 0);
    assert z + x[n..][..0] == z && x[..n] + x[n..] == x;
  }

  /** In every run, in both directions and whatever fitted, the bytes accepted are bytes taken, in their order. */
  lemma AcceptedInOrder(id: nat, ip: nat, port: nat, local: nat, iss: nat, actions: seq<Action>)
    requires iss + 1 < WRAP && AllAllowed(Start(id, ip, port, local, iss), actions)
    ensures var s := Run(Start(id, ip, port, local, iss), actions);
            IsSubseq(s.server.accepted, s.client.taken) && IsSubseq(s.client.accepted, s.server.taken)
  {
    var s0 := Start(id, ip, port, local, iss);
    StartInv(id, ip, port, local, iss);
    RunInOrder(s0, actions);
    var s := Run(s0, actions);
    SubseqOfPrefix(s.server.accepted, s.client.taken, Seen(s.server, Base(s.client)));
    SubseqOfPrefix(s.client.accepted, s.server.taken, Seen(s.client, Base(s.server)));
  }

  // ---- a run that loses bytes ----

  function Block(): (b: seq<Byte>)
    ensures |b| == IPC_INLINE
  {
    seq(IPC_INLINE, _ => 0)
  }

  lemma RunMore(s: State, actions: seq<Action>, a: Action)
    requires AllAllowed(s, actions) && Allowed(Run(s, actions), a)
    ensures AllAllowed(s, actions + [a]) && Run(s, actions + [a]) == Step(Run(s, actions), a)
    ensures AllFit(s, actions + [a], true) <==> AllFit(s, actions, true) && FitsAt(Run(s, actions), a, true)
  {
    var more := actions + [a];
    assert more[..|more| - 1] == actions && more[|more| - 1] == a;
  }

  /** After `n` blocks sent, received and acknowledged, with nobody reading. */
  predicate Filled(s: State, n: nat) {
    var c, d, end := s.client.conn, s.server.conn, Base(s.client) + n * IPC_INLINE;
    && end < WRAP && |s.client.taken| == n * IPC_INLINE
    && c.used && c.phase.Established? && c.out == [] && c.sndNext == end
    && d.used && (d.phase.SynRcvd? || d.phase.Established?) && d.rcvNext == end
    && |d.rx| == Min(n * IPC_INLINE, TCP_RX)
  }

  function BlockSent(s: State): Segment { Sent(s.client.conn, s.client.conn.sndNext, false, true, false, Block()) }

  /** What the server acknowledges as it stands. */
  function AckOf(s: State): Segment { Sent(s.server.conn, s.server.conn.sndNext, false, true, false, []) }

  lemma OfferFills(s: State, n: nat)
    requires Filled(s, n) && Base(s.client) + (n + 1) * IPC_INLINE < WRAP
    ensures var t := Step(s, Offer(false, Block(), 0));
            && Allowed(s, Offer(false, Block(), 0)) && t.server == s.server && BlockSent(s) in t.toServer
            && t.client.conn == s.client.conn.(out := Block(), outSeq := s.client.conn.sndNext, outTries := 0,
                                               outDeadline := 400, sndNext := Base(s.client) + (n + 1) * IPC_INLINE)
            && t.client.taken == s.client.taken + Block() && t.client.iss == s.client.iss
  {
    assert Block()[..IPC_INLINE] == Block();
    assert OfferSends(s.client.conn, Block()) == [BlockSent(s)];
    assert BlockSent(s) in Segments([BlockSent(s)]);
  }

  lemma DeliveryFills(t: State, n: nat, seg: Segment)
    requires var end := Base(t.client) + n * IPC_INLINE;
             && seg == Segment(end, seg.ackNo, false, true, false, false, seg.window, Block()) && seg in t.toServer
             && end + IPC_INLINE < WRAP && t.server.conn.used && t.server.conn.rcvNext == end
             && (t.server.conn.phase.SynRcvd? || t.server.conn.phase.Established?)
             && |t.server.conn.rx| == Min(n * IPC_INLINE, TCP_RX)
    ensures var u := Step(t, Deliver(true, seg, 0));
            && Allowed(t, Deliver(true, seg, 0)) && u.client == t.client
            && u.server.conn.used && u.server.conn.phase.Established?
            && u.server.conn.rcvNext == Base(t.client) + (n + 1) * IPC_INLINE
            && |u.server.conn.rx| == Min((n + 1) * IPC_INLINE, TCP_RX)
            && AckOf(u) in u.toClient
    ensures FitsAt(t, Deliver(true, seg, 0), true) <==> (n + 1) * IPC_INLINE <= TCP_RX
  {
    ArriveStores(t.server.conn, seg);
    var r := Replies(t.server.conn, seg);
    assert |r| == 1 && r[0] == AckOf(Step(t, Deliver(true, seg, 0)));
    assert r[0] in Segments(r);
  }

  lemma AckFills(u: State, n: nat)
    requires var c, end := u.client.conn, Base(u.client) + n * IPC_INLINE;
             && c.used && c.phase.Established? && c.sndNext == end + IPC_INLINE < WRAP && c.outSeq == end && |c.out| == IPC_INLINE
             && u.server.conn.rcvNext == end + IPC_INLINE && AckOf(u) in u.toClient
    ensures var v := Step(u, Deliver(false, AckOf(u), 0));
            && Allowed(u, Deliver(false, AckOf(u), 0)) && v.server == u.server
            && v.client.conn == u.client.conn.(out := [], outTries := 0)
            && v.client.taken == u.client.taken && v.client.iss == u.client.iss
  {
  }

  /** One more block is taken, received as far as it fits, and acknowledged whole. */
  lemma RoundFills(s0: State, actions: seq<Action>, n: nat) returns (more: seq<Action>)
    requires AllAllowed(s0, actions) && Filled(Run(s0, actions), n)
    requires Base(Run(s0, actions).client) + (n + 1) * IPC_INLINE < WRAP
    ensures AllAllowed(s0, more) && Filled(Run(s0, more), n + 1) && Run(s0, more).client.iss == Run(s0, actions).client.iss
    ensures (n + 1) * IPC_INLINE > TCP_RX ==> !AllFit(s0, more, true)
  {
    var s := Run(s0, actions);
    var offer, seg := Offer(false, Block(), 0), BlockSent(s);
    OfferFills(s, n);
    RunMore(s0, actions, offer);
    var t := Step(s, offer);
    DeliveryFills(t, n, seg);
    RunMore(s0, actions + [offer], Deliver(true, seg, 0));
    var u := Step(t, Deliver(true, seg, 0));
    AckFills(u, n);
    RunMore(s0, actions + [offer] + [Deliver(true, seg, 0)], Deliver(false, AckOf(u), 0));
    more := actions + [offer] + [Deliver(true, seg, 0)] + [Deliver(false, AckOf(u), 0)];
  }

  /** The handshake. */
  lemma Opens(id: nat, ip: nat, port: nat, local: nat, iss: nat) returns (actions: seq<Action>)
    requires iss + 1 < WRAP
    ensures var s0 := Start(id, ip, port, local, iss);
            AllAllowed(s0, actions) && Filled(Run(s0, actions), 0) && Run(s0, actions).client.iss == iss
  {
    var s0 := Start(id, ip, port, local, iss);
    var syn := Sent(s0.client.conn, iss, true, false, false, []);
    var s1 := Step(s0, Deliver(true, syn, 0));
    var answer := Sent(s1.server.conn, 0, true, true, false, []);
    assert Run(s0, []) == s0;
    RunMore(s0, [], Deliver(true, syn, 0));
    assert [] + [Deliver(true, syn, 0)] == [Deliver(true, syn, 0)];
    RunMore(s0, [Deliver(true, syn, 0)], Deliver(false, answer, 0));
    actions := [Deliver(true, syn, 0)] + [Deliver(false, answer, 0)];
  }

  lemma {:induction false} Fills(id: nat, ip: nat, port: nat, local: nat, iss: nat, n: nat) returns (actions: seq<Action>)
    requires iss + 1 + n * IPC_INLINE < WRAP
    ensures var s0 := Start(id, ip, port, local, iss);
            && AllAllowed(s0, actions) && Filled(Run(s0, actions), n) && Run(s0, actions).client.iss == iss
            && (n * IPC_INLINE > TCP_RX ==> !AllFit(s0, actions, true))
    decreases n
  {
    if n == 0 {
      actions := Opens(id, ip, port, local, iss);
    } else {
      actions := Fills(id, ip, port, local, iss, n - 1);
      actions := RoundFills(Start(id, ip, port, local, iss), actions, n - 1);
    }
  }

  /**
   With nobody reading, thirty-three blocks overrun the buffer: the sender has
   nothing outstanding, and the receiver has not accepted all it took.
   */
  lemma OverflowReached(id: nat, ip: nat, port: nat, local: nat, iss: nat) returns (actions: seq<Action>)
    requires iss + 1 + 33 * IPC_INLINE < WRAP
    ensures var s0 := Start(id, ip, port, local, iss);
            var s := Run(s0, actions);
            && AllAllowed(s0, actions) && !AllFit(s0, actions, true)
            && s.client.conn.phase.Established? && s.client.conn.out == [] && s.server.accepted != s.client.taken
  {
    actions := Fills(id, ip, port, local, iss, 33);
    StreamTheorem(id, ip, port, local, iss, actions);
  }
}
