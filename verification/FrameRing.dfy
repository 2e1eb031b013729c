/**
 The receive path from the card to the network stack: the card completes
 descriptors, the driver moves frames into a shared ring, the stack takes them
 out. Three parties run at once and synchronise on nothing but the ring's two
 indices, so every memory operation of the loops is a step of its own and the
 steps interleave arbitrarily.
 */
module FrameRing {
  import opened Bytes

  type Frame = seq<Byte>

  const RX_COUNT := 32      // descriptors the card and the driver share
  const RX_SLOTS := 32      // slots the driver and the stack share
  const FRAME_MAX := 1536   // what a slot holds

  // ---- the three parties and what they share ----

  /** A receive descriptor: its done bit, and the frame in its buffer. */
  datatype Desc = Desc(done: bool, frame: Frame)

  /** The descriptor ring, with the card's head and the tail the driver gave it. */
  datatype DescRing0 = DescRing(descs: seq<Desc>, rdh: nat, rdt: nat)
  type DescRing = r: DescRing0 | |r.descs| == RX_COUNT && r.rdh < RX_COUNT && r.rdt < RX_COUNT
    witness DescRing(seq(RX_COUNT, _ => Desc(false, [])), 0, 0)

  /** A slot of the shared ring: the length word, and the bytes. */
  datatype Slot = Slot(length: nat, data: Frame)

  /** The shared ring: the driver moves `head`, the stack moves `tail`. */
  datatype SlotRing0 = SlotRing(slots: seq<Slot>, head: nat, tail: nat)
  type SlotRing = r: SlotRing0 | |r.slots| == RX_SLOTS && r.head < RX_SLOTS && r.tail < RX_SLOTS
    witness SlotRing(seq(RX_SLOTS, _ => Slot(0, [])), 0, 0)

  /** Where the driver is inside its receive loop. */
  datatype DriverAt =
    | Polling                 // about to look at the descriptor after the tail
    | Deciding                // found it done; about to compare the indices
    | Dropping                // the ring is full; about to count the loss
    | Copying                 // writing the frame into the slot at the head
    | Sizing                  // bytes in place; about to write the length
    | Publishing              // about to move the head
    | Releasing               // about to give the descriptor back to the card

  /** Where the stack is inside its drain loop. */
  datatype StackAt =
    | Looking                 // about to compare the indices
    | Handling                // reading the frame in the slot at the tail
    | Freeing                 // done with it; about to move the tail

  /** What became of a completed descriptor. */
  datatype Outcome = Published | Dropped | Unusable

  /**
   The whole system. The last five fields are history: every frame the card
   completed, the outcome of those the driver decided on, the frames published,
   the frames the stack read, and how many slots it has freed.
   */
  datatype State = State(
    card: DescRing, ring: SlotRing, dropped: nat, driver: DriverAt, stack: StackAt,
    arrived: seq<Frame>, outcomes: seq<Outcome>, published: seq<Frame>, handled: seq<Frame>, freed: nat)

  function Start(): State {
    State(DescRing(seq(RX_COUNT, _ => Desc(false, [])), 0, RX_COUNT - 1),
          SlotRing(seq(RX_SLOTS, _ => Slot(0, [])), 0, 0), 0, Polling, Looking, [], [], [], [], 0)
  }

  predicate Usable(f: Frame) { 0 < |f| <= FRAME_MAX }

  // ---- the steps ----

  /**
   One step by one party. The card supplies a frame of any length; a driver in
   the middle of its copy leaves whatever `junk` half a copy looks like, and
   moves on only when `more` says the copy is complete.
   */
  datatype Action = Card(frame: Frame) | Driver(more: bool, junk: Slot) | Stack

  /** The card completes the next descriptor, unless it has caught up with the tail. */
  function CardStep(s: State, frame: Frame): State {
    var c := s.card;
    if c.rdh == c.rdt then s
    else s.(card := DescRing(c.descs[c.rdh := Desc(true, frame)], (c.rdh + 1) % RX_COUNT, c.rdt),
            arrived := s.arrived + [frame])
  }

  function DriverStep(s: State, more: bool, junk: Slot): State {
    var index := (s.card.rdt + 1) % RX_COUNT;
    var d := s.card.descs[index];
    var r := s.ring;
    match s.driver
    case Polling => if d.done then s.(driver := Deciding) else s
    case Deciding =>
      if (r.head + 1) % RX_SLOTS == r.tail then
        s.(driver := Dropping, outcomes := s.outcomes + [Dropped])
      else if Usable(d.frame) then s.(driver := Copying)
      else s.(driver := Releasing, outcomes := s.outcomes + [Unusable])
    case Dropping => s.(dropped := s.dropped + 1, driver := Releasing)
    case Copying =>
      if more then s.(ring := SlotRing(r.slots[r.head := junk], r.head, r.tail))
      else s.(ring := SlotRing(r.slots[r.head := Slot(junk.length, d.frame)], r.head, r.tail),
              driver := Sizing)
    case Sizing =>
      s.(ring := SlotRing(r.slots[r.head := Slot(|d.frame|, r.slots[r.head].data)], r.head, r.tail),
         driver := Publishing)
    case Publishing =>
      s.(ring := SlotRing(r.slots, (r.head + 1) % RX_SLOTS, r.tail), driver := Releasing,
         published := s.published + [d.frame], outcomes := s.outcomes + [Published])
    case Releasing =>
      s.(card := DescRing(s.card.descs[index := Desc(false, d.frame)], s.card.rdh, index),
         driver := Polling)
  }

  /** The bytes a reader of the slot at `at` sees: as many as its length says. */
  function InSlot(slot: Slot): Frame {
    if slot.length <= |slot.data| then slot.data[..slot.length] else slot.data
  }

  function StackStep(s: State): State {
    var r := s.ring;
    match s.stack
    case Looking => if r.tail != r.head then s.(stack := Handling) else s
    case Handling => s.(stack := Freeing, handled := s.handled + [InSlot(r.slots[r.tail])])
    case Freeing =>
      s.(ring := SlotRing(r.slots, r.head, (r.tail + 1) % RX_SLOTS), stack := Looking, freed := s.freed + 1)
  }

  function Step(s: State, a: Action): State {
    match a
    case Card(frame) => CardStep(s, frame)
    case Driver(more, junk) => DriverStep(s, more, junk)
    case Stack => StackStep(s)
  }

  /** The state after an interleaving of the three parties. */
  function Run(actions: seq<Action>): State {
    if actions == [] then Start()
    else Step(Run(actions[..|actions| - 1]), actions[|actions| - 1])
  }

  // ---- positions on a ring of 32 ----

  /** The index the n-th element of an endless stream has on the ring. */
  ghost function Wrap(n: nat): nat {
    if n < 32 then n else Wrap(n - 32)
  }

  lemma {:induction false} WrapNext(n: nat)
    ensures Wrap(n) < 32 && Wrap(n + 1) == (Wrap(n) + 1) % 32
  {
    if n >= 32 { WrapNext(n - 32); }
  }

  lemma {:induction false} WrapDiffers(n: nat, m: nat)
    requires n < m < n + 32
    ensures Wrap(n) < 32 && Wrap(m) < 32 && Wrap(n) != Wrap(m)
    decreases n
  {
    WrapNext(n);
    WrapNext(m);
    if n >= 32 {
      WrapDiffers(n - 32, m - 32);
    }
  }

  // ---- the invariant ----

  /** Outcomes decided for descriptors already given back. */
  function Returned(s: State): int {
    if s.driver.Dropping? || s.driver.Releasing? then |s.outcomes| - 1 else |s.outcomes|
  }

  /** Arrivals from `lo` on are in the ring, done and intact; the other descriptors are the card's. */
  ghost predicate CardSide(c: DescRing, arrived: seq<Frame>, lo: int) {
    && 0 <= lo <= |arrived| < lo + 32
    && c.rdh == Wrap(|arrived|)
    && c.rdt == Wrap(lo + 31)
    && (forall n: nat :: lo <= n < |arrived| ==> Wrap(n) < 32 && c.descs[Wrap(n)] == Desc(true, arrived[n]))
    && (forall n: nat :: |arrived| <= n < lo + 32 ==> Wrap(n) < 32 && !c.descs[Wrap(n)].done)
  }

  /** A slot holding all of `f`. */
  function Whole(f: Frame): Slot { Slot(|f|, f) }

  /** Published frames from `freed` on are in the ring and whole. */
  ghost predicate SlotSide(r: SlotRing, published: seq<Frame>, freed: nat) {
    && freed <= |published| < freed + 32
    && r.head == Wrap(|published|) && r.tail == Wrap(freed)
    && (forall n: nat :: freed <= n < |published| ==> Wrap(n) < 32 && r.slots[Wrap(n)] == Whole(published[n]))
  }

  /** What the driver's place in its loop says about the two rings. */
  ghost predicate DriverKnows(s: State) {
    && 0 <= Returned(s) <= |s.arrived| && |s.outcomes| <= |s.arrived|
    && (!s.driver.Polling? ==> Returned(s) < |s.arrived|)
    && (s.driver.Copying? || s.driver.Sizing? || s.driver.Publishing? ==>
          |s.published| < s.freed + 31 && Usable(s.arrived[Returned(s)]))
    && (s.driver.Sizing? ==> s.ring.slots[s.ring.head].data == s.arrived[Returned(s)])
    && (s.driver.Publishing? ==> s.ring.slots[s.ring.head] == Whole(s.arrived[Returned(s)]))
  }

  /** What the stack's place in its loop says about the slot ring. */
  ghost predicate StackKnows(s: State) {
    && (s.stack.Handling? ==> s.freed < |s.published|)
    && |s.handled| == s.freed + (if s.stack.Freeing? then 1 else 0)
    && s.handled <= s.published
  }

  /** The arrivals whose outcome was to be published, in order. */
  function Kept(frames: seq<Frame>, outcomes: seq<Outcome>): seq<Frame>
    requires |outcomes| <= |frames|
  {
    if outcomes == [] then []
    else if outcomes[0].Published? then [frames[0]] + Kept(frames[1..], outcomes[1..])
    else Kept(frames[1..], outcomes[1..])
  }

  function Count(outcomes: seq<Outcome>, o: Outcome): nat {
    if outcomes == [] then 0 else (if outcomes[0] == o then 1 else 0) + Count(outcomes[1..], o)
  }

  /** What became of the arrivals decided so far. */
  ghost predicate Ledger(arrived: seq<Frame>, outcomes: seq<Outcome>, published: seq<Frame>, drops: nat) {
    && |outcomes| <= |arrived|
    && published == Kept(arrived, outcomes)
    && drops == Count(outcomes, Dropped)
    && (forall n :: 0 <= n < |outcomes| && outcomes[n].Published? ==> Usable(arrived[n]))
    && (forall n :: 0 <= n < |outcomes| && outcomes[n].Unusable? ==> !Usable(arrived[n]))
  }

  ghost predicate Accounted(s: State) {
    Ledger(s.arrived, s.outcomes, s.published, s.dropped + (if s.driver.Dropping? then 1 else 0))
  }

  ghost predicate Inv(s: State) {
    && DriverKnows(s)
    && CardSide(s.card, s.arrived, Returned(s))
    && SlotSide(s.ring, s.published, s.freed)
    && StackKnows(s)
    && Accounted(s)
  }

  // ---- every step keeps it ----

  lemma {:induction false} KeptMore(frames: seq<Frame>, outcomes: seq<Outcome>, f: Frame)
    requires |outcomes| <= |frames|
    ensures Kept(frames + [f], outcomes) == Kept(frames, outcomes)
  {
    if outcomes != [] {
      KeptMore(frames[1..], outcomes[1..], f);
      assert (frames + [f])[1..] == frames[1..] + [f];
    }
  }

  lemma {:induction false} KeptLast(frames: seq<Frame>, outcomes: seq<Outcome>, o: Outcome, p: Outcome)
    requires |outcomes| < |frames|
    ensures Kept(frames, outcomes + [o]) ==
            Kept(frames, outcomes) + (if o.Published? then [frames[|outcomes|]] else [])
    ensures Count(outcomes + [o], p) == Count(outcomes, p) + (if p == o then 1 else 0)
  {
    if outcomes != [] {
      KeptLast(frames[1..], outcomes[1..], o, p);
      assert (outcomes + [o])[1..] == outcomes[1..] + [o];
    }
  }

  lemma LedgerArrives(arrived: seq<Frame>, outcomes: seq<Outcome>, published: seq<Frame>, drops: nat, frame: Frame)
    requires Ledger(arrived, outcomes, published, drops)
    ensures Ledger(arrived + [frame], outcomes, published, drops)
  {
    KeptMore(arrived, outcomes, frame);
  }

  lemma LedgerDecides(arrived: seq<Frame>, outcomes: seq<Outcome>, published: seq<Frame>, drops: nat, o: Outcome)
    requires Ledger(arrived, outcomes, published, drops) && |outcomes| < |arrived|
    requires o.Published? ==> Usable(arrived[|outcomes|])
    requires o.Unusable? ==> !Usable(arrived[|outcomes|])
    ensures Ledger(arrived, outcomes + [o], if o.Published? then published + [arrived[|outcomes|]] else published,
                   if o.Dropped? then drops + 1 else drops)
  {
    KeptLast(arrived, outcomes, o, Dropped);
  }

  lemma CardSideArrives(c: DescRing, arrived: seq<Frame>, lo: int, frame: Frame)
    requires CardSide(c, arrived, lo) && c.rdh != c.rdt
    ensures CardSide(DescRing(c.descs[c.rdh := Desc(true, frame)], (c.rdh + 1) % RX_COUNT, c.rdt),
                     arrived + [frame], lo)
  {
    var a := |arrived|;
    WrapNext(a);
    forall n: nat | lo <= n < lo + 32 && n != a ensures Wrap(n) < 32 && Wrap(n) != Wrap(a) {
      if n < a { WrapDiffers(n, a); } else { WrapDiffers(a, n); }
    }
  }

  lemma CardKeeps(s: State, frame: Frame)
    requires Inv(s)
    ensures Inv(CardStep(s, frame))
  {
    if s.card.rdh != s.card.rdt {
      CardSideArrives(s.card, s.arrived, Returned(s), frame);
      LedgerArrives(s.arrived, s.outcomes, s.published, s.dropped + (if s.driver.Dropping? then 1 else 0), frame);
    }
  }

  lemma StackReads(s: State)
    requires Inv(s) && s.stack.Handling?
    ensures Inv(StackStep(s))
  {
    var f := s.published[s.freed];
    assert InSlot(s.ring.slots[s.ring.tail]) == f by { assert f[..|f|] == f; }
    assert s.handled + [f] == s.published[..s.freed + 1];
  }

  lemma SlotSideFrees(r: SlotRing, published: seq<Frame>, freed: nat)
    requires SlotSide(r, published, freed) && freed < |published|
    ensures SlotSide(SlotRing(r.slots, r.head, (r.tail + 1) % RX_SLOTS), published, freed + 1)
  {
    WrapNext(freed);
  }

  lemma StackLooks(s: State)
    requires Inv(s) && s.stack.Looking?
    ensures Inv(StackStep(s))
  {
  }

  lemma StackFrees(s: State)
    requires Inv(s) && s.stack.Freeing?
    ensures Inv(StackStep(s))
  {
    SlotSideFrees(s.ring, s.published, s.freed);
  }

  lemma StackKeeps(s: State)
    requires Inv(s)
    ensures Inv(StackStep(s))
  {
    match s.stack
    case Looking => StackLooks(s);
    case Handling => StackReads(s);
    case Freeing => StackFrees(s);
  }

  /** The descriptor the driver is about to look at belongs to the next arrival to be decided. */
  lemma NextDesc(s: State)
    requires Inv(s)
    ensures var index := (s.card.rdt + 1) % RX_COUNT;
            && index == Wrap(Returned(s))
            && (if Returned(s) < |s.arrived| then s.card.descs[index] == Desc(true, s.arrived[Returned(s)])
                else !s.card.descs[index].done)
  {
    var lo: nat := Returned(s);
    WrapNext(lo + 31);
    assert Wrap(lo + 32) == Wrap(lo);
    WrapNext(lo);
  }

  lemma SlotSideWrites(r: SlotRing, published: seq<Frame>, freed: nat, slot: Slot)
    requires SlotSide(r, published, freed)
    ensures SlotSide(SlotRing(r.slots[r.head := slot], r.head, r.tail), published, freed)
  {
    forall n: nat | freed <= n < |published| ensures Wrap(n) != Wrap(|published|) {
      WrapDiffers(n, |published|);
    }
  }

  lemma SlotSidePublishes(r: SlotRing, published: seq<Frame>, freed: nat, f: Frame)
    requires SlotSide(r, published, freed) && |published| < freed + 31
    requires r.slots[r.head] == Whole(f)
    ensures SlotSide(SlotRing(r.slots, (r.head + 1) % RX_SLOTS, r.tail), published + [f], freed)
  {
    WrapNext(|published|);
  }

  lemma CardSideReleases(c: DescRing, arrived: seq<Frame>, lo: nat, frame: Frame)
    requires CardSide(c, arrived, lo) && lo < |arrived|
    ensures Wrap(lo) < 32
    ensures CardSide(DescRing(c.descs[Wrap(lo) := Desc(false, frame)], c.rdh, Wrap(lo)), arrived, lo + 1)
  {
    WrapNext(lo);
    assert Wrap(lo + 32) == Wrap(lo);
    forall n: nat | lo < n < lo + 32 ensures Wrap(n) < 32 && Wrap(n) != Wrap(lo) {
      WrapDiffers(lo, n);
    }
  }

  /** The index comparison finds the ring full exactly when 31 frames are unread. */
  lemma FullIff(r: SlotRing, published: seq<Frame>, freed: nat)
    requires SlotSide(r, published, freed)
    ensures (r.head + 1) % RX_SLOTS == r.tail <==> |published| == freed + 31
  {
    WrapNext(|published|);
    if |published| + 1 < freed + 32 {
      WrapDiffers(freed, |published| + 1);
    } else {
      assert Wrap(freed + 32) == Wrap(freed);
    }
  }

  /** Deciding against a frame records its outcome and touches neither ring. */
  lemma OutcomeKeeps(s: State, o: Outcome)
    requires Inv(s) && s.driver.Deciding? && !o.Published? && (o.Unusable? ==> !Usable(s.arrived[Returned(s)]))
    ensures Inv(s.(driver := if o.Dropped? then Dropping else Releasing, outcomes := s.outcomes + [o]))
  {
    LedgerDecides(s.arrived, s.outcomes, s.published, s.dropped, o);
  }

  /** What the driver decides, said of the arrivals rather than of the rings. */
  function Decided(s: State, full: bool, usable: bool): State {
    if full then s.(driver := Dropping, outcomes := s.outcomes + [Dropped])
    else if usable then s.(driver := Copying)
    else s.(driver := Releasing, outcomes := s.outcomes + [Unusable])
  }

  lemma DecidesSo(s: State, more: bool, junk: Slot)
    requires Inv(s) && s.driver.Deciding?
    ensures DriverStep(s, more, junk) ==
            Decided(s, |s.published| == s.freed + 31, Usable(s.arrived[Returned(s)]))
  {
    NextDesc(s);
    FullIff(s.ring, s.published, s.freed);
  }

  lemma DriverDecides(s: State, more: bool, junk: Slot)
    requires Inv(s) && s.driver.Deciding?
    ensures Inv(DriverStep(s, more, junk))
    ensures DriverStep(s, more, junk).driver.Dropping? <==> |s.published| == s.freed + 31
  {
    DecidesSo(s, more, junk);
    if |s.published| == s.freed + 31 {
      OutcomeKeeps(s, Dropped);
    } else if !Usable(s.arrived[Returned(s)]) {
      OutcomeKeeps(s, Unusable);
    } else {
      CopyKeeps(s);
    }
  }

  lemma CopyKeeps(s: State)
    requires Inv(s) && s.driver.Deciding? && |s.published| < s.freed + 31 && Usable(s.arrived[Returned(s)])
    ensures Inv(s.(driver := Copying))
  {
  }

  lemma DriverWrites(s: State, more: bool, junk: Slot)
    requires Inv(s) && (s.driver.Copying? || s.driver.Sizing?)
    ensures Inv(DriverStep(s, more, junk))
  {
    NextDesc(s);
    var s' := DriverStep(s, more, junk);
    SlotSideWrites(s.ring, s.published, s.freed, s'.ring.slots[s.ring.head]);
    assert s'.ring.slots == s.ring.slots[s.ring.head := s'.ring.slots[s.ring.head]];
  }

  lemma DriverPublishes(s: State, more: bool, junk: Slot)
    requires Inv(s) && s.driver.Publishing?
    ensures Inv(DriverStep(s, more, junk))
  {
    NextDesc(s);
    LedgerDecides(s.arrived, s.outcomes, s.published, s.dropped, Published);
    SlotSidePublishes(s.ring, s.published, s.freed, s.arrived[Returned(s)]);
  }

  lemma DriverPolls(s: State, more: bool, junk: Slot)
    requires Inv(s) && s.driver.Polling?
    ensures Inv(DriverStep(s, more, junk))
  {
    NextDesc(s);
  }

  lemma DriverDrops(s: State, more: bool, junk: Slot)
    requires Inv(s) && s.driver.Dropping?
    ensures Inv(DriverStep(s, more, junk))
  {
  }

  lemma DriverReleases(s: State, more: bool, junk: Slot)
    requires Inv(s) && s.driver.Releasing?
    ensures Inv(DriverStep(s, more, junk))
  {
    NextDesc(s);
    CardSideReleases(s.card, s.arrived, Returned(s), s.arrived[Returned(s)]);
  }

  lemma DriverKeeps(s: State, more: bool, junk: Slot)
    requires Inv(s)
    ensures Inv(DriverStep(s, more, junk))
  {
    match s.driver {
      case Polling => DriverPolls(s, more, junk);
      case Deciding => DriverDecides(s, more, junk);
      case Dropping => DriverDrops(s, more, junk);
      case Copying => DriverWrites(s, more, junk);
      case Sizing => DriverWrites(s, more, junk);
      case Publishing => DriverPublishes(s, more, junk);
      case Releasing => DriverReleases(s, more, junk);
    }
  }

  lemma StartInv()
    ensures Inv(Start())
  {
    forall n: nat | n < 32 ensures Wrap(n) == n {
    }
  }

  lemma {:induction false} RunInv(actions: seq<Action>)
    ensures Inv(Run(actions))
  {
    if actions == [] {
      StartInv();
    } else {
      var before, a := actions[..|actions| - 1], actions[|actions| - 1];
      RunInv(before);
      match a
      case Card(frame) => CardKeeps(Run(before), frame);
      case Driver(more, junk) => DriverKeeps(Run(before), more, junk);
      case Stack => StackKeeps(Run(before));
    }
  }

  // ---- what that means, over every interleaving ----

  /** The stack handles exactly the published frames, in order, none twice and none torn. */
  lemma HandledInOrder(actions: seq<Action>)
    ensures var s := Run(actions);
            && s.handled <= s.published
            && (s.ring.head == s.ring.tail && s.stack.Looking? ==> s.handled == s.published)
  {
    RunInv(actions);
    var s := Run(actions);
    if s.ring.head == s.ring.tail && s.freed < |s.published| {
      WrapDiffers(s.freed, |s.published|);
    }
  }

  /** A slot being written is never the one the stack may be reading, and what it reads is whole. */
  lemma SlotsExclusive(actions: seq<Action>)
    ensures var s := Run(actions);
            s.stack.Handling? ==>
              && s.ring.head != s.ring.tail
              && |s.handled| < |s.published|
              && InSlot(s.ring.slots[s.ring.tail]) == s.published[|s.handled|]
  {
    RunInv(actions);
    var s := Run(actions);
    if s.stack.Handling? {
      WrapDiffers(s.freed, |s.published|);
    }
  }

  /**
   Every completed descriptor is published, counted as dropped or of a length
   no slot can hold, in arrival order; the rest are still in the descriptor ring.
   */
  lemma EveryFrameAccounted(actions: seq<Action>)
    ensures var s := Run(actions);
            s.driver.Polling? ==>
              && |s.outcomes| <= |s.arrived| < |s.outcomes| + 32
              && s.published == Kept(s.arrived, s.outcomes)
              && s.dropped == Count(s.outcomes, Dropped)
              && |s.outcomes| == |s.published| + s.dropped + Count(s.outcomes, Unusable)
              && (forall n :: 0 <= n < |s.outcomes| && s.outcomes[n].Unusable? ==> !Usable(s.arrived[n]))
              && (forall n :: 0 <= n < |s.outcomes| && s.outcomes[n].Published? ==> Usable(s.arrived[n]))
  {
    RunInv(actions);
    var s := Run(actions);
    KeptCount(s.arrived, s.outcomes);
  }

  lemma {:induction false} KeptCount(frames: seq<Frame>, outcomes: seq<Outcome>)
    requires |outcomes| <= |frames|
    ensures |outcomes| ==
            |Kept(frames, outcomes)| + Count(outcomes, Dropped) + Count(outcomes, Unusable)
  {
    if outcomes != [] {
      KeptCount(frames[1..], outcomes[1..]);
    }
  }

  /** A frame is dropped exactly when the stack is a whole ring behind. */
  lemma DropMeansFull(actions: seq<Action>, more: bool, junk: Slot)
    requires Run(actions).driver.Deciding?
    ensures DriverStep(Run(actions), more, junk).driver.Dropping? <==>
            |Run(actions).published| == Run(actions).freed + RX_SLOTS - 1
  {
    RunInv(actions);
    DriverDecides(Run(actions), more, junk);
  }
}
